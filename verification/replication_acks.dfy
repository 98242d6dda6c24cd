/** What the retry table holds: exactly the events of the node's sources that have not
    come back to it (src/exo/routing/event_router.py:83-109). */
module ReplicationAcks {
  import opened EventBuffer
  import opened Messages
  import opened EventRouter
  import opened Replication
  import opened ReplicationSafety
  import opened ReplicationRetry

  /** The node has taken a log entry with this id off the network, released or waiting. */
  ghost predicate Back<B>(b: Buffer<Event<B>>, log: seq<Event<B>>, id: nat)
  {
    exists k: nat :: k < |log| && Has(b, k) && log[k].id == id
  }

  /** The source's node holds the event for another try exactly until it comes back. */
  ghost predicate HeldExactly<B, S>(session: SessionId, s: System<B, S>, source: SystemId, i: nat)
    requires source in s.sent && i < |s.sent[source]|
  {
    var e := s.sent[source][i];
    && source.node in s.nodes
    && (Remembered(s.nodes, LocalMessage(source, i, session, e))
        <==> !Back(s.nodes[source.node].router.buffer, s.master.log, e.id))
    && (e.id in s.nodes[source.node].router.outForDelivery
        <==> !Back(s.nodes[source.node].router.buffer, s.master.log, e.id))
  }

  ghost predicate TableExact<B, S>(session: SessionId, s: System<B, S>)
  {
    forall source, i: nat :: source in s.sent && i < |s.sent[source]| ==> HeldExactly(session, s, source, i)
  }

  // ----- what a buffer has -----

  lemma {:induction false} DrainKeepsHas<T>(b: Buffer<T>, i: nat)
    ensures Has(b.Rest(), i) <==> Has(b, i)
    decreases |b.store|
  {
    if b.next in b.store {
      b.PopShrinks();
      DrainKeepsHas(b.Pop(), i);
    }
  }

  /** A taken message adds its own index and nothing else. */
  lemma {:induction false} TakenAdds<T>(b: Buffer<T>, idx: nat, t: T, i: nat)
    ensures Has(b.Ingest(idx, t).Rest(), i) <==> Has(b, i) || i == idx
  {
    DrainKeepsHas(b.Ingest(idx, t), i);
  }

  lemma {:induction false} BackAfter<B>(b: Buffer<Event<B>>, log: seq<Event<B>>, idx: nat, id: nat)
    requires idx < |log|
    ensures Back(b.Ingest(idx, log[idx]).Rest(), log, id) <==> Back(b, log, id) || id == log[idx].id
  {
    forall k: nat ensures Has(b.Ingest(idx, log[idx]).Rest(), k) <==> Has(b, k) || k == idx {
      TakenAdds(b, idx, log[idx], k);
    }
  }

  lemma {:induction false} BackLonger<B>(b: Buffer<Event<B>>, log: seq<Event<B>>, e: Event<B>, id: nat)
    requires Follows(b, log)
    ensures Back(b, log + [e], id) <==> Back(b, log, id)
  {
    if k: nat :| k < |log| && Has(b, k) && log[k].id == id {
      assert (log + [e])[k].id == id;
    }
    assert !Has(b, |log|);
  }

  // ----- ids in the log -----

  lemma {:induction false} LoggedIsSent<B, S>(sent: map<SystemId, seq<Event<B>>>, m: Master<B, S>, k: nat)
    returns (origin: SystemId, h: nat)
    requires MasterOk(sent, m) && k < |m.log|
    ensures origin in sent && h < |sent[origin]| && sent[origin][h].id == m.log[k].id
  {
    origin := m.origins[k];
    var own, cut := SentBy(sent, origin), m.buffers.At(origin).next;
    assert Follows(m.buffers.At(origin), own) && ExactlyOnce(sent, m, origin);
    LoggedIsProjected(m.log, m.origins, k);
    var held := Projection(m.log, m.origins, origin);
    var j :| 0 <= j < |held| && held[j].id == m.log[k].id;
    assert Kept(own[..cut])[j] == held[j];
    KeptFrom(own[..cut], m.log[k].id);
    h :| 0 <= h < |own[..cut]| && own[..cut][h].id == m.log[k].id;
    assert own[h].id == m.log[k].id;
  }

  lemma {:induction false} FreshDiffers<B>(
    sent: map<SystemId, seq<Event<B>>>, source: SystemId, e: Event<B>, origin: SystemId, h: nat)
    requires UniqueIds(sent[source := SentBy(sent, source) + [e]]) && origin in sent && h < |sent[origin]|
    ensures sent[origin][h].id != e.id
  {
    var sent', n := sent[source := SentBy(sent, source) + [e]], |SentBy(sent, source)|;
    assert sent'[source][n] == e && sent'[origin][h] == sent[origin][h] && (origin != source || h != n);
  }

  /** A fresh event is not back yet. */
  lemma {:induction false} FreshIsNotBack<B, S>(
    sent: map<SystemId, seq<Event<B>>>, m: Master<B, S>, source: SystemId, e: Event<B>, b: Buffer<Event<B>>)
    requires MasterOk(sent, m) && UniqueIds(sent[source := SentBy(sent, source) + [e]])
    ensures !Back(b, m.log, e.id)
  {
    forall k: nat | k < |m.log| ensures m.log[k].id != e.id {
      var origin, h := LoggedIsSent(sent, m, k);
      FreshDiffers(sent, source, e, origin, h);
    }
  }

  // ----- every step keeps it -----

  lemma {:induction false} SendKeepsExact<B, S>(
    session: SessionId, c: Reducer<B, S>, s: System<B, S>, step: Step<B>, a: SystemId, i: nat)
    requires Inv(session, c, s) && TableExact(session, s) && step.Send? && Enabled(session, s, step)
    requires var s' := Do(session, c, s, step);
             UniqueIds(s'.sent) && a in s'.sent && i < |s'.sent[a]|
    ensures HeldExactly(session, Do(session, c, s, step), a, i)
  {
    var Send(n, source, e) := step;
    var s' := Do(session, c, s, step);
    var own := SentBy(s.sent, source);
    assert RouterOk(session, s.sent, s.localNet, n, s.nodes[n].router);
    assert s'.sent[source][|own|] == e;
    if a != source || i < |own| {
      assert s'.sent[a][i] == s.sent[a][i] && HeldExactly(session, s, a, i);
      assert s'.sent[a][i].id != e.id;
    } else {
      FreshIsNotBack(s.sent, s.master, source, e, s.nodes[n].router.buffer);
    }
  }

  /** An accepted message takes its event off the table and is back itself. */
  lemma {:induction false} AcceptedIsBack<B>(r: Router<B>, log: seq<Event<B>>, m: GlobalMessage<B>, id: nat)
    requires r.Accepts(m) && m.idx < |log| && log[m.idx] == m.event
    ensures r.Receive(m).outForDelivery == r.outForDelivery - {m.event.id}
    ensures Back(r.Receive(m).buffer, log, id) <==> Back(r.buffer, log, id) || id == m.event.id
  {
    BackAfter(r.buffer, log, m.idx, id);
    assert r.Receive(m).buffer == r.buffer.Ingest(m.idx, m.event).Rest();
  }

  lemma {:induction false} DeliverKeepsExact<B, S>(
    session: SessionId, c: Reducer<B, S>, s: System<B, S>, step: Step<B>, a: SystemId, i: nat)
    requires Inv(session, c, s) && TableExact(session, s) && step.Deliver? && Enabled(session, s, step)
    requires a in s.sent && i < |s.sent[a]|
    ensures HeldExactly(session, Do(session, c, s, step), a, i)
  {
    var Deliver(n, m) := step;
    var r := s.nodes[n].router;
    assert RouterOk(session, s.sent, s.localNet, n, r);
    assert HeldExactly(session, s, a, i);
    if r.Accepts(m) {
      assert m.idx < |s.master.log| && s.master.log[m.idx] == m.event;
      AcceptedIsBack(r, s.master.log, m, s.sent[a][i].id);
    }
  }

  lemma {:induction false} IndexKeepsExact<B, S>(
    session: SessionId, c: Reducer<B, S>, s: System<B, S>, step: Step<B>, a: SystemId, i: nat)
    requires Inv(session, c, s) && TableExact(session, s) && step.MasterIndex? && Enabled(session, s, step)
    requires a in s.sent && i < |s.sent[a]|
    ensures HeldExactly(session, Do(session, c, s, step), a, i)
  {
    assert HeldExactly(session, s, a, i) && ReplicaFollows(c, s.master.log, s.nodes[a.node]);
    BackLonger(s.nodes[a.node].router.buffer, s.master.log, Stamp(s.master.pending[0].1, step.now), s.sent[a][i].id);
  }

  lemma {:induction false} OthersKeepExact<B, S>(
    session: SessionId, c: Reducer<B, S>, s: System<B, S>, step: Step<B>, a: SystemId, i: nat)
    requires TableExact(session, s) && Enabled(session, s, step)
    requires !step.Send? && !step.Deliver? && !step.MasterIndex?
    requires a in s.sent && i < |s.sent[a]|
    ensures Do(session, c, s, step).sent == s.sent && HeldExactly(session, Do(session, c, s, step), a, i)
  {
    assert HeldExactly(session, s, a, i);
  }

  lemma {:induction false} StepKeepsExact<B, S>(session: SessionId, c: Reducer<B, S>, s: System<B, S>, step: Step<B>)
    requires Inv(session, c, s) && TableExact(session, s) && Enabled(session, s, step)
    requires UniqueIds(Do(session, c, s, step).sent)
    ensures TableExact(session, Do(session, c, s, step))
  {
    var s' := Do(session, c, s, step);
    forall a, i: nat | a in s'.sent && i < |s'.sent[a]| ensures HeldExactly(session, s', a, i) {
      if step.Send? {
        SendKeepsExact(session, c, s, step, a, i);
      } else {
        SameSent(session, c, s, step);
        if step.Deliver? {
          DeliverKeepsExact(session, c, s, step, a, i);
        } else if step.MasterIndex? {
          IndexKeepsExact(session, c, s, step, a, i);
        } else {
          OthersKeepExact(session, c, s, step, a, i);
        }
      }
    }
  }

  /** In every run with fresh event ids, a sent event is in its node's retry table if and
      only if it has not come back to that node. */
  lemma {:induction false} HeldUntilBack<B(!new), S>(session: SessionId, c: Reducer<B, S>, run: seq<System<B, S>>)
    requires IsRun(session, c, run) && UniqueIds(run[|run| - 1].sent)
    ensures TableExact(session, run[|run| - 1])
  {
    if |run| > 1 {
      var before, s, s' := run[..|run| - 1], run[|run| - 2], run[|run| - 1];
      var step :| Enabled(session, s, step) && s' == Do(session, c, s, step);
      UniqueBefore(session, c, s, step);
      HeldUntilBack(session, c, before);
      RunKeepsInv(session, c, before);
      StepKeepsExact(session, c, s, step);
    }
  }
}
