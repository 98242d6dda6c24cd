/** What the retry table is for: an event stays in it until the log has the event, so
    resending what it holds brings every event of a source into the log
    (src/exo/routing/event_router.py:57-64, 83-109). */
module ReplicationRetry {
  import opened EventBuffer
  import opened Messages
  import opened EventRouter
  import opened Replication
  import opened ReplicationSafety

  /** Event ids are fresh: no two sent events share one. */
  ghost predicate UniqueIds<B>(sent: map<SystemId, seq<Event<B>>>)
  {
    forall a, i, b, j ::
      && a in sent && 0 <= i < |sent[a]| && b in sent && 0 <= j < |sent[b]| && sent[a][i].id == sent[b][j].id
      ==> a == b && i == j
  }

  ghost predicate InLog<B>(log: seq<Event<B>>, id: nat)
  {
    exists k :: 0 <= k < |log| && log[k].id == id
  }

  /** The router of the event's node will send this message again. */
  ghost predicate Remembered<B, S>(nodes: map<NodeId, Replica<B, S>>, m: LocalMessage<B>)
  {
    && m.origin.node in nodes
    && m.event.id in nodes[m.origin.node].router.outForDelivery
    && nodes[m.origin.node].router.outForDelivery[m.event.id] == m
  }

  ghost predicate TrackedEvent<B, S>(session: SessionId, s: System<B, S>, source: SystemId, i: nat)
    requires source in s.sent && i < |s.sent[source]|
  {
    var e := s.sent[source][i];
    InLog(s.master.log, e.id) || Remembered(s.nodes, LocalMessage(source, i, session, e))
  }

  /** Every sent event is in the log or still remembered under its own message. */
  ghost predicate Tracked<B, S>(session: SessionId, s: System<B, S>)
  {
    forall source, i :: source in s.sent && 0 <= i < |s.sent[source]| ==> TrackedEvent(session, s, source, i)
  }

  // ----- every step keeps it -----

  lemma {:induction false} InLogLonger<B>(log: seq<Event<B>>, e: Event<B>, id: nat)
    requires InLog(log, id)
    ensures InLog(log + [e], id)
  {
    var k :| 0 <= k < |log| && log[k].id == id;
    assert (log + [e])[k].id == id;
  }

  lemma {:induction false} SendKeepsTracked<B, S>(
    session: SessionId, c: Reducer<B, S>, s: System<B, S>, step: Step<B>, a: SystemId, i: nat)
    requires Inv(session, c, s) && Tracked(session, s) && step.Send? && Enabled(session, s, step)
    requires var s' := Do(session, c, s, step);
             UniqueIds(s'.sent) && a in s'.sent && i < |s'.sent[a]|
    ensures TrackedEvent(session, Do(session, c, s, step), a, i)
  {
    var Send(n, source, e) := step;
    var s' := Do(session, c, s, step);
    var own := SentBy(s.sent, source);
    assert RouterOk(session, s.sent, s.localNet, n, s.nodes[n].router);
    assert s'.sent[source][|own|] == e;
    if a != source || i < |own| {
      assert s'.sent[a][i] == s.sent[a][i] && TrackedEvent(session, s, a, i);
      assert s'.sent[a][i].id != e.id;
    }
  }

  /** What an accepted message removes from the table is in the log. */
  lemma {:induction false} DeliverKeepsTracked<B, S>(
    session: SessionId, c: Reducer<B, S>, s: System<B, S>, step: Step<B>, a: SystemId, i: nat)
    requires Inv(session, c, s) && Tracked(session, s) && step.Deliver? && Enabled(session, s, step)
    requires a in s.sent && i < |s.sent[a]|
    ensures TrackedEvent(session, Do(session, c, s, step), a, i)
  {
    var Deliver(n, m) := step;
    var r := s.nodes[n].router;
    assert RouterOk(session, s.sent, s.localNet, n, r);
    assert TrackedEvent(session, s, a, i);
    assert r.Accepts(m) ==> s.master.log[m.idx] == m.event;
    assert r.Receive(m).outForDelivery == if r.Accepts(m) then r.outForDelivery - {m.event.id} else r.outForDelivery;
  }

  lemma {:induction false} OthersKeepTracked<B, S>(
    session: SessionId, c: Reducer<B, S>, s: System<B, S>, step: Step<B>, a: SystemId, i: nat)
    requires Tracked(session, s) && Enabled(session, s, step) && !step.Send? && !step.Deliver?
    requires a in s.sent && i < |s.sent[a]|
    ensures Do(session, c, s, step).sent == s.sent && TrackedEvent(session, Do(session, c, s, step), a, i)
  {
    assert TrackedEvent(session, s, a, i);
    var id := s.sent[a][i].id;
    if step.MasterIndex? && InLog(s.master.log, id) {
      InLogLonger(s.master.log, Stamp(s.master.pending[0].1, step.now), id);
    }
  }

  lemma {:induction false} StepKeepsTracked<B, S>(session: SessionId, c: Reducer<B, S>, s: System<B, S>, step: Step<B>)
    requires Inv(session, c, s) && Tracked(session, s) && Enabled(session, s, step)
    requires UniqueIds(Do(session, c, s, step).sent)
    ensures Tracked(session, Do(session, c, s, step))
  {
    var s' := Do(session, c, s, step);
    forall a, i: nat | a in s'.sent && i < |s'.sent[a]| ensures TrackedEvent(session, s', a, i) {
      if step.Send? {
        SendKeepsTracked(session, c, s, step, a, i);
      } else if step.Deliver? {
        DeliverKeepsTracked(session, c, s, step, a, i);
      } else {
        SameSent(session, c, s, step);
        OthersKeepTracked(session, c, s, step, a, i);
      }
    }
  }

  lemma {:induction false} SameSent<B, S>(session: SessionId, c: Reducer<B, S>, s: System<B, S>, step: Step<B>)
    requires Enabled(session, s, step) && !step.Send?
    ensures Do(session, c, s, step).sent == s.sent
  {
  }

  /** What is unique later was unique before: sources only send more. */
  lemma {:induction false} UniqueBefore<B, S>(session: SessionId, c: Reducer<B, S>, s: System<B, S>, step: Step<B>)
    requires Enabled(session, s, step) && UniqueIds(Do(session, c, s, step).sent)
    ensures UniqueIds(s.sent)
  {
    if step.Send? {
      var s' := Do(session, c, s, step);
      assert forall a, i :: a in s.sent && 0 <= i < |s.sent[a]| ==>
               a in s'.sent && i < |s'.sent[a]| && s'.sent[a][i] == s.sent[a][i];
    } else {
      SameSent(session, c, s, step);
    }
  }

  /** In every run with fresh event ids, every event a source has sent is in the log, or
      its router still holds its message for another try. */
  lemma {:induction false} NothingIsForgotten<B(!new), S>(session: SessionId, c: Reducer<B, S>, run: seq<System<B, S>>)
    requires IsRun(session, c, run) && UniqueIds(run[|run| - 1].sent)
    ensures Tracked(session, run[|run| - 1])
  {
    if |run| > 1 {
      var before, s, s' := run[..|run| - 1], run[|run| - 2], run[|run| - 1];
      var step :| Enabled(session, s, step) && s' == Do(session, c, s, step);
      UniqueBefore(session, c, s, step);
      NothingIsForgotten(session, c, before);
      RunKeepsInv(session, c, before);
      StepKeepsTracked(session, c, s, step);
    }
  }

  // ----- and resending it all is enough -----

  /** The event processor indexes everything it has drained. */
  ghost function IndexPending<B, S>(session: SessionId, c: Reducer<B, S>, s: System<B, S>, now: int): (s': System<B, S>)
    ensures s'.sent == s.sent && s'.localNet == s.localNet && s'.nodes == s.nodes
    ensures s'.master.pending == [] && s'.master.buffers == s.master.buffers
    decreases |s.master.pending|
  {
    if s.master.pending == [] then s else IndexPending(session, c, Do(session, c, s, MasterIndex(now)), now)
  }

  lemma {:induction false} IndexPendingKeepsInv<B, S>(session: SessionId, c: Reducer<B, S>, s: System<B, S>, now: int)
    requires Inv(session, c, s)
    ensures Inv(session, c, IndexPending(session, c, s, now))
    ensures Tracked(session, s) ==> Tracked(session, IndexPending(session, c, s, now))
    decreases |s.master.pending|
  {
    if s.master.pending != [] {
      var step, s' := MasterIndex(now), Do(session, c, s, MasterIndex(now));
      StepKeepsInv(session, c, s, step);
      if Tracked(session, s) {
        forall a, i: nat | a in s'.sent && i < |s'.sent[a]| ensures TrackedEvent(session, s', a, i) {
          OthersKeepTracked(session, c, s, step, a, i);
        }
      }
      IndexPendingKeepsInv(session, c, s', now);
    }
  }

  ghost predicate Underway<B, S>(s: System<B, S>, msgs: seq<LocalMessage<B>>)
  {
    forall i :: 0 <= i < |msgs| ==> msgs[i] in s.localNet
  }

  /** The master receives messages one after another, indexing what each releases. */
  ghost function TakeAll<B, S>(
    session: SessionId, c: Reducer<B, S>, s: System<B, S>, msgs: seq<LocalMessage<B>>, now: int): (s': System<B, S>)
    requires Underway(s, msgs) && s.master.pending == []
    ensures s'.sent == s.sent && s'.localNet == s.localNet && s'.master.pending == []
  {
    if msgs == [] then s
    else
      var before := TakeAll(session, c, s, msgs[..|msgs| - 1], now);
      IndexPending(session, c, Do(session, c, before, MasterReceive(msgs[|msgs| - 1])), now)
  }

  lemma {:induction false} TakeAllKeepsInv<B, S>(
    session: SessionId, c: Reducer<B, S>, s: System<B, S>, msgs: seq<LocalMessage<B>>, now: int)
    requires Inv(session, c, s) && Underway(s, msgs) && s.master.pending == []
    ensures Inv(session, c, TakeAll(session, c, s, msgs, now))
  {
    if msgs != [] {
      var before, step := TakeAll(session, c, s, msgs[..|msgs| - 1], now), MasterReceive(msgs[|msgs| - 1]);
      TakeAllKeepsInv(session, c, s, msgs[..|msgs| - 1], now);
      StepKeepsInv(session, c, before, step);
      IndexPendingKeepsInv(session, c, Do(session, c, before, step), now);
    }
  }

  lemma {:induction false} ReceiveHas<B, S>(
    session: SessionId, sent: map<SystemId, seq<Event<B>>>, m: Master<B, S>, msg: LocalMessage<B>, source: SystemId)
    requires BuffersOk(sent, m)
    requires msg.session == session ==>
               msg.idx < |SentBy(sent, msg.origin)| && msg.event == SentBy(sent, msg.origin)[msg.idx]
    ensures var b, b' := m.buffers.At(source), Receive(session, m, msg).buffers.At(source);
            && (forall i :: Has(b, i) ==> Has(b', i))
            && (msg.session == session && msg.origin == source ==> Has(b', msg.idx))
  {
    assert Follows(m.buffers.At(source), SentBy(sent, source));
    if msg.session == session {
      RestAfterIngest(m.buffers, msg.idx, msg.event, msg.origin, source);
      if msg.origin == source {
        IngestAndDrain(m.buffers.At(source), SentBy(sent, source), msg.idx, msg.event);
      }
    }
  }

  ghost predicate Carries<B>(session: SessionId, m: LocalMessage<B>, source: SystemId, i: nat)
  {
    m.session == session && m.origin == source && m.idx == i
  }

  /** Nothing the master has been given is lost. */
  lemma {:induction false} TakeAllHas<B, S>(
    session: SessionId, c: Reducer<B, S>, s: System<B, S>, msgs: seq<LocalMessage<B>>, now: int,
    source: SystemId, i: nat)
    requires Inv(session, c, s) && Underway(s, msgs) && s.master.pending == []
    requires || Has(s.master.buffers.At(source), i)
             || exists k :: 0 <= k < |msgs| && Carries(session, msgs[k], source, i)
    ensures Has(TakeAll(session, c, s, msgs, now).master.buffers.At(source), i)
    decreases |msgs|
  {
    if msgs != [] {
      var front, m := msgs[..|msgs| - 1], msgs[|msgs| - 1];
      var before := TakeAll(session, c, s, front, now);
      TakeAllKeepsInv(session, c, s, front, now);
      ReceiveHas(session, s.sent, before.master, m, source);
      if !Carries(session, m, source, i) {
        assert forall k :: 0 <= k < |front| ==> front[k] == msgs[k];
        TakeAllHas(session, c, s, front, now, source, i);
      }
      assert TakeAll(session, c, s, msgs, now).master.buffers == Receive(session, before.master, m).buffers;
    }
  }

  // ----- an event in the log has been taken -----

  ghost predicate HasId<B>(es: seq<Event<B>>, id: nat)
  {
    exists j :: 0 <= j < |es| && es[j].id == id
  }

  lemma {:induction false} KeptFrom<B>(es: seq<Event<B>>, id: nat)
    requires HasId(Kept(es), id)
    ensures HasId(es, id)
  {
    var n := |es| - 1;
    var j :| 0 <= j < |Kept(es)| && Kept(es)[j].id == id;
    if j < |Kept(es[..n])| {
      assert Kept(es[..n])[j].id == id;
      KeptFrom(es[..n], id);
      var k :| 0 <= k < |es[..n]| && es[..n][k].id == id;
      assert es[k].id == id;
    } else {
      assert es[n].id == id;
    }
  }

  lemma {:induction false} LoggedIsProjected<B>(log: seq<Event<B>>, origins: seq<SystemId>, k: nat)
    requires |log| == |origins| && k < |log|
    ensures HasId(Projection(log, origins, origins[k]), log[k].id)
  {
    var n := |log| - 1;
    var all, before := Projection(log, origins, origins[k]), Projection(log[..n], origins[..n], origins[k]);
    if k < n {
      LoggedIsProjected(log[..n], origins[..n], k);
      assert HasId(before, log[k].id);
      var j :| 0 <= j < |before| && before[j].id == log[k].id;
      assert all[j] == before[j];
    } else {
      assert all[|before|] == Strip(log[k]);
    }
  }

  lemma {:induction false} LoggedIsTaken<B, S>(
    sent: map<SystemId, seq<Event<B>>>, m: Master<B, S>, source: SystemId, i: nat)
    requires MasterOk(sent, m) && UniqueIds(sent)
    requires source in sent && i < |sent[source]| && InLog(m.log, sent[source][i].id)
    ensures i < m.buffers.At(source).next
  {
    var id := sent[source][i].id;
    var k :| 0 <= k < |m.log| && m.log[k].id == id;
    var origin := m.origins[k];
    var own, cut := SentBy(sent, origin), m.buffers.At(origin).next;
    assert Follows(m.buffers.At(origin), own) && ExactlyOnce(sent, m, origin);
    LoggedIsProjected(m.log, m.origins, k);
    var held := Projection(m.log, m.origins, origin);
    var j :| 0 <= j < |held| && held[j].id == id;
    assert Kept(own[..cut])[j] == held[j];
    KeptFrom(own[..cut], id);
    var h :| 0 <= h < |own[..cut]| && own[..cut][h].id == id;
    assert own[h].id == id;
  }

  /** All messages a node's router holds for a source. */
  ghost predicate Resent<B(!new), S>(s: System<B, S>, source: SystemId, msgs: seq<LocalMessage<B>>)
  {
    forall m: LocalMessage<B> :: m.origin == source && Remembered(s.nodes, m) ==> m in msgs
  }

  /** Every event of the source has been taken once its remembered messages are received. */
  lemma {:induction false} AllTaken<B(!new), S>(
    session: SessionId, c: Reducer<B, S>, s: System<B, S>, source: SystemId, msgs: seq<LocalMessage<B>>, now: int)
    requires Inv(session, c, s) && Tracked(session, s) && UniqueIds(s.sent) && s.master.pending == []
    requires source in s.sent && Underway(s, msgs) && Resent(s, source, msgs)
    ensures TakeAll(session, c, s, msgs, now).master.buffers.At(source).next == |s.sent[source]|
  {
    var own, s' := s.sent[source], TakeAll(session, c, s, msgs, now);
    var b := s'.master.buffers.At(source);
    forall i: nat | i < |own| ensures Has(b, i) {
      assert TrackedEvent(session, s, source, i);
      if InLog(s.master.log, own[i].id) {
        LoggedIsTaken(s.sent, s.master, source, i);
      } else {
        var m := LocalMessage(source, i, session, own[i]);
        assert m in msgs && Carries(session, m, source, i);
      }
      TakeAllHas(session, c, s, msgs, now, source, i);
    }
    TakeAllKeepsInv(session, c, s, msgs, now);
    assert Follows(b, SentBy(s'.sent, source));
    assert !Has(b, b.next);
  }

  /** From every reachable state with fresh event ids: once the master has received, in any
      order and mixed with any other messages, what the router still holds for a source,
      the log has all of the source's events but traces, once and in order. */
  lemma {:induction false} SourceCatchesUp<B(!new), S>(
    session: SessionId, c: Reducer<B, S>, run: seq<System<B, S>>, source: SystemId,
    msgs: seq<LocalMessage<B>>, now: int)
    requires IsRun(session, c, run) && UniqueIds(run[|run| - 1].sent) && source in run[|run| - 1].sent
    requires Underway(run[|run| - 1], msgs) && Resent(run[|run| - 1], source, msgs)
    ensures var s := run[|run| - 1];
            var m := TakeAll(session, c, IndexPending(session, c, s, now), msgs, now).master;
            |m.log| == |m.origins| && Projection(m.log, m.origins, source) == Kept(s.sent[source])
  {
    var s := run[|run| - 1];
    var start := IndexPending(session, c, s, now);
    RunKeepsInv(session, c, run);
    NothingIsForgotten(session, c, run);
    IndexPendingKeepsInv(session, c, s, now);
    AllTaken(session, c, start, source, msgs, now);
    TakeAllKeepsInv(session, c, start, msgs, now);
    TakenIsLogged(s.sent, TakeAll(session, c, start, msgs, now).master, source);
  }

  lemma {:induction false} TakenIsLogged<B, S>(sent: map<SystemId, seq<Event<B>>>, m: Master<B, S>, source: SystemId)
    requires MasterOk(sent, m) && m.pending == [] && source in sent && m.buffers.At(source).next == |sent[source]|
    ensures |m.log| == |m.origins| && Projection(m.log, m.origins, source) == Kept(sent[source])
  {
    assert ExactlyOnce(sent, m, source);
    assert sent[source][..|sent[source]|] == sent[source];
  }

  /** What the router holds is underway already, so such messages always exist. */
  lemma {:induction false} RememberedIsUnderway<B, S>(
    session: SessionId, c: Reducer<B, S>, s: System<B, S>, m: LocalMessage<B>)
    requires Inv(session, c, s) && Remembered(s.nodes, m)
    ensures m in s.localNet
  {
    var n := m.origin.node;
    assert RouterOk(session, s.sent, s.localNet, n, s.nodes[n].router);
  }
}
