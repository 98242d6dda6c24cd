/** Log requests make progress: a node that keeps asking for what it misses, and gets
    the replies in any order, ends with the whole log folded
    (src/exo/routing/event_router.py:106-162, src/exo/master/main.py:444-452). */
module ReplicationProgress {
  import opened EventBuffer
  import opened Messages
  import opened EventRouter
  import opened Replication
  import opened ReplicationSafety

  /** Messages that have been sent. */
  ghost predicate Underway<B, S>(s: System<B, S>, msgs: seq<GlobalMessage<B>>)
  {
    forall i :: 0 <= i < |msgs| ==> msgs[i] in s.globalNet
  }

  /** Delivering them to a node one after another. */
  ghost function DeliverAll<B, S>(
    session: SessionId, c: Reducer<B, S>, s: System<B, S>, n: NodeId, msgs: seq<GlobalMessage<B>>)
    : (s': System<B, S>)
    requires n in s.nodes && Underway(s, msgs)
    ensures s'.master == s.master && s'.globalNet == s.globalNet && n in s'.nodes
  {
    if msgs == [] then s
    else Do(session, c, DeliverAll(session, c, s, n, msgs[..|msgs| - 1]), Deliver(n, msgs[|msgs| - 1]))
  }

  ghost predicate OfSession<B>(session: SessionId, m: GlobalMessage<B>)
  {
    m.session == session && m.origin == session.master
  }

  /** What one delivery leaves in the node's buffer. */
  lemma {:induction false} DeliverOne<B, S>(
    session: SessionId, c: Reducer<B, S>, s: System<B, S>, n: NodeId, m: GlobalMessage<B>)
    requires Inv(session, c, s) && n in s.nodes && m in s.globalNet
    ensures var b, b' := s.nodes[n].router.buffer, s.nodes[n].router.Receive(m).buffer;
            && b.next <= b'.next && (forall i :: Has(b, i) ==> Has(b', i))
            && (OfSession(session, m) ==> Has(b', m.idx))
  {
    var r := s.nodes[n];
    assert RouterOk(session, s.sent, s.localNet, n, r.router) && ReplicaFollows(c, s.master.log, r);
    if r.router.Accepts(m) {
      IngestAndDrain(r.router.buffer, s.master.log, m.idx, m.event);
    }
  }

  lemma {:induction false} DeliverAllInv<B, S>(
    session: SessionId, c: Reducer<B, S>, s: System<B, S>, n: NodeId, msgs: seq<GlobalMessage<B>>)
    requires Inv(session, c, s) && n in s.nodes && Underway(s, msgs)
    ensures Inv(session, c, DeliverAll(session, c, s, n, msgs))
  {
    if msgs != [] {
      var front := msgs[..|msgs| - 1];
      DeliverAllInv(session, c, s, n, front);
      StepKeepsInv(session, c, DeliverAll(session, c, s, n, front), Deliver(n, msgs[|msgs| - 1]));
    }
  }

  lemma {:induction false} LastDelivered<B, S>(
    session: SessionId, c: Reducer<B, S>, s: System<B, S>, n: NodeId, msgs: seq<GlobalMessage<B>>)
    requires Inv(session, c, s) && n in s.nodes && Underway(s, msgs) && msgs != []
    ensures var front, m := msgs[..|msgs| - 1], msgs[|msgs| - 1];
            var b := DeliverAll(session, c, s, n, front).nodes[n].router.buffer;
            var b' := DeliverAll(session, c, s, n, msgs).nodes[n].router.buffer;
            && b.next <= b'.next && (forall i :: Has(b, i) ==> Has(b', i)) && (OfSession(session, m) ==> Has(b', m.idx))
  {
    var front, m := msgs[..|msgs| - 1], msgs[|msgs| - 1];
    var before := DeliverAll(session, c, s, n, front);
    DeliverAllInv(session, c, s, n, front);
    DeliverOne(session, c, before, n, m);
    assert Do(session, c, before, Deliver(n, m)).nodes[n].router == before.nodes[n].router.Receive(m);
  }

  /** Nothing delivered is forgotten. */
  lemma {:induction false} DeliveredIsKept<B, S>(
    session: SessionId, c: Reducer<B, S>, s: System<B, S>, n: NodeId, msgs: seq<GlobalMessage<B>>, i: nat)
    requires Inv(session, c, s) && n in s.nodes && Underway(s, msgs) && i < |msgs| && OfSession(session, msgs[i])
    ensures Has(DeliverAll(session, c, s, n, msgs).nodes[n].router.buffer, msgs[i].idx)
    decreases |msgs|
  {
    LastDelivered(session, c, s, n, msgs);
    if i < |msgs| - 1 {
      DeliveredIsKept(session, c, s, n, msgs[..|msgs| - 1], i);
    }
  }

  lemma {:induction false} NextOnlyGrows<B, S>(
    session: SessionId, c: Reducer<B, S>, s: System<B, S>, n: NodeId, msgs: seq<GlobalMessage<B>>)
    requires Inv(session, c, s) && n in s.nodes && Underway(s, msgs)
    ensures s.nodes[n].router.buffer.next <= DeliverAll(session, c, s, n, msgs).nodes[n].router.buffer.next
  {
    if msgs != [] {
      LastDelivered(session, c, s, n, msgs);
      NextOnlyGrows(session, c, s, n, msgs[..|msgs| - 1]);
    }
  }

  function ReplyEnd(since: nat, length: nat): nat
  {
    if since + REPLY_LIMIT < length then since + REPLY_LIMIT else length
  }

  ghost predicate Covers<B>(msgs: seq<GlobalMessage<B>>, reply: set<GlobalMessage<B>>)
  {
    forall m :: m in reply ==> m in msgs
  }

  /** Delivering the master's reply to a request from `k`, in any order, any number of
      times and mixed with any other messages, takes a node at or past `k` to the end
      of the reply. */
  lemma {:induction false} ReplyReachesItsEnd<B, S>(
    session: SessionId, c: Reducer<B, S>, s: System<B, S>, n: NodeId, k: nat, msgs: seq<GlobalMessage<B>>)
    requires Inv(session, c, s) && n in s.nodes && Underway(s, msgs)
    requires k <= s.nodes[n].router.buffer.next && Covers(msgs, Reply(session, s.master.log, k))
    ensures var s' := DeliverAll(session, c, s, n, msgs);
            Inv(session, c, s') && s'.nodes[n].router.buffer.next >= ReplyEnd(k, |s.master.log|)
  {
    DeliverAllInv(session, c, s, n, msgs);
    NextOnlyGrows(session, c, s, n, msgs);
    var s' := DeliverAll(session, c, s, n, msgs);
    var b, log := s'.nodes[n].router.buffer, s.master.log;
    assert ReplicaFollows(c, log, s'.nodes[n]);
    forall idx: nat | k <= idx < ReplyEnd(k, |log|) ensures Has(b, idx) {
      var m := Broadcast(session, log, idx);
      assert m in Reply(session, log, k);
      var i :| 0 <= i < |msgs| && msgs[i] == m;
      DeliveredIsKept(session, c, s, n, msgs, i);
    }
    assert !Has(b, b.next);
  }

  // ----- rounds -----

  /** The node's sleeping request fires and the master answers it. */
  ghost function Asked<B, S>(session: SessionId, c: Reducer<B, S>, s: System<B, S>, n: NodeId): System<B, S>
    requires n in s.nodes && s.nodes[n].router.nack.Sleeping?
  {
    Do(session, c, Do(session, c, s, RequestLog(n)), AnswerRequest(s.nodes[n].router.nack.since))
  }

  /** The reply arrives whole, with whatever else is underway.  Any message that
      releases nothing makes the node ask again. */
  ghost predicate RoundOk<B, S>(
    session: SessionId, c: Reducer<B, S>, s: System<B, S>, n: NodeId, msgs: seq<GlobalMessage<B>>)
  {
    && n in s.nodes && s.nodes[n].router.nack.Sleeping? && Underway(Asked(session, c, s, n), msgs)
    && Covers(msgs, Reply(session, s.master.log, s.nodes[n].router.nack.since))
  }

  ghost function Round<B, S>(
    session: SessionId, c: Reducer<B, S>, s: System<B, S>, n: NodeId, msgs: seq<GlobalMessage<B>>): System<B, S>
    requires RoundOk(session, c, s, n, msgs)
  {
    DeliverAll(session, c, Asked(session, c, s, n), n, msgs)
  }

  ghost predicate Rounds<B, S>(
    session: SessionId, c: Reducer<B, S>, s: System<B, S>, n: NodeId, rounds: seq<seq<GlobalMessage<B>>>)
    decreases |rounds|
  {
    rounds == [] ||
    (RoundOk(session, c, s, n, rounds[0]) && Rounds(session, c, Round(session, c, s, n, rounds[0]), n, rounds[1..]))
  }

  ghost function AfterRounds<B, S>(
    session: SessionId, c: Reducer<B, S>, s: System<B, S>, n: NodeId, rounds: seq<seq<GlobalMessage<B>>>)
    : System<B, S>
    requires Rounds(session, c, s, n, rounds)
    decreases |rounds|
  {
    if rounds == [] then s else AfterRounds(session, c, Round(session, c, s, n, rounds[0]), n, rounds[1..])
  }

  /** One round: the request is from the first missing index, so the node gains a whole
      reply. */
  lemma {:induction false} RoundGains<B, S>(
    session: SessionId, c: Reducer<B, S>, s: System<B, S>, n: NodeId, msgs: seq<GlobalMessage<B>>)
    requires Inv(session, c, s) && RoundOk(session, c, s, n, msgs)
    ensures var s' := Round(session, c, s, n, msgs);
            && Inv(session, c, s') && s'.master == s.master && n in s'.nodes
            && s'.nodes[n].router.buffer.next >= ReplyEnd(s.nodes[n].router.buffer.next, |s.master.log|)
  {
    var since := s.nodes[n].router.nack.since;
    assert RouterOk(session, s.sent, s.localNet, n, s.nodes[n].router);
    StepKeepsInv(session, c, s, RequestLog(n));
    var fired := Do(session, c, s, RequestLog(n));
    StepKeepsInv(session, c, fired, AnswerRequest(since));
    var asked := Asked(session, c, s, n);
    ReplyReachesItsEnd(session, c, asked, n, since, msgs);
  }

  /** Enough rounds bring a node to the end of the log: what it misses shrinks by a
      whole reply every round. */
  lemma {:induction false} RequestsCatchUp<B, S>(
    session: SessionId, c: Reducer<B, S>, s: System<B, S>, n: NodeId, rounds: seq<seq<GlobalMessage<B>>>)
    requires Inv(session, c, s) && n in s.nodes && Rounds(session, c, s, n, rounds)
    requires |s.master.log| - s.nodes[n].router.buffer.next <= REPLY_LIMIT * |rounds|
    ensures var s' := AfterRounds(session, c, s, n, rounds);
            && Inv(session, c, s') && s'.master == s.master && n in s'.nodes
            && s'.nodes[n].router.buffer.next == |s.master.log|
    decreases |rounds|
  {
    assert ReplicaFollows(c, s.master.log, s.nodes[n]);
    if rounds != [] {
      var s' := Round(session, c, s, n, rounds[0]);
      RoundGains(session, c, s, n, rounds[0]);
      RequestsCatchUp(session, c, s', n, rounds[1..]);
    }
  }

  // ----- and the node applies it -----

  ghost function ApplyAll<B, S>(session: SessionId, c: Reducer<B, S>, s: System<B, S>, n: NodeId): System<B, S>
    requires n in s.nodes
    decreases |s.nodes[n].inbox|
  {
    if s.nodes[n].inbox == [] then s else ApplyAll(session, c, Do(session, c, s, Apply(n)), n)
  }

  lemma {:induction false} ApplyAllKeeps<B, S>(session: SessionId, c: Reducer<B, S>, s: System<B, S>, n: NodeId)
    requires Inv(session, c, s) && n in s.nodes
    ensures var s' := ApplyAll(session, c, s, n);
            && Inv(session, c, s') && s'.master == s.master && n in s'.nodes
            && s'.nodes[n].inbox == [] && s'.nodes[n].router == s.nodes[n].router
    decreases |s.nodes[n].inbox|
  {
    if s.nodes[n].inbox != [] {
      StepKeepsInv(session, c, s, Apply(n));
      ApplyAllKeeps(session, c, Do(session, c, s, Apply(n)), n);
    }
  }

  /** A node that has released the whole log and applied all it released. */
  lemma {:induction false} AppliedAll<B, S>(c: Reducer<B, S>, log: seq<Event<B>>, r: Replica<B, S>)
    requires ReplicaFollows(c, log, r) && r.router.buffer.next == |log| && r.inbox == []
    ensures r.last == |log| - 1 && r.state == Fold(c, log)
  {
    assert log[..|log|] == log;
  }

  ghost predicate CaughtUp<B, S>(s: System<B, S>, n: NodeId)
  {
    n in s.nodes && s.nodes[n].last == |s.master.log| - 1 && s.nodes[n].state == s.master.state
  }

  lemma {:induction false} ApplyingCatchesUp<B, S>(session: SessionId, c: Reducer<B, S>, s: System<B, S>, n: NodeId)
    requires Inv(session, c, s) && n in s.nodes && s.nodes[n].router.buffer.next == |s.master.log|
    ensures var end := ApplyAll(session, c, s, n); end.master == s.master && CaughtUp(end, n)
  {
    ApplyAllKeeps(session, c, s, n);
    var end := ApplyAll(session, c, s, n);
    assert MasterFolds(c, end.master);
    AppliedAll(c, end.master.log, end.nodes[n]);
  }

  /** From every reachable state, once enough of its requests have been answered and it
      has applied what it got, a node has the whole log and the master's state. */
  lemma {:induction false} NodeCatchesUp<B(!new), S>(
    session: SessionId, c: Reducer<B, S>, run: seq<System<B, S>>, n: NodeId, rounds: seq<seq<GlobalMessage<B>>>)
    requires IsRun(session, c, run) && n in run[|run| - 1].nodes && Rounds(session, c, run[|run| - 1], n, rounds)
    requires |run[|run| - 1].master.log| - run[|run| - 1].nodes[n].router.buffer.next <= REPLY_LIMIT * |rounds|
    ensures var s := run[|run| - 1]; var caught := AfterRounds(session, c, s, n, rounds);
            && n in caught.nodes
            && ApplyAll(session, c, caught, n).master == s.master && CaughtUp(ApplyAll(session, c, caught, n), n)
  {
    RunKeepsInv(session, c, run);
    RequestsCatchUp(session, c, run[|run| - 1], n, rounds);
    ApplyingCatchesUp(session, c, AfterRounds(session, c, run[|run| - 1], n, rounds), n);
  }

  // ----- such rounds exist -----

  /** The reply to a request from `since`, in order. */
  ghost function ReplyInOrder<B>(session: SessionId, log: seq<Event<B>>, since: nat): (msgs: seq<GlobalMessage<B>>)
    requires since < |log|
    ensures |msgs| == ReplyEnd(since, |log|) - since
    ensures forall k :: 0 <= k < |msgs| ==> msgs[k] == Broadcast(session, log, since + k)
  {
    seq(ReplyEnd(since, |log|) - since,
        k requires 0 <= k < ReplyEnd(since, |log|) - since => Broadcast(session, log, since + k))
  }

  lemma {:induction false} ReplyInOrderCovers<B>(session: SessionId, log: seq<Event<B>>, since: nat)
    requires since < |log|
    ensures Covers(ReplyInOrder(session, log, since), Reply(session, log, since))
    ensures forall k :: 0 <= k < |ReplyInOrder(session, log, since)| ==>
              ReplyInOrder(session, log, since)[k] in Reply(session, log, since)
  {
    var msgs := ReplyInOrder(session, log, since);
    forall m | m in Reply(session, log, since) ensures m in msgs {
      assert msgs[m.idx - since] == m;
    }
  }

  /** A message the node has already released makes it ask for what it misses. */
  lemma {:induction false} RepeatSleeps<B>(router: Router<B>, m: GlobalMessage<B>)
    requires router.Accepts(m) && m.idx < router.buffer.next && router.buffer.Settled()
    ensures router.Receive(m).nack.Sleeping?
  {
    assert router.buffer.Ingest(m.idx, m.event) == router.buffer;
  }

  /** The whole reply, then its last message again. */
  ghost function RoundFor<B>(session: SessionId, log: seq<Event<B>>, since: nat): (msgs: seq<GlobalMessage<B>>)
    requires since < |log|
  {
    var reply := ReplyInOrder(session, log, since);
    reply + [reply[|reply| - 1]]
  }

  lemma {:induction false} RoundForIsOk<B, S>(session: SessionId, c: Reducer<B, S>, s: System<B, S>, n: NodeId)
    requires Inv(session, c, s) && n in s.nodes && s.nodes[n].router.nack.Sleeping?
    requires s.nodes[n].router.nack.since < |s.master.log|
    ensures RoundOk(session, c, s, n, RoundFor(session, s.master.log, s.nodes[n].router.nack.since))
  {
    var since, log := s.nodes[n].router.nack.since, s.master.log;
    var reply, msgs := ReplyInOrder(session, log, since), RoundFor(session, log, since);
    ReplyInOrderCovers(session, log, since);
    assert Asked(session, c, s, n).globalNet == s.globalNet + Reply(session, log, since);
    forall i | 0 <= i < |msgs| ensures msgs[i] in Reply(session, log, since) {
      assert msgs[i] == if i < |reply| then reply[i] else reply[|reply| - 1];
    }
    forall m | m in Reply(session, log, since) ensures m in msgs {
      assert m in reply;
    }
  }

  lemma {:induction false} RepeatAfterAll<B, S>(
    session: SessionId, c: Reducer<B, S>, s: System<B, S>, n: NodeId, msgs: seq<GlobalMessage<B>>, m: GlobalMessage<B>)
    requires Inv(session, c, s) && n in s.nodes && Underway(s, msgs) && m in s.globalNet && OfSession(session, m)
    requires m.idx < DeliverAll(session, c, s, n, msgs).nodes[n].router.buffer.next
    ensures Underway(s, msgs + [m]) && DeliverAll(session, c, s, n, msgs + [m]).nodes[n].router.nack.Sleeping?
  {
    var all, before := msgs + [m], DeliverAll(session, c, s, n, msgs);
    assert all[..|msgs|] == msgs && all[|msgs|] == m;
    DeliverAllInv(session, c, s, n, msgs);
    SleepsAfterRepeat(session, c, before, n, m);
    assert DeliverAll(session, c, s, n, all) == Do(session, c, before, Deliver(n, m));
  }

  lemma {:induction false} SleepsAfterRepeat<B, S>(
    session: SessionId, c: Reducer<B, S>, s: System<B, S>, n: NodeId, m: GlobalMessage<B>)
    requires Inv(session, c, s) && n in s.nodes && m in s.globalNet && OfSession(session, m)
    requires m.idx < s.nodes[n].router.buffer.next
    ensures Do(session, c, s, Deliver(n, m)).nodes[n].router.nack.Sleeping?
  {
    assert RouterOk(session, s.sent, s.localNet, n, s.nodes[n].router) && ReplicaFollows(c, s.master.log, s.nodes[n]);
    RepeatSleeps(s.nodes[n].router, m);
  }

  lemma {:induction false} RoundForSleeps<B, S>(
    session: SessionId, c: Reducer<B, S>, asked: System<B, S>, n: NodeId, since: nat)
    requires Inv(session, c, asked) && n in asked.nodes && since < |asked.master.log|
    requires since <= asked.nodes[n].router.buffer.next && Underway(asked, RoundFor(session, asked.master.log, since))
    ensures DeliverAll(session, c, asked, n, RoundFor(session, asked.master.log, since)).nodes[n].router.nack.Sleeping?
  {
    var log := asked.master.log;
    var reply, msgs := ReplyInOrder(session, log, since), RoundFor(session, log, since);
    assert forall i :: 0 <= i < |reply| ==> reply[i] == msgs[i];
    ReplyInOrderCovers(session, log, since);
    ReplyReachesItsEnd(session, c, asked, n, since, reply);
    RepeatAfterAll(session, c, asked, n, reply, reply[|reply| - 1]);
  }

  /** From every state with a sleeping request, rounds to the end of the log exist. */
  lemma {:induction false} RoundsExist<B, S>(session: SessionId, c: Reducer<B, S>, s: System<B, S>, n: NodeId)
    returns (rounds: seq<seq<GlobalMessage<B>>>)
    requires Inv(session, c, s) && n in s.nodes && s.nodes[n].router.nack.Sleeping?
    ensures Rounds(session, c, s, n, rounds)
    ensures var s' := AfterRounds(session, c, s, n, rounds);
            && Inv(session, c, s') && s'.master == s.master && n in s'.nodes
            && s'.nodes[n].router.buffer.next == |s.master.log|
    decreases |s.master.log| - s.nodes[n].router.buffer.next
  {
    var since := s.nodes[n].router.nack.since;
    assert RouterOk(session, s.sent, s.localNet, n, s.nodes[n].router) && ReplicaFollows(c, s.master.log, s.nodes[n]);
    if since == |s.master.log| {
      return [];
    }
    var msgs := RoundFor(session, s.master.log, since);
    RoundForIsOk(session, c, s, n);
    RoundGains(session, c, s, n, msgs);
    AskedKeeps(session, c, s, n);
    RoundForSleeps(session, c, Asked(session, c, s, n), n, since);
    var s' := Round(session, c, s, n, msgs);
    var rest := RoundsExist(session, c, s', n);
    rounds := [msgs] + rest;
    assert rounds[0] == msgs && rounds[1..] == rest;
  }

  lemma {:induction false} AskedKeeps<B, S>(session: SessionId, c: Reducer<B, S>, s: System<B, S>, n: NodeId)
    requires Inv(session, c, s) && n in s.nodes && s.nodes[n].router.nack.Sleeping?
    ensures var asked := Asked(session, c, s, n);
            && Inv(session, c, asked) && asked.master == s.master && n in asked.nodes
            && asked.nodes[n].router.buffer == s.nodes[n].router.buffer
  {
    StepKeepsInv(session, c, s, RequestLog(n));
    StepKeepsInv(session, c, Do(session, c, s, RequestLog(n)), AnswerRequest(s.nodes[n].router.nack.since));
  }

  /** From every reachable state in which a node has a request sleeping, some rounds and
      its apply steps bring it to the master's state. */
  lemma {:induction false} NodeCanCatchUp<B(!new), S>(
    session: SessionId, c: Reducer<B, S>, run: seq<System<B, S>>, n: NodeId)
    returns (rounds: seq<seq<GlobalMessage<B>>>)
    requires IsRun(session, c, run) && n in run[|run| - 1].nodes && run[|run| - 1].nodes[n].router.nack.Sleeping?
    ensures var s := run[|run| - 1];
            && Rounds(session, c, s, n, rounds) && n in AfterRounds(session, c, s, n, rounds).nodes
            && var end := ApplyAll(session, c, AfterRounds(session, c, s, n, rounds), n);
               end.master == s.master && CaughtUp(end, n)
  {
    RunKeepsInv(session, c, run);
    rounds := RoundsExist(session, c, run[|run| - 1], n);
    ApplyingCatchesUp(session, c, AfterRounds(session, c, run[|run| - 1], n, rounds), n);
  }
}
