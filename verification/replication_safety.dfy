/** Every run of the replication system is safe: the code's assertions never
    fail, replicas fold prefixes of the master's log, and the log holds each
    source's events exactly once and in order. */
module ReplicationSafety {
  import opened EventBuffer
  import opened Messages
  import opened EventRouter
  import opened Replication

  lemma {:induction false} SendKeepsMasterOk<B, S>(
    sent: map<SystemId, seq<Event<B>>>, m: Master<B, S>, source: SystemId, e: Event<B>)
    requires MasterOk(sent, m)
    ensures MasterOk(sent[source := SentBy(sent, source) + [e]], m)
  {
    var sent' := sent[source := SentBy(sent, source) + [e]];
    forall other ensures Follows(m.buffers.At(other), SentBy(sent', other)) && ExactlyOnce(sent', m, other) {
      assert Follows(m.buffers.At(other), SentBy(sent, other)) && ExactlyOnce(sent, m, other);
      FollowsLonger(m.buffers.At(other), SentBy(sent, other), e);
      var cut := m.buffers.At(other).next;
      assert SentBy(sent', other)[..cut] == SentBy(sent, other)[..cut];
    }
  }

  /** The sender's own router after it has numbered an event, and everyone else's. */
  lemma {:induction false} SendKeepsRouterOk<B>(
    session: SessionId, sent: map<SystemId, seq<Event<B>>>, net: set<LocalMessage<B>>,
    n: NodeId, router: Router<B>, source: SystemId, e: Event<B>, m: LocalMessage<B>)
    requires RouterOk(session, sent, net, n, router)
    ensures source.node != n ==> RouterOk(session, sent[source := SentBy(sent, source) + [e]], net + {m}, n, router)
    ensures source.node == n && m == router.Forward(source, e).1 ==>
              RouterOk(session, sent[source := SentBy(sent, source) + [e]], net + {m}, n, router.Forward(source, e).0)
  {
  }

  lemma {:induction false} SendKeepsLocalNetOk<B, S>(
    session: SessionId, s: System<B, S>, n: NodeId, source: SystemId, e: Event<B>)
    requires LocalNetOk(session, s.sent, s.localNet) && n in s.nodes && source.node == n
    requires RouterOk(session, s.sent, s.localNet, n, s.nodes[n].router)
    ensures var m := s.nodes[n].router.Forward(source, e).1;
            LocalNetOk(session, s.sent[source := SentBy(s.sent, source) + [e]], s.localNet + {m})
  {
  }

  lemma {:induction false} SendKeepsInv<B, S>(session: SessionId, c: Reducer<B, S>, s: System<B, S>, step: Step<B>)
    requires Inv(session, c, s) && Enabled(session, s, step) && step.Send?
    ensures Inv(session, c, Do(session, c, s, step))
  {
    var Send(n, source, e) := step;
    var s' := Do(session, c, s, step);
    var m := s.nodes[n].router.Forward(source, e).1;
    SendKeepsMasterOk(s.sent, s.master, source, e);
    SendKeepsLocalNetOk(session, s, n, source, e);
    forall k | k in s'.nodes
      ensures RouterOk(session, s'.sent, s'.localNet, k, s'.nodes[k].router)
      ensures ReplicaFollows(c, s.master.log, s'.nodes[k])
    {
      SendKeepsRouterOk(session, s.sent, s.localNet, k, s.nodes[k].router, source, e, m);
      assert ReplicaFollows(c, s.master.log, s.nodes[k]);
    }
  }

  /** Retries and foreign traffic change nothing that matters. */
  lemma {:induction false} NoiseKeepsInv<B, S>(session: SessionId, c: Reducer<B, S>, s: System<B, S>, step: Step<B>)
    requires Inv(session, c, s) && Enabled(session, s, step)
    requires step.Retry? || step.ForeignLocal? || step.ForeignGlobal?
    ensures Inv(session, c, Do(session, c, s, step))
    ensures step.Retry? ==> Do(session, c, s, step) == s
  {
    var s' := Do(session, c, s, step);
    if step.Retry? {
      assert RouterOk(session, s.sent, s.localNet, step.node, s.nodes[step.node].router);
      assert s'.localNet == s.localNet;
    } else {
      forall k | k in s'.nodes ensures RouterOk(session, s'.sent, s'.localNet, k, s'.nodes[k].router) {
        assert RouterOk(session, s.sent, s.localNet, k, s.nodes[k].router);
      }
      assert ReplicasFollow(c, s');
    }
  }

  lemma {:induction false} InOrder<S, T>(m: MultiBuffer<S, T>, source: S)
    requires m.WellFormed()
    ensures source in m.order <==> source in m.stores
  {
    assert source in m.order <==> source in (set x | x in m.order);
  }

  /** The only buffer with anything to release is the one that took the message. */
  lemma {:induction false} DrainAfterIngest<B>(
    m: MultiBuffer<SystemId, Event<B>>, idx: nat, e: Event<B>, origin: SystemId)
    requires m.WellFormed() && forall source :: m.At(source).Settled()
    ensures m.Ingest(idx, e, origin).WellFormed()
    ensures m.Ingest(idx, e, origin).Released() == Tag(origin, m.At(origin).Ingest(idx, e).Released())
  {
    var full := m.Ingest(idx, e, origin);
    IngestWellFormed(m, idx, e, origin);
    forall source | source in full.order && source != origin ensures full.At(source).Settled() {
      assert m.At(source).Settled();
    }
    OnlyOneSourceReleases(full, full.order, origin);
    InOrder(full, origin);
  }

  lemma {:induction false} RestAfterIngest<B>(
    m: MultiBuffer<SystemId, Event<B>>, idx: nat, e: Event<B>, origin: SystemId, source: SystemId)
    requires m.At(source).Settled()
    ensures m.Ingest(idx, e, origin).Rest().At(source)
         == if source == origin then m.At(source).Ingest(idx, e).Rest() else m.At(source)
  {
  }

  /** Taking `own[from..cut]` off a source moves it, traces dropped, into what is pending. */
  lemma {:induction false} KeptMovesToUpcoming<B>(
    own: seq<Event<B>>, from: nat, cut: nat, origin: SystemId, source: SystemId)
    requires from <= cut <= |own|
    ensures Upcoming(Tag(origin, own[from..cut]), source) == if source == origin then Kept(own[from..cut]) else []
    ensures Kept(own[..cut]) == Kept(own[..from]) + Kept(own[from..cut])
  {
    var before, taken := own[..from], own[from..cut];
    assert own[..cut] == before + taken;
    UpcomingOfTagged(origin, taken, source);
    KeptConcat(before, taken);
  }

  lemma {:induction false} ReceivedPending<B, S>(
    session: SessionId, sent: map<SystemId, seq<Event<B>>>, m: Master<B, S>, msg: LocalMessage<B>)
    requires BuffersOk(sent, m) && msg.session == session
    requires msg.idx < |SentBy(sent, msg.origin)| && msg.event == SentBy(sent, msg.origin)[msg.idx]
    ensures m.buffers.At(msg.origin).PayloadAgrees(msg.idx, msg.event)
    ensures var own, b := SentBy(sent, msg.origin), m.buffers.At(msg.origin);
            var rest := b.Ingest(msg.idx, msg.event).Rest();
            && b.next <= rest.next && Follows(rest, own)
            && Receive(session, m, msg).pending == Tag(msg.origin, own[b.next..rest.next])
    ensures Receive(session, m, msg).buffers.WellFormed()
  {
    assert Follows(m.buffers.At(msg.origin), SentBy(sent, msg.origin));
    IngestAndDrain(m.buffers.At(msg.origin), SentBy(sent, msg.origin), msg.idx, msg.event);
    forall source ensures m.buffers.At(source).Settled() {
      assert Follows(m.buffers.At(source), SentBy(sent, source));
    }
    DrainAfterIngest(m.buffers, msg.idx, msg.event, msg.origin);
  }

  lemma {:induction false} ReceiveKeepsMasterOk<B, S>(
    session: SessionId, sent: map<SystemId, seq<Event<B>>>, m: Master<B, S>, msg: LocalMessage<B>)
    requires MasterOk(sent, m) && m.pending == [] && msg.session == session
    requires msg.idx < |SentBy(sent, msg.origin)| && msg.event == SentBy(sent, msg.origin)[msg.idx]
    ensures MasterOk(sent, Receive(session, m, msg))
  {
    var m' := Receive(session, m, msg);
    ReceivedPending(session, sent, m, msg);
    forall source ensures Follows(m'.buffers.At(source), SentBy(sent, source)) && ExactlyOnce(sent, m', source) {
      assert Follows(m.buffers.At(source), SentBy(sent, source)) && ExactlyOnce(sent, m, source);
      RestAfterIngest(m.buffers, msg.idx, msg.event, msg.origin, source);
      TakenMovesToPending(sent, m, m', msg.origin, source);
    }
  }

  /** If only `origin` has advanced, and what it released is pending, every source
      still has each event once. */
  lemma {:induction false} TakenMovesToPending<B, S>(
    sent: map<SystemId, seq<Event<B>>>, m: Master<B, S>, m': Master<B, S>, origin: SystemId, source: SystemId)
    requires |m.log| == |m.origins| && m'.log == m.log && m'.origins == m.origins && m.pending == []
    requires m.buffers.At(source).next <= |SentBy(sent, source)| && ExactlyOnce(sent, m, source)
    requires m.buffers.At(origin).next <= m'.buffers.At(origin).next <= |SentBy(sent, origin)|
    requires m'.pending == Tag(origin, SentBy(sent, origin)[m.buffers.At(origin).next..m'.buffers.At(origin).next])
    requires source != origin ==> m'.buffers.At(source) == m.buffers.At(source)
    ensures ExactlyOnce(sent, m', source)
  {
    KeptMovesToUpcoming(SentBy(sent, origin), m.buffers.At(origin).next, m'.buffers.At(origin).next, origin, source);
  }

  lemma {:induction false} MasterReceiveKeepsInv<B, S>(
    session: SessionId, c: Reducer<B, S>, s: System<B, S>, step: Step<B>)
    requires Inv(session, c, s) && Enabled(session, s, step) && step.MasterReceive?
    ensures AssertionsHold(session, s, step) && Inv(session, c, Do(session, c, s, step))
  {
    var m := step.local;
    if m.session == session {
      ReceivedPending(session, s.sent, s.master, m);
      ReceiveKeepsMasterOk(session, s.sent, s.master, m);
    }
    var s' := Do(session, c, s, step);
    assert RoutersOk(session, s') && ReplicasFollow(c, s');
  }

  lemma {:induction false} ProjectionOneMore<B>(
    log: seq<Event<B>>, origins: seq<SystemId>, e: Event<B>, origin: SystemId, source: SystemId)
    requires |log| == |origins|
    ensures Projection(log + [e], origins + [origin], source)
         == Projection(log, origins, source) + if origin == source then [Strip(e)] else []
  {
    assert (log + [e])[..|log|] == log && (origins + [origin])[..|log|] == origins;
  }

  /** The entry that is indexed was upcoming before, for its own source. */
  lemma {:induction false} IndexKeepsSource<B, S>(
    c: Reducer<B, S>, sent: map<SystemId, seq<Event<B>>>, m: Master<B, S>, now: int, source: SystemId)
    requires |m.log| == |m.origins| && m.pending != []
    requires m.buffers.At(source).next <= |SentBy(sent, source)| && ExactlyOnce(sent, m, source)
    ensures |Index(c, m, now).log| == |Index(c, m, now).origins| && ExactlyOnce(sent, Index(c, m, now), source)
  {
    var (origin, e) := m.pending[0];
    var m' := Index(c, m, now);
    var held, rest := Projection(m.log, m.origins, source), Upcoming(m.pending[1..], source);
    UpcomingFirst(m.pending, source);
    assert m'.buffers == m.buffers && m'.pending == m.pending[1..];
    if e.traces {
      assert m'.log == m.log && m'.origins == m.origins;
    } else {
      var added := if origin == source then [Strip(e)] else [];
      ProjectionOneMore(m.log, m.origins, Stamp(e, now), origin, source);
      assert Projection(m'.log, m'.origins, source) == held + added;
      Regroup(held, added, rest);
    }
  }

  lemma {:induction false} Regroup<T>(a: seq<T>, b: seq<T>, c: seq<T>)
    ensures a + (b + c) == (a + b) + c
  {
  }

  lemma {:induction false} UpcomingFirst<B>(pending: seq<(SystemId, Event<B>)>, source: SystemId)
    requires pending != []
    ensures var (origin, e), rest := pending[0], Upcoming(pending[1..], source);
            Upcoming(pending, source) == if e.traces then rest else (if origin == source then [Strip(e)] else []) + rest
  {
    assert [] + Upcoming(pending[1..], source) == Upcoming(pending[1..], source);
  }

  lemma {:induction false} IndexKeepsMasterOk<B, S>(
    c: Reducer<B, S>, sent: map<SystemId, seq<Event<B>>>, m: Master<B, S>, now: int)
    requires MasterOk(sent, m) && MasterFolds(c, m) && m.pending != []
    ensures MasterOk(sent, Index(c, m, now)) && MasterFolds(c, Index(c, m, now))
  {
    var m' := Index(c, m, now);
    assert m'.buffers == m.buffers && (m'.log == m.log || m'.log[..|m.log|] == m.log);
    forall source
      ensures Follows(m'.buffers.At(source), SentBy(sent, source)) && |m'.log| == |m'.origins|
      ensures ExactlyOnce(sent, m', source)
    {
      assert Follows(m.buffers.At(source), SentBy(sent, source)) && ExactlyOnce(sent, m, source);
      IndexKeepsSource(c, sent, m, now, source);
    }
    IndexKeepsSource(c, sent, m, now, m.pending[0].0);
  }

  lemma {:induction false} ReplicaFollowsLonger<B, S>(
    c: Reducer<B, S>, log: seq<Event<B>>, e: Event<B>, r: Replica<B, S>)
    requires ReplicaFollows(c, log, r)
    ensures ReplicaFollows(c, log + [e], r)
  {
    FollowsLonger(r.router.buffer, log, e);
    assert (log + [e])[..r.last + 1] == log[..r.last + 1];
  }

  lemma {:induction false} MasterIndexKeepsInv<B, S>(
    session: SessionId, c: Reducer<B, S>, s: System<B, S>, step: Step<B>)
    requires Inv(session, c, s) && Enabled(session, s, step) && step.MasterIndex?
    ensures AssertionsHold(session, s, step) && Inv(session, c, Do(session, c, s, step))
  {
    var s' := Do(session, c, s, step);
    var e := Stamp(s.master.pending[0].1, step.now);
    IndexKeepsMasterOk(c, s.sent, s.master, step.now);
    IndexKeepsNets(session, c, s, e);
    assert RoutersOk(session, s');
  }

  /** Whether or not an event is indexed, messages and replicas agree with the log. */
  lemma {:induction false} IndexKeepsNets<B, S>(session: SessionId, c: Reducer<B, S>, s: System<B, S>, e: Event<B>)
    requires GlobalNetOk(session, s.master.log, s.globalNet) && ReplicasFollow(c, s)
    ensures var log := s.master.log + [e];
            && GlobalNetOk(session, log, s.globalNet + {Broadcast(session, log, |s.master.log|)})
            && (forall k :: k in s.nodes ==> ReplicaFollows(c, log, s.nodes[k]))
  {
    forall k | k in s.nodes ensures ReplicaFollows(c, s.master.log + [e], s.nodes[k]) {
      ReplicaFollowsLonger(c, s.master.log, e, s.nodes[k]);
    }
  }

  lemma {:induction false} AnswerKeepsInv<B, S>(session: SessionId, c: Reducer<B, S>, s: System<B, S>, step: Step<B>)
    requires Inv(session, c, s) && Enabled(session, s, step) && step.AnswerRequest?
    ensures Inv(session, c, Do(session, c, s, step))
  {
    var s' := Do(session, c, s, step);
    assert RoutersOk(session, s') && ReplicasFollow(c, s');
  }

  /** An inbox that holds `log[from..next]` under their indices. */
  ghost predicate InboxOk<B>(inbox: seq<(nat, Event<B>)>, log: seq<Event<B>>, from: nat, next: nat)
    requires next <= |log|
  {
    |inbox| == next - from && forall k :: 0 <= k < |inbox| ==> inbox[k] == (from + k, log[from + k])
  }

  lemma {:induction false} InboxGrows<B>(
    inbox: seq<(nat, Event<B>)>, more: seq<(nat, Event<B>)>, log: seq<Event<B>>, from: nat, next: nat, next': nat)
    requires next <= next' <= |log| && InboxOk(inbox, log, from, next) && InboxOk(more, log, next, next')
    ensures InboxOk(inbox + more, log, from, next')
  {
  }

  /** What a correct message releases, under its indices. */
  lemma {:induction false} ReleasedInbox<B>(b: Buffer<Event<B>>, log: seq<Event<B>>, idx: nat, e: Event<B>)
    requires Follows(b, log) && idx < |log| && e == log[idx]
    ensures var full := b.Ingest(idx, e);
            && b.next <= full.Rest().next <= |log| && Follows(full.Rest(), log)
            && InboxOk(full.ReleasedIndexed(), log, b.next, full.Rest().next)
  {
    IngestAndDrain(b, log, idx, e);
    IndexedRelease(b.Ingest(idx, e));
  }

  lemma {:induction false} AcceptByReplica<B, S>(
    c: Reducer<B, S>, log: seq<Event<B>>, r: Replica<B, S>, router: Router<B>, m: GlobalMessage<B>)
    requires ReplicaFollows(c, log, r) && m.idx < |log| && m.event == log[m.idx]
    requires router.buffer == r.router.buffer.Ingest(m.idx, m.event).Rest()
    ensures r.router.buffer.PayloadAgrees(m.idx, m.event)
    ensures var released := r.router.buffer.Ingest(m.idx, m.event).ReleasedIndexed();
            ReplicaFollows(c, log, r.(router := router, inbox := r.inbox + released))
  {
    var b := r.router.buffer;
    ReleasedInbox(b, log, m.idx, m.event);
    assert InboxOk(r.inbox, log, r.last + 1, b.next);
    InboxGrows(r.inbox, b.Ingest(m.idx, m.event).ReleasedIndexed(), log, r.last + 1, b.next, router.buffer.next);
  }

  lemma {:induction false} DeliverToReplica<B, S>(
    c: Reducer<B, S>, log: seq<Event<B>>, r: Replica<B, S>, m: GlobalMessage<B>)
    requires ReplicaFollows(c, log, r)
    requires r.router.Accepts(m) ==> m.idx < |log| && m.event == log[m.idx]
    ensures r.router.Accepts(m) ==> r.router.buffer.PayloadAgrees(m.idx, m.event)
    ensures ReplicaFollows(c, log, r.(router := r.router.Receive(m), inbox := r.inbox + r.router.Passed(m)))
  {
    if r.router.Accepts(m) {
      AcceptByReplica(c, log, r, r.router.Receive(m), m);
    } else {
      assert r.inbox + [] == r.inbox;
    }
  }

  /** A sleeping request asks for the next index that is still missing. */
  lemma {:induction false} ReceiveKeepsRouterOk<B>(
    session: SessionId, sent: map<SystemId, seq<Event<B>>>, net: set<LocalMessage<B>>,
    n: NodeId, router: Router<B>, m: GlobalMessage<B>)
    requires RouterOk(session, sent, net, n, router)
    ensures RouterOk(session, sent, net, n, router.Receive(m))
  {
    if router.Accepts(m) {
      DrainReleasesMaximalRun(router.buffer.Ingest(m.idx, m.event));
    }
  }

  lemma {:induction false} DeliverKeepsInv<B, S>(session: SessionId, c: Reducer<B, S>, s: System<B, S>, step: Step<B>)
    requires Inv(session, c, s) && Enabled(session, s, step) && step.Deliver?
    ensures AssertionsHold(session, s, step) && Inv(session, c, Do(session, c, s, step))
  {
    var Deliver(n, m) := step;
    var r := s.nodes[n];
    assert RouterOk(session, s.sent, s.localNet, n, r.router);
    DeliverToReplica(c, s.master.log, r, m);
    var r' := r.(router := r.router.Receive(m), inbox := r.inbox + r.router.Passed(m));
    ReceiveKeepsRouterOk(session, s.sent, s.localNet, n, r.router, m);
    OnlyNodeChanges(session, c, s, n, r');
  }

  lemma {:induction false} ApplyNext<B, S>(c: Reducer<B, S>, log: seq<Event<B>>, r: Replica<B, S>)
    requires ReplicaFollows(c, log, r) && r.inbox != []
    ensures r.inbox[0].0 == r.last + 1
    ensures var (idx, e) := r.inbox[0];
            ReplicaFollows(c, log, r.(inbox := r.inbox[1..], state := c.step(e, r.state), last := idx))
  {
    assert r.inbox[0] == (r.last + 1, log[r.last + 1]);
    assert log[..r.last + 2][..r.last + 1] == log[..r.last + 1];
  }

  lemma {:induction false} ApplyKeepsInv<B, S>(session: SessionId, c: Reducer<B, S>, s: System<B, S>, step: Step<B>)
    requires Inv(session, c, s) && Enabled(session, s, step) && step.Apply?
    ensures AssertionsHold(session, s, step) && Inv(session, c, Do(session, c, s, step))
  {
    var n, log, r := step.node, s.master.log, s.nodes[step.node];
    assert ReplicaFollows(c, log, r) && RouterOk(session, s.sent, s.localNet, n, r.router);
    ApplyNext(c, log, r);
    OnlyNodeChanges(session, c, s, n, Do(session, c, s, step).nodes[n]);
  }

  lemma {:induction false} OnlyNodeChanges<B, S>(
    session: SessionId, c: Reducer<B, S>, s: System<B, S>, n: NodeId, r: Replica<B, S>)
    requires Inv(session, c, s) && n in s.nodes
    requires RouterOk(session, s.sent, s.localNet, n, r.router) && ReplicaFollows(c, s.master.log, r)
    ensures Inv(session, c, s.(nodes := s.nodes[n := r]))
  {
  }

  lemma {:induction false} RequestKeepsInv<B, S>(
    session: SessionId, c: Reducer<B, S>, s: System<B, S>, n: NodeId, router: Router<B>)
    requires Inv(session, c, s) && n in s.nodes && router == s.nodes[n].router.(nack := NoScope)
    ensures Inv(session, c, s.(nodes := s.nodes[n := s.nodes[n].(router := router)]))
  {
    assert RouterOk(session, s.sent, s.localNet, n, s.nodes[n].router);
    OnlyNodeChanges(session, c, s, n, s.nodes[n].(router := router));
  }

  lemma {:induction false} StepKeepsInv<B, S>(session: SessionId, c: Reducer<B, S>, s: System<B, S>, step: Step<B>)
    requires Inv(session, c, s) && Enabled(session, s, step)
    ensures AssertionsHold(session, s, step) && Inv(session, c, Do(session, c, s, step))
  {
    match step
    case Send(_, _, _) => SendKeepsInv(session, c, s, step);
    case Retry(_, _) => NoiseKeepsInv(session, c, s, step);
    case ForeignLocal(_) => NoiseKeepsInv(session, c, s, step);
    case ForeignGlobal(_) => NoiseKeepsInv(session, c, s, step);
    case MasterReceive(_) => MasterReceiveKeepsInv(session, c, s, step);
    case MasterIndex(_) => MasterIndexKeepsInv(session, c, s, step);
    case AnswerRequest(_) => AnswerKeepsInv(session, c, s, step);
    case Deliver(_, _) => DeliverKeepsInv(session, c, s, step);
    case Apply(_) => ApplyKeepsInv(session, c, s, step);
    case RequestLog(n) => RequestKeepsInv(session, c, s, n, s.nodes[n].router.Fire());
    case RequestStops(n) => RequestKeepsInv(session, c, s, n, s.nodes[n].router.Unwind());
  }

  lemma {:induction false} InitHasInv<B, S>(session: SessionId, c: Reducer<B, S>, s: System<B, S>)
    requires Init(session, c, s)
    ensures Inv(session, c, s)
  {
    forall source ensures ExactlyOnce(s.sent, s.master, source) {
    }
  }

  lemma {:induction false} RunKeepsInv<B(!new), S>(session: SessionId, c: Reducer<B, S>, run: seq<System<B, S>>)
    requires IsRun(session, c, run)
    ensures Inv(session, c, run[|run| - 1])
  {
    if |run| == 1 {
      InitHasInv(session, c, run[0]);
    } else {
      var s, s' := run[|run| - 2], run[|run| - 1];
      RunKeepsInv(session, c, run[..|run| - 1]);
      var step :| Enabled(session, s, step) && s' == Do(session, c, s, step);
      StepKeepsInv(session, c, s, step);
    }
  }

  // ----- theorems -----

  /** In every run, whatever step comes next, no assertion of the code fails. */
  lemma {:induction false} AssertionsNeverFail<B(!new), S>(
    session: SessionId, c: Reducer<B, S>, run: seq<System<B, S>>, step: Step<B>)
    requires IsRun(session, c, run) && Enabled(session, run[|run| - 1], step)
    ensures AssertionsHold(session, run[|run| - 1], step)
  {
    RunKeepsInv(session, c, run);
    StepKeepsInv(session, c, run[|run| - 1], step);
  }

  /** In every run, what a node has applied is a prefix of the master's log, and
      its state is the reducer folded over that prefix; so are the master's. */
  lemma {:induction false} ReplicasFoldPrefixes<B(!new), S>(
    session: SessionId, c: Reducer<B, S>, run: seq<System<B, S>>, n: NodeId)
    requires IsRun(session, c, run) && n in run[|run| - 1].nodes
    ensures var s := run[|run| - 1]; var r := s.nodes[n];
            && -1 <= r.last < |s.master.log|
            && r.state == Fold(c, s.master.log[..r.last + 1])
            && s.master.state == Fold(c, s.master.log)
  {
    RunKeepsInv(session, c, run);
  }

  lemma {:induction false} ProjectionIsPrefix<B, S>(
    sent: map<SystemId, seq<Event<B>>>, m: Master<B, S>, source: SystemId)
    requires |m.log| == |m.origins| && m.buffers.At(source).next <= |SentBy(sent, source)|
    requires ExactlyOnce(sent, m, source)
    ensures Projection(m.log, m.origins, source) <= Kept(SentBy(sent, source))
  {
    var own, cut := SentBy(sent, source), m.buffers.At(source).next;
    KeptConcat(own[..cut], own[cut..]);
    assert own[..cut] + own[cut..] == own;
  }

  /** In every run, each log entry has a source, and the entries of one source are
      the events it sent, traces dropped, cut to a prefix: nothing is lost in the
      middle, repeated, reordered, or taken from another session. */
  lemma {:induction false} LogIsInterleavingOfPrefixes<B(!new), S>(
    session: SessionId, c: Reducer<B, S>, run: seq<System<B, S>>, source: SystemId)
    requires IsRun(session, c, run)
    ensures var s := run[|run| - 1];
            && |s.master.origins| == |s.master.log|
            && Projection(s.master.log, s.master.origins, source) <= Kept(SentBy(s.sent, source))
  {
    RunKeepsInv(session, c, run);
    var s := run[|run| - 1];
    assert Follows(s.master.buffers.At(source), SentBy(s.sent, source)) && ExactlyOnce(s.sent, s.master, source);
    ProjectionIsPrefix(s.sent, s.master, source);
  }
}
