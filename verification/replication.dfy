/** Event-sourced replication as one step system: numbered local events, a
    network that loses, duplicates and reorders, the master's log, and the
    replicas that fold it (src/exo/routing/event_router.py,
    src/exo/master/main.py, src/exo/shared/apply.py).

    A message set never shrinks and any of its members may be delivered at any
    time, any number of times or never: loss, duplication and reordering are all
    runs of the system. */
module Replication {
  import opened EventBuffer
  import opened Messages
  import opened EventRouter

  // ----- a buffer that follows a sequence -----

  /** Everything released so far is `log[..b.next]` and everything held agrees with `log`. */
  ghost predicate Follows<T>(b: Buffer<T>, log: seq<T>)
  {
    && b.next <= |log| && b.Settled()
    && forall i :: i in b.store ==> b.next <= i < |log| && b.store[i] == log[i]
  }

  ghost predicate Agrees<T>(b: Buffer<T>, log: seq<T>)
  {
    b.next <= |log| && forall i :: i in b.store ==> b.next <= i < |log| && b.store[i] == log[i]
  }

  lemma {:induction false} DrainFollows<T>(b: Buffer<T>, log: seq<T>)
    requires Agrees(b, log)
    ensures Follows(b.Rest(), log) && b.next <= b.Rest().next
    ensures b.Released() == log[b.next..b.Rest().next]
    ensures forall i :: i in b.store ==> i < b.Rest().next || i in b.Rest().store
    decreases |b.store|
  {
    if b.next in b.store {
      b.PopShrinks();
      DrainFollows(b.Pop(), log);
      assert log[b.next..b.Rest().next] == [log[b.next]] + log[b.next + 1..b.Rest().next];
    }
  }

  /** One correct message, in whatever order it comes: the payload assertion
      holds, what is released is the next stretch of the sequence, and the buffer
      still follows it. */
  lemma {:induction false} IngestAndDrain<T>(b: Buffer<T>, log: seq<T>, idx: nat, t: T)
    requires Follows(b, log) && idx < |log| && t == log[idx]
    ensures b.PayloadAgrees(idx, t)
    ensures var full := b.Ingest(idx, t);
            && Follows(full.Rest(), log) && b.next <= full.Rest().next
            && full.Released() == log[b.next..full.Rest().next]
            && (idx < full.Rest().next || idx in full.Rest().store)
            && (forall i :: i in b.store ==> i < full.Rest().next || i in full.Rest().store)
  {
    DrainFollows(b.Ingest(idx, t), log);
  }

  lemma {:induction false} FollowsLonger<T>(b: Buffer<T>, log: seq<T>, t: T)
    requires Follows(b, log)
    ensures Follows(b, log + [t])
  {
  }

  /** The buffer has the entry, released or waiting. */
  ghost predicate Has<T>(b: Buffer<T>, idx: nat)
  {
    idx < b.next || idx in b.store
  }

  // ----- system -----

  /** The reducer folded by every replica. */
  datatype Reducer<!B, !S> = Reducer(step: (Event<B>, S) -> S, init: S)

  ghost function Fold<B, S>(c: Reducer<B, S>, es: seq<Event<B>>): S
  {
    if es == [] then c.init else c.step(es[|es| - 1], Fold(c, es[..|es| - 1]))
  }

  /** `pending` holds drained events the event processor has not indexed yet;
      `origins` records, for the statement only, where each log entry came from. */
  datatype Master<B, S> = Master(
    buffers: MultiBuffer<SystemId, Event<B>>,
    pending: seq<(SystemId, Event<B>)>,
    log: seq<Event<B>>,
    origins: seq<SystemId>,
    state: S,
    last: int)

  datatype Replica<B, S> = Replica(router: Router<B>, inbox: seq<(nat, Event<B>)>, state: S, last: int)

  datatype System<B(==), S> = System(
    sent: map<SystemId, seq<Event<B>>>,
    localNet: set<LocalMessage<B>>,
    master: Master<B, S>,
    globalNet: set<GlobalMessage<B>>,
    nodes: map<NodeId, Replica<B, S>>)

  /** What a source has been given to send so far. */
  function SentBy<B>(sent: map<SystemId, seq<Event<B>>>, source: SystemId): seq<Event<B>>
  {
    if source in sent then sent[source] else []
  }

  datatype Step<B> =
    | Send(node: NodeId, source: SystemId, event: Event<B>)
    | Retry(node: NodeId, id: nat)
    | ForeignLocal(local: LocalMessage<B>)
    | ForeignGlobal(global: GlobalMessage<B>)
    | MasterReceive(local: LocalMessage<B>)
    | MasterIndex(now: int)
    | AnswerRequest(since: int)
    | Deliver(node: NodeId, global: GlobalMessage<B>)
    | Apply(node: NodeId)
    | RequestLog(node: NodeId)
    | RequestStops(node: NodeId)

  const REPLY_LIMIT := 1000

  ghost predicate Enabled<B, S>(session: SessionId, s: System<B, S>, step: Step<B>)
  {
    match step
    case Send(n, source, _) => n in s.nodes && source.node == n
    case Retry(n, id) => n in s.nodes && id in s.nodes[n].router.outForDelivery
    case ForeignLocal(m) => m.session != session
    case ForeignGlobal(m) => m.session != session || m.origin != session.master
    case MasterReceive(m) => m in s.localNet && s.master.pending == []
    case MasterIndex(_) => s.master.pending != []
    case AnswerRequest(_) => true
    case Deliver(n, m) => n in s.nodes && m in s.globalNet
    case Apply(n) => n in s.nodes && s.nodes[n].inbox != []
    case RequestLog(n) => n in s.nodes && s.nodes[n].router.nack.Sleeping?
    case RequestStops(n) => n in s.nodes && s.nodes[n].router.nack.CancelCalled?
  }

  /** The assertions the code makes while taking the step. */
  ghost predicate AssertionsHold<B, S>(session: SessionId, s: System<B, S>, step: Step<B>)
    requires Enabled(session, s, step)
  {
    match step
    case MasterReceive(m) =>
      m.session == session ==> s.master.buffers.At(m.origin).PayloadAgrees(m.idx, m.event)
    case MasterIndex(_) =>
      !s.master.pending[0].1.traces ==> s.master.last == |s.master.log| - 1
    case Deliver(n, m) =>
      s.nodes[n].router.Accepts(m) ==> s.nodes[n].router.buffer.PayloadAgrees(m.idx, m.event)
    case Apply(n) =>
      s.nodes[n].last + 1 == s.nodes[n].inbox[0].0
    case _ => true
  }

  ghost function Receive<B, S>(session: SessionId, m: Master<B, S>, msg: LocalMessage<B>): Master<B, S>
  {
    if msg.session != session then m
    else
      var full := m.buffers.Ingest(msg.idx, msg.event, msg.origin);
      m.(buffers := full.Rest(), pending := full.Released())
  }

  function Stamp<B>(e: Event<B>, now: int): Event<B>
  {
    e.(time := now)
  }

  function Index<B, S>(c: Reducer<B, S>, m: Master<B, S>, now: int): Master<B, S>
    requires m.pending != []
  {
    var (source, e) := m.pending[0];
    var rest := m.(pending := m.pending[1..]);
    if e.traces then rest
    else rest.(log := m.log + [Stamp(e, now)], origins := m.origins + [source],
               state := c.step(Stamp(e, now), m.state), last := |m.log|)
  }

  function Broadcast<B>(session: SessionId, log: seq<Event<B>>, i: nat): GlobalMessage<B>
    requires i < |log|
  {
    GlobalMessage(session.master, i, session, log[i])
  }

  /** The messages a `RequestEventLog` makes the master send. */
  ghost function Reply<B>(session: SessionId, log: seq<Event<B>>, since: int): set<GlobalMessage<B>>
  {
    set i: nat | i < |log| && 0 <= since <= i < since + REPLY_LIMIT :: Broadcast(session, log, i)
  }

  ghost function Do<B, S>(session: SessionId, c: Reducer<B, S>, s: System<B, S>, step: Step<B>): System<B, S>
    requires Enabled(session, s, step)
  {
    match step
    case Send(n, source, e) =>
      var (r, m) := s.nodes[n].router.Forward(source, e);
      s.(sent := s.sent[source := SentBy(s.sent, source) + [e]],
         localNet := s.localNet + {m},
         nodes := s.nodes[n := s.nodes[n].(router := r)])
    case Retry(n, id) => s.(localNet := s.localNet + {s.nodes[n].router.outForDelivery[id]})
    case ForeignLocal(m) => s.(localNet := s.localNet + {m})
    case ForeignGlobal(m) => s.(globalNet := s.globalNet + {m})
    case MasterReceive(m) => s.(master := Receive(session, s.master, m))
    case MasterIndex(now) =>
      var m := Index(c, s.master, now);
      s.(master := m,
         globalNet := if s.master.pending[0].1.traces then s.globalNet
                      else s.globalNet + {Broadcast(session, m.log, |s.master.log|)})
    case AnswerRequest(since) => s.(globalNet := s.globalNet + Reply(session, s.master.log, since))
    case Deliver(n, m) =>
      var r := s.nodes[n];
      s.(nodes := s.nodes[n := r.(router := r.router.Receive(m), inbox := r.inbox + r.router.Passed(m))])
    case Apply(n) =>
      var r := s.nodes[n];
      var (idx, e) := r.inbox[0];
      s.(nodes := s.nodes[n := r.(inbox := r.inbox[1..], state := c.step(e, r.state), last := idx)])
    case RequestLog(n) => s.(nodes := s.nodes[n := s.nodes[n].(router := s.nodes[n].router.Fire())])
    case RequestStops(n) => s.(nodes := s.nodes[n := s.nodes[n].(router := s.nodes[n].router.Unwind())])
  }

  ghost predicate Init<B, S>(session: SessionId, c: Reducer<B, S>, s: System<B, S>)
  {
    && s.sent == map[] && s.localNet == {} && s.globalNet == {}
    && s.master == Master(MultiBuffer([], map[]), [], [], [], c.init, -1)
    && forall n :: n in s.nodes ==>
         s.nodes[n] == Replica(Router(session, Empty(), map[], map[], NoScope, 0), [], c.init, -1)
  }

  ghost predicate Next<B(!new), S>(session: SessionId, c: Reducer<B, S>, s: System<B, S>, s': System<B, S>)
  {
    exists step :: Enabled(session, s, step) && s' == Do(session, c, s, step)
  }

  ghost predicate IsRun<B(!new), S>(session: SessionId, c: Reducer<B, S>, run: seq<System<B, S>>)
  {
    run != [] &&
    if |run| == 1 then Init(session, c, run[0])
    else IsRun(session, c, run[..|run| - 1]) && Next(session, c, run[|run| - 2], run[|run| - 1])
  }

  lemma {:induction false} IngestWellFormed<S, T>(m: MultiBuffer<S, T>, idx: nat, t: T, source: S)
    requires m.WellFormed()
    ensures m.Ingest(idx, t, source).WellFormed()
  {
    if source !in m.stores {
      assert source !in (set s | s in m.order);
    }
  }

  // ----- exactly once, in order, per source -----

  /** An event up to the time the master writes into it. */
  function Strip<B>(e: Event<B>): Event<B>
  {
    e.(time := 0)
  }

  /** The events of a sent sequence that may be indexed. */
  ghost function Kept<B>(es: seq<Event<B>>): seq<Event<B>>
  {
    if es == [] then []
    else Kept(es[..|es| - 1]) + if es[|es| - 1].traces then [] else [Strip(es[|es| - 1])]
  }

  /** The entries of the log that came from one source. */
  ghost function Projection<B>(log: seq<Event<B>>, origins: seq<SystemId>, source: SystemId): seq<Event<B>>
    requires |log| == |origins|
  {
    if log == [] then []
    else Projection(log[..|log| - 1], origins[..|log| - 1], source)
         + if origins[|log| - 1] == source then [Strip(log[|log| - 1])] else []
  }

  /** The entries still to be indexed that will come from one source. */
  ghost function Upcoming<B>(pending: seq<(SystemId, Event<B>)>, source: SystemId): seq<Event<B>>
  {
    if pending == [] then []
    else (if pending[0].0 == source && !pending[0].1.traces then [Strip(pending[0].1)] else [])
         + Upcoming(pending[1..], source)
  }

  lemma {:induction false} KeptConcat<B>(a: seq<Event<B>>, b: seq<Event<B>>)
    ensures Kept(a + b) == Kept(a) + Kept(b)
  {
    if b == [] {
      assert a + b == a;
    } else {
      KeptConcat(a, b[..|b| - 1]);
      assert (a + b)[..|a + b| - 1] == a + b[..|b| - 1];
    }
  }

  lemma {:induction false} UpcomingOfTagged<B>(source: SystemId, es: seq<Event<B>>, other: SystemId)
    ensures Upcoming(Tag(source, es), other) == if source == other then Kept(es) else []
  {
    if es != [] {
      UpcomingOfTagged(source, es[1..], other);
      assert Tag(source, es)[1..] == Tag(source, es[1..]);
      KeptConcat([es[0]], es[1..]);
      assert [es[0]] + es[1..] == es;
      assert [es[0]][..0] == [];
    }
  }

  // ----- invariant -----

  ghost predicate LocalNetOk<B>(session: SessionId, sent: map<SystemId, seq<Event<B>>>, net: set<LocalMessage<B>>)
  {
    forall m :: m in net && m.session == session ==>
      m.idx < |SentBy(sent, m.origin)| && m.event == SentBy(sent, m.origin)[m.idx]
  }

  ghost predicate BuffersOk<B, S>(sent: map<SystemId, seq<Event<B>>>, m: Master<B, S>)
  {
    m.buffers.WellFormed() && forall source :: Follows(m.buffers.At(source), SentBy(sent, source))
  }

  /** What has been taken from a source is what the log holds of it, then what is
      about to be indexed. */
  ghost predicate ExactlyOnce<B, S>(sent: map<SystemId, seq<Event<B>>>, m: Master<B, S>, source: SystemId)
    requires |m.log| == |m.origins|
    requires m.buffers.At(source).next <= |SentBy(sent, source)|
  {
    Kept(SentBy(sent, source)[..m.buffers.At(source).next])
      == Projection(m.log, m.origins, source) + Upcoming(m.pending, source)
  }

  ghost predicate MasterOk<B, S>(sent: map<SystemId, seq<Event<B>>>, m: Master<B, S>)
  {
    && BuffersOk(sent, m) && |m.log| == |m.origins|
    && forall source :: ExactlyOnce(sent, m, source)
  }

  ghost predicate MasterFolds<B, S>(c: Reducer<B, S>, m: Master<B, S>)
  {
    m.last == |m.log| - 1 && m.state == Fold(c, m.log)
  }

  ghost predicate GlobalNetOk<B>(session: SessionId, log: seq<Event<B>>, net: set<GlobalMessage<B>>)
  {
    forall m :: m in net && m.session == session && m.origin == session.master ==>
      m.idx < |log| && m.event == log[m.idx]
  }

  ghost predicate RouterOk<B>(session: SessionId, sent: map<SystemId, seq<Event<B>>>, net: set<LocalMessage<B>>,
                              n: NodeId, router: Router<B>)
  {
    && router.session == session
    && (forall source: SystemId :: source.node == n ==> router.Count(source) == |SentBy(sent, source)|)
    && (forall id :: id in router.outForDelivery ==> router.outForDelivery[id] in net)
    && (router.nack.Sleeping? ==> router.nack.since == router.buffer.next)
  }

  /** What a node has applied is a prefix of the log, what its inbox holds comes
      next, and its state is the fold of the prefix. */
  ghost predicate ReplicaFollows<B, S>(c: Reducer<B, S>, log: seq<Event<B>>, r: Replica<B, S>)
  {
    && Follows(r.router.buffer, log)
    && -1 <= r.last < r.router.buffer.next
    && |r.inbox| == r.router.buffer.next - (r.last + 1)
    && (forall k :: 0 <= k < |r.inbox| ==> r.inbox[k] == (r.last + 1 + k, log[r.last + 1 + k]))
    && r.state == Fold(c, log[..r.last + 1])
  }

  ghost predicate RoutersOk<B, S>(session: SessionId, s: System<B, S>)
  {
    forall n :: n in s.nodes ==> RouterOk(session, s.sent, s.localNet, n, s.nodes[n].router)
  }

  ghost predicate ReplicasFollow<B, S>(c: Reducer<B, S>, s: System<B, S>)
  {
    forall n :: n in s.nodes ==> ReplicaFollows(c, s.master.log, s.nodes[n])
  }

  ghost predicate Inv<B, S>(session: SessionId, c: Reducer<B, S>, s: System<B, S>)
  {
    && LocalNetOk(session, s.sent, s.localNet)
    && MasterOk(s.sent, s.master) && MasterFolds(c, s.master)
    && GlobalNetOk(session, s.master.log, s.globalNet)
    && RoutersOk(session, s) && ReplicasFollow(c, s)
  }
}
