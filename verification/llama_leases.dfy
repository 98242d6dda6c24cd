/** Every interleaving of acquires, waits, timeouts, cancellations and releases. */
module LlamaLeases {
  import opened LlamaRouter

  type RequestId = nat

  datatype Rest = Awake | Asleep(until: real)
  datatype Waiter = Waiter(model: ModelName, deadline: real, rest: Rest)

  /** `Returning`: `_released` is set, `release_runtime` still waits for the lock. */
  datatype Phase = Held | Returning(failed: bool) | Closed(failed: bool)
  datatype Lease = Lease(runtime: nat, phase: Phase)

  datatype Config = Config(maximumQueueSize: nat, queueTimeout: real, cooldown: real)

  datatype World = World(
    runtimes: seq<Runtime>,
    waiting: int,
    waiters: map<RequestId, Waiter>,
    leases: seq<Lease>,
    now: real)

  datatype Step =
    | Tick(to: real)
    | Rejected
    | Acquire(id: RequestId, model: ModelName, started: real, turn: Turn)
    | TimerFires(id: RequestId)
    | Resume(id: RequestId, turn: Turn)
    | Abandon(id: RequestId)
    | Release(lease: nat, failed: bool)
    | ReleaseRuntime(lease: nat)

  ghost predicate Enabled(c: Config, w: World, s: Step)
    requires Configured(w.runtimes)
  {
    match s
    case Tick(to) => w.now <= to
    case Rejected => w.waiting >= c.maximumQueueSize
    case Acquire(id, model, started, turn) =>
      && w.waiting < c.maximumQueueSize && id !in w.waiters && started <= w.now
      && Decides(w.runtimes, model, started + c.queueTimeout, w.now, turn)
    case TimerFires(id) => id in w.waiters && w.waiters[id].rest.Asleep? && w.waiters[id].rest.until <= w.now
    case Resume(id, turn) =>
      && id in w.waiters && w.waiters[id].rest.Awake?
      && Decides(w.runtimes, w.waiters[id].model, w.waiters[id].deadline, w.now, turn)
    case Abandon(id) => id in w.waiters
    case Release(l, _) => l < |w.leases|
    case ReleaseRuntime(l) => l < |w.leases| && w.leases[l].phase.Returning? && w.leases[l].runtime < |w.runtimes|
  }

  function NewLeases(leases: seq<Lease>, turn: Turn): seq<Lease>
  {
    if turn.Grant? then leases + [Lease(turn.runtime, Held)] else leases
  }

  /** The queue after a turn: the request sleeps on, or is gone. */
  function Requeued(
    ws: map<RequestId, Waiter>, id: RequestId, model: ModelName, deadline: real, now: real, turn: Turn)
    : map<RequestId, Waiter>
  {
    if turn.Sleep? then ws[id := Waiter(model, deadline, Asleep(now + turn.seconds))] else ws - {id}
  }

  /** `notify_all`. */
  function AllAwake(ws: map<RequestId, Waiter>): map<RequestId, Waiter>
  {
    map id | id in ws :: ws[id].(rest := Awake)
  }

  ghost function Do(c: Config, w: World, s: Step): World
    requires Configured(w.runtimes) && Enabled(c, w, s)
  {
    match s
    case Tick(to) => w.(now := to)
    case Rejected => w
    case Acquire(id, model, started, turn) =>
      w.(runtimes := AfterTurn(w.runtimes, turn), leases := NewLeases(w.leases, turn),
         waiting := w.waiting + if turn.Sleep? then 1 else 0,
         waiters := Requeued(w.waiters, id, model, started + c.queueTimeout, w.now, turn))
    case TimerFires(id) => w.(waiters := w.waiters[id := w.waiters[id].(rest := Awake)])
    case Resume(id, turn) =>
      w.(runtimes := AfterTurn(w.runtimes, turn), leases := NewLeases(w.leases, turn),
         waiting := w.waiting - if turn.Sleep? then 0 else 1,
         waiters := Requeued(w.waiters, id, w.waiters[id].model, w.waiters[id].deadline, w.now, turn))
    case Abandon(id) => w.(waiting := w.waiting - 1, waiters := w.waiters - {id})
    case Release(l, failed) =>
      if w.leases[l].phase.Held? then w.(leases := w.leases[l := w.leases[l].(phase := Returning(failed))]) else w
    case ReleaseRuntime(l) =>
      var k := w.leases[l].runtime;
      w.(runtimes := Returned(w.runtimes, k, w.leases[l].phase.failed, w.now, c.cooldown),
         leases := w.leases[l := w.leases[l].(phase := Closed(w.leases[l].phase.failed))],
         waiters := AllAwake(w.waiters))
  }

  // ----- accounting -----

  ghost function LeasesOf(leases: seq<Lease>, k: nat): set<nat>
  {
    set l | 0 <= l < |leases| && leases[l].runtime == k
  }

  ghost function OpenOf(leases: seq<Lease>, k: nat): set<nat>
  {
    set l | 0 <= l < |leases| && leases[l].runtime == k && !leases[l].phase.Closed?
  }

  ghost function FailedOf(leases: seq<Lease>, k: nat): set<nat>
  {
    set l | 0 <= l < |leases| && leases[l] == Lease(k, Closed(true))
  }

  ghost function ServedOf(leases: seq<Lease>, k: nat): set<nat>
  {
    set l | 0 <= l < |leases| && leases[l] == Lease(k, Closed(false))
  }

  /** The books of one replica: active requests are its open leases, at most its
      capacity, failed and completed ones are those returned as failed and as served, and
      everything granted is one of these. */
  ghost predicate Balanced(r: Runtime, leases: seq<Lease>, k: nat)
  {
    && r.active == |OpenOf(leases, k)| && 0 <= r.active <= r.replica.maxConcurrency
    && |LeasesOf(leases, k)| == r.active + r.completed + r.failed
    && r.failed == |FailedOf(leases, k)| && r.completed == |ServedOf(leases, k)|
  }

  ghost predicate BooksOk(rs: seq<Runtime>, leases: seq<Lease>)
  {
    && (forall k :: 0 <= k < |rs| ==> Balanced(rs[k], leases, k))
    && (forall l :: 0 <= l < |leases| ==> leases[l].runtime < |rs|)
  }

  ghost predicate QueueOk(c: Config, w: World)
  {
    w.waiting == |w.waiters| <= c.maximumQueueSize
  }

  /** A sleeping request misses nothing: until its timer fires no replica can take it,
      and the timer does not outlast its deadline. */
  ghost predicate SleepsSoundly(rs: seq<Runtime>, r: Waiter, now: real)
  {
    r.rest.Asleep? ==>
      && r.rest.until <= r.deadline
      && (forall t: real :: now <= t < r.rest.until ==> NoCandidate(rs, r.model, t))
  }

  ghost predicate NoLostWakeup(rs: seq<Runtime>, ws: map<RequestId, Waiter>, now: real)
  {
    forall id :: id in ws ==> SleepsSoundly(rs, ws[id], now)
  }

  /** A replica is out for at most the cooldown. */
  ghost predicate CooldownsBounded(c: Config, rs: seq<Runtime>, now: real)
  {
    forall k :: 0 <= k < |rs| ==> rs[k].unavailableUntil <= now + c.cooldown
  }

  ghost predicate Inv(c: Config, w: World)
  {
    && Configured(w.runtimes) && BooksOk(w.runtimes, w.leases) && QueueOk(c, w)
    && NoLostWakeup(w.runtimes, w.waiters, w.now) && CooldownsBounded(c, w.runtimes, w.now)
  }

  ghost predicate Init(c: Config, w: World)
  {
    && w.waiting == 0 && w.waiters == map[] && w.leases == [] && 0.0 <= w.now && 0.0 <= c.cooldown
    && (forall k :: 0 <= k < |w.runtimes| ==> w.runtimes[k] == Runtime(w.runtimes[k].replica, 0, 0, 0, 0.0)
                                               && w.runtimes[k].replica.maxConcurrency > 0)
  }

  lemma {:induction false} InitInv(c: Config, w: World)
    requires Init(c, w)
    ensures Inv(c, w)
  {
    forall k | 0 <= k < |w.runtimes| ensures Balanced(w.runtimes[k], w.leases, k) {
      assert OpenOf([], k) == {} && LeasesOf([], k) == {} && FailedOf([], k) == {} && ServedOf([], k) == {};
    }
  }

  // ----- the steps -----

  lemma {:induction false} GrantKeepsBooks(rs: seq<Runtime>, leases: seq<Lease>, k: nat)
    requires BooksOk(rs, leases) && k < |rs| && rs[k].active < rs[k].replica.maxConcurrency
    ensures BooksOk(Granted(rs, k), leases + [Lease(k, Held)])
  {
    var after := leases + [Lease(k, Held)];
    forall j | 0 <= j < |rs| ensures Balanced(Granted(rs, k)[j], after, j) {
      assert Balanced(rs[j], leases, j);
      LeaseAdded(leases, k, j);
    }
  }

  lemma {:induction false} LeaseAdded(leases: seq<Lease>, k: nat, j: nat)
    ensures |OpenOf(leases + [Lease(k, Held)], j)| == |OpenOf(leases, j)| + if j == k then 1 else 0
    ensures |LeasesOf(leases + [Lease(k, Held)], j)| == |LeasesOf(leases, j)| + if j == k then 1 else 0
    ensures FailedOf(leases + [Lease(k, Held)], j) == FailedOf(leases, j)
    ensures ServedOf(leases + [Lease(k, Held)], j) == ServedOf(leases, j)
  {
    OpenAdded(leases, k, j);
    ClosedKept(leases, k, j);
  }

  lemma {:induction false} OpenAdded(leases: seq<Lease>, k: nat, j: nat)
    ensures |OpenOf(leases + [Lease(k, Held)], j)| == |OpenOf(leases, j)| + if j == k then 1 else 0
    ensures |LeasesOf(leases + [Lease(k, Held)], j)| == |LeasesOf(leases, j)| + if j == k then 1 else 0
  {
    var after := leases + [Lease(k, Held)];
    var added := if j == k then {|leases|} else {};
    assert OpenOf(after, j) == OpenOf(leases, j) + added;
    assert LeasesOf(after, j) == LeasesOf(leases, j) + added;
  }

  lemma {:induction false} ClosedKept(leases: seq<Lease>, k: nat, j: nat)
    ensures FailedOf(leases + [Lease(k, Held)], j) == FailedOf(leases, j)
    ensures ServedOf(leases + [Lease(k, Held)], j) == ServedOf(leases, j)
  {
  }

  /** The leases of replica `j` once lease `l` is closed. */
  lemma {:induction false} LeaseClosed(leases: seq<Lease>, l: nat, failed: bool, j: nat)
    requires l < |leases| && leases[l].phase.Returning?
    ensures var after := leases[l := leases[l].(phase := Closed(failed))]; var own := leases[l].runtime == j;
            && |OpenOf(after, j)| == |OpenOf(leases, j)| - (if own then 1 else 0)
            && LeasesOf(after, j) == LeasesOf(leases, j)
            && |FailedOf(after, j)| == |FailedOf(leases, j)| + (if own && failed then 1 else 0)
            && |ServedOf(after, j)| == |ServedOf(leases, j)| + (if own && !failed then 1 else 0)
  {
    OneNotOpen(leases, l, failed, j);
    OneFailed(leases, l, failed, j);
    OneServed(leases, l, failed, j);
  }

  lemma {:induction false} OneNotOpen(leases: seq<Lease>, l: nat, failed: bool, j: nat)
    requires l < |leases| && leases[l].phase.Returning?
    ensures var after := leases[l := leases[l].(phase := Closed(failed))];
            && |OpenOf(after, j)| == |OpenOf(leases, j)| - (if leases[l].runtime == j then 1 else 0)
            && LeasesOf(after, j) == LeasesOf(leases, j)
  {
    var after := leases[l := leases[l].(phase := Closed(failed))];
    if leases[l].runtime == j {
      assert l in OpenOf(leases, j);
      assert OpenOf(after, j) == OpenOf(leases, j) - {l};
    } else {
      assert OpenOf(after, j) == OpenOf(leases, j);
    }
  }

  lemma {:induction false} OneFailed(leases: seq<Lease>, l: nat, failed: bool, j: nat)
    requires l < |leases| && leases[l].phase.Returning?
    ensures var after := leases[l := leases[l].(phase := Closed(failed))];
            |FailedOf(after, j)| == |FailedOf(leases, j)| + (if leases[l].runtime == j && failed then 1 else 0)
  {
    var after := leases[l := leases[l].(phase := Closed(failed))];
    assert l !in FailedOf(leases, j);
    if leases[l].runtime == j && failed {
      assert FailedOf(after, j) == FailedOf(leases, j) + {l};
    } else {
      assert FailedOf(after, j) == FailedOf(leases, j);
    }
  }

  lemma {:induction false} OneServed(leases: seq<Lease>, l: nat, failed: bool, j: nat)
    requires l < |leases| && leases[l].phase.Returning?
    ensures var after := leases[l := leases[l].(phase := Closed(failed))];
            |ServedOf(after, j)| == |ServedOf(leases, j)| + (if leases[l].runtime == j && !failed then 1 else 0)
  {
    var after := leases[l := leases[l].(phase := Closed(failed))];
    assert l !in ServedOf(leases, j);
    if leases[l].runtime == j && !failed {
      assert ServedOf(after, j) == ServedOf(leases, j) + {l};
    } else {
      assert ServedOf(after, j) == ServedOf(leases, j);
    }
  }

  lemma {:induction false} ReturnKeepsBooks(
    rs: seq<Runtime>, leases: seq<Lease>, l: nat, failed: bool, now: real, cooldown: real)
    requires BooksOk(rs, leases) && l < |leases| && leases[l].phase.Returning?
    ensures BooksOk(Returned(rs, leases[l].runtime, failed, now, cooldown),
                    leases[l := leases[l].(phase := Closed(failed))])
  {
    var after := leases[l := leases[l].(phase := Closed(failed))];
    var k := leases[l].runtime;
    forall j | 0 <= j < |rs| ensures Balanced(Returned(rs, k, failed, now, cooldown)[j], after, j) {
      assert Balanced(rs[j], leases, j);
      LeaseClosed(leases, l, failed, j);
    }
  }

  lemma {:induction false} ReleaseKeepsBooks(rs: seq<Runtime>, leases: seq<Lease>, l: nat, failed: bool)
    requires BooksOk(rs, leases) && l < |leases| && leases[l].phase.Held?
    ensures BooksOk(rs, leases[l := leases[l].(phase := Returning(failed))])
  {
    var after := leases[l := leases[l].(phase := Returning(failed))];
    forall j | 0 <= j < |rs| ensures Balanced(rs[j], after, j) {
      assert Balanced(rs[j], leases, j);
      assert OpenOf(after, j) == OpenOf(leases, j) && LeasesOf(after, j) == LeasesOf(leases, j);
      assert FailedOf(after, j) == FailedOf(leases, j) && ServedOf(after, j) == ServedOf(leases, j);
    }
  }

  /** A grant opens no place for anyone else. */
  lemma {:induction false} GrantKeepsSleep(rs: seq<Runtime>, k: nat, ws: map<RequestId, Waiter>, now: real)
    requires k < |rs| && NoLostWakeup(rs, ws, now)
    ensures NoLostWakeup(Granted(rs, k), ws, now)
  {
    forall id | id in ws ensures SleepsSoundly(Granted(rs, k), ws[id], now) {
      assert SleepsSoundly(rs, ws[id], now);
      forall t: real | NoCandidate(rs, ws[id].model, t) ensures NoCandidate(Granted(rs, k), ws[id].model, t) {
        assert !Candidate(rs[k], ws[id].model, t);
      }
    }
  }

  lemma {:induction false} SleepIsSound(
    c: Config, rs: seq<Runtime>, model: ModelName, deadline: real, now: real, seconds: real)
    requires Configured(rs) && Decides(rs, model, deadline, now, Sleep(seconds))
    ensures SleepsSoundly(rs, Waiter(model, deadline, Asleep(now + seconds)), now)
  {
    forall t: real, i: nat | now <= t < now + seconds && i < |rs| ensures !Candidate(rs[i], model, t) {
      assert !Candidate(rs[i], model, now);
    }
  }

  lemma {:induction false} TurnKeepsInv(
    c: Config, w: World, id: RequestId, model: ModelName, deadline: real, turn: Turn)
    requires Inv(c, w) && Decides(w.runtimes, model, deadline, w.now, turn)
    ensures Configured(AfterTurn(w.runtimes, turn)) && BooksOk(AfterTurn(w.runtimes, turn), NewLeases(w.leases, turn))
    ensures CooldownsBounded(c, AfterTurn(w.runtimes, turn), w.now)
    ensures NoLostWakeup(AfterTurn(w.runtimes, turn), Requeued(w.waiters, id, model, deadline, w.now, turn), w.now)
  {
    match turn
    case Grant(k) =>
      GrantKeepsBooks(w.runtimes, w.leases, k);
      GrantKeepsSleep(w.runtimes, k, w.waiters, w.now);
    case Sleep(seconds) => SleepIsSound(c, w.runtimes, model, deadline, w.now, seconds);
    case Expired =>
  }

  lemma {:induction false} RequeuedSize(
    ws: map<RequestId, Waiter>, id: RequestId, model: ModelName, deadline: real, now: real, turn: Turn)
    ensures |Requeued(ws, id, model, deadline, now, turn)| ==
            |ws| - (if id in ws then 1 else 0) + if turn.Sleep? then 1 else 0
  {
    var after := Requeued(ws, id, model, deadline, now, turn);
    assert ws.Keys == (ws - {id}).Keys + if id in ws then {id} else {};
    assert turn.Sleep? ==> after.Keys == (ws - {id}).Keys + {id};
    assert |ws| == |ws.Keys| && |after| == |after.Keys| && |ws - {id}| == |(ws - {id}).Keys|;
  }

  lemma {:induction false} AcquireKeepsInv(c: Config, w: World, s: Step)
    requires Inv(c, w) && s.Acquire? && Enabled(c, w, s)
    ensures Inv(c, Do(c, w, s))
  {
    TurnKeepsInv(c, w, s.id, s.model, s.started + c.queueTimeout, s.turn);
    RequeuedSize(w.waiters, s.id, s.model, s.started + c.queueTimeout, w.now, s.turn);
  }

  lemma {:induction false} ResumeKeepsInv(c: Config, w: World, s: Step)
    requires Inv(c, w) && s.Resume? && Enabled(c, w, s)
    ensures Inv(c, Do(c, w, s))
  {
    var waiter := w.waiters[s.id];
    TurnKeepsInv(c, w, s.id, waiter.model, waiter.deadline, s.turn);
    RequeuedSize(w.waiters, s.id, waiter.model, waiter.deadline, w.now, s.turn);
  }

  lemma {:induction false} StepKeepsInv(c: Config, w: World, s: Step)
    requires Inv(c, w) && Enabled(c, w, s)
    ensures Inv(c, Do(c, w, s))
  {
    match s
    case Acquire(_, _, _, _) => AcquireKeepsInv(c, w, s);
    case Resume(_, _) => ResumeKeepsInv(c, w, s);
    case Abandon(id) => RequeuedSize(w.waiters, id, 0, 0.0, 0.0, Expired);
    case Release(l, failed) =>
      if w.leases[l].phase.Held? { ReleaseKeepsBooks(w.runtimes, w.leases, l, failed); }
    case ReleaseRuntime(l) => ReleaseRuntimeKeepsInv(c, w, l);
    case TimerFires(id) => assert w.waiters.Keys == Do(c, w, s).waiters.Keys;
    case Tick(to) =>
      forall id | id in w.waiters ensures SleepsSoundly(w.runtimes, w.waiters[id], to) {
        assert SleepsSoundly(w.runtimes, w.waiters[id], w.now);
      }
    case Rejected =>
  }

  lemma {:induction false} ReleaseRuntimeKeepsInv(c: Config, w: World, l: nat)
    requires Inv(c, w) && Enabled(c, w, ReleaseRuntime(l))
    ensures Inv(c, Do(c, w, ReleaseRuntime(l)))
  {
    ReturnKeepsBooks(w.runtimes, w.leases, l, w.leases[l].phase.failed, w.now, c.cooldown);
    assert AllAwake(w.waiters).Keys == w.waiters.Keys;
    assert |AllAwake(w.waiters)| == |AllAwake(w.waiters).Keys| && |w.waiters| == |w.waiters.Keys|;
  }

  ghost predicate IsRun(c: Config, run: seq<World>, steps: seq<Step>)
  {
    && |run| == |steps| + 1 && Init(c, run[0])
    && (forall i :: 0 <= i < |steps| ==>
          Configured(run[i].runtimes) && Enabled(c, run[i], steps[i]) && run[i + 1] == Do(c, run[i], steps[i]))
  }

  /** In every state of every run the books balance, the waiting count is the number of
      waiting requests and within the queue bound, no wakeup is lost, and no replica is
      out for longer than the cooldown. */
  lemma {:induction false} RunKeepsInv(c: Config, run: seq<World>, steps: seq<Step>, n: nat)
    requires IsRun(c, run, steps) && n < |run|
    ensures Inv(c, run[n])
  {
    if n == 0 {
      InitInv(c, run[0]);
    } else {
      RunKeepsInv(c, run, steps, n - 1);
      StepKeepsInv(c, run[n - 1], steps[n - 1]);
    }
  }

  /** A lease gives its place back at most once in a run, however often it is released. */
  lemma {:induction false} ReturnedOnce(c: Config, run: seq<World>, steps: seq<Step>, i: nat, j: nat)
    requires IsRun(c, run, steps) && i < j < |steps| && steps[i].ReleaseRuntime?
    ensures steps[j] != steps[i]
  {
    StaysClosed(c, run, steps, steps[i].lease, i + 1, j);
  }

  lemma {:induction false} StaysClosed(c: Config, run: seq<World>, steps: seq<Step>, l: nat, i: nat, j: nat)
    requires IsRun(c, run, steps) && i <= j < |run| && l < |run[i].leases| && run[i].leases[l].phase.Closed?
    ensures l < |run[j].leases| && run[j].leases[l].phase.Closed?
  {
    if i < j {
      StaysClosed(c, run, steps, l, i, j - 1);
    }
  }

  /** A request still waiting past its deadline is awake, and its next turn ends its wait. */
  lemma {:induction false} WaitEndsAtDeadline(c: Config, run: seq<World>, steps: seq<Step>, n: nat, id: RequestId)
    requires IsRun(c, run, steps) && n < |steps| && id in run[n].waiters && run[n].waiters[id].deadline <= run[n].now
    ensures run[n].waiters[id].rest.Awake? || Enabled(c, run[n], TimerFires(id))
    ensures steps[n].Resume? && steps[n].id == id ==> id !in run[n + 1].waiters
  {
    RunKeepsInv(c, run, steps, n);
    assert SleepsSoundly(run[n].runtimes, run[n].waiters[id], run[n].now);
  }

  // ----- which replica a run grants -----

  ghost predicate Grants(s: Step, k: nat)
  {
    (s.Acquire? || s.Resume?) && s.turn == Grant(k)
  }

  ghost predicate AsksFor(w: World, s: Step, model: ModelName)
  {
    (s.Acquire? && s.model == model) || (s.Resume? && s.id in w.waiters && w.waiters[s.id].model == model)
  }

  /** Whenever a run grants a replica, it serves the model, is available with a place
      free, and nobody else who could take the request is less busy. */
  lemma {:induction false} GrantsTheLeastBusy(
    c: Config, run: seq<World>, steps: seq<Step>, n: nat, k: nat, model: ModelName)
    requires IsRun(c, run, steps) && n < |steps| && Grants(steps[n], k) && AsksFor(run[n], steps[n], model)
    ensures k < |run[n].runtimes| && Takes(run[n].runtimes[k], model, run[n].now)
    ensures forall j :: 0 <= j < |run[n].runtimes| && Takes(run[n].runtimes[j], model, run[n].now) ==>
              NoBusier(run[n].runtimes[k], run[n].runtimes[j])
  {
    assert LeastLoaded(run[n].runtimes, model, run[n].now, k);
    LeastLoadedIsLeastBusy(run[n].runtimes, model, run[n].now, k);
  }

  /** The clock does not go back and no replica becomes available before `until`. */
  ghost predicate OutUntil(w: World, k: nat, start: real, until: real)
  {
    k < |w.runtimes| && start <= w.now && until <= w.runtimes[k].unavailableUntil
  }

  lemma {:induction false} StepStaysOut(c: Config, w: World, s: Step, k: nat, start: real)
    requires Configured(w.runtimes) && Enabled(c, w, s) && OutUntil(w, k, start, start + c.cooldown)
    ensures OutUntil(Do(c, w, s), k, start, start + c.cooldown)
  {
  }

  lemma {:induction false} StaysOut(
    c: Config, run: seq<World>, steps: seq<Step>, k: nat, start: real, i: nat, j: nat)
    requires IsRun(c, run, steps) && i <= j < |run| && OutUntil(run[i], k, start, start + c.cooldown)
    ensures OutUntil(run[j], k, start, start + c.cooldown)
  {
    if i < j {
      StaysOut(c, run, steps, k, start, i, j - 1);
      StepStaysOut(c, run[j - 1], steps[j - 1], k, start);
    }
  }

  /** A replica that failed a request is granted to nobody until the cooldown is over. */
  lemma {:induction false} FailedReplicaRests(c: Config, run: seq<World>, steps: seq<Step>, i: nat, j: nat, k: nat)
    requires IsRun(c, run, steps) && i < j < |steps| && steps[i].ReleaseRuntime?
    requires run[i].leases[steps[i].lease] == Lease(k, Returning(true))
    ensures Grants(steps[j], k) ==> run[i].now + c.cooldown <= run[j].now
  {
    assert OutUntil(run[i + 1], k, run[i].now, run[i].now + c.cooldown);
    StaysOut(c, run, steps, k, run[i].now, i + 1, j);
  }
}
