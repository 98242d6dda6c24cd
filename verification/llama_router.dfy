/** Leases on llama.cpp replicas and the queue in front of them
    (src/exo/api/llama_router.py).  A section between two awaits is one method, and the
    clock is a parameter; loads are exact ratios. */
module LlamaRouter {
  type ModelName = nat

  datatype Replica = Replica(id: nat, models: set<ModelName>, maxConcurrency: nat)
  datatype Runtime = Runtime(replica: Replica, active: int, completed: int, failed: int, unavailableUntil: real)

  predicate Configured(rs: seq<Runtime>)
  {
    forall i :: 0 <= i < |rs| ==> rs[i].replica.maxConcurrency > 0
  }

  predicate Candidate(r: Runtime, model: ModelName, now: real)
  {
    model in r.replica.models && r.unavailableUntil <= now && r.active < r.replica.maxConcurrency
  }

  function Load(r: Runtime): real
    requires r.replica.maxConcurrency > 0
  {
    r.active as real / r.replica.maxConcurrency as real
  }

  /** The order of the selection keys (load, completed requests, replica id). */
  predicate Better(a: Runtime, b: Runtime)
    requires a.replica.maxConcurrency > 0 && b.replica.maxConcurrency > 0
  {
    || Load(a) < Load(b)
    || (Load(a) == Load(b) && a.completed < b.completed)
    || (Load(a) == Load(b) && a.completed == b.completed && a.replica.id < b.replica.id)
  }

  ghost predicate NoCandidate(rs: seq<Runtime>, model: ModelName, now: real)
  {
    forall i :: 0 <= i < |rs| ==> !Candidate(rs[i], model, now)
  }

  /** The first of the candidates that no candidate beats. */
  ghost predicate LeastLoaded(rs: seq<Runtime>, model: ModelName, now: real, k: nat)
    requires Configured(rs)
  {
    && k < |rs| && Candidate(rs[k], model, now)
    && (forall j :: 0 <= j < |rs| && Candidate(rs[j], model, now) ==> !Better(rs[j], rs[k]))
    && (forall j :: 0 <= j < k && Candidate(rs[j], model, now) ==> Better(rs[k], rs[j]))
  }

  /** Some place is free on an available replica that serves the model. */
  ghost predicate Takes(r: Runtime, model: ModelName, now: real)
  {
    model in r.replica.models && r.unavailableUntil <= now && r.active < r.replica.maxConcurrency
  }

  /** `a` has the smaller part of its places in use, or the same part and fewer completed
      requests, or the same of both and the smaller id. */
  ghost predicate NoBusier(a: Runtime, b: Runtime)
  {
    var x, y := a.active * b.replica.maxConcurrency, b.active * a.replica.maxConcurrency;
    x <= y && (x == y ==> a.completed <= b.completed)
    && (x == y && a.completed == b.completed ==> a.replica.id <= b.replica.id)
  }

  lemma {:induction false} RatioOrder(a: int, m: int, b: int, n: int)
    requires m > 0 && n > 0
    ensures a as real / m as real < b as real / n as real <==> a * n < b * m
    ensures a as real / m as real == b as real / n as real <==> a * n == b * m
  {
    var x, y, p := a as real / m as real, b as real / n as real, (m * n) as real;
    assert p == m as real * n as real > 0.0;
    assert x * m as real == a as real && y * n as real == b as real;
    assert x * p == (a * n) as real by {
      assert x * p == (x * m as real) * n as real;
    }
    assert y * p == (b * m) as real by {
      assert y * p == (y * n as real) * m as real;
    }
    ScaleOrder(x, y, p);
  }

  lemma {:induction false} ScaleOrder(x: real, y: real, p: real)
    requires p > 0.0
    ensures x < y <==> x * p < y * p
    ensures x == y <==> x * p == y * p
  {
  }

  lemma {:induction false} NotBetterIsBusier(a: Runtime, b: Runtime)
    requires a.replica.maxConcurrency > 0 && b.replica.maxConcurrency > 0 && !Better(b, a)
    ensures NoBusier(a, b)
  {
    RatioOrder(a.active, a.replica.maxConcurrency, b.active, b.replica.maxConcurrency);
    RatioOrder(b.active, b.replica.maxConcurrency, a.active, a.replica.maxConcurrency);
  }

  /** The least loaded, on numbers: it takes the request, and so does nobody less busy. */
  lemma {:induction false} LeastLoadedIsLeastBusy(rs: seq<Runtime>, model: ModelName, now: real, k: nat)
    requires Configured(rs) && LeastLoaded(rs, model, now, k)
    ensures Takes(rs[k], model, now)
    ensures forall j :: 0 <= j < |rs| && Takes(rs[j], model, now) ==> NoBusier(rs[k], rs[j])
  {
    forall j | 0 <= j < |rs| && Takes(rs[j], model, now) ensures NoBusier(rs[k], rs[j]) {
      assert Candidate(rs[j], model, now);
      NotBetterIsBusier(rs[k], rs[j]);
    }
  }

  // ----- one turn of the wait loop -----

  datatype Turn = Grant(runtime: nat) | Expired | Sleep(seconds: real)

  /** A replica with the model becomes available at this time. */
  ghost predicate CooldownEnds(rs: seq<Runtime>, model: ModelName, time: real)
  {
    exists i :: 0 <= i < |rs| && model in rs[i].replica.models && rs[i].unavailableUntil == time
  }

  /** What a turn of the wait loop decides. */
  ghost predicate Decides(rs: seq<Runtime>, model: ModelName, deadline: real, now: real, turn: Turn)
    requires Configured(rs)
  {
    match turn
    case Grant(k) => LeastLoaded(rs, model, now, k)
    case Expired => NoCandidate(rs, model, now) && deadline <= now
    case Sleep(seconds) =>
      && NoCandidate(rs, model, now) && 0.0 < seconds <= deadline - now
      && (seconds == deadline - now || CooldownEnds(rs, model, now + seconds))
      && (forall i :: 0 <= i < |rs| && model in rs[i].replica.models && rs[i].unavailableUntil > now ==>
            now + seconds <= rs[i].unavailableUntil)
  }

  /** The decision is a function of what the turn sees. */
  lemma {:induction false} DecisionIsUnique(
    rs: seq<Runtime>, model: ModelName, deadline: real, now: real, a: Turn, b: Turn)
    requires Configured(rs) && Decides(rs, model, deadline, now, a) && Decides(rs, model, deadline, now, b)
    ensures a == b
  {
    if a.Grant? && b.Grant? {
      assert !(a.runtime < b.runtime) && !(b.runtime < a.runtime);
    }
  }

  method Select(rs: seq<Runtime>, model: ModelName, now: real) returns (found: bool, k: nat)
    requires Configured(rs)
    ensures found ==> LeastLoaded(rs, model, now, k)
    ensures !found ==> NoCandidate(rs, model, now)
    ensures found ==> Takes(rs[k], model, now)
    ensures found ==> forall j :: 0 <= j < |rs| && Takes(rs[j], model, now) ==> NoBusier(rs[k], rs[j])
    ensures !found ==> forall j :: 0 <= j < |rs| ==> !Takes(rs[j], model, now)
  {
    found, k := false, 0;
    for i := 0 to |rs|
      invariant !found ==> forall j :: 0 <= j < i ==> !Candidate(rs[j], model, now)
      invariant found ==> k < i && Candidate(rs[k], model, now)
      invariant found ==> forall j :: 0 <= j < i && Candidate(rs[j], model, now) ==> !Better(rs[j], rs[k])
      invariant found ==> forall j :: 0 <= j < k && Candidate(rs[j], model, now) ==> Better(rs[k], rs[j])
    {
      if Candidate(rs[i], model, now) && (!found || Better(rs[i], rs[k])) {
        found, k := true, i;
      }
    }
    assert !found ==> forall j :: 0 <= j < |rs| ==> !Candidate(rs[j], model, now);
    if found {
      LeastLoadedIsLeastBusy(rs, model, now, k);
    }
  }

  method SleepFor(rs: seq<Runtime>, model: ModelName, deadline: real, now: real) returns (seconds: real)
    requires Configured(rs) && NoCandidate(rs, model, now) && now < deadline
    ensures Decides(rs, model, deadline, now, Sleep(seconds))
  {
    seconds := deadline - now;
    for i := 0 to |rs|
      invariant 0.0 < seconds <= deadline - now
      invariant seconds == deadline - now || CooldownEnds(rs, model, now + seconds)
      invariant forall j :: 0 <= j < i && model in rs[j].replica.models && rs[j].unavailableUntil > now ==>
                  now + seconds <= rs[j].unavailableUntil
    {
      if model in rs[i].replica.models && rs[i].unavailableUntil > now && rs[i].unavailableUntil - now < seconds {
        seconds := rs[i].unavailableUntil - now;
      }
    }
  }

  method Decide(rs: seq<Runtime>, model: ModelName, deadline: real, now: real) returns (turn: Turn)
    requires Configured(rs)
    ensures Decides(rs, model, deadline, now, turn)
  {
    var found, k := Select(rs, model, now);
    if found {
      return Grant(k);
    }
    if deadline - now <= 0.0 {
      return Expired;
    }
    var seconds := SleepFor(rs, model, deadline, now);
    return Sleep(seconds);
  }

  function Granted(rs: seq<Runtime>, k: nat): seq<Runtime>
    requires k < |rs|
  {
    rs[k := rs[k].(active := rs[k].active + 1)]
  }

  function Returned(rs: seq<Runtime>, k: nat, failed: bool, now: real, cooldown: real): seq<Runtime>
    requires k < |rs|
  {
    var r := rs[k].(active := rs[k].active - 1);
    rs[k := if failed then r.(failed := r.failed + 1, unavailableUntil := now + cooldown)
            else r.(completed := r.completed + 1)]
  }

  function AfterTurn(rs: seq<Runtime>, turn: Turn): seq<Runtime>
    requires turn.Grant? ==> turn.runtime < |rs|
  {
    if turn.Grant? then Granted(rs, turn.runtime) else rs
  }

  // ----- the objects -----

  class ReplicaLease {
    const runtime: nat
    var released: bool

    constructor (runtime: nat)
      ensures this.runtime == runtime && !released
    {
      this.runtime, released := runtime, false;
    }

    /** The first call goes on to `ReleaseRuntime`; every later one does nothing. */
    method Release() returns (first: bool)
      modifies this
      ensures released && first == !old(released)
    {
      if released {
        return false;
      }
      released := true;
      return true;
    }
  }

  datatype Acquired = QueueFull | Turned(turn: Turn)

  class LlamaRequestRouter {
    const maximumQueueSize: nat
    const queueTimeout: real
    const cooldown: real
    var runtimes: seq<Runtime>
    var waiting: int

    ghost predicate Valid()
      reads this
    {
      Configured(runtimes) && 0 <= waiting <= maximumQueueSize
    }

    constructor (replicas: seq<Replica>, maximumQueueSize: nat, queueTimeout: real, cooldown: real)
      requires forall i :: 0 <= i < |replicas| ==> replicas[i].maxConcurrency > 0
      ensures Valid() && waiting == 0 && runtimes == Fresh(replicas)
      ensures this.maximumQueueSize == maximumQueueSize && this.queueTimeout == queueTimeout
      ensures this.cooldown == cooldown
    {
      this.maximumQueueSize, this.queueTimeout, this.cooldown := maximumQueueSize, queueTimeout, cooldown;
      runtimes, waiting := Fresh(replicas), 0;
    }

    /** `_acquire` up to its first wait.  Only a request that goes to sleep stays counted. */
    method Acquire(model: ModelName, started: real, now: real) returns (a: Acquired)
      requires Valid()
      modifies this
      ensures Valid()
      ensures a == QueueFull <==> old(waiting) >= maximumQueueSize
      ensures a == QueueFull ==> runtimes == old(runtimes) && waiting == old(waiting)
      ensures a.Turned? ==>
        && Decides(old(runtimes), model, started + queueTimeout, now, a.turn)
        && runtimes == AfterTurn(old(runtimes), a.turn)
        && waiting == old(waiting) + if a.turn.Sleep? then 1 else 0
    {
      if waiting >= maximumQueueSize {
        return QueueFull;
      }
      waiting := waiting + 1;
      var turn := Resume(model, started + queueTimeout, now);
      return Turned(turn);
    }

    /** One turn of the wait loop of a counted request; leaving it uncounts the request. */
    method Resume(model: ModelName, deadline: real, now: real) returns (turn: Turn)
      requires Valid() && waiting > 0
      modifies this
      ensures Valid()
      ensures Decides(old(runtimes), model, deadline, now, turn)
      ensures runtimes == AfterTurn(old(runtimes), turn)
      ensures waiting == old(waiting) - if turn.Sleep? then 0 else 1
    {
      turn := Decide(runtimes, model, deadline, now);
      if turn.Grant? {
        runtimes := Granted(runtimes, turn.runtime);
      }
      if !turn.Sleep? {
        waiting := waiting - 1;
      }
    }

    /** A waiting request is cancelled. */
    method Abandon()
      requires Valid() && waiting > 0
      modifies this
      ensures Valid() && runtimes == old(runtimes) && waiting == old(waiting) - 1
    {
      waiting := waiting - 1;
    }

    method ReleaseRuntime(k: nat, failed: bool, now: real)
      requires Valid() && k < |runtimes|
      modifies this
      ensures Valid() && waiting == old(waiting) && runtimes == Returned(old(runtimes), k, failed, now, cooldown)
      ensures |runtimes| == |old(runtimes)| && forall j :: 0 <= j < |runtimes| && j != k ==>
                runtimes[j] == old(runtimes)[j]
      ensures runtimes[k].active == old(runtimes)[k].active - 1 && runtimes[k].replica == old(runtimes)[k].replica
      ensures failed ==>
                && runtimes[k].failed == old(runtimes)[k].failed + 1 && runtimes[k].unavailableUntil == now + cooldown
                && runtimes[k].completed == old(runtimes)[k].completed
      ensures !failed ==>
                && runtimes[k].completed == old(runtimes)[k].completed + 1
                && runtimes[k].failed == old(runtimes)[k].failed
                && runtimes[k].unavailableUntil == old(runtimes)[k].unavailableUntil
    {
      var r := runtimes[k].(active := runtimes[k].active - 1);
      if failed {
        r := r.(failed := r.failed + 1, unavailableUntil := now + cooldown);
      } else {
        r := r.(completed := r.completed + 1);
      }
      runtimes := runtimes[k := r];
    }
  }

  function Fresh(replicas: seq<Replica>): (rs: seq<Runtime>)
    ensures |rs| == |replicas| && forall i :: 0 <= i < |rs| ==> rs[i] == Runtime(replicas[i], 0, 0, 0, 0.0)
  {
    seq(|replicas|, i requires 0 <= i < |replicas| => Runtime(replicas[i], 0, 0, 0, 0.0))
  }
}
