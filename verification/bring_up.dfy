/** Bringing up one multi-node instance: every node runs the planner on its own
    runner and on a possibly stale view of the others.  Runners leave a waiting
    phase only on the matching task (src/exo/worker/runner/runner.py); group
    connection completes only once the whole group has begun connecting. */
module BringUp {
  import opened Common
  import opened Messages
  import opened Planner

  function Ranks(n: nat): (r: set<nat>)
    ensures forall i: nat :: i in r <==> i < n
  {
    if n == 0 then {} else Ranks(n - 1) + {n - 1}
  }

  /** Ranks number the nodes and runners of the group. */
  function GroupInstance(n: nat): Instance
  {
    Instance(0, 0, seq(n, i requires 0 <= i < n => Shard(i, i, n)), map i | i in Ranks(n) :: i)
  }

  /** `history[j]` is every status runner `j` has reported; node `i` has learnt the
      first `seen[i][j]` of them. */
  datatype Group = Group(n: nat, history: seq<seq<Status>>, seen: seq<seq<nat>>) {

    ghost predicate Shape()
    {
      && 2 <= n && |history| == n && |seen| == n
      && (forall i :: 0 <= i < n ==> |seen[i]| == n)
      && (forall i, j :: 0 <= i < n && 0 <= j < n ==> seen[i][j] <= |history[j]|)
    }

    ghost function Phase(j: nat): nat
      requires j < |history|
    {
      if history[j] == [] then 0 else PhaseOf(history[j][|history[j]| - 1])
    }

    /** What node `i` believes. */
    ghost function ViewOf(i: nat): View
      requires Shape() && i < n
    {
      map j: nat | j < n && seen[i][j] > 0 :: history[j][seen[i][j] - 1]
    }

    ghost predicate AllReady()
      requires Shape()
    {
      forall j :: 0 <= j < n ==> Phase(j) == READY
    }

    ghost predicate ViewsCurrent()
      requires Shape()
    {
      forall i, j :: 0 <= i < n && 0 <= j < n ==> seen[i][j] == |history[j]|
    }
  }

  const READY: nat := 7

  function PhaseOf(s: Status): nat
  {
    match s
    case Idle => 1
    case Connecting => 2
    case Connected => 3
    case Loading => 4
    case Loaded => 5
    case WarmingUp => 6
    case _ => READY
  }

  /** What a node's planner is given besides its view: anything at all. */
  datatype Local = Local(inputs: Inputs, completed: set<TaskId>, inProgress: set<TaskId>, cancelled: set<TaskId>)

  ghost function LocalRunner(g: Group, i: nat, l: Local): seq<Runner>
    requires i < |g.history|
  {
    if g.history[i] == [] then []
    else [Runner(GroupInstance(g.n), Shard(i, i, g.n), g.history[i][|g.history[i]| - 1],
                 l.completed, l.inProgress, l.cancelled)]
  }

  ghost function Planned(g: Group, i: nat, l: Local): Outcome
    requires g.Shape() && i < g.n
  {
    Plan(i, LocalRunner(g, i, l), [GroupInstance(g.n)], g.ViewOf(i), l.inputs)
  }

  datatype Step = Act(node: nat, local: Local, task: Task) | Learn(node: nat, runner: nat) | Advance(runner: nat)

  ghost predicate Enabled(g: Group, step: Step)
    requires g.Shape()
  {
    match step
    case Act(i, l, task) => i < g.n && Planned(g, i, l) == Assign(task)
    case Learn(i, j) => i < g.n && j < g.n && g.seen[i][j] < |g.history[j]|
    case Advance(j) =>
      && j < g.n && g.history[j] != []
      && g.history[j][|g.history[j]| - 1] in {Connecting, Loading, WarmingUp, Running}
      && (g.history[j][|g.history[j]| - 1] == Connecting ==>
            forall k :: 0 <= k < g.n ==> g.Phase(k) >= PhaseOf(Connecting))
  }

  ghost function Report(g: Group, j: nat, s: Status): Group
    requires j < |g.history|
  {
    g.(history := g.history[j := g.history[j] + [s]])
  }

  /** What the node's runner reports when given the task. */
  ghost function Perform(g: Group, i: nat, task: Task): Group
    requires i < |g.history|
  {
    match task
    case CreateRunner(_, _) => Report(g, i, Idle)
    case ConnectToGroup(_) => Report(g, i, Connecting)
    case LoadModel(_) => Report(g, i, Loading)
    case StartWarmup(_) => Report(g, i, WarmingUp)
    case Dispatch(_, _) => Report(g, i, Running)
    case _ => g
  }

  ghost function Do(g: Group, step: Step): Group
    requires g.Shape() && Enabled(g, step)
  {
    match step
    case Act(i, _, task) => Perform(g, i, task)
    case Learn(i, j) => g.(seen := g.seen[i := g.seen[i][j := g.seen[i][j] + 1]])
    case Advance(j) => Report(g, j,
      match g.history[j][|g.history[j]| - 1]
      case Connecting => Connected
      case Loading => Loaded
      case _ => Ready)
  }

  ghost predicate Init(g: Group)
  {
    && g.Shape()
    && (forall j :: 0 <= j < g.n ==> g.history[j] == [])
  }

  ghost predicate Next(g: Group, g': Group)
  {
    g.Shape() && exists step :: Enabled(g, step) && g' == Do(g, step)
  }

  ghost predicate IsRun(run: seq<Group>)
  {
    run != [] &&
    if |run| == 1 then Init(run[0]) else IsRun(run[..|run| - 1]) && Next(run[|run| - 2], run[|run| - 1])
  }

  // ----- invariant -----

  /** A runner's reports never go back a phase, and none is a failure. */
  ghost predicate Monotone(h: seq<Status>)
  {
    && (forall a, b :: 0 <= a <= b < |h| ==> PhaseOf(h[a]) <= PhaseOf(h[b]))
    && (forall a :: 0 <= a < |h| ==> h[a] !in {ShuttingDown, Shutdown, Failed})
  }

  ghost predicate AtLeast(g: Group, phase: nat, except: nat)
  {
    forall j :: 0 <= j < |g.history| && j != except ==> g.Phase(j) >= phase
  }

  /** How far apart the ranks can be. */
  ghost predicate InStep(g: Group, i: nat)
    requires i < |g.history|
  {
    && (g.Phase(i) >= 3 ==> AtLeast(g, 2, i))
    && (g.Phase(i) >= 4 ==> AtLeast(g, 3, i))
    && (g.Phase(i) >= 6 ==> AtLeast(g, 5, i))
    && (g.Phase(i) >= 6 && i == 0 ==> AtLeast(g, 6, i))
    && (g.history[i] != [] && g.history[i][|g.history[i]| - 1] == Running ==> AtLeast(g, READY, i))
  }

  ghost predicate Inv(g: Group)
  {
    && g.Shape()
    && (forall j :: 0 <= j < g.n ==> Monotone(g.history[j]) && InStep(g, j))
    && (forall i, j :: 0 <= i < g.n && 0 <= j < g.n && g.Phase(i) >= 2 ==> g.seen[i][j] > 0)
  }

  /** What a node believes about a runner, the runner has already reached. */
  lemma {:induction false} ViewLags(g: Group, i: nat, j: nat)
    requires Inv(g) && i < g.n && j < g.n && j in g.ViewOf(i)
    ensures PhaseOf(g.ViewOf(i)[j]) <= g.Phase(j)
    ensures g.ViewOf(i)[j] != Failed
  {
    assert Monotone(g.history[j]);
  }

  lemma {:induction false} ShardsOfGroup(n: nat)
    ensures forall j: nat :: j < n ==> Shard(j, j, n) in GroupInstance(n).shards
    ensures forall s :: s in GroupInstance(n).shards ==> s.runner < n && s == Shard(s.runner, s.runner, n)
  {
    forall j: nat | j < n ensures Shard(j, j, n) in GroupInstance(n).shards {
      assert GroupInstance(n).shards[j] == Shard(j, j, n);
    }
  }

  // ----- what the planner's answer implies -----

  /** The kind of the answer tells which search produced it. */
  lemma {:induction false} AnswerComesFrom(
    i: nat, runners: seq<Runner>, instances: seq<Instance>, view: View, inputs: Inputs)
    requires |runners| <= 1
    ensures match Plan(i, runners, instances, view, inputs)
            case NoTask => true
            case KeyError =>
              FirstDispatch(inputs.work, runners, view, inputs.chunksReceived, inputs.imageCache).KeyError?
            case Assign(ShutdownRunner(_, _)) => KillRunner(runners, view, instances).Some?
            case Assign(CreateRunner(_, _)) => StartRunner(i, runners, view, instances, inputs.mayCreate).Some?
            case Assign(ConnectToGroup(_)) => InitDistributedBackend(runners, view).Some?
            case Assign(LoadModel(_)) => LoadModelTask(runners, view, inputs.downloads).Some?
            case Assign(StartWarmup(_)) => ReadyToWarmup(runners, view).Some?
            case Assign(Dispatch(_, _)) =>
              FirstDispatch(inputs.work, runners, view, inputs.chunksReceived, inputs.imageCache).Assign?
            case Assign(_) => true
  {
    CancelShape(inputs.work, runners);
    DispatchShape(inputs.work, runners, view, inputs.chunksReceived, inputs.imageCache);
    ChoiceComesFrom(FirstCancel(inputs.work, runners),
                    KillRunner(runners, view, instances),
                    StartRunner(i, runners, view, instances, inputs.mayCreate),
                    ModelNeedsDownload(i, runners, inputs.downloads, inputs.mayDownload),
                    InitDistributedBackend(runners, view),
                    LoadModelTask(runners, view, inputs.downloads),
                    ReadyToWarmup(runners, view),
                    FirstDispatch(inputs.work, runners, view, inputs.chunksReceived, inputs.imageCache));
  }

  lemma {:induction false} ChoiceComesFrom(
    cancel: Outcome, kill: Option<Task>, create: Option<Task>, download: Option<Task>, connect: Option<Task>,
    load: Option<Task>, warm: Option<Task>, dispatch: Outcome)
    requires cancel.NoTask? || (cancel.Assign? && cancel.task.CancelTask?)
    requires dispatch.Assign? ==> dispatch.task.Dispatch?
    requires kill.Some? ==> kill.value.ShutdownRunner?
    requires create.Some? ==> create.value.CreateRunner?
    requires download.Some? ==> download.value.DownloadModel?
    requires connect.Some? ==> connect.value.ConnectToGroup?
    requires load.Some? ==> load.value.LoadModel?
    requires warm.Some? ==> warm.value.StartWarmup?
    ensures match Choose(cancel, kill, create, download, connect, load, warm, dispatch)
            case NoTask => true
            case KeyError => dispatch.KeyError?
            case Assign(ShutdownRunner(_, _)) => kill.Some?
            case Assign(CreateRunner(_, _)) => create.Some?
            case Assign(ConnectToGroup(_)) => connect.Some?
            case Assign(LoadModel(_)) => load.Some?
            case Assign(StartWarmup(_)) => warm.Some?
            case Assign(Dispatch(_, _)) => dispatch.Assign?
            case Assign(_) => true
  {
  }

  lemma {:induction false} CancelShape(work: seq<Work>, runners: seq<Runner>)
    ensures var o := FirstCancel(work, runners); o.NoTask? || (o.Assign? && o.task.CancelTask?)
  {
    if work != [] {
      CancelShape(work[1..], runners);
    }
  }

  lemma {:induction false} DispatchShape(
    work: seq<Work>, runners: seq<Runner>, view: View, chunks: map<CommandId, nat>, cache: set<ImageHash>)
    requires |runners| <= 1
    ensures var o := FirstDispatch(work, runners, view, chunks, cache);
            o.NoTask? ||
            (&& (o.Assign? ==> o.task.Dispatch?)
             && |runners| == 1 && runners[0].status in {Ready, Running}
             && AllReady(runners[0].instance.shards, view) == (if o.KeyError? then None else Some(true)))
  {
    if work != [] {
      DispatchShape(work[1..], runners, view, chunks, cache);
      if runners != [] {
        assert runners[1..] == [];
        assert DispatchTo(work[0], runners[1..], view) == NoTask;
      }
    }
  }

  lemma {:induction false} AllReadyMeans(shards: seq<Shard>, view: View)
    ensures AllReady(shards, view).None? ==> exists s :: s in shards && s.runner !in view
    ensures AllReady(shards, view) == Some(true) ==> forall s :: s in shards ==> Is(view, s.runner, {Ready, Running})
  {
    if shards != [] {
      AllReadyMeans(shards[1..], view);
      assert shards == [shards[0]] + shards[1..];
      if AllReady(shards, view).None? && shards[0].runner in view {
        var s :| s in shards[1..] && s.runner !in view;
        assert s in shards;
      }
    }
  }

  ghost function Latest(g: Group, i: nat): Status
    requires i < |g.history| && g.history[i] != []
  {
    g.history[i][|g.history[i]| - 1]
  }

  /** Every runner the view reports in one of these statuses has reached that phase. */
  lemma {:induction false} SeenReached(g: Group, i: nat, j: nat, allowed: set<Status>, phase: nat)
    requires Inv(g) && i < g.n && j < g.n && Is(g.ViewOf(i), j, allowed)
    requires forall s :: s in allowed ==> PhaseOf(s) >= phase
    ensures g.Phase(j) >= phase && g.seen[i][j] > 0
  {
    ViewLags(g, i, j);
  }

  /** What must already be true of the whole group when a node is given a task. */
  ghost predicate TaskSafe(g: Group, i: nat, task: Task)
    requires g.Shape() && i < g.n
  {
    match task
    case ShutdownRunner(_, _) => false
    case CreateRunner(_, _) => g.history[i] == []
    case ConnectToGroup(_) =>
      && g.history[i] != [] && Latest(g, i) == Idle
      && (forall j :: 0 <= j < g.n ==> g.seen[i][j] > 0)
      && (i == g.n - 1 ==> AtLeast(g, PhaseOf(Connecting), i))
    case LoadModel(_) =>
      g.history[i] != [] && Latest(g, i) == Connected && AtLeast(g, PhaseOf(Connected), g.n)
    case StartWarmup(_) =>
      && g.history[i] != [] && Latest(g, i) == Loaded && AtLeast(g, PhaseOf(Loaded), g.n)
      && (i == 0 ==> AtLeast(g, PhaseOf(WarmingUp), i))
    case Dispatch(_, _) =>
      g.history[i] != [] && Latest(g, i) in {Ready, Running} && AtLeast(g, READY, g.n)
    case _ => true
  }

  lemma {:induction false} NeverKilled(g: Group, i: nat, l: Local)
    requires Inv(g) && i < g.n
    ensures KillRunner(LocalRunner(g, i, l), g.ViewOf(i), [GroupInstance(g.n)]).None?
  {
    var runners, instances := LocalRunner(g, i, l), [GroupInstance(g.n)];
    assert GroupInstance(g.n) in instances;
    forall r | r in runners ensures !ShouldKill(r, instances, g.ViewOf(i)) {
      assert Monotone(g.history[i]);
      forall k: nat | k < g.n && k in g.ViewOf(i) ensures g.ViewOf(i)[k] != Failed {
        ViewLags(g, i, k);
      }
    }
  }

  lemma {:induction false} CreatedOnce(g: Group, i: nat, l: Local)
    requires g.Shape() && i < g.n && g.history[i] != []
    ensures StartRunner(i, LocalRunner(g, i, l), g.ViewOf(i), [GroupInstance(g.n)], l.inputs.mayCreate).None?
  {
    assert LocalRunner(g, i, l)[0].shard.runner == i;
  }

  lemma {:induction false} ConnectSafe(g: Group, i: nat, r: Runner)
    requires Inv(g) && i < g.n && r.instance == GroupInstance(g.n) && r.shard == Shard(i, i, g.n)
    requires ShouldConnect(r, g.ViewOf(i))
    ensures forall j :: 0 <= j < g.n ==> g.seen[i][j] > 0
    ensures i == g.n - 1 ==> AtLeast(g, PhaseOf(Connecting), i)
  {
    ShardsOfGroup(g.n);
    forall j | 0 <= j < g.n ensures g.seen[i][j] > 0 && (i == g.n - 1 && j != i ==> g.Phase(j) >= 2) {
      assert Shard(j, j, g.n) in r.instance.shards;
      SeenReached(g, i, j, {Connecting, Idle}, 1);
      if i == g.n - 1 && j != i {
        SeenReached(g, i, j, {Connecting}, 2);
      }
    }
  }

  lemma {:induction false} AllSeenReached(g: Group, i: nat, allowed: set<Status>, phase: nat, except: nat)
    requires Inv(g) && i < g.n && (forall s :: s in allowed ==> PhaseOf(s) >= phase)
    requires forall s :: s in GroupInstance(g.n).shards && s.runner != except ==> Is(g.ViewOf(i), s.runner, allowed)
    ensures AtLeast(g, phase, except)
  {
    ShardsOfGroup(g.n);
    forall j | 0 <= j < g.n && j != except ensures g.Phase(j) >= phase {
      assert Shard(j, j, g.n) in GroupInstance(g.n).shards;
      SeenReached(g, i, j, allowed, phase);
    }
  }

  lemma {:induction false} LoadSafe(g: Group, i: nat, r: Runner, downloads: map<NodeId, seq<Download>>)
    requires Inv(g) && i < g.n && r.instance == GroupInstance(g.n) && ShouldLoad(r, g.ViewOf(i), downloads)
    ensures r.status == Connected && AtLeast(g, PhaseOf(Connected), g.n)
  {
    AllSeenReached(g, i, {Connected, Loading, Loaded}, 3, g.n);
  }

  lemma {:induction false} WarmUpSafe(g: Group, i: nat, r: Runner)
    requires Inv(g) && i < g.n && r.instance == GroupInstance(g.n) && r.shard == Shard(i, i, g.n)
    requires ShouldWarmUp(r, g.ViewOf(i)) && g.Phase(i) >= 5
    ensures AtLeast(g, PhaseOf(Loaded), g.n)
    ensures i == 0 ==> AtLeast(g, PhaseOf(WarmingUp), i)
  {
    if i == 0 {
      AllSeenReached(g, i, {WarmingUp, Ready}, 6, i);
    } else {
      AllSeenReached(g, i, {Loaded, WarmingUp, Ready}, 5, g.n);
    }
  }

  /** A ready runner's node has heard of every runner of the group. */
  lemma {:induction false} LookupNeverMisses(g: Group, i: nat)
    requires Inv(g) && i < g.n && g.Phase(i) >= 2
    ensures AllReady(GroupInstance(g.n).shards, g.ViewOf(i)).Some?
    ensures AllReady(GroupInstance(g.n).shards, g.ViewOf(i)) == Some(true) ==> AtLeast(g, READY, g.n)
  {
    var shards, view := GroupInstance(g.n).shards, g.ViewOf(i);
    AllReadyMeans(shards, view);
    ShardsOfGroup(g.n);
    assert forall s :: s in shards ==> s.runner in view;
    if AllReady(shards, view) == Some(true) {
      AllSeenReached(g, i, {Ready, Running}, READY, g.n);
    }
  }

  /** The lookup without a default always finds its runner here. */
  lemma {:induction false} DispatchSafe(g: Group, i: nat, l: Local)
    requires Inv(g) && i < g.n
    ensures var runners, chunks, cache := LocalRunner(g, i, l), l.inputs.chunksReceived, l.inputs.imageCache;
            var o := FirstDispatch(l.inputs.work, runners, g.ViewOf(i), chunks, cache);
            && !o.KeyError?
            && (o.Assign? ==> g.history[i] != [] && Latest(g, i) in {Ready, Running} && AtLeast(g, READY, g.n))
  {
    DispatchShape(l.inputs.work, LocalRunner(g, i, l), g.ViewOf(i), l.inputs.chunksReceived, l.inputs.imageCache);
    if g.history[i] != [] && Latest(g, i) in {Ready, Running} {
      LookupNeverMisses(g, i);
    }
  }

  /** Whatever a node believes and whatever else it is given, the planner never
      fails and its answer is safe for the whole group. */
  lemma {:induction false} PlanIsSafe(g: Group, i: nat, l: Local)
    requires Inv(g) && i < g.n
    ensures !Planned(g, i, l).KeyError?
    ensures Planned(g, i, l).Assign? ==> TaskSafe(g, i, Planned(g, i, l).task)
  {
    var runners := LocalRunner(g, i, l);
    AnswerComesFrom(i, runners, [GroupInstance(g.n)], g.ViewOf(i), l.inputs);
    NeverKilled(g, i, l);
    DispatchSafe(g, i, l);
    if g.history[i] != [] {
      CreatedOnce(g, i, l);
      GuardsSafe(g, i, l);
    }
  }

  lemma {:induction false} GuardsSafe(g: Group, i: nat, l: Local)
    requires Inv(g) && i < g.n && g.history[i] != []
    ensures InitDistributedBackend(LocalRunner(g, i, l), g.ViewOf(i)).Some? ==> TaskSafe(g, i, ConnectToGroup(0))
    ensures LoadModelTask(LocalRunner(g, i, l), g.ViewOf(i), l.inputs.downloads).Some? ==> TaskSafe(g, i, LoadModel(0))
    ensures ReadyToWarmup(LocalRunner(g, i, l), g.ViewOf(i)).Some? ==> TaskSafe(g, i, StartWarmup(0))
  {
    var r := LocalRunner(g, i, l)[0];
    if ShouldConnect(r, g.ViewOf(i)) {
      ConnectSafe(g, i, r);
    }
    if ShouldLoad(r, g.ViewOf(i), l.inputs.downloads) {
      LoadSafe(g, i, r, l.inputs.downloads);
    }
    if ShouldWarmUp(r, g.ViewOf(i)) {
      WarmUpSafe(g, i, r);
    }
  }

  // ----- preservation -----

  lemma {:induction false} MonotoneSnoc(h: seq<Status>, s: Status)
    requires Monotone(h) && (h != [] ==> PhaseOf(h[|h| - 1]) <= PhaseOf(s)) && s !in {ShuttingDown, Shutdown, Failed}
    ensures Monotone(h + [s])
  {
    forall a, b | 0 <= a <= b < |h + [s]| ensures PhaseOf((h + [s])[a]) <= PhaseOf((h + [s])[b]) {
      if a < |h| {
        assert PhaseOf(h[a]) <= PhaseOf(h[|h| - 1]);
      }
    }
  }

  /** A runner stays in step while the others only move forward. */
  lemma {:induction false} StaysInStep(g: Group, g': Group, j: nat)
    requires j < |g.history| == |g'.history| && g'.history[j] == g.history[j]
    requires forall k :: 0 <= k < |g.history| ==> g.Phase(k) <= g'.Phase(k)
    requires InStep(g, j)
    ensures InStep(g', j)
  {
  }

  lemma {:induction false} ReportKeepsInv(g: Group, i: nat, s: Status)
    requires Inv(g) && i < g.n && g.Phase(i) <= PhaseOf(s) && s !in {ShuttingDown, Shutdown, Failed}
    requires InStep(Report(g, i, s), i)
    requires PhaseOf(s) >= 2 ==> forall j :: 0 <= j < g.n ==> g.seen[i][j] > 0
    ensures Inv(Report(g, i, s))
  {
    var g' := Report(g, i, s);
    assert forall j :: 0 <= j < g.n ==> g.Phase(j) <= g'.Phase(j);
    forall j | 0 <= j < g.n ensures Monotone(g'.history[j]) && InStep(g', j) {
      assert Monotone(g.history[j]) && InStep(g, j);
      if j == i {
        MonotoneSnoc(g.history[i], s);
      } else {
        StaysInStep(g, g', j);
      }
    }
    assert forall j :: 0 <= j < g.n && j != i ==> g'.Phase(j) == g.Phase(j);
  }

  /** The status reported on a task is in step. */
  lemma {:induction false} ReportInStep(g: Group, i: nat, s: Status)
    requires Inv(g) && i < g.n
    requires PhaseOf(s) >= 3 ==> AtLeast(g, 2, i)
    requires PhaseOf(s) >= 4 ==> AtLeast(g, 3, i)
    requires PhaseOf(s) >= 6 ==> AtLeast(g, 5, i) && (i == 0 ==> AtLeast(g, 6, i))
    requires s == Running ==> AtLeast(g, READY, i)
    ensures InStep(Report(g, i, s), i)
  {
    var g' := Report(g, i, s);
    assert forall j :: 0 <= j < g.n && j != i ==> g'.Phase(j) == g.Phase(j);
  }

  lemma {:induction false} PerformKeepsInv(g: Group, i: nat, task: Task)
    requires Inv(g) && i < g.n && TaskSafe(g, i, task)
    ensures Inv(Perform(g, i, task))
  {
    assert InStep(g, i);
    match task
    case CreateRunner(_, _) => TaskKeepsInv(g, i, Idle);
    case ConnectToGroup(_) => TaskKeepsInv(g, i, Connecting);
    case LoadModel(_) => TaskKeepsInv(g, i, Loading);
    case StartWarmup(_) => TaskKeepsInv(g, i, WarmingUp);
    case Dispatch(_, _) => TaskKeepsInv(g, i, Running);
    case _ =>
  }

  lemma {:induction false} TaskKeepsInv(g: Group, i: nat, s: Status)
    requires Inv(g) && i < g.n && g.Phase(i) <= PhaseOf(s) && s !in {ShuttingDown, Shutdown, Failed}
    requires PhaseOf(s) >= 2 ==> forall j :: 0 <= j < g.n ==> g.seen[i][j] > 0
    requires PhaseOf(s) >= 3 ==> AtLeast(g, 2, i)
    requires PhaseOf(s) >= 4 ==> AtLeast(g, 3, i)
    requires PhaseOf(s) >= 6 ==> AtLeast(g, 5, i) && (i == 0 ==> AtLeast(g, 6, i))
    requires s == Running ==> AtLeast(g, READY, i)
    ensures Inv(Report(g, i, s))
  {
    ReportInStep(g, i, s);
    ReportKeepsInv(g, i, s);
  }

  lemma {:induction false} AdvanceKeepsInv(g: Group, step: Step)
    requires Inv(g) && step.Advance? && Enabled(g, step)
    ensures Inv(Do(g, step))
  {
    assert InStep(g, step.runner);
    TaskKeepsInv(g, step.runner, Latest(Do(g, step), step.runner));
  }

  lemma {:induction false} LearnKeepsInv(g: Group, step: Step)
    requires Inv(g) && step.Learn? && Enabled(g, step)
    ensures Inv(Do(g, step))
  {
    var g' := Do(g, step);
    forall k | 0 <= k < g.n ensures Monotone(g'.history[k]) && InStep(g', k) {
      assert Monotone(g.history[k]) && InStep(g, k);
      StaysInStep(g, g', k);
    }
    assert g'.Shape() && forall k :: 0 <= k < g.n ==> g'.Phase(k) == g.Phase(k);
  }

  lemma {:induction false} StepKeepsInv(g: Group, step: Step)
    requires Inv(g) && Enabled(g, step)
    ensures Inv(Do(g, step))
  {
    match step
    case Act(i, l, task) =>
      PlanIsSafe(g, i, l);
      PerformKeepsInv(g, i, task);
    case Learn(_, _) => LearnKeepsInv(g, step);
    case Advance(_) => AdvanceKeepsInv(g, step);
  }

  lemma {:induction false} NextKeepsInv(g: Group, g': Group)
    requires Inv(g) && Next(g, g')
    ensures Inv(g')
  {
    var step :| Enabled(g, step) && g' == Do(g, step);
    StepKeepsInv(g, step);
  }

  lemma {:induction false} RunKeepsInv(run: seq<Group>)
    requires IsRun(run)
    ensures Inv(run[|run| - 1])
  {
    if |run| > 1 {
      RunKeepsInv(run[..|run| - 1]);
      NextKeepsInv(run[|run| - 2], run[|run| - 1]);
    }
  }
}
