/** Bringing up a group never gets stuck, and every step that matters brings it
    closer to ready. */
module BringUpProgress {
  import opened Common
  import opened Messages
  import opened Planner
  import opened BringUp

  /** In every run, whatever a node believes, what its planner answers is safe. */
  lemma {:induction false} SafeBringUp(run: seq<Group>, i: nat, l: Local)
    requires IsRun(run) && i < run[|run| - 1].n && run[|run| - 1].Shape()
    ensures var g := run[|run| - 1];
            !Planned(g, i, l).KeyError? && (Planned(g, i, l).Assign? ==> TaskSafe(g, i, Planned(g, i, l).task))
  {
    RunKeepsInv(run);
    PlanIsSafe(run[|run| - 1], i, l);
  }

  // ----- measure -----

  ghost function PhaseSum(g: Group, k: nat): nat
    requires k <= |g.history|
  {
    if k == 0 then 0 else PhaseSum(g, k - 1) + g.Phase(k - 1)
  }

  lemma {:induction false} ReportMovesSum(g: Group, i: nat, s: Status, k: nat)
    requires i < |g.history| && k <= |g.history|
    ensures PhaseSum(Report(g, i, s), k) == PhaseSum(g, k) + if i < k then PhaseOf(s) - g.Phase(i) else 0
  {
    if k > 0 {
      ReportMovesSum(g, i, s, k - 1);
    }
  }

  lemma {:induction false} SumBounded(g: Group, k: nat)
    requires g.Shape() && k <= g.n
    ensures PhaseSum(g, k) <= READY * k
    ensures PhaseSum(g, k) == READY * k <==> forall j :: 0 <= j < k ==> g.Phase(j) == READY
  {
    if k > 0 {
      SumBounded(g, k - 1);
    }
  }

  /** The step changes some runner's phase. */
  ghost predicate Moves(g: Group, step: Step)
    requires g.Shape() && Enabled(g, step)
  {
    match step
    case Act(_, _, task) => task.CreateRunner? || task.ConnectToGroup? || task.LoadModel? || task.StartWarmup?
    case Learn(_, _) => false
    case Advance(j) => Latest(g, j) != Running
  }

  /** No step goes back, and every moving step is one phase closer to the bound,
      which only an all-ready group meets (`SumBounded`). */
  lemma {:induction false} StepsMoveForward(g: Group, step: Step)
    requires Inv(g) && Enabled(g, step)
    ensures PhaseSum(Do(g, step), g.n) == PhaseSum(g, g.n) + if Moves(g, step) then 1 else 0
  {
    match step
    case Act(i, l, task) =>
      PlanIsSafe(g, i, l);
      PerformMoves(g, i, task);
    case Learn(_, _) =>
      SamePhases(g, Do(g, step), g.n);
    case Advance(_) =>
      AdvanceMoves(g, step);
  }

  lemma {:induction false} AdvanceMoves(g: Group, step: Step)
    requires g.Shape() && step.Advance? && Enabled(g, step)
    ensures PhaseSum(Do(g, step), g.n) == PhaseSum(g, g.n) + if Moves(g, step) then 1 else 0
  {
    ReportMovesSum(g, step.runner, Latest(Do(g, step), step.runner), g.n);
  }

  lemma {:induction false} PerformMoves(g: Group, i: nat, task: Task)
    requires Inv(g) && i < g.n && TaskSafe(g, i, task)
    ensures PhaseSum(Perform(g, i, task), g.n) == PhaseSum(g, g.n)
      + if task.CreateRunner? || task.ConnectToGroup? || task.LoadModel? || task.StartWarmup? then 1 else 0
  {
    match task
    case CreateRunner(_, _) => ReportMovesSum(g, i, Idle, g.n);
    case ConnectToGroup(_) => ReportMovesSum(g, i, Connecting, g.n);
    case LoadModel(_) => ReportMovesSum(g, i, Loading, g.n);
    case StartWarmup(_) => ReportMovesSum(g, i, WarmingUp, g.n);
    case Dispatch(_, _) => ReportMovesSum(g, i, Running, g.n);
    case _ =>
  }

  lemma {:induction false} SamePhases(g: Group, g': Group, k: nat)
    requires g'.history == g.history && k <= |g.history|
    ensures PhaseSum(g', k) == PhaseSum(g, k)
  {
    if k > 0 {
      SamePhases(g, g', k - 1);
    }
  }

  // ----- no deadlock -----

  /** Nothing outside the group holds node `i` back: every node has the model, and the
      node may create its runner if it has none.  Requests may be waiting. */
  ghost predicate Supplied(g: Group, i: nat, l: Local)
    requires i < |g.history|
  {
    && (g.history[i] == [] ==> 0 in l.inputs.mayCreate)
    && forall k: nat :: k < g.n ==>
         k in l.inputs.downloads && LatestDownload(l.inputs.downloads[k], 0) == Some(DownloadCompleted)
  }

  /** Each node plans on inputs of its own. */
  ghost predicate AllSupplied(g: Group, locals: seq<Local>)
  {
    |locals| == g.n == |g.history| && forall i :: 0 <= i < g.n ==> Supplied(g, i, locals[i])
  }

  /** Cancelled requests of the instance that the node's runner has not been told about. */
  ghost function ToCancel(l: Local): set<TaskId>
  {
    set w | w in l.inputs.work && w.status == Cancelled && w.instance == 0 && w.id !in l.cancelled :: w.id
  }

  lemma {:induction false} LatestIsListed(ds: seq<Download>, model: ModelId)
    ensures LatestDownload(ds, model).Some? ==> Download(model, LatestDownload(ds, model).value) in ds
  {
    if ds != [] && ds[|ds| - 1].model != model {
      LatestIsListed(ds[..|ds| - 1], model);
    }
  }

  /** Cancellation comes first, and only when one is outstanding. */
  lemma {:induction false} CancelsFirst(work: seq<Work>, r: Runner)
    ensures FirstCancel(work, []) == NoTask
    ensures var o := FirstCancel(work, [r]);
            if exists w :: w in work && w.status == Cancelled && w.instance == r.instance.id && w.id !in r.cancelled
            then exists w :: w in work && w.status == Cancelled && w.instance == r.instance.id && w.id !in r.cancelled
                             && o == Assign(CancelTask(w.instance, w.id, r.shard.runner))
            else o == NoTask
  {
    if work != [] {
      CancelsFirst(work[1..], r);
      assert work == [work[0]] + work[1..];
      assert r in [r];
    }
  }

  lemma {:induction false} ActsToCancel(g: Group, i: nat, l: Local)
    requires Inv(g) && i < g.n && g.history[i] != [] && ToCancel(l) != {}
    ensures var o := Planned(g, i, l); o.Assign? && o.task.CancelTask? && o.task.cancelledTask in ToCancel(l)
  {
    var id :| id in ToCancel(l);
    CancelsFirst(l.inputs.work, LocalRunner(g, i, l)[0]);
  }

  lemma {:induction false} NothingToCancel(g: Group, i: nat, l: Local)
    requires i < |g.history| && (g.history[i] == [] || ToCancel(l) == {})
    ensures FirstCancel(l.inputs.work, LocalRunner(g, i, l)) == NoTask
  {
    forall w | w in l.inputs.work && w.status == Cancelled && w.instance == 0 && w.id !in l.cancelled
      ensures w.id in ToCancel(l)
    {
    }
    var r := Runner(GroupInstance(g.n), Shard(i, i, g.n), Idle, {}, {}, {});
    CancelsFirst(l.inputs.work, if g.history[i] == [] then r else LocalRunner(g, i, l)[0]);
  }

  lemma {:induction false} ActsToCreate(g: Group, i: nat, l: Local)
    requires Inv(g) && i < g.n && Supplied(g, i, l) && g.history[i] == []
    ensures Planned(g, i, l).Assign? && Planned(g, i, l).task.CreateRunner?
  {
    var inst, view := GroupInstance(g.n), g.ViewOf(i);
    forall k: nat | k < g.n && k in view ensures view[k] != Failed {
      ViewLags(g, i, k);
    }
    assert ShouldCreate(i, inst, [], view, l.inputs.mayCreate);
    assert inst in [inst];
    assert KillRunner([], view, [inst]).None?;
    NothingToCancel(g, i, l);
  }

  lemma {:induction false} NoDownload(g: Group, i: nat, l: Local)
    requires g.Shape() && i < g.n && Supplied(g, i, l)
    ensures ModelNeedsDownload(i, LocalRunner(g, i, l), l.inputs.downloads, l.inputs.mayDownload).None?
  {
  }

  /** A runner whose guard holds is given its task, once nothing is left to cancel. */
  lemma {:induction false} ActsOnGuard(g: Group, i: nat, l: Local)
    requires Inv(g) && i < g.n && Supplied(g, i, l) && g.history[i] != [] && ToCancel(l) == {}
    requires var r := LocalRunner(g, i, l)[0];
             || ShouldConnect(r, g.ViewOf(i)) || ShouldLoad(r, g.ViewOf(i), l.inputs.downloads)
             || ShouldWarmUp(r, g.ViewOf(i))
    ensures var o := Planned(g, i, l); o.Assign? && (o.task.ConnectToGroup? || o.task.LoadModel? || o.task.StartWarmup?)
  {
    NothingToCancel(g, i, l);
    NeverKilled(g, i, l);
    CreatedOnce(g, i, l);
    NoDownload(g, i, l);
    SomeGuard(LocalRunner(g, i, l), g.ViewOf(i), l.inputs.downloads);
    ChooseGuard(i, LocalRunner(g, i, l), [GroupInstance(g.n)], g.ViewOf(i), l.inputs);
  }

  lemma {:induction false} SomeGuard(runners: seq<Runner>, view: View, downloads: map<NodeId, seq<Download>>)
    requires |runners| == 1
    ensures ShouldConnect(runners[0], view) ==> InitDistributedBackend(runners, view).Some?
    ensures ShouldLoad(runners[0], view, downloads) ==> LoadModelTask(runners, view, downloads).Some?
    ensures ShouldWarmUp(runners[0], view) ==> ReadyToWarmup(runners, view).Some?
  {
    assert runners[0] in runners;
  }

  lemma {:induction false} ChooseGuard(
    i: nat, runners: seq<Runner>, instances: seq<Instance>, view: View, inputs: Inputs)
    requires FirstCancel(inputs.work, runners) == NoTask && KillRunner(runners, view, instances).None?
    requires StartRunner(i, runners, view, instances, inputs.mayCreate).None?
    requires ModelNeedsDownload(i, runners, inputs.downloads, inputs.mayDownload).None?
    requires || InitDistributedBackend(runners, view).Some? || LoadModelTask(runners, view, inputs.downloads).Some?
             || ReadyToWarmup(runners, view).Some?
    ensures var o := Plan(i, runners, instances, view, inputs);
            o.Assign? && (o.task.ConnectToGroup? || o.task.LoadModel? || o.task.StartWarmup?)
  {
  }

  lemma {:induction false} CurrentView(g: Group, i: nat)
    requires Inv(g) && g.ViewsCurrent() && i < g.n
    ensures forall j: nat :: j < g.n && g.history[j] != [] ==> j in g.ViewOf(i) && g.ViewOf(i)[j] == Latest(g, j)
  {
  }

  lemma {:induction false} StatusOfPhase(g: Group, j: nat)
    requires Inv(g) && j < g.n && g.history[j] != []
    ensures Latest(g, j) !in {ShuttingDown, Shutdown, Failed}
    ensures PhaseOf(Latest(g, j)) == g.Phase(j)
  {
    assert Monotone(g.history[j]);
  }

  /** Every runner's current status is one of these. */
  lemma {:induction false} AllIs(g: Group, i: nat, allowed: set<Status>, except: nat)
    requires Inv(g) && g.ViewsCurrent() && i < g.n
    requires forall j: nat :: j < g.n && j != except ==> g.history[j] != [] && Latest(g, j) in allowed
    ensures forall s :: s in GroupInstance(g.n).shards && s.runner != except ==> Is(g.ViewOf(i), s.runner, allowed)
  {
    CurrentView(g, i);
    ShardsOfGroup(g.n);
  }

  lemma {:induction false} SomeoneConnects(g: Group, idle: nat) returns (i: nat)
    requires Inv(g) && g.ViewsCurrent()
    requires idle < g.n && g.Phase(idle) == 1 && forall j: nat :: j < g.n ==> g.Phase(j) >= 1
    ensures i < g.n && g.history[i] != [] && forall l :: ShouldConnect(LocalRunner(g, i, l)[0], g.ViewOf(i))
  {
    forall j: nat | j < g.n ensures g.history[j] != [] && Latest(g, j) in {Idle, Connecting} {
      StatusOfPhase(g, j);
      assert InStep(g, j);
    }
    i := idle;
    if idle == g.n - 1 && exists k: nat :: k < g.n - 1 && g.Phase(k) == 1 {
      i :| i < g.n - 1 && g.Phase(i) == 1;
    }
    assert Latest(g, i) == Idle;
    AllIs(g, i, {Connecting, Idle}, g.n);
    if i == g.n - 1 {
      forall j: nat | j < g.n && j != i ensures Latest(g, j) == Connecting {
        assert g.Phase(j) != 1;
      }
      AllIs(g, i, {Connecting}, i);
    }
  }

  lemma {:induction false} SomeoneLoads(g: Group, l: Local, i: nat)
    requires Inv(g) && g.ViewsCurrent() && i < g.n && Supplied(g, i, l)
    requires g.Phase(i) == 3 && forall j: nat :: j < g.n ==> g.Phase(j) >= 3
    ensures g.history[i] != [] && ShouldLoad(LocalRunner(g, i, l)[0], g.ViewOf(i), l.inputs.downloads)
  {
    forall j: nat | j < g.n ensures g.history[j] != [] && Latest(g, j) in {Connected, Loading, Loaded} {
      StatusOfPhase(g, j);
      assert InStep(g, j);
    }
    AllIs(g, i, {Connected, Loading, Loaded}, g.n);
    forall k: nat | k < g.n ensures Download(0, DownloadCompleted) in l.inputs.downloads[k] {
      LatestIsListed(l.inputs.downloads[k], 0);
    }
  }

  lemma {:induction false} SomeoneWarmsUp(g: Group, loaded: nat) returns (i: nat)
    requires Inv(g) && g.ViewsCurrent()
    requires loaded < g.n && g.Phase(loaded) == 5 && forall j: nat :: j < g.n ==> g.Phase(j) >= 5
    ensures i < g.n && g.history[i] != [] && forall l :: ShouldWarmUp(LocalRunner(g, i, l)[0], g.ViewOf(i))
  {
    forall j: nat | j < g.n ensures g.history[j] != [] && Latest(g, j) in {Loaded, WarmingUp, Ready} {
      StatusOfPhase(g, j);
      assert InStep(g, j);
    }
    i := loaded;
    if loaded == 0 && exists k: nat :: 0 < k < g.n && g.Phase(k) == 5 {
      i :| 0 < i < g.n && g.Phase(i) == 5;
    }
    assert Latest(g, i) == Loaded;
    if i > 0 {
      AllIs(g, i, {Loaded, WarmingUp, Ready}, g.n);
    } else {
      forall j: nat | j < g.n && j != i ensures Latest(g, j) in {WarmingUp, Ready} {
        assert g.Phase(j) != 5;
      }
      AllIs(g, i, {WarmingUp, Ready}, i);
    }
  }

  /** A planned step uses the inputs of the node that plans. */
  ghost predicate Own(locals: seq<Local>, step: Step)
  {
    step.Act? ==> step.node < |locals| && step.local == locals[step.node]
  }

  ghost predicate Cancels(locals: seq<Local>, step: Step)
  {
    step.Act? && step.node < |locals| && step.task.CancelTask? && step.task.cancelledTask in ToCancel(locals[step.node])
  }

  /** With current views and complete downloads, a group that is not all ready has a
      step that moves it; where a runner must first be told of a cancelled request, its
      node's planner does that. */
  lemma {:induction false} NeverStuck(g: Group, locals: seq<Local>) returns (step: Step)
    requires Inv(g) && g.ViewsCurrent() && AllSupplied(g, locals) && !g.AllReady()
    ensures Enabled(g, step) && Own(locals, step) && (Moves(g, step) || Cancels(locals, step))
    ensures (forall i :: 0 <= i < g.n ==> ToCancel(locals[i]) == {}) ==> Moves(g, step)
  {
    var low := LowestPhase(g);
    if g.history[low] != [] && Latest(g, low) in {Connecting, Loading, WarmingUp} {
      return Advance(low);
    }
    var i := Actor(g, locals, low);
    Answers(g, i, locals[i]);
    step := Act(i, locals[i], Planned(g, i, locals[i]).task);
  }

  /** The node has something to do for its group. */
  ghost predicate CanAct(g: Group, i: nat, l: Local)
    requires g.Shape() && i < g.n
  {
    g.history[i] != [] ==>
      var r := LocalRunner(g, i, l)[0];
      || ShouldConnect(r, g.ViewOf(i)) || ShouldLoad(r, g.ViewOf(i), l.inputs.downloads)
      || ShouldWarmUp(r, g.ViewOf(i))
  }

  /** Among the runners of the lowest phase, one can act. */
  lemma {:induction false} Actor(g: Group, locals: seq<Local>, low: nat) returns (i: nat)
    requires Inv(g) && g.ViewsCurrent() && AllSupplied(g, locals)
    requires low < g.n && g.Phase(low) < READY && forall j: nat :: j < g.n ==> g.Phase(low) <= g.Phase(j)
    requires g.history[low] == [] || Latest(g, low) !in {Connecting, Loading, WarmingUp}
    ensures i < g.n && CanAct(g, i, locals[i])
  {
    i := low;
    if g.history[low] != [] {
      StatusOfPhase(g, low);
      match Latest(g, low)
      case Idle => i := SomeoneConnects(g, low);
      case Connected => SomeoneLoads(g, locals[low], low);
      case Loaded => i := SomeoneWarmsUp(g, low);
      case _ =>
    }
  }

  /** A node that can act is given the task, or first a cancellation. */
  lemma {:induction false} Answers(g: Group, i: nat, l: Local)
    requires Inv(g) && i < g.n && Supplied(g, i, l) && CanAct(g, i, l)
    ensures Planned(g, i, l).Assign?
    ensures var step := Act(i, l, Planned(g, i, l).task);
            || Moves(g, step)
            || (step.task.CancelTask? && step.task.cancelledTask in ToCancel(l))
  {
    if g.history[i] == [] {
      ActsToCreate(g, i, l);
    } else if ToCancel(l) == {} {
      ActsOnGuard(g, i, l);
    } else {
      ActsToCancel(g, i, l);
    }
  }

  lemma {:induction false} LowestPhase(g: Group) returns (low: nat)
    requires g.Shape() && !g.AllReady()
    ensures low < g.n && g.Phase(low) < READY && forall j: nat :: j < g.n ==> g.Phase(low) <= g.Phase(j)
  {
    low := 0;
    for k := 1 to g.n
      invariant low < g.n && forall j: nat :: j < k ==> g.Phase(low) <= g.Phase(j)
    {
      if g.Phase(k) < g.Phase(low) {
        low := k;
      }
    }
    var j :| 0 <= j < g.n && g.Phase(j) != READY;
  }

  /** One step leads from `g` to `h`; `moves` tells whether it moves a runner. */
  ghost predicate StepsTo(g: Group, h: Group, moves: bool)
  {
    g.Shape() && exists step :: Enabled(g, step) && h == Do(g, step) && moves == Moves(g, step)
  }

  type Relation = (Group, Group, bool) -> bool

  ghost function Steps(): Relation
  {
    (g: Group, h: Group, moves: bool) => StepsTo(g, h, moves)
  }

  /** `moves` moving steps lead from `g` to `g'`, with any learning, dispatching,
      cancelling and finishing of requests in between. */
  ghost predicate Reaches(next: Relation, g: Group, g': Group, moves: nat, length: nat)
    decreases length
  {
    if length == 0 then g == g' && moves == 0
    else
      || (exists h :: next(g, h, false) && Reaches(next, h, g', moves, length - 1))
      || (moves > 0 && exists h :: next(g, h, true) && Reaches(next, h, g', moves - 1, length - 1))
  }

  /** A measure that every moving step raises by one counts the moving steps. */
  lemma {:induction false} ReachesCounts(
    next: Relation, ok: Group -> bool, measure: Group -> int, g: Group, g': Group, moves: nat, length: nat)
    requires ok(g) && Reaches(next, g, g', moves, length)
    requires forall a, b, m :: ok(a) && next(a, b, m) ==> ok(b) && measure(b) == measure(a) + if m then 1 else 0
    ensures ok(g') && measure(g') == measure(g) + moves
    decreases length
  {
    if length > 0 {
      if h :| next(g, h, false) && Reaches(next, h, g', moves, length - 1) {
        ReachesCounts(next, ok, measure, h, g', moves, length - 1);
      } else {
        var h :| next(g, h, true) && Reaches(next, h, g', moves - 1, length - 1);
        ReachesCounts(next, ok, measure, h, g', moves - 1, length - 1);
      }
    }
  }

  /** However the nodes are scheduled, bring-up takes exactly as many moving steps
      as phases are missing, and it is over exactly when none is left. */
  lemma {:induction false} BringUpCompletes(g: Group, g': Group, moves: nat, length: nat)
    requires Inv(g) && Reaches(Steps(), g, g', moves, length)
    ensures Inv(g') && g'.n == g.n
    ensures PhaseSum(g, g.n) + moves <= READY * g.n
    ensures g'.AllReady() <==> PhaseSum(g, g.n) + moves == READY * g.n
  {
    var ok := (x: Group) => Inv(x) && x.n == g.n;
    var measure := (x: Group) => if x.n == |x.history| then PhaseSum(x, x.n) else 0;
    forall a, b, m | ok(a) && Steps()(a, b, m) ensures ok(b) && measure(b) == measure(a) + if m then 1 else 0 {
      SomeStepCounts(a, b, m);
    }
    ReachesCounts(Steps(), ok, measure, g, g', moves, length);
    SumBounded(g', g'.n);
  }

  lemma {:induction false} SomeStepCounts(g: Group, h: Group, moves: bool)
    requires Inv(g) && StepsTo(g, h, moves)
    ensures Inv(h) && h.n == g.n && PhaseSum(h, h.n) == PhaseSum(g, g.n) + if moves then 1 else 0
  {
    var step :| Enabled(g, step) && h == Do(g, step) && moves == Moves(g, step);
    StepCounts(g, step);
  }

  lemma {:induction false} StepCounts(g: Group, step: Step)
    requires Inv(g) && Enabled(g, step)
    ensures var h := Do(g, step);
            Inv(h) && h.n == g.n && PhaseSum(h, h.n) == PhaseSum(g, g.n) + if Moves(g, step) then 1 else 0
  {
    StepKeepsInv(g, step);
    StepsMoveForward(g, step);
    HistoryGrows(g, step);
  }

  // ----- bring-up can always be finished -----

  /** Being told of a cancelled request is recorded by the runner's supervisor. */
  ghost function LocalsAfter(locals: seq<Local>, step: Step): seq<Local>
  {
    if Cancels(locals, step)
    then locals[step.node := step.local.(cancelled := step.local.cancelled + {step.task.cancelledTask})]
    else locals
  }

  /** Some schedule of at most `length` steps, each planned on the node's own inputs,
      makes every runner ready. */
  ghost predicate CanFinish(g: Group, locals: seq<Local>, length: nat)
    decreases length, 1
  {
    g.Shape() && (g.AllReady() || exists step :: CanFinishVia(g, locals, step, length))
  }

  ghost predicate CanFinishVia(g: Group, locals: seq<Local>, step: Step, length: nat)
    requires g.Shape()
    decreases length, 0
  {
    length > 0 && Enabled(g, step) && Own(locals, step) && CanFinish(Do(g, step), LocalsAfter(locals, step), length - 1)
  }

  /** Reports that some node has not learnt. */
  ghost function Unseen(g: Group): set<(nat, nat, nat)>
    requires g.Shape()
  {
    set i: nat, j: nat, k: nat | i < g.n && j < g.n && k < |g.history[j]| && g.seen[i][j] <= k :: (i, j, k)
  }

  lemma {:induction false} LearningShrinks(g: Group, i: nat, j: nat)
    requires g.Shape() && i < g.n && j < g.n && g.seen[i][j] < |g.history[j]|
    ensures Do(g, Learn(i, j)).Shape() && |Unseen(Do(g, Learn(i, j)))| < |Unseen(g)|
  {
    var h := Do(g, Learn(i, j));
    assert h.Shape();
    assert (i, j, g.seen[i][j]) in Unseen(g);
    assert Unseen(h) == Unseen(g) - {(i, j, g.seen[i][j])};
  }

  ghost function AllToCancel(locals: seq<Local>): set<(nat, TaskId)>
  {
    set i: nat, id | i < |locals| && id in ToCancel(locals[i]) :: (i, id)
  }

  lemma {:induction false} CancellingShrinks(locals: seq<Local>, step: Step)
    requires Cancels(locals, step) && Own(locals, step)
    ensures |AllToCancel(LocalsAfter(locals, step))| < |AllToCancel(locals)|
  {
    var after, i, id := LocalsAfter(locals, step), step.node, step.task.cancelledTask;
    assert ToCancel(after[i]) == ToCancel(locals[i]) - {id};
    assert (i, id) in AllToCancel(locals);
    assert AllToCancel(after) == AllToCancel(locals) - {(i, id)};
  }

  lemma {:induction false} StaysSupplied(g: Group, locals: seq<Local>, step: Step)
    requires g.Shape() && AllSupplied(g, locals) && Enabled(g, step) && Own(locals, step)
    ensures AllSupplied(Do(g, step), LocalsAfter(locals, step))
  {
    var h, after := Do(g, step), LocalsAfter(locals, step);
    HistoryGrows(g, step);
    forall i | 0 <= i < g.n ensures Supplied(h, i, after[i]) {
      assert Supplied(g, i, locals[i]) && after[i].inputs == locals[i].inputs;
    }
  }

  ghost predicate Grown(g: Group, h: Group)
  {
    && h.n == g.n && |h.history| == |g.history|
    && forall i :: 0 <= i < |g.history| && g.history[i] != [] ==> h.history[i] != []
  }

  lemma {:induction false} HistoryGrows(g: Group, step: Step)
    requires g.Shape() && Enabled(g, step)
    ensures Grown(g, Do(g, step))
  {
    match step
    case Act(i, _, task) => PerformGrows(g, i, task);
    case Learn(_, _) =>
    case Advance(j) => assert Grown(g, Report(g, j, Latest(Do(g, step), j)));
  }

  lemma {:induction false} PerformGrows(g: Group, i: nat, task: Task)
    requires i < |g.history|
    ensures Grown(g, Perform(g, i, task))
  {
  }

  /** The next step of such a schedule: learn what is unseen, else act. */
  lemma {:induction false} NextStep(g: Group, locals: seq<Local>) returns (step: Step)
    requires Inv(g) && AllSupplied(g, locals) && !g.AllReady()
    ensures Enabled(g, step) && Own(locals, step)
    ensures || (step.Learn? && |Unseen(Do(g, step))| < |Unseen(g)|)
            || Moves(g, step)
            || (Cancels(locals, step) && Do(g, step) == g)
  {
    if g.ViewsCurrent() {
      step := NeverStuck(g, locals);
    } else {
      var i, j :| 0 <= i < g.n && 0 <= j < g.n && g.seen[i][j] != |g.history[j]|;
      step := Learn(i, j);
      LearningShrinks(g, i, j);
    }
  }

  lemma {:induction false} BringUpFinishes(g: Group, locals: seq<Local>) returns (length: nat)
    requires Inv(g) && AllSupplied(g, locals)
    ensures CanFinish(g, locals, length)
    decreases READY * g.n - PhaseSum(g, g.n), |AllToCancel(locals)|, |Unseen(g)|
  {
    if g.AllReady() {
      return 0;
    }
    var step := NextStep(g, locals);
    var h, after := Do(g, step), LocalsAfter(locals, step);
    StepCounts(g, step);
    SumBounded(g, g.n);
    SumBounded(h, h.n);
    StaysSupplied(g, locals, step);
    if Cancels(locals, step) {
      CancellingShrinks(locals, step);
    }
    length := BringUpFinishes(h, after);
    length := length + 1;
    assert CanFinishVia(g, locals, step, length);
  }

  /** From every reachable state, whatever requests wait and however stale the views
      are, some schedule makes the whole group ready. */
  lemma {:induction false} EveryRunCanFinish(run: seq<Group>, locals: seq<Local>) returns (length: nat)
    requires IsRun(run) && AllSupplied(run[|run| - 1], locals)
    ensures CanFinish(run[|run| - 1], locals, length)
  {
    RunKeepsInv(run);
    length := BringUpFinishes(run[|run| - 1], locals);
  }
}
