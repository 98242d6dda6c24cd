/** After a failure (src/exo/worker/plan.py:75-136, src/exo/worker/main.py:275-287): every
    node's planner shuts its own runner down while a runner of the group is seen failed,
    a failed runner is the first to come back, and the others follow once no failure is
    left.  The nodes have applied the same events, so they share one view. */
module GroupRecovery {
  import opened Common
  import opened Messages
  import opened Planner
  import opened PlannerEffects
  import opened BringUp

  /** `live[i]` is the status of node `i`'s runner, if it has one; `seen` is the status
      last reported for each runner. */
  datatype Crew = Crew(live: seq<Option<Status>>, seen: View) {

    /** Living runners have reported the status they are in. */
    ghost predicate Current()
    {
      forall i: nat :: i < |live| && live[i].Some? ==> i in seen && seen[i] == live[i].value
    }

    ghost predicate SeenFailed(j: nat)
    {
      j in seen && seen[j] == Failed
    }

    ghost function FailedOnes(): (f: set<nat>)
      ensures forall j: nat :: j in f <==> j < |live| && SeenFailed(j)
    {
      set j | j in Ranks(|live|) && SeenFailed(j)
    }

    ghost function LiveOnes(): (f: set<nat>)
      ensures forall j: nat :: j in f <==> j < |live| && live[j].Some?
    {
      set j | j in Ranks(|live|) && live[j].Some?
    }

    ghost function Runners(i: nat, l: Local): seq<Runner>
      requires i < |live|
    {
      if live[i].None? then []
      else [Runner(GroupInstance(|live|), Shard(i, i, |live|), live[i].value, l.completed, l.inProgress, l.cancelled)]
    }

    ghost function Asked(i: nat, l: Local): Outcome
      requires i < |live|
    {
      Plan(i, Runners(i, l), [GroupInstance(|live|)], seen, l.inputs)
    }

    /** The runner is gone.  A failed one has nothing more to report; any other reports
        its shutdown, which removes it from the view, unless that times out. */
    ghost function Shut(i: nat, reported: bool): Crew
      requires i < |live|
    {
      Crew(live[i := None], if live[i] != Some(Failed) && reported then seen - {i} else seen)
    }

    ghost function Start(i: nat): Crew
      requires i < |live|
    {
      Crew(live[i := Some(Idle)], seen[i := Idle])
    }
  }

  datatype Step = Step(node: nat, local: Local, reported: bool)

  ghost predicate Shuts(c: Crew, step: Step)
  {
    step.node < |c.live| && c.Asked(step.node, step.local) == Assign(ShutdownRunner(0, step.node))
  }

  ghost predicate Starts(c: Crew, step: Step)
  {
    step.node < |c.live| && c.Asked(step.node, step.local) == Assign(CreateRunner(0, step.node))
  }

  ghost function Do(c: Crew, step: Step): Crew
    requires Shuts(c, step) || Starts(c, step)
  {
    if Shuts(c, step) then c.Shut(step.node, step.reported) else c.Start(step.node)
  }

  ghost predicate Next(c: Crew, c': Crew)
  {
    exists step :: (Shuts(c, step) || Starts(c, step)) && c' == Do(c, step)
  }

  ghost predicate IsRun(run: seq<Crew>)
  {
    run != [] &&
    if |run| == 1 then run[0].Current() else IsRun(run[..|run| - 1]) && Next(run[|run| - 2], run[|run| - 1])
  }

  // ----- the planner's answers in a group -----

  lemma {:induction false} PeersOfGroup(n: nat, i: nat, view: View)
    requires i < n
    ensures PeerFailed(GroupInstance(n), i, view)
            <==> exists j: nat :: j < n && j != i && j in view && view[j] == Failed
  {
    var g := GroupInstance(n).nodeToRunner;
    if j: nat :| j < n && j != i && j in view && view[j] == Failed {
      assert j in g && g[j] == j;
    }
  }

  /** Nothing but a failure makes a node shut its runner down. */
  lemma {:induction false} ShutsOnlyAfterFailure(c: Crew, i: nat, l: Local)
    requires c.Current() && i < |c.live| && c.live[i].Some? && c.FailedOnes() == {}
    ensures c.Asked(i, l) != Assign(ShutdownRunner(0, i))
  {
    var runners, instances := c.Runners(i, l), [GroupInstance(|c.live|)];
    assert i !in c.FailedOnes() && instances[0].id == runners[0].instance.id;
    PeersOfGroup(|c.live|, i, c.seen);
    assert forall j: nat :: j < |c.live| ==> j !in c.FailedOnes();
    KillsNone(runners, instances, c.seen);
    AnswerComesFrom(i, runners, instances, c.seen, l.inputs);
  }

  /** Whatever state its runner is in, a node shuts it down exactly when some runner of
      the group, its own or another, is seen failed. */
  lemma {:induction false} ShutsDownExactly(c: Crew, i: nat, l: Local)
    requires c.Current() && i < |c.live| && c.live[i].Some? && AllCancelled(l.inputs.work, c.Runners(i, l))
    ensures c.Asked(i, l) == Assign(ShutdownRunner(0, i)) <==> c.FailedOnes() != {}
  {
    if j :| j in c.FailedOnes() {
      var runners, instances := c.Runners(i, l), [GroupInstance(|c.live|)];
      PeersOfGroup(|c.live|, i, c.seen);
      assert Broken(runners[0], instances, c.seen);
      ShutsDownFirstBroken(i, runners, instances, c.seen, l.inputs, 0);
    } else {
      ShutsOnlyAfterFailure(c, i, l);
    }
  }

  /** A node without a runner starts one, where the backoff allows it, exactly when its own
      last one is seen failed or no runner of the group is. */
  lemma {:induction false} StartsExactly(c: Crew, i: nat, l: Local)
    requires i < |c.live| && c.live[i].None?
    ensures c.Asked(i, l) == Assign(CreateRunner(0, i))
            <==> 0 in l.inputs.mayCreate && (i in c.FailedOnes() || c.FailedOnes() == {})
  {
    var n, instances := |c.live|, [GroupInstance(|c.live|)];
    PeersOfGroup(n, i, c.seen);
    var g := GroupInstance(n).nodeToRunner;
    assert i in g && g[i] == i;
    assert PeerFailed(instances[0], i, c.seen) <==> c.FailedOnes() - {i} != {} by {
      if j :| j in c.FailedOnes() - {i} {
        assert j < n && j != i && j in c.seen && c.seen[j] == Failed;
      }
    }
    assert Startable(i, instances[0], [], c.seen, l.inputs.mayCreate)
           <==> 0 in l.inputs.mayCreate && (i in c.FailedOnes() || c.FailedOnes() == {});
    if Startable(i, instances[0], [], c.seen, l.inputs.mayCreate) {
      StartsFirstStartable(i, [], instances, c.seen, l.inputs, 0);
    } else {
      StartsNone(i, [], instances, c.seen, l.inputs.mayCreate);
      AnswerComesFrom(i, [], instances, c.seen, l.inputs);
    }
  }

  lemma {:induction false} NoneToShut(c: Crew, i: nat, l: Local)
    requires i < |c.live| && c.live[i].None?
    ensures c.Asked(i, l) != Assign(ShutdownRunner(0, i))
  {
    KillsNone([], [GroupInstance(|c.live|)], c.seen);
    AnswerComesFrom(i, [], [GroupInstance(|c.live|)], c.seen, l.inputs);
  }

  lemma {:induction false} NoneToStart(c: Crew, i: nat, l: Local)
    requires i < |c.live| && c.live[i].Some?
    ensures c.Asked(i, l) != Assign(CreateRunner(0, i))
  {
    var runners, instances := c.Runners(i, l), [GroupInstance(|c.live|)];
    assert i in instances[0].nodeToRunner && instances[0].nodeToRunner[i] == i && runners[0].shard.runner == i;
    StartsNone(i, runners, instances, c.seen, l.inputs.mayCreate);
    AnswerComesFrom(i, runners, instances, c.seen, l.inputs);
  }

  // ----- every run of shutdowns and restarts -----

  /** A shutdown takes one from the living. */
  ghost predicate OneLess(c: Crew, c': Crew, i: nat)
  {
    && |c'.live| == |c.live| && c'.Current() && c.FailedOnes() != {} && c'.FailedOnes() == c.FailedOnes()
    && i in c.LiveOnes() && c'.LiveOnes() == c.LiveOnes() - {i}
  }

  /** A restart adds one to the living and takes it from the failed, if any are left. */
  ghost predicate OneMore(c: Crew, c': Crew, i: nat)
  {
    && |c'.live| == |c.live| && c'.Current() && c'.FailedOnes() == c.FailedOnes() - {i}
    && (i in c.FailedOnes() || c.FailedOnes() == {})
    && i !in c.LiveOnes() && c'.LiveOnes() == c.LiveOnes() + {i}
  }

  lemma {:induction false} ShutEffect(c: Crew, i: nat, reported: bool)
    requires c.Current() && i < |c.live| && c.live[i].Some? && c.FailedOnes() != {}
    ensures OneLess(c, c.Shut(i, reported), i)
  {
    var c' := c.Shut(i, reported);
    assert c'.FailedOnes() == c.FailedOnes();
    assert c'.LiveOnes() == c.LiveOnes() - {i};
  }

  lemma {:induction false} StartEffect(c: Crew, i: nat)
    requires c.Current() && i < |c.live| && c.live[i].None? && (i in c.FailedOnes() || c.FailedOnes() == {})
    ensures OneMore(c, c.Start(i), i)
  {
    var c' := c.Start(i);
    assert c'.FailedOnes() == c.FailedOnes() - {i};
    assert c'.LiveOnes() == c.LiveOnes() + {i};
  }

  lemma {:induction false} ShutsWhenFailed(c: Crew, step: Step)
    requires c.Current() && Shuts(c, step)
    ensures c.live[step.node].Some? && c.FailedOnes() != {}
  {
    if c.live[step.node].None? {
      NoneToShut(c, step.node, step.local);
    } else if c.FailedOnes() == {} {
      ShutsOnlyAfterFailure(c, step.node, step.local);
    }
  }

  lemma {:induction false} StartsWhenAbsent(c: Crew, step: Step)
    requires Starts(c, step)
    ensures c.live[step.node].None? && (step.node in c.FailedOnes() || c.FailedOnes() == {})
  {
    if c.live[step.node].Some? {
      NoneToStart(c, step.node, step.local);
    } else {
      StartsExactly(c, step.node, step.local);
    }
  }

  /** What a step does to the living and the failed. */
  lemma {:induction false} StepEffect(c: Crew, c': Crew) returns (i: nat)
    requires c.Current() && Next(c, c')
    ensures OneLess(c, c', i) || OneMore(c, c', i)
  {
    var step :| (Shuts(c, step) || Starts(c, step)) && c' == Do(c, step);
    i := step.node;
    if Shuts(c, step) {
      ShutsWhenFailed(c, step);
      ShutEffect(c, i, step.reported);
    } else {
      StartsWhenAbsent(c, step);
      StartEffect(c, i);
    }
  }

  /** What is left to do, with `failed` seen failed and `live` of `n` runners living. */
  function Weight(failed: nat, live: nat, n: nat): int
  {
    if failed > 0 then failed * (n + 1) + live else n - live
  }

  ghost function Measure(c: Crew): int
  {
    Weight(|c.FailedOnes()|, |c.LiveOnes()|, |c.live|)
  }

  /** Room for every runner to fail and every runner to be shut down in between. */
  function Bound(n: nat): nat
  {
    n * (n + 2)
  }

  lemma {:induction false} WeightBounds(failed: nat, live: nat, n: nat)
    requires failed <= n && live <= n
    ensures 0 <= Weight(failed, live, n) <= Bound(n)
  {
    assert failed * (n + 1) <= n * (n + 1);
  }

  lemma {:induction false} MeasureBounds(c: Crew)
    ensures 0 <= Measure(c) <= Bound(|c.live|)
  {
    LiveAtMost(c);
    WeightBounds(|c.FailedOnes()|, |c.LiveOnes()|, |c.live|);
  }

  lemma {:induction false} WeightDrops(failed: nat, live: nat, n: nat)
    requires failed <= n && live <= n
    ensures live > 0 && failed > 0 ==> Weight(failed, live - 1, n) < Weight(failed, live, n)
    ensures live < n ==> Weight(if failed > 0 then failed - 1 else 0, live + 1, n) < Weight(failed, live, n)
  {
    assert failed * (n + 1) == (failed - 1) * (n + 1) + (n + 1);
  }

  lemma {:induction false} RanksSize(n: nat)
    ensures |Ranks(n)| == n
  {
    if n > 0 {
      RanksSize(n - 1);
    }
  }

  lemma {:induction false} SubsetSize(a: set<nat>, b: set<nat>)
    requires a <= b
    ensures |a| <= |b|
  {
    assert b == a + (b - a);
  }

  lemma {:induction false} LiveAtMost(c: Crew)
    ensures |c.LiveOnes()| <= |c.live| && |c.FailedOnes()| <= |c.live|
  {
    RanksSize(|c.live|);
    SubsetSize(c.LiveOnes(), Ranks(|c.live|));
    SubsetSize(c.FailedOnes(), Ranks(|c.live|));
  }

  lemma {:induction false} OneLessWeighs(c: Crew, c': Crew, i: nat)
    requires OneLess(c, c', i)
    ensures Measure(c') < Measure(c)
  {
    var failed, live := c.FailedOnes(), c.LiveOnes();
    LiveAtMost(c);
    assert |live - {i}| == |live| - 1 && |failed| > 0;
    WeightDrops(|failed|, |live|, |c.live|);
  }

  lemma {:induction false} OneMoreWeighs(c: Crew, c': Crew, i: nat)
    requires OneMore(c, c', i)
    ensures Measure(c') < Measure(c)
  {
    var failed, live := c.FailedOnes(), c.LiveOnes();
    LiveAtMost(c);
    LiveAtMost(c');
    assert |live + {i}| == |live| + 1;
    assert |failed - {i}| == if |failed| > 0 then |failed| - 1 else 0;
    WeightDrops(|failed|, |live|, |c.live|);
  }

  lemma {:induction false} LessToDo(c: Crew, c': Crew)
    requires c.Current() && Next(c, c')
    ensures c'.Current() && |c'.live| == |c.live| && Measure(c') < Measure(c)
  {
    var i := StepEffect(c, c');
    if OneLess(c, c', i) {
      OneLessWeighs(c, c', i);
    } else {
      OneMoreWeighs(c, c', i);
    }
  }

  /** However the nodes take turns, a group of `n` is done shutting down and restarting
      after at most `n * (n + 2)` steps. */
  lemma {:induction false} RecoveryEnds(run: seq<Crew>)
    requires IsRun(run)
    ensures run[|run| - 1].Current() && |run[|run| - 1].live| == |run[0].live|
    ensures |run| - 1 <= Bound(|run[0].live|)
  {
    RecoveryCounts(run);
    MeasureBounds(run[0]);
    MeasureBounds(run[|run| - 1]);
  }

  lemma {:induction false} RecoveryCounts(run: seq<Crew>)
    requires IsRun(run)
    ensures run[|run| - 1].Current() && |run[|run| - 1].live| == |run[0].live|
    ensures |run| - 1 + Measure(run[|run| - 1]) <= Measure(run[0])
  {
    if |run| > 1 {
      RecoveryCounts(run[..|run| - 1]);
      LessToDo(run[|run| - 2], run[|run| - 1]);
    }
  }

  /** The run is over exactly when every node has a runner and none is seen failed: until
      then, with cancellations passed on and no backoff pending, some node has a step. */
  lemma {:induction false} DoneExactly(c: Crew, l: Local)
    requires c.Current() && 0 in l.inputs.mayCreate
    requires forall w :: w in l.inputs.work ==> w.status != Cancelled
    ensures (forall i: nat :: i < |c.live| ==> c.live[i].Some? && !c.SeenFailed(i))
            <==> forall i: nat :: i < |c.live| ==> !Shuts(c, Step(i, l, true)) && !Starts(c, Step(i, l, true))
  {
    forall i: nat | i < |c.live|
      ensures Shuts(c, Step(i, l, true)) <==> c.live[i].Some? && c.FailedOnes() != {}
      ensures Starts(c, Step(i, l, true)) <==> c.live[i].None? && (i in c.FailedOnes() || c.FailedOnes() == {})
    {
      if c.live[i].Some? {
        ShutsDownExactly(c, i, l);
        NoneToStart(c, i, l);
      } else {
        NoneToShut(c, i, l);
        StartsExactly(c, i, l);
      }
    }
    if j :| j in c.FailedOnes() {
      assert Shuts(c, Step(j, l, true)) || Starts(c, Step(j, l, true));
      assert c.SeenFailed(j);
    } else {
      assert forall j: nat :: j < |c.live| ==> j !in c.FailedOnes();
    }
  }
}
