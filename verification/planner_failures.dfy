/** When the planner raises: `_pending_tasks` looks runners up in the view without a
    default (src/exo/worker/plan.py:342-345).  The conditions are about the planner's
    inputs, for any number of local runners and requests. */
module PlannerFailures {
  import opened Common
  import opened Messages
  import opened Planner

  // ----- the lookup -----

  ghost predicate SeenReady(shards: seq<Shard>, view: View)
  {
    forall s :: s in shards ==> Is(view, s.runner, {Ready, Running})
  }

  /** In assignment order, the `k`-th runner is the first not seen ready. */
  ghost predicate NotReadyAt(shards: seq<Shard>, view: View, k: nat)
  {
    k < |shards| && !Is(view, shards[k].runner, {Ready, Running}) && SeenReady(shards[..k], view)
  }

  /** The first runner not seen ready has not been seen at all. */
  ghost predicate Missing(shards: seq<Shard>, view: View)
  {
    exists k: nat :: NotReadyAt(shards, view, k) && shards[k].runner !in view
  }

  /** The first runner not seen ready has been seen. */
  ghost predicate Waiting(shards: seq<Shard>, view: View)
  {
    exists k: nat :: NotReadyAt(shards, view, k) && shards[k].runner in view
  }

  /** The three ends of the lookup. */
  lemma {:induction false} LookupExactly(shards: seq<Shard>, view: View)
    ensures AllReady(shards, view).None? <==> Missing(shards, view)
    ensures AllReady(shards, view) == Some(false) <==> Waiting(shards, view)
    ensures AllReady(shards, view) == Some(true) <==> SeenReady(shards, view)
  {
    if shards != [] {
      LookupExactly(shards[1..], view);
      if Is(view, shards[0].runner, {Ready, Running}) {
        ReadyHead(shards, view);
      } else {
        NotReadyHead(shards, view);
      }
    }
  }

  lemma {:induction false} NotReadyHead(shards: seq<Shard>, view: View)
    requires shards != [] && !Is(view, shards[0].runner, {Ready, Running})
    ensures Missing(shards, view) <==> shards[0].runner !in view
    ensures Waiting(shards, view) <==> shards[0].runner in view
    ensures !SeenReady(shards, view)
  {
    assert SeenReady(shards[..0], view) && NotReadyAt(shards, view, 0);
    forall k: nat ensures NotReadyAt(shards, view, k) ==> k == 0 {
      NotReadyHeadAt(shards, view, k);
    }
    assert shards[0] in shards;
  }

  lemma {:induction false} ReadyHead(shards: seq<Shard>, view: View)
    requires shards != [] && Is(view, shards[0].runner, {Ready, Running})
    ensures Missing(shards, view) <==> Missing(shards[1..], view)
    ensures Waiting(shards, view) <==> Waiting(shards[1..], view)
    ensures SeenReady(shards, view) <==> SeenReady(shards[1..], view)
  {
    var rest := shards[1..];
    assert shards == [shards[0]] + rest;
    forall k: nat ensures NotReadyAt(shards, view, k + 1) <==> NotReadyAt(rest, view, k) {
      ReadyHeadAt(shards, view, k);
    }
    if k: nat :| NotReadyAt(shards, view, k) {
      assert NotReadyAt(rest, view, k - 1);
    }
  }

  lemma {:induction false} NotReadyHeadAt(shards: seq<Shard>, view: View, k: nat)
    requires shards != [] && !Is(view, shards[0].runner, {Ready, Running})
    ensures NotReadyAt(shards, view, k) ==> k == 0
  {
    if 0 < k < |shards| {
      assert shards[..k][0] == shards[0];
    }
  }

  lemma {:induction false} ReadyHeadAt(shards: seq<Shard>, view: View, k: nat)
    requires shards != [] && Is(view, shards[0].runner, {Ready, Running})
    ensures NotReadyAt(shards, view, k + 1) <==> NotReadyAt(shards[1..], view, k)
  {
    if k + 1 < |shards| {
      assert shards[..k + 1] == [shards[0]] + shards[1..][..k];
    }
  }

  // ----- the search -----

  /** The request may be started on this runner as far as the node itself knows. */
  predicate Eligible(w: Work, r: Runner)
  {
    w.instance == r.instance.id && w.id !in r.completed && w.id !in r.inProgress && r.status in {Ready, Running}
  }

  /** The search stops at this runner: it starts the request there, or raises. */
  ghost predicate Stops(w: Work, r: Runner, view: View)
  {
    Eligible(w, r) && !Waiting(r.instance.shards, view)
  }

  /** The search among the runners stops first at the `b`-th. */
  ghost predicate StopsAt(w: Work, runners: seq<Runner>, view: View, b: nat)
  {
    b < |runners| && Stops(w, runners[b], view) && forall j :: 0 <= j < b ==> !Stops(w, runners[j], view)
  }

  ghost predicate NowhereStops(w: Work, runners: seq<Runner>, view: View)
  {
    forall j :: 0 <= j < |runners| ==> !Stops(w, runners[j], view)
  }

  /** One request: passed over, or decided by the first runner that stops the search. */
  lemma {:induction false} DispatchToExactly(w: Work, runners: seq<Runner>, view: View)
    ensures NowhereStops(w, runners, view) <==> DispatchTo(w, runners, view) == NoTask
    ensures forall b: nat :: StopsAt(w, runners, view, b) ==>
              DispatchTo(w, runners, view) == if Missing(runners[b].instance.shards, view) then KeyError
                                              else Assign(Dispatch(w, runners[b].shard.runner))
    ensures !NowhereStops(w, runners, view) ==> exists b: nat :: StopsAt(w, runners, view, b)
  {
    if runners != [] {
      var rest := runners[1..];
      LookupExactly(runners[0].instance.shards, view);
      DispatchToExactly(w, rest, view);
      if Stops(w, runners[0], view) {
        assert StopsAt(w, runners, view, 0);
      } else {
        forall b: nat | StopsAt(w, runners, view, b)
          ensures b > 0 && StopsAt(w, rest, view, b - 1) && rest[b - 1] == runners[b]
        {
          assert forall j :: 0 <= j < b - 1 ==> rest[j] == runners[j + 1];
        }
        forall b: nat | StopsAt(w, rest, view, b) ensures StopsAt(w, runners, view, b + 1) {
          assert forall j :: 0 < j < b + 1 ==> runners[j] == rest[j - 1];
        }
        assert NowhereStops(w, runners, view) <==> NowhereStops(w, rest, view) by {
          assert forall j :: 0 < j < |runners| ==> runners[j] == rest[j - 1];
        }
      }
    }
  }

  /** The `a`-th request is the first that is dispatchable and stops the search. */
  ghost predicate FirstStop(work: seq<Work>, runners: seq<Runner>, view: View, inputs: Inputs, a: nat, b: nat)
  {
    && a < |work| && StopsAt(work[a], runners, view, b)
    && Dispatchable(work[a], inputs.chunksReceived, inputs.imageCache)
    && forall j :: 0 <= j < a && Dispatchable(work[j], inputs.chunksReceived, inputs.imageCache) ==>
         NowhereStops(work[j], runners, view)
  }

  ghost predicate Raises(work: seq<Work>, runners: seq<Runner>, view: View, inputs: Inputs)
  {
    exists a: nat, b: nat :: FirstStop(work, runners, view, inputs, a, b) && Missing(runners[b].instance.shards, view)
  }

  lemma {:induction false} FirstStopTail(
    work: seq<Work>, runners: seq<Runner>, view: View, inputs: Inputs, a: nat, b: nat)
    requires work != []
    requires !Dispatchable(work[0], inputs.chunksReceived, inputs.imageCache) || NowhereStops(work[0], runners, view)
    ensures FirstStop(work[1..], runners, view, inputs, a, b) <==> FirstStop(work, runners, view, inputs, a + 1, b)
    ensures !FirstStop(work, runners, view, inputs, 0, b)
  {
    var rest := work[1..];
    assert forall j :: 0 <= j < |rest| ==> rest[j] == work[j + 1];
    assert forall j :: 0 < j < |work| ==> work[j] == rest[j - 1];
  }

  /** All requests: the lookup raises exactly when the first request and runner that
      stop the search are a runner whose assignment has a missing one. */
  lemma {:induction false} FirstDispatchFailsExactly(work: seq<Work>, runners: seq<Runner>, view: View, inputs: Inputs)
    ensures FirstDispatch(work, runners, view, inputs.chunksReceived, inputs.imageCache) == KeyError
            <==> Raises(work, runners, view, inputs)
  {
    if work != [] {
      var w, rest := work[0], work[1..];
      DispatchToExactly(w, runners, view);
      if Dispatchable(w, inputs.chunksReceived, inputs.imageCache) && !NowhereStops(w, runners, view) {
        var b: nat :| StopsAt(w, runners, view, b);
        assert FirstStop(work, runners, view, inputs, 0, b);
        forall a: nat, c: nat | FirstStop(work, runners, view, inputs, a, c) ensures a == 0 && c == b {
        }
      } else {
        FirstDispatchFailsExactly(rest, runners, view, inputs);
        forall a: nat, b: nat
          ensures FirstStop(rest, runners, view, inputs, a, b) <==> FirstStop(work, runners, view, inputs, a + 1, b)
        {
          FirstStopTail(work, runners, view, inputs, a, b);
        }
        if a: nat, b: nat :| FirstStop(work, runners, view, inputs, a, b) && Missing(runners[b].instance.shards, view) {
          FirstStopTail(work, runners, view, inputs, 0, b);
          assert FirstStop(rest, runners, view, inputs, a - 1, b);
        }
      }
    }
  }

  // ----- the whole planner -----

  lemma {:induction false} CancelExactly(work: seq<Work>, runners: seq<Runner>)
    ensures FirstCancel(work, runners).NoTask? || FirstCancel(work, runners).Assign?
    ensures FirstCancel(work, runners).NoTask? <==> forall w, r :: w in work && r in runners ==> !MustCancel(w, r)
  {
    if work != [] {
      CancelExactly(work[1..], runners);
      assert work == [work[0]] + work[1..];
      assert forall k :: 0 <= k < |runners| ==> runners[k] in runners;
    }
  }

  /** None of the planner's earlier alternatives has anything to do. */
  ghost predicate NothingSooner(
    node: NodeId, runners: seq<Runner>, instances: seq<Instance>, view: View, inputs: Inputs)
  {
    && (forall w, r :: w in inputs.work && r in runners ==> !MustCancel(w, r))
    && (forall i :: i in instances ==> !ShouldCreate(node, i, runners, view, inputs.mayCreate))
    && (forall r :: r in runners ==>
          && !ShouldKill(r, instances, view)
          && !ShouldDownload(r, LocalDownloads(node, inputs.downloads), inputs.mayDownload)
          && !ShouldConnect(r, view) && !ShouldLoad(r, view, inputs.downloads) && !ShouldWarmUp(r, view))
  }

  lemma {:induction false} KillExactly(runners: seq<Runner>, view: View, instances: seq<Instance>)
    ensures KillRunner(runners, view, instances).None? <==> forall r :: r in runners ==> !ShouldKill(r, instances, view)
  {
    assert forall k :: 0 <= k < |runners| ==> runners[k] in runners;
  }

  lemma {:induction false} CreateExactly(
    node: NodeId, runners: seq<Runner>, view: View, instances: seq<Instance>, may: set<InstanceId>)
    ensures StartRunner(node, runners, view, instances, may).None?
            <==> forall i :: i in instances ==> !ShouldCreate(node, i, runners, view, may)
  {
    assert forall k :: 0 <= k < |instances| ==> instances[k] in instances;
  }

  lemma {:induction false} DownloadExactly(node: NodeId, runners: seq<Runner>, inputs: Inputs)
    ensures ModelNeedsDownload(node, runners, inputs.downloads, inputs.mayDownload).None?
            <==> forall r :: r in runners ==>
                   !ShouldDownload(r, LocalDownloads(node, inputs.downloads), inputs.mayDownload)
  {
    assert forall k :: 0 <= k < |runners| ==> runners[k] in runners;
  }

  lemma {:induction false} GuardsExactly(runners: seq<Runner>, view: View, downloads: map<NodeId, seq<Download>>)
    ensures InitDistributedBackend(runners, view).None? <==> forall r :: r in runners ==> !ShouldConnect(r, view)
    ensures LoadModelTask(runners, view, downloads).None?
            <==> forall r :: r in runners ==> !ShouldLoad(r, view, downloads)
    ensures ReadyToWarmup(runners, view).None? <==> forall r :: r in runners ==> !ShouldWarmUp(r, view)
  {
    assert forall k :: 0 <= k < |runners| ==> runners[k] in runners;
  }

  /** The planner raises exactly when no earlier alternative has an answer and the search
      for work first stops at a runner whose assignment has a missing one. */
  lemma {:induction false} PlanFailsExactly(
    node: NodeId, runners: seq<Runner>, instances: seq<Instance>, view: View, inputs: Inputs)
    ensures Plan(node, runners, instances, view, inputs) == KeyError
            <==> NothingSooner(node, runners, instances, view, inputs) && Raises(inputs.work, runners, view, inputs)
  {
    CancelExactly(inputs.work, runners);
    KillExactly(runners, view, instances);
    CreateExactly(node, runners, view, instances, inputs.mayCreate);
    DownloadExactly(node, runners, inputs);
    GuardsExactly(runners, view, inputs.downloads);
    FirstDispatchFailsExactly(inputs.work, runners, view, inputs);
  }

  /** With one runner: it raises on dispatch exactly when its assignment has a missing
      one and some dispatchable request is eligible on it. */
  lemma {:induction false} SingleRunnerFailsExactly(r: Runner, view: View, inputs: Inputs)
    ensures Raises(inputs.work, [r], view, inputs) <==>
            && Missing(r.instance.shards, view)
            && exists w :: w in inputs.work && Eligible(w, r)
                           && Dispatchable(w, inputs.chunksReceived, inputs.imageCache)
  {
    LookupExactly(r.instance.shards, view);
    if a: nat, b: nat :| FirstStop(inputs.work, [r], view, inputs, a, b) && Missing([r][b].instance.shards, view) {
      assert b == 0 && inputs.work[a] in inputs.work;
    }
    if Missing(r.instance.shards, view)
       && exists w :: w in inputs.work && Dispatchable(w, inputs.chunksReceived, inputs.imageCache) && Eligible(w, r) {
      var a := FirstEligible(inputs.work, r, inputs);
      assert StopsAt(inputs.work[a], [r], view, 0);
      assert FirstStop(inputs.work, [r], view, inputs, a, 0);
    }
  }

  lemma {:induction false} FirstEligible(work: seq<Work>, r: Runner, inputs: Inputs) returns (a: nat)
    requires exists w :: w in work && Dispatchable(w, inputs.chunksReceived, inputs.imageCache) && Eligible(w, r)
    ensures a < |work| && Dispatchable(work[a], inputs.chunksReceived, inputs.imageCache) && Eligible(work[a], r)
    ensures forall j :: 0 <= j < a ==>
              !(Dispatchable(work[j], inputs.chunksReceived, inputs.imageCache) && Eligible(work[j], r))
  {
    if Dispatchable(work[0], inputs.chunksReceived, inputs.imageCache) && Eligible(work[0], r) {
      return 0;
    }
    assert work == [work[0]] + work[1..];
    a := FirstEligible(work[1..], r, inputs);
    a := a + 1;
  }

  // ----- inputs on which it raises -----

  /** A node whose only runner is ready, with no failure in sight and nothing to cancel,
      raises exactly when a runner of the assignment is missing where the lookup gets to
      it and some request could be dispatched. */
  lemma {:induction false} ReadyRunnerFailsExactly(node: NodeId, r: Runner, view: View, inputs: Inputs)
    requires r.status == Ready && node in r.instance.nodeToRunner && r.instance.nodeToRunner[node] == r.shard.runner
    requires (forall k :: k in view ==> view[k] != Failed) && (forall w :: w in inputs.work ==> w.status != Cancelled)
    ensures Plan(node, [r], [r.instance], view, inputs) == KeyError <==>
            && Missing(r.instance.shards, view)
            && exists w :: w in inputs.work && Eligible(w, r)
                           && Dispatchable(w, inputs.chunksReceived, inputs.imageCache)
  {
    assert r in [r] && r.instance in [r.instance];
    assert NothingSooner(node, [r], [r.instance], view, inputs);
    SingleRunnerFailsExactly(r, view, inputs);
    PlanFailsExactly(node, [r], [r.instance], view, inputs);
  }

  /** A single-node instance skips the connection phase, so its node may be ready and
      have a request before its own status has come back through the log. */
  lemma {:induction false} SingleNodeFails()
    ensures var i := Instance(0, 0, [Shard(0, 0, 1)], map[0 := 0]);
            var r := Runner(i, Shard(0, 0, 1), Ready, {}, {}, {});
            var w := Work(0, 0, 0, Pending, Text([]));
            Plan(0, [r], [i], map[], Inputs(map[], [w], map[], {}, {}, {})) == KeyError
  {
    var i := Instance(0, 0, [Shard(0, 0, 1)], map[0 := 0]);
    var r := Runner(i, Shard(0, 0, 1), Ready, {}, {}, {});
    var w := Work(0, 0, 0, Pending, Text([]));
    var view: View := map[];
    assert w in [w];
    assert SeenReady(i.shards[..0], view) && NotReadyAt(i.shards, view, 0);
    ReadyRunnerFailsExactly(0, r, view, Inputs(map[], [w], map[], {}, {}, {}));
  }

  /** A multi-node instance after a peer has shut down: the reducer has dropped the
      peer's status, and the node that is still ready raises. */
  lemma {:induction false} MultiNodeFails()
    ensures var i := Instance(0, 0, [Shard(1, 1, 2), Shard(0, 0, 2)], map[0 := 0, 1 := 1]);
            var r := Runner(i, Shard(0, 0, 2), Ready, {}, {}, {});
            var w := Work(0, 0, 0, Pending, Text([]));
            Plan(0, [r], [i], map[0 := Ready], Inputs(map[], [w], map[], {}, {}, {})) == KeyError
  {
    var i := Instance(0, 0, [Shard(1, 1, 2), Shard(0, 0, 2)], map[0 := 0, 1 := 1]);
    var r := Runner(i, Shard(0, 0, 2), Ready, {}, {}, {});
    var w := Work(0, 0, 0, Pending, Text([]));
    var view: View := map[0 := Ready];
    assert w in [w];
    assert SeenReady(i.shards[..0], view) && NotReadyAt(i.shards, view, 0);
    ReadyRunnerFailsExactly(0, r, view, Inputs(map[], [w], map[], {}, {}, {}));
  }
}
