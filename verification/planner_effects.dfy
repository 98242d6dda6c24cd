/** What the planner answers, stated on the statuses, views and downloads it is given
    (src/exo/worker/plan.py), for any number of local runners and instances; then what
    a group does after a failure. */
module PlannerEffects {
  import opened Common
  import opened Messages
  import opened Planner
  import opened PlannerFailures
  import opened BringUp

  // ----- cancelling -----

  /** Every cancelled request has been passed on to the runners of its instance. */
  ghost predicate AllCancelled(work: seq<Work>, runners: seq<Runner>)
  {
    forall a: nat, b: nat ::
      a < |work| && b < |runners| && work[a].status == Cancelled && work[a].instance == runners[b].instance.id ==>
        work[a].id in runners[b].cancelled
  }

  lemma {:induction false} NothingToCancel(work: seq<Work>, runners: seq<Runner>)
    requires AllCancelled(work, runners)
    ensures FirstCancel(work, runners) == NoTask
  {
    CancelExactly(work, runners);
    forall w, r | w in work && r in runners ensures !MustCancel(w, r) {
      var a: nat :| a < |work| && work[a] == w;
      var b: nat :| b < |runners| && runners[b] == r;
    }
  }

  /** A cancellation that has not been passed on comes before anything else: the first
      such request, to the first such runner. */
  lemma {:induction false} CancelsFirst(
    node: NodeId, runners: seq<Runner>, instances: seq<Instance>, view: View, inputs: Inputs, a: nat, b: nat)
    requires a < |inputs.work| && AllCancelled(inputs.work[..a], runners)
    requires b < |runners| && AllCancelled([inputs.work[a]], runners[..b])
    requires inputs.work[a].status == Cancelled && inputs.work[a].instance == runners[b].instance.id
    requires inputs.work[a].id !in runners[b].cancelled
    ensures Plan(node, runners, instances, view, inputs)
            == Assign(CancelTask(inputs.work[a].instance, inputs.work[a].id, runners[b].shard.runner))
  {
    FirstCancelAt(inputs.work, runners, a, b);
  }

  lemma {:induction false} FirstCancelAt(work: seq<Work>, runners: seq<Runner>, a: nat, b: nat)
    requires a < |work| && AllCancelled(work[..a], runners)
    requires b < |runners| && AllCancelled([work[a]], runners[..b]) && MustCancel(work[a], runners[b])
    ensures FirstCancel(work, runners) == Assign(CancelTask(work[a].instance, work[a].id, runners[b].shard.runner))
  {
    if a == 0 {
      forall j: nat | j < b ensures !MustCancel(work[0], runners[j]) {
        assert [work[0]][0] == work[0] && runners[..b][j] == runners[j];
      }
    } else {
      forall r | r in runners ensures !MustCancel(work[0], r) {
        var j: nat :| j < |runners| && runners[j] == r;
        assert work[..a][0] == work[0];
      }
      assert RunnerToCancel(work[0], runners).None? by {
        assert forall j: nat :: j < |runners| ==> runners[j] in runners;
      }
      var rest := work[1..];
      assert AllCancelled(rest[..a - 1], runners) by {
        assert work[..a][1..] == rest[..a - 1];
      }
      FirstCancelAt(rest, runners, a - 1, b);
    }
  }

  // ----- shutting down -----

  ghost predicate Orphaned(r: Runner, instances: seq<Instance>)
  {
    forall k: nat :: k < |instances| ==> instances[k].id != r.instance.id
  }

  /** A node's runner of the instance, other than this one, is seen failed. */
  ghost predicate PeerFailed(i: Instance, own: RunnerId, view: View)
  {
    exists n :: n in i.nodeToRunner
      && i.nodeToRunner[n] != own && i.nodeToRunner[n] in view && view[i.nodeToRunner[n]] == Failed
  }

  ghost predicate Broken(r: Runner, instances: seq<Instance>, view: View)
  {
    Orphaned(r, instances) || r.status == Failed || PeerFailed(r.instance, r.shard.runner, view)
  }

  lemma {:induction false} KillsExactlyBroken(r: Runner, instances: seq<Instance>, view: View)
    ensures ShouldKill(r, instances, view) <==> Broken(r, instances, view)
  {
    if Orphaned(r, instances) {
      forall i | i in instances ensures i.id != r.instance.id {
        var k: nat :| k < |instances| && instances[k] == i;
      }
    }
    assert forall k: nat :: k < |instances| ==> instances[k] in instances;
  }

  /** Once cancellations are passed on, the first broken runner is shut down, whatever
      else there is to do. */
  lemma {:induction false} ShutsDownFirstBroken(
    node: NodeId, runners: seq<Runner>, instances: seq<Instance>, view: View, inputs: Inputs, k: nat)
    requires AllCancelled(inputs.work, runners)
    requires k < |runners| && Broken(runners[k], instances, view)
    requires forall j: nat :: j < k ==> !Broken(runners[j], instances, view)
    ensures Plan(node, runners, instances, view, inputs)
            == Assign(ShutdownRunner(runners[k].instance.id, runners[k].shard.runner))
  {
    NothingToCancel(inputs.work, runners);
    forall j: nat | j <= k ensures ShouldKill(runners[j], instances, view) <==> j == k {
      KillsExactlyBroken(runners[j], instances, view);
    }
  }

  ghost predicate NoneBroken(runners: seq<Runner>, instances: seq<Instance>, view: View)
  {
    forall j: nat :: j < |runners| ==> !Broken(runners[j], instances, view)
  }

  lemma {:induction false} KillsNone(runners: seq<Runner>, instances: seq<Instance>, view: View)
    requires NoneBroken(runners, instances, view)
    ensures KillRunner(runners, view, instances).None?
  {
    forall r | r in runners ensures !ShouldKill(r, instances, view) {
      var j: nat :| j < |runners| && runners[j] == r;
      KillsExactlyBroken(r, instances, view);
    }
    KillExactly(runners, view, instances);
  }

  // ----- starting a runner -----

  /** The node has a part in the instance and no runner for it, the backoff allows a new
      one, and no peer is seen failed unless the node's own last runner is. */
  ghost predicate Startable(node: NodeId, i: Instance, runners: seq<Runner>, view: View, mayCreate: set<InstanceId>)
  {
    && node in i.nodeToRunner && i.id in mayCreate
    && (forall k: nat :: k < |runners| ==> runners[k].shard.runner != i.nodeToRunner[node])
    && var own := i.nodeToRunner[node];
       !PeerFailed(i, own, view) || (own in view && view[own] == Failed)
  }

  lemma {:induction false} CreatesExactlyStartable(
    node: NodeId, i: Instance, runners: seq<Runner>, view: View, mayCreate: set<InstanceId>)
    ensures ShouldCreate(node, i, runners, view, mayCreate) <==> Startable(node, i, runners, view, mayCreate)
  {
    assert forall k: nat :: k < |runners| ==> runners[k] in runners;
    if Startable(node, i, runners, view, mayCreate) {
      forall r | r in runners ensures r.shard.runner != i.nodeToRunner[node] {
        var k: nat :| k < |runners| && runners[k] == r;
      }
    }
  }

  /** With nothing to cancel or shut down, the first startable instance gets its runner. */
  lemma {:induction false} StartsFirstStartable(
    node: NodeId, runners: seq<Runner>, instances: seq<Instance>, view: View, inputs: Inputs, k: nat)
    requires AllCancelled(inputs.work, runners) && NoneBroken(runners, instances, view)
    requires k < |instances| && Startable(node, instances[k], runners, view, inputs.mayCreate)
    requires forall j: nat :: j < k ==> !Startable(node, instances[j], runners, view, inputs.mayCreate)
    ensures Plan(node, runners, instances, view, inputs)
            == Assign(CreateRunner(instances[k].id, instances[k].nodeToRunner[node]))
  {
    NothingToCancel(inputs.work, runners);
    KillsNone(runners, instances, view);
    forall j: nat | j <= k ensures ShouldCreate(node, instances[j], runners, view, inputs.mayCreate) <==> j == k {
      CreatesExactlyStartable(node, instances[j], runners, view, inputs.mayCreate);
    }
    assert instances[k] in instances;
  }

  ghost predicate NoneStartable(
    node: NodeId, runners: seq<Runner>, instances: seq<Instance>, view: View, mayCreate: set<InstanceId>)
  {
    forall j: nat :: j < |instances| ==> !Startable(node, instances[j], runners, view, mayCreate)
  }

  lemma {:induction false} StartsNone(
    node: NodeId, runners: seq<Runner>, instances: seq<Instance>, view: View, mayCreate: set<InstanceId>)
    requires NoneStartable(node, runners, instances, view, mayCreate)
    ensures StartRunner(node, runners, view, instances, mayCreate).None?
  {
    forall i | i in instances ensures !ShouldCreate(node, i, runners, view, mayCreate) {
      var j: nat :| j < |instances| && instances[j] == i;
      CreatesExactlyStartable(node, i, runners, view, mayCreate);
    }
    CreateExactly(node, runners, view, instances, mayCreate);
  }

  // ----- downloading -----

  /** The entry that counts for a model: the last one. */
  ghost predicate LastOf(ds: seq<Download>, model: ModelId, a: nat)
  {
    a < |ds| && ds[a].model == model && forall b: nat :: a < b < |ds| ==> ds[b].model != model
  }

  /** The model has no entry, or its last one is pending. */
  ghost predicate NotBegun(ds: seq<Download>, model: ModelId)
  {
    forall a: nat :: LastOf(ds, model, a) ==> ds[a].kind == DownloadPending
  }

  lemma {:induction false} LatestIsLast(ds: seq<Download>, model: ModelId)
    ensures LatestDownload(ds, model).None? ==> forall a: nat :: a < |ds| ==> ds[a].model != model
    ensures LatestDownload(ds, model).Some? ==>
              exists a: nat :: LastOf(ds, model, a) && ds[a].kind == LatestDownload(ds, model).value
  {
    if ds != [] {
      var front := ds[..|ds| - 1];
      if ds[|ds| - 1].model == model {
        assert LastOf(ds, model, |ds| - 1);
      } else {
        LatestIsLast(front, model);
        assert forall a: nat :: a < |front| ==> front[a] == ds[a];
        if a: nat :| LastOf(front, model, a) && front[a].kind == LatestDownload(front, model).value {
          assert LastOf(ds, model, a);
        }
      }
    }
  }

  /** An idle runner whose model has not begun to arrive, where the backoff allows it. */
  ghost predicate Wanting(r: Runner, ds: seq<Download>, mayDownload: set<ModelId>)
  {
    r.status == Idle && NotBegun(ds, r.instance.model) && r.instance.model in mayDownload
  }

  lemma {:induction false} DownloadsExactlyWanting(r: Runner, ds: seq<Download>, mayDownload: set<ModelId>)
    ensures ShouldDownload(r, ds, mayDownload) <==> Wanting(r, ds, mayDownload)
  {
    var model := r.instance.model;
    LatestIsLast(ds, model);
    if a: nat :| LastOf(ds, model, a) && ds[a].kind == LatestDownload(ds, model).value {
      forall b: nat | LastOf(ds, model, b) ensures b == a {
      }
    }
  }

  /** With nothing to cancel, shut down or start, the first runner in want of its model
      has it downloaded. */
  lemma {:induction false} DownloadsForFirstWanting(
    node: NodeId, runners: seq<Runner>, instances: seq<Instance>, view: View, inputs: Inputs, k: nat)
    requires AllCancelled(inputs.work, runners) && NoneBroken(runners, instances, view)
    requires NoneStartable(node, runners, instances, view, inputs.mayCreate)
    requires var ds := if node in inputs.downloads then inputs.downloads[node] else [];
             && k < |runners| && Wanting(runners[k], ds, inputs.mayDownload)
             && forall j: nat :: j < k ==> !Wanting(runners[j], ds, inputs.mayDownload)
    ensures Plan(node, runners, instances, view, inputs)
            == Assign(DownloadModel(runners[k].instance.id, runners[k].instance.model))
  {
    NothingToCancel(inputs.work, runners);
    KillsNone(runners, instances, view);
    StartsNone(node, runners, instances, view, inputs.mayCreate);
    forall j: nat | j <= k
      ensures ShouldDownload(runners[j], LocalDownloads(node, inputs.downloads), inputs.mayDownload) <==> j == k
    {
      DownloadsExactlyWanting(runners[j], LocalDownloads(node, inputs.downloads), inputs.mayDownload);
    }
    assert runners[k] in runners;
  }

  // ----- connecting, loading, warming up -----

  /** Seen, and in one of these statuses. */
  ghost predicate SeenIn(view: View, r: RunnerId, a: Status, b: Status, c: Status)
  {
    r in view && (view[r] == a || view[r] == b || view[r] == c)
  }

  /** An idle runner of a larger group, with all of the group seen idle or connecting; the
      last rank also waits until all others are connecting. */
  ghost predicate Connectable(r: Runner, view: View)
  {
    && |r.instance.shards| != 1 && r.status == Idle && r.shard.rank < r.shard.worldSize
    && forall k: nat :: k < |r.instance.shards| ==>
         var id := r.instance.shards[k].runner;
         && SeenIn(view, id, Idle, Connecting, Connecting)
         && (r.shard.rank == r.shard.worldSize - 1 && id != r.shard.runner ==> view[id] == Connecting)
  }

  /** Every node of the instance has the model, and the runner is connected with all of its
      group seen connected or further with loading, or is idle and alone. */
  ghost predicate Loadable(r: Runner, view: View, downloads: map<NodeId, seq<Download>>)
  {
    && (forall n :: n in r.instance.nodeToRunner ==>
          n in downloads && Download(r.instance.model, DownloadCompleted) in downloads[n])
    && (|| (r.status == Idle && |r.instance.shards| == 1)
        || (r.status == Connected && forall k: nat :: k < |r.instance.shards| ==>
              SeenIn(view, r.instance.shards[k].runner, Connected, Loading, Loaded)))
  }

  /** A loaded runner, with all of its group seen loaded or further; rank 0 waits until all
      others are warming up or ready. */
  ghost predicate Warmable(r: Runner, view: View)
  {
    && r.status == Loaded
    && forall k: nat :: k < |r.instance.shards| ==>
         var id := r.instance.shards[k].runner;
         && (r.shard.rank > 0 ==> SeenIn(view, id, Loaded, WarmingUp, Ready))
         && (r.shard.rank == 0 && id != r.shard.runner ==> SeenIn(view, id, WarmingUp, Ready, Ready))
  }

  lemma {:induction false} ShardAt(shards: seq<Shard>, s: Shard) returns (k: nat)
    requires s in shards
    ensures k < |shards| && shards[k] == s
  {
    k :| k < |shards| && shards[k] == s;
  }

  lemma {:induction false} ConnectsExactly(r: Runner, view: View)
    ensures ShouldConnect(r, view) <==> Connectable(r, view)
  {
    assert forall k: nat :: k < |r.instance.shards| ==> r.instance.shards[k] in r.instance.shards;
    if Connectable(r, view) {
      forall s | s in r.instance.shards
        ensures Is(view, s.runner, {Connecting, Idle})
        ensures r.shard.rank == r.shard.worldSize - 1 && s.runner != r.shard.runner ==> Is(view, s.runner, {Connecting})
      {
        var k := ShardAt(r.instance.shards, s);
      }
    }
  }

  lemma {:induction false} LoadsExactly(r: Runner, view: View, downloads: map<NodeId, seq<Download>>)
    ensures ShouldLoad(r, view, downloads) <==> Loadable(r, view, downloads)
  {
    assert forall k: nat :: k < |r.instance.shards| ==> r.instance.shards[k] in r.instance.shards;
    if Loadable(r, view, downloads) && r.status == Connected {
      forall s | s in r.instance.shards ensures Is(view, s.runner, {Connected, Loading, Loaded}) {
        var k := ShardAt(r.instance.shards, s);
      }
    }
  }

  lemma {:induction false} WarmsUpExactly(r: Runner, view: View)
    ensures ShouldWarmUp(r, view) <==> Warmable(r, view)
  {
    assert forall k: nat :: k < |r.instance.shards| ==> r.instance.shards[k] in r.instance.shards;
    if Warmable(r, view) {
      forall s | s in r.instance.shards
        ensures r.shard.rank > 0 ==> Is(view, s.runner, {Loaded, WarmingUp, Ready})
        ensures r.shard.rank == 0 && s.runner != r.shard.runner ==> Is(view, s.runner, {WarmingUp, Ready})
      {
        var k := ShardAt(r.instance.shards, s);
      }
    }
  }

  /** Nothing to cancel, shut down, start or download. */
  ghost predicate NothingToPrepare(
    node: NodeId, runners: seq<Runner>, instances: seq<Instance>, view: View, inputs: Inputs)
  {
    && AllCancelled(inputs.work, runners) && NoneBroken(runners, instances, view)
    && NoneStartable(node, runners, instances, view, inputs.mayCreate)
    && var ds := if node in inputs.downloads then inputs.downloads[node] else [];
       forall j: nat :: j < |runners| ==> !Wanting(runners[j], ds, inputs.mayDownload)
  }

  lemma {:induction false} PreparedAnswer(
    node: NodeId, runners: seq<Runner>, instances: seq<Instance>, view: View, inputs: Inputs)
    requires NothingToPrepare(node, runners, instances, view, inputs)
    ensures FirstCancel(inputs.work, runners) == NoTask && KillRunner(runners, view, instances).None?
    ensures StartRunner(node, runners, view, instances, inputs.mayCreate).None?
    ensures ModelNeedsDownload(node, runners, inputs.downloads, inputs.mayDownload).None?
  {
    NothingToCancel(inputs.work, runners);
    KillsNone(runners, instances, view);
    StartsNone(node, runners, instances, view, inputs.mayCreate);
    var ds := LocalDownloads(node, inputs.downloads);
    forall r | r in runners ensures !ShouldDownload(r, ds, inputs.mayDownload) {
      var j: nat :| j < |runners| && runners[j] == r;
      DownloadsExactlyWanting(r, ds, inputs.mayDownload);
    }
    DownloadExactly(node, runners, inputs);
  }

  /** With nothing to prepare, the first connectable runner connects; if there is none, the
      first loadable one loads; if there is none either, the first warmable one warms up. */
  lemma {:induction false} BringsUpFirst(
    node: NodeId, runners: seq<Runner>, instances: seq<Instance>, view: View, inputs: Inputs, k: nat)
    requires NothingToPrepare(node, runners, instances, view, inputs) && k < |runners|
    ensures var id := runners[k].instance.id; var answer := Plan(node, runners, instances, view, inputs);
            && (Connectable(runners[k], view) && (forall j: nat :: j < k ==> !Connectable(runners[j], view)) ==>
                  answer == Assign(ConnectToGroup(id)))
            && ((forall j: nat :: j < |runners| ==> !Connectable(runners[j], view)) ==>
                  && (Loadable(runners[k], view, inputs.downloads)
                      && (forall j: nat :: j < k ==> !Loadable(runners[j], view, inputs.downloads)) ==>
                        answer == Assign(LoadModel(id)))
                  && ((forall j: nat :: j < |runners| ==> !Loadable(runners[j], view, inputs.downloads)) ==>
                        (Warmable(runners[k], view) && (forall j: nat :: j < k ==> !Warmable(runners[j], view)) ==>
                           answer == Assign(StartWarmup(id)))))
  {
    PreparedAnswer(node, runners, instances, view, inputs);
    ConnectsFirst(runners, view, k);
    LoadsFirst(runners, view, inputs.downloads, k);
    WarmsUpFirst(runners, view, k);
  }

  lemma {:induction false} ConnectsFirst(runners: seq<Runner>, view: View, k: nat)
    requires k < |runners|
    ensures Connectable(runners[k], view) && (forall j: nat :: j < k ==> !Connectable(runners[j], view)) ==>
              InitDistributedBackend(runners, view) == Some(ConnectToGroup(runners[k].instance.id))
    ensures (forall j: nat :: j < |runners| ==> !Connectable(runners[j], view)) ==>
              InitDistributedBackend(runners, view) == None
  {
    forall j: nat | j < |runners| ensures ShouldConnect(runners[j], view) <==> Connectable(runners[j], view) {
      ConnectsExactly(runners[j], view);
    }
    assert runners[k] in runners;
  }

  lemma {:induction false} LoadsFirst(
    runners: seq<Runner>, view: View, downloads: map<NodeId, seq<Download>>, k: nat)
    requires k < |runners|
    ensures Loadable(runners[k], view, downloads)
            && (forall j: nat :: j < k ==> !Loadable(runners[j], view, downloads)) ==>
              LoadModelTask(runners, view, downloads) == Some(LoadModel(runners[k].instance.id))
    ensures (forall j: nat :: j < |runners| ==> !Loadable(runners[j], view, downloads)) ==>
              LoadModelTask(runners, view, downloads) == None
  {
    forall j: nat | j < |runners|
      ensures ShouldLoad(runners[j], view, downloads) <==> Loadable(runners[j], view, downloads)
    {
      LoadsExactly(runners[j], view, downloads);
    }
    assert runners[k] in runners;
  }

  lemma {:induction false} WarmsUpFirst(runners: seq<Runner>, view: View, k: nat)
    requires k < |runners|
    ensures Warmable(runners[k], view) && (forall j: nat :: j < k ==> !Warmable(runners[j], view)) ==>
              ReadyToWarmup(runners, view) == Some(StartWarmup(runners[k].instance.id))
  {
    forall j: nat | j < |runners| ensures ShouldWarmUp(runners[j], view) <==> Warmable(runners[j], view) {
      WarmsUpExactly(runners[j], view);
    }
    assert runners[k] in runners;
  }

  // ----- starting requests -----

  /** The request is under way and everything it needs has reached this node. */
  ghost predicate Arrived(w: Work, inputs: Inputs)
  {
    && (w.status == Pending || w.status == InProgress) && !w.kind.Internal?
    && (w.kind.Edit? && w.kind.totalChunks > 0 ==>
          w.command in inputs.chunksReceived && w.kind.totalChunks <= inputs.chunksReceived[w.command])
    && (w.kind.Text? ==> forall k: nat :: k < |w.kind.hashes| ==> w.kind.hashes[k] in inputs.imageCache)
  }

  lemma {:induction false} DispatchesExactlyArrived(w: Work, inputs: Inputs)
    ensures Dispatchable(w, inputs.chunksReceived, inputs.imageCache) <==> Arrived(w, inputs)
  {
    if w.kind.Text? {
      assert forall k: nat :: k < |w.kind.hashes| ==> w.kind.hashes[k] in w.kind.hashes;
      if Arrived(w, inputs) {
        forall h | h in w.kind.hashes ensures h in inputs.imageCache {
          var k: nat :| k < |w.kind.hashes| && w.kind.hashes[k] == h;
        }
      }
    }
  }

  /** The `a`-th request is the first that has arrived and finds a runner that could take
      it; the `b`-th runner is the first that could. */
  ghost predicate FirstTaken(work: seq<Work>, runners: seq<Runner>, view: View, inputs: Inputs, a: nat, b: nat)
  {
    && a < |work| && Arrived(work[a], inputs) && StopsAt(work[a], runners, view, b)
    && forall j: nat :: j < a && Arrived(work[j], inputs) ==> NowhereStops(work[j], runners, view)
  }

  lemma {:induction false} FirstDispatchAt(
    work: seq<Work>, runners: seq<Runner>, view: View, inputs: Inputs, a: nat, b: nat)
    requires FirstTaken(work, runners, view, inputs, a, b)
    ensures FirstDispatch(work, runners, view, inputs.chunksReceived, inputs.imageCache)
            == DispatchTo(work[a], runners, view)
  {
    DispatchesExactlyArrived(work[0], inputs);
    DispatchToExactly(work[0], runners, view);
    if a > 0 {
      assert forall j: nat :: j < |work[1..]| ==> work[1..][j] == work[j + 1];
      FirstDispatchAt(work[1..], runners, view, inputs, a - 1, b);
    } else {
      assert Stops(work[0], runners[b], view);
    }
  }

  /** No runner waits for a task of its bring-up. */
  ghost predicate NoneWaiting(runners: seq<Runner>)
  {
    forall k: nat :: k < |runners| ==> runners[k].status !in {Idle, Connected, Loaded}
  }

  lemma {:induction false} NothingElse(
    node: NodeId, runners: seq<Runner>, instances: seq<Instance>, view: View, inputs: Inputs)
    requires AllCancelled(inputs.work, runners) && NoneBroken(runners, instances, view)
    requires NoneStartable(node, runners, instances, view, inputs.mayCreate) && NoneWaiting(runners)
    ensures Plan(node, runners, instances, view, inputs)
            == FirstDispatch(inputs.work, runners, view, inputs.chunksReceived, inputs.imageCache)
  {
    NothingToCancel(inputs.work, runners);
    KillsNone(runners, instances, view);
    StartsNone(node, runners, instances, view, inputs.mayCreate);
    forall r | r in runners ensures r.status !in {Idle, Connected, Loaded} {
      var k: nat :| k < |runners| && runners[k] == r;
    }
    DownloadExactly(node, runners, inputs);
    GuardsExactly(runners, view, inputs.downloads);
  }

  /** With nothing else to do, the first such request starts on the first such runner,
      all of whose group are seen ready. */
  lemma {:induction false} DispatchesFirstTaken(
    node: NodeId, runners: seq<Runner>, instances: seq<Instance>, view: View, inputs: Inputs, a: nat, b: nat)
    requires AllCancelled(inputs.work, runners) && NoneBroken(runners, instances, view)
    requires NoneStartable(node, runners, instances, view, inputs.mayCreate) && NoneWaiting(runners)
    requires FirstTaken(inputs.work, runners, view, inputs, a, b) && SeenReady(runners[b].instance.shards, view)
    ensures Plan(node, runners, instances, view, inputs) == Assign(Dispatch(inputs.work[a], runners[b].shard.runner))
  {
    NothingElse(node, runners, instances, view, inputs);
    FirstDispatchAt(inputs.work, runners, view, inputs, a, b);
    DispatchToExactly(inputs.work[a], runners, view);
    LookupExactly(runners[b].instance.shards, view);
  }

  /** With nothing else to do and no request that has arrived and could be taken, there
      is no task. */
  lemma {:induction false} NothingToDispatch(
    node: NodeId, runners: seq<Runner>, instances: seq<Instance>, view: View, inputs: Inputs)
    requires AllCancelled(inputs.work, runners) && NoneBroken(runners, instances, view)
    requires NoneStartable(node, runners, instances, view, inputs.mayCreate) && NoneWaiting(runners)
    requires forall j: nat :: j < |inputs.work| && Arrived(inputs.work[j], inputs) ==>
               NowhereStops(inputs.work[j], runners, view)
    ensures Plan(node, runners, instances, view, inputs) == NoTask
  {
    NothingElse(node, runners, instances, view, inputs);
    NoDispatch(inputs.work, runners, view, inputs);
  }

  lemma {:induction false} NoDispatch(work: seq<Work>, runners: seq<Runner>, view: View, inputs: Inputs)
    requires forall j: nat :: j < |work| && Arrived(work[j], inputs) ==> NowhereStops(work[j], runners, view)
    ensures FirstDispatch(work, runners, view, inputs.chunksReceived, inputs.imageCache) == NoTask
  {
    if work != [] {
      DispatchesExactlyArrived(work[0], inputs);
      DispatchToExactly(work[0], runners, view);
      assert forall j: nat :: j < |work[1..]| ==> work[1..][j] == work[j + 1];
      NoDispatch(work[1..], runners, view, inputs);
    }
  }

  // ----- an instance on one node -----

  /** The whole of one node's instance is that node's runner. */
  ghost predicate Alone(node: NodeId, i: Instance, r: RunnerId)
  {
    i.shards == [Shard(r, 0, 1)] && i.nodeToRunner == map[node := r]
  }

  /** The steps of its bring-up, whatever the view says: a missing runner is created, an idle
      one has its model downloaded and then loaded without connecting to anyone, a loaded one is
      warmed up, a failed one is shut down. */
  lemma {:induction false} SingleNodeSteps(
    node: NodeId, i: Instance, r: RunnerId, runners: seq<Runner>, view: View, inputs: Inputs)
    requires Alone(node, i, r) && AllCancelled(inputs.work, runners)
    requires |runners| <= 1 && (|runners| == 1 ==> runners[0].instance == i && runners[0].shard == Shard(r, 0, 1))
    ensures var ds := if node in inputs.downloads then inputs.downloads[node] else [];
            var answer := Plan(node, runners, [i], view, inputs);
            && (runners == [] && i.id in inputs.mayCreate ==> answer == Assign(CreateRunner(i.id, r)))
            && (runners == [] && i.id !in inputs.mayCreate ==> answer == NoTask)
            && (runners != [] ==> match runners[0].status
                case Failed => answer == Assign(ShutdownRunner(i.id, r))
                case Idle =>
                  && (NotBegun(ds, i.model) && i.model in inputs.mayDownload ==>
                        answer == Assign(DownloadModel(i.id, i.model)))
                  && (!NotBegun(ds, i.model) && Download(i.model, DownloadCompleted) in ds ==>
                        answer == Assign(LoadModel(i.id)))
                case Loaded => answer == Assign(StartWarmup(i.id))
                case _ => true)
  {
    NothingToCancel(inputs.work, runners);
    if runners == [] {
      NoRunner(node, i, r, view, inputs);
    } else {
      OneRunner(node, i, r, runners[0], view, inputs);
      assert runners == [runners[0]];
    }
  }

  lemma {:induction false} NoRunner(node: NodeId, i: Instance, r: RunnerId, view: View, inputs: Inputs)
    requires Alone(node, i, r) && AllCancelled(inputs.work, [])
    ensures Plan(node, [], [i], view, inputs)
            == if i.id in inputs.mayCreate then Assign(CreateRunner(i.id, r)) else NoTask
  {
    if i.id in inputs.mayCreate {
      StartsFirstStartable(node, [], [i], view, inputs, 0);
    } else {
      NothingToDispatch(node, [], [i], view, inputs);
    }
  }

  /** A runner that has not failed is neither shut down nor started again. */
  lemma {:induction false} OneRunnerStays(
    node: NodeId, i: Instance, r: RunnerId, runner: Runner, view: View, inputs: Inputs)
    requires Alone(node, i, r) && runner.instance == i && runner.shard == Shard(r, 0, 1) && runner.status != Failed
    ensures NoneBroken([runner], [i], view) && NoneStartable(node, [runner], [i], view, inputs.mayCreate)
    ensures InitDistributedBackend([runner], view).None?
  {
    assert [runner][0].instance.id == [i][0].id;
    assert !Broken(runner, [i], view);
    assert [runner][0].shard.runner == r;
    assert !ShouldConnect(runner, view);
  }

  lemma {:induction false} IdleRunnerLoads(
    node: NodeId, i: Instance, r: RunnerId, runner: Runner, view: View, inputs: Inputs)
    requires Alone(node, i, r) && AllCancelled(inputs.work, [runner])
    requires runner.instance == i && runner.shard == Shard(r, 0, 1) && runner.status == Idle
    requires node in inputs.downloads && !NotBegun(inputs.downloads[node], i.model)
    requires Download(i.model, DownloadCompleted) in inputs.downloads[node]
    ensures Plan(node, [runner], [i], view, inputs) == Assign(LoadModel(i.id))
  {
    OneRunnerStays(node, i, r, runner, view, inputs);
    NothingToCancel(inputs.work, [runner]);
    KillsNone([runner], [i], view);
    StartsNone(node, [runner], [i], view, inputs.mayCreate);
    DownloadsExactlyWanting(runner, inputs.downloads[node], inputs.mayDownload);
    DownloadExactly(node, [runner], inputs);
    assert ShouldLoad(runner, view, inputs.downloads) && runner in [runner];
  }

  lemma {:induction false} LoadedRunnerWarmsUp(
    node: NodeId, i: Instance, r: RunnerId, runner: Runner, view: View, inputs: Inputs)
    requires Alone(node, i, r) && AllCancelled(inputs.work, [runner])
    requires runner.instance == i && runner.shard == Shard(r, 0, 1) && runner.status == Loaded
    ensures Plan(node, [runner], [i], view, inputs) == Assign(StartWarmup(i.id))
  {
    OneRunnerStays(node, i, r, runner, view, inputs);
    NothingToCancel(inputs.work, [runner]);
    KillsNone([runner], [i], view);
    StartsNone(node, [runner], [i], view, inputs.mayCreate);
    assert !ShouldDownload(runner, LocalDownloads(node, inputs.downloads), inputs.mayDownload);
    assert !ShouldLoad(runner, view, inputs.downloads);
    assert ShouldWarmUp(runner, view) && runner in [runner];
  }

  lemma {:induction false} OneRunner(
    node: NodeId, i: Instance, r: RunnerId, runner: Runner, view: View, inputs: Inputs)
    requires Alone(node, i, r) && AllCancelled(inputs.work, [runner])
    requires runner.instance == i && runner.shard == Shard(r, 0, 1)
    ensures var ds := if node in inputs.downloads then inputs.downloads[node] else [];
            var answer := Plan(node, [runner], [i], view, inputs);
            match runner.status
            case Failed => answer == Assign(ShutdownRunner(i.id, r))
            case Idle =>
              && (NotBegun(ds, i.model) && i.model in inputs.mayDownload ==>
                    answer == Assign(DownloadModel(i.id, i.model)))
              && (!NotBegun(ds, i.model) && Download(i.model, DownloadCompleted) in ds ==>
                    answer == Assign(LoadModel(i.id)))
            case Loaded => answer == Assign(StartWarmup(i.id))
            case _ => true
  {
    var ds := if node in inputs.downloads then inputs.downloads[node] else [];
    match runner.status
    case Failed => ShutsDownFirstBroken(node, [runner], [i], view, inputs, 0);
    case Idle =>
      if !NotBegun(ds, i.model) && Download(i.model, DownloadCompleted) in ds {
        IdleRunnerLoads(node, i, r, runner, view, inputs);
      } else if NotBegun(ds, i.model) && i.model in inputs.mayDownload {
        OneRunnerStays(node, i, r, runner, view, inputs);
        DownloadsForFirstWanting(node, [runner], [i], view, inputs, 0);
      }
    case Loaded => LoadedRunnerWarmsUp(node, i, r, runner, view, inputs);
    case _ =>
  }
}
