/** The worker's planner (src/exo/worker/plan.py): the next task for a node, from
    its own runners and its replica of the global state.  Dictionaries are
    sequences in iteration order where the code iterates over them; backoff
    decisions, which depend on the clock, are inputs. */
module Planner {
  import opened Common
  import opened Messages

  type RunnerId = nat
  type InstanceId = nat
  type TaskId = nat
  type ModelId = nat
  type CommandId = nat
  type ImageHash = nat

  datatype Status =
    | Idle | Connecting | Connected | Loading | Loaded | WarmingUp | Ready | Running
    | ShuttingDown | Shutdown | Failed

  datatype Shard = Shard(runner: RunnerId, rank: nat, worldSize: nat)

  datatype Instance = Instance(id: InstanceId, model: ModelId, shards: seq<Shard>, nodeToRunner: map<NodeId, RunnerId>)

  datatype Runner = Runner(
    instance: Instance, shard: Shard, status: Status,
    completed: set<TaskId>, inProgress: set<TaskId>, cancelled: set<TaskId>)

  datatype DownloadKind = DownloadPending | DownloadOngoing | DownloadCompleted | DownloadFailed
  datatype Download = Download(model: ModelId, kind: DownloadKind)

  datatype WorkStatus = Pending | InProgress | Complete | TimedOut | WorkFailed | Cancelled
  datatype WorkKind = Text(hashes: seq<ImageHash>) | Image | Edit(totalChunks: nat) | Internal
  datatype Work = Work(id: TaskId, instance: InstanceId, command: CommandId, status: WorkStatus, kind: WorkKind)

  datatype Task =
    | CancelTask(instance: InstanceId, cancelledTask: TaskId, runner: RunnerId)
    | ShutdownRunner(instance: InstanceId, runner: RunnerId)
    | CreateRunner(instance: InstanceId, runner: RunnerId)
    | DownloadModel(instance: InstanceId, model: ModelId)
    | ConnectToGroup(instance: InstanceId)
    | LoadModel(instance: InstanceId)
    | StartWarmup(instance: InstanceId)
    | Dispatch(work: Work, runner: RunnerId)

  /** `KeyError`: the lookup in `_pending_tasks` has no default. */
  datatype Outcome = NoTask | Assign(task: Task) | KeyError

  type View = map<RunnerId, Status>

  datatype Inputs = Inputs(
    downloads: map<NodeId, seq<Download>>,
    work: seq<Work>,
    chunksReceived: map<CommandId, nat>,
    imageCache: set<ImageHash>,
    mayCreate: set<InstanceId>,
    mayDownload: set<ModelId>)

  predicate Is(view: View, r: RunnerId, allowed: set<Status>)
  {
    r in view && view[r] in allowed
  }

  // ----- guards -----

  predicate ShouldKill(r: Runner, instances: seq<Instance>, view: View)
  {
    || (forall i :: i in instances ==> i.id != r.instance.id)
    || r.status == Failed
    || (exists n :: n in r.instance.nodeToRunner
          && r.instance.nodeToRunner[n] != r.shard.runner && Is(view, r.instance.nodeToRunner[n], {Failed}))
  }

  predicate ShouldCreate(node: NodeId, i: Instance, runners: seq<Runner>, view: View, mayCreate: set<InstanceId>)
  {
    && node in i.nodeToRunner
    && (forall r :: r in runners ==> r.shard.runner != i.nodeToRunner[node])
    && ((exists n :: n in i.nodeToRunner
           && i.nodeToRunner[n] != i.nodeToRunner[node] && Is(view, i.nodeToRunner[n], {Failed}))
        ==> Is(view, i.nodeToRunner[node], {Failed}))
    && i.id in mayCreate
  }

  function LatestDownload(ds: seq<Download>, model: ModelId): Option<DownloadKind>
  {
    if ds == [] then None
    else if ds[|ds| - 1].model == model then Some(ds[|ds| - 1].kind)
    else LatestDownload(ds[..|ds| - 1], model)
  }

  function LocalDownloads(node: NodeId, downloads: map<NodeId, seq<Download>>): seq<Download>
  {
    if node in downloads then downloads[node] else []
  }

  predicate ShouldDownload(r: Runner, local: seq<Download>, mayDownload: set<ModelId>)
  {
    && r.status == Idle
    && LatestDownload(local, r.instance.model) in {None, Some(DownloadPending)}
    && r.instance.model in mayDownload
  }

  predicate ShouldConnect(r: Runner, view: View)
  {
    && |r.instance.shards| != 1
    && r.status == Idle
    && (forall s :: s in r.instance.shards ==> Is(view, s.runner, {Connecting, Idle}))
    && (|| r.shard.rank + 1 < r.shard.worldSize
        || (&& r.shard.rank + 1 == r.shard.worldSize
            && forall s :: s in r.instance.shards && s.runner != r.shard.runner ==> Is(view, s.runner, {Connecting})))
  }

  predicate ShouldLoad(r: Runner, view: View, downloads: map<NodeId, seq<Download>>)
  {
    && (forall n :: n in r.instance.nodeToRunner ==>
          n in downloads && Download(r.instance.model, DownloadCompleted) in downloads[n])
    && (|| (|r.instance.shards| == 1 && r.status == Idle)
        || (&& r.status == Connected
            && forall s :: s in r.instance.shards ==> Is(view, s.runner, {Connected, Loading, Loaded})))
  }

  predicate ShouldWarmUp(r: Runner, view: View)
  {
    && r.status == Loaded
    && (if r.shard.rank > 0
        then forall s :: s in r.instance.shards ==> Is(view, s.runner, {Loaded, WarmingUp, Ready})
        else forall s :: s in r.instance.shards && s.runner != r.shard.runner ==>
               Is(view, s.runner, {WarmingUp, Ready}))
  }

  // ----- searches, in iteration order -----

  /** The first runner, in iteration order, that is wanted. */
  function FirstRunner(runners: seq<Runner>, wanted: Runner -> bool): (found: Option<Runner>)
    ensures found.Some? ==>
              exists k :: 0 <= k < |runners| && found.value == runners[k] && wanted(runners[k])
                          && forall j :: 0 <= j < k ==> !wanted(runners[j])
    ensures found.None? ==> forall r :: r in runners ==> !wanted(r)
  {
    if runners == [] then None
    else if wanted(runners[0]) then Some(runners[0])
    else FirstRunner(runners[1..], wanted)
  }

  function FirstToCreate(
    node: NodeId, instances: seq<Instance>, runners: seq<Runner>, view: View, mayCreate: set<InstanceId>)
    : (found: Option<Instance>)
    ensures found.Some? ==>
              exists k :: 0 <= k < |instances| && found.value == instances[k]
                          && ShouldCreate(node, instances[k], runners, view, mayCreate)
                          && forall j :: 0 <= j < k ==> !ShouldCreate(node, instances[j], runners, view, mayCreate)
    ensures found.None? ==> forall i :: i in instances ==> !ShouldCreate(node, i, runners, view, mayCreate)
  {
    if instances == [] then None
    else if ShouldCreate(node, instances[0], runners, view, mayCreate) then Some(instances[0])
    else FirstToCreate(node, instances[1..], runners, view, mayCreate)
  }

  /** The runner has not been told of a cancelled request. */
  predicate MustCancel(w: Work, r: Runner)
  {
    w.status == Cancelled && w.instance == r.instance.id && w.id !in r.cancelled
  }

  function RunnerToCancel(w: Work, runners: seq<Runner>): (found: Option<Runner>)
    ensures found.Some? ==>
              exists k :: 0 <= k < |runners| && found.value == runners[k] && MustCancel(w, runners[k])
                          && forall j :: 0 <= j < k ==> !MustCancel(w, runners[j])
    ensures found.None? ==> forall r :: r in runners ==> !MustCancel(w, r)
  {
    FirstRunner(runners, (r: Runner) => MustCancel(w, r))
  }

  function FirstCancel(work: seq<Work>, runners: seq<Runner>): Outcome
  {
    if work == [] then NoTask
    else match RunnerToCancel(work[0], runners)
         case Some(r) => Assign(CancelTask(work[0].instance, work[0].id, r.shard.runner))
         case None => FirstCancel(work[1..], runners)
  }

  predicate Dispatchable(w: Work, chunksReceived: map<CommandId, nat>, imageCache: set<ImageHash>)
  {
    && w.status in {Pending, InProgress}
    && match w.kind
       case Internal => false
       case Image => true
       case Edit(total) => total <= if w.command in chunksReceived then chunksReceived[w.command] else 0
       case Text(hashes) => forall h :: h in hashes ==> h in imageCache
  }

  /** `all(isinstance(all_runners[id], ...))`: stops at the first that is not
      ready, and fails on the first that is missing. */
  function AllReady(shards: seq<Shard>, view: View): Option<bool>
  {
    if shards == [] then Some(true)
    else if shards[0].runner !in view then None
    else if view[shards[0].runner] !in {Ready, Running} then Some(false)
    else AllReady(shards[1..], view)
  }

  function DispatchTo(w: Work, runners: seq<Runner>, view: View): Outcome
  {
    if runners == [] then NoTask
    else
      var r := runners[0];
      if w.instance != r.instance.id || w.id in r.completed || w.id in r.inProgress || r.status !in {Ready, Running}
      then DispatchTo(w, runners[1..], view)
      else match AllReady(r.instance.shards, view)
           case None => KeyError
           case Some(true) => Assign(Dispatch(w, r.shard.runner))
           case Some(false) => DispatchTo(w, runners[1..], view)
  }

  function FirstDispatch(
    work: seq<Work>, runners: seq<Runner>, view: View, chunksReceived: map<CommandId, nat>,
    imageCache: set<ImageHash>): Outcome
  {
    if work == [] then NoTask
    else
      var first :=
        if Dispatchable(work[0], chunksReceived, imageCache) then DispatchTo(work[0], runners, view) else NoTask;
      if first.NoTask? then FirstDispatch(work[1..], runners, view, chunksReceived, imageCache) else first
  }

  function KillRunner(runners: seq<Runner>, view: View, instances: seq<Instance>)
    : (t: Option<Task>)
    ensures t.Some? ==>
              && t.value.ShutdownRunner?
              && exists k :: 0 <= k < |runners| && ShouldKill(runners[k], instances, view)
                             && (forall j :: 0 <= j < k ==> !ShouldKill(runners[j], instances, view))
                             && t.value == ShutdownRunner(runners[k].instance.id, runners[k].shard.runner)
    ensures t.None? ==> forall r :: r in runners ==> !ShouldKill(r, instances, view)
  {
    match FirstRunner(runners, (r: Runner) => ShouldKill(r, instances, view))
    case None => None
    case Some(r) => Some(ShutdownRunner(r.instance.id, r.shard.runner))
  }

  function StartRunner(
    node: NodeId, runners: seq<Runner>, view: View, instances: seq<Instance>, mayCreate: set<InstanceId>)
    : (t: Option<Task>)
    ensures t.Some? ==>
              && t.value.CreateRunner?
              && exists k :: 0 <= k < |instances| && ShouldCreate(node, instances[k], runners, view, mayCreate)
                             && (forall j :: 0 <= j < k ==> !ShouldCreate(node, instances[j], runners, view, mayCreate))
                             && t.value == CreateRunner(instances[k].id, instances[k].nodeToRunner[node])
    ensures t.None? ==> forall i :: i in instances ==> !ShouldCreate(node, i, runners, view, mayCreate)
  {
    match FirstToCreate(node, instances, runners, view, mayCreate)
    case None => None
    case Some(i) => Some(CreateRunner(i.id, i.nodeToRunner[node]))
  }

  function ModelNeedsDownload(
    node: NodeId, runners: seq<Runner>, downloads: map<NodeId, seq<Download>>, mayDownload: set<ModelId>)
    : (t: Option<Task>)
    ensures t.Some? ==>
              && t.value.DownloadModel?
              && var local := LocalDownloads(node, downloads);
                 exists k :: 0 <= k < |runners| && ShouldDownload(runners[k], local, mayDownload)
                             && (forall j :: 0 <= j < k ==> !ShouldDownload(runners[j], local, mayDownload))
                             && t.value == DownloadModel(runners[k].instance.id, runners[k].instance.model)
    ensures t.None? ==> forall r :: r in runners ==> !ShouldDownload(r, LocalDownloads(node, downloads), mayDownload)
  {
    match FirstRunner(runners, (r: Runner) => ShouldDownload(r, LocalDownloads(node, downloads), mayDownload))
    case None => None
    case Some(r) => Some(DownloadModel(r.instance.id, r.instance.model))
  }

  function InitDistributedBackend(runners: seq<Runner>, view: View)
    : (t: Option<Task>)
    ensures t.Some? ==>
              && t.value.ConnectToGroup?
              && exists k :: 0 <= k < |runners| && ShouldConnect(runners[k], view)
                             && (forall j :: 0 <= j < k ==> !ShouldConnect(runners[j], view))
                             && t.value == ConnectToGroup(runners[k].instance.id)
    ensures t.None? ==> forall r :: r in runners ==> !ShouldConnect(r, view)
  {
    match FirstRunner(runners, (r: Runner) => ShouldConnect(r, view))
    case None => None
    case Some(r) => Some(ConnectToGroup(r.instance.id))
  }

  function LoadModelTask(runners: seq<Runner>, view: View, downloads: map<NodeId, seq<Download>>)
    : (t: Option<Task>)
    ensures t.Some? ==>
              && t.value.LoadModel?
              && exists k :: 0 <= k < |runners| && ShouldLoad(runners[k], view, downloads)
                             && (forall j :: 0 <= j < k ==> !ShouldLoad(runners[j], view, downloads))
                             && t.value == LoadModel(runners[k].instance.id)
    ensures t.None? ==> forall r :: r in runners ==> !ShouldLoad(r, view, downloads)
  {
    match FirstRunner(runners, (r: Runner) => ShouldLoad(r, view, downloads))
    case None => None
    case Some(r) => Some(LoadModel(r.instance.id))
  }

  function ReadyToWarmup(runners: seq<Runner>, view: View)
    : (t: Option<Task>)
    ensures t.Some? ==>
              && t.value.StartWarmup?
              && exists k :: 0 <= k < |runners| && ShouldWarmUp(runners[k], view)
                             && (forall j :: 0 <= j < k ==> !ShouldWarmUp(runners[j], view))
                             && t.value == StartWarmup(runners[k].instance.id)
    ensures t.None? ==> forall r :: r in runners ==> !ShouldWarmUp(r, view)
  {
    match FirstRunner(runners, (r: Runner) => ShouldWarmUp(r, view))
    case None => None
    case Some(r) => Some(StartWarmup(r.instance.id))
  }

  /** The chain of alternatives: the first that has an answer. */
  function Choose(
    cancel: Outcome, kill: Option<Task>, create: Option<Task>, download: Option<Task>, connect: Option<Task>,
    load: Option<Task>, warm: Option<Task>, dispatch: Outcome): Outcome
  {
    if cancel.Assign? then cancel
    else if kill.Some? then Assign(kill.value)
    else if create.Some? then Assign(create.value)
    else if download.Some? then Assign(download.value)
    else if connect.Some? then Assign(connect.value)
    else if load.Some? then Assign(load.value)
    else if warm.Some? then Assign(warm.value)
    else dispatch
  }

  function Plan(node: NodeId, runners: seq<Runner>, instances: seq<Instance>, view: View, inputs: Inputs): Outcome
  {
    Choose(FirstCancel(inputs.work, runners),
           KillRunner(runners, view, instances),
           StartRunner(node, runners, view, instances, inputs.mayCreate),
           ModelNeedsDownload(node, runners, inputs.downloads, inputs.mayDownload),
           InitDistributedBackend(runners, view),
           LoadModelTask(runners, view, inputs.downloads),
           ReadyToWarmup(runners, view),
           FirstDispatch(inputs.work, runners, view, inputs.chunksReceived, inputs.imageCache))
  }
}
