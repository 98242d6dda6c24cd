/** The replicated state and its reducer (src/exo/shared/apply.py).  Values the
    reducer only stores are naturals; the topology is the graph it denotes, because
    every reducer works on its own deep copy. */
module Reducer {
  import opened Common
  import opened Messages
  import opened Topology

  type InstanceId = nat
  type TaskId = nat
  type RunnerId = nat
  type LinkId = nat
  type ModelId = nat

  datatype TaskStatus = Pending | Running | Complete | TimedOut | Failed | Cancelled
  datatype Task = Task(
    id: TaskId, instance: InstanceId, status: TaskStatus,
    errorType: Option<nat>, errorMessage: Option<nat>, params: nat)
  datatype Instance = Instance(id: InstanceId, assignments: nat)
  datatype Link = Link(id: LinkId, prefill: seq<InstanceId>, decode: seq<InstanceId>)
  datatype RunnerStatus = RunnerShutdown | RunnerReady(prefillPort: Option<nat>) | RunnerIn(phase: nat)
  datatype Download = Download(node: NodeId, model: ModelId, progress: nat)
  datatype Interface = Interface(ip: nat, thunderbolt: bool)
  datatype TbIdentifier = TbIdentifier(uuid: nat, rdmaIface: nat)
  datatype TbLink = TbLink(sourceUuid: nat, sinkUuid: nat)
  datatype Identity = Identity(friendlyName: Option<nat>, hardware: Option<nat>)

  datatype Info =
    | MacmonMetrics(system: nat, memory: nat)
    | MemoryUsage(memory: nat)
    | DiskUsage(disk: nat)
    | NodeConfig
    | MiscData(friendlyName: nat)
    | StaticInformation(hardware: nat)
    | NetworkInterfaces(interfaces: seq<Interface>)
    | ThunderboltIdentifiers(idents: seq<TbIdentifier>)
    | ThunderboltConnections(links: seq<TbLink>)
    | ThunderboltBridge(enabled: bool)
    | RdmaCtl(rdmaEnabled: bool)
    | Backends(backends: nat)

  datatype Body =
    | PassThrough
    | CustomCardAdded(model: ModelId, card: nat)
    | CustomCardDeleted(model: ModelId)
    | InstanceCreated(instance: Instance)
    | InstanceDeleted(instanceId: InstanceId)
    | NodeTimedOut(node: NodeId)
    | DownloadProgress(download: Download)
    | GatheredInfo(node: NodeId, info: Info)
    | RunnerStatusUpdated(runner: RunnerId, runnerStatus: RunnerStatus)
    | TaskCreated(taskId: TaskId, task: Task)
    | TaskDeleted(taskId: TaskId)
    | TaskFailed(taskId: TaskId, errorType: nat, errorMessage: nat)
    | TaskStatusUpdated(taskId: TaskId, taskStatus: TaskStatus)
    | EdgeCreated(conn: Connection)
    | EdgeDeleted(conn: Connection)
    | LinkCreated(link: Link)
    | LinkDeleted(linkId: LinkId)

  /** The part of the state about nodes. */
  datatype Nodes = Nodes(
    downloads: map<NodeId, seq<Download>>,
    lastSeen: map<NodeId, int>,
    topology: Graph,
    identities: map<NodeId, Identity>,
    memory: map<NodeId, nat>,
    disk: map<NodeId, nat>,
    system: map<NodeId, nat>,
    network: map<NodeId, seq<Interface>>,
    thunderbolt: map<NodeId, seq<TbIdentifier>>,
    bridge: map<NodeId, bool>,
    rdmaCtl: map<NodeId, bool>,
    backends: map<NodeId, nat>,
    bridgeCycles: seq<seq<NodeId>>)

  /** The part about what runs on them. */
  datatype Work = Work(
    instances: map<InstanceId, Instance>,
    tasks: map<TaskId, Task>,
    links: map<LinkId, Link>,
    runners: map<RunnerId, RunnerStatus>,
    prefillPorts: map<RunnerId, nat>,
    customCards: map<ModelId, nat>)

  type Instances = map<InstanceId, Instance>
  type Tasks = map<TaskId, Task>

  ghost predicate InstancesKeyed(instances: Instances)
  {
    forall k :: k in instances ==> instances[k].id == k
  }

  ghost predicate TasksKeyed(tasks: Tasks)
  {
    forall k :: k in tasks ==> tasks[k].id == k
  }

  /** Instances, tasks and links are under their own ids, and only known runners have
      a prefill port. */
  ghost predicate WorkOk(w: Work)
  {
    && InstancesKeyed(w.instances) && TasksKeyed(w.tasks)
    && (forall l :: l in w.links ==> w.links[l].id == l)
    && w.prefillPorts.Keys <= w.runners.Keys
  }

  datatype State = State(nodes: Nodes, work: Work)

  const NO_NODES := Nodes(map[], map[], EMPTY_GRAPH, map[], map[], map[], map[], map[], map[], map[], map[], map[], [])
  const NO_WORK := Work(map[], map[], map[], map[], map[], map[])
  const EMPTY_STATE := State(NO_NODES, NO_WORK)

  /** The graph library's `simple_cycles`, as a function of the graph. */
  type CycleFinder = Graph -> seq<seq<NodeId>>

  // ----- thunderbolt bridge cycles -----

  predicate Enabled(status: map<NodeId, bool>, n: NodeId)
  {
    n in status && status[n]
  }

  function EnabledNodes(status: map<NodeId, bool>): set<NodeId>
  {
    set n | n in status && status[n]
  }

  predicate ThunderboltIp(nodes: set<NodeId>, network: map<NodeId, seq<Interface>>, ip: nat)
  {
    exists n :: n in nodes && n in network && Interface(ip, true) in network[n]
  }

  /** Nodes with the bridge on, and the thunderbolt or RDMA edges between them. */
  function BridgeGraph(g: Graph, bridge: map<NodeId, bool>, network: map<NodeId, seq<Interface>>): Graph
  {
    var on := EnabledNodes(bridge);
    Graph(on * g.nodes,
          set c | c in g.conns && c.source in on * g.nodes && c.sink in on * g.nodes
                  && (c.edge.Rdma? || ThunderboltIp(on, network, c.edge.ip)))
  }

  function AtLeastTwo(cycles: seq<seq<NodeId>>): seq<seq<NodeId>>
  {
    if cycles == [] then []
    else (if |cycles[0]| >= 2 then [cycles[0]] else []) + AtLeastTwo(cycles[1..])
  }

  function BridgeCycles(
    find: CycleFinder, g: Graph, bridge: map<NodeId, bool>, network: map<NodeId, seq<Interface>>): seq<seq<NodeId>>
  {
    if |EnabledNodes(bridge)| < 2 then [] else AtLeastTwo(find(BridgeGraph(g, bridge, network)))
  }

  // ----- RDMA edges from thunderbolt links -----

  ghost predicate Owns(thunderbolt: map<NodeId, seq<TbIdentifier>>, uuid: nat, n: NodeId, iface: nat)
  {
    n in thunderbolt && TbIdentifier(uuid, iface) in thunderbolt[n]
  }

  /** `conn_map`: the node and interface that announced a domain uuid. */
  ghost function Owner(thunderbolt: map<NodeId, seq<TbIdentifier>>, uuid: nat): (o: Option<(NodeId, nat)>)
    ensures o.Some? ==> Owns(thunderbolt, uuid, o.value.0, o.value.1)
    ensures o.None? ==> forall n, iface :: !Owns(thunderbolt, uuid, n, iface)
  {
    if exists n, iface :: Owns(thunderbolt, uuid, n, iface) then
      var n: NodeId, iface: nat :| Owns(thunderbolt, uuid, n, iface);
      Some((n, iface))
    else None
  }

  ghost function RdmaConnections(node: NodeId, links: seq<TbLink>, s: Nodes): seq<Connection>
  {
    if links == [] then []
    else
      var rest := RdmaConnections(node, links[..|links| - 1], s);
      var link := links[|links| - 1];
      var from, to := Owner(s.thunderbolt, link.sourceUuid), Owner(s.thunderbolt, link.sinkUuid);
      if from.Some? && to.Some? && Enabled(s.rdmaCtl, node) && Enabled(s.rdmaCtl, to.value.0)
      then rest + [Connection(node, to.value.0, Rdma(from.value.1, to.value.1))]
      else rest
  }

  // ----- node reducers -----

  function WithoutNode(find: CycleFinder, n: NodeId, s: Nodes): Nodes
  {
    var g := s.topology.RemoveNode(n);
    s.(downloads := s.downloads - {n}, topology := g, lastSeen := s.lastSeen - {n},
       memory := s.memory - {n}, disk := s.disk - {n}, system := s.system - {n}, network := s.network - {n},
       thunderbolt := s.thunderbolt - {n}, bridge := s.bridge - {n}, rdmaCtl := s.rdmaCtl - {n},
       bridgeCycles := if Enabled(s.bridge, n) then BridgeCycles(find, g, s.bridge - {n}, s.network - {n})
                       else s.bridgeCycles)
  }

  function IdentityOf(s: Nodes, n: NodeId): Identity
  {
    if n in s.identities then s.identities[n] else Identity(None, None)
  }

  ghost function WithInfo(find: CycleFinder, n: NodeId, when: int, info: Info, s: Nodes): Nodes
  {
    var t := s.(lastSeen := s.lastSeen[n := when], topology := s.topology.AddNode(n));
    match info
    case MacmonMetrics(system, memory) => t.(system := s.system[n := system], memory := s.memory[n := memory])
    case MemoryUsage(memory) => t.(memory := s.memory[n := memory])
    case DiskUsage(disk) => t.(disk := s.disk[n := disk])
    case NodeConfig => t
    case MiscData(name) => t.(identities := s.identities[n := IdentityOf(s, n).(friendlyName := Some(name))])
    case StaticInformation(hw) => t.(identities := s.identities[n := IdentityOf(s, n).(hardware := Some(hw))])
    case NetworkInterfaces(ifaces) => t.(network := s.network[n := ifaces])
    case ThunderboltIdentifiers(idents) => t.(thunderbolt := s.thunderbolt[n := idents])
    case ThunderboltConnections(links) =>
      t.(topology := t.topology.DropOutRdma(n).AddConnections(RdmaConnections(n, links, s)))
    case ThunderboltBridge(on) =>
      var bridge := s.bridge[n := on];
      t.(bridge := bridge,
         bridgeCycles := if Enabled(s.bridge, n) != on then BridgeCycles(find, t.topology, bridge, s.network)
                         else s.bridgeCycles)
    case RdmaCtl(on) =>
      t.(rdmaCtl := s.rdmaCtl[n := on], topology := if on then t.topology else t.topology.DropRdmaTouching(n))
    case Backends(b) => t.(backends := s.backends[n := b])
  }

  /** Replace the first entry of the same model, or append. */
  function PutDownload(ds: seq<Download>, d: Download): seq<Download>
  {
    if ds == [] then [d]
    else if ds[0].model == d.model then [d] + ds[1..]
    else [ds[0]] + PutDownload(ds[1..], d)
  }

  /** The loop of `apply_node_download_progress`. */
  method RecordDownload(ds: seq<Download>, d: Download) returns (r: seq<Download>)
    ensures r == PutDownload(ds, d)
  {
    r := ds;
    for i := 0 to |ds|
      invariant r == ds && forall j :: 0 <= j < i ==> ds[j].model != d.model
    {
      if ds[i].model == d.model {
        PutDownloadAt(ds, d, i);
        return ds[i := d];
      }
    }
    PutDownloadAt(ds, d, |ds|);
    return ds + [d];
  }

  /** Only the first entry of the model changes; without one, the entry is added last. */
  lemma {:induction false} PutDownloadAt(ds: seq<Download>, d: Download, i: nat)
    requires i <= |ds| && (forall j :: 0 <= j < i ==> ds[j].model != d.model) && (i < |ds| ==> ds[i].model == d.model)
    ensures PutDownload(ds, d) == if i < |ds| then ds[i := d] else ds + [d]
  {
    if i > 0 {
      PutDownloadAt(ds[1..], d, i - 1);
    }
  }

  ghost predicate OnePerModel(ds: seq<Download>)
  {
    forall i, j :: 0 <= i < j < |ds| ==> ds[i].model != ds[j].model
  }

  /** A node's list keeps one entry per model, the latest reported. */
  lemma {:induction false} PutDownloadKeepsOnePerModel(ds: seq<Download>, d: Download)
    requires OnePerModel(ds)
    ensures OnePerModel(PutDownload(ds, d)) && d in PutDownload(ds, d)
    ensures forall e :: e in PutDownload(ds, d) <==> e == d || (e in ds && e.model != d.model)
  {
    var i := FirstOfModel(ds, d.model);
    PutDownloadAt(ds, d, i);
    var after := PutDownload(ds, d);
    assert after[i] == d;
    forall e | e in ds && e.model != d.model ensures e in after {
      var j :| 0 <= j < |ds| && ds[j] == e;
      assert after[j] == e;
    }
  }

  ghost function FirstOfModel(ds: seq<Download>, model: ModelId): (i: nat)
    ensures i <= |ds| && (forall j :: 0 <= j < i ==> ds[j].model != model) && (i < |ds| ==> ds[i].model == model)
  {
    if ds == [] || ds[0].model == model then 0 else FirstOfModel(ds[1..], model) + 1
  }

  // ----- instances, links, tasks, runners -----

  /** A link without the instance; one that would lose a side is removed. */
  function LinksWithout(links: map<LinkId, Link>, id: InstanceId): map<LinkId, Link>
  {
    map l | l in links && Remove(links[l].prefill, id) != [] && Remove(links[l].decode, id) != []
      :: links[l].(prefill := Remove(links[l].prefill, id), decode := Remove(links[l].decode, id))
  }

  function WithoutInstance(id: InstanceId, s: Work): Work
  {
    s.(instances := s.instances - {id}, links := LinksWithout(s.links, id))
  }

  function WithTaskStatus(id: TaskId, status: TaskStatus, s: Work): Work
  {
    if id !in s.tasks then s
    else
      var t := s.tasks[id].(status := status);
      s.(tasks := s.tasks[id := if status == Failed then t else t.(errorType := None, errorMessage := None)])
  }

  function WithTaskError(id: TaskId, errorType: nat, errorMessage: nat, s: Work): Work
  {
    if id !in s.tasks then s
    else s.(tasks := s.tasks[id := s.tasks[id].(errorType := Some(errorType), errorMessage := Some(errorMessage))])
  }

  function WithRunnerStatus(r: RunnerId, status: RunnerStatus, s: Work): Work
  {
    match status
    case RunnerShutdown => s.(runners := s.runners - {r}, prefillPorts := s.prefillPorts - {r})
    case RunnerReady(Some(port)) => s.(runners := s.runners[r := status], prefillPorts := s.prefillPorts[r := port])
    case _ => s.(runners := s.runners[r := status])
  }

  function WithDownload(d: Download, s: Nodes): Nodes
  {
    s.(downloads := s.downloads[d.node := PutDownload(if d.node in s.downloads then s.downloads[d.node] else [], d)])
  }

  /** What an event does to the nodes. */
  ghost function ApplyToNodes(find: CycleFinder, when: int, b: Body, s: Nodes): Nodes
  {
    match b
    case NodeTimedOut(n) => WithoutNode(find, n, s)
    case DownloadProgress(d) => WithDownload(d, s)
    case GatheredInfo(n, info) => WithInfo(find, n, when, info, s)
    case EdgeCreated(c) => s.(topology := s.topology.AddConnection(c))
    case EdgeDeleted(c) => s.(topology := s.topology.RemoveConnection(c))
    case _ => s
  }

  /** What an event does to the work. */
  function ApplyToWork(b: Body, s: Work): Work
  {
    match b
    case CustomCardAdded(m, card) => s.(customCards := s.customCards[m := card])
    case CustomCardDeleted(m) => s.(customCards := s.customCards - {m})
    case InstanceCreated(i) => s.(instances := s.instances[i.id := i])
    case InstanceDeleted(id) => WithoutInstance(id, s)
    case RunnerStatusUpdated(r, status) => WithRunnerStatus(r, status, s)
    case TaskCreated(id, t) => s.(tasks := s.tasks[id := t])
    case TaskDeleted(id) => s.(tasks := s.tasks - {id})
    case TaskFailed(id, et, em) => WithTaskError(id, et, em, s)
    case TaskStatusUpdated(id, status) => WithTaskStatus(id, status, s)
    case LinkCreated(l) => s.(links := s.links[l.id := l])
    case LinkDeleted(id) => s.(links := s.links - {id})
    case _ => s
  }

  /** `event_apply`: no event changes both parts. */
  ghost function EventApply(find: CycleFinder, e: Event<Body>, s: State): State
  {
    State(ApplyToNodes(find, e.time, e.body, s.nodes), ApplyToWork(e.body, s.work))
  }
}
