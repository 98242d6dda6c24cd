/** What every run of events keeps true of the replicated state. */
module ReducerInvariants {
  import opened Messages
  import opened Topology
  import opened Reducer
  import Replication

  // ----- cycles -----

  ghost predicate Joined(g: Graph, a: NodeId, b: NodeId)
  {
    exists c :: c in g.conns && c.source == a && c.sink == b
  }

  /** A cycle of a graph: each node is joined to the next, the last to the first. */
  ghost predicate IsCycle(g: Graph, cycle: seq<NodeId>)
  {
    && cycle != []
    && (forall k :: 0 <= k < |cycle| ==> cycle[k] in g.nodes)
    && (forall k :: 0 <= k < |cycle| - 1 ==> Joined(g, cycle[k], cycle[k + 1]))
    && Joined(g, cycle[|cycle| - 1], cycle[0])
  }

  /** What is assumed of the graph library. */
  ghost predicate FindsCycles(find: CycleFinder)
  {
    forall g, cycle :: cycle in find(g) ==> IsCycle(g, cycle)
  }

  lemma {:induction false} AtLeastTwoKeeps(cycles: seq<seq<NodeId>>)
    ensures forall c :: c in AtLeastTwo(cycles) <==> c in cycles && |c| >= 2
  {
    if cycles != [] {
      AtLeastTwoKeeps(cycles[1..]);
      assert cycles == [cycles[0]] + cycles[1..];
    }
  }

  ghost predicate AllEnabled(bridge: map<NodeId, bool>, cycle: seq<NodeId>)
  {
    forall k :: 0 <= k < |cycle| ==> Enabled(bridge, cycle[k])
  }

  /** A reported cycle has at least two nodes, all with the bridge on, and consecutive
      nodes are joined by a thunderbolt socket or an RDMA edge. */
  lemma {:induction false} BridgeCyclesSound(
    find: CycleFinder, g: Graph, bridge: map<NodeId, bool>, network: map<NodeId, seq<Interface>>,
    cycle: seq<NodeId>)
    requires FindsCycles(find) && cycle in BridgeCycles(find, g, bridge, network)
    ensures |cycle| >= 2 && AllEnabled(bridge, cycle) && IsCycle(BridgeGraph(g, bridge, network), cycle)
  {
    AtLeastTwoKeeps(find(BridgeGraph(g, bridge, network)));
  }

  // ----- the invariant -----

  ghost predicate RdmaEdgesEnabled(g: Graph, rdmaCtl: map<NodeId, bool>)
  {
    forall c :: c in g.conns && c.edge.Rdma? ==> Enabled(rdmaCtl, c.source) && Enabled(rdmaCtl, c.sink)
  }

  ghost predicate CyclesEnabled(cycles: seq<seq<NodeId>>, bridge: map<NodeId, bool>)
  {
    forall c :: c in cycles ==> AllEnabled(bridge, c)
  }

  /** The maps a timeout clears, other than downloads, only know nodes seen since. */
  ghost predicate KeysSeen(s: Nodes)
  {
    && s.memory.Keys <= s.lastSeen.Keys && s.disk.Keys <= s.lastSeen.Keys && s.system.Keys <= s.lastSeen.Keys
    && s.network.Keys <= s.lastSeen.Keys && s.thunderbolt.Keys <= s.lastSeen.Keys
    && s.bridge.Keys <= s.lastSeen.Keys && s.rdmaCtl.Keys <= s.lastSeen.Keys
    && s.lastSeen.Keys <= s.topology.nodes
  }

  ghost predicate Inv(s: Nodes)
  {
    && s.topology.WellFormed() && KeysSeen(s)
    && RdmaEdgesEnabled(s.topology, s.rdmaCtl) && CyclesEnabled(s.bridgeCycles, s.bridge)
  }

  /** Workers announce socket edges only (src/exo/worker/main.py:398-411), and tasks
      are created under their own id (src/exo/worker/main.py:221). */
  ghost predicate Admissible(b: Body)
  {
    && (b.EdgeCreated? ==> b.conn.edge.Socket?)
    && (b.TaskCreated? ==> b.taskId == b.task.id)
  }

  lemma {:induction false} RdmaConnectionsAllowed(n: NodeId, links: seq<TbLink>, s: Nodes)
    ensures forall c :: c in RdmaConnections(n, links, s) ==>
              && c.edge.Rdma? && c.source == n && c.sink in s.thunderbolt
              && Enabled(s.rdmaCtl, n) && Enabled(s.rdmaCtl, c.sink)
  {
    if links != [] {
      RdmaConnectionsAllowed(n, links[..|links| - 1], s);
    }
  }

  lemma {:induction false} TimeoutKeepsInv(find: CycleFinder, n: NodeId, s: Nodes)
    requires FindsCycles(find) && Inv(s)
    ensures Inv(WithoutNode(find, n, s))
  {
    var t := WithoutNode(find, n, s);
    forall c | c in t.bridgeCycles ensures AllEnabled(t.bridge, c) {
      if Enabled(s.bridge, n) {
        BridgeCyclesSound(find, t.topology, t.bridge, t.network, c);
      } else {
        assert AllEnabled(s.bridge, c);
      }
    }
  }

  lemma {:induction false} BridgeKeepsInv(find: CycleFinder, n: NodeId, when: int, on: bool, s: Nodes)
    requires FindsCycles(find) && Inv(s)
    ensures Inv(WithInfo(find, n, when, ThunderboltBridge(on), s))
  {
    var t := WithInfo(find, n, when, ThunderboltBridge(on), s);
    forall c | c in t.bridgeCycles ensures AllEnabled(t.bridge, c) {
      if Enabled(s.bridge, n) != on {
        BridgeCyclesSound(find, t.topology, t.bridge, t.network, c);
      } else {
        assert AllEnabled(s.bridge, c);
      }
    }
  }

  lemma {:induction false} ConnectionsKeepInv(find: CycleFinder, n: NodeId, when: int, links: seq<TbLink>, s: Nodes)
    requires Inv(s)
    ensures Inv(WithInfo(find, n, when, ThunderboltConnections(links), s))
  {
    var base := s.topology.AddNode(n).DropOutRdma(n);
    RdmaConnectionsAllowed(n, links, s);
    AddedConnections(base, RdmaConnections(n, links, s));
    var t := WithInfo(find, n, when, ThunderboltConnections(links), s);
    assert t.topology == base.AddConnections(RdmaConnections(n, links, s));
  }

  lemma {:induction false} GatheredKeepsInv(find: CycleFinder, n: NodeId, when: int, info: Info, s: Nodes)
    requires FindsCycles(find) && Inv(s)
    ensures Inv(WithInfo(find, n, when, info, s))
  {
    match info
    case ThunderboltBridge(on) => BridgeKeepsInv(find, n, when, on, s);
    case ThunderboltConnections(links) => ConnectionsKeepInv(find, n, when, links, s);
    case RdmaCtl(on) => RdmaCtlKeepsInv(find, n, when, on, s);
    case _ => ReadingsKeepInv(find, n, when, info, s);
  }

  lemma {:induction false} RdmaCtlKeepsInv(find: CycleFinder, n: NodeId, when: int, on: bool, s: Nodes)
    requires Inv(s)
    ensures Inv(WithInfo(find, n, when, RdmaCtl(on), s))
  {
  }

  lemma {:induction false} ReadingsKeepInv(find: CycleFinder, n: NodeId, when: int, info: Info, s: Nodes)
    requires Inv(s) && !info.ThunderboltBridge? && !info.ThunderboltConnections? && !info.RdmaCtl?
    ensures Inv(WithInfo(find, n, when, info, s))
  {
  }

  lemma {:induction false} EdgesKeepInv(c: Connection, s: Nodes)
    requires Inv(s)
    ensures Inv(s.(topology := s.topology.RemoveConnection(c)))
    ensures c.edge.Socket? ==> Inv(s.(topology := s.topology.AddConnection(c)))
  {
  }

  /** Every other body leaves the nodes alone. */
  predicate AboutNodes(b: Body)
  {
    b.NodeTimedOut? || b.DownloadProgress? || b.GatheredInfo? || b.EdgeCreated? || b.EdgeDeleted?
  }

  lemma {:induction false} OthersLeaveNodes(find: CycleFinder, when: int, b: Body, s: Nodes)
    requires !AboutNodes(b)
    ensures ApplyToNodes(find, when, b, s) == s
  {
  }

  lemma {:induction false} EventKeepsInv(find: CycleFinder, when: int, b: Body, s: Nodes)
    requires FindsCycles(find) && Inv(s) && Admissible(b)
    ensures Inv(ApplyToNodes(find, when, b, s))
  {
    match b
    case NodeTimedOut(n) => TimeoutKeepsInv(find, n, s);
    case GatheredInfo(n, info) => GatheredKeepsInv(find, n, when, info, s);
    case DownloadProgress(d) => assert Inv(WithDownload(d, s));
    case EdgeCreated(c) => EdgesKeepInv(c, s);
    case EdgeDeleted(c) => EdgesKeepInv(c, s);
    case _ => OthersLeaveNodes(find, when, b, s);
  }

  ghost function ReducerOf(find: CycleFinder): Replication.Reducer<Body, State>
  {
    Replication.Reducer((e: Event<Body>, s: State) => EventApply(find, e, s), EMPTY_STATE)
  }

  lemma {:induction false} InstanceDeletedKeepsWork(id: InstanceId, w: Work)
    requires WorkOk(w)
    ensures WorkOk(WithoutInstance(id, w))
  {
  }

  lemma {:induction false} RunnerStatusKeepsWork(r: RunnerId, status: RunnerStatus, w: Work)
    requires WorkOk(w)
    ensures WorkOk(WithRunnerStatus(r, status, w))
  {
  }

  lemma {:induction false} TaskUpdatesKeepWork(
    id: TaskId, status: TaskStatus, errorType: nat, errorMessage: nat, w: Work)
    requires WorkOk(w)
    ensures WorkOk(WithTaskStatus(id, status, w)) && WorkOk(WithTaskError(id, errorType, errorMessage, w))
  {
  }

  lemma {:induction false} EventKeepsWork(b: Body, w: Work)
    requires WorkOk(w) && Admissible(b)
    ensures WorkOk(ApplyToWork(b, w))
  {
    match b
    case InstanceDeleted(id) => InstanceDeletedKeepsWork(id, w);
    case RunnerStatusUpdated(r, status) => RunnerStatusKeepsWork(r, status, w);
    case TaskFailed(id, et, em) => TaskUpdatesKeepWork(id, Failed, et, em, w);
    case TaskStatusUpdated(id, status) => TaskUpdatesKeepWork(id, status, 0, 0, w);
    case _ =>
  }

  ghost predicate StateOk(s: State)
  {
    Inv(s.nodes) && WorkOk(s.work)
  }

  lemma {:induction false} FoldKeepsInv(c: Replication.Reducer<Body, State>, es: seq<Event<Body>>)
    requires StateOk(c.init) && forall e: Event<Body>, s: State :: StateOk(s) && Admissible(e.body) ==>
               StateOk(c.step(e, s))
    requires forall i :: 0 <= i < |es| ==> Admissible(es[i].body)
    ensures StateOk(Replication.Fold(c, es))
  {
    if es != [] {
      FoldKeepsInv(c, es[..|es| - 1]);
    }
  }

  /** After every run of admissible events: RDMA edges join enabled nodes, cached
      bridge cycles hold only nodes whose bridge is on, the node maps are within
      `lastSeen`, itself within the topology, and work is kept under its own ids. */
  lemma {:induction false} RunKeepsInv(find: CycleFinder, es: seq<Event<Body>>)
    requires FindsCycles(find) && forall i :: 0 <= i < |es| ==> Admissible(es[i].body)
    ensures StateOk(Replication.Fold(ReducerOf(find), es))
  {
    var c := ReducerOf(find);
    forall e: Event<Body>, s: State | StateOk(s) && Admissible(e.body) ensures StateOk(c.step(e, s)) {
      EventKeepsInv(find, e.time, e.body, s.nodes);
      EventKeepsWork(e.body, s.work);
    }
    FoldKeepsInv(c, es);
  }

  // ----- downloads are the exception -----

  ghost predicate DownloadsSeen(s: Nodes)
  {
    s.downloads.Keys <= s.lastSeen.Keys
  }

  /** Nothing ties a progress report to a node that has been seen. */
  lemma {:induction false} DownloadsCanOutliveNodes(find: CycleFinder)
    ensures var e := Event(0, false, 0, DownloadProgress(Download(7, 0, 0)));
            !DownloadsSeen(Replication.Fold(ReducerOf(find), [e]).nodes)
  {
    var e := Event(0, false, 0, DownloadProgress(Download(7, 0, 0)));
    var c := ReducerOf(find);
    assert [e][..0] == [] && Replication.Fold(c, []) == EMPTY_STATE;
    assert Replication.Fold(c, [e]) == EventApply(find, e, EMPTY_STATE);
    assert 7 in ApplyToNodes(find, e.time, e.body, NO_NODES).downloads;
  }

  /** The report is about a node that has been seen and has not timed out since. */
  ghost predicate ReportsSeenNode(b: Body, s: Nodes)
  {
    b.DownloadProgress? ==> b.download.node in s.lastSeen
  }

  lemma {:induction false} InfoLeavesDownloads(find: CycleFinder, n: NodeId, when: int, info: Info, s: Nodes)
    ensures WithInfo(find, n, when, info, s).downloads == s.downloads
    ensures WithInfo(find, n, when, info, s).lastSeen == s.lastSeen[n := when]
  {
    match info
    case ThunderboltConnections(_) =>
    case ThunderboltBridge(_) =>
    case RdmaCtl(_) =>
    case MacmonMetrics(_, _) =>
    case MemoryUsage(_) =>
    case DiskUsage(_) =>
    case NodeConfig =>
    case MiscData(_) =>
    case StaticInformation(_) =>
    case NetworkInterfaces(_) =>
    case ThunderboltIdentifiers(_) =>
    case Backends(_) =>
  }

  /** One event keeps downloads within `lastSeen` exactly when it reports no progress
      of a node that is not there. */
  lemma {:induction false} DownloadsSeenExactly(find: CycleFinder, when: int, b: Body, s: Nodes)
    requires DownloadsSeen(s)
    ensures DownloadsSeen(ApplyToNodes(find, when, b, s)) <==> ReportsSeenNode(b, s)
  {
    match b
    case GatheredInfo(n, info) => InfoLeavesDownloads(find, n, when, info, s);
    case DownloadProgress(d) => assert d.node in WithDownload(d, s).downloads;
    case NodeTimedOut(n) =>
    case EdgeCreated(c) =>
    case EdgeDeleted(c) =>
    case _ => OthersLeaveNodes(find, when, b, s);
  }

  /** Both sides of the equivalence below, for the first `n` events of a run. */
  ghost predicate SeenAlong(c: Replication.Reducer<Body, State>, es: seq<Event<Body>>, n: nat)
    requires n <= |es|
  {
    forall k :: 0 <= k <= n ==> DownloadsSeen(Replication.Fold(c, es[..k]).nodes)
  }

  ghost predicate ReportedAlong(c: Replication.Reducer<Body, State>, es: seq<Event<Body>>, n: nat)
    requires n <= |es|
  {
    forall k :: 0 <= k < n ==> ReportsSeenNode(es[k].body, Replication.Fold(c, es[..k]).nodes)
  }

  lemma {:induction false} AlongOneMore(c: Replication.Reducer<Body, State>, es: seq<Event<Body>>, n: nat)
    requires n < |es|
    ensures SeenAlong(c, es, n + 1) <==> SeenAlong(c, es, n) && DownloadsSeen(Replication.Fold(c, es[..n + 1]).nodes)
    ensures ReportedAlong(c, es, n + 1)
            <==> ReportedAlong(c, es, n) && ReportsSeenNode(es[n].body, Replication.Fold(c, es[..n]).nodes)
    ensures SeenAlong(c, es, n) ==> DownloadsSeen(Replication.Fold(c, es[..n]).nodes)
    ensures Replication.Fold(c, es[..n + 1]) == c.step(es[n], Replication.Fold(c, es[..n]))
  {
    assert es[..n + 1][..n] == es[..n];
  }

  lemma {:induction false} FoldDownloadsSeen(c: Replication.Reducer<Body, State>, es: seq<Event<Body>>, n: nat)
    requires n <= |es| && DownloadsSeen(c.init.nodes)
    requires forall e: Event<Body>, s: State :: DownloadsSeen(s.nodes) ==>
               (DownloadsSeen(c.step(e, s).nodes) <==> ReportsSeenNode(e.body, s.nodes))
    ensures SeenAlong(c, es, n) <==> ReportedAlong(c, es, n)
  {
    if n == 0 {
      assert es[..0] == [];
    } else {
      FoldDownloadsSeen(c, es, n - 1);
      AlongOneMore(c, es, n - 1);
    }
  }

  /** Downloads stay within `lastSeen` all along a run exactly when every progress
      report of the run is about a node seen at that time. */
  lemma {:induction false} DownloadsSeenAlongRun(find: CycleFinder, es: seq<Event<Body>>)
    ensures SeenAlong(ReducerOf(find), es, |es|) <==> ReportedAlong(ReducerOf(find), es, |es|)
  {
    var c := ReducerOf(find);
    forall e: Event<Body>, s: State | DownloadsSeen(s.nodes)
      ensures DownloadsSeen(c.step(e, s).nodes) <==> ReportsSeenNode(e.body, s.nodes)
    {
      DownloadsSeenExactly(find, e.time, e.body, s.nodes);
    }
    FoldDownloadsSeen(c, es, |es|);
  }
}
