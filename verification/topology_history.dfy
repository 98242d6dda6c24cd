/** Which nodes and connections the replicated topology holds after a run of events, and
    what each report does to RDMA edges and bridge cycles (src/exo/shared/apply.py:288-483). */
module TopologyHistory {
  import opened Common
  import opened Messages
  import opened Topology
  import opened Reducer
  import opened ReducerInvariants
  import opened ReducerHistory
  import Replication

  ghost function There(present: bool): Option<()>
  {
    if present then Some(()) else None
  }

  // ----- socket connections -----

  /** Created, deleted, or lost with one of its ends. */
  function ConnectionEffect(c: Connection, b: Body): Effect<()>
  {
    match b
    case EdgeCreated(d) => if d == c then Set(()) else Keep
    case EdgeDeleted(d) => if d == c then Clear else Keep
    case NodeTimedOut(n) => if n == c.source || n == c.sink then Clear else Keep
    case _ => Keep
  }

  lemma {:induction false} InfoLeavesSockets(
    find: CycleFinder, n: NodeId, when: int, info: Info, s: Nodes, c: Connection)
    requires c.edge.Socket?
    ensures c in WithInfo(find, n, when, info, s).topology.conns <==> c in s.topology.conns
  {
    match info
    case ThunderboltConnections(links) =>
      RdmaConnectionsAllowed(n, links, s);
      AddedConnections(s.topology.AddNode(n).DropOutRdma(n), RdmaConnections(n, links, s));
    case RdmaCtl(_) =>
    case _ => OtherInfoLeavesConnections(find, n, when, info, s);
  }

  lemma {:induction false} OtherInfoLeavesConnections(find: CycleFinder, n: NodeId, when: int, info: Info, s: Nodes)
    requires !info.ThunderboltConnections? && !info.RdmaCtl?
    ensures WithInfo(find, n, when, info, s).topology == s.topology.AddNode(n)
  {
  }

  lemma {:induction false} ConnectionStep(find: CycleFinder, when: int, b: Body, s: Nodes, c: Connection)
    requires !b.GatheredInfo?
    ensures There(c in ApplyToNodes(find, when, b, s).topology.conns)
            == After(There(c in s.topology.conns), ConnectionEffect(c, b))
  {
    if b.NodeTimedOut? {
      NodeGone(find, when, b.node, s);
    } else {
      NoReport(find, when, b, s);
    }
  }

  lemma {:induction false} SocketStep(find: CycleFinder, when: int, b: Body, s: Nodes, c: Connection)
    requires c.edge.Socket?
    ensures There(c in ApplyToNodes(find, when, b, s).topology.conns)
            == After(There(c in s.topology.conns), ConnectionEffect(c, b))
  {
    if b.GatheredInfo? {
      InfoLeavesSockets(find, b.node, when, b.info, s, c);
    } else {
      ConnectionStep(find, when, b, s, c);
    }
  }

  function ConnectionEffects(c: Connection): Event<Body> -> Effect<()>
  {
    (e: Event<Body>) => ConnectionEffect(c, e.body)
  }

  lemma {:induction false} SocketFold(find: CycleFinder, es: seq<Event<Body>>, c: Connection)
    requires c.edge.Socket?
    ensures There(c in Replication.Fold(ReducerOf(find), es).nodes.topology.conns) == Last(es, ConnectionEffects(c))
  {
    var r := ReducerOf(find);
    var get := (s: State) => There(c in s.nodes.topology.conns);
    forall e: Event<Body>, s: State ensures get(r.step(e, s)) == After(get(s), ConnectionEffects(c)(e)) {
      SocketStep(find, e.time, e.body, s.nodes, c);
    }
    FoldsToLastAlways(r, get, ConnectionEffects(c), es);
  }

  /** After every run a socket connection is in the topology exactly when its last creation
      comes after its last deletion and after the last timeout of either end. */
  lemma {:induction false} SocketHistory(find: CycleFinder, es: seq<Event<Body>>, c: Connection)
    requires c.edge.Socket?
    ensures c in Replication.Fold(ReducerOf(find), es).nodes.topology.conns <==> SetLast(es, ConnectionEffects(c), ())
  {
    SocketFold(find, es, c);
    LastIsLatestSet(es, ConnectionEffects(c), ());
  }

  // ----- nodes -----

  /** Heard of, as the subject of a report or the end of a connection, or timed out. */
  function NodeEffect(n: NodeId, b: Body): Effect<()>
  {
    match b
    case GatheredInfo(m, _) => if m == n then Set(()) else Keep
    case EdgeCreated(c) => if n == c.source || n == c.sink then Set(()) else Keep
    case NodeTimedOut(m) => if m == n then Clear else Keep
    case _ => Keep
  }

  lemma {:induction false} InfoAddsNode(find: CycleFinder, m: NodeId, when: int, info: Info, s: Nodes)
    requires Inv(s)
    ensures WithInfo(find, m, when, info, s).topology.nodes == s.topology.nodes + {m}
  {
    match info
    case ThunderboltConnections(links) =>
      RdmaConnectionsAllowed(m, links, s);
      AddedConnections(s.topology.AddNode(m).DropOutRdma(m), RdmaConnections(m, links, s));
    case RdmaCtl(_) =>
    case _ => OtherInfoLeavesConnections(find, m, when, info, s);
  }

  lemma {:induction false} NodeStep(find: CycleFinder, when: int, b: Body, s: Nodes, n: NodeId)
    requires Inv(s)
    ensures There(n in ApplyToNodes(find, when, b, s).topology.nodes)
            == After(There(n in s.topology.nodes), NodeEffect(n, b))
  {
    if b.GatheredInfo? {
      InfoAddsNode(find, b.node, when, b.info, s);
    } else if b.NodeTimedOut? {
      NodeGone(find, when, b.node, s);
    } else {
      NoReport(find, when, b, s);
    }
  }

  function NodeEffects(n: NodeId): Event<Body> -> Effect<()>
  {
    (e: Event<Body>) => NodeEffect(n, e.body)
  }

  /** After every run of admissible events a node is in the topology exactly when it has
      been heard of since its last timeout. */
  lemma {:induction false} NodeHistory(find: CycleFinder, es: seq<Event<Body>>, n: NodeId)
    requires FindsCycles(find) && forall i :: 0 <= i < |es| ==> Admissible(es[i].body)
    ensures n in Replication.Fold(ReducerOf(find), es).nodes.topology.nodes <==> SetLast(es, NodeEffects(n), ())
  {
    var r := ReducerOf(find);
    var effect := NodeEffects(n);
    var ok, allowed := (s: State) => Inv(s.nodes), (e: Event<Body>) => Admissible(e.body);
    forall e: Event<Body>, s: State | ok(s) && allowed(e)
      ensures ok(r.step(e, s))
      ensures There(n in r.step(e, s).nodes.topology.nodes) == After(There(n in s.nodes.topology.nodes), effect(e))
    {
      EventKeepsInv(find, e.time, e.body, s.nodes);
      NodeStep(find, e.time, e.body, s.nodes, n);
    }
    FoldsToLast(r, ok, allowed, (s: State) => There(n in s.nodes.topology.nodes), effect, es);
    LastIsLatestSet(es, effect, ());
  }

  // ----- RDMA connections -----

  /** The connection a thunderbolt link of `n` stands for: from the interface that announced
      its source uuid to the node and interface that announced its sink uuid, both enabled. */
  ghost predicate LinkMakes(s: Nodes, n: NodeId, link: TbLink, c: Connection)
  {
    exists a, b, from, to ::
      && Owns(s.thunderbolt, link.sourceUuid, a, from) && Owns(s.thunderbolt, link.sinkUuid, b, to)
      && Enabled(s.rdmaCtl, n) && Enabled(s.rdmaCtl, b) && c == Connection(n, b, Rdma(from, to))
  }

  ghost predicate SomeLinkMakes(s: Nodes, n: NodeId, links: seq<TbLink>, c: Connection)
  {
    exists k :: 0 <= k < |links| && LinkMakes(s, n, links[k], c)
  }

  /** No uuid is announced twice. */
  ghost predicate UniqueUuids(thunderbolt: map<NodeId, seq<TbIdentifier>>)
  {
    forall uuid, a, from, b, to ::
      Owns(thunderbolt, uuid, a, from) && Owns(thunderbolt, uuid, b, to) ==> a == b && from == to
  }

  lemma {:induction false} OnlyOwner(thunderbolt: map<NodeId, seq<TbIdentifier>>, uuid: nat, n: NodeId, iface: nat)
    requires UniqueUuids(thunderbolt) && Owns(thunderbolt, uuid, n, iface)
    ensures Owner(thunderbolt, uuid) == Some((n, iface))
  {
    var o := Owner(thunderbolt, uuid);
    assert o.Some? && Owns(thunderbolt, uuid, o.value.0, o.value.1);
  }

  lemma {:induction false} OneLink(s: Nodes, n: NodeId, link: TbLink, c: Connection)
    ensures var from, to := Owner(s.thunderbolt, link.sourceUuid), Owner(s.thunderbolt, link.sinkUuid);
            var made := && from.Some? && to.Some? && Enabled(s.rdmaCtl, n) && Enabled(s.rdmaCtl, to.value.0)
                        && c == Connection(n, to.value.0, Rdma(from.value.1, to.value.1));
            (made ==> LinkMakes(s, n, link, c)) && (UniqueUuids(s.thunderbolt) && LinkMakes(s, n, link, c) ==> made)
  {
    if UniqueUuids(s.thunderbolt) && LinkMakes(s, n, link, c) {
      var a, b, from, to :|
        && Owns(s.thunderbolt, link.sourceUuid, a, from) && Owns(s.thunderbolt, link.sinkUuid, b, to)
        && Enabled(s.rdmaCtl, n) && Enabled(s.rdmaCtl, b) && c == Connection(n, b, Rdma(from, to));
      OnlyOwner(s.thunderbolt, link.sourceUuid, a, from);
      OnlyOwner(s.thunderbolt, link.sinkUuid, b, to);
    }
  }

  lemma {:induction false} RdmaConnectionsExactly(n: NodeId, links: seq<TbLink>, s: Nodes, c: Connection)
    ensures c in RdmaConnections(n, links, s) ==> SomeLinkMakes(s, n, links, c)
    ensures UniqueUuids(s.thunderbolt) ==> (c in RdmaConnections(n, links, s) <==> SomeLinkMakes(s, n, links, c))
  {
    if links != [] {
      var last := |links| - 1;
      var front := links[..last];
      RdmaConnectionsExactly(n, front, s, c);
      OneLink(s, n, links[last], c);
      if SomeLinkMakes(s, n, front, c) {
        var k :| 0 <= k < |front| && LinkMakes(s, n, front[k], c);
        assert LinkMakes(s, n, links[k], c);
      }
      if SomeLinkMakes(s, n, links, c) {
        var k :| 0 <= k < |links| && LinkMakes(s, n, links[k], c);
        assert k < last ==> LinkMakes(s, n, front[k], c);
      }
    }
  }

  /** After a report of thunderbolt links, the outgoing RDMA edges of its node come from
      these links, source interface first, and are all of theirs when no uuid is announced
      twice; every other connection is as it was. */
  lemma {:induction false} LinksReplaceRdma(
    find: CycleFinder, n: NodeId, when: int, links: seq<TbLink>, s: Nodes, c: Connection)
    ensures var t := WithInfo(find, n, when, ThunderboltConnections(links), s);
            && (c.edge.Rdma? && c.source == n && c in t.topology.conns ==> SomeLinkMakes(s, n, links, c))
            && (c.edge.Rdma? && c.source == n && UniqueUuids(s.thunderbolt) ==>
                  (c in t.topology.conns <==> SomeLinkMakes(s, n, links, c)))
            && (!(c.edge.Rdma? && c.source == n) ==> (c in t.topology.conns <==> c in s.topology.conns))
  {
    RdmaConnectionsAllowed(n, links, s);
    AddedConnections(s.topology.AddNode(n).DropOutRdma(n), RdmaConnections(n, links, s));
    RdmaConnectionsExactly(n, links, s, c);
  }

  /** What an event does to an RDMA connection, in the state it meets. */
  ghost function RdmaEffect(c: Connection, b: Body, s: Nodes): Effect<()>
  {
    match b
    case GatheredInfo(n, ThunderboltConnections(links)) =>
      if n != c.source then Keep else if SomeLinkMakes(s, n, links, c) then Set(()) else Clear
    case GatheredInfo(n, RdmaCtl(on)) => if !on && (n == c.source || n == c.sink) then Clear else Keep
    case _ => ConnectionEffect(c, b)
  }

  /** An RDMA connection comes with a report of its source's links, and goes with the next
      that lacks it, with `rdma_ctl` or the timeout of either end, or when deleted. */
  lemma {:induction false} RdmaStep(find: CycleFinder, when: int, b: Body, s: Nodes, c: Connection)
    requires c.edge.Rdma? && UniqueUuids(s.thunderbolt)
    ensures There(c in ApplyToNodes(find, when, b, s).topology.conns)
            == After(There(c in s.topology.conns), RdmaEffect(c, b, s))
  {
    if b.GatheredInfo? {
      RdmaInfo(find, b.node, when, b.info, s, c);
    } else {
      ConnectionStep(find, when, b, s, c);
    }
  }

  lemma {:induction false} RdmaInfo(find: CycleFinder, n: NodeId, when: int, info: Info, s: Nodes, c: Connection)
    requires c.edge.Rdma? && UniqueUuids(s.thunderbolt)
    ensures There(c in WithInfo(find, n, when, info, s).topology.conns)
            == After(There(c in s.topology.conns), RdmaEffect(c, GatheredInfo(n, info), s))
  {
    match info
    case ThunderboltConnections(links) => LinksReplaceRdma(find, n, when, links, s, c);
    case RdmaCtl(_) =>
    case _ => OtherInfoLeavesConnections(find, n, when, info, s);
  }

  // ----- bridge cycles -----

  /** The bridge graph: enabled nodes of the topology, and between them the RDMA edges and
      the sockets whose address is that of a thunderbolt interface of an enabled node. */
  lemma {:induction false} BridgeGraphExactly(
    g: Graph, bridge: map<NodeId, bool>, network: map<NodeId, seq<Interface>>, n: NodeId, c: Connection)
    ensures n in BridgeGraph(g, bridge, network).nodes <==> n in g.nodes && n in bridge && bridge[n]
    ensures c in BridgeGraph(g, bridge, network).conns <==>
            && c in g.conns && c.source in g.nodes && c.sink in g.nodes
            && c.source in bridge && bridge[c.source] && c.sink in bridge && bridge[c.sink]
            && (|| c.edge.Rdma?
                || exists m :: m in bridge && bridge[m] && m in network && Interface(c.edge.ip, true) in network[m])
  {
    var on := EnabledNodes(bridge);
    if c.edge.Socket?
       && exists m :: m in bridge && bridge[m] && m in network && Interface(c.edge.ip, true) in network[m] {
      var m :| m in bridge && bridge[m] && m in network && Interface(c.edge.ip, true) in network[m];
      assert m in on;
    }
  }

  /** These are the cycles of at least two nodes of that graph, if two nodes are enabled. */
  ghost predicate AreBridgeCycles(
    find: CycleFinder, cycles: seq<seq<NodeId>>, g: Graph, bridge: map<NodeId, bool>,
    network: map<NodeId, seq<Interface>>)
  {
    forall cycle :: cycle in cycles <==>
      |set n | n in bridge && bridge[n]| >= 2 && cycle in find(BridgeGraph(g, bridge, network)) && |cycle| >= 2
  }

  lemma {:induction false} BridgeCyclesExactly(
    find: CycleFinder, g: Graph, bridge: map<NodeId, bool>, network: map<NodeId, seq<Interface>>)
    ensures AreBridgeCycles(find, BridgeCycles(find, g, bridge, network), g, bridge, network)
  {
    AtLeastTwoKeeps(find(BridgeGraph(g, bridge, network)));
    assert EnabledNodes(bridge) == set n | n in bridge && bridge[n];
  }

  /** The event changes whether some node has its bridge on. */
  predicate TurnsBridge(b: Body, s: Nodes)
  {
    match b
    case NodeTimedOut(n) => n in s.bridge && s.bridge[n]
    case GatheredInfo(n, ThunderboltBridge(on)) => on != (n in s.bridge && s.bridge[n])
    case _ => false
  }

  lemma {:induction false} InfoTurnsBridge(find: CycleFinder, n: NodeId, when: int, info: Info, s: Nodes)
    ensures var t := WithInfo(find, n, when, info, s);
            if TurnsBridge(GatheredInfo(n, info), s)
            then AreBridgeCycles(find, t.bridgeCycles, t.topology, t.bridge, t.network)
            else t.bridgeCycles == s.bridgeCycles
  {
    match info
    case ThunderboltBridge(on) => BridgeCyclesExactly(find, s.topology.AddNode(n), s.bridge[n := on], s.network);
    case MacmonMetrics(_, _) =>
    case MemoryUsage(_) =>
    case DiskUsage(_) =>
    case NodeConfig =>
    case MiscData(_) =>
    case StaticInformation(_) =>
    case NetworkInterfaces(_) =>
    case ThunderboltIdentifiers(_) =>
    case ThunderboltConnections(_) =>
    case RdmaCtl(_) =>
    case Backends(_) =>
  }

  lemma {:induction false} TimeoutTurnsBridge(find: CycleFinder, n: NodeId, s: Nodes)
    ensures var t := WithoutNode(find, n, s);
            if n in s.bridge && s.bridge[n] then AreBridgeCycles(find, t.bridgeCycles, t.topology, t.bridge, t.network)
            else t.bridgeCycles == s.bridgeCycles
  {
    WithoutNodeLoses(find, n, s);
    BridgeCyclesExactly(find, s.topology.RemoveNode(n), s.bridge - {n}, s.network - {n});
  }

  /** The cached cycles are computed afresh, from the new topology, exactly when an event
      turns some node's bridge on or off, and kept otherwise. */
  lemma {:induction false} CyclesRecomputedExactly(find: CycleFinder, when: int, b: Body, s: Nodes)
    ensures var t := ApplyToNodes(find, when, b, s);
            if TurnsBridge(b, s) then AreBridgeCycles(find, t.bridgeCycles, t.topology, t.bridge, t.network)
            else t.bridgeCycles == s.bridgeCycles
  {
    if b.GatheredInfo? {
      InfoTurnsBridge(find, b.node, when, b.info, s);
    } else if b.NodeTimedOut? {
      TimeoutTurnsBridge(find, b.node, s);
    } else {
      NoReport(find, when, b, s);
    }
  }
}
