/** The cluster topology (src/exo/shared/topology.py): a directed multigraph with
    stable vertex and edge indices that leave holes when something is removed, and
    a table from node ids to vertex indices.

    `Graph` is what the topology means; `Topology` is the indexed representation,
    proved against it. */
module Topology {
  import opened Messages

  datatype Edge = Socket(ip: nat, port: nat) | Rdma(sourceIface: nat, sinkIface: nat)

  datatype Connection = Connection(source: NodeId, sink: NodeId, edge: Edge)

  datatype Graph = Graph(nodes: set<NodeId>, conns: set<Connection>) {

    ghost predicate WellFormed()
    {
      forall c :: c in conns ==> c.source in nodes && c.sink in nodes
    }

    function AddNode(n: NodeId): Graph
    {
      this.(nodes := nodes + {n})
    }

    function AddConnection(c: Connection): Graph
    {
      Graph(nodes + {c.source, c.sink}, conns + {c})
    }

    ghost function AddConnections(cs: seq<Connection>): Graph
    {
      if cs == [] then this else AddConnections(cs[..|cs| - 1]).AddConnection(cs[|cs| - 1])
    }

    function RemoveNode(n: NodeId): Graph
    {
      Graph(nodes - {n}, set c | c in conns && c.source != n && c.sink != n)
    }

    function RemoveConnection(c: Connection): Graph
    {
      this.(conns := conns - {c})
    }

    function DropOutRdma(n: NodeId): Graph
    {
      this.(conns := set c | c in conns && !(c.source == n && c.edge.Rdma?))
    }

    function DropRdmaTouching(n: NodeId): Graph
    {
      this.(conns := set c | c in conns && !((c.source == n || c.sink == n) && c.edge.Rdma?))
    }
  }

  const EMPTY_GRAPH := Graph({}, {})

  lemma {:induction false} AddedConnections(g: Graph, cs: seq<Connection>)
    ensures forall c :: c in g.AddConnections(cs).conns <==> c in g.conns || c in cs
    ensures g.nodes <= g.AddConnections(cs).nodes
    ensures forall n :: n in g.AddConnections(cs).nodes ==>
              n in g.nodes || exists c :: c in cs && (c.source == n || c.sink == n)
    ensures g.WellFormed() ==> g.AddConnections(cs).WellFormed()
  {
    if cs != [] {
      AddedConnections(g, cs[..|cs| - 1]);
      assert cs == cs[..|cs| - 1] + [cs[|cs| - 1]];
    }
  }

  /** A snapshot: the nodes, and the edges grouped by source and sink. */
  datatype Snapshot = Snapshot(nodes: seq<NodeId>, connections: map<NodeId, map<NodeId, seq<Edge>>>)

  predicate Holds(m: map<NodeId, map<NodeId, seq<Edge>>>, c: Connection)
  {
    c.source in m && c.sink in m[c.source] && c.edge in m[c.source][c.sink]
  }

  function Put(m: map<NodeId, map<NodeId, seq<Edge>>>, c: Connection): map<NodeId, map<NodeId, seq<Edge>>>
  {
    var row := if c.source in m then m[c.source] else map[];
    var cell := if c.sink in row then row[c.sink] else [];
    m[c.source := row[c.sink := cell + [c.edge]]]
  }

  lemma {:induction false} PutHolds(m: map<NodeId, map<NodeId, seq<Edge>>>, c: Connection, d: Connection)
    ensures Holds(Put(m, c), d) <==> Holds(m, d) || d == c
  {
    var row := if c.source in m then m[c.source] else map[];
    var cell := if c.sink in row then row[c.sink] else [];
    assert forall e :: e in cell + [c.edge] <==> e in cell || e == c.edge;
  }

  /** Some index is always free. */
  lemma {:induction false} FreeIndex(used: set<nat>) returns (i: nat)
    ensures i !in used
    decreases |used|
  {
    i := 0;
    var below: set<nat> := {};
    while i in used
      invariant below <= used && forall k: nat :: k in below <==> k < i
      decreases |used - below|
    {
      assert used - (below + {i}) == (used - below) - {i};
      below, i := below + {i}, i + 1;
    }
  }

  class Topology {
    /** The graph library's vertices and edges, by index. */
    var vertices: map<nat, NodeId>
    var edges: map<nat, (nat, nat, Edge)>
    /** `_vertex_indices`. */
    var indices: map<NodeId, nat>

    /** The table is a bijection onto the live vertices, edges join live vertices, and
        no connection is stored twice. */
    ghost predicate Valid()
      reads this
    {
      && (forall n :: n in indices ==> indices[n] in vertices && vertices[indices[n]] == n)
      && (forall v :: v in vertices ==> vertices[v] in indices && indices[vertices[v]] == v)
      && (forall e :: e in edges ==> edges[e].0 in vertices && edges[e].1 in vertices)
      && (forall e, f :: e in edges && f in edges && edges[e] == edges[f] ==> e == f)
    }

    ghost function Conn(e: nat): Connection
      requires Valid() && e in edges
      reads this
    {
      Connection(vertices[edges[e].0], vertices[edges[e].1], edges[e].2)
    }

    ghost function Abs(): Graph
      requires Valid()
      reads this
    {
      Graph(indices.Keys, set e | e in edges :: Conn(e))
    }

    constructor ()
      ensures Valid() && Abs() == EMPTY_GRAPH
    {
      vertices, edges, indices := map[], map[], map[];
    }

    /** The library may reuse any index that is free. */
    method AddNode(n: NodeId)
      requires Valid()
      modifies this`vertices, this`indices
      ensures Valid() && Abs() == old(Abs()).AddNode(n)
      ensures edges == old(edges) && forall k :: k in old(indices) ==> k in indices && indices[k] == old(indices[k])
    {
      if n in indices {
        return;
      }
      ghost var free := FreeIndex(vertices.Keys);
      var v: nat :| v !in vertices;
      vertices, indices := vertices[v := n], indices[n := v];
      assert forall e :: e in edges ==> Conn(e) == old(Conn(e));
    }

    method HasConnection(c: Connection) returns (found: bool)
      requires Valid()
      ensures found <==> c in Abs().conns
    {
      if c.source !in indices || c.sink !in indices {
        return false;
      }
      found := exists e :: e in edges && edges[e] == (indices[c.source], indices[c.sink], c.edge);
      if e :| e in edges && edges[e] == (indices[c.source], indices[c.sink], c.edge) {
        assert Conn(e) == c;
      }
    }

    method AddConnection(c: Connection)
      requires Valid()
      modifies this
      ensures Valid() && Abs() == old(Abs()).AddConnection(c)
    {
      var known := HasConnection(c);
      if known {
        return;
      }
      AddNode(c.source);
      AddNode(c.sink);
      StoreEdge(c);
    }

    method StoreEdge(c: Connection)
      requires Valid() && c.source in indices && c.sink in indices && c !in Abs().conns
      modifies this`edges
      ensures Valid() && Abs() == old(Abs()).(conns := old(Abs()).conns + {c})
    {
      ghost var free := FreeIndex(edges.Keys);
      var e: nat :| e !in edges;
      ghost var before := Abs();
      forall f | f in edges ensures edges[f] != (indices[c.source], indices[c.sink], c.edge) {
        assert Conn(f) in before.conns;
      }
      edges := edges[e := (indices[c.source], indices[c.sink], c.edge)];
      assert Conn(e) == c;
      assert forall f :: f in old(edges) ==> Conn(f) == old(Conn(f));
    }

    /** Removing edges by index removes exactly their connections. */
    method RemoveEdges(doomed: set<nat>)
      requires Valid()
      modifies this`edges
      ensures Valid() && Abs().nodes == old(Abs()).nodes
      ensures Abs().conns == set e | e in old(edges) && e !in doomed :: old(Conn(e))
      ensures edges == old(edges) - doomed
    {
      edges := edges - doomed;
      assert forall e :: e in edges ==> Conn(e) == old(Conn(e));
      assert forall e :: e in old(edges) && e !in doomed ==> e in edges;
    }

    method RemoveNode(n: NodeId)
      requires Valid()
      modifies this
      ensures Valid() && Abs() == old(Abs()).RemoveNode(n)
      ensures forall k :: k in Abs().nodes <==> k in old(Abs()).nodes && k != n
      ensures forall d :: d in Abs().conns <==> d in old(Abs()).conns && d.source != n && d.sink != n
    {
      if n !in indices {
        assert forall e :: e in edges ==> Conn(e).source != n && Conn(e).sink != n;
        return;
      }
      var v := indices[n];
      RemoveEdges(set e | e in edges && (edges[e].0 == v || edges[e].1 == v));
      assert forall e :: e in edges ==> Conn(e) == old(Conn(e));
      DropVertex(n);
    }

    method DropVertex(n: NodeId)
      requires Valid() && n in indices
      requires forall e :: e in edges ==> edges[e].0 != indices[n] && edges[e].1 != indices[n]
      modifies this`vertices, this`indices
      ensures Valid() && Abs() == old(Abs()).(nodes := old(Abs()).nodes - {n})
    {
      vertices, indices := vertices - {indices[n]}, indices - {n};
      assert forall e :: e in edges ==> Conn(e) == old(Conn(e));
    }

    method RemoveConnection(c: Connection)
      requires Valid()
      modifies this`edges
      ensures Valid() && Abs() == old(Abs()).RemoveConnection(c) && Abs().nodes == old(Abs()).nodes
      ensures forall d :: d in Abs().conns <==> d in old(Abs()).conns && d != c
    {
      if c.source !in indices || c.sink !in indices {
        assert forall e :: e in edges ==> Conn(e) != c;
        return;
      }
      var key := (indices[c.source], indices[c.sink], c.edge);
      assert forall e :: e in edges ==> (edges[e] == key <==> Conn(e) == c);
      RemoveEdges(set e | e in edges && edges[e] == key);
    }

    method RemoveAllRdmaConnectionsTouching(n: NodeId)
      requires Valid()
      modifies this`edges
      ensures Valid() && Abs() == old(Abs()).DropRdmaTouching(n) && Abs().nodes == old(Abs()).nodes
      ensures forall d :: d in Abs().conns <==>
                d in old(Abs()).conns && (d.edge.Socket? || (d.source != n && d.sink != n))
    {
      if n !in indices {
        assert forall e :: e in edges ==> Conn(e).source != n && Conn(e).sink != n;
        return;
      }
      var v := indices[n];
      assert forall e :: e in edges ==>
               (edges[e].0 == v <==> Conn(e).source == n) && (edges[e].1 == v <==> Conn(e).sink == n);
      RemoveEdges(set e | e in edges && (edges[e].0 == v || edges[e].1 == v) && edges[e].2.Rdma?);
    }

    /** The source must be present: the code looks it up without a default. */
    method ReplaceAllOutRdmaConnections(source: NodeId, conns: seq<Connection>)
      requires Valid() && source in indices
      modifies this
      ensures Valid() && Abs() == old(Abs()).DropOutRdma(source).AddConnections(conns)
      ensures forall d :: d in Abs().conns <==>
                d in conns || (d in old(Abs()).conns && (d.edge.Socket? || d.source != source))
    {
      var v := indices[source];
      assert forall e :: e in edges ==> (edges[e].0 == v <==> Conn(e).source == source);
      RemoveEdges(set e | e in edges && edges[e].0 == v && edges[e].2.Rdma?);
      assert Abs() == old(Abs()).DropOutRdma(source);
      AddedConnections(Abs(), conns);
      AddAll(conns);
    }

    method AddAll(conns: seq<Connection>)
      requires Valid()
      modifies this
      ensures Valid() && Abs() == old(Abs()).AddConnections(conns)
    {
      for i := 0 to |conns|
        invariant Valid() && Abs() == old(Abs()).AddConnections(conns[..i])
      {
        AddConnection(conns[i]);
        assert conns[..i + 1][..i] == conns[..i];
      }
      assert conns[..|conns|] == conns;
    }

    // ----- snapshots -----

    method MapConnections() returns (base: map<NodeId, map<NodeId, seq<Edge>>>)
      requires Valid()
      ensures forall c :: Holds(base, c) <==> c in Abs().conns
    {
      base := map[];
      var todo := edges.Keys;
      while todo != {}
        invariant todo <= edges.Keys
        invariant forall c :: Holds(base, c) <==> exists e :: e in edges && e !in todo && Conn(e) == c
        decreases |todo|
      {
        var e :| e in todo;
        var c := Connection(vertices[edges[e].0], vertices[edges[e].1], edges[e].2);
        ghost var before := base;
        base := Put(base, c);
        forall d ensures Holds(base, d) <==> Holds(before, d) || d == c {
          PutHolds(before, c, d);
        }
        todo := todo - {e};
      }
    }

    method ListNodes() returns (nodes: seq<NodeId>)
      requires Valid()
      ensures forall n :: n in nodes <==> n in Abs().nodes
    {
      nodes := [];
      var todo := vertices.Keys;
      while todo != {}
        invariant todo <= vertices.Keys
        invariant forall n :: n in nodes <==> exists v :: v in vertices && v !in todo && vertices[v] == n
        decreases |todo|
      {
        var v :| v in todo;
        nodes, todo := nodes + [vertices[v]], todo - {v};
      }
    }

    method ToSnapshot() returns (s: Snapshot)
      requires Valid()
      ensures forall n :: n in s.nodes <==> n in Abs().nodes
      ensures forall c :: Holds(s.connections, c) <==> c in Abs().conns
    {
      var nodes := ListNodes();
      var base := MapConnections();
      s := Snapshot(nodes, base);
    }

    method AddNodes(nodes: seq<NodeId>)
      requires Valid()
      modifies this
      ensures Valid() && Abs() == old(Abs()).(nodes := old(Abs()).nodes + set n | n in nodes)
    {
      for i := 0 to |nodes|
        invariant Valid() && Abs() == old(Abs()).(nodes := old(Abs()).nodes + set n | n in nodes[..i])
      {
        AddNode(nodes[i]);
        assert nodes[..i + 1] == nodes[..i] + [nodes[i]];
      }
      assert nodes[..|nodes|] == nodes;
    }

    /** All the connections of one source and sink. */
    method AddCell(source: NodeId, sink: NodeId, cell: seq<Edge>)
      requires Valid()
      modifies this
      ensures Valid()
      ensures forall c :: c in Abs().conns <==>
                c in old(Abs()).conns || (c.source == source && c.sink == sink && c.edge in cell)
      ensures old(Abs()).nodes <= Abs().nodes <= old(Abs()).nodes + {source, sink}
      ensures cell == [] ==> Abs() == old(Abs())
    {
      for i := 0 to |cell|
        invariant Valid()
        invariant forall c :: c in Abs().conns <==>
                    c in old(Abs()).conns || (c.source == source && c.sink == sink && c.edge in cell[..i])
        invariant old(Abs()).nodes <= Abs().nodes <= old(Abs()).nodes + {source, sink}
        invariant i == 0 ==> Abs() == old(Abs())
      {
        AddConnection(Connection(source, sink, cell[i]));
        assert cell[..i + 1] == cell[..i] + [cell[i]];
      }
      assert cell[..|cell|] == cell;
    }

    method AddRow(source: NodeId, row: map<NodeId, seq<Edge>>)
      requires Valid()
      modifies this
      ensures Valid() && old(Abs()).nodes <= Abs().nodes
      ensures forall c :: c in Abs().conns <==> c in old(Abs()).conns || Holds(map[source := row], c)
      ensures forall n :: n in Abs().nodes ==> n in old(Abs()).nodes || Touches(map[source := row], n)
    {
      var todo := row.Keys;
      while todo != {}
        invariant Valid() && todo <= row.Keys && old(Abs()).nodes <= Abs().nodes
        invariant forall c :: c in Abs().conns <==>
                    c in old(Abs()).conns || (Holds(map[source := row], c) && c.sink !in todo)
        invariant forall n :: n in Abs().nodes ==> n in old(Abs()).nodes || Touches(map[source := row], n)
        decreases |todo|
      {
        var sink :| sink in todo;
        ghost var nodes := Abs().nodes;
        AddCell(source, sink, row[sink]);
        if row[sink] != [] {
          assert Holds(map[source := row], Connection(source, sink, row[sink][0]));
        }
        todo := todo - {sink};
      }
    }

    method AddSnapshotConnections(m: map<NodeId, map<NodeId, seq<Edge>>>)
      requires Valid()
      modifies this
      ensures Valid() && old(Abs()).nodes <= Abs().nodes
      ensures forall c :: c in Abs().conns <==> c in old(Abs()).conns || Holds(m, c)
      ensures forall n :: n in Abs().nodes ==> n in old(Abs()).nodes || Touches(m, n)
    {
      var todo := m.Keys;
      while todo != {}
        invariant Valid() && todo <= m.Keys && old(Abs()).nodes <= Abs().nodes
        invariant forall c :: c in Abs().conns <==> c in old(Abs()).conns || (Holds(m, c) && c.source !in todo)
        invariant forall n :: n in Abs().nodes ==> n in old(Abs()).nodes || Touches(m, n)
        decreases |todo|
      {
        var source :| source in todo;
        ghost var nodes := Abs().nodes;
        AddRow(source, m[source]);
        forall n | n in Abs().nodes && n !in nodes ensures Touches(m, n) {
          var c :| Holds(map[source := m[source]], c) && (c.source == n || c.sink == n);
          assert Holds(m, c);
        }
        todo := todo - {source};
      }
    }
  }

  /** Some held connection has this node at an end. */
  ghost predicate Touches(m: map<NodeId, map<NodeId, seq<Edge>>>, n: NodeId)
  {
    exists c :: Holds(m, c) && (c.source == n || c.sink == n)
  }

  lemma {:induction false} TouchedIsLive(t: Topology, m: map<NodeId, map<NodeId, seq<Edge>>>, n: NodeId)
    requires t.Valid() && (forall c :: Holds(m, c) ==> c in t.Abs().conns) && Touches(m, n)
    ensures n in t.Abs().nodes
  {
    var c :| Holds(m, c) && (c.source == n || c.sink == n);
    var e :| e in t.edges && t.Conn(e) == c;
  }

  /** `from_snapshot`, whatever the snapshot. */
  method FromSnapshot(s: Snapshot) returns (t: Topology)
    ensures fresh(t) && t.Valid()
    ensures forall c :: c in t.Abs().conns <==> Holds(s.connections, c)
    ensures forall n :: n in t.Abs().nodes <==> n in s.nodes || Touches(s.connections, n)
  {
    t := new Topology();
    t.AddNodes(s.nodes);
    t.AddSnapshotConnections(s.connections);
    forall n | Touches(s.connections, n) ensures n in t.Abs().nodes {
      TouchedIsLive(t, s.connections, n);
    }
  }

  /** Rebuilding from a snapshot gives the same nodes and connections, whatever holes
      removals have left in the indices. */
  method SnapshotRoundTrip(t: Topology) returns (rebuilt: Topology)
    requires t.Valid()
    ensures fresh(rebuilt) && rebuilt.Valid() && rebuilt.Abs() == t.Abs()
  {
    var s := t.ToSnapshot();
    rebuilt := FromSnapshot(s);
    forall n | Touches(s.connections, n) ensures n in t.Abs().nodes {
      TouchedIsLive(t, s.connections, n);
    }
  }
}
