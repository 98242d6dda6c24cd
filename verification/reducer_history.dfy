/** What the replicated state says about the past: after every run of events each field
    is what the last event about it reported, and a connection is there exactly when it
    was announced and not withdrawn since (src/exo/shared/apply.py). */
module ReducerHistory {
  import opened Common
  import opened Messages
  import opened Topology
  import opened Reducer
  import opened ReducerInvariants
  import Replication

  // ----- the last word on a value -----

  /** What one event says about a value: nothing, that it is gone, what it is, or what it
      is if it is there at all. */
  datatype Effect<V> = Keep | Clear | Set(value: V) | Replace(value: V)

  function After<V>(was: Option<V>, effect: Effect<V>): Option<V>
  {
    match effect
    case Keep => was
    case Clear => None
    case Set(v) => Some(v)
    case Replace(v) => if was.Some? then Some(v) else None
  }

  ghost function Last<V>(es: seq<Event<Body>>, effect: Event<Body> -> Effect<V>): Option<V>
  {
    if es == [] then None else After(Last(es[..|es| - 1], effect), effect(es[|es| - 1]))
  }

  /** The `k`-th event sets the value and no later one says anything about it. */
  ghost predicate LatestSet<V>(es: seq<Event<Body>>, effect: Event<Body> -> Effect<V>, k: nat, v: V)
  {
    k < |es| && effect(es[k]) == Set(v) && forall j :: k < j < |es| ==> effect(es[j]).Keep?
  }

  ghost predicate SetLast<V>(es: seq<Event<Body>>, effect: Event<Body> -> Effect<V>, v: V)
  {
    exists k: nat :: LatestSet(es, effect, k, v)
  }

  /** Where events only set and clear, the value is the one set last and not cleared since;
      there is none exactly when there is no such event. */
  lemma {:induction false} LastIsLatestSet<V(!new)>(es: seq<Event<Body>>, effect: Event<Body> -> Effect<V>, v: V)
    requires forall k :: 0 <= k < |es| ==> !effect(es[k]).Replace?
    ensures Last(es, effect) == Some(v) <==> SetLast(es, effect, v)
  {
    if es != [] {
      var n := |es| - 1;
      var front := es[..n];
      LastIsLatestSet(front, effect, v);
      match effect(es[n])
      case Keep =>
        forall k: nat ensures LatestSet(front, effect, k, v) <==> LatestSet(es, effect, k, v) {
          assert forall j :: 0 <= j < n ==> front[j] == es[j];
        }
      case Set(w) =>
        assert LatestSet(es, effect, n, w);
        assert forall k: nat :: LatestSet(es, effect, k, v) ==> k == n;
      case Clear =>
        assert forall k: nat :: !LatestSet(es, effect, k, v);
    }
  }

  /** A component that every event changes as `effect` says ends as `effect` says. */
  lemma {:induction false} FoldsToLast<V>(
    c: Replication.Reducer<Body, State>, ok: State -> bool, allowed: Event<Body> -> bool,
    get: State -> Option<V>, effect: Event<Body> -> Effect<V>, es: seq<Event<Body>>)
    requires ok(c.init) && get(c.init) == None
    requires forall e: Event<Body>, s: State :: ok(s) && allowed(e) ==>
               ok(c.step(e, s)) && get(c.step(e, s)) == After(get(s), effect(e))
    requires forall i :: 0 <= i < |es| ==> allowed(es[i])
    ensures ok(Replication.Fold(c, es)) && get(Replication.Fold(c, es)) == Last(es, effect)
  {
    if es != [] {
      FoldsToLast(c, ok, allowed, get, effect, es[..|es| - 1]);
    }
  }

  lemma {:induction false} FoldsToLastAlways<V>(
    c: Replication.Reducer<Body, State>, get: State -> Option<V>, effect: Event<Body> -> Effect<V>,
    es: seq<Event<Body>>)
    requires get(c.init) == None
    requires forall e: Event<Body>, s: State :: get(c.step(e, s)) == After(get(s), effect(e))
    ensures get(Replication.Fold(c, es)) == Last(es, effect)
  {
    FoldsToLast(c, s => true, e => true, get, effect, es);
  }

  function Get<K, V>(m: map<K, V>, k: K): Option<V>
  {
    if k in m then Some(m[k]) else None
  }

  // ----- timeouts, and events that are neither timeouts nor reports -----

  /** All maps but those of identities and backends lose a node that times out. */
  ghost predicate Loses(s: Nodes, n: NodeId, t: Nodes)
  {
    && t.lastSeen == s.lastSeen - {n} && t.memory == s.memory - {n} && t.disk == s.disk - {n}
    && t.system == s.system - {n} && t.network == s.network - {n} && t.thunderbolt == s.thunderbolt - {n}
    && t.bridge == s.bridge - {n} && t.rdmaCtl == s.rdmaCtl - {n} && t.downloads == s.downloads - {n}
    && t.topology == s.topology.RemoveNode(n) && t.identities == s.identities && t.backends == s.backends
  }

  lemma {:induction false} WithoutNodeLoses(find: CycleFinder, n: NodeId, s: Nodes)
    ensures Loses(s, n, WithoutNode(find, n, s))
  {
  }

  lemma {:induction false} NodeGone(find: CycleFinder, when: int, n: NodeId, s: Nodes)
    ensures Loses(s, n, ApplyToNodes(find, when, NodeTimedOut(n), s))
  {
    WithoutNodeLoses(find, n, s);
  }

  lemma {:induction false} NoReport(find: CycleFinder, when: int, b: Body, s: Nodes)
    requires !b.GatheredInfo? && !b.NodeTimedOut?
    ensures var t := ApplyToNodes(find, when, b, s); t == s.(topology := t.topology, downloads := t.downloads)
    ensures !b.DownloadProgress? ==> ApplyToNodes(find, when, b, s).downloads == s.downloads
    ensures ApplyToNodes(find, when, b, s).topology
            == if b.EdgeCreated? then s.topology.AddConnection(b.conn)
               else if b.EdgeDeleted? then s.topology.RemoveConnection(b.conn) else s.topology
  {
  }

  // ----- the maps of the nodes -----

  /** Any report of the node is a sign of life at the time the master indexed it. */
  function SeenEffect(n: NodeId, when: int, b: Body): Effect<int>
  {
    match b
    case NodeTimedOut(m) => if m == n then Clear else Keep
    case GatheredInfo(m, _) => if m == n then Set(when) else Keep
    case _ => Keep
  }

  lemma {:induction false} SeenStep(find: CycleFinder, when: int, b: Body, s: Nodes, n: NodeId)
    ensures Get(ApplyToNodes(find, when, b, s).lastSeen, n) == After(Get(s.lastSeen, n), SeenEffect(n, when, b))
  {
    if b.GatheredInfo? {
      InfoLeavesDownloads(find, b.node, when, b.info, s);
    } else if b.NodeTimedOut? {
      NodeGone(find, when, b.node, s);
    } else {
      NoReport(find, when, b, s);
    }
  }

  /** `last_seen[n]` is the time of the last report of `n` since its last timeout. */
  lemma {:induction false} SeenHistory(find: CycleFinder, es: seq<Event<Body>>, n: NodeId)
    ensures Get(Replication.Fold(ReducerOf(find), es).nodes.lastSeen, n)
            == Last(es, (e: Event<Body>) => SeenEffect(n, e.time, e.body))
  {
    var c := ReducerOf(find);
    forall e: Event<Body>, s: State
      ensures Get(c.step(e, s).nodes.lastSeen, n) == After(Get(s.nodes.lastSeen, n), SeenEffect(n, e.time, e.body))
    {
      SeenStep(find, e.time, e.body, s.nodes, n);
    }
    FoldsToLastAlways(c, (s: State) => Get(s.nodes.lastSeen, n), (e: Event<Body>) => SeenEffect(n, e.time, e.body), es);
  }

  function MemoryEffect(n: NodeId, b: Body): Effect<nat>
  {
    match b
    case NodeTimedOut(m) => if m == n then Clear else Keep
    case GatheredInfo(m, info) =>
      if m != n then Keep
      else (match info
            case MacmonMetrics(_, v) => Set(v)
            case MemoryUsage(v) => Set(v)
            case _ => Keep)
    case _ => Keep
  }

  lemma {:induction false} MemoryInfo(find: CycleFinder, m: NodeId, when: int, info: Info, s: Nodes, n: NodeId)
    ensures Get(WithInfo(find, m, when, info, s).memory, n)
            == After(Get(s.memory, n), MemoryEffect(n, GatheredInfo(m, info)))
  {
    match info
    case MacmonMetrics(_, _) =>
    case MemoryUsage(_) =>
    case DiskUsage(_) =>
    case NodeConfig =>
    case MiscData(_) =>
    case StaticInformation(_) =>
    case NetworkInterfaces(_) =>
    case ThunderboltIdentifiers(_) =>
    case ThunderboltConnections(_) =>
    case ThunderboltBridge(_) =>
    case RdmaCtl(_) =>
    case Backends(_) =>
  }

  lemma {:induction false} MemoryStep(find: CycleFinder, when: int, b: Body, s: Nodes, n: NodeId)
    ensures Get(ApplyToNodes(find, when, b, s).memory, n) == After(Get(s.memory, n), MemoryEffect(n, b))
  {
    if b.GatheredInfo? {
      MemoryInfo(find, b.node, when, b.info, s, n);
    } else if b.NodeTimedOut? {
      NodeGone(find, when, b.node, s);
    } else {
      NoReport(find, when, b, s);
    }
  }

  lemma {:induction false} MemoryHistory(find: CycleFinder, es: seq<Event<Body>>, n: NodeId)
    ensures Get(Replication.Fold(ReducerOf(find), es).nodes.memory, n)
            == Last(es, (e: Event<Body>) => MemoryEffect(n, e.body))
  {
    var c := ReducerOf(find);
    forall e: Event<Body>, s: State
      ensures Get(c.step(e, s).nodes.memory, n) == After(Get(s.nodes.memory, n), MemoryEffect(n, e.body))
    {
      MemoryStep(find, e.time, e.body, s.nodes, n);
    }
    FoldsToLastAlways(c, (s: State) => Get(s.nodes.memory, n), (e: Event<Body>) => MemoryEffect(n, e.body), es);
  }

  function SystemEffect(n: NodeId, b: Body): Effect<nat>
  {
    match b
    case NodeTimedOut(m) => if m == n then Clear else Keep
    case GatheredInfo(m, info) =>
      if m != n then Keep
      else (match info
            case MacmonMetrics(v, _) => Set(v)
            case _ => Keep)
    case _ => Keep
  }

  lemma {:induction false} SystemInfo(find: CycleFinder, m: NodeId, when: int, info: Info, s: Nodes, n: NodeId)
    ensures Get(WithInfo(find, m, when, info, s).system, n)
            == After(Get(s.system, n), SystemEffect(n, GatheredInfo(m, info)))
  {
    match info
    case MacmonMetrics(_, _) =>
    case MemoryUsage(_) =>
    case DiskUsage(_) =>
    case NodeConfig =>
    case MiscData(_) =>
    case StaticInformation(_) =>
    case NetworkInterfaces(_) =>
    case ThunderboltIdentifiers(_) =>
    case ThunderboltConnections(_) =>
    case ThunderboltBridge(_) =>
    case RdmaCtl(_) =>
    case Backends(_) =>
  }

  lemma {:induction false} SystemStep(find: CycleFinder, when: int, b: Body, s: Nodes, n: NodeId)
    ensures Get(ApplyToNodes(find, when, b, s).system, n) == After(Get(s.system, n), SystemEffect(n, b))
  {
    if b.GatheredInfo? {
      SystemInfo(find, b.node, when, b.info, s, n);
    } else if b.NodeTimedOut? {
      NodeGone(find, when, b.node, s);
    } else {
      NoReport(find, when, b, s);
    }
  }

  lemma {:induction false} SystemHistory(find: CycleFinder, es: seq<Event<Body>>, n: NodeId)
    ensures Get(Replication.Fold(ReducerOf(find), es).nodes.system, n)
            == Last(es, (e: Event<Body>) => SystemEffect(n, e.body))
  {
    var c := ReducerOf(find);
    forall e: Event<Body>, s: State
      ensures Get(c.step(e, s).nodes.system, n) == After(Get(s.nodes.system, n), SystemEffect(n, e.body))
    {
      SystemStep(find, e.time, e.body, s.nodes, n);
    }
    FoldsToLastAlways(c, (s: State) => Get(s.nodes.system, n), (e: Event<Body>) => SystemEffect(n, e.body), es);
  }

  function DiskEffect(n: NodeId, b: Body): Effect<nat>
  {
    match b
    case NodeTimedOut(m) => if m == n then Clear else Keep
    case GatheredInfo(m, info) =>
      if m != n then Keep
      else (match info
            case DiskUsage(v) => Set(v)
            case _ => Keep)
    case _ => Keep
  }

  lemma {:induction false} DiskInfo(find: CycleFinder, m: NodeId, when: int, info: Info, s: Nodes, n: NodeId)
    ensures Get(WithInfo(find, m, when, info, s).disk, n)
            == After(Get(s.disk, n), DiskEffect(n, GatheredInfo(m, info)))
  {
    match info
    case MacmonMetrics(_, _) =>
    case MemoryUsage(_) =>
    case DiskUsage(_) =>
    case NodeConfig =>
    case MiscData(_) =>
    case StaticInformation(_) =>
    case NetworkInterfaces(_) =>
    case ThunderboltIdentifiers(_) =>
    case ThunderboltConnections(_) =>
    case ThunderboltBridge(_) =>
    case RdmaCtl(_) =>
    case Backends(_) =>
  }

  lemma {:induction false} DiskStep(find: CycleFinder, when: int, b: Body, s: Nodes, n: NodeId)
    ensures Get(ApplyToNodes(find, when, b, s).disk, n) == After(Get(s.disk, n), DiskEffect(n, b))
  {
    if b.GatheredInfo? {
      DiskInfo(find, b.node, when, b.info, s, n);
    } else if b.NodeTimedOut? {
      NodeGone(find, when, b.node, s);
    } else {
      NoReport(find, when, b, s);
    }
  }

  lemma {:induction false} DiskHistory(find: CycleFinder, es: seq<Event<Body>>, n: NodeId)
    ensures Get(Replication.Fold(ReducerOf(find), es).nodes.disk, n)
            == Last(es, (e: Event<Body>) => DiskEffect(n, e.body))
  {
    var c := ReducerOf(find);
    forall e: Event<Body>, s: State
      ensures Get(c.step(e, s).nodes.disk, n) == After(Get(s.nodes.disk, n), DiskEffect(n, e.body))
    {
      DiskStep(find, e.time, e.body, s.nodes, n);
    }
    FoldsToLastAlways(c, (s: State) => Get(s.nodes.disk, n), (e: Event<Body>) => DiskEffect(n, e.body), es);
  }

  function NetworkEffect(n: NodeId, b: Body): Effect<seq<Interface>>
  {
    match b
    case NodeTimedOut(m) => if m == n then Clear else Keep
    case GatheredInfo(m, info) =>
      if m != n then Keep
      else (match info
            case NetworkInterfaces(v) => Set(v)
            case _ => Keep)
    case _ => Keep
  }

  lemma {:induction false} NetworkInfo(find: CycleFinder, m: NodeId, when: int, info: Info, s: Nodes, n: NodeId)
    ensures Get(WithInfo(find, m, when, info, s).network, n)
            == After(Get(s.network, n), NetworkEffect(n, GatheredInfo(m, info)))
  {
    match info
    case MacmonMetrics(_, _) =>
    case MemoryUsage(_) =>
    case DiskUsage(_) =>
    case NodeConfig =>
    case MiscData(_) =>
    case StaticInformation(_) =>
    case NetworkInterfaces(_) =>
    case ThunderboltIdentifiers(_) =>
    case ThunderboltConnections(_) =>
    case ThunderboltBridge(_) =>
    case RdmaCtl(_) =>
    case Backends(_) =>
  }

  lemma {:induction false} NetworkStep(find: CycleFinder, when: int, b: Body, s: Nodes, n: NodeId)
    ensures Get(ApplyToNodes(find, when, b, s).network, n) == After(Get(s.network, n), NetworkEffect(n, b))
  {
    if b.GatheredInfo? {
      NetworkInfo(find, b.node, when, b.info, s, n);
    } else if b.NodeTimedOut? {
      NodeGone(find, when, b.node, s);
    } else {
      NoReport(find, when, b, s);
    }
  }

  lemma {:induction false} NetworkHistory(find: CycleFinder, es: seq<Event<Body>>, n: NodeId)
    ensures Get(Replication.Fold(ReducerOf(find), es).nodes.network, n)
            == Last(es, (e: Event<Body>) => NetworkEffect(n, e.body))
  {
    var c := ReducerOf(find);
    forall e: Event<Body>, s: State
      ensures Get(c.step(e, s).nodes.network, n) == After(Get(s.nodes.network, n), NetworkEffect(n, e.body))
    {
      NetworkStep(find, e.time, e.body, s.nodes, n);
    }
    FoldsToLastAlways(c, (s: State) => Get(s.nodes.network, n), (e: Event<Body>) => NetworkEffect(n, e.body), es);
  }

  function ThunderboltEffect(n: NodeId, b: Body): Effect<seq<TbIdentifier>>
  {
    match b
    case NodeTimedOut(m) => if m == n then Clear else Keep
    case GatheredInfo(m, info) =>
      if m != n then Keep
      else (match info
            case ThunderboltIdentifiers(v) => Set(v)
            case _ => Keep)
    case _ => Keep
  }

  lemma {:induction false} ThunderboltInfo(find: CycleFinder, m: NodeId, when: int, info: Info, s: Nodes, n: NodeId)
    ensures Get(WithInfo(find, m, when, info, s).thunderbolt, n)
            == After(Get(s.thunderbolt, n), ThunderboltEffect(n, GatheredInfo(m, info)))
  {
    match info
    case MacmonMetrics(_, _) =>
    case MemoryUsage(_) =>
    case DiskUsage(_) =>
    case NodeConfig =>
    case MiscData(_) =>
    case StaticInformation(_) =>
    case NetworkInterfaces(_) =>
    case ThunderboltIdentifiers(_) =>
    case ThunderboltConnections(_) =>
    case ThunderboltBridge(_) =>
    case RdmaCtl(_) =>
    case Backends(_) =>
  }

  lemma {:induction false} ThunderboltStep(find: CycleFinder, when: int, b: Body, s: Nodes, n: NodeId)
    ensures Get(ApplyToNodes(find, when, b, s).thunderbolt, n) == After(Get(s.thunderbolt, n), ThunderboltEffect(n, b))
  {
    if b.GatheredInfo? {
      ThunderboltInfo(find, b.node, when, b.info, s, n);
    } else if b.NodeTimedOut? {
      NodeGone(find, when, b.node, s);
    } else {
      NoReport(find, when, b, s);
    }
  }

  lemma {:induction false} ThunderboltHistory(find: CycleFinder, es: seq<Event<Body>>, n: NodeId)
    ensures Get(Replication.Fold(ReducerOf(find), es).nodes.thunderbolt, n)
            == Last(es, (e: Event<Body>) => ThunderboltEffect(n, e.body))
  {
    var c := ReducerOf(find);
    forall e: Event<Body>, s: State
      ensures Get(c.step(e, s).nodes.thunderbolt, n) == After(Get(s.nodes.thunderbolt, n), ThunderboltEffect(n, e.body))
    {
      ThunderboltStep(find, e.time, e.body, s.nodes, n);
    }
    FoldsToLastAlways(
      c, (s: State) => Get(s.nodes.thunderbolt, n), (e: Event<Body>) => ThunderboltEffect(n, e.body), es);
  }

  function BridgeEffect(n: NodeId, b: Body): Effect<bool>
  {
    match b
    case NodeTimedOut(m) => if m == n then Clear else Keep
    case GatheredInfo(m, info) =>
      if m != n then Keep
      else (match info
            case ThunderboltBridge(v) => Set(v)
            case _ => Keep)
    case _ => Keep
  }

  lemma {:induction false} BridgeInfo(find: CycleFinder, m: NodeId, when: int, info: Info, s: Nodes, n: NodeId)
    ensures Get(WithInfo(find, m, when, info, s).bridge, n)
            == After(Get(s.bridge, n), BridgeEffect(n, GatheredInfo(m, info)))
  {
    match info
    case MacmonMetrics(_, _) =>
    case MemoryUsage(_) =>
    case DiskUsage(_) =>
    case NodeConfig =>
    case MiscData(_) =>
    case StaticInformation(_) =>
    case NetworkInterfaces(_) =>
    case ThunderboltIdentifiers(_) =>
    case ThunderboltConnections(_) =>
    case ThunderboltBridge(_) =>
    case RdmaCtl(_) =>
    case Backends(_) =>
  }

  lemma {:induction false} BridgeStep(find: CycleFinder, when: int, b: Body, s: Nodes, n: NodeId)
    ensures Get(ApplyToNodes(find, when, b, s).bridge, n) == After(Get(s.bridge, n), BridgeEffect(n, b))
  {
    if b.GatheredInfo? {
      BridgeInfo(find, b.node, when, b.info, s, n);
    } else if b.NodeTimedOut? {
      NodeGone(find, when, b.node, s);
    } else {
      NoReport(find, when, b, s);
    }
  }

  lemma {:induction false} BridgeHistory(find: CycleFinder, es: seq<Event<Body>>, n: NodeId)
    ensures Get(Replication.Fold(ReducerOf(find), es).nodes.bridge, n)
            == Last(es, (e: Event<Body>) => BridgeEffect(n, e.body))
  {
    var c := ReducerOf(find);
    forall e: Event<Body>, s: State
      ensures Get(c.step(e, s).nodes.bridge, n) == After(Get(s.nodes.bridge, n), BridgeEffect(n, e.body))
    {
      BridgeStep(find, e.time, e.body, s.nodes, n);
    }
    FoldsToLastAlways(c, (s: State) => Get(s.nodes.bridge, n), (e: Event<Body>) => BridgeEffect(n, e.body), es);
  }

  function RdmaCtlEffect(n: NodeId, b: Body): Effect<bool>
  {
    match b
    case NodeTimedOut(m) => if m == n then Clear else Keep
    case GatheredInfo(m, info) =>
      if m != n then Keep
      else (match info
            case RdmaCtl(v) => Set(v)
            case _ => Keep)
    case _ => Keep
  }

  lemma {:induction false} RdmaCtlInfo(find: CycleFinder, m: NodeId, when: int, info: Info, s: Nodes, n: NodeId)
    ensures Get(WithInfo(find, m, when, info, s).rdmaCtl, n)
            == After(Get(s.rdmaCtl, n), RdmaCtlEffect(n, GatheredInfo(m, info)))
  {
    match info
    case MacmonMetrics(_, _) =>
    case MemoryUsage(_) =>
    case DiskUsage(_) =>
    case NodeConfig =>
    case MiscData(_) =>
    case StaticInformation(_) =>
    case NetworkInterfaces(_) =>
    case ThunderboltIdentifiers(_) =>
    case ThunderboltConnections(_) =>
    case ThunderboltBridge(_) =>
    case RdmaCtl(_) =>
    case Backends(_) =>
  }

  lemma {:induction false} RdmaCtlStep(find: CycleFinder, when: int, b: Body, s: Nodes, n: NodeId)
    ensures Get(ApplyToNodes(find, when, b, s).rdmaCtl, n) == After(Get(s.rdmaCtl, n), RdmaCtlEffect(n, b))
  {
    if b.GatheredInfo? {
      RdmaCtlInfo(find, b.node, when, b.info, s, n);
    } else if b.NodeTimedOut? {
      NodeGone(find, when, b.node, s);
    } else {
      NoReport(find, when, b, s);
    }
  }

  lemma {:induction false} RdmaCtlHistory(find: CycleFinder, es: seq<Event<Body>>, n: NodeId)
    ensures Get(Replication.Fold(ReducerOf(find), es).nodes.rdmaCtl, n)
            == Last(es, (e: Event<Body>) => RdmaCtlEffect(n, e.body))
  {
    var c := ReducerOf(find);
    forall e: Event<Body>, s: State
      ensures Get(c.step(e, s).nodes.rdmaCtl, n) == After(Get(s.nodes.rdmaCtl, n), RdmaCtlEffect(n, e.body))
    {
      RdmaCtlStep(find, e.time, e.body, s.nodes, n);
    }
    FoldsToLastAlways(c, (s: State) => Get(s.nodes.rdmaCtl, n), (e: Event<Body>) => RdmaCtlEffect(n, e.body), es);
  }

  function BackendsEffect(n: NodeId, b: Body): Effect<nat>
  {
    match b
    case GatheredInfo(m, info) =>
      if m != n then Keep
      else (match info
            case Backends(v) => Set(v)
            case _ => Keep)
    case _ => Keep
  }

  lemma {:induction false} BackendsInfo(find: CycleFinder, m: NodeId, when: int, info: Info, s: Nodes, n: NodeId)
    ensures Get(WithInfo(find, m, when, info, s).backends, n)
            == After(Get(s.backends, n), BackendsEffect(n, GatheredInfo(m, info)))
  {
    match info
    case MacmonMetrics(_, _) =>
    case MemoryUsage(_) =>
    case DiskUsage(_) =>
    case NodeConfig =>
    case MiscData(_) =>
    case StaticInformation(_) =>
    case NetworkInterfaces(_) =>
    case ThunderboltIdentifiers(_) =>
    case ThunderboltConnections(_) =>
    case ThunderboltBridge(_) =>
    case RdmaCtl(_) =>
    case Backends(_) =>
  }

  lemma {:induction false} BackendsStep(find: CycleFinder, when: int, b: Body, s: Nodes, n: NodeId)
    ensures Get(ApplyToNodes(find, when, b, s).backends, n) == After(Get(s.backends, n), BackendsEffect(n, b))
  {
    if b.GatheredInfo? {
      BackendsInfo(find, b.node, when, b.info, s, n);
    } else if b.NodeTimedOut? {
      NodeGone(find, when, b.node, s);
    } else {
      NoReport(find, when, b, s);
    }
  }

  lemma {:induction false} BackendsHistory(find: CycleFinder, es: seq<Event<Body>>, n: NodeId)
    ensures Get(Replication.Fold(ReducerOf(find), es).nodes.backends, n)
            == Last(es, (e: Event<Body>) => BackendsEffect(n, e.body))
  {
    var c := ReducerOf(find);
    forall e: Event<Body>, s: State
      ensures Get(c.step(e, s).nodes.backends, n) == After(Get(s.nodes.backends, n), BackendsEffect(n, e.body))
    {
      BackendsStep(find, e.time, e.body, s.nodes, n);
    }
    FoldsToLastAlways(c, (s: State) => Get(s.nodes.backends, n), (e: Event<Body>) => BackendsEffect(n, e.body), es);
  }

  // ----- identities, which a timeout leaves -----

  function NameOf(s: Nodes, n: NodeId): Option<nat>
  {
    IdentityOf(s, n).friendlyName
  }

  function HardwareOf(s: Nodes, n: NodeId): Option<nat>
  {
    IdentityOf(s, n).hardware
  }

  function NameEffect(n: NodeId, b: Body): Effect<nat>
  {
    match b
    case GatheredInfo(m, MiscData(name)) => if m == n then Set(name) else Keep
    case _ => Keep
  }

  function HardwareEffect(n: NodeId, b: Body): Effect<nat>
  {
    match b
    case GatheredInfo(m, StaticInformation(hw)) => if m == n then Set(hw) else Keep
    case _ => Keep
  }

  lemma {:induction false} IdentityInfo(find: CycleFinder, m: NodeId, when: int, info: Info, s: Nodes, n: NodeId)
    ensures var t := WithInfo(find, m, when, info, s); var b := GatheredInfo(m, info);
            && NameOf(t, n) == After(NameOf(s, n), NameEffect(n, b))
            && HardwareOf(t, n) == After(HardwareOf(s, n), HardwareEffect(n, b))
  {
    match info
    case MacmonMetrics(_, _) =>
    case MemoryUsage(_) =>
    case DiskUsage(_) =>
    case NodeConfig =>
    case MiscData(_) =>
    case StaticInformation(_) =>
    case NetworkInterfaces(_) =>
    case ThunderboltIdentifiers(_) =>
    case ThunderboltConnections(_) =>
    case ThunderboltBridge(_) =>
    case RdmaCtl(_) =>
    case Backends(_) =>
  }

  lemma {:induction false} IdentityStep(find: CycleFinder, when: int, b: Body, s: Nodes, n: NodeId)
    ensures var t := ApplyToNodes(find, when, b, s);
            && NameOf(t, n) == After(NameOf(s, n), NameEffect(n, b))
            && HardwareOf(t, n) == After(HardwareOf(s, n), HardwareEffect(n, b))
  {
    if b.GatheredInfo? {
      IdentityInfo(find, b.node, when, b.info, s, n);
    } else if b.NodeTimedOut? {
      NodeGone(find, when, b.node, s);
    } else {
      NoReport(find, when, b, s);
    }
  }

  /** A node's name and hardware are what it last reported, timeouts or not. */
  lemma {:induction false} IdentityHistory(find: CycleFinder, es: seq<Event<Body>>, n: NodeId)
    ensures var s := Replication.Fold(ReducerOf(find), es).nodes;
            && NameOf(s, n) == Last(es, (e: Event<Body>) => NameEffect(n, e.body))
            && HardwareOf(s, n) == Last(es, (e: Event<Body>) => HardwareEffect(n, e.body))
  {
    var c := ReducerOf(find);
    forall e: Event<Body>, s: State
      ensures NameOf(c.step(e, s).nodes, n) == After(NameOf(s.nodes, n), NameEffect(n, e.body))
      ensures HardwareOf(c.step(e, s).nodes, n) == After(HardwareOf(s.nodes, n), HardwareEffect(n, e.body))
    {
      IdentityStep(find, e.time, e.body, s.nodes, n);
    }
    FoldsToLastAlways(c, (s: State) => NameOf(s.nodes, n), (e: Event<Body>) => NameEffect(n, e.body), es);
    FoldsToLastAlways(c, (s: State) => HardwareOf(s.nodes, n), (e: Event<Body>) => HardwareEffect(n, e.body), es);
  }

  // ----- downloads -----

  ghost function Entries(s: Nodes, n: NodeId): seq<Download>
  {
    if n in s.downloads then s.downloads[n] else []
  }

  ghost predicate OneEntryPerModel(s: Nodes)
  {
    forall n :: n in s.downloads ==> OnePerModel(s.downloads[n])
  }

  /** The node's entry for a model, if any. */
  ghost function EntryOf(s: Nodes, n: NodeId, model: ModelId): (d: Option<Download>)
    ensures d.Some? ==> d.value in Entries(s, n) && d.value.model == model
    ensures d.None? ==> forall x :: x in Entries(s, n) ==> x.model != model
  {
    if exists x :: x in Entries(s, n) && x.model == model then
      var x :| x in Entries(s, n) && x.model == model;
      Some(x)
    else None
  }

  function DownloadEffect(n: NodeId, model: ModelId, b: Body): Effect<Download>
  {
    match b
    case NodeTimedOut(m) => if m == n then Clear else Keep
    case DownloadProgress(d) => if d.node == n && d.model == model then Set(d) else Keep
    case _ => Keep
  }

  /** Entries are determined by their members where there is one per model. */
  lemma {:induction false} EntryIs(s: Nodes, n: NodeId, model: ModelId, d: Download)
    requires OneEntryPerModel(s) && d in Entries(s, n) && d.model == model
    ensures EntryOf(s, n, model) == Some(d)
  {
    var x := EntryOf(s, n, model).value;
    var i :| 0 <= i < |Entries(s, n)| && Entries(s, n)[i] == d;
    var j :| 0 <= j < |Entries(s, n)| && Entries(s, n)[j] == x;
    assert OnePerModel(Entries(s, n));
    assert i < j || j < i || i == j;
  }

  lemma {:induction false} SameEntries(s: Nodes, t: Nodes, n: NodeId, model: ModelId)
    requires OneEntryPerModel(s) && OneEntryPerModel(t)
    requires forall d: Download :: d.model == model ==> (d in Entries(s, n) <==> d in Entries(t, n))
    ensures EntryOf(s, n, model) == EntryOf(t, n, model)
  {
    if EntryOf(s, n, model).Some? {
      EntryIs(t, n, model, EntryOf(s, n, model).value);
    }
  }

  lemma {:induction false} ReportStep(s: Nodes, d: Download, n: NodeId, model: ModelId)
    requires OneEntryPerModel(s)
    ensures OneEntryPerModel(WithDownload(d, s))
    ensures EntryOf(WithDownload(d, s), n, model)
            == After(EntryOf(s, n, model), DownloadEffect(n, model, DownloadProgress(d)))
  {
    var t := WithDownload(d, s);
    PutDownloadKeepsOnePerModel(Entries(s, d.node), d);
    assert OneEntryPerModel(t);
    if d.node == n && d.model == model {
      EntryIs(t, n, model, d);
    } else {
      SameEntries(s, t, n, model);
    }
  }

  lemma {:induction false} DownloadStep(find: CycleFinder, when: int, b: Body, s: Nodes, n: NodeId, model: ModelId)
    requires OneEntryPerModel(s)
    ensures OneEntryPerModel(ApplyToNodes(find, when, b, s))
    ensures EntryOf(ApplyToNodes(find, when, b, s), n, model)
            == After(EntryOf(s, n, model), DownloadEffect(n, model, b))
  {
    var t := ApplyToNodes(find, when, b, s);
    if b.DownloadProgress? {
      ReportStep(s, b.download, n, model);
    } else if b.NodeTimedOut? {
      NodeGone(find, when, b.node, s);
      if b.node != n {
        SameEntries(s, t, n, model);
      }
    } else {
      if b.GatheredInfo? {
        InfoLeavesDownloads(find, b.node, when, b.info, s);
      } else {
        NoReport(find, when, b, s);
      }
      SameEntries(s, t, n, model);
    }
  }

  /** A node's entry for a model is its last report on it since the node's last timeout. */
  lemma {:induction false} DownloadHistory(find: CycleFinder, es: seq<Event<Body>>, n: NodeId, model: ModelId)
    ensures EntryOf(Replication.Fold(ReducerOf(find), es).nodes, n, model)
            == Last(es, (e: Event<Body>) => DownloadEffect(n, model, e.body))
  {
    var c := ReducerOf(find);
    var ok := (s: State) => OneEntryPerModel(s.nodes);
    forall e: Event<Body>, s: State | ok(s)
      ensures ok(c.step(e, s))
      ensures EntryOf(c.step(e, s).nodes, n, model)
              == After(EntryOf(s.nodes, n, model), DownloadEffect(n, model, e.body))
    {
      DownloadStep(find, e.time, e.body, s.nodes, n, model);
    }
    FoldsToLast(c, ok, e => true, (s: State) => EntryOf(s.nodes, n, model),
                (e: Event<Body>) => DownloadEffect(n, model, e.body), es);
  }
}
