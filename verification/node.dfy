/** What a node does with each election result (`Node._elect_loop`,
    src/exo/main.py): it keeps, replaces or drops its master and its event router. */
module Node {
  import opened Common
  import opened Messages
  import opened Election

  /** The sessions of the hosted master, if any, and of the event router. */
  datatype Host = Host(master: Option<SessionId>, router: SessionId)

  function InitialHost(node: NodeId): Host
  {
    Host(Some(InitialSession(node)), InitialSession(node))
  }

  function Process(node: NodeId, h: Host, r: ElectionResult): Host
  {
    Host(if r.session.master != node then None
         else if h.master.Some? then h.master else Some(r.session),
         if r.isNewMaster then r.session else h.router)
  }

  class NodeService {
    const node: NodeId
    var master: Option<SessionId>
    var router: SessionId

    constructor (node: NodeId)
      ensures View() == InitialHost(node) && this.node == node
    {
      this.node := node;
      master, router := Some(SessionId(node, 0)), SessionId(node, 0);
    }

    function View(): Host
      reads this
    {
      Host(master, router)
    }

    method HandleResult(r: ElectionResult)
      modifies this
      ensures View() == Process(node, old(View()), r)
    {
      if r.isNewMaster {
        router := r.session;
      }
      if r.session.master == node && master.Some? {
      } else if r.session.master == node && master.None? {
        master := Some(r.session);
      } else if r.session.master != node && master.Some? {
        master := None;
      }
    }
  }

  // ----- histories of results -----

  ghost function Current(node: NodeId, history: seq<ElectionResult>): SessionId
  {
    if history == [] then InitialSession(node) else history[|history| - 1].session
  }

  ghost function LastClock(history: seq<ElectionResult>): int
  {
    if history == [] then -1 else history[|history| - 1].wonClock
  }

  /** What one node's election may emit after `history`. */
  ghost predicate MayFollow(node: NodeId, history: seq<ElectionResult>, r: ElectionResult)
  {
    && r.isNewMaster == (r.session != Current(node, history))
    && r.wonClock > LastClock(history)
    && (r.session.master == node ==>
          if Current(node, history).master == node then r.session == Current(node, history)
          else r.session.electionClock == r.wonClock)
  }

  ghost predicate Coherent(node: NodeId, history: seq<ElectionResult>)
  {
    history == [] ||
    (Coherent(node, history[..|history| - 1]) && MayFollow(node, history[..|history| - 1], history[|history| - 1]))
  }

  ghost function HostAfter(node: NodeId, history: seq<ElectionResult>): Host
  {
    if history == [] then InitialHost(node)
    else Process(node, HostAfter(node, history[..|history| - 1]), history[|history| - 1])
  }

  /** After any coherent history the node hosts a master exactly when the last
      result names it, and that master and the router carry the elected session. */
  lemma {:induction false} HostCarriesCurrentSession(node: NodeId, history: seq<ElectionResult>)
    requires Coherent(node, history)
    ensures HostAfter(node, history).master
         == if Current(node, history).master == node then Some(Current(node, history)) else None
    ensures HostAfter(node, history).router == Current(node, history)
  {
    if history != [] {
      HostCarriesCurrentSession(node, history[..|history| - 1]);
    }
  }

  /** "A new session while an old master is live here" cannot come next. */
  lemma {:induction false} LiveMasterNeverReplaced(node: NodeId, history: seq<ElectionResult>, r: ElectionResult)
    requires Coherent(node, history) && MayFollow(node, history, r)
    ensures r.session.master == node && HostAfter(node, history).master.Some?
        ==> HostAfter(node, history).master.value == r.session && !r.isNewMaster
  {
    HostCarriesCurrentSession(node, history);
  }

  lemma {:induction false} OwnSessionsBounded(node: NodeId, history: seq<ElectionResult>, i: nat)
    requires Coherent(node, history) && i < |history|
    ensures history[i].wonClock <= LastClock(history)
    ensures history[i].session.master == node ==> history[i].session.electionClock <= history[i].wonClock
    ensures && Current(node, history).master == node && history[i].session.master == node
            && history[i].session != Current(node, history)
            ==> history[i].wonClock < Current(node, history).electionClock
  {
    var n := |history| - 1;
    var front := history[..n];
    assert MayFollow(node, front, history[n]);
    if i < n {
      assert front[i] == history[i];
      OwnSessionsBounded(node, front, i);
    } else if n > 0 {
      assert front[n - 1] == history[n - 1];
      OwnSessionsBounded(node, front, n - 1);
    }
  }

  /** The sessions a node mints for itself have strictly increasing clocks. */
  lemma {:induction false} MintedClocksIncrease(node: NodeId, history: seq<ElectionResult>, i: nat, j: nat)
    requires Coherent(node, history) && i < j < |history|
    requires history[i].session.master == node && history[j].session.master == node
    requires history[i].session != history[j].session
    ensures history[i].session.electionClock < history[j].session.electionClock
  {
    if j == |history| - 1 {
      OwnSessionsBounded(node, history, i);
    } else {
      MintedClocksIncrease(node, history[..|history| - 1], i, j);
    }
  }
}
