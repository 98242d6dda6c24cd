/** Leader election on one node (src/exo/shared/election.py).

    A campaign is one value: "cancel the running campaign, wait for it, install
    the new one" is a single step, and the campaign's clock is the one at which it
    was scheduled.  Node ids are compared by their order only, so naturals stand
    for them. */
module Election {
  import opened Messages

  datatype Vote = Vote(clock: int, seniority: int, session: SessionId, commandsSeen: nat)

  datatype ElectionResult = ElectionResult(session: SessionId, wonClock: int, isNewMaster: bool)

  /** `ElectionMessage.__lt__`. */
  predicate Less(a: Vote, b: Vote)
  {
    if a.clock != b.clock then a.clock < b.clock
    else if a.seniority != b.seniority then a.seniority < b.seniority
    else if a.commandsSeen != b.commandsSeen then a.commandsSeen < b.commandsSeen
    else a.session.master < b.session.master
  }

  lemma {:induction false} LessIsStrictOrder(a: Vote, b: Vote, c: Vote)
    ensures !Less(a, a)
    ensures Less(a, b) && Less(b, c) ==> Less(a, c)
    ensures !Less(a, b) && !Less(b, c) ==> !Less(a, c)
    ensures a.session.master != b.session.master ==> Less(a, b) || Less(b, a)
  {
  }

  /** The later campaign wins; in one campaign the more senior node, then the one that
      has seen more commands, then the one with the greater id. */
  ghost predicate Prevails(b: Vote, v: Vote)
  {
    && v.clock <= b.clock
    && (v.clock == b.clock ==> v.seniority <= b.seniority)
    && (v.clock == b.clock && v.seniority == b.seniority ==> v.commandsSeen <= b.commandsSeen)
    && (v.clock == b.clock && v.seniority == b.seniority && v.commandsSeen == b.commandsSeen ==>
          v.session.master <= b.session.master)
  }

  ghost predicate PrevailsIn(b: Vote, votes: seq<Vote>)
  {
    b in votes && forall v :: v in votes ==> Prevails(b, v)
  }

  /** `max`: the first of the greatest. */
  function Best(votes: seq<Vote>): Vote
    requires votes != []
  {
    if |votes| == 1 then votes[0]
    else
      var front := Best(votes[..|votes| - 1]);
      if Less(front, votes[|votes| - 1]) then votes[|votes| - 1] else front
  }

  lemma {:induction false} BestIsGreatest(votes: seq<Vote>)
    requires votes != []
    ensures Best(votes) in votes
    ensures forall v :: v in votes ==> !Less(Best(votes), v)
    ensures PrevailsIn(Best(votes), votes)
  {
    if |votes| > 1 {
      var front, last := votes[..|votes| - 1], votes[|votes| - 1];
      BestIsGreatest(front);
      assert votes == front + [last];
      forall v | v in votes ensures !Less(Best(votes), v) {
        if v in front {
          LessIsStrictOrder(Best(votes), Best(front), v);
        }
      }
    }
  }

  /** What one node knows.  `candidates` belongs to the latest campaign;
      `running` is false once that campaign has sent its result. */
  datatype Peer = Peer(
    node: NodeId,
    clock: int,
    seniority: int,
    commandsSeen: nat,
    session: SessionId,
    candidates: seq<Vote>,
    running: bool)
  {
    /** The session a node proposes: the current one if it is its own master. */
    function Proposal(): SessionId
    {
      if session.master == node then session else SessionId(node, clock)
    }

    function Status(): Vote
    {
      Vote(clock, seniority, Proposal(), commandsSeen)
    }

    /** A campaign at a given clock; its own status is the only broadcast. */
    function Campaign(newClock: int, heard: seq<Vote>): Peer
    {
      var p := this.(clock := newClock);
      p.(candidates := heard + [p.Status()], running := true)
    }

    function Receive(v: Vote): Peer
    {
      if v.session.master == node then this
      else if v.clock > clock then Campaign(v.clock, [v])
      else if v.clock < clock then this
      else this.(candidates := candidates + [v])
    }

    function Connect(): Peer
    {
      Campaign(clock + 1, [])
    }

    function Command(): Peer
    {
      this.(commandsSeen := commandsSeen + 1)
    }

    /** The votes broadcast when `this` has just become the peer state after `old`. */
    function Broadcast(before: Peer): set<Vote>
    {
      if clock > before.clock then {Status()} else {}
    }

    function Outcome(): ElectionResult
      requires candidates != []
    {
      var elected := Best(candidates);
      ElectionResult(elected.session, elected.clock, elected.session != session)
    }

    function Finish(): Peer
      requires candidates != []
    {
      var elected := Best(candidates);
      this.(session := elected.session, running := false,
            seniority := if elected.session.master == node && seniority >= 0 && seniority < |candidates|
                         then |candidates| else seniority)
    }
  }

  /** A candidate that wins is from then on at least as senior as the votes it counted;
      nobody else's seniority changes, and no seniority falls. */
  lemma {:induction false} FinishSeniority(p: Peer)
    requires p.candidates != []
    ensures var wins := p.Finish().session.master == p.node && p.seniority >= 0;
            && (wins ==> p.Finish().seniority >= |p.candidates|)
            && (wins ==> p.Finish().seniority == p.seniority || p.Finish().seniority == |p.candidates|)
            && (!wins ==> p.Finish().seniority == p.seniority)
            && p.Finish().seniority >= p.seniority
  {
  }

  function InitialSession(node: NodeId): SessionId
  {
    SessionId(node, 0)
  }

  /** Every node starts as its own master, in a campaign that resolves at once. */
  function Initial(node: NodeId, seniority: int): Peer
  {
    Peer(node, 0, seniority, 0, InitialSession(node), [], false).Campaign(0, [])
  }

  class ElectionService {
    const node: NodeId
    var clock: int
    var seniority: int
    var commandsSeen: nat
    var session: SessionId
    var candidates: seq<Vote>
    var running: bool

    constructor (node: NodeId, seniority: int, isCandidate: bool)
      ensures View() == Initial(node, if isCandidate then seniority else -1)
    {
      this.node := node;
      this.seniority := if isCandidate then seniority else -1;
      clock, commandsSeen, session := 0, 0, SessionId(node, 0);
      candidates := [Vote(0, if isCandidate then seniority else -1, SessionId(node, 0), 0)];
      running := true;
    }

    function View(): Peer
      reads this
    {
      Peer(node, clock, seniority, commandsSeen, session, candidates, running)
    }

    method StartCampaign(newClock: int, heard: seq<Vote>) returns (status: Vote)
      modifies this`clock, this`candidates, this`running
      ensures View() == old(View()).Campaign(newClock, heard) && status == View().Status()
    {
      clock := newClock;
      status := Vote(clock, seniority,
                     if session.master == node then session else SessionId(node, clock), commandsSeen);
      candidates, running := heard + [status], true;
    }

    method Receive(v: Vote) returns (sent: set<Vote>)
      modifies this`clock, this`candidates, this`running
      ensures View() == old(View()).Receive(v) && sent == View().Broadcast(old(View()))
    {
      sent := {};
      if v.session.master == node {
        return;
      }
      if v.clock > clock {
        var status := StartCampaign(v.clock, [v]);
        return {status};
      }
      if v.clock < clock {
        return;
      }
      candidates := candidates + [v];
    }

    method Connect() returns (sent: set<Vote>)
      modifies this`clock, this`candidates, this`running
      ensures View() == old(View()).Connect() && sent == View().Broadcast(old(View()))
    {
      var status := StartCampaign(clock + 1, []);
      sent := {status};
    }

    /** One command has passed by. */
    method CountCommand()
      modifies this`commandsSeen
      ensures View() == old(View()).Command() && commandsSeen == old(commandsSeen) + 1
    {
      commandsSeen := commandsSeen + 1;
    }

    method FinishCampaign() returns (r: ElectionResult)
      requires running && candidates != []
      modifies this`session, this`seniority, this`running
      ensures View() == old(View()).Finish() && r == old(View()).Outcome()
      ensures exists v :: PrevailsIn(v, candidates) && session == v.session && r.session == v.session
                          && r.wonClock == v.clock && r.isNewMaster == (v.session != old(session))
      ensures session.master == node && old(seniority) >= 0 ==>
                && seniority >= old(seniority) && seniority >= |candidates|
                && (seniority == old(seniority) || seniority == |candidates|)
      ensures session.master != node || old(seniority) < 0 ==> seniority == old(seniority)
    {
      var elected := candidates[0];
      for i := 1 to |candidates|
        invariant elected == Best(candidates[..i])
      {
        assert candidates[..i + 1][..i] == candidates[..i];
        if Less(elected, candidates[i]) {
          elected := candidates[i];
        }
      }
      assert candidates[..|candidates|] == candidates;
      BestIsGreatest(candidates);
      if node == elected.session.master && seniority >= 0 {
        seniority := if seniority < |candidates| then |candidates| else seniority;
      }
      r := ElectionResult(elected.session, elected.clock, elected.session != session);
      session, running := elected.session, false;
    }
  }
}
