/** All nodes together: every node runs its election over a network that loses,
    duplicates and reorders votes, and handles its own results in order. */
module ElectionCluster {
  import opened Common
  import opened Messages
  import opened Election
  import opened Node

  /** `processed` and then `queued` are all the results a node's election has sent. */
  datatype Member = Member(peer: Peer, processed: seq<ElectionResult>, queued: seq<ElectionResult>, host: Host)

  datatype Envelope = Envelope(sender: NodeId, vote: Vote)

  datatype Cluster = Cluster(members: map<NodeId, Member>, net: set<Envelope>)

  datatype Step =
    | Deliver(node: NodeId, envelope: Envelope)
    | Connection(node: NodeId)
    | Command(node: NodeId)
    | Finish(node: NodeId)
    | Handle(node: NodeId)

  ghost predicate Enabled(s: Cluster, step: Step)
  {
    step.node in s.members &&
    match step
    case Deliver(_, env) => env in s.net
    case Finish(n) => s.members[n].peer.running && s.members[n].peer.candidates != []
    case Handle(n) => s.members[n].queued != []
    case _ => true
  }

  ghost function After(m: Member, step: Step): Member
    requires step.Finish? ==> m.peer.candidates != []
    requires step.Handle? ==> m.queued != []
  {
    match step
    case Deliver(_, env) => m.(peer := m.peer.Receive(env.vote))
    case Connection(_) => m.(peer := m.peer.Connect())
    case Command(_) => m.(peer := m.peer.Command())
    case Finish(_) => m.(peer := m.peer.Finish(), queued := m.queued + [m.peer.Outcome()])
    case Handle(n) => m.(processed := m.processed + [m.queued[0]], queued := m.queued[1..],
                         host := Process(m.peer.node, m.host, m.queued[0]))
  }

  ghost function Do(s: Cluster, step: Step): Cluster
    requires Enabled(s, step)
  {
    var m, m' := s.members[step.node], After(s.members[step.node], step);
    Cluster(s.members[step.node := m'],
            s.net + set v | v in m'.peer.Broadcast(m.peer) :: Envelope(step.node, v))
  }

  ghost predicate Init(s: Cluster)
  {
    && (forall n :: n in s.members ==>
          s.members[n] == Member(Initial(n, s.members[n].peer.seniority), [], [], InitialHost(n)))
    && s.net == set n | n in s.members :: Envelope(n, s.members[n].peer.Status())
  }

  ghost predicate Next(s: Cluster, s': Cluster)
  {
    exists step :: Enabled(s, step) && s' == Do(s, step)
  }

  ghost predicate IsRun(run: seq<Cluster>)
  {
    run != [] &&
    if |run| == 1 then Init(run[0]) else IsRun(run[..|run| - 1]) && Next(run[|run| - 2], run[|run| - 1])
  }

  // ----- invariant -----

  ghost predicate PeerOk(n: NodeId, p: Peer)
  {
    && p.node == n && p.clock >= 0
    && (forall v :: v in p.candidates ==> v.clock == p.clock)
    && (p.running ==>
         && (exists v :: v in p.candidates && v.session.master == n)
         && (forall v :: v in p.candidates && v.session.master == n ==> v.session == p.Proposal()))
  }

  ghost predicate HistoryOk(n: NodeId, m: Member)
  {
    var all := m.processed + m.queued;
    && Coherent(n, all) && Current(n, all) == m.peer.session
    && LastClock(all) <= m.peer.clock && (m.peer.running ==> LastClock(all) < m.peer.clock)
    && m.host == HostAfter(n, m.processed)
  }

  ghost predicate CandidatesSent(p: Peer, net: set<Envelope>)
  {
    forall v :: v in p.candidates ==> Envelope(v.session.master, v) in net
  }

  /** Every broadcast names its sender, and a sender says one thing per clock. */
  ghost predicate NetOk(s: Cluster)
  {
    && (forall env :: env in s.net ==>
          && env.sender in s.members && env.vote.session.master == env.sender
          && env.vote.clock <= s.members[env.sender].peer.clock)
    && (forall a, b :: a in s.net && b in s.net && a.sender == b.sender && a.vote.clock == b.vote.clock ==> a == b)
  }

  ghost predicate MembersOk(s: Cluster)
  {
    forall n :: n in s.members ==>
      PeerOk(n, s.members[n].peer) && HistoryOk(n, s.members[n]) && CandidatesSent(s.members[n].peer, s.net)
  }

  ghost predicate Inv(s: Cluster)
  {
    NetOk(s) && MembersOk(s)
  }

  lemma {:induction false} CampaignOk(n: NodeId, p: Peer, clock: int, heard: seq<Vote>)
    requires PeerOk(n, p) && clock > p.clock
    requires forall v :: v in heard ==> v.clock == clock && v.session.master != n
    ensures PeerOk(n, p.Campaign(clock, heard))
    ensures p.Campaign(clock, heard).Status() in p.Campaign(clock, heard).candidates
  {
    var q := p.Campaign(clock, heard);
    assert q.candidates == heard + [q.Status()];
    assert q.candidates[|heard|] == q.Status();
  }

  lemma {:induction false} ReceiveOk(n: NodeId, p: Peer, v: Vote)
    requires PeerOk(n, p)
    ensures var q := p.Receive(v);
            && PeerOk(n, q) && p.clock <= q.clock
            && (forall w :: w in q.candidates && w !in p.candidates ==> w == v || w in q.Broadcast(p))
  {
    if v.session.master != n && v.clock > p.clock {
      CampaignOk(n, p, v.clock, [v]);
    } else if v.session.master != n && v.clock == p.clock {
      assert p.running ==> exists w :: w in p.candidates + [v] && w.session.master == n;
    }
  }

  /** What a step does to the peer it runs on. */
  lemma {:induction false} PeerStepOk(s: Cluster, step: Step)
    requires Inv(s) && Enabled(s, step)
    ensures var m := s.members[step.node]; var m' := After(m, step);
            && PeerOk(step.node, m'.peer) && m.peer.clock <= m'.peer.clock
            && (forall v :: v in m'.peer.candidates && v !in m.peer.candidates ==>
                  Envelope(v.session.master, v) in s.net || v in m'.peer.Broadcast(m.peer))
  {
    var n, p := step.node, s.members[step.node].peer;
    assert PeerOk(n, p);
    match step
    case Deliver(_, env) => ReceiveOk(n, p, env.vote);
    case Connection(_) => CampaignOk(n, p, p.clock + 1, []);
    case _ =>
  }

  /** The result of a finished campaign may follow the ones before it. */
  lemma {:induction false} FinishOk(n: NodeId, m: Member)
    requires PeerOk(n, m.peer) && HistoryOk(n, m) && m.peer.running && m.peer.candidates != []
    ensures HistoryOk(n, m.(peer := m.peer.Finish(), queued := m.queued + [m.peer.Outcome()]))
  {
    BestIsGreatest(m.peer.candidates);
    var r, all := m.peer.Outcome(), m.processed + m.queued;
    assert MayFollow(n, all, r);
    assert m.processed + (m.queued + [r]) == all + [r];
    assert (all + [r])[..|all|] == all;
  }

  lemma {:induction false} HistoryStepOk(n: NodeId, m: Member, step: Step)
    requires PeerOk(n, m.peer) && HistoryOk(n, m)
    requires step.Finish? ==> m.peer.running && m.peer.candidates != []
    requires step.Handle? ==> m.queued != []
    ensures HistoryOk(n, After(m, step))
  {
    if step.Finish? {
      FinishOk(n, m);
    } else if step.Handle? {
      var m' := After(m, step);
      assert m'.processed + m'.queued == m.processed + m.queued;
      assert m'.processed[..|m.processed|] == m.processed;
    }
  }

  lemma {:induction false} NetStepOk(s: Cluster, step: Step)
    requires Inv(s) && Enabled(s, step)
    ensures NetOk(Do(s, step))
  {
    PeerStepOk(s, step);
    var s' := Do(s, step);
    var m, m' := s.members[step.node], After(s.members[step.node], step);
    assert m'.peer.Status().session.master == step.node;
    assert forall env :: env in s'.net && env !in s.net ==>
      env == Envelope(step.node, m'.peer.Status()) && env.vote.clock > m.peer.clock;
  }

  lemma {:induction false} StepKeepsInv(s: Cluster, step: Step)
    requires Inv(s) && Enabled(s, step)
    ensures Inv(Do(s, step))
  {
    var s' := Do(s, step);
    PeerStepOk(s, step);
    NetStepOk(s, step);
    HistoryStepOk(step.node, s.members[step.node], step);
    forall n | n in s'.members
      ensures PeerOk(n, s'.members[n].peer) && HistoryOk(n, s'.members[n]) && CandidatesSent(s'.members[n].peer, s'.net)
    {
      assert PeerOk(n, s.members[n].peer) && HistoryOk(n, s.members[n]) && CandidatesSent(s.members[n].peer, s.net);
      if n == step.node {
        forall v | v in s'.members[n].peer.candidates ensures Envelope(v.session.master, v) in s'.net {
          assert s'.members[n].peer.Status().session.master == n;
        }
      }
    }
  }

  lemma {:induction false} InitialPeerOk(n: NodeId, seniority: int)
    ensures var p := Initial(n, seniority);
            && PeerOk(n, p) && p.clock == 0 && p.candidates == [p.Status()]
            && p.Status().session.master == n && p.Status().clock == 0
  {
    var p := Initial(n, seniority);
    assert p.candidates == [p.Status()] && p.Status() in p.candidates;
  }

  lemma {:induction false} InitInv(s: Cluster)
    requires Init(s)
    ensures Inv(s)
  {
    forall n | n in s.members
      ensures PeerOk(n, s.members[n].peer) && s.members[n].peer.clock == 0
      ensures s.members[n].peer.candidates == [s.members[n].peer.Status()]
      ensures s.members[n].peer.Status().session.master == n && s.members[n].peer.Status().clock == 0
    {
      InitialPeerOk(n, s.members[n].peer.seniority);
    }
    assert NetOk(s);
  }

  lemma {:induction false} RunKeepsInv(run: seq<Cluster>)
    requires IsRun(run)
    ensures Inv(run[|run| - 1])
  {
    if |run| == 1 {
      InitInv(run[0]);
    } else {
      RunKeepsInv(run[..|run| - 1]);
      var step :| Enabled(run[|run| - 2], step) && run[|run| - 1] == Do(run[|run| - 2], step);
      StepKeepsInv(run[|run| - 2], step);
    }
  }

  // ----- theorems -----

  /** In every run, at every node: a master is hosted exactly when the last handled
      result names the node, and it and the router carry that result's session. */
  lemma {:induction false} SessionCoherence(run: seq<Cluster>, n: NodeId)
    requires IsRun(run) && n in run[|run| - 1].members
    ensures var m := run[|run| - 1].members[n]; var elected := Current(n, m.processed);
            && m.host.router == elected
            && m.host.master == (if elected.master == n then Some(elected) else None)
            && (m.queued != [] && m.queued[0].session.master == n && m.host.master.Some? ==>
                  m.host.master.value == m.queued[0].session)
  {
    RunKeepsInv(run);
    var m := run[|run| - 1].members[n];
    CoherentPrefix(n, m.processed, m.queued);
    HostCarriesCurrentSession(n, m.processed);
    NextMayFollow(n, m.processed, m.queued);
  }

  /** The next result to handle may follow those already handled. */
  lemma {:induction false} NextMayFollow(n: NodeId, processed: seq<ElectionResult>, queued: seq<ElectionResult>)
    requires Coherent(n, processed + queued)
    ensures queued != [] ==> MayFollow(n, processed, queued[0])
  {
    if queued != [] {
      var upto := processed + queued[..1];
      assert processed + queued == upto + queued[1..];
      CoherentPrefix(n, upto, queued[1..]);
      assert upto[..|upto| - 1] == processed;
    }
  }

  lemma {:induction false} CoherentPrefix(n: NodeId, front: seq<ElectionResult>, back: seq<ElectionResult>)
    requires Coherent(n, front + back)
    ensures Coherent(n, front)
    decreases |back|
  {
    if back == [] {
      assert front + back == front;
    } else {
      assert (front + back)[..|front + back| - 1] == front + back[..|back| - 1];
      CoherentPrefix(n, front, back[..|back| - 1]);
    }
  }

  /** In every run, the sessions a node has minted and won have strictly increasing clocks. */
  lemma {:induction false} MintedSessionsIncrease(run: seq<Cluster>, n: NodeId, i: nat, j: nat)
    requires IsRun(run) && n in run[|run| - 1].members
    requires i < j < |run[|run| - 1].members[n].processed + run[|run| - 1].members[n].queued|
    ensures var all := run[|run| - 1].members[n].processed + run[|run| - 1].members[n].queued;
            all[i].session.master == n && all[j].session.master == n && all[i].session != all[j].session
            ==> all[i].session.electionClock < all[j].session.electionClock
  {
    RunKeepsInv(run);
    var all := run[|run| - 1].members[n].processed + run[|run| - 1].members[n].queued;
    if all[i].session.master == n && all[j].session.master == n && all[i].session != all[j].session {
      MintedClocksIncrease(n, all, i, j);
    }
  }

  ghost function VoteSet(votes: seq<Vote>): set<Vote>
  {
    set v | v in votes
  }

  /** Each node of the group, at its own moment of the run, is in a campaign of
      this clock and has heard, in any order and any number of times, exactly the
      same votes, all of them from the group. */
  ghost predicate SameRound(run: seq<Cluster>, moment: map<NodeId, nat>, clock: int, heard: set<Vote>)
  {
    && (forall n :: n in moment ==>
          && moment[n] < |run| && n in run[moment[n]].members
          && run[moment[n]].members[n].peer.running && run[moment[n]].members[n].peer.clock == clock
          && VoteSet(run[moment[n]].members[n].peer.candidates) == heard)
    && (forall v :: v in heard ==> v.session.master in moment)
  }

  lemma {:induction false} InvAt(run: seq<Cluster>, t: nat)
    requires IsRun(run) && t < |run|
    ensures Inv(run[t])
  {
    if t == |run| - 1 {
      RunKeepsInv(run);
    } else {
      InvAt(run[..|run| - 1], t);
    }
  }

  lemma {:induction false} SameVotesSameWinner(a: seq<Vote>, b: seq<Vote>)
    requires a != [] && b != [] && VoteSet(a) == VoteSet(b)
    requires forall v, w :: v in a && w in a && v.session.master == w.session.master ==> v == w
    ensures Best(a) == Best(b)
  {
    BestIsGreatest(a);
    BestIsGreatest(b);
    var x, y := Best(a), Best(b);
    assert x in VoteSet(a) && y in VoteSet(b);
    LessIsStrictOrder(x, y, x);
  }

  /** In every run, nodes that end a round with the same votes elect the same
      session, whose master is exactly one of them: the one whose vote of the round is
      the most senior, ties going to the most commands seen and then to the greater id. */
  lemma {:induction false} Agreement(
    run: seq<Cluster>, moment: map<NodeId, nat>, clock: int, heard: set<Vote>)
    returns (elected: SessionId, winner: Vote)
    requires IsRun(run) && moment != map[] && SameRound(run, moment, clock, heard)
    ensures elected.master in moment
    ensures winner in heard && winner.session == elected
    ensures forall v :: v in heard ==>
              && v.clock == winner.clock && v.seniority <= winner.seniority
              && (v.seniority == winner.seniority ==> v.commandsSeen <= winner.commandsSeen)
              && (v.seniority == winner.seniority && v.commandsSeen == winner.commandsSeen ==>
                    v.session.master <= elected.master)
    ensures forall n :: n in moment ==>
              var p := run[moment[n]].members[n].peer; p.candidates != [] && p.Finish().session == elected
  {
    var n0 :| n0 in moment;
    var p0 := run[moment[n0]].members[n0].peer;
    InvAt(run, moment[n0]);
    assert PeerOk(n0, p0) && CandidatesSent(p0, run[moment[n0]].net);
    BestIsGreatest(p0.candidates);
    assert Best(p0.candidates) in VoteSet(p0.candidates);
    winner := Best(p0.candidates);
    elected := winner.session;
    forall v | v in heard ensures v.clock == winner.clock && Prevails(winner, v) {
      assert v in VoteSet(p0.candidates);
    }
    forall n | n in moment
      ensures var p := run[moment[n]].members[n].peer; p.candidates != [] && p.Finish().session == elected
    {
      InvAt(run, moment[n]);
      var p := run[moment[n]].members[n].peer;
      assert PeerOk(n, p);
      SameVotesSameWinner(p0.candidates, p.candidates);
    }
  }

  // ----- candidates win over nodes that are none -----

  /** A vote promises no more than its sender has, and shows whether it is a candidate. */
  ghost predicate Honest(v: Vote, p: Peer)
  {
    && v.seniority <= p.seniority && v.commandsSeen <= p.commandsSeen
    && (v.seniority >= 0 <==> p.seniority >= 0)
  }

  ghost predicate HonestNet(s: Cluster)
  {
    forall env :: env in s.net ==> env.sender in s.members && Honest(env.vote, s.members[env.sender].peer)
  }

  /** No step lowers a node's seniority or makes a candidate of a node that is none. */
  lemma {:induction false} SeniorityStep(m: Member, step: Step)
    requires step.Finish? ==> m.peer.candidates != []
    requires step.Handle? ==> m.queued != []
    ensures var p, q := m.peer, After(m, step).peer;
            && p.seniority <= q.seniority && p.commandsSeen <= q.commandsSeen
            && (p.seniority >= 0 <==> q.seniority >= 0)
            && Honest(q.Status(), q)
  {
    if step.Finish? {
      FinishSeniority(m.peer);
    }
  }

  lemma {:induction false} HonestStep(s: Cluster, step: Step)
    requires HonestNet(s) && Enabled(s, step)
    ensures HonestNet(Do(s, step))
  {
    SeniorityStep(s.members[step.node], step);
    var s' := Do(s, step);
    forall env | env in s'.net ensures env.sender in s'.members && Honest(env.vote, s'.members[env.sender].peer) {
      if env in s.net {
        assert Honest(env.vote, s.members[env.sender].peer);
      }
    }
  }

  lemma {:induction false} InitHonest(s: Cluster)
    requires Init(s)
    ensures HonestNet(s)
  {
    forall env | env in s.net ensures env.sender in s.members && Honest(env.vote, s.members[env.sender].peer) {
      assert s.members[env.sender].peer == Initial(env.sender, s.members[env.sender].peer.seniority);
    }
  }

  /** From `s` to `t` no seniority falls and the candidates are the same. */
  ghost predicate SameCandidates(s: Cluster, t: Cluster)
  {
    && s.members.Keys == t.members.Keys
    && forall n :: n in s.members ==>
         && s.members[n].peer.seniority <= t.members[n].peer.seniority
         && (s.members[n].peer.seniority >= 0 <==> t.members[n].peer.seniority >= 0)
  }

  lemma {:induction false} CandidatesStep(s: Cluster, s': Cluster)
    requires HonestNet(s) && Next(s, s')
    ensures HonestNet(s') && SameCandidates(s, s')
  {
    var step :| Enabled(s, step) && s' == Do(s, step);
    HonestStep(s, step);
    SeniorityStep(s.members[step.node], step);
  }

  /** In every state of a run the net is honest, no seniority has fallen and the
      candidates are those of the start. */
  lemma {:induction false} CandidatesStay(run: seq<Cluster>)
    requires IsRun(run)
    ensures HonestNet(run[|run| - 1]) && SameCandidates(run[0], run[|run| - 1])
  {
    if |run| == 1 {
      InitHonest(run[0]);
    } else {
      CandidatesStay(run[..|run| - 1]);
      CandidatesStep(run[|run| - 2], run[|run| - 1]);
    }
  }

  lemma {:induction false} CandidatesStayUpTo(run: seq<Cluster>, t: nat)
    requires IsRun(run) && t < |run|
    ensures HonestNet(run[t]) && SameCandidates(run[0], run[t])
  {
    if t == |run| - 1 {
      CandidatesStay(run);
    } else {
      CandidatesStayUpTo(run[..|run| - 1], t);
    }
  }

  /** Every vote heard in a running campaign shows whether its sender started as a candidate. */
  lemma {:induction false} VotesShowCandidates(run: seq<Cluster>, t: nat, n: NodeId, v: Vote)
    requires IsRun(run) && t < |run| && n in run[t].members && v in run[t].members[n].peer.candidates
    ensures v.session.master in run[0].members
    ensures v.seniority >= 0 <==> run[0].members[v.session.master].peer.seniority >= 0
  {
    InvAt(run, t);
    CandidatesStayUpTo(run, t);
    assert CandidatesSent(run[t].members[n].peer, run[t].net);
    var env := Envelope(v.session.master, v);
    assert env in run[t].net && Honest(env.vote, run[t].members[env.sender].peer);
  }

  /** In every run, if one node of such a round is a master candidate, then the node
      elected is one too. */
  lemma {:induction false} CandidatesWin(
    run: seq<Cluster>, moment: map<NodeId, nat>, clock: int, heard: set<Vote>, c: NodeId)
    returns (elected: SessionId)
    requires IsRun(run) && SameRound(run, moment, clock, heard)
    requires c in moment && c in run[0].members && run[0].members[c].peer.seniority >= 0
    ensures forall n :: n in moment ==>
              var p := run[moment[n]].members[n].peer; p.candidates != [] && p.Finish().session == elected
    ensures elected.master in moment && elected.master in run[0].members
    ensures run[0].members[elected.master].peer.seniority >= 0
  {
    var winner;
    elected, winner := Agreement(run, moment, clock, heard);
    InvAt(run, moment[c]);
    var p := run[moment[c]].members[c].peer;
    assert PeerOk(c, p) && winner in VoteSet(p.candidates);
    var own :| own in p.candidates && own.session.master == c;
    assert own in VoteSet(p.candidates);
    VotesShowCandidates(run, moment[c], c, own);
    VotesShowCandidates(run, moment[c], c, winner);
  }
}
