/** Replication and reducer together: what every node may rely on in its own copy of
    the state, whatever the network does. */
module ReplicatedState {
  import opened Messages
  import opened Reducer
  import opened Replication
  import opened ReplicationSafety
  import RI = ReducerInvariants

  /** Every source only sends events with admissible bodies. */
  ghost predicate SentAdmissible(sent: map<SystemId, seq<Event<Body>>>)
  {
    forall source, i :: source in sent && 0 <= i < |sent[source]| ==> RI.Admissible(sent[source][i].body)
  }

  lemma {:induction false} KeptAdmissible(es: seq<Event<Body>>)
    requires forall i :: 0 <= i < |es| ==> RI.Admissible(es[i].body)
    ensures forall i :: 0 <= i < |Kept(es)| ==> RI.Admissible(Kept(es)[i].body)
  {
    if es != [] {
      KeptAdmissible(es[..|es| - 1]);
    }
  }

  ghost predicate HasBody(es: seq<Event<Body>>, b: Body)
  {
    exists j :: 0 <= j < |es| && es[j].body == b
  }

  /** A log entry appears, up to its time, among the entries of its source. */
  lemma {:induction false} EntryInProjection(log: seq<Event<Body>>, origins: seq<SystemId>, i: nat)
    requires |log| == |origins| && i < |log|
    ensures HasBody(Projection(log, origins, origins[i]), log[i].body)
  {
    var n := |log| - 1;
    var all := Projection(log, origins, origins[i]);
    var before := Projection(log[..n], origins[..n], origins[i]);
    if i < n {
      EntryInProjection(log[..n], origins[..n], i);
      assert HasBody(before, log[i].body);
      var j :| 0 <= j < |before| && before[j].body == log[i].body;
      assert all[j] == before[j];
    } else {
      assert all[|before|] == Strip(log[i]);
    }
  }

  lemma {:induction false} LogAdmissible(
    session: SessionId, c: Replication.Reducer<Body, State>, run: seq<System<Body, State>>, i: nat)
    requires IsRun(session, c, run) && SentAdmissible(run[|run| - 1].sent) && i < |run[|run| - 1].master.log|
    ensures RI.Admissible(run[|run| - 1].master.log[i].body)
  {
    var s := run[|run| - 1];
    LogIsInterleavingOfPrefixes(session, c, run, SystemId(0, 0));
    var source := s.master.origins[i];
    LogIsInterleavingOfPrefixes(session, c, run, source);
    KeptAdmissible(SentBy(s.sent, source));
    EntryInProjection(s.master.log, s.master.origins, i);
  }

  /** In every run of the whole protocol whose sources send admissible events, the
      state of every node, and the master's, has RDMA edges between enabled nodes only,
      bridge cycles with the bridge on everywhere, node maps within the nodes seen, and
      instances, tasks and links under their own ids. */
  lemma {:induction false} EveryCopyIsSound(
    session: SessionId, find: CycleFinder, run: seq<System<Body, State>>, n: NodeId)
    requires RI.FindsCycles(find) && IsRun(session, RI.ReducerOf(find), run)
    requires SentAdmissible(run[|run| - 1].sent) && n in run[|run| - 1].nodes
    ensures RI.StateOk(run[|run| - 1].nodes[n].state)
    ensures RI.StateOk(run[|run| - 1].master.state)
  {
    var s := run[|run| - 1];
    var c := RI.ReducerOf(find);
    ReplicasFoldPrefixes(session, c, run, n);
    forall i | 0 <= i < |s.master.log| ensures RI.Admissible(s.master.log[i].body) {
      LogAdmissible(session, c, run, i);
    }
    RI.RunKeepsInv(find, s.master.log[..s.nodes[n].last + 1]);
    RI.RunKeepsInv(find, s.master.log);
  }
}
