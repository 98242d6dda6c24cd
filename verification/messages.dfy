/** Identifiers and wire messages shared by the replication protocol
    (src/exo/shared/types/common.py, src/exo/shared/types/events.py). */
module Messages {

  type NodeId = nat

  datatype SessionId = SessionId(master: NodeId, electionClock: int)

  /** A fresh id per event sender; here unique by construction. */
  datatype SystemId = SystemId(node: NodeId, serial: nat)

  /** An event as the replication layer sees it.  `traces` marks
      `TracesCollected`; `time` is what the master overwrites when it indexes
      the event; `body` is everything else. */
  datatype Event<B> = Event(id: nat, traces: bool, time: int, body: B)

  datatype LocalMessage<B> = LocalMessage(origin: SystemId, idx: nat, session: SessionId, event: Event<B>)

  datatype GlobalMessage<B> = GlobalMessage(origin: NodeId, idx: nat, session: SessionId, event: Event<B>)
}
