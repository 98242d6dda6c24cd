# exo's control plane, modelled and proved in Dafny

exo runs one model across several machines. What keeps the machines in agreement is
its control plane, and that is what this project models: the replicated event log and
everything folded from it, the election of the master that writes the log, the on-disk
log, the placement of layers and shards, the planners that bring a group of runners up
together, and two smaller protocols (llama.cpp replica leases, image transfer).

Objects that the Python code updates in place are classes here, with the same fields;
their methods are proved against functions on plain values, and the theorems about whole
runs are stated on those values. A section of code between two awaits is one step.

| part | files |
|---|---|
| shared types and helpers | `common.dfy`, `messages.dfy` |
| resequencing buffers, event router, master, replication protocol | `event_buffer.dfy`, `event_router.dfy`, `master.dfy`, `replication.dfy`, `replication_safety.dfy`, `replication_progress.dfy`, `replication_retry.dfy`, `replication_acks.dfy` |
| disk event log | `disk_event_log.dfy`, `disk_log_reads.dfy` |
| state reducer, topology, and what every copy of the state satisfies | `reducer.dfy`, `reducer_invariants.dfy`, `reducer_history.dfy`, `topology_history.dfy`, `work_history.dfy`, `topology.dfy`, `replicated_state.dfy` |
| election and what a node does with its result | `election.dfy`, `node.dfy`, `election_cluster.dfy` |
| layer allocation, shard assignment, transition events | `layer_allocation.dfy`, `shard_assignment.dfy`, `placement.dfy` |
| worker planner, group bring-up, recovery from failures | `planner.dfy`, `planner_effects.dfy`, `planner_failures.dfy`, `bring_up.dfy`, `bring_up_progress.dfy`, `group_recovery.dfy` |
| llama replica leases | `llama_router.dfy`, `llama_leases.dfy` |
| image chunks, cache and dispatch | `image_transfer.dfy`, `image_worker.dfy`, `image_delivery.dfy` |

## Main results

- **Replication.** Over a network that loses, duplicates and reorders, in every run: the
  code's own assertions never fail, every node's state is the reducer folded over a
  prefix of the master's log, and the log holds each source's events exactly once and in
  order (`ReplicationSafety`). A sent event is in its node's retry table exactly until it
  comes back to that node (`ReplicationAcks.HeldUntilBack`), and receiving what the table
  holds completes the source (`ReplicationRetry.SourceCatchesUp`). A node whose requests are answered, in whatever
  order the replies arrive, ends with the whole log and the master's state
  (`ReplicationProgress.NodeCatchesUp`, `NodeCanCatchUp`). Together with the reducer's invariants this says
  what every copy of the state satisfies on every node
  (`ReplicatedState.EveryCopyIsSound`).
- **Reducer.** After every run of events, each part of the state is what the last event
  about it said: when a node was last seen, what it last reported of itself since its last
  timeout, which nodes and socket connections the topology holds, each instance, runner,
  prefill port and task (`ReducerHistory`, `TopologyHistory`, `WorkHistory`; `Last` is
  tied to the position of that event by `ReducerHistory.LastIsLatestSet`).
- **Election.** In every run of all nodes, each node's master and router carry the
  session it last handled, a live master is never asked to serve another session, minted
  sessions increase, and nodes that end a round with the same votes agree on the most
  senior voter, which is a master candidate if any voter is (`ElectionCluster`).
- **Disk log.** Whatever was cached or evicted, a range read is the slice of what was
  appended (`DiskEventLog.Log.ReadRange`), and stays so when appends, flushes and other
  reads come between its events (`DiskLogReads.ReadYieldsItsRange`).
- **Bring-up.** With arbitrarily stale views no node is told to do something the group is
  not ready for. With current views and the model downloaded, some runner can move, or a
  cancelled request is first passed on, whatever requests wait and however the nodes'
  inputs differ; the sum of phases counts the moves; and from every reachable state some
  schedule makes the whole group ready (`BringUpProgress.EveryRunCanFinish`).
- **Planning and failures.** What the planner answers is stated on the statuses, views and
  downloads it is given, alternative by alternative and for any number of runners and
  requests (`PlannerEffects`). A group in which runners have failed shuts down and restarts
  in boundedly many steps, however the nodes take turns, and stops exactly when every node
  has a runner and none is seen failed (`GroupRecovery`).
- **Placement.** The allocator is exactly largest remainder, but for zero shares, which a
  repair takes from the largest and raises to one; an assignment is refused exactly when
  there are too few layers or some node cannot hold its part of that allocation; its
  shards tile the layers, and transition events are an exact patch.
- **Leases and images.** Lease books balance in every interleaving, no wakeup is lost, and
  every grant goes to the least busy replica that can take it; a request's images are ready exactly when their chunks have arrived.

## Findings

- *Downloads outlive nodes.* A timeout clears `downloads`, but `NodeDownloadProgress` is
  accepted for a node that was never seen or has timed out, so the keys of `downloads` can
  leave `last_seen` (`ReducerInvariants.DownloadsCanOutliveNodes`). They stay inside
  exactly when every report of the run is about a node seen at that time
  (`ReducerInvariants.DownloadsSeenAlongRun`).
- *Empty images are never dispatched.* An empty image has no chunks, so it never gets into
  the worker's cache and its request waits forever (`ImageDelivery.EmptyImageNeverStarts`);
  once everything has arrived, exactly the requests without an empty image can start
  (`ImageDelivery.AllArrivedReady`).
- *A lookup without default.* `_pending_tasks` indexes `all_runners` directly and raises
  `KeyError` when the view lacks a runner: on a single-node instance whose own status has
  not come back yet (`PlannerFailures.SingleNodeFails`), and on a multi-node instance after
  a peer's shutdown has dropped it from the state (`PlannerFailures.MultiNodeFails`). It
  raises exactly when no earlier alternative has an answer and the first request and runner
  that stop the search are a runner of whose assignment the first runner not seen ready is
  missing from the view (`PlannerFailures.PlanFailsExactly`). In failure-free runs of a
  multi-node group it does not happen (`BringUp.PlanIsSafe`).
- *Scan start.* `_seek_to` says it scans from the highest cached index below its target;
  the loop keeps the most recently used one (`DiskEventLog.Log.ScanStart`). After reading
  one event from 5 and one from 3, a seek to 8 starts at 4 although 6 is cached
  (`DiskEventLog.ScanStartsBelowHighest`). It starts at the highest exactly when no entry
  used before the most recently used one below the target is higher and still below the
  target (`DiskEventLog.ScanStartsAtHighestExactly`). Reads are exact either way
  (`DiskEventLog.Log.SeekTo`).
- *Re-creating an instance.* `add_instance_to_placements` under an id that is in use with
  other contents yields no event, so the reducer keeps the old instance
  (`Placement.RecreationIsLost`); a create command does what it says exactly when its id is
  new or already holds that instance (`Placement.CreationIsComplete`).

## Assumptions

- A message set never shrinks, and any message in it may be delivered at any time, any
  number of times or never. Retries re-send a message that is already in the set.
- Serialisation is lossless and a record's length fits its four-byte header. Events
  compare equal up to the time the master writes into them; that time is one field here,
  whether it is the private stamp or `NodeGatheredInfo.when`. SHA-256 is injective.
- Replacing a running campaign (`src/exo/shared/election.py:190-203`) is one step and
  binds the campaign's clock when it is scheduled. The code reads the clock when the task
  starts, and two campaigns could wait for the same predecessor.
- Node ids are naturals; only their order matters. A sender's system id is unique. Event
  ids are fresh, where the retry table is concerned.
- Numbering an event, sending it and remembering it for retry is one step of the router,
  and so is deciding on a log request and installing its cancel scope.
- Memory fractions and replica loads are exact, where the code divides floats.
- Bring-up is about one multi-node instance whose ranks number its nodes and runners,
  without failures; a runner leaves a waiting phase only on the matching task, and
  connecting completes only once the whole group has begun. Its reports are in order.
  Progress assumes that every node's latest report on the model is a completed download and
  that a node without a runner is not held back by its backoff.
- Recovery is about one instance of such a group whose nodes have applied the same events.
  A failed runner reports nothing more; any other that is shut down reports it or times out.
- Statements about finishing say that a schedule exists, or how far given rounds get; that
  the schedulers are fair is not modelled.
- The reducer's topology is the graph it denotes, since every reducer works on a deep
  copy; `Topology` is proved to represent such graphs. `simple_cycles` is any function
  that returns cycles of its argument. Where two nodes announce the same thunderbolt
  uuid, either may be taken as its owner.
- Image transfer is about one session of one worker and any number of APIs.

## Model

| member | source | states |
|---|---|---|
| EventBuffer.DrainReleasesMaximalRun | src/exo/utils/event_buffer.py:28-37 | a drain releases exactly the stored events of the maximal gap-free run from the next index, and leaves every other entry as it was |
| EventBuffer.IndexedRelease | src/exo/utils/event_buffer.py:39-48 | the indexed drain releases the same events, each under its own index |
| EventBuffer.OrderedBuffer.Ingest | src/exo/utils/event_buffer.py:16-26 | first payload wins, released indices are ignored; the result tells whether the payload assertion holds |
| EventBuffer.OrderedBuffer.Drain | src/exo/utils/event_buffer.py:28-37 | returns the maximal run and keeps the rest |
| EventBuffer.OrderedBuffer.DrainIndexed | src/exo/utils/event_buffer.py:39-48 | the same with indices |
| EventBuffer.MultiSourceBuffer.Ingest | src/exo/utils/event_buffer.py:60-64 | only the buffer of that source changes, created on first use |
| EventBuffer.MultiSourceBuffer.Drain | src/exo/utils/event_buffer.py:66-70 | concatenates, in insertion order of the sources, what each can release |
| EventBuffer.OnlyOneSourceReleases | src/exo/utils/event_buffer.py:66-70 | when only one source has anything to release, draining all is draining that one, whatever the order |
| EventRouter.EventRouter.Forward | src/exo/routing/event_router.py:83-95 | numbers the event after all earlier ones of its source and remembers the message for retry, under the event's id and beside all others |
| EventRouter.EventRouter.Fire | src/exo/routing/event_router.py:149-162 | after its delay the request asks for the index it was made for, and its scope is cleared |
| EventRouter.EventRouter.Unwind | src/exo/routing/event_router.py:160-162 | a cancelled request clears its own scope and sends nothing |
| EventRouter.EventRouter.Receive | src/exo/routing/event_router.py:97-123 | filters foreign sessions and origins, resequences, takes exactly the accepted event off the retry table, and requests the log exactly when nothing was released and no request is pending |
| Replication.IngestAndDrain | src/exo/utils/event_buffer.py:16-48 | one correct message in any order: payloads agree, the next stretch of the log is released, and the buffer still follows the log |
| ReplicationSafety.StepKeepsInv | src/exo/routing/event_router.py:57-133 | every step of the protocol keeps its invariant and satisfies the code's assertions |
| ReplicationSafety.RunKeepsInv | src/exo/master/main.py:483-513 | the invariant holds at the end of every run |
| ReplicationSafety.AssertionsNeverFail | src/exo/shared/apply.py:128-136 | in every run the index assertion of `apply` and the equal-payload assertion of `ingest` hold |
| ReplicationSafety.ReplicasFoldPrefixes | src/exo/shared/apply.py:128-138 | in every run a node's state is the fold of a prefix of the master's log, and the master's is the fold of all of it |
| ReplicationSafety.LogIsInterleavingOfPrefixes | src/exo/master/main.py:483-513 | in every run the log entries of a source are its sent events, traces dropped, cut to a prefix, and every entry has a source of this session |
| ReplicationProgress.ReplyReachesItsEnd | src/exo/master/main.py:444-452 | in the protocol's system, delivering the reply to a request from `k` in any order and any mix takes a node at or past `k` to at least min(k+1000, length) |
| ReplicationProgress.RequestsCatchUp | src/exo/routing/event_router.py:117-162 | rounds of a node's own request, the master's answer and its delivery reach the end of any finite log, a thousand events a round |
| ReplicationProgress.NodeCatchesUp | src/exo/routing/event_router.py:106-162 | from every reachable state, after enough rounds and its apply steps a node has the whole log and the master's state |
| ReplicationProgress.NodeCanCatchUp | src/exo/routing/event_router.py:106-162 | from every reachable state with a request sleeping, rounds that bring the node to the master's state exist: each ends with a repeated message, which puts the next request to sleep |
| ReplicationRetry.StepKeepsTracked | src/exo/routing/event_router.py:57-64 | every step keeps: a sent event is in the log, or remembered under its own message |
| ReplicationRetry.NothingIsForgotten | src/exo/routing/event_router.py:93-109 | in every run with fresh event ids every sent event is in the log or still in its router's retry table |
| ReplicationRetry.SourceCatchesUp | src/exo/routing/event_router.py:57-64 | from every reachable state, receiving what the table holds for a source, in any order and mix, puts all its events but traces into the log, once and in order |
| ReplicationAcks.StepKeepsExact | src/exo/routing/event_router.py:83-109 | every step keeps: a sent event is in its node's retry table iff it has not come back to it |
| ReplicationAcks.HeldUntilBack | src/exo/routing/event_router.py:83-109 | in every run with fresh event ids the retry table holds exactly the sent events that have not come back to their node, each under its own message |
| MasterProcess.IndexWrites | src/exo/master/main.py:495-513 | indexing leaves the log alone for a trace, and otherwise appends one entry with the current time and the event's own id and contents |
| MasterProcess.StampedIsWritten | src/exo/master/main.py:495-506 | of a list of drained events exactly those that are no traces are written, in order, each with the time at which its turn came |
| MasterProcess.Master.ProcessLocal | src/exo/master/main.py:483-513 | other sessions change nothing; otherwise all released events but traces are appended to the disk log, in order, each with the time of its turn and otherwise unchanged, folded and broadcast under their index, and the state stays the fold of the log |
| MasterProcess.Master.IndexOne | src/exo/master/main.py:509-513 | index, apply, append, send: the apply assertion holds because log and state stay in step |
| MasterProcess.Master.AnswerRequest | src/exo/master/main.py:444-452 | the reply is exactly the events from the requested index on, a thousand or as many as there are, under their own indices; nothing for a negative index |
| MasterProcess.ProtocolDoesTheSame | src/exo/master/main.py:483-513 | the processor's loop equals the protocol's receive step followed by its index steps |
| DiskEventLog.HeaderRoundTrip | src/exo/utils/disk_event_log.py:37-38 | a length packed into the header is read back |
| DiskEventLog.RecordAtOffset | src/exo/utils/disk_event_log.py:41-59 | at the offset of a record, one read yields it, one skip passes it, and both stop at the next offset |
| DiskEventLog.TornRecordIsNotRead | src/exo/utils/disk_event_log.py:50-59 | a file cut off inside a record yields nothing of it |
| DiskEventLog.WholeRecordIsRead | src/exo/utils/disk_event_log.py:50-59 | wherever a file is cut off after a record, the record is still read |
| DiskEventLog.OffsetsSurviveAppend | src/exo/utils/disk_event_log.py:113-117 | appending moves no earlier record |
| DiskEventLog.ScanFindsEveryRecord | src/exo/utils/disk_event_log.py:138-148 | a plain forward scan from any record's offset yields exactly the records from there on |
| DiskEventLog.TouchKeepsCacheExact | src/exo/utils/disk_event_log.py:85-87 | moving an index to the end, with its exact offset, keeps the cache exact |
| DiskEventLog.EvictKeepsCacheExact | src/exo/utils/disk_event_log.py:88-89 | evicting the oldest entry keeps the cache exact and within its bound |
| DiskEventLog.Log.CacheOffset | src/exo/utils/disk_event_log.py:85-89 | every cached offset stays exact and the cache never exceeds 128 entries |
| DiskEventLog.Log.ScanStart | src/exo/utils/disk_event_log.py:98-104 | selects the most recently used cached index below the target, or 0, with its exact offset |
| DiskEventLog.ScanStartsAtHighestExactly | src/exo/utils/disk_event_log.py:98-104 | the selected index is the highest cached one below the target iff no entry used earlier than it is higher and still below the target |
| DiskEventLog.ScanStartsBelowHighest | src/exo/utils/disk_event_log.py:98-104 | two reads after which a seek does not start at the highest cached index |
| DiskEventLog.Log.SeekTo | src/exo/utils/disk_event_log.py:91-111 | the position reached is the target's exact offset, and the cache is the old one with the target touched |
| DiskEventLog.Log.Append | src/exo/utils/disk_event_log.py:113-117 | the log grows by the event, unless its length does not fit the header |
| DiskEventLog.Log.ReadRange | src/exo/utils/disk_event_log.py:119-136 | yields exactly events start..min(end, count), nothing for a negative or empty range, whatever was cached; touches its start and, unless it ends the log, its end |
| DiskEventLog.Log.ReadAll | src/exo/utils/disk_event_log.py:138-148 | yields every event |
| DiskLogReads.SeekIsExact | src/exo/utils/disk_event_log.py:91-111 | the cached or scanned position is exact, whichever index the scan starts from |
| DiskLogReads.StepKeepsInv | src/exo/utils/disk_event_log.py:113-136 | appends, flushes and the steps of any number of reads keep the cache exact, every read at its next record and its range on disk |
| DiskLogReads.InterleavedReadsAreExact | src/exo/utils/disk_event_log.py:119-136 | in every interleaving a read that finishes has met no early end of file and yielded its range of the log as it was when it began |
| DiskLogReads.ReadYieldsItsRange | src/exo/utils/disk_event_log.py:119-136 | from its begin to its finish a read yields exactly start..min(end, count) of the log at its begin |
| Election.LessIsStrictOrder | src/exo/shared/election.py:28-39 | the vote order is a strict weak order, total on votes of different proposers |
| Election.BestIsGreatest | src/exo/shared/election.py:222-222 | the elected vote is one of the candidates and none is greater: none has a later clock, nor at its clock more seniority, nor then more commands seen, nor then a greater id |
| Election.FinishSeniority | src/exo/shared/election.py:225-230 | a winning candidate's seniority becomes the larger of what it was and the number of votes; everyone else keeps theirs |
| Election.ElectionService.CountCommand | src/exo/shared/election.py:182-185 | one more command seen, nothing else |
| Election.ElectionService.Receive | src/exo/shared/election.py:127-157 | own messages are dropped, newer clocks start a campaign with that vote, older ones are dismissed, same clock adds a candidate; a new campaign broadcasts the own status |
| Election.ElectionService.Connect | src/exo/shared/election.py:159-180 | a connection starts a campaign at the next clock |
| Election.ElectionService.FinishCampaign | src/exo/shared/election.py:221-242 | elects the candidate with the latest clock, then the most senior, then the most commands seen, then the greatest id; raises the seniority of a winning candidate node to at least the number of votes and no other; reports whether the session changed |
| Node.NodeService.HandleResult | src/exo/main.py:192-236 | the router is replaced on a new session; the master is kept, created or dropped |
| Node.HostCarriesCurrentSession | src/exo/main.py:192-236 | after any coherent history a master is hosted iff the last result names the node, and it and the router carry that session |
| Node.LiveMasterNeverReplaced | src/exo/main.py:202-206 | a result naming the node while a master is live carries that master's session |
| Node.MintedClocksIncrease | src/exo/shared/election.py:254-265 | different sessions a node holds for itself have strictly increasing clocks |
| ElectionCluster.StepKeepsInv | src/exo/shared/election.py:127-242 | every step of the cluster keeps: votes name their sender, one vote per sender and clock, histories coherent |
| ElectionCluster.SessionCoherence | src/exo/main.py:177-236 | in every run, at every node: master hosted iff named, sessions match, and the next result never asks a live master for another session |
| ElectionCluster.MintedSessionsIncrease | src/exo/shared/election.py:254-265 | in every run a node's own sessions have strictly increasing election clocks |
| ElectionCluster.SameVotesSameWinner | src/exo/shared/election.py:222-222 | the winner depends only on the set of votes, not on order or duplicates |
| ElectionCluster.Agreement | src/exo/shared/election.py:205-242 | in every run, nodes that end a round with the same votes, each at its own moment, elect one session whose master is one of them, the most senior of the round, ties going to the most commands seen and then to the greater id |
| ElectionCluster.CandidatesStay | src/exo/shared/election.py:61-64 | in every run no seniority falls, nodes that are no candidates stay so, and every vote promises at most what its sender has |
| ElectionCluster.CandidatesWin | src/exo/shared/election.py:61-64 | in every run, if one node of such a round is a master candidate, the node elected is one |
| LayerAllocation.LeftoverInRange | src/exo/master/placement_utils.py:60-65 | the remainder loop stays in range and serves only positive remainders |
| LayerAllocation.LargestRemainder | src/exo/master/placement_utils.py:60-65 | each share is floor or ceiling of its quota, they sum to the total, and extra layers go to the largest remainders |
| LayerAllocation.LargestRemainderIsMonotone | src/exo/master/placement_utils.py:60-65 | a strictly larger quota gets at least as many layers |
| LayerAllocation.RepairStep | src/exo/master/placement_utils.py:67-73 | the `> 1` assertion holds, and taking from the largest keeps the allocation fair |
| LayerAllocation.Repair | src/exo/master/placement_utils.py:67-73 | the loop keeps the allocation fair, raises every zero share to 1 and leaves the others between 1 and what they were; a share that gave something up is at most one below any other, and each layer came from the first of the largest |
| LayerAllocation.AllocationIsUnique | src/exo/master/placement_utils.py:47-75 | total and fractions determine the allocation |
| LayerAllocation.LargestRemainderIsUnique | src/exo/master/placement_utils.py:60-65 | quotas and total determine the largest-remainder shares |
| LayerAllocation.MoreMemoryAtMostOneBehind | src/exo/master/placement_utils.py:60-75 | a node with strictly more memory ends at most one layer behind one with less |
| LayerAllocation.AllocateLayers | src/exo/master/placement_utils.py:47-75 | succeeds iff there are nodes and a layer for each; shares sum to the total, are at least 1 and at most max(1, ceiling of quota); they are the largest-remainder shares with zeros raised to 1 and others at most lowered, and exactly those when none is zero |
| ShardAssignment.FractionsAreDistribution | src/exo/master/placement_utils.py:104-106 | memory fractions are non-negative and sum to one |
| ShardAssignment.MemoryBound | src/exo/master/placement_utils.py:111-113 | required memory is at most the proportional share of the storage plus one layer's worth |
| ShardAssignment.SpareLayersFit | src/exo/master/placement_utils.py:111-120 | with one layer of spare memory beyond that share everywhere, every node fits |
| ShardAssignment.RequiredExactly | src/exo/master/placement_utils.py:111-115 | the floored storage of a share is at most the available memory iff storage times share is less than (available + 1) times layers |
| ShardAssignment.AllocateAndValidate | src/exo/master/placement_utils.py:96-122 | what is accepted is the allocation that memory and layers determine, with storage times share less than (memory + 1) times layers on every node; refused iff there are too few layers or that allocation breaks this on some node; never refused when every node has a layer to spare |
| ShardAssignment.TooBigExactly | src/exo/master/placement_utils.py:111-120 | the determined allocation is too big iff it, the only one, does not fit some node |
| ShardAssignment.EveryLayerOnce | src/exo/master/placement_utils.py:219-230 | in a tiling every layer is run by exactly one stage |
| ShardAssignment.StagesTile | src/exo/master/placement_utils.py:219-230 | ranges cut by prefix sums of positive shares are non-empty, contiguous in rank order and cover all layers |
| ShardAssignment.PurePipeline | src/exo/master/placement_utils.py:203-240 | accepted shards tile the layers in rank order and fit; refused iff the cycle is empty, has no memory, too few layers, or a node that cannot hold its part of the allocation; accepted with a spare layer everywhere |
| ShardAssignment.CfgShardsMirror | src/exo/master/placement_utils.py:165-190 | positions k and world-1-k run the same range for the two prompts, each half tiles, and the two last stages are neighbours |
| ShardAssignment.CfgParallel | src/exo/master/placement_utils.py:140-200 | the mirrored layout over the allocation of the first half, which fits there; refused iff the pure pipeline on that half would be |
| ShardAssignment.PipelineParallel | src/exo/master/placement_utils.py:125-137 | CFG models get the mirrored layout exactly on even worlds, all others one tiling; ranks, memory fit, refusals and acceptance are those of the nodes whose memory decides |
| Placement.GetTransitionEvents | src/exo/master/placement.py:325-362 | the loops yield creations, then per removed instance the cancellations of its live tasks and its deletion |
| Placement.TransitionIsPatch | src/exo/master/placement.py:325-362 | folding the reducer over the events gives exactly the target instances, cancels exactly the live tasks of removed ones, cuts them from links and leaves the rest, iff current and target agree on common ids |
| Placement.PatchLeavesNothingBehind | src/exo/shared/apply.py:183-241 | afterwards no live task and no link names a removed instance |
| Placement.DeletionIsComplete | src/exo/master/main.py:347-351 | a whole delete command leaves the patched state: exactly that instance gone, its live tasks cancelled, its link ends cut, all else as it was |
| Placement.CreationIsComplete | src/exo/master/main.py:376-385 | a whole create command adds exactly that instance and changes nothing else, iff its id is new or already holds it |
| Placement.RecreationIsLost | src/exo/master/placement.py:57-63 | an input on which re-creating an id yields no event and the old instance stays |
| Placement.DeleteInstance | src/exo/master/placement.py:314-322 | removes exactly the id, or fails iff it is missing |
| Placement.AddInstance | src/exo/master/placement.py:57-63 | target agrees with current iff the id is new or already holds that instance |
| Reducer.RecordDownload | src/exo/shared/apply.py:139-168 | the loop replaces the first entry of the model or appends |
| Reducer.PutDownloadKeepsOnePerModel | src/exo/shared/apply.py:139-168 | one entry per model is kept, the reported one, and all entries of other models stay |
| ReducerHistory.LastIsLatestSet | src/exo/shared/apply.py:82-125 | the last value a run of effects leaves is the one set at some position with nothing setting or clearing it after |
| ReducerHistory.SeenHistory | src/exo/shared/apply.py:350-363 | after every run, when a node was last seen is the time of its last report since its last timeout |
| ReducerHistory.MemoryHistory | src/exo/shared/apply.py:365-372 | after every run a node's memory is the one it last reported since its last timeout |
| ReducerHistory.SystemHistory | src/exo/shared/apply.py:365-370 | the same for its system profile |
| ReducerHistory.DiskHistory | src/exo/shared/apply.py:373-374 | the same for its disk |
| ReducerHistory.NetworkHistory | src/exo/shared/apply.py:400-404 | the same for its network interfaces |
| ReducerHistory.ThunderboltHistory | src/exo/shared/apply.py:405-409 | the same for its thunderbolt identifiers |
| ReducerHistory.BridgeHistory | src/exo/shared/apply.py:437-452 | the same for its bridge status |
| ReducerHistory.RdmaCtlHistory | src/exo/shared/apply.py:453-463 | the same for its RDMA status |
| ReducerHistory.BackendsHistory | src/exo/shared/apply.py:464-470 | a node's backends are those it last reported, timeouts or not |
| ReducerHistory.IdentityHistory | src/exo/shared/apply.py:377-399 | a node's name and hardware are those it last reported, timeouts or not |
| ReducerHistory.DownloadHistory | src/exo/shared/apply.py:139-168 | a node's entry for a model is its last report on it since the node's last timeout |
| TopologyHistory.SocketHistory | src/exo/shared/apply.py:473-483 | after every run a socket connection is in the topology iff its last creation comes after its last deletion and the last timeout of either end |
| TopologyHistory.NodeHistory | src/exo/shared/apply.py:288-483 | after every admissible run a node is in the topology iff it was heard of, in a report or a connection, since its last timeout |
| TopologyHistory.LinksReplaceRdma | src/exo/shared/apply.py:410-436 | a report of thunderbolt links leaves as outgoing RDMA edges of its node the links between announced uuids of enabled nodes, source interface first, all of them when no uuid is announced twice, and every other connection as it was |
| TopologyHistory.RdmaStep | src/exo/shared/apply.py:288-483 | an RDMA connection comes with such a report and goes with the next that lacks it, with RDMA switched off or the timeout of either end, or when deleted; nothing else changes it |
| TopologyHistory.BridgeGraphExactly | src/exo/shared/topology.py:260-308 | the bridge graph has exactly the nodes with the bridge on, and between them the RDMA edges and the sockets on thunderbolt addresses of such nodes |
| TopologyHistory.CyclesRecomputedExactly | src/exo/shared/apply.py:288-470 | the cached bridge cycles are those of the new state exactly when an event turns some node's bridge on or off, and kept otherwise |
| WorkHistory.InstanceHistory | src/exo/shared/apply.py:212-241 | after every run an instance id holds what was last created under it and not deleted since |
| WorkHistory.RunnerHistory | src/exo/shared/apply.py:259-285 | a runner's status is its last one, none after its shutdown |
| WorkHistory.PortHistory | src/exo/shared/apply.py:259-285 | a runner's prefill port is the last it was ready with since its last shutdown |
| WorkHistory.StatusHistory | src/exo/shared/apply.py:171-197 | a task's status is the last it was given since its creation, until deleted |
| WorkHistory.ErrorTypeHistory | src/exo/shared/apply.py:183-209 | a task's error is that of its last failure, unless a status other than failed came after |
| WorkHistory.ErrorMessageHistory | src/exo/shared/apply.py:183-209 | the same for the message |
| WorkHistory.OriginHistory | src/exo/shared/apply.py:171-209 | all else of a task stays as it was created |
| WorkHistory.CardHistory | src/exo/shared/apply.py:486-500 | a model's card is the last added and not deleted since |
| WorkHistory.LinkStep | src/exo/shared/apply.py:221-256 | a link comes and goes by its id, and loses a deleted instance, or goes when a side would have no member left |
| ReducerInvariants.BridgeCyclesSound | src/exo/shared/topology.py:260-308 | a reported cycle has at least two nodes, all with the bridge on, joined by thunderbolt or RDMA edges |
| ReducerInvariants.TimeoutKeepsInv | src/exo/shared/apply.py:288-347 | a timeout keeps the invariant |
| ReducerInvariants.GatheredKeepsInv | src/exo/shared/apply.py:350-470 | node information of every kind keeps the invariant |
| ReducerInvariants.EventKeepsInv | src/exo/shared/apply.py:82-125 | every event other than an announced RDMA edge keeps the invariant |
| ReducerInvariants.EventKeepsWork | src/exo/shared/apply.py:171-285 | every event keeps instances, tasks and links under their own ids and prefill ports within the known runners, given tasks are created under their own id |
| ReducerInvariants.RunKeepsInv | src/exo/shared/apply.py:288-483 | after every such run RDMA edges join enabled nodes, cached bridge cycles hold only nodes with the bridge on, node maps are within `last_seen`, itself within the topology, and work is under its own ids |
| ReducerInvariants.DownloadsCanOutliveNodes | src/exo/shared/apply.py:139-168 | a report alone puts `downloads` outside `last_seen` |
| ReducerInvariants.DownloadsSeenExactly | src/exo/shared/apply.py:139-168 | one event keeps `downloads` within `last_seen` iff it does not report an unseen node |
| ReducerInvariants.DownloadsSeenAlongRun | src/exo/shared/apply.py:139-168 | the same for whole runs |
| ReplicatedState.EveryCopyIsSound | src/exo/worker/main.py:398-411 | in every run of the protocol whose sources announce socket edges only and create tasks under their own ids, every node's state and the master's satisfy the reducer invariant |
| Topology.Topology.AddNode | src/exo/shared/topology.py:61-65 | adds the node once; indices of others stay; the index table stays a bijection onto live vertices |
| Topology.Topology.AddConnection | src/exo/shared/topology.py:92-106 | adds the connection and missing ends, never a duplicate |
| Topology.Topology.RemoveNode | src/exo/shared/topology.py:154-161 | exactly the node and the connections at it go, leaving a hole |
| Topology.Topology.RemoveConnection | src/exo/shared/topology.py:188-198 | exactly the other connections stay |
| Topology.Topology.RemoveAllRdmaConnectionsTouching | src/exo/shared/topology.py:172-186 | exactly the sockets and the RDMA edges elsewhere stay |
| Topology.Topology.ReplaceAllOutRdmaConnections | src/exo/shared/topology.py:163-170 | afterwards the connections are the new ones, the sockets, and the RDMA edges that leave other nodes |
| Topology.Topology.MapConnections | src/exo/shared/topology.py:126-138 | the nested map holds exactly the connections |
| Topology.Topology.ToSnapshot | src/exo/shared/topology.py:39-42 | the snapshot lists exactly nodes and connections |
| Topology.FromSnapshot | src/exo/shared/topology.py:44-59 | the rebuilt topology has exactly what the snapshot holds |
| Topology.SnapshotRoundTrip | src/exo/shared/topology.py:39-59 | rebuilding from a snapshot gives the same graph, holes or not |
| Planner.KillRunner | src/exo/worker/plan.py:75-100 | shuts down the first runner, in order, that is orphaned, failed, or has a failed peer; none iff there is none |
| Planner.StartRunner | src/exo/worker/plan.py:103-136 | creates a runner for the first instance, in order, that needs one here and may have it; none iff there is none |
| Planner.ModelNeedsDownload | src/exo/worker/plan.py:139-167 | starts the download of the first idle runner, in order, whose model needs it and may; none iff there is none |
| Planner.InitDistributedBackend | src/exo/worker/plan.py:170-217 | connects the first runner, in order, whose guard holds; none iff there is none |
| Planner.LoadModelTask | src/exo/worker/plan.py:220-258 | loads the first runner, in order, whose guard holds; none iff there is none |
| Planner.ReadyToWarmup | src/exo/worker/plan.py:261-300 | warms up the first runner, in order, whose guard holds; none iff there is none |
| PlannerEffects.CancelsFirst | src/exo/worker/plan.py:349-365 | a cancelled request not yet passed on comes before all else: the first such request, to the first such runner |
| PlannerEffects.ShutsDownFirstBroken | src/exo/worker/plan.py:75-100 | with cancellations passed on, the first runner whose instance is gone, that has failed, or one of whose peers is seen failed is shut down, whatever else there is to do |
| PlannerEffects.StartsFirstStartable | src/exo/worker/plan.py:103-136 | with nothing to cancel or shut down, the first instance with a part and no runner here gets one, if its backoff allows it and no peer is seen failed unless the node's own last runner is |
| PlannerEffects.DownloadsForFirstWanting | src/exo/worker/plan.py:139-167 | with nothing of that to do, the first idle runner whose model's last entry is absent or pending, and whose backoff allows it, has the model downloaded |
| PlannerEffects.BringsUpFirst | src/exo/worker/plan.py:170-300 | with nothing to prepare, the first runner that can connect does; else the first that can load; else the first that can warm up, each stated on the statuses seen |
| PlannerEffects.DispatchesFirstTaken | src/exo/worker/plan.py:303-346 | with nothing else to do, the first request that has arrived (an edit with all its chunks, a text with all its images) and finds a runner starts on the first such runner |
| PlannerEffects.NothingToDispatch | src/exo/worker/plan.py:303-346 | without such a request there is no task |
| PlannerEffects.SingleNodeSteps | src/exo/worker/plan.py:47-72 | an instance on one node is created, downloaded, loaded without connecting, warmed up, and shut down when failed, whatever the view says |
| GroupRecovery.ShutsDownExactly | src/exo/worker/plan.py:75-100 | with current views and cancellations passed on, a node of the group shuts its runner down iff some runner of the group is seen failed |
| GroupRecovery.StartsExactly | src/exo/worker/plan.py:103-136 | a node without a runner starts one iff its backoff allows it and its own last runner is seen failed or no runner of the group is |
| GroupRecovery.RecoveryEnds | src/exo/worker/plan.py:75-136 | however the nodes take turns, a group of n is done shutting down and restarting after at most n(n+2) steps |
| GroupRecovery.DoneExactly | src/exo/worker/plan.py:75-136 | no node has such a step left iff every node has a runner and none is seen failed |
| BringUp.PlanIsSafe | src/exo/worker/plan.py:47-72 | whatever a node believes, its planner does not fail and its answer is safe for the whole group |
| BringUp.StepKeepsInv | src/exo/worker/plan.py:170-346 | every step keeps the ranks in step with one another |
| BringUpProgress.SafeBringUp | src/exo/worker/plan.py:170-346 | in every run with stale views: the last rank connects after all others began, loading waits for all connected, rank 0 warms up after all others began, work waits for all ready |
| BringUpProgress.StepsMoveForward | src/exo/worker/plan.py:170-300 | each planned or completed phase raises the phase sum by one, nothing lowers it |
| BringUpProgress.NeverStuck | src/exo/worker/plan.py:47-72 | with current views and downloads done, each node on inputs of its own and any requests waiting: unless all are ready some step moves a runner, or first passes on a cancellation that is still outstanding |
| BringUpProgress.BringUpFinishes | src/exo/worker/plan.py:47-72 | learning, cancelling and moving can be scheduled to the end, by a decreasing measure |
| BringUpProgress.EveryRunCanFinish | src/exo/worker/plan.py:47-72 | from every reachable state some schedule makes every runner ready |
| BringUpProgress.BringUpCompletes | src/exo/worker/plan.py:170-300 | the group is ready exactly when the moves so far fill the phase sum, whatever the order |
| PlannerFailures.LookupExactly | src/exo/worker/plan.py:342-345 | the lookup raises, refuses or accepts according to the first runner of the assignment not seen ready: missing, seen, or none |
| PlannerFailures.FirstDispatchFailsExactly | src/exo/worker/plan.py:303-346 | for any requests and runners, the search raises iff it first stops at a runner whose lookup meets a missing one |
| PlannerFailures.PlanFailsExactly | src/exo/worker/plan.py:47-72 | the planner raises iff no earlier alternative has an answer and the search for work raises |
| PlannerFailures.ReadyRunnerFailsExactly | src/exo/worker/plan.py:332-346 | with one ready runner and no failure in sight: raises iff a runner is missing and some dispatchable request is eligible |
| PlannerFailures.SingleNodeFails | src/exo/worker/plan.py:342-345 | a single-node input on which the planner raises |
| PlannerFailures.MultiNodeFails | src/exo/worker/plan.py:342-345 | a multi-node input, after a peer's shutdown, on which the planner raises |
| LlamaRouter.DecisionIsUnique | src/exo/api/llama_router.py:208-245 | a turn of the wait loop decides one thing |
| LlamaRouter.Select | src/exo/api/llama_router.py:209-226 | the selected replica serves the model, is available and has a place free; of all such it has the smallest part of its places in use, then the fewest completed requests, then the least id; none is selected iff there is none |
| LlamaRouter.SleepFor | src/exo/api/llama_router.py:229-241 | the sleep ends at the deadline or at the first cooldown end, whichever comes first |
| LlamaRouter.ReplicaLease.Release | src/exo/api/llama_router.py:76-80 | only the first release goes on |
| LlamaRouter.LlamaRequestRouter.Acquire | src/exo/api/llama_router.py:200-247 | refused iff the queue is full; otherwise granted, expired or left waiting, and only a waiting request stays counted |
| LlamaRouter.LlamaRequestRouter.Resume | src/exo/api/llama_router.py:208-247 | a turn of a waiting request, uncounted when it ends |
| LlamaRouter.LlamaRequestRouter.ReleaseRuntime | src/exo/api/llama_router.py:249-261 | the place is given back; a failed return raises `failed` and makes the replica unavailable for the cooldown, any other raises `completed`; all other replicas stay |
| LlamaLeases.StepKeepsInv | src/exo/api/llama_router.py:200-261 | every step keeps books, queue count and sound sleep |
| LlamaLeases.RunKeepsInv | src/exo/api/llama_router.py:200-261 | in every interleaving: active equals open leases and is within 0..max, completed and failed equal the leases returned as served and as failed, granted equals their sum, waiting equals the waiting requests and is within the queue bound, no eligible replica is slept through, cooldowns are bounded |
| LlamaLeases.ReturnedOnce | src/exo/api/llama_router.py:76-80 | a lease gives its place back at most once, however often it is released |
| LlamaLeases.GrantsTheLeastBusy | src/exo/api/llama_router.py:209-226 | every grant of a run goes to a replica that can take the request and than which no other that can is less busy |
| LlamaLeases.FailedReplicaRests | src/exo/api/llama_router.py:249-261 | in every run a replica that failed a request is granted to nobody before the cooldown is over |
| LlamaLeases.WaitEndsAtDeadline | src/exo/api/llama_router.py:229-231 | past its deadline a request is awake or woken, and its next turn ends the wait |
| ImageTransfer.CutRoundTrip | src/exo/api/main.py:859-861 | cutting loses nothing and makes pieces of 1 to 524288 characters, all but the last of 524288; only the empty image has none |
| ImageTransfer.JoinedBatch | src/exo/api/main.py:858-861 | the pieces of a whole batch hold each image as it was |
| ImageTransfer.EveryImageIsCarried | src/exo/api/main.py:848-852 | an image whose hash was not sent before goes with this command |
| ImageTransfer.Sender.Send | src/exo/api/main.py:831-878 | hashes of all images, globally numbered chunks of the new ones, and the grown set of sent hashes |
| ImageWorker.SortedJoin | src/exo/worker/main.py:163-167 | joining an image's chunks in sorted order assembles it |
| ImageWorker.Worker.Receive | src/exo/worker/main.py:145-172 | buffers the chunk; at the count, every image of the command is cached under its own hash |
| ImageWorker.Worker.Dispatch | src/exo/worker/main.py:336-353 | starts iff every hash is cached, which for the hashes of a command means that its images are; with the original images in index order; drops the command's buffers |
| ImageDelivery.FullBuffer | src/exo/worker/main.py:154-172 | a complete buffer gives back exactly the non-empty images of its batch |
| ImageDelivery.StepKeepsInv | src/exo/worker/main.py:145-172 | sending, delivery in any order and dispatch keep the transfer invariant |
| ImageDelivery.ReadyExactly | src/exo/worker/plan.py:323-330 | in every run a request can start iff each image has content and all chunks of some request that carries it have arrived |
| ImageDelivery.AllArrivedReady | src/exo/api/main.py:841-878 | once all chunks arrived, exactly the requests without an empty image can start, images of earlier requests included |
| ImageDelivery.EmptyImageNeverStarts | src/exo/api/main.py:859-861 | a request with an empty image is never started |

## Left out

- rust/networking and rust/exo_pyo3_bindings: the network is the environment of the step systems.
- src/exo/download: HTTP, file system and hashing; only the reported progress is modelled.
- The HTTP API other than sending images; adapters, Ollama and Claude shims, tracing endpoints, dashboards and benchmarks.
- Merging of collected traces: such events are consumed and never indexed, and that is all the model says of them.
- Command handling in the master other than log requests and instance deletion; task scheduling over instances, node timeouts by clock and health checks.
- Choice of the cycle in `place_instance`, tensor-parallel assignment and host lists; `Placement.AddInstance` models only the result map.
- `Topology.get_rdma_cycles` and the other cycle queries; completeness of the bridge cycles, which edge and network changes do not recompute.
- `node_identities` and `node_backends` after a timeout: the code does not clear them, so they are outside the subset invariant; what they hold is stated by `ReducerHistory`.
- How far a recovered group gets: a node whose planner never sees a peer's failure keeps its runner, and whether the group then becomes ready is not stated.
- Memory fit of the second CFG group: the code validates the first half of the ring only.
- That every lease is eventually released: cancellation during the upstream request is not caught by the code.
- Image edits, which assemble from the same buffers, and `Node` fields other than master and router.
- Wall-clock delays, backoff, float rounding, log rotation and compression, task cancellation inside runners.
