# Verified model of nomad-rs

A Dafny 4.11 model of the hard parts of a single-process Nomad-style orchestrator, with proofs about
every input, every run and every interleaving of that model. `dafny verify dfyconfig.toml` checks it.

## What is modelled

| file | part of the system |
|---|---|
| `Domain.dfy` | jobs, nodes, allocations, evaluations and their validators |
| `StateMachine.dfy` | the state store, the commands, what a log of commands means |
| `Raft.dfy` | the single-node consensus node with rollback of rejected proposals |
| `RaftLog.dfy` | the disk-backed log: index offset, truncation, snapshots, compaction, reopening |
| `EvalQueue.dfy`, `EvalQueueRuns.dfy` | the evaluation broker and its laws over every run |
| `Ids.dfy` | textual ids |
| `Placement.dfy`, `PlacementLaws.dfy`, `Capacity.dfy`, `PlanLaws.dfy`, `Commit.dfy` | the placement engine, optimality of a group and of a plan, capacity, committing |
| `Scoring.dfy` | what each term of a score is worth and which node it wins |
| `Scheduler.dfy`, `Drain.dfy` | the scheduler's loops and the queue drain |
| `Server.dfy`, `Worker.dfy`, `ServerRuns.dfy` | RPC handlers and the scheduler worker as interleaved steps |
| `Membership.dfy`, `Gossip.dfy` | roster merging and the gossip network |
| `Frames.dfy` | length-prefixed frames on a byte stream |
| `Finite.dfy` | folds over finite maps and sequences as bags |

Each stateful object of the program is a class (`StateStore`, `Fsm`, `RaftNode`, `RaftLogStore`,
`EvalQueue`, `RpcEndpoint`, `Worker`, `GossipMembership`, `ByteStream`). Its methods are proved to move
its `View()`, a plain value, by a specification function; the laws are lemmas about those values. A run
is a sequence of operations or events; an event the state rules out does not happen, so a statement
about `After(start, events)` for all `events` is a statement about every reachable state. A step is what
happens while one lock is held, so whatever another task can do in between is another step.

What the environment decides is a parameter: the clock, the iteration order of hash maps, which top
entry a heap pops, the nanosecond stamp in evaluation ids, message delivery. `Constraint` and `Affinity`
carry an arbitrary predicate on node attributes. Scores are real numbers. JSON is an encoding that can
be decoded again. Integers are unbounded.

The main results:

* **Capacity.** A node is within the capacity it advertises at every point of a run if and only if no
  re-registration offers less than what is live on it, and no commit finds a record that does not cover
  its reservations with the plan in place (`CapacityOverRuns`); with redeliveries overwriting earlier
  allocations and RPC writes falling between planning and committing. Such a commit needs the node to have
  been re-registered with less since the plan was made (`OvercommitNeedsShrink`), and it does happen
  (`ShrinkOvercommits`, `OvercommitHappens`). That no re-registration leaves the node short of what is
  live plus what the pending plan adds is enough (`NeverShortIsSafe`) and not necessary
  (`ShrinkAndGrowBack`).
* **Greedy optimality.** The instances placed for a group are the smaller of the count and the number of
  copies that fit on all suitable nodes together, and no assignment places more, for every policy that
  picks a node that suits whenever one does (`GreedyCount`, `GreedyIsOptimal`, and `GroupTurn` for each
  group of a plan). For a job whose groups ask for the same of a node, such as a job with one group, the
  whole plan is optimal over the eligible nodes and neither preferences nor the listing order of the
  nodes change its size (`UniformIsOptimal`, `UniformIgnoresPathAndOrder`). For groups of different
  shapes the order does matter (`OrderMatters`).
* **Preference.** Which node the ranked path takes follows from the weights, sizes and live allocations
  alone: one more affinity wins between equal nodes, a weight of over 50 beats any bin-packing, and a
  rarer attribute value wins a spread (`OneMoreAffinityWins`, `AffinityOutweighs`, `RarerWins`).
* **Broker.** Conservation of every evaluation in each place it can be, three deliveries of each evaluation
  per admission, and a drain order that is the unique priority-then-first-in order (`PlacesBalance`,
  `Conservation`, `ThreeDeliveriesEach`, `DrainIsPriorityFifo`).
* **Replication.** The state is the replay of the log, the log is exactly what succeeded, lookups return
  the last write, and compaction, truncation, reopening and crashes inside creating a snapshot preserve
  the meaning of the log; a crash inside installing one does so under an exact condition
  (`ReachableIsReplay`, `LogIsSucceeded`, `LastWriteWins`, `CompactionPreservesMeaning`,
  `CrashesPreserveMeaning`, `CrashesExactly`).
* **Gossip.** Under loss, duplication, reordering, misdelivery and overlapping departures every record is
  what its subject itself published; rosters only move forward about others; a departure is final;
  merging is a join (`RecordsAreTrue`, `RunForward`, `LeftIsFinal`, `DeliveryOrderIrrelevant`). A member's
  record about itself is its latest, and never falls, if and only if no departure publishes a lower number
  after a higher one (`OverlappingLeaves`); one push-pull makes two rosters equal if and only if neither
  knew more of the other than the other itself (`PushPullEqualizes`); and two rounds of push-pulls with one
  member make all rosters of a cluster equal (`ClusterConverges`).

Where code and documentation differ, the model follows the code:

* `read_frame` documents end-of-stream only before any byte of a frame (`src/rpc.rs:209-210`), but one to
  three header bytes also read as end-of-stream (`src/rpc.rs:221-227`; `PrefixYieldsPrefix`).
* `last_index` documents `0` for an empty log (`src/raft_log.rs:163`), but after compaction it is the
  index before the base (`src/raft_log.rs:167-169`).
* `Allocation::validate` is documented to check resources (`src/alloc.rs:94`) and does not; that stored
  reservations are never negative is proved from where allocations come from instead.
* Deregistering a job says its evaluation stops the allocations (`src/rpc.rs:145`); planning for an
  unknown job does nothing (`src/scheduler.rs:229`). No run ever stops an allocation (`NothingIsStopped`),
  and those of a deregistered job hold their reservations for good (`DeregisteredStays`).
* A node chosen for one instance is not always kept for the next: an instance that fills a node exactly
  loses the bin-pack term (`src/scheduler.rs:70`). `StickyIff` gives the exact condition,
  `ExactFillNotSticky` a whole family where it fails.
* A crash between renaming the snapshot and rewriting the log file leaves a log that reopens with wrong
  positions unless nothing was compacted (`CrashPositions`). The state it rebuilds is right all the same,
  because replaying a log twice changes nothing (`CrashKeepsState`).
* A crash between renaming an installed snapshot and emptying the log (`src/raft_log.rs:254-261`) replays
  old entries on the new snapshot, and may bring back what it had replaced (`InstallCrashRegresses`);
  `InstallCrashState` and, over whole runs, `CrashesExactly` give the exact condition.
* A node that registers between planning and parking unblocks nothing, since the evaluation is not parked
  yet (`src/server.rs:77-86`, `src/rpc.rs:159-160`); it then stays parked although it fits
  (`ParkedTooLate`).
* Leaving draws its number before it locks the roster (`src/membership.rs:229-231`), so overlapping calls
  may publish the lower number last (`LateHappens`); `OverlappingLeaves` gives the exact condition.
* A plan is committed against whatever the nodes have become since it was made (`src/server.rs:77-81`);
  nothing checks capacity again (`OvercommitHappens`).

## Model

| member | source | states |
|---|---|---|
| `StateMachine.ReplayConcat` | src/fsm.rs:60-68 | replaying a log in two parts is replaying it whole |
| `StateMachine.AcceptedSnoc` | src/fsm.rs:54-68 | an extended log is accepted exactly when the old log is and the new command is accepted where replay reaches it |
| `StateMachine.ReplayKept` | src/state.rs:46-143 | whatever was proposed, every stored entity is valid and stored under its own id |
| `StateMachine.JobRejected` | src/jobspec.rs:110-210 | a job is rejected exactly for a missing name, a priority outside 1 to 100, no or a nameless datacenter, or a faulty group, and then nothing changes |
| `StateMachine.OthersRejected` | src/eval.rs:105-121 | nodes, allocations and evaluations are rejected exactly for missing names and links and a priority outside 1 to 100 |
| `StateMachine.LastJobWins` | src/state.rs:46-68 | from any store, a job lookup after replay returns the latest valid registration since the last deregistration, or what was there before |
| `StateMachine.LastUpsertWins` | src/state.rs:81-149 | from any store, node, allocation and evaluation lookups after replay return the latest valid upsert of that id, or what was there before |
| `StateMachine.LastWriteWins` | src/fsm.rs:60-68 | every lookup in a replayed store returns what the log last said about that key |
| `StateMachine.ReplayTwice` | src/fsm.rs:60-68 | replaying a log a second time changes nothing, even where the second pass rejects a command |
| `StateMachine.ReplaySettledIff` | src/fsm.rs:60-68 | replaying a log changes nothing exactly when every key the log writes is last written as the store has it |
| `StateMachine.StateStore.UpsertJob` | src/state.rs:46-50 | stores the job under its name, or reports a validation error and changes nothing |
| `StateMachine.StateStore.DeleteJob` | src/state.rs:63-68 | removes exactly that job, or reports an error and changes nothing |
| `StateMachine.StateStore.UpsertNode` | src/state.rs:81-85 | stores the node under its id, or reports a validation error and changes nothing |
| `StateMachine.StateStore.UpsertAlloc` | src/state.rs:104-108 | stores the allocation under its id, or reports a validation error and changes nothing |
| `StateMachine.StateStore.UpsertEval` | src/state.rs:139-143 | stores the evaluation under its id, or reports a validation error and changes nothing |
| `StateMachine.Fsm.Apply` | src/fsm.rs:60-68 | dispatches a command to the store operation it names, all or nothing |
| `Consensus.ProposeReplicated` | src/raft.rs:67-81 | a proposal keeps the state equal to the replay of the log with no prefix rejected |
| `Consensus.ProposalAnswers` | src/raft.rs:67-81 | a runtime error off the leader, the state machine's own error for an unknown job or an invalid entity, or success; an error leaves the node as it was |
| `Consensus.ReachableIsReplay` | src/raft.rs:46-81 | every node reachable by proposals, leader or not, has state equal to replay, nothing rejected, only valid entities; a follower's log stays empty |
| `Consensus.LogIsSucceeded` | src/raft.rs:67-93 | the log is exactly the proposals answered with success, in order, so the committed index counts them |
| `Consensus.RaftNode.Propose` | src/raft.rs:67-81 | appends and applies, and on rejection or on a follower leaves log and state exactly as before |
| `Consensus.RaftNode.Bootstrap` | src/raft.rs:54-57 | a leader with an empty log and an empty store |
| `Consensus.RaftNode.New` | src/raft.rs:48-51 | a follower with an empty log and an empty store |
| `LogStore.NextInv` | src/raft_log.rs:113-297 | every operation keeps indices consecutive from the base and the log file equal to memory; reopening then changes nothing |
| `LogStore.RunInv` | src/raft_log.rs:77-297 | the same in every run, with any snapshots created or installed |
| `LogStore.TruncateKeepsBelow` | src/raft_log.rs:271-297 | truncation keeps exactly the held entries below the given index, also when it is below the base |
| `LogStore.AppendExtends` | src/raft_log.rs:113-138 | an append adds one held entry, at the index after the last |
| `LogStore.SnapshotRecords` | src/raft_log.rs:205-217 | a snapshot records the state and term given and the greatest index held, or the one before the base |
| `LogStore.InstallRecords` | src/raft_log.rs:245-264 | a restart after an installation finds the snapshot installed, entire, and no entries |
| `LogStore.RecoveredIsReplay` | src/raft_log.rs:5-9 | replaying the retained entries on the snapshot is replaying the uncompacted log |
| `LogStore.SnapshotRefines` | src/raft_log.rs:200-237 | compaction by a snapshot of the rebuilt state changes nothing of the uncompacted log |
| `LogStore.TruncateRefines` | src/raft_log.rs:271-297 | truncation acts on the uncompacted log alike, but never below what compaction absorbed |
| `LogStore.RunRefines` | src/raft_log.rs:77-297 | in every run the held entries are a suffix of the uncompacted log and the snapshot is the replay of the rest |
| `LogStore.CompactionPreservesMeaning` | src/raft_log.rs:77-237 | restarting after any run of appends, snapshots and reopens rebuilds the replay of every command ever appended; with truncation and installed snapshots, the replay of the uncompacted log |
| `LogStore.RestartRebuildsNode` | src/raft_log.rs:5-9 | a consensus node whose commands were appended here comes back in the state it had |
| `LogStore.CrashPositions` | src/raft_log.rs:85-103 | after a crash at any stage of a snapshot the reopened log is well indexed, except between rename and rewrite, where it is if and only if there was nothing to compact |
| `LogStore.CrashKeepsState` | src/raft_log.rs:213-234 | after a crash at any stage of a snapshot a restart rebuilds the state there was |
| `LogStore.SnapshotAbsorbs` | src/raft_log.rs:205-227 | a snapshot covers every entry held, so nothing is kept and the rebuilt state is the snapshot's |
| `LogStore.InstallCrashPositions` | src/raft_log.rs:250-261 | after a crash inside an installation the reopened log is well indexed, except between rename and emptying, where it is if and only if nothing is held or the snapshot ends where the entries begin |
| `LogStore.InstallCrashState` | src/raft_log.rs:250-261 | after a crash between rename and emptying a restart rebuilds the state installed if and only if the old entries last wrote every key as the snapshot has it |
| `LogStore.InstallCrashRegresses` | src/raft_log.rs:250-261 | after such a crash an older version of a job in the log replaces the newer one in the snapshot |
| `LogStore.InstallCrashOfOwnState` | src/raft_log.rs:250-261 | such a crash does no harm when the snapshot is of the state this log rebuilds |
| `LogStore.CrashesExactly` | src/raft_log.rs:77-264 | in every run of appends, snapshots, installations, reopens and crashes inside either, a restart rebuilds what it should at every point if and only if no installation died between its two writes while the log still disagreed with its snapshot |
| `LogStore.CrashesPreserveMeaning` | src/raft_log.rs:77-237 | in every such run without installations, a restart rebuilds the replay of every command ever appended |
| `LogStore.RaftLogStore.Open` | src/raft_log.rs:77-106 | loads the base from the snapshot and every line of the log file |
| `LogStore.RaftLogStore.Append` | src/raft_log.rs:113-138 | assigns the next index and writes the entry to memory and disk |
| `LogStore.RaftLogStore.Get` | src/raft_log.rs:142-149 | returns the held entry at an index, which carries that index, or none |
| `LogStore.RaftLogStore.EntriesFrom` | src/raft_log.rs:153-161 | returns all and only the held entries from an index on, in order |
| `LogStore.RaftLogStore.GetLastIndex` | src/raft_log.rs:165-171 | the greatest held index, or the index before the base when nothing is held |
| `LogStore.RaftLogStore.CreateSnapshot` | src/raft_log.rs:200-237 | stores the snapshot, drops what it covers and rewrites the log file |
| `LogStore.RaftLogStore.InstallSnapshot` | src/raft_log.rs:245-264 | replaces the whole log state by the snapshot |
| `LogStore.RaftLogStore.Truncate` | src/raft_log.rs:271-297 | drops entries at or above an index from memory and disk |
| `Broker.TopExists` | src/eval_queue.rs:55-64 | a non-empty heap has a greatest entry |
| `Broker.TopIsOldestOfHighest` | src/eval_queue.rs:55-64 | a popped entry is exactly one of highest priority and, within it, of lowest sequence number |
| `Broker.EvalQueue.Enqueue` | src/eval_queue.rs:125-131 | the evaluation waits under a fresh sequence number with no deliveries |
| `Broker.EvalQueue.Dequeue` | src/eval_queue.rs:142-150 | hands out a top entry, counts the delivery and tracks it in flight; none exactly when nothing waits |
| `Broker.EvalQueue.Ack` | src/eval_queue.rs:158-161 | forgets the in-flight delivery |
| `Broker.EvalQueue.Nack` | src/eval_queue.rs:170-181 | requeues the delivery at the back, or drops it at the cap |
| `Broker.EvalQueue.ReapExpired` | src/eval_queue.rs:194-212 | requeues or drops every expired delivery, in some order, and returns how many |
| `Broker.EvalQueue.ListExpired` | src/eval_queue.rs:196-201 | lists each expired delivery once and nothing else |
| `Broker.EvalQueue.Block` | src/eval_queue.rs:228-231 | parks the evaluation |
| `Broker.EvalQueue.UnblockAll` | src/eval_queue.rs:240-250 | moves every parked evaluation to the heap in order, with its deliveries reset |
| `BrokerRuns.RunInv` | src/eval_queue.rs:125-250 | in every reachable queue sequence numbers are distinct and below the counter, waiting entries have at most two deliveries and in-flight ones one to three |
| `BrokerRuns.StepBalance` | src/eval_queue.rs:125-250 | each operation balances what is held against what came in and what went out, on the heap, in flight and parked |
| `BrokerRuns.PlacesBalance` | src/eval_queue.rs:125-250 | over every run each of the three places holds what was put into it less what was taken out, evaluation by evaluation |
| `BrokerRuns.Conservation` | src/eval_queue.rs:125-250 | over every run each enqueued or parked evaluation is still held, or was acked, dropped or overwritten, as often as it entered |
| `BrokerRuns.DepthMatchesLedger` | src/eval_queue.rs:286-291 | each of the three depth counters is what the ledger says went into that place and did not leave it |
| `BrokerRuns.RequeuedBySweeps` | src/eval_queue.rs:170-212 | without negative acknowledgements, everything put back on the heap came from a sweep |
| `BrokerRuns.OverwrittenIffCollision` | src/eval_queue.rs:142-150 | an in-flight delivery is lost by overwriting if and only if some dequeue hands out an id still in flight |
| `BrokerRuns.RequeueOrDrop` | src/eval_queue.rs:170-181 | a failed delivery is dropped exactly at the third; otherwise it waits behind everything of its priority or higher, with its count kept |
| `BrokerRuns.ReapTakesExpired` | src/eval_queue.rs:194-212 | reaping takes back exactly the deliveries as old as the timeout and leaves the others untouched |
| `BrokerRuns.DeliveryExpires` | src/eval_queue.rs:142-212 | a delivery handed out at some time, and neither ended nor handed out again since, is taken back by a sweep if and only if the timeout has passed since that time |
| `BrokerRuns.StepFuel` | src/eval_queue.rs:125-250 | for any evaluations watched, a delivery uses up one of the deliveries owed to them, an admission adds three, and nothing else adds any |
| `BrokerRuns.DeliveriesPaidFor` | src/eval_queue.rs:125-250 | from any queue, deliveries of the watched evaluations are at most what was owed plus three for each of their admissions |
| `BrokerRuns.DeliveriesBounded` | src/eval_queue.rs:18-21 | a run without enqueue or unblock hands out the watched evaluations at most as often as their entries had deliveries left |
| `BrokerRuns.ThreeDeliveriesEach` | src/eval_queue.rs:18-21 | over any run each evaluation is handed out at most three times for each time it was enqueued or unblocked |
| `BrokerRuns.DrainSorts` | src/eval_queue.rs:3-7 | popping until empty yields a permutation in strict priority and first-in order |
| `BrokerRuns.SortedDrains` | src/eval_queue.rs:3-7 | and any permutation in that order is what popping yields |
| `BrokerRuns.DrainIsPriorityFifo` | src/eval_queue.rs:3-7 | so draining a reachable heap yields exactly the unique sorted order |
| `BrokerRuns.UnparkedInOrder` | src/eval_queue.rs:240-250 | parked evaluations of one priority are delivered, once unblocked, in the order they were parked |
| `Ids.DecimalRoundTrip` | src/scheduler.rs:305 | the decimal suffix of an id determines the number |
| `Ids.AllocIdInjective` | src/scheduler.rs:304-306 | evaluation id and position are recoverable from an allocation id |
| `PlacementLaws.FirstMeans` | src/scheduler.rs:248-253 | first-fit picks the first node that suits, and none only if none does |
| `PlacementLaws.BestMeans` | src/scheduler.rs:263-279 | ranked placement picks a node no other candidate outranks, and none only if none suits |
| `PlacementLaws.BestIff` | src/scheduler.rs:277-279 | the ranked choice is exactly the head of the list sorted by falling score, then position |
| `PlacementLaws.ChooseMeans` | src/scheduler.rs:246-279 | on both paths a node is chosen if and only if some node fits and meets the constraints |
| `PlacementLaws.DemandIsSum` | src/scheduler.rs:173-179 | an instance demands, resource by resource, the sum over all tasks of its group |
| `PlacementLaws.DemandConcat` | src/scheduler.rs:173-179 | demands of two lists of tasks add up |
| `PlacementLaws.DemandCovers` | src/scheduler.rs:173-179 | an instance demands at least what each of its tasks needs |
| `PlacementLaws.WantedIsSum` | src/scheduler.rs:216-218 | the instances wanted are the sum of the counts, a negative one counting for none |
| `PlacementLaws.WantedConcat` | src/scheduler.rs:216-218 | the instances two lists of groups want add up |
| `PlacementLaws.RuleSensible` | src/scheduler.rs:246-279 | the engine's rule is sensible however nodes are scored |
| `PlacementLaws.CopiesIsMax` | src/scheduler.rs:204-206 | placing copies one after another fits exactly as many as fit together |
| `PlacementLaws.PlaceOneCharges` | src/scheduler.rs:254-258 | both paths charge the chosen slot and record one allocation on its node |
| `PlacementLaws.TakeUsesOne` | src/scheduler.rs:255-257 | one placement uses up exactly one copy's room |
| `PlacementLaws.RoomLeft` | src/scheduler.rs:241-289 | what a group lands and what further copies would still find room for is what all of them would have found room for together |
| `PlacementLaws.GreedyCount` | src/scheduler.rs:241-289 | instances placed equal the smaller of the count and the copies that fit on all suitable nodes |
| `PlacementLaws.GreedyIsOptimal` | src/scheduler.rs:241-289 | no feasible assignment of at most the count places more |
| `PlacementLaws.CountIgnoresPathAndOrder` | src/scheduler.rs:246-289 | on the same free capacity, first-fit, ranked placement and every order of the slots place the same number of a group |
| `PlacementLaws.StickyIff` | src/scheduler.rs:56-95 | a chosen node is chosen again exactly when the next instance fits and leaves something free, or the node's preference alone still outranks the rest |
| `PlacementLaws.ExactFillNotSticky` | src/scheduler.rs:70 | of two equal nodes with room for two, the first chosen loses the second instance although it fits |
| `PlacementLaws.SpreadPrefersRarer` | src/scheduler.rs:117-169 | with equal targets the spread term is larger for the attribute value with fewer live allocations |
| `ScoringLaws.ChoosesBy` | src/scheduler.rs:241-279 | without affinities and spreads the first node that suits is chosen; with either, the best scored, the earlier on a tie |
| `ScoringLaws.AffinityDifference` | src/scheduler.rs:60-64 | two nodes differ in affinity score by the weights one satisfies and the other does not |
| `ScoringLaws.ScoreDifference` | src/scheduler.rs:56-95 | two equally large and equally free nodes differ in score by affinities and spreads alone |
| `ScoringLaws.PreferredWins` | src/scheduler.rs:262-279 | of two such nodes that suit, the one whose affinities weigh less is never chosen |
| `ScoringLaws.OneMoreAffinityWins` | src/scheduler.rs:262-279 | nor is one while such a node suits that satisfies one more affinity of positive weight |
| `ScoringLaws.BinPackDifference` | src/scheduler.rs:67-89 | while something stays free, using up a part of one resource adds a third of 50 times that part |
| `ScoringLaws.BinPackEnds` | src/scheduler.rs:67-89 | an idle node and an exactly filled one earn nothing for bin-packing |
| `ScoringLaws.BinPackBounded` | src/scheduler.rs:87-89 | the bin-packing term stays between 0 and 50 |
| `ScoringLaws.AffinityOutweighs` | src/scheduler.rs:56-95 | whatever the sizes and the fill, a node is never chosen while one suits whose affinities weigh over 50 more |
| `ScoringLaws.TargetIsSum` | src/scheduler.rs:145-147 | a value's explicit target is the sum of the percentages given for it |
| `ScoringLaws.UniqueValuesCounts` | src/scheduler.rs:149-160 | without one, the values present among the nodes share evenly, each counted once |
| `ScoringLaws.LiveGrows` | src/scheduler.rs:124-143 | storing one more allocation raises the live count of its node's value, and of no other, by one |
| `ScoringLaws.SpreadMeans` | src/scheduler.rs:117-169 | a spread is worth the percentage points by which the live share of the node's value falls short of its target |
| `ScoringLaws.SpreadsAdd` | src/scheduler.rs:117-169 | several spreads add up |
| `ScoringLaws.RarerWins` | src/scheduler.rs:117-169 | of two such nodes whose values have one target, the one on the value with more live allocations is never chosen |
| `Capacity.UsageRemove` | src/scheduler.rs:182-191 | total live reservation does not depend on the order the table is summed in |
| `Capacity.UsageUpsert` | src/state.rs:104-108 | storing an allocation adds at most its share to a node, and exactly that when its id is new |
| `Capacity.UsageIsTotal` | src/scheduler.rs:182-191 | usage is, resource by resource, the total reserved by pending and running allocations on the node |
| `Capacity.WithinIff` | src/scheduler.rs:182-191 | a node is within capacity exactly when no resource is reserved in total beyond what the node has of it |
| `Capacity.StoredUsage` | src/scheduler.rs:324-329 | after a commit usage is at most usage before plus the plan's reservation, on every node and whatever is overwritten |
| `Capacity.SoundOne` | src/scheduler.rs:254-258 | each placement keeps every slot equal to its start minus the plan's reservation, and non-negative once charged |
| `Capacity.SoundGroups` | src/scheduler.rs:241-291 | the same for a whole plan, which never exceeds the instances wanted |
| `Capacity.StartSlotsFrom` | src/scheduler.rs:232-240 | the starting slots are eligible nodes, each once, with their free capacity |
| `Capacity.StartSlotsCover` | src/scheduler.rs:232-240 | every eligible node is among them |
| `Capacity.PlanFits` | src/scheduler.rs:227-292 | a plan's allocations are valid, live and named by position; on every node touched live plus planned is within capacity; there are at most as many as desired |
| `Capacity.WantedIff` | src/scheduler.rs:216-218 | the desired count is positive exactly when some group has a positive count |
| `Capacity.EmptyPlanMeansUnplaceable` | src/scheduler.rs:241-291 | an empty plan for a known job means no eligible node has room for one instance of any wanted group |
| `PlanLaws.StartSlotsPermuted` | src/scheduler.rs:232-240 | two listings of one store start the plan from permutations of the same slots |
| `PlanLaws.GroupTurn` | src/scheduler.rs:241-291 | each group of a plan lands the smaller of its count field and the room left to it, and no assignment to the slots as it finds them lands more |
| `PlanLaws.DesiredIsSum` | src/scheduler.rs:216-218 | what a stored job wants is the sum of its counts, and nothing when the job is unknown |
| `PlanLaws.PlanMeans` | src/scheduler.rs:227-314 | every planned allocation is a pending instance of a wanted group, under the names of its job and group, reserving the sum over the group's tasks, on a registered node that is ready, eligible, not draining and meets every constraint |
| `PlanLaws.PlannedCovers` | src/scheduler.rs:173-179 | a planned allocation reserves at least what each task of its group needs |
| `PlanLaws.UniformCount` | src/scheduler.rs:227-292 | when all groups ask for the same of a node, the whole plan lands the smaller of what is wanted and what the eligible nodes hold |
| `PlanLaws.SingleCount` | src/scheduler.rs:227-292 | a job with one group lands the smaller of its count and the room there is |
| `PlanLaws.UniformIgnoresPathAndOrder` | src/scheduler.rs:227-292 | neither the listing order of the nodes nor affinities and spreads change the size of such a plan |
| `PlanLaws.UniformIsOptimal` | src/scheduler.rs:227-292 | no assignment of the wanted instances to the eligible nodes of the store lands more than such a plan |
| `PlanLaws.OrderMatters` | src/scheduler.rs:241-258 | with groups of different shapes, one listing order of two nodes lands one instance and the other lands two |
| `PlanLaws.OrderMattersHere` | src/scheduler.rs:241-258 | a store, an evaluation and two listing orders for which it does |
| `Commit.ValidPlanCommits` | src/scheduler.rs:324-329 | a plan of valid allocations commits in full |
| `Commit.FailsAtFirst` | src/scheduler.rs:324-329 | a plan fails exactly when an allocation of it is invalid; what precedes the first such one stays committed and nothing from it on is |
| `Commit.PlanCommits` | src/scheduler.rs:324-341 | a plan made from a well-kept store commits in full; nodes it touched are within capacity and no other node's usage grew, even when it overwrites allocations of an earlier delivery |
| `Scheduler.FreeCapacity` | src/scheduler.rs:182-191 | advertised capacity minus all live reservations |
| `Scheduler.ListNodes` | src/state.rs:95-97 | lists every node once, in some order |
| `Scheduler.EligibleSlots` | src/scheduler.rs:232-240 | the eligible nodes with their free capacity, in listing order |
| `Scheduler.FindFirst` | src/scheduler.rs:249-250 | the first slot that suits |
| `Scheduler.FindBest` | src/scheduler.rs:263-279 | the head of the scored candidates |
| `Scheduler.FindById` | src/scheduler.rs:281-283 | the first slot with a node id |
| `Scheduler.PlaceFirstFit` | src/scheduler.rs:246-258 | the first-fit loop computes the group's placement |
| `Scheduler.PlaceRanked` | src/scheduler.rs:259-289 | the scoring loop computes the group's placement |
| `Scheduler.ProcessEval` | src/scheduler.rs:227-292 | returns the plan for some listing order of the nodes, every allocation of it as `PlanMeans` says |
| `Scheduler.ApplyPlan` | src/scheduler.rs:324-329 | commits in order and stops at the first rejection |
| `Scheduler.ProcessAndApply` | src/scheduler.rs:337-341 | from a well-kept store nothing is rejected, touched nodes are within capacity afterwards and no other node's usage grew |
| `Drain.StoredIds` | src/scheduler.rs:304-306 | a commit adds exactly the ids named after its evaluation |
| `Drain.StoredFresh` | src/scheduler.rs:324-329 | with fresh ids the table grows by exactly the plan, and usage on every node by exactly what the plan reserves there |
| `Drain.UnplaceableStays` | src/scheduler.rs:355-374 | what could not be placed still cannot be once usage has only grown |
| `Drain.DrainRound` | src/scheduler.rs:357-366 | one round counts its placements, keeps the other ids fresh, keeps parked evaluations unplaceable and parks only an unplaceable one |
| `Drain.AccountedKeeps` | src/scheduler.rs:357-366 | each round parks its evaluation exactly if it wants something and got nothing, and leaves the others accounted for |
| `Drain.DrainQueue` | src/scheduler.rs:355-374 | terminates; from a well-kept store succeeds with an empty heap; with fresh ids returns the growth of the allocation table, every evaluation it parked is unplaceable in the final state, and of those that waited it parked exactly the ones that want something and got nothing |
| `Server.EvalIdInjective` | src/rpc.rs:177-184 | evaluation ids of different jobs or times differ |
| `Server.HandlerEvalsValid` | src/rpc.rs:120-154 | the evaluations handlers enqueue are valid |
| `Server.RpcEndpoint.Commit` | src/rpc.rs:105-112 | refuses on a follower, otherwise proposes |
| `Server.RpcEndpoint.CommitThen` | src/rpc.rs:127-161 | tells the broker only after the command committed; a refusal has no effect |
| `Server.RpcEndpoint.Handle` | src/rpc.rs:120-172 | the whole effect of a request is its list of steps, none of which writes an allocation; a write is answered by success, refusal or the validation error, and a dequeue by a top entry of the heap, or none exactly when nothing waits |
| `ServerRuns.RegisterTakesEffect` | src/rpc.rs:122-140 | a registration stores the job and leaves an evaluation of it waiting, with its priority and under the id answered |
| `ServerRuns.DeregisterTakesEffect` | src/rpc.rs:141-154 | a deregistration removes the job and leaves an evaluation of it waiting at priority 50 |
| `ServerRuns.NodeRegisterTakesEffect` | src/rpc.rs:155-161 | a node registration stores the node and puts every parked evaluation behind what waits, in order and with no deliveries |
| `WorkerLoop.Worker.SweepStep` | src/server.rs:63-68 | the leader reaps deliveries older than a minute |
| `WorkerLoop.Worker.FetchStep` | src/server.rs:69-76 | takes the next evaluation, or goes idle |
| `WorkerLoop.Worker.PlanStep` | src/server.rs:77 | plans against the state at that moment |
| `WorkerLoop.Worker.CommitStep` | src/server.rs:78-81 | proposes the plan until the first error |
| `WorkerLoop.Worker.DecideStep` | src/server.rs:82-86 | parks exactly when nothing was placed although something is wanted |
| `WorkerLoop.Worker.ParkStep` | src/server.rs:86 | parks the evaluation |
| `WorkerLoop.Worker.FinishStep` | src/server.rs:88-90 | acknowledges, or requeues after a failed commit |
| `ServerRuns.QueueIsBrokerRun` | src/server.rs:54-93 | every server run drives the broker through a broker run, so all broker laws hold in it |
| `ServerRuns.ProposePlanCommits` | src/server.rs:78-81 | on the leader an engine-made plan commits in full whatever the store has become |
| `ServerRuns.RunInv` | src/server.rs:54-93 | in every reachable server state the store is the replay of the log, all entities are valid, no reservation is negative and no plan commit has failed, so the nack branch is never taken |
| `ServerRuns.NeverNacks` | src/server.rs:82-90 | no server run ever nacks an evaluation |
| `ServerRuns.RequeuesAreSweeps` | src/server.rs:54-93 | in every server run whatever went back on the heap came from a sweep |
| `ServerRuns.FinishAcknowledges` | src/server.rs:88-90 | a finished round takes its evaluation out of flight and changes nothing else in the broker |
| `ServerRuns.RoundsAcknowledge` | src/server.rs:69-90 | every evaluation the worker fetched is acknowledged exactly once, in the order fetched, except for the one of the round under way |
| `ServerRuns.EachFetchSwept` | src/server.rs:54-76 | every attempt to fetch, successful or not, has a sweep of its own before it |
| `ServerRuns.SweepTakesMinuteOld` | src/server.rs:63-68 | a sweep takes back exactly the deliveries sixty seconds old or older |
| `ServerRuns.ParksExactly` | src/server.rs:82-86 | the worker parks exactly when nothing was placed and some group of the registered job has a positive count |
| `ServerRuns.StepSafeIff` | src/server.rs:77-81 | from a state where a node is within capacity, a step leaves it so exactly unless it re-registers the node below what is live or commits a plan its record does not cover |
| `ServerRuns.CapacityOverRuns` | src/server.rs:54-93 | over every run a node is within capacity at every point if and only if no re-registration undercuts what is live on it and no commit finds a record that does not cover the node with the plan in place |
| `ServerRuns.CapacityPerResource` | src/server.rs:54-93 | in such a run, whenever something is pending or running on a node, no resource is reserved on it in total beyond what the node has |
| `ServerRuns.OvercommitNeedsShrink` | src/server.rs:77-81 | a commit overloads a node only if the node was re-registered with less since the plan was made |
| `ServerRuns.ShrinkOvercommits` | src/server.rs:77-81 | with new ids, re-registering a node between plan and commit takes it over capacity exactly when it offers less than what is live plus what the plan adds |
| `ServerRuns.OvercommitHappens` | src/server.rs:77-81 | a run that ends with a node over its capacity |
| `ServerRuns.NeverShortIsSafe` | src/server.rs:54-93 | a node is within capacity throughout if no re-registration leaves it short of what is live plus what the pending plan adds |
| `ServerRuns.ShrinkAndGrowBack` | src/server.rs:77-81 | that condition is not necessary: a node may shrink below the pending plan and grow back before the commit |
| `ServerRuns.GrowingIsEnough` | src/rpc.rs:155-162 | registering with at least as much of everything never leaves a node short |
| `ServerRuns.RpcKeepsAllocs` | src/rpc.rs:120-172 | no RPC request changes an allocation or the worker's plan |
| `ServerRuns.InterleavedCommit` | src/server.rs:77-81 | with any RPC requests between planning and committing, the plan commits in full and every touched node whose record did not change is within capacity |
| `ServerRuns.ParkedWasUnplaceable` | src/server.rs:82-86 | an evaluation the worker parks was unplaceable, or its job unknown, when it was planned |
| `ServerRuns.ParkedIsUnplaceable` | src/server.rs:77-86 | if nothing is written between planning and parking, the evaluation cannot be placed at the moment it is parked |
| `ServerRuns.ParkedTooLate` | src/server.rs:77-86 | a run in which a node registers in between and an evaluation stays parked although it fits |
| `ServerRuns.RedeliveryDoesNotMultiply` | src/scheduler.rs:304-341 | however often an evaluation is delivered, it holds at most as many allocations as its job ever wanted when it was planned |
| `ServerRuns.NothingIsStopped` | src/server.rs:54-93 | in every reachable state every stored allocation is live: no run ever stops one |
| `ServerRuns.StaysUntilReplanned` | src/scheduler.rs:227-231 | an allocation stays exactly as it is until its evaluation is planned again while its job is registered |
| `ServerRuns.DeregisteredStays` | src/rpc.rs:141-154 | once a job is deregistered and not registered again, each of its allocations keeps its node and its reservation for good |
| `Membership.MergedIsBest` | src/membership.rs:111-125 | a merge knows exactly the members reported and holds for each a record none beats, ignoring claims about oneself |
| `Membership.MergeOrderIrrelevant` | src/membership.rs:111-125 | for consistent reports, order and multiplicity do not matter |
| `Membership.MergeGroupingIrrelevant` | src/membership.rs:111-125 | merging two messages in turn is merging their records together |
| `Membership.GossipMembership.Start` | src/membership.rs:167-178 | a roster holding itself, alive at incarnation zero |
| `Membership.GossipMembership.Merge` | src/membership.rs:111-125 | the roster becomes the merge of the reports |
| `Membership.GossipMembership.Snapshot` | src/membership.rs:128-138 | every record once, in some order |
| `Membership.GossipMembership.Receive` | src/membership.rs:146-156 | merges a datagram, and owes an answer exactly to a push-pull that asks for one |
| `Membership.GossipMembership.Answer` | src/membership.rs:149-151 | answers with every record of the roster as it is by then, asking for nothing back |
| `Membership.GossipMembership.Join` | src/membership.rs:192-193 | sends the whole roster and asks for the peer's |
| `Membership.GossipMembership.DrawNumber` | src/membership.rs:229 | draws the next incarnation, before the roster is locked |
| `Membership.GossipMembership.PublishLeft` | src/membership.rs:230-235 | marks itself left under the number drawn |
| `GossipNetwork.RecordsAreTrue` | src/membership.rs:111-243 | in every reachable network, however departures overlap, each record about a member equals what the member published under that incarnation, never beyond its counter, and no incarnation is published twice |
| `GossipNetwork.ReachableIsTrue` | src/membership.rs:111-243 | the same from a network nobody has joined yet |
| `GossipNetwork.AddressesAreTrue` | src/membership.rs:167-178 | every record about a member, in any roster or message, carries the address it bound when it started |
| `GossipNetwork.RunForward` | src/membership.rs:111-125 | no roster forgets another member and no incarnation it holds of another member falls |
| `GossipNetwork.LeftIsFinal` | src/membership.rs:228-243 | an observed departure never reverts, in one's own record either |
| `GossipNetwork.OverlappingLeaves` | src/membership.rs:228-235 | over every run, with any number of calls to leave under way, a member's record about itself is its latest at every point, and never falls, if and only if no lower number is published after a higher one |
| `GossipNetwork.LateHappens` | src/membership.rs:228-235 | from every reachable state, two calls that publish in the opposite order of drawing leave the member with a record it has superseded |
| `GossipNetwork.LatestWhenSettled` | src/membership.rs:228-235 | when no call to leave is under way, holding the latest record is holding that of the counter |
| `GossipNetwork.OneAtATime` | src/membership.rs:228-235 | the newest number drawn is never published late, so departures one at a time are safe |
| `GossipNetwork.DeliveryOrderIrrelevant` | src/membership.rs:141-158 | deliveries with the same records leave the same roster in any order, grouping and multiplicity |
| `GossipNetwork.PushPullEqualizes` | src/membership.rs:146-154 | one uninterrupted push-pull leaves both rosters equal, self entries included, if and only if neither knew more of the other than the other itself; neither falls behind where it was |
| `GossipNetwork.LatestNotAhead` | src/membership.rs:111-125 | nobody knows more of a member that holds its own latest record |
| `GossipNetwork.PushPullAfterRun` | src/membership.rs:146-154 | after any run in which neither published a departure late, a push-pull makes two rosters equal |
| `GossipNetwork.ExchangeStep` | src/membership.rs:146-154 | a push-pull between members that hold their own latest records makes their rosters equal, sets neither back and touches no other |
| `GossipNetwork.ClusterConverges` | src/membership.rs:141-158 | in a cluster of any size, after all others push-pulled with one member and then once more, in any order and with repetitions, all rosters are equal |
| `GossipNetwork.CalmAfterRun` | src/membership.rs:111-243 | which applies after every run in which no departure was published late and no answer is outstanding |
| `Frames.HeaderIsBigEndian` | src/rpc.rs:202-205 | the header's first byte is the most significant |
| `Frames.HeaderRoundTrip` | src/rpc.rs:202-228 | the length is read back |
| `Frames.ReadFirst` | src/rpc.rs:216-235 | a whole frame at the front yields its message and leaves the rest |
| `Frames.ReadOversize` | src/rpc.rs:228-231 | a header announcing more than 8 MiB is an error, whatever follows |
| `Frames.ReadUndecodable` | src/rpc.rs:232-234 | a whole frame whose payload cannot be decoded is an error, and is consumed |
| `Frames.ReadCut` | src/rpc.rs:216-235 | a frame cut short yields no message: the end of the stream inside the header, an error inside the payload |
| `Frames.StreamRoundTrip` | src/rpc.rs:193-235 | the frames of any list of messages read back as those messages, then end of stream |
| `Frames.PrefixYieldsPrefix` | src/rpc.rs:193-235 | a stream cut anywhere yields exactly the messages whose frames arrived whole, and then the end if and only if fewer than four bytes are left over, otherwise an error |
| `Frames.ByteStream.WriteFrame` | src/rpc.rs:193-207 | appends one frame, or nothing and an error above 8388608 bytes |
| `Frames.ByteStream.ReadFrame` | src/rpc.rs:216-235 | consumes one frame, or reports end of stream or an error |

## Left out

- GossipNetwork.RecordsAreTrue: assumes, as the program does, that no two members bear the same name; a gossip message may be sent at any time, not only after leaving.
- Broker.EvalQueue.ReapExpired: the clock is an integer chosen by the environment at each call, not a monotone instant.
- Scheduler.FindBest: finds the head of the sorted candidate list by scanning; the sort itself is not modelled, and scores are reals, so rounding and total order of floats are not captured.
- Frames.ByteStream.ReadFrame: bytes arrive as one sequence; partial reads, timeouts and socket errors other than end of stream are not modelled.
- LogStore.RaftLogStore.CreateSnapshot: disk write errors and torn writes are not modelled; a crash cuts the operation only between its writes to the two files.
- LogStore.RaftLogStore.InstallSnapshot: disk write errors and torn writes are not modelled; what a crash between its two writes costs is stated by `InstallCrashPositions`, `InstallCrashState` and `CrashesExactly`.
- Machine integers: sums in `group_demand`, `free_capacity` and `desired_count` are unbounded, so overflow is not modelled.
- Poisoned mutexes, tokio scheduling, shutdown and the idle sleep of the worker; the worker's role check is the leader test of its first step.
- Elections, log replication between servers, and wiring the consensus node to the disk log, none of which the program has yet.
- The operator language of constraints (regular expressions, versions, numeric comparison), which is an arbitrary predicate here.
- `StateStore::save`/`load`, list and filter getters, job metadata, node drivers and classes: they would add only easy members.
- Datacenter filtering, preemption, stopping allocations on deregistration and driver health: planning does none of these.
- ACL, variables, HTTP API, CLI, configuration, and the validate-only modules (service, update, volume, template, network, namespace, scaling, drain, deployment, dispatch, reschedule): single-branch checks.
- Drivers, task and allocation runners, client and agent: process control and status flags.
- TLS, metrics, logging, OpenTelemetry, cron and SQLite client state: library behaviour.
