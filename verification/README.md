# A verified model of the Raft node and the cluster it forms

This project models the consensus core of a C++ Raft implementation (`src/raft.cpp`,
`inc/rafty/raft.hpp`, `inc/toolings/msg_queue.hpp`) in Dafny and proves what the protocol promises
about every run: election, log replication with fast backup, commit advancement, in-order apply, and
delivery through the channel that the state machine reads from. The protocol is the one of sections
5.2, 5.3, 5.4.1 and 5.4.2 and Figures 2 and 3 of Ongaro and Ousterhout, "In Search of an
Understandable Consensus Algorithm" (USENIX ATC 2014).

## How it is built

- **The node.** `NodeSpec.dfy` gives each critical section of class Raft (the code between taking and
  releasing the mutex) as a function from one node state to the next. `RaftNode.dfy` is the class
  itself: fields updated in place, and the loops for merging, the conflict scan, the binary search,
  the commit scan and applying. Every method is proved to have exactly the effect of its function, so
  the theorems are about the loops too.
- **The cluster.** `Cluster.dfy` is a transition system with one step per critical section, including
  the unlocked read of the election term. Threads and messages form a pool that only grows: each may
  be delayed, reordered, lost or used again. A reply carries the locals its sender captured. A
  candidacy may start in any role, because the role is checked before its thread runs. A run is a
  sequence of steps each of which is enabled; the theorems quantify over all runs.
- **The proof.** `History.dfy` computes from a run who led each term with which log, who voted for
  whom holding which log, and what was acknowledged. No step reads it. Five invariants are stated over
  a state and its history (`Elections`, `Logs`, `Acks`, `Commits`, `Indices`); `Preservation.dfy`
  shows that each step keeps them, and `Reachability.dfy` that they hold in every reachable state.
- **The results** are in `Theorems`, `Consequences`, `Weaving` (Log Matching), `Votes`, `Repair`,
  `MessageQueue`, `Delivery`, and, for what happens when an assumption is dropped, in `EvenSizes` and
  `Witnesses`, which build runs for every cluster size.
- **What must happen, not only what must not.** Safety alone would allow a handler that refuses
  everything. `Outcomes.dfy` therefore states what every handler does on every branch, in comparisons
  on the fields of the node and the message; `Progress.dfy` shows what that achieves for messages in
  flight, and that no reachable state is stuck: any run can be continued until a new command was
  applied by every node (`Progress.CommandCanBeApplied`), and its consumer can be made to see it
  (`Delivery.AppliedReachesConsumer`).

## Assumptions, by name

- **SafeSize**: the cluster has an odd number of nodes, or at most two. The vote test
  (`src/raft.cpp:455`) compares with half the number of *peers*, which is a strict majority only at
  odd sizes. Size two is still safe because the test is only made after a peer's vote arrived.
  `EvenSizes.ElectionSafetyIffSafeSize` shows that the condition is exact.
- **Only leaders send**: an append request is built while its sender is Leader (`senders == {Leader}`
  in the model). The code checks the role when it spawns the thread (`src/raft.cpp:77`) and not again
  under the lock (`src/raft.cpp:683`). Election Safety, Log Matching and the vote accounting are
  proved without it. `Witnesses.StateMachineSafetyIff` shows that, at three or more nodes, State
  Machine Safety holds exactly when the size is odd and this assumption is made; otherwise two nodes
  apply different commands at index 1.
- **Crash means stop**: term, vote and log live in memory only (`inc/rafty/raft.hpp:121-124`).
- Ids are 0 to n-1, every node knows all others as peers, and integers are mathematical.

## Where the code differs from what a reader might expect

- The follower bounds its commit index by its own log size, not by the last entry it just received
  (`src/raft.cpp:1060-1065`). `Consequences.FollowerBoundSafe` shows the two agree, because a request
  carries the whole suffix of the leader's log.
- matchIndex may fall: the guard against it is commented out (`src/raft.cpp:842-845`). It is truthful
  nevertheless (`Consequences.MatchIndexTruthful`), and the incremental commit scan still finds what a
  global scan would (`Consequences.CommitScanIsGlobal`).
- Once a peer acknowledged something, nextIndex is matchIndex plus one, so a conflict answer is only
  ever handled with matchIndex 0.
- propose_sync reports success when the commit index reached its proposal, without looking at the term
  (`src/raft.cpp:1179`). `Consequences.SyncAcknowledgementDurable` gives the condition under which the
  answer means what it says, `Witnesses.SyncAcknowledgementCanLie` a run where it does not.
- dequeue on a closed channel yields the default value even if items are queued, and try_dequeue
  ignores the closed flag; the model follows the code.

## Model

| member | source | states |
|---|---|---|
| `Theorems.StateMachineSafety` | src/raft.cpp:626-657 | the sequences any two nodes handed to apply, at any two points of any run, are prefixes one of the other |
| `Witnesses.StateMachineSafetyIff` | src/raft.cpp:683-710 | at every size from three on, applied sequences always agree if and only if the size is odd and only leaders build append requests |
| `Witnesses.StaleSenderDiverges` | src/raft.cpp:77-113 | at every size from three on, if a non-leader may build a request, some run makes two nodes apply different commands |
| `EvenSizes.EvenSizeDiverges` | src/raft.cpp:1030-1057 | at every even size from four on, two leaders of one term make two nodes apply different commands, because entries are compared by term only |
| `Theorems.ElectionSafety` | src/raft.cpp:448-456 | no run has two nodes that were Leader in the same term, whoever may send |
| `EvenSizes.ElectionSafetyIffSafeSize` | src/raft.cpp:455 | for every size, Election Safety holds if and only if the size is odd or at most two |
| `EvenSizes.TwoLeaders` | src/raft.cpp:262-296 | at every even size from four on, some run has two leaders of term 1 with different entries |
| `Completeness.LeaderCompleteness` | src/raft.cpp:551-583 | what a majority acknowledged at an index of the leader's own term is in the log of every later leader, already when it was elected |
| `Theorems.CommittedInLaterLeaders` | src/raft.cpp:854-871 | once a leader's commit index is N, every leader of a later term holds the same first N entries |
| `Consequences.CommittedPrefixImmutable` | src/raft.cpp:1037-1065 | along any run, nothing at or below a node's commit index changes, and commitIndex, lastApplied and the applied sequence only grow |
| `Weaving.LogMatching` | src/raft.cpp:977-1057 | two logs of any run, at any two points, with the same term at the same index are identical up to that index, whoever may send |
| `Consequences.ReachableRelated` | src/raft.cpp:1112-1124 | reachable logs have positive, nondecreasing terms bounded by their node's term, and match wherever their terms match |
| `Votes.VotesCountedRight` | src/raft.cpp:399-453 | each peer in a candidate's vote set granted a request with the candidate's present term and present last entry, and voted for nobody else in that term |
| `Consequences.RepairInRuns` | src/raft.cpp:760-831 | in a reachable state, alternating requests and answers of the real handlers ends exactly at the longest common prefix, after at most one rejection more than the follower's log has terms |
| `Repair.RepairExactAndBounded` | src/raft.cpp:335-355 | the same for a newly elected leader, without a condition on nextIndex |
| `Repair.RepairExact` | src/raft.cpp:771-816 | the first accepted request starts right after the longest common prefix |
| `Repair.RepairBounded` | src/raft.cpp:977-1025 | rejections number at most one plus the distinct terms of the follower's log |
| `Repair.MismatchesFall` | src/raft.cpp:994-1022 | conflict terms are terms of the follower's log and fall strictly between successive mismatches |
| `Repair.ExchangeIsRepair` | src/raft.cpp:683-831 | exchanging messages between the two handlers follows the abstract repair sequence |
| `Consequences.NextIndexInRange` | src/raft.cpp:689-705 | while Leader, 1 <= nextIndex <= log size + 1 and 0 <= matchIndex < nextIndex for every peer |
| `Consequences.RepliesInRange` | src/raft.cpp:718-881 | no reply in flight, however stale, makes its handler reach outside the log |
| `Consequences.RejectionSound` | src/raft.cpp:777-831 | the conflict search stays in range, equals a linear scan, and leaves nextIndex above matchIndex and below its old value |
| `Consequences.CommitScanIsGlobal` | src/raft.cpp:841-880 | after an accepted reply commitIndex is the larger of its old value and the largest current-term index a majority holds, over the whole log |
| `Consequences.MatchIndexTruthful` | src/raft.cpp:837-848 | while its term lasts, a peer's log starts with matchIndex entries of the leader's log |
| `Consequences.FollowerBoundSafe` | src/raft.cpp:1060-1065 | leaderCommit never exceeds the last index a request carries, so the follower's bound equals the bound of Figure 2 |
| `Consequences.ProposalInPlace` | src/raft.cpp:1106-1132 | an index holds the proposed entry if and only if it carries the proposal's term, and does so while the proposer is in that term |
| `Consequences.SyncAcknowledgementDurable` | src/raft.cpp:1146-1195 | if the wait ends in the proposal's term, whatever any node ever applies at that index is the proposed value |
| `Consequences.SyncAcknowledgementInLeaders` | src/raft.cpp:1169-1182 | and every later leader's log holds the proposed entry at that index |
| `Witnesses.SyncAcknowledgementCanLie` | src/raft.cpp:1179-1183 | after a term change propose_sync can report success although another command was applied at its index |
| `Consequences.HandlingTwiceIsOnce` | src/raft.cpp:925-1068 | handling any append request a second time changes nothing and gives the same reply |
| `Consequences.OvertakenRequestHarmless` | src/raft.cpp:1027-1057 | an older request of the same term, handled after one reaching further, is accepted and leaves the log alone |
| `LogOps.MergeSlice` | src/raft.cpp:1030-1057 | merging a slice of the leader's log leaves the log unchanged or makes it exactly the leader's log up to the last entry sent |
| `LogOps.MergeKeepsShared` | src/raft.cpp:1037-1045 | no prefix shared with the leader is lost in a merge |
| `LogOps.BinarySearchIsLinearScan` | src/raft.cpp:784-807 | on nondecreasing terms the binary search returns the last position of the term in the range, or -1 |
| `Progress.CommandCanBeApplied` | src/raft.cpp:58-1132 | every run of two or more nodes, whatever was lost or delayed, can be continued until some leader appended a given command and every node applied that leader's whole log |
| `Progress.ElectBest` | src/raft.cpp:551-583 | from every state in which all nodes run, a leader can be elected that no node is ahead of |
| `Progress.Publish` | src/raft.cpp:683-881 | such a leader, whatever indices it holds, can get its whole log committed by every node |
| `Progress.LoneNodeNeverLeads` | src/raft.cpp:448-456 | a node without peers never becomes leader |
| `Progress.AppliedIsCommitted` | src/raft.cpp:635-654 | in every reachable state a node has applied exactly the first commitIndex entries of its log, in order |
| `Progress.AnnouncedIsCommitted` | src/raft.cpp:1060-1065 | a follower that accepts a request in flight ends with the larger of its own and the announced commit index, all of it applied |
| `Progress.AcknowledgementRecorded` | src/raft.cpp:837-848 | every counted acknowledgement in flight, heartbeats included, sets matchIndex to the last index its request covered and changes no other peer's indices |
| `Progress.RejectionMovesBack` | src/raft.cpp:771-816 | every counted rejection in flight with conflict information moves nextIndex back, to after the last searched entry of the conflicting term or to the conflict index |
| `Progress.VoteReplyCatchesUp` | src/raft.cpp:415-427 | after handling a vote reply in flight, granted or denied, a node is not behind the reply's term |
| `Progress.AppendReplyCatchesUp` | src/raft.cpp:718-733 | after handling an append reply that is not older than one counted, the term is the larger of both, and a raised term ends leadership |
| `Outcomes.VoteOutcome` | src/raft.cpp:486-613 | the vote is granted exactly when it is free in the request's term and the candidate's last entry is at least the voter's by (term, index); term, vote and role after every branch |
| `Outcomes.VotingIsTotal` | src/raft.cpp:551-583 | of any two running nodes at least one would elect the other, both exactly when their logs end alike |
| `Outcomes.VotingIsTransitive` | src/raft.cpp:551-583 | whom a node's preferred candidate would elect, the node would elect |
| `Outcomes.VoteReplyOutcome` | src/raft.cpp:415-458 | a denial raises the term to the reply's and ends the candidacy, or changes nothing; a current grant is counted and wins above half the peers; any other grant changes nothing |
| `Outcomes.RequestOutcome` | src/raft.cpp:925-1028 | which requests are refused, rejected or accepted, and the term, vote, role and reply after each |
| `Outcomes.ConflictOutcome` | src/raft.cpp:994-1022 | a rejection reports the end of a log too short, or the first index of the run of the conflicting term |
| `Outcomes.AcceptedLog` | src/raft.cpp:1030-1057 | acceptance keeps the log up to the previous index, makes every sent entry match, and changes the log exactly if some sent entry was missing or differed, ending it with the last one sent |
| `Outcomes.AcceptedCommit` | src/raft.cpp:1060-1065 | the commit index becomes the larger of its old value and the smaller of the announced one and the log's length |
| `Outcomes.AcceptedApply` | src/raft.cpp:635-654 | what acceptance newly commits is applied at once, in order |
| `Outcomes.HigherTermOutcome` | src/raft.cpp:718-733 | an append reply of a higher term makes the node a follower of that term without a vote |
| `Outcomes.SupersededOutcome` | src/raft.cpp:718-774 | a reply that is stale by counter, term, role or captured indices changes no index, term or role |
| `Outcomes.AcknowledgementOutcome` | src/raft.cpp:833-848 | a counted success sets the peer's matchIndex and nextIndex from the request and leaves all other peers' |
| `Outcomes.RejectionOutcome` | src/raft.cpp:817-831 | a counted rejection moves only nextIndex; without conflict information one down, but not to matchIndex |
| `Outcomes.ConflictBackup` | src/raft.cpp:777-816 | with conflict information, nextIndex follows the last searched entry of the conflicting term, or is the conflict index if there is none |
| `Outcomes.ProposalOutcome` | src/raft.cpp:1106-1132 | a leader, and only a leader, appends the proposal and reports its term and index |
| `Outcomes.StandingOutcome` | src/raft.cpp:262-277 | a candidacy enters exactly the next term with the node's own vote, and starting makes an active follower; nothing else changes |
| `Quorums.VotesMeetCommits` | src/raft.cpp:858-865 | at every size, a set passing the vote test meets every set passing the commit test |
| `Quorums.VoteTestIsMajorityIffOdd` | src/raft.cpp:448-455 | two sets passing the vote test always meet if and only if the size is odd (or zero) |
| `Quorums.WinnersMeetIffSafeSize` | src/raft.cpp:448-458 | with the vote of a peer required, exactly if the size is odd or at most two |
| `Reachability.ReachableInv` | src/raft.cpp:58-1132 | the complete invariant holds in every reachable state |
| `RaftNode.Raft.constructor` | src/raft.cpp:27-56 | a new node has the initial state |
| `RaftNode.Raft.Run` | src/raft.cpp:144-153 | refines Start |
| `RaftNode.Raft.BecomeCandidate` | src/raft.cpp:267-277 | refines the candidacy step |
| `RaftNode.Raft.BuildVoteRequest` | src/raft.cpp:399-406 | refines the request the step adds to the pool |
| `RaftNode.Raft.ReplyVote` | src/raft.cpp:486-613 | refines the vote step, state and reply |
| `RaftNode.Raft.BecomeLeader` | src/raft.cpp:335-355 | the loops over the peers give every peer its initial indices and nothing else |
| `RaftNode.Raft.ReceiveVoteReply` | src/raft.cpp:415-458 | refines the vote-reply step |
| `RaftNode.Raft.BuildAppendRequest` | src/raft.cpp:683-710 | with nextIndex in range, the copying loop gives the request of the step |
| `RaftNode.Raft.ApplyEntries` | src/raft.cpp:626-657 | the loop applies exactly the committed, unapplied entries in order |
| `RaftNode.Raft.FindConflict` | src/raft.cpp:994-1022 | the scan finds the first index of the run of the conflicting term |
| `RaftNode.Raft.MergeEntries` | src/raft.cpp:1030-1057 | the two loops compute Merge |
| `RaftNode.Raft.AppendEntries` | src/raft.cpp:925-1068 | refines the append step, state and reply |
| `RaftNode.Raft.SearchConflictTerm` | src/raft.cpp:784-807 | the loop computes BinarySearch |
| `RaftNode.Raft.ScanCommit` | src/raft.cpp:850-871 | the loop computes CommitScan |
| `RaftNode.Raft.CountHolders` | src/raft.cpp:857-864 | the loop counts the leader and the peers whose match index reaches N |
| `RaftNode.Raft.HandleRejection` | src/raft.cpp:760-831 | refines the backup after a rejection |
| `RaftNode.Raft.HandleSuccess` | src/raft.cpp:833-880 | refines the bookkeeping after a success |
| `RaftNode.Raft.ReceiveAppendReply` | src/raft.cpp:718-881 | refines the append-reply step; its requires is RepliesInRange's conclusion |
| `RaftNode.Raft.Propose` | src/raft.cpp:1106-1132 | refines the proposal step |
| `RaftNode.Raft.SyncResult` | src/raft.cpp:1179-1189 | success is reported exactly when the commit index reached the proposal |
| `MessageQueue.QueueConserves` | inc/toolings/msg_queue.hpp:56-104 | for every capacity and interleaving, consumed followed by queued equals accepted, and the size never exceeds max(1, capacity) |
| `MessageQueue.RendezvousDelivered` | inc/toolings/msg_queue.hpp:68-74 | an unbuffered enqueue that returns before close has had its own value consumed |
| `MessageQueue.SingleProducerInOrder` | inc/toolings/msg_queue.hpp:56-75 | with one producer, the accepted values are the offered ones in order, all of them while open |
| `MessageQueue.TakeOutcome` | inc/toolings/msg_queue.hpp:77-87 | in every run, dequeue waits exactly while the channel is open and empty, hands over the oldest accepted value of an open channel, and nothing of a closed one |
| `MessageQueue.TryTakeOutcome` | inc/toolings/msg_queue.hpp:89-97 | in every run, try_dequeue hands over the oldest accepted value whenever one is queued, open or closed |
| `MessageQueue.PushOutcome` | inc/toolings/msg_queue.hpp:56-67 | in every run, enqueue waits exactly while the open channel has as many unconsumed values as it may hold; then the value is accepted, or dropped when closed |
| `MessageQueue.LeaveOutcome` | inc/toolings/msg_queue.hpp:68-74 | in every run, enqueue returns at once if buffered or closed, and otherwise exactly when everything accepted was consumed |
| `MessageQueue.CloseOutcome` | inc/toolings/msg_queue.hpp:99-104 | close is always possible and keeps what is queued |
| `MessageQueue.Drain` | inc/toolings/msg_queue.hpp:77-87 | as many takes as an open channel holds items lead to consumed equal to accepted |
| `MessageQueue.ConsumeAll` | inc/toolings/msg_queue.hpp:56-97 | any open run with one producer can be continued until all it offered, and any further values, are consumed in order |
| `MessageQueue.Queue.EnqueuePush` | inc/toolings/msg_queue.hpp:56-67 | appends the value, or drops it when closed |
| `MessageQueue.Queue.Dequeue` | inc/toolings/msg_queue.hpp:77-87 | takes the oldest value, or nothing when closed |
| `MessageQueue.Queue.TryDequeue` | inc/toolings/msg_queue.hpp:89-97 | takes the oldest value if there is one, closed or not |
| `MessageQueue.Queue.CloseQueue` | inc/toolings/msg_queue.hpp:99-104 | sets the closed flag and keeps the items |
| `Delivery.ConsumerSeesLog` | src/raft.cpp:635-654 | a consumer of a node's channel sees its committed entries from index 1 in order, without gaps or repeats |
| `Delivery.AppliedReachesConsumer` | src/raft.cpp:635-654 | while a node's channel is open, its run can be continued until the consumer has seen exactly the node's committed entries |
| `Delivery.ConsumersAgree` | inc/toolings/test_config.hpp:244-264 | consumers of two nodes never see different values at one index, so the tester's cross-server check cannot fire |

## Left out

- gRPC servers, stubs, contexts, forwarding and the partition simulator: the pool of messages covers every way a network can lose, delay or repeat a call.
- Timers, randomised timeouts and liveness: a timer may expire at any time; a leader can always be elected and a command committed, but nothing is claimed about that happening eventually.
- Progress.CommandCanBeApplied: says that a continuation exists, not that every continuation gets there; one node alone never leads (LoneNodeNeverLeads), and sizes outside SafeSize are not covered.
- Logging, exception handlers, thread detaching and destructors: no effect on the state modelled.
- The condition variables of propose_sync: a wake-up is a later look at the node's state.
- Restarts and persistence: a node that stops takes no further steps.
- 64-bit overflow and signed/unsigned comparison; reading a missing key of an index map yields 0 as in C++, but the read does not insert the key.
- Test controller, benchmarks, command-line tools, configuration generation, and `src/raft copy.cpp`, which is commented out as a whole: they would add only easy members.
- Move construction and assignment of MessageQueue, not used by the protocol.
- Witnesses.StateMachineSafetyIff: sizes up to two are covered by StateMachineSafety only, that is for requests built by leaders; whether other senders are harmless there is not stated.
- RaftNode.Raft.BuildAppendRequest: requires nextIndex in range, which NextIndexInRange proves for leaders; out of that range the source has undefined behaviour.
- RaftNode.Raft.ReceiveAppendReply: requires ReplyInRange, which RepliesInRange proves for every reply in flight; out of that range the source has undefined behaviour.
- MessageQueue.Queue.EnqueuePush: covers enqueue up to its push; the wait before it is its precondition and the rendezvous wait after it is the Leave step of the interleaving model.
