# Asgard consensus core: a verified model

Asgard is a Raft-like consensus layer written in C. This project models its consensus core in Dafny and
proves what the core keeps over whole runs, where a natural expectation fails, and exactly when it holds.
`dafny verify dfyconfig.toml` checks everything.

## How the model is organised

Every handler exists twice. A function of values (`RingLogs`, `Consensus`, `Replication`, `LeaderRole`,
`CandidateRole`, `FollowerRole`) says what the handler makes of a node, so that lemmas can talk about it; a
method of a class that updates fields and arrays in place (`KvStore.SmLog`, `ConsensusPrivs.ConsensusPriv`)
has the loops of the source and is proved to compute that function. The same holds for the packet queue, the
failure detector, the heartbeat metrics and the membership counters. Lists and packet buffers have no value
twin: their methods are proved against sequences and decoders directly.

| file | module | content |
|---|---|---|
| `types.dfy`, `bytes.dfy` | `Types`, `Bytes` | unsigned views, remainder, little-endian integers in byte arrays |
| `ringlog.dfy`, `kvstore.dfy` | `RingLogs`, `KvStore` | the ring of slots, its four cursors, the unbounded log it refines |
| `node.dfy`, `consensus.dfy` | `Nodes`, `Consensus` | node state, messages, voting, role changes, the follower side of replication |
| `replication.dfy`, `leader.dfy`, `candidate.dfy`, `follower.dfy` | `Replication`, `LeaderRole`, `CandidateRole`, `FollowerRole` | sending, the commit rule, the packet handlers of each role |
| `consensuspriv.dfy` | `ConsensusPrivs` | the same handlers updating one object in place |
| `handshake.dfy` | `Handshake` | what one node's answer makes the next handler do |
| `cluster.dfy` | `Cluster` | the step machine: nodes, network, pending work items, runs |
| `election.dfy`, `safety.dfy`, `commitbound.dfy`, `backlog.dfy`, `acceptance.dfy`, `restriction.dfy` | `Election`, `Safety`, `CommitBound`, `Backlog`, `Acceptance`, `Restriction` | what holds over runs |
| `scenario.dfy`, `overrun.dfy`, `formerleader.dfy` | `Scenarios`, `Overrun`, `FormerLeader` | concrete runs in which something fails |
| `list.dfy`, `pktqueue.dfy` | `Lists`, `PktQueue` | the circular list and the packet queue with its doorbell |
| `wire.dfy`, `payload.dfy` | `Wire`, `Payloads` | message bytes, the chain of blocks in a payload, the receiving walk |
| `pacemaker.dfy`, `logger.dfy`, `membership.dfy` | `FailureDetector`, `HbMetrics`, `Membership` | failure detector, running averages, membership counters |

## The system that runs

A state holds the nodes, every packet ever sent (any of them may be delivered at any time, any number of
times, or never: loss, duplication and reordering), the work items a worker thread may execute late or twice,
and two history variables: the voters counted since a node's votes were reset, and the commands clients wrote.
A step delivers a packet, lets a heartbeat expire, broadcasts ALIVE, changes what a node believes about a
target, appends a client command at a leader, polls for something to replicate, or executes a work item.
Assumptions of the step machine:

- unicast mode; each handler is one atomic step; membership is fixed and ids are distinct;
- integers are mathematical, except where the source compares a signed index as `uint32_t` (`Types.ToU32`). Terms,
  which the source compares now as signed and now as unsigned (`src/core/consensus.c:290-297`), are compared as
  integers: over runs none is ever negative, and then the comparisons agree (`Election.TermsNeverNegative`);
- `append_rb` is a sink that accepts any number of entries, chosen per delivery, and then refuses;
- the index `update_next_retransmission_request_idx` leaves behind is an arbitrary choice of the delivery;
  `Replication` shows that the code as written never asks for a retransmission;
- a leader takes a command only while every follower's ring has room for it (`Cluster.RoomFor`). The code does
  not check this, and `RingLogs.AppendRefinesIff` says what happens without it;
- a packet may be overwritten in its send buffer before it is emitted, which is message loss;
- the consensus block comes first in its packet. The receiving handler reads the message it was sent if that is so
  (`Payloads.ExchangeLe`), and is given another block's bytes otherwise (`Payloads.HandedOwnBlockIff`).

`Config.votesOnce` restricts the network to one counted vote per target between vote resets;
`Config.allAlive` keeps every node's view of its targets alive. Both are off unless a result names them.

## Main results

- **State-machine safety.** In every run in which two nodes never lead at the same moment, what any node has
  delivered at any time and what any other node has delivered at any other time are prefixes of one another,
  and both are prefixes of the commands clients wrote (`Safety.StateMachineSafety`). The hypothesis holds
  whenever votes are counted once (`Election.VotesOnceMeansOneLeader`).
- **Leader uniqueness.** With votes counted once only the least id ever leads; with no delivery assumption
  votes still go from higher to lower ids and the greatest id never leads. A repeated VOTE breaks uniqueness:
  `FormerLeader.RepeatedVoteMakesTwoLeaders` is a run of three nodes that ends with two leaders.
- **Commit bound.** In every run in which two nodes never lead at the same moment, and whatever the failure
  detector says, no match index and no acknowledgement in flight passes what the follower concerned holds
  (`CommitBound.MatchesNeverOutrun`). Whenever the leader's commit index moves, the new value is at most what every
  target believed alive holds, and it passes what a target believed dead holds exactly when some qualifying match
  value does (`CommitBound.CommitOutrunsOnlyDead`). So a follower refuses to commit only if it was believed dead when
  the leader moved its commit index there (`CommitBound.RefusalMeansPresumedDead`), and with all targets alive no
  follower ever refuses (`CommitBound.CommitNeverRefused`). `Overrun` is a run in which a follower is outrun.
- **Backlog.** At every moment of such a run the leader's repeated sends to a target consist of consecutive messages
  that reach to the end of what clients wrote and carry, at each index the target has not applied, the client's
  command (`Backlog.BacklogIsServed`). Every APPEND in flight names the term its leader wrote the index before it
  with (`Acceptance.AppendNamesWrittenTerm`).
- **Acceptance.** A node that listens to its leader takes all entries of an APPEND that is not old, and acknowledges
  them, if and only if its last stable entry carries the leader's term (`Acceptance.AppendIsTakenIff`). It can carry
  another one only if the node took entries as a candidate of an earlier term, which files them under its own term
  (`Acceptance.RefusalMeansMisfiled`); `Overrun.InOrderAppendIsRefused` is a run in which this happens, after
  which the leader goes on with the same index (`Handshake.RejectionResumes`).
- **Handlers, exactly**: what every node makes of every ALIVE, APPEND, APPEND_REPLY, VOTE and NOMI, with the exact
  conditions for following, taking, matching, winning and granting a vote (`Handshake`).
- **Ring refinement and exactly-once delivery**, for any sequence of appends, scans, commits and refusals, with
  the exact condition under which an accepted append keeps the log in order.
- **One vote per term, exactly**: when a node that voted in a term votes in it again, over any sequence of
  nominations (`Handshake.VotesAgainIff`).
- **Election restriction**, with the one kind of candidate that slips through it, a former leader, and a run
  (`FormerLeader`) that reaches one.
- **Commit rule**: the nested loops compute a closed form that has exactly one solution.
- **Wire**: what is decoded is what was encoded, the receiver's walk meets exactly the blocks that were
  reserved, in order (`Payloads.Exchange`), and a message in the first block is what its handler decodes
  (`Payloads.ExchangeLe`).
- **Supporting structures**: list as sequence, queue order and doorbell, failure detector as a timestamp-free
  observer, averages with an error bound, conserved membership counts.

## Where the code and its documentation or intent differ

The model follows the code. Each of these is proved, either as a lemma with the failing case or as an
if-and-only-if:

- an APPEND's base size is 20 (`src/core/consensus.h:21`) while its entries start at byte 30
  (`src/core/payload.h:45`), so it writes ten bytes past its block; `Payloads.AppendIntoChain` says exactly when
  the blocks behind it survive. The leader gives every APPEND a packet of its own, so no block ever stands there;
- every sub-payload handler is given the start of the payload instead of its own block
  (`src/core/pkthandler.c:125`), which is its own block exactly if that comes first (`Payloads.HandedOwnBlockIff`);
- a reuse that changes the size of a block that is not the last moves the blocks behind it, and a reuse is
  not checked against the size limit (`Payloads.ReuseMovesTheNextBlock`, `Payloads.ReserveWithinLimit`);
- `voted` remembers only the last vote and a vote does not raise the term, so any vote in another term, older or
  newer, lets a node vote in a term again (`Handshake.VotesAgainIff`), and votes are counted without remembering
  who voted (`FormerLeader.RepeatedVoteMakesTwoLeaders`);
- a leader's own `stable_idx` is never advanced, so a former leader nominates itself with index -1
  (`Restriction.FormerLeaderSlipsThrough`, `FormerLeader.RestrictionFailsAfterLeaderChange`);
- a candidate takes an APPEND of a later term without taking over that term (`src/core/candidate.c:161-162`), and so
  its log refuses the leader's later entries (`Overrun.InOrderAppendIsRefused`, `Acceptance.RefusalMeansMisfiled`);
- a packet stamped like the last one checked is not noticed (`FailureDetector.CheckSeesLastStamp`);
- the gap test of `update_next_retransmission_request_idx` looks for an unallocated slot, and all slots are
  allocated up front (`Replication.RequestsNextGap`, `Replication.RetransmissionNeverRequested`);
- `min_latency` starts at -1 and is a minimum only if some latency is negative
  (`HbMetrics.MinLatencyIsAMinimum`);
- `active_cluster_member` and `dead_cluster_member` are documented as current numbers
  (`src/core/membership.h:71-75`); `Membership.CountersMeanWhatTheySay` says when they are;
- a teardown of a packet queue leaves the doorbell standing (`PktQueue.TeardownKeepsDoorbell`).

## Model

| member | source | states |
|---|---|---|
| RingLogs.WindowInjective | src/core/kvstore.c:61-74 | two indices in one window of max_entries never share a slot |
| RingLogs.AppendRefines | src/core/kvstore.c:76-128 | an append inside the open window succeeds and adds exactly that index to the unbounded log the ring stands for; no other index of the window is disturbed |
| RingLogs.StableScanExact | src/core/kvstore.c:143-160 | the scan stops at the first index that was never received, and not before |
| RingLogs.UpdateStableRefines | src/core/kvstore.c:132-162 | the scan keeps the refinement, makes stable_idx exact and never moves it back |
| RingLogs.StableTermRead | src/core/consensus.c:407-433 | the term in the slot of stable_idx is that of the last stable entry, unless that is applied and the entry one lap later has been received, whose term it then is |
| RingLogs.ApplyOneRefines | src/core/kvstore.c:207-226 | applying one entry slides the window by one, keeps the refinement and hands over the received entry |
| RingLogs.ApplyRefines | src/core/kvstore.c:180-233 | however many entries the sink takes, last_applied advances by that many up to commit_idx and what was delivered before stays |
| RingLogs.CommitRefines | src/core/kvstore.c:235-264 | commit_idx becomes the new index exactly if it lies above the old one and within stable_idx; the refinement and the cursor order hold afterwards |
| RingLogs.CommitKeepsEnds | src/core/kvstore.c:235-264 | committing never changes stable_idx, last_idx or the number of slots, on any log |
| RingLogs.AppendRefinesIff | src/core/kvstore.c:88-117 | an accepted append adds its index to the unbounded log if and only if the index lies in the open window, or rewrites the last applied entry with what is there already; the code tests neither |
| RingLogs.OverrunLosesEntry | src/core/kvstore.c:88-117 | one way to fall outside the window: an index one lap ahead of an unapplied entry is accepted and that entry's data is gone |
| RingLogs.RewriteFakesNextLap | src/core/kvstore.c:88-114 | the other way: writing the last applied index again is accepted and makes the index one lap later look received |
| RingLogs.LogStepRefines | src/core/kvstore.c:76-264 | every log operation keeps the refinement and only extends what was delivered |
| RingLogs.DeliveredExactlyOnce | src/core/kvstore.c:180-264 | after any sequence of appends, scans and commits with any refusals, the sink got exactly entries 0..last_applied, in order, and earlier deliveries are a prefix |
| KvStore.SmLog.constructor | src/core/consensus.c:872-887 | the initial ring stands for the empty log: every slot is invalid, whatever term and data its memory holds |
| KvStore.SmLog.AppendCommand | src/core/kvstore.c:76-128 | the in-place append is the append on values: error exactly if commit_idx is above the index, and then nothing changes |
| KvStore.SmLog.UpdateStableIdx | src/core/kvstore.c:132-162 | the loop leaves the log of the scan on values |
| KvStore.SmLog.ApplyLogToSm | src/core/kvstore.c:180-233 | the loop delivers as on values and reports success exactly if everything committed was delivered |
| KvStore.SmLog.CommitLog | src/core/kvstore.c:235-264 | the in-place commit is the commit on values |
| KvStore.SmLog.GetPrevLogTerm | src/core/kvstore.c:17-59 | the term read back, with the error value for an index below -1 or a slot above last_idx |
| Consensus.WrittenAt | src/core/consensus.c:454-464 | which indices an append writes, and with which entry and the follower's own term |
| Consensus.AppendAllRefines | src/core/consensus.c:454-464 | the append loop writes every entry of a message into the unbounded log and moves no other cursor |
| Consensus.AppendCommandsKeeps | src/core/consensus.c:436-487 | a stable or unstable append keeps the refinement and the exactness of stable_idx |
| Consensus.PrevLogMatchesIff | src/core/consensus.c:393-434 | against the unbounded log: the test at stable_idx passes if and only if nothing is stable yet or the term named is the one StableTermRead speaks of |
| Consensus.HandleAppendKeeps | src/core/consensus.c:489-599 | an APPEND that fits the window is ignored if old or empty, taken with every entry and acknowledged if it fits its packet and names the term of the last stable entry, and refused otherwise; in each case the refinement and the exactness of stable_idx hold, and stable_idx never decreases |
| ConsensusPrivs.ConsensusPriv.constructor | src/core/consensus.c:867-891 | a new node has term 0, no vote, no leader, empty lists and a log that stands for the empty log |
| ConsensusPrivs.ConsensusPriv.CheckHandleNomination | src/core/consensus.c:283-344 | the nested tests decide as the function the voting lemmas are about, and change nothing but the term |
| ConsensusPrivs.ConsensusPriv.ReplyVote | src/core/consensus.c:602-622 | only voted changes, to the term voted for, and the reply carries that term and candidate |
| ConsensusPrivs.ConsensusPriv.CleanRequestTransmissionLists | src/core/leader.c:335-363 | every list is empty and every counter went down by its list's length |
| ConsensusPrivs.ConsensusPriv.BecomeFollower | src/core/consensus.c:207-280 | the transition to follower, which clears the lists exactly if the node led |
| ConsensusPrivs.ConsensusPriv.BecomeCandidate | src/core/candidate.c:189-213 | the transition to candidate with its nomination, or the refusal with fewer than two targets |
| ConsensusPrivs.ConsensusPriv.InitializeIndices | src/core/leader.c:20-45 | next_index is stable_idx + 1, match_index is unset and the lists are empty for every target; nothing else changes |
| ConsensusPrivs.ConsensusPriv.BecomeLeader | src/core/leader.c:424-446 | the transition to leader |
| ConsensusPrivs.ConsensusPriv.AcceptLeader | src/core/consensus.c:183-200 | term, leader id and local leader id are the sender's and the node follows |
| ConsensusPrivs.ConsensusPriv.AcceptVote | src/core/candidate.c:46-96 | one more vote, and the leader role exactly if there are as many as targets |
| ConsensusPrivs.ConsensusPriv.CheckPrevLogMatch | src/core/consensus.c:393-434 | whether the entry at the given index exists and has the given term, -1 always matching |
| ConsensusPrivs.ConsensusPriv.AppendCommands | src/core/consensus.c:436-487 | the loop appends as on values or fails and leaves the log as it was |
| ConsensusPrivs.ConsensusPriv.HandleAppendRpc | src/core/consensus.c:489-599 | the handler's new node and reply are those HandleAppendKeeps speaks of |
| ConsensusPrivs.ConsensusPriv.IsPotentialCommitIdx | src/core/leader.c:47-65 | the counting loop agrees with the recursive count |
| ConsensusPrivs.ConsensusPriv.UpdateCommitIdx | src/core/leader.c:67-168 | the nested loops and the invalidation loop leave the node CommitRuleClosedForm speaks of |
| ConsensusPrivs.ConsensusPriv.QueueRetransmission | src/core/leader.c:170-207 | the search and the append to the list are the queueing on values |
| ConsensusPrivs.ConsensusPriv.GetNextIdxForTarget | src/core/replication.c:359-390 | the next request is popped, or next_index is offered |
| ConsensusPrivs.ConsensusPriv.SetupAppendMsg | src/core/payload.c:259-377 | the message and the advanced next_index are those SendOne speaks of |
| ConsensusPrivs.ConsensusPriv.CheckPending | src/core/replication.c:394-436 | the work item scheduled for a target, or none |
| ConsensusPrivs.ConsensusPriv.PrepareLogReplication | src/core/replication.c:148-215 | a work item sends nothing once leadership or the target is lost |
| ConsensusPrivs.ConsensusPriv.GetLowestAliveId | src/core/pacemaker.c:203-215 | the loop finds the value LowestAliveIsMinimum speaks of |
| ConsensusPrivs.ConsensusPriv.UpdateLeader | src/core/pacemaker.c:217-245 | the candidature decision is the one StandsExactlyWhenLowest speaks of |
| ConsensusPrivs.ConsensusPriv.FollowerProcessPkt | src/core/follower.c:13-140 | a follower's reaction to every message, as used in runs |
| ConsensusPrivs.ConsensusPriv.CandidateProcessPkt | src/core/candidate.c:98-178 | a candidate's reaction to every message, as used in runs |
| ConsensusPrivs.ConsensusPriv.LeaderProcessPkt | src/core/leader.c:209-332 | a leader's reaction to every message, as used in runs |
| Replication.QueueKeepsLists | src/core/leader.c:181-204 | queueing keeps each list a duplicate-free list in first-request order with an exact counter, and adds exactly the requested index |
| Replication.PopKeepsLists | src/core/replication.c:365-389 | taking the next request removes exactly the oldest one and keeps the counters exact |
| Replication.SentShape | src/core/payload.c:270-376 | every field of an APPEND: it carries as many slots from the index asked for on as the packet takes and the log has, the term of the slot before them, and the leader's term, id and commit index |
| Replication.PrevTermIsRead | src/core/kvstore.c:17-59 | against what the leader wrote: the term of the entry written at the index, the current term before the first, and the error value below that or behind the end of a log that has not come round |
| Replication.SentNamesWrittenTerm | src/core/kvstore.c:17-59 | against what the leader wrote: an APPEND names the term of the entry written before its first one, or the sender's own before the first of all, and carries what was written from there on |
| Replication.WorkIsOffered | src/core/replication.c:394-436 | a poll schedules the oldest request and takes it off the list, or next_index if nothing is requested, unless the target holds that index already or the log does not reach it |
| Replication.WorkIsDone | src/core/replication.c:148-215 | a work item sends exactly while its node leads, sees the target and holds the index to start from, and moves next_index past what it sent only for next_index itself |
| Replication.SendOne | src/core/payload.c:270-376 | a send takes the next block of at most max_entries_per_pkt, moves next_index just past it, says more exactly if entries remain, and sends nothing exactly if there is no backlog |
| Replication.ChunksTileBacklog | src/core/payload.c:270-376 | repeated sends end and carry exactly the entries next_index..last_idx in consecutive disjoint blocks |
| Replication.RequestsNextGap | src/core/replication.c:27-82 | whatever is pending: the next request is for the least missing index behind the pending one, leaving out those its answer can bring; if there is none, for the least of all, and for nothing exactly if no index strictly between stable_idx and last_idx is left |
| Replication.RequestsFirstGap | src/core/replication.c:27-82 | a follower with nothing pending asks for the first missing index strictly between stable_idx and last_idx, and for nothing exactly if none is missing |
| Replication.RetransmissionNeverRequested | src/core/consensus.c:881-888 | all slots being allocated up front, the test for a missing one never fires and nothing is ever requested |
| LeaderRole.BestMatchIsBest | src/core/leader.c:85-116 | the first loop gives up exactly if a match index is unset or beyond the log, and otherwise finds the greatest qualifying one |
| LeaderRole.CommitRuleClosedForm | src/core/leader.c:67-168 | the new commit index is the old one or the greatest match value with an entry of the current term that no alive target is behind; nothing changes while a match index is unusable; a move invalidates exactly the slots of the old commit index up to the new one, which is left out, and none at the end of the log |
| LeaderRole.CommitRuleResultUnique | src/core/leader.c:67-122 | the closed form determines the commit index |
| LeaderRole.OnlyMinimumQualifies | src/core/leader.c:47-65 | with all targets alive only the least match index can be committed |
| LeaderRole.InvalidateIsExact | src/core/leader.c:158-166 | exactly the slots of the indices named lose their valid flag, and no slot its data or term |
| CandidateRole.LowestAliveIsMinimum | src/core/pacemaker.c:203-215 | the id found is the least among the node's own and its live targets' |
| Handshake.AliveIsFollowedIff | src/core/candidate.c:138-151 | in every role: an ALIVE makes the node follow exactly its sender, with no votes and, after leading, no requests, if and only if its term is higher, or equal and the node a candidate; otherwise role, term, vote and leader stay; only a follower of that term commits on it |
| Handshake.LogGrowsOnlyFromItsLeader | src/core/follower.c:67-133 | in any step of any run a log's stable_idx, last_idx and width change only by a client of a node that leads, or by an APPEND of the leader the node has accepted, of its own term or a later one, while it does not lead |
| Handshake.AppendIsAnswered | src/core/follower.c:67-133 | in every role and for both term branches: a node that does not listen does nothing; one that does takes all entries exactly if the message is not old, fits its packet and names the term of the last stable entry, files them under the term it ends with, has them all stable if they follow on, and answers with the new stable index or the pending request; otherwise it ignores or refuses; only a follower of the same term commits |
| Handshake.RejectionResumes | src/core/leader.c:286-298 | after a refused APPEND the leader's next message to that follower starts right behind the follower's stable index, and exists exactly if the leader holds more |
| Handshake.SuccessIsMatched | src/core/leader.c:237-260 | after an accepted APPEND the match index is the follower's new stable index unless the leader's log is shorter |
| Handshake.AckIsNoted | src/core/leader.c:226-300 | what any APPEND_REPLY changes at a leader: match index, next_index or request list, each only if the log reaches the indices named, and nothing else but the log of a commit |
| Handshake.RequestIsServed | src/core/leader.c:264-284 | a retransmission request becomes the next message to that target, starts at the requested index and leaves next_index and the list as they were |
| Handshake.VoteIsCounted | src/core/candidate.c:46-96 | a vote makes a candidate with one missing the leader with fresh indices, is counted otherwise and restarts the wait, and is ignored in every other role |
| Handshake.VoteIsGrantedIff | src/core/consensus.c:283-344 | in plain fields: a nomination is granted if and only if its id is not above the node's, its term is later and not the one voted in, no leader of a lower id than the candidate's is believed alive, and the log is empty or its last entry has the claimed term and an index the claim reaches, as any negative one does; with the new term, vote and role in either case |
| Handshake.NominationsAreHandled | src/core/follower.c:34-41 | both voting roles handle a nomination as the sequence lemmas do: term, vote and reply |
| Handshake.AfterNominations | src/core/consensus.c:283-344 | after any sequence of nominations only term and vote may differ; the vote is the last one granted, and the term is below T exactly if it was and no id above the node's own nominated itself for T or later |
| Handshake.VotesAgainIff | src/core/consensus.c:297-336 | one vote per term, exactly: after a vote in T and any sequence of nominations, a nomination of T is granted if and only if the last vote granted since is for another term and the term, leader and log guards hold |
| Handshake.AnyOtherVoteReopensTerm | src/core/consensus.c:616 | one vote in any other term in between, older or newer, and the node votes in the first term again |
| Handshake.LiveLeaderKeepsVotes | src/core/consensus.c:305-310 | however many nominations of ids above its live leader's a node hears, it grants none, keeps vote and leader, and its term moves exactly if one of an id above its own names a later term |
| Handshake.StandsExactlyWhenLowest | src/core/pacemaker.c:217-245 | a node nominates itself exactly if it knows no live leader, has the least live id, is not waiting for votes and has two targets; then it is a candidate of the next term and the nomination claims its stable index and the term of its last applied entry, or its new term if there is none |
| Handshake.CandidateRetries | src/core/pacemaker.c:217-245 | an unanswered candidate waits for the whole limit of heartbeats and then stands again one term later |
| Election.FollowerStep | src/core/follower.c:13-140 | whatever arrives, a follower stays one, its term and lists stay in order, and it votes only for ids not above its own |
| Election.CandidateStep | src/core/candidate.c:98-178 | a candidate gains at most one vote per packet and only from a VOTE, and leads only with as many votes as targets |
| Election.LeaderStep | src/core/leader.c:209-332 | a leader stays leader unless an ALIVE of a higher term arrives |
| Election.UnanimousIffDistinct | src/core/candidate.c:69-81 | with as many counted votes as targets, all targets voted exactly if none was counted twice |
| Election.WinnerMayLead | src/core/candidate.c:69-81 | a winner has a target with a higher id and, with votes counted once, the least id of all |
| Election.RunKeepsElection | src/core/consensus.c:283-344 | at every moment of a run: votes in flight and counted votes come from higher ids, leaders may lead, terms bound entry terms, lists are exact |
| Election.LeaderUnique | src/core/candidate.c:46-96 | with votes counted once, nodes that lead at any two moments of a run are the same node and it has the least id |
| Election.VotesOnceMeansOneLeader | src/core/candidate.c:46-96 | with votes counted once, two nodes never lead at the same moment |
| Election.VotesGoDown | src/core/consensus.c:289-294 | whatever the network does, votes go from higher to lower ids and the greatest id never leads |
| Election.ListsExactOverRuns | src/core/leader.c:335-363 | over any run every list is duplicate-free with an exact counter, and cleaning returns all counters to 0 |
| Election.TermsNeverNegative | src/core/consensus.c:290-297 | over any run no term is negative, at a node or in flight, so that signed and unsigned comparison agree up to the greatest int32_t |
| Election.TermsNeverDecrease | src/core/consensus.c:289-294 | no node's term ever decreases in a run |
| Safety.AppendProgress | src/core/consensus.c:489-599 | an APPEND whose entries are the client's keeps a follower's log a window onto the client's commands |
| Safety.SentIsSafe | src/core/payload.c:259-377 | whatever index is asked for, the entries a follower could still accept are the client's commands at those indices |
| Safety.NewLeaderFindsNothing | src/core/candidate.c:69-83 | whoever wins while two nodes never lead at once does so before any command was written |
| Safety.RunSafe | src/core/consensus.c:809-847 | the safety invariant holds at every moment of every run in which two nodes never lead at once |
| Safety.DeliveredIsPrefix | src/core/kvstore.c:207-226 | what a node delivered is a prefix of the commands clients wrote, and for a follower exactly entries 0..last_applied |
| Safety.StateMachineSafety | src/core/kvstore.c:180-264 | any two nodes' deliveries, at any two moments, are prefix-comparable |
| Safety.DeliveryIsFinal | src/core/kvstore.c:219-226 | what a node has delivered stays a prefix of what it delivers later |
| CommitBound.MatchesNeverOutrun | src/core/leader.c:251-260 | with any failure detector, every match index of a leader and every stable index acknowledged in flight is at most the stable index of the follower concerned |
| CommitBound.StableNeverShrinks | src/core/kvstore.c:132-162 | no node's stable index ever moves back in such a run |
| CommitBound.CommitIsHeld | src/core/leader.c:47-122 | from match indices no target is behind, the rule passes what a target holds if and only if the target is believed dead and a qualifying match value does |
| CommitBound.CommitOutrunsOnlyDead | src/core/leader.c:55-59 | whenever the leader of a run commits, it does so on an acknowledgement and within what every target believed alive holds; a target believed dead is outrun exactly if a qualifying match value lies above what it holds |
| CommitBound.OutrunMeansPresumedDead | src/core/leader.c:55-59 | at any moment of a run a leader's commit index passes what a node holds only if the leader believed that node dead at the moment it moved its commit index there |
| CommitBound.CommitIdxHasOrigin | src/core/payload.c:299-299 | a commit index in flight is one its sender had while leading |
| CommitBound.MessageOutrunsOnlyPresumedDead | src/core/leader.c:55-59 | the same for every commit index in flight and its receiver |
| CommitBound.CommitNeverOutruns | src/core/leader.c:47-65 | with all targets alive every commit index, at the leader and in flight, is at most the stable index of every other node |
| CommitBound.RefusalMeansPresumedDead | src/core/kvstore.c:243-252 | on the log commit_log runs on, a follower's commit index becomes the greater of the two unless it was believed dead when the leader moved its commit index there |
| CommitBound.CommitNeverRefused | src/core/kvstore.c:243-252 | on the log commit_log runs on, for an APPEND the one append_commands left, a follower told to commit always can: its commit index becomes the greater of the two |
| CommitBound.FollowerCommits | src/core/follower.c:100-107 | at the handler: after every message a follower commits on, its commit index is the greater of its own and the message's |
| CommitBound.DeadTargetIsOutrunIff | src/core/leader.c:55-59 | in one call of update_commit_idx, a commit passes a target's match index if and only if the target is believed dead and some qualifying match value lies above it |
| Backlog.RunBacklog | src/core/leader.c:286-298 | at every moment of every run in which two nodes never lead at once, each entry a leader holds has the leader's term, next_index lies within its log or just past it, no refusal names an index below -1, and every APPEND in flight is complete and names its sender's term as its own and as previous term |
| Backlog.LeaderIsReady | src/core/payload.c:270-376 | such a leader meets the hypothesis of the tiling theorem for every target and from every index |
| Backlog.BacklogIsServed | src/core/payload.c:270-376 | repeated sends to a target are consecutive messages that end with the last command clients wrote, and at each index the target has not applied they carry the client's command |
| Acceptance.LeaderStays | src/core/leader.c:300-316 | whoever leads in such a run leads on, in the same term |
| Acceptance.AppendNamesWrittenTerm | src/core/payload.c:290-290 | every APPEND in flight names as previous term the one its leader, at any moment it held the index before the entries, had written that index with, or its own term before the first entry of all |
| Acceptance.AppendIsTakenIff | src/core/consensus.c:489-599 | at any moment of such a run, an APPEND that is not old and reaches a node that listens to its leader is taken with all entries and acknowledged, all stable if they follow on, if and only if the last stable entry is of the leader's term; it is refused otherwise |
| Acceptance.TermsAreTraced | src/core/candidate.c:161-162 | what a node holds valid, and its last stable entry, is of the leader's term unless it took entries as a candidate of an earlier one |
| Acceptance.RefusalMeansMisfiled | src/core/candidate.c:161-162 | a node that listens refuses its leader's APPEND only if it took entries earlier as a candidate of an earlier term |
| Overrun.CommitOutrunsDeadFollower | src/core/leader.c:55-59 | a run with votes counted once and a single leader that ends with the leader's commit index above the stable index of a follower it believes dead |
| Overrun.InOrderAppendIsRefused | src/core/candidate.c:161-162 | a run with votes counted once and a single leader that ends with a follower refusing an APPEND of its accepted leader, in its own term, that starts right behind its stable log |
| Restriction.ElectionRestriction | src/core/consensus.c:311-336 | a voter with a non-empty log votes only for a stable index that reaches its last index, although -1 compares as the largest value |
| Restriction.GrantMeansUpToDate | src/core/consensus.c:328-331 | for any nomination, a granted vote means an up-to-date log exactly if the claimed index is not -1 |
| Restriction.FormerLeaderSlipsThrough | src/core/consensus.c:146-180 | a former leader, with applied entries and no stable index, gets the vote of a node whose last entry carries the term of its last applied one |
| FormerLeader.RestrictionFailsAfterLeaderChange | src/core/consensus.c:328-331 | a run from the initial state that reaches such a former leader: its nomination claims no stable log and the receiver, which holds an entry, would grant it |
| Restriction.RestrictionOverRuns | src/core/consensus.c:283-344 | in runs without two simultaneous leaders every nomination in flight is granted only if its stable index reaches the voter's last index |
| FormerLeader.OneLeads | src/core/candidate.c:56-81 | one vote delivered twice makes a candidate of three nodes the leader |
| FormerLeader.RepeatedVoteMakesTwoLeaders | src/core/candidate.c:56-81 | a run from the initial state in which two nodes lead at once |
| Lists.ListHead.constructor | src/core/list.h:76-78 | a new head is the empty ring |
| Lists.RingReadsOneWay | src/core/list.h:67-69 | a head determines the sequence of its entries |
| Lists.ListInsert | src/core/list.h:86-94 | linking a new node between two neighbours inserts it at that place of the sequence |
| Lists.ListAdd | src/core/list.h:104-107 | prepends |
| Lists.ListAddTail | src/core/list.h:117-120 | appends |
| Lists.ListUnlink | src/core/list.h:130-134 | joining an entry's neighbours removes that entry from the sequence |
| Lists.ListDel | src/core/list.h:142-147 | removes the entry and poisons it |
| Lists.ListDelInit | src/core/list.h:155-159 | removes the entry and makes it an empty ring |
| Lists.ListMove | src/core/list.h:166-170 | relocates an entry to the front of its own or another ring |
| Lists.ListMoveTail | src/core/list.h:177-182 | relocates an entry to the end of its own or another ring |
| Lists.ListEmpty | src/core/list.h:188-191 | true exactly for the empty sequence |
| Lists.ListSplice | src/core/list.h:212-216 | prepends a whole ring to another |
| Lists.ListSpliceInit | src/core/list.h:225-232 | prepends a whole ring to another and leaves the first one empty |
| PktQueue.AsyncQueue.constructor | src/core/pktqueue.c:87-107 | a new queue is empty with doorbell 0 |
| PktQueue.AsyncQueue.RingDoorbell | src/core/pktqueue.c:19-22 | the doorbell goes up by one |
| PktQueue.AsyncQueue.Enqueue | src/core/pktqueue.c:24-34 | the packet becomes the last one |
| PktQueue.AsyncQueue.PushFront | src/core/pktqueue.c:38-45 | the packet becomes the first one |
| PktQueue.AsyncQueue.Dequeue | src/core/pktqueue.c:49-68 | the first packet leaves, or NULL for the empty queue |
| PktQueue.AsyncQueue.Emit | src/core/pacemaker.c:620-630 | a rung queue gives up its first packet, if any, and one ring |
| PktQueue.AsyncQueue.Clear | src/core/replication.c:84-113 | a rung queue loses all packets and keeps its doorbell |
| PktQueue.TrafficFlows | src/core/replication.c:199-209 | over any interleaving every packet put is queued or has left exactly once, ordinary packets leave in order, retransmissions stand before them, and the doorbell differs from the length by owed rings and dropped packets |
| PktQueue.DoorbellCountsQueue | src/core/pacemaker.c:620-625 | without a teardown the doorbell is the queue length less the owed rings and no emission finds the queue empty |
| PktQueue.DoorbellAfterTeardown | src/core/replication.c:93-113 | a teardown drops all of a rung queue and leaves the doorbell; the doorbell never announces too few packets, and is the length exactly if each dropped packet was paid for by an idle emission |
| PktQueue.TeardownKeepsDoorbell | src/core/replication.c:93-113 | a concrete teardown after which the doorbell is 1 and the queue empty |
| Bytes.SignedOfUnsigned | src/core/payload.h:57-70 | reading the unsigned pattern of an int32_t back as signed returns the value |
| Bytes.Put32 | src/core/payload.h:24-41 | a 32-bit store is read back and touches four bytes |
| Wire.SetLeOpcode | src/core/consensus.c:99-118 | opcode and the four parameters are read back through the offset macros; no other byte changes |
| Wire.LeRoundTrip | src/core/consensus.c:99-118 | the message kinds other than APPEND survive the wire for every int32_t field value, negative terms and the index -1 included |
| Wire.WriteLe | src/core/consensus.c:139-139 | what is decoded after writing is the message |
| Wire.CopyEntries | src/core/payload.c:67-100 | the copied commands are those of the slots first..first + count - 1, eight bytes each |
| Wire.SetAeData | src/core/payload.c:10-105 | decoding returns exactly the fields, for every int32_t value, and all requested entries or none; no other byte changes |
| Wire.ReadEntries | src/core/consensus.c:452-464 | the receiver's pointer walk reads the entries the decoder names |
| Payloads.ReserveChains | src/core/payload.c:226-255 | a new block, or a reuse that keeps the size or hits the last block, leaves a chain of blocks |
| Payloads.ReuseMovesTheNextBlock | src/core/payload.c:229-253 | a reuse leaves every block where it is exactly if it keeps the size or hits the last block |
| Payloads.ReserveWithinLimit | src/core/payload.c:242-246 | ids stay distinct, and the chain stays within the limit exactly if a grown last block does |
| Payloads.ReservationsKeepLayout | src/core/payload.c:212-256 | over any sequence of fitting reservations ids stay distinct, the limit holds and no block is lost, renamed or moved |
| Payloads.AsgardPayload.FindProto | src/core/payload.c:229-239 | the search stops at the block with the id, or behind the last block |
| Payloads.AsgardPayload.ReserveProto | src/core/payload.c:212-256 | the chain becomes the reserved one, only four bytes of the block's head change, and a refused call changes nothing |
| Payloads.ReserveSequence | src/core/pacemaker.c:148-173 | any sequence of fitting reservations leaves the payload holding exactly the blocks reserved, and no byte outside their heads is written |
| Payloads.HandleSubPayloads | src/core/pkthandler.c:86-132 | blocks are met in order and the walk stops early only where the byte count falls on a block boundary; up to four blocks and a byte count that covers them are all met; every handler is given the payload start |
| Payloads.HandedOwnBlockIff | src/core/pkthandler.c:125-125 | the handler of every known block is called, of no other, and with the payload start; that is its own block if and only if the block comes first |
| Payloads.Exchange | src/core/pkthandler.c:102-130 | sender and receiver together: the walk over a freshly filled payload of up to four blocks meets exactly the blocks that were reserved, in order and where they were reserved |
| Payloads.GrantedInsideBuffer | src/core/payload.c:242-246 | a granted block lies inside proto_data exactly if a new one does not end at byte 1417 or 1418 and a last one is not grown past the buffer |
| Payloads.SendLe | src/core/consensus.c:120-144 | a message sent next to other blocks is decoded as sent, and the other blocks keep their place and bytes; in a full payload nothing changes |
| Payloads.ExchangeLe | src/core/pkthandler.c:102-130 | a message reserved and written first in its packet, with any blocks reserved behind it: the walk meets it first and what its handler is given decodes as the message |
| Payloads.AppendIntoChain | src/core/payload.c:28-100 | set_ae_data in a block of a shared payload writes exactly ten bytes past the reserved 20 + 8n, and the other blocks are still found if and only if the block is the last or the id and size written behind it are the ones that were there |
| Payloads.SendAppend | src/core/payload.c:356-374 | an APPEND in its own packet, as the leader always sends it, is in the last block, keeps the chain and is decoded as the message of the protocol model |
| Payloads.OverhangBytes | src/core/payload.h:44-45 | which bytes of a message lie where the next block's id and size would: the end of the last command but one, or of the count, and the start of the last command |
| FailureDetector.PmTarget.constructor | src/core/membership.c:173-176 | a registered target is not alive and waits four ticks for its first check |
| FailureDetector.PmTarget.UpdateAlivenessState | src/core/pacemaker.c:251-277 | one tick of the detector |
| FailureDetector.PmTarget.PacketReceived | src/core/pkthandler.c:320-323 | one packet of the target |
| FailureDetector.AliveMeansHeard | src/core/pacemaker.c:251-277 | with fresh timestamps a target counts as alive exactly if it was heard in this window or the one before, over any interleaving |
| FailureDetector.AliveMeansHeardSinceRegistration | src/core/pacemaker.c:251-277 | the same from registration on |
| FailureDetector.CheckIsAccurate | src/core/pacemaker.c:254-276 | the check comes resp_factor + 1 ticks after the last and finds the target dead exactly if no packet came in between |
| FailureDetector.CheckSeesLastStamp | src/core/pacemaker.c:262-276 | with no assumption on timestamps a check finds the target alive exactly if the last packet of the window is stamped differently from the one checked before |
| FailureDetector.SilentTargetDies | src/core/pacemaker.c:251-277 | the exact tick from which a silent target counts as dead, for good |
| FailureDetector.SilenceIsNoticed | src/core/pacemaker.c:251-277 | after any history 2 * (resp_factor + 1) silent ticks mark a target dead |
| HbMetrics.TruncDivError | src/core/logger.c:166-166 | truncating division moves toward zero and loses less than the divisor |
| HbMetrics.AverageStep | src/core/logger.c:160-167 | one value moves the average toward itself by an nth of their distance, rounded toward the old average |
| HbMetrics.AverageInRange | src/core/logger.c:160-167 | the running average stays between the least and greatest value |
| HbMetrics.AverageErrorBound | src/core/logger.c:160-167 | n times the average misses the sum by at most n(n-1)/2 |
| HbMetrics.IngressHbMetrics.WriteInHbToLog | src/core/logger.c:223-257 | one heartbeat's update of all metric fields |
| HbMetrics.MetricsSummarise | src/core/logger.c:223-257 | after any heartbeats the metrics are those of all latencies and jitters so far |
| HbMetrics.AveragesAreBounded | src/core/logger.c:223-257 | range and error bound for both stored averages |
| HbMetrics.MinLatencyIsAMinimum | src/core/libasraft.c:329-329 | the stored minimum is one of the latencies exactly if one of them is negative |
| Membership.ClusterInfo.RegisterPeer | src/core/membership.c:135-164 | a peer is registered as never seen, unless it carries the node's own cluster id or the limit is reached |
| Membership.ClusterInfo.UpdateClusterMember | src/core/membership.c:341-399 | one state change with its counters; ids out of range change nothing |
| Membership.MembershipConserved | src/core/membership.c:341-399 | over any run joins less dropouts is the number alive, and the dead counter plus the never-seen deaths is the number dead |
| Membership.CountersMeanWhatTheySay | src/core/membership.h:71-75 | the active counter is the number alive exactly if nothing dropped out, the dead counter is the number dead exactly if no never-seen target died |
| Membership.DeadCounterUnderflows | src/core/membership.c:377-384 | a target first seen after being marked dead takes the dead counter to -1 |

## Left out

- Multicast replication: it advances the commit index without replies and drops the follower's stable check.
- Safety across changes of leader identity: the code neither truncates unstable entries nor compares terms across leaders; `FormerLeader` is a run that shows where it ends.
- Liveness of elections and replication beyond `Handshake.CandidateRetries`.
- Real lock interleavings: each mutex-protected handler is atomic.
- Warm-up: start_candidate's refusal with fewer than two targets also needs the warmed-up state; the model takes it as reached. Stopping the pacemaker after that refusal is not part of the model.
- Emission, skb, DPDK and socket handling, workqueues, procfs, synbuf, memory allocation failures and freeing.
- The ring buffer behind append_rb, which is only a sink that may refuse.
- The ADVERTISE message, peer registration by address, ping-pong latency protocol, logging of events and dumping.
- ReplyVote: packets are values handed to the network; the shared per-target send buffer is modelled only in `Payloads`.
- SetupAppendMsg: its packet is a fresh one and max_entries_per_pkt is at most MAX_AE_ENTRIES_PER_PKT, so the reservation that follows the advance of next_index always succeeds.
- ListDel: both poison values are null.
- AsyncQueue: a packet is its list node; list_entry and locking are not modelled.
- SendLe: a block that ends at byte 1417 or 1418, which the source grants although proto_data has 1416 bytes; `GrantedInsideBuffer` says when, the write past the array is not part of this model.
- ReserveProto: reservations are at least 20 bytes, as all of the source's are, so that heads stay inside proto_data.
- WriteInHbToLog: timestamps and metrics are mathematical integers, and timestamps are positive; 64-bit overflow is not modelled.
- UpdateClusterMember: the source's test lets the id 512 through, one past its array; that write is not part of this model.
- Retransmission lists are sequences in the node; the list algorithms themselves are in `Lists`.
