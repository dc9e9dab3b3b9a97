# Linearizability checker, replicated key/value store and Raft peer

A Dafny model of three parts of the repository, and proofs about them.

**The linearizability checker** (`linearizability/`).  `Linearizability.dfy` says what a linearizable
history is: some order of all operations respects "returned before called" and is accepted step by step
by the sequential model.  It knows nothing of the search.  `EntryList.dfy`, `Bitset.dfy`,
`MemoTable.dfy` and `Checker.dfy` are the search as the code runs it, on a doubly linked list changed in
place, with an explicit stack, a bitset and a hashed memo table; `Search.dfy` holds the facts that every
step of it keeps.  The result is total correctness: `checkSingle` ends, follows no null link, and
answers true exactly for the linearizable histories unless it is told to give up.  `Histories.dfy`
builds and renumbers event lists, `KvModel.dfy` proves that the per-key partition loses nothing,
`KvMeaning.dfy` says what the model of the store accepts, and `Driver.dfy` covers the concurrent
collection of the results.

**The replicated key/value store** (`kvraft/`).  `KvServer.dfy` is the state machine of one server with
its duplicate filter and snapshots, `Clerk.dfy` the retry loop, `Recovery.dfy` a crash between the two
writes of a snapshot.  `KvSystem.dfy` is the whole service as a state machine: clerks whose requests and
replies are lost, delayed and repeated, replicas at different prefixes of one committed log.
`KvInvariant.dfy` and `KvLinearizable.dfy` prove that every run is linearizable, in the sense of the
definition that the checker decides, and `ClerkService.dfy` that a clerk's loop is part of such a run.

**Raft** (`raft/raft.go`).  `RaftPeer.dfy` gives each handler as a function of the peer's state, and
`RaftServer.dfy` the handlers as methods of an object, proved equal to those functions.  On top are
`PeerLaws.dfy` (single handlers), `Voting.dfy`, `VotingLogs.dfy` and `VotingFailures.dfy` (elections),
`LogMatching.dfy` and `CommitRuns.dfy` (replication), `Compaction.dfy` (a compacted log behaves like a
full one), `BackUp.dfy` and `CompactedBackUp.dfy` (the conflict back-up)
and `Commit.dfy` (the commit rule).  The reference
is "In Search of an Understandable Consensus Algorithm (Extended Version)", sections 5.2 to 5.4 and 7.

Reading conventions: state machines are predicates on two states, a run is a sequence of states with the
steps between them, and theorems about runs hold for every state of every run.  Integers are unbounded
except where a word is 64 bits wide (the bitset).  The network, timers, the kill flag, the answer of
`needSnapshot` and the choice of snapshot points are parameters or free choices of a step.

Where code and comments disagree the code is followed.  The comment on `node.match`
(`linearizability/linearizability.go:53`) has calls and returns the wrong way round: a node whose match
is nil is a return.  The summary in `README.md:92` claims one leader per term.  That fails in the code
for two independent reasons.  A vote reply is counted whatever term its candidate is in by then
(`raft/raft.go:901-917`), and stepping down clears the vote without a look at whether the peer has voted
in the term it steps down to (`raft/raft.go:712-714` and `raft/raft.go:902-904`).  `VotingFailures` has a
run for each, in which the other does not occur, and a third in which the step down of
`raft/raft.go:902-904` takes a peer back to an earlier term.  `Voting.ElectionsHoldExactly` says that
elections hold in a run exactly when neither occurs.

## Model

| member | source | states |
|---|---|---|
| `Checker.CheckSingle` | linearizability/linearizability.go:167-214 | true only for linearizable histories, false without a kill only for others; it ends, and a result due to the kill flag is told apart |
| `Checker.SearchLoop` | linearizability/linearizability.go:176-213 | the same for the loop, with the measure: unexplored pairs, stack depth, distance to the end of the list |
| `Checker.RememberAndLift` | linearizability/linearizability.go:187-193 | the pair is memoised, the operation marked and lifted, and the tables and the list agree again |
| `Checker.TryCall` | linearizability/linearizability.go:180-199 | an iteration at a call keeps list, stack, bitset and memo table in step, and lowers the measure |
| `Checker.Backtrack` | linearizability/linearizability.go:200-211 | an iteration at a return undoes the last operation and keeps all of them in step |
| `Search.AtReturn` | linearizability/linearizability.go:200-203 | at a return every operation that could come next has been tried, so the rest has no linearization |
| `Search.Advance` | linearizability/linearizability.go:194-199 | passing over a call that leads nowhere keeps the search invariant |
| `Search.CacheHit` | linearizability/linearizability.go:186-196 | a pair found in the memo table is never on the stack and has no completion, and neither has any equal pair |
| `Search.Push` | linearizability/linearizability.go:186-193 | taking an operation keeps the search invariant, with the new pair in the memo table |
| `Search.Pop` | linearizability/linearizability.go:204-210 | undoing an operation keeps the search invariant |
| `Search.Success` | linearizability/linearizability.go:176-213 | when the list is empty the stack is a linearization |
| `Search.PushedPairIsReachable` | linearizability/linearizability.go:183-193 | the pairs the search can memoise come from one finite set, which is why it ends |
| `Linearizability.Unfold` | linearizability/linearizability.go:180-199 | a history is linearizable exactly when some minimal operation is accepted and the rest is linearizable after it |
| `Linearizability.EqualStates` | linearizability/model.go:36-38 | states that `Equal` identifies have the same linearizable histories |
| `EntryList.InsertBefore` | linearizability/linearizability.go:59-70 | the node is linked between the mark and the node before it; without a mark nothing changes; for any two nodes, also the same or neighbours |
| `EntryList.Length` | linearizability/linearizability.go:72-79 | the number of nodes of the chain |
| `EntryList.MakeLinkedEntries` | linearizability/linearizability.go:109-126 | walking the list gives exactly the entries, linked both ways, each call matched with its own return |
| `EntryList.Lift` | linearizability/linearizability.go:147-155 | the list is the one before without the call and its return, also when they are neighbours; the call's next link is followed unchecked |
| `EntryList.Unlift` | linearizability/linearizability.go:157-165 | putting back the last operation lifted gives the list before it was lifted; the call's next link is followed unchecked |
| `EntryList.CallHasNext` | linearizability/linearizability.go:149 | a call in the list has a next node |
| `EntryList.LiftedCallHasNext` | linearizability/linearizability.go:164 | so has a call that is being put back |
| `EntryList.LifoRunIsWithout` | linearizability/linearizability.go:147-165 | after any last-in-first-out run of lifts and unlifts the list is the original without exactly the operations on the stack, links mirrored |
| `EntryList.UnwoundIsWhole` | linearizability/linearizability.go:189-210 | when all is undone every link is as it was |
| `MemoTable.MemoTable.Contains` | linearizability/linearizability.go:133-140 | looking into one bucket finds a pair exactly when the table holds an equal one |
| `MemoTable.MemoTable.Add` | linearizability/linearizability.go:187-188 | the table holds one more pair and owns its bitset from then on |
| `Bitset.NewBitset` | linearizability/bitset.go:8-15 | an empty set with room for the positions asked for |
| `Bitset.Clone` | linearizability/bitset.go:17-21 | a new array with the same words |
| `Bitset.Set` | linearizability/bitset.go:27-31 | adds exactly one position |
| `Bitset.Clear` | linearizability/bitset.go:33-37 | removes exactly one position |
| `Bitset.Get` | linearizability/bitset.go:39-42 | membership |
| `Bitset.Popcnt` | linearizability/bitset.go:44-54 | the number of positions that are set |
| `Bitset.CountAllIsCardinality` | linearizability/bitset.go:44-54 | adding up the counts of the words gives the cardinality of the set, for every vector of words |
| `Popcount.CountIsCardinality` | linearizability/bitset.go:47-51 | the word-parallel arithmetic on one word yields the number of its bits |
| `Popcount.CountMore` | linearizability/bitset.go:47-51 | one more bit in a word makes the result one higher |
| `Bitset.Hash` | linearizability/bitset.go:56-62 | a function of the words alone, so equal bitsets hash equally |
| `Bitset.Equals` | linearizability/bitset.go:64-74 | word-by-word equality |
| `Bitset.SameMembers` | linearizability/bitset.go:64-74 | of the same capacity: equal words exactly when equal sets |
| `Histories.SortByTime` | linearizability/linearizability.go:23-47 | the same entries, as many, in the order of their times; without ties the order is strict |
| `Histories.MakeEntries` | linearizability/linearizability.go:37-49 | the calls and returns of all operations in the order of their times, for any history; without ties each stands at one place |
| `Histories.EventsKeepLinearizability` | linearizability/linearizability.go:37-49 | the event list is complete with dense ids, and linearizable exactly when the operations are |
| `Histories.ConvertEntries` | linearizability/linearizability.go:97-107 | one entry for each event, in order |
| `Histories.Renumber` | linearizability/linearizability.go:81-95 | ids dense from 0 by first occurrence; equal ids stay equal, different ones different |
| `Histories.RenumberingKeepsLinearizability` | linearizability/linearizability.go:81-95 | renumbering changes no verdict, and every id is a position of the bitset |
| `KvModel.PerKeyWellBehaved` | linearizability/models.go:29-49 | the model meets what the search asks of `Equal` |
| `KvModel.Partition` | linearizability/models.go:17-28 | for each key that occurs, one list with the operations on it, in order |
| `KvModel.Locality` | linearizability/models.go:17-48 | the whole store's history is linearizable exactly when every key's is |
| `KvModel.SelectedIsOfKey` | linearizability/models.go:17-28 | the list of a key's operations is linearizable exactly when the key's sub-history is |
| `KvModel.PartitionsDecide` | linearizability/model.go:24-28 | a history is linearizable if and only if each partition is |
| `KvMeaning.AcceptsExactly` | linearizability/models.go:29-48 | from the empty store the model accepts an order exactly if every get in it returns what the updates before it, performed by the server, have made of its key |
| `KvMeaning.LinearizableExactly` | linearizability/models.go:29-48 | a history is linearizable exactly if some real-time order makes every get right in that sense |
| `KvMeaning.GetsAreWritten` | linearizability/models.go:38-40 | in a linearizable history a get's value ends with what some update, not later than the get, writes to its key |
| `KvMeaning.RejectsUnwritten` | linearizability/linearizability.go:235-270 | the checker answers false for a history with a get for which there is no such update |
| `KvMeaning.RejectsPutThenOther` | linearizability/linearizability.go:235-270 | for instance one that puts "a" and then gets "z" |
| `Driver.CheckOne` | linearizability/linearizability.go:241-246 | the pipeline of one worker, from operations to verdict |
| `Driver.CheckEventsTimeout` | linearizability/linearizability.go:278-313 | for events with arbitrary ids and a model without event partition: true exactly for the linearizable histories, or because of a timeout |
| `Driver.RunSound` | linearizability/linearizability.go:251-268 | what every state of the collecting protocol satisfies |
| `Driver.Verdict` | linearizability/linearizability.go:235-270 | for any order of results, kill timing and timeouts: false means that some partition is not linearizable, true without timeout that all are |
| `Driver.VerdictOnStore` | linearizability/linearizability.go:235-270 | for every interleaving with workers that check the partitions of a history: false means that the whole store's history is not linearizable, true without timeout that it is |
| `Driver.CheckOperationsTimeout` | linearizability/linearizability.go:235-270 | all stages together, for the whole store |
| `KvServer.ReplayTable` | kvraft/server.go:195-217 | the duplicate table holds, for each client seen, the highest sequence number and the reply given to it |
| `KvServer.FilterMeansEffective` | kvraft/server.go:198 | the filter passes exactly the commands whose number exceeds all earlier ones of their client |
| `KvServer.ReplayIsEffective` | kvraft/server.go:195-217 | replaying with the filter equals performing only those commands, without one |
| `KvServer.Redelivered` | kvraft/server.go:195-217 | applying a command again that is already covered changes nothing |
| `KvServer.DeliverCovers` | kvraft/server.go:183-233 | one message keeps the state a replay of the covered prefix |
| `KvServer.InstalledLabel` | kvraft/server.go:186-195 | once a snapshot is installed exactly the commands behind its label are still applied |
| `KvServer.StreamReplays` | kvraft/server.go:183-233 | so does every stream of commands at or below the next index, snapshots taken and snapshots installed |
| `KvServer.KVServer.constructor` | kvraft/server.go:323-348 | a server starts from the snapshot that the persister holds |
| `KvServer.KVServer.ReadSnapshot` | kvraft/server.go:273-286 | store, table and index are those of the snapshot; no data changes nothing |
| `KvServer.KVServer.GenerateSnapshot` | kvraft/server.go:257-270 | the present state under the given index, saved |
| `KvServer.KVServer.OnMessage` | kvraft/server.go:183-233 | one iteration of the apply loop is the step that the theorems are about; waiting handlers are notified once |
| `KvInvariant.AnswerDuplicateInv` | kvraft/server.go:79-89 | an answer from the duplicate table is justified by the log |
| `KvInvariant.StartInv` | kvraft/server.go:91-97 | placing a request keeps the invariant |
| `KvInvariant.ApplyInv` | kvraft/server.go:195-232 | applying the next entry keeps the invariant; a handler notified while its server leads its term waits for its own command |
| `KvInvariant.AnswerInv` | kvraft/server.go:114-120 | the late read of a confirmed get is justified by the log |
| `KvInvariant.AcceptInv` | kvraft/client.go:88-95 | accepting a reply and moving on to the next number keeps the invariant |
| `KvInvariant.RestartInv` | kvraft/server.go:341-343 | restarting from any saved snapshot, or from none, keeps the invariant |
| `KvInvariant.RunInv` | kvraft/server.go:68-172 | the invariant holds in every state of every run |
| `KvLinearizable.ExactlyOnce` | kvraft/client.go:116-148 | of the log entries of an acknowledged update exactly one passes the filter, and it was committed between call and return |
| `KvLinearizable.GetIsCurrent` | kvraft/server.go:68-123 | a get returns the value of its key at some log length between its call and its return |
| `KvLinearizable.LogTellsStory` | kvraft/server.go:195-233 | the committed log provides a linearization point for every operation |
| `KvLinearizable.ServiceLinearizable` | kvraft/client.go:65-148 | in every state of every run the clients' history is linearizable for the sequential store |
| `KvLinearizable.ReadyForChecker` | kvraft/client.go:65-148 | when no call is pending the history meets the checker's preconditions, apart from being non-empty, and is linearizable |
| `KvLinearizable.CheckerNeverRejects` | linearizability/linearizability.go:235-270 | run on a non-empty such history, the checker answers true |
| `Clerk.Clerk.constructor` | kvraft/client.go:40-51 | no remembered leader, sequence number 1 |
| `Clerk.Clerk.Perform` | kvraft/client.go:65-148 | all attempts carry one number and rotate through the servers; it returns with the first answer that does not deny leadership (for updates with "OK"), all attempts before having failed, and only then moves the number on |
| `Clerk.AcceptsUnlessFails` | kvraft/client.go:88-98 | an attempt fails exactly if it is lost, times out, is denied, or is an update without "OK" |
| `ClerkService.HandlersAnswer` | kvraft/server.go:80-120 | what the handlers of a leader answer is the wire form of the reply that the service records |
| `ClerkService.OutcomeIsStep` | kvraft/client.go:88-98 | an outcome ends a call exactly if it is a leader's answer, and is then an accept step of the service |
| `ClerkService.PerformInService` | kvraft/client.go:65-148 | a call that returns continues the run of the service with the accept step that records its result; one that does not leaves the call open under its number |
| `ClerkService.ReturnedIsCurrent` | kvraft/client.go:65-104 | so the value that a get returns is one its key had between call and return |
| `Clerk.RotationReachesAll` | kvraft/client.go:74-98 | any run of as many attempts as servers tries each of them |
| `Recovery.RunInv` | raft/raft.go:1010-1014 | the invariant of delivery, the two writes and crashes, over every run |
| `Recovery.RecoveryRebuilds` | kvraft/server.go:219-225 | the saved key/value snapshot is never behind Raft's, and redelivery rebuilds the replay of the committed log, wherever the crash falls |
| `RaftServer.Raft.constructor` | raft/raft.go:985-1002 | a fresh follower with the placeholder entry and no vote |
| `RaftServer.Raft.LastLogIndexAndTerm` | raft/raft.go:300-304 | index and term of the last entry, in terms of the whole log |
| `RaftServer.Raft.FillRequestVoteArgs` | raft/raft.go:222-234 | computes the function `BecomeCandidate` |
| `RaftServer.Raft.RequestVote` | raft/raft.go:249-297 | computes the function `OnRequestVote` |
| `RaftServer.Raft.AppendEntries` | raft/raft.go:378-492 | computes the function `OnAppendEntries`, with both kinds of rejection |
| `RaftServer.Raft.FirstOfRun` | raft/raft.go:473-479 | the scan finds the start of the run of equal terms |
| `RaftServer.Raft.Start` | raft/raft.go:595-628 | computes the function `OnStart` |
| `RaftServer.Raft.NewSnapShot` | raft/raft.go:119-140 | computes the function `OnSnapshot`, and says when the slice expression fails |
| `RaftServer.Raft.ConsistencyCheck` | raft/raft.go:769-802 | nothing from a non-leader, the snapshot for a follower too far behind, otherwise the request of `MakeAppend` |
| `RaftServer.Raft.ConsistencyCheckReplyHandler` | raft/raft.go:695-761 | computes the function `OnAppendReply`, followed by the commit rule after a success |
| `RaftServer.Raft.UpdateCommitIndex` | raft/raft.go:667-692 | moves the commit index exactly if the highest index that n - n/2 peers support lies ahead and its entry is of the leader's term, and then to it; says when the index expression fails |
| `PeerLaws.CommitRuleExactly` | raft/raft.go:675-683 | the same of the function that the run theorems use |
| `PeerLaws.FollowsExactly` | raft/raft.go:433-439 | after a match the commit index is the larger of its old value and the smaller of the leader's and the end of the log, exactly unless the request ends before the commit index and carries a higher one; then it falls to the end of the log |
| `PeerLaws.CommitFalls` | raft/raft.go:433-439 | a request with which it falls |
| `PeerLaws.RejectedLeavesCommit` | raft/raft.go:389-395 | a stale or rejected request leaves commit index and log alone |
| `PeerLaws.StartPlaces` | raft/raft.go:608-623 | the index in the reply is where the command stands, at the end of the log; the leader counts itself |
| `PeerLaws.OthersDoNotStart` | raft/raft.go:596-598 | a peer that does not lead changes nothing |
| `PeerLaws.NewLeaderCommits` | raft/raft.go:653-664 | among three or more peers a new leader cannot commit before another has answered; among two it can |
| `PeerLaws.NewLeaderAsksForLast` | raft/raft.go:769-802 | a new leader first asks about its own last entry |
| `PeerLaws.PanicsExactly` | raft/raft.go:702-707 | the reply handler panics exactly on a success for an index behind the log |
| `PeerLaws.MatchesStayInLog` | raft/raft.go:702-709 | match indices stay within the log, whatever the replies |
| `RaftServer.CommitWithinLog` | raft/raft.go:676-678 | it does not fail while the match indices lie within the log |
| `RaftServer.Raft.Reject` | raft/raft.go:454-481 | the hint of a rejection is that of the function `Hint` |
| `RaftServer.Raft.ResetOnElection` | raft/raft.go:653-664 | computes the function `ResetOnElection` |
| `Voting.RunInv` | raft/raft.go:892-931 | the invariant of elections with careful step downs, over every run |
| `Voting.TermsGrow` | raft/raft.go:268-277 | the term of a peer never decreases, unless the answer to a canvass lowers it |
| `Voting.TermsGrowExactly` | raft/raft.go:902-904 | terms are kept by every step of a run exactly when no answer to a canvass carries a term below the candidate's |
| `Voting.VotesHoldExactly` | raft/raft.go:712-714 | every vote keeps blocking a second one, in every state of a run, exactly when every step down goes to a term in which the peer has not voted |
| `Voting.VotesOnce` | raft/raft.go:280-294 | with careful step downs no peer ever votes for two candidates in one term |
| `Voting.OneWinnerPerTerm` | raft/raft.go:897-917 | with careful step downs no two candidates collect a majority for the same term |
| `Voting.OneLeaderPerTerm` | raft/raft.go:901-917 | if moreover replies make a leader only in the term of their canvass, no two peers lead one term |
| `Voting.ElectionsHoldExactly` | raft/raft.go:892-931 | votes block and every leader has won its term, in every state of a run, exactly when both conditions hold at every step |
| `Voting.WonExactly` | raft/raft.go:896-917 | in a cluster of two or more a canvass is won exactly when n/2 + 1 peers, with the candidate, have voted for it |
| `VotingLogs.GrantedExactly` | raft/raft.go:268-289 | a vote is granted exactly if it is free and the last term and index of the candidate are lexicographically at least the voter's |
| `VotingLogs.VoteLeaves` | raft/raft.go:268-296 | what a request leaves behind in each case, and when the reply carries a higher term |
| `VotingLogs.LeaderBlocksVotes` | raft/raft.go:397-408 | a peer that has accepted a leader grants no vote in that leader's term |
| `VotingLogs.RequestsDescribeLogs` | raft/raft.go:222-234 | in every run a vote request tells the last term and index of its candidate's log when it stood |
| `VotingLogs.RefusedOnlyIfBehind` | raft/raft.go:280-283 | in every run a free vote is refused only if the candidate's log was behind |
| `VotingLogs.WinnerIsUpToDate` | raft/raft.go:892-917 | in every run the winner of a term was at least as up to date as each peer of a majority when that peer voted |
| `VotingLogs.StandsOnce` | raft/raft.go:222-234 | while terms do not fall a candidate stands once in a term |
| `VotingFailures.LateVoteTwoLeaders` | raft/raft.go:901-917 | a run without step downs in which a late vote gives one term two leaders |
| `VotingFailures.StepDownTwoLeaders` | raft/raft.go:711-719 | a run with all replies counted in their term in which a leader that stepped down votes again, and one term has two leaders |
| `VotingFailures.TermFalls` | raft/raft.go:902-904 | a run in which the answer to a canvass lowers a term |
| `Commit.SortInts` | raft/raft.go:668-670 | sorted, and each value is reached as often as before |
| `Commit.SortedRank` | raft/raft.go:675 | element k of a sorted sequence is the highest value that all but k elements reach |
| `Commit.Middle` | raft/raft.go:668-675 | the middle is the highest index supported by n - n/2 of n peers, for every n |
| `Commit.CommitTargetUnique` | raft/raft.go:675 | there is only one such index |
| `Commit.CommitMeetsElection` | raft/raft.go:909-917 | every set of n/2 + 1 voters contains a peer that supports it |
| `LogMatching.ReceiveGood` | raft/raft.go:423-436 | a request that matches turns the log into a prefix of the sender's |
| `LogMatching.RunInv` | raft/raft.go:378-492 | every log is, up to each entry, that of the leader of the entry's term; over every run |
| `LogMatching.LogsMatch` | raft/raft.go:423-436 | logs with the same term at an index agree on all entries up to it |
| `LogMatching.LeaderAppendOnly` | raft/raft.go:608-623 | while a term lasts, its leader's log only grows at the end |
| `CommitRuns.LeadersCountOwnTerm` | raft/raft.go:667-692 | in every run a leader that handles a reply moves its commit index only forward, to an entry of its own term that n - n/2 peers support |
| `CommitRuns.CommitsAreCounted` | raft/raft.go:436-441 | in every run no peer's commit index exceeds what some leader has counted in this way before |
| `CommitRuns.RequestsAreCounted` | raft/raft.go:788-795 | nor does the commit index that a request carries |
| `CommitRuns.NewRequest` | raft/raft.go:769-802 | requests come from leaders and carry their term and commit index |
| `Compaction.RunStartCut` | raft/raft.go:473-479 | on a compacted log the scan stops at the snapshot |
| `Compaction.AppendCut` | raft/raft.go:415-481 | one append request, on a compacted and on a full log |
| `Compaction.CompactionSimulates` | raft/raft.go:119-140 | over every run, a peer that compacts at any committed points answers like one that never does, except that a rejection points no further back than the snapshot |
| `Compaction.SnapshotTermIsRight` | raft/raft.go:128-131 | over every run the term recorded for the snapshot is that of its entry in the full log |
| `BackUp.RejectLowers` | raft/raft.go:720-758 | a rejection strictly lowers nextIndex and keeps it positive |
| `BackUp.AcceptMatches` | raft/raft.go:702-709 | an acceptance gives the follower the leader's entries; the panic is not reached |
| `BackUp.AcceptCommits` | raft/raft.go:436-441 | with it the follower's commit index becomes the leader's |
| `BackUp.RejectionMoves` | raft/raft.go:748-755 | after a rejection the leader does not ask the same again, and stays within its log |
| `BackUp.FarBehindGetsSnapshot` | raft/raft.go:742-747 | a follower whose log ends before the leader's snapshot is sent the snapshot after one rejection |
| `BackUp.Converge` | raft/raft.go:695-761 | fewer rejections than nextIndex until the logs meet |
| `BackUp.BackUpIsFast` | raft/raft.go:453-481 | at most one rejection for each change of term in the follower's log, and one more |
| `BackUp.BackUpConverges` | raft/raft.go:423-481 | if the logs satisfy Log Matching, they are equal in the end and matchIndex says so |
| `CompactedBackUp.RejectAhead` | raft/raft.go:720-752 | with a compacted follower, a rejection from its log lowers nextIndex, to the follower's snapshot or behind it exactly if the leader's last entry of the conflict term lies there |
| `CompactedBackUp.RejectBehind` | raft/raft.go:415-420 | a request behind the snapshot is rejected and moves nextIndex to the snapshot, or one before if it was there |
| `CompactedBackUp.Alternates` | raft/raft.go:749-752 | from there on nextIndex goes back and forth between the two for ever and nothing is accepted |
| `CompactedBackUp.MeetsExactly` | raft/raft.go:720-752 | some request is accepted in the end exactly if no rejection on the way takes nextIndex to the snapshot or behind it |
| `CompactedBackUp.StuckFollower` | raft/raft.go:415-420 | a freshly elected leader and a compacted follower for which that never happens |

## Left out

- Leader Completeness and State Machine Safety for the whole cluster are not modelled: nothing is stated about which committed entries later leaders have.
- Voting.RunInv: its runs contain no crashes, and a new leader's `resetOnElection` is left to `RaftServer.Raft.ResetOnElection`.
- Voting.OneLeaderPerTerm: goes one way, because a late count does not by itself make a second leader; what holds exactly is `Voting.ElectionsHoldExactly`.
- LogMatching.LogsMatch: holds for runs without compaction and without a second leadership of a term.
- Compaction.CompactionSimulates: a call of `NewSnapShot` that fails leaves the peer as it is; requests that reach behind the snapshot are answered differently, and the leader's own handling of rejections is not compared.
- BackUp.BackUpConverges: is about followers that have not compacted; `CompactedBackUp.MeetsExactly` is about those that have, towards a leader that has not.
- Recovery.RecoveryRebuilds: its runs contain no installed snapshots.
- KvSystem takes from Raft what the service relies on: one growing committed log, one leader per term, and leaders that find what they placed.  Installed snapshots move a replica forward only.
- InstallSnapshot and sendSnapshot are not modelled.
- Driver.CheckOperationsTimeout: an empty history without a timeout makes the Go loop wait for ever, so it is excluded; the methods take one worker's result at a time, the interleavings are in `Driver.Verdict`.
- Driver.CheckOne: asks for distinct timestamps and complete operations; with ties the order that `sort.Sort` chooses decides.
- Driver.CheckEventsTimeout: does not model models with an event partition; the repository's models have none.
- KvModel.Partition: a value of the wrong type, on which the type assertions of `Step` and `Partition` panic, counts as an operation on the empty key that no order accepts.
- Clerk.Clerk.Perform: the endless loop is cut at a given number of attempts; the contract holds for each number.
- The 64-bit wrap-around of `popcnt`'s total, terms, indices, sequence numbers and times.
- Timers, goroutine scheduling, channels, condition variables, shutdown and every liveness claim.
- labrpc, labgob, persistence formats, needSnapshot's size threshold, client id generation, configurations and test harness.
