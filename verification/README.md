# Verified models of the distributed-systems labs

Dafny 4.11 models of four parts of the repository, with proofs of what they are for.

- **The Porcupine linearizability checker** (`src/porcupine`, `src/models/kv.go`). The backtracking search is modelled on the heap:
  a doubly linked list with undoable removal, an in-place bitset, a hashed cache and a stack. It is proved to answer yes exactly for
  linearizable histories, to terminate, and to report longest partial linearizations. Input normalisation, the partition by key
  (locality of linearizability) and the parallel verdict with timeouts are proved on top, up to one end-to-end statement.
- **Raft** (`src/raft/raft.go`). One server as a class, a cluster as a state machine in which messages may be lost, delayed, reordered
  and delivered again. What each step does, election safety, the leader's index bounds, the commit rule and the lock discipline are
  proved over all runs.
  Two branches of the code break the protocol; for each there is a concrete run that shows it and a theorem that says exactly
  what the runs without it are, and in all those runs Log Matching, Leader Completeness and State Machine Safety are proved.
- **MapReduce** (`src/mr`, `src/main/mrsequential.go`). The coordinator as a class and as a state machine with timers and late or
  repeated reports; the worker's loops; the file names. Coordinator, workers and file system together are proved to produce the
  lines of the sequential program whenever the coordinator says it is done, which every run can be continued to.
- **The at-most-once key/value server** (`src/kvsrv`). Server and clerk as classes, any number of retrying clerks as a state machine.
  In every run, every returned value is the atomic map's inside its call, every Append is executed exactly once, and a Put is unless
  its client has no table entry and a step executes it again. In the runs without such a step, what the clerks see, with the calls
  under way, is linearizable at every moment, so the checker accepts it.

## Layout

| files | content |
|---|---|
| `Linearizability.dfy`, `History.dfy` | operations, models, what a linearization is; entry lists |
| `Search.dfy`, `CheckSingle.dfy` | the search on values with its invariant; the same search on the heap |
| `LinkedHistory.dfy`, `Bitset.dfy`, `Cache.dfy` | the data structures the search uses |
| `Entries.dfy`, `KvModel.dfy`, `CheckParallel.dfy`, `CheckOperations.dfy` | from operations and events to a verdict |
| `KvMeaning.dfy` | what the key/value model means, without its step |
| `Sorting.dfy` | sorting, as the library is taken |
| `KvServer.dfy`, `KvTested.dfy` | server, clerk, system; its histories under the checker |
| `Raft.dfy`, `RaftServer.dfy` | one Raft server on values; the Raft object |
| `RaftCluster.dfy` | the cluster, elections, index bounds, commit rule |
| `RaftRules.dfy`, `RaftBackUp.dfy` | what each step does, field by field; refused appends make progress |
| `RaftLogs.dfy`, `RaftSafety.dfy`, `RaftCommit.dfy` | Log Matching, Leader Completeness, State Machine Safety |
| `RaftExact.dfy` | the conditions of these theorems are exact |
| `RaftCounterexamples.dfy` | the three runs in which the conditions of these theorems fail |
| `MrFileNames.dfy`, `MrCoordinator.dfy`, `MrCoordinatorServer.dfy` | names, coordinator on values, the Coordinator object |
| `MrRules.dfy` | what each handler of the coordinator does, task by task |
| `MrPipeline.dfy`, `MrWorker.dfy`, `MrSequential.dfy`, `MrSystem.dfy` | the data path, both programs, the whole system |
| `MrReach.dfy` | every run of the whole system can be finished |

Objects that the source updates in place are classes; each of their methods is proved against a function on values, and the
properties are proved about these functions. `dafny verify dfyconfig.toml` checks the whole project.

## Where the code does not do what is meant

- `collectVotes` (`src/raft/raft.go:699`) looks at the state of its server but not at its term. Votes of an old round can therefore
  make a second leader of a newer term: `RaftCounterexamples.StaleTallyElectsTwice`. What holds of every run is that no two rounds of
  one term are won (`RaftCluster.WinnersAreUnique`). Every electing tally of a run is taken in its round's term if and only if at
  every moment every leader has won the round of its own term (`RaftExact.InTermIsExact`); then no term has two leaders
  (`RaftCluster.OneLeaderPerTerm`). A second leader can also break the index bounds: an append of the other leader can cut off its log below
  its `nextIndex`, and the read at `src/raft/raft.go:571` panics (`RaftCounterexamples.SecondLeaderReadsOutside`). In the runs
  in which no term has two leaders the bounds hold (`RaftCluster.SendingIsInBounds`).
- `AppendEntries` (`src/raft/raft.go:419-426`) appends the received entries also when the first of them is already in the log. A leader
  sends the same entries again with the next heartbeat until the first append is answered; if both arrive, the log is shifted, and two
  servers commit different entries at one index: `RaftCounterexamples.RepeatedAppendBreaksSafety`. `RaftLogs.AppendIsExact` says
  exactly when one append does what it should. A run is *regular* if every electing tally is in its term and no accepted append
  repeats entries. If no command is proposed twice, a run is regular if and only if at every moment every leader has won its term and
  every entry of every log stands where the leader of its term put it (`RaftExact.RegularIsExact`). In all regular runs the logs are
  safe.
- A `Put` of a client without a table entry (`src/kvsrv/server.go:66-70`) is not recorded, so a retry applies it again:
  `KvSystem.UntrackedPutBreaks`. A retried request is absorbed, whatever happened for others in between, if and only if its client has
  an entry or it is an Append (`KvClerk.RetryIsAbsorbed`), and in a run an executed request is never executed again, however the run
  goes on, if and only if its client had an entry or it is an Append (`KvSystem.ExecutedForGood`). In every run, a change is the only
  execution of its call if and only if no step repeats that call as a Put of a client without an entry, so all changes are executed
  at most once if and only if there is no such step (`KvSystem.AtMostOnce`). Only linearizability is about runs without such a step;
  clients that call Put only with a table entry, as after an Append, make none (`KvSystem.TrackedPutsRunOnce`).
- `checkParallel` with no partitions and no timeout (`src/porcupine/checker.go:293-310`) waits for ever: `CheckParallel.NothingToCollect`.
  Otherwise it returns (`CheckParallel.ReturnsExactly`).
- The commit loop (`src/raft/raft.go:482-495`) looks at its count only after counting a peer, so a cluster of one commits nothing:
  `RaftCluster.CountIsMajority`.

## Model

| member | source | states |
|---|---|---|
| `CheckSingle.CheckSingle` | src/porcupine/checker.go:179-253 | for every well-formed entry list and whatever the kill flag shows at each reading, the search ends; it answers yes exactly when the history is linearizable, unless it found the flag set, and then it answers no; a yes comes with a linearization recorded for every operation; with computePartial, unless it found the flag set, every recorded list is a legal partial linearization of maximal length containing its operation, and nothing is recorded exactly where there is none |
| `CheckSingle.Iterate` | src/porcupine/checker.go:190-243 | one turn of the loop keeps the loop invariant on the heap and makes lexicographic progress (configurations not yet cached, depth of the stack, entries after the cursor), or stops only if the history is not linearizable |
| `CheckSingle.TryCall` | src/porcupine/checker.go:194-213 | with a call under the cursor, list, bitset, stack and cache move to those of the value-level step: linearize if the step succeeds and the configuration is new, else go on |
| `CheckSingle.Backtrack` | src/porcupine/checker.go:235-241 | undoing the last call puts its entries back into the list and clears its bit, and the cursor goes to the next entry still in the list |
| `CheckSingle.RecordLongest` | src/porcupine/checker.go:219-234 | every operation on the stack whose recorded list is missing or shorter gets the current order of the stack |
| `CheckSingle.Probe` | src/porcupine/checker.go:198-200 | the lookup with a copied bitset says yes exactly if the pair of the enlarged set and the new state was inserted before |
| `CheckSingle.PushMatches` | src/porcupine/checker.go:159-167 | after lifting an operation the list is the original history filtered to the operations not linearized, and everything on the stack can still be put back |
| `CheckSingle.PopMatches` | src/porcupine/checker.go:169-177 | unlifting the last lifted operation restores the filtered list without it, and the rest of the stack can still be put back |
| `CheckSingle.BuildList` | src/porcupine/checker.go:180-189 | the initial list holds the whole history in order behind the head, next and prev inverse, each call matched with its return |
| `Search.SkipKeepsInv` | src/porcupine/checker.go:208-213 | going past an operation whose step fails, or whose configuration is cached, keeps the search invariant: everything cached and off the path is explored |
| `Search.PushKeepsInv` | src/porcupine/checker.go:200-207 | linearizing a new configuration keeps the search invariant and enlarges the cache |
| `Search.PopKeepsInv` | src/porcupine/checker.go:214-241 | giving up a configuration at a return entry keeps the search invariant: all its successors were explored |
| `Search.ExploredIsDead` | src/porcupine/checker.go:194-213 | pruning is harmless: from an explored configuration no sequence of legal steps completes the history, so skipping it loses no linearization |
| `Search.EmptyListIsLinearization` | src/porcupine/checker.go:244-252 | when the list is empty the stack is a linearization of all operations |
| `Search.ExhaustedIsIllegal` | src/porcupine/checker.go:215-217 | when the search gives up with an empty stack no linearization exists |
| `Search.ExhaustedIsMaximal` | src/porcupine/checker.go:215-234 | then every recorded list has maximal length among all legal partial linearizations containing its operation, and none is recorded only where there is none |
| `LinkedHistory.MakeLinkedEntries` | src/porcupine/checker.go:121-138 | the nodes stand for the entries in order, linked both ways, every call node matched with the node of its return |
| `LinkedHistory.InsertBefore` | src/porcupine/checker.go:70-81 | the node stands directly before the mark with all four pointers set, and alone if there is no mark |
| `LinkedHistory.Lift` | src/porcupine/checker.go:159-167 | the in-place pointer updates are those of removing call and return, also when the two are adjacent or the return is last |
| `LinkedHistory.Unlift` | src/porcupine/checker.go:169-177 | the in-place pointer updates are those of putting return and call back |
| `LinkedHistory.LiftRemoves` | src/porcupine/checker.go:159-167 | after lift the list is exactly the list without call and return, which keep pointers fit for putting them back |
| `LinkedHistory.UnliftInserts` | src/porcupine/checker.go:169-177 | after unlift the list is exactly the list with call and return back in their places |
| `LinkedHistory.UnliftUndoesLift` | src/porcupine/checker.go:159-177 | unlift after lift restores every next and prev pointer |
| `LinkedHistory.NestedLiftsRestore` | src/porcupine/checker.go:159-177 | any nest of lifts undone in reverse order restores every pointer |
| `LinkedHistory.NextPrevInverse` | src/porcupine/checker.go:62-68 | in a list of live cells, next and prev are inverse |
| `LinkedHistory.Length` | src/porcupine/checker.go:83-90 | the loop counts the nodes of the chain |
| `Bitset.NewBitset` | src/porcupine/bitset.go:10-17 | the new bitset has room for the bits, rounded up to words, and is empty |
| `Bitset.Clone` | src/porcupine/bitset.go:19-23 | a fresh bitset with the same words |
| `Bitset.Set` | src/porcupine/bitset.go:29-33 | in place, the set of positions gains exactly this one |
| `Bitset.Clear` | src/porcupine/bitset.go:35-39 | in place, the set of positions loses exactly this one |
| `Bitset.Get` | src/porcupine/bitset.go:41-44 | whether the position is in the set |
| `Bitset.Popcnt` | src/porcupine/bitset.go:46-52 | the loop over the words gives the size of the set |
| `Bitset.Equals` | src/porcupine/bitset.go:62-72 | for bitsets of one length, true exactly if the sets are equal |
| `Bitset.SameSetSameWords` | src/porcupine/bitset.go:54-72 | bitsets of one length have equal sets exactly if they have equal words, and then equal hashes |
| `Cache.CacheContains` | src/porcupine/checker.go:145-152 | looking only into the bucket of the hash finds the pair exactly if it was inserted under any hash |
| `Cache.InsertAdds` | src/porcupine/checker.go:201-202 | inserting adds exactly this pair of set and state, and keeps every entry in the bucket of its hash |
| `Entries.MakeEntries` | src/porcupine/checker.go:48-60 | the entries are those of the operations, each call and return once, sorted by time with calls before returns at equal times |
| `Entries.SortedIsWellFormed` | src/porcupine/checker.go:39-60 | for operations with Call no later than Return, every such sorted list has each call before its return, numbered without gaps |
| `Entries.EntriesTellTheOperations` | src/porcupine/checker.go:48-60 | every entry carries client, time and input or output of the operation it names |
| `Entries.EntriesKeepLinearizability` | src/porcupine/checker.go:39-60 | the entry list is linearizable, ordered by positions, exactly when the operations are, ordered by times |
| `Entries.Renumber` | src/porcupine/checker.go:92-106 | the new ids are 0 to n-1, one per old id, and nothing else of an event changes |
| `Entries.ConvertEntries` | src/porcupine/checker.go:108-119 | entry i is event i with the index as its time |
| `Entries.RenumberedIsWellFormed` | src/porcupine/checker.go:92-119 | events in which every id is called once and later returned once convert to a well-formed entry list, whatever the ids were |
| `Entries.EntriesTellTheEvents` | src/porcupine/checker.go:92-119 | every entry carries kind, client, input or output and place of its event, and two entries name one operation exactly when their events do |
| `Entries.EventsKeepLinearizability` | src/porcupine/checker.go:92-119 | the entries are linearizable exactly when the operations are that the events pair up to by their own ids, before any renumbering |
| `KvModel.Partition` | src/models/kv.go:18-34 | the parts are, in sorted order of the keys, the operations of each key that occurs, in the order of the history |
| `KvModel.Locality` | src/models/kv.go:35-57 | a history is linearizable against the whole map exactly when the operations of every key are linearizable against the single-key step |
| `KvModel.PartitionIsLocal` | src/porcupine/model.go:28-33 | the contract of Partition: the history is linearizable exactly when every part is |
| `KvModel.MapReplay` | src/models/kv.go:40-57 | a sequence of operations runs through the map exactly when for every key its operations run through the single-key step, with the same values |
| `KvMeaning.ReplayMeans` | src/models/kv.go:40-57 | operations run through the map if and only if every get, and every append with a return value, returned the value of the last put on its key ("" without one) followed by the values of all later appends, with and without return value, in order; and that is what the map holds then |
| `KvMeaning.LinearizableMeans` | src/models/kv.go:35-57 | a history is linearizable against the map if and only if some order of all its operations keeps real time and explains every returned value in that way |
| `KvModel.Merge` | src/porcupine/model.go:28-33 | per-key orders that respect real time can be merged into one order of all operations that does, too |
| `CheckParallel.VerdictIsSound` | src/porcupine/checker.go:274-353 | for every order of arrival and a timeout at any moment: Ok only if every partition is legal, Illegal only if some partition truly is not, never because a search was killed, Unknown only with a timeout |
| `CheckParallel.VerdictDecides` | src/porcupine/checker.go:292-352 | without a timeout the verdict is Ok if all partitions are legal and Illegal otherwise |
| `CheckParallel.VerdictIsExact` | src/porcupine/checker.go:342-351 | in every run, the verdict is Illegal if and only if an answer taken in the loop was of an illegal partition, also after a timeout; else it is Unknown if and only if there was a timeout |
| `CheckParallel.NeverStuck` | src/porcupine/checker.go:293-318 | with a partition or a timeout, some step is possible until it has returned, while it collects and while it waits for everybody |
| `CheckParallel.RunsAreBounded` | src/porcupine/checker.go:274-353 | no run takes more than two steps per partition and one for the timeout |
| `CheckParallel.ReturnsExactly` | src/porcupine/checker.go:292-353 | a run that can go no further has returned if and only if there is a partition or a timeout |
| `CheckParallel.NothingToCollect` | src/porcupine/checker.go:293-310 | with no partitions and no timeout it never returns |
| `CheckParallel.SearchMaySend` | src/porcupine/checker.go:280-286 | whatever a search answers by its contract, with its readings of the kill flag taken during the run, is what the goroutine of the state machine may send |
| `CheckParallel.KillStays` | src/porcupine/checker.go:299-307 | once set, the kill flag stays set in every run |
| `CheckParallel.KilledExactly` | src/porcupine/checker.go:292-310 | in every run, the kill flag is set if and only if there was a timeout, or an illegal partition was found and no info is wanted, and then main stops at once; otherwise every answer goes into the verdict |
| `CheckOperations.CheckOperationsIsCorrect` | src/porcupine/checker.go:365-373 | end to end, for all schedules and timeouts: Ok means linearizable against the whole key/value map, Illegal that it is not |
| `CheckOperations.CheckOperations` | src/porcupine/checker.go:365-373 | partition, entries and searches composed: without a timeout a non-empty history gets Ok exactly if it is linearizable against the map |
| `CheckOperations.CheckEventsIsCorrect` | src/porcupine/checker.go:355-363 | end to end for any partitions of complete events with any ids, all schedules and timeouts: Ok means that the operations the events of every partition pair up to by their own ids are linearizable, Illegal that those of some partition are not |
| `CheckOperations.CheckEvents` | src/porcupine/checker.go:355-363 | renumbering, conversion and searches composed: without a timeout any partitions get Ok exactly if the operations of every one are linearizable |
| `KvServer.KVServer.Get` | src/kvsrv/server.go:29-57 | in place: the stored reply for a repeated sequence number, else the current value, recorded if the client has an entry |
| `KvServer.KVServer.Put` | src/kvsrv/server.go:60-84 | in place: nothing for a repeated sequence number, else the key is set, recorded only if the client has an entry |
| `KvServer.KVServer.Append` | src/kvsrv/server.go:86-116 | in place: the stored reply for a repeated sequence number, else the old value, with the value appended and recorded |
| `KvClerk.HandleIsIdempotent` | src/kvsrv/server.go:29-116 | handling the same request again at once changes nothing and gives the same reply |
| `KvClerk.RetryIsAbsorbed` | src/kvsrv/server.go:29-116 | whatever the server did for others in between, a retried request changes nothing and gets the first reply if and only if its client has a table entry or it is an Append |
| `KvClerk.Clerk.Get` | src/kvsrv/client.go:44-58 | however many requests and replies are lost before one gets through, the effect and the value are those of one execution with a fresh sequence number |
| `KvClerk.Clerk.PutAppend` | src/kvsrv/client.go:68-81 | the same for Put and Append |
| `KvSystem.DataIsTheLog` | src/kvsrv/server.go:29-116 | in every run of any number of clerks over a lossy network, the data is what the executions make of the empty map, in order |
| `KvSystem.AtMostOnce` | src/kvsrv/server.go:60-116 | in every run, call by call: a change is the only execution of its call if and only if no step executes that call again as a Put of a client without a table entry; and all are if and only if there is no such step |
| `KvSystem.ExactlyOnce` | src/kvsrv/server.go:60-116 | in every run, every finished call was executed by its own client inside the call; every Append, and every call of a client that had finished an Append before, exactly once; any other Put exactly once if and only if no step repeats it |
| `KvSystem.ExecutedForGood` | src/kvsrv/server.go:29-116 | in every run and however it goes on, a request that is executed is never executed again if and only if its client had a table entry or it is an Append |
| `KvSystem.SecondExecution` | src/kvsrv/server.go:29-116 | a call that was executed before and is not answered from the table is of a client without an entry, and is a Get or a Put |
| `KvSystem.StepKeepsRunInv` | src/kvsrv/server.go:29-116 | every step of every run keeps that data, table, log, calls under way and finished calls fit together, with each client's executions in the order of its calls |
| `KvSystem.ValuesAreAtomic` | src/kvsrv/client.go:44-81 | in every run, also with calls under way, every value finally returned is the atomic map's value at a point inside its call, at an execution of its own client |
| `KvSystem.RunsAreLinearizable` | src/kvsrv/server.go:29-116 | in every run without a second execution of a Put of a client without a table entry, at every moment, the finished calls together with exactly the calls under way that were executed are linearizable against the key/value map; with no call under way these are the finished calls |
| `KvSystem.AppendTracks` | src/kvsrv/server.go:96-98 | in every run, a client with a finished Append in the history has a table entry, so its later Puts are absorbed when retried |
| `KvSystem.TrackedPutsRunOnce` | src/kvsrv/server.go:60-84 | if every Put is called by a client that has a table entry then, no Put is executed twice |
| `KvSystem.UntrackedPutBreaks` | src/kvsrv/server.go:66-70 | a run in which a retried Put of a client without an entry overwrites another client's Append, and the history is not linearizable |
| `KvTested.CheckerAcceptsServer` | src/kvsrv/server.go:29-116 | checker and server together: on what the clerks of any run without a repeated Put of a client without a table entry saw, the checker never says Illegal, and without a timeout says Ok |
| `RaftServer.Raft.constructor` | src/raft/raft.go:789-819 | a new server is a follower in term 0 with a one-entry log |
| `RaftServer.Raft.KickOffElection` | src/raft/raft.go:643-656 | in place: next term, candidate, vote for itself; the request announces the last index and term |
| `RaftServer.Raft.RequestVote` | src/raft/raft.go:231-277 | in place: the state and reply of the vote rule, with all refusals |
| `RaftServer.Raft.HandleRequestVote` | src/raft/raft.go:670-689 | in place: what a reply does, and whether its vote is counted |
| `RaftServer.Raft.CollectVote` | src/raft/raft.go:693-709 | in place: one vote is counted; the server becomes leader exactly if it is a candidate of whatever term and the tally is a majority |
| `RaftServer.Raft.ConvertToLeader` | src/raft/raft.go:713-721 | the loop sets every nextIndex to the log's length and every matchIndex to 0 |
| `RaftServer.Raft.Start` | src/raft/raft.go:340-354 | a leader appends the command in its term and returns its index; others change nothing |
| `RaftServer.Raft.SendHeartBeats` | src/raft/raft.go:563-583 | one append for every other peer, with the entries from its nextIndex on |
| `RaftServer.Raft.AppendEntries` | src/raft/raft.go:366-440 | in place: the state and reply of the append rule, with the search for the conflict index |
| `RaftServer.Raft.HandleAppendEntries` | src/raft/raft.go:449-550 | in place: match and next index, the nested commit loops, stepping down, backing up, and whether the lock is given back |
| `RaftServer.Raft.CountHolders` | src/raft/raft.go:483-493 | the inner loop with its early exit finds a majority exactly if the entry is of the current term and the holders with the leader are one |
| `RaftServer.Raft.AdvanceCommit` | src/raft/raft.go:482-495 | the outer loop leaves the specified commit index and touches nothing else |
| `RaftRules.BeginsAsFollower` | src/raft/raft.go:789-819 | a new server is a follower of term 0 without a vote, with nothing but the placeholder in its log |
| `RaftRules.CandidatesStand` | src/raft/raft.go:643-668 | in every run, a server that stands is a candidate of the next term with its own vote, and asks exactly every other peer with its last index and term; nothing else changes |
| `RaftRules.VotesAreGrantedExactly` | src/raft/raft.go:231-277 | in every run, a vote is granted if and only if the request is not of an older term, the vote of its term is free or this candidate's, and the candidate's last entry has a later term, or the same and no smaller index; with term, vote and role of the voter afterwards in every case |
| `RaftRules.VoteAnswersAreTaken` | src/raft/raft.go:670-689 | in every run, an answer from a newer term makes a candidate that still stands a follower of that term without a vote; no other answer changes a server, and a vote is put to the count if and only if its candidate still stands |
| `RaftRules.VotesAreCounted` | src/raft/raft.go:691-723 | in every run, a counted vote makes a leader if and only if the server is a candidate and more than half are counted; every nextIndex is then the length of the log and every matchIndex 0 |
| `RaftRules.LeadersTakeCommands` | src/raft/raft.go:340-354 | in every run, only a leader takes a command, in its term behind its log |
| `RaftRules.HeartbeatsCarryTheRest` | src/raft/raft.go:563-583 | in every run, a heartbeat carries everything the leader has from the peer's nextIndex on, with index and term of the entry before |
| `RaftRules.AppendsAreAnswered` | src/raft/raft.go:366-440 | in every run, an append is refused if and only if it is of an older term or the log does not match; the refusal gives the length of a log that is too short with term -1, else the term of the entry there and the first index of the stretch of that term; an accepted one leaves log and commit index as the rule says |
| `RaftRules.AppendAnswersAreTaken` | src/raft/raft.go:449-550 | in every run, an answer to an append of another term changes nothing; a success sets match and next index and commits what a majority holds; a refusal from a newer term makes a follower of that term without a vote, with log and commit index as before; any other refusal only moves nextIndex behind the leader's last entry of the conflicting term, or to the conflict index if it has none |
| `RaftBackUp.RefusalsMakeProgress` | src/raft/raft.go:520-544 | in every regular run, after a refusal in its own term the leader's nextIndex for the peer is between 1 and the refused PrevLogIndex, so the next append starts strictly earlier |
| `RaftCluster.TermsAndVotesAdvance` | src/raft/raft.go:231-277 | between any two moments of any run a server's term does not decrease; within a term its vote goes from nobody to one candidate and stays, and a leader stays leader |
| `RaftCluster.WinnersAreUnique` | src/raft/raft.go:643-711 | in every run with lost, delayed, reordered and repeated messages, at most one round opened in a term gathers a winning tally |
| `RaftCluster.OneLeaderPerTerm` | src/raft/raft.go:691-723 | if every electing tally is taken while the server is in its round's term, no term has two leaders at any two moments of the run |
| `RaftCluster.SendingIsInBounds` | src/raft/raft.go:563-576 | in every run in which no term has two leaders, while a server leads, 1 <= nextIndex <= len(log) and 0 <= matchIndex < len(log) for every peer, so the reads of the log are in bounds |
| `RaftCluster.RefusalsAreInRange` | src/raft/raft.go:391-415 | in every run, a refusal in the append's own term carries a conflict index between 1 and PrevLogIndex |
| `RaftCluster.RejectionInRange` | src/raft/raft.go:391-410 | the same of the handler: whichever way the logs mismatch, the conflict index is between 1 and PrevLogIndex |
| `RaftCluster.HandlersNeverPanic` | src/raft/raft.go:231-277 | in every run, whatever was sent can be delivered and whatever was answered can be taken without an index out of range |
| `RaftCluster.LockIsReleased` | src/raft/raft.go:501-550 | in every run, the path at the end of handleAppendEntries that keeps the mutex is not taken |
| `RaftCluster.CountIsMajority` | src/raft/raft.go:483-493 | the loop's count accepts exactly the entries of the current term that a strict majority holds, the leader counted once; a cluster of one accepts none |
| `RaftCluster.CommitsTheLargestMajority` | src/raft/raft.go:457-495 | in every run, a successful answer moves commitIndex to the largest index above it whose entry is of the current term and held by a strict majority, and leaves it if there is none |
| `RaftCluster.StepKeepsInv` | src/raft/raft.go:231-277 | every step of the cluster keeps the invariant that ties terms, votes, rounds, tallies and messages together |
| `RaftCluster.StepKeepsCrowns` | src/raft/raft.go:691-711 | every step with its tally in term keeps that every leader there was has won the round of its term |
| `RaftCluster.StepKeepsBounds` | src/raft/raft.go:442-589 | as long as no two servers led a term, every step keeps the index bounds of leaders and that what was sent in a term fits the log of its leader |
| `RaftLogs.AppendIsExact` | src/raft/raft.go:416-426 | an accepted append with entries leaves exactly the matching prefix and the entries, if and only if the log has no entry of the first one's term at its index |
| `RaftLogs.LogsMatch` | src/raft/raft.go:366-440 | Log Matching: in every regular run, two logs with the same term at an index are the same up to it |
| `RaftSafety.BetterLogHolds` | src/raft/raft.go:253-255 | a log that wins the up-to-date comparison against one that holds an entry holds it, too, or the entry can no longer be chosen |
| `RaftSafety.WinnerHolds` | src/raft/raft.go:704-707 | the winner of an election holds every entry of an earlier term that can still be acknowledged by a majority |
| `RaftSafety.AppendKeepsAgreement` | src/raft/raft.go:416-426 | an accepted append that repeats nothing does not cut off what its sender and the log agree on |
| `RaftSafety.LeadersAreComplete` | src/raft/raft.go:366-550 | Leader Completeness: in every regular run, an entry a majority acknowledged in the term it was made in is, with all before it, in every later leader's log |
| `RaftCommit.CommittedStays` | src/raft/raft.go:434-438 | in every regular run, commit indices only grow and what a server has committed never changes in its log |
| `RaftCommit.StateMachineSafety` | src/raft/raft.go:434-495 | State Machine Safety: in every regular run, the entries any two servers commit at one index, at any two moments, are the same |
| `RaftExact.InTermIsExact` | src/raft/raft.go:691-711 | every electing tally of a run is taken in its round's term if and only if at every moment every leader has won the round of its own term |
| `RaftExact.StaleTallyIsUncrowned` | src/raft/raft.go:699-707 | a tally outside its term makes a leader that has not won its own term |
| `RaftExact.RepeatIsMisplaced` | src/raft/raft.go:419-426 | with distinct commands, an accepted append that repeats entries leaves an entry that no leader put where it stands |
| `RaftExact.RegularIsExact` | src/raft/raft.go:366-440 | in a regular run, at every moment every leader has won its term and every entry of every log was put there, behind the same entries, by the leader of its term; for runs in which no command is proposed twice, only in regular runs |
| `RaftCounterexamples.StaleTallyElectsTwice` | src/raft/raft.go:691-709 | a run of three servers in which a vote of term 1 makes a second leader of term 2 |
| `RaftCounterexamples.SecondLeaderReadsOutside` | src/raft/raft.go:563-576 | a run of three servers with two leaders of term 4 in which an append of one cuts off the log of the other below its nextIndex, so that its next heartbeat reads outside the log |
| `RaftCounterexamples.RepeatedAppendBreaksSafety` | src/raft/raft.go:419-426 | a run of three servers, all tallies in term, in which the same append is sent with two heartbeats before the first is answered, and two servers commit different entries at index 2 |
| `MrFileNames.ExtractInvertsFileName` | src/mr/coordinator.go:176-186 | the parser gives back exactly the reduce task the worker printed, for all task numbers that fit an int, and ends the process for larger ones |
| `MrFileNames.AtoiInvertsDecimal` | src/mr/coordinator.go:181-184 | decimal parsing inverts decimal printing up to the largest int |
| `MrFileNames.NamesAreDifferent` | src/mr/worker.go:134-138 | different map or reduce tasks write to different files |
| `MrFileNames.ExtractIsExact` | src/mr/coordinator.go:176-186 | the parser gives a number if and only if the name has exactly three parts between hyphens and the last is that number; otherwise it ends the process |
| `MrFileNames.AtoiIsExact` | src/mr/coordinator.go:181-184 | exactly the ways to write an int are read: a sign that fits or none, zeros, and the decimal digits |
| `MrCoordinator.CompletedStays` | src/mr/coordinator.go:153-195 | in every run of requests, late and repeated reports and timers, a completed task stays completed |
| `MrCoordinator.CountersAndTimers` | src/mr/coordinator.go:78-195 | in every run the counters equal the numbers of completed tasks; a running task has exactly one timer asleep, an idle one none, a completed one at most one |
| `MrCoordinator.OneFilePerMap` | src/mr/coordinator.go:158-166 | in every run, for every reduce task the coordinator holds exactly one file of each completed map task, and no other |
| `MrCoordinator.ReducesWaitForMaps` | src/mr/coordinator.go:94-137 | in every run a reduce task is handed out only when every map task is completed |
| `MrCoordinator.DoneMeansDone` | src/mr/coordinator.go:221-235 | in every run Done implies that every task is completed; once all are, any two further requests make it true |
| `MrCoordinator.HandlersNeverCrash` | src/mr/coordinator.go:78-195 | in every run no handler panics or ends the process, for any report about an existing task |
| `MrCoordinator.OnlyReportsComplete` | src/mr/coordinator.go:153-174 | a task becomes completed only by a report about it |
| `MrRules.BeginsIdle` | src/mr/coordinator.go:240-256 | in the beginning every task is idle, nothing is counted and no file is known |
| `MrRules.ReportsComplete` | src/mr/coordinator.go:153-174 | in every run, after a report about an existing task that task is completed if and only if it was before or was running for exactly this worker; its counter grows by one exactly in the second case and each reduce task gets one file of a map task; every other task, counter and the phase stay |
| `MrRules.RequestsAreAnswered` | src/mr/coordinator.go:92-146 | in every run, the phase moves on if and only if all its tasks are completed; the first idle task of the phase is handed out with what it needs and a timer; the worker waits if and only if none is idle and exits if and only if all is done |
| `MrRules.TimersRelease` | src/mr/coordinator.go:187-195 | in every run, a timer that wakes makes its task idle if and only if it is still running, and changes nothing else |
| `MrRules.DoneIsExit` | src/mr/coordinator.go:221-235 | in every run, Done is true exactly in the exit phase |
| `MrCoordinatorServer.Coordinator.constructor` | src/mr/coordinator.go:240-256 | all tasks idle, no files, counters 0, map phase |
| `MrCoordinatorServer.Coordinator.RequestTask` | src/mr/coordinator.go:92-146 | in place: the phase moves on when its tasks are done, and the first idle task is handed out with what its worker needs |
| `MrCoordinatorServer.Coordinator.NotifyTaskCompletion` | src/mr/coordinator.go:153-174 | in place: a report of the responsible worker completes the task, counts it and files its output names; any other changes nothing |
| `MrCoordinatorServer.Coordinator.WaitTask` | src/mr/coordinator.go:187-195 | in place: a task still running becomes idle |
| `MrCoordinatorServer.Coordinator.Done` | src/mr/coordinator.go:221-235 | true exactly in the exit phase with both counters full |
| `MrWorker.WriteMapOutput` | src/mr/worker.go:113-139 | file r holds exactly the pairs whose key hashes to r, in order |
| `MrWorker.ReportedFiles` | src/mr/worker.go:72-79 | the loop lists the name of every output file once |
| `MrWorker.PerformReduce` | src/mr/worker.go:147-177 | from the files in any order and keys in any order, the lines are the job's output on these pairs, each key printed once |
| `MrSequential.MapAll` | src/main/mrsequential.go:38-51 | the intermediate pairs are those of all inputs in order |
| `MrSequential.Scan` | src/main/mrsequential.go:68-84 | on pairs sorted by key, the nested loops print the job's output, each key once and in the order of the keys |
| `MrSequential.SortByKey` | src/main/mrsequential.go:59 | a permutation of the pairs, sorted by key |
| `MrSequential.StringsAreOrdered` | src/main/mrsequential.go:21-23 | the byte-wise order of keys is a strict total order, as the sort and the scan need |
| `Sorting.Sort` | src/porcupine/checker.go:58 | for any weak order, a permutation of the elements in which nothing stands before something smaller |
| `MrSequential.Sequential` | src/main/mrsequential.go:38-84 | map, sort and scan composed print the job's output on a sorted order of all pairs, in the order of the keys |
| `MrSequential.SequentialIsDetermined` | src/main/mrsequential.go:38-84 | for a reduce function that ignores the order of values, inputs, map and reduce function determine every line and its place |
| `MrPipeline.ExpectedOfPermutation` | src/main/mrsequential.go:59 | for a reduce function that ignores the order of values, the job's output does not depend on the order of the pairs |
| `MrPipeline.BucketsMakeTheJob` | src/mr/worker.go:126-132 | for every hash function and number of reduce tasks, the outputs of all reduce tasks together are the output of the job on all pairs |
| `MrSystem.DoneIsComplete` | src/mr/coordinator.go:221-235 | in every run of coordinator, crashing workers and file system, once Done holds every output file is there, and together their lines are the output of the job |
| `MrSystem.DistributedEqualsSequential` | src/main/mrsequential.go:38-84 | then their multiset of lines is that of what the sequential program prints for the same inputs, for every deterministic map function and order-insensitive reduce function |
| `MrSystem.GlobFindsAll` | src/mr/worker.go:141-149 | whenever a reduce task runs, globbing finds the complete files of every map task, whatever executions were repeated or abandoned |
| `MrReach.CanAlwaysFinish` | src/mr/coordinator.go:78-235 | every run of coordinator, workers and file system, with whatever executions abandoned and reports lost, can be continued to one in which Done holds |

## Left out

- Goroutines, locks, channels and clocks: every lock-held section is one atomic step; real time, timer lengths, randomness and logging are choices of the next step.
- Operations with Call after Return and malformed event lists: the checker's input is assumed well timed and complete.
- `Step` and `Equal` of a checked model: a function, and equality.
- Library sorting: a sorted permutation; where the model sorts, it sorts by insertion.
- Cached bitsets and recorded longest lists are values, not shared arrays; no code updates them after storing them.
- The info that `checkParallel` assembles for visualization (`src/porcupine/checker.go:311-341`) and the visualization itself.
- The value of a bitset's hash (`src/porcupine/bitset.go:54-60`), beyond being the same for the same set: any such function gives the same answers.
- `DescribeOperation`, `DescribeState` and the default describers.
- labrpc, labgob and JSON: a lossy call and the identity. A kvsrv call that has returned has no request left in the network.
- KvSystem.RunsAreLinearizable: is stated for runs without a repeated Put of a client without a table entry; such a Put need not break linearizability; KvSystem.UntrackedPutBreaks shows that it can.
- Clerk ids are assumed distinct; `nrand` is not modelled.
- RaftCluster.OneLeaderPerTerm: its condition on the tallies is exact for leaders having won their terms (RaftExact.InTermIsExact), not for two leaders meeting in a term, since a stale tally need not find another leader.
- RaftCluster.SendingIsInBounds: two leaders of a term need not break the bounds; RaftCounterexamples.SecondLeaderReadsOutside shows that they can.
- RaftBackUp.RefusalsMakeProgress: is stated for regular runs, which RaftExact.RegularIsExact characterizes.
- RaftLogs.LogsMatch: is stated for regular runs, which RaftExact.RegularIsExact characterizes.
- RaftSafety.LeadersAreComplete: is stated for regular runs, which RaftExact.RegularIsExact characterizes.
- RaftCommit.CommittedStays: is stated for regular runs, which RaftExact.RegularIsExact characterizes.
- RaftCommit.StateMachineSafety: is stated for regular runs; a misplaced entry that is never committed does no harm to it, so the condition is not necessary for it.
- RaftExact.RegularIsExact: needs distinct commands for one direction, since repeating an entry equal to the leader's next one leaves the leader's log.
- `args.Entries = rf.log[next:]` (`src/raft/raft.go:575`) shares the leader's array until the append is encoded after the unlock; the model copies the entries when it sends.
- Raft restarts, `Kill`, persistence and snapshots: `persist` is never called and `readPersist` and `Snapshot` do nothing.
- Raft's apply loop (`src/raft/raft.go:753-778`): it hands out the entries up to the commit index, which are covered by the safety theorems.
- Raft's unused `isLogUpToDate`, `convertToCandidate` and `getElectionTimeout`.
- Liveness of Raft, MapReduce and the clerks under fair scheduling, beyond the termination of every loop, the progress of refused appends and the continuation of every MapReduce run.
- MapReduce files: a map from map and reduce task to written pairs, empty at the start, with atomic renames; other names that a glob could match, leftover files and I/O errors are not modelled.
- `ihash` is any function to the natural numbers; the map function is deterministic.
- With no reduce tasks the worker divides by zero; the pipeline is stated for at least one.
- The coordinator's table of workers, which is written and never read.
- kvraft, shardctrler and shardkv servers, which have empty handlers.
