# Verification of the deterministic multi-contract scheduler

This project models the transaction scheduler of bcos-scheduler and proves what it promises. A block's transactions
are executed in batches. In each batch at most one message goes to each contract; the replies may call other
contracts, finish, revert, or wait for a key lock; afterwards key locks are settled and, if nothing could be sent, a
deadlocked transaction is chosen and reverted. Around that core stand the lock graph, the counting protocols that tell
when a batch or a two-phase commit is complete, the queue of executed blocks, and the assignment of contracts to
executors.

## How the model is laid out

| files | what they hold |
|---|---|
| `Types`, `Orders`, `Counting` | identifiers, lexicographic order and ordered sets of strings, counting |
| `Reach`, `DepthFirst` | paths and cycles; the coloured depth-first visit with its back-edge flag |
| `LockTable`, `GraphKeyLocks` | lock edges as a set of values, the re-entrant lock table they refine, and the graph class that implements them (module `KeyLocks`) |
| `Executive`, `Traversal` | messages, states, the ordered map of states, and its traversal under an arbitrary callback |
| `Batch` | the sending, settling and deadlock callbacks and a whole batch, on values |
| `Discipline` | the contract executors must keep, and the invariant between batches |
| `Sending`, `Forwarding`, `Settling`, `Recovery`, `Accounting`, `Passes` | what each pass does and keeps |
| `Runs` | executions of a whole block |
| `Histories` | what happens to one transaction in a batch and over a run |
| `Replies` | replies that come in one by one, in any order, during the sending pass or after it |
| `BlockExecutive` | the class that does all this in place, proved against the functions on values |
| `BatchStatus`, `CommitStatus` | the two counting protocols, one atomic access per step, any interleaving |
| `BlockQueue` | the queue of blocks, as steps and as a class |
| `ExecutorPool`, `ExecutorManager` | the assignment of contracts, on values and as a class with three containers |

Code that updates state in place is a class or a loop; each such method is specified by a function on values, and the
properties are proved about those functions. `std::map` is a sequence of entries in key order, a priority queue is a
sequence of which a least loaded member is taken, `boost::adjacency_list` is a list of labelled edges between vertex
handles together with the property of each vertex.

## What is assumed of executors

A batch is given an `Executors` value: an arbitrary function from messages to replies, and two for the addresses of
new contracts. Every batch of a run has its own, so nothing is assumed to stay the same between batches. The contract,
`Discipline.Obeys`, is:

- a reply carries the context and frame of the message it answers, and is a request, a return, a key-lock wait or a send-back;
- a request or a wait comes from the contract that was called, and the key locks it claims avoid the list that was sent along;
- a wait is addressed to the contract it comes from;
- a frame other than the first one returns to a non-empty address;
- the addresses of contracts that a batch creates are non-empty, differ from each other and from the addresses in use.

Nothing is assumed about the order of replies, about which frames end, or about what follows a revert. Context ids
start at 0, as for blocks; the first message of a transaction is as the set-up makes it, or, in the invariant's initial
states, the reply of a transaction that was run once by the parallel pass (`Discipline.Initial`).

On values, replies are delivered after the sending pass. A reply that arrives while the pass is still going on changes
only a state that the pass will not look at again; `Replies.RepliesMayComeEarly` proves that every interleaving ends as
the pass followed by the replies does. `BlockExecutive.ReceiveReplies` takes the replies in an arbitrary order and proves
that the order does not matter, and `BatchStatus` shows that the check runs once, when all replies are in.

## Model

| member | source | states |
|---|---|---|
| LockTable.EveryRunRefinesReentrantLocks | bcos-scheduler/GraphKeyLocks.cpp:42-154 | after any sequence of acquire and release calls the edges are the contents of a re-entrant lock table: one owner per key, free exactly when every frame that took it is released, next grant agrees, nobody waits for a key it owns |
| LockTable.NotHoldingIsRefusal | bcos-scheduler/GraphKeyLocks.cpp:78-104 | a key is in the list of keys held by others exactly when acquiring it would be refused, whatever the frame |
| LockTable.BatchAcquireSucceeds | bcos-scheduler/GraphKeyLocks.cpp:19-40 | a batch acquire succeeds exactly when its keys avoid that list, and then the frame owns all of them |
| LockTable.BatchAcquireEdges | bcos-scheduler/GraphKeyLocks.cpp:19-75 | a batch acquire adds only edges of its own context, frame and keys and disturbs no other context |
| LockTable.BatchAcquireExact | bcos-scheduler/GraphKeyLocks.cpp:19-75 | edge by edge, a successful batch acquire leaves exactly the keys it names, owned by its frame, and all old edges but the context's requests for those keys |
| LockTable.WaitingSetHasVictim | bcos-scheduler/GraphKeyLocks.cpp:156-203 | if every member of a non-empty set of contexts waits for a key owned inside the set, detection answers true for some member |
| LockTable.DeadLockIsWaitingSet | bcos-scheduler/GraphKeyLocks.cpp:156-203 | detection answers true for some context if and only if there is a non-empty set of contexts each of which waits for a key owned inside the set |
| LockTable.WaitersAreDeadLocked | bcos-scheduler/GraphKeyLocks.cpp:156-203 | in such a set detection answers true exactly for the contexts that own a key |
| LockTable.RevertLeavesDeadLock | bcos-scheduler/BlockExecutive.cpp:1008-1026 | once a context has given up its locks somebody is still deadlocked if and only if such a set exists that does not contain it |
| Reach.ClosedSetHasCycle | bcos-scheduler/GraphKeyLocks.cpp:156-203 | a non-empty vertex set in which every vertex has a successor contains a vertex on a cycle |
| Reach.FinishOrderAcyclic | bcos-scheduler/GraphKeyLocks.cpp:195-200 | nothing that a visit without back edges has finished can reach a cycle |
| DepthFirst.DepthFirstVisit | bcos-scheduler/GraphKeyLocks.cpp:158-203 | the back-edge flag, with the terminator that stops expanding once it is set, ends up set exactly when a cycle is reachable from the root |
| KeyLocks.GraphKeyLocks.Touch | bcos-scheduler/GraphKeyLocks.cpp:205-232 | finds or adds a vertex, keeps the index a bijection with the graph's vertices and the lock table unchanged |
| KeyLocks.GraphKeyLocks.AddEdge | bcos-scheduler/GraphKeyLocks.cpp:234-252 | adds a labelled edge once, without duplicates |
| KeyLocks.GraphKeyLocks.AcquireKeyLock | bcos-scheduler/GraphKeyLocks.cpp:42-75 | grants exactly when no other context owns the key, with the lock table's effect, keeping all graph invariants |
| KeyLocks.GraphKeyLocks.BatchAcquireKeyLock | bcos-scheduler/GraphKeyLocks.cpp:19-40 | has the lock table's effect and throws exactly when that refuses a key |
| KeyLocks.GraphKeyLocks.GetKeyLocksNotHoldingByContext | bcos-scheduler/GraphKeyLocks.cpp:78-104 | returns the keys of the contract owned by others, sorted and without duplicates |
| KeyLocks.GraphKeyLocks.RemoveInPlace | bcos-scheduler/GraphKeyLocks.cpp:111-143 | the removal loop keeps exactly the edges that do not match and counts whether all were removed |
| KeyLocks.GraphKeyLocks.ReleaseKeyLocks | bcos-scheduler/GraphKeyLocks.cpp:106-154 | removes exactly the edges of that context and frame; a context is a vertex exactly when it has an edge |
| KeyLocks.GraphKeyLocks.DetectDeadLock | bcos-scheduler/GraphKeyLocks.cpp:156-203 | true exactly when the context owns a key and a cycle is reachable from it in the lock graph |
| Executive.UpperBoundIsGroup | bcos-scheduler/BlockExecutive.cpp:1143-1147 | the upper bound of a contract's greatest key separates its states from the later ones |
| Executive.InsertAllKeepsWellFormed | bcos-scheduler/BlockExecutive.cpp:1160-1172 | re-inserting states of missing contexts loses none and keeps the map ordered |
| Traversal.TraversalConservesContexts | bcos-scheduler/BlockExecutive.cpp:1122-1173 | for any callback that leaves context ids alone, the contexts afterwards are those before minus the deleted ones |
| Traversal.TraversalVisitsInOrder | bcos-scheduler/BlockExecutive.cpp:1122-1158 | for any callback, visits are in strictly increasing key order and a state is unvisited exactly after an end or a skip of its contract |
| Batch.NothingMovesWithoutMessage | bcos-scheduler/BlockExecutive.cpp:1160-1172 | whatever the states and executors, every node a pass takes out for re-insertion has the message its new key is read from |
| Sending.VisitStartOk | bcos-scheduler/BlockExecutive.cpp:753-974 | one visit of the sending pass on a settled state cannot fail, keeps other contexts' edges and ownership of called contracts, and leaves the state in flight, waiting, marked or finished without locks |
| Sending.SendingPassOk | bcos-scheduler/BlockExecutive.cpp:747-978 | the sending pass ends without fault or stored error, all lock edges belong to live contexts on their call stacks |
| Sending.ContractExclusivity | bcos-scheduler/BlockExecutive.cpp:771-783 | messages of one batch go to pairwise different, non-empty contracts, including created ones and around waiting states |
| Sending.OnlyCollisionsBreakExclusivity | bcos-scheduler/BlockExecutive.cpp:771-804 | a visit keeps the targets different if and only if it does not create a contract at an address already called in the batch |
| Sending.ExclusiveUnlessCollision | bcos-scheduler/BlockExecutive.cpp:747-978 | with executors of any kind, the messages of a whole pass go to pairwise different contracts if and only if no visit of the pass creates a contract at an address already called |
| Sending.CreationsCollide | bcos-scheduler/BlockExecutive.cpp:771-804 | a block whose two transactions create a contract with the same sender, data and salt: both messages of the batch go to the same address, whatever the executors do |
| Sending.SnapshotsStayValid | bcos-scheduler/BlockExecutive.cpp:911-915 | the list of foreign keys sent with a message is still exact when the whole pass is over |
| Forwarding.VisitOutcome | bcos-scheduler/BlockExecutive.cpp:769-978 | what a visit of the sending pass does, field by field: it passes over a state exactly when its contract was called, ends the transaction exactly at the return of its only frame, with receipt and gas, leaves a wait exactly when somebody else owns the key, and otherwise hands over the message with its kind, content, frame, address, snapshot and key |
| Forwarding.VisitFaults | bcos-scheduler/BlockExecutive.cpp:756-841 | for any state at all: which states count as errors and which run into a fault |
| Sending.VictimMakesBatchSend | bcos-scheduler/BlockExecutive.cpp:850-860 | a batch that starts with a state marked for revert sends at least one message |
| Settling.DeliveredPending | bcos-scheduler/BlockExecutive.cpp:933-961 | once the replies are in, nobody else owns a key any state claims, and no two states claim the same key |
| Settling.VisitSettleOk | bcos-scheduler/BlockExecutive.cpp:1031-1068 | each visit of the settling pass brings its state to rest; a request or a wait owns every key it claims afterwards, a return has given up exactly what its frame held, and the context's other frames keep theirs |
| Settling.SettleFaults | bcos-scheduler/BlockExecutive.cpp:1037-1053 | for any state at all: a fault is raised exactly for a missing message and for a claimed key that somebody else owns |
| Settling.SettlingPassOk | bcos-scheduler/BlockExecutive.cpp:1028-1069 | UnexpectedKeyLockError cannot happen; after the pass every state is settled and no context is lost |
| Recovery.NothingSentAllWaiting | bcos-scheduler/BlockExecutive.cpp:862-878 | if a batch sent nothing, every remaining state asked for a key that another context owns |
| Recovery.NothingSentSomeDeadLock | bcos-scheduler/BlockExecutive.cpp:1003-1027 | in that case detection answers true for some remaining context |
| Recovery.DeadlockPassOk | bcos-scheduler/BlockExecutive.cpp:1008-1026 | the deadlock pass changes nothing but to mark one deadlocked state, and marks one whenever there is one |
| Recovery.FirstDeadLockedIsChosen | bcos-scheduler/BlockExecutive.cpp:1008-1026 | the state marked is the first deadlocked one in key order, and it is the only change |
| Recovery.DeadLockedOwnKeys | bcos-scheduler/BlockExecutive.cpp:1008-1026 | when nothing was sent, detection answers true for a remaining context if and only if it owns a key |
| Recovery.FirstOwnerIsReverted | bcos-scheduler/BlockExecutive.cpp:1008-1026 | when nothing was sent and states are left, the pass marks the first lock owner in key order and nothing else; once it has given up its locks nobody is deadlocked if and only if every set of contexts that wait for each other contains it |
| Recovery.VictimMayBeABystander | bcos-scheduler/BlockExecutive.cpp:1003-1026 | a system on which, with any executors, a batch sends nothing and marks a context that is on no cycle, so that the others stay deadlocked after all its locks are released |
| Accounting.SendingPassAccounted | bcos-scheduler/BlockExecutive.cpp:815-839 | missing receipts are exactly those of live contexts, the gas total adds up, written receipts are not overwritten |
| Passes.PassesAgree | bcos-scheduler/BlockExecutive.cpp:1003-1071 | when something was sent the settling pass visits exactly the states the sending pass visited and kept, in the same order; when nothing was sent the deadlock pass visits the first of them; no mark is left |
| Passes.SettlingPlaces | bcos-scheduler/BlockExecutive.cpp:1031-1068 | after the settling pass each state is under the contract its message is addressed to if it was visited with a request or a return, under its old key otherwise, and nothing else is in the map |
| Passes.SettlingPassLocks | bcos-scheduler/BlockExecutive.cpp:1028-1069 | the table after the settling pass, context by context: visited states have taken or given up exactly what their messages say, all others have the edges they had |
| Runs.BlockStartsInvariant | bcos-scheduler/BlockExecutive.cpp:43-163 | the prepared states of a block, also after the parallel pass, satisfy the invariant |
| Runs.BatchKeepsInvariant | bcos-scheduler/BlockExecutive.cpp:747-1074 | a batch never faults, reports an error exactly when a reply was an error or null, otherwise keeps the invariant; after sending nothing it has a victim, and with a victim it sends something |
| Runs.IdleBatchRevertsFirstOwner | bcos-scheduler/BlockExecutive.cpp:996-1027 | a whole batch that sends nothing while states are left changes only the first lock owner, which it marks, with the exact condition under which that breaks the deadlock |
| Runs.RunsAreSafe | bcos-scheduler/BlockExecutive.cpp:450-527 | no run of any length faults, the invariant holds after every batch, receipts stay as written |
| Runs.FinishedRunIsComplete | bcos-scheduler/BlockExecutive.cpp:466-523 | a finished run leaves no state and no lock, every transaction has its receipt and the gas total is their sum modulo 2^64 |
| Runs.GasDoesNotWrap | bcos-scheduler/BlockExecutive.cpp:830-831 | with gas between 0 and the limit and a block small enough the gas total is the plain sum |
| Runs.RepliesPayForBatches | bcos-scheduler/BlockExecutive.cpp:466-471 | a run still going on has had at most twice as many batches as replies, plus one |
| Runs.RunsTerminate | bcos-scheduler/BlockExecutive.cpp:450-527 | if executors give at most b replies, the run is over within 2b+2 batches |
| Histories.SendingPassTreats | bcos-scheduler/BlockExecutive.cpp:747-978 | what a sending pass makes of every single state: handed over with its receipts and locks as they should be, left as it was, or finished with its receipt |
| Histories.BatchTreats | bcos-scheduler/BlockExecutive.cpp:747-1074 | after a batch a state whose message was handed over has the answer its executor gave, unchanged; any other state is as it was, or chosen for revert; a state that is gone returned from its only frame and left that message as its receipt |
| Histories.BatchLocks | bcos-scheduler/BlockExecutive.cpp:1031-1068 | after a batch the edges of a context that got an answer are exactly those the answer implies |
| Histories.ClaimsAreOwned | bcos-scheduler/BlockExecutive.cpp:1037-1053 | every key claimed by an answer is owned by the answer's frame when the batch is over |
| Histories.DialogueIsCoherent | bcos-scheduler/BlockExecutive.cpp:450-527 | over runs of any length: each call to an executor carries the content of the answer before it, the first one what the transaction was set up with, and the receipt is the last answer, returned from frame 0, field by field |
| BlockExecutive.BlockExecutive.constructor | bcos-scheduler/BlockExecutive.cpp:43-163 | the set-up makes one state per transaction, under its contract, with a message that has the transaction's kind, gas, create flag, address and hash, or sender and data, field by field; it establishes the invariant |
| BlockExecutive.FirstBatchIntroduces | bcos-scheduler/BlockExecutive.cpp:55-155 | what reaches an executor in the first batch says which transaction is to be executed, for frame 0 |
| BlockExecutive.TransactionIsFullyTold | bcos-scheduler/BlockExecutive.cpp:450-527 | over whole runs of a block: the first call introduces the transaction, each further call carries the answer before it, the last answer is the receipt |
| BlockExecutive.BlockExecutive.SendVisit | bcos-scheduler/BlockExecutive.cpp:753-974 | the sending callback in place does what the function on values says |
| BlockExecutive.BlockExecutive.SettleVisit | bcos-scheduler/BlockExecutive.cpp:1031-1068 | the settling callback in place does what the function on values says |
| BlockExecutive.BlockExecutive.DeadlockVisit | bcos-scheduler/BlockExecutive.cpp:1008-1026 | the deadlock callback in place does what the function on values says |
| BlockExecutive.BlockExecutive.TraverseExecutive | bcos-scheduler/BlockExecutive.cpp:1122-1173 | the in-place walk, with its erasures, extractions and re-insertions, is the traversal on values |
| Replies.DeliverOneMore | bcos-scheduler/BlockExecutive.cpp:933-961 | one more reply, delivered after any others, gives the same states and error count as delivering all at once |
| Replies.AdvanceCommutesWithReplies | bcos-scheduler/BlockExecutive.cpp:917-961 | replies to states behind the iterator commute with the next move of the sending pass, whatever it is |
| Replies.RepliesMayComeEarly | bcos-scheduler/BlockExecutive.cpp:747-978 | for every interleaving of the sending pass with replies, the states and the batch status at its end are those of the uninterrupted pass to which the same replies are delivered afterwards |
| BlockExecutive.BlockExecutive.ReceiveReplies | bcos-scheduler/BlockExecutive.cpp:933-961 | whatever the order of the replies, each state has the message it was answered, unchanged, and the errors are counted |
| BlockExecutive.BlockExecutive.CheckBatch | bcos-scheduler/BlockExecutive.cpp:996-1071 | reports an error, breaks a deadlock or settles the locks, as the function on values |
| BlockExecutive.BlockExecutive.RunOneBatch | bcos-scheduler/BlockExecutive.cpp:747-1074 | a batch in place is a batch on values and raises no fault |
| BlockExecutive.BlockExecutive.DMTExecute | bcos-scheduler/BlockExecutive.cpp:450-527 | total correctness: with finitely many replies the loop ends, and without an error it leaves no state, lock or context vertex, all receipts and the gas sum |
| BatchStatus.CallbackIsRight | bcos-scheduler/BlockExecutive.cpp:930-1001 | under every interleaving the callback runs at most once, only after all sends and all replies, and reports an error exactly when some reply was bad |
| BatchStatus.CallbackHasRun | bcos-scheduler/BlockExecutive.cpp:976-1073 | when no thread has anything left to do the callback has run exactly once |
| BatchStatus.BatchEnds | bcos-scheduler/BlockExecutive.cpp:930-1001 | every interleaving of a batch of n messages is over after at most 10 n + 6 atomic accesses |
| BatchStatus.CallbackRunsInTheEnd | bcos-scheduler/BlockExecutive.cpp:976-1073 | a run that cannot go on because no thread can move has run the callback exactly once |
| CommitStatus.Agreement | bcos-scheduler/BlockExecutive.cpp:224-314 | under every interleaving all firings of the check see all votes and decide alike: commit exactly when storage and all executors voted yes |
| CommitStatus.DecidesUnlessAlone | bcos-scheduler/BlockExecutive.cpp:282-314 | when all threads are done a decision has been taken exactly if there is an executor |
| CommitStatus.FiresOnceExactlyForOneExecutor | bcos-scheduler/BlockExecutive.cpp:224-314 | the check fires exactly once in every schedule if and only if there is exactly one executor |
| CommitStatus.TwoExecutorsMayDecideTwice | bcos-scheduler/BlockExecutive.cpp:226-231 | for every vote of two or more executors there is a schedule in which the check fires twice |
| CommitStatus.DecisionsAreTheReadyOnes | bcos-scheduler/BlockExecutive.cpp:282-314 | in every schedule the number of firings is the number of executors that had read nothing stale when the last vote came in |
| CommitStatus.SerialVoteDecidesOnce | bcos-scheduler/BlockExecutive.cpp:300-312 | with any number of executors, a schedule in which none votes in the middle of another one's check decides exactly once (a sufficient condition on the schedule) |
| BlockQueue.QueueIsSafe | bcos-scheduler/SchedulerImpl.cpp:35-125 | over every interleaving queued numbers are consecutive, and a committed number is greater than the one before if and only if it is not 0 |
| BlockQueue.CommitTakesItsBlock | bcos-scheduler/SchedulerImpl.cpp:184-256 | the block taken out by a finished commit is the executed block whose commit was started |
| BlockQueue.BlockZeroTwice | bcos-scheduler/SchedulerImpl.cpp:85-96 | a run in which block 0 is committed twice |
| BlockQueue.FailureWedgesTheQueue | bcos-scheduler/SchedulerImpl.cpp:44-168 | after a failed execution of a block, in every continuation the block stays queued without a result, is not executed again, and no number from it upwards is committed |
| BlockQueue.CommitsAllUnlessWedged | bcos-scheduler/SchedulerImpl.cpp:106-254 | after any run some continuation commits every queued block in order if and only if each of them has its result or is being executed |
| BlockQueue.ExecutionStartsForNext | bcos-scheduler/SchedulerImpl.cpp:35-106 | after any run a request starts an execution if and only if none is going on and the block is next: the back number plus 1, or on an empty queue anything greater than the last committed number, or anything if there is none or it is 0 |
| BlockQueue.ChainGoesOn | bcos-scheduler/SchedulerImpl.cpp:35-254 | as long as nothing is wedged the next block can be executed and all blocks committed in order |
| BlockQueue.SchedulerImpl.ExecuteBlock | bcos-scheduler/SchedulerImpl.cpp:16-105 | which answer is given when, and the new state; the lookup loop never runs past the end |
| BlockQueue.SchedulerImpl.SetBlockResult | bcos-scheduler/BlockExecutive.cpp:518-519 | the block at the back gets its result, before the number is stored |
| BlockQueue.SchedulerImpl.StoreExecutedNumber | bcos-scheduler/SchedulerImpl.cpp:121-123 | the last executed number never decreases |
| BlockQueue.SchedulerImpl.ExecutionFailed | bcos-scheduler/SchedulerImpl.cpp:108-117 | a failed block stays in the queue without a result |
| BlockQueue.SchedulerImpl.CommitBlock | bcos-scheduler/SchedulerImpl.cpp:128-185 | each of the five answers exactly when it is due, and the new state; while another commit is going on the queue is not empty |
| BlockQueue.SchedulerImpl.CommitFailed | bcos-scheduler/SchedulerImpl.cpp:187-211 | a failed commit leaves the queue as it is |
| BlockQueue.SchedulerImpl.CommitFinished | bcos-scheduler/SchedulerImpl.cpp:216-254 | takes out exactly the committed block |
| ExecutorPool.PlacedUntilRemoved | bcos-scheduler/ExecutorManager.cpp:14-106 | over any run of additions, dispatches and removals a contract keeps its executor for as long as that executor is not removed |
| ExecutorPool.DispatchedStays | bcos-scheduler/ExecutorManager.cpp:33-71 | in any such run a dispatch with an executor at hand places the contract, on a least loaded executor if it is new, and later dispatches find the same one until its removal |
| ExecutorPool.RunKeepsSpread | bcos-scheduler/ExecutorManager.cpp:14-106 | over any such run that brings in no new executor the loads stay as even as they were, or within one |
| ExecutorPool.EvenFromTheStart | bcos-scheduler/ExecutorManager.cpp:33-71 | executors that were all there before the first dispatch never differ by more than one contract |
| ExecutorPool.DispatchKeepsSpread | bcos-scheduler/ExecutorManager.cpp:56-66 | a dispatch never widens the spread of the loads beyond one or what it was |
| ExecutorManager.ExecutorManager.AddExecutor | bcos-scheduler/ExecutorManager.cpp:14-31 | registers a new name, refuses a taken one, keeps the three containers in agreement |
| ExecutorManager.ExecutorManager.DispatchExecutor | bcos-scheduler/ExecutorManager.cpp:33-71 | sticks to the executor a contract has, otherwise takes a least loaded one; the insertion cannot fail |
| ExecutorManager.ExecutorManager.RemoveExecutor | bcos-scheduler/ExecutorManager.cpp:73-106 | removes the executor and exactly its contracts, each of which is found, and rebuilds the queue |

## Where the code and expectations differ

- The check of the two-phase commit can fire more than once. It fires exactly once in every schedule if and only if there is exactly one executor (`CommitStatus.FiresOnceExactlyForOneExecutor`); all firings agree (`CommitStatus.Agreement`), and `CommitStatus.DecisionsAreTheReadyOnes` counts them.
- Block 0 can be executed and committed again after it was committed, because 0 also stands for "nothing executed yet" (`BlockQueue.BlockZeroTwice`). Committed numbers increase exactly where the later one is not 0 (`BlockQueue.QueueIsSafe`).
- A block whose execution failed stays in the queue: it is neither executed again nor committed, and nothing behind it is ever committed (`BlockQueue.FailureWedgesTheQueue`). This is the only obstacle (`BlockQueue.CommitsAllUnlessWedged`).
- Two creations with the same sender, data and salt get the same address, and the check for called contracts happens before the address is known (`Sending.CreationsCollide`); `Sending.OnlyCollisionsBreakExclusivity` says exactly when that breaks exclusivity.
- The context chosen to break a deadlock is the first one in key order that owns a key (`Recovery.FirstOwnerIsReverted`, `Runs.IdleBatchRevertsFirstOwner`). It may only be waiting for the deadlocked ones (`Recovery.VictimMayBeABystander`), or be in one of several deadlocks, and then its revert does not break the deadlock: giving up its locks breaks it if and only if no contexts wait for each other without it (`LockTable.RevertLeavesDeadLock`). In either case the next batch sends something and the run ends (`Runs.BatchKeepsInvariant`, `Runs.RunsTerminate`).
- A context waiting for a key has the key locks of its old reply acquired again in every batch; the invariant shows that it still owns them, so nothing changes.

## Left out

- A request for a queued block that has no result yet: `AlreadyQueued(false)` stands for bcos-scheduler/SchedulerImpl.cpp:56-59, where the trace line reads the state root of the missing result; the model answers without a header instead.
- Logging, timing, error texts, hashes, roots and headers of blocks.
- Address computation: `newEVMAddress` is an arbitrary function that yields fresh addresses, and `preprocessAddress` and the checksum form are taken as done.
- `DAGExecute` itself; only the states it leaves are covered, as initial states.
- `call`, `asyncNotify`, `asyncGetLedgerConfig`, `batchNextBlock` and `batchGetHashes`: simpler uses of the same patterns.
- The second phase of the commit and the rollback: they use the same counter; only the decision of the first phase is modelled.
- Concurrent calls of `dispatchExecutor`, and the heap inside the priority queue: a least loaded member is found by a scan, which fixes the choice among equals.
- The state a batch is left in when it reports an error: the execution ends there and the states are not used again.
- `BatchStatus` with a state that already failed when the batch begins: `Runs.BatchKeepsInvariant` shows that there is none.
- Integer widths other than those of context ids and the gas total: frame numbers and counters are unbounded.
- Block numbers below zero, and the short stretches of `commitBlock` that touch the queue without its lock while another thread appends.
- The choice between `call` and `executeTransaction`, and transactions' log entries and output data, which no branch depends on.
- The ordering between `Vertex` and `KeyLockView`: the index is a map with exact lookup.
