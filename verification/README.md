# An M:N threading library in Dafny

The library runs tasks (stackful bthreads and coroutines) on a fixed set of worker threads. Its
hard part is a set of lock-free structures and small protocols, and this project models them and
proves what they promise, or, where a promise does not hold in general, exactly when it does.

Atomic accesses are sequentially consistent steps; `memory_order` arguments are ignored. Each
protocol is a state machine: a `State`, a total `Apply(state, action)` in which an action that is
not enabled changes nothing, and `RunFrom(state, actions)`, so that a statement about every action
sequence is a statement about every interleaving, with any number of producers, thieves, lockers,
callers, tasks or timers. Where the source updates objects in place, a class with its fields runs
the code and is tied to the machine: its methods take the accesses that other threads make between
their own as arguments, and end in the state that the machine reaches by the call's own accesses
with just those others woven in between (`Weaving.dfy`).

| file | what it is about |
|---|---|
| `MpscQueue.dfy` | the intrusive queue with many producers and one consumer |
| `ManyConsumers.dfy` | the same queue under several consumers, as a shard of the global queue |
| `WorkStealing.dfy` | the ring of 1024 slots with a versioned head and tail |
| `Mutex.dfy` | the lock word, blocking lockers, and the hand-off to coroutine waiters |
| `TimerHeap.dfy`, `TimerShard.dfy` | the array heap of a timer shard, and its operations |
| `TimerRuns.dfy`, `TimerThread.dfy` | all shards over whole runs, and the timer thread's calls |
| `MpmcQueue.dfy` | the butex waiter queue, a linked list with tombstones |
| `TaskPool.dfy` | slots, caches, generations and handles over whole runs |
| `TaskGroup.dfy`, `TaskCache.dfy`, `TaskCalls.dfy` | the same on arrays and TaskMeta objects |
| `TaskLife.dfy` | the two references of a task: its worker, and its join or detach |
| `RoundRobin.dfy`, `SharedQueue.dfy` | the global queue: shards dealt in turn, and its counter |
| `WorkerRuns.dfy`, `Worker.dfy` | batches, picking and stealing, over whole runs and as calls |
| `DequeView.dfy` | the sequence that a worker's deque is there, and the ring of 1024 slots |
| `StackLayout.dfy` | the address arithmetic of stacks |
| `Weaving.dfy` | one call's accesses among those of others |
| `Packing.dfy`, `Sums.dfy`, `Options.dfy` | 32-bit halves of words, sums over sequences, options |

Some promises fail on some inputs, and are stated with their exact condition:

- The MPSC queue loses a push exactly when its first-element tail store falls between the
  consumer's claim and its tail reset (`DrainReturnsAllIffNoStoreInWindow`), and that can happen
  (`StoreInWindowHappens`).
- A shard of the global queue is such a queue, and several workers pop from it. As long as their calls
  do not overlap in the shard they take turns as one consumer (`OneAtATimeIsOneConsumer`); when two
  overlap, a node can be returned twice and another never (`OverlapDoublesAndStrands`).
- In the work-stealing deque what was pushed is what was taken and what is left, with single
  accesses interleaved, up to the first of three faults, and it is known exactly which access makes
  which (`ExactlyOnce`, `FaultsExactly`). After a pop's plain tail store on a contested task more
  tasks have been taken than pushed (`ContestedIsFatal`, `ContestedHappens`); it is never contested
  when pops are uninterrupted (`ExactlyOnceWithAtomicOwner`). After a thief's compare-and-swap that
  succeeds on a word 2^32 moves old the balance holds exactly when the task it had read is the first
  one again (`StaleCasBreaksIff`, `StaleCasHappens`). The push that makes 1024 tasks hides them all
  from Pop and Steal, and the next one overwrites the oldest (`OverfullHidesTasks`,
  `OverfullLosesOldest`).
- The mutex is exclusive until a `lock()` returns from a cancelled wait, which holds nothing
  (`ExclusiveIffNotCancelled`, with `CancelledWaitBreaksExclusion`). Coroutine waiters are left in the queue of a lock that no owner will
  serve them from exactly when one of them enqueued itself after an unlock had found the queue empty,
  or with no owner, and there has been no owner since (`StrandedIffLateEnqueue`, with
  `StrandedWaiterHappens`). HAS_WAITERS is never cleared, and `try_lock` fails for ever once it is
  set (`MarkIsForever`). A task that blocks in `lock()` has marked the lock before it waits (`WaiterIsMarked`),
  and it is left waiting on a free lock with no wake to come only if the last unlock saw another's wake
  pending and made none itself (`LeftBehindOnlyIfSpared`); that happens (`LeftBehindHappens`).
- A butex waiter that is added again while its node is still linked leaves a queue with that waiter
  moved to the back exactly when the node is not the last one and no live waiter stands behind it
  (`AddToTail`). Otherwise the waiters behind it are lost (`ReAddingLosesAWaiter`), and the last one
  is linked to itself (`ReAddingTheLastClosesALoop`). When it waits on another butex instead, the
  first queue's chain stays whole exactly when the node was its last (`WaitElsewhere`).
- `Empty()` of the global queue is right, between calls and in the middle of them, exactly under a
  condition on the shard sizes and the calls that have yet to update the counter
  (`EmptyIsRightIff`).
- A join has stopped waiting for a task that has not finished exactly when its wait returned before
  the finish and the finish has not come since (`JoinPastUnfinishedIff`), and it returns null in place
  of a result exactly when it came to read before the task stored one (`JoinGotNullIff`,
  `JoinReturnsEarly`).
- The cached deadline of a timer shard is the minimum of its heap in every run without cancellations
  (`CacheIsExact`). With them, a call that ends with an empty heap leaves INT64_MAX exactly when the last
  entry that it took was called (`EmptyEndIff`), and otherwise a deadline that has passed.
- The round-robin index is a shard exactly while the 32-bit counter is not negative, or is a
  multiple of the number of workers (`UsableIff`).
- A task that yields is queued before its context is saved. While its worker is still on its stack, it
  is in another worker's hands exactly when the yield flushed the batch and thieves have emptied the
  deque since (`YieldedIsElsewhereIff`), and it can be resumed then (`ResumedUnsavedHappens`).
- A run loses tasks to full deques exactly when some push in it finds 1023 tasks in its deque
  (`DroppedIffEverFull`).
- A handle decodes to its slot exactly when the slot has been deallocated a multiple of 2^32 times
  since (`HandleGoesStale`, `HandleComesBack`); a slot that goes through a worker's cache keeps its handle for its next
  task (`CachedHandleIsReused`).
- Deallocating a stack with another size finds its mapping exactly within one page
  (`FindsBaseIff`), so a pooled stack handed out for at most 4112 bytes is not found again
  (`PooledStackFoundIff`), and up to 8176 its last page stays mapped (`PooledStackGoesIff`); the usable size is as requested exactly when the total does not overflow
  (`UsableIffNoOverflow`).

Where code and documentation disagree the model follows the code: the comment on
`SharedMPSCQueue::Pop` (`include/bthread/queue/shared_mpsc_queue.hpp`) calls it safe for many
consumers although its shards are single-consumer queues (`OverlapDoublesAndStrands`); the comment in `YieldCurrent` calls a
worker with an empty batch and deque one without contention although the global queue may hold tasks.

## Model

| member | source | states |
|---|---|---|
| `MpscQueue.FifoAlways` | include/bthread/queue/mpsc_queue.hpp:73-157 | in every interleaving what Pop has returned is a prefix of the head-exchange order, and every exchanged node is returned, in the consumer's hand or in the queue, once |
| `MpscQueue.SpinWaitsForOneLink` | include/bthread/queue/mpsc_queue.hpp:105-156 | after a failed claim the tail still names the inspected node and the head is set, so neither timeout branch is taken and one pending link store is all Pop waits for |
| `MpscQueue.DrainReturnsAllIffNoStoreInWindow` | include/bthread/queue/mpsc_queue.hpp:73-113 | at quiescence repeated pops return exactly the remaining nodes, in order, if and only if no first-element tail store has fallen between a claim and its tail reset |
| `MpscQueue.DisturbedIffStoreInWindow` | include/bthread/queue/mpsc_queue.hpp:78-111 | the chain is cut off from the tail exactly when the run has such a store |
| `MpscQueue.LossIsForever` | include/bthread/queue/mpsc_queue.hpp:73-113 | after an overwritten store nothing that anybody does makes Pop return another node |
| `MpscQueue.StoreInWindowHappens` | include/bthread/queue/mpsc_queue.hpp:79-109 | a run in which a node pushed into the window is never returned |
| `MpscQueue.InvAlways` | include/bthread/queue/mpsc_queue.hpp:73-157 | the chain with gaps, one per running push, is kept by every access of every thread |
| `MpscQueue.OneCall` | include/bthread/queue/mpsc_queue.hpp:90-112 | a Pop that no producer disturbs takes the oldest node and keeps the invariant |
| `MpscQueue.PopReturnsWhatItSaw` | include/bthread/queue/mpsc_queue.hpp:90-157 | in every interleaving a Pop that has seen a node ends only by returning one, and null means that no fully pushed node was at the front, unless a tail store was lost |
| `MpscQueue.SpinsElevenHundredTimes` | include/bthread/queue/mpsc_queue.hpp:116-143 | the spin loop comes to its timeout after 1111 null loads of the link, and not before |
| `MpscQueue.ReturnedNodesAreCleared` | include/bthread/queue/mpsc_queue.hpp:73-112 | in every reachable state only a node in the queue or in the consumer's hand has a link, so a returned one has none |
| `MpscQueue.Queue.Push` | include/bthread/queue/mpsc_queue.hpp:73-82 | the state after clear, exchange and link with the given accesses of other producers and of the consumer in between |
| `MpscQueue.Queue.Pop` | include/bthread/queue/mpsc_queue.hpp:90-157 | the whole of Pop, with claim, spin and timeout branches: the state after its own accesses with the scheduled ones of producers woven in, and the node it returned |
| `MpscQueue.Queue.PopMultiple` | include/bthread/queue/mpsc_queue.hpp:176-184 | with nobody else at work, the oldest nodes in order, as many as there are up to the maximum |
| `ManyConsumers.OneAtATimeIsOneConsumer` | include/bthread/queue/mpsc_queue.hpp:90-157 | in every run of any number of consumers whose calls do not overlap the shard's words are those of a run with one consumer, and what all of them have returned is a prefix of the head-exchange order |
| `ManyConsumers.OverlapDoublesAndStrands` | src/bthread/queue/shared_mpsc_queue.cpp:17-40 | a run of two overlapping consumers in which one of three nodes is returned twice and another is not returned by any later Pop of anybody |
| `WorkStealing.ExactlyOnceWithAtomicOwner` | src/bthread/queue/work_stealing_queue.cpp:12-78 | with owner calls uninterrupted and thieves interleaving at single accesses, pushed tasks are those taken and those in the deque, unless a push's tail store makes 1024 tasks or a word is 2^32 moves old |
| `WorkStealing.ExactlyOnce` | src/bthread/queue/work_stealing_queue.cpp:12-78 | with pops split into their accesses too, the same unless one of three faults occurs |
| `WorkStealing.RefinesSequence` | src/bthread/queue/work_stealing_queue.cpp:12-78 | every access either leaves the sequence alone or appends, takes the last or takes the first task, and the call returns the task that it took; Pop reports empty only when empty |
| `WorkStealing.FaultsExactly` | src/bthread/queue/work_stealing_queue.cpp:12-78 | exactly which access raises which fault: a push's tail store that makes 1024 tasks, a plain store on a contested last task, a CAS on a word a positive multiple of 2^32 moves old |
| `WorkStealing.ContestedIsFatal` | src/bthread/queue/work_stealing_queue.cpp:24-50 | after a contested store more tasks have been taken than pushed, at once or after two more accesses of one thief |
| `WorkStealing.ContestedHappens` | src/bthread/queue/work_stealing_queue.cpp:24-50 | a run of 13 accesses that comes to a contested store |
| `WorkStealing.StaleCasBreaksIff` | src/bthread/queue/work_stealing_queue.cpp:68-73 | after a CAS on a stale word pushed equals taken plus contents exactly when the task it had read is the first one now |
| `WorkStealing.StaleCasHappens` | src/bthread/queue/work_stealing_queue.cpp:58-73 | a run, of 2^32 pushes and steals, that comes to such a CAS and breaks that balance |
| `WorkStealing.OverfullHidesTasks` | src/bthread/queue/work_stealing_queue.cpp:12-30 | with 1024 tasks Pop and Steal find nothing and leave all of them |
| `WorkStealing.OverfullLosesOldest` | src/bthread/queue/work_stealing_queue.cpp:12-21 | the push after that overwrites the oldest task; the balance holds exactly when it is the same task |
| `WorkStealing.FillUp` | src/bthread/queue/work_stealing_queue.cpp:12-21 | any number of tasks up to 1023 is reached without a fault |
| `WorkStealing.OverfullLooksEmpty` | src/bthread/queue/work_stealing_queue.cpp:12-21 | the push that makes 1024 tasks leaves a deque that tests as empty |
| `WorkStealing.WordsMatchIff` | src/bthread/queue/work_stealing_queue.cpp:68-71 | a stale head word equals the current one exactly after a multiple of 2^32 moves, however often the ring index wrapped |
| `WorkStealing.PopSeesEmptyRight` | src/bthread/queue/work_stealing_queue.cpp:24-29 | Pop finds equal indices only when the deque is empty |
| `WorkStealing.PopUndisturbed` | src/bthread/queue/work_stealing_queue.cpp:23-51 | from every reachable state a Pop with no thief in between takes the last task and moves the tail to its next version, and takes none exactly from an empty deque |
| `WorkStealing.StealUndisturbed` | src/bthread/queue/work_stealing_queue.cpp:53-78 | from every reachable state a Steal with nobody in between takes the first task in four accesses, and ends after two exactly with an empty deque |
| `WorkStealing.InvAlways` | src/bthread/queue/work_stealing_queue.cpp:12-78 | the ring holds the contents between head and tail, and what every thread has loaded is as old as it thinks, until a fault |
| `WorkStealing.WorkStealingQueue.Push` | src/bthread/queue/work_stealing_queue.cpp:12-21 | the state after the slot and tail stores with the given accesses of thieves in between |
| `WorkStealing.WorkStealingQueue.Pop` | src/bthread/queue/work_stealing_queue.cpp:23-51 | the state after its own accesses with the given ones of thieves woven in; the item is the one that one of its accesses took, and null means that none took any |
| `WorkStealing.WorkStealingQueue.Steal` | src/bthread/queue/work_stealing_queue.cpp:53-78 | with the given accesses of others woven in, the item is the task of its successful CAS, and null means that none succeeded; a call that ends on the failure of an attempt's CAS has made all three attempts |
| `Packing.PackUnpack` | include/bthread/queue/work_stealing_queue.hpp:70-74 | a word is high * 2^32 + low, and packing and unpacking are inverse between pairs of halves and 64-bit words |
| `Mutex.ExclusiveIffNotCancelled` | src/bthread/sync/mutex.cpp:58-133 | LOCKED is set exactly when there is one owner, and there is never a second, up to the first lock() that returns from a cancelled wait, and that return is what ends it |
| `Mutex.CancelledWaitBreaksExclusion` | src/bthread/sync/mutex.cpp:112-129 | a run in which the scheduler stops while one task has the lock and another waits for it, and the cancelled return leaves both in their critical sections |
| `Mutex.WaitersServedInOrder` | src/bthread/sync/mutex.cpp:234-240 | no two tasks are inside dequeue_waiter; coroutine waiters become owners in enqueue order, at most once per enqueue |
| `Mutex.HandOffPassesLock` | src/bthread/sync/mutex.cpp:177-187 | the hand-off passes ownership to the longest queued waiter with LOCKED set throughout |
| `Mutex.PendingCountsWakers` | src/bthread/sync/mutex.cpp:189-212 | pending_wake_ counts the tasks between increment and decrement and never underflows |
| `Mutex.StrandedIffLateEnqueue` | src/bthread/sync/mutex.cpp:177-197 | whenever no owner will look at the queue any more, a coroutine is in it exactly when one enqueued itself in such a state and there has been no other owner since |
| `Mutex.FreeLockStrandsIff` | src/bthread/sync/mutex.cpp:256-271 | in particular for a free lock |
| `Mutex.MarkIsForever` | src/bthread/sync/mutex.cpp:256-263 | the retry after marking never succeeds, nothing clears HAS_WAITERS, and try_lock fails ever after |
| `Mutex.StrandedWaiterHappens` | src/bthread/sync/mutex.cpp:244-272 | a run that ends with a free lock, nobody on the way to it, and a coroutine suspended in its queue |
| `Mutex.WaiterIsMarked` | src/bthread/sync/mutex.cpp:100-126 | in every run a task that waits has HAS_WAITERS set, and it began to wait at an access that saw the word locked and marked |
| `Mutex.MarkedOnlyToWait` | src/bthread/sync/mutex.cpp:100-106 | only a task on its way to wait or to enqueue itself sets HAS_WAITERS |
| `Mutex.LockAlone` | src/bthread/sync/mutex.cpp:58-126 | undisturbed, lock() owns the lock after two accesses of a word 0 and after three of a marked one, keeping the mark, and waits after four with the word marked |
| `Mutex.LeftBehindOnlyIfSpared` | src/bthread/sync/mutex.cpp:189-212 | in every run a task that waits unwoken on a free lock, with nobody about to wake it, was passed over: the last task to clear LOCKED saw another's wake pending |
| `Mutex.LeftBehindHappens` | src/bthread/sync/mutex.cpp:189-212 | a run of three tasks that ends with the lock free, everybody else done, and a blocked task unwoken |
| `Mutex.InvAlways` | src/bthread/sync/mutex.cpp:58-272 | exclusion, queue order and pending count in every reachable state without a cancelled wait |
| `Mutex.ApplyKeepsExclusive` | src/bthread/sync/mutex.cpp:58-272 | every single access keeps exclusion |
| `Mutex.ApplyKeepsQueue` | src/bthread/sync/mutex.cpp:234-271 | every single access keeps the order of the waiter queue |
| `Mutex.Mutex.TryLock` | src/bthread/sync/mutex.cpp:147-157 | succeeds exactly when the word is 0, and then the caller owns the lock |
| `Mutex.Mutex.Unlock` | src/bthread/sync/mutex.cpp:168-213 | the state after its own accesses with the given ones of others woven in; it hands off (three accesses) exactly when the queue is not empty at its second access, and it announces, wakes and retracts (seven) exactly when the queue is empty, pending_wake_ is 0 at its third access and HAS_WAITERS is set at its fetch_and; otherwise it only clears |
| `Mutex.Mutex.LockAsync` | src/bthread/sync/mutex.cpp:244-272 | the state after its own accesses with the given ones of others woven in; it is the owner after one access exactly on a word 0, after two exactly on a word 0 at its second, and otherwise marks and, unless the retry finds 0, is suspended in the queue |
| `Mutex.Mutex.LockBthread` | src/bthread/sync/mutex.cpp:58-133 | the fast path and any number of rounds with waits: the state after its own accesses with the given ones of others woven in; it returns as the owner, or from a cancelled wait as its last access; `WaiterIsMarked` and `LockAlone` say how it waits |
| `TimerHeap.SiftUpPermutes` | src/bthread/detail/timer_thread.cpp:326-337 | sifting up keeps the multiset of entries |
| `TimerHeap.SiftUpRestores` | src/bthread/detail/timer_thread.cpp:326-337 | sifting up restores heap order from one violation upwards |
| `TimerHeap.SiftDownPermutes` | src/bthread/detail/timer_thread.cpp:339-361 | sifting down keeps the multiset of entries |
| `TimerHeap.SiftDownRestores` | src/bthread/detail/timer_thread.cpp:339-361 | sifting down restores heap order from one violation downwards |
| `TimerHeap.RootIsMinimumOfAll` | src/bthread/detail/timer_thread.cpp:326-374 | the root has a minimum deadline |
| `TimerHeap.InsertIsHeap` | src/bthread/detail/timer_thread.cpp:91-93 | inserting keeps heap order and adds exactly the new entry |
| `TimerHeap.PopRootIsHeap` | src/bthread/detail/timer_thread.cpp:363-374 | popping keeps heap order and removes exactly the root |
| `TimerHeap.MarkCancelledKeepsHeap` | src/bthread/detail/timer_thread.cpp:113-117 | cancelling marks one entry with the id and changes nothing else; heap order stays |
| `TimerShard.ProcessedLeavesNothingDue` | src/bthread/detail/timer_thread.cpp:206-244 | whatever others insert or cancel during callbacks, nothing due stays, the cached deadline ends as the minimum of a non-empty heap, and only due, uncancelled entries fired |
| `TimerShard.UndisturbedFiresExactlyTheDue` | src/bthread/detail/timer_thread.cpp:206-244 | undisturbed, exactly the uncancelled due entries fire, in deadline order, and exactly the later ones stay |
| `TimerShard.EmptyEndIff` | src/bthread/detail/timer_thread.cpp:211-243 | when a call ends with an empty heap the cached deadline is INT64_MAX exactly if the last entry taken was called, or none was taken and it was INT64_MAX before; with a cancelled one last it has passed |
| `TimerShard.FiredIsUncancelledTaken` | src/bthread/detail/timer_thread.cpp:211-238 | the entries called are those taken that were not cancelled, in order, whatever others do meanwhile |
| `TimerShard.AddedKeepsInv` | src/bthread/detail/timer_thread.cpp:91-98 | an insertion keeps heap order and the cached deadline at most every deadline |
| `TimerShard.AddedDeadline` | src/bthread/detail/timer_thread.cpp:91-98 | an insertion makes the cache the earlier of the two deadlines and keeps it exact; into an empty shard with an exact cache it makes it the new deadline |
| `TimerShard.MarkedKeepsInv` | src/bthread/detail/timer_thread.cpp:112-117 | so does a cancellation |
| `TimerShard.RootTakenKeepsInv` | src/bthread/detail/timer_thread.cpp:211-229 | so does a turn of ProcessShard, before its callback |
| `TimerShard.Shard.ShardSiftUp` | src/bthread/detail/timer_thread.cpp:326-337 | the loop leaves the sifted heap |
| `TimerShard.Shard.ShardSiftDown` | src/bthread/detail/timer_thread.cpp:339-361 | the loop leaves the sifted heap |
| `TimerShard.Shard.ShardPopFromHeap` | src/bthread/detail/timer_thread.cpp:363-374 | an empty heap stays; otherwise the root goes |
| `TimerShard.Shard.Add` | src/bthread/detail/timer_thread.cpp:91-98 | the heap and the cached deadline after an insertion |
| `TimerShard.Shard.CancelId` | src/bthread/detail/timer_thread.cpp:112-118 | found exactly when the id is in the heap, and then that entry is marked |
| `TimerShard.Shard.ProcessShard` | src/bthread/detail/timer_thread.cpp:206-244 | the shard and the fired entries that `Processed` gives for the visits of others during the callbacks, of which `EmptyEndIff`, `FiredIsUncancelledTaken` and `ProcessedLeavesNothingDue` speak |
| `TimerRuns.FiresAtMostOnce` | src/bthread/detail/timer_thread.cpp:68-121 | over every run a timer fires at most once, never before its deadline, and never if a Cancel of it returned true |
| `TimerRuns.EveryTimerAccounted` | src/bthread/detail/timer_thread.cpp:68-121 | every id is awaiting insertion, in exactly one heap once, fired, or cancelled and dropped |
| `TimerRuns.ExpiredNeverHidden` | src/bthread/detail/timer_thread.cpp:142-149 | the cached deadline is at most every deadline in the heap in every reachable state, so the main loop never skips a shard with an expired entry |
| `TimerRuns.ExactAfterProcessing` | src/bthread/detail/timer_thread.cpp:240-243 | when ProcessShard ends with entries left, the cached deadline is their minimum and none is due |
| `TimerRuns.PassCallsWhatIsDue` | src/bthread/detail/timer_thread.cpp:134-157 | an entry due when the pass reaches its shard has been called or cancelled when the pass leaves it, whatever else happens |
| `TimerRuns.WholePassCallsWhatIsDue` | src/bthread/detail/timer_thread.cpp:134-157 | a timer in any shard that is due when the thread wakes up has been called or cancelled by the time the thread is past its shard or asleep, whatever else happens |
| `TimerRuns.ProcessingReadsTheClock` | src/bthread/detail/timer_thread.cpp:206-209 | a shard is processed by the clock at its own beginning: what is due then is called or cancelled before the thread goes on |
| `TimerRuns.CacheIsExact` | src/bthread/detail/timer_thread.cpp:91-98 | in every run without cancellations every shard's cached deadline is the minimum of its heap, and INT64_MAX for an empty one |
| `TimerRuns.ApplyKeepsInv` | src/bthread/detail/timer_thread.cpp:68-244 | every locked section keeps the heaps, the places of all ids and the log consistent |
| `TimerThread.ProcessShardIsARun` | src/bthread/detail/timer_thread.cpp:206-244 | a whole ProcessShard, with others' actions in any shard in every dropping of the lock, is a run of the machine: its shard ends as `Processed` says for the visits that these actions are, and the turns log its callbacks in order |
| `TimerThread.UndisturbedCall` | src/bthread/detail/timer_thread.cpp:206-244 | undisturbed, no other shard changes and its callbacks are all that is logged |
| `TimerThread.DelayInMicroseconds` | src/bthread/detail/timer_thread.cpp:72-73 | the delay is the whole microseconds of sec * 10^9 + nsec nanoseconds, the nanoseconds cut off towards zero |
| `TimerThread.TimerThread.constructor` | src/bthread/detail/timer_thread.cpp:20-25 | between 1 and 256 empty shards |
| `TimerThread.TimerThread.Schedule` | src/bthread/detail/timer_thread.cpp:68-106 | -1 for a null delay; otherwise the next id, with deadline now plus the delay, goes to the drawn shard, if the drawn index is one |
| `TimerThread.TimerThread.Cancel` | src/bthread/detail/timer_thread.cpp:108-121 | true exactly when some shard holds the id; the first such entry is marked |
| `TimerThread.Pass` | src/bthread/detail/timer_thread.cpp:134-157 | with others' visits to any shard at any time, a shard is processed, by the clock as it is then, exactly when its cached deadline has come by the pass's; then nothing due by its clock is left, and otherwise it stays as the visits left it and holds nothing due at the start |
| `MpmcQueue.LiveWithTombstone` | include/bthread/queue/mpmc_queue.hpp:270-280 | a tombstone takes its node out of the contents wherever it stands, and nothing else |
| `MpmcQueue.CutKeepsContentsIff` | include/bthread/queue/mpmc_queue.hpp:122-133 | cutting the chain behind a node moves it to the back of the contents exactly when no live node stood behind it |
| `MpmcQueue.MpmcQueue.AddToTail` | include/bthread/queue/mpmc_queue.hpp:117-139 | appends an unlinked node to the contents; cuts the chain after a linked one; links the last one to itself; a linked node leaves a queue with it moved to the back exactly when it is not the last and none live stands behind it; nothing when the flag is clear |
| `MpmcQueue.MpmcQueue.AddToHead` | include/bthread/queue/mpmc_queue.hpp:141-184 | puts an unlinked node first, live exactly if its claimed flag is clear; closes a cycle for a linked one |
| `MpmcQueue.MpmcQueue.PopFromHead` | include/bthread/queue/mpmc_queue.hpp:186-258 | null exactly when nothing is live; otherwise the first live node; the skipping loop ends and the waiting branch is not reached |
| `MpmcQueue.MpmcQueue.PopMultipleFromHead` | include/bthread/queue/mpmc_queue.hpp:260-268 | the first live nodes in order, as many as there are up to the maximum |
| `MpmcQueue.MpmcQueue.Remove` | include/bthread/queue/mpmc_queue.hpp:270-280 | takes a waiting node out of the contents anywhere; nothing without a set flag |
| `MpmcQueue.MpmcQueue.IsEmpty` | include/bthread/queue/mpmc_queue.hpp:282-284 | true exactly when nothing is linked, which may be false with nothing live |
| `MpmcQueue.ReAddingLosesAWaiter` | src/bthread/sync/butex.cpp:66-111 | of two live waiters of a queue the first is removed and added again; it is popped, and then the queue is empty with the second one still waiting |
| `MpmcQueue.ReAddingTheLastClosesALoop` | src/bthread/sync/butex.cpp:66-111 | the only waiter, removed and added again, is linked to itself, and no chain ends there |
| `MpmcQueue.WaitElsewhere` | src/bthread/sync/butex.cpp:66-111 | a waiter whose node is still linked in one queue joins another as its last; the first one's chain stays whole exactly when the node was last in it, and the node is no tombstone there any more |
| `TaskPool.OnePlaceAlways` | src/bthread/core/task_group.cpp:32-162 | after any operations every slot is on the free list, in one cache or in use, exactly once |
| `TaskPool.ClaimedSlotsAreFree` | src/bthread/core/task_group.cpp:63-102 | a batch claim is the first min(count, 16, free) slots, all different, and held nowhere else |
| `TaskPool.HandleGoesStale` | src/bthread/core/task_group.cpp:164-175 | a handle decodes to its own slot exactly when the slot's deallocations since are a multiple of 2^32, and else to null |
| `TaskPool.HandleComesBack` | src/bthread/core/task_group.cpp:125-175 | a run of 2^32 deallocations after which the first task's handle decodes again |
| `TaskPool.HandleDecodesUntilDealloc` | src/bthread/core/task_group.cpp:125-138 | below the wrap: until the slot's next deallocation, and never after |
| `TaskPool.DecodeEncoded` | include/bthread/core/task_group.hpp:37-39 | decoding an encoded handle looks up its own slot and generation |
| `TaskPool.CachedHandleIsReused` | src/bthread/core/worker.cpp:434-440 | a slot that returns through a cache gives its next task the same handle |
| `TaskPool.TakeIsNew` | src/bthread/core/worker.cpp:418-432 | a task taken through cache, refill or group was in no use before, and its TaskMeta exists |
| `TaskPool.ReleaseThenAcquire` | src/bthread/core/worker.cpp:434-445 | a worker with fewer than four cached slots gives out next the slot it is given; the fifth goes to the group |
| `TaskPool.FirstHandle` | include/bthread/core/task_group.hpp:37-39 | a slot's first handle is 2^32 plus the slot |
| `TaskPool.UsedKeepsGeneration` | src/bthread/core/task_group.cpp:104-138 | no operation on other slots changes the generation of a slot in use |
| `TaskPool.ApplyKeepsInv` | src/bthread/core/worker.cpp:418-467 | every single operation keeps the partition of the slots |
| `TaskPool.DeallocAllMoves` | src/bthread/core/worker.cpp:459-467 | draining a cache moves exactly its slots to the free list |
| `TaskGroup.TaskGroup.constructor` | src/bthread/core/task_group.cpp:8-17 | every slot is free, in order, in its first generation |
| `TaskGroup.TaskGroup.AllocTaskMeta` | src/bthread/core/task_group.cpp:32-61 | the first free slot's task with the slot's generation, or null when none is free |
| `TaskGroup.TaskGroup.AllocMultipleSlots` | src/bthread/core/task_group.cpp:63-102 | the claimed slots are written to the buffer and leave the list; 0 for a null buffer or no count |
| `TaskGroup.TaskGroup.GetOrCreateTaskMeta` | src/bthread/core/task_group.cpp:104-123 | null exactly outside the pool; otherwise the slot's one task with its generation |
| `TaskGroup.TaskGroup.DeallocTaskMeta` | src/bthread/core/task_group.cpp:125-162 | the slot goes first on the free list, its generation goes up by one modulo 2^32 and its task agrees; the task is reset but for its stack |
| `TaskGroup.TaskGroup.Decode` | src/bthread/core/task_group.cpp:164-175 | the task of a current handle, null for any other word |
| `TaskCache.TaskCache.Acquire` | src/bthread/core/worker.cpp:418-432 | the last cached task, after a refill if there was none, or null |
| `TaskCache.TaskCache.Release` | src/bthread/core/worker.cpp:434-445 | to the end of the cache while it holds fewer than four, and the free list stays; from four on to the front of the free list, and the cache stays |
| `TaskCache.TaskCache.RefillTaskCache` | src/bthread/core/worker.cpp:447-457 | up to four free slots' tasks fill the empty cache |
| `TaskCache.TaskCache.Drain` | src/bthread/core/worker.cpp:459-467 | every cached task is deallocated, in order, and the cache is empty |
| `TaskCalls.Create` | src/bthread.cpp:47-94 | refused for a null argument; EAGAIN exactly when the worker has nothing cached and no slot is free; ENOMEM exactly when the task obtained has no stack and none is to be had, and then it is back with the group; otherwise two references, the handle decodes to the task, and its slot is the worker's last cached one, else the last of the first min(4, free), the others then being cached, and without a worker the first free one |
| `TaskCalls.ObtainedFrom` | src/bthread.cpp:53-62 | a worker's slot is the last of its cache, and the group stays as it is; with nothing cached it is the last of the first min(4, free) free slots, whose others are cached; without a worker the first free one |
| `TaskCalls.ObtainedIsTake` | src/bthread.cpp:53-62 | obtaining a task is a Take of the slot machine, so that the theorems of `TaskPool` hold of this call |
| `TaskCalls.SubmittedByWorker` | src/bthread/core/scheduler.cpp:171-178 | a worker's submission is the step of the workers' machine |
| `TaskCalls.SubmittedOutside` | src/bthread/core/scheduler.cpp:179-183 | any other is an undisturbed push of the global queue's machine |
| `TaskCalls.Submit` | src/bthread/core/scheduler.cpp:161-184 | a worker's task goes to the back of its deque, any other to the drawn shard of the global queue, and nothing else moves |
| `TaskCalls.ReleaseReference` | src/bthread.cpp:138-158 | one reference less; the last one gives the task to the worker's cache or the group |
| `TaskCalls.Detach` | src/bthread.cpp:163-174 | ESRCH for a stale handle; otherwise one reference less, and the last one goes straight to the group |
| `TaskLife.RecycledOnceByTheLast` | src/bthread.cpp:151-174 | in every interleaving of finishing, joining and detaching, a task's slot is given back once, exactly when both sides are done, by the later |
| `TaskLife.HandleDecodesUntilRelease` | src/bthread.cpp:103-158 | until a join or detach has dropped its reference its handle decodes to its own task, whose count and state it reads |
| `TaskLife.TasksDoNotShare` | src/bthread.cpp:85-95 | tasks that are not over have different slots and different handles |
| `TaskLife.CloserFollowsItsCall` | src/bthread.cpp:103-174 | in every run no join or detach of a task has begun exactly as long as its side is open, and the first one decides it for good: a detach never waits, reads nothing and gives back to the group; a join reads the result and gives back by its worker |
| `TaskLife.JoinReadsOwnResult` | src/bthread.cpp:134-151 | a join reads null or its own task's result, and the slot of a task that has not finished is never given back |
| `TaskLife.JoinPastUnfinishedIff` | src/bthread.cpp:145-158 | in every run a join is past its wait with the task unfinished exactly when its Wait returned before the finish, which has not come since |
| `TaskLife.JoinGotNullIff` | src/bthread.cpp:148-151 | it has read null exactly when it came to the read before the task had stored its result, after a wait cut short |
| `TaskLife.JoinReturnsEarly` | src/bthread.cpp:145-160 | a run in which a join has returned null and the task runs |
| `TaskLife.TaskNextKeepsInv` | src/bthread/core/worker.cpp:503-519 | every step of either side keeps the count of references right and the slot its own |
| `RoundRobin.UsableIff` | src/bthread/queue/shared_mpsc_queue.cpp:11 | the drawn index is a shard exactly when the 32-bit counter is not negative or is a multiple of the workers |
| `RoundRobin.AssignedInTurn` | src/bthread/queue/shared_mpsc_queue.cpp:11 | before the wrap the index is the number of draws modulo the workers; after it, minus a remainder |
| `RoundRobin.FirstUnusable` | src/bthread/queue/shared_mpsc_queue.cpp:11 | all of the first 2^31 draws are shards, the next one exactly if the number of workers divides 2^31 |
| `RoundRobin.RoundIsFair` | src/bthread/queue/shared_mpsc_queue.cpp:11 | before the wrap, consecutive draws as many as there are workers are all different |
| `SharedQueue.CountAlways` | src/bthread/queue/shared_mpsc_queue.cpp:9-40 | the counter is the tasks in the shards less pushes yet to count plus pops yet to discount |
| `SharedQueue.EmptyWhenSettled` | src/bthread/queue/shared_mpsc_queue.cpp:42-47 | with no call in between, Empty() holds exactly when every shard is empty |
| `SharedQueue.EmptyIsRightIff` | src/bthread/queue/shared_mpsc_queue.cpp:42-47 | at any point Empty() is right exactly when, with empty shards, pushes yet to count are as many as pops yet to discount, and, with tasks in them, do not exceed those by just the number of tasks |
| `SharedQueue.CountGoesNegative` | src/bthread/queue/shared_mpsc_queue.cpp:13-22 | runs in which the counter is 0 with a task in a shard, and -1 with every shard empty |
| `SharedQueue.ShardsAreFifo` | src/bthread/queue/shared_mpsc_queue.cpp:9-40 | each shard gives out its tasks in push order, each once |
| `SharedQueue.PopMissesNothing` | src/bthread/queue/shared_mpsc_queue.cpp:17-40 | a Pop during which nothing is pushed returns null only with every shard empty, however many others pop |
| `SharedQueue.DealtEvenly` | src/bthread/queue/shared_mpsc_queue.cpp:9-15 | in every run, until the counter wraps, the pushes that have drawn shard k are those drawn as number k, k + workers and so on, so no shard has drawn two more than another |
| `SharedQueue.PushAlone` | src/bthread/queue/shared_mpsc_queue.cpp:9-15 | an undisturbed push of the machine does to the whole state what the class's Push does |
| `SharedQueue.PopAlone` | src/bthread/queue/shared_mpsc_queue.cpp:17-40 | an undisturbed pop of the machine comes to what the class's Pop does: own shard, else the first with a task, else null |
| `SharedQueue.SharedMPSCQueue.Push` | src/bthread/queue/shared_mpsc_queue.cpp:9-15 | the task goes to the back of the drawn shard and is counted, if the drawn index is a shard |
| `SharedQueue.SharedMPSCQueue.Pop` | src/bthread/queue/shared_mpsc_queue.cpp:17-40 | the first task of its own shard, otherwise of the first shard that has one, otherwise null |
| `SharedQueue.SharedMPSCQueue.Empty` | src/bthread/queue/shared_mpsc_queue.cpp:42-47 | answers whether every shard is empty |
| `WorkerRuns.TasksConserved` | src/bthread/core/worker.cpp:190-265 | in every interleaving, with yields taken apart and pushes for joiners between tasks, the copies of a task in batches, deques, shards and running are those submitted less those retired and those that a full deque dropped |
| `WorkerRuns.DroppedIffEverFull` | src/bthread/core/worker.cpp:211-218 | a run has dropped tasks exactly when some push in it found 1023 tasks in its deque |
| `WorkerRuns.YieldedIsElsewhereIff` | src/bthread/core/worker.cpp:190-209 | in every run, while a worker is still on the stack of a task that it has queued, the task is with another worker exactly when its own batch and deque are empty |
| `WorkerRuns.ResumedUnsavedHappens` | src/bthread/core/worker.cpp:190-265 | a run in which a thief resumes a task whose worker has still to save its context |
| `WorkerRuns.BatchHasRoom` | src/bthread/core/worker.cpp:190-218 | the batch holds at most 7 tasks whenever a task runs, so a yield stays within its eight slots |
| `WorkerRuns.PickMissesNothing` | src/bthread/core/worker.cpp:220-258 | while nothing is pushed and no steal loses a race, PickTask returns null only with its batch, all deques and all shards empty, whatever other workers do |
| `WorkerRuns.EveryoneIsAVictim` | src/bthread/core/worker.cpp:242-247 | one round of the steal loop tries every worker |
| `WorkerRuns.VictimsInOrder` | src/bthread/core/worker.cpp:243-247 | attempt i is at worker w + 1 + i, round to w itself, and the second round is the same |
| `WorkerRuns.GivesUpAfterTwoRounds` | src/bthread/core/worker.cpp:244-257 | a worker that loses every race gives up after 2 * workers attempts and not before |
| `WorkerRuns.PickAlone` | src/bthread/core/worker.cpp:220-231 | with no thief at its deque a pick takes the last of the batch, or moves up to eight tasks off the end of the deque and takes the one moved last |
| `WorkerRuns.YieldAlone` | src/bthread/core/worker.cpp:190-218 | a yield does nothing with batch and deque empty; otherwise the task joins the batch, and the eighth sends all eight to the deque in order |
| `WorkerRuns.TakesTheFirst` | src/bthread/core/worker.cpp:233-235 | a shard gives the picking worker its first task |
| `WorkerRuns.StealsTheFirst` | src/bthread/core/worker.cpp:246-254 | a steal takes the victim's first task |
| `DequeView.PushIsPushed` | src/bthread/queue/work_stealing_queue.cpp:12-21 | from every reachable state a push does to the ring's sequence what the workers' machine says: it appends up to 1023 tasks, and with 1023 in the ring hides them all |
| `DequeView.PopAndStealTakeEnds` | src/bthread/queue/work_stealing_queue.cpp:23-78 | and a pop takes its last task, a steal its first |
| `Worker.Deque.PopMultiple` | src/bthread/queue/work_stealing_queue.cpp:86-94 | the last tasks, last first, as many as there are up to the maximum |
| `Worker.Worker.YieldCurrent` | src/bthread/core/worker.cpp:190-209 | EINVAL without a task; no effect with batch and deque empty; otherwise the task joins the batch, and a full batch goes to the deque in order, appended when it fits |
| `Worker.Worker.MaybeFlushBatch` | src/bthread/core/worker.cpp:211-218 | a full batch goes to the deque in order, appended when it fits; any other stays |
| `Worker.Worker.PickLocal` | src/bthread/core/worker.cpp:220-231 | the last of the batch, or the oldest of up to eight tasks of the deque with the rest as the new batch |
| `Worker.Scheduler.StealSweep` | src/bthread/core/worker.cpp:237-255 | the first task of a worker such that every one that comes before it, going up from the next and round, has none; null exactly when no deque has any; every other deque stays |
| `Worker.Scheduler.PickTask` | src/bthread/core/worker.cpp:220-258 | batch, deque (up to eight from its end), global queue, steal (upwards from the next worker and round), in that order, with the whole new state of each; null exactly when all of them are empty |
| `StackLayout.FindsBase` | src/platform/platform_linux.cpp:59-101 | for every size and page-aligned base, deallocation computes the base that was mapped |
| `StackLayout.FindsBaseIff` | src/platform/platform_linux.cpp:98-101 | with another size it does so exactly when the difference, with the alignment slack, is within a page |
| `StackLayout.PooledStackFoundIff` | src/bthread/core/worker.cpp:385-393 | a pooled default stack recorded with a smaller size is found again exactly above 4112 bytes |
| `StackLayout.PooledStackGoesIff` | src/platform/platform_linux.cpp:101-115 | its whole mapping goes exactly above 8176 bytes; from 4113 on all of it but the last page |
| `StackLayout.UsableIffNoOverflow` | src/platform/platform_linux.cpp:59-85 | the top is 16-byte aligned, at most 15 bytes below the mapping's end, and at least `size` above the guard exactly when the total does not overflow |
| `StackLayout.AddressSpace.AllocateStack` | src/platform/platform_linux.cpp:59-85 | null when mmap fails; otherwise one new mapping with its header, a guard page after it, and the aligned top |
| `StackLayout.AddressSpace.DeallocateStack` | src/platform/platform_linux.cpp:87-116 | given a live stack's top and size, its mapping goes and no other does; given a default stack's top and a smaller size above 4112, the same but for the page that `PooledStackGoesIff` tells of |
| `StackLayout.AllocateThenDeallocate` | src/platform/platform_linux.cpp:59-116 | allocating and deallocating a stack of any size leaves all mappings as they were |

## Left out

- `Butex::Wait` and `Butex::Wake`: Wake loads and then stores the task's state while Wait compares and swaps it, so neither exactly-once enqueueing nor the absence of lost wake-ups holds in all interleavings; waits are abstracted as returning at any time, and only the waiter queue is modelled.
- Concurrency inside the butex waiter queue, ObjectPool, the idle-worker stack and the task group's free list: their head words are untagged and links can be published late; their operations are atomic here.
- MpmcQueue.MpmcQueue.AddToHead: the branches for a flag that another call clears between the two reads, and the `state` argument that only they use, are not modelled, because one operation runs at a time; likewise the second read of the flag in AddToTail.
- TimerThread.TimerThread.Schedule: what the source does with a drawn index outside its array of shards (`RoundRobin.UsableIff` says when it draws one) is undefined; here the timer enters no shard; ids do not wrap at 32 bits and deadlines do not overflow 64; the returned id is the entry's own, although the source reads it from the pooled entry after dropping the lock, when the entry may have fired and been reused.
- TimerThread.Pass: the sleep between passes is not in this call; visits to other shards during a shard's callbacks stand after them, with which they commute (`TimerRuns` has them in place).
- SharedQueue.SharedMPSCQueue.Push: with an index outside the shards the task enters none, as above.
- Mutex.WaitersServedInOrder: the waiter queue's push and pop are one step each, and no push is lost; the queue is an MPSC queue, whose claim window can lose one (`MpscQueue.LossIsForever`), and the lock inherits that.
- SharedQueue.SharedMPSCQueue.Pop: a shard's push and pop are atomic steps here and in `SharedQueue`'s runs; what two consumers at once can do inside one shard is in `ManyConsumers`.
- WorkerRuns.TasksConserved: the deques are sequences whose operations are one step each; a push onto 1023 tasks empties the sequence, as the ring then tests as empty, and the tasks still stored in the ring, which later pushes overwrite, are not followed.
- TaskCalls.Create: the task's context, function and argument are not modelled, and the waking of an idle worker by Submit; nor are self-join (EDEADLK) and the joiner's butex.
- TaskGroup.TaskGroup.DeallocTaskMeta: requires a task in use; the fields that only the waiting code uses are not modelled.
- StackLayout.AddressSpace.DeallocateStack: for arguments that belong to no live stack only the invariant of the mappings is stated; the source then reads whatever page the arithmetic gives.
- Staleness of handles after a task goes through a worker's cache: cached slots keep their generation, so staleness is tied to deallocation alone.
- Liveness: that a join is woken, that lockers make progress, `WaitForTask` and `WakeUp`; they rest on futexes, a 1 ms timeout and the operating system's scheduling.
- The pthread paths of Mutex and CondVar, native mutexes, and mixed locking from pthreads and bthreads.
- The timer's global-heap fallback (the shard code again) and `RemoveFromHeap` (unused).
- Memory orders, context switching, signal handlers, thread creation, clocks, the Windows and macOS platforms.
- Coroutine promises and awaiters, `Result`, cancellation, `FramePool`, `ExecutionQueue`, scheduler start-up and shutdown.
