# ezthread, verified

Models of the concurrent containers and coordination protocols of ezthread, a C++20 threading library, with
proofs of what they promise.  `dafny verify dfyconfig.toml` checks everything.

## How the models are built

Each protocol is a transition system.  A `State` holds the fields of the C++ object, one program counter per
thread, and history that no step reads (the items pushed, the fate of every task, the arrivals by generation).
`Step` lets one thread perform its next access: one atomic load, store or compare-exchange, one move of an item,
or one lock operation.  `Run` folds `Step` over a schedule, and a schedule is any sequence of events, so a
statement about `Run` or about a `Reached` state holds for any number of threads, any interleaving, and any choice
the environment makes: spurious failures of weak compare-exchanges, timeouts, spurious wakeups, throwing callables.

Next to each transition system stands a class with the fields of the original object.  Its `Advance` updates
them in place, and is proved to do exactly what `Step` says; `Execute` does the same for whole schedules.

The `...Calls` modules tie every answer to the call it answers: they follow one call of one thread through any run,
from the event that began it, and say what it did, in which of its steps, and what it may return.

| part | files |
|---|---|
| words, masks, ring positions | `Words.dfy`, `Ring.dfy`, `Prelude.dfy` |
| `MPMCQueue` | `Mpmc.dfy` (steps), `MpmcProof.dfy` (invariant), `MpmcTheorems.dfy`, `MpmcCalls.dfy`, `MpmcQueue.dfy` (object) |
| `LockFreeStack` | `Stack.dfy`, `StackProof.dfy`, `StackTheorems.dfy` (with the object), `StackCalls.dfy` |
| `SPSCQueue` | `Spsc.dfy`, `SpscProof.dfy`, `SpscSize.dfy`, `SpscCalls.dfy`, `SpscQueue.dfy` (object) |
| `parallel::ForEach`, `Reduce`, `Sort`, `ParallelFor` | `Chunks.dfy`, `Pieces.dfy`, `ParallelFor.dfy`, `Reduce.dfy`, `Sort.dfy` |
| `Barrier`, `OnceFlag` | `Barrier.dfy`, `BarrierCalls.dfy`, `OnceFlag.dfy`, `OnceCalls.dfy` |
| `ThreadPool` | `Pool.dfy`, `PoolProof.dfy`, `PoolTheorems.dfy`, `PoolShutdown.dfy`, `PoolPause.dfy`, `PoolCalls.dfy`, `PoolObject.dfy` |
| `Future`, `Promise`, `Then` | `Future.dfy`, `FutureCalls.dfy`, `ThenChain.dfy` |

## Where the code does less than its name suggests

Each gap is proved, and so is the exact condition under which the promise holds.

- A one-cell `MPMCQueue` passes the static assertions, but a second Push overwrites the unread first item; items
  are safe in every schedule if and only if there are at least two cells (`MpmcTheorems.IntactIffTwoCells`).
- `Barrier::WaitFor` withdraws without looking at the generation again.  Withdrawing from a generation that is
  already over wraps the count and strands later waiters; the counting law holds if and only if that never
  happened (`BarrierModel.LawIffNoStaleWithdrawal`).  Even then arrivals and withdrawals balance as 64-bit words
  (`BarrierModel.Conservation`), and nobody leaves early while there are at most 2^64 - count of these
  withdrawals (`BarrierModel.NobodyLeavesEarly`).
- A callable that calls its own `OnceFlag` again passes the recursive lock and runs twice; the flag works if and
  only if callables do not re-enter it (`OnceFlagModel.OnceIffNotReentrant`).
- `TryGet` and `WaitFor` of a future test once, so they can return true before the outcome is there; they never do
  if and only if wakeups are not spurious (`FutureModel.TrueMeansReadyIffNoSpuriousWakeups`).
- `Stop(true)` suggests that it waits for the pending tasks.  Workers subtract at most once more after the flag is
  set, so with two or more tasks pending it never returns (`PoolTheorems.StopWithTwoPendingNeverReturns`, reached
  with any number of workers in `PoolShutdown.StopCanHang`); it can return if and only if nothing is pending or the
  last pending task is already in the hands of a worker (`PoolShutdown.StopCanReturnIff`).
- `Pause` stops only workers that come to the pause test.  One that waits for a task, even asleep, takes the next one
  although the pool stays paused; a worker is held back if and only if it has not passed the test
  (`PoolPause.PauseHoldsIff`).
- The chunk arithmetic of `ParallelFor` covers the range if and only if neither the rounded-up count nor the
  rounded-up end leaves a 64-bit word; otherwise the last index is never visited
  (`Chunks.WordSplitExactIffFits`, with nine indices and two threads in `Chunks.WordSplitCanMiss`).
- `SPSCQueue::Size` can return a number the queue never came near.  In every schedule it returns a size the queue
  had between its two loads if and only if the caller is the producer or the consumer or the ring has at most two
  cells (`SpscSize.SizeExactIff`).

## Model

| member | source | states |
|---|---|---|
| Words.PowerOfTwoTest | src/ezthread/atomic.hpp:286-287 | the static assertion on the capacity accepts exactly the powers of two |
| Ring.SlotIsRemainder | src/ezthread/atomic.hpp:304 | a position and its cell index differ by whole laps, so the index is the remainder |
| Ring.SlotIsMask | src/ezthread/atomic.hpp:304 | for every accepted capacity the mask picks the cell that the remainder picks |
| MpmcProof.PushSees | src/ezthread/atomic.hpp:304-307 | what Push can find in the cell of a stale position: never less than it, and never more at the current tail |
| MpmcProof.PopSees | src/ezthread/atomic.hpp:360-363 | the same for Pop at the current head, where the matching sequence means a published, unread item |
| MpmcProof.StepInv | src/ezthread/atomic.hpp:298-380 | every step of every thread keeps the invariant: sequence numbers, owners and items of all positions agree |
| MpmcProof.RunInv | src/ezthread/atomic.hpp:298-380 | hence every schedule does |
| MpmcTheorems.ExclusiveOwner | src/ezthread/atomic.hpp:311-316 | between claim and final store a cell has at most one owner, pushers and poppers together |
| MpmcTheorems.PushClaimIsSound | src/ezthread/atomic.hpp:305-315 | when the compare-exchange on a stale tail succeeds, the cell still shows the sequence read before and nobody holds it |
| MpmcTheorems.PopClaimIsSound | src/ezthread/atomic.hpp:361-371 | the same for the head, and the item pushed at that position is in the cell |
| MpmcTheorems.StepRefinesQueue | src/ezthread/atomic.hpp:298-380 | every step is an enqueue, a dequeue of the oldest item, or nothing, on a FIFO of at most Capacity items |
| MpmcTheorems.PopDeliversItsPosition | src/ezthread/atomic.hpp:370-373 | a Pop returns the item pushed at the position it claimed, which no Pop returned before |
| MpmcTheorems.PushDeliversItsItem | src/ezthread/atomic.hpp:314-316 | the step that lets a Push return true leaves the item it carries, published, at its own position; `MpmcCalls.PushKeepsItsItem` says that this is the item of the call |
| MpmcCalls.PushKeepsItsItem | src/ezthread/atomic.hpp:298-324 | in every run, from the event that begins Push(x) until that call ends, however often it retries, it carries x and appends nothing but x |
| MpmcCalls.EveryAnswerFitsItsCall | src/ezthread/atomic.hpp:298-393 | in every run, every call answers what it was asked: Push(x) true means x was appended in exactly one of its steps, with room, and is published; false means nothing was appended and no room was seen; Pop returns the oldest item, removed in exactly one of its steps, or removed nothing and saw nothing ready; Size is the tail at its second load less the head at its first |
| MpmcCalls.EveryRunHasATrace | src/ezthread/atomic.hpp:280-407 | every schedule has the sequence of states that these two speak of |
| MpmcTheorems.Conservation | src/ezthread/atomic.hpp:298-380 | every position is delivered with its own value, or held by exactly one thread, or published; the indices stay within Capacity of each other |
| MpmcTheorems.RunExtends | src/ezthread/atomic.hpp:298-380 | no schedule rewrites what was pushed or popped, and both indices only grow |
| MpmcTheorems.FailuresAreExact | src/ezthread/atomic.hpp:307-376 | of all the steps of Push only the read of the sequence can give up, and it does if and only if its position is the current tail and the position one lap back is not released; Pop likewise, at the current head, when the queue is empty or the head is claimed but unpublished |
| MpmcTheorems.RetryMeansProgress | src/ezthread/atomic.hpp:309-322 | a compare-exchange that is not spurious succeeds if and only if its position is still current; otherwise the call continues with the same item at a strictly larger position, the current one: another claim succeeded |
| MpmcTheorems.FinishesAlone | src/ezthread/atomic.hpp:298-393 | from any reachable state a call left alone, none of its steps failing spuriously, returns within six steps |
| MpmcTheorems.SizeNeverUnderReports | src/ezthread/atomic.hpp:388-393 | Size never underflows and is at least the size at both of its loads |
| MpmcTheorems.WordStepRefines | src/ezthread/atomic.hpp:304-315 | while tail + Capacity is at most 2^63, masks, wrap-around and signed differences step exactly like unbounded integers |
| MpmcTheorems.WordRunRefines | src/ezthread/atomic.hpp:280-407 | the same for whole schedules |
| MpmcTheorems.OneCellOverwrites | src/ezthread/atomic.hpp:286-316 | with one cell a schedule exists in which the second Push overwrites the unread first item |
| MpmcTheorems.IntactIffTwoCells | src/ezthread/atomic.hpp:286-287 | bound and items are safe in all schedules if and only if there are at least two cells |
| MpmcObject.MpmcQueue.constructor | src/ezthread/atomic.hpp:284-291 | the object starts in the initial state, cell i carrying sequence i |
| MpmcObject.MpmcQueue.AdvancePush | src/ezthread/atomic.hpp:298-324 | the in-place accesses of Push, in words and masks, are its steps |
| MpmcObject.MpmcQueue.AdvancePop | src/ezthread/atomic.hpp:354-380 | the in-place accesses of Pop are its steps |
| MpmcObject.MpmcQueue.Execute | src/ezthread/atomic.hpp:280-407 | any schedule on the object, in words, ends in the state of the unbounded model and in its invariant |
| StackProof.PushedInv | src/ezthread/atomic.hpp:216-228 | a successful Push puts its own item on top of the reachable ones and keeps the invariant |
| StackProof.PoppedInv | src/ezthread/atomic.hpp:244-260 | a successful Pop removes the top node and keeps the invariant |
| StackProof.StepInv | src/ezthread/atomic.hpp:216-260 | every step keeps the chain of nodes, the private nodes and the log in agreement |
| StackProof.RunInv | src/ezthread/atomic.hpp:216-260 | hence every schedule does |
| StackTheorems.Linearizes | src/ezthread/atomic.hpp:216-260 | the log is a legal history of a sequential stack ending with the reachable items, and each returned call has exactly one entry in it, with its own result, made while it was active |
| StackCalls.EveryAnswerFitsItsCall | src/ezthread/atomic.hpp:216-260 | in every run, Push(x) logs the pushing of x and Pop the popping of the item it returns or an empty stack, once, while it runs, and nothing else |
| StackTheorems.LegalConserves | src/ezthread/atomic.hpp:216-260 | any legal history pushes what it pops plus what it leaves |
| StackTheorems.PushedIsPoppedPlusContents | src/ezthread/atomic.hpp:216-260 | in every reachable state the items pushed are those popped together with those reachable |
| StackTheorems.PublishedNodesNeverChange | src/ezthread/atomic.hpp:216-260 | no schedule relinks a published node or lets a second Pop win it |
| StackTheorems.NoAba | src/ezthread/atomic.hpp:244-257 | a Pop that succeeds after any delay installs the true successor and is the first to win that node |
| StackTheorems.FinishesAlone | src/ezthread/atomic.hpp:216-260 | a call left alone, none of its steps failing spuriously, returns within five steps |
| StackTheorems.RetryMeansProgress | src/ezthread/atomic.hpp:216-260 | a compare-exchange that fails, and not spuriously, was overtaken by an operation of another thread that took effect since the head was read |
| StackTheorems.LockFreeStack.AdvancePush | src/ezthread/atomic.hpp:216-228 | the in-place accesses of Push are its steps |
| StackTheorems.LockFreeStack.AdvancePop | src/ezthread/atomic.hpp:244-260 | the in-place accesses of Pop are its steps |
| StackTheorems.LockFreeStack.Destroy | src/ezthread/atomic.hpp:202-211 | the destructor's walk ends, having freed each reachable node once and no popped one |
| SpscProof.NextIsMask | src/ezthread/atomic.hpp:139 | the masked successor is the next ring index |
| SpscProof.FullTest | src/ezthread/atomic.hpp:141-142 | the index test holds if and only if Capacity - 1 items are inside |
| SpscProof.EmptyTest | src/ezthread/atomic.hpp:166-167 | the index test holds if and only if nothing is inside |
| SpscProof.StepInv | src/ezthread/atomic.hpp:136-188 | every step of producer, consumer and observer keeps the invariant |
| SpscProof.RunInv | src/ezthread/atomic.hpp:136-188 | hence every schedule does |
| SpscProof.Fifo | src/ezthread/atomic.hpp:136-172 | popped followed by contents is pushed, and at most Capacity - 1 items are inside |
| SpscProof.StepRefinesFifo | src/ezthread/atomic.hpp:136-172 | each step appends the pushed item, removes and returns the oldest, or keeps the queue |
| SpscProof.FailuresAreExact | src/ezthread/atomic.hpp:141-167 | Push reports full and Pop reports empty if and only if that is so at the load of the other index |
| SpscProof.WrittenCellIsUnreadable | src/ezthread/atomic.hpp:144 | the cell being written holds no readable item, and no Pop is at it |
| SpscCalls.EveryAnswerFitsItsCall | src/ezthread/atomic.hpp:136-188 | in every run, every call answers what it was asked: Push(x) true appended x in one of its steps, with room, false saw the ring full and did nothing; Pop removed the oldest item and returns it, or saw the ring empty and did nothing; Size computes from its two loads |
| SpscSize.EverySizeCall | src/ezthread/atomic.hpp:180-188 | every second load of a Size call is preceded by its first, so the theorem below speaks of all calls |
| SpscSize.ProducerReports | src/ezthread/atomic.hpp:180-188 | in every schedule the producer is told the size at its second load |
| SpscSize.ConsumerReports | src/ezthread/atomic.hpp:180-188 | in every schedule the consumer is told the size at its first load |
| SpscSize.ObserverReports | src/ezthread/atomic.hpp:180-188 | with at most two cells any other thread is told a size that occurred between its loads |
| SpscSize.ObserverIsMisled | src/ezthread/atomic.hpp:180-188 | from three cells on a schedule exists in which another thread is told Capacity - 1 items while the ring never held more than one |
| SpscSize.SizeExactIff | src/ezthread/atomic.hpp:180-188 | for every capacity and caller: all calls in all schedules return a size that occurred between their loads, if and only if the caller is an endpoint or there are at most two cells |
| SpscProof.WaitFree | src/ezthread/atomic.hpp:136-188 | in every schedule in which a thread moves four times its call returns, whatever the others do |
| SpscObject.SpscQueue.AdvanceLocal | src/ezthread/atomic.hpp:136-188 | the loads and tests on the object, with masks, are the steps |
| SpscObject.SpscQueue.AdvanceMoving | src/ezthread/atomic.hpp:144-170 | the stores on the object, with masks, are the steps |
| SpscObject.SpscQueue.Execute | src/ezthread/atomic.hpp:121-194 | any schedule on the object ends in the state of the model and in its invariant |
| Chunks.SplitExact | src/ezthread/pool.cpp:64-74 | ceiling-sized chunks with the early exit list every index of the range once and in order |
| Chunks.ChunksFromShape | src/ezthread/pool.cpp:68-74 | at most one chunk per thread, each non-empty and inside the range |
| Chunks.ChunkSizeIsCeiling | src/ezthread/pool.cpp:64 | the chunk size is the ceiling of count by threads: enough for one chunk each, and no larger |
| Chunks.ChunksAreEven | src/ezthread/pool.cpp:66-74 | all chunks but the last have exactly that size |
| Chunks.WordSplitFits | src/ezthread/pool.cpp:64-74 | without overflow the word loop produces exactly these chunks |
| Chunks.WordSplitMisses | src/ezthread/pool.cpp:64-74 | with overflow it never reaches the last index |
| Chunks.WordSplitExactIffFits | src/ezthread/pool.cpp:64-74 | so it covers the range if and only if count + threads - 1 and the rounded-up end fit in a word |
| Chunks.SimpleFit | src/ezthread/pool.cpp:64-74 | end + threads - 1 fitting in a word is enough |
| Chunks.WordSplitCanMiss | src/ezthread/pool.cpp:64-74 | nine indices at the top of the word, split for two threads, lose the last one |
| Pieces.SlicesCover | src/ezthread/sync.hpp:134-142 | the slices of the chunks, padded with empty ones to the thread count, join to the input |
| ParallelForModel.SubmitChunks | src/ezthread/pool.cpp:66-74 | the submitting loop, with its early exit, submits the chunks of the word split |
| ParallelForModel.RunTasks | src/ezthread/pool.cpp:76-80 | chunk tasks interleaved in any way visit, all together, exactly the indices of the chunks |
| ParallelForModel.ParallelFor | src/ezthread/pool.cpp:48-84 | nothing on an empty range, in order with one thread, otherwise every index exactly once if and only if the arithmetic fits |
| ParallelForModel.ForEach | src/ezthread/sync.hpp:91-108 | every element position is processed exactly once, in order without a pool |
| Pieces.GatherSameItems | src/ezthread/sync.hpp:99-104 | visiting the same indices in any order processes the same elements |
| ReduceModel.FoldOfFolds | src/ezthread/sync.hpp:144-161 | folding chunk folds is folding the whole sequence, for chunks of any shape |
| ReduceModel.RightIdentityAbsorbs | src/ezthread/sync.hpp:149-151 | associativity and a right identity suffice for a chunk's fold to stand for the chunk |
| ReduceModel.FoldOfFoldsWithCopies | src/ezthread/sync.hpp:132-161 | for associative-commutative functions each partial result adds one copy of initial, wherever the chunks lie |
| ReduceModel.RunTasks | src/ezthread/sync.hpp:144-153 | tasks finishing in any order leave each chunk's fold in its own partial result, and initial where there was no chunk |
| ReduceModel.Reduce | src/ezthread/sync.hpp:111-164 | the sequential left fold if initial is a right identity, or without a pool, a second hardware thread or a second element; otherwise, for associative-commutative functions, that fold with exactly as many extra copies of initial as the lesser of hardware threads and elements |
| SortModel.StableMergeUnique | src/ezthread/sync.hpp:218-242 | the order of emission (value, then chunk, then index) leaves no choice: the output is determined |
| SortModel.BestIsBefore | src/ezthread/sync.hpp:223-233 | the head chosen precedes everything that remains, ties going to the lowest chunk |
| SortModel.FindBest | src/ezthread/sync.hpp:220-235 | while elements remain the scan finds the first minimal head, so the early break is never taken |
| SortModel.MergeChunks | src/ezthread/sync.hpp:212-242 | the merge emits every element of every chunk once, sorted and stable by chunk index, empty chunks included |
| SortModel.SortChunks | src/ezthread/sync.hpp:193-207 | the tasks leave each chunk sorted and permuted, in any order of finishing |
| SortModel.SortInChunks | src/ezthread/sync.hpp:187-244 | split, chunk sort and merge yield a sorted permutation for any thread count |
| SortModel.Sort | src/ezthread/sync.hpp:167-245 | on every path the container ends as a sorted permutation of itself, for any strict weak order |
| BarrierModel.StepInv | src/ezthread/sync.cpp:16-60 | every arrival, wakeup, timeout and withdrawal keeps the invariant |
| BarrierModel.RunInv | src/ezthread/sync.cpp:7-60 | hence every schedule does |
| BarrierModel.LawIffNoStaleWithdrawal | src/ezthread/sync.cpp:49-57 | finished generations have exactly count lasting arrivals, and the current one waiting < count, if and only if nobody withdrew from a finished generation |
| BarrierModel.Conservation | src/ezthread/sync.cpp:16-60 | over any run arrivals - withdrawals = count * generation + waiting modulo 2^64, and exactly, with waiting < count, when no withdrawal came from a finished generation |
| BarrierModel.NobodyLeavesEarly | src/ezthread/sync.cpp:23-32 | whoever leaves a generation successfully leaves one that had count lasting arrivals when it ended, as long as late withdrawals plus count are at most 2^64; they last for good when no withdrawal was late |
| BarrierModel.EndingArrival | src/ezthread/sync.cpp:21-27 | in any run the arrival that ends a generation is number count plus the late withdrawals since it began, modulo 2^64; so, with fewer than 2^64 threads, it is early if and only if that sum wraps below count |
| BarrierModel.NoLostWakeup | src/ezthread/sync.cpp:23-32 | nobody sleeps in a finished generation, and a woken member of one leaves at once |
| BarrierCalls.EveryAnswerFitsItsCall | src/ezthread/sync.cpp:16-60 | in every run a call reports failure if and only if its timeout ran out, which only WaitFor can do, and otherwise the generation it arrived in is over |
| BarrierCalls.TimeoutIsHeeded | src/ezthread/sync.cpp:49-55 | a sleeper keeps the kind of its call, and times out if and only if it is a WaitFor |
| BarrierModel.TimelyWithdrawal | src/ezthread/sync.cpp:51-55 | a timeout in the open generation takes back one arrival and changes nothing else |
| BarrierModel.StaleWithdrawalStrandsWaiters | src/ezthread/sync.cpp:51-55 | a schedule exists in which a late withdrawal wraps the count and two arrivals at a barrier for two both sleep |
| BarrierModel.Barrier.Create | src/ezthread/sync.cpp:7-14 | construction fails if and only if the count is zero |
| BarrierModel.Barrier.Enter | src/ezthread/sync.cpp:16-47 | arriving, in place, is the model's step: it either completes the generation and wakes all or falls asleep |
| BarrierModel.Barrier.Resume | src/ezthread/sync.cpp:31-59 | re-testing after a wakeup, and withdrawing after a timeout, in place |
| OnceFlagModel.StepInv | src/ezthread/sync.hpp:61-74 | without re-entry every step keeps lock ownership, flag and completion count in agreement |
| OnceFlagModel.RunInv | src/ezthread/sync.hpp:61-74 | hence every schedule does |
| OnceFlagModel.ReentryCompletesTwice | src/ezthread/sync.hpp:67-73 | with re-entry one thread can complete the callable twice |
| OnceFlagModel.OnceIffNotReentrant | src/ezthread/sync.hpp:61-74 | at most one completion, and no normal return before it, in all schedules with any throws, if and only if callables do not re-enter |
| OnceFlagModel.Proceeds | src/ezthread/sync.hpp:61-74 | only another lock owner holds a call up, and a call leaving by an exception gives the lock back and changes nothing else |
| OnceCalls.CompletionsAreFinishes | src/ezthread/sync.hpp:67-73 | a completion is counted in exactly the steps in which a running callable finishes, and the flag is set only by the store after it |
| OnceCalls.ThrowUnlocks | src/ezthread/sync.hpp:71-72 | a callable that throws skips the store and changes nothing |
| OnceCalls.ThrowingCallsChangeNothing | src/ezthread/sync.hpp:61-74 | in any schedule in which no callable finishes, with any threads and re-entry or not, the flag stays unset and no call returns normally |
| OnceCalls.EveryCallEndsAsItsCallable | src/ezthread/sync.hpp:61-74 | in every run without re-entry a call whose callable threw leaves flag, completions and normal returns as they were; one whose callable finished, or that saw the flag set and ran nothing, returns normally with the flag set |
| OnceFlagModel.OnceFlag.Advance | src/ezthread/sync.hpp:61-74 | the in-place accesses of CallOnce are its steps |
| PoolProof.StepInv | src/ezthread/pool.cpp:26-188 | every step of workers, submitters and stoppers keeps the invariant |
| PoolProof.RunInv | src/ezthread/pool.cpp:26-188 | hence every schedule does, for any number of workers and clients |
| PoolTheorems.TaskConservation | src/ezthread/pool.cpp:155-179 | every submitted task is queued, or held by exactly one worker, or run by exactly one that is about to set its promise, or run with the promise set, or discarded; none is run twice |
| PoolTheorems.FutureIsSetAfterTheTask | src/ezthread/pool.hpp:41-58 | the future of a task is set only after its function ran, and then some worker sets it at its next step |
| PoolTheorems.FatesAreFinal | src/ezthread/pool.cpp:155-179 | fates only move forward and each step runs at most one task |
| PoolTheorems.SettledTasksStaySettled | src/ezthread/pool.hpp:33-72 | over any schedule a finished task stays finished, is not run again and its future stays set; a discarded one is never run and its future is never set |
| PoolTheorems.FirstInFirstOut | src/ezthread/pool.cpp:161-168 | a worker always takes the oldest waiting task: dequeue order is submission order |
| PoolPause.OldestTaskCanRun | src/ezthread/pool.cpp:143-188 | from any reachable state with workers and a waiting task, neither stopping nor paused, some schedule runs the oldest task and sets its future |
| PoolPause.PauseHolds | src/ezthread/pool.cpp:147-151 | while the pool stays paused no schedule lets a worker before the pause test pass it or take another task |
| PoolPause.PauseHoldsIff | src/ezthread/pool.cpp:147-168 | in a paused pool that is not stopping, some schedule that never resumes it lets a worker take another task if and only if the worker has passed the pause test already, even if it sleeps |
| PoolCalls.EveryCallDoesItsDuty | src/ezthread/pool.cpp:26-130 | in every run a finished Submit appended one task, counted it once and woke the sleeper it was given; Pause and Resume wrote the flag once, and Resume woke everybody; Stop did nothing because the flag was set, or set it, woke everybody, waited for a pending count of zero if asked to and never otherwise, and after the workers' exit emptied the queue and reset the count |
| PoolTheorems.PendingIsQueueLength | src/ezthread/pool.cpp:39-43 | until the drain the pending count is the queue length whenever the lock is free, and it never wraps |
| PoolTheorems.AtMostOneMoreSubtraction | src/ezthread/pool.cpp:155-168 | after the stop flag is set all workers together subtract at most once |
| PoolTheorems.StopLeavesOnlyIfAtMostOnePending | src/ezthread/pool.cpp:99-108 | Stop(true) leaves its wait only if at most one task was pending at the flag |
| PoolShutdown.StopCanReturnIff | src/ezthread/pool.cpp:104-129 | from any reachable state in which Stop(true) waits, some schedule takes it through joins and drain to its return if and only if nothing is pending or a worker already past its stop test holds the last pending task |
| PoolShutdown.StopCanReturn | src/ezthread/pool.cpp:104-129 | the schedule: the lock holder leaves, each worker exits and is joined, the queue is drained |
| PoolShutdown.StopDiscardsNothingCounted | src/ezthread/pool.cpp:99-126 | in any schedule after Stop(true) set the flag, either it still waits or every task added to the pending count by then has been taken by a worker: none of them is discarded |
| PoolShutdown.StopCanHang | src/ezthread/pool.cpp:99-108 | with any number of workers a schedule exists in which Stop(true) finds two tasks pending and can never return |
| PoolTheorems.StopWithTwoPendingNeverReturns | src/ezthread/pool.cpp:104-108 | with two or more pending no schedule moves it on |
| PoolTheorems.NothingRunsAfterDrain | src/ezthread/pool.cpp:118-126 | once the drain begins every worker has exited and no task is executed any more |
| PoolTheorems.DrainEmptiesQueue | src/ezthread/pool.cpp:122-126 | when the drain ends the queue is empty and every task was run and its future set, or it was discarded |
| PoolObject.ThreadPool.Advance | src/ezthread/pool.cpp:26-188 | the in-place pool performs the model's step and keeps the invariant |
| PoolObject.ThreadPool.WorkInside | src/ezthread/pool.cpp:155-169 | the worker's locked region, in place |
| PoolObject.ThreadPool.WorkOutside | src/ezthread/pool.cpp:145-187 | the rest of the worker loop, in place; what its pause test decides is `PoolPause.PauseHoldsIff` and `PoolPause.OldestTaskCanRun` |
| PoolObject.ThreadPool.Serve | src/ezthread/pool.cpp:39-45 | submitting, pausing and resuming, in place |
| PoolObject.ThreadPool.StopAndJoin | src/ezthread/pool.cpp:99-120 | stopping up to the joins, in place |
| PoolObject.ThreadPool.Drain | src/ezthread/pool.cpp:122-129 | draining and resetting, in place |
| FutureModel.StepInv | src/ezthread/future.cpp:22-206 | every step of setters and waiters keeps the invariant |
| FutureModel.RunInv | src/ezthread/future.cpp:22-206 | hence every schedule does |
| FutureModel.SetOnce | src/ezthread/future.cpp:156-206 | a set fails if and only if the outcome is there, and otherwise installs its own |
| FutureModel.OutcomeIsFinal | src/ezthread/future.cpp:156-206 | once set the outcome never changes, whatever follows |
| FutureModel.WaitersSeeTheOutcome | src/ezthread/future.cpp:22-78 | Get and Wait return only when ready, and values or exceptions that are delivered are exactly the outcome that was set |
| FutureCalls.ReadyAnswers | src/ezthread/future.cpp:22-92 | in a ready state Get returns or rethrows the outcome, Wait returns, TryGet returns true with the value or rethrows, WaitFor returns true |
| FutureCalls.EveryAnswerFitsItsCall | src/ezthread/future.cpp:22-206 | in every run, setting o sets exactly that and then wakes everybody, or finds an outcome and leaves it; a wait gives up if and only if its timeout ran out, and otherwise answers with the outcome in its own way, or, testing once, was woken spuriously |
| FutureModel.NoLostWakeup | src/ezthread/future.cpp:156-206 | a sleeper in a ready state is owed a NotifyAll that is still to come and that wakes everybody |
| FutureModel.SpuriousWaitFor | src/ezthread/future.cpp:80-92 | with spurious wakeups WaitFor can return true with nothing set |
| FutureModel.TrueMeansReadyIffNoSpuriousWakeups | src/ezthread/future.cpp:39-92 | TryGet and WaitFor returning true mean ready in all schedules if and only if wakeups are not spurious |
| FutureModel.SharedState.Advance | src/ezthread/future.cpp:22-206 | the in-place accesses are the steps |
| ThenChain.ComposeTwo | src/ezthread/future.cpp:94-138 | Then(f).Then(g) has the outcome of one Then that runs g after f, exceptions included |
| ThenChain.ComposeAnywhere | src/ezthread/future.cpp:94-138 | the same anywhere inside a chain |
| ThenChain.StepInv | src/ezthread/future.cpp:94-138 | every step of every link keeps states, links and call counts in agreement |
| ThenChain.ChainPreservesMeaning | src/ezthread/future.cpp:94-138 | for chains of any length and any schedule each set state holds the fold of the functions over the first outcome |
| ThenChain.ExceptionSkipsTheRest | src/ezthread/future.cpp:101-126 | no function is called twice, behind an exception none is called, and the exception arrives unchanged |
| ThenChain.SetStatesNeverChange | src/ezthread/future.cpp:94-138 | no link ever changes a state that is set, upstream or not |
| ThenChain.ChainNeverStalls | src/ezthread/future.cpp:94-138 | while the chain is unfinished some link can move and brings the end nearer |
| ThenChain.FinishedChainIsTheFold | src/ezthread/future.cpp:94-138 | a finished chain holds the fold of all its functions in its last state |

## Left out

- Weak memory orders: all atomic accesses are taken as sequentially consistent.  Spurious failure of weak
  compare-exchanges is modelled.
- Signed overflow in the sequence difference: `WordStepRefines` covers indices up to 2^63 - Capacity, beyond which
  the C++ subtraction is undefined.
- The kernel: critical sections and condition variables are assumed to behave as mutual exclusion and atomic
  release-and-sleep; `Thread`, `Mutex`, `RWLock`, `Semaphore`, `Event` and `ThreadLocal` are thin wrappers.
- Lock granularity in `Barrier` and `SharedState`: fields touched only under one lock are updated in one step per
  locked stretch.
- The sleeper that `NotifyOne` wakes: chosen by the schedule; if the chosen thread does not sleep nobody is woken,
  which allows more behaviours than the original and only concerns liveness.
- PoolPause.OldestTaskCanRun: a schedule that runs the task exists from every such state; fairness, by which one would
  be chosen, is not modelled, and a pool without workers executes nothing.
- Tasks that call back into the pool from a worker: the function of a task is one step of its worker, and the worker's
  activity flags, kept for statistics, are not modelled.
- What a task returns or throws: the pool model says whether and when its future is set, `FutureModel` what its waiters
  then see.
- Destruction of the pool during calls, and `m_pendingTasks` growing past a 64-bit word.
- The generation counter of `Barrier` wrapping after 2^64 generations.
- Moved-from futures and promises, which throw at once; chains in `ThenChain` carry one value type throughout.
- A `Then` link delivers in one step; its NotifyAll is that of `FutureModel`.
- User functions that throw inside `ParallelFor`, `ForEach`, `Reduce` or `Sort`.
- `std::sort`: any function that returns a sorted permutation.
- Reduce: element count plus hardware threads are assumed to stay below 2^64, as any container does; the same holds
  for `Sort` and `ForEach`.
- ReduceModel.Reduce: says nothing about functions that are not associative, for which the chunked result has no simple law.
- `Empty` of the queues: the order of its two loads is unspecified in C++.
- `Latch`: a one-field counter that would add only easy members.
- `async::Timer`, `async::Work`, `WaitAny`, `DeadlockDetector`, profilers, `SpinLock`, `Atomic`, `MemoryBarrier`,
  `CleanupIdleWorkers`: callbacks, clocks, statistics, one-line wrappers or unused code.
