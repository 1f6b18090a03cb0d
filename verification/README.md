# Verified models of the asynchronous framework

This project models the parts of the framework in which correctness is least obvious, and proves
what their documentation and their users rely on. `dafny verify dfyconfig.toml` checks all of it.

There are two kinds of model.

* **Interleaving machines** for code that races. A state holds the shared words and, for every
  thread, coroutine or agent, the place it has reached in the source with its live local variables.
  One atomic load, store, compare-exchange, fetch-add or critical section is one step of one of
  them, any of them may step next, and there are any number of them. The retry loops of the source
  are places of the machine rather than `while` loops, because a retry loop under interference need
  not terminate. The results are about every state of every run; atomics are sequentially consistent.
* **Imperative code proved against a specification** for code that one thread runs: classes whose
  methods change their fields, loops and arrays in place, with contracts on a plain sequence, map,
  number or text that the fields stand for. Integer widths are written out wherever they matter.

| files | subject |
|---|---|
| `FreeList`, `DequeueTickets` | the races of the concurrent queue: its reference-counted free list and its dequeue tickets |
| `BlockRing`, `ExplicitProducer` | the explicit producer as a FIFO sequence: circular block list, doubling ring index, bulk operations |
| `BlockIndex`, `ImplicitProducer` | the implicit producer: its block index, and all-or-nothing bulk enqueue |
| `ProducerHash` | which implicit producer belongs to which thread: tables with tombstones and lazy copies |
| `Decimal`, `ToChars` | printing floating-point numbers, proved against an independent parser |
| `TrailingZeros`, `WideArithmetic` | the word arithmetic of the printer |
| `Mutex`, `SharedMutex` | the coroutine mutex and the reader/writer lock |
| `FutureState` | the race of a promise and a future, with reference counts |
| `Generator` | the recursive generator, proved against naive recursion |
| `TaskQueue`, `ThreadPool` | the work-stealing thread pool |
| `WeightedRoundRobin`, `RateLimiter` | the load balancer's schedule and the token bucket |
| `PromiseAllocator` | the layout of coroutine frames with a stored allocator |
| `Words`, `Modular`, `Sums`, `Wrappers` | 64-bit words, remainders, sums over threads, optional values |

Where a file of the framework does not compile as written, its evident intent is modelled: the
moved-from guard and the switch on the state in `FutureState.h` (lines 74 and 255), and the moved
element and the assigned item in `util/Queue.h` (lines 24 and 46).

Some results are about where the code does *not* do what one might expect:

* The quotient by 10^8 in `remove_trailing_zeros` is cut to 32 bits. For significands below 10^16
  nothing is lost; the exact condition, and what goes wrong beyond it, are
  `TrailingZeros.RemoveTrailingZeros64` and `TrailingZeros.TruncatedQuotient`.
* The multiplication that divides by 1000 is exact up to its stated limit. Beyond it, a 64-bit
  number comes out one too high exactly if its last three digits are 999 (`WideArithmetic.LimitIsSharp`).
* A negative request is not refused, and fills the token bucket. A request is safe for a limiter in
  any state if and only if it is not negative (`RateLimiter.SafeRequests`); one permit a second, a
  second without requests and any negative request are enough to fill the bucket beyond its maximum
  (`RateLimiter.NegativeRequestOverflows`).
* The block count of a coroutine frame is computed with wrap-around: the layout fits exactly if the
  sum does not wrap (`PromiseAllocator.LayoutFits`, `PromiseAllocator.WrappedLayoutDoesNotFit`).
* A worker of the thread pool never finds its stopped queue empty without the pool stopping, so the
  `continue` of its loop is dead. A call that looked at `stop_` before the destructor set it may
  still push afterwards, and then its task may be neither refused nor run:
  `ThreadPool.TaskMayBeLost` is such a run. A task pushed before the pop that made its queue's own
  worker leave always runs, and without stealing no other does (`ThreadPool.EveryRunIsSafe`). If no
  call is past its look at `stop_` when the destructor starts, nothing is lost
  (`ThreadPool.NothingIsLost`).

## Model

| member | source | states |
|---|---|---|
| `FreeList.EveryRunIsSafe` | coro_apps/util/concurrentqueue.h:1682-1806 | in every interleaving of `add` and `try_get` the linked nodes form an acyclic list without repetitions; a node is with a caller or linked, never both; the low 31 bits of its count are the list reference, held by the list or by one thread inside a push or pop, plus the temporary references; a pop's compare-exchange that succeeds installs the true successor |
| `FreeList.NoNodeIsLost` | coro_apps/util/concurrentqueue.h:1695-1806 | when no call is in progress every node is either with a caller with count 0 or on the list with count 1 |
| `FreeList.AnswerWasHead` | coro_apps/util/concurrentqueue.h:1709-1757 | on every run, what a call of `try_get` answers was the head at some moment of the call: null only if the list was empty then; a node that is returned is the caller's from then on |
| `FreeList.LoneTryGet` | coro_apps/util/concurrentqueue.h:1709-1757 | from a state of rest, a thread that runs alone from its call until it is idle has returned the first node, which leaves the rest of the list, or null if the list is empty |
| `FreeList.LoneAdd` | coro_apps/util/concurrentqueue.h:1695-1797 | an `add` that runs alone leaves the node in front of the list |
| `FreeList.AddThenTryGet` | coro_apps/util/concurrentqueue.h:1695-1797 | so the next `try_get` gives it back, and the list is as before |
| `DequeueTickets.EveryRunIsSafe` | coro_apps/util/concurrentqueue.h:2294-2425 | tickets taken = head index + tickets given back + tickets in flight, the head never passes the tail, and each index below the head, and no other, went to exactly one consumer, for single and bulk dequeue under any interleaving |
| `DequeueTickets.QuietQueueIsExact` | coro_apps/util/concurrentqueue.h:2296-2301 | with no consumer inside a call, the circular comparison of counter words says that there is something to dequeue if and only if there is |
| `DequeueTickets.LoneDequeue` | coro_apps/util/concurrentqueue.h:2674-2801 | the only consumer is given exactly min(max, size) indices, from the head on |
| `DequeueTickets.IdleIsQuiet` | coro_apps/util/concurrentqueue.h:2674-2801 | that holds from every state of every run in which no consumer is inside a call |
| `DequeueTickets.SingleIsBulkOfOne` | coro_apps/util/concurrentqueue.h:2675-2691 | the test of the bulk dequeue on a difference of words agrees with that of the single dequeue on two words |
| `Words.CircularLessIsLess` | coro_apps/util/concurrentqueue.h:623-630 | comparing counters by their words is comparing them, while they are within half the word range |
| `BlockRing.LookupFindsBlock` | coro_apps/util/concurrentqueue.h:2365-2384 | the signed-offset lookup finds the block with the right base for every index the ring covers, across wrapped indices and a wrapped ring |
| `BlockRing.LookupCounts` | coro_apps/util/concurrentqueue.h:3519-3543 | the lookup counts blocks from the newest entry in either direction, modulo a power of two and the word |
| `BlockRing.AdvanceIndexed` | coro_apps/util/concurrentqueue.h:2177-2193 | writing the entry of a reused block over the oldest slot leaves every other block of the ring indexed |
| `BlockRing.InsertCircular` | coro_apps/util/concurrentqueue.h:2236-2247 | linking a new block after the tail keeps the block list circular, in order, without repetitions |
| `ExplicitProducer.ExplicitProducer.constructor` | coro_apps/util/concurrentqueue.h:2070-2086 | a new explicit producer stands for the empty sequence |
| `ExplicitProducer.ExplicitProducer.NewBlockIndex` | coro_apps/util/concurrentqueue.h:2817-2860 | doubling the ring index keeps every block of the ring indexed, or changes nothing when there is no memory |
| `ExplicitProducer.ExplicitProducer.StartBlock` | coro_apps/util/concurrentqueue.h:2172-2254 | at the end of a block an emptied block ahead is reused, or a new one linked; it fails exactly for want of one, leaving the sequence |
| `ExplicitProducer.ExplicitProducer.Enqueue` | coro_apps/util/concurrentqueue.h:2168-2292 | appends the element to the sequence, or leaves it, and fails only at the end of a block for want of a block or of index memory |
| `ExplicitProducer.ExplicitProducer.Dequeue` | coro_apps/util/concurrentqueue.h:2294-2425 | takes the first element, and fails exactly if the sequence is empty |
| `ExplicitProducer.ExplicitProducer.EnqueueBulk` | coro_apps/util/concurrentqueue.h:2427-2672 | appends all the items in order, over as many blocks read to their end as there are and new blocks for the rest |
| `ExplicitProducer.ExplicitProducer.DequeueBulk` | coro_apps/util/concurrentqueue.h:2674-2801 | takes the first min(max, size) elements in order |
| `ExplicitProducer.IsEmpty` | coro_apps/util/concurrentqueue.h:1826-1856 | a block is empty if and only if every one of its flags is set |
| `ExplicitProducer.SetFlags` | coro_apps/util/concurrentqueue.h:1882-1911 | sets a stretch of the flags and no other |
| `BlockIndex.InsertBlockIndexEntry` | coro_apps/util/concurrentqueue.h:3465-3502 | an entry for the next block base is put at the tail, in a doubled index if the old one is full, and every live block stays found; otherwise nothing changes |
| `BlockIndex.NewBlockIndex` | coro_apps/util/concurrentqueue.h:3545-3592 | the larger index has the old pointers in order from the oldest, then fresh unused entries, and its tail at the newest old one |
| `BlockIndex.GrownIsLive` | coro_apps/util/concurrentqueue.h:3565-3587 | growing a full index leaves every live block where the lookup finds it |
| `BlockIndex.UndoStep` | coro_apps/util/concurrentqueue.h:3177-3185 | each turn of the undo loop clears the entry it means, although the lookup measures from the tail that the loop itself moves |
| `BlockIndex.Undone` | coro_apps/util/concurrentqueue.h:3177-3187 | after the loop the index is as if the blocks had never been inserted |
| `ImplicitProducer.LiveIndexIsFound` | coro_apps/util/concurrentqueue.h:3519-3543 | while the fields stand for a sequence, every live index is looked up in an entry with its base and its block |
| `ImplicitProducer.UndoBulk` | coro_apps/util/concurrentqueue.h:3171-3190 | from any point of a failed bulk enqueue: contents, pool of free blocks, tail block and index stand for what they stood for before |
| `ImplicitProducer.AddBlocksToFreeList` | coro_apps/util/concurrentqueue.h:3663-3669 | every block of a chain goes back to the pool |
| `ImplicitProducer.ImplicitProducer.constructor` | coro_apps/util/concurrentqueue.h:2890-2895 | a new implicit producer stands for the empty sequence |
| `ImplicitProducer.ImplicitProducer.Enqueue` | coro_apps/util/concurrentqueue.h:2958-3030 | appends the element or changes nothing; which of them is decided by room in the block, a free block, index memory and leeway of the indices |
| `ImplicitProducer.ImplicitProducer.EnqueueBulk` | coro_apps/util/concurrentqueue.h:3118-3308 | all or nothing: appends all the items in order, or leaves the contents and gives every block back; it succeeds exactly if no block is needed, or there are enough free blocks, an index that can grow to hold them, and leeway for the last one |
| `ImplicitProducer.ImplicitProducer.Dequeue` | coro_apps/util/concurrentqueue.h:3033-3112 | takes the first element, fails exactly if there is none, and gives a block read to its end back to the pool |
| `ProducerHash.Probe` | coro_apps/util/concurrentqueue.h:4030-4076 | the probe loop always meets the key or an empty slot, and finds the key if and only if it is in the table, whose size is a power of two |
| `ProducerHash.FreeSlot` | coro_apps/util/concurrentqueue.h:4046-4067 | the inserting probe always meets an empty slot or a tombstone, in a place where a lookup will reach it |
| `ProducerHash.CopyIsRoomy` | coro_apps/util/concurrentqueue.h:4038-4068 | the one count keeps room in the newest table for every lazy copy still to come |
| `ProducerHash.ProducerTable.Lookup` | coro_apps/util/concurrentqueue.h:4024-4077 | the chain of tables answers like a map from live threads to producers, and lazy copies do not change it |
| `ProducerHash.ProducerTable.Resize` | coro_apps/util/concurrentqueue.h:4082-4128 | a larger table in front changes no answer and leaves the newest table below half full, or nothing is changed; the sizes stay powers of two |
| `ProducerHash.ProducerTable.GetOrAddImplicitProducer` | coro_apps/util/concurrentqueue.h:4004-4181 | gives the producer the thread has, or the newest inactive one, or else a new one that no live thread has; fails exactly for want of memory where memory is needed |
| `ProducerHash.ProducerTable.ImplicitProducerThreadExited` | coro_apps/util/concurrentqueue.h:4184-4220 | removes exactly this thread from the map and leaves its producer recyclable, and the others as they are |
| `ProducerHash.ProducerTable.RecycleOrCreateProducer` | coro_apps/util/concurrentqueue.h:3820-3843 | the newest inactive producer of the kind, without adding one, and only if there is none a new one; no live thread's; fails exactly if there is neither one nor memory |
| `ProducerHash.ProducersAreReused` | coro_apps/util/concurrentqueue.h:3820-3843 | on every run of threads that start and exit there are exactly as many implicit producers as there were threads at once when there were most |
| `ToChars.SplitScaled` | coro_apps/util/dragonbox_to_chars.h:110-302 | the upper half of the fixed-point product is the leading digits, and the lower half represents the remaining ones with the same error |
| `ToChars.RestIsZero` | coro_apps/util/dragonbox_to_chars.h:110-302 | the comparison of the remaining fraction tells exactly whether the remaining digits are all zero |
| `ToChars.Print9Digits` | coro_apps/util/dragonbox_to_chars.h:110-302 | the digits written, without trailing zeros, are the significand; the exponent returned is that of the first digit |
| `ToChars.PrintExponent` | coro_apps/util/dragonbox_to_chars.h:305-331 | the exponent written parses back, takes two to five characters, and has no zero in front |
| `ToChars.ToCharsFloat` | coro_apps/util/dragonbox_to_chars.h:305-331 | for every significand below 10^9 the text parses back to significand * 10^exponent within 14 characters; it has no zero in front or at the end of its digits, or all nine digits if there are nine |
| `ToChars.ToCharsDouble` | coro_apps/util/dragonbox_to_chars.h:333-557 | for every significand below 10^17 and printed exponent of magnitude below 1000, the text parses back to exactly significand * 10^exponent within 23 characters; it has no zero in front or at the end of its digits, or, from 10^16 on, all the digits of its blocks |
| `ToChars.OnlyText` | coro_apps/util/dragonbox_to_chars.h:305-557 | that and the number determine the text |
| `Decimal.CanonicalIsUnique` | coro_apps/util/dragonbox_to_chars.h:110-302 | two texts of the same number without zeros in front or at the end are the same text |
| `Decimal.WholeIsUnique` | coro_apps/util/dragonbox_to_chars.h:128-150 | so are two of the same number with the same number of digits and no zero in front |
| `ToChars.ToCharsN` | coro_apps/util/dragonbox_to_chars.h:559-600 | signs, zeros, infinities and NaNs are written as documented, and nothing exceeds the maximum length of 24 |
| `Decimal.ParseOfParts` | coro_apps/util/dragonbox_to_chars.h:629-641 | a mantissa, the marker and an exponent parse to the product of their meanings |
| `TrailingZeros.RotateTest` | coro_apps/util/dragonbox.h:2535-2552 | multiplying by the inverse of 5 or 25 and rotating gives a word below the bound exactly for the multiples of 10 or 100, and then it is the quotient |
| `TrailingZeros.DivideByTenToTheEighth` | coro_apps/util/dragonbox.h:2563-2571 | two tests on the halves of the product with ceil(2^90 / 10^8) decide divisibility by 10^8 for every 64-bit n, and the shifted upper half is the quotient |
| `TrailingZeros.RemovePairsThenOne` | coro_apps/util/dragonbox.h:2576-2597 | the loop and the last test remove every trailing zero and count them |
| `TrailingZeros.RemoveTrailingZeros32` | coro_apps/util/dragonbox.h:2534-2556 | for every nonzero 32-bit n: n = result * 10^count, and 10 does not divide the result |
| `TrailingZeros.RemoveTrailingZeros64` | coro_apps/util/dragonbox.h:2557-2620 | the same for every nonzero 64-bit n that is no multiple of 10^8 or is below 2^32 * 10^8 |
| `TrailingZeros.TruncatedQuotient` | coro_apps/util/dragonbox.h:2571-2598 | for the other n, removing zeros from the truncated quotient never gives the right result |
| `TrailingZeros.StrippedIsUnique` | coro_apps/util/dragonbox.h:2530-2531 | result and count are determined by n |
| `WideArithmetic.Uint128.AddAssign` | coro_apps/util/dragonbox.h:412-433 | adds a word with its carry, modulo 2^128 |
| `WideArithmetic.Umul128` | coro_apps/util/dragonbox.h:444-468 | the two words from 32-bit limbs are the exact product, for all inputs |
| `WideArithmetic.Umul128Upper64` | coro_apps/util/dragonbox.h:471-493 | the upper word of the exact product |
| `WideArithmetic.Umul192Upper128` | coro_apps/util/dragonbox.h:495-502 | the upper 128 of the 192 bits; nothing is carried out |
| `WideArithmetic.Umul192Lower128` | coro_apps/util/dragonbox.h:520-527 | the lower 128 of the 192 bits |
| `WideArithmetic.Umul96Upper64` | coro_apps/util/dragonbox.h:504-518 | the upper 64 of the 96 bits |
| `WideArithmetic.Umul96Forms` | coro_apps/util/dragonbox.h:506-518 | the form for builtin 128-bit products agrees with the portable one |
| `WideArithmetic.ComputeMul32` | coro_apps/util/dragonbox.h:2623-2629 | the integer part of the scaled product, and whether the next 32 bits are zero |
| `WideArithmetic.ComputeMul64` | coro_apps/util/dragonbox.h:2630-2634 | the integer part of the scaled product, and whether the next 64 bits are zero |
| `WideArithmetic.ComputeMulParity32` | coro_apps/util/dragonbox.h:2648-2657 | the bit at 64 - beta of the full product, and whether the 32 bits below are zero |
| `WideArithmetic.ComputeMulParity64` | coro_apps/util/dragonbox.h:2658-2663 | the bit at 128 - beta of the full product, and whether the 64 bits below, which straddle two words, are zero |
| `WideArithmetic.Reciprocal` | coro_apps/util/dragonbox.h:650-722 | a multiplication and a shift divide exactly while the excess stays below the scale; what is left over is then the scaled remainder |
| `WideArithmetic.DivideBy100` | coro_apps/util/dragonbox.h:707-709 | floor division by 100 for every 32-bit n |
| `WideArithmetic.DivideBy1000` | coro_apps/util/dragonbox.h:710-720 | floor division by 1000 for every n up to the stated maximum, on either branch |
| `WideArithmetic.LimitIsSharp` | coro_apps/util/dragonbox.h:712-715 | on all 64-bit n the multiplication and shift give n / 1000, except that it is one too high exactly if n > 15534100272597517998 and n mod 1000 = 999 |
| `WideArithmetic.CheckDivisibilityAndDivide` | coro_apps/util/dragonbox.h:667-684 | divisibility by 10 or 100 and the quotient, for n up to the next power of ten |
| `WideArithmetic.SmallDivision` | coro_apps/util/dragonbox.h:686-696 | floor division by 10 or 100, for n up to the next power of ten |
| `Mutex.EveryRunIsSafe` | coro/Mutex.h:80-196 | on every run at most one coroutine has the lock; `waiters_` followed by the reversed list at `state_` is exactly the waiters in the order of their compare-exchange; they are served in that order, each once; the assertions of `unlock` hold and no null awaiter is followed |
| `Mutex.MayBeDestroyed` | coro/Mutex.h:26-31 | when everybody is done the mutex is unlocked without waiters, as the destructor asserts |
| `Mutex.AttemptAnswers` | coro/Mutex.h:40-44 | on every run, an attempt to lock without waiting succeeds if and only if nobody has the lock |
| `Mutex.LoneLock` | coro/Mutex.h:123-196 | a `lock` that runs alone takes a free lock, and otherwise queues up behind those who wait |
| `Mutex.LoneUnlock` | coro/Mutex.h:80-116 | from every state of every run, an `unlock` that runs alone hands the lock to the first of those who wait, or frees it if there are none |
| `SharedMutex.EveryRunIsSafe` | coro/SharedMutex.h:47-164 | the word is 2^31 times the one writer pending or holding, plus the number of reader holders, which never reaches the flag; a holding writer excludes everybody else; the assertions hold |
| `SharedMutex.ReadersOnlyLeave` | coro/SharedMutex.h:74-92 | while the flag is set the number of readers does not grow |
| `SharedMutex.AttemptAnswers` | coro/SharedMutex.h:74-145 | on every run, with the inner lock: `tryLock` succeeds if and only if nobody holds the lock in either way; `tryLockShared`, like `lockShared`, if and only if no writer has set the flag and there is room; a writer sets the flag if and only if no other has, and has the lock if and only if no readers are left |
| `FutureState.EveryRunIsSafe` | FutureState.h:141-328 | in every interleaving of promise copies, future and executor: no state transfer error; at most one call of a living continuation, with the stored value; the continuation and the state are destroyed at most once; nobody uses a deleted state |
| `FutureState.EverythingHappensOnce` | FutureState.h:158-272 | when everyone is gone: the state was deleted once; there was a result or a broken promise; the continuation, if set, ran exactly once with it and was destroyed once, also when the executor refused |
| `FutureState.SentIsDelivered` | FutureState.h:220-247 | on every run, the value of a call of setResult is the one result, and the one the continuation is called with |
| `FutureState.CallIsPlaced` | FutureState.h:283-326 | on every run in which only an executor is asked to force the scheduling: nobody schedules without an executor; the executor is asked if and only if scheduling is forced, or there is an executor, the promise triggered the call and did not run inside it; a job that was taken makes the call, and otherwise who triggered it does, in place |
| `Generator.Resume` | coro/Generator.h:369-436 | one resumption of the top runs to the next element of naive flattening or to the end with its exception, and the root and parent links stay the stack from the root to the top |
| `Generator.Transfer` | coro/Generator.h:373-394 | a nested yield pushes the child on that stack |
| `Generator.HandOver` | coro/Generator.h:396-433 | an ending coroutine pops it, and an exception surfaces at the parent's yield and nowhere else |
| `Generator.Iterator.constructor` | coro/Generator.h:594-600 | before the first element everything of the flattening is to come |
| `Generator.Iterator.Advance` | coro/Generator.h:554-559 | moves to the next element, or ends with the exception of the flattening |
| `Generator.Iterator.Deref` | coro/Generator.h:545-552 | the value at the top's promise is the current element |
| `Generator.Collect` | coro/Generator.h:594-600 | for every finite tree of bodies, iterating gives exactly the elements of naive recursive flattening, in order, and its exception, and ends |
| `TaskQueue.Queue.Push` | util/Queue.h:20-27 | puts the element behind the others |
| `TaskQueue.Queue.TryPush` | util/Queue.h:28-38 | the same if it got the lock, and nothing otherwise |
| `TaskQueue.Queue.Pop` | util/Queue.h:39-49 | takes the oldest element; fails only on an empty, stopped queue |
| `TaskQueue.Queue.TryPop` | util/Queue.h:50-58 | takes the oldest element exactly if it got the lock and there is one |
| `TaskQueue.Queue.TryPopIf` | util/Queue.h:59-69 | takes the oldest element exactly if it got the lock and the predicate allows it |
| `TaskQueue.FirstInFirstOut` | util/Queue.h:20-49 | an element comes out after exactly the elements that were queued before it |
| `ThreadPool.EveryRunIsSafe` | util/ThreadPool.h:72-172 | for every task at every step, with stealing on or off: pushes = queued + held + executed, and calls = pushes + refusals + calls in progress; after the joins a task has run at least as often as it was pushed before the failing pop of its queue's own worker, at most as often as it was pushed at all, and without stealing exactly the former |
| `ThreadPool.PushBeforeStopIsInTime` | util/ThreadPool.h:90-172 | on every run, a push onto a queue that is not stopped comes before that pop |
| `ThreadPool.NothingIsLost` | util/ThreadPool.h:132-172 | if no call is past its look at `stop_` when the destructor starts, then after the joins calls = executions + refusals + calls in progress, for every task |
| `ThreadPool.TaskMayBeLost` | util/ThreadPool.h:72-172 | otherwise not: a run with one worker, at the end of which the one task was neither refused nor run and everybody is done |
| `ThreadPool.ExplicitIdIsObeyed` | util/ThreadPool.h:141-172 | on every run, a call with an explicit id ends with a refusal or with the task at the end of that queue and no other |
| `ThreadPool.RefusedOnlyWhenStopping` | util/ThreadPool.h:141-151 | on every run, nothing is refused before the pool is stopping |
| `ThreadPool.ExitsOnlyWhenEmpty` | util/ThreadPool.h:91-101 | a worker exits only after finding its own queue stopped and empty |
| `WeightedRoundRobin.Balancer.GetMaxWeightGcd` | coro_apps/coro_io/load_blancer.hpp:103-112 | the greatest common divisor of the weights |
| `WeightedRoundRobin.GcdIsUnique` | coro_apps/coro_io/load_blancer.hpp:103-112 | that description determines it |
| `WeightedRoundRobin.Balancer.GetMaxWeight` | coro_apps/coro_io/load_blancer.hpp:114-116 | the largest weight |
| `WeightedRoundRobin.Balancer.constructor` | coro_apps/coro_io/load_blancer.hpp:66-70 | before the first selection the scan stands at the end of a period |
| `WeightedRoundRobin.Balancer.SelectHostWithWeightRoundRobin` | coro_apps/coro_io/load_blancer.hpp:85-101 | the scan ends within n turns at the next server of the schedule; it gives -1 exactly when no weight is positive and a period begins |
| `WeightedRoundRobin.Balancer.Next` | coro_apps/coro_io/load_blancer.hpp:72-82 | selection k is element k mod period of the concatenation, for the levels max, max - g, ..., g, of the servers whose weight reaches the level |
| `WeightedRoundRobin.ShareOfServer` | coro_apps/coro_io/load_blancer.hpp:43-64 | each server is chosen exactly weight / g times in a period |
| `WeightedRoundRobin.PeriodLength` | coro_apps/coro_io/load_blancer.hpp:43-64 | a period has sum / g selections |
| `RateLimiter.SmoothBurstyRateLimiter.constructor` | coro_apps/coro_io/rate_limiter.hpp:135-138 | nothing stored, the maximum of one second's permits, the interval of the rate |
| `RateLimiter.SmoothBurstyRateLimiter.Resync` | coro_apps/coro_io/rate_limiter.hpp:66-85 | refills by whole milliseconds: up to the maximum, or by more than what the time less a millisecond earns; and never moves the next grant back |
| `RateLimiter.RefillGains` | coro_apps/coro_io/rate_limiter.hpp:76-85 | a refill fills the limiter, or adds what the time earns, less than a millisecond short |
| `RateLimiter.IdleFills` | coro_apps/coro_io/rate_limiter.hpp:76-85 | after its burst time and a millisecond without requests a limiter is full |
| `RateLimiter.SmoothBurstyRateLimiter.SetRate` | coro_apps/coro_io/rate_limiter.hpp:86-92 | a change of rate keeps 0 <= stored <= maximum, and never moves the next grant back |
| `RateLimiter.RateKeepsValid` | coro_apps/coro_io/rate_limiter.hpp:141-150 | sets the interval and the maximum of the rate, and keeps the stored permits' share of the maximum |
| `RateLimiter.SmoothBurstyRateLimiter.ReserveEarliestAvailable` | coro_apps/coro_io/rate_limiter.hpp:93-110 | the grant is at the next free time or now, grants never go back, and the bounds are kept; a request that the store covers costs no wait and exactly its permits |
| `RateLimiter.ReserveKeepsValid` | coro_apps/coro_io/rate_limiter.hpp:93-110 | a request that is not negative keeps the bounds |
| `RateLimiter.SafeRequests` | coro_apps/coro_io/rate_limiter.hpp:93-110 | a request keeps the bounds of every limiter that is within them, at every time, if and only if it is not negative |
| `RateLimiter.NegativeRequestOverflows` | coro_apps/coro_io/rate_limiter.hpp:66-110 | a limiter of one permit a second, after a second without requests: every negative request fills it beyond its maximum |
| `RateLimiter.SmoothBurstyRateLimiter.ReserveAndGetWaitLength` | coro_apps/coro_io/rate_limiter.hpp:42-51 | the wait is the time to the grant in whole milliseconds, and never negative |
| `RateLimiter.WaitBounds` | coro_apps/coro_io/rate_limiter.hpp:99-109 | a wait is what the fresh permits cost, less than a millisecond short |
| `RateLimiter.RequestTakes` | coro_apps/coro_io/rate_limiter.hpp:93-110 | a request takes exactly its permits and no time if they are stored; otherwise all of them, and the rest is paid for by waiting |
| `RateLimiter.CreditOfRate` | coro_apps/coro_io/rate_limiter.hpp:86-92 | a change of rate keeps the time that the stored permits are worth, as it is after the refill |
| `RateLimiter.EveryRunIsPaidFor` | coro_apps/coro_io/rate_limiter.hpp:66-110 | on every run of requests and changes of rate: the bounds are kept, the next grant never goes back, and the permits, priced at the interval in force, are paid for by the credit used up, the advance of the next grant and a millisecond a request |
| `RateLimiter.NoTimeIsLost` | coro_apps/coro_io/rate_limiter.hpp:66-110 | the converse, on every run on which no refill is cut off at the maximum: the advance of the next grant is handed out or kept in store, all but a millisecond an event |
| `RateLimiter.PermitsOfRun` | coro_apps/coro_io/rate_limiter.hpp:93-110 | k requests at a fixed rate: permits <= stored before - stored after + (advance of the next grant + k ms) / interval |
| `RateLimiter.PermitsAreDue` | coro_apps/coro_io/rate_limiter.hpp:93-110 | the converse for k requests at a fixed rate that are never cut off: permits >= stored before - stored after + (advance of the next grant - k ms) / interval |
| `RateLimiter.BurstIsBounded` | coro_apps/coro_io/rate_limiter.hpp:93-110 | so a burst is at most the maximum plus what its time earns |
| `PromiseAllocator.LayoutFits` | coro/PromiseAllocator.h:68-86 | for every frame size and every power-of-two alignment, above or below the block size: the function lies behind the frame, the aligned allocator behind the function, and both inside the blocks asked for |
| `PromiseAllocator.WrappedLayoutDoesNotFit` | coro/PromiseAllocator.h:153-211 | when the sum for the count wraps around, the blocks asked for do not even hold the frame and the function |
| `PromiseAllocator.CountsAgree` | coro/PromiseAllocator.h:116-143 | the freeing path computes the block count of the allocating path |
| `PromiseAllocator.Allocate` | coro/PromiseAllocator.h:153-211 | stores the function and the allocator behind the frame, inside the blocks, and writes nowhere else |
| `PromiseAllocator.FrameKeepsStored` | coro/PromiseAllocator.h:153-211 | writing the frame does not touch them |
| `PromiseAllocator.Free` | coro/PromiseAllocator.h:116-143 | finds the same function and allocator again and gives back as many blocks |

## Left out

- Memory orders, fences and weak memory: atomics are sequentially consistent steps.
- `DequeueTickets.EveryRunIsSafe`: requires that, while a consumer is inside one call, the counters it compares stay within half the word range, which is the documented limit of the index type (coro_apps/util/concurrentqueue.h:465-475).
- `FutureState.EveryRunIsSafe`: requires fewer than 256 references at a time, as the counters are 8 bits wide and unchecked.
- `ExplicitProducer.ExplicitProducer.EnqueueBulk`: requires enough blocks, read to their end or in the pool, for all the items.
- `DequeueTickets.LoneDequeue`: requires fewer than 2^63 elements, as the tests on words do.
- `FutureState.CallIsPlaced`: requires that scheduling is forced only where there is an executor, as `setForceSched` does (FutureState.h:205-213).
- `ProducerHash.ProducersAreReused`: tokens are taken but not given back, which concerns explicit producers only.
- `ImplicitProducer.ImplicitProducer.EnqueueBulk`: takes fewer than 2^63 - 32 items.
- `TaskQueue.Queue.Pop`: the wait is a precondition; who is notified, and when, is not modelled.
- `RateLimiter.SmoothBurstyRateLimiter.SetRate`: requires a positive rate, and reals stand for doubles, so rounding, overflow of the 64-bit cast and non-positive rates are not covered.
- `WeightedRoundRobin.ShareOfServer`: for a largest weight of 0 the period is one turn over the servers of weight 0, starting with server 0, and there are no shares to speak of.
- `WideArithmetic.ComputeMulParity32`: requires beta <= 32, because the source shifts by 32 - beta.
- `PromiseAllocator.WrappedLayoutDoesNotFit`: requires an allocator which, with its alignment, is smaller than the address space.
- `PromiseAllocator.LayoutFits`: the blocks are 16 bytes and a function pointer 8; the default `operator new`, which asks for exactly the size plus a function pointer both ways, has no blocks and is not modelled.
- Blocks of the queue are names in maps rather than heap objects, and the fields of one producer besides its four counters are one record, so aliasing between producers is not captured; the races between a producer and its consumers are covered by the two machines instead.
- Element constructors that throw, and the failure of an allocation during an explicit producer's bulk enqueue (coro_apps/util/concurrentqueue.h:2483-2516, 2613-2650).
- A producer whose first index cannot be allocated (it retries later) is not modelled; constructors have memory.
- The default sub-queue size is modelled, so the limit on it is never reached; bulk dequeue of an implicit producer is covered by the tickets only.
- Concurrent calls of `get_or_add_implicit_producer`: one operation on the tables at a time.
- The queue's front ends, tokens, consumer rotation and initial block pool.
- The shortest-representation algorithm itself, its tables and its logarithms; the printer starts from a significand and an exponent.
- Wake-ups and liveness of the locks, and of condition variables, semaphores and latches.
- The asynchronous layers on top: lazies, futures, collection of results, sockets, timers, files, logging, client pools, user-level threads, core binding.
- Overlapping calls of one load balancer, and its use in `send_request`, which skips dead servers.
