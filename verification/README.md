# Verified models of the vendored queue and of the tag detector's core

The repository vendors two pieces of native code on which everything else rests: a lock-free
multi-producer multi-consumer queue with a blocking layer on top, and the AprilTag detector with its
small matrix library. This project models the parts of both that are hard to get right and proves what
their comments, assertions and documentation promise.

**The queue.** Every atomic access of every thread is one step of a transition system; any number of
threads interleave in any order, exchanges may fail, allocations may fail, timed waits may time out.
`FreeList` is the reference-counted list of free blocks. `DequeueCounters` is the optimistic counting that
decides who may dequeue; there the loads of the tail, of the overcommit and the first load of the
optimistic count may return any earlier value. `ExplicitProducer` and `ImplicitProducer` put the block
list, the growing block index, the counters, the cells and the consumers together, with `Claims` as the
history they are checked against; `ExplicitInvariant`/`ExplicitEnqueue`/`ExplicitProgress` and
`ImplicitInvariant`/`ImplicitEnqueue`/`ImplicitProgress`/`ImplicitBlocks` hold the proofs. `ProducerTable` is the chain of
hash tables from threads to producers, `Semaphore` the user-level semaphore over an ideal kernel one, and
`BlockingQueue` their composition with a queue. `ExplicitCalls`, `ExplicitTakes`, `ImplicitCalls`,
`ImplicitTakes` and `ProducerCalls` say what whole calls come to, in every run and run alone. Fields called
history in the comments record what happened; the steps of the program do not depend on them, except that a
consumer's own claim stands for its local variables, that a caller adds only nodes it owns, and that an
allocator grants only blocks not in use.

**The matrix library.** `Plu`, `PluSolve` and `Inverses` are the factorisation, the solver and the inverse,
over arrays and exact reals, with the loops of the program. `MatrixExpr` is the evaluator of expressions given
as text, as functions and as a class that keeps its own position, next argument and temporaries;
`MatrixText` reads back what an expression tree prints, `MatrixOutcome` does so whichever inverses exist,
and `MatrixSpaces` settles where spaces may stand.

**The detector.** `UnionFind` and `Components` are the forest and the row scan that leaves unions out, and
`PixelPaths` what they connect, step by step; `EdgePoints` says what the clusters hold.
`Clusters` is the chunked gradient clustering with its hash chains, bubble sort and pairwise merging;
`Words`, `QuickDecode` and `ErrorCorrection` are the quarter turn of a code, the decode table and what it
corrects; `TagImage` draws a tag and reads it back, `SixteenBits` is one family; `Reconcile` deletes
overlapping detections in place.

`Counting`, `Blocks`, `Probing`, `Matrices`, `Permutations` and `Wrappers` are the common ground. All of it
can be verified with `dafny verify dfyconfig.toml`.

## Where the code and its documentation differ

The models follow the code. The differences are stated as lemmas.

- `matd_inverse` is documented to return NULL if the matrix is exactly singular. Up to two rows it does so
  exactly then. From three rows on that holds if and only if not both no pivot is zero and some pivot is
  below 1e-8 in absolute value (`Inverses.CommentHoldsExactly`, on the unique factorisation of the matrix);
  `Inverses.RefusedThoughInvertible` is a family of invertible matrices that are refused.
- `matd.h` says that all whitespace in an expression is ignored. A space before a postfix operator, or
  inside `^-1`, makes the evaluator fail, and only there (`MatrixSpaces.SpaceIsIgnoredExactly`).
- `matd.h` gives juxtaposition the precedence of a product. A parenthesis after an expression multiplies
  the whole of it, which is the documented grouping if and only if the expression is not a sum or a
  difference (`MatrixText.GroupingExactly`).
- An inverse that does not exist is a null operand, which the assertions beside the postfix operators take
  for an error. A value is returned all the same exactly when the operand is dropped, as the left factor of
  a product or before a minus sign (`MatrixOutcome.WrongValueExactly`).
- `waitMany(max)` asserts a positive result while `max == 0` is allowed by its callee; in every run an
  untimed call reports a permit exactly when `max > 0` (`Semaphore.CallReports`, `Semaphore.ZeroCallFails`).
- `rotate90` is a permutation of the bits exactly for codes of `4 k` and `4 k + 1` bits
  (`Words.TurnIsReversible`).
- The row scan that leaves unions out equals the full one if and only if no row has three white pixels in
  its second to last column, in the one above it and in the last column of the row above
  (`Components.LastColumnExactly`); on all columns but the last it always does.

## Model

| member | source | states |
|---|---|---|
| `FreeList.StepKeepsInv` | dependencies/concurrentqueue/concurrentqueue.h:1399-1478 | every atomic access of `add`, `try_get` and `add_knowing_refcount_is_zero`, in any interleaving, keeps the invariant: each node is owned, flagged, being added, on the list or just removed, and its reference word counts exactly its holders, the list and the flag |
| `FreeList.RunKeepsInv` | dependencies/concurrentqueue/concurrentqueue.h:1399-1478 | the invariant holds in every state of every run of any number of threads |
| `FreeList.ListIsAcyclic` | dependencies/concurrentqueue/concurrentqueue.h:1378-1478 | in every reachable state following `freeListNext` from the head meets each linked node once and ends |
| `FreeList.HeadSwingIsSafe` | dependencies/concurrentqueue/concurrentqueue.h:1425-1429 | when the exchange of the head succeeds, the `next` read earlier is still the node's `next` and is the second node of the list |
| `FreeList.NoAba` | dependencies/concurrentqueue/concurrentqueue.h:1425-1437 | in every run: no ABA at the exchange, and the assertion that a removed node does not carry the should-be-on-list bit holds, its count covering both the thread and the list |
| `FreeList.NoDoubleHandout` | dependencies/concurrentqueue/concurrentqueue.h:1399-1449 | between two calls that return the same node some thread has added it |
| `FreeList.FlaggedNodeHasACarer` | dependencies/concurrentqueue/concurrentqueue.h:1405-1409 | a node that should be on the list but is not has either holders of references or exactly one thread adding it, and not both |
| `FreeList.QuietListLosesNothing` | dependencies/concurrentqueue/concurrentqueue.h:1399-1478 | with no operation in flight every node is on the list once, or owned by a caller, and its count says which: none is lost |
| `FreeList.LoneTryGet` | dependencies/concurrentqueue/concurrentqueue.h:1413-1453 | `try_get` with nobody else inside returns nothing, after two steps, if and only if the list is empty; otherwise the last of its seven steps hands out the first node, which leaves the list and is the caller's |
| `FreeList.LoneAdd` | dependencies/concurrentqueue/concurrentqueue.h:1399-1411 | `add` with nobody else inside is over after six steps and its node is the first of the list |
| `FreeList.EmptyHandedSawEmpty` | dependencies/concurrentqueue/concurrentqueue.h:1413-1453 | in every run a call of `try_get` returns a node, or the list was empty at some moment of the call |
| `DequeueCounters.CircularIsLess` | dependencies/concurrentqueue/concurrentqueue.h:430-440 | the wrapped comparison of 64-bit words is `<` on the counters they stand for while these are less than half a ring apart |
| `DequeueCounters.BulkTestIsTheSame` | dependencies/concurrentqueue/concurrentqueue.h:2197-2206 | comparing the difference of the words with zero, as the bulk form does, is the same test as comparing the words |
| `DequeueCounters.GainsBelowTail` | dependencies/concurrentqueue/concurrentqueue.h:1915-1948 | the counting argument: if each gained unit of the optimistic count, less the losses before it, lies below the tail, then all gains together do |
| `DequeueCounters.HeadNeverPassesTail` | dependencies/concurrentqueue/concurrentqueue.h:1940-1948 | the invariant gives `headIndex <= tailIndex` and that head and overcommit together never exceed the optimistic count |
| `DequeueCounters.StepKeepsInv` | dependencies/concurrentqueue/concurrentqueue.h:1901-1998 | every access of every single or bulk dequeue, with stale loads, and every publication keeps the counters in step with the history of who gained and who lost each unit |
| `DequeueCounters.HeadStaysBelowTail` | dependencies/concurrentqueue/concurrentqueue.h:1940-1948 | in every run of any number of consumers, with stale loads, nothing is claimed that was not enqueued |
| `DequeueCounters.EachIndexClaimedOnce` | dependencies/concurrentqueue/concurrentqueue.h:1948-1948 | an index is below the head exactly when some step claimed it, and no two steps claim the same index |
| `DequeueCounters.QuietCountersAgree` | dependencies/concurrentqueue/concurrentqueue.h:1990-1993 | with no dequeue in flight the optimistic count less the overcommit is the head index |
| `DequeueCounters.LoneDequeue` | dependencies/concurrentqueue/concurrentqueue.h:1901-1998 | started with none in flight and run alone on current values, a dequeue is idle again after at most seven of its own steps, with every other thread where it was, and has claimed the smaller of what it wants and what there is; it claims nothing if and only if the sub-queue is empty or nothing is wanted |
| `Claims.TakeKeeps` | dependencies/concurrentqueue/concurrentqueue.h:1948-1948 | claiming the next indices for a consumer keeps the history consistent and changes nothing about what was read or given back |
| `Claims.GiveBackKeeps` | dependencies/concurrentqueue/concurrentqueue.h:1537-1575 | giving slots back makes exactly those indices gone and leaves every unread element unread |
| `Blocks.BlkIsDivision` | dependencies/concurrentqueue/concurrentqueue.h:1607-1608 | block number, slot and block base of an index are quotient, remainder and the index less its remainder |
| `Blocks.DivBlocksOfStarts` | dependencies/concurrentqueue/concurrentqueue.h:1955-1962 | the truncating signed division of the distance of two block bases gives the number of blocks between them |
| `Blocks.MaskFarBack` | dependencies/concurrentqueue/concurrentqueue.h:1962-1963 | going back any distance on a ring by masking works whether or not the word wraps below zero |
| `ExplicitInvariant.OffsetLeadsToSlot` | dependencies/concurrentqueue/concurrentqueue.h:1960-1963 | the offset a consumer computes from the base of any newer block leads to the slot of its own block |
| `ExplicitInvariant.HeldBlocksStay` | dependencies/concurrentqueue/concurrentqueue.h:1803-1806 | a block with a claimed index not yet given back is still on the ring |
| `ExplicitInvariant.ReadFindsElement` | dependencies/concurrentqueue/concurrentqueue.h:1966-1966 | the block a consumer looked up holds the element of its index in the slot of that index |
| `ExplicitInvariant.ConsumerKeepsInv` | dependencies/concurrentqueue/concurrentqueue.h:1901-1998 | every step of every consumer, single or bulk, keeps the invariant of ring, index, flags, cells and claims |
| `ExplicitEnqueue.EmptyIsGone` | dependencies/concurrentqueue/concurrentqueue.h:1510-1534 | a block whose flags are all set has had every one of its indices given back |
| `ExplicitEnqueue.ReuseFinds` | dependencies/concurrentqueue/concurrentqueue.h:1803-1815 | an empty block ahead of the tail block is the oldest on the ring, was given back completely and does not hold a partly filled tail |
| `ExplicitEnqueue.FrontIsFree` | dependencies/concurrentqueue/concurrentqueue.h:1880-1885 | the index slot about to be overwritten belongs to no block that a consumer can still need |
| `ExplicitEnqueue.ProducerKeepsInv` | dependencies/concurrentqueue/concurrentqueue.h:1795-1898 | every step of single and bulk enqueue keeps the invariant: reuse, growth of the index, insertion into the ring, publication, writing |
| `ExplicitEnqueue.StepKeepsInv` | dependencies/concurrentqueue/concurrentqueue.h:2193-2283 | every step of the producer and of every consumer keeps the invariant |
| `ExplicitEnqueue.RunKeepsInv` | dependencies/concurrentqueue/concurrentqueue.h:1795-1998 | the invariant holds in every state of every run |
| `ExplicitEnqueue.ConsumersGetTheirElements` | dependencies/concurrentqueue/concurrentqueue.h:1795-1998 | end to end: a consumer that claimed `[first, hi)` returns exactly the elements enqueued under those numbers |
| `ExplicitEnqueue.ClaimsAreDisjoint` | dependencies/concurrentqueue/concurrentqueue.h:1948-1948 | claims made at different steps of a run have no index in common and follow each other |
| `ExplicitEnqueue.OnlyConsumedBlocksAreReused` | dependencies/concurrentqueue/concurrentqueue.h:1803-1806 | in every run a block is taken for reuse only after all its indices were given back, and no consumer still reads from it |
| `ExplicitEnqueue.ReadersFindElements` | dependencies/concurrentqueue/concurrentqueue.h:1963-1966 | in every reachable state a consumer about to read finds the element enqueued under its index, neither unwritten nor destroyed |
| `ExplicitEnqueue.ValuesOnlyGrow` | dependencies/concurrentqueue/concurrentqueue.h:1893-1897 | what was published stays what it is and the head never goes back |
| `ExplicitEnqueue.HeadStaysBelowTail` | dependencies/concurrentqueue/concurrentqueue.h:1819-1819 | the producer's assertion that the head is not past the tail holds in every reachable state |
| `ExplicitCalls.EnqueueAppends` | dependencies/concurrentqueue/concurrentqueue.h:1795-1876 | in every run a call that is over has appended exactly the elements it was given, in their order; or it was the single form, was refused leeway or memory in its last step, and nothing was appended |
| `ExplicitCalls.EnqueueIsWaitFree` | dependencies/concurrentqueue/concurrentqueue.h:1795-1876 | a call that is refused nothing is over after a bounded number of the producer's own steps, whatever the consumers do |
| `ExplicitCalls.StartWork` | dependencies/concurrentqueue/concurrentqueue.h:2007-2030 | that bound is seven steps for each block the call needs and one for each element, and two more |
| `ExplicitCalls.FullMeans` | dependencies/concurrentqueue/concurrentqueue.h:1821-1827 | there is no leeway exactly when one more block would take the sub-queue over half a ring or over the limit |
| `ExplicitCalls.LoneEnqueue` | dependencies/concurrentqueue/concurrentqueue.h:1795-1876 | an enqueue, single or bulk, that runs alone with leeway and memory ends within its bound with exactly its elements appended |
| `ExplicitCalls.LoneSingle` | dependencies/concurrentqueue/concurrentqueue.h:1795-1876 | a single enqueue alone, whatever the allocators do, is over after at most eleven steps; it appends its element if and only if it needs no block, can use the one ahead again, or is given leeway and memory for a new one |
| `ExplicitTakes.LoneDequeue` | dependencies/concurrentqueue/concurrentqueue.h:1901-1998 | a dequeue with no other under way, alone, gets exactly the first elements not yet claimed, as many as it wants and there are |
| `ExplicitTakes.RoundTrip` | dependencies/concurrentqueue/concurrentqueue.h:2007-2283 | what a bulk enqueue puts into an empty sub-queue a bulk dequeue of as many gets, in the same order |
| `ExplicitProgress.OwnStepAdvances` | dependencies/concurrentqueue/concurrentqueue.h:1950-1987 | no step of a consumer that has claimed indices is without effect: its remaining work gets strictly less |
| `ExplicitProgress.ClaimedDequeueIsWaitFree` | dependencies/concurrentqueue/concurrentqueue.h:2208-2276 | with `n` elements left to read a dequeue is done after at most `3 n + 5` steps of its own, whatever all other threads do |
| `ImplicitInvariant.LookupFindsSlot` | dependencies/concurrentqueue/concurrentqueue.h:2883-2899 | from a tail and the key found there the lookup leads to the slot of the wanted block |
| `ImplicitInvariant.LookupFindsBlock` | dependencies/concurrentqueue/concurrentqueue.h:2896-2898 | the assertion at the end of the lookup: the entry has the block's base as its key and holds its block |
| `ImplicitInvariant.HeldIsLive` | dependencies/concurrentqueue/concurrentqueue.h:2508-2515 | the block of an index that is claimed and not given back has not left the block index |
| `ImplicitInvariant.ReadFindsElement` | dependencies/concurrentqueue/concurrentqueue.h:2511-2513 | the block found holds the element of the consumer's index |
| `ImplicitInvariant.ClearIndex` | dependencies/concurrentqueue/concurrentqueue.h:2545-2552 | emptying the entry of a consumed block leaves the entries of all other blocks as they are |
| `ImplicitInvariant.ConsumerKeepsInv` | dependencies/concurrentqueue/concurrentqueue.h:2496-2564 | every step of every consumer, single or bulk, keeps the invariant, including those that empty an entry and give a block back |
| `ImplicitEnqueue.NextSlotHolds` | dependencies/concurrentqueue/concurrentqueue.h:2838-2858 | the entry of the next slot is either unused, or emptied, or still needed for the block one turn back |
| `ImplicitEnqueue.WholeTurns` | dependencies/concurrentqueue/concurrentqueue.h:2901-2941 | a turn of the newest ring is a whole number of turns of every older one |
| `ImplicitEnqueue.KeyStillFits` | dependencies/concurrentqueue/concurrentqueue.h:2844-2850 | overwriting the key of a recycled entry does not mislead a consumer that still uses an older ring |
| `ImplicitEnqueue.OwnLookup` | dependencies/concurrentqueue/concurrentqueue.h:2605-2617 | the lookups of the rollback find the slot of every block in the window, before the tail or after it |
| `ImplicitEnqueue.FreeLast` | dependencies/concurrentqueue/concurrentqueue.h:2602-2620 | with the last block of a failed bulk enqueue back in the pool the operation is over, the blocks and entries it added are gone, and the tail block is the one it started with |
| `ImplicitEnqueue.ProducerKeepsInv` | dependencies/concurrentqueue/concurrentqueue.h:2567-2714 | every step of single and bulk enqueue keeps the invariant: inserting, recycling, doubling, failing and undoing |
| `ImplicitEnqueue.StepKeepsInv` | dependencies/concurrentqueue/concurrentqueue.h:2432-2815 | every step of the producer and of every consumer keeps the invariant |
| `ImplicitEnqueue.RunKeepsInv` | dependencies/concurrentqueue/concurrentqueue.h:2432-2815 | the invariant holds in every state of every run |
| `ImplicitEnqueue.ConsumersGetTheirElements` | dependencies/concurrentqueue/concurrentqueue.h:2432-2815 | end to end: a consumer that claimed `[first, hi)` gets exactly the elements enqueued under those numbers |
| `ImplicitEnqueue.ClaimsAreDisjoint` | dependencies/concurrentqueue/concurrentqueue.h:2508-2508 | claims made at different steps of a run have no index in common and follow each other |
| `ImplicitEnqueue.LookupsFindTheirBlocks` | dependencies/concurrentqueue/concurrentqueue.h:2883-2899 | in every run, through whatever header and tail a consumer loaded after its claim, the lookup yields the entry whose key is the block base and whose block holds the element, while the producer inserts, recycles, undoes and doubles |
| `ImplicitEnqueue.TailKeysAreValid` | dependencies/concurrentqueue/concurrentqueue.h:2890-2892 | the assertion that the key at the tail is a valid block base holds in every run |
| `ImplicitEnqueue.BlocksAreFreedOnce` | dependencies/concurrentqueue/concurrentqueue.h:2544-2553 | a block goes back to the pool only after all its slots were given back, is not there already, and nobody else uses it |
| `ImplicitBlocks.NoBlockIsLost` | dependencies/concurrentqueue/concurrentqueue.h:2540-2559 | in every run a block all of whose slots were given back is on its way to the pool with some consumer, or an earlier step took it there |
| `ImplicitBlocks.ThenInPool` | dependencies/concurrentqueue/concurrentqueue.h:2545-2552 | that step puts the block of that number, which was not in the pool, into it |
| `ImplicitEnqueue.ValuesOnlyGrow` | dependencies/concurrentqueue/concurrentqueue.h:2488-2492 | what was published stays what it is and the head never goes back |
| `ImplicitEnqueue.HeadStaysBelowTail` | dependencies/concurrentqueue/concurrentqueue.h:2439-2439 | the producer's assertion that the head is not past the tail holds in every reachable state |
| `ImplicitCalls.EnqueueAppends` | dependencies/concurrentqueue/concurrentqueue.h:2447-2494 | in every run a call that is over, single or bulk, has appended exactly the elements it was given, unless one of its steps was refused leeway, an index or memory; then nothing was appended |
| `ImplicitCalls.RefusedChangesNothing` | dependencies/concurrentqueue/concurrentqueue.h:2602-2620 | in every run a call that was refused something leaves the numbered blocks, their entries and the tail block as they were |
| `ImplicitCalls.EnqueueIsWaitFree` | dependencies/concurrentqueue/concurrentqueue.h:2567-2700 | every call, undoing included, is over after a bounded number of the producer's own steps, whatever consumers and allocators do |
| `ImplicitCalls.StartWork` | dependencies/concurrentqueue/concurrentqueue.h:2583-2640 | that bound is ten steps for each block the call needs and one for each element, and five more |
| `ImplicitCalls.LoneEnqueue` | dependencies/concurrentqueue/concurrentqueue.h:2447-2494 | an enqueue, single or bulk, that runs alone with leeway, an index and memory ends within its bound with exactly its elements appended |
| `ImplicitCalls.LoneSingle` | dependencies/concurrentqueue/concurrentqueue.h:2447-2494 | a single enqueue alone, whatever the allocators do, is over after at most seventeen steps; it appends its element if and only if it needs no block or is given leeway, an index and memory |
| `ImplicitTakes.LoneDequeue` | dependencies/concurrentqueue/concurrentqueue.h:2496-2564 | a dequeue with no other under way, alone, gets exactly the first elements not yet claimed, as many as it wants and there are |
| `ImplicitTakes.RoundTrip` | dependencies/concurrentqueue/concurrentqueue.h:2567-2829 | what a bulk enqueue puts into an empty sub-queue a bulk dequeue of as many gets, in the same order |
| `ImplicitProgress.OwnStepAdvances` | dependencies/concurrentqueue/concurrentqueue.h:2508-2554 | no step of a consumer that has claimed indices is without effect: its remaining work gets strictly less |
| `ImplicitProgress.ClaimedDequeueIsWaitFree` | dependencies/concurrentqueue/concurrentqueue.h:2732-2806 | with `n` elements left to read a dequeue is done after at most `5 n + 5` steps of its own, whatever all other threads do |
| `ProducerTable.StepKeepsInv` | dependencies/concurrentqueue/concurrentqueue.h:3326-3476 | every access of every thread keeps the invariant of the tables, the count, the lock and every probe under way |
| `ProducerTable.RunKeepsInv` | dependencies/concurrentqueue/concurrentqueue.h:3326-3476 | the invariant holds in every state of every run |
| `ProducerTable.TableHasRoom` | dependencies/concurrentqueue/concurrentqueue.h:3430-3433 | the counting argument: a table in which everyone got a count below three quarters is less than three quarters full |
| `ProducerTable.KeysBelowThreeQuarters` | dependencies/concurrentqueue/concurrentqueue.h:3430-3433 | in every reachable state every table of the chain is empty or less than three quarters full |
| `ProducerTable.KeysAreReachable` | dependencies/concurrentqueue/concurrentqueue.h:3340-3354 | each key can be reached from its thread's hash without crossing an empty slot |
| `ProducerTable.NeverAround` | dependencies/concurrentqueue/concurrentqueue.h:3346-3383 | a probe that has passed only slots taken by others has made fewer steps than the table has slots |
| `ProducerTable.ProbesEnd` | dependencies/concurrentqueue/concurrentqueue.h:3346-3383 | in every reachable state every probe, for a key or for a free slot, is less than one turn from its start |
| `ProducerTable.SameProducerAlways` | dependencies/concurrentqueue/concurrentqueue.h:3336-3386 | a thread that obtained a producer gets the same one from every later call across resizes and lazy migration, and no two threads get the same one |
| `ProducerTable.ResizeMakesRoom` | dependencies/concurrentqueue/concurrentqueue.h:3394-3433 | after a resize the thread that made it is admitted to the new table at once |
| `ProducerCalls.FailsOnlyWithoutMemory` | dependencies/concurrentqueue/concurrentqueue.h:3325-3326 | in every run a call returns no producer only if an allocation it asked for failed, as its comment says |
| `ProducerCalls.LoneCall` | dependencies/concurrentqueue/concurrentqueue.h:3327-3475 | a call that starts while nobody resizes, runs alone and is given memory ends within a bound of steps with a producer, and the newest table then holds its thread's key with that producer |
| `ProducerCalls.GrowsWhenHalfFull` | dependencies/concurrentqueue/concurrentqueue.h:3394-3402 | in every run a table is added only when the count has reached half of the newest; the new one is at least twice as big, the count is below half of it, and one doubling fewer would not do |
| `Semaphore.StepKeepsInv` | dependencies/concurrentqueue/lightweightsemaphore.h:261-405 | every atomic access and kernel call keeps the accounts: registered waiters are the negative part of the count, the kernel's permits and the posts decided but not made |
| `Semaphore.PermitsAreConserved` | dependencies/concurrentqueue/lightweightsemaphore.h:297-336 | in every run what was put in is what was taken, what the count and the kernel hold and what is still to be posted; nothing is taken or reported that was not put in |
| `Semaphore.BlockedOnlyWhenDrained` | dependencies/concurrentqueue/lightweightsemaphore.h:312-320 | a waiter blocked in the kernel with no post pending proves that every permit has been taken |
| `Semaphore.TimedOutWaiterLeaves` | dependencies/concurrentqueue/lightweightsemaphore.h:321-331 | once the pending posts are made a waiter that timed out is out of the rescue loop in at most three steps of its own |
| `Semaphore.CallReports` | dependencies/concurrentqueue/lightweightsemaphore.h:297-394 | in every run a call for `max` permits, from its start to its return, reports at most `max`; an untimed call reports none if and only if `max` is 0 |
| `Semaphore.ZeroCallFails` | dependencies/concurrentqueue/lightweightsemaphore.h:389-394 | an untimed call for no permits, in any state, reports none after at most three steps, so that the assertion fails there |
| `Semaphore.TryTakesWhatIsThere` | dependencies/concurrentqueue/lightweightsemaphore.h:366-378 | in every run `tryWaitMany` takes, in its last step, exactly the permits that are there then, as many as it was asked for |
| `Semaphore.LoneWait` | dependencies/concurrentqueue/lightweightsemaphore.h:366-394 | any wait that finds permits and runs alone takes as many as it wants and there are, in three steps |
| `Semaphore.LoneSleep` | dependencies/concurrentqueue/lightweightsemaphore.h:297-313 | a wait that finds none and runs alone looks ten thousand times more and is then registered, with the count one lower |
| `Semaphore.WokenReports` | dependencies/concurrentqueue/lightweightsemaphore.h:314-335 | a registered waiter for which there is a post comes back, alone, in at most three steps, with its permit and what else is there |
| `Semaphore.LoneTimeout` | dependencies/concurrentqueue/lightweightsemaphore.h:321-331 | a timed waiter for which nothing was posted takes its registration back, alone, in two steps after the timeout: it reports none and the count is what it was |
| `Semaphore.LoneSignal` | dependencies/concurrentqueue/lightweightsemaphore.h:396-405 | `signal` alone raises the count by its argument and posts once for each waiter that this reaches |
| `BlockingQueue.StepKeepsInv` | dependencies/concurrentqueue/blockingconcurrentqueue.h:122-201 | every step of enqueue with signal and of wait with spinning keeps the accounts of queue and semaphore together |
| `BlockingQueue.HoldersHaveElements` | dependencies/concurrentqueue/blockingconcurrentqueue.h:293-366 | in every reachable state the queue holds at least as many elements as spinning threads hold permits, so each of them has an element to find |
| `BlockingQueue.SpinEnds` | dependencies/concurrentqueue/blockingconcurrentqueue.h:446-454 | a spinning thread whose queue gives what it can leaves with exactly as many elements as it had permits |
| `BlockingQueue.QuietCountIsSize` | dependencies/concurrentqueue/blockingconcurrentqueue.h:178-185 | with nobody inside, the semaphore's count is the number of elements |
| `BlockingQueue.CallDoes` | dependencies/concurrentqueue/blockingconcurrentqueue.h:122-201 | in every run an enqueue of `n` elements adds `n` elements and `n` permits; a dequeue ends with as many elements as it was given permits, at most `max`, and at least one if it is untimed and `max > 0` |
| `BlockingQueue.LoneEnqueue` | dependencies/concurrentqueue/blockingconcurrentqueue.h:122-201 | an enqueue alone is over after at most three steps, with `n` elements and `n` permits more |
| `BlockingQueue.LoneDequeue` | dependencies/concurrentqueue/blockingconcurrentqueue.h:446-454 | a dequeue that finds permits and runs alone has after four steps exactly as many elements as it wants and there are permits |
| `Matrices.SumSwap` | dependencies/apriltag/common/matd.c:1517-1524 | a double sum may be taken by rows or by columns |
| `Matrices.MulAssoc` | dependencies/apriltag/common/matd.c:1653-1656 | matrix multiplication is associative, which turns `PLU x = b` into two triangular systems |
| `Permutations.SwapFlips` | dependencies/apriltag/common/matd.c:1546-1549 | exchanging any two entries of a permutation changes its sign |
| `Plu.ReduceColumn` | dependencies/apriltag/common/matd.c:1524-1533 | subtracting the dot products top down leaves a column from which the earlier columns have been taken out, and touches no other column |
| `Plu.FindPivot` | dependencies/apriltag/common/matd.c:1536-1543 | the first row from the diagonal down whose entry is largest in absolute value |
| `Plu.SwapRows` | dependencies/apriltag/common/matd.c:1546-1551 | exactly the two rows change places |
| `Plu.ScaleColumn` | dependencies/apriltag/common/matd.c:1574-1578 | the entries below the diagonal times the pivot are what they were and are at most one in absolute value; nothing else changes; a zero pivot is left alone |
| `Plu.FactorColumn` | dependencies/apriltag/common/matd.c:1523-1579 | one round keeps the loop invariant: the columns before `j + 1` multiply to the permuted matrix, `piv` is a permutation with sign `pivsign`, no multiplier exceeds one, the flag records small pivots |
| `Plu.Factor` | dependencies/apriltag/common/matd.c:1509-1587 | for every square matrix, singular ones included, the result is the outcome of the rounds, each with the first of the biggest entries as pivot; the stored triangles multiply to the matrix with its rows in the order of `piv`; sign, multipliers and flag as above |
| `Plu.FactorisationIsUnique` | dependencies/apriltag/common/matd.c:1535-1543 | the matrix determines factors, permutation, sign and flag, ties between pivots included, since the first of the biggest entries is taken |
| `Plu.Permutation` | dependencies/apriltag/common/matd.c:1610-1619 | the permutation matrix of `piv` |
| `Plu.Lower` | dependencies/apriltag/common/matd.c:1622-1635 | the lower triangle with ones on the diagonal |
| `Plu.Upper` | dependencies/apriltag/common/matd.c:1638-1651 | the upper triangle |
| `Plu.FactorsMultiply` | dependencies/apriltag/common/matd.c:1509-1651 | A = P L U for the three extracted matrices, for every square matrix |
| `PluSolve.Permute` | dependencies/apriltag/common/matd.c:1661-1663 | the right-hand side with its rows in the order of `piv` |
| `PluSolve.SubstituteForward` | dependencies/apriltag/common/matd.c:1666-1672 | the result solves the unit lower triangular system for every column at once |
| `PluSolve.SubstituteBackward` | dependencies/apriltag/common/matd.c:1675-1685 | the result solves the upper triangular system, given no zero on its diagonal |
| `PluSolve.Solve` | dependencies/apriltag/common/matd.c:1657-1688 | A times the result is the right-hand side, for every right-hand side, if no pivot is zero |
| `Inverses.InverseScalar` | dependencies/apriltag/common/matd.c:487-492 | a scalar has an inverse exactly when it is not zero |
| `Inverses.InvertibleExactly` | dependencies/apriltag/common/matd.c:522-535 | a matrix has an inverse if and only if no pivot of its factorisation is zero |
| `Inverses.CommentHoldsExactly` | dependencies/apriltag/common/matd.c:477-480 | the flag is raised exactly for the singular matrices if and only if not both no pivot is zero and some pivot is below the tolerance |
| `Inverses.InverseByFactors` | dependencies/apriltag/common/matd.c:522-535 | what is returned times the matrix is the identity; nothing is returned exactly when there is no inverse or, with no pivot zero, one is below the tolerance |
| `Inverses.Inverse` | dependencies/apriltag/common/matd.c:480-539 | for every size the matrix times what is returned is the identity; up to two rows nothing is returned exactly when there is no inverse, from three rows on also when only small pivots are in the way |
| `Inverses.SmallColumnIsRefused` | dependencies/apriltag/common/matd.c:1558-1572 | every matrix whose first column is below the tolerance is flagged |
| `Inverses.RefusedThoughInvertible` | dependencies/apriltag/common/matd.c:477-480 | small multiples of the identity are refused and have an inverse, against the function's comment |
| `MatrixExpr.RecurseAccounts` | dependencies/apriltag/common/matd.c:827-831 | for every text, each letter takes one argument in order and no more than two temporaries are recorded for each character |
| `MatrixExpr.Evaluator.GobbleRight` | dependencies/apriltag/common/matd.c:551-589 | the loop over postfix operators on the evaluator's own state computes the function of the text |
| `MatrixExpr.Evaluator.Evaluate` | dependencies/apriltag/common/matd.c:593-790 | the recursion with its loop on the evaluator's own state computes the function of the text: position, value, arguments, temporaries and failure |
| `MatrixExpr.Evaluator.Summand` | dependencies/apriltag/common/matd.c:731-775 | sum, difference and unary minus take one term on their right |
| `MatrixText.ReadPrimary` | dependencies/apriltag/common/matd.c:551-589 | reading an argument or a parenthesis with its postfix operators yields its value and stops behind it |
| `MatrixText.ReadProduct` | dependencies/apriltag/common/matd.c:627-644 | reading a product yields its value and stops at its end |
| `MatrixText.ReadSum` | dependencies/apriltag/common/matd.c:731-775 | reading a sum yields its value, terms taken from the left |
| `MatrixText.TextGivesValue` | dependencies/apriltag/common/matd.c:593-790 | for every expression tree whose inverses exist, its text is read to the end, with one argument for each letter from left to right, and gives the tree's value and its exact number of temporaries |
| `MatrixText.Evaluated` | dependencies/apriltag/common/matd.c:793-844 | the whole call: fails without letters, otherwise as the evaluator does; the text of every expression gives its value; the temporaries fit into twice the length of the text |
| `MatrixOutcome.TextGivesOutcome` | dependencies/apriltag/common/matd.c:593-790 | for every expression tree and whichever inverses exist, evaluating its text gives its structural outcome: failure, a value or a missing operand, with arguments and temporaries |
| `MatrixOutcome.WholeIsRight` | dependencies/apriltag/common/matd.c:593-790 | the outcome is the value if the tree has one, and otherwise a failure, a missing operand, or a value after an operand was dropped |
| `MatrixOutcome.WrongValueExactly` | dependencies/apriltag/common/matd.c:557-570 | a value is returned for an expression without one if and only if the evaluator dropped a missing operand, as a left factor or before a minus sign |
| `MatrixText.FailedInverseIsDropped` | dependencies/apriltag/common/matd.c:557-570 | of `M^-1*` followed by any product with a value, when the first inverse does not exist, exactly the value of that product remains |
| `MatrixOutcome.DroppedBeforeMinus` | dependencies/apriltag/common/matd.c:749-770 | with no first inverse `M^-1-M` gives the negative of the second matrix, and `M+M^-1-M` adds the negative of the third |
| `MatrixText.ParenthesisAfter` | dependencies/apriltag/common/matd.c:600-617 | for all expressions, a parenthesis after the text of one multiplies the whole of it |
| `MatrixText.GroupingExactly` | dependencies/apriltag/common/matd.h:330-341 | that is the documented grouping, for all operations and arguments, if and only if the expression is not a sum or a difference |
| `MatrixText.LetterAfter` | dependencies/apriltag/common/matd.c:667-688 | for all expressions, a letter after the text of one joins the last factor of its last term |
| `MatrixText.SpaceBeforePostfix` | dependencies/apriltag/common/matd.c:777-781 | the text `M '` is rejected |
| `MatrixSpaces.HarmlessSpace` | dependencies/apriltag/common/matd.c:777-781 | in every text, rejected ones included, a space that stands neither before nor inside a postfix operator changes nothing |
| `MatrixSpaces.SpaceIsIgnoredExactly` | dependencies/apriltag/common/matd.h:347-347 | in every text that is read to its end one more space is ignored if and only if it stands neither before nor inside a postfix operator |
| `UnionFind.SameIsConnected` | dependencies/apriltag/common/unionfind.h:87-106 | two elements have the same representative exactly when the links connect them, that is, when every labelling that respects the links gives them one label |
| `PixelPaths.SameIsPath` | dependencies/apriltag/common/unionfind.h:87-106 | and that is when a path of links leads from one to the other |
| `UnionFind.Forest.constructor` | dependencies/apriltag/common/unionfind.h:52-62 | a new forest has no connections |
| `UnionFind.Forest.GetRepresentative` | dependencies/apriltag/common/unionfind.h:89-106 | the root of the element's tree, with the path collapsed and no class changed |
| `UnionFind.Forest.GetSetSize` | dependencies/apriltag/common/unionfind.h:108-112 | the number of elements in the element's class |
| `UnionFind.Forest.Connect` | dependencies/apriltag/common/unionfind.h:114-146 | the two classes become one, the bigger tree's root is kept, and the classes are those of one more connection |
| `Components.FirstLine` | dependencies/apriltag/apriltag_quad_thresh.c:990-1003 | the connections of the first row |
| `Components.JoinPixel` | dependencies/apriltag/apriltag_quad_thresh.c:1022-1041 | the connections of one pixel are exactly those that the tests on the sliding values let through |
| `Components.Line` | dependencies/apriltag/apriltag_quad_thresh.c:1005-1043 | the connections of one more row |
| `Components.UpImplied` | dependencies/apriltag/apriltag_quad_thresh.c:1029-1031 | a skipped union with the pixel above is implied by the unions made |
| `Components.SkippingIsExact` | dependencies/apriltag/apriltag_quad_thresh.c:1022-1041 | on all columns but the last two pixels are in one tree exactly when the scan that performs every union, four neighbours for black and eight for white, connects them |
| `Components.ConnectedComponents` | dependencies/apriltag/apriltag_quad_thresh.c:1436-1443 | the sequential path returns a forest with exactly the components of the full scan on all columns but the last, and on all columns if and only if no union is dropped |
| `Components.DroppedDiffers` | dependencies/apriltag/apriltag_quad_thresh.c:1036-1038 | wherever a union with the last column is dropped the full scan connects two pixels that the scan that skips keeps apart |
| `Components.LastColumnExactly` | dependencies/apriltag/apriltag_quad_thresh.c:1036-1038 | with the last column the two scans have the same components if and only if no union is dropped, which is three white pixels in a corner of the last two columns |
| `PixelPaths.FullIsNeighbours` | dependencies/apriltag/apriltag_quad_thresh.c:1016-1041 | the scan that performs every union joins exactly the pixels that touch and have one colour: side by side if black, corners too if white |
| `PixelPaths.FullyConnectedIsRegion` | dependencies/apriltag/apriltag_quad_thresh.c:1016-1041 | it connects two pixels exactly when one can be reached from the other from neighbour to neighbour |
| `PixelPaths.TreesAreRegions` | dependencies/apriltag/apriltag_quad_thresh.c:1022-1041 | on all columns but the last two pixels have the same representative after the scan that skips exactly when one can be reached from the other from neighbour to neighbour |
| `Clusters.ClusterIdIsPair` | dependencies/apriltag/apriltag_quad_thresh.c:1532-1536 | a cluster id stands for one unordered pair of components |
| `Clusters.AddPoint` | dependencies/apriltag/apriltag_quad_thresh.c:1539-1561 | the point joins the chain entry of its cluster, which is new if there was none, and every other cluster stays as it is |
| `Clusters.ClusterList.BubbleSort` | dependencies/apriltag/apriltag_quad_thresh.c:1588-1602 | the new part of the list is sorted by id, the same clusters rearranged; the part before stays |
| `Clusters.DoGradientClusters` | dependencies/apriltag/apriltag_quad_thresh.c:1483-1611 | the rows of a chunk give a strictly sorted list with exactly their clusters and their points in scanning order |
| `Clusters.MergeClusters` | dependencies/apriltag/apriltag_quad_thresh.c:1620-1667 | two strictly sorted lists give the strictly sorted list of the one scan followed by the other |
| `Clusters.MergeRound` | dependencies/apriltag/apriltag_quad_thresh.c:1703-1714 | a round merges neighbours in place and moves an odd last list up |
| `Clusters.GradientClusters` | dependencies/apriltag/apriltag_quad_thresh.c:1669-1735 | for any number of threads the result has the clusters of one scan of all inner rows, strictly sorted by hash and id |
| `Clusters.Determined` | dependencies/apriltag/apriltag_quad_thresh.c:1620-1667 | a strictly sorted list with the clusters of given points is unique |
| `Clusters.ChunksDoNotMatter` | dependencies/apriltag/apriltag_quad_thresh.c:1679-1715 | two runs with any numbers of threads and buckets find clusters for the same ids, with the same points in the same order, that of one unchunked scan |
| `EdgePoints.ItemsExactly` | dependencies/apriltag/apriltag_quad_thresh.c:1538-1560 | the points of a scan are exactly the touching black and white pixels it meets whose components have at least 25 pixels: each pair gives one point, half-way between the two, with the direction to the white one, in the cluster of their components |
| `EdgePoints.ClusterIsBorder` | dependencies/apriltag/apriltag_quad_thresh.c:1500-1560 | each cluster found is one border: exactly the points between touching black and white pixels of its two components, each once |
| `Words.RotateBit` | dependencies/apriltag/apriltag.c:141-152 | the shifts of the quarter turn move each bit from one place |
| `Words.TurnHasOrderFour` | dependencies/apriltag/apriltag.c:141-152 | four quarter turns give the code back |
| `Words.TurnKeepsDistance` | dependencies/apriltag/apriltag.c:141-152 | turning two codes does not change their Hamming distance |
| `Words.OtherSizesLoseBits` | dependencies/apriltag/apriltag.c:144-150 | for every other size two different codes become the same |
| `Words.TurnIsReversible` | dependencies/apriltag/apriltag.c:141-152 | the turn can be undone exactly for codes of `4 k` or `4 k + 1` bits |
| `QuickDecode.Decoder.Add` | dependencies/apriltag/apriltag.c:175-186 | the code goes into the first unused entry on its probe and nothing else changes; the table then answers for one more insertion |
| `QuickDecode.Decoder.AddThrees` | dependencies/apriltag/apriltag.c:249-255 | the three nested loops insert every pattern of three flipped bits once, in order |
| `QuickDecode.Decoder.constructor` | dependencies/apriltag/apriltag.c:199-262 | the table holds all codes with all their error patterns, in order, and never fills |
| `QuickDecode.Decoder.Codeword` | dependencies/apriltag/apriltag.c:292-317 | the result is that of a linear search through the insertions, rotation by rotation |
| `QuickDecode.InsertionsFit` | dependencies/apriltag/apriltag.c:205-218 | all insertions together take at most a third of the table |
| `QuickDecode.SearchAgrees` | dependencies/apriltag/apriltag.c:299-308 | where the probe stops is the first insertion with the code, or there is none |
| `ErrorCorrection.PatternsHave` | dependencies/apriltag/apriltag.c:232-255 | every word within the radius of a code is among its error patterns, with its distance |
| `ErrorCorrection.TableIsTheBalls` | dependencies/apriltag/apriltag.c:232-255 | a word is in the table exactly when it is within the radius of some code |
| `ErrorCorrection.FailsExactlyWhenFar` | dependencies/apriltag/apriltag.c:291-317 | decoding fails exactly when no rotation is within the radius of any code; otherwise it stops at the first rotation that is, with a code within the radius and their exact distance |
| `ErrorCorrection.NoEarlierMatch` | dependencies/apriltag/apriltag.c:292-310 | with codes far enough apart no rotation before the undoing one matches |
| `ErrorCorrection.RightMatch` | dependencies/apriltag/apriltag.c:303-306 | with codes far enough apart the match is the right code with its exact number of errors |
| `ErrorCorrection.DecodesUniquely` | dependencies/apriltag/apriltag.c:292-317 | every rotation of a code with at most the radius of flipped bits decodes to that id, its error count and the undoing rotation |
| `TagImage.ToImage` | dependencies/apriltag/apriltag.c:1412-1438 | a pixel is white exactly when it lies on the white border or in the cell of a set bit |
| `TagImage.PaintBorder` | dependencies/apriltag/apriltag.c:1421-1429 | the border loop paints exactly the pixels of its four sides |
| `TagImage.BorderTurns` | dependencies/apriltag/apriltag.c:1421-1429 | if the margins are even the four sides close to the outline of a square, which a quarter turn maps to itself and which lies one pixel outside the bits' square, or on its rim in a reversed family |
| `TagImage.ReadCode` | dependencies/apriltag/apriltag.c:710-725 | shifting in one bit for each cell gives the word whose bits are the cells |
| `TagImage.RoundTrip` | dependencies/apriltag/apriltag.c:1431-1436 | every code can be read back from its picture exactly when the cells are distinct and off the border |
| `TagImage.TurnedCodeIsTurnedPicture` | dependencies/apriltag/apriltag.c:137-152 | for a layout drawn one quadrant at a time the quarter turn of the code draws the picture turned to the left |
| `TagImage.DrawnTagDecodes` | dependencies/apriltag/apriltag.c:710-727 | a tag that is drawn, turned any number of times and read with at most the radius of cells wrong decodes to its id, the exact number of wrong cells and the undoing rotation |
| `SixteenBits.Tag16h5IsSymmetric` | dependencies/apriltag/tag16h5.c:68-105 | the layout of the sixteen-bit family is drawn one quadrant at a time |
| `SixteenBits.TwoTagsDecode` | dependencies/apriltag/tag16h5.c:38-39 | its first two codes are far enough apart for two errors: drawn, turned and read with two cells wrong they are recognised |
| `Reconcile.Prefer` | dependencies/apriltag/apriltag.c:977-989 | fewer errors are preferred, then the bigger margin, then the smaller first coordinate in which the corners differ; neither is preferred exactly if all are equal |
| `Reconcile.PreferenceMeans` | dependencies/apriltag/apriltag.c:977-989 | the lexicographic order on the keys is that order on the fields |
| `Reconcile.Detections.RemoveIndex` | dependencies/apriltag/common/zarray.h:234-254 | removal puts the last element into the gap |
| `Reconcile.RemovalAndOrder` | dependencies/apriltag/common/zarray.h:229-242 | one such removal keeps the order of the others exactly when it is one of the last two elements that goes |
| `Reconcile.Detections.RoundFor` | dependencies/apriltag/apriltag.c:1197-1245 | comparing one detection with all later ones, with its two ways of trying an index again, settles it or deletes it |
| `Reconcile.Detections.Reconcile` | dependencies/apriltag/apriltag.c:1189-1247 | the loop ends; no two remaining detections of a tag overlap, what is gone was overlapped for its tag by one at least as good, and for each tag detected one with the fewest errors, and the biggest margin among those, remains |
| `Reconcile.BestExists` | dependencies/apriltag/apriltag.c:1216-1227 | every tag detected has a best detection, so one survives |

## Left out

- Memory order: steps are sequentially consistent, except that `DequeueCounters` lets the loads of tail, overcommit and optimistic count be stale; the rest of the C++11 memory model is not modelled.
- The form of the queue: its operations are steps of a transition system on values rather than methods of a class, because a method cannot be interrupted by another thread; what this loses is update in place and aliasing, which the models make explicit as block numbers.
- Counters are unbounded: a sub-queue with 2^63 elements and more than 2^31 references to a node are excluded, the latter by the bound on the number of threads in `FreeList.Init`. Where a consumer would compare counters 2^63 or more apart, which needs that many elements or dequeues between two of its loads, it takes no step.
- Element types whose constructors or assignments throw, and the handlers for them.
- ExplicitProducer: does not model how `enqueue_bulk` gives up when an allocation fails (concurrentqueue.h:2039-2068): such a step has no effect, and a run goes on only if it is taken again with another outcome. The implicit producer's rollback is modelled.
- ExplicitProducer: `is_empty`, `reset_empty`, `set_all_empty` and `set_many_empty` are one step each; the counter that replaces the flags in big blocks is modelled only for the implicit producer.
- ImplicitProgress: adding a block to the pool counts as one step; its loop is the subject of `FreeList`.
- The initial block pool, block ownership between queues, queue move, swap and destruction, tokens and their rotation, `size_approx`, and the thread-exit code, which this configuration compiles out.
- ProducerTable: the table's capacity is not bounded by the machine word, and thread ids hash to any fixed number.
- BlockingQueue: does not model which element a dequeue returns; the inner queue is its two totals and may give any number up to what is there. The elements are the subject of the producers.
- The operating system's semaphores: the kernel semaphore is ideal and its untimed wait never fails.
- Floating-point rounding: matrices are over exact reals, decision margins and corners too.
- `matd_plu_det`, the element-wise operations, SVD, and matrices stored as scalars of size zero.
- MatrixExpr: constants written as numbers are not modelled, a text with one counts as rejected; the operations themselves are parameters, so their checks of dimensions are not modelled. Freeing the temporaries is not modelled.
- GroupingExactly: is about one juxtaposed parenthesis at the end of an expression; several in one text are not modelled.
- The threaded path of `connected_components`, whose schedule covers the last row only for some heights.
- Clusters: the chunks are scanned one after the other, as their tables and lists are their own; collapsing paths in the shared forest while others read it is not modelled. Memory pools are left out, and the number of buckets is a parameter.
- Images are sequences of rows without stride; `apriltag_to_image` writes a two-dimensional array.
- TagImage: sampling through the homography, the gray models and sharpening come before the bits are read and are not modelled; the layouts of the other families, and the codes but for the first two of one family, are not written out.
- Reconcile: whether two polygons overlap is a parameter, a detection is its id, family, hamming distance, margin and corners.
- Quad fitting, homography, pose, drawing for debugging, file input and output, the Python wrapper, JNI, the Android application and `quad_segment_agg`, which is dead code.
