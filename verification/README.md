# Parcoll queues: model and proofs

This project models the ring-buffer queues of Parcoll in Dafny and proves what they promise: no
element is lost, duplicated or read half-written, in any interleaving of any number of threads.
Where the code keeps a promise only under a condition, it proves that the condition is exact.
`dafny verify dfyconfig.toml` checks all of it.

## How the model is built

Three layers, each in the form of the code it models.

- **Ring buffers.** `Ring` has the bulk copies as loops over arrays, proved against what they mean
  for one logical position at a time. `Overflow` has the arithmetic of an overflow and
  `PushTest` that of the tests of a push. `Counters` and `BufferVersion` say when wrapped counters,
  mask indices and the packed word of the unbounded queues compute the same as unbounded arithmetic.
- **Protocols.** `Mpmc`, `SpmcNetwork`, `SpmcUnbounded`, `UnboundedNetwork`, `SpscUnbounded`,
  `SpscBounded` and `VersionCell` are transition systems in which every atomic access, and every
  element of an optimistic copy, is a step. A run is any sequence of steps of any threads; the
  theorems hold of every run. `MpmcWords` is `Mpmc` on wrapping words, `MpmcProgress` says which of its
  calls end without help, `UnboundedNetwork` puts
  machines of `SpmcUnbounded` together, `ConservationLimits` builds the runs that break conservation,
  and `Bags` sums up what many queues and threads hold. The log that records the value of each
  position exists only for the proofs.
- **Code.** `SpmcProducer`, `SpmcConsumer`, `UnboundedProducer`, `UnboundedConsumer`, `BatchReceiver`
  and the class in `SpscBounded` are the methods themselves, over fields and arrays. Around each
  access to a shared counter the other threads move; what they may do is what the transition systems
  show that they do. The producers of the transition systems may do whatever their guards allow, and
  the methods of the code meet these guards as preconditions.

The single-value pushes of the code store without a guard. In the transition systems such a store may
find no free slot, and then a run is followed up to it: `SpmcNetwork` ends there, with the element
counted as `lost`; in the other systems `lost` counts it, and the push waits instead.

Which modules follow which file: `Ring`, `Overflow`, `SpmcNetwork`, `ConservationLimits`,
`SpmcProducer` and `SpmcConsumer` follow src/spmc/const_bounded.rs; `SpmcUnbounded`,
`UnboundedNetwork`, `UnboundedProducer` and `UnboundedConsumer` follow src/spmc/unbounded.rs, and
`UnboundedProducer`, with `SpscUnbounded`, src/spsc/unbounded.rs; `SpscBounded` follows
src/spsc/const_bounded.rs; `PushTest` follows the pushes of all of these; `Mpmc`, `MpmcWords` and
`MpmcProgress` follow src/mpmc/const_bounded.rs; `BufferVersion` follows src/buffer_version.rs; `VersionCell` follows
src/naive_rw_lock.rs and src/sync_cell.rs; `BatchReceiver` follows src/mutex_vec_queue.rs.

Memory that was never written holds arbitrary values, so a theorem about what is delivered also says
that such memory is never delivered. `least` is the smallest number of elements worth stealing: 4, or
1 with the feature `always_steal`.

## Where the code needs more than it says

The code is modelled as it is. Where a promise holds only under a condition, the condition is exact.

- The single pushes compare with `== CAPACITY` (src/spmc/const_bounded.rs:588 and 619), `maybe_push`
  and the unbounded queue with `>=`. Either test is safe, whatever consumers do, exactly while at most
  a capacity lies behind the *cached* head or less than a capacity behind a head that was observed
  (`PushTest.TestIsSafeIff`, `PushTest.PushIsSafeIff`). The methods require this, as `CanPush()`. In
  the transition systems no run whose pushes are safe when called stores over an element, and with the
  head where it was observed every other push can be continued to such a store (`PushLosesIff`).
- The calls of the queues lead to unsafe pushes. A push that loses the race for its overflow stores
  its value without refreshing the cached head (src/spmc/const_bounded.rs:354-366); the push after it
  is unsafe exactly when the race was lost by one element (`LostRaceMakesNextPushUnsafeIff`), and four
  pushes into two slots are enough to store over an unread element (`FullAndStaleIsReached`). An
  overflow, an unchecked bulk push into the free half and a push do the same without any other thread
  (`SomeRunLoses`). In the unbounded
  queue `producer_pop_many` leaves the cached head where it was (src/spmc/unbounded.rs:428-465); once
  its values are replaced the next push is unsafe (`StaleAfterPop`, `RefillAfterPop`). In the bounded
  queue with one consumer unchecked pushes behind a stale cached head do it. A call of `len` in
  between repairs it (`ProducerLen`).
- With an odd capacity an overflow hands one element to the receiver that also stays in the queue
  exactly when the head is in the upper half of the array (`BatchIsExactIff`, `OverflowConservesIff`).
  All runs of a network whose pushes are safe when called conserve the elements exactly when all
  capacities are even (`ConservationLimits.ConservationIff`); without that condition on pushes no
  network conserves them in all runs (`UnsafePushesBreak`).
- `producer_push_many` claims half of the capacity without looking whether so much is there. The whole
  batch is there in every state that leads to an overflow exactly for slices of at most half of the
  capacity and one (`BulkOverflowFitsIff`, for every capacity).
- `handle_lock_free_overflow_many` answers `Ok(())` without storing the slice when the exchange fails
  and there is still too little room (src/spmc/const_bounded.rs:557-573). That never happens exactly
  for slices of at most one value (`NeverDropsIff`): with a full queue, two values and one element
  taken by a consumer it does. `HandleLockFreeOverflowMany` says of each call whether it did.
- The debug assertions at src/spmc/const_bounded.rs:382 and 520 say that a bulk overflow finds the
  queue full. It is also reached with fewer elements and a longer slice; the model has no debug
  assertions.
- Growth from a cached head computes the right tail exactly when at most a capacity lies behind that
  head (`RecomputedTailIff`). `producer_reserve` does not refresh the cached head, so after a bulk pop
  and a refill it computes a tail that is a whole capacity short (`StaleGrowthLosesTail`).
- Counters wrap at the word size. Ring indices stay right exactly when the capacity divides it
  (`IndexAgreesIff`). Then the queue on words does what the queue on counters does, as long as no
  thread falls a whole window behind (`MpmcWords.Refines`).
- src/single_producer.rs:32 says that `copy_and_commit_if` copies its `right` slice first. The queues
  forward their arguments under swapped names (src/spmc/const_bounded.rs:1103-1113) and copy `left`
  first, and the overflow passes the left slice first (src/spmc/const_bounded.rs:346-350). So stolen
  and overflowed elements arrive rotated; order survives exactly when the range does not wrap
  (`PieceOrderIsFifoIff`). The proofs follow the code.
- src/producer.rs:36 and src/consumer.rs:98 promise that `lock_free_maybe_push` and `lock_free_pop` are
  lock-free. The MPMC pop is: a call that runs alone ends within six steps (`LockFreePopEnds`), and an
  exchange is lost only to another thread that won it, or for no reason (`ExchangeDecides`). The MPMC push
  is not: it spins (src/mpmc/const_bounded.rs:328-332) exactly while the queue is full and its oldest
  ticket is still being written (`PushEndsIff`, `SomePushWaits`).
- src/mpmc/const_bounded.rs:394 explains `ShouldWait` by a preempted writer. It needs an empty queue and
  an unfinished *reader* of the lap before (`PopAnswers`, `ShouldWaitMeans`); an unfinished writer of
  the wanted ticket gives `None`.

## Model

| member | source | states |
|---|---|---|
| `Ring.SlotIsRemainder` | src/spmc/const_bounded.rs:125 | position `p` lives in slot `p % CAPACITY`; the other proofs use the recursive form of the same slot |
| `Ring.SlotsDiffer` | src/spmc/const_bounded.rs:125 | two positions less than one capacity apart never share a slot |
| `Ring.CopySlice` | src/spmc/const_bounded.rs:124-145 | the one-piece and two-piece bulk store changes exactly the slots of the positions `start..start + len` and returns the tail behind them |
| `Ring.RoundTrip` | src/spmc/const_bounded.rs:124-145 | what a bulk store puts at a tail is what a read from there returns, for every start offset and every slice that fits |
| `Ring.WriteKeepsLive` | src/spmc/const_bounded.rs:124-145 | a bulk store behind the tail that fits leaves every live position as it was |
| `Ring.WriteRangeConcat` | src/spmc/const_bounded.rs:683-684 | two stores one behind the other are one store of the concatenation |
| `Ring.TwoStores` | src/spmc/const_bounded.rs:671-687 | two slices stored one behind the other are read back in this order |
| `Ring.CopyOut` | src/spmc/const_bounded.rs:250-277 | the one-piece and two-piece pop copy delivers the values of the positions from the head on, in order, and touches nothing else of the destination |
| `Ring.StealPiecesAreValues` | src/spmc/const_bounded.rs:954-972 | the two slices of a steal are the values from the head on, cut where the array ends |
| `Ring.StealPiecesInOrder` | src/spmc/const_bounded.rs:806-811 | handed over the second one first they arrive as a rotation of these values |
| `Ring.PieceOrderIsRotation` | src/spmc/const_bounded.rs:806-811 | the arrival order is a rotation by the length of the piece that does not wrap |
| `Ring.PieceOrderKeepsValues` | src/spmc/const_bounded.rs:806-811 | the arrival order is a permutation: nothing lost, nothing twice |
| `Ring.PieceOrderIsFifoIff` | src/spmc/const_bounded.rs:1103-1113 | first-in first-out order survives a steal or an overflow exactly when the range does not wrap |
| `Ring.CopiedIsExpected` | src/spmc/const_bounded.rs:806-811 | values copied one by one in the order of a pop or a steal are the values from the head on, in order or rotated |
| `Counters.SameWordIff` | src/mpmc/const_bounded.rs:122-145 | wrapped counters are equal exactly when the counters are, inside one window of the word |
| `Counters.AddAgrees` | src/spmc/const_bounded.rs:144 | wrapping addition on the word is addition on the counter |
| `Counters.LengthAgrees` | src/spmc/const_bounded.rs:114-116 | `tail.wrapping_sub(head)` is the number of elements, also across the wrap |
| `Counters.IndexAgreesIff` | src/mpmc/const_bounded.rs:293 | the ring index of the wrapped counter is right for every counter exactly when the capacity divides the word size |
| `BufferVersion.MaskIsRemainder` | src/buffer_version.rs:159-163 | the mask of a power of two computes the remainder |
| `BufferVersion.PhysicalIndexIsSlot` | src/buffer_version.rs:93-97 | the mask index of a power-of-two capacity is the slot of the position |
| `BufferVersion.PackIsSum` | src/buffer_version.rs:9-11 | the packed word is `version * 2^32 + tail`, without overflow |
| `BufferVersion.UnpackAfterPack` | src/buffer_version.rs:9-21 | version and tail both survive the trip through the shared word |
| `BufferVersion.PackAfterUnpack` | src/buffer_version.rs:9-21 | every word is the packing of what it unpacks to |
| `BufferVersion.GreaterCapacity` | src/buffer_version.rs:35-42 | the power-of-two table grows strictly |
| `BufferVersion.GreaterCapacityAny` | src/buffer_version.rs:43-52 | the other table grows strictly below the largest capacity |
| `BufferVersion.GreaterCapacityIsPowerOfTwo` | src/buffer_version.rs:35-42 | growth keeps capacities powers of two |
| `BufferVersion.CapacityFor` | src/spmc/unbounded.rs:511-514 | the capacity loop ends with a power of two with room for a full old buffer and the new values, and not by a doubling too many |
| `Mpmc.StepKeepsInv` | src/mpmc/const_bounded.rs:288-399 | every atomic step of any number of pushers and poppers keeps the ticket invariant |
| `Mpmc.RunKeepsInv` | src/mpmc/const_bounded.rs:288-399 | so does every run |
| `Mpmc.TicketedFifo` | src/mpmc/const_bounded.rs:288-399 | in every run the pop of head ticket `k` returns the value of the push of tail ticket `k`, every ticket below head is returned or in one reader's hands, every ticket from head to tail is stored or being written, and `head <= tail <= head + CAPACITY` |
| `Mpmc.QuiescentFifo` | src/mpmc/const_bounded.rs:288-399 | with no call in progress all tickets below head were returned and all others are published with their value |
| `Mpmc.ReturnedOnce` | src/mpmc/const_bounded.rs:368-380 | each ticket is returned at most once, and with the value pushed under it |
| `Mpmc.SlotExclusive` | src/mpmc/const_bounded.rs:296-309 | no two threads are ever between winning a ticket and storing the state of one slot, so no write overlaps a read or a write |
| `Mpmc.StateIsACode` | src/mpmc/const_bounded.rs:107-120 | every slot state is the free or the occupied code of a ticket of that slot |
| `Mpmc.CodesDistinctIff` | src/mpmc/const_bounded.rs:92-97 | stored values and free slots cannot be confused exactly with two slots or more |
| `Mpmc.PushErrMeans` | src/mpmc/const_bounded.rs:316-327 | `Err` from push exactly when, at the state load, the loaded tail is current and the ticket one lap before is unread or still being read |
| `Mpmc.PopAnswers` | src/mpmc/const_bounded.rs:368-396 | for a current head the state load goes to the exchange exactly when ticket `head` is published, to the third branch exactly when the queue is empty and the reader a lap before is unfinished, and to `None` otherwise (not claimed, or still being written) |
| `Mpmc.ShouldWaitMeans` | src/mpmc/const_bounded.rs:388-395 | `ShouldWait` implies `head == tail` at the state load with a reader of the ticket a lap before in flight |
| `Mpmc.LenMeans` | src/mpmc/const_bounded.rs:261-282 | the answer of `len` is at least the length at the load of tail and at most the capacity; it is exact if head has not moved, and `len` starts over only if head has |
| `Mpmc.PushAnswers` | src/mpmc/const_bounded.rs:296-332 | for a current tail the state load of push goes to the exchange exactly when the ticket a lap before was returned (or there is none), to `Err` exactly when that ticket is unread or being read, and tries again exactly when it is still being written; with a tail that is behind it never answers `Err` |
| `Mpmc.ExchangeDecides` | src/mpmc/const_bounded.rs:300-315 | a weak exchange wins the ticket of an unmoved counter for its thread, with its value, unless it fails for no reason; a loser changes nothing, goes on with the counter as it is now, and that counter has grown unless the failure was for no reason |
| `Mpmc.CallsGoOn` | src/mpmc/const_bounded.rs:288-399 | no call is forgotten or turned into another: a push keeps its value until it wins a ticket for it or hands it back, a `lock_free_pop` stays one and only it can answer `ShouldWait`, and no step moves the call of another thread |
| `Mpmc.NoneMeans` | src/mpmc/const_bounded.rs:368-387 | over every step of every thread, wherever it comes from: a thread comes to `None` only by the state load of its own pop, with the loaded head current and that ticket not published |
| `Mpmc.ErrMeans` | src/mpmc/const_bounded.rs:316-327 | likewise a thread comes to `Err` only by the state load of its own push, with the loaded tail current and the ticket of the lap before unread or being read, and gets its own value back |
| `Mpmc.LenAnswerMeans` | src/mpmc/const_bounded.rs:261-282 | likewise `len` answers only by its own load of tail, within the bounds of `LenMeans` |
| `Mpmc.ReloadMeans` | src/mpmc/const_bounded.rs:388-395 | likewise a pop comes to wait only by its state load, and with an unmoved head only when the queue is empty and the reader of the lap before unfinished |
| `Mpmc.ShouldWaitFoundReader` | src/mpmc/const_bounded.rs:388-395 | in every run a thread that comes to `ShouldWait` is a `lock_free_pop`, the head is the one it loaded, and at a state load of it in this run the queue was empty with the reader of the ticket a lap before in flight |
| `Mpmc.WordTestsAgree` | src/mpmc/const_bounded.rs:112-144 | the four state tests on wrapping words answer as on counters, within the window of the word |
| `MpmcWords.StepAgrees` | src/mpmc/const_bounded.rs:288-399 | on wrapping words, with slots found by the remainder of a word, every step is the step on the counters behind the words, while the capacity divides the word and no thread is a window behind |
| `MpmcWords.Refines` | src/mpmc/const_bounded.rs:288-399 | a run of the queue on words is a run of the queue on counters, under the same condition |
| `MpmcWords.ShortRunsStay` | src/mpmc/const_bounded.rs:288-399 | the condition on threads holds in every run too short to wrap the tail |
| `MpmcProgress.EndsAloneIff` | src/mpmc/const_bounded.rs:288-399 | from every reached state, wherever the other threads stopped: a call whose thread runs alone ends within six steps exactly when it does not wait for another thread, and otherwise no number of its steps ends it |
| `MpmcProgress.LockFreePopEnds` | src/mpmc/const_bounded.rs:469-487 | `lock_free_pop` never waits for another thread, as its trait promises, and neither does `len` |
| `MpmcProgress.PushEndsIff` | src/mpmc/const_bounded.rs:328-354 | the push, which the trait of `lock_free_maybe_push` promises to be lock-free, needs another thread exactly while the queue is full and its oldest ticket is still being written |
| `MpmcProgress.SomePushWaits` | src/mpmc/const_bounded.rs:328-332 | a run, for every capacity, after which a push never ends alone: a thread stops between winning the first ticket and storing its value, and another one fills the queue and pushes again |
| `VersionCell.StepKeepsInv` | src/naive_rw_lock.rs:96-127 | every step of readers and writers keeps the lock invariant |
| `VersionCell.StateCountsHolders` | src/naive_rw_lock.rs:96-127 | the state is -1 exactly when one writer and no reader holds the lock, and otherwise the number of readers |
| `VersionCell.ReadsAreWhole` | src/sync_cell.rs:63-65 | `try_with` only ever sees a value that was stored completely |
| `VersionCell.StoredExactlyOnce` | src/sync_cell.rs:30-44 | what a thread has stored, in order, are the values of its calls that ended stored, each once; every `swap` that has ended is stored, however often its loop ran, and only a `try_store` is ever refused |
| `VersionCell.ReadNoneMeans` | src/naive_rw_lock.rs:100-114 | a read is refused only while a writer holds the lock |
| `VersionCell.StoreErrMeans` | src/sync_cell.rs:67-75 | `Err` from a store belongs to a `try_store` and is decided only while some thread holds a read or write guard |
| `VersionCell.FreeLockIsTaken` | src/naive_rw_lock.rs:96-127 | a lock that nobody holds is taken by the next try of a `try_store` or a `swap`, and by the next exchange of a read that finds the state it loaded and does not fail for no reason |
| `VersionCell.CallsAreEntered` | src/sync_cell.rs:30-44 | every call of a store is recorded when it starts, with its value and whether it is a `swap` |
| `SpmcNetwork.EffectIsOk` | src/spmc/const_bounded.rs:852-997 | every step of a producer, consumer or thief keeps every queue sound and leaves the others what they rely on |
| `SpmcNetwork.CopiedIsLog` | src/spmc/const_bounded.rs:876-905 | an optimistic copy whose exchange finds the head where it was loaded has exactly the published values, whatever was stored meanwhile, and never more than a capacity of them |
| `SpmcNetwork.PopCasMeans` | src/spmc/const_bounded.rs:897-913 | the exchange of `consumer_pop_many` delivers the values published at `head..head + n` if the head has not moved and changes nothing otherwise |
| `SpmcNetwork.StolenIsLoot` | src/spmc/const_bounded.rs:954-990 | after a successful exchange the slots behind the tail of the destination hold the `n` oldest values of the source, rotated |
| `SpmcNetwork.StealMovesLoot` | src/spmc/const_bounded.rs:974-990 | a steal that wins takes the `n` oldest values from the source and, whatever others do before the tail store, appends exactly these to the destination |
| `SpmcNetwork.LostStealChangesNothing` | src/spmc/const_bounded.rs:984-995 | every step of a steal that does not win leaves head, tail and live values of every queue as they were |
| `SpmcNetwork.OthersRely` | src/spmc/const_bounded.rs:831-997 | other threads only move the head of a queue on, up to its tail |
| `SpmcNetwork.Accounting` | src/spmc/const_bounded.rs:309-997 | for any number of queues of any capacities, producers, thieves and consumers, with the push and the overflow split of the code, in every run up to the first store over an element that nobody took, which it includes: pushed, and once more what overflows took without giving it up, equals in the queues, in flight, popped, received, and stored over, as multisets |
| `SpmcNetwork.ConservedIff` | src/spmc/const_bounded.rs:319-350 | so a run has lost and duplicated nothing exactly when what overflows took twice is what pushes stored over |
| `SpmcNetwork.TakesTwiceIff` | src/spmc/const_bounded.rs:319-342 | an overflow takes nothing twice exactly at an even capacity or with the head in the lower half |
| `SpmcNetwork.SafeRun` | src/spmc/const_bounded.rs:584-602 | if every push of a run is called in a state in which it is safe, the run stores over nothing |
| `SpmcNetwork.PushLosesIff` | src/spmc/const_bounded.rs:584-602 | with the head where the producer observed it, the call of a push, with either test, can be continued to a store over an element that nobody took exactly when it is not safe |
| `SpmcNetwork.Conservation` | src/spmc/const_bounded.rs:309-997 | with even capacities and pushes that are safe when called, in every run pushed equals in the queues, claimed but in flight, popped, and received |
| `SpmcNetwork.QuiescentConservation` | src/spmc/const_bounded.rs:309-997 | with no call in progress nothing is in flight; nothing is taken twice at even capacities, and nothing is stored over by safe pushes |
| `ConservationLimits.SomeRunTakesTwice` | src/spmc/const_bounded.rs:319-350 | a fresh queue of any odd capacity has a run, of two fillings and two overflows at most, after which an element is in the receiver and still in the queue |
| `ConservationLimits.SomeRunLoses` | src/spmc/const_bounded.rs:584-602 | a fresh queue of any even capacity has a run, of an overflow, a bulk push into the free half and a push, that stores over an element that nobody took |
| `ConservationLimits.ConservationIff` | src/spmc/const_bounded.rs:309-997 | all runs whose pushes are safe when called conserve the elements exactly when all capacities are even |
| `ConservationLimits.UnsafePushesBreak` | src/spmc/const_bounded.rs:584-602 | without that condition on pushes every network of at least one queue, whatever the capacities, has a run that loses or duplicates an element |
| `SpmcNetwork.RetriesBounded` | src/spmc/const_bounded.rs:856-913 | in every reached state a pop or steal has started over at most as often as values were published in its source |
| `SpmcNetwork.RetryAdvances` | src/spmc/const_bounded.rs:937-993 | every retry starts from a strictly larger head |
| `SpmcNetwork.PopDecides` | src/spmc/const_bounded.rs:855-877 | after its load of the tail a pop goes for `min(max, tail - head)` values exactly if that is something and at most the capacity, starts over exactly if it is more, and is over exactly if nothing was asked or the tail is the head it loaded |
| `SpmcNetwork.StealDecides` | src/spmc/const_bounded.rs:933-952 | after its load of the tail a steal goes for half of the values exactly if that is something, at least the minimum and at most half of the capacity, starts over exactly if it is more, and is over otherwise |
| `SpmcNetwork.EndsOnly` | src/spmc/const_bounded.rs:852-997 | a pop or steal ends only by that decision, by an exchange that wins, or by the publication of the loot; a lost exchange never ends it |
| `SpmcNetwork.CallsGoOn` | src/spmc/const_bounded.rs:852-997 | until then it stays the call it is, on the same queue, from the head as its load or its lost exchange met it |
| `SpmcNetwork.NoPushForgets` | src/spmc/const_bounded.rs:584-662 | each step of a push keeps its value, publishes it or hands it over, or refuses it: `maybe_push` exactly after a load that finds the queue full, the lock-free push when the receiver is locked |
| `SpmcNetwork.OverflowTakes` | src/spmc/const_bounded.rs:375-442 | the exchange of a bulk overflow wins exactly when the head is where it was seen; it moves it by half of the capacity and the producer holds the batch and the slice for the receiver |
| `SpmcNetwork.ProducerTakes` | src/spmc/const_bounded.rs:217-240 | the exchange of a bulk pop of the producer wins exactly when the head is where it was seen, and takes the values published there |
| `SpmcNetwork.ProducerHandsOver` | src/spmc/const_bounded.rs:319-350 | what the producer took goes to its caller, or rotated and before the values that overflowed to the receiver |
| `SpmcNetwork.PublicationAppends` | src/spmc/const_bounded.rs:671-687 | the publication of a bulk store appends what was stored behind the tail, and all of it counts as pushed |
| `BatchReceiver.MutexVecQueue.PushManyAndOne` | src/mutex_vec_queue.rs:85-87 | while other threads append and take values, the slices and the value go into the queue as one piece, in this order, once, and stay one piece |
| `BatchReceiver.MutexVecQueue.PushManyAndSlice` | src/mutex_vec_queue.rs:81-83 | the same for three slices |
| `Overflow.BatchIsExactIff` | src/spmc/const_bounded.rs:319-342 | the slices of an overflow span exactly the positions the head moves over exactly when the capacity is even or the head lies in the lower half; otherwise one position more |
| `Overflow.OverflowConservesIff` | src/spmc/const_bounded.rs:319-350 | the receiver gets exactly the values that the queue gives up under the same condition |
| `Overflow.BulkOverflowFitsIff` | src/spmc/const_bounded.rs:403-408 | for every capacity: every state that leads to a bulk overflow has the whole batch published exactly for slices of at most half of the capacity and one |
| `Overflow.NeverDropsIff` | src/spmc/const_bounded.rs:557-573 | for every capacity: a lock-free bulk overflow that loses its exchange has room for the slice in every state and for every loss exactly for slices of at most one value |
| `Overflow.SlicesAreRange` | src/spmc/const_bounded.rs:322-350 | the two slices, the left one first, are the values of the batch positions, rotated, whatever the array holds |
| `SpmcProducer.SlicesAreBatch` | src/spmc/const_bounded.rs:322-350 | taken from a sound queue the two slices, the left one first, are the oldest published values, rotated |
| `SpmcProducer.EvenBatchConserves` | src/spmc/const_bounded.rs:319-350 | at an even capacity the batch and what comes with it are the values that the head moves over and what comes with them |
| `PushTest.TestIsSafeIff` | src/spmc/unbounded.rs:549-562 | either test of a push, `==` or `>=`, protects the oldest value, whatever consumers do, exactly when at most a capacity lies behind the cached head or less than a capacity behind a head that was observed |
| `PushTest.StaleAfterPop` | src/spmc/unbounded.rs:428-465 | a full queue, a bulk pop that leaves the cached head and as many values stored in place of those popped make both pushes unsafe: the next one stores over the oldest value |
| `PushTest.PushIsSafeIff` | src/spmc/const_bounded.rs:584-602 | the push that overflows protects the oldest value under the same condition, for every head that its load and its exchange meet |
| `PushTest.LostRaceMakesNextPushUnsafeIff` | src/spmc/const_bounded.rs:354-366 | a push that loses the race for its overflow is safe itself; the push after it is unsafe exactly when the race was lost by one element |
| `PushTest.FullAndStaleIsReached` | src/spmc/const_bounded.rs:354-366 | with capacity 2 and one element taken by a consumer the fourth push stores over an unread element |
| `SpmcProducer.ReadsLog` | src/spmc/const_bounded.rs:250-277 | the live slots of a sound queue read as the published values |
| `SpmcProducer.SpmcBoundedQueue.constructor` | src/spmc/const_bounded.rs:79-88 | an empty, sound queue over arbitrary memory |
| `SpmcProducer.SpmcBoundedQueue.ProducerLen` | src/spmc/const_bounded.rs:153-159 | the length seen at one load of the head; the cached head is fresh afterwards |
| `SpmcProducer.SpmcBoundedQueue.ProducerPop` | src/spmc/const_bounded.rs:168-208 | takes the oldest value that no consumer took, once; `None` only when nothing is left; the loop ends |
| `SpmcProducer.SpmcBoundedQueue.ProducerPopMany` | src/spmc/const_bounded.rs:217-288 | takes the oldest values in order, as many as are asked for or as lie behind the claimed head, whichever is less; nothing only when nothing is asked or left; the loop ends |
| `SpmcProducer.SpmcBoundedQueue.PushUnchecked` | src/spmc/const_bounded.rs:296-304 | publishes one value at the tail |
| `SpmcProducer.SpmcBoundedQueue.HandleOverflowOne` | src/spmc/const_bounded.rs:309-370 | if the exchange meets the expected head, the receiver gets a batch of oldest values and the new one in one piece, at an even capacity exactly what the head moves over; otherwise the queue gets the value; never both |
| `SpmcProducer.SpmcBoundedQueue.HandleOverflowMany` | src/spmc/const_bounded.rs:375-442 | for a slice of any length, after any number of failed exchanges: the queue gets the slice, or one piece of batch and slice is handed over, and its batch is the oldest values whenever these are published |
| `SpmcProducer.SpmcBoundedQueue.HandleLockFreeOverflowOne` | src/spmc/const_bounded.rs:449-506 | the same without waiting: a locked receiver gives `Err`, and nothing was claimed, published or handed over |
| `SpmcProducer.SpmcBoundedQueue.HandleLockFreeOverflowMany` | src/spmc/const_bounded.rs:513-576 | the same for a slice of any length; after `Ok` somebody has the slice exactly when the exchange succeeded or the slice fits behind the head that it met |
| `SpmcProducer.SpmcBoundedQueue.ProducerPush` | src/spmc/const_bounded.rs:584-602 | from every state in which a push is safe the value ends up in exactly one place, which `PushPathOf` decides for the heads met; tail, cached head and observed head are those of `AfterPush` |
| `SpmcProducer.SpmcBoundedQueue.ProducerLockFreePush` | src/spmc/const_bounded.rs:611-634 | the same, with `Err` only when the receiver is locked and the queue was full at the load |
| `SpmcProducer.SpmcBoundedQueue.ProducerMaybePush` | src/spmc/const_bounded.rs:642-662 | `Err` only when the load of the head finds the queue full; otherwise the value is published |
| `SpmcProducer.SpmcBoundedQueue.ProducerPushManyUnchecked` | src/spmc/const_bounded.rs:671-687 | publishes both slices in order, given the room |
| `SpmcProducer.SpmcBoundedQueue.ProducerPushMany` | src/spmc/const_bounded.rs:695-718 | a slice of any length ends up whole in the queue, or whole in the receiver behind a batch; the queue stays sound whenever half of a capacity was published, as it is for every slice within the bound |
| `SpmcProducer.SpmcBoundedQueue.ProducerLockFreePushMany` | src/spmc/const_bounded.rs:727-757 | the same without waiting; `Err` only when a load of the head, not before the call, leaves too little room and the receiver is locked; after `Ok` the slice is dropped exactly when the exchange was lost and it does not fit behind the head met, which cannot happen for at most one value |
| `SpmcProducer.SpmcBoundedQueue.ProducerMaybePushMany` | src/spmc/const_bounded.rs:765-786 | `Err` only when the load of the head leaves too little room; otherwise the slice is published |
| `SpmcProducer.SpmcBoundedQueue.ProducerCopyAndCommitIf` | src/spmc/const_bounded.rs:798-822 | stores the second slice first and publishes both or nothing, as the condition says |
| `SpmcProducer.SpmcBoundedQueue.CasHead` | src/spmc/const_bounded.rs:337-342 | one exchange on the head under interference: it claims exactly once or reports a head that was reached |
| `SpmcConsumer.CopyOptimistically` | src/spmc/const_bounded.rs:876-895 | element by element against a storing producer: right in every element if the head has not moved by the end |
| `SpmcConsumer.ConsumerPopMany` | src/spmc/const_bounded.rs:852-915 | under any interference it returns the values published at a range of positions that it alone claimed, as many as there is space for or as a load of the tail in the call promised, whichever is less; so nothing only when nothing was asked or all published before the call was claimed; it ends when finitely much is published |
| `SpmcConsumer.StealOne` | src/spmc/const_bounded.rs:806-811 | one element of the copy into the free slots of the destination keeps everything copied so far |
| `SpmcConsumer.AttemptSteal` | src/spmc/const_bounded.rs:974-995 | publishes the loot behind the own tail exactly if the exchange succeeds; otherwise the destination is as it was and the head has moved |
| `SpmcConsumer.Steal` | src/spmc/const_bounded.rs:923-997 | moves exactly half of the length seen at the last look at the counters of the source, rotated, to the end of the own queue, or nothing when that half is less than the minimum; it ends when finitely much is published |
| `SpmcUnbounded.ConsumerStepOk` | src/spmc/unbounded.rs:763-948 | every step of a pop or steal keeps what the consumer knows, with an older, newer or just replaced version |
| `SpmcUnbounded.ProducerStepOk` | src/spmc/unbounded.rs:170-682 | every step of the producer, growth included, keeps the shared state sound and only grows what consumers rely on |
| `SpmcUnbounded.Run` | src/spmc/unbounded.rs:763-948 | every run of the producer and any number of consumers keeps the invariant under which the theorems below hold, and counters, ids and versions only grow |
| `SpmcUnbounded.ReadSafety` | src/spmc/unbounded.rs:763-838 | in every reached state the exchange from `head` to `head + n` succeeds exactly when the head has not moved, and then the copied values are the published ones at these positions (rotated for a steal), at most a capacity of the cached version, and as many as the counters loaded say: all that is asked for or there for a pop, half of what is there or what fits for a steal; a pop delivers them and a thief has them in hand; otherwise nothing changes |
| `SpmcUnbounded.VersionsGrow` | src/spmc/unbounded.rs:299-337 | the cell is at most one version ahead of the published id, ids only grow and capacities strictly |
| `SpmcUnbounded.UpdateDelivers` | src/spmc/unbounded.rs:102-136 | an update triggered by published id `I` ends with the newest version, newer than the own one and of id at least `I`, whose buffer has every unclaimed value below the tail published with `I` |
| `SpmcUnbounded.ThiefDelivers` | src/spmc/unbounded.rs:934-938 | what a thief has in hand is delivered when the destination publishes it |
| `SpmcUnbounded.SafeRun` | src/spmc/unbounded.rs:545-563 | if every push of a run is called in a state in which it is safe, the run stores over nothing |
| `SpmcUnbounded.PushLosesIff` | src/spmc/unbounded.rs:545-563 | with the head where the producer observed it, the call of a push, with either test, can be continued to a store over an element that nobody took exactly when it is not safe |
| `SpmcUnbounded.Conservation` | src/spmc/unbounded.rs:340-948 | in every run, up to the first store over an element that nobody took: published equals unclaimed, taken by the producer and not handed over, in the hands of thieves, and delivered, as multisets; with pushes that are safe when called there is no such store |
| `SpmcUnbounded.CallsEnd` | src/spmc/unbounded.rs:771-837 | each step of a call ends it or lowers a lexicographic measure that other consumers never raise |
| `SpmcUnbounded.RetriesBounded` | src/spmc/unbounded.rs:790-835 | a call has started over at most as often as values were claimed |
| `SpmcUnbounded.OutdatedUpdates` | src/spmc/unbounded.rs:771-781 | after its load of the word a consumer goes for a newer version exactly if its own is older than the published one |
| `SpmcUnbounded.StealDecides` | src/spmc/unbounded.rs:884-902 | with a version that is new enough a steal goes for `min((tail - head) / 2, room)` values exactly if that half is something, at least the minimum and at most half of the version; it starts over exactly if it is more, and is over exactly if it is nothing or less than the minimum |
| `SpmcUnbounded.PopDecides` | src/spmc/unbounded.rs:783-799 | a pop goes for `min(max, tail - head)` values exactly if that is something and at most the version holds, starts over exactly if it is more, and is over exactly if nothing was asked or the loaded tail is the loaded head |
| `SpmcUnbounded.EndsOnly` | src/spmc/unbounded.rs:763-948 | a call ends only by that decision, by a refusal of the version cell to a consumer that is behind, by the exchange of a pop that wins, or by the publication of a thief |
| `SpmcUnbounded.LostExchangeRetries` | src/spmc/unbounded.rs:821-836 | a lost exchange goes back to the load of the word with the head that it met, which is larger |
| `SpmcUnbounded.CallsGoOn` | src/spmc/unbounded.rs:763-948 | until it ends a call stays what it is, and works from the head as it is at its load |
| `SpmcUnbounded.PushDecides` | src/spmc/unbounded.rs:545-563 | a push loads the head exactly if its test says full, stores in place exactly if the test does not fire or the head has moved, and otherwise leaves its value to the growth |
| `SpmcUnbounded.GrowthInstalls` | src/spmc/unbounded.rs:237-302 | at its end a growth has added a version of the capacity of the new buffer, larger than the one before, in which every value that nobody took is in its place |
| `SpmcUnbounded.PublicationAppends` | src/spmc/unbounded.rs:611-637 | a publication appends what was stored behind the tail, and all of it is then in the newest, published version |
| `SpmcUnbounded.ProducerTakes` | src/spmc/unbounded.rs:399-471 | the exchange of the producer on its own head wins exactly when the head is where it was seen, and takes the values published there |
| `SpmcUnbounded.ProducerHandsOver` | src/spmc/unbounded.rs:435-465 | once it has copied them out it hands over exactly these |
| `UnboundedNetwork.Step` | src/spmc/unbounded.rs:860-948 | every step of any number of unbounded queues, producers, consumers and thieves that steal between them keeps every queue sound and what every thief knows |
| `UnboundedNetwork.ThiefWins` | src/spmc/unbounded.rs:904-938 | a thief whose exchange finds the head where it was loaded takes exactly the oldest values of the source, half of what the counters loaded promised or what fits, and has these, rotated, in hand; its own queue does not change |
| `UnboundedNetwork.LootArrives` | src/spmc/unbounded.rs:934-938 | whatever other threads do before the publication, the queue of the thief then ends with exactly these values |
| `UnboundedNetwork.Conservation` | src/spmc/unbounded.rs:340-948 | across any number of unbounded queues and steals between them, in every run up to the first store over an element that nobody took: pushed equals present in the queues, held, in the hands of thieves, and popped, as multisets |
| `UnboundedNetwork.SafePushesLoseNothing` | src/spmc/unbounded.rs:545-563 | with pushes that are safe when called no queue stores over an element |
| `UnboundedNetwork.StealStarts` | src/spmc/unbounded.rs:860-902 | a steal is called with the room behind the tail of the destination: all of its capacity when that is empty |
| `UnboundedProducer.RecomputedTailIff` | src/spmc/unbounded.rs:257-297 | the tail recomputed by growth is the old tail exactly when the positions from the cached head on fit into the old buffer: empty, contiguous, wrapped or exactly full |
| `UnboundedProducer.PiecesAreLive` | src/spmc/unbounded.rs:257-282 | the copied pieces are the values at these positions, in order |
| `UnboundedProducer.GrowthKeepsQueue` | src/spmc/unbounded.rs:257-297 | the new buffer has the same value at every position |
| `UnboundedProducer.StaleGrowthLosesTail` | src/spmc/unbounded.rs:257-297 | growth from a cached head that a bulk pop of `n` values left behind, after these were replaced, computes the position of the oldest value for the tail, a whole capacity short |
| `UnboundedProducer.RefillAfterPop` | src/spmc/unbounded.rs:399-472 | a full queue, a bulk pop and an unchecked push of as many values lead to a state in which growth from the cached head is wrong and, unless consumers took more meanwhile, neither push is safe |
| `UnboundedProducer.UnboundedQueue.constructor` | src/spmc/unbounded.rs:82-90 | an empty, sound queue of one version |
| `UnboundedProducer.UnboundedQueue.ProducerLen` | src/spmc/unbounded.rs:184-193 | the length seen at one load of the head, at most the capacity |
| `UnboundedProducer.UnboundedQueue.CreateNewVersion` | src/spmc/unbounded.rs:237-302 | installs a larger version that reads the same from the given head on; the tail stays, and nothing is published yet |
| `UnboundedProducer.UnboundedQueue.ProducerReserve` | src/spmc/unbounded.rs:312-338 | grows from the cached head without changing the contents |
| `UnboundedProducer.UnboundedQueue.StoreWord` | src/spmc/unbounded.rs:334-335 | one store publishes the values behind the tail together with the version they are in |
| `UnboundedProducer.UnboundedQueue.HandleOverflow` | src/spmc/unbounded.rs:504-536 | after growth by no doubling too many all values are appended in order, with room to spare |
| `UnboundedProducer.UnboundedQueue.ProducerPush` | src/spmc/unbounded.rs:545-563 | from every state in which a push is safe it appends the value, in place or by one larger version exactly as `StoresInPlace` says for the head that its load meets, and refreshes the cached head exactly if it loaded |
| `UnboundedProducer.UnboundedQueue.ProducerPushMany` | src/spmc/unbounded.rs:611-637 | always appends the slice, of any length; it grows exactly if the slice does not fit behind the last head met, and by no doubling too many |
| `UnboundedProducer.UnboundedQueue.ProducerPushManyUnchecked` | src/spmc/unbounded.rs:571-603 | publishes both slices in order, given the room |
| `UnboundedProducer.UnboundedQueue.ProducerCopyAndCommitIf` | src/spmc/unbounded.rs:649-681 | stores the second slice first and publishes both or nothing |
| `UnboundedProducer.UnboundedQueue.ProducerPop` | src/spmc/unbounded.rs:346-390 | takes the oldest unclaimed value, once; `None` only when nothing is left; the loop ends |
| `UnboundedProducer.UnboundedQueue.ProducerPopMany` | src/spmc/unbounded.rs:399-471 | takes the oldest values in order, as many as are asked for or as lie behind the claimed head, whichever is less; nothing only when nothing is asked or left; the loop ends; a pop that takes something leaves the cached head where it was |
| `UnboundedProducer.UnboundedQueue.CasHead` | src/spmc/unbounded.rs:428-433 | one exchange on the head under interference |
| `UnboundedProducer.UnboundedQueue.SpscProducerPush` | src/spsc/unbounded.rs:415-433 | the same for the single-consumer queue, whose test is `==` |
| `UnboundedConsumer.UpdateVersion` | src/spmc/unbounded.rs:102-136 | the consumer ends with the newest version, or with its own exactly when its read of the version cell was refused |
| `UnboundedConsumer.CopyOptimistically` | src/spmc/unbounded.rs:801-820 | element by element, while the producer stores, grows and publishes: right in every element if the head has not moved by the end |
| `UnboundedConsumer.CatchUp` | src/spmc/unbounded.rs:772-781 | an outdated consumer gets a strictly newer version, or gives up exactly when its read of the version cell was refused |
| `UnboundedConsumer.Round` | src/spmc/unbounded.rs:783-836 | a round ends with the values from the loaded head on, as many as are asked for or as the loaded tail promised, whichever is less, or starts over from a strictly larger head |
| `UnboundedConsumer.ConsumerPopMany` | src/spmc/unbounded.rs:763-838 | `shouldWait` exactly when a read of the version cell in this call was refused, while the own version was older than a published id that was loaded; otherwise, under any interference, it returns the values published at a range of positions that it alone claimed, as many as are asked for or as a load of the tail in the call promised, whichever is less; so nothing only when nothing was asked or all published before the call was claimed; it ends when finitely much is published and finitely many versions are made |
| `SpscUnbounded.DecideAgrees` | src/spsc/unbounded.rs:640-645 | the capacity check that this consumer leaves out would never have fired: it decides as the many-consumer queue, whose decision is `SpmcUnbounded.PopDecides` and `StealDecides` |
| `SpscUnbounded.NextSimulates` | src/spsc/unbounded.rs:620-752 | each step is at most one step of the many-consumer queue |
| `SpscUnbounded.Refines` | src/spsc/unbounded.rs:620-752 | every run is a run of the many-consumer queue with one consumer |
| `SpscUnbounded.NeverOverruns` | src/spsc/unbounded.rs:640-664 | the consumer never copies more than the capacity of its version or past the tail, and all it has copied is right |
| `SpscUnbounded.SafePushesLoseNothing` | src/spsc/unbounded.rs:415-433 | with pushes that are safe when called no run stores over an element |
| `SpscUnbounded.Fifo` | src/spsc/unbounded.rs:620-668 | across any number of growths, popped followed by present in the newest buffer equals pushed, in order |
| `SpscUnbounded.Conservation` | src/spsc/unbounded.rs:690-752 | with steals as well: handed over, in the hands of the thief, and present equal pushed, as multisets |
| `SpscUnbounded.StealDecides` | src/spsc/unbounded.rs:710-721 | with a version that is new enough a steal goes for `min((tail - head) / 2, room)` values exactly if that half is something and at least the minimum, and is over otherwise |
| `SpscUnbounded.PopDecides` | src/spsc/unbounded.rs:640-645 | a pop goes for `min(max, tail - head)` values, and is over exactly if nothing was asked or the queue is empty |
| `SpscUnbounded.EndsOnly` | src/spsc/unbounded.rs:620-752 | a call ends only by that decision, by a refusal of the version cell to a consumer that is behind, by the store of the head of a pop, or by the publication of a thief |
| `SpscBounded.NextKeepsInv` | src/spsc/const_bounded.rs:168-406 | every step of either side keeps the invariant |
| `SpscBounded.CountersInOrder` | src/spsc/const_bounded.rs:57-63 | in every run, up to the first store over an element that was not popped, `cached_head <= head <= cached_tail <= tail <= head + CAPACITY` |
| `SpscBounded.Fifo` | src/spsc/const_bounded.rs:306-344 | in every interleaving popped followed by present equals pushed, in order |
| `SpscBounded.Conservation` | src/spsc/const_bounded.rs:356-406 | with steals as well: popped and present equal pushed, as multisets |
| `SpscBounded.HandsOverOldest` | src/spsc/const_bounded.rs:378-403 | a pop or steal hands over the `n` oldest values, in order or rotated, and moves the head over exactly these |
| `SpscBounded.RefusedIff` | src/spsc/const_bounded.rs:172-188 | a push that loaded the head is refused exactly when the queue has too little room at that moment; a single push if it was safe to call |
| `SpscBounded.SafePushesLoseNothing` | src/spsc/const_bounded.rs:168-188 | with single pushes that are safe when called no run stores over an element |
| `SpscBounded.PushLosesIff` | src/spsc/const_bounded.rs:168-188 | in a full queue the steps of `maybe_push` lead to a store over the oldest element exactly when the call is not safe |
| `SpscBounded.EmptyIff` | src/spsc/const_bounded.rs:310-322 | a pop that loaded the tail returns nothing exactly when the queue is empty at that moment or nothing was asked |
| `SpscBounded.StartDecides` | src/spsc/const_bounded.rs:310-322 | a pop loads the tail exactly if the cached one promises less than was asked for, and a steal always; otherwise it goes for what was asked |
| `SpscBounded.LoadDecides` | src/spsc/const_bounded.rs:310-374 | after its load a steal goes for half of what is there exactly if that is something and at least the minimum, and a pop for what is asked or there |
| `SpscBounded.CallsCarry` | src/spsc/const_bounded.rs:168-278 | a call of a push goes to its store or to a load of the head exactly as the cached head says, and carries what it was given; an unchecked push carries the first slice before the last one, `copy_and_commit_if` the last one first |
| `SpscBounded.NoPushForgets` | src/spsc/const_bounded.rs:168-278 | each step of a push keeps what it was given, publishes it, or refuses it after a load that leaves too little room |
| `SpscBounded.SpscBoundedQueue.constructor` | src/spsc/const_bounded.rs:69-79 | an empty, sound queue |
| `SpscBounded.SpscBoundedQueue.ProducerLen` | src/spsc/const_bounded.rs:138-144 | the length at one load of the head |
| `SpscBounded.SpscBoundedQueue.ProducerMaybePush` | src/spsc/const_bounded.rs:168-188 | `Err` only when the load of the head, which is not before the call, finds the queue full; otherwise the value is published; from every state in which it is safe |
| `SpscBounded.SpscBoundedQueue.ProducerMaybePushMany` | src/spsc/const_bounded.rs:221-242 | `Err` only when that load leaves too little room; otherwise the slice is published |
| `SpscBounded.SpscBoundedQueue.ProducerPushManyUnchecked` | src/spsc/const_bounded.rs:197-213 | publishes both slices in order, given the room |
| `SpscBounded.SpscBoundedQueue.ProducerCopyAndCommitIf` | src/spsc/const_bounded.rs:254-278 | stores the second slice first and publishes both or nothing |
| `SpscBounded.SpscBoundedQueue.ConsumerLen` | src/spsc/const_bounded.rs:291-297 | the length at one load of the tail |
| `SpscBounded.SpscBoundedQueue.ConsumerPopMany` | src/spsc/const_bounded.rs:306-344 | takes the oldest values in order while the producer goes on; fewer than asked only when there were no more at a load of the tail during the call |
| `SpscBounded.SpscBoundedQueue.StealInto` | src/spsc/const_bounded.rs:356-406 | while the other sides of both queues go on, moves exactly half of the length seen at the load of the tail to the end of the other queue, rotated, or nothing when that half is less than the minimum |

## Left out

- Memory orderings: steps interleave sequentially consistently; `Acquire`, `Release`, `Relaxed` and the feature for untested orderings are not modelled.
- Counters in the transition systems other than `MpmcWords` do not wrap, as the code assumes no ABA across a full wrap; `Counters` carries the tests over.
- Versions are numbered and never freed: reclamation, `LightArc` counts, `Drop` and `mem::forget` are not modelled, and values are copyable. The lock that counts readers in an `i32` and 32-bit capacities and ids do not overflow here.
- Weak compare-and-exchange fails spuriously at most a given number of times per call in the methods, and without bound in the transition systems.
- Linearizability of the MPMC `pop`: `None` is possible while a later ticket is published; `PopAnswers` and `NoneMeans` say when.
- MPMC `pop_many` and `steal_into`: loops around `pop`.
- `consumer_len` of the multi-consumer queues: an observation only; in the unbounded queue it may exceed the capacity.
- SpmcNetwork.Accounting: a run ends with the first store over an element that nobody took, and an overflow that does not find its whole batch published is not a step, because the code may then move the head past the tail (`BulkOverflowFitsIff`); a slice that the lock-free form drops (`NeverDropsIff`) was never pushed there.
- SpmcNetwork.Conservation: a steal starts with room for half of the source in the destination, and not from the own queue; the code asks for an empty destination and leaves the room to the caller, except that the unbounded `steal_into` takes at most the destination's capacity.
- SpmcUnbounded.Conservation: growth from a cached head that is too far behind is not a step (`RecomputedTailIff`), and the bulk stores need room; after a store over an element the machine, in which the push waits, says nothing about the code.
- UnboundedNetwork.Conservation: steals are between unbounded queues; from a bounded into an unbounded queue or back each side is modelled on its own.
- SpmcConsumer.ConsumerPopMany: the producer that runs beside the consumer stores only while there is room, and so does that of `UnboundedConsumer.ConsumerPopMany`.
- SpmcUnbounded.ConsumerStepOk: the steal from an unbounded queue, like the MPMC loops and the version cell, is a transition system over values with a program counter per thread, not a method over arrays.
- SpmcUnbounded.PushDecides: a push that finds its version full ends in this machine, and goes on as a growth, a bulk store of its value and a publication; that one call does all of it is what `UnboundedProducer` shows of the code.
- SpmcUnbounded.UpdateDelivers: the version cell answers with a whole value or not at all in one step, which `VersionCell` shows of its lock.
- SpmcProducer.SpmcBoundedQueue.ProducerPushMany: once an overflow of too long a slice has moved the head past the tail, nothing is said about the queue any more.
- SpscBounded.SpscBoundedQueue.StealInto: the copies move in bulk; the element-by-element interleaving is in the transition system of the same module.
- BatchReceiver.MutexVecQueue.PushManyAndOne: the queue behind the mutex is a sequence, and other threads' calls are appends and removals at its front.
- The build without power-of-two capacities, beyond `GreaterCapacityAny`.
- `std::sync` and quiescent-state cells as version cells, backoff and blocking `write`.
- Producer and consumer wrappers, trait plumbing, generic default steals, cache padding, the fallback atomics, the barrier and the benchmarks.
