# Verified model of the VDIF receiver

A Dafny model of the receiver pipeline: packets become numbered batches, batches pass
through lock-free single-producer single-consumer queues to a spectrometer or a baseband
recorder, and results and recordings leave with exact times and exact contents. Run
`dafny verify dfyconfig.toml` to verify the project.

How the parts fit together:

- **Queues.** `Semaphore`, `CircularBuffer` and `BlockQueue` (with `BlockRing`,
  `BlockQueueSafety`, `BlockQueueConstruction`, `BlockQueueExact`, `BlockQueueZero`) are step systems with one
  program counter per thread and one step per atomic operation. An action sequence is an
  interleaving; every theorem is over all action sequences. `CircularBuffer` is composed of
  two `Semaphore`s and an array, so its interleavings include every step inside the
  semaphores.
- **Batches.** `BatchAssembly` gives the receive loop as functions, `Receiver` the loop
  itself as a class proved to compute them. `BatchAcceptance` says which packets count
  without mentioning the loop's variables, `BatchCorrectness` proves the refinement, and
  `HeaderOrigin` where headers come from. `BatchPool` is the layout of the pools, and
  `BatchPipeline` runs the receiver, the queue's internals and the consumer together, for
  the ownership of pool slots and of packet memory, with a consumer that writes into the
  batch it holds.
- **Spectrometer.** `Alignment` is the join of two polarizations and the invalid-block
  countdown, `EndToEnd` ties its outputs to packets, `Pfb` is the filter-bank ring,
  `NoiseCycle` the blanking, `Integration` and `Accumulators` the integrations, `HostRing`
  the hand-over to the sender, `Timing`, `VdifTime` and `ResultTime` the timestamps. Three
  modules compose them: `Observation` goes from the raw packets of two polarizations to the
  blocks and times of every published result, `Spectra` from the samples of those packets to
  its contents, and `Delivery` from the blocks to what the sender sends.
- **Baseband and codecs.** `BitFields` and `Vdif` are the frame header, `BasebandFrames` the
  headers of assembled batches, `Quantize` and `Decode` the sample codecs, `Recorder`,
  `FrameReader` and `Recording` the files and their reader, `Crc32c` the transport checksum.
  `Bits`, `Units` and `Storage` hold what several of them share.

Behaviour worth knowing that the proofs brought out:

- A `ReaderWriterQueue` works exactly for sizes from 1 up to, and not including, 2^63
  (`QueueWorksExactly`). Size 0 starts with a one-slot block that can hold nothing, and after
  the queue has grown the consumer's assertion on the next block fails (`SizeZeroFails`);
  from 2^63 on the rounded block size wraps to zero and the first enqueue writes outside the
  block (`SlotlessFails`).
- The circular buffer works exactly for capacities below 2^63 whose rounded size, in bytes of
  the element type with its alignment padding, is below 2^64 (`BufferWorksExactly`). From
  2^63 on the semaphore's count of free places is negative, its constructor's assertion
  fails, and an enqueue is refused with nothing in the buffer (`RefusedAtOnce`); below it, a
  byte count that wraps leaves too few cells and some enqueue writes outside them
  (`FewCellsFail`). For the receiver's elements of 8 bytes that begins at capacity 2^60 + 1.
- `LightweightSemaphore::signal(0)` is accepted by its assertion, but issued while a thread
  waits in the kernel it lets that thread through without a permit, or leaves a post behind
  after the wait has failed; and a signal that takes the signed 64-bit count past 2^63 - 1
  makes it negative. A semaphore is safe under a list of signals exactly when none of them
  adds zero and they and the initial count add up to less than 2^63 (`SafeExactly`); within
  that bound failed waits leave no trace exactly when no signal adds zero
  (`InvisibleExactly`). The circular buffer only signals 1, and stays within its capacity.
- `is_noise_blank` measures times before the start of its cycle from a machine word later.
  Whatever the start, it is exact at all times exactly when the period divides 2^64
  (`BlankIsExactExactly`), which a period of whole milliseconds never does
  (`WholeMillisecondsDoNot`). A folded leap second brings such times about: with the default
  cycle, packets of the leap second before 2017-01-01 stamped within the guard of a
  transition are not blanked (`LeapSecondGoesUnblanked`). A period below a nanosecond makes it
  divide by zero.
- The C++ header puts Invalid at bit 30 and Legacy at bit 31; the Python reader has them the
  other way round (`InvalidReadAsLegacy`). The reader therefore stops, with its
  legacy-header error, at the first frame the receiver filled in (`RecordingIsRead`).
- The first aligned pair after skipping blocks is treated as invalid even when both batches
  are complete, so "the last num_taps aligned blocks are complete" is not quite the
  condition for a valid output; `ValidMeansEveryPacket` states the exact one.
- A full host ring loses the oldest waiting result (`FullRingLosesOldest`), and without
  calibration changes its start time even earlier (`EarlyStartChangesOldest`).

## Model

| member | source | states |
|---|---|---|
| `BlockQueueSafety.QueueOfBlocksIsFifo` | include/readerwriterqueue.h:285-644 | in every interleaving of loads and stores the internal assertions hold, no raw slot is read, what is received is a prefix of what was sent and is what the dequeue calls returned, "nothing there" means the queue was empty during the call, and a refused enqueue began with at least the built capacity queued |
| `BlockQueueSafety.ArgumentIsSent` | include/readerwriterqueue.h:535-644 | an enqueue call adds its own argument, once, exactly when it reports success, and a refusal reports the length the call began with |
| `BlockQueueSafety.ResultIsReceived` | include/readerwriterqueue.h:285-376 | every element taken out is returned by one dequeue call, and a call that reports nothing has seen the queue empty |
| `BlockQueueSafety.ProducerKeeps` | include/readerwriterqueue.h:535-644 | every producer step, block growth included, keeps the invariant of both threads |
| `BlockQueueSafety.ConsumerKeeps` | include/readerwriterqueue.h:285-376 | every consumer step, moving on to the next block included, keeps the invariant of both threads |
| `BlockQueueSafety.RunKeeps` | include/readerwriterqueue.h:535-644 | the invariant over every run |
| `BlockQueueExact.QueueWorksExactly` | include/readerwriterqueue.h:105-376 | over every history from construction the queue is correct and refuses nothing below the requested size, if and only if that size is at least one and below 2^63 |
| `BlockQueueExact.SlotlessFails` | include/readerwriterqueue.h:552-560 | a block of no slots is written to by the first enqueue |
| `BlockQueueConstruction.New` | include/readerwriterqueue.h:105-161 | the constructor's circle of blocks for every size a word can hold, the wrap of size + 1 and of its rounding included |
| `BlockQueueConstruction.BuiltInv` | include/readerwriterqueue.h:105-161 | for sizes from one to 2^63 - 1 the constructed queue satisfies the invariant with that size as guaranteed capacity |
| `BlockQueueConstruction.ReserveBlocks` | include/readerwriterqueue.h:116-155 | the allocation loop builds a circle of empty blocks |
| `BlockQueueConstruction.EnoughBlocks` | include/readerwriterqueue.h:118-126 | the number of blocks reserved leaves room for the requested elements with one block to spare |
| `BlockQueueZero.SizeZeroFails` | include/readerwriterqueue.h:340-352 | for every maximal block size and element, from the state built for size zero some run fails the consumer's assertion |
| `BlockQueue.Push` | include/readerwriterqueue.h:552-570 | writing beyond the tail and publishing it appends one element to a block |
| `BlockQueue.Pop` | include/readerwriterqueue.h:308-330 | reading the front and publishing it removes the first element of a block |
| `BlockRing.LinkBlock` | include/readerwriterqueue.h:604-632 | linking a new block behind the tail keeps the ring and its contents |
| `BlockRing.AdvanceFront` | include/readerwriterqueue.h:335-368 | moving the front past a drained block keeps the contents |
| `Bits.CeilToPow2` | include/readerwriterqueue.h:654-666 | the least power of two not below the argument, or zero exactly when that does not fit a word or the argument is zero |
| `Bits.RoundUpMask` | include/readerwritercircularbuffer.h:34-51 | one less than the least power of two not below the capacity |
| `Bits.SmearStep` | include/readerwritercircularbuffer.h:42-47 | or-ing a word with its shift doubles the run of ones at its top |
| `Semaphore.SafeExactly` | include/atomicops.h:672-756 | for every initial count and list of signals, in every interleaving that calls them no assertion fails, the count stays at or above -1, successful waits never exceed initial count plus signals, and the kernel semaphore holds at most the post it owes, if and only if every signal adds at least one and with the initial count they stay below 2^63 |
| `Semaphore.InvisibleExactly` | include/atomicops.h:678-756 | within that bound, waits that return false leave everything as if never made, in every interleaving of signals drawn from a set of counts, if and only if the set does not hold zero |
| `Semaphore.EmptySignalOveracquires` | include/atomicops.h:747-756 | for every initial count and earlier signals, a run from a new semaphore in which signal(0) lets a thread through without a permit |
| `Semaphore.OverflowWraps` | include/atomicops.h:747-756 | a signal that takes the signed count past its word ends the safety of the semaphore |
| `Semaphore.EmptySignalLeavesPost` | include/atomicops.h:694-756 | a run from a new semaphore in which signal(0) during a failed wait leaves the kernel semaphore posted |
| `Semaphore.ReachesKernel` | include/atomicops.h:684-703 | with nothing to take, a wait spins out and enters the kernel with the count at -1 |
| `CircularBuffer.CircularBufferIsBoundedFifo` | include/readerwritercircularbuffer.h:99-287 | in every interleaving no live element is overwritten and no destroyed one read, neither semaphore's assertion fails, order is kept, a dequeue call returns the element it took, at most maxcap elements are held, an enqueue is refused only when full and a dequeue only when nothing is on offer |
| `CircularBuffer.ArgumentIsStored` | include/readerwritercircularbuffer.h:272-278 | an enqueue call stores its own argument, once, and nothing else is ever stored |
| `CircularBuffer.ResultIsTaken` | include/readerwritercircularbuffer.h:280-288 | every element taken out is returned by its own dequeue call |
| `CircularBuffer.BufferWorksExactly` | include/readerwritercircularbuffer.h:34-287 | for every capacity and every element size and alignment, the constructed buffer is a bounded queue of its capacity in every interleaving, if and only if that capacity is below 2^63 and the bytes of its rounded size below 2^64 |
| `CircularBuffer.FewCellsFail` | include/readerwritercircularbuffer.h:48-49 | a buffer with fewer cells than places is written outside them by a run of enqueues and dequeues |
| `CircularBuffer.CellsExactly` | include/readerwritercircularbuffer.h:48-49 | the allocation has a cell for every place of the rounded size when its bytes do not wrap, and fewer when they do |
| `CircularBuffer.RefusedAtOnce` | include/readerwritercircularbuffer.h:36-48 | from 2^63 up the constructor's assertion fails and the first enqueue is refused on an empty buffer |
| `CircularBuffer.New` | include/readerwritercircularbuffer.h:34-51 | the constructor's buffer for every capacity a word can hold and every element layout: the mask, the count cast to a signed word, the rounded size and the byte count wrapping |
| `CircularBuffer.IndexIsPlace` | include/readerwritercircularbuffer.h:272-287 | a wrapped 64-bit counter, masked, is the unbounded counter modulo the array |
| `BatchCorrectness.BatchAssemblyIsExact` | src/dpdk.cpp:439-580 | for every stream: consecutive batch numbers, accepted plus lost equals expected minus first, late packets and loss events counted, every batch handed over exact, its first header and noise state those of the packet leading it (the first taken of the batch or, failing that, of the latest one before), pool slots in round-robin order and unchanged until reused |
| `BatchCorrectness.FinalizedOk` | src/dpdk.cpp:292-311 | a finalized batch is valid exactly when all its packets arrived, and in baseband mode its missing frames are zero voltage under copies of the first header, dated and marked invalid |
| `BatchCorrectness.PreparedOk` | src/dpdk.cpp:280-290 | preparing a reused slot gives an empty batch in which no stale packet number can be mistaken and whose first header and noise state are those of the leading packet |
| `BatchCorrectness.StoredOk` | src/dpdk.cpp:547-597 | storing the next packet keeps count, numbers and contents exact, and the first packet of a batch takes over its first header and noise state |
| `BatchCorrectness.RemembersNext` | src/dpdk.cpp:280-290 | the template and noise state remembered stay those of the leading packet across batches of which nothing arrives |
| `BatchAcceptance.LeaderIsUnique` | src/dpdk.cpp:567-579 | exactly one packet leads a batch |
| `BatchCorrectness.FirstBatchOk` | src/dpdk.cpp:458-474 | the same for the first packet, on untouched storage whose numbers are all zero |
| `HeaderOrigin.ReceiveAllFrom` | src/dpdk.cpp:280-290 | any property of headers that all packets have and that stamping, formatting and marking keep holds of the first header of every batch handed over |
| `BatchAcceptance.AcceptedGreatest` | src/dpdk.cpp:458-505 | the packets taken, defined as those that overtake all since the first aligned one, are increasing and end with the greatest |
| `BatchAcceptance.TakenNext` | src/dpdk.cpp:475-504 | a packet is taken exactly when its number is beyond the last one taken |
| `BatchAcceptance.CountFull` | src/dpdk.cpp:292-296 | a full count means every number of the range is present, and conversely |
| `Receiver.Receiver.OnPacket` | src/dpdk.cpp:439-597 | the loop body computes `BatchAssembly.Receive` |
| `Receiver.Receiver.FinalizeBatch` | src/dpdk.cpp:292-311 | the filling loop computes `BatchAssembly.Finalized` |
| `Receiver.Receiver.PrepareBatch` | src/dpdk.cpp:280-290 | preparation computes `BatchAssembly.Prepared`, noise state and template of the first slot included |
| `Receiver.Receiver.EnqueueAndMoveOn` | src/dpdk.cpp:513-546 | one turn of the advancing loop computes `BatchAssembly.AdvanceOne` |
| `Receiver.Receiver.StorePacket` | src/dpdk.cpp:547-597 | storing computes `BatchAssembly.Store` |
| `Receiver.Receiver.ReceiveStream` | src/dpdk.cpp:339-597 | a whole stream computes `BatchAssembly.ReceiveAll` |
| `BatchPipeline.PipelineIsSafe` | src/dpdk.cpp:513-597 | for any packets and any interleaving of receiver, queue internals and a consumer that overwrites payloads of the batch its dequeue returned: the slot being filled is neither queued nor being read, every batch queued is exactly as handed over and one being read is up to the consumer's own writes, and between packets the loop's accounting and every batch handed over are exact |
| `BatchPipeline.MemoryIsOwned` | src/init.cu:169-226 | in every such run the packet memory being written is disjoint from that of every batch queued or being read, on this stream and any other |
| `BatchPipeline.StepKeeps` | src/dpdk.cpp:513-546 | every step of receiver, queue and consumer, in-place writes included, keeps slots in round-robin order and their contents |
| `BatchPipeline.HalvesMakeTurn` | src/dpdk.cpp:515-545 | handing over and moving on are one turn of the advancing loop |
| `BatchPool.CalcPoolSize` | src/init.cu:114-124 | the most batches the memory budget holds, and never fewer than three |
| `BatchPool.MapStreams` | src/init.cu:147-166 | enabled streams get consecutive distinct pool indices |
| `BatchPool.SlicePool` | src/init.cu:210-228 | the slicing loops give every batch its offset |
| `BatchPool.SlicesDisjoint` | src/init.cu:217-225 | distinct batches share no packet of memory |
| `BatchPool.SliceInside` | src/init.cu:174-178 | every batch lies inside the allocation |
| `Alignment.Worker.Join` | include/DoPFBFFT.hpp:519-530 | the alignment loop ends with the pair of equal batch numbers that is next, and skips blocks only before the first pair |
| `Alignment.Worker.AccumulateOneBlock` | include/DoPFBFFT.hpp:514-563 | an output is valid exactly when num_taps pairs exist and the last num_taps were all good input |
| `Alignment.Worker.ProcessAll` | include/DoPFBFFT.hpp:514-563 | every pair the queues can give is processed, in order |
| `Alignment.WindowIsRun` | include/DoPFBFFT.hpp:559-563 | the countdown reaches zero exactly when the window of good blocks is full |
| `EndToEnd.ValidMeansEveryPacket` | include/DoPFBFFT.hpp:519-563 | an output is valid exactly when every packet of its window arrived on both polarizations and a skipped start has left the window |
| `EndToEnd.ReceiverGivesStream` | src/dpdk.cpp:513-546 | what a receiver enqueues, for any packets, is such a stream |
| `EndToEnd.StreamIsConsecutive` | src/dpdk.cpp:513-546 | its batch numbers are consecutive |
| `Integration.GroupsAreOk` | include/DoPFBFFT.hpp:600-762 | every integration has the accumulation length in valid, unblanked blocks of one state, without an invalid block inside and without leaving one out; integrations of a state follow one another |
| `Integration.NoBlockTwice` | include/DoPFBFFT.hpp:600-762 | no block contributes to two results |
| `Integration.Conservation` | include/DoPFBFFT.hpp:600-762 | between gaps the blocks of a state are the accumulation length times its results plus its counter |
| `Accumulators.EveryResultIsExact` | include/DoPFBFFT.hpp:600-762 | every published result is, term by term, the sum of the powers of one integration over the real numbers, stamped with its first and last block |
| `Accumulators.SumAppend` | include/DoPFBFFT.hpp:66-69 | the accumulation kernel adds a block to the sum |
| `Accumulators.StokesAccumulator.StokesAcc` | include/DoPFBFFT.hpp:600-762 | each block keeps sums, counters, timestamps and ring in step with the specification, and the ring in step with `HostRing` under the actions the blocks call for |
| `Accumulators.StokesAccumulator.Gap` | include/DoPFBFFT.hpp:608-628 | an invalid block clears everything unfinished, once |
| `Accumulators.StokesAccumulator.AddOn` | include/DoPFBFFT.hpp:630-678 | a block of the ON state |
| `Accumulators.StokesAccumulator.AddOff` | include/DoPFBFFT.hpp:679-727 | a block of the OFF state |
| `Accumulators.StokesAccumulator.AddPlain` | include/DoPFBFFT.hpp:728-761 | a block without calibration, with the start time kept in the ring slot |
| `Accumulators.StokesAccumulator.Publish` | include/DoPFBFFT.hpp:649-677 | publishing fills the slot at the head, keeps the newest fifteen results, and is the `HostRing` steps of filling and exposing |
| `Accumulators.StokesAccumulator.Observe` | include/DoPFBFFT.hpp:600-762 | a whole observation from the start |
| `HostRing.ResultsAreDelivered` | include/DoPFBFFT.hpp:340-418 | while slots are free when written, the sender sends every result once, unchanged and in order |
| `Delivery.ExactResultsAreSentOnce` | include/DoPFBFFT.hpp:340-762 | for any blocks and any interleaving of worker and sender: while slots are free when written, what has been sent is a prefix of the exact results of the blocks' integrations, each once and in order, at most a ring behind |
| `Delivery.AllCanBeSent` | include/DoPFBFFT.hpp:340-762 | from any such run the sender, left to itself, comes to have sent the exact result of every integration |
| `Delivery.BlocksPublish` | include/DoPFBFFT.hpp:600-762 | the worker's steps on the ring publish exactly the results of the integrations |
| `Delivery.SenderUnseen` | include/DoPFBFFT.hpp:340-418 | what the worker publishes does not depend on the sender |
| `HostRing.SeventeenthResultLosesFirst` | include/DoPFBFFT.hpp:652-668 | from a new ring, sixteen results into free slots fill it and one more loses the first |
| `HostRing.FullRingLosesOldest` | include/DoPFBFFT.hpp:652-668 | on a full ring, wherever the sender stands, the next result can replace the oldest one waiting, which is never sent |
| `HostRing.FullRingLosesNewest` | include/DoPFBFFT.hpp:652-668 | if the sender has just read the oldest, the new result is released unsent and the sender alone never sends it |
| `HostRing.EarlyStartChangesOldest` | include/DoPFBFFT.hpp:729-740 | on a full ring, starting an integration without calibration changes the time of a waiting result |
| `Pfb.FilterBank.Sum` | include/DoPFBFFT.hpp:72-94 | the ring kernel gives, for real and imaginary parts, the sum over the taps of coefficient times sample of the last blocks, oldest first |
| `Pfb.FilterBank.Store` | include/DoPFBFFT.hpp:581-585 | converting a block into the ring makes it the newest |
| `Pfb.FilterBank.OffsetIqToRing` | include/DoPFBFFT.hpp:96-112 | the samples land at the head with I and Q in place, and nothing else changes |
| `Pfb.DirectOfWindow` | include/DoPFBFFT.hpp:72-94 | the filter bank's output depends on the last num_taps blocks alone |
| `Pfb.SubtractionIsModulo` | include/DoPFBFFT.hpp:85-86 | one conditional subtraction is the remainder below twice the ring |
| `Pfb.WrappedSlot` | include/DoPFBFFT.hpp:82-87 | the kernel's index is the slot of the block it wants, and never needs a second subtraction |
| `Pfb.FftShift` | include/DoPFBFFT.hpp:113-122 | the in-place swap exchanges the halves |
| `Pfb.ShiftIsInvolution` | include/DoPFBFFT.hpp:113-122 | twice is the identity, at every length |
| `Pfb.ShiftIsRotation` | include/DoPFBFFT.hpp:113-122 | at even length it is rotation by half |
| `Pfb.OddShiftKeepsLast` | include/DoPFBFFT.hpp:113-122 | at odd length it is not |
| `NoiseCycle.BlankIsExact` | include/DoPFBFFT.hpp:476-513 | a time is blanked exactly when some ON or OFF transition of any cycle is within the guard of it, a time before the cycle start counting a machine word later |
| `NoiseCycle.BlankIsExactExactly` | include/DoPFBFFT.hpp:476-513 | for every period and cycle start: blanking is exact at every time, for every ON part and guard, if and only if the period divides the machine word |
| `NoiseCycle.EarlyBlankIsExact` | include/DoPFBFFT.hpp:476-513 | before the cycle start blanking is exact when the period divides the machine word |
| `NoiseCycle.OneEarlyFails` | include/DoPFBFFT.hpp:494-497 | when it does not, one nanosecond before the start is answered wrongly |
| `NoiseCycle.WholeMillisecondsDoNot` | include/DoPFBFFT.hpp:482-483 | a period of whole milliseconds never divides the machine word |
| `NoiseCycle.LeapSecondGoesUnblanked` | include/DoPFBFFT.hpp:494-497 | with the default cycle, a packet of the leap second before 2017-01-01 comes after the one that starts the cycle, is stamped before it within the guard of a transition, and is not blanked |
| `NoiseCycle.NoiseTracker.Update` | include/DoPFBFFT.hpp:422-475 | for flags and times in any order the cycle start is the time of the last block with which the source came on, zero if there is none; the OFF inference is never reached |
| `NoiseCycle.KnownNext` | include/DoPFBFFT.hpp:422-475 | one update keeps that so on the sequences of flags and times |
| `NoiseCycle.NoiseTracker.Blanked` | include/DoPFBFFT.hpp:476-513 | nothing is blanked before a cycle is known, a zero period divides by zero, and otherwise a time is blanked exactly when a transition of the cycle that began with the last OFF-to-ON edge is within the guard |
| `VdifTime.TimestampOfInstant` | include/vdif.hpp:122-157 | the timestamp depends only on the leap-inclusive instant |
| `VdifTime.EpochIndependent` | include/vdif.hpp:122-157 | two epoch and seconds pairs naming one instant give one timestamp |
| `VdifTime.TimestampMonotone` | include/vdif.hpp:122-157 | at a fixed frame, time is nondecreasing in seconds |
| `VdifTime.PosixNext` | include/vdif.hpp:144-150 | each second advances POSIX time by one except into a leap second |
| `VdifTime.PacketStep` | include/vdif.hpp:122-157 | packets are 16 microseconds apart except into a folded leap second, which steps back a second |
| `VdifTime.PacketSpan` | include/vdif.hpp:122-157 | over any stretch without a leap second time is exact |
| `VdifTime.VdifToTimestampNs` | include/vdif.hpp:122-157 | the loop computes the specified timestamp, or the range error |
| `VdifTime.TableFollowsCalendar` | include/vdif.hpp:17-98 | the epoch table is the half-yearly calendar |
| `VdifTime.LeapsAreAtEpochs` | include/vdif.hpp:100-113 | every leap second ends the half year before one of the table's epochs |
| `Timing.CentreIsMidpoint` | include/timing.hpp:11-28 | the compensated centre is the midpoint of the raw samples, history included |
| `Timing.CompensationSaturates` | include/timing.hpp:24-28 | the compensated time is the least, from zero on, that is no more than the delay early |
| `Timing.DelayIsExact` | include/timing.hpp:11-22 | the group delay is half a block per extra tap, without rounding |
| `Timing.PeriodIsExact` | include/DoPFBFFT.hpp:366-367 | a block lasts exactly as long as its packets |
| `Timing.RoundsToNearest` | include/timing.hpp:18-21 | the rounded quotient is nearest, halves upwards |
| `Timing.ResultSpan` | include/DoPFBFFT.hpp:729-740 | without calibration last minus first is the length less one periods |
| `Observation.ResultsAreCentred` | include/DoPFBFFT.hpp:366-375 | from raw packets: without calibration and with no leap second inside, every published result spans its length less one periods and its compensated centre is the midpoint of the raw samples that fed it, unless the compensation saturates |
| `Observation.ResultsAreWhole` | include/DoPFBFFT.hpp:514-762 | from raw packets: every published result is, term by term, the sum of blocks for each of which every packet of the filter bank's window arrived on both polarizations |
| `Observation.ValidInput` | include/DoPFBFFT.hpp:531-563 | a block enters the integration as valid exactly when every packet of its window arrived on both polarizations and a skipped start has left it |
| `Spectra.ResultsAreSpectra` | include/DoPFBFFT.hpp:514-762 | from raw packets: every published result is, term by term, the sum over the blocks of its integration of the powers of the samples of the packets in each block's window, filtered, transformed, shifted and detected |
| `Spectra.PowerOfWindow` | include/DoPFBFFT.hpp:514-598 | the power of a valid block is a function of the payloads of its own window's packets on both polarizations, whatever was fed before |
| `Spectra.BatchBytes` | src/dpdk.cpp:585-597 | the buffer of a complete batch is the bytes of its packets in order |
| `Spectra.FilterAll` | src/init.cu:93-97 | the worker's loop of storing a block and summing gives the filter bank's output for every block |
| `Spectra.ContinuumIsSpectralTotal` | include/DoPFBFFT.hpp:43-70 | the continuum power is the sum of both polarizations' spectral powers over the channels |
| `Spectra.StokesAccumulate` | include/DoPFBFFT.hpp:43-70 | the kernel adds the four terms of every channel to the sums |
| `Spectra.StokesOfChannel` | include/DoPFBFFT.hpp:57-69 | the four terms are the two powers and two whose difference and sum are the imaginary parts of conj(x) y and of x y |
| `Spectra.DetectedChannel` | include/DoPFBFFT.hpp:591-597 | channel i is made of bin i of the transform rotated by half |
| `Spectra.SamplesAsRecorded` | include/DoPFBFFT.hpp:96-112 | the filter bank's samples are, up to the scale, those the Python reader decodes from the same payload recorded at eight bits |
| `Observation.InputTime` | include/DoPFBFFT.hpp:548-552 | block k carries the time of the first packet of its batch |
| `Observation.NoiseOfFirstPacket` | include/DoPFBFFT.hpp:553-557 | the noise state of a valid block is the one its first packet carries |
| `Observation.NoiseOfLeader` | src/dpdk.cpp:286-289 | the noise state of any block, valid or not, is that of the packet leading its batch |
| `Observation.CycleKnown` | include/DoPFBFFT.hpp:422-475 | the noise cycle known at a block follows from the noise states and times of the blocks up to it |
| `Observation.BlankedNearTransitions` | include/DoPFBFFT.hpp:476-513 | a block is blanked exactly when a transition of the cycle that began with the last block at which the source came on is within the guard of its time |
| `Observation.NothingBlankedBefore` | include/DoPFBFFT.hpp:478-479 | before the source has come on nothing is blanked |
| `ResultTime.StampedTime` | include/DoPFBFFT.hpp:548-552 | the stamped header gives the time of the batch's first packet |
| `Crc32c.SpectrumCrc32c` | include/SpectrumTransport.hpp:24-41 | the table-driven loop is bit-at-a-time reflected division by 0x82F63B78 |
| `Crc32c.CheckValue` | include/SpectrumTransport.hpp:24-41 | the nine ASCII digits give the published check value 0xE3069283 |
| `Crc32c.TableStep` | include/SpectrumTransport.hpp:38-39 | one lookup advances the division by a byte |
| `Crc32c.BuildTable` | include/SpectrumTransport.hpp:25-34 | each entry is eight division steps of its index |
| `Crc32c.CrcDetectsBurst` | include/SpectrumTransport.hpp:24-41 | messages of one length that differ only inside four consecutive bytes have different checksums |
| `Quantize.Quantize8Scalar` | include/baseband_quantize.hpp:13-25 | pairs swapped and signs flipped, an odd last byte flipped |
| `Quantize.Quantize4Scalar` | include/baseband_quantize.hpp:27-40 | the packed prefix, the rest untouched |
| `Quantize.Quantize2` | include/baseband_quantize.hpp:129-145 | the packed prefix, the rest untouched |
| `Quantize.Quantize8Avx512` | include/baseband_quantize.hpp:45-62 | the same result as the scalar form for every buffer and length |
| `Quantize.Quantize4Avx512` | include/baseband_quantize.hpp:64-98 | the same result as the scalar form for every buffer and length |
| `Quantize.Next4` | include/baseband_quantize.hpp:27-40 | the next pair read has not been overwritten |
| `Quantize.Next2` | include/baseband_quantize.hpp:129-145 | the next four bytes read have not been overwritten |
| `Quantize.SwapStep` | include/baseband_quantize.hpp:50-59 | the 16-bit lane shifts swap and flip each pair |
| `Quantize.NibbleStep` | include/baseband_quantize.hpp:72-78 | the arithmetic lane shift and mask leave the top nibble of every flipped byte |
| `Decode.DecodeOfWritten` | scripts/plot_vdif_spectrum.py:88-118 | at every width decoding gives the floors of I - 128 and Q - 128 by the step, in that order, for every sample |
| `Decode.TruncationError` | scripts/plot_vdif_spectrum.py:88-118 | each component loses less than one step |
| `Decode.FillIsZeroVoltage` | src/dpdk.cpp:305-306 | a payload of 0x80 decodes to zero at every width |
| `Vdif.ReadWrite` | include/vdif.hpp:302-584 | writing a field changes that field and no other |
| `Vdif.FieldsDetermine` | include/vdif.hpp:302-584 | the fields are the whole header |
| `Vdif.PacketIdRoundTrip` | include/vdif.hpp:232-238 | a stored packet number reads back exactly when its seconds fit 30 bits |
| `Vdif.WithPacketIdFields` | include/vdif.hpp:232-238 | only the two time fields change |
| `Vdif.MetadataFields` | include/vdif.hpp:219-230 | the receive loop's shortcut reads the same fields |
| `Vdif.BasebandFields` | include/vdif.hpp:240-263 | the format sets seven fields and leaves the others |
| `Vdif.BasebandKeepsPacketId` | include/vdif.hpp:240-263 | the format does not disturb the packet number |
| `Vdif.AcceptedExactly` | include/vdif.hpp:244-254 | for payloads of whole bytes the format is accepted exactly when the header can hold its width and frame length |
| `Vdif.ReaderAgrees` | scripts/plot_vdif_spectrum.py:65-85 | the Python parser agrees with every C++ field except the two top bits of the first word |
| `Vdif.InvalidReadAsLegacy` | scripts/plot_vdif_spectrum.py:72-73 | a frame marked invalid is parsed as legacy |
| `Vdif.ReaderSeesBaseband` | scripts/plot_vdif_spectrum.py:65-85 | a formatted header as the reader sees it |
| `Vdif.HeaderBuffer.constructor` | include/vdif.hpp:182-185 | every field zero |
| `Vdif.HeaderBuffer.CopyIn` | include/vdif.hpp:188-194 | a header copied in, or the length error |
| `Vdif.HeaderBuffer.GetWord` | include/vdif.hpp:286-292 | little-endian word, or the range error |
| `Vdif.HeaderBuffer.SetWord` | include/vdif.hpp:294-300 | little-endian word replaced, or the range error |
| `Vdif.HeaderBuffer.SetSecondsFromEpoch` | include/vdif.hpp:312-320 | writes the seconds field |
| `Vdif.HeaderBuffer.SetFlag` | include/vdif.hpp:327-354 | sets or clears a one-bit field |
| `Vdif.HeaderBuffer.SetFrameNumber` | include/vdif.hpp:365-373 | writes the frame number |
| `Vdif.HeaderBuffer.SetFrameLength` | include/vdif.hpp:429-437 | writes the length in units of eight bytes |
| `Vdif.HeaderBuffer.SetBitsPerSample` | include/vdif.hpp:466-474 | writes the width field for one to thirty-two bits |
| `Vdif.HeaderBuffer.SetShifted` | include/vdif.hpp:399-422 | writes the version, channel, thread or EDV field |
| `Vdif.HeaderBuffer.SetPacketId` | include/vdif.hpp:232-238 | writes both time fields |
| `Vdif.HeaderBuffer.ConfigureBaseband` | include/vdif.hpp:240-263 | the whole format, or the argument error and no change |
| `BitFields.PutBit` | include/vdif.hpp:312-354 | what the mask-and-shift update does to every bit of a word |
| `BitFields.ReadOfWrite` | include/vdif.hpp:269-285 | a little-endian word written is read back |
| `BitFields.WriteOfRead` | include/vdif.hpp:269-285 | four bytes read as a word are its bytes |
| `BasebandFrames.FixedCadence` | src/dpdk.cpp:292-311 | for any raw packets and any loss pattern every frame handed over carries the next packet number in the receiver's format, keeps what arrived, and is marked invalid at zero voltage if nothing did |
| `BasebandFrames.FilledFields` | src/dpdk.cpp:303-309 | a frame filled in carries every header field of the packet leading its batch, formatted, except number and mark |
| `BasebandFrames.BatchIsDated` | src/dpdk.cpp:280-290 | in every mode the first header of a batch carries its first packet number |
| `Recorder.Baseband.WriteAllIov` | include/baseband.hpp:94-137 | for any partial results the bytes written are a prefix of the buffers in order, all of them on success, and no error arises while calls make progress |
| `Recorder.Baseband.Consume` | include/baseband.hpp:119-134 | what is left after a partial write is exactly what was not written |
| `Recorder.Baseband.Recode` | include/baseband.hpp:142-228 | a batch is refused untouched or written behind all that is recorded, frame after frame, into the file the rotation rule gives; a file passes its limit only by a batch too long for any |
| `Recorder.Baseband.PrepareFrames` | include/baseband.hpp:182-221 | headers and payloads requantized in place, in turn |
| `Recorder.Baseband.CreateFile` | include/baseband.hpp:39-92 | a new file loses nothing recorded, a failed one changes nothing |
| `Recorder.Baseband.Rotate` | include/baseband.hpp:168-179 | a new file starts exactly when the batch would pass the limit of a file that holds something, and creation succeeds |
| `Recorder.FrameAt` | include/baseband.hpp:142-228 | frame k follows k frames of equal length |
| `Recording.RecordedFrame` | include/baseband.hpp:142-228 | a recorded frame, read back: consecutive number, the packet's samples, or invalid and silent |
| `Recording.CompleteRecordingIsClean` | scripts/plot_vdif_spectrum.py:121-209 | complete batches are read back frame for frame with none missing |
| `Recording.BatchIsMeasured` | include/baseband.hpp:182-227 | every batch handed over, missing frames included, is recorded as frames of the length their headers give |
| `Recording.StreamIsFrames` | include/baseband.hpp:182-227 | the bytes the recorder writes are the frames the reader takes apart |
| `Recording.RecordAll` | src/init.cu:110-112 | the recorder's loop over any batches and any partial writes: the files are the batches' frames in turn, each up to what was written of it, under the rotation rule, and all of them when every write is complete |
| `Recording.RecordBatch` | include/baseband.hpp:142-228 | one batch through its slot of the pool is added to the files |
| `Recording.BatchesAreAllFrames` | include/baseband.hpp:142-228 | the batches recorded, one after the other, are the frames of the recording |
| `Recording.FilesHoldWholeFrames` | include/baseband.hpp:168-227 | with complete writes every file, closed or current, is a sequence of whole frames, and in turn they hold the batches recorded |
| `Recording.ReadRecording` | scripts/plot_vdif_spectrum.py:121-209 | the files read in turn give all frames of the recording |
| `FrameReader.Reader.ReadFile` | scripts/plot_vdif_spectrum.py:133-206 | for every file whatever: the reader sees the whole frames in it and then reports what is left over |
| `FrameReader.EveryFileSplits` | scripts/plot_vdif_spectrum.py:133-183 | every file is some whole frames and an end that holds no further one |
| `FrameReader.ReadsExactly` | scripts/plot_vdif_spectrum.py:145-195 | no error is reported exactly when every frame is supported and all have the format of the first |
| `FrameReader.StatsAreExact` | scripts/plot_vdif_spectrum.py:183-209 | for any frames read without error the counts of used, invalid, missing, duplicate and reordered frames are those of the frame numbers, and the frames yielded are the unmarked ones in order |
| `FrameReader.NothingUnaccounted` | scripts/plot_vdif_spectrum.py:196-203 | of a recording in order, frames less duplicates plus missing numbers make up the range from first to last |
| `FrameReader.Reader.ReadFiles` | scripts/plot_vdif_spectrum.py:133-209 | several files are read as their frames in turn, up to the limit or the first error |
| `FrameReader.RecordingIsRead` | scripts/plot_vdif_spectrum.py:145-147 | a clean recording is read completely; the first frame marked invalid stops the reader |

## Left out

- Weak memory orderings: interleavings are sequentially consistent; loads of variables a thread owns are merged with its next shared access.
- `peek`, `pop`, `size_approx`, moves and destruction of the two queues, and the blocking wrapper of the queue of blocks: easy beside what is modelled.
- Allocation in bytes of the queue of blocks, which allocates whole elements here, and an allocation the circular buffer asks for and is not given, which it does not check.
- BlockQueueExact.QueueWorksExactly: a maximal block size of 2^63, whose double wraps, is not covered.
- Packet and loss counters of the receive loop are unbounded.
- DPDK set-up, mbufs, port and length filtering, loss reports and the monitor file: the packet stream is an arbitrary sequence.
- CUDA streams and cuFFT: stages finish in program order, and the Fourier transform is an arbitrary function.
- The reduction tree of the continuum kernel: treated as an exact sum.
- Floating-point rounding: samples, coefficients and delays are exact; the noise cycle's lengths are integers.
- SpectrumSender, sdfits, LocalSdfitsWriter, configuration parsing and plotting.
- setReferenceEpoch, setStationID, setExtendedData and setNoiseSourceState: single-field setters like those modelled.
- BatchAssembly.Receive: packet numbers are unbounded; the source's cannot exceed 64 bits because a header holds 30 bits of seconds.
- Recorder.Baseband.Recode: the source ignores the result of the write; so does the model, which reports it.
- Observation.InputTime: a noise period of zero, at which the source divides by zero, counts as a blanked block in the inputs it is part of.
- Delivery.ExactResultsAreSentOnce: assumes that the worker finds its slots free; what happens when it does not is in HostRing.
