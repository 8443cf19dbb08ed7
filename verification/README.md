# Verified models of the DirectShow base classes

This project models the parts of the DirectShow base classes that carry a protocol or exact arithmetic,
and proves what they promise. Methods that change fields, arrays or linked nodes are modelled as classes with
methods; a protocol between threads is a state machine whose steps are the source's critical sections, and the
class methods are proved to be those steps. Theorems about a state machine hold for every run, that is, for
every interleaving of its threads. Operating-system objects are modelled by their state: a semaphore by its
count, an event by a flag, a reference held by a count. What downstream pins, readers and the memory allocator
answer is arbitrary.

| files | subject |
|---|---|
| `OutputQueueModel`, `OutputQueueLists`, `OutputQueueInvariant`, `OutputQueueTheorems`, `OutputQueueRuns`, `OutputQueueReset`, `OutputQueueFlush`, `OutputQueueAnswers`, `OutputQueueSegments` | `COutputQueue` with its worker thread: invariant, FIFO, wake-ups, flush barrier, `Reset()`; over runs, what failing answers stop, what becomes of segments and what m_bFlushed means |
| `OutputQueue`, `OutputQueueDirect` | the same queue as an object with fields, loops and an array; the mode without a thread |
| `AllocatorModel`, `AllocatorInvariant`, `MemoryLayout`, `FreeList`, `Allocator` | `CBaseAllocator` and `CMemAllocator`: the pool, the layout of its memory, its free list |
| `AdviseList`, `AdviseDispatch`, `AdviseEndless`, `AdviseSchedule`, `AdviseClock` | `CAMSchedule` as a list, in exact and in 64-bit times, and as linked nodes; the clock's advise thread |
| `WideArithmetic`, `FrameStatistics` | `llMulDiv`, `Int64x32Div32`; the video renderer's statistics and `isqrt` |
| `StreamControl` | `CBaseStreamControl`: the nineteen cases against a timeline |
| `DynamicPin` | `CDynamicOutputPin`'s block protocol |
| `PullPin` | `CPullPin`'s reading in aligned pieces |
| `BitmapInfo`, `IntStream` | bitmap header validation; integers in a stream |
| `Arithmetic`, `Bits`, `BaseTypes` | products and quotients, bitwise AND, machine words |

## What the models found

Each of these is a theorem; where the code does not do what its comments or names say, the exact condition or a
run that shows it is proved.

- `Reset()` shares its auto-reset event with the flush, and the worker can set that event twice in one flush.
  `Reset()` waits for its own packet exactly when, on entry, the event is clear and no packet of an earlier call is
  still to be handled (`ResetWaitsIff`). Both fail in runs in which no two calls of the client overlap: the event can
  be left set (`ResetCanReturnEarly`), and the call that has then returned early leaves its packet to answer the next
  one (`NextResetReturnsEarlyToo`).
- A flush is a barrier, past which no earlier sample is delivered (`FlushBarrier`), exactly if, when it begins, the
  worker does not hold a RESET packet and the short cut for a flushed queue does not find `m_bFlushed` set with
  samples held (`FlushIsBarrierIff`). Both do happen, and without overlapping calls: a sample can be delivered after
  the flush it was submitted before (`SampleSurvivesFlush`), and that flush leaves `m_bFlushed` set with the sample
  queued, so that with the short cut the next one is no barrier either (`FlushedCanBeStale`).
- Without a thread the loop of `ReceiveMultiple` may not end, with the lock held, because `SendAnyway` sets its flag
  without it: it goes on exactly as long as it finds the flag set, if the samples leave part of a batch (`TurnsIff`,
  `LoopEndsIff`).
- `IsIdle`'s assertion that the list is empty holds exactly without exact batching (`IdleAssertionIff`). The
  assertion on entering `ReceiveMultiple` without a thread, without SendAnyway in between, holds exactly when batching
  is exact or the samples so far fill whole batches (`NextEntryAssertIff`), so always exactly for exact batching or
  batches of one (`NextEntryAssertAlwaysIff`).
- The equality in the allocator's header comment, waiting count plus semaphore count = waiting threads, holds
  exactly as long as no `GetBuffer` call has declined to wait; each such call leaves one count too many for good.
  The conclusion drawn from it, that nobody waits in vain, holds always (`CountsAgreeIff`, `NobodyWaitsInVain`).
- `CMemAllocator::SetProperties` accepts alignments that are not powers of two: with a granularity of 2^k every one
  up to 2^k, none from there to 2^(k + 1), and so on alternately (`AlignmentAcceptedIff`); samples are then at
  multiples of the alignment from the start of the block only.
- Its sum of buffer and prefix can wrap. Whatever was asked for, if the commit goes through then samples are at least
  as large exactly if that sum fits a LONG, and always for alignments up to 2^30 (`CommittedSizeIff`). The requests
  beyond it that go through all the same, with smaller samples, are known exactly (`OversizeCommitsIff`); one of
  them asks for 2^31 - 1 bytes and gets one (`OversizeCommits`, `OneByteSample`).
- A periodic request is put off by a 64-bit sum. A tick that falls on the sentinel's time makes the search in
  `ShuntHead` run off the list; if every request's ticks end, that happens exactly if some request's end there
  (`FallsOffIff`, `FallsOffIffNext`), and in general exactly if besides none of its ticks is kept back by a request
  whose ticks go on for ever (`FallsOffExactly`, `KeptBack`). A tick beyond the sentinel's time wraps, and the request
  is signalled again 2^64 too early (`SignalsAsExpectedIff`); a dispatch does what exact times call for exactly if
  every next tick is before the end of time (`DispatchIsExactIff`). It comes through exactly if all ticks end, none on
  the sentinel's time (`CompletesIff`), and need not come to any end (`EndlessDispatch`). `AdvisePeriodic` rules out
  neither running off the list nor signalling again (`DispatchCanFallOff`, `RequestCanFireAgain`).
- `AdviseTime` takes a sum of its two times that is below 64 bits for a time 2^64 later, and refuses only the others
  that are out of range (`AdviseTimeAsksFor`).
- The advise thread's wait is clipped to a value that means forever, so that a request 2^32 - 1 ms away or more is
  never looked at again unless something else sets the event (`SleepsWithoutLimitIff`, `TimeAloneDoesNotWake`).
  Adjustments of half a millisecond or less go unnoticed however many there are (`SmallShiftsGoUnnoticed`,
  bounded by `OverdueIsBounded`).
- Quotients past 64 bits but below 2^64 are not saturated but change sign (`LargeQuotientWraps`, `MulDivOutcome`).
- `GetStdDev` is given a count one larger than the number of observations, contrary to its comment, because the
  second frame is counted but not recorded. So it answers for the variance of the observations and one more of zero
  (`SpreadIsVariance`); the argument of the root is still never negative (`SpreadBounds`).
  `isqrt`, which says it is safe, overflows at 0x40000000 and divides by zero at -1 and -2, and nowhere else; its
  callers reach none of these (`Isqrt`, `GetStdDev`).
- Of the commands given before the graph runs, the last one that was not put behind the other decides how the stream
  begins, even if later commands exchange the two (`BeginsAsEarlierIff`). So moving a stop or a start from before the
  other to behind it, and nothing else, makes the stream begin wrongly (`StaysRightIff`, `MovedStopStillDecides`,
  `MovedStartStillDecides`).
- A start with a cookie is reported without checking that there is a sink. A run meets the null pointer at the first
  sample that ends after the start, and if there is none when it stops (`FaultsInIff`, `RunFaultsIff`).
- A pending block of a dynamic pin takes effect exactly when there are no users (`BlockedIffUnused`), which threads
  relieving one another can put off for good (`PendingBlockCanStarve`). The caller's event means a blocked pin exactly
  if it was not an unblocking that set it (`EventMeansBlockedIff`), as it does for a cancelled request
  (`CancelledRequestLooksGranted`).
- A pull pin whose stop lies within a unit that begins at a multiple of the alignment does not deliver that last
  part of a unit (`ReachesStopIff`). `EndOfStream` is called exactly if everything was delivered and every answer
  was S_OK, but with overlapping requests also if the last answer was S_FALSE, although any answer but S_OK is meant
  to stop the data (`Process`). A `GetBuffer` that fails is reported with `OnError` only when samples are read one at a
  time (`Process`).

## Model

| member | source | states |
|---|---|---|
| `OutputQueueInvariant.StepInv` | dshow_base/outputq.cpp:203-551 | every step of every thread keeps: tags with their packets, batch never full between sections, exactly one wake-up for a sleeping worker, nothing to do while it is not notified, delivery order, conservation, the flags of a flush; and from each flush that begins well on, whatever came before it, what event and m_bFlushed mean |
| `OutputQueueInvariant.RunInv` | dshow_base/outputq.cpp:203-551 | the invariant over whole runs |
| `OutputQueueInvariant.TopInv` | dshow_base/outputq.cpp:216-296 | the worker's critical section, terminating, flushing or collecting, keeps the invariant |
| `OutputQueueInvariant.AcceptedInv` | dshow_base/outputq.cpp:676-697 | queueing samples and notifying only when there is enough keeps it |
| `OutputQueueInvariant.EndFlushWaitInv` | dshow_base/outputq.cpp:516-551 | the wait in EndFlush keeps the invariant, and in a flush that began well passes only when no sample is held |
| `OutputQueueLists.CollectShape` | dshow_base/outputq.cpp:218-289 | the collecting loop ends in a wait with less than a batch, or with a batch of legal size or a control packet |
| `OutputQueueLists.CollectKeepsSamples` | dshow_base/outputq.cpp:218-289 | the loop loses no sample and keeps their order |
| `OutputQueueLists.CollectKeepsEvents` | dshow_base/outputq.cpp:218-289 | what the worker then does downstream is what batch and list meant, each segment with its own parameters |
| `OutputQueueTheorems.ReleasedExactlyOnce` | dshow_base/outputq.cpp:594-754 | every submitted sample is released exactly once or held exactly once, and nothing else is |
| `OutputQueueTheorems.DeliveredInOrder` | dshow_base/outputq.cpp:313-326 | over every run samples go downstream at most once and in order |
| `OutputQueueTheorems.BatchesAreLegal` | dshow_base/outputq.cpp:313-319 | every batch sent holds at least one and at most the batch size of samples |
| `OutputQueueTheorems.NoLostWakeUp` | dshow_base/outputq.cpp:250-303 | a worker asleep on work has exactly one token in the semaphore |
| `OutputQueueTheorems.ThreadProcAsserts` | dshow_base/outputq.cpp:260-325 | the thread procedure's assertion on the waiting count holds; that on m_bFlushed holds after a flush that began well, and during one that can take the short cut |
| `OutputQueueTheorems.IdleQueueHolds` | dshow_base/outputq.cpp:775-795 | what a queue that looks idle can still hold |
| `OutputQueueTheorems.IdleAssertionIff` | dshow_base/outputq.cpp:785-792 | for every configuration: a queue that looks idle always has an empty list if and only if batching is not exact |
| `OutputQueueTheorems.QueueIsFifo` | dshow_base/outputq.cpp:203-371 | while nothing fails, flushes or resets: submitted = delivered + in hand + batch + list, segments and ends of stream included |
| `OutputQueueTheorems.QuietMeansDelivered` | dshow_base/outputq.cpp:250-303 | once the worker sleeps un-notified all is delivered, in exact mode all but less than a batch |
| `OutputQueueAnswers.FailsIff` | dshow_base/outputq.cpp:320-326 | an m_hr that is S_OK fails exactly by an answer from downstream other than S_OK, the beginning of a flush or the destructor; with the answer given, if it is one |
| `OutputQueueAnswers.RevivesIff` | dshow_base/outputq.cpp:359-364 | a failing m_hr becomes S_OK exactly by the handling of a RESET packet or the end of a flush, the short cut included; only the destructor overwrites it besides |
| `OutputQueueAnswers.FailureEndsDelivery` | dshow_base/outputq.cpp:313-369 | over every run without such a step: nothing but segments goes downstream, no sample or end of stream is taken in, and every client's samples are released at once |
| `OutputQueueAnswers.AnswerEndsDelivery` | dshow_base/outputq.cpp:320-326 | so does an answer other than S_OK to the batch in delivery, with m_hr the answer |
| `OutputQueueAnswers.CollectIsWhole` | dshow_base/outputq.cpp:218-289 | what the worker takes is a beginning of the list; without a control packet it ends with a full batch, SendAnyway's packet or, without exact batching, the list |
| `OutputQueueAnswers.SendAnywaySends` | dshow_base/outputq.cpp:374-389 | whatever was queued or batched before: once the worker sleeps again after SendAnyway, nothing is held |
| `OutputQueueAnswers.DestructorIsNotStuck` | dshow_base/outputq.cpp:149-176 | until the thread has ended it can step or is in the downstream call; then every sample has been released |
| `OutputQueueSegments.SegmentsPass` | dshow_base/outputq.cpp:340-369 | over every run without a flush or the destructor, through failures and resets: segments submitted = delivered + in the worker's hand + on the list, in order |
| `OutputQueueSegments.FlushedUntilStreamed` | dshow_base/outputq.cpp:594-697 | over every run up to the next end of a flush: m_bFlushed stays set if and only if no sample and no end of stream is taken in; segments, SendAnyway, Reset and refused samples leave it |
| `OutputQueueFlush.FlushBarrier` | dshow_base/outputq.cpp:463-551 | for every flush that begins well, whatever came before it and happens in it: when EndFlush gets past the queue no earlier sample is queued, batched or in delivery, and none is delivered in any continuation |
| `OutputQueueFlush.FlushIsBarrierIff` | dshow_base/outputq.cpp:463-551 | for every state the invariant allows in which a flush can begin: EndFlush cannot get past the queue with a sample left in it, if and only if the worker holds no RESET packet and the short cut does not find m_bFlushed set with samples held |
| `OutputQueueFlush.StaleFlushedBreaks` | dshow_base/outputq.cpp:482-529 | with m_bFlushed set and samples held the short cut passes them at once |
| `OutputQueueFlush.ResetInHandBreaks` | dshow_base/outputq.cpp:359-364 | from any state in which the worker holds one a schedule lets EndFlush pass with a sample queued |
| `OutputQueueFlush.SampleSurvivesFlush` | dshow_base/outputq.cpp:463-551 | for every configuration a run, with no call beginning while another goes on, in which a sample submitted before a flush is delivered after it |
| `OutputQueueFlush.FlushedCanBeStale` | dshow_base/outputq.cpp:482-529 | such a run to a state with m_bFlushed set, a sample queued and no RESET packet anywhere, in which a flush with the short cut is no barrier |
| `OutputQueueTheorems.EndFlushIsNotStuck` | dshow_base/outputq.cpp:516-551 | while EndFlush is blocked the worker can step or is in the downstream call, however the flush began |
| `OutputQueueReset.ResetWaitsIff` | dshow_base/outputq.cpp:701-713 | Reset returns only after its packet has been handled if and only if on entry the event is clear and no RESET packet is queued or in the worker's hand |
| `OutputQueueReset.ResetCanReturnEarly` | dshow_base/outputq.cpp:701-713 | for every configuration a run without overlapping calls to a state in which Reset would find the event set |
| `OutputQueueReset.NextResetReturnsEarlyToo` | dshow_base/outputq.cpp:701-713 | and one to a state with the event clear and an earlier packet in the worker's hand, in which Reset can return before its own is handled |
| `OutputQueueReset.EarlierPacketAnswers` | dshow_base/outputq.cpp:359-364 | wherever the worker stands it can come to the earlier packet and set the event with the later one still queued |
| `OutputQueueReset.CollectKeepsResets` | dshow_base/outputq.cpp:359-364 | RESET packets leave the list only into the worker's hand |
| `OutputQueueObject.OutputQueue.ReceiveMultiple` | dshow_base/outputq.cpp:675-697 | the method is the model's step: refuse and release everything, or queue everything and notify if there is enough |
| `OutputQueueObject.OutputQueue.CollectLoop` | dshow_base/outputq.cpp:218-289 | the loop over list and array computes Collect |
| `OutputQueueObject.OutputQueue.WorkerSection` | dshow_base/outputq.cpp:216-296 | the locked part of the thread procedure is the model's step |
| `OutputQueueObject.OutputQueue.WorkerStarts` | dshow_base/outputq.cpp:313-319 | reading m_hr and calling downstream is the model's step |
| `OutputQueueObject.OutputQueue.WorkerReturns` | dshow_base/outputq.cpp:320-326 | the downstream answer becomes m_hr unless a flush has set it in the meantime |
| `OutputQueueObject.OutputQueue.WorkerReleases` | dshow_base/outputq.cpp:327-329 | the release loop releases the whole batch |
| `OutputQueueObject.OutputQueue.WorkerFinishes` | dshow_base/outputq.cpp:340-369 | acting on the control packet is the model's step |
| `OutputQueueObject.OutputQueue.FreeSamples` | dshow_base/outputq.cpp:716-754 | both loops together release every sample and drop every packet |
| `OutputQueueObject.OutputQueue.NotifyThread` | dshow_base/outputq.cpp:759-767 | the semaphore gets exactly what was owed |
| `OutputQueueObject.OutputQueue.NewSegmentLocked` | dshow_base/outputq.cpp:424-427 | tag and packet go in together |
| `OutputQueueObject.OutputQueue.EOS` | dshow_base/outputq.cpp:452-456 | end of stream is queued while m_hr is S_OK |
| `OutputQueueObject.OutputQueue.BeginFlushLocked` | dshow_base/outputq.cpp:463-513 | BeginFlush's locked part is the model's step, and tells whether downstream is to be flushed |
| `OutputQueueObject.OutputQueue.EndFlushLocked` | dshow_base/outputq.cpp:516-551 | EndFlush's locked part is the model's step |
| `OutputQueueObject.OutputQueue.ClearFlushing` | dshow_base/outputq.cpp:516-551 | the first unlocked write after EndFlush's wait is the model's step; `SetFlushed` and `ResumeAfterFlush` are the others |
| `OutputQueueObject.OutputQueue.ResetEnter` | dshow_base/outputq.cpp:706-710 | Reset's locked part queues the packet and notifies |
| `OutputQueueObject.OutputQueue.SendAnyway` | dshow_base/outputq.cpp:385-389 | queues the packet and notifies |
| `OutputQueueDirect.CutIsExact` | dshow_base/outputq.cpp:637-669 | full batches and the rest are the line of samples again, in order |
| `OutputQueueDirect.TurnsIff` | dshow_base/outputq.cpp:641-669 | the loop takes one sample a turn, and then goes on exactly as long as m_bSendAnyway is found set, if the samples leave part of a batch; whatever values the flag takes from turn to turn |
| `OutputQueueDirect.LoopEndsIff` | dshow_base/outputq.cpp:641-669 | with the flag unchanged it ends if and only if the flag is clear, there are no samples or they fill the last batch |
| `OutputQueueDirect.StuckAsLongAsSet` | dshow_base/outputq.cpp:641-669 | with all samples taken and part of a batch left no turn changes anything |
| `OutputQueueDirect.LoopCanHang` | dshow_base/outputq.cpp:374-380 | one sample and a batch of two keep it going for any number of turns |
| `OutputQueueDirect.DirectQueue.ReceiveMultiple` | dshow_base/outputq.cpp:594-674 | without a thread, whenever the loop ends: full batches go downstream in order until one answer is not S_OK, which is then m_hr, all are released, the rest stays, and the count answered is what downstream has not left unclaimed; or, from SendAnyway, a partial batch is sent |
| `OutputQueueDirect.DirectQueue.SendAnyway` | dshow_base/outputq.cpp:374-384 | sends and releases what is batched, once |
| `OutputQueueDirect.DirectQueue.FlushBatch` | dshow_base/outputq.cpp:650-668 | a batch is sent if the pin still answers S_OK, whose answer is then m_hr, and released either way; lost is what the pin does not claim |
| `OutputQueueDirect.NextEntryAssertIff` | dshow_base/outputq.cpp:634-635 | exactly when the entry assertion of the next call holds |
| `OutputQueueDirect.NextEntryAssertAlwaysIff` | dshow_base/outputq.cpp:634-635 | it holds after every line of samples if and only if batching is exact or batches are of one |
| `AllocatorInvariant.StepInv` | dshow_base/amfilter.cpp:4731-4966 | every critical section keeps: samples free or out, commit phases, the signalling rules, the reference count |
| `AllocatorInvariant.NobodyWaitsInVain` | dshow_base/amfilter.h:1412-1425 | while a buffer is free or none will be given out, every waiting thread can be let through and then gets a buffer or a refusal |
| `AllocatorInvariant.BlockedThreadsHaveAHolder` | dshow_base/amfilter.h:1412-1425 | a thread that cannot be let through waits for a buffer that is out, and its return lets all through |
| `AllocatorInvariant.CountsAgreeIff` | dshow_base/amfilter.h:1415-1416 | equality (2) of the comment holds if and only if no call has declined to wait; the inequality always |
| `AllocatorInvariant.TimeoutsRemain` | dshow_base/amfilter.cpp:4763-4765 | the surplus never goes away, and does not arise without AM_GBF_NOWAIT |
| `AllocatorInvariant.DecliningUpsetsTheCounts` | dshow_base/amfilter.cpp:4752-4765 | declining to wait for a buffer breaks equality (2) |
| `AllocatorInvariant.BuffersCanAllBeOut` | dshow_base/amfilter.cpp:4731-4785 | which it can: a reachable state with the only buffer out |
| `AllocatorInvariant.SamplesAreConserved` | dshow_base/amfilter.cpp:4752-4778 | every sample is free or out, and GetBuffer never gives out one that is out |
| `AllocatorInvariant.ReferencesBalance` | dshow_base/amfilter.cpp:4834-4966 | the self-reference, plus releases owed, is held exactly while committed or decommitting; memory taken is given up once |
| `AllocatorInvariant.FreedWhenIdle` | dshow_base/amfilter.cpp:4812-4820 | Free runs once for a completed decommit, with no buffer out |
| `AllocatorInvariant.BuffersOutAreSafe` | dshow_base/amfilter.cpp:4689-4697 | while a buffer is out no step changes sizes, reallocates or frees |
| `AllocatorInvariant.CommitCancelsDecommit` | dshow_base/amfilter.cpp:4896-4905 | committing during a pending decommit restores everything but the waiting count |
| `AllocatorInvariant.DecommitCompletes` | dshow_base/amfilter.cpp:4812-4838 | a pending decommit completes once when the last buffer comes back, in whatever order they do |
| `AllocatorInvariant.SamplesAreAsAsked` | dshow_base/amfilter.cpp:5122-5219 | in every reachable state that is committed or decommitting there are as many samples as asked for, made with the figures last accepted |
| `AllocatorInvariant.NextCommitObeys` | dshow_base/amfilter.cpp:5110-5140 | whatever was laid out before: after an accepted SetProperties a Commit succeeds exactly if the figures are set, fit and the memory is there, and the samples are then made anew with these figures |
| `AllocatorInvariant.FiguresChangeOnlyAtRest` | dshow_base/amfilter.cpp:5078-5095 | figures change only by SetProperties, decommitted and with no buffer out, and with them nothing else |
| `AllocatorInvariant.CommitAgainKeepsSamples` | dshow_base/amfilter.cpp:5135-5139 | decommitting and committing again without new figures cannot fail for want of memory and keeps the samples |
| `AllocatorInvariant.FailedCommitTriesAgain` | dshow_base/amfilter.cpp:5141-5219 | an allocation that runs out of memory keeps only the samples it made, and the next Commit allocates again |
| `AllocatorInvariant.LastBackIsNextOut` | dshow_base/amfilter.h:1366-1381 | the buffer that came back last is given out next |
| `MemAllocatorObject.MemAllocator.GetBuffer` | dshow_base/amfilter.cpp:4742-4765 | one turn of GetBuffer's loop is the model's step, and hands out the sample it says |
| `MemAllocatorObject.MemAllocator.ReleaseBuffer` | dshow_base/amfilter.cpp:4803-4821 | the locked part is the model's step |
| `MemAllocatorObject.MemAllocator.Commit` | dshow_base/amfilter.cpp:4882-4917 | Commit, with Alloc, is the model's step; a Commit that leaves the allocator committed leaves as many samples as asked for, each with the size and the place that the figures in force give it |
| `MemAllocatorObject.MemAllocator.Decommit` | dshow_base/amfilter.cpp:4921-4960 | the locked part is the model's step |
| `MemAllocatorObject.MemAllocator.Alloc` | dshow_base/amfilter.cpp:5122-5219 | allocates only if something changed and it fits; samples are numbered, sized and placed as laid out |
| `MemAllocatorObject.MemAllocator.MakeSamples` | dshow_base/amfilter.cpp:5189-5215 | the loop makes as many samples as wanted or as there is memory for, each at its place |
| `MemAllocatorObject.MemAllocator.ReallyFree` | dshow_base/amfilter.cpp:5241-5266 | the loop empties the free list |
| `MemAllocatorObject.MemAllocator.SetProperties` | dshow_base/amfilter.cpp:5050-5112 | refused with a bad alignment, while committed or with buffers out, and then changes nothing; otherwise the figures are taken over, the size is SizeGiven, wrapped sums included, and the next Alloc is to allocate |
| `MemoryLayout.PowersOfTwoAccepted` | dshow_base/amfilter.cpp:5070-5076 | of the powers of two the alignment test accepts exactly those up to the granularity |
| `MemoryLayout.AlignmentAcceptedIff` | dshow_base/amfilter.cpp:5065-5076 | for every alignment and granularity 2^k: accepted if and only if bit k of alignment - 1 is clear, so all up to 2^k, powers of two or not, and none of the next 2^k |
| `MemoryLayout.RoundRequest` | dshow_base/amfilter.cpp:5097-5104 | the steps in 32-bit arithmetic give SizeGiven on all requests |
| `MemoryLayout.SizeWithinRange` | dshow_base/amfilter.cpp:5097-5104 | if buffer and prefix fit a LONG the size granted is the least multiple of the alignment less the prefix, or negative |
| `MemoryLayout.SizeBeyondRange` | dshow_base/amfilter.cpp:5097-5104 | otherwise it is the alignment less the prefix if the sum is within an alignment of 2^32, or else one that Alloc refuses |
| `MemoryLayout.CommittedSizeIff` | dshow_base/amfilter.cpp:5097-5170 | for every request Alloc lets through: samples are as large as asked for if and only if buffer and prefix together fit a LONG, and always with an alignment up to 2^30 |
| `MemoryLayout.OversizeCommitsIff` | dshow_base/amfilter.cpp:5097-5170 | exactly which requests beyond a LONG Alloc lets through, with smaller samples |
| `MemoryLayout.OversizeCommits` | dshow_base/amfilter.cpp:5065-5170 | for every prefix above 2^30 such a request exists that ends in a sample of one byte, and when its alignment is accepted |
| `MemoryLayout.OneByteSample` | dshow_base/amfilter.cpp:5065-5170 | the one behind 0x7FFE0000 bytes is accepted with a granularity of 64K |
| `MemoryLayout.PlanBlock` | dshow_base/amfilter.cpp:5144-5178 | the overflow checks let through exactly the layouts whose exact size fits a LONG |
| `MemoryLayout.SamplesAreApart` | dshow_base/amfilter.cpp:5194-5215 | samples lie in disjoint slots inside the block at multiples of the alignment, with no wrapped address |
| `MemoryLayout.RoundedNeedsNoRounding` | dshow_base/amfilter.cpp:5097-5166 | after SetProperties has rounded within range Alloc rounds nothing, and samples are at least as large as asked |
| `FreeList.SampleList.Add` | dshow_base/amfilter.h:1366-1372 | puts a sample in front |
| `FreeList.SampleList.RemoveHead` | dshow_base/amfilter.h:1373-1381 | takes the first sample if there is one |
| `FreeList.SampleList.Remove` | dshow_base/amfilter.cpp:4995-5009 | takes one sample out and leaves the others in order |
| `AdviseList.FiresAsExpected` | dshow_base/schedule.cpp:143-185 | in exact times, one dispatch signals a one-shot request once if due, a periodic one at each tick up to the time given, and leaves each where it belongs |
| `AdviseList.TicksAre` | dshow_base/schedule.cpp:164-169 | a periodic request is signalled floor((T - t0) / period) + 1 times |
| `AdviseList.DispatchIsOrdered` | dshow_base/schedule.cpp:156-180 | in exact times, notifications go out in time order and none early |
| `AdviseList.DispatchLeaves` | dshow_base/schedule.cpp:156-185 | in exact times, what is left is sorted and not yet due |
| `AdviseList.InsertBeforeFacts` | dshow_base/schedule.cpp:190-215 | inserting adds the request, keeps the order and says what comes first |
| `AdviseList.RemoveCookieFacts` | dshow_base/schedule.cpp:114-141 | cancelling removes one request with the cookie if there is one, and nothing else |
| `AdviseList.RemoveCookieOrder` | dshow_base/schedule.cpp:114-141 | cancelling keeps the order and can only put off the next dispatch |
| `AdviseList.NextTickIs` | dshow_base/schedule.cpp:164-169 | the first tick after a time, in closed form |
| `AdviseDispatch.CompletesIff` | dshow_base/schedule.cpp:143-187 | the dispatch loop, with 64-bit sums, comes to its end if and only if the ticks of every periodic request end, and none on the sentinel's time |
| `AdviseDispatch.FallsOffIff` | dshow_base/schedule.cpp:230-262 | it comes to a search that runs off the list only if some request's ticks end on the sentinel's time, and if they do and all end, it does |
| `AdviseDispatch.FallsOffIffNext` | dshow_base/schedule.cpp:230-262 | the same by the exact next ticks, as long as none is past the end of time |
| `AdviseEndless.FallsOffExactly` | dshow_base/schedule.cpp:230-262 | on every list: the loop comes to a search that runs off it if and only if the ticks of some request end on the sentinel's time and none of them is later than all the ticks of a request whose ticks do not end |
| `AdviseEndless.KeptBack` | dshow_base/schedule.cpp:156-180 | a request whose ticks would end there, and another that keeps it from ever being looked at |
| `AdviseDispatch.TicksBeyond` | dshow_base/schedule.cpp:166 | the machine's ticks are the exact ones up to the end of time; one beyond it comes back 2^64 earlier and is due again |
| `AdviseDispatch.SignalsAsExpectedIff` | dshow_base/schedule.cpp:143-185 | every request is signalled at each time it is due, and at no other if and only if it is not periodic or its next tick is before the end of time |
| `AdviseDispatch.DispatchIsExactIff` | dshow_base/schedule.cpp:143-185 | a dispatch does what the exact list function does if and only if every next tick is before the end of time |
| `AdviseDispatch.SignalsReachTheirHandles` | dshow_base/schedule.cpp:164-174 | every signal of a dispatch goes to the handle of a request with its cookie, releasing a semaphore for a periodic one and setting an event for the others |
| `AdviseDispatch.SignalsReachOnly` | dshow_base/schedule.cpp:164-174 | and with cookies of their own a request's signals go to its handle alone |
| `AdviseDispatch.SignalledThrice` | dshow_base/schedule.cpp:164-169 | a request with the longest period is signalled three times where once would be right |
| `AdviseDispatch.EndlessDispatch` | dshow_base/schedule.cpp:156-180 | with a period of 2^62, late in time, the loop neither ends nor runs off the list |
| `AdviseSchedule.Schedule.AddAdvisePacket` | dshow_base/schedule.cpp:190-215 | a node from the cache or a new one goes in its place; the cookie is the next; the event is set exactly when the request comes first |
| `AdviseSchedule.Schedule.PlaceBefore` | dshow_base/schedule.cpp:196-205 | the search finds the place in front of the first packet not earlier |
| `AdviseSchedule.Schedule.Unadvise` | dshow_base/schedule.cpp:114-141 | answers whether the cookie was there and removes it |
| `AdviseSchedule.Schedule.ShuntHead` | dshow_base/schedule.cpp:230-262 | the first packet moves in front of the first later one |
| `AdviseSchedule.Schedule.Advise` | dshow_base/schedule.cpp:143-187 | whenever the loop comes to its end, wrapped ticks included, it signals and leaves over the linked nodes what the dispatch says, the exact one if every next tick is before the end of time; each signal goes to the handle given with its request; and it answers when the next request is due |
| `AdviseSchedule.Schedule.Delete` | dshow_base/schedule.cpp:217-228 | at most five unused nodes are kept |
| `AdviseSchedule.Node.InsertAfter` | dshow_base/schedule.h:56-60 | links a node in |
| `AdviseSchedule.Node.RemoveNext` | dshow_base/schedule.h:65-71 | links the next node out |
| `AdviseClock.StepInv` | dshow_base/refclock.cpp:175-365 | every step of the thread and its clients keeps the list in order with cookies of their own, the plan and the pace |
| `AdviseClock.SleepsInTime` | dshow_base/refclock.cpp:334-363 | a sleeping thread that nothing is about to wake sleeps at least 1 ms and, below the limit, not past the first request |
| `AdviseClock.OverdueIsBounded` | dshow_base/refclock.cpp:304-315 | until its timer goes off no request is overdue by more than the time taken to go to sleep and half a millisecond per adjustment |
| `AdviseClock.SmallShiftsGoUnnoticed` | dshow_base/refclock.cpp:306-313 | any number of adjustments of half a millisecond or less, or back, leaves the thread asleep, with the clock moved by their sum |
| `AdviseClock.SleepsWithoutLimitIff` | dshow_base/refclock.cpp:356-362 | the wait is all the whole milliseconds up to the next request, and means forever exactly from 2^32 - 1 of them |
| `AdviseClock.TimeAloneDoesNotWake` | dshow_base/refclock.cpp:338 | then no passage of time wakes the thread |
| `AdviseClock.DueRequestsFire` | dshow_base/refclock.cpp:346-355 | whenever the thread looks and gets through, each request is signalled on its own handle for every time it is due, allowing a millisecond, and for no other exactly if its next tick is before the end of time |
| `AdviseClock.DispatchGoesThroughIff` | dshow_base/refclock.cpp:346-355 | before the end of time the thread can take its dispatch step if and only if the ticks of every periodic request end, and none on the sentinel's time |
| `AdviseClock.DispatchCanFallOff` | dshow_base/refclock.cpp:202-222 | AdvisePeriodic accepts a request whose dispatch runs off the list |
| `AdviseClock.RequestCanFireAgain` | dshow_base/refclock.cpp:202-222 | and one that is due once and signalled three times |
| `AdviseClock.TearDownEndsTheThread` | dshow_base/refclock.cpp:334-339 | a thread asleep at tear-down wakes and finishes |
| `AdviseClock.AddKeeps` | dshow_base/refclock.cpp:189-222 | adding a request, wrapped sums refused, keeps the invariant |
| `AdviseClock.AdviseTimeAsksFor` | dshow_base/refclock.cpp:175-200 | AdviseTime adds a one-shot request for exactly the sum of its times where that is between 0 and MAX_TIME, and 2^64 later where it is below 64 bits; all others change nothing |
| `AdviseClock.AdvisePeriodicAsksFor` | dshow_base/refclock.cpp:202-222 | AdvisePeriodic adds a request with the start, period and semaphore given, or changes nothing |
| `AdviseClock.EventIsSetIff` | dshow_base/refclock.cpp:189-338 | a step sets the event exactly if it puts a new request first, puts the clock forward by more than half a millisecond while somebody waits, or ends the clock |
| `AdviseClock.WakesForAReason` | dshow_base/refclock.cpp:304-339 | over every run the thread is woken by the event no more often than there were such steps |
| `AdviseClock.CancelledForGood` | dshow_base/schedule.cpp:114-141 | once Unadvise has returned, no dispatch in any continuation signals the request |
| `AdviseClock.OthersAreKept` | dshow_base/schedule.cpp:114-141 | and every other request is left as it was |
| `WideArithmetic.LlMulDiv` | dshow_base/arithutil.cpp:77-241 | (a * b + d) / c over the integers, truncated, saturated or wrapped as MulDivValue says |
| `WideArithmetic.Int64x32Div32` | dshow_base/arithutil.cpp:243-360 | the same value on all inputs of its types |
| `WideArithmetic.LongMultiply` | dshow_base/arithutil.cpp:88-108 | the product out of 32-bit limbs, with no carry lost |
| `WideArithmetic.AddSigned` | dshow_base/arithutil.cpp:110-160 | adding d with carries and negation gives magnitude and sign of the sum |
| `WideArithmetic.LongDivide` | dshow_base/arithutil.cpp:220-240 | the 64 steps of shift and subtract compute the quotient |
| `WideArithmetic.DivideByDword` | dshow_base/arithutil.cpp:183-198 | two divisions by a DWORD compute the quotient |
| `WideArithmetic.DivideByHardware` | dshow_base/arithutil.cpp:335-358 | both hardware divisions have a high word below the divisor, and compute the quotient |
| `WideArithmetic.MulDivOutcome` | dshow_base/arithutil.cpp:162-217 | exact when it fits, saturated from 2^64, otherwise wrapped; for c = 0 the largest or smallest number by the sign of the sum |
| `WideArithmetic.TruncDivIs` | dshow_base/arithutil.cpp:162-166 | the truncated quotient is the one by its defining property |
| `WideArithmetic.LargeQuotientWraps` | dshow_base/arithutil.cpp:168-181 | for every quotient below 2^64: the result is the quotient if and only if that fits 64 bits, and otherwise has the opposite sign |
| `FrameStatistics.CauchySchwarz` | dshow_base/renbase.cpp:2769-2772 | the square of the sum is at most the count times the sum of squares |
| `FrameStatistics.SpreadBounds` | dshow_base/renbase.cpp:2777-2784 | the argument of the root is between 0 and the square of the bound |
| `FrameStatistics.SpreadIsVariance` | dshow_base/renbase.cpp:2754-2788 | the argument of the root is the mean halved squared difference over all pairs of the observations and one more of zero, to less than one |
| `FrameStatistics.PairDistancesAre` | dshow_base/renbase.cpp:2769-2784 | count times sum of squares less the squared sum is the sum over all pairs of their squared difference |
| `FrameStatistics.MillisecondsIs` | dshow_base/renbase.cpp:1965-1970 | times are recorded in whole milliseconds toward zero |
| `FrameStatistics.ThreeSteps` | dshow_base/renbase.cpp:2737-2745 | three Newton steps from the guess end at the root or the number after it |
| `FrameStatistics.FirstGuess` | dshow_base/renbase.cpp:2729-2736 | on everything the loop is given it ends at a guess not below the root and below twice it; at 0x40000000 that is 0x8000 |
| `FrameStatistics.Isqrt` | dshow_base/renbase.cpp:2727-2748 | for every int: an overflow or a division by zero exactly at 0x40000000, -1 and -2; floor of the root or one more below 3280 squared |
| `FrameStatistics.VideoRendererStatistics.RecordFrameLateness` | dshow_base/renbase.cpp:1965-2010 | what is recorded, when and with which clamps; the sums stay the sums of it |
| `FrameStatistics.VideoRendererStatistics.ResetStreamingTimes` | dshow_base/renbase.cpp:1838-1867 | starts over |
| `FrameStatistics.VideoRendererStatistics.GetStdDev` | dshow_base/renbase.cpp:2754-2788 | zero without clock or data, else the root of the spread, whose argument is between 0 and 1000000 |
| `FrameStatistics.VideoRendererStatistics.GetDevSyncOffset` | dshow_base/renbase.cpp:2793-2801 | the counts and sums it passes belong together |
| `FrameStatistics.VideoRendererStatistics.GetJitter` | dshow_base/renbase.cpp:2807-2816 | likewise for inter-frame times |
| `StreamControl.CheckFollowsTimeline` | dshow_base/strmctl.cpp:202-273 | the nineteen cases: a sample passes if and only if the timeline flows at some instant in it, and the timeline after it is unchanged |
| `StreamControl.CheckConservesNotices` | dshow_base/strmctl.cpp:149-171 | a decision sends the notifications that are due, in order, and keeps the others |
| `StreamControl.DecisionsFollowTimeline` | dshow_base/strmctl.cpp:234-273 | over any run of ordered samples each decision is the one the original timeline calls for |
| `StreamControl.EachCommandIsReported` | dshow_base/strmctl.cpp:149-187 | a run and then the stop send each pending notification exactly once, in timeline order |
| `StreamControl.HaltSendsTheRest` | dshow_base/strmctl.cpp:355-380 | stopping the graph sends all that are left |
| `StreamControl.OneExtraFrame` | dshow_base/strmctl.cpp:298-313 | what passes is what flows and, if asked for, the first sample held back after the stop |
| `StreamControl.FaultsInIff` | dshow_base/strmctl.cpp:162-171 | a run of samples executes a start that is to be reported without a sink if and only if there is one and the last sample ends after it |
| `StreamControl.RunFaultsIff` | dshow_base/strmctl.cpp:162-171 | samples and then the stop execute one if and only if there is one |
| `StreamControl.FirstCommandDecides` | dshow_base/strmctl.cpp:56-61 | with one start and one stop before the run the stream begins as the earlier one has it |
| `StreamControl.StopIsPlaced` | dshow_base/strmctl.cpp:56-66 | in every state of the graph: up to its time a stop leaves the stream flowing as it would without any stop, after it only from a later start on; its notice is due if it has a cookie and a sink; how the stream begins changes only while stopped |
| `StreamControl.StartIsPlaced` | dshow_base/strmctl.cpp:98-110 | likewise a start: from its time on the stream flows up to a stop not before it, before it as it would without any start |
| `StreamControl.StopTakesEffect` | dshow_base/strmctl.cpp:56-66 | given while running or paused, a stop before a sample holds the sample back, unless a start comes between, and has been reported then |
| `StreamControl.StartTakesEffect` | dshow_base/strmctl.cpp:98-110 | and a start before a sample's end lets it through, unless a stop comes between, and has been reported then |
| `StreamControl.BeginsAsEarlierIff` | dshow_base/strmctl.cpp:35-121 | over every sequence of timed or cancelling StopAt and StartAt calls made while stopped: how the stream begins is how the last command had it that was not put behind the other, so right exactly if the order of the two was then the final one |
| `StreamControl.StaysRightIff` | dshow_base/strmctl.cpp:56-105 | what one more command of either kind does: the beginning stays right if and only if the command does not move its own kind from before the other to behind it |
| `StreamControl.MovedStopStillDecides` | dshow_base/strmctl.cpp:56-65 | moving a stop behind the start leaves the stream flowing before the start |
| `StreamControl.MovedStartStillDecides` | dshow_base/strmctl.cpp:98-105 | moving a start behind the stop leaves it discarding before the stop |
| `StreamControl.BaseStreamControl.CheckSampleTimes` | dshow_base/strmctl.cpp:234-273 | the method decides by the timeline, or faults exactly when it executes a start to be reported without a sink |
| `StreamControl.BaseStreamControl.CheckOnce` | dshow_base/strmctl.cpp:297-313 | one turn of CheckStreamState, extra frame and fault included |
| `StreamControl.BaseStreamControl.StopAt` | dshow_base/strmctl.cpp:35-80 | in every state of the graph places or cancels the stop on the timeline with its notice, and resets the extra frame |
| `StreamControl.BaseStreamControl.StartAt` | dshow_base/strmctl.cpp:82-121 | in every state of the graph places or cancels the start on the timeline with its notice, with or without a sink |
| `StreamControl.BaseStreamControl.StopNow` | dshow_base/strmctl.cpp:67-76 | from then on the stream flows only from a pending start on; no stop is pending and no extra frame |
| `StreamControl.BaseStreamControl.StartNow` | dshow_base/strmctl.cpp:111-117 | from then on the stream flows up to a pending stop; no start is pending |
| `StreamControl.BaseStreamControl.NotifyFilterState` | dshow_base/strmctl.cpp:345-394 | stopping executes what is pending in order, or faults likewise, and lets the stream flow; other changes leave it alone |
| `DynamicPin.StepInv` | dshow_base/amfilter.cpp:4483-4517 | every step keeps what AssertValid asserts, and the account of requests and events |
| `DynamicPin.EachRequestIsAnsweredOnce` | dshow_base/amfilter.cpp:4114-4165 | each accepted request's event is set exactly once, on block or on cancel |
| `DynamicPin.BlockedPinIsQuiet` | dshow_base/amfilter.cpp:4114-4135 | a blocked pin has no users and gets none until unblocked |
| `DynamicPin.NobodyWaitsForAnOpenPin` | dshow_base/amfilter.cpp:4180-4219 | threads wait only while the pin is blocked |
| `DynamicPin.SecondRequestIsRefused` | dshow_base/amfilter.cpp:4078-4084 | a second request is refused with the right reason and changes nothing |
| `DynamicPin.BlockedIffUnused` | dshow_base/amfilter.cpp:4114-4247 | over every run without an unblocking, a pin once asked to block is blocked if and only if it has no users |
| `DynamicPin.UsersLeaveAndPinBlocks` | dshow_base/amfilter.cpp:4230-4247 | over every run without newcomers and unblocking, a pending block takes effect if and only if as many have left as used the pin |
| `DynamicPin.UsersAreCounted` | dshow_base/amfilter.cpp:4221-4247 | over every run: the users are those there were and the threads let on since, less those that left |
| `DynamicPin.NoBlockWhileInUse` | dshow_base/amfilter.cpp:4104-4111 | so while a thread let on has not left, no request is granted |
| `DynamicPin.ComesToWaitIff` | dshow_base/amfilter.cpp:4179-4180 | a thread is left waiting exactly on a blocked pin |
| `DynamicPin.LatecomerWaits` | dshow_base/amfilter.cpp:4179-4219 | and waits through every run without an unblocking and without the stop event |
| `DynamicPin.StopEventLetsGo` | dshow_base/amfilter.cpp:4195-4210 | the stop event lets it go without using the pin; it is told that the state has changed exactly while the pin is blocked |
| `DynamicPin.BlockBelongsToItsCaller` | dshow_base/amfilter.cpp:4078-4101 | over every run without an unblocking, the thread whose request was accepted is the one told that it already blocks the pin, and every other thread that another does |
| `DynamicPin.PendingBlockCanStarve` | dshow_base/amfilter.cpp:4179-4221 | with newcomers it can be put off without end |
| `DynamicPin.EventMeansBlockedIff` | dshow_base/amfilter.cpp:4114-4165 | a step that sets a caller's event leaves the pin blocked if and only if it is not an unblocking, and sets just the event that is owed |
| `DynamicPin.CancelledRequestLooksGranted` | dshow_base/amfilter.cpp:4137-4165 | cancelling sets the event although the pin was never blocked |
| `DynamicPin.DynamicOutputPin.AsynchronousBlock` | dshow_base/amfilter.cpp:4071-4112 | the method is the model's step, with its answer |
| `DynamicPin.DynamicOutputPin.UnblockOutputPin` | dshow_base/amfilter.cpp:4137-4165 | the method is the model's step |
| `DynamicPin.DynamicOutputPin.StartUsing` | dshow_base/amfilter.cpp:4167-4228 | one turn of the method is the model's step, and a thread that need not wait is counted |
| `DynamicPin.DynamicOutputPin.StopUsingOutputPin` | dshow_base/amfilter.cpp:4230-4247 | the method is the model's step, with one user less |
| `PullPin.PullPin.Process` | dshow_base/pullpin.cpp:432-566 | what reaches Receive is always a beginning of what is expected; EndOfStream is called if and only if all of it did and all answers were S_OK, or with overlapping requests all but the last and that one S_FALSE, and not after a failure or when the thread was asked for something else; never more than min(2, cBuffers) requests outstanding; one failure ends it, which OnError reports once, but with overlapping requests not if it was GetBuffer's |
| `PullPin.PullPin.ProcessOverlapped` | dshow_base/pullpin.cpp:465-515 | the loops with overlapping requests: not interrupted if and only if all is delivered and the answers are such; failures other than GetBuffer's are reported |
| `PullPin.PullPin.ProcessSync` | dshow_base/pullpin.cpp:516-563 | the loop that reads one sample at a time: not interrupted if and only if all is delivered and every answer is S_OK; every failure is reported |
| `PullPin.PullPin.QueueSample` | dshow_base/pullpin.cpp:336-368 | asks for the next piece and advances, or leaves the queue without it |
| `PullPin.PullPin.CollectAndDeliver` | dshow_base/pullpin.cpp:371-394 | delivers the oldest request |
| `PullPin.ExpectedTiles` | dshow_base/pullpin.cpp:449-460 | what is expected tiles the stretch from the aligned start to the aligned stop or the lesser of stop and duration, whichever is earlier: no gap, no overlap, no empty piece, all but the last of full size, one discontinuity |
| `PullPin.StretchIs` | dshow_base/pullpin.cpp:449-460 | the aligned start is the last multiple of the alignment not behind the start, the aligned stop the first not before the stop, counted in whole units |
| `PullPin.PiecesTile` | dshow_base/pullpin.cpp:349-356 | the pieces follow one another from start to end |
| `PullPin.ReachesStopIff` | dshow_base/pullpin.cpp:453-460 | exactly when the aligned stop reaches the stop |
| `PullPin.AlignDownIs` | dshow_base/pullpin.h:114-117 | the mask rounds down for powers of two |
| `PullPin.AlignUpIs` | dshow_base/pullpin.h:119-122 | the mask rounds up for powers of two |
| `BitmapInfo.MultiplyCheckIff` | dshow_base/checkbmi.h:11-17 | dividing the product again finds every overflow and nothing else |
| `BitmapInfo.ValidateIff` | dshow_base/checkbmi.h:32-114 | the check accepts exactly the headers that are safe in exact arithmetic |
| `BitmapInfo.AcceptedMeans` | dshow_base/checkbmi.h:20-30 | for an accepted header image, palette and masks are in bounds and no 32-bit step wraps; a palette the header leaves open has an entry for every value of a pixel |
| `BitmapInfo.PaletteFitsIff` | dshow_base/checkbmi.h:90-98 | the size asked for holds masks and palette, and with no number given an entry for every pixel value of up to 8 bits, if and only if it is what the check computes |
| `BitmapInfo.RowBytesIs` | dshow_base/checkbmi.h:104-112 | a row takes the least multiple of 32 bits that holds it |
| `BitmapInfo.TotalCheckIff` | dshow_base/checkbmi.h:66-83 | the size check with 200 bits a pixel, in exact arithmetic |
| `IntStream.RoundTrip` | dshow_base/pstream.cpp:129-190 | ReadInt reads what WriteInt wrote, for every 32-bit integer, taking its twelve characters |
| `IntStream.ListRoundTrip` | dshow_base/pstream.cpp:129-190 | likewise for lists |
| `IntStream.TextIs` | dshow_base/pstream.cpp:129-134 | the text: a space after eleven characters, a minus sign if negative, and the decimal digits of the magnitude by their place value |
| `IntStream.ReadIs` | dshow_base/pstream.cpp:144-190 | on every text: the integer its sign and digits stand for modulo 2^32, if one of five blanks follows; otherwise the read failure or the format error, and how much was taken |
| `IntStream.Stream.ReadInt` | dshow_base/pstream.cpp:144-190 | the loop computes ReadOne on any stream, failures included |
| `IntStream.Stream.WriteInt` | dshow_base/pstream.cpp:129-134 | appends the twelve characters |

## Left out

- COM: interface queries, class factories, type libraries, registration, property pages, pin connection, media types, quality control, drawing, message pumping, logging and performance code.
- Running out of memory for list nodes, packets and handles; only the samples of an allocator and its block may fail to be made.
- OutputQueueInvariant.StepInv: does not cover calls of Reset that overlap a flush or one another, because they wait for one event.
- OutputQueueInvariant.StepInv: NewSegment reads m_hr before taking the lock; the model lets it queue whatever m_hr is, which allows more runs than the code has.
- OutputQueueObject.OutputQueue.ReceiveMultiple: does not model a negative count, which is answered E_INVALIDARG before anything else.
- OutputQueueDirect.DirectQueue.ReceiveMultiple: as a method covers the calls in which the loop ends and the flag does not change; LoopEndsIff and TurnsIff say what happens in the others.
- The direct-mode branches of NewSegment, EOS, BeginFlush, EndFlush and Reset, and the event that tells of entries taken off the list.
- OutputQueueObject.OutputQueue.NotifyThread: does not model the semaphore's maximum count.
- AllocatorInvariant.StepInv: does not model the notification callback of SetNotify, nor the base class's own SetProperties, which accepts only an alignment of 1.
- AdviseSchedule.Schedule.Advise: as a method covers the dispatches that come to an end; CompletesIff says which these are, and FallsOffExactly which of the others run off the list.
- AdviseClock.StepInv: does not model the 32-bit wrap of the millisecond counter or GetTime's own memory of its last answer; cookies do not wrap.
- WideArithmetic.DivideByDword: does not model the USE_LARGEINT variant of that branch.
- FrameStatistics.VideoRendererStatistics.RecordFrameLateness: takes fewer than 2^31 - 1 frames since the last reset.
- StreamControl.BaseStreamControl.CheckOnce: does not model the waiting in CheckStreamState's loop, or flushing.
- DynamicPin.StepInv: does not model failures of the operating system's handles, or a thread that waits for its own block.
- PullPin.PullPin.Process: does not model positions whose times leave 64 bits, or buffers of different sizes; a reader answers requests in the order they were made.
- PullPin.ExpectedTiles: is stated for alignments that are powers of two and buffer sizes that are multiples of them.
- IntStream.Stream.ReadInt: a stream that reports its end as success, leaving the character as it was, is not modelled; the formatting of WriteInt is that of the library call it makes.
- CCmdQueue, the source stream and transform filters, and the media-type and FOURCC helpers, which are easy or rest on code that is not part of this model.
