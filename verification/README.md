# A verified model of the StupidAR audio renderer and its DirectShow base classes

The repository is an audio renderer filter together with the DirectShow base classes it is
built on.  This project models the parts of it that are hard to get right and proves what they
are for:

- the 128-bit scaled division `llMulDiv` and its fast form `Int64x32Div32`, and the frame
  statistics of the video renderer that are computed with them;
- the scheduler `CAMSchedule`, a linked list relinked in place, the reference clock on top of
  it, and the clock thread against its clients;
- the memory allocator with its lazy semaphore, asynchronous decommit and self-held reference;
- the block and unblock protocol of `CDynamicOutputPin`;
- the output queue's worker thread against its clients, and its form without a thread;
- the renderer's Receive against Stop, Pause, Run and flushing;
- stream control, judged by a timeline;
- the pull pin's synchronous and overlapped read loops;
- `BlockingQueue` as a monitor with condition-variable wait sets;
- the PCM conversion matrix.

## How it is laid out

Each component comes in up to three parts.  A `...Spec` module says over plain values what one
locked section of the code does.  A class has the fields of the C++ class and methods that do
the work on them in place, each proved against the specification.  A `...Runs` module (or
`ClockThread`, `DynamicPinSpec`) makes a state machine of the same sections, with the unlocked
actions, the events and semaphores and the waiting threads; an invariant is shown to be kept by
every step, hence to hold in every state of every run, and the theorems are drawn from it.
`RendererModes`, `RendererStale` and `OutputQueueErrors` draw further theorems from such machines.

A step is a section between taking and giving up a lock, an unlocked access to a shared field, a
call to another filter, or a wait.  Where the order in which other threads act is not fixed by
the code, every order is a run.

Results that differ from what the comments of the source say:

- `isqrt` is said to be accurate to the nearest millisecond for roots up to 1000; it gives the
  floor of the root or one more for arguments up to ten million, is off by up to root / 3280
  more below 2^30, overflows at exactly 2^30 and divides by zero for -1 and -2
  (`FrameStats.Isqrt`).
- `GetStdDev` is told of one observation more than was recorded; the variance stays within
  [0, 10^6] all the same (`FrameStats.VarianceInRange`).
- Quotients of magnitude 2^63 up to 2^64 are not saturated by `llMulDiv` but come out with the
  opposite sign (`MulDiv.OverflowBands`).
- The header's equation between waiters and semaphore count fails once a `AM_GBF_NOWAIT` call
  has timed out (`AllocatorRuns.WaitersAreCountedIff`).
- `COutputQueue::IsIdle` can say idle with a sample on the list, exactly in the configurations
  with exact batching (`OutputQueueRuns.IdleMeansAllReleased`, `IdleWithSampleQueued`).
- A flush of the output queue can let old samples through: a Reset the worker has in hand when the
  flush begins sets the event that EndFlush waits for (`OutputQueueRuns.EventUnseenIff`,
  `ResetLetsOldThrough`).
- A flush that falls between the two halves of Receive's paused branch leaves the source thread
  waiting for nothing (`RendererRuns.WaiterHasSampleUnless`, `RendererStale.WaitsForNothing`).
- The assertion on the batch in the form without a thread fails in every configuration with
  batches of more than one that are not exact (`DirectQueueSpec.AssertionHoldsIff`).
- `begin_flush` of `BlockingQueue` is said to release all blocked threads; it does so exactly if
  `end_flush` is withheld until none is left to check again
  (`BlockingQueueRuns.FlushReleasesAllIff`).
- A start command with a cookie calls the event sink without a look whether there is one
  (`StreamControlSpec.StreamFaultsIff`).
- The rule that a stream whose first command is a start begins by discarding fails when a stop
  is moved behind the start (`StreamControlSpec.StopAtBeginsOppositeIff`).
- A float sample of 1.0 becomes the most negative 24-bit sample (`Pcm.FloatToS24Iff`).

## Model

| member | source | states |
|---|---|---|
| MulDiv.LlMulDiv | baseclasses/arithutil.cpp:77-241 | for all 64-bit a, b, c, d the limb arithmetic returns the one value ScaledValue defines over exact integers for (a*b+d)/c |
| MulDiv.Int64x32Div32 | baseclasses/arithutil.cpp:243-360 | the 96-bit form returns the same ScaledValue as the general form, in the exact, wrapped, saturated and zero-divisor cases |
| MulDiv.ExactIffRepresentable | baseclasses/arithutil.cpp:77-241 | that value is the quotient truncated toward zero if and only if the quotient fits 64 signed bits |
| MulDiv.OverflowBands | baseclasses/arithutil.cpp:162-241 | out of range: saturation by sign from magnitude 2^64 on and for a zero divisor, off by 2^64 with the opposite sign in between |
| MulDiv.WrappedQuotient | baseclasses/arithutil.cpp:162-241 | arguments that meet the band in between: 2^62 * 2 / 1 comes out as the least value |
| MulDiv.Multiply | baseclasses/arithutil.cpp:88-108 | schoolbook multiplication of 32-bit halves gives the full 128-bit product |
| MulDiv.AddSigned | baseclasses/arithutil.cpp:110-160 | the sign-extended addition and renormalisation give the magnitude and sign of the exact sum |
| MulDiv.LongDivide | baseclasses/arithutil.cpp:220-240 | 64 rounds of shift and subtract give the quotient of the 128-bit number; the high limb stays below the divisor, so no shifted-out bit is lost |
| MulDiv.DivideGeneral | baseclasses/arithutil.cpp:162-241 | all three division routes give the signed, wrapped or saturated quotient |
| MulDiv.DivideBy32 | baseclasses/arithutil.cpp:183-217 | two narrow divisions with a carried remainder equal the one wide division |
| MulDiv.TwoStepDivision | baseclasses/arithutil.cpp:183-217 | dividing the high part first and carrying the remainder is exact |
| MulDiv.EnlargedUnsignedDivide | baseclasses/arithutil.cpp:24-37 | the remainder, and the quotient modulo 2^32, hence the quotient itself when it fits |
| MulDiv.Multiply96 | baseclasses/arithutil.cpp:255-267 | the 64 by 32 bit product in 96 bits |
| MulDiv.AddSigned96 | baseclasses/arithutil.cpp:269-321 | signed addition in 96 bits gives magnitude and sign of the exact sum |
| MulDiv.DivideFast | baseclasses/arithutil.cpp:323-360 | the narrow division, its saturation test and the sign |
| FrameStats.StatsRecorder.RecordFrameLateness | baseclasses/renbase.cpp:1965-2010 | the counters always are those of the frames recorded, clamped and skipped as the code does |
| FrameStats.StatsRecorder.DevSyncOffset | baseclasses/renbase.cpp:2793-2801 | the reported deviation is the root, or one more, of (S - T^2/N)/(N - 1), both quotients rounded down, over the sum T and sum of squares S of the recorded lateness, N one more than their number |
| FrameStats.StatsRecorder.Jitter | baseclasses/renbase.cpp:2807-2816 | the same for the times between frames |
| FrameStats.LateSums | baseclasses/renbase.cpp:1965-2010 | the running sums are sum and sum of squares of the recorded lateness, for every history |
| FrameStats.GapSums | baseclasses/renbase.cpp:1965-2010 | the same for the frame times |
| FrameStats.LateDataIs | baseclasses/renbase.cpp:1965-2010 | the recorded lateness is that of every frame but the first two, in order |
| FrameStats.GapDataIs | baseclasses/renbase.cpp:1994-2006 | the recorded gaps are those of every frame but the first three |
| FrameStats.LateMsIs | baseclasses/renbase.cpp:1968-1985 | a frame counts with its lateness in whole milliseconds toward zero, from 1001 on either way with a second |
| FrameStats.GapMsIs | baseclasses/renbase.cpp:1994-2003 | a gap counts with its whole milliseconds, a negative one of a millisecond or more and an overlong one with a second |
| FrameStats.CauchySchwarz | baseclasses/renbase.cpp:2754-2790 | the squared sum is at most the count times the sum of squares |
| FrameStats.VarianceInRange | baseclasses/renbase.cpp:2754-2790 | the variance computed through llMulDiv is within [0, 10^6], so the assertion never fires and the cast is exact |
| FrameStats.VarianceEstimates | baseclasses/renbase.cpp:2767-2783 | wherever T^2/N does not exceed S the number whose root is taken is the quotient of S - T^2/N by N - 1 |
| FrameStats.DataEstimated | baseclasses/renbase.cpp:2767-2783 | on recorded data it never does, so that number is the estimate of their variance |
| FrameStats.SyncOffsetVariance | baseclasses/renbase.cpp:2793-2801 | that holds after every sequence of recordings, for the sync offset |
| FrameStats.JitterVariance | baseclasses/renbase.cpp:2807-2816 | and for the jitter |
| FrameStats.Isqrt | baseclasses/renbase.cpp:2727-2748 | for every int: how far three Newton steps end from the floor of the square root below, at and above 2^30; a division by zero exactly for -1 and -2; a negative value below that |
| FrameStats.NewtonStep | baseclasses/renbase.cpp:2737-2746 | a step never goes below the root and shrinks the excess |
| FrameStats.NearRootInRange | baseclasses/renbase.cpp:2727-2748 | up to ten million the result is the root or one more |
| FrameStats.GetStdDev | baseclasses/renbase.cpp:2754-2790 | for all sums with T^2/N not above S and a variance (S - T^2/N)/(N - 1) of at most ten million: its root or one more; for all others the same of the number the wrapping subtraction and the cast leave, and when it fails |
| FrameStats.CastIsExact | baseclasses/renbase.cpp:2779-2785 | where the exact variance is in range that number is the variance |
| Schedule.AMSchedule.AddAdvisePacket | baseclasses/schedule.cpp:77-111 | the linked list carries the packet inserted before the first one not earlier, under the next cookie; the event is set exactly when it became the first; cache and list stay disjoint |
| Schedule.AMSchedule.InsertPacket | baseclasses/schedule.cpp:190-215 | the private insertion, with the walk to the sentinel |
| Schedule.AMSchedule.FindNotEarlier | baseclasses/schedule.cpp:200-206 | the walk ends at the place where insertion keeps the order |
| Schedule.AMSchedule.Unadvise | baseclasses/schedule.cpp:114-141 | S_OK if and only if the cookie was there, and then exactly that packet is gone |
| Schedule.AMSchedule.Advise | baseclasses/schedule.cpp:143-186 | the loop terminates, leaves and signals what AdviseAll says and returns the time of the first node |
| Schedule.AMSchedule.DispatchFirst | baseclasses/schedule.cpp:160-178 | one round: the first packet's own handle signalled for its time and by its kind, then the packet moved on or dropped |
| Schedule.AMSchedule.ShuntHead | baseclasses/schedule.cpp:232-262 | the head goes before the first later node, in place |
| Schedule.AMSchedule.TakePacket | baseclasses/schedule.cpp:88-97 | the first node of the cache, or a new one if there is none |
| Schedule.AMSchedule.Recycle | baseclasses/schedule.cpp:217-228 | the node is put first in the cache unless five are there already |
| Schedule.AMSchedule.LinkAfter | baseclasses/schedule.h:56-60 | InsertAfter keeps head, nodes and sentinel chained |
| Schedule.AMSchedule.UnlinkAfter | baseclasses/schedule.h:65-71 | RemoveNext keeps them chained without the node |
| ScheduleSpec.RunsKeepValid | baseclasses/schedule.cpp:77-262 | every run of Add, Unadvise and Advise keeps the list sorted below the sentinel's time with distinct non-zero cookies |
| ScheduleSpec.ValidInsertNew | baseclasses/schedule.cpp:190-215 | insertion under the next cookie keeps that |
| ScheduleSpec.ValidRemove | baseclasses/schedule.cpp:114-141 | so does removal, and the cookie is gone |
| ScheduleSpec.ValidAdvise | baseclasses/schedule.cpp:143-186 | so does a whole Advise call |
| ScheduleSpec.ValidDispatchIff | baseclasses/schedule.cpp:160-178 | a round keeps the list in order if and only if a periodic packet moved on stays below the sentinel's time |
| ScheduleSpec.AdviseExactly | baseclasses/schedule.cpp:143-186 | Advise(t) signals a due one-shot once and a periodic packet at e with period P exactly floor((t-e)/P)+1 times |
| ScheduleSpec.SignalledOnce | baseclasses/schedule.cpp:160-178 | Advise(t) gives exactly the signals the bookings ask for up to t, each once: the booking's own handle, set or released by its kind, for its time or, periodic, any whole number of periods later |
| ScheduleSpec.DispatchDue | baseclasses/schedule.cpp:160-178 | one round gives one of them and leaves the others due |
| ScheduleSpec.AdviseFiresWhatIsDue | baseclasses/schedule.cpp:143-186 | every packet is signalled as often as it is due, and exactly the others, moved on where periodic, are left |
| ScheduleSpec.AdviseInOrder | baseclasses/schedule.cpp:143-186 | signals come in time order, none later than t, and everything left is later than t |
| ScheduleSpec.DispatchUsesOne | baseclasses/schedule.cpp:160-178 | each round uses up one due firing: the measure that ends the loop |
| ScheduleSpec.AdvancedIsNext | baseclasses/schedule.cpp:164-169 | a periodic packet is left at its first time after t on its own grid, otherwise unchanged |
| ScheduleSpec.NextIsLater | baseclasses/schedule.cpp:143-186 | the returned time is the least one left and later than t |
| ReferenceClock.RefClock.AdviseTime | baseclasses/refclock.cpp:175-200 | error cases, booking and event |
| ReferenceClock.RefClock.AdvisePeriodic | baseclasses/refclock.cpp:205-223 | the same for periodic bookings |
| ReferenceClock.RefClock.GetTime | baseclasses/refclock.cpp:142-171 | the time given never goes back; S_OK exactly if it advanced |
| ReferenceClock.RefClock.SetTimeDelta | baseclasses/refclock.cpp:264-315 | the thread is woken exactly if time jumps ahead by over half a millisecond with bookings pending |
| ReferenceClock.RefClock.ThreadRound | baseclasses/refclock.cpp:335-363 | one round of the thread: what is dispatched, the next time, which is over a millisecond ahead, and the wait |
| ReferenceClock.WaitIsSafe | baseclasses/refclock.cpp:350-362 | a computed wait is at least 1 ms and does not end after the time it is for |
| ReferenceClock.ClockTracksTime | baseclasses/refclock.cpp:232-251 | through any number of timer wraps the clock follows true time if read every 2^31 ms |
| ReferenceClock.ClockGoesBackIff | baseclasses/refclock.cpp:244-248 | and a pause of 2^31 ms or more, short of a wrap, is exactly what moves it back |
| ClockThread.NextKeepsInv | baseclasses/refclock.cpp:324-365 | every step of clients and thread keeps: at the wait the event is set or no booking is before m_rtNextAdvise |
| ClockThread.RunsKeepInv | baseclasses/refclock.cpp:324-365 | so it holds in every state of every run |
| ClockThread.NoBookingMissed | baseclasses/refclock.cpp:324-365 | whenever the thread sleeps, its event is set or its wait ends by the time of every booking, and time has not been set ahead of the bookings meanwhile |
| ClockThread.NeverSpinsNeverEarly | baseclasses/refclock.cpp:345-362 | no wait of zero, at most one wait ended early for each SetEvent call, no signal over a millisecond early, GetTime never back from one Restart to the next |
| ClockThread.ShutdownWakesThread | baseclasses/refclock.cpp:54-64 | once the destructor has triggered the thread it cannot sleep on |
| AllocatorSpec.GrantedSizeRoundsIff | baseclasses/amfilter.cpp:5097-5105 | the size granted covers the request, ends on the alignment and wastes less than one unit if and only if, rounded and without the prefix, it fits a LONG; for every sensible request whose bytes and prefix together fit one |
| AllocatorSpec.OverflowedGrantIff | baseclasses/amfilter.cpp:5097-5105 | where they do not fit and the alignment is a power of two, it does so if and only if nothing had to be rounded |
| AllocatorSpec.OverflowedRequestWastes | baseclasses/amfilter.cpp:5097-5105 | a request that is granted more than a unit too much |
| AllocatorSpec.GrantedSizeWraps | baseclasses/amfilter.cpp:5097-5105 | the arithmetic is that of wrapping LONGs |
| AllocatorSpec.AlignedSizeIs | baseclasses/amfilter.cpp:5149-5166 | the overflow checks refuse exactly the sizes whose rounding does not fit a LONG |
| AllocatorSpec.CarveLayout | baseclasses/amfilter.cpp:5189-5215 | samples cut from a block lie inside it and apart from each other, prefixes included |
| AllocatorSpec.ReleaseKeepsSound | baseclasses/amfilter.cpp:4790-4841 | a buffer coming back keeps the counts, the flags and the waiting count in agreement with the buffers out, and completes a decommit exactly if it was the last |
| AllocatorSpec.DecommitKeepsSound | baseclasses/amfilter.cpp:4920-4966 | so does Decommit, which is finished at once exactly if nothing is out |
| AllocatorSpec.CommitKeepsSound | baseclasses/amfilter.cpp:4881-4919 | so does Commit: success means the agreed number of samples, failure that nothing is out |
| AllocatorSpec.CommitOutcome | baseclasses/amfilter.cpp:5121-5219 | Commit succeeds if and only if nothing is to be allocated, or the properties are set and, where changed, the slots together fit a LONG, the memory is there and all samples can be created; the result says which is missing |
| AllocatorSpec.CommitMemory | baseclasses/amfilter.cpp:5121-5219 | unchanged properties keep the memory; otherwise the old block is given up and any block there is afterwards is a new one |
| AllocatorSpec.SetPropertiesKeepsSound | baseclasses/amfilter.cpp:5049-5115 | so does SetProperties, which succeeds only with nothing out |
| AllocatorRuns.NextKeepsInv | baseclasses/amfilter.h:1392-1426 | every step keeps the semaphore, ownership, phase and layout invariants |
| AllocatorRuns.RunsKeepInv | baseclasses/amfilter.cpp:4731-4966 | so they hold in every interleaving |
| AllocatorRuns.ReleaseKeepsInv | baseclasses/amfilter.cpp:4790-4841 | ReleaseBuffer keeps them, completing a pending decommit with the last buffer |
| AllocatorRuns.DecommitKeepsInv | baseclasses/amfilter.cpp:4920-4966 | so does Decommit |
| AllocatorRuns.CommitKeepsInv | baseclasses/amfilter.cpp:4881-4919 | so does Commit, through every failure of Alloc |
| AllocatorRuns.NoWaiterStuck | baseclasses/amfilter.h:1392-1426 | while a buffer is free or after a decommit the semaphore lets every waiter through |
| AllocatorRuns.WaitersAreCountedIff | baseclasses/amfilter.h:1411-1414 | m_lWaiting plus semaphore count equals the waiters if and only if no NOWAIT call has timed out |
| AllocatorRuns.NowaitBreaksTheCount | baseclasses/amfilter.cpp:4753-4765 | a run in which one has |
| AllocatorRuns.HeldBuffersApart | baseclasses/amfilter.cpp:5189-5215 | in every run two buffers held at once share no byte and lie in the live block |
| AllocatorRuns.HeldAsAgreed | baseclasses/amfilter.cpp:5149-5215 | in every run a buffer that is held has the agreed size and begins, prefix included, on the agreed alignment |
| AllocatorRuns.NeverActsOnBuffersInUse | baseclasses/amfilter.cpp:5050-5266 | the block is replaced or freed and the properties change only while nothing is held |
| AllocatorRuns.AliveWhileInUse | baseclasses/amfilter.cpp:4881-4966 | one self-reference exactly while committed or decommitting; without any, nothing is held |
| AllocatorRuns.FreeCountIs | baseclasses/amfilter.cpp:4859-4867 | GetFreeCount is the agreed number less the buffers held |
| MemAllocator.Allocator.TakeSample | baseclasses/amfilter.cpp:4743-4755 | GetBuffer's locked section: the buffer given out is held by nobody else, and the allocator's invariant is kept |
| MemAllocator.Allocator.ReleaseBuffer | baseclasses/amfilter.cpp:4790-4819 | the invariant kept; nobody left counted as waiting; a Release owed exactly when the last buffer out completes a decommit |
| MemAllocator.Allocator.Decommit | baseclasses/amfilter.cpp:4920-4966 | the invariant kept; every waiter let go; in progress exactly while buffers are out, a Release owed exactly when none are |
| MemAllocator.Allocator.Commit | baseclasses/amfilter.cpp:4881-4919 | the invariant kept; exactly when it succeeds, finds no properties or is out of memory; committed exactly if it succeeds, then with the agreed number of samples; failing only with no buffer out |
| MemAllocator.Allocator.Alloc | baseclasses/amfilter.cpp:5121-5219 | the size checks, the block and the samples, for every outcome of the system calls |
| MemAllocator.Allocator.CreateSamples | baseclasses/amfilter.cpp:5189-5219 | the loop cuts off sample after sample, also when it stops part way |
| MemAllocator.Allocator.ReallyFree | baseclasses/amfilter.cpp:5240-5266 | every sample and the block are gone |
| MemAllocator.Allocator.SetProperties | baseclasses/amfilter.cpp:5049-5115 | the invariant kept; count, alignment and prefix as asked for, the size rounded as it is for exactly the requests that can be; each refusal if and only if its condition holds, and without any change |
| DynamicPinSpec.NextKeepsInv | baseclasses/amfilter.cpp:4071-4254 | every step keeps: blocked means unused, pending means used with a live handle, the unblock event is reset exactly while blocked |
| DynamicPinSpec.RunsKeepInv | baseclasses/amfilter.cpp:4483-4517 | so the assertions of AssertValid hold in every run |
| DynamicPinSpec.EachRequestSignalledOnce | baseclasses/amfilter.cpp:4071-4165 | each accepted block request is signalled exactly once, unless it is still pending, and then the pin is in use |
| DynamicPinSpec.BlockedMeansUnused | baseclasses/amfilter.cpp:4167-4247 | no one uses a blocked pin; once it is unblocked every waiter can go on |
| DynamicPin.DynamicOutputPin.AsynchronousBlock | baseclasses/amfilter.cpp:4071-4112 | refused if and only if a block is on, by the result naming its own thread exactly if that asked for it; otherwise completed at once with the caller's event set if nobody uses the pin, else pending |
| DynamicPin.DynamicOutputPin.BlockOutputPin | baseclasses/amfilter.cpp:4114-4135 | the request is completed and its event set |
| DynamicPin.DynamicOutputPin.Unblock | baseclasses/amfilter.cpp:4137-4165 | S_FALSE if and only if not blocked; a pending request is cancelled with its event set, a completed one is not signalled again |
| DynamicPin.DynamicOutputPin.TryStartUsing | baseclasses/amfilter.cpp:4167-4228 | a user more, unless the pin is blocked |
| DynamicPin.DynamicOutputPin.StopUsing | baseclasses/amfilter.cpp:4230-4247 | a pending block is completed, with its event set, exactly by the last user |
| OutputQueueSpec.GatherKeeps | baseclasses/outputq.cpp:217-303 | gathering a batch loses nothing and keeps the order of batch, control item and list |
| OutputQueueSpec.GatherFits | baseclasses/outputq.cpp:217-303 | the batch is never overfilled and the worker waits only with an empty list and nothing to send |
| OutputQueueSpec.SendAnywaySends | baseclasses/outputq.cpp:222-290 | everything queued before a SendAnyway, a segment, an end of stream or a reset is taken for sending: what the worker keeps back depends on what was queued after it alone |
| OutputQueueSpec.NotifyKeepsAlert | baseclasses/outputq.cpp:759-767 | after a control item, an end of stream or a termination a parked worker is let through, and the wake-up invariant is kept |
| OutputQueueSpec.FlushKeepsAlert | baseclasses/outputq.cpp:463-491 | the same for a flush that is passed on |
| OutputQueueRuns.NextKeepsInv | baseclasses/outputq.cpp:203-371 | every step of clients and worker keeps the order, balance and wake-up invariants |
| OutputQueueRuns.RunsKeepInv | baseclasses/outputq.cpp:203-371 | so they hold in every run |
| OutputQueueRuns.NothingLostWhileClean | baseclasses/outputq.cpp:203-371 | while downstream says S_OK and nothing is flushed, delivered, in flight, batch and list are in this order all that was accepted |
| OutputQueueRuns.DeliveredInOrder | baseclasses/outputq.cpp:203-371 | under errors, flushes and resets delivery is an in-order subsequence of what was accepted |
| OutputQueueRuns.ReleasedOnceOrHeld | baseclasses/outputq.cpp:203-371 | every accepted sample is released exactly once or still held |
| OutputQueueRuns.NoLostWakeUp | baseclasses/outputq.cpp:463-512 | a worker at its wait is let through, or nothing awaits it: no termination, no flush, nothing to send |
| OutputQueueSpec.ParkedHasNothingToDo | baseclasses/outputq.cpp:687-696 | whenever a notification is skipped the worker, if run, would wait again |
| OutputQueueRuns.FlushEventMeansSeen | baseclasses/outputq.cpp:463-551 | in a flush that was passed on, EndFlush's event is set only when the worker has seen the flush, if no Reset was in the worker's hand when it began |
| OutputQueueRuns.EventUnseenIff | baseclasses/outputq.cpp:361-364 | the event is set for an unseen flush if and only if the worker had a Reset in hand when the flush began, has answered it and has not looked at the queue since, or only to end |
| OutputQueueRuns.NothingOldAfterFlush | baseclasses/outputq.cpp:463-551 | once the event EndFlush waits for is set, nothing accepted before the matching BeginFlush is delivered any more, if no Reset was in the worker's hand at BeginFlush |
| OutputQueueRuns.ResetLetsOldThrough | baseclasses/outputq.cpp:361-364 | for every configuration a run in which a Reset in hand is answered during the flush and the samples accepted before it are delivered after its end |
| OutputQueueErrors.NothingSentWhileShut | baseclasses/outputq.cpp:313-357 | in every run, from a result other than S_OK or a flush until m_hr is made S_OK again, no sample and no end of stream goes downstream, only segments |
| OutputQueueErrors.BadResultShuts | baseclasses/outputq.cpp:313-327 | the pin's first result other than S_OK is the one kept, and it holds as soon as it is given |
| OutputQueueErrors.ReopenedBy | baseclasses/outputq.cpp:361-364 | only a client that ends a flush, and the worker at a Reset, make m_hr S_OK again |
| OutputQueueErrors.SegmentsGetThrough | baseclasses/outputq.cpp:366-370 | an accepted segment is delivered or still on its way whatever m_hr has been, as long as nothing is flushed or terminated |
| OutputQueueErrors.NothingToFlush | baseclasses/outputq.cpp:482-486 | while m_bFlushed is set, so that a flush may be skipped, no sample and no end of stream is accepted |
| OutputQueueRuns.IdleMeansAllReleased | baseclasses/outputq.cpp:775-795 | without exact batching IsIdle means nothing queued and every sample released |
| OutputQueueRuns.IdleWithSampleQueued | baseclasses/outputq.cpp:775-795 | with exact batching of any size there is a run in which it does not |
| OutputQueue.Queuer.ReceiveMultiple | baseclasses/outputq.cpp:675-697 | samples queued in order, or all released when the sticky result is not S_OK; a waiting worker is let through if and only if there is now enough for it |
| OutputQueue.Queuer.QueueItem | baseclasses/outputq.cpp:386-390 | the item goes behind everything there is, a parked worker is let through to it, and no wake-up is lost |
| OutputQueue.Queuer.Eos | baseclasses/outputq.cpp:436-458 | an end of stream queued in order with the worker let through, or nothing at all when the sticky result is not S_OK |
| OutputQueue.Queuer.BeginFlush | baseclasses/outputq.cpp:463-491 | samples are turned away from now on, by S_FALSE or the earlier result; a flush passed on is put to the worker, let through if parked; passed on unless the optimisation applies |
| OutputQueue.Queuer.Terminate | baseclasses/outputq.cpp:156-162 | the worker is asked to end and let through if parked |
| OutputQueue.Queuer.FreeSamples | baseclasses/outputq.cpp:716-754 | every sample on the list and in the batch released, each once |
| OutputQueue.Queuer.FillBatch | baseclasses/outputq.cpp:222-290 | the inner loop never overruns the batch array and gathers what Gather says |
| OutputQueue.Queuer.Collect | baseclasses/outputq.cpp:217-303 | the worker's locked section: it parks only with nothing to do, answers a flush by leaving nothing queued, and otherwise leaves with what Gather says |
| DirectQueue.DirectQueuer.ReceiveMultiple | baseclasses/outputq.cpp:594-674 | without a thread: what becomes of the samples, how many stay batched, that the first answer other than S_OK is the result and the last one asked for, and the number processed as the count given less the batches filled plus what downstream has processed |
| DirectQueue.DirectQueuer.Fill | baseclasses/outputq.cpp:641-669 | the loop over the samples works on the array as AddAll does on sequences |
| DirectQueueSpec.ReceiveSplits | baseclasses/outputq.cpp:641-669 | in a call all samples are, in order, sent on, thrown away after a bad result, or still batched, and the first two are released |
| DirectQueueSpec.ResultIsKept | baseclasses/outputq.cpp:641-669 | in a call every answer but the last was S_OK, the last is the sticky result, and while that is S_OK every full batch was sent |
| DirectQueueSpec.LostIs | baseclasses/outputq.cpp:655-673 | iLost is the batches filled times their size less what downstream says it has processed |
| DirectQueueSpec.NothingSentAfterBadResult | baseclasses/outputq.cpp:594-625 | after a result other than S_OK nothing is sent and the result stays until a Reset or the end of a flush |
| DirectQueueSpec.NothingLostWhileOk | baseclasses/outputq.cpp:594-674 | over every sequence of calls answered with S_OK and without a flush, what was handed on and what is batched are in order all that was given |
| DirectQueueSpec.FlushDiscards | baseclasses/outputq.cpp:492-551 | from BeginFlush on nothing goes downstream, and EndFlush leaves nothing of what was given before it |
| DirectQueueSpec.MarkHoldsNothingBack | baseclasses/outputq.cpp:374-447 | at an end of stream or a segment a queue with exact batches holds nothing back, and SendAnyway never does |
| DirectQueueSpec.ReleasedOnceOrBatched | baseclasses/outputq.cpp:594-754 | over every sequence of calls each sample given is released exactly once or still in the batch |
| DirectQueueSpec.RunsKeepBatch | baseclasses/outputq.cpp:634 | over every sequence of calls the batch is never full at an entry |
| DirectQueueSpec.AssertionHoldsIff | baseclasses/outputq.cpp:635 | over every sequence of calls and for any downstream, the assertion that nothing is batched unless batches are exact holds at every entry if and only if batches are exact or of one |
| DirectQueueSpec.OneSampleBreaks | baseclasses/outputq.cpp:635 | otherwise one sample breaks it |
| Renderer.BaseRenderer.PrepareReceive | baseclasses/renbase.cpp:1039-1116 | the sample becomes the pending one if and only if no check refuses it, and m_bInReceive says so; the render event is then set, or the clock advised, exactly if streaming and as its schedule says |
| Renderer.BaseRenderer.RenderPending | baseclasses/renbase.cpp:1176-1193 | a sample is drawn exactly if one is pending while streaming and not stopped; never one that was dropped, never one twice; none is pending and no notification outstanding afterwards |
| Renderer.BaseRenderer.StartStreamingNow | baseclasses/renbase.cpp:1366-1397 | a sample pending when streaming starts is due at once unless an advise could be set up for it |
| Renderer.BaseRenderer.StopStreamingNow | baseclasses/renbase.cpp:1405-1418 | nothing but the streaming flag changes, after which RenderPending draws nothing |
| RendererSpec.ClearedIsGone | baseclasses/renbase.cpp:1203-1211 | a dropped sample is neither pending nor among those drawn, then or before |
| RendererRuns.NextKeepsInv | baseclasses/renbase.cpp:979-1211 | every step keeps the lock, signal and sample invariants |
| RendererRuns.RunsKeepInv | baseclasses/renbase.cpp:397-443 | so they hold in every run |
| RendererRuns.SpinEnds | baseclasses/renbase.cpp:290-312 | while Stop or BeginFlush spins, the thread signal is set, the source thread waits for no lock, can move, and clears m_bInReceive within three steps |
| RendererRuns.NoDeadlock | baseclasses/renbase.cpp:397-443 | every wait for one of the two locks is for an owner that can itself move, and whoever holds both can go on |
| RendererRuns.ControlMovesOrWaits | baseclasses/renbase.cpp:698-713 | the controlling thread moves, spins, or waits for a thread that holds only m_RendererLock; never for the source thread |
| RendererRuns.ShownProperly | baseclasses/renbase.cpp:979-1004 | DoRenderSample got samples only while streaming and not stopped, in order, none twice, none that a stop or flush had dropped |
| RendererRuns.ShowsOwnSample | baseclasses/renbase.cpp:1126-1193 | what is drawn is the sample of the current Receive, pending at that moment |
| RendererRuns.WaiterHasSampleUnless | baseclasses/renbase.cpp:1126-1193 | a source thread that waits has its own sample pending, or a Stop or flush that will send it away is still on, unless its sample was dropped before the paused branch went on or by a display change |
| RendererModes.WaiterIsCalled | baseclasses/renbase.cpp:917-972 | a source thread that waits with its sample pending in a streaming renderer has the event set, the clock advised, or the thread signal set by a flush that is about to drop the sample |
| RendererModes.WaiterGoesOn | baseclasses/renbase.cpp:254-281 | so it can go on at once or as soon as the clock has set the event |
| RendererModes.SignalledLeaves | baseclasses/renbase.cpp:254-281 | a waiting thread that is signalled leaves without drawing, even if its sample is due |
| RendererModes.RunsKeepModes | baseclasses/renbase.cpp:397-726 | through every action of Stop, Pause, Run and flushing: when the renderer streams, may keep its source thread from waiting and holds a sample |
| RendererModes.BetweenCalls | baseclasses/renbase.cpp:397-726 | between calls it streams exactly while running, holds no sample while stopped or flushing, and lets its source thread wait unless stopped or flushing |
| RendererStale.WaitsForNothing | baseclasses/renbase.cpp:1141-1161 | a run of the exception: a flush between the two halves of the paused branch leaves the thread waiting in a running renderer with nothing pending, no event set, no advise outstanding and no way to move |
| StreamControlSpec.VerdictIsTimeline | baseclasses/strmctl.cpp:202-273 | a sample flows if and only if the timeline flows at some instant of it, in all nineteen cases |
| StreamControlSpec.CheckKeepsFuture | baseclasses/strmctl.cpp:234-273 | judging a sample changes nothing about any later instant |
| StreamControlSpec.WhatRemains | baseclasses/strmctl.cpp:234-273 | which commands are still pending afterwards |
| StreamControlSpec.StreamFollowsTimeline | baseclasses/strmctl.cpp:202-273 | every sample of an ordered stream is judged by the timeline as it was at the start |
| StreamControlSpec.CheckTells | baseclasses/strmctl.cpp:149-186 | what has been notified together with what is pending never changes |
| StreamControlSpec.StreamTellsInOrder | baseclasses/strmctl.cpp:149-186 | each command is notified once and in timeline order over a whole stream |
| StreamControlSpec.StopTellsEverything | baseclasses/strmctl.cpp:345-394 | stopping the filter notifies all that is pending, in order, and leaves the stream flowing |
| StreamControlSpec.StopAtBeginsOppositeIff | baseclasses/strmctl.cpp:35-80 | when a stop command to a stopped filter leaves the beginning as the comments promise |
| StreamControlSpec.StartAtBeginsOppositeIff | baseclasses/strmctl.cpp:82-121 | the same for a start command |
| StreamControlSpec.MovedStopBeginsFlowing | baseclasses/strmctl.cpp:35-121 | commands after which it does not |
| StreamControlSpec.NowHolds | baseclasses/strmctl.cpp:65-121 | after a stop without a time nothing flows until the next start; after such a start everything until the next stop |
| StreamControlSpec.StopAtHolds | baseclasses/strmctl.cpp:35-80 | the timeline with a new stop, instant by instant: as before up to it, flowing from an earlier start to it, and then only from a later start |
| StreamControlSpec.StartAtHolds | baseclasses/strmctl.cpp:82-121 | the same with a new start |
| StreamControlSpec.CancelHolds | baseclasses/strmctl.cpp:40-105 | a cancelled command is as if there were none, and before the first run the one left decides how the stream begins |
| StreamControlSpec.StopCookieTold | baseclasses/strmctl.cpp:35-80 | the cookie notified for a stop is the one given with it, in timeline order, and the start's is untouched |
| StreamControlSpec.StartCookieTold | baseclasses/strmctl.cpp:82-121 | the same for a start |
| StreamControl.BaseStreamControl.CheckSampleTimes | baseclasses/strmctl.cpp:234-273 | the verdict of the timeline, the new state, and exactly when a missing sink is called |
| StreamControl.BaseStreamControl.StopAt | baseclasses/strmctl.cpp:35-80 | which stop, cookie and flow are pending afterwards in every case; the start and what was notified are untouched |
| StreamControl.BaseStreamControl.StartAt | baseclasses/strmctl.cpp:82-121 | the same for a start |
| StreamControl.BaseStreamControl.NotifyFilterState | baseclasses/strmctl.cpp:345-394 | stopping notifies all that is pending and leaves nothing of it; other states change nothing else |
| StreamControlSpec.ExecuteKeepsTimeline | baseclasses/strmctl.cpp:149-171 | carrying out the first of the pending commands changes nothing about the time after it |
| StreamControlSpec.CheckFaultsIff | baseclasses/strmctl.cpp:161-171 | judging a sample calls a missing sink if and only if a start with a cookie, and no sink, comes before the end of the sample |
| StreamControlSpec.StreamFaultsIff | baseclasses/strmctl.cpp:161-171 | a stream does so if and only if it reaches such a start |
| StreamControlSpec.StopFaultsIff | baseclasses/strmctl.cpp:345-377 | stopping the filter does so if and only if such a start is pending |
| StreamControlSpec.StartWithoutSink | baseclasses/strmctl.cpp:82-121 | the command that leads there |
| BlockingQueueRuns.StepKeepsInv | StupidAR/BlockingQueue.h:28-112 | every step keeps the bound, the order, and a woken thread for every item or free place someone sleeps for |
| BlockingQueueRuns.RunsKeepInv | StupidAR/BlockingQueue.h:28-112 | so it holds in every interleaving, spurious wake-ups included |
| BlockingQueueRuns.BoundedAndFifo | StupidAR/BlockingQueue.h:28-112 | never over capacity, empty while flushing, first in first out since the last flush |
| BlockingQueueRuns.NoLostWakeUp | StupidAR/BlockingQueue.h:28-112 | with no woken thread left, takers sleep only on an empty queue and putters only at a full one |
| BlockingQueueRuns.FlushReleasesAllIff | StupidAR/BlockingQueue.h:91-112 | everyone who waited when begin_flush was called has been turned away if and only if end_flush is withheld until no woken taker or putter is left |
| BlockingQueueRuns.FlushAccount | StupidAR/BlockingQueue.h:91-112 | during a flush the threads still to check again are exactly those that waited at its beginning and have not been refused since |
| BlockingQueueRuns.LateWaiterSleepsIff | StupidAR/BlockingQueue.h:28-112 | a thread that checks again after end_flush is back asleep if and only if the queue is then empty, for a putter full |
| BlockingQueueRuns.LeftTakerSleeps | StupidAR/BlockingQueue.h:60-112 | every taker left over at end_flush can go back to sleep |
| BlockingQueueRuns.LeftPutterSleeps | StupidAR/BlockingQueue.h:28-112 | so can every putter left over, once the queue has been filled |
| BlockingQueueRuns.WaiterSleepsThroughFlush | StupidAR/BlockingQueue.h:91-112 | a run in which a waiter woken by begin_flush sleeps again |
| BlockingQueue.BoundedQueue.Put | StupidAR/BlockingQueue.h:28-40 | one section of put: asleep exactly at a full queue, refused exactly while flushing, else added behind everything there is and one taker notified |
| BlockingQueue.BoundedQueue.Offer | StupidAR/BlockingQueue.h:45-56 | refused exactly at a full queue or while flushing, else added behind everything there is and one taker notified |
| BlockingQueue.BoundedQueue.Take | StupidAR/BlockingQueue.h:60-73 | asleep exactly at an empty queue, refused exactly while flushing, else the front item and one putter notified |
| BlockingQueue.BoundedQueue.Poll | StupidAR/BlockingQueue.h:77-89 | the front item if there is one |
| BlockingQueue.BoundedQueue.BeginFlush | StupidAR/BlockingQueue.h:94-106 | emptied and everyone notified, once |
| BlockingQueue.BoundedQueue.EndFlush | StupidAR/BlockingQueue.h:108-112 | nothing but the flag changes, and items are accepted again |
| Alignment.AlignDownRounds | baseclasses/pullpin.h:114-117 | for every 64-bit position AlignDown gives the greatest multiple of a power-of-two alignment not above it |
| Alignment.AlignUpRoundsIff | baseclasses/pullpin.h:119-122 | AlignUp gives the least multiple not below the position if and only if the sum it starts from does not overflow |
| MachineInts.TruncDivLaw | baseclasses/pullpin.cpp:450 | division, also by a negative divisor, leaves a remainder smaller than the divisor and of the dividend's sign |
| Tiles.TilingCovers | baseclasses/pullpin.cpp:335-369 | the ranges read are not empty, fill their buffers unless the stop comes first, and cover start to stop without gap or overlap |
| Tiles.PlanReadsAll | baseclasses/pullpin.cpp:449-461 | every position from the whole seconds of the start up to those of the stop lies in some range of the plan, which ends less than one alignment unit past them |
| Tiles.PlanBegins | baseclasses/pullpin.cpp:449-461 | the plan begins on an alignment unit, at or before the start by less than one unit |
| Tiles.TilesAligned | baseclasses/pullpin.cpp:433-566 | with whole alignment units every range starts a unit or more before the aligned stop |
| Tiles.DeliveredInside | baseclasses/pullpin.cpp:396-430 | every range of the plan is delivered with 0 <= t1 < t2 <= tStop - tStart |
| Tiles.AllDeliveredInside | baseclasses/pullpin.cpp:396-430 | so do all deliveries of any part of the plan |
| PullPin.Puller.Process | baseclasses/pullpin.cpp:433-566 | the first request begins on an alignment unit at or before m_tStart by less than one unit; EndOfStream is reported only when every position up to the cut stop lies in a request, the last ending less than a unit past it, and all were collected and delivered; otherwise some call failed, was not answered with S_OK or the thread was asked for something else; the discontinuity flag is on the first request only; two requests overlap if there are buffers for that; nothing is delivered after a refusal; whatever is delivered has 0 <= t1 < t2 <= tStop - tStart |
| PullPin.Puller.ProcessSync | baseclasses/pullpin.cpp:516-565 | the synchronous loop, delivering in order |
| PullPin.Puller.ProcessAsync | baseclasses/pullpin.cpp:465-515 | the overlapped loop: two outstanding if there are buffers for that and ranges enough, never more, none at the end |
| PullPin.Puller.PullAll | baseclasses/pullpin.cpp:469-515 | one round of it reaches the aligned stop |
| PullPin.Puller.QueueSample | baseclasses/pullpin.cpp:335-369 | the next range of the plan is requested |
| PullPin.Puller.CollectAndDeliver | baseclasses/pullpin.cpp:371-394 | whichever request is completed first is delivered once |
| PullPin.Puller.Deliver | baseclasses/pullpin.cpp:396-430 | the times are cut at the stop and made relative to the aligned start |
| Pcm.ComputeIntValue | StupidAR/pcm.h:31-37 | int_value is the signed number of the three bytes |
| Pcm.ComputeValueOf | StupidAR/pcm.h:39-47 | value_of takes the low 24 bits |
| Pcm.IntOfValue | StupidAR/pcm.h:31-47 | value_of then int_value is the sign-extended low 24 bits, the number itself exactly within 24 bits |
| Pcm.ValueOfInt | StupidAR/pcm.h:31-47 | int_value then value_of is the identity |
| Pcm.ConvertsViaS32 | StupidAR/pcm.h:149-558 | every defined integer conversion equals going through S32, on all inputs |
| Pcm.WidenAndBack | StupidAR/pcm.h:149-558 | widening and narrowing back is the identity on values in range |
| Pcm.NarrowByWayOf | StupidAR/pcm.h:202-558 | narrowing by way of a format in between equals narrowing at once |
| Pcm.ConvertedValue | StupidAR/pcm.h:149-558 | the number converted to is the S32 number without its low bits |
| Pcm.FloatKeepsS24 | StupidAR/pcm.h:129-137 | S24 to Float to S24 is the identity |
| Pcm.DoubleKeepsS32 | StupidAR/pcm.h:139-147 | S32 to Double to S32 is the identity |
| Pcm.ToFloatViaS32 | StupidAR/pcm.h:129-558 | every integer format becomes the same Float and Double as through S32 |
| Pcm.FloatAndBack | StupidAR/pcm.h:560-616 | formats of up to 24 bits survive Float |
| Pcm.DoubleAndBack | StupidAR/pcm.h:618-674 | all integer formats survive Double |
| Pcm.FloatToS24Iff | StupidAR/pcm.h:134-137 | Float to S24 gives the truncated scaled value if and only if that has 24 bits, so for all of [-1, 1) |
| Pcm.DoubleToS32Iff | StupidAR/pcm.h:144-147 | Double to S32 gives the truncated scaled value if and only if that fits 32 bits |
| Pcm.DoubleIsAmplitude | StupidAR/pcm.h:139-147 | as Double every sample is its value divided by half the number of values of its format |
| Pcm.FloatIsDouble | StupidAR/pcm.h:129-142 | for formats of up to 24 bits Float and Double are the same number |
| Pcm.LeastIsMinusOne | StupidAR/pcm.h:129-558 | the least value of every format is -1 |
| Pcm.FullScaleWraps | StupidAR/pcm.h:134-137 | 1.0 becomes the most negative sample |
| Pcm.ReverseBytes | StupidAR/pcm.h:54-68 | the bytes in reverse order |
| Pcm.ReversedTwice | StupidAR/pcm.h:54-68 | reversing twice gives the bytes back |

## Left out

- COM plumbing, class factories, registry setup, property pages, DirectDraw, performance logging, seeking pass-through and media-type negotiation: they forward to systems outside the repository.
- MyRenderer, dllmain and IOutputAgent: stubs and interfaces without behaviour.
- The quality heuristics of the video renderer (ShouldDrawSampleNow, SendQuality, Notify): tuned constants with only single-function bounds.
- DirectQueue.DirectQueuer.ReceiveMultiple: asks that the send-anyway flag comes without samples, as in SendAnyway; with both its loop need not end.
- MulDiv.EnlargedUnsignedDivide: asks for a divisor other than zero, as division does.
- CheckStreamState of stream control: its waiting and its one extra frame are left out; the verdict it asks for is modelled.
- The x86 assembly and large-integer library variants of the arithmetic, and debug-only and performance-only code.
- Out-of-memory in list insertion and packet creation, failing handle duplication and semaphore maximum counts: they are taken to succeed.
- Unbounded counters: advise cookies, reference times, LONG counters of waiters and samples and the frame sums are unbounded integers where the code would need 2^31 or more events, or times near 2^63, to wrap.
- Liveness that depends on the scheduling of threads: what is shown is that a thread can move and how far it has to go, not that it is given time; a clock wait capped at UINT_MAX is the endless wait.
- Schedule.AMSchedule.Advise: asks that no periodic packet is pushed to the sentinel's time, which the code asserts; ScheduleSpec.ValidDispatchIff shows that the list is in order exactly then.
- Schedule.AMSchedule.DispatchFirst: asks the same of the packet it moves on.
- ReferenceClock.RefClock.ThreadRound: asks the same of the bookings and of the clock's own time.
- StreamControl.BaseStreamControl.CheckSampleTimes: the access violation of a missing sink is a flag in the state; what the fields are after it means nothing.
- The free list of the allocator and the list of the output queue are sequences: their links are not modelled; a NEW_SEGMENT marker and its packet are one item that counts twice.
- AllocatorSpec.OverflowedGrantIff: speaks of alignments that are powers of two; others are accepted by the code with a log message only.
- RendererRuns.NextKeepsInv: assumes one source thread at a time, as the filter contract does; the pin is connected throughout.
- PullPin.Puller.Process: does not follow the cleaning up of cancelled reads after an error; buffer sizes are any positive numbers for the plan, and multiples of the alignment for the delivered times.
- Conversions from one floating point format to the other, and floating point inputs that do not scale to an int32_t, whose result C++ leaves undefined.
