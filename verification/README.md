# Verified models of the avpipeline core

avpipeline builds media pipelines out of nodes: each node runs a processor around a kernel, and
passes packets and frames on to other nodes. This project models its most intricate parts in
Dafny and proves what they promise. `dafny verify dfyconfig.toml` checks everything.

**The DTS merge** (`Heap`, `ReorderModel`, `ReorderTheorems`, `ReorderMerge`, `ReorderCalls`,
`ReorderKernel`, `ReorderExamples`, `ReorderExact`; source `kernel/reorder_monotonic_dts.go`). The
kernel keeps all queued items in one heap, the DTSs of each stream in another heap, and counts the
empty streams by hand.
`ReorderModel` is a step model on multisets, nondeterministic in ties, in failures of the output
channel and in the start condition. `ReorderKernel` is the object itself, with real binary
heaps, loops and a panic as an outcome; each method is proved to be a legal sequence of steps.
The theorems hold for every legal sequence of steps. `ReorderCalls` says which steps one call of
pushToQueue consists of; the kernel's method is proved to make such a call, and the runs that
fail are sessions of such calls.

**Counting and draining** (`Counters`, `PushToDestination`, `ReaderLoop`, `OutputPump`,
`Pipeline`, `Drain`, `DrainSignal`; source `node/`, `processor/`, `types/`). `PushToDestination`,
`ReaderLoop` and `OutputPump` are the code that counts, exit by exit. `Pipeline` is a transition
system with any number of senders beside the reader loop, the pumps and Serve; each of the three
pieces of code yields the trace of its steps in that system; `Drain` is the
check that loads six counters while all of these go on; `DrainSignal` is the flag and the channel
that announce the results of the checks.

**H.264, AAC and AV1 extradata** (`AnnexB`, `AnnexBTheorems`, `Avcc`, `Extradata`; source
`extradata/`). The byte stream format of section B.1.1 of ITU-T H.264, the
AVCDecoderConfigurationRecord of section 5.3.3.1 of ISO/IEC 14496-15, an AudioSpecificConfig's
first fields and the AV1 configuration record are written as serializers; the parsers undo them.

**Routes** (`RouteModel`, `Route`, `RouteWaiters`; source `router/`). Publishers with publish
modes, and the channel that is closed and replaced at each change.

**Graph walks** (`Graph`, `Traverse`, `Serve`; source `traverse.go`, `next_layer.go`, `serve.go`).
Over any finite graph, cycles included.

**Stateful arithmetic** (`AvConv`, `NodeKernel`, `Mama`, `OutputOrder`; source
`avconv/duration.go`, `router/node_kernel.go`, `indicator/mama.go`, `kernel/output.go`).

Objects whose methods change fields are classes here; their methods are proved against functions
of the old state, and the theorems are about those functions. Clocks, contexts, channels that may
be full, filters, callbacks and kernel errors are nondeterministic or parameters.

## Where the code promises less than it seems to

- The two copies of the merge queue agree if and only if nothing was ever discarded to make space
  (`AgreementOverRuns`). The discarding branch pops only one of the copies; the DTS left behind
  makes the internal assertion fail at a later pop (`DiscardingCrashes`, exactly when:
  `CrashesExactly`).
- The heap compares raw DTSs, the order check compares times. Announced, ordered streams never end
  in the "went backwards" error if and only if their time bases give each DTS the same time
  (`TimeBasesExactly`; `MixedTimeBasesFail` is the session that fails). Where raw order is time
  order, the error comes if and only if some item is queued that is already before the last time
  sent, and something is sent after it (`BackwardsExactly`); a stream that shows up late can do
  that (`LateStreamFails`).
- When the queue is full and the flush fails, the new item is dropped and no error is returned
  (`FailedFlushLosesItem`; `PushToQueue` says exactly which items are lost with and without error).
- The drain check is exact for each side at one instant (`ExactSnapshot`), but objects a kernel
  has emitted and no pump has counted are invisible to it (`UncountedObjectsAreInvisible`), and
  they are all that is (`EmptyExactly`). Loading the counters in the order of the flow would be
  wrong (`ForwardOrderIsWrong`).
- An AV1 record of version 8 to 15 whose next bits are an accepted rate index is taken for an
  AudioSpecificConfig (`Av1cMistakenForAsc`), one with anything but another start code or its end
  after a start code inside for an Annex B stream (`Av1cMistakenForAnnexB`); all others are
  recognized (`Av1cRecognizedExactly`).
- A source that returns after another one, or a repeated PTS, can bring a route's latest PTS back
  (`ReturningSourceGoesBack`, `RepeatedPtsGoesBack`), in spite of the name of the function;
  `NewSourceMovesForwardExactly` and `RepeatedPtsExactly` say exactly when.
- A packet without a DTS resets the order check of its output stream (`MissingDtsResets`); the
  DTSs written go back if and only if some call writes one that comes after such a gap and is
  before the last one of its stream (`WriteSideOrderExactly`).
- WaitForDrain returns on the result of some check that said drained (`ReturnMeansDrained`). While
  updaters take turns that is the latest check (`SerialUpdatersAreCurrent`); with two at once, as
  Flush without the lock allows, the older one may win (`OlderCheckMayWin`).
- `Traverse` gives its callback no parent, whatever the node.
- A publisher with an undefined publish mode is accepted on a route without publishers.

## Model

| member | source | states |
|---|---|---|
| `ReorderTheorems.ReachableStates` | kernel/reorder_monotonic_dts.go:130-337 | in every state of every run, whatever the configuration, arrivals, failures and ties: each stream's DTSs are those of its queued items plus the discarded ones, the empty streams are counted exactly, the queue is within capacity, every offered item is queued, sent, lost or discarded, and the output is in time order |
| `ReorderTheorems.AgreementOverRuns` | kernel/reorder_monotonic_dts.go:146-179 | over all runs, the per-stream DTSs equal those of the queued items if and only if nothing was discarded to make space; without the discarding mode nothing ever is |
| `ReorderTheorems.CopiesAgreeExactly` | kernel/reorder_monotonic_dts.go:146-179 | in a state that keeps the invariant, the two copies agree if and only if no discarded DTS was left behind |
| `ReorderTheorems.AssertionsHold` | kernel/reorder_monotonic_dts.go:255-293 | with nothing discarded and room for one item: no pop meets an empty heap, and the oldest item's DTS is the least of its stream, whichever of the ties is popped |
| `ReorderTheorems.CrashesExactly` | kernel/reorder_monotonic_dts.go:255-293 | with room for one item, the pop of a given kind of send crashes if and only if that send is due and a discarded DTS is less than that of the popped item of the same stream, or only discarded DTSs are left |
| `ReorderTheorems.MatchesUnlessStale` | kernel/reorder_monotonic_dts.go:263-267 | the oldest item's DTS is the least of its stream if and only if no discarded DTS of the stream is less |
| `ReorderTheorems.NoCrashInRuns` | kernel/reorder_monotonic_dts.go:255-293 | no run without discards reaches a state in which one of the two assertions fails |
| `ReorderTheorems.EveryStreamReady` | kernel/reorder_monotonic_dts.go:290-293 | if the empty-stream count is zero, each known stream has an item in the global queue |
| `ReorderTheorems.StaleOnlyFromDiscards` | kernel/reorder_monotonic_dts.go:147-149 | a DTS is left behind if and only if the run discarded an item |
| `ReorderModel.StepKeepsInv` | kernel/reorder_monotonic_dts.go:130-337 | each atomic piece of a call keeps the index, the count, the capacity, conservation and order |
| `ReorderModel.IndexRemove` | kernel/reorder_monotonic_dts.go:255-272 | taking an item out of both copies and counting a stream that becomes empty keeps them in agreement |
| `ReorderModel.IndexAdd` | kernel/reorder_monotonic_dts.go:157-179 | the same for putting one in |
| `ReorderModel.TooOldExactly` | kernel/reorder_monotonic_dts.go:221-224 | for nonnegative DTSs and an allowed difference below 2^63, the wrapping comparison says too old if and only if the item is more than that difference before the oldest one queued |
| `ReorderModel.TooNewExactly` | kernel/reorder_monotonic_dts.go:225-226 | and too new if and only if it is more than that after it |
| `ReorderModel.BehindExactly` | kernel/reorder_monotonic_dts.go:232-234 | the loop condition, where the sum fits in 64 bits, is the same comparison |
| `ReorderMerge.MergeIsCorrect` | kernel/reorder_monotonic_dts.go:130-201 | over any run in which streams are announced before the first item and bring nondecreasing DTSs whose raw order is their order in time, without overflow or far jumps: the order check never fails, the output is sorted by DTS and by time, nothing queued precedes what was sent, and output and queue are exactly the items offered, less failed deliveries |
| `ReorderMerge.MergeWithOneTimeBase` | kernel/reorder_monotonic_dts.go:281-317 | one time base and nonnegative DTSs are enough for that |
| `ReorderMerge.CleanConcat` | kernel/reorder_monotonic_dts.go:79-98 | calls one after the other that are clean each are clean together |
| `ReorderMerge.OneTimeBaseIsCompatible` | avconv/duration.go:25-31 | within one time base the raw order is the order in time |
| `ReorderMerge.StepKeepsMerge` | kernel/reorder_monotonic_dts.go:281-317 | every stream has reached the last item popped, and nothing queued is before it |
| `ReorderExamples.MixedTimeBasesFail` | kernel/reorder_monotonic_dts.go:309-315 | for any two raw DTSs d <= e that the configuration does not find too far apart, and any two time bases in which e is earlier in time than d, there is a session of calls that meets all other conditions of the merge theorem and fails the order check |
| `ReorderExamples.LateStreamFails` | kernel/reorder_monotonic_dts.go:168-178 | for any item sent, any earlier item of a stream first seen after it, and any next item of the first stream not before that one nor too far ahead: a session of calls that fails the order check |
| `ReorderExamples.DiscardingCrashes` | kernel/reorder_monotonic_dts.go:147-149 | for any three items in order and not too far apart, the first two of one stream: a session after which the call with the third one discards, queues, starts and panics on the assertion of line 267 |
| `ReorderExamples.FailedFlushLosesItem` | kernel/reorder_monotonic_dts.go:150-155 | a session whose last call finds the queue full, fails to flush it, drops an item that is neither too old nor far ahead, and ends without an error |
| `ReorderCalls.SessionIsRun` | kernel/reorder_monotonic_dts.go:79-120 | sessions of calls are runs of the step model, so its theorems hold of them |
| `ReorderCalls.CatchUpIs` | kernel/reorder_monotonic_dts.go:219-242 | catch-up sends, then the rest of the call, are what a call with an item far ahead makes |
| `ReorderCalls.LoopGoesOn` | kernel/reorder_monotonic_dts.go:281-297 | a loop of sends goes on until one fails, and that one is its last |
| `ReorderCalls.FarBehindExactly` | kernel/reorder_monotonic_dts.go:214-224 | in plain integers a call drops an item at once if and only if something is queued and everything queued is more than the allowed difference after it |
| `ReorderCalls.NearEnough` | kernel/reorder_monotonic_dts.go:225-234 | an item that is not far ahead, or for which the catch-up loop has ended, is at most the allowed difference after everything queued |
| `ReorderCalls.LoopCatchesUp` | kernel/reorder_monotonic_dts.go:227-240 | the catch-up loop sends only items more than the allowed difference before the new one |
| `ReorderExact.BackwardsExactly` | kernel/reorder_monotonic_dts.go:309-315 | over every run without discards whose queued items have raw DTSs in the order of their times, with overflow and catch-up sends, drops, failures and late streams: the order check fails if and only if an item is queued that is before the last time sent, and something is sent after it |
| `ReorderExact.TimeBasesExactly` | kernel/reorder_monotonic_dts.go:309-315 | announced, ordered streams, each in one of two time bases, never fail the order check in any session if and only if the two give each raw DTS the same time, for a queue in which two items of one DTS can wait |
| `ReorderExact.EqualFractionsGiveSameTimes` | avconv/duration.go:25-31 | time bases that are equal as fractions do |
| `ReorderExact.OneTimeBaseRawIsTime` | avconv/duration.go:25-31 | in one time base nonnegative raw DTSs are in the order of their times |
| `ReorderExact.SendFindsLate` | kernel/reorder_monotonic_dts.go:255-315 | a send fails the order check exactly if the queue holds an item before the last time sent; otherwise none is there afterwards |
| `ReorderKernel.ReorderMonotonicDTS.PushToQueue` | kernel/reorder_monotonic_dts.go:130-201 | a call makes exactly the steps that ReorderCalls allows it, in a legal run of the step model. In plain integers on the object's queue, where no sum overflows: an item more than the allowed difference before everything queued changes nothing and gives no error; no other is lost without an error unless the send to make room failed; once an item is queued, nothing more than the difference before it is still there, and only such items were sent to catch up. With an error it is lost if and only if a catch-up send failed; without the discarding mode the call never panics; afterwards, once started, some stream is empty; and a regular item (known stream, room, not far off) makes the run a clean one, to which the merge theorem applies |
| `ReorderKernel.ReorderMonotonicDTS.SendAll` | kernel/reorder_monotonic_dts.go:79-120 | the merge theorem of the object: over any calls with regular items, none fails the order check, what the output channels took is sorted by DTS and by time, nothing queued precedes it, and every item is there, queued or not delivered; if neither the context nor the kernel ends meanwhile, no call fails and the items offered are exactly those in the queue and in the output |
| `ReorderKernel.ReorderMonotonicDTS.TakeItem` | kernel/reorder_monotonic_dts.go:146-200 | the item is queued unless the send to make room failed; that error is not returned |
| `ReorderKernel.ReorderMonotonicDTS.PullWhenReady` | kernel/reorder_monotonic_dts.go:180-199 | pulling starts only if the start condition holds, and ends with an empty stream or an error |
| `ReorderKernel.ReorderMonotonicDTS.EnforceLowDTSDifference` | kernel/reorder_monotonic_dts.go:209-245 | in wrapping 64-bit arithmetic: stops exactly for too old an item; for one far ahead sends until the queue is empty or close enough; otherwise sends nothing |
| `ReorderKernel.ReorderMonotonicDTS.MakeRoom` | kernel/reorder_monotonic_dts.go:146-156 | a full queue gets room by one send or one discard, an error if and only if that send fails; otherwise nothing happens |
| `ReorderKernel.ReorderMonotonicDTS.SendOneItemFromQueue` | kernel/reorder_monotonic_dts.go:247-279 | one send step of the model, on a strictly shorter queue, or a panic only where the model says an assertion can fail |
| `ReorderKernel.ReorderMonotonicDTS.PopOldest` | kernel/reorder_monotonic_dts.go:255-272 | pops a least item and its DTS from both copies if they match |
| `ReorderKernel.ReorderMonotonicDTS.PullAndSendPendingItems` | kernel/reorder_monotonic_dts.go:281-297 | terminates; ends without error only when a stream is empty |
| `ReorderKernel.ReorderMonotonicDTS.DoSendItem` | kernel/reorder_monotonic_dts.go:299-337 | the "went backwards" error if and only if the previous time is later and discarding is off; while neither the context nor the kernel ends, an item that does not go backwards is delivered and nothing else is an error |
| `ReorderKernel.ReorderMonotonicDTS.CurrentDTS` | kernel/reorder_monotonic_dts.go:122-128 | the first element of the slice has the least DTS of all |
| `ReorderKernel.ReorderMonotonicDTS.NotifyAboutPacketSource` | kernel/reorder_monotonic_dts.go:372-397 | each stream of the source is announced, in order; before the first item that is a clean run; a packet of that source with one of these indices then belongs to an announced stream |
| `Heap.Push` | sort/packet_or_frame.go:49-61 | sift-up restores the heap order and adds exactly the element |
| `Heap.Pop` | sort/packet_or_frame.go:49-61 | returns the root, which is a least element, and removes exactly it |
| `Heap.RootIsMin` | sort/packet_or_frame.go:55-57 | the root of a heap is least by key |
| `Counters.EveryCountedCellIsChecked` | types/media_type.go:17-24 | whatever media type an object has, the drain check visits the cell it is counted in |
| `Counters.SlotOf` | types/statistics.go:80-89 | video and audio are told apart from all other media types, and none is ever counted in the Unknown slot |
| `Counters.CountersSection.Increment` | types/statistics.go:193-210 | one cell grows by one object and its size, all others are unchanged |
| `PushToDestination.Push` | node/node_serve.go:262-357 | by any exit as many objects and bytes are added to Addressed as to Received plus Missed, in one cell; Received is what entered the channel. By the fields of the configuration: an audio object is given up because the channel is full only with frameDropAudio, a video object only with frameDropVideo, any other only with frameDropOther; without that flag everything that passes the conditions and is not refused is pushed, unless the context ends. The trace leads from any state of the transition system to the one with just that added |
| `PushToDestination.PushEach` | node/node_serve.go:283-356 | inputs that fail the push condition are skipped, the others are attempted in order until one fails |
| `PushToDestination.PushOne` | node/node_serve.go:295-354 | what one input does to Addressed and to the channel on each way out |
| `PushToDestination.RunDeferred` | node/node_serve.go:435-447 | the deferred calls count each attempt once, as received or as missed |
| `ReaderLoop.RunReaderLoop` | processor/reader_loop.go:21-137 | given how much has arrived when the main loop is left, and whether the context or the kernel ends and the channels close: processed is exactly what was taken from the two channels, each object in its cell and once, failures included; the loop ends by the context, the kernel or closed inputs only if these end or close; unless a send failed on the way out, at least what had arrived is taken; its trace leads from any state with these objects in the channel to the one with them processed |
| `ReaderLoop.Reader.MainLoop` | processor/reader_loop.go:91-136 | ends with the context or the kernel only if that ends, with "closed" only when both channels close and everything in them was taken, and after a failed send at once; otherwise it waits |
| `ReaderLoop.Reader.ClosingLoop` | processor/reader_loop.go:33-84 | ends on a failure, on both channels closed and empty, or with at least everything taken that had arrived before |
| `OutputPump.Pump` | processor/from_kernel.go:98-148 | generated is what was taken; all of it is in the output in order except at most the last, and that one alone is omitted; it ends only if the context ends or the kernel's channel closes; its trace is what the transition system does with these objects |
| `Pipeline.RunConserves` | node/node_serve.go:200-209 | over every interleaving, cell by cell: addressed = missed + processed + held, queued or in the kernel; addressed = missed + received + still to be reported; generated = sent + omitted + at the pump, queued or being pushed |
| `Pipeline.EventConserves` | processor/reader_loop.go:108-116 | every atomic step of every thread keeps these equations and lets no counter shrink |
| `Pipeline.TraceConserves` | node/node_serve.go:283-356 | so do the traces of the code above |
| `Pipeline.CountersGrow` | types/statistics.go:51-55 | between any two states of a run no counter shrinks |
| `Pipeline.EventEmits` | processor/from_kernel.go:106-119 | an emitted object is uncounted until the pump counts it as generated, exactly once |
| `Drain.ExactSnapshot` | node/drain.go:108-134 | the check of a cell passes if and only if its output side was empty when omitted was loaded, its input side when missed was loaded, and the other counters of each side did not move up to or from there |
| `Drain.SoftAssertionsHold` | node/drain.go:119-122 | neither soft assertion can fail, whatever happens between the loads |
| `Drain.AllWentInAndOut` | node/drain.go:103-137 | "drained" means that every cell any object can be counted in was empty on each side at an instant within the call, and, if the node was quiet meanwhile (kernel idle, nothing uncounted at the start, no cell addressed anew after its check), that all of them are empty throughout the node when the call ends; "not drained" comes with a cell whose loads do not add up |
| `Drain.WholeNodeEmpty` | node/drain.go:108-134 | if the kernel handles no input meanwhile, emits only while handling one, nothing uncounted waited at the start and the cell is not addressed anew, then the passed cells are empty on both sides and before the pumps, all at one instant |
| `Drain.CellEmptyAtMissed` | node/drain.go:113-117 | for one cell that instant is the load of missed |
| `Drain.NothingEmitted` | processor/from_kernel.go:106-119 | while the kernel is idle nothing becomes uncounted or generated |
| `Drain.UncountedObjectsAreInvisible` | node/drain.go:124-132 | a run of a kernel that emits only while it handles an input, after which an emitted, uncounted object is in the node and every check passes |
| `Drain.EmptyExactly` | node/drain.go:124-132 | at one instant a cell is empty throughout the node if and only if its check passes and nothing emitted is uncounted |
| `Drain.ForwardOrderIsWrong` | node/drain.go:111-112 | loading generated before sent can claim an empty output side that never was empty |
| `DrainSignal.NoLostWakeUp` | node/drain.go:164-168 | with any number of updaters and waiters: a waiter blocked on an unclosed channel has either nothing to learn, or an updater still owes the close that wakes it |
| `DrainSignal.NoDoubleClose` | node/drain.go:90-93 | no run closes a channel twice |
| `DrainSignal.WakeUpIsReached` | node/drain.go:179-196 | when the flag is true, at most two steps of one updater close the channel a waiter is blocked on |
| `DrainSignal.EveryChangeClosesOne` | node/drain.go:164-176 | over every run the flag changed, in either direction, as often as channels were closed, plus the closes that updaters under way still owe |
| `DrainSignal.ReturnMeansDrained` | node/drain.go:179-196 | a waiter that reads the flag returns if and only if it is true, and it is true if and only if it has the result of a check that said drained |
| `DrainSignal.SerialUpdatersAreCurrent` | node/drain.go:164-176 | while updaters take turns, a flag that nobody is about to set has the result of the latest check |
| `DrainSignal.OlderCheckMayWin` | node/drain.go:164-168 | with two updaters at once, the flag can stay true by the older check although the later one said not drained, and a waiter returns |
| `AnnexBTheorems.SplitUndoesJoin` | extradata/h264_annexb.go:65-112 | NAL units without 00 00 01, joined by any mix of 3- and 4-byte start codes with no unit before a 3-byte code ending in 00, come back exactly |
| `AnnexBTheorems.RoundTripExactly` | extradata/h264_annexb.go:65-112 | for clean units, the list comes back if and only if no unit before a 3-byte code ends in 00: that condition cannot be weakened |
| `AnnexBTheorems.SplitOfJoin` | extradata/h264_annexb.go:76-82 | what comes back otherwise: each 00 before a 3-byte code becomes part of a 4-byte code |
| `AnnexBTheorems.Decomposition` | extradata/h264_annexb.go:65-112 | any bytes are a prefix without a start code followed by start codes and segments in turn, cut as a conforming encoder would have meant them |
| `AnnexBTheorems.CanonicalReadingIsUnique` | extradata/h264_annexb.go:65-112 | there is only one such reading of the bytes |
| `AnnexBTheorems.SegmentsAreNals` | extradata/h264_annexb.go:98-103 | on arbitrary bytes every segment returned is nonempty and contains no 00 00 01 |
| `AnnexBTheorems.SplitsToNothingExactly` | extradata/h264_annexb.go:90-96 | nothing is returned if and only if each start code in the bytes is at their end or right before the next one |
| `AnnexBTheorems.UnitsOfJoin` | extradata/h264_annexb.go:65-112 | the units of a byte stream are found in it, after any clean prefix |
| `AnnexB.SplitAnnexB` | extradata/h264_annexb.go:65-112 | terminates on all bytes and returns the nonempty segments of that reading |
| `AnnexB.FindStartCode` | extradata/h264_annexb.go:114-129 | the first start code at or after a position, or -1 if there is none |
| `AnnexB.FirstIsCode` | extradata/h264_annexb.go:114-129 | the position found is the end or that of a start code |
| `AnnexB.FirstIsLeast` | extradata/h264_annexb.go:114-129 | and there is none before it |
| `Avcc.RoundTrip` | extradata/h264_avcc.go:21-105 | parsing the serialization of any record with 0..31 SPS and 0..255 PPS of 1..65535 bytes, length size 1..4 and any trailing bytes gives the record |
| `Avcc.SerializedExactly` | extradata/h264_avcc.go:21-105 | bytes are the serialization of a valid record if and only if the reserved bits are set, both counts are met, and every declared length is positive and not cut |
| `Avcc.UnitIsSlice` | extradata/h264_avcc.go:46-65 | on arbitrary bytes each unit is a nonempty slice within the input, of its declared length unless cut at the end |
| `Avcc.UnitsAreConsecutive` | extradata/h264_avcc.go:79-98 | units follow each other without overlap, two bytes apart, and all but the last have their declared length |
| `Avcc.ParsedUnits` | extradata/h264_avcc.go:21-105 | for all accepted bytes: all SPS, then all PPS, are nonempty slices in order and without overlap, and the trailing bytes are the rest |
| `Avcc.ParseH264AVCC` | extradata/h264_avcc.go:21-105 | the parsing loops compute the function the round trip is about, on all bytes |
| `Avcc.ReadNals` | extradata/h264_avcc.go:46-65 | one loop over length-prefixed units, with its early exits |
| `Extradata.ParseH264AnnexB` | extradata/h264_annexb.go:19-45 | fails exactly if there is no nonempty segment; otherwise one entry per segment with its type and importance bits |
| `Extradata.NaluReadsBack` | extradata/h264_annexb.go:33-38 | the first byte of a unit, put together from its forbidden bit, importance and type, gives that importance and type |
| `Extradata.AscRoundTrip` | extradata/aac_asc.go:16-45 | every accepted object type and rate index, with any channel configuration, is read back |
| `Extradata.AscAcceptedExactly` | extradata/aac_asc.go:26-42 | of all values of the fields exactly the object types 1 to 5 and 17 with any rate index but 13 and 14 are accepted; an index of 15 leaves the rate open |
| `Extradata.RatesHalve` | extradata/aac_asc.go:93-113 | the rate read back for an index is twice the one three indices later, from 96000, 88200 and 64000 down to 8000; the last is a third of 22050 |
| `Extradata.Av1cRoundTrip` | extradata/av1c.go:39-103 | every AV1 configuration record is read back, all bit fields and the OBUs |
| `Extradata.FirstByteDecides` | extradata/extra_data.go:29-51 | the first byte tells the formats apart |
| `Extradata.AvccIsDetected` | extradata/extra_data.go:34-37 | every valid AVCC record is recognized, with its fields |
| `Extradata.AscIsDetected` | extradata/extra_data.go:38-41 | so is everything the ASC parser accepts |
| `Extradata.StreamIsDetected` | extradata/extra_data.go:42-45 | so is every stream that begins with a start code and has a nonempty segment |
| `Extradata.AnnexBIsDetected` | extradata/extra_data.go:42-45 | canonical NAL units behind their start codes are recognized and returned |
| `Extradata.Av1cDetectedExactly` | extradata/extra_data.go:46-50 | bytes are taken for an AV1 record if and only if the marker is set, four bytes are there, and neither the ASC parser nor the splitter finds anything |
| `Extradata.Av1cIsDetected` | extradata/extra_data.go:46-50 | so every version 1 record without a start code inside is recognized |
| `Extradata.Av1cMistakenForAnnexB` | extradata/extra_data.go:42-45 | a valid version 1 record with a start code inside is not |
| `Extradata.Av1cMistakenForAsc` | extradata/extra_data.go:38-41 | a valid record is taken for an AudioSpecificConfig if and only if its version is 8 to 15 and the bits after it are an accepted rate index |
| `Extradata.Av1cRecognizedExactly` | extradata/extra_data.go:46-50 | a valid record is recognized, with its fields, if and only if that is not so and each start code in it is at its end or right before another |
| `RouteModel.ReachableStates` | router/route.go:105-152 | over every run of adds, removes, closes and resets: publishers are distinct, an exclusive one is alone, the node is open if and only if its channel is unclosed, and no closed channel is closed again |
| `RouteModel.Arbitration` | router/route.go:221-299 | exactly when an addition succeeds, by publish mode; then the new publisher is last, the old ones that may stay keep their order before it and the others are gone, and the channel is closed and replaced; otherwise nothing changes |
| `RouteModel.NobodyIsForgotten` | router/route.go:270-286 | whatever the mode, every old publisher is among those who stay or those who are asked to close, as often as before and in only one of them |
| `RouteModel.NonExclusiveInOrder` | router/route.go:270-282 | those who stay beside a shared publisher keep their order |
| `RouteModel.AddErrorMeans` | router/route.go:229-268 | which error an addition gives, exactly |
| `RouteModel.AddKeepsEverybody` | router/route.go:252-299 | after an addition, the old publishers and the new one are exactly those present and those asked to close |
| `RouteModel.RemoveKeepsPublishers` | router/route.go:323-332 | a removal takes out that publisher and no other |
| `RouteModel.ApplyKeepsInv` | router/route_reset_node.go:21-35 | each operation, the reset included, keeps the publishers and the channel consistent |
| `Route.Route.AddPublisherLocked` | router/route.go:221-299 | on the fields of the object: old publishers plus the new one are exactly the present ones plus those asked to close, the new one is last, each error if and only if its condition holds, and nothing changes then |
| `Route.Route.SortOut` | router/route.go:270-282 | splits the publishers into those who stay and those who go, or reports the conflict |
| `Route.Route.RemovePublisherLocked` | router/route.go:310-335 | that publisher and no other leaves, the others keep their order; an error, and nothing changes, if and only if it is not there |
| `Route.Route.CloseNodeLocked` | router/route.go:129-152 | an already closed node is an error and unchanged; otherwise its channel is closed |
| `Route.Route.OpenNodeLocked` | router/route.go:105-127 | opening makes a new, unclosed channel |
| `Route.Route.ResetNodeLocked` | router/route_reset_node.go:21-35 | ends open on a new channel, the old one closed, publishers kept |
| `Route.Route.constructor` | router/route.go:54-103 | a new route is open, on an unclosed channel and without publishers |
| `RouteWaiters.NoMissedPublisher` | router/route.go:345-361 | beside any operations, a waiter blocked on an unclosed channel has missed nothing: the route is open, the channel current, the publisher list empty |
| `RouteWaiters.WaiterReturns` | router/route.go:345-361 | once there is a publisher, a blocked waiter's next two steps are possible and end its wait |
| `RouteWaiters.ReturnsExactly` | router/route.go:345-361 | a waiter returns if and only if it reads a publisher |
| `Graph.NextLayer` | next_layer.go:14-32 | exactly the distinct successors of the nodes; an error if and only if one of them pushes to nil |
| `Graph.NextLayerByType` | next_layer.go:39-79 | exactly the distinct pairs of successor and item type: by packets if and only if some node has it among its packet destinations, likewise frames |
| `Graph.ClosedHoldsReachable` | traverse.go:42-82 | a set that holds the roots and the successors of its members holds everything reachable |
| `Traverse.Traverse` | traverse.go:17-30 | calls only for reachable nodes with a processor, at most one each; a call has no item type only on a given node, and otherwise the type by which some reachable node pushes to the one called; after a stop no further call; unless stopped, every such node has its call, and there is an error if and only if a reachable node pushes to nil or has no processor, or a call failed |
| `Traverse.Traversal.TraverseFrom` | traverse.go:32-83 | terminates on cyclic graphs; what one recursive call adds to the visited set and to the calls |
| `Serve.Serve` | serve.go:27-37 | starts each node at most once, and exactly those NodeFilter accepts that can be reached through nodes all accepted by NodeTreeFilter |
| `Serve.Server.ServeAll` | serve.go:38-136 | what one recursive call adds to the visited and to the started nodes |
| `Serve.AcceptedPathExactly` | serve.go:62-65 | reachability that stops at rejected trees is reachability through accepted nodes |
| `AvConv.DurationMonotone` | avconv/duration.go:25-31 | within a time base, later ticks are never earlier in time |
| `AvConv.RoundTripLosesAtMostOne` | avconv/duration.go:33-39 | ticks to duration and back lose at most one tick and gain none |
| `AvConv.DurationStrict` | avconv/duration.go:25-31 | ticks of at least a nanosecond are told apart |
| `AvConv.TwoTicksAreLater` | avconv/duration.go:25-39 | two ticks after the rounded-down tick of an instant are later than the instant |
| `AvConv.ConversionsAreExact` | avconv/duration.go:25-39 | both conversions, at or after zero, are the exact quotient less a fraction of one unit |
| `AvConv.ConversionsAreOdd` | avconv/duration.go:25-39 | both treat times before and after zero alike |
| `AvConv.WholeSecondsAreExact` | avconv/duration.go:25-39 | whole seconds are converted exactly in both directions, in any time base that divides the second |
| `NodeKernel.TimeMovesOnlyForward` | router/node_kernel.go:146-218 | over every run from the start, with any sources and streams before and audio of the same source included: the first video packet of a source moves LatestPTS strictly forward, and its later video packets with growing PTS never bring it back, whatever audio of any source comes between them; all of them are passed on, and the PTSs they are passed on with never go back |
| `NodeKernel.LatestIsOfThePacketPassedOn` | router/node_kernel.go:180-185 | after a video packet LatestPTS is the time of the PTS it was passed on with; if it is skipped LatestPTS stays |
| `NodeKernel.StampsMoveTogether` | router/node_kernel.go:168-216 | PTS and DTS of a video packet, the latter limited by the former, move by the same number of ticks, and nothing else changes |
| `NodeKernel.WhereItGoes` | router/node_kernel.go:187-216 | a continuing source's packet is moved by the shift the source has; a new one's is put two ticks after LatestPTS unless its shift would shrink or nothing was sent before |
| `NodeKernel.SkippedExactly` | router/node_kernel.go:195-212 | a packet is skipped if and only if it is video that would have to be moved and moving is not configured |
| `NodeKernel.ReachableState` | router/node_kernel.go:146-218 | LatestPTS and all shifts are never negative after any run, only sources of video have a shift, and the source remembered for a stream sent something on it |
| `NodeKernel.FirstPacketMovesForward` | router/node_kernel.go:179-216 | that first packet is passed on whatever its time base, and its shift is remembered |
| `NodeKernel.OutputDtsAtMostPts` | router/node_kernel.go:146-218 | video packets leave with DTS <= PTS; other packets leave unchanged and change nothing else |
| `NodeKernel.NewSourceMovesForwardExactly` | router/node_kernel.go:179-216 | after any run, at any change of source, LatestPTS does not go back if and only if the source gets a shift no less than it had or the packet itself is not before LatestPTS |
| `NodeKernel.RepeatedPtsExactly` | router/node_kernel.go:168-177 | after the first packet, one with the same PTS brings LatestPTS back if and only if the shift lost a tick in its conversion |
| `NodeKernel.ReturningSourceGoesBack` | router/node_kernel.go:190-205 | a run of two sources on one stream at whose end the one that returns brings LatestPTS back |
| `NodeKernel.RepeatedPtsGoesBack` | router/node_kernel.go:168-177 | so can a packet that repeats the PTS |
| `NodeKernel.Kernel.SendInputPacket` | router/node_kernel.go:68-99 | the whole new state and the packet passed on, as the function these lemmas are about |
| `Mama.MAMA.Update` | indicator/mama.go:41-61 | after any updates the ordered buffer is exactly the last n values, oldest first, after zeros; the filter is used from the n-th update on |
| `Mama.MAMA.IsValid` | indicator/mama.go:67-69 | true if and only if at least n updates were made |
| `Mama.MAMA.CopyInOrder` | indicator/mama.go:48-52 | the two copies unroll the ring |
| `Mama.LastNAppend` | indicator/mama.go:45-46 | one more value shifts the window by one |
| `Mama.LastNOfLong` | indicator/mama.go:48-52 | after n values the window is the end of the history |
| `OutputOrder.WriteSideOrder` | kernel/output.go:1006-1030 | over any run: the DTSs written to a stream never go back as long as each of its records carries one; DTS <= PTS where both are there; SequentialInvalidPacketsCount is the number of backward packets since the last one, on any stream, that passed |
| `OutputOrder.OutcomeExactly` | kernel/output.go:970-1116 | after any run, a packet is ignored unseen if and only if it is no key frame and the last key frame of its stream came from another source; otherwise it is counted as backward if and only if its DTS, limited by its PTS, is before that of the last record of the stream, and else is written with that DTS and its own PTS as filter and muxer allow; the error comes exactly beyond the configured number of backward packets |
| `OutputOrder.WriteKeepsInv` | kernel/output.go:1101-1103 | LastDTS of each stream is the DTS of the last record written to it, after each call |
| `OutputOrder.WriteSideOrderExactly` | kernel/output.go:1007-1013 | over every run: the DTSs written never go back if and only if no call writes a packet whose DTS comes after records without one and is before the last DTS of its stream, which can be compared before the call |
| `OutputOrder.MissingDtsResets` | kernel/output.go:1007-1013 | after a packet without DTS any DTS is written, however far back, on any stream |
| `OutputOrder.Output.DoWritePacket` | kernel/output.go:966-1118 | the whole new state and outcome, on every way out |

## Left out

- Everything behind libav: codecs, scaling, bitstream filters, format contexts, rescaling of timestamps. Packets are records of stream, source, kind, key flag, PTS, DTS and time base.
- AvConv.RoundTripLosesAtMostOne: over exact rationals truncated toward zero as Go does; the rounding of float64 in `avconv/duration.go` is not modelled, and products beyond 64 bits are not wrapped.
- AvConv.DurationStrict: over exact rationals, as above.
- AvConv.TwoTicksAreLater: over exact rationals, as above.
- AvConv.ConversionsAreExact: over exact rationals, as above.
- AvConv.WholeSecondsAreExact: over exact rationals, as above.
- The width of the uint64 counters and of most int64 timestamps; only the DTS differences of the reorder kernel wrap.
- In the reorder kernel: Generate, which flushes after Close and may race with calls since it and NotifyAboutPacketSource take no lock; the log line for over 100 streams; the content of start conditions; which heap library is used.
- ReorderKernel.ReorderMonotonicDTS.PushToQueue: says nothing about the object after a panic.
- PushToDestination.Push: its trace, like those of RunReaderLoop and Pump, is that of a run without other threads in between; interleavings are in `Pipeline`.
- Pipeline.RunConserves: channels have no capacity and no order in the transition system, and closing of channels is not part of it; FIFO order is in `OutputPump` and `ReaderLoop`. Nodes with a CacheHandler are not part of this model.
- The fan-out of `pushFurther` to several destinations at once: one destination is modelled; Sent is counted once per object in `Pipeline`.
- ReaderLoop.RunReaderLoop: a channel is given by all that is ever put into it, which is finite; how much of it has arrived, which sends fail, and whether contexts, kernels and channels end are inputs; a select's choice is arbitrary among what is ready.
- Drain.AllWentInAndOut: IsDirty of the processor and the loops of Flush and SetBlockInput.
- The string forms, bit depth and descriptive names in `extradata/`.
- RouteModel.ReachableStates: a publisher's mode is fixed, nil publishers, callbacks, the effects of Publisher.Close, errors of closing a processor, and what callers that hold the returned slice see when it is reused are not modelled.
- Serve.Serve: filters depend on the node only, nobody pushes to nil (that panics), the graph does not change while serving; goroutines that watch for changes, contexts and the WaitGroup are left out.
- Traverse.Traverse: nodes are equal only if identical; the callback does not change the graph.
- NodeKernel.TimeMovesOnlyForward: follows one source while no video of another and nothing of another on its stream comes between; sources that return are in `NewSourceMovesForwardExactly`. The frame path and packets with no source are not modelled.
- The MAMA filter itself and `float64(v)`.
- In the output kernel: the start gate with its pending packets, stream allocation, headers and trailers, sockets, monitors, statistics of sent timestamps.
- Chains, Tee, Switch, Retryable, Transcoder and the Router object around routes: goroutine plumbing over kernels that are not visible here.
- Logging, String and Dot output, configuration files, gRPC, monitors, platform code.
