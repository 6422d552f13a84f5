# A verified model of the spatial audio engine

This project models, in Dafny, the parts of the engine whose correctness rests on state that
lives across many calls, and proves what those parts promise for every input and every run:

- the **jitter buffer** (`Jitter*.dfy`): configuration, the reader's state machine, the window
  estimator and servo, the ring with its splices, and the writer/reader interleaving;
- the **measuring rig** around it (`RampCodec`, `Ledger`, `DecodeExact`, `DecodeLimits`, `LabRun`,
  `Deques`, `Sensors`, `Oracle`, `Schedule`): the ramp codec and black-box decoder, the runner that
  drives buffer and decoder, the sensors, the oracle, and the generated schedules;
- **pose alignment** (`Seqlock`, `PoseRing`, `PoseScan`, `PoseAlign`, `PoseGroup`): the seqlock ring and slot at
  the granularity of single atomic operations, evaluation along the pose track, and the writers and
  readers, single sources and lockstep sets, that keep pose clock and audio clock equal;
- the **mixer** (`MixerModel`, `PairRecord`, `Mixer`): the control plane's registry and change
  queue against the audio thread's entities and slots, and the pair record as a cache of policy;
- the **DSP index work** (`OverlapSave`, `Crossfade`, `DelayLine`, `WeightFade`): overlap-save
  against linear convolution, packed and dense crossfade mixing against a per-source sum, the delay
  ring with its per-slot ramp state, and the double-buffered weights crossfades run between.

`Order` and `Layout` hold shared notions: sorting and rank counts, order and interpolation on the
reals, flat row-major addresses, block copies, and streams that are silent before their start.

State that the source updates in place is a class (`JitterBuffer.Buffer`, `Ledger.Decoder`,
`Mixer.Mixer`, `OverlapSave.Handle`, `Sensors.EnvelopeSensor`, `Crossfade.FadeMixer`,
`DelayLine.EarState`, ...) whose methods are proved against functions on values; the run-level
theorems are about those functions. Concurrent code is a step machine whose steps are the source's
single loads, stores and copies. Audio samples and controller quantities are reals; positions and
counters are unbounded integers. Clocks, random draws, codecs and the transform and matrix
libraries are parameters: for the transform the project assumes only the law stated in
`OverlapSave.Lawful`, which `LawfulTransformExists` shows to be consistent.

Verify with `dafny verify dfyconfig.toml`.

## What the proofs found

- The capacity valve lands clear of both valves exactly when the ring holds the structural setpoint
  plus one writer and one reader frame (`ValveClearance`); the rings the mixer builds do
  (`SourcesAreRoomy`). The read head never moves back, in any run, exactly when the ring is at most
  one frame short of that (`HeadNeverGoesBack`); in a smaller one a run of writes and two reads from
  construction moves it back (`CrampedGoesBack`). A read k frames after a snap snaps again exactly
  when the ring is short by more than k (`SnapTripsAgain`). `RingSizes` gives settings on each side of
  both bounds. All run-level results need only the weaker bound.
- `RemoveSink`'s queued half tests only the source before it drops the entity
  (`engine/engine/mixer.go:506`), unlike the other two removals. `MirrorKept` gives the exact
  condition under which audio side and registry stop agreeing, `AmbiSinkLost` a run that gets there;
  inclusion of ids, slot safety and every other promise survive.
- The winning channel gain is the maximum exactly when some shared channel's gain is at least -1,
  because the scan starts at -1 (`GainIsMaximum`); a single channel of gain -2 is composed with -1
  (`GainBelowFloor`).
- The decoder's ledger is the true one at every point of a run exactly when no read is blind: a drop
  whose marker comes first, heard away from where playing had stopped (`DecodingIsExact`). Reads of
  three frames or more never are (`LongReadsDecode`); a run from construction with a one-frame read
  is (`LoneMarkerMisheard`).
- A snap is heard exactly when the jumps since the last frame played do not sum to zero
  (`SnapsAreJumps`). A read that jumps plays at once exactly when it asks for no more than the fill it
  moved to (`JumpPlays`), as reads up to the structural setpoint always do; a longer one can jump
  without a sound (`LongReadJumpsSilently`).
- Pose clock and write head part company exactly when one packet is longer than the ring
  (`Source.IngestPCM`).
- A merged schedule is sorted by time exactly when the writer's line is (`MergeEvents`), and that
  exactly when every lost packet was sent no earlier than the latest delivery before it arrived
  (`LineSortedIff`); `LossesBreakTimeOrder` is a writer whose line is not, although the merge is
  documented as merging sorted lists. With tidy reader stalls and a repair deadline that is not before
  the send, every call on the buffer is in time order all the same (`Build`).
- The repair path is documented as gap-free. A packet is delivered exactly when its give-up deadline,
  or a copy that makes the deadline, falls inside the run (`RepairDelivers`), so the stream is gap-free
  exactly when every packet before such a one is such a one too (`RepairGapFreeIff`); it always is up
  to a deadline inside the run (`RepairLeavesNoGap`), and `RepairGapAtTheEnd` is a run where it is not.
- An outage is documented as teaching nothing. That holds once the reader is frozen
  (`OutageTeachesNothing`), and for the whole outage exactly when its reads up to the freeze do not fill
  the open window (`OutageUnheard`); otherwise the window closes with the dips in it (`OutageHeard`), as
  in a run from construction of a slow reader (`SlowReaderLearnsOutage`).
- A source new to its slot is documented as fading in from zero while its delays snap. It does exactly
  unless the slot is still weighted: by the last call with peers when the latest call was offered none,
  since only calls with peers flip the buffers, or by another source in the latest call
  (`NewSourceFadesIn`); `StaleStarts` has both runs.
- The dense reverb mix differs from the packed one by exactly the fade-out of slots that left since
  the previous frame (`DenseIsPackedPlusFadeOut`).
- In `poseAt` the branch for a zero span cannot be reached: the sample after is strictly later.

## Model

| member | source | states |
|---|---|---|
| `JitterConfig.Gcd` | engine/buffers/jitter_buffer.go:753-758 | The Euclidean loop returns a positive common divisor that every common divisor divides. |
| `JitterConfig.DerivedGeometry` | engine/buffers/jitter_buffer.go:322-446 | Every geometry the constructor accepts has ordered, non-negative bounds (`Sound`), and a capacity left to the constructor is always roomy. |
| `JitterConfig.ValveClearance` | engine/buffers/jitter_buffer.go:520-537 | Every setpoint in range stays clear of both capacity valves if and only if the ring holds the structural setpoint plus one writer and one reader frame. |
| `JitterConfig.SourcesAreRoomy` | engine/engine/mixer.go:306-323 | Every source buffer is roomy: always at the interactive level, and at the others for wire and reader frames of up to 199 ms together, whatever the redundancy. |
| `JitterConfig.FloorsCompose` | engine/buffers/jitter_buffer.go:181-203 | A source's declared floor is the larger of its level's and of two overlapping repairs of its redundancy; levels clamp. |
| `JitterMeaning.ProductionGeometry` | engine/buffers/jitter_buffer.go:322-446 | Every derived quantity of the production configuration. |
| `JitterBuffer.NewJitterBuffer` | engine/buffers/jitter_buffer.go:322-446 | Construction yields a valid buffer in its initial state with the geometry derived from the gcd of the frame sizes; failure only for non-positive frames or a refused derivation. |
| `JitterServo.RankNth` | engine/buffers/jitter_buffer.go:771-789 | The insertion scan over eight cells returns the n-th largest element of any history. |
| `JitterControl.RankFilter` | engine/buffers/jitter_buffer.go:771-789 | The n-th largest exceeds x if and only if at least min(n, length) entries do. |
| `JitterServo.Median3` | engine/buffers/jitter_buffer.go:761-769 | One of the three, with one of the others on each side. |
| `JitterServo.SoftClampBounds` | engine/buffers/jitter_buffer.go:103-108 | Never beyond the knee and never beyond the slope itself. |
| `JitterServo.SoftClampOdd` | engine/buffers/jitter_buffer.go:103-108 | The roll-off is odd, so the bounds hold both ways. |
| `JitterDirection.PServoDirection` | engine/buffers/jitter_buffer.go:161-173 | The shipping controller trims if and only if the whole window is displaced beyond theta, by the median displacement; its rate is capped, never negative unless the drift estimate is, and without drift positive exactly above the deadband. |
| `JitterDirection.DriftFollowsMedians` | engine/buffers/jitter_buffer.go:651-693 | The drift estimate is never negative while window medians do not fall, never positive while they do not rise, and zero inside the dead zone. |
| `JitterMeaning.MedianSplits` | engine/buffers/jitter_buffer.go:733-738 | The median is a value of the window that at least half of it reaches and fewer than half exceed. |
| `JitterMeaning.WidthsReachExtremes` | engine/buffers/jitter_buffer.go:636-639 | The measured widths reach from the median to the window's extremes, the low one up to its cap. |
| `JitterMeaning.HighWidthHold` | engine/buffers/jitter_buffer.go:640-649 | The high width is held by the same exact rule as the low one. |
| `JitterMeaning.EstimateDescribes` | engine/buffers/jitter_buffer.go:703-718 | What a controller is shown is the raw window's median and extremes, the held widths in whole frames, the drift, and a deadband that spans the late-side envelope. |
| `JitterMeaning.SetpointCovers` | engine/buffers/jitter_buffer.go:705 | The setpoint covers the held width times kLow, to rounding, and the declared floor, unless its ceiling stops it, and asks for no more than one of them. |
| `JitterMeaning.CloseAdaptsSetpoint` | engine/buffers/jitter_buffer.go:632-706 | So it is after every close, for the width held at that close. |
| `JitterMeaning.DriftIsRiseOverSpan` | engine/buffers/jitter_buffer.go:676-693 | A rise of at least the dead zone between the two ends is exactly the slope times the span in seconds; anything less is no drift. |
| `JitterMeaning.HorizonIsSpan` | engine/buffers/jitter_buffer.go:677-693 | The horizon shown to the controller is the span between the slope's ends in seconds. |
| `JitterMeaning.DriftKeepsNewest` | engine/buffers/jitter_buffer.go:658-663 | The drift history ends with this close and keeps the newest of the earlier ones, in order. |
| `JitterMeaning.ServoFollowsDrift` | engine/buffers/jitter_buffer.go:161-173 | Inside the deadband and up to the knee the rate is the drift, limited to the cap. |
| `JitterMeaning.ServoRollsOff` | engine/buffers/jitter_buffer.go:103-108 | Beyond the knee feed-forward and drift multiply to the square of the knee. |
| `JitterMeaning.ServoDrainsDisplacement` | engine/buffers/jitter_buffer.go:168-172 | Without drift the rate is the gain times the displacement beyond the deadband, capped. |
| `JitterMeaning.ServoAdds` | engine/buffers/jitter_buffer.go:161-173 | With both, the two rates add before the cap. |
| `JitterMeaning.DebtIsPaidToTheFrame` | engine/buffers/jitter_buffer.go:552-575 | A playing read earns rate * r / sr, pays one per splice and loses nothing else short of the clamp, and splices exactly when a whole frame is owed and payable. |
| `JitterMeaning.PlacementResets` | engine/buffers/jitter_buffer.go:496-537 | Trims and snaps discard the open window; a startup lands exactly at the setpoint; a trim takes the pending amount up to the setpoint. |
| `JitterMeaning.SnapsCounted` | engine/buffers/jitter_buffer.go:510-537 | The fill left after a trim decides between lap, overrun and neither; each is counted exactly then, and either lands at the setpoint. |
| `JitterMeaning.UnderrunsCounted` | engine/buffers/jitter_buffer.go:544-550 | A read underruns exactly when it asks for more than the fill, and only that is counted. |
| `JitterDirection.SplicesFollowTheRate` | engine/buffers/jitter_buffer.go:552-577 | Over any stretch of any run, decisions that never go negative never insert and decisions that never go positive never drop. |
| `JitterRuns.SenseKeeps` | engine/buffers/jitter_buffer.go:585-627 | Sensing, freezing and closing a window keep the state invariant. |
| `JitterRuns.CloseWindowKeeps` | engine/buffers/jitter_buffer.go:632-730 | A window close keeps widths in [0, cap], setpoint in [spBase, spMax] and rate within its cap, for any controller. |
| `JitterRuns.PlaceKeeps` | engine/buffers/jitter_buffer.go:496-537 | Placement only moves forward, never leaves fill below the setpoint after a move, ends below capacity, and in a roomy ring clear of both valves. |
| `JitterRuns.ReadKeeps` | engine/buffers/jitter_buffer.go:486-577 | One read: the head moves by the placement plus what was consumed, splices are paid from debt, none while frozen, and all frames played were written and not overwritten. |
| `JitterRuns.Exec` | engine/buffers/jitter_buffer.go:467-577 | Over every sequence of writes and reads the invariant holds and neither head ever goes back. |
| `JitterRuns.RunSafety` | engine/buffers/jitter_buffer.go:467-577 | From construction, every run: rp <= wp, setpoint and width in bounds, equal windows below windowReads, zero rate and debt while frozen, and readPos = jumps + frames played + dropped - inserted. |
| `JitterRuns.SpliceBound` | engine/buffers/jitter_buffer.go:552-575 | Any stretch of k reads, for any controllers, makes at most 1.5 + k * rateCap * R / sampleRate splices. |
| `JitterSensing.FreezeExcision` | engine/buffers/jitter_buffer.go:585-627 | In every run the open window is exactly the latest stretch of observations, ending where the outage began once the reader is frozen; frozen if and only if the undelivered run exceeds the limit. |
| `JitterSensing.ResumeIsFresh` | engine/buffers/jitter_buffer.go:594-627 | The first delivery after a freeze starts from an empty window and drift history; the history is still empty after it if and only if a window is longer than one read, and otherwise holds that one close. |
| `JitterSensing.OutageTeachesNothing` | engine/buffers/jitter_buffer.go:585-627 | However long an outage lasts, a frozen reader changes no belief and splices nothing. |
| `JitterOutage.OutageUnheard` | engine/buffers/jitter_buffer.go:579-627 | An outage after a delivery, nothing pending, of any length leaves widths, drift history and setpoint alone when its reads up to the freeze do not fill the open window. |
| `JitterOutage.OutageHeard` | engine/buffers/jitter_buffer.go:605-650 | When they do, the read that fills it closes a window whose last values are exactly the outage's dips, and widths and drift history are those of that window. |
| `JitterOutage.SlowReaderLearnsOutage` | engine/buffers/jitter_buffer.go:585-627 | A run from construction whose next read, the first of an outage, is learned, in every roomy ring with a window of one read. |
| `JitterSensing.WidthHold` | engine/buffers/jitter_buffer.go:637-649 | After a close the held width exceeds x if and only if it had not narrowed below x or the rank-many widest windows all exceed x. |
| `JitterSensing.OneOffNotLearned` | engine/buffers/jitter_buffer.go:637-706 | With three windows recorded and at most two above x, width stays at most x and the setpoint at most max(spBase + round(kLow x), floor). |
| `JitterCramped.HeadNeverGoesBack` | engine/buffers/jitter_buffer.go:496-577 | Over all runs of fitting writes and any reads and controllers, readPos never decreases if and only if the ring holds the structural setpoint, a writer frame and a reader frame, less one. |
| `JitterCramped.CrampedGoesBack` | engine/buffers/jitter_buffer.go:496-548 | In every smaller ring a run from construction in which a read moves the head back. |
| `JitterCramped.SnapTripsAgain` | engine/buffers/jitter_buffer.go:520-537 | A read k frames after a snap, nothing delivered since, snaps again if and only if the ring is short by more than k, and then goes back by k. |
| `JitterCramped.RingSizes` | engine/buffers/jitter_buffer.go:322-446 | Settings whose derived rings lie below, between and above the two bounds. |
| `JitterStream.RingAppend` | engine/buffers/jitter_buffer.go:873-883 | Writing a block behind the head keeps the ring equal to the newest part of the stream. |
| `JitterStream.RingRun` | engine/buffers/jitter_buffer.go:885-895 | A run of ring cells that does not wrap is the matching run of the stream. |
| `JitterStream.DropFrame` | engine/buffers/jitter_buffer.go:795-825 | A drop frame by frame, on every channel: at a pair no less continuous than any other, one averaged frame stands for two. |
| `JitterStream.InsertFrame` | engine/buffers/jitter_buffer.go:827-855 | An insertion likewise: such a pair's average follows its first frame. |
| `JitterBuffer.ClippedIsNewest` | engine/buffers/jitter_buffer.go:467-480 | What a write keeps is the newest whole frames, all of them when they fit. |
| `JitterBuffer.Buffer.Write` | engine/buffers/jitter_buffer.go:467-480 | The stream grows by the whole frames of the source, oldest dropped when they exceed the ring, and nothing of the reader changes. |
| `JitterBuffer.Buffer.ReadFromRing` | engine/buffers/jitter_buffer.go:885-895 | Copies exactly the stream's frames at the position, across the wrap. |
| `JitterBuffer.Buffer.LeastGap` | engine/buffers/jitter_buffer.go:795-871 | Finds the last least-discontinuous adjacent pair, summed over channels. |
| `JitterBuffer.Buffer.SpliceDrop` | engine/buffers/jitter_buffer.go:795-825 | Output is the stream's block with one pair merged into its average at the best cut. |
| `JitterBuffer.Buffer.SpliceInsert` | engine/buffers/jitter_buffer.go:827-855 | Output is the stream's block with one averaged frame inserted at the best cut. |
| `JitterBuffer.Buffer.CloseWindow` | engine/buffers/jitter_buffer.go:632-730 | The in-place close, with its rank loops, is the value-level close. |
| `JitterBuffer.Buffer.Sense` | engine/buffers/jitter_buffer.go:585-627 | The in-place sensing is the value-level sensing. |
| `JitterBuffer.Buffer.Read` | engine/buffers/jitter_buffer.go:486-577 | State moves exactly as the value-level read, and the samples delivered are the stream's block at the positions it names, silence, or nothing. |
| `JitterInterleaving.RingRefinesStream` | engine/buffers/jitter_buffer.go:467-577 | Under every interleaving of single sample copies, publish and single loads in which the writer does not lap frames in use, every finished read returned the stream's block and the state is that of the calls run one after another. |
| `JitterInterleaving.ReaderHasSlack` | engine/buffers/jitter_buffer.go:520-537 | After placement the writer can still store one writer and one reader frame before it laps. |
| `RampCodec.PlainRoundTrip` | engine/jitterlab/signal.go:24-63 | Every position survives encode and classify, up to the wrap. |
| `RampCodec.UnwrapExact` | engine/jitterlab/signal.go:77-84 | Unwrapping recovers a position if and only if it is less than half a wrap behind the expected one or at most half a wrap ahead. |
| `RampCodec.MarkerRecognised` | engine/jitterlab/signal.go:45-73 | Every splice average classifies as a marker, and neighbouring positions have different ones. |
| `RampCodec.FillRamp` | engine/jitterlab/signal.go:24-32 | Fills every channel of every frame with its position's value. |
| `RampCodec.RampFramesJoin` | engine/jitterlab/signal.go:24-32 | Consecutive ramp writes join into one ramp. |
| `Ledger.Decoder.FeedBlock` | engine/jitterlab/ledger.go:102-183 | The in-place decoder is the value-level decoder on channel 0, and returns the first plain position. |
| `DecodeExact.BlockHeard` | engine/buffers/jitter_buffer.go:795-855 | What a spliced or plain block of ramp of any length sounds like on channel 0: where its marker sits and which positions it keeps, at any wrap. |
| `DecodeExact.HeardExactly` | engine/jitterlab/ledger.go:102-174 | Fed one produced block of any length, the decoder adds exactly its drop, insert or snap and ends on its last position, unless the block is a drop with its marker first and not contiguous. |
| `DecodeExact.ReportedPosition` | engine/jitterlab/ledger.go:103-132 | The position reported for a producing read, from which latency is measured, is the true one of its first unspliced frame. |
| `DecodeExact.BlindStep` | engine/jitterlab/ledger.go:158-174 | In that one case the decoder's ledger is always wrong afterwards. |
| `DecodeExact.DecodingIsExact` | engine/jitterlab/ledger.go:102-183 | For every run of ramp writes and reads of any length within half a wrap, the decoder's drops, inserts, snaps and silence are the buffer's own and nothing is alien, at every point, if and only if no read was such a blind one. |
| `DecodeExact.LongReadsDecode` | engine/jitterlab/ledger.go:102-183 | So with reads of no frames or at least three the decoder is exact. |
| `DecodeExact.JumpPlays` | engine/buffers/jitter_buffer.go:496-548 | A read that moved the head plays if and only if it asks for no more than the fill it moved to, which is at least the structural setpoint. |
| `DecodeExact.SnapsAreJumps` | engine/jitterlab/ledger.go:138-151 | A snap is counted at a producing read if and only if the jumps since the last frame played do not sum to zero, for reads of any length. |
| `DecodeExact.AlwaysInStep` | engine/buffers/jitter_buffer.go:486-577 | In every run the read head is where playing stopped plus the jumps since. |
| `DecodeExact.ShortReadsSettle` | engine/buffers/jitter_buffer.go:496-548 | With reads up to the structural setpoint no jump waits: snaps are exactly the reads whose own trim or valve moved the head. |
| `DecodeLimits.LoneMarkerMisheard` | engine/jitterlab/ledger.go:158-174 | A two-call run from construction whose one-frame read is blind. |
| `DecodeLimits.LongReadJumpsSilently` | engine/buffers/jitter_buffer.go:509-548 | A run from construction after which a read longer than its fill jumps by a whole trim and plays nothing. |
| `DecodeLimits.SlowReaderDecides` | engine/buffers/jitter_buffer.go:322-446 | Settings whose derived geometry admits both runs. |
| `LabRun.Run` | engine/jitterlab/runner.go:128-195 | A buffer fed ramp frames and a decoder fed its reads end in the rig's states; with reads of at least three frames in range the decoder's counts are the buffer's. |
| `Deques.Slide` | engine/jitterlab/sensor.go:164-182 | One push and prune of the monotonic deque; its front is then a largest value of the window. |
| `Deques.FrontIsLargest` | engine/jitterlab/sensor.go:164-182 | The front is a value of the window at least every other. |
| `Sensors.PushBoth` | engine/jitterlab/sensor.go:164-182 | After every push the fronts are the maximum and minimum of the last N values. |
| `Sensors.EnvelopeSensor.Push` | engine/jitterlab/sensor.go:164-191 | A completed window reports exactly its own maximum, minimum, median and mean; otherwise the window just grows. |
| `Sensors.EnvelopeSensor.CloseWindow` | engine/jitterlab/sensor.go:193-223 | At a close the deque extremes are those of the tumbling buffer the median is sorted from. |
| `Sensors.EnvelopeSensor.OnRead` | engine/jitterlab/sensor.go:130-162 | Nothing is pushed while frozen, and the first delivery after a freeze pushes exactly the last delivered level. |
| `Sensors.TimestampSensor.OnWrite` | engine/jitterlab/sensor.go:257-303 | A completed window reports the least transit of its writes and the spread to the largest. |
| `Sensors.DriftIsMeanSlope` | engine/jitterlab/sensor.go:203-211 | The drift estimate is the rise of the kept means over the reads between them. |
| `Sensors.VirtualFillMoves` | engine/jitterlab/sensor.go:130-137 | A reader frame delivered per tick keeps the virtual fill level; more or less moves it by the difference. |
| `Sensors.TransitDriftIs` | engine/jitterlab/sensor.go:289-296 | The timestamp drift is the fall of the least transit over the positions between. |
| `Sensors.KeepsNewest` | engine/jitterlab/sensor.go:203-206 | A kept ring ends with the newest value and drops the oldest when full. |
| `Oracle.Fills` | engine/jitterlab/oracle.go:84-101 | The deque front is the trailing-window maximum deficit at every read, and the sums are those of the two fills. |
| `Oracle.AdaptiveIsCheaper` | engine/jitterlab/oracle.go:78-101 | The adaptive fill is never negative and never above the constant one. |
| `Oracle.AdaptingGainsNothing` | engine/jitterlab/oracle.go:78-101 | The adaptive fill equals the constant one if and only if the worst deficit was never more than a window old at any read that counts. |
| `Oracle.ConstFillIs` | engine/jitterlab/oracle.go:93-99 | The reads counted are those at or after the warm-up, and moving one deficit moves the constant fill by as much exactly if its read counts. |
| `Oracle.DemandCountsReads` | engine/jitterlab/oracle.go:48-67 | Demand is the reads so far at the demand rate, one deficit per read. |
| `Oracle.SupplyCountsFrames` | engine/jitterlab/oracle.go:57-62 | Supply counts every packet sent, lost ones too. |
| `Oracle.ComputeOracle` | engine/jitterlab/oracle.go:44-107 | The constant latency is the least that covers every read, and both means are those of the defined fills. |
| `Schedule.InStallComplete` | engine/jitterlab/model.go:90-100 | On a sorted, non-overlapping list the early exit misses no stall. |
| `Schedule.FindStall` | engine/jitterlab/model.go:90-100 | The loop finds the stall the recursion does. |
| `Schedule.Chase` | engine/jitterlab/model.go:131-144 | The flush loop terminates for any stall list (stalls ending after the arrival decrease), moves only forward, and ends outside every stall or in a dropping one. |
| `Schedule.OneArrival` | engine/jitterlab/model.go:112-146 | A copy's arrival and loss are those of the delay, outage, chance and stall stages. |
| `Schedule.ChaseMovesNoFurther` | engine/jitterlab/model.go:131-144 | Every moment a flush skips lies inside a stall, and it lands at a stall's end. |
| `Schedule.LossByChance` | engine/jitterlab/model.go:126-129 | Outside outages a copy is lost exactly when its draw falls below the loss probability. |
| `Schedule.DelayStages` | engine/jitterlab/model.go:113-125 | The stages of a delay add up, each from its own time on and only when set. |
| `Schedule.ClockAccurate` | engine/jitterlab/model.go:85-87 | A tick is within half a frame of where the clock's rate puts it. |
| `Schedule.PacketsTile` | engine/jitterlab/model.go:154-226 | Every packet becomes exactly one write or loss, and their ranges tile the sent stream. |
| `Schedule.PacketsInOrder` | engine/jitterlab/model.go:154-226 | Delivered writes have non-decreasing times in position order, with or without repair. |
| `Schedule.DeliveryIsRunningMaximum` | engine/jitterlab/model.go:154-226 | A delivered packet's time is the greatest own release time among the delivered packets up to it: held just until those before it are out. |
| `Schedule.PacketsPaced` | engine/jitterlab/model.go:154-226 | A delivered write is no earlier than any earlier event of the line, losses included. |
| `Schedule.LineSortedIff` | engine/jitterlab/model.go:154-226 | The line is sorted by time if and only if every lost packet was sent no earlier than the latest delivery before it arrived. |
| `Schedule.BuildWrites` | engine/jitterlab/model.go:154-226 | The writer loop terminates and sends exactly the packets whose send time is before the end. |
| `Schedule.RepairDelivers` | engine/jitterlab/model.go:164-211 | With repair, a packet is delivered if and only if its deadline, or a copy that makes it, falls inside the run, and it is concealed if and only if no copy makes the deadline. |
| `Schedule.RepairGapFreeIff` | engine/jitterlab/model.go:164-211 | The line has no gap if and only if every packet before one so released is so released; it loses nothing if and only if every packet is. |
| `Schedule.RepairLeavesNoGap` | engine/jitterlab/model.go:164-211 | Everything up to a packet whose deadline is inside the run is delivered. |
| `Schedule.RepairGapAtTheEnd` | engine/jitterlab/model.go:164-211 | A run that loses its first packet at the end and delivers its successor all the same. |
| `Schedule.ReadTimeMonotone` | engine/jitterlab/model.go:235-241 | Deferring reads to stall ends does not reorder them. |
| `Schedule.StalledReadsDefer` | engine/jitterlab/model.go:235-241 | A read due inside a stall runs at its end, any other when it is due. |
| `Schedule.BuildReads` | engine/jitterlab/model.go:228-242 | Reads follow the reader's clock through its stalls, sorted, up to the first at or after the end. |
| `Schedule.MergeEvents` | engine/jitterlab/scenario.go:84-99 | Each side keeps its events in order; with sorted reads the result is sorted if and only if the writes are; and every event that is not a loss is no earlier than all before it when that holds of the writes. |
| `Schedule.LossesBreakTimeOrder` | engine/jitterlab/model.go:213-224 | A writer model whose generated line is not sorted by time. |
| `Schedule.Build` | engine/jitterlab/model.go:104-251 | A whole schedule for any draws, losses, outages and stalls: tiled, in order, playable, and sorted exactly when its line of packets is. |
| `Schedule.WriteTimeOf` | engine/jitterlab/runner.go:254-261 | The binary search returns the time of the last record at or before the position, or zero. |
| `Schedule.LookupInRun` | engine/jitterlab/runner.go:128-148 | At any point of a run every position of a packet delivered so far looks up the time that packet arrived. |
| `Schedule.GenStalls` | engine/jitterlab/model.go:259-281 | Generated stalls are sorted, do not overlap and start inside the run. |
| `Schedule.BoundMoves` | engine/jitterlab/model.go:270-272 | The gap bounds move from their first to their last values over the run. |
| `Schedule.EveryValueDrawn` | engine/jitterlab/model.go:261-266 | Every value of a range can be drawn. |
| `PoseSlot.LoadsAreWholeAndFresh` | engine/engine/pose.go:210-233 | Under every interleaving of single atomic operations each load returns one whole stored pose, and loads never go back to an older store. |
| `PoseRing.NeverTears` | engine/engine/pose.go:131-168 | Every accepted scan entry is one whole push, and entry i is push h-1-i while the writer has not come round to its slot again. |
| `PoseRing.LatestWins` | engine/engine/pose.go:131-145 | Later pushes have strictly larger sequence numbers. |
| `PoseScan.ScanIsNewest` | engine/engine/pose.go:151-168 | At any point of any interleaving in which the writer has not come round, what a scan kept is, decoded and newest first, the newest of the pushes published when it began. |
| `PoseScan.RecordRoundTrip` | engine/engine/pose.go:75-93 | A stored pose record loads back as it was pushed. |
| `PoseScan.ScanGivesTrack` | engine/engine/pose.go:151-198 | Evaluating it then gives the track through those pushes. |
| `PoseAlign.BetweenStaysInside` | engine/engine/pose.go:183-193 | Between two samples around L every position coordinate lies between theirs and every angle on the short arc; at the earlier sample it is that sample's pose. |
| `PoseAlign.BetweenInterpolates` | engine/engine/pose.go:51-64 | The interpolated pose divides every coordinate's way in proportion to the stream positions, and every angle's short turn, which reaches the target up to whole turns. |
| `PoseAlign.LerpAngleShortest` | engine/engine/pose.go:51-53 | Angles go the short way round and arrive a whole number of turns from the target. |
| `PoseAlign.PoseAt` | engine/engine/pose.go:176-198 | Of a scan, position and angles exactly in proportion between the newest sample at or before L and the one after it, angles along a turn of at most half a circle; held or clamped at the ends; never outside the scanned poses; none only for an empty scan. |
| `PoseAlign.ScanFollowsTrack` | engine/engine/pose.go:176-198 | On an ascending history that is the piecewise-linear track through the scanned samples. |
| `PoseAlign.PushKeeps` | engine/engine/pose.go:131-145 | Pushes keep sequence numbers rising and end samples from falling. |
| `PoseAlign.NewerPushAccepted` | engine/engine/pose.go:131-136 | A push is accepted exactly when its sequence number is above the last one's. |
| `PoseAlign.Source.IngestPCM` | engine/engine/source.go:130-133 | The samples themselves reach the stream, and pose clock and write head advance together if and only if the packet is no longer than the ring. |
| `PoseAlign.Source.WriteOpus` | engine/engine/source.go:50-78 | A packet's decoded samples, or its concealment when rejected, reach the stream; then its pose is pinned to the packet's end; the clocks stay equal if and only if it fits the ring. |
| `PoseAlign.Source.WritePCM` | engine/engine/source.go:102-112 | The same for samples decoded elsewhere. |
| `PoseAlign.Source.Conceal` | engine/engine/source.go:144-167 | On the raw path the lost duration of silence, frame by frame, otherwise the decoder's concealment reaches the stream: both clocks move together if and only if each piece fits the ring, and no pose is pushed. |
| `PoseAlign.FramePose` | engine/engine/source.go:248-255 | The initial pose before anything played or was pushed; otherwise the track through the scanned pushes at the position, never outside them. |
| `PoseAlign.Source.ReadFrame` | engine/engine/source.go:233-256 | The frame is the buffer's read, and its pose that of the buffer's own read position, which never goes back and never passes the write head. |
| `PoseGroup.SourceGroup.Join` | engine/engine/group.go:89-96 | A seat is taken or its source displaced, and the live count stays the number of seats taken. |
| `PoseGroup.SourceGroup.Leave` | engine/engine/group.go:101-109 | Only the seat's present source clears it; the answer is whether the set is empty. |
| `PoseGroup.SourceGroup.WriteFrame` | engine/engine/group.go:117-157 | A frame with audio on any member interleaves every seat's samples, silence where it had none, and advances the shared clock, which stays the write head if and only if a frame fits the ring; then each seated member's pose is pinned to that clock, end samples never falling. |
| `PoseGroup.InterleavedSample` | engine/engine/group.go:138-144 | Sample j of member i sits at j times the members plus i, silence where the member has none. |
| `PoseGroup.SeatContributes` | engine/engine/group.go:127-137 | A seat contributes its decoded packet, its concealment, or nothing. |
| `PoseGroup.SeatTakesPose` | engine/engine/group.go:150-156 | A frame adds one pose to a seat, pinned to the set's clock, exactly when it brings one, the seat is taken and the frame is newer than the seat's last. |
| `PoseGroup.SourceGroup.Read` | engine/engine/group.go:161-164 | The set's one read of a tick and the position it reached. |
| `PoseGroup.SourceGroup.ReadMember` | engine/engine/source.go:239-255 | A member's channel of that frame, and its pose at the set's read position. |
| `MixerModel.RoomMeansFreeSlot` | engine/engine/mixer.go:614-639 | Fewer entities than slots means a free slot, so the panic cannot be reached. |
| `MixerModel.AcceptedIsSafe` | engine/engine/mixer.go:271-510 | Every change the control plane accepted finds a slot, or a source to detach, when its turn comes. |
| `MixerModel.ApplyKeeps` | engine/engine/mixer.go:271-655 | Every queued change keeps distinct slots, slots[e.slot] = e, and audio-side ids within the registry's at the matching queue point. |
| `MixerModel.PersonalIsSet` | engine/engine/mixer.go:579-591 | A personal setting is on exactly as told, every other pair's is untouched, and no owner is left with an empty set. |
| `MixerModel.SettingIsApplied` | engine/engine/mixer.go:516-577 | A queued setting gives what it names the value it was given and changes nothing else. |
| `MixerModel.ArrivalKeepsPolicy` | engine/engine/mixer.go:614-639 | An arrival leaves rules and other entities alone; a new entity has the default parameters. |
| `MixerModel.DepartureKeepsPolicy` | engine/engine/mixer.go:649-655 | A departure leaves channels and other entities alone; a removed entity takes only its own personal settings with it. |
| `MixerModel.MirrorKept` | engine/engine/mixer.go:485-510 | Exact agreement of the two sides survives a change if and only if it is not the removal of the sink of a sourceless entity with ambisonic sinks. |
| `MixerModel.AmbiSinkLost` | engine/engine/mixer.go:500-509 | A three-call run after which the registry lists an ambisonic sink the audio side no longer has. |
| `Mixer.Mixer.AddSource` | engine/engine/mixer.go:333-371 | Accepted exactly when open, not a duplicate and with room; registry, count and queue move together, or not at all. |
| `Mixer.Mixer.AddSink` | engine/engine/mixer.go:399-428 | The same for sinks. |
| `Mixer.Mixer.AddAmbiSink` | engine/engine/ambisink.go:70-134 | The same for ambisonic sinks, with the order checks first. |
| `Mixer.Mixer.RemoveSource` | engine/engine/mixer.go:448-480 | Registry half, count and queued half; nothing if there is no source. |
| `Mixer.Mixer.RemoveSink` | engine/engine/mixer.go:485-510 | The same for sinks. |
| `Mixer.Mixer.RemoveAmbiSink` | engine/engine/ambisink.go:139-169 | The same for ambisonic sinks. |
| `Mixer.Mixer.SetRenderParams` | engine/engine/mixer.go:516-540 | Queued only for a registered id. |
| `Mixer.Mixer.SetPolicy` | engine/engine/mixer.go:546-577 | Channel, mute and solo settings are always queued. |
| `Mixer.Mixer.DrainOne` | engine/engine/mixer.go:257-266 | Running the next queued change is always safe and keeps the whole invariant. |
| `Mixer.DirtyOrSame` | engine/engine/channels.go:34-36 | Every change marks the pair record dirty or leaves all the policy reads alone. |
| `PairRecord.ResolvePair` | engine/engine/channels.go:41-91 | The nested scan computes the policy's cell: shared unmuted channels, highest gain, lowest set attenuation, solo over two-way mute. |
| `PairRecord.CellUnique` | engine/engine/channels.go:41-91 | The cell depends on channel lists only as sets. |
| `PairRecord.PersonalPolicy` | engine/engine/channels.go:41-91 | A listener with solos hears exactly those; without, everyone but those it mutes and those that mute it. |
| `PairRecord.HeardThroughOpenChannel` | engine/engine/channels.go:41-91 | A pair is heard only through a channel of both that is not muted. |
| `PairRecord.CellScalars` | engine/engine/channels.go:41-91 | An audible cell's gain is the source's amplitude times the highest shared channel gain, its exponent half the lowest attenuation a shared channel sets, or the source's own. |
| `PairRecord.GainIsMaximum` | engine/engine/channels.go:41-91 | The winning gain is the maximum if and only if some shared channel's gain is at least -1. |
| `PairRecord.GainBelowFloor` | engine/engine/channels.go:41-91 | One shared channel of gain -2 is composed with -1. |
| `Mixer.Mixer.RecomputeAudible` | engine/engine/channels.go:96-104 | Afterwards every cell of every live pair is the policy's. |
| `Mixer.RowIsPolicy` | engine/engine/render.go:202-212 | A peers row is exactly the live sources the policy lets the listener hear, each listed once. |
| `Mixer.MuteTakesEffect` | engine/engine/mixer.go:562-577 | At the tick after a mute neither side hears the other, unless it solos. |
| `Mixer.UnmuteTakesEffect` | engine/engine/mixer.go:562-577 | At the tick after it is taken back they hear each other as far as channels let them. |
| `Mixer.SoloDecides` | engine/engine/channels.go:41-91 | A listener with solos hears exactly the soloed sources it shares an open channel with. |
| `WeightFade.RowFeedsEncoder` | engine/engine/render.go:202-212 | The slots of such a row are in range and pairwise different, as the encoder needs them. |
| `Mixer.Mixer.Process` | engine/engine/render.go:166-212 | After the drain-and-recompute of any tick, whatever was called before it, the record is the policy and every listener's row is exactly its audible sources, each once. |
| `OverlapSave.LawfulTransformExists` | engine/convolver/pahconv.c:301-303 | The law assumed of the transform library is consistent. |
| `OverlapSave.LastBlockIsLinear` | engine/convolver/pahconv.c:325-327 | The last block of the circular convolution is the linear one for filters of up to 273 taps. |
| `OverlapSave.LongerFilterAliases` | engine/convolver/pahconv.c:78-79 | With one tap more it is not. |
| `OverlapSave.EarsApart` | engine/convolver/pahconv.c:296-307 | Each ear hears its own half of the bus through its own half of the taps. |
| `OverlapSave.ImpulseGivesTaps` | engine/convolver/pahconv.h:1-8 | The response to an impulse is the taps. |
| `OverlapSave.CreateSet` | engine/convolver/pahconv.c:76-148 | Refused exactly for no channels or a filter length outside 1..273; otherwise every spectrum is that of its zero-padded taps. |
| `OverlapSave.HistoryShifts` | engine/convolver/pahconv.c:228-235 | Keeping the last 272 samples of (history, frame) is the history of the longer stream. |
| `OverlapSave.OneMoreChannel` | engine/convolver/pahconv.c:306-322 | The multiply-accumulate adds exactly a channel's linear convolution to what the accumulator stands for. |
| `OverlapSave.Handle.ProcessEar` | engine/convolver/pahconv.c:296-328 | One ear's block is the linear convolution of its bus channels with their filters. |
| `OverlapSave.Handle.Process` | engine/convolver/pahconv.c:330-335 | Over any number of calls each ear's whole output stream is the sum over channels and taps k of tap[k] x[t-k], with zero history at the start. |
| `OverlapSave.Handle.Reset` | engine/convolver/pahconv.c:222-226 | The streams start again. |
| `Crossfade.FadeEnds` | engine/gemm/gemm.go:57-67 | The first sample is the previous product and the last the current one. |
| `Crossfade.FadeIsLinear` | engine/gemm/gemm.go:57-67 | In between, sample j is j parts of the current product and the rest of the previous one. |
| `Crossfade.EncodeFade` | engine/gemm/gemm_purego.go:11-27 | Every output row is the fade from the previous product to the current one. |
| `Crossfade.EncodeFadeBack` | engine/ambisonic/mixer.go:211-240 | The pure-Go form, with the products the other way round, gives the same rows. |
| `Crossfade.SampleIsFadedSum` | engine/gemm/gemm.go:5-13 | Each sample is the sum over inputs of the faded weight times the input. |
| `Crossfade.FadeMixer.AddInput` | engine/ambisonic/mixer.go:83-86 | The part lands in its input row and its column of both transposed matrices, and the others stay. |
| `Crossfade.FadeMixer.AddInputDelayed` | engine/ambisonic/mixer.go:96-120 | The part's samples are its source's stream read along the delay ramp. |
| `Crossfade.FadeMixer.Mix` | engine/ambisonic/mixer.go:190-209 | After a reset and that many inputs, either form gives the sum over parts of lerp(prev, cur, j/(F-1)) times input. |
| `Crossfade.MixShared` | engine/ambisonic/shared_inputs.go:57-75 | Clear, scatter and dense mix over the shared rows. |
| `Crossfade.DenseIsPackedPlusFadeOut` | engine/ambisonic/shared_inputs.go:67-75 | The dense mix is the packed one plus the fade-out of the slots not in this frame. |
| `Crossfade.DenseEqualsPacked` | engine/ambisonic/shared_inputs.go:67-75 | They are equal when every such slot has zero previous weights. |
| `DelayLine.InputRing.Push` | engine/ambisonic/delay.go:82-89 | After any number of pushes the ring is the last 64 + F samples of the zero-prefixed input and one zero. |
| `DelayLine.RingRead` | engine/ambisonic/mixer.go:111-117 | A read at any delay in [0, 64] stays in the ring and gives the interpolated stream at the delayed time. |
| `DelayLine.InterpIsLinear` | engine/ambisonic/mixer.go:112-115 | At whole times the stream itself, in between the same share of the way to the next sample. |
| `DelayLine.RampBetween` | engine/ambisonic/mixer.go:109-117 | The delay ramp stays between its ends. |
| `DelayLine.InputRing.DelayedRow` | engine/ambisonic/mixer.go:96-118 | The whole-sample shortcut and the ramp loop both give the interpolated stream along the ramp. |
| `DelayLine.InitDelayModel` | engine/ambisonic/delay.go:49-64 | An accepted model keeps every per-ear delay in [1, 64]. |
| `DelayLine.EarDelaysReadable` | engine/ambisonic/delay.go:98-101 | For every direction, given only the bound on arcsin. |
| `DelayLine.TauIs` | engine/ambisonic/delay.go:34-42 | The interaural delay is scale times angle plus sine, with the sine held to [-1, 1]. |
| `DelayLine.DelayModelIs` | engine/ambisonic/delay.go:49-64 | The scale is head radius over speed of sound in samples, the base the least whole delay that keeps the longest lead causal by a sample; accepted exactly when the longest delay fits the ring. |
| `DelayLine.LeadingEar` | engine/ambisonic/delay.go:98-102 | The right ear's delay exceeds the left one's by the interaural delay, and a source on the left reaches the left ear first. |
| `DelayLine.EarState.PairEarDelays` | engine/ambisonic/delay.go:98-110 | Start, end and the slot's new state. |
| `DelayLine.EarState.EncodePeers` | engine/ambisonic/encoder.go:458-600 | Over any sequence of calls a ramp starts away from its end only if the immediately preceding call rendered the same source in that slot, and then exactly where that call ended; all delays are readable. |
| `WeightFade.WeightBuffers.Encode` | engine/ambisonic/encoder.go:467-542 | Over any sequence of calls a slot's crossfade starts from the weights of the latest call that was offered any peers, zero if it did not weight the slot. |
| `WeightFade.NewSourceFadesIn` | engine/ambisonic/delay.go:91-97 | A source new to its slot starts from a slot still weighted if and only if the latest call was offered no peers and the last one that was weighted the slot, or the latest call rendered another source there. |
| `WeightFade.StaleStarts` | engine/ambisonic/encoder.go:467-563 | Runs of both kinds. |

## Left out

- Opus, QUIC, WebTransport, HTTP, logging and the server: input and output, and libraries.
- Floating-point rounding and denormal flushing: reals throughout. The ramp codec's values are exact integers and halves.
- The lap race in the jitter buffer's `Write`: excluded by the hypothesis that the writer does not come round to frames in use.
- Internals of the transform and matrix libraries: the transform by its circular-convolution law, the matrix product by its definition.
- The Accelerate branch of the convolver: the same algorithm with a packed DC/Nyquist pair kept apart.
- Near-field filters, HRTF data, spherical harmonics, distance gain and perceptual constants: data or transcendental functions.
- Entity and space mutes, subspace visibility, loudness and statistics mirrors, `Close`: they would only add easy members.
- The registry of lockstep sets and the lock around their members: a set is one object here, its calls one after another.
- Test-tone sources, which bypass buffer and pose ring.
- Control-plane calls are single steps: the code releases its lock before it queues, so two racing calls can queue in the other order; and queue capacity, which makes a call wait, is not modelled.
- Worker scheduling and the phases after the peers rows: modelled as sequential phases.
- `PoseAlign.Source.ReadFrame`: takes how many pushes the concurrent scan kept as a parameter; `PoseScan.ScanIsNewest` says that what it kept is then what the contract assumes.
- `PoseAlign.ScanFollowsTrack`: for scans that no push has overtaken; `PoseRing.NeverTears` says which those are.
- `Schedule.GenStalls`: requires a run of positive length (the code divides by it), non-negative bounds and that a round moves on (a positive least duration, or positive least gaps); otherwise the loop need not end.
- `DecodeExact.DecodingIsExact`: contiguous ramp writes; concealment writes, lost positions and the runner's reclassification of gaps are not modelled.
- `Schedule.Build`: clock offsets enter as a positive rate, so an offset of minus one million parts per million or below is excluded.
- `Crossfade.EncodeFade`: requires frames of at least two samples; the fade divides by the frame length less one.
- The retired v3 buffer and the alternative controllers: the jitter-buffer results hold for any controller.
- Snapshots, wall-clock pacing and the stats they feed.
