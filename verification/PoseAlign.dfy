/** Poses keyed in the audio's own clock: evaluation of the pose at a stream sample, and the
    writers that keep the pose clock and the jitter buffer's write head equal. */
module PoseAlign {
  import opened Layout
  import opened Order
  import opened JitterServo
  import opened JitterControl
  import opened JitterRuns
  import opened JitterBuffer

  datatype Pose = Pose(x: real, y: real, z: real, yaw: real, pitch: real, roll: real)

  datatype Sample = Sample(seqNo: int, endSample: int, pose: Pose)

  const TWO_PI := 6.283185307179586

  /** Nearest integer, ties to even. */
  function NearestEven(v: real): (n: int)
    ensures -0.5 <= v - n as real <= 0.5
  {
    var f := v.Floor;
    var frac := v - f as real;
    if frac < 0.5 then f else if frac > 0.5 then f + 1 else if f % 2 == 0 then f else f + 1
  }

  /** Signed distance from 0 to v along the shortest way round a circle of the given length. */
  function Remainder(v: real, period: real): real
    requires period > 0.0
  {
    v - NearestEven(v / period) as real * period
  }

  function LerpAngle(a: real, b: real, t: real): real {
    Lerp(a, a + Remainder(b - a, TWO_PI), t)
  }

  function LerpPose(a: Pose, b: Pose, t: real): Pose {
    Pose(Lerp(a.x, b.x, t), Lerp(a.y, b.y, t), Lerp(a.z, b.z, t),
         LerpAngle(a.yaw, b.yaw, t), LerpAngle(a.pitch, b.pitch, t), LerpAngle(a.roll, b.roll, t))
  }

  /** p lies between a and b: position coordinate by coordinate, angles along the short arc. */
  predicate PoseAmid(a: Pose, b: Pose, p: Pose) {
    && Amid(a.x, b.x, p.x) && Amid(a.y, b.y, p.y) && Amid(a.z, b.z, p.z)
    && Amid(a.yaw, a.yaw + Remainder(b.yaw - a.yaw, TWO_PI), p.yaw)
    && Amid(a.pitch, a.pitch + Remainder(b.pitch - a.pitch, TWO_PI), p.pitch)
    && Amid(a.roll, a.roll + Remainder(b.roll - a.roll, TWO_PI), p.roll)
  }

  lemma LerpPoseAmid(a: Pose, b: Pose, t: real)
    requires 0.0 <= t <= 1.0
    ensures PoseAmid(a, b, LerpPose(a, b, t))
  {
    hide Lerp;
    hide Amid;
    hide Remainder;
    LerpAmid(a.x, b.x, t);
    LerpAmid(a.y, b.y, t);
    LerpAmid(a.z, b.z, t);
    LerpAmid(a.yaw, a.yaw + Remainder(b.yaw - a.yaw, TWO_PI), t);
    LerpAmid(a.pitch, a.pitch + Remainder(b.pitch - a.pitch, TWO_PI), t);
    LerpAmid(a.roll, a.roll + Remainder(b.roll - a.roll, TWO_PI), t);
  }

  /** Between two samples around l the pose never leaves the stretch between theirs, and starts at
      the earlier one. */
  lemma BetweenStaysInside(e: Sample, after: Sample, l: int)
    requires e.endSample <= l < after.endSample
    ensures PoseAmid(e.pose, after.pose, Between(e, after, l))
    ensures l == e.endSample ==> Between(e, after, l) == e.pose
  {
    var n, d := (l - e.endSample) as real, (after.endSample - e.endSample) as real;
    DivideKeepsOrder(0.0, n, d);
    DivideKeepsOrder(n, d, d);
    assert d / d == 1.0 && 0.0 / d == 0.0;
    LerpPoseAmid(e.pose, after.pose, n / d);
    hide Remainder;
  }

  /** Angles go the short way: at most half a turn in all, and a whole number of turns away
      from the target at the end. */
  lemma LerpAngleShortest(a: real, b: real)
    ensures -TWO_PI / 2.0 <= Remainder(b - a, TWO_PI) <= TWO_PI / 2.0
    ensures LerpAngle(a, b, 0.0) == a
    ensures LerpAngle(a, b, 1.0) == b - NearestEven((b - a) / TWO_PI) as real * TWO_PI
  {
    var q := (b - a) / TWO_PI;
    var n := NearestEven(q);
    assert b - a == q * TWO_PI;
    assert Remainder(b - a, TWO_PI) == (q - n as real) * TWO_PI;
  }

  // ---- Evaluation ----------------------------------------------------------------

  /** The pose between two samples at stream position l. */
  function Between(e: Sample, after: Sample, l: int): Pose
    requires e.endSample < after.endSample
  {
    LerpPose(e.pose, after.pose, (l - e.endSample) as real / (after.endSample - e.endSample) as real)
  }

  /** v is n parts in d of the way from a to b. */
  ghost predicate Straight(a: real, b: real, v: real, n: int, d: int) {
    (v - a) * d as real == (b - a) * n as real
  }

  /** The same along a turn of at most half a circle that reaches b up to whole turns. */
  ghost predicate OnArc(a: real, b: real, v: real, n: int, d: int) {
    exists turns: int :: ArcOf(a, b, v, n, d, turns)
  }

  ghost predicate ArcOf(a: real, b: real, v: real, n: int, d: int, turns: int) {
    var turn := b - a - turns as real * TWO_PI;
    -TWO_PI / 2.0 <= turn <= TWO_PI / 2.0 && (v - a) * d as real == turn * n as real
  }

  /** p is the linear interpolation between two samples at stream position l. */
  ghost predicate Interpolates(e: Sample, after: Sample, l: int, p: Pose) {
    var n, d := l - e.endSample, after.endSample - e.endSample;
    && Straight(e.pose.x, after.pose.x, p.x, n, d)
    && Straight(e.pose.y, after.pose.y, p.y, n, d)
    && Straight(e.pose.z, after.pose.z, p.z, n, d)
    && OnArc(e.pose.yaw, after.pose.yaw, p.yaw, n, d)
    && OnArc(e.pose.pitch, after.pose.pitch, p.pitch, n, d)
    && OnArc(e.pose.roll, after.pose.roll, p.roll, n, d)
  }

  lemma LerpIsStraight(a: real, b: real, n: int, d: int)
    requires d > 0
    ensures Straight(a, b, Lerp(a, b, n as real / d as real), n, d)
  {
    var t, m, span := n as real / d as real, d as real, b - a;
    assert t * m == n as real;
    Regroup(t, span, m);
  }

  lemma Regroup(t: real, span: real, m: real)
    ensures Portion(t, span) * m == span * (t * m)
  {
  }

  lemma AngleIsOnArc(a: real, b: real, n: int, d: int)
    requires d > 0
    ensures OnArc(a, b, LerpAngle(a, b, n as real / d as real), n, d)
  {
    LerpAngleShortest(a, b);
    var turns := NearestEven((b - a) / TWO_PI);
    var turn := Remainder(b - a, TWO_PI);
    assert turn == b - a - turns as real * TWO_PI;
    LerpIsStraight(a, a + turn, n, d);
    hide Remainder;
    hide Lerp;
    assert ArcOf(a, b, LerpAngle(a, b, n as real / d as real), n, d, turns);
  }

  lemma BetweenInterpolates(e: Sample, after: Sample, l: int)
    requires e.endSample < after.endSample
    ensures Interpolates(e, after, l, Between(e, after, l))
  {
    var n, d := l - e.endSample, after.endSample - e.endSample;
    hide Straight;
    hide OnArc;
    hide LerpAngle;
    hide Lerp;
    LerpIsStraight(e.pose.x, after.pose.x, n, d);
    LerpIsStraight(e.pose.y, after.pose.y, n, d);
    LerpIsStraight(e.pose.z, after.pose.z, n, d);
    AngleIsOnArc(e.pose.yaw, after.pose.yaw, n, d);
    AngleIsOnArc(e.pose.pitch, after.pose.pitch, n, d);
    AngleIsOnArc(e.pose.roll, after.pose.roll, n, d);
  }

  /** What a scan, newest first, must evaluate to at stream position l: held behind the newest
      sample, clamped before the oldest, and otherwise interpolated between the newest sample at
      or before l and the oldest after it. */
  ghost predicate Evaluates(scan: seq<Sample>, l: int, p: Pose) {
    && scan != []
    && var k := FirstAtOrBefore(scan, l);
       if k == |scan| then p == scan[|scan| - 1].pose
       else if k == 0 then p == scan[0].pose
       else Interpolates(scan[k], scan[k - 1], l, p)
  }

  /** The first scanned sample at or before l, or the number of samples if there is none. */
  function FirstAtOrBefore(scan: seq<Sample>, l: int): (k: nat)
    ensures k <= |scan|
    ensures k < |scan| ==> scan[k].endSample <= l
    ensures forall i :: 0 <= i < k ==> scan[i].endSample > l
  {
    if scan == [] then 0
    else
      var k := FirstAtOrBefore(scan[..|scan| - 1], l);
      if k < |scan| - 1 || scan[|scan| - 1].endSample <= l then k else |scan|
  }

  lemma PoseAtEnd(p: Pose)
    ensures PoseAmid(p, p, p)
  {
  }

  /** Evaluate a scan, newest sample first, at stream position l: held, clamped or interpolated, and
      never outside the scanned poses. */
  method PoseAt(scan: seq<Sample>, l: int) returns (p: Option<Pose>)
    ensures p.None? <==> scan == []
    ensures scan != [] ==> Evaluates(scan, l, p.value)
    ensures scan != [] ==> exists i, j :: 0 <= i < |scan| && 0 <= j < |scan| && PoseAmid(scan[i].pose, scan[j].pose, p.value)
  {
    hide LerpPose;
    hide PoseAmid;
    hide Interpolates;
    if scan == [] {
      return None;
    }
    var i := 0;
    while i < |scan|
      invariant 0 <= i <= |scan|
      invariant forall j :: 0 <= j < i ==> scan[j].endSample > l
    {
      var e := scan[i];
      if e.endSample <= l {
        assert FirstAtOrBefore(scan, l) == i;
        if i == 0 {
          PoseAtEnd(e.pose);
          return Some(e.pose);
        }
        var after := scan[i - 1];
        BetweenStaysInside(e, after, l);
        BetweenInterpolates(e, after, l);
        var span := after.endSample - e.endSample;
        var t := (l - e.endSample) as real / span as real;
        return Some(LerpPose(e.pose, after.pose, t));
      }
      i := i + 1;
    }
    assert FirstAtOrBefore(scan, l) == |scan|;
    PoseAtEnd(scan[|scan| - 1].pose);
    p := Some(scan[|scan| - 1].pose);
  }

  predicate Ascending(w: seq<Sample>) {
    forall i, j :: 0 <= i < j < |w| ==> w[i].endSample <= w[j].endSample
  }

  /** The newest m of a history, newest first. */
  function Newest(history: seq<Sample>, m: nat): (s: seq<Sample>)
    requires m <= |history|
    ensures |s| == m
  {
    seq(m, i requires 0 <= i < m => history[|history| - 1 - i])
  }

  /** The piecewise-linear track through a history of samples: held before the first and after
      the last, linear in between. i is the newest sample at or before l. */
  ghost predicate OnTrack(w: seq<Sample>, l: int, p: Pose) {
    && w != []
    && (w[|w| - 1].endSample <= l ==> p == w[|w| - 1].pose)
    && (w[0].endSample > l ==> p == w[0].pose)
    && (forall i {:trigger w[i].pose} :: 0 <= i < |w| - 1 && w[i].endSample <= l < w[i + 1].endSample ==>
          Interpolates(w[i], w[i + 1], l, p))
  }

  /** A scan of the newest m samples of an ascending history evaluates to the track through
      them: linear between the newest sample at or before l and the oldest after it. */
  lemma ScanFollowsTrack(history: seq<Sample>, m: nat, l: int, p: Pose)
    requires 0 < m <= |history| && Ascending(history) && Evaluates(Newest(history, m), l, p)
    ensures OnTrack(history[|history| - m..], l, p)
  {
    hide Interpolates;
    var scan := Newest(history, m);
    var w := history[|history| - m..];
    var k := FirstAtOrBefore(scan, l);
    hide FirstAtOrBefore;
    forall i | 0 <= i < m
      ensures w[i] == scan[m - 1 - i]
    {
    }
    forall i | 0 <= i < m - 1 && w[i].endSample <= l < w[i + 1].endSample
      ensures Interpolates(w[i], w[i + 1], l, p)
    {
      NewestDescends(history, m, Min(k, m - 2 - i), m - 2 - i);
    }
    NewestDescends(history, m, Min(k, m - 1), m - 1);
  }

  lemma NewestDescends(history: seq<Sample>, m: nat, a: nat, b: nat)
    requires m <= |history| && Ascending(history) && a <= b < m
    ensures Newest(history, m)[a].endSample >= Newest(history, m)[b].endSample
  {
  }

  // ---- The writers' clock ------------------------------------------------------------

  /** The pose pushes a source has made: sequence numbers strictly up, end samples never down,
      none ahead of what was written. */
  predicate PushesOk(pushed: seq<Sample>, written: int) {
    && Ascending(pushed)
    && (forall i, j :: 0 <= i < j < |pushed| ==> pushed[i].seqNo < pushed[j].seqNo)
    && (forall i :: 0 <= i < |pushed| ==> pushed[i].endSample <= written)
  }

  /** A push with a sequence number at or below the last one is dropped. */
  function Push(pushed: seq<Sample>, s: Sample): seq<Sample> {
    if pushed != [] && s.seqNo <= pushed[|pushed| - 1].seqNo then pushed else pushed + [s]
  }

  /** A push is accepted exactly when its sequence number is above the last one's. */
  lemma NewerPushAccepted(pushed: seq<Sample>, s: Sample)
    ensures Push(pushed, s) == pushed + [s] <==> pushed == [] || s.seqNo > pushed[|pushed| - 1].seqNo
    ensures Push(pushed, s) == pushed + [s] || Push(pushed, s) == pushed
  {
    assert |pushed + [s]| == |pushed| + 1;
  }

  lemma PushKeeps(pushed: seq<Sample>, s: Sample, written: int)
    requires PushesOk(pushed, written) && s.endSample == written
    ensures PushesOk(Push(pushed, s), written)
  {
  }

  const RING_SIZE := 32

  /** What a frame's pose must be when the buffer has read up to l and a scan kept the newest m
      pushes: the initial pose before anything played or was pushed, and otherwise the track
      through those pushes at l, never outside them. */
  ghost predicate PoseRight(pushed: seq<Sample>, m: nat, l: int, initial: Pose, p: Pose)
    requires m <= |pushed|
  {
    if l == 0 || m == 0 then p == initial
    else
      var w := pushed[|pushed| - m..];
      OnTrack(w, l, p) && exists i, j :: 0 <= i < m && 0 <= j < m && PoseAmid(w[i].pose, w[j].pose, p)
  }

  /** The pose of a frame whose last sample is l; m is how many pushes the scan kept. */
  method FramePose(pushed: seq<Sample>, m: nat, l: int, initial: Pose) returns (p: Pose)
    requires Ascending(pushed) && m <= |pushed|
    ensures PoseRight(pushed, m, l, initial, p)
  {
    hide OnTrack;
    hide PoseAmid;
    hide FirstAtOrBefore;
    hide Ascending;
    hide Interpolates;
    if l == 0 {
      return initial;
    }
    var scan := Newest(pushed, m);
    var found := PoseAt(scan, l);
    if found.None? {
      return initial;
    }
    p := found.value;
    ScanFollowsTrack(pushed, m, l, p);
    ghost var i, j :| 0 <= i < m && 0 <= j < m && PoseAmid(scan[i].pose, scan[j].pose, p);
    ghost var w := pushed[|pushed| - m..];
    assert w[m - 1 - i] == scan[i] && w[m - 1 - j] == scan[j];
  }

  /** How a payload decodes: nothing sent, samples, or a rejected packet and its concealment. */
  datatype Payload = Absent | Decoded(pcm: seq<real>) | Rejected(plc: seq<real>)

  function Samples(p: Payload): seq<real> {
    match p
    case Absent => []
    case Decoded(pcm) => pcm
    case Rejected(plc) => plc
  }

  /** A source fed by its own jitter buffer. Decoding is a parameter: a packet arrives here as
      the samples it decoded or was concealed to. */
  class Source {
    const jitter: Buffer
    const frameSize: nat
    const raw: bool
    const initialPose: Pose
    var samplesWritten: int
    var pushed: seq<Sample>

    ghost predicate Valid()
      reads this, jitter, jitter.data
    {
      jitter.Valid() && jitter.g.nc == 1 && frameSize > 0 && PushesOk(pushed, samplesWritten)
    }

    /** The pose clock is the buffer's write head. */
    ghost predicate Aligned()
      reads this, jitter
    {
      samplesWritten == jitter.writePos
    }

    constructor (jitter: Buffer, frameSize: nat, raw: bool, initialPose: Pose)
      requires jitter.Valid() && jitter.g.nc == 1 && jitter.writePos == 0 && frameSize > 0
      ensures Valid() && Aligned() && this.jitter == jitter && this.frameSize == frameSize && pushed == []
      ensures this.raw == raw && this.initialPose == initialPose
    {
      this.jitter, this.frameSize, this.raw, this.initialPose := jitter, frameSize, raw, initialPose;
      samplesWritten, pushed := 0, [];
    }

    /** Samples go to the ring and onto the pose clock. The two advance together exactly when
        the packet fits the ring. */
    method IngestPCM(pcm: seq<real>)
      requires Valid()
      modifies this`samplesWritten, jitter`writePos, jitter`written, jitter.data
      ensures Valid() && samplesWritten == old(samplesWritten) + |pcm|
      ensures jitter.written == old(jitter.written) + Clipped(pcm, 1, jitter.g.capacity)
      ensures jitter.Control() == old(jitter.Control())
      ensures old(Aligned()) ==> (Aligned() <==> |pcm| <= jitter.g.capacity)
    {
      jitter.Write(pcm);
      samplesWritten := samplesWritten + |pcm|;
    }

    /** Pin a pose, if there is one, to the end of what has been written. */
    method PushPose(seqNo: int, pose: Option<Pose>)
      requires Valid()
      modifies this`pushed
      ensures Valid()
      ensures pushed == if pose.None? then old(pushed) else Push(old(pushed), Sample(seqNo, samplesWritten, pose.value))
    {
      if pose.Some? {
        PushKeeps(pushed, Sample(seqNo, samplesWritten, pose.value), samplesWritten);
        pushed := Push(pushed, Sample(seqNo, samplesWritten, pose.value));
      }
    }

    /** One packet: its audio, if any, decoded or concealed, then its pose, if any, pinned to the
        packet's end. */
    method WriteOpus(seqNo: int, pose: Option<Pose>, payload: Payload)
      requires Valid()
      modifies this`samplesWritten, this`pushed, jitter`writePos, jitter`written, jitter.data
      ensures Valid() && samplesWritten == old(samplesWritten) + |Samples(payload)|
      ensures payload.Absent? ==> jitter.written == old(jitter.written)
      ensures payload.Decoded? ==> jitter.written == old(jitter.written) + Clipped(payload.pcm, 1, jitter.g.capacity)
      ensures payload.Rejected? ==> jitter.written == old(jitter.written) + Clipped(payload.plc, 1, jitter.g.capacity)
      ensures pushed == if pose.None? then old(pushed) else Push(old(pushed), Sample(seqNo, samplesWritten, pose.value))
      ensures old(Aligned()) ==> (Aligned() <==> |Samples(payload)| <= jitter.g.capacity)
    {
      match payload {
        case Absent =>
        case Decoded(pcm) => IngestPCM(pcm);
        case Rejected(plc) => IngestPCM(plc);
      }
      PushPose(seqNo, pose);
    }

    /** The same for samples decoded elsewhere. */
    method WritePCM(seqNo: int, pose: Option<Pose>, pcm: seq<real>)
      requires Valid()
      modifies this`samplesWritten, this`pushed, jitter`writePos, jitter`written, jitter.data
      ensures Valid() && samplesWritten == old(samplesWritten) + |pcm|
      ensures jitter.written == old(jitter.written) + Clipped(pcm, 1, jitter.g.capacity)
      ensures pushed == if pose.None? then old(pushed) else Push(old(pushed), Sample(seqNo, samplesWritten, pose.value))
      ensures old(Aligned()) ==> (Aligned() <==> |pcm| <= jitter.g.capacity)
    {
      if |pcm| > 0 {
        IngestPCM(pcm);
      }
      PushPose(seqNo, pose);
    }

    /** A lost packet: silence a frame at a time on the raw path, the decoder's own concealment
        otherwise. Both clocks move together, and no pose is pushed. */
    method Conceal(samples: int, plc: seq<real>)
      requires Valid()
      modifies this`samplesWritten, jitter`writePos, jitter`written, jitter.data
      ensures Valid() && pushed == old(pushed)
      ensures samplesWritten == old(samplesWritten) + if raw then Max(0, samples) else |plc|
      ensures !raw ==> jitter.written == old(jitter.written) + Clipped(plc, 1, jitter.g.capacity)
      ensures raw ==> ThenSilence(old(jitter.written), jitter.written)
      ensures !raw && old(Aligned()) ==> (Aligned() <==> |plc| <= jitter.g.capacity)
      ensures raw && old(Aligned()) ==> (Aligned() <==> Min(samples, frameSize) <= jitter.g.capacity)
    {
      if !raw {
        IngestPCM(plc);
        return;
      }
      var left := samples;
      while left > 0
        invariant Valid() && pushed == old(pushed) && left <= Max(0, samples)
        invariant ThenSilence(old(jitter.written), jitter.written)
        invariant samplesWritten == old(samplesWritten) + Max(0, samples) - Max(0, left)
        invariant jitter.writePos <= old(jitter.writePos) + Max(0, samples) - Max(0, left)
        invariant old(Aligned()) ==> (Aligned() <==> left == samples || Min(samples, frameSize) <= jitter.g.capacity)
        invariant samplesWritten - jitter.writePos >= old(samplesWritten - jitter.writePos)
      {
        var n := Min(left, frameSize);
        ghost var before := jitter.written;
        IngestSilence(n);
        SilenceOnSilence(old(jitter.written), before, jitter.written);
        left := left - n;
      }
    }

    /** n silent samples: the write head gets as many of them as the ring holds. */
    method IngestSilence(n: nat)
      requires Valid()
      modifies this`samplesWritten, jitter`writePos, jitter`written, jitter.data
      ensures Valid() && samplesWritten == old(samplesWritten) + n
      ensures jitter.writePos == old(jitter.writePos) + Min(n, jitter.g.capacity)
      ensures ThenSilence(old(jitter.written), jitter.written)
    {
      jitter.Write(seq(n, _ => 0.0));
      samplesWritten := samplesWritten + n;
    }

    /** One frame on the audio thread: the buffer's read, and the pose of the stream position the
        buffer itself has reached. kept is how many pushes the concurrent scan returned. */
    method ReadFrame(dst: array<real>, kept: nat) returns (pose: Pose)
      requires Valid() && dst != jitter.data && kept <= Min(RING_SIZE, |pushed|)
      modifies jitter`readPos, jitter`started, jitter`tick, jitter`lastWp, jitter`gapRun, jitter`frozen, jitter`win,
               jitter`widths, jitter`drift, jitter`setpoint, jitter`meter, jitter`pendingTrim, jitter`stats, dst
      ensures Valid() && jitter.writePos == old(jitter.writePos) && old(jitter.readPos) <= jitter.readPos <= jitter.writePos
      ensures PoseRight(pushed, kept, jitter.readPos, initialPose, pose)
      ensures jitter.written == old(jitter.written)
      ensures var n := dst.Length / jitter.g.nc;
              var (c, o) := ReadStep(jitter.g, PolicyOf(jitter.g, jitter.ctrl), old(jitter.Control()), jitter.writePos, n);
              jitter.Control() == c && Delivers(jitter.written, jitter.g.nc, o, n, dst[..], old(dst[..]), !o.Silent())
    {
      hide PoseRight;
      hide Delivers;
      ReadAdvances(jitter, dst.Length / jitter.g.nc);
      var ok := jitter.Read(dst);
      HeardIs(jitter.written, jitter.g.nc,
              ReadStep(jitter.g, PolicyOf(jitter.g, jitter.ctrl), old(jitter.Control()), jitter.writePos, dst.Length / jitter.g.nc).1,
              dst.Length / jitter.g.nc, dst[..], old(dst[..]), ok);
      hide ReadStep;
      pose := FramePose(pushed, kept, jitter.readPos, initialPose);
    }
  }

  lemma HeardIs(st: seq<real>, nc: nat, o: Outcome, n: nat, dst: seq<real>, before: seq<real>, ok: bool)
    requires Delivers(st, nc, o, n, dst, before, ok)
    ensures ok == !o.Silent()
  {
  }

  /** The stream went on with nothing but silence. */
  ghost predicate ThenSilence(was: seq<real>, now: seq<real>) {
    was <= now && forall i :: |was| <= i < |now| ==> now[i] == 0.0
  }

  lemma SilenceOnSilence(a: seq<real>, b: seq<real>, c: seq<real>)
    requires ThenSilence(a, b) && ThenSilence(b, c)
    ensures ThenSilence(a, c)
  {
  }

  lemma ReadAdvances(b: Buffer, n: nat)
    requires b.Valid()
    ensures var r := ReadStep(b.g, PolicyOf(b.g, b.ctrl), b.Control(), b.writePos, n).0;
            b.readPos <= r.readPos <= b.writePos
  {
    hide ReadStep;
    hide Jump;
    ReadKeeps(b.g, PolicyOf(b.g, b.ctrl), b.Control(), b.writePos, n);
  }
}
