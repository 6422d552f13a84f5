/** Black-box decoding is exact: fed only the output of a jitter buffer that was written a
    ramp, the decoder recovers every splice, snap and silence the buffer made. */
module DecodeExact {
  import opened Layout
  import opened Order
  import opened JitterConfig
  import opened JitterControl
  import opened JitterRuns
  import opened JitterStream
  import opened RampCodec
  import opened Ledger

  // ---- What a ramp read sounds like ----------------------------------------------

  /** Step between adjacent ramp positions: one, or the drop at the wrap. */
  function RampStep(p: int): real {
    if (p + 1) % RAMP_WRAP == 0 then (RAMP_WRAP - 1) as real else 1.0
  }

  /** Discontinuity of a whole ramp frame pair. */
  function Weight(nc: nat, p: int): real {
    nc as real * RampStep(p)
  }

  lemma {:induction false} RampDiscontinuity(wp: nat, nc: nat, p: nat, channels: nat)
    requires nc > 0 && p + 1 < wp && channels <= nc
    ensures 0 <= Flat(p, nc) && Flat(p, nc) + nc == Flat(p + 1, nc) && Flat(p + 1, nc) + nc <= Flat(wp, nc)
    ensures Discontinuity(RampFrames(0, wp, nc), Flat(p, nc), Flat(p + 1, nc), channels)
            == channels as real * RampStep(p)
  {
    hide Flat;
    hide RampFrames;
    hide Ramp;
    hide RampStep;
    CutInside(p, wp, nc);
    CutInside(p + 1, wp, nc);
    if channels > 0 {
      RampDiscontinuity(wp, nc, p, channels - 1);
      RampFramesAt(0, wp, nc, p, channels - 1);
      RampFramesAt(0, wp, nc, p + 1, channels - 1);
      AdjacentRamp(p);
      hide Abs;
      OneMoreChannel(channels, RampStep(p));
    } else {
      NoChannel(RampStep(p));
    }
  }

  lemma NoChannel(x: real)
    ensures (0 as real) * x == 0.0
  {
  }

  lemma OneMoreChannel(k: nat, x: real)
    requires k > 0
    ensures (k - 1) as real * x + x == k as real * x
  {
  }

  lemma AdjacentRamp(p: nat)
    ensures Abs(Ramp(p) - Ramp(p + 1)) == RampStep(p)
  {
    if p % RAMP_WRAP == RAMP_WRAP - 1 {
      assert (p + 1) % RAMP_WRAP == 0;
    } else {
      assert (p + 1) % RAMP_WRAP == p % RAMP_WRAP + 1;
    }
  }

  /** Among ramp pairs from position at, the last least one is the last that does not straddle
      the wrap: the final pair, or the one before it if there is one. */
  function RampCut(at: nat, m: nat): nat
    requires m >= 1
  {
    if m >= 2 && (at + m) % RAMP_WRAP == 0 then m - 2 else m - 1
  }

  lemma GapsOnRamp(wp: nat, nc: nat, at: nat, m: nat, i: nat)
    requires nc > 0 && i < m && at + m < wp
    ensures 0 <= Flat(at, nc) && 0 <= Flat(m, nc) && Flat(at, nc) + Flat(m, nc) + nc <= Flat(wp, nc)
    ensures Gaps(RampFrames(0, wp, nc), nc, Flat(at, nc), m)[i] == Weight(nc, at + i)
  {
    hide Flat;
    hide Gaps;
    hide Discontinuity;
    hide RampFrames;
    hide RampStep;
    FlatNat(at, nc);
    FlatNat(m, nc);
    FlatSum(at, m, nc);
    CutInside(at + m, wp, nc);
    GapsAt(RampFrames(0, wp, nc), nc, Flat(at, nc), m, i);
    FlatSum(at, i, nc);
    FlatSum(at, i + 1, nc);
    RampDiscontinuity(wp, nc, at + i, nc);
  }

  lemma CutOnRamp(wp: nat, nc: nat, at: nat, m: nat)
    requires nc > 0 && m >= 1 && at + m < wp
    ensures 0 <= Flat(at, nc) && 0 <= Flat(m, nc) && Flat(at, nc) + Flat(m, nc) + nc <= Flat(wp, nc)
    ensures LastArgMin(Gaps(RampFrames(0, wp, nc), nc, Flat(at, nc), m)) == RampCut(at, m)
  {
    hide Flat;
    hide Gaps;
    hide RampFrames;
    hide Weight;
    hide LastArgMin;
    GapsOnRamp(wp, nc, at, m, m - 1);
    if m == 1 {
      return;
    }
    GapsOnRamp(wp, nc, at, m, m - 2);
    var gaps := Gaps(RampFrames(0, wp, nc), nc, Flat(at, nc), m);
    var k := LastArgMin(gaps);
    GapsOnRamp(wp, nc, at, m, k);
    assert k < m - 1 ==> gaps[k] < gaps[m - 1];
    assert k < m - 2 ==> gaps[k] < gaps[m - 2];
    assert gaps[k] <= gaps[m - 2];
    WeightOrder(nc, at + k, at + m - 1);
    WeightOrder(nc, at + k, at + m - 2);
    WeightOrder(nc, at + m - 2, at + m - 1);
    WrapOnce(at + m);
  }

  lemma WrapOnce(q: nat)
    requires q >= 2
    ensures q % RAMP_WRAP == 0 ==> (q - 1) % RAMP_WRAP != 0
  {
  }

  lemma WeightOrder(nc: nat, p: int, q: int)
    requires nc > 0
    ensures Weight(nc, p) < Weight(nc, q) <==> (p + 1) % RAMP_WRAP != 0 && (q + 1) % RAMP_WRAP == 0
  {
    var x, y := RampStep(p), RampStep(q);
    if x < y {
      PositiveProduct(nc as real, y - x);
    } else {
      NonNegativeProduct(nc as real, x - y);
    }
  }

  /** Channel 0 of a ramp run. */
  function Run(at: int, n: nat): (s: seq<real>)
    ensures |s| == n
  {
    seq(n, f => Ramp(at + f))
  }

  /** Lengths an outcome can have: at least one frame, two for an insertion. */
  predicate Playable(o: Outcome, n: nat) {
    n >= 1 && (o.Insertion? ==> n >= 2)
  }

  /** Channel 0 of what a producing read plays when the stream is a ramp. */
  function Heard(o: Outcome, n: nat): seq<real>
    requires o.Produces() && o.at >= 0 && Playable(o, n)
  {
    if o.Drop? then
      var cut := RampCut(o.at, n);
      Run(o.at, cut) + [MarkerValue(o.at + cut)] + Run(o.at + cut + 2, n - cut - 1)
    else if o.Insertion? then
      var cut := RampCut(o.at, n - 1) + 1;
      Run(o.at, cut) + [MarkerValue(o.at + cut - 1)] + Run(o.at + cut, n - cut - 1)
    else Run(o.at, n)
  }

  lemma BlockLength(n: nat, nc: nat)
    requires nc > 0
    ensures Flat(n, nc) / nc == n
  {
    DivModUnique(nc, n, 0, Flat(n, nc) / nc, Flat(n, nc) % nc);
  }

  lemma MergedAt(st: seq<real>, nc: nat, a: nat, len: nat, c: nat, k: nat)
    requires nc > 0 && a + len + nc <= |st| && c + nc <= len && k + nc <= len
    ensures k + nc <= c ==> Merged(st, nc, a, len, c)[k] == st[a + k]
    ensures k == c ==> Merged(st, nc, a, len, c)[k] == (st[a + k] + st[a + k + nc]) * 0.5
    ensures k >= c + nc ==> Merged(st, nc, a, len, c)[k] == st[a + k + nc]
  {
  }

  lemma PaddedAt(st: seq<real>, nc: nat, a: nat, len: nat, c: nat, k: nat)
    requires nc > 0 && a + len <= |st| && nc <= c && c + nc <= len && k + nc <= len
    ensures k + nc <= c ==> Padded(st, nc, a, len, c)[k] == st[a + k]
    ensures k == c ==> Padded(st, nc, a, len, c)[k] == (st[a + k - nc] + st[a + k]) * 0.5
    ensures k >= c + nc ==> Padded(st, nc, a, len, c)[k] == st[a + k - nc]
  {
  }

  lemma HeardDropAt(at: nat, n: nat, f: nat)
    requires f < n
    ensures |Heard(Drop(at), n)| == n
    ensures var cut := RampCut(at, n);
            Heard(Drop(at), n)[f] == if f < cut then Ramp(at + f)
                                     else if f == cut then MarkerValue(at + cut)
                                     else Ramp(at + f + 1)
  {
    hide Ramp;
    hide MarkerValue;
  }

  lemma HeardInsertAt(at: nat, n: nat, f: nat)
    requires n >= 2 && f < n
    ensures |Heard(Insertion(at), n)| == n
    ensures var cut := RampCut(at, n - 1) + 1;
            Heard(Insertion(at), n)[f] == if f < cut then Ramp(at + f)
                                          else if f == cut then MarkerValue(at + cut - 1)
                                          else Ramp(at + f - 1)
  {
    hide Ramp;
    hide MarkerValue;
  }

  lemma DropHeard(wp: nat, nc: nat, at: nat, n: nat)
    requires nc > 0 && n >= 1 && at + n < wp
    ensures 0 <= Flat(at, nc) && Flat(at, nc) + Flat(n, nc) + nc <= Flat(wp, nc)
    ensures Channel0(DropBlock(RampFrames(0, wp, nc), nc, Flat(at, nc), n), nc) == Heard(Drop(at), n)
  {
    hide Flat;
    hide Gaps;
    hide LastArgMin;
    hide Merged;
    hide Heard;
    hide RampFrames;
    hide Ramp;
    hide RampCut;
    CutOnRamp(wp, nc, at, n);
    var st, cut := RampFrames(0, wp, nc), RampCut(at, n);
    var block := DropBlock(st, nc, Flat(at, nc), n);
    BlockLength(n, nc);
    CutInside(cut, n, nc);
    HeardDropAt(at, n, 0);
    var x, y := Channel0(block, nc), Heard(Drop(at), n);
    forall f | 0 <= f < n
      ensures x[f] == y[f]
    {
      HeardDropAt(at, n, f);
      SpliceSample(wp, nc, at, n, cut, f);
      MergedAt(st, nc, Flat(at, nc), Flat(n, nc), Flat(cut, nc), Flat(f, nc));
      RampFramesAt(0, wp, nc, at + f, 0);
      RampFramesAt(0, wp, nc, at + f + 1, 0);
    }
  }

  lemma SpliceSample(wp: nat, nc: nat, at: nat, n: nat, cut: nat, f: nat)
    requires nc > 0 && f < n
    ensures 0 <= Flat(f, nc) && Flat(f, nc) + nc <= Flat(n, nc)
    ensures f < cut ==> Flat(f, nc) + nc <= Flat(cut, nc)
    ensures f > cut ==> Flat(cut, nc) + nc <= Flat(f, nc)
    ensures Flat(at + f, nc) == Flat(at, nc) + Flat(f, nc)
    ensures Flat(at + f + 1, nc) == Flat(at, nc) + Flat(f, nc) + nc
    ensures Flat(at + f - 1, nc) == Flat(at, nc) + Flat(f, nc) - nc
  {
    CutInside(f, n, nc);
    FlatSum(at, f, nc);
    FlatNext(at + f, nc);
    FlatNext(at + f - 1, nc);
    hide Flat;
    if f < cut {
      CutInside(f, cut, nc);
    } else if f > cut {
      CutInside(cut, f, nc);
    }
  }

  lemma InsertHeard(wp: nat, nc: nat, at: nat, n: nat)
    requires nc > 0 && n >= 2 && at + n <= wp
    ensures 0 <= Flat(at, nc) && Flat(at, nc) + Flat(n, nc) <= Flat(wp, nc)
    ensures Channel0(InsertBlock(RampFrames(0, wp, nc), nc, Flat(at, nc), n), nc) == Heard(Insertion(at), n)
  {
    hide Flat;
    hide Gaps;
    hide LastArgMin;
    hide Padded;
    hide Heard;
    hide RampFrames;
    hide Ramp;
    hide RampCut;
    FlatNext(n - 1, nc);
    CutOnRamp(wp, nc, at, n - 1);
    var st, cut := RampFrames(0, wp, nc), RampCut(at, n - 1) + 1;
    var block := InsertBlock(st, nc, Flat(at, nc), n);
    BlockLength(n, nc);
    CutInside(cut, n, nc);
    CutInside(cut - 1, cut, nc);
    HeardInsertAt(at, n, 0);
    var x, y := Channel0(block, nc), Heard(Insertion(at), n);
    forall f | 0 <= f < n
      ensures x[f] == y[f]
    {
      HeardInsertAt(at, n, f);
      SpliceSample(wp, nc, at, n, cut, f);
      PaddedAt(st, nc, Flat(at, nc), Flat(n, nc), Flat(cut, nc), Flat(f, nc));
      RampFramesAt(0, wp, nc, at + f, 0);
      if f >= 1 {
        RampFramesAt(0, wp, nc, at + f - 1, 0);
      }
    }
  }

  lemma PlainHeard(wp: nat, nc: nat, at: nat, n: nat)
    requires nc > 0 && at + n <= wp
    ensures 0 <= Flat(at, nc) && 0 <= Flat(n, nc) && Flat(at, nc) + Flat(n, nc) <= Flat(wp, nc)
    ensures Channel0(RampFrames(0, wp, nc)[Flat(at, nc)..Flat(at, nc) + Flat(n, nc)], nc) == Run(at, n)
  {
    hide Flat;
    FlatNat(at, nc);
    FlatNat(n, nc);
    FlatSum(at, n, nc);
    FlatOrder(at + n, wp, nc);
    BlockLength(n, nc);
    var block := RampFrames(0, wp, nc)[Flat(at, nc)..Flat(at, nc) + Flat(n, nc)];
    var x, y := Channel0(block, nc), Run(at, n);
    forall f | 0 <= f < n
      ensures x[f] == y[f]
    {
      SpliceSample(wp, nc, at, n, 0, f);
      RampFramesAt(0, wp, nc, at + f, 0);
      hide RampFrames;
      hide Ramp;
    }
  }

  /** Channel 0 of any producing read of a ramp, in closed form. */
  lemma BlockHeard(wp: nat, nc: nat, o: Outcome, n: nat)
    requires nc > 0 && Playable(o, n) && o.Produces() && o.at >= 0 && o.at + Needs(o, n) <= wp
    ensures 0 <= Flat(o.at, nc) && Flat(o.at, nc) + Flat(n, nc) + (if o.Drop? then nc else 0) <= Flat(wp, nc)
    ensures Channel0(Block(RampFrames(0, wp, nc), nc, o, n), nc) == Heard(o, n)
  {
    hide Flat;
    hide Heard;
    hide DropBlock;
    hide InsertBlock;
    hide Channel0;
    hide RampFrames;
    if o.Drop? {
      DropHeard(wp, nc, o.at, n);
    } else if o.Insertion? {
      InsertHeard(wp, nc, o.at, n);
    } else {
      PlainHeard(wp, nc, o.at, n);
      assert Heard(o, n) == Run(o.at, n) by { HeardPlain(o, n); }
    }
  }

  lemma HeardPlain(o: Outcome, n: nat)
    requires o.Plain? && o.at >= 0 && n >= 1
    ensures Heard(o, n) == Run(o.at, n)
  {
  }

  // ---- What the decoder makes of it ------------------------------------------------

  /** A decoder that has just heard position base + lastPos, with whole wraps in base. */
  predicate Hears(d: Dec, next: int, base: int) {
    && d.lastPos >= 0 && base >= 0 && base % RAMP_WRAP == 0
    && base + d.lastPos + 1 == next
  }

  lemma PlainContinues(d: Dec, time: int, at: int, base: int)
    requires Hears(d, at, base) && !d.silenceOpen
    ensures FeedSample(d, time, Ramp(at)) == d.(lastPos := d.lastPos + 1)
  {
    PlainRoundTrip(at);
    RampPeriodic(at - base, base);
    UnwrapExact(d.lastPos, at - base);
    hide Classify;
    hide UnwrapPos;
    hide Ramp;
  }

  /** Contiguous positions are followed without an artifact. */
  lemma {:induction false} RunContinues(d: Dec, time: int, at: int, n: nat, base: int)
    requires Hears(d, at, base) && !d.silenceOpen
    ensures Feed(d, time, Run(at, n)) == d.(lastPos := d.lastPos + n)
  {
    if n > 0 {
      RunContinues(d, time, at, n - 1, base);
      assert Run(at, n)[..n - 1] == Run(at, n - 1);
      PlainContinues(d.(lastPos := d.lastPos + (n - 1)), time, at + n - 1, base);
      hide FeedSample;
      hide Ramp;
    }
  }

  /** The first plain sample of a block: baseline, continuation or snap. */
  function Resume(d: Dec, time: int, at: int, base: int): Dec {
    if d.lastPos < 0 || at - base == d.lastPos + 1 then CloseSilence(d).(lastPos := at - base)
    else
      var c := CloseSilence(d);
      c.(lastPos := at - base, snaps := c.snaps + 1,
         artifacts := c.artifacts + [Artifact(SnapArtifact, time, at - base, at - base - (d.lastPos + 1))])
  }

  lemma FirstResumes(d: Dec, time: int, at: int, base: int)
    requires Within(d, at, base)
    ensures FeedSample(d, time, Ramp(at)) == Resume(d, time, at, base)
  {
    PlainRoundTrip(at);
    RampPeriodic(at - base, base);
    if d.lastPos >= 0 {
      UnwrapExact(d.lastPos, at - base);
    }
    hide Classify;
    hide UnwrapPos;
    hide Ramp;
  }

  lemma DropMarker(d: Dec, time: int, at: int, base: int)
    requires Hears(d, at, base) && !d.silenceOpen
    ensures FeedSample(d, time, MarkerValue(at))
            == d.(drops := d.drops + 1, lastPos := d.lastPos + 2,
                  artifacts := d.artifacts + [Artifact(DropArtifact, time, d.lastPos + 2, 0)])
  {
    MarkerRecognised(at);
    MarkerRecognised(d.lastPos);
    RampPeriodic(at - base, base);
    hide Classify;
    hide MarkerValue;
  }

  lemma InsertMarker(d: Dec, time: int, at: int, base: int)
    requires Hears(d, at, base) && !d.silenceOpen
    ensures FeedSample(d, time, MarkerValue(at - 1))
            == d.(inserts := d.inserts + 1,
                  artifacts := d.artifacts + [Artifact(InsertArtifact, time, d.lastPos + 1, 0)])
  {
    MarkerRecognised(at - 1);
    RampPeriodic(at - 1 - base, base);
    hide Classify;
    hide MarkerValue;
  }

  /** What one producing read must do to the decoder: resume at its position, then at most one
      splice artifact at its cut, and end on the last frame it consumed. */
  function Expected(d: Dec, time: int, o: Outcome, n: nat, base: int): Dec
    requires o.Produces() && o.at >= 0 && Playable(o, n)
  {
    var r := Resume(d, time, o.at, base);
    var last := o.at - base + Consumed(o, n) - 1;
    if o.Drop? then
      r.(lastPos := last, drops := r.drops + 1,
         artifacts := r.artifacts + [Artifact(DropArtifact, time, o.at - base + RampCut(o.at, n) + 1, 0)])
    else if o.Insertion? then
      r.(lastPos := last, inserts := r.inserts + 1,
         artifacts := r.artifacts + [Artifact(InsertArtifact, time, o.at - base + RampCut(o.at, n - 1) + 1, 0)])
    else r.(lastPos := last)
  }

  lemma RunResumes(d: Dec, time: int, at: int, n: nat, base: int)
    requires n > 0 && Within(d, at, base)
    ensures Feed(d, time, Run(at, n)) == Resume(d, time, at, base).(lastPos := at - base + n - 1)
    ensures Hears(Feed(d, time, Run(at, n)), at + n, base) && !Feed(d, time, Run(at, n)).silenceOpen
  {
    assert Run(at, n) == [Ramp(at)] + Run(at + 1, n - 1);
    FeedConcat(d, time, [Ramp(at)], Run(at + 1, n - 1));
    assert [Ramp(at)][..0] == [];
    assert Feed(d, time, [Ramp(at)]) == FeedSample(d, time, Ramp(at));
    FirstResumes(d, time, at, base);
    var r := Resume(d, time, at, base);
    RunContinues(r, time, at + 1, n - 1, base);
    hide FeedSample;
    hide Ramp;
    hide Feed;
  }

  lemma SpliceFeeds(d: Dec, time: int, a: seq<real>, v: real, b: seq<real>)
    ensures Feed(d, time, a + [v] + b) == Feed(FeedSample(Feed(d, time, a), time, v), time, b)
  {
    FeedConcat(d, time, a + [v], b);
    assert (a + [v])[..|a|] == a;
  }

  /** Where a producing read may find the decoder: nothing heard yet, or at most half a wrap
      behind. */
  predicate Within(d: Dec, at: int, base: int) {
    && at >= base >= 0 && base % RAMP_WRAP == 0
    && (d.lastPos < 0 ==> at - base == at % RAMP_WRAP)
    && (d.lastPos >= 0 ==> 0 <= at - base - (d.lastPos + 1) <= RAMP_WRAP / 2)
  }

  /** A drop whose marker comes first, heard away from where playing had stopped: nothing tells
      the decoder where the marker belongs. */
  predicate Unplaceable(d: Dec, o: Outcome, n: nat, base: int)
    requires o.Produces() && o.at >= 0 && n >= 1
  {
    o.Drop? && RampCut(o.at, n) == 0 && (d.lastPos < 0 || o.at - base != d.lastPos + 1)
  }

  lemma DropMarkerFirst(d: Dec, time: int, at: int, base: int)
    requires Hears(d, at, base)
    ensures FeedSample(d, time, MarkerValue(at))
            == Resume(d, time, at, base).(
                 drops := d.drops + 1, lastPos := d.lastPos + 2,
                 artifacts := Resume(d, time, at, base).artifacts + [Artifact(DropArtifact, time, d.lastPos + 2, 0)])
  {
    MarkerRecognised(at);
    MarkerRecognised(d.lastPos);
    RampPeriodic(at - base, base);
    hide Classify;
    hide MarkerValue;
  }

  lemma FeedOne(d: Dec, time: int, v: real, b: seq<real>)
    ensures Feed(d, time, [v] + b) == Feed(FeedSample(d, time, v), time, b)
  {
    SpliceFeeds(d, time, [], v, b);
    assert [] + [v] + b == [v] + b;
  }

  lemma DropExactly(d: Dec, time: int, at: int, n: nat, base: int)
    requires Within(d, at, base) && n >= 1 && !Unplaceable(d, Drop(at), n, base)
    ensures Feed(d, time, Heard(Drop(at), n)) == Expected(d, time, Drop(at), n, base)
  {
    hide Feed;
    hide FeedSample;
    hide Resume;
    hide MarkerValue;
    var cut := RampCut(at, n);
    SpliceFeeds(d, time, Run(at, cut), MarkerValue(at + cut), Run(at + cut + 2, n - cut - 1));
    if cut == 0 {
      FedNothing(d, time);
      assert Run(at, 0) == [];
      hide Run;
      DropMarkerFirst(d, time, at, base);
      ResumeSilence(d, time, at, base);
      hide SilenceHeard;
      RunContinues(FeedSample(d, time, MarkerValue(at)), time, at + 2, n - 1, base);
    } else {
      hide Run;
      RunResumes(d, time, at, cut, base);
      var d1 := Feed(d, time, Run(at, cut));
      DropMarker(d1, time, at + cut, base);
      RunContinues(FeedSample(d1, time, MarkerValue(at + cut)), time, at + cut + 2, n - cut - 1, base);
    }
  }

  lemma FedNothing(d: Dec, time: int)
    ensures Feed(d, time, []) == d
  {
  }

  lemma InsertExactly(d: Dec, time: int, at: int, n: nat, base: int)
    requires Within(d, at, base) && n >= 2
    ensures Feed(d, time, Heard(Insertion(at), n)) == Expected(d, time, Insertion(at), n, base)
  {
    hide Feed;
    hide FeedSample;
    hide Resume;
    hide Run;
    hide MarkerValue;
    var cut := RampCut(at, n - 1) + 1;
    SpliceFeeds(d, time, Run(at, cut), MarkerValue(at + cut - 1), Run(at + cut, n - cut - 1));
    RunResumes(d, time, at, cut, base);
    var d1 := Feed(d, time, Run(at, cut));
    InsertMarker(d1, time, at + cut, base);
    RunContinues(FeedSample(d1, time, MarkerValue(at + cut - 1)), time, at + cut, n - cut - 1, base);
  }

  /** The decoder's reaction to a producing read of any length is exactly the expected one, unless
      it cannot place the read's marker. */
  lemma HeardExactly(d: Dec, time: int, o: Outcome, n: nat, base: int)
    requires o.Produces() && Playable(o, n) && Within(d, o.at, base) && !Unplaceable(d, o, n, base)
    ensures Feed(d, time, Heard(o, n)) == Expected(d, time, o, n, base)
  {
    if o.Drop? {
      DropExactly(d, time, o.at, n, base);
    } else if o.Insertion? {
      InsertExactly(d, time, o.at, n, base);
    } else {
      RunResumes(d, time, o.at, n, base);
    }
    hide Feed;
    hide Resume;
  }

  lemma PlacedAt(d: Dec, at: int, base: int)
    requires Within(d, at, base)
    ensures Classify(Ramp(at)) == PlainAt(at % RAMP_WRAP) && PlainPos(d, at % RAMP_WRAP) == at - base >= 0
  {
    PlainRoundTrip(at);
    RampPeriodic(at - base, base);
    PlainRoundTrip(at - base);
    if d.lastPos >= 0 {
      UnwrapExact(d.lastPos, at - base);
    }
    hide Classify;
    hide UnwrapPos;
    hide Ramp;
  }

  lemma RunPlaced(d: Dec, time: int, at: int, n: nat, base: int, rest: seq<real>)
    requires Within(d, at, base) && n > 0
    ensures FirstPlain(d, time, Run(at, n) + rest) == at - base
  {
    PlacedAt(d, at, base);
    assert Run(at, n) + rest == [Ramp(at)] + (Run(at + 1, n - 1) + rest);
    hide Ramp;
    PlainFirst(d, time, Ramp(at), Run(at + 1, n - 1) + rest);
  }

  /** The position the decoder reports for a producing read, from which latency is measured, is the
      true one of the read's first unspliced frame: where the read began, or two frames on after a
      drop whose marker comes first. */
  lemma ReportedPosition(d: Dec, time: int, o: Outcome, n: nat, base: int)
    requires o.Produces() && Playable(o, n) && Within(d, o.at, base) && !Unplaceable(d, o, n, base)
    ensures FirstPlain(d, time, Heard(o, n)) ==
            if o.Drop? && RampCut(o.at, n) == 0 then if n == 1 then -1 else o.at + 2 - base else o.at - base
  {
    hide FirstPlain;
    hide MarkerValue;
    var at := o.at;
    if o.Drop? && RampCut(at, n) == 0 {
      var v := MarkerValue(at);
      assert Heard(o, n) == [v] + Run(at + 2, n - 1);
      MarkerRecognised(at);
      OtherFirst(d, time, v, Run(at + 2, n - 1));
      DropMarkerFirst(d, time, at, base);
      NoSampleNoPosition(FeedSample(d, time, v), time);
      hide FeedSample;
      hide Heard;
      if n > 1 {
        RunPlaced(FeedSample(d, time, v), time, at + 2, n - 1, base, []);
        assert Run(at + 2, n - 1) + [] == Run(at + 2, n - 1);
      }
    } else {
      PlainStart(o, n);
      var k, rest :| k > 0 && Heard(o, n) == Run(at, k) + rest;
      RunPlaced(d, time, at, k, base, rest);
    }
  }

  lemma NoSampleNoPosition(d: Dec, time: int)
    ensures FirstPlain(d, time, []) == -1
  {
  }

  lemma PlainStart(o: Outcome, n: nat)
    requires o.Produces() && Playable(o, n) && o.at >= 0 && !(o.Drop? && RampCut(o.at, n) == 0)
    ensures exists k: nat, rest: seq<real> :: k > 0 && Heard(o, n) == Run(o.at, k) + rest
  {
    var at := o.at;
    hide MarkerValue;
    hide Run;
    if o.Drop? {
      var cut := RampCut(at, n);
      assert Heard(o, n) == Run(at, cut) + ([MarkerValue(at + cut)] + Run(at + cut + 2, n - cut - 1));
    } else if o.Insertion? {
      var cut := RampCut(at, n - 1) + 1;
      assert Heard(o, n) == Run(at, cut) + ([MarkerValue(at + cut - 1)] + Run(at + cut, n - cut - 1));
    } else {
      assert Heard(o, n) == Run(at, n) + [];
    }
  }

  /** n silent frames: join latency before the first audio, an underrun run after it. */
  function ExpectedSilence(d: Dec, time: int, n: nat): Dec {
    if n == 0 then d
    else if d.lastPos < 0 then d.(joinSilenceFrames := d.joinSilenceFrames + n)
    else if d.silenceOpen then d.(silenceFrames := d.silenceFrames + n)
    else d.(silenceOpen := true, silenceTime := time, silenceFrames := n)
  }

  lemma {:induction false} SilenceExactly(d: Dec, time: int, n: nat)
    ensures Feed(d, time, Zeros(n)) == ExpectedSilence(d, time, n)
  {
    if n > 0 {
      SilenceExactly(d, time, n - 1);
      assert Zeros(n)[..n - 1] == Zeros(n - 1);
    }
  }

  // ---- Whole runs of the rig ---------------------------------------------------------

  /** A buffer written a ramp, the decoder listening to it, and the ledger of what really
      happened: the position after the last frame played (-1 before any audio), the wraps
      before the first one, the reads that resumed somewhere else than where playing had
      stopped, the frames of silence before and after the first audio, and the jumps made up to
      the last frame played. */
  datatype Rig = Rig(
    s: State, d: Dec, heard: int, base: int, moved: int, joinFrames: int, silentFrames: int, jumpedAt: int)

  function FreshRig(g: Geometry): Rig {
    Rig(Start(g), FRESH, -1, 0, 0, 0, 0, 0)
  }

  lemma OutcomeShape(g: Geometry, policy: Policy, c: Ctl, wp: int, n: nat)
    requires Shaped(c) && g.sr > 0
    ensures var o := ReadStep(g, policy, c, wp, n).1;
            (o.Idle? <==> n == 0) && (o.Produces() ==> n > 0) && (o.Insertion? ==> n >= 2)
  {
    hide Place;
    hide Sense;
    hide Accrue;
    hide Shaped;
  }

  lemma WantsWritten(g: Geometry, policy: Policy, c: Ctl, wp: int, n: nat)
    requires Sound(g) && Snug(g) && Ok(g, c, wp)
    ensures var o := ReadStep(g, policy, c, wp, n).1;
            && (o.Idle? <==> n == 0)
            && (o.Produces() ==> n > 0 && o.at >= 0 && (o.Insertion? ==> n >= 2) && o.at + Needs(o, n) <= wp)
  {
    hide ReadStep;
    hide Jump;
    OutcomeShape(g, policy, c, wp, n);
    ReadKeeps(g, policy, c, wp, n);
  }

  lemma BlockFits(wp: nat, nc: nat, o: Outcome, n: nat)
    requires nc > 0 && o.Produces() && o.at >= 0 && o.at + Needs(o, n) <= wp
    ensures 0 <= Flat(o.at, nc) && Flat(o.at, nc) + Flat(n, nc) + (if o.Drop? then nc else 0) <= Flat(wp, nc)
  {
    hide Flat;
    FlatNat(o.at, nc);
    FlatSum(o.at, Needs(o, n), nc);
    FlatOrder(o.at + Needs(o, n), wp, nc);
    FlatNext(n, nc);
  }

  /** Channel 0 of one read's output, and nothing else of the buffer. */
  function Output(g: Geometry, policy: Policy, c: Ctl, wp: nat, n: nat): seq<real>
    requires Sound(g) && Snug(g) && Ok(g, c, wp)
  {
    WantsWritten(g, policy, c, wp, n);
    var o := ReadStep(g, policy, c, wp, n).1;
    if o.Produces() then
      BlockFits(wp, g.nc, o, n);
      Channel0(Block(RampFrames(0, wp, g.nc), g.nc, o, n), g.nc)
    else if o.Silent() then Zeros(n)
    else []
  }

  function RigStep(g: Geometry, r: Rig, e: Event, time: int): (r': Rig)
    requires Inv(g, r.s)
    ensures Inv(g, r'.s) && r'.s == Step(g, r.s, e)
  {
    match e
    case Write(_) => r.(s := Step(g, r.s, e))
    case Read(n, policy) =>
      var (c, o) := ReadStep(g, policy, r.s.ctl, r.s.wp, n);
      var d := Feed(r.d, time, Output(g, policy, r.s.ctl, r.s.wp, n));
      var s := Step(g, r.s, e);
      if o.Produces() then
        r.(s := s, d := d, heard := s.ctl.readPos, jumpedAt := s.jumped,
           base := if r.heard < 0 then o.at - o.at % RAMP_WRAP else r.base,
           moved := r.moved + if r.heard >= 0 && o.at != r.heard then 1 else 0)
      else if o.Silent() then
        r.(s := s, d := d,
           joinFrames := r.joinFrames + if r.heard < 0 then n else 0,
           silentFrames := r.silentFrames + if r.heard < 0 then 0 else n)
      else r.(s := s, d := d)
  }

  /** The rig after a run; the i-th event happens at time i. */
  function RigExec(g: Geometry, evs: seq<Event>): (r: Rig)
    requires Inv(g, Start(g))
    ensures Inv(g, r.s) && r.s == Exec(g, Start(g), evs)
  {
    if evs == [] then FreshRig(g)
    else RigStep(g, RigExec(g, evs[..|evs| - 1]), evs[|evs| - 1], |evs| - 1)
  }

  /** Frames of silence the decoder has attributed to underruns so far. */
  function SilenceIn(artifacts: seq<Artifact>): int {
    if artifacts == [] then 0
    else
      var a := artifacts[|artifacts| - 1];
      SilenceIn(artifacts[..|artifacts| - 1]) + if a.kind.SilenceArtifact? then a.delta else 0
  }

  function SilenceHeard(d: Dec): int {
    SilenceIn(d.artifacts) + if d.silenceOpen then d.silenceFrames else 0
  }

  lemma SilenceSnoc(artifacts: seq<Artifact>, a: Artifact)
    ensures SilenceIn(artifacts + [a]) == SilenceIn(artifacts) + if a.kind.SilenceArtifact? then a.delta else 0
  {
    assert (artifacts + [a])[..|artifacts|] == artifacts;
  }

  /** The decoder's ledger is the true one. */
  predicate Exact(r: Rig) {
    && r.d.drops == r.s.ctl.stats.dropped
    && r.d.inserts == r.s.ctl.stats.inserted
    && r.d.snaps == r.moved
    && r.d.aliens == 0
    && r.d.joinSilenceFrames == r.joinFrames
    && SilenceHeard(r.d) == r.silentFrames
    && (if r.heard < 0 then r.d.lastPos < 0 && !r.d.silenceOpen
        else Hears(r.d, r.heard, r.base) && 0 < r.heard <= r.s.ctl.readPos)
  }

  /** Whenever a read happens the writer is at most half a ramp wrap ahead of what was last
      played. */
  predicate InRange(r: Rig, e: Event) {
    e.Read? && e.n > 0 && r.heard >= 0 ==> r.s.wp - r.heard <= RAMP_WRAP / 2
  }

  ghost predicate AllInRange(g: Geometry, evs: seq<Event>)
    requires Inv(g, Start(g))
  {
    forall i :: 0 <= i < |evs| ==> InRange(RigExec(g, evs[..i]), evs[i])
  }

  /** A read that plays a drop with its marker first, away from where playing had stopped. */
  predicate Blind(g: Geometry, r: Rig, e: Event)
    requires Inv(g, r.s)
  {
    e.Read? &&
    var o := ReadStep(g, e.policy, r.s.ctl, r.s.wp, e.n).1;
    o.Drop? && o.at >= 0 && e.n >= 1 && RampCut(o.at, e.n) == 0 && (r.heard < 0 || o.at != r.heard)
  }

  lemma ResumeSilence(d: Dec, time: int, at: int, base: int)
    ensures SilenceHeard(Resume(d, time, at, base)) == SilenceHeard(d)
    ensures !Resume(d, time, at, base).silenceOpen && Resume(d, time, at, base).drops == d.drops
  {
    hide SilenceIn;
    SilenceSnoc(d.artifacts, Artifact(SilenceArtifact, d.silenceTime, d.lastPos, d.silenceFrames));
    SilenceSnoc(CloseSilence(d).artifacts, Artifact(SnapArtifact, time, at - base, at - base - (d.lastPos + 1)));
  }

  lemma ExpectedKeepsSilence(d: Dec, time: int, o: Outcome, n: nat, base: int)
    requires o.Produces() && o.at >= 0 && Playable(o, n)
    ensures SilenceHeard(Expected(d, time, o, n, base)) == SilenceHeard(d)
    ensures !Expected(d, time, o, n, base).silenceOpen
  {
    hide SilenceIn;
    hide Resume;
    ResumeSilence(d, time, o.at, base);
    var r := Resume(d, time, o.at, base);
    if o.Drop? {
      SilenceSnoc(r.artifacts, Artifact(DropArtifact, time, o.at - base + RampCut(o.at, n) + 1, 0));
    } else if o.Insertion? {
      SilenceSnoc(r.artifacts, Artifact(InsertArtifact, time, o.at - base + RampCut(o.at, n - 1) + 1, 0));
    }
  }

  /** The decoder is where the rig's ledger says it may be when the next block comes. */
  lemma RigWithin(g: Geometry, r: Rig, n: nat, policy: Policy)
    requires Inv(g, r.s) && Exact(r) && n > 0 && InRange(r, Read(n, policy))
    requires ReadStep(g, policy, r.s.ctl, r.s.wp, n).1.Produces()
    ensures var o := ReadStep(g, policy, r.s.ctl, r.s.wp, n).1;
            var base := if r.heard < 0 then o.at - o.at % RAMP_WRAP else r.base;
            && Playable(o, n) && 0 <= o.at && o.at + Needs(o, n) <= r.s.wp && Within(r.d, o.at, base)
            && (Blind(g, r, Read(n, policy)) <==> Unplaceable(r.d, o, n, base))
            && Output(g, policy, r.s.ctl, r.s.wp, n) == Heard(o, n)
  {
    hide ReadStep;
    hide Jump;
    hide Channel0;
    hide Block;
    hide RampFrames;
    hide Heard;
    hide RampCut;
    ReadKeeps(g, policy, r.s.ctl, r.s.wp, n);
    WantsWritten(g, policy, r.s.ctl, r.s.wp, n);
    var o := ReadStep(g, policy, r.s.ctl, r.s.wp, n).1;
    BlockHeard(r.s.wp, g.nc, o, n);
    BaseIsWraps(o.at);
  }

  lemma ProducingStep(g: Geometry, r: Rig, n: nat, policy: Policy, time: int)
    requires Inv(g, r.s) && Exact(r) && n > 0 && InRange(r, Read(n, policy)) && !Blind(g, r, Read(n, policy))
    requires ReadStep(g, policy, r.s.ctl, r.s.wp, n).1.Produces()
    ensures Exact(RigStep(g, r, Read(n, policy), time))
  {
    hide ReadStep;
    hide Jump;
    hide Feed;
    hide Output;
    hide Heard;
    hide SilenceHeard;
    hide Blind;
    ReadKeeps(g, policy, r.s.ctl, r.s.wp, n);
    RigWithin(g, r, n, policy);
    var (c, o) := ReadStep(g, policy, r.s.ctl, r.s.wp, n);
    var base := if r.heard < 0 then o.at - o.at % RAMP_WRAP else r.base;
    HeardExactly(r.d, time, o, n, base);
    ExpectedKeepsSilence(r.d, time, o, n, base);
    ExpectedLedger(r.d, time, o, n, base);
    hide Expected;
    hide Unplaceable;
  }

  /** Counters only grow. */
  lemma {:induction false} CountersGrow(d: Dec, time: int, vs: seq<real>)
    ensures Feed(d, time, vs).aliens >= d.aliens && Feed(d, time, vs).inserts >= d.inserts
  {
    hide Classify;
    hide MarkerValue;
    hide UnwrapPos;
    if vs != [] {
      CountersGrow(d, time, vs[..|vs| - 1]);
    }
  }

  /** What the decoder makes of an unplaceable marker: an alien, or by coincidence of values at the
      wrap an insertion, or a drop without the snap. */
  lemma UnplaceableMarker(d: Dec, time: int, at: int, base: int)
    requires Within(d, at, base) && (d.lastPos < 0 || at - base != d.lastPos + 1)
    ensures var r := FeedSample(d, time, MarkerValue(at));
            || r.aliens == d.aliens + 1 || r.inserts == d.inserts + 1
            || (r.snaps == d.snaps && d.lastPos >= 0 && (at % RAMP_WRAP == RAMP_WRAP - 1 || at % RAMP_WRAP == RAMP_WRAP / 2 - 1))
  {
    hide MarkerValue;
    hide FeedSample;
    MarkerRecognised(at);
    MarkerCases(d, time, MarkerValue(at));
    if d.lastPos >= 0 && MarkerValue(at) == MarkerValue(d.lastPos + 1) {
      MarkersDiffer(at, d.lastPos + 1, base);
    }
  }

  lemma MarkerCases(d: Dec, time: int, v: real)
    requires Classify(v) == MarkerSample
    ensures var r := FeedSample(d, time, v);
            || r.aliens == d.aliens + 1 || r.inserts == d.inserts + 1
            || (r.snaps == d.snaps && d.lastPos >= 0 && v == MarkerValue(d.lastPos + 1))
  {
    hide Classify;
    hide MarkerValue;
  }

  lemma MarkersDiffer(at: int, p: int, base: int)
    requires base % RAMP_WRAP == 0 && 0 < at - base - p <= RAMP_WRAP / 2 && MarkerValue(at) == MarkerValue(p)
    ensures at % RAMP_WRAP == RAMP_WRAP - 1 || at % RAMP_WRAP == RAMP_WRAP / 2 - 1
  {
    RampPeriodic(at - base, base);
    var a, q := (at - base) % RAMP_WRAP, p % RAMP_WRAP;
    MarkerAt(at - base);
    MarkerAt(p);
    hide MarkerValue;
    SameResidue(at - base, p);
  }

  lemma SameResidue(x: int, y: int)
    requires 0 < x - y <= RAMP_WRAP / 2
    ensures x % RAMP_WRAP != y % RAMP_WRAP
  {
  }

  /** A blind read is misheard: the ledger is no longer the true one. */
  lemma BlindStep(g: Geometry, r: Rig, n: nat, policy: Policy, time: int)
    requires Inv(g, r.s) && Exact(r) && n > 0 && InRange(r, Read(n, policy)) && Blind(g, r, Read(n, policy))
    ensures !Exact(RigStep(g, r, Read(n, policy), time))
  {
    hide ReadStep;
    hide Jump;
    hide Feed;
    hide FeedSample;
    hide Output;
    hide SilenceHeard;
    hide MarkerValue;
    ReadKeeps(g, policy, r.s.ctl, r.s.wp, n);
    RigWithin(g, r, n, policy);
    var (c, o) := ReadStep(g, policy, r.s.ctl, r.s.wp, n);
    var base := if r.heard < 0 then o.at - o.at % RAMP_WRAP else r.base;
    var rest := Run(o.at + 2, n - 1);
    assert Run(o.at, 0) + [MarkerValue(o.at)] + rest == [MarkerValue(o.at)] + rest;
    assert Heard(o, n) == [MarkerValue(o.at)] + rest;
    FeedOne(r.d, time, MarkerValue(o.at), rest);
    UnplaceableMarker(r.d, time, o.at, base);
    var d1 := FeedSample(r.d, time, MarkerValue(o.at));
    CountersGrow(d1, time, rest);
    FedNothing(d1, time);
    assert n == 1 ==> rest == [];
    ShortCut(o.at, n);
    hide Run;
    hide Heard;
  }

  lemma ShortCut(at: nat, n: nat)
    requires n >= 1 && RampCut(at, n) == 0
    ensures n == 1 || (n == 2 && at % RAMP_WRAP == RAMP_WRAP - 2)
  {
  }

  lemma BaseIsWraps(p: int)
    requires p >= 0
    ensures (p - p % RAMP_WRAP) % RAMP_WRAP == 0 && p - p % RAMP_WRAP >= 0
  {
  }

  lemma ExpectedLedger(d: Dec, time: int, o: Outcome, n: nat, base: int)
    requires o.Produces() && Playable(o, n) && Within(d, o.at, base)
    ensures var r := Expected(d, time, o, n, base);
            && r.drops == d.drops + (if o.Drop? then 1 else 0)
            && r.inserts == d.inserts + (if o.Insertion? then 1 else 0)
            && r.snaps == d.snaps + (if d.lastPos >= 0 && o.at != base + d.lastPos + 1 then 1 else 0)
            && r.aliens == d.aliens && r.joinSilenceFrames == d.joinSilenceFrames
            && Hears(r, o.at + Consumed(o, n), base)
  {
  }

  lemma SilentStep(g: Geometry, r: Rig, n: nat, policy: Policy, time: int)
    requires Inv(g, r.s) && Exact(r)
    requires !ReadStep(g, policy, r.s.ctl, r.s.wp, n).1.Produces()
    ensures Exact(RigStep(g, r, Read(n, policy), time))
  {
    hide ReadStep;
    hide Ok;
    hide Jump;
    hide Feed;
    hide Zeros;
    hide SilenceIn;
    ReadKeeps(g, policy, r.s.ctl, r.s.wp, n);
    WantsWritten(g, policy, r.s.ctl, r.s.wp, n);
    SilenceExactly(r.d, time, n);
    FedNothing(r.d, time);
  }

  /** The decoder reconstructs the run: for every schedule of contiguous ramp writes and reads of
      any length within range, whatever the policy, its ledger is the true one at every point (drop
      and insert counts the buffer's own, no alien sample, snaps exactly the reads that resumed
      away from where playing had stopped, every silent frame accounted for) if and only if no
      read was blind. */
  lemma DecodingIsExact(g: Geometry, evs: seq<Event>)
    requires Sound(g) && Snug(g)
    ensures Inv(g, Start(g))
    ensures AllInRange(g, evs) ==>
              ((forall i :: 0 <= i <= |evs| ==> Exact(RigExec(g, evs[..i])))
               <==> (forall i :: 0 <= i < |evs| ==> !Blind(g, RigExec(g, evs[..i]), evs[i])))
  {
    InitialIsOk(g);
    hide Exact;
    hide Blind;
    hide RigExec;
    if AllInRange(g, evs) {
      if forall i :: 0 <= i <= |evs| ==> Exact(RigExec(g, evs[..i])) {
        forall i | 0 <= i < |evs|
          ensures !Blind(g, RigExec(g, evs[..i]), evs[i])
        {
          assert Exact(RigExec(g, evs[..i + 1]));
          ExactUnlessBlind(g, evs, i);
        }
      }
      if forall i :: 0 <= i < |evs| ==> !Blind(g, RigExec(g, evs[..i]), evs[i]) {
        forall i | 0 <= i <= |evs|
          ensures Exact(RigExec(g, evs[..i]))
        {
          SightedIsExact(g, evs, i);
        }
      }
    }
  }

  /** One more event keeps the ledger true exactly when it is not a blind read. */
  lemma ExactUnlessBlind(g: Geometry, evs: seq<Event>, i: nat)
    requires Inv(g, Start(g)) && i < |evs| && AllInRange(g, evs) && Exact(RigExec(g, evs[..i]))
    ensures Exact(RigExec(g, evs[..i + 1])) <==> !Blind(g, RigExec(g, evs[..i]), evs[i])
  {
    hide Exact;
    hide Blind;
    hide RigStep;
    assert evs[..i + 1][..i] == evs[..i];
    OneStep(g, RigExec(g, evs[..i]), evs[i], i);
  }

  lemma FreshIsExact(g: Geometry, evs: seq<Event>)
    requires Inv(g, Start(g))
    ensures Exact(RigExec(g, evs[..0]))
  {
    hide RigStep;
    assert evs[..0] == [];
  }

  lemma {:induction false} SightedIsExact(g: Geometry, evs: seq<Event>, i: nat)
    requires Inv(g, Start(g)) && i <= |evs| && AllInRange(g, evs)
    requires forall k :: 0 <= k < |evs| ==> !Blind(g, RigExec(g, evs[..k]), evs[k])
    ensures Exact(RigExec(g, evs[..i]))
  {
    if i == 0 {
      FreshIsExact(g, evs);
    } else {
      hide Blind;
      hide Exact;
      hide RigExec;
      hide AllInRange;
      hide Inv;
      SightedIsExact(g, evs, i - 1);
      ExactUnlessBlind(g, evs, i - 1);
    }
  }

  lemma OneStep(g: Geometry, r: Rig, e: Event, time: int)
    requires Inv(g, r.s) && Exact(r) && InRange(r, e)
    ensures Exact(RigStep(g, r, e, time)) <==> !Blind(g, r, e)
  {
    hide ReadStep;
    if e.Read? {
      WantsWritten(g, e.policy, r.s.ctl, r.s.wp, e.n);
      hide RigStep;
      hide Exact;
      if !ReadStep(g, e.policy, r.s.ctl, r.s.wp, e.n).1.Produces() {
        SilentStep(g, r, e.n, e.policy, time);
      } else if Blind(g, r, e) {
        BlindStep(g, r, e.n, e.policy, time);
      } else {
        ProducingStep(g, r, e.n, e.policy, time);
      }
    }
  }

  /** Empty reads and reads of at least three frames are never blind. */
  ghost predicate LongReads(evs: seq<Event>) {
    forall i :: 0 <= i < |evs| && evs[i].Read? ==> evs[i].n == 0 || evs[i].n >= 3
  }

  lemma LongReadsDecode(g: Geometry, evs: seq<Event>)
    requires Sound(g) && Snug(g) && LongReads(evs)
    ensures Inv(g, Start(g))
    ensures AllInRange(g, evs) ==> Exact(RigExec(g, evs))
  {
    InitialIsOk(g);
    hide RigExec;
    hide Exact;
    hide ReadStep;
    if AllInRange(g, evs) {
      forall i | 0 <= i < |evs|
        ensures !Blind(g, RigExec(g, evs[..i]), evs[i])
      {
      }
      SightedIsExact(g, evs, |evs|);
      assert evs[..|evs|] == evs;
    }
  }

  // ---- When a jump is heard -------------------------------------------------------------

  /** A read that moved plays at once exactly when it asks for no more than the fill it moved to. */
  lemma JumpPlays(g: Geometry, policy: Policy, c: Ctl, wp: int, n: nat)
    requires Sound(g) && Snug(g) && Ok(g, c, wp) && Jump(g, c, wp, n) != 0
    ensures ReadStep(g, policy, c, wp, n).1.Produces() <==> n <= wp - (c.readPos + Jump(g, c, wp, n))
    ensures wp - (c.readPos + Jump(g, c, wp, n)) >= g.spBase
  {
    hide Sense;
    hide Accrue;
    hide Place;
    PlaceKeeps(g, c, wp);
    PlaceIsJump(g, c, wp, n);
    hide Jump;
    hide Ok;
  }

  /** The read head is where playing stopped, plus the jumps made since. */
  predicate InStep(r: Rig) {
    r.heard >= 0 ==> r.s.ctl.readPos == r.heard + (r.s.jumped - r.jumpedAt)
  }

  /** A snap is counted at a producing read exactly when the jumps since the last frame played,
      its own included, do not sum to zero; and nowhere else. */
  lemma SnapsAreJumps(g: Geometry, r: Rig, n: nat, policy: Policy, time: int)
    requires Inv(g, r.s) && InStep(r)
    ensures var r' := RigStep(g, r, Read(n, policy), time);
            var plays := ReadStep(g, policy, r.s.ctl, r.s.wp, n).1.Produces();
            && InStep(r')
            && r'.moved == r.moved + if plays && r.heard >= 0 && r'.s.jumped != r.jumpedAt then 1 else 0
  {
    hide ReadStep;
    hide Feed;
    hide Output;
    hide Jump;
    ReadKeeps(g, policy, r.s.ctl, r.s.wp, n);
    hide Ok;
  }

  lemma {:induction false} AlwaysInStep(g: Geometry, evs: seq<Event>)
    requires Sound(g) && Snug(g)
    ensures Inv(g, Start(g))
    ensures InStep(RigExec(g, evs))
  {
    InitialIsOk(g);
    if evs != [] {
      var front, e := evs[..|evs| - 1], evs[|evs| - 1];
      AlwaysInStep(g, front);
      if e.Read? {
        SnapsAreJumps(g, RigExec(g, front), e.n, e.policy, |evs| - 1);
        hide RigStep;
      }
    }
  }

  ghost predicate ShortReads(g: Geometry, evs: seq<Event>) {
    forall i :: 0 <= i < |evs| ==> evs[i].Read? ==> evs[i].n <= g.spBase
  }

  /** Every jump so far has been heard. */
  predicate Settled(r: Rig) {
    r.heard >= 0 ==> r.s.jumped == r.jumpedAt
  }

  lemma ShortReadSettles(g: Geometry, r: Rig, n: nat, policy: Policy, time: int)
    requires Inv(g, r.s) && InStep(r) && Settled(r) && n <= g.spBase
    ensures var r' := RigStep(g, r, Read(n, policy), time);
            && Settled(r')
            && r'.moved == r.moved + if r.heard >= 0 && Jump(g, r.s.ctl, r.s.wp, n) != 0 then 1 else 0
  {
    SnapsAreJumps(g, r, n, policy, time);
    hide ReadStep;
    hide Feed;
    hide Output;
    hide Jump;
    if Jump(g, r.s.ctl, r.s.wp, n) != 0 {
      JumpPlays(g, policy, r.s.ctl, r.s.wp, n);
    }
    hide Ok;
  }

  /** With reads no longer than the structural setpoint no jump waits to be heard: a snap is
      counted exactly at the reads whose own trim or valve moved the head after the first audio. */
  lemma {:induction false} ShortReadsSettle(g: Geometry, evs: seq<Event>)
    requires Sound(g) && Snug(g) && ShortReads(g, evs)
    ensures Inv(g, Start(g))
    ensures Settled(RigExec(g, evs))
  {
    InitialIsOk(g);
    if evs != [] {
      var front, e := evs[..|evs| - 1], evs[|evs| - 1];
      ShortReadsSettle(g, front);
      AlwaysInStep(g, front);
      if e.Read? {
        ShortReadSettles(g, RigExec(g, front), e.n, e.policy, |evs| - 1);
        hide RigStep;
      }
    }
  }
}
