/** What the window close measures and decides, said without its formulas: medians split their
    window, widths reach its extremes, the setpoint covers the held width, the drift estimate is the
    rise over the span, the servo follows drift and displacement, and debt is paid to the frame. */
module JitterMeaning {
  import opened Layout
  import opened Order
  import opened JitterConfig
  import opened JitterControl
  import opened JitterServo
  import opened JitterRuns
  import opened JitterDirection

  // ---- Window statistics ------------------------------------------------------------------

  /** The median is a value of the window; at least half of the window is no less than it, and
      fewer than half exceed it. */
  lemma MedianSplits(buf: seq<int>)
    requires |buf| > 0
    ensures Median(buf) in buf
    ensures CountAbove(buf, Median(buf) - 1) >= |buf| - |buf| / 2
    ensures 2 * CountAbove(buf, Median(buf)) < |buf|
  {
    hide CountAbove;
    hide Sorted;
    hide IsSorted;
    SortedIsSorted(buf);
    SortedMembers(buf, |buf| / 2);
    var m, k := Median(buf), |buf| / 2;
    CountAboveSorted(buf, m);
    CountAboveSorted(buf, m - 1);
    CountAboveOfSorted(Sorted(buf), k, m);
    CountAboveOfSorted(Sorted(buf), k, m - 1);
  }

  /** Least and greatest are values of the window with nothing beyond them. */
  lemma ExtremesAre(buf: seq<int>)
    requires |buf| > 0
    ensures Least(buf) in buf && Greatest(buf) in buf
    ensures forall i :: 0 <= i < |buf| ==> Least(buf) <= buf[i] <= Greatest(buf)
  {
    WindowStatsOrdered(buf);
    SortedMembers(buf, 0);
    SortedMembers(buf, |buf| - 1);
  }

  /** The measured widths reach from the median to the window's extremes, the low one up to its cap. */
  lemma WidthsReachExtremes(g: Geometry, virt: seq<int>)
    requires |virt| > 0
    ensures var low, high, m := MeasuredLow(g, virt), MeasuredHigh(virt), Median(virt);
            && low <= g.wlCap && (low == g.wlCap || m - low in virt)
            && (low < g.wlCap ==> forall i :: 0 <= i < |virt| ==> m - low <= virt[i])
            && m + high in virt && forall i :: 0 <= i < |virt| ==> virt[i] <= m + high
  {
    ExtremesAre(virt);
  }

  /** What the controller is shown: the raw window's own median and extremes, the held widths in
      whole frames, and the servo's settings with a deadband that spans the late-side envelope. */
  lemma EstimateDescribes(g: Geometry, c: Ctl)
    requires Shaped(c) && |c.win.raw| > 0 && g.r > 0 && g.sr > 0
    ensures var est := Estimate(g, c);
            && 2 * CountAbove(c.win.raw, est.medianRaw) < |c.win.raw|
            && CountAbove(c.win.raw, est.medianRaw - 1) >= |c.win.raw| - |c.win.raw| / 2
            && est.minRaw in c.win.raw && est.maxRaw in c.win.raw
            && (forall i :: 0 <= i < |c.win.raw| ==> est.minRaw <= c.win.raw[i] <= est.maxRaw)
            && (c.widths.wl >= 0.0 ==> est.widthLow as real <= c.widths.wl < est.widthLow as real + 1.0)
            && (c.widths.wh >= 0.0 ==> est.widthHigh as real <= c.widths.wh < est.widthHigh as real + 1.0)
            && est.slopeFPS == DriftSlope(g, c.drift).0
    ensures var geo := ServoView(g, c);
            && geo.setpoint == c.setpoint && geo.theta == g.theta
            && geo.deadband >= g.deadband && (c.widths.wl >= 0.0 ==> geo.deadband as real > c.widths.wl - 1.0)
            && (geo.deadband == g.deadband || geo.deadband as real <= c.widths.wl || c.widths.wl < 0.0)
            && geo.gainPerSec == g.gain && geo.rateCapPerSec == g.rateCap && geo.ffClampPerSec == g.ffClamp
  {
    MedianSplits(c.win.raw);
    ExtremesAre(c.win.raw);
    hide Median;
    hide Least;
    hide Greatest;
    hide DriftSlope;
  }

  /** The high side is held by the same rule as the low one. */
  lemma HighWidthHold(g: Geometry, h: Widths, wlMeas: int, whMeas: int, x: int)
    requires WidthsShaped(h)
    ensures var r := HoldWidths(g, h, wlMeas, whMeas);
            r.wh > x as real <==>
            h.wh - g.narrowStep > x as real || CountAbove(r.whHist[..r.histLen], x) >= Min(WIDTH_RANK, r.histLen)
  {
    var r := HoldWidths(g, h, wlMeas, whMeas);
    RankFilter(r.whHist[..r.histLen], WIDTH_RANK, x);
  }

  // ---- The setpoint -------------------------------------------------------------------------

  /** Rounding half up stays within half of the value. */
  lemma RoundedWithin(x: real)
    requires x >= 0.0
    ensures x - 0.5 < Trunc(x + 0.5) as real <= x + 0.5
  {
  }

  /** The setpoint covers the held width and the declared floor unless its ceiling stops it, and
      never asks for more than one of them. */
  lemma SetpointCovers(g: Geometry, wl: real)
    requires Sound(g) && wl >= 0.0
    ensures var sp := Setpoint(g, wl);
            && sp <= g.spMax
            && (sp == g.spMax || (sp as real > g.spBase as real + g.kLow * wl - 0.5 && sp >= g.flDecl))
            && (sp as real <= g.spBase as real + g.kLow * wl + 0.5 || sp <= g.flDecl)
  {
    var x := g.kLow * wl;
    NonNegativeProduct(g.kLow, wl);
    RoundedWithin(x);
    hide Trunc;
    var k := g.spBase + Trunc(x + 0.5);
    assert Setpoint(g, wl) == Min(Max(k, g.flDecl), g.spMax);
    assert k as real == g.spBase as real + Trunc(x + 0.5) as real;
  }

  /** So it is after every window close, for the width held at that close. */
  lemma CloseAdaptsSetpoint(g: Geometry, policy: Policy, c: Ctl, wp: int)
    requires Sound(g) && !c.frozen && Ok(g, c.(win := EMPTY), wp) && |c.win.raw| == |c.win.virt| > 0
    ensures var r := CloseWindow(g, policy, c);
            && r.widths == HoldWidths(g, c.widths, MeasuredLow(g, c.win.virt), MeasuredHigh(c.win.virt))
            && (r.setpoint == g.spMax
                || (r.setpoint as real > g.spBase as real + g.kLow * r.widths.wl - 0.5 && r.setpoint >= g.flDecl))
  {
    hide HoldWidths;
    hide MeasuredLow;
    hide MeasuredHigh;
    hide Setpoint;
    CloseWindowKeeps(g, policy, c, wp);
    SetpointCovers(g, CloseWindow(g, policy, c).widths.wl);
  }

  // ---- The drift estimate ---------------------------------------------------------------------

  /** Ticks between the two ends of the slope. */
  function SpanOf(ticks: seq<int>): int
    requires |ticks| >= 2
  {
    var n := |ticks|;
    if n >= 6 then ticks[n - 2] - ticks[1] else ticks[n - 1] - ticks[0]
  }

  /** A rise of at least the dead zone over a positive span is the slope times the span in seconds;
      a smaller one, or no span, is no drift. */
  lemma DriftIsRiseOverSpan(g: Geometry, d: Drift)
    requires |d.ticks| == |d.vals| >= 2 && g.r > 0 && g.sr > 0 && d.ticks[|d.ticks| - 1] > d.ticks[0]
    ensures var rise, span := HiEnd(d.vals) - LoEnd(d.vals), SpanOf(d.ticks);
            var slope := DriftSlope(g, d).0;
            if span > 0 && (rise >= g.ffDeadZone || rise <= -g.ffDeadZone)
            then slope * span as real * g.r as real == rise as real * g.sr as real
            else slope == 0.0
  {
    hide DriftSlope;
    hide SlopeOf;
    hide LoEnd;
    hide HiEnd;
    SlopeUnfolds(g, d);
    if SpanOf(d.ticks) > 0 {
      SlopeIsExact(g, HiEnd(d.vals) - LoEnd(d.vals), SpanOf(d.ticks));
    }
  }

  lemma SlopeUnfolds(g: Geometry, d: Drift)
    requires |d.ticks| == |d.vals| >= 2 && g.r > 0 && g.sr > 0 && d.ticks[|d.ticks| - 1] > d.ticks[0]
    ensures var span := SpanOf(d.ticks);
            DriftSlope(g, d).0 == if span > 0 then SlopeOf(g, HiEnd(d.vals) - LoEnd(d.vals), span) else 0.0
  {
    hide Median3;
  }

  lemma SlopeIsExact(g: Geometry, rise: int, span: int)
    requires span > 0 && g.r > 0 && g.sr > 0
    ensures if rise >= g.ffDeadZone || rise <= -g.ffDeadZone
            then SlopeOf(g, rise, span) * span as real * g.r as real == rise as real * g.sr as real
            else SlopeOf(g, rise, span) == 0.0
  {
    var perRead, m := rise as real / span as real, span as real;
    assert perRead * m == rise as real;
    var slope := perRead * g.sr as real / g.r as real;
    assert slope * g.r as real == perRead * g.sr as real;
    Rearrange(slope, m, g.r as real, perRead, g.sr as real);
  }

  /** The horizon is the span in seconds, and zero without one. */
  lemma HorizonIsSpan(g: Geometry, d: Drift)
    requires |d.ticks| == |d.vals| >= 2 && g.r > 0 && g.sr > 0 && d.ticks[|d.ticks| - 1] > d.ticks[0]
    ensures DriftSlope(g, d).1 * g.sr as real == Max(0, SpanOf(d.ticks)) as real * g.r as real
  {
    hide Median3;
    var x, sr := Max(0, SpanOf(d.ticks)) as real * g.r as real, g.sr as real;
    assert x / sr * sr == x;
    assert DriftSlope(g, d).1 == x / sr;
    hide DriftSlope;
  }

  lemma Rearrange(slope: real, m: real, r: real, perRead: real, sr: real)
    requires slope * r == perRead * sr
    ensures slope * m * r == (perRead * m) * sr
  {
    assert slope * m * r == (slope * r) * m;
  }

  /** The drift history ends with the close just made and keeps the newest of the earlier ones, up to
      ten in all. */
  lemma DriftKeepsNewest(g: Geometry, policy: Policy, c: Ctl)
    requires Shaped(c) && |c.win.raw| > 0
    ensures var d, was := CloseWindow(g, policy, c).drift, c.drift;
            var n := |d.ticks|;
            && n == |d.vals| == Min(|was.ticks| + 1, WIDTH_HISTORY)
            && d.ticks[n - 1] == c.tick && d.vals[n - 1] == Median(c.win.virt)
            && d.ticks[..n - 1] == was.ticks[|was.ticks| - (n - 1)..] && d.vals[..n - 1] == was.vals[|was.vals| - (n - 1)..]
  {
    var ticks, vals := c.drift.ticks, c.drift.vals;
    KeepsNewest(ticks, c.tick);
    KeepsNewest(vals, Median(c.win.virt));
    hide KeepLast;
    hide HoldWidths;
    hide Setpoint;
    hide Median;
    assert CloseWindow(g, policy, c).drift == Drift(KeepLast(ticks + [c.tick]), KeepLast(vals + [Median(c.win.virt)]));
    hide CloseWindow;
  }

  lemma KeepsNewest(s: seq<int>, v: int)
    requires |s| <= WIDTH_HISTORY
    ensures var kept := KeepLast(s + [v]);
            var n := |kept|;
            && n == Min(|s| + 1, WIDTH_HISTORY) && kept[n - 1] == v && kept[..n - 1] == s[|s| - (n - 1)..]
  {
    var all := s + [v];
    if |s| < WIDTH_HISTORY {
      assert KeepLast(all) == all && all[..|s|] == s;
    } else {
      assert KeepLast(all) == s[1..] + [v];
      assert (s[1..] + [v])[..WIDTH_HISTORY - 1] == s[1..];
    }
  }

  // ---- The servo --------------------------------------------------------------------------------

  /** Inside the deadband the rate is the drift itself, up to the knee, limited to the cap. */
  lemma ServoFollowsDrift(est: WindowEstimate, geo: ServoGeometry)
    requires est.minRaw <= geo.setpoint + geo.theta && est.medianRaw - geo.setpoint <= geo.deadband
    requires Abs(est.slopeFPS) <= geo.ffClampPerSec && geo.ffClampPerSec > 0.0
    ensures PServo(est, geo) == (Clamp(est.slopeFPS, geo.rateCapPerSec), 0)
  {
  }

  /** Beyond the knee it falls off with the drift: their product is the square of the knee. */
  lemma ServoRollsOff(est: WindowEstimate, geo: ServoGeometry)
    requires est.minRaw <= geo.setpoint + geo.theta && est.medianRaw - geo.setpoint <= geo.deadband
    requires Abs(est.slopeFPS) > geo.ffClampPerSec > 0.0
    ensures exists ff: real :: RolledOff(ff, est.slopeFPS, geo.ffClampPerSec) && PServo(est, geo) == (Clamp(ff, geo.rateCapPerSec), 0)
  {
    var ff := SoftClamp(est.slopeFPS, geo.ffClampPerSec);
    RollOffIs(est.slopeFPS, geo.ffClampPerSec);
    hide SoftClamp;
    hide RolledOff;
    assert PServo(est, geo) == (Clamp(0.0 + ff, geo.rateCapPerSec), 0);
  }

  ghost predicate RolledOff(ff: real, slope: real, knee: real) {
    ff * slope == knee * knee
  }

  lemma RollOffIs(slope: real, knee: real)
    requires Abs(slope) > knee > 0.0
    ensures RolledOff(SoftClamp(slope, knee), slope, knee)
  {
    var k := knee * knee;
    assert k / slope * slope == k;
  }

  /** Without drift the rate is the gain times the displacement beyond the deadband, capped. */
  lemma ServoDrainsDisplacement(est: WindowEstimate, geo: ServoGeometry)
    requires est.minRaw <= geo.setpoint + geo.theta && est.slopeFPS == 0.0 && geo.ffClampPerSec > 0.0
    requires est.medianRaw - geo.setpoint > geo.deadband
    ensures var beyond := (est.medianRaw - geo.setpoint - geo.deadband) as real;
            PServo(est, geo) == (Clamp(Portion(geo.gainPerSec, beyond), geo.rateCapPerSec), 0)
  {
    hide Clamp;
  }

  /** Both at once: the two rates add before the cap. */
  lemma ServoAdds(est: WindowEstimate, geo: ServoGeometry)
    requires est.minRaw <= geo.setpoint + geo.theta && est.medianRaw - geo.setpoint > geo.deadband
    requires Abs(est.slopeFPS) <= geo.ffClampPerSec && geo.ffClampPerSec > 0.0
    ensures var beyond := (est.medianRaw - geo.setpoint - geo.deadband) as real;
            PServo(est, geo) == (Clamp(Portion(geo.gainPerSec, beyond) + est.slopeFPS, geo.rateCapPerSec), 0)
  {
    assert SoftClamp(est.slopeFPS, geo.ffClampPerSec) == est.slopeFPS;
    hide SoftClamp;
    hide Clamp;
  }

  // ---- Debt ------------------------------------------------------------------------------------------

  /** A read that plays earns rate * r / sr frames of debt, pays one frame per splice, and loses
      nothing else unless the clamp takes it; it splices exactly when a whole frame is owed and can
      be paid. */
  lemma DebtIsPaidToTheFrame(g: Geometry, policy: Policy, c: Ctl, wp: int, n: nat)
    requires Sound(g) && Shaped(c) && n > 0 && n <= wp - c.readPos
    ensures var c1 := Sense(g, policy, c, wp, wp - c.readPos);
            var (r, o) := Serve(g, policy, c, wp, n);
            var earned := if c1.frozen then 0.0 else Earned(g, c1.meter.rate);
            var owed := c1.meter.debt + earned;
            && Earned(g, c1.meter.rate) * g.sr as real == c1.meter.rate * g.r as real
            && (Abs(owed) <= MAX_DEBT ==>
                  && r.meter.debt == owed - (r.stats.dropped - c1.stats.dropped) as real + (r.stats.inserted - c1.stats.inserted) as real
                  && (o.Drop? <==> owed >= 1.0 && n + 1 <= wp - c.readPos)
                  && (o.Insertion? <==> owed <= -1.0 && n >= 2))
  {
    hide Sense;
    hide Earned;
    hide Shaped;
    EarnedIs(g, Sense(g, policy, c, wp, wp - c.readPos).meter.rate);
  }

  lemma EarnedIs(g: Geometry, rate: real)
    requires g.sr > 0
    ensures Earned(g, rate) * g.sr as real == rate * g.r as real
  {
    var q := g.r as real / g.sr as real;
    assert q * g.sr as real == g.r as real;
    assert rate * q * g.sr as real == rate * (q * g.sr as real);
  }

  /** A read underruns exactly when it asks for more than the fill, and only that is counted. */
  lemma UnderrunsCounted(g: Geometry, policy: Policy, c: Ctl, wp: int, n: nat)
    requires Sound(g) && Ok(g, c, wp) && n > 0
    ensures var (r, o) := Serve(g, policy, c, wp, n);
            && (o.Underrun? <==> wp - c.readPos < n)
            && r.stats.underruns == c.stats.underruns + if o.Underrun? then 1 else 0
  {
    SenseKeeps(g, policy, c, wp, wp - c.readPos);
    var c1 := Sense(g, policy, c, wp, wp - c.readPos);
    FinishCounts(c1, Accrue(g, c1), wp - c.readPos, n);
    hide Finish;
    hide Sense;
    hide Accrue;
  }

  lemma FinishCounts(c: Ctl, debt: real, fill: int, n: nat)
    ensures var (r, o) := Finish(c, debt, fill, n);
            (o.Underrun? <==> fill < n) && r.stats.underruns == c.stats.underruns + if o.Underrun? then 1 else 0
  {
  }

  // ---- Placement and construction ----------------------------------------------------------------------

  /** A trim or a snap discards the open window; a startup lands exactly at the setpoint. */
  lemma PlacementResets(g: Geometry, c: Ctl, wp: int)
    requires Sound(g) && Snug(g) && Ok(g, c, wp) && (c.readPos > 0 || wp >= c.setpoint)
    ensures var r := Place(g, c, wp);
            && (c.pendingTrim > 0 || r.stats.laps + r.stats.overruns > c.stats.laps + c.stats.overruns ==> r.win == EMPTY)
            && (c.readPos == 0 && c.pendingTrim == 0 ==> wp - r.readPos == c.setpoint && r.started && r.lastWp == wp)
            && (c.readPos > 0 && c.pendingTrim > 0 && r.stats.trims > c.stats.trims
                && r.stats.laps == c.stats.laps && r.stats.overruns == c.stats.overruns
                ==> r.readPos - c.readPos == Min(c.pendingTrim, wp - c.readPos - c.setpoint))
  {
  }

  /** A lap is counted exactly when the fill left after the trim is the whole ring or more, an
      overrun exactly when it is closer to that than one packet and one read. */
  lemma SnapsCounted(g: Geometry, c: Ctl, wp: int)
    requires c.readPos > 0
    ensures var r := Place(g, c, wp);
            var fill := wp - c.readPos;
            var left := fill - if c.pendingTrim > 0 then Max(0, Min(c.pendingTrim, fill - c.setpoint)) else 0;
            && r.stats.laps == c.stats.laps + (if left >= g.capacity then 1 else 0)
            && r.stats.overruns == c.stats.overruns + (if g.capacity - g.w - g.r < left < g.capacity then 1 else 0)
            && wp - r.readPos == (if r.stats.laps + r.stats.overruns > c.stats.laps + c.stats.overruns then c.setpoint else left)
  {
  }

  /** The geometry of the production configuration: 48 kHz mono, 5 ms writes and reads, all else
      left to the constructor. */
  lemma ProductionGeometry()
    ensures Derive(Settings(48000, 1, 0, 0, 0, 240, 240, 0, 1.0, 0), 240)
            == Some(Geometry(13536, 240, 240, 48, 1, 48000, 400, 8, 24.0, 480, 0, 1.2, 1.5, 1440,
                             12, 0.01, 20.0, 22.0, 120, 280, 2208))
  {
    assert MsToFrames(48000, 1.0) == 48 && MsToFrames(48000, 30.0) == 1440 && MsToFrames(48000, 60.0) == 2880;
    assert MsToFrames(48000, 40.0) == 1920 && MsToFrames(48000, 0.5) == 24 && MsToFrames(48000, 0.25) == 12;
    assert Scale(1.2, 1440) == 1728 && Scale(1.5, 2880) == 4320;
  }
}
