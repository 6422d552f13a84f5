/** Which way the buffer corrects: the sign of a decision decides the kind of splice over whole
    runs, and the shipping controller's sign follows displacement and drift. */
module JitterDirection {
  import opened Order
  import opened JitterConfig
  import opened JitterControl
  import opened JitterServo
  import opened JitterRuns

  // ---- Splices follow the sign of the rate ---------------------------------------------------

  /** Every decision has the sign of way (+1 or -1), or is zero. */
  ghost predicate OneWay(policy: Policy, way: real) {
    forall c: Ctl :: policy(c).0 * way >= 0.0
  }

  ghost predicate AllOneWay(evs: seq<Event>, way: real) {
    forall i :: 0 <= i < |evs| && evs[i].Read? ==> OneWay(evs[i].policy, way)
  }

  /** Rate and debt lean one way. */
  predicate Leans(m: Meter, way: real) {
    m.rate * way >= 0.0 && m.debt * way >= 0.0
  }

  /** The splices made against the lean. */
  function Against(c: Ctl, way: real): int {
    if way > 0.0 then c.stats.inserted else c.stats.dropped
  }

  lemma SenseLeans(g: Geometry, policy: Policy, c: Ctl, wp: int, fill: int, way: real)
    requires Shaped(c) && g.rateCap >= 0.0 && (way == 1.0 || way == -1.0) && OneWay(policy, way) && Leans(c.meter, way)
    ensures var r := Sense(g, policy, c, wp, fill); Leans(r.meter, way) && r.stats == c.stats
  {
    hide Refresh;
    if c.started {
      var c1 := Deliver(g, c, wp);
      var c2 := c1.(win := Window(c1.win.raw + [fill], c1.win.virt + [wp - g.r * c.tick]));
      if !c1.frozen && |c2.win.raw| >= g.windowReads {
        RefreshMeter(g, c2);
        var d := policy(Refresh(g, c2));
        assert d.0 * way >= 0.0;
      }
    }
  }

  lemma RefreshMeter(g: Geometry, c: Ctl)
    requires Shaped(c) && |c.win.raw| > 0
    ensures Refresh(g, c).meter == c.meter && Refresh(g, c).stats == c.stats
  {
  }

  lemma AccrueLeans(g: Geometry, c: Ctl, way: real)
    requires Sound(g) && (way == 1.0 || way == -1.0) && Leans(c.meter, way)
    ensures Accrue(g, c) * way >= 0.0
  {
    var q := g.r as real / g.sr as real;
    assert q >= 0.0;
    if way == 1.0 {
      NonNegativeProduct(c.meter.rate, q);
    } else {
      NonNegativeProduct(-c.meter.rate, q);
    }
  }

  lemma ReadLeans(g: Geometry, policy: Policy, c: Ctl, wp: int, n: nat, way: real)
    requires Sound(g) && Shaped(c) && (way == 1.0 || way == -1.0) && OneWay(policy, way) && Leans(c.meter, way)
    ensures var r := ReadStep(g, policy, c, wp, n).0; Leans(r.meter, way) && Against(r, way) == Against(c, way)
  {
    hide Sense;
    hide Accrue;
    if n > 0 && !(c.readPos == 0 && wp < c.setpoint) {
      var c1 := Place(g, c, wp);
      assert c1.meter == c.meter && Shaped(c1) && Against(c1, way) == Against(c, way);
      SenseLeans(g, policy, c1, wp, wp - c1.readPos, way);
      AccrueLeans(g, Sense(g, policy, c1, wp, wp - c1.readPos), way);
      hide Place;
    }
  }

  /** Over any stretch of a run whose decisions never turn against the lean, no splice is made
      against it: rates that never go negative never insert, rates that never go positive never
      drop. */
  lemma {:induction false} SplicesFollowTheRate(g: Geometry, s: State, evs: seq<Event>, way: real)
    requires Inv(g, s) && (way == 1.0 || way == -1.0) && AllOneWay(evs, way) && Leans(s.ctl.meter, way)
    ensures var s' := Exec(g, s, evs); Leans(s'.ctl.meter, way) && Against(s'.ctl, way) == Against(s.ctl, way)
  {
    hide OneWay;
    hide ReadStep;
    hide Inv;
    if evs != [] {
      var front, e := evs[..|evs| - 1], evs[|evs| - 1];
      SplicesFollowTheRate(g, s, front, way);
      var m := Exec(g, s, front);
      if e.Read? {
        StepLeans(g, m, e, way);
      }
    }
  }

  lemma StepLeans(g: Geometry, s: State, e: Event, way: real)
    requires Inv(g, s) && e.Read? && (way == 1.0 || way == -1.0) && OneWay(e.policy, way) && Leans(s.ctl.meter, way)
    ensures Leans(Step(g, s, e).ctl.meter, way) && Against(Step(g, s, e).ctl, way) == Against(s.ctl, way)
  {
    hide OneWay;
    hide ReadStep;
    ReadLeans(g, e.policy, s.ctl, s.wp, e.n, way);
  }

  // ---- The shipping controller ----------------------------------------------------------------

  /** The controller trims only when the whole window is displaced beyond theta, and then by the
      median displacement; otherwise it returns a rate within the cap. With no drift it acts
      exactly when the median is above the deadband, and only ever towards dropping; a rise in
      the drift estimate never makes it insert. */
  lemma PServoDirection(est: WindowEstimate, geo: ServoGeometry)
    requires geo.gainPerSec > 0.0 && geo.rateCapPerSec > 0.0 && geo.ffClampPerSec > 0.0
    requires est.minRaw <= est.medianRaw && geo.theta >= 0
    ensures var (rate, trim) := PServo(est, geo);
            && (trim > 0 <==> est.minRaw > geo.setpoint + geo.theta)
            && (trim > 0 ==> rate == 0.0 && trim == est.medianRaw - geo.setpoint)
            && Abs(rate) <= geo.rateCapPerSec
            && (est.slopeFPS >= 0.0 ==> rate >= 0.0)
            && (est.slopeFPS == 0.0 && trim == 0 ==> (rate > 0.0 <==> est.medianRaw > geo.setpoint + geo.deadband))
            && (rate < 0.0 ==> est.slopeFPS < 0.0)
  {
    if est.slopeFPS >= 0.0 {
      SoftClampBounds(est.slopeFPS, geo.ffClampPerSec);
    }
    var e := est.medianRaw - geo.setpoint;
    if e > geo.deadband {
      PositiveProduct(geo.gainPerSec, (e - geo.deadband) as real);
    }
    hide SoftClamp;
  }

  /** The drift estimate follows the window medians: never down while they do not fall, and zero
      while they stay within the dead zone of each other. */
  lemma DriftFollowsMedians(g: Geometry, d: Drift)
    requires |d.ticks| == |d.vals| && g.r > 0 && g.sr > 0 && g.ffDeadZone >= 1
    ensures (forall i, j :: 0 <= i < j < |d.vals| ==> d.vals[i] <= d.vals[j]) ==> DriftSlope(g, d).0 >= 0.0
    ensures (forall i, j :: 0 <= i < j < |d.vals| ==> d.vals[j] <= d.vals[i]) ==> DriftSlope(g, d).0 <= 0.0
    ensures (forall i, j :: 0 <= i < j < |d.vals| ==> -g.ffDeadZone < d.vals[j] - d.vals[i] < g.ffDeadZone)
            ==> DriftSlope(g, d).0 == 0.0
  {
    hide DriftSlope;
    hide SlopeOf;
    EndsFollow(d.vals);
    SlopeFromEnds(g, d);
    var n := |d.vals|;
    if n >= 2 {
      var span := if n >= 6 then d.ticks[n - 2] - d.ticks[1] else d.ticks[n - 1] - d.ticks[0];
      if span > 0 {
        SlopeSign(g, HiEnd(d.vals) - LoEnd(d.vals), span);
      }
    }
  }

  /** The level the slope starts from, and the one it ends on. */
  function LoEnd(vals: seq<int>): int
    requires |vals| >= 2
  {
    if |vals| >= 6 then Median3(vals[0], vals[1], vals[2]) else vals[0]
  }

  function HiEnd(vals: seq<int>): int
    requires |vals| >= 2
  {
    var n := |vals|;
    if n >= 6 then Median3(vals[n - 3], vals[n - 2], vals[n - 1]) else vals[n - 1]
  }

  lemma SlopeFromEnds(g: Geometry, d: Drift)
    requires |d.ticks| == |d.vals| && g.r > 0 && g.sr > 0
    ensures var n := |d.vals|;
            DriftSlope(g, d).0 == 0.0
            || (n >= 2
                && var span := if n >= 6 then d.ticks[n - 2] - d.ticks[1] else d.ticks[n - 1] - d.ticks[0];
                   span > 0 && DriftSlope(g, d).0 == SlopeOf(g, HiEnd(d.vals) - LoEnd(d.vals), span))
  {
    hide Median3;
  }

  /** Every late value against every early one decides the ends. */
  lemma EndsFollow(vals: seq<int>)
    ensures |vals| >= 2 ==> exists i, j :: 0 <= i < j < |vals| && vals[i] == LoEnd(vals) && vals[j] == HiEnd(vals)
  {
    if |vals| >= 2 {
      var n := |vals|;
      var i := if n < 6 || LoEnd(vals) == vals[0] then 0 else if LoEnd(vals) == vals[1] then 1 else 2;
      var j := if n < 6 || HiEnd(vals) == vals[n - 1] then n - 1 else if HiEnd(vals) == vals[n - 2] then n - 2 else n - 3;
      assert vals[i] == LoEnd(vals) && vals[j] == HiEnd(vals) && i < j;
    }
  }

  /** The estimate from a rise over a span of reads. */
  function SlopeOf(g: Geometry, rise: int, span: int): real
    requires span > 0 && g.r > 0 && g.sr > 0
  {
    var perRead := rise as real / span as real;
    var delta := perRead * span as real;
    if delta >= g.ffDeadZone as real || delta <= -(g.ffDeadZone as real)
    then perRead * g.sr as real / g.r as real else 0.0
  }

  lemma SlopeSign(g: Geometry, rise: int, span: int)
    requires span > 0 && g.r > 0 && g.sr > 0 && g.ffDeadZone >= 1
    ensures rise >= 0 ==> SlopeOf(g, rise, span) >= 0.0
    ensures rise <= 0 ==> SlopeOf(g, rise, span) <= 0.0
    ensures -g.ffDeadZone < rise < g.ffDeadZone ==> SlopeOf(g, rise, span) == 0.0
  {
    var perRead := rise as real / span as real;
    assert perRead * span as real == rise as real;
    var k := g.sr as real / g.r as real;
    assert perRead * g.sr as real / g.r as real == perRead * k;
    PositiveQuotient(g.sr as real, g.r as real);
    SameSign(perRead, span as real, k);
  }

  lemma SameSign(x: real, s: real, k: real)
    requires s > 0.0 && k > 0.0
    ensures x * s >= 0.0 ==> x * k >= 0.0
    ensures x * s <= 0.0 ==> x * k <= 0.0
  {
    if x > 0.0 {
      PositiveProduct(x, s);
      PositiveProduct(x, k);
    } else if x < 0.0 {
      PositiveProduct(-x, s);
      PositiveProduct(-x, k);
    }
  }
}
