/** What the sensing window holds, told from the whole history of reads: outages are cut
    out of it exactly, and one-off events cannot raise the held width. */
module JitterSensing {
  import opened Order
  import opened JitterConfig
  import opened JitterControl
  import opened JitterRuns

  /** One sensed read: its pre-read fill, its virtual level, and whether anything was
      delivered since the read before it. */
  datatype Obs = Obs(fill: int, virtual: int, delivered: bool)

  /** The observation a read makes; reads stopped by the startup gate make none. */
  function Sensing(g: Geometry, c: Ctl, wp: int, n: nat): seq<Obs> {
    if n == 0 || (c.readPos == 0 && wp < c.setpoint) then []
    else
      var c1 := Place(g, c, wp);
      [Obs(wp - c1.readPos, wp - g.r * c1.tick, wp > c1.lastWp)]
  }

  /** Every observation of a run, oldest first. */
  function History(g: Geometry, s: State, evs: seq<Event>): seq<Obs>
    requires Inv(g, s)
  {
    if evs == [] then []
    else
      var m := Exec(g, s, evs[..|evs| - 1]);
      var e := evs[|evs| - 1];
      History(g, s, evs[..|evs| - 1]) + if e.Read? then Sensing(g, m.ctl, m.wp, e.n) else []
  }

  /** Length of the run of undelivered reads the history ends with. */
  function GapLen(h: seq<Obs>): (n: nat)
    ensures n <= |h|
  {
    if h == [] || h[|h| - 1].delivered then 0 else 1 + GapLen(h[..|h| - 1])
  }

  /** The window is exactly the stretch of observations that ends before position b. */
  predicate Holds(w: Window, h: seq<Obs>, b: int) {
    && |w.raw| == |w.virt| <= b <= |h|
    && (forall i :: 0 <= i < |w.raw| ==> w.raw[i] == h[b - |w.raw| + i].fill)
    && (forall i :: 0 <= i < |w.virt| ==> w.virt[i] == h[b - |w.virt| + i].virtual)
  }

  /** The window is the latest stretch of the history, minus the current outage if frozen,
      and the reader is frozen exactly during an outage longer than the freeze limit. */
  predicate SensedFrom(g: Geometry, c: Ctl, h: seq<Obs>) {
    && c.gapRun == GapLen(h)
    && (c.frozen <==> GapLen(h) > g.freezeReads)
    && Holds(c.win, h, if c.frozen then |h| - GapLen(h) else |h|)
  }

  lemma GapLenSnoc(h: seq<Obs>, o: Obs)
    ensures GapLen(h + [o]) == if o.delivered then 0 else GapLen(h) + 1
  {
    assert (h + [o])[..|h|] == h;
  }

  lemma HoldsNothing(h: seq<Obs>, b: int)
    requires 0 <= b <= |h|
    ensures Holds(EMPTY, h, b)
  {
  }

  lemma HoldsLonger(w: Window, h: seq<Obs>, b: int, o: Obs)
    requires Holds(w, h, b)
    ensures Holds(w, h + [o], b)
  {
  }

  lemma HoldsMore(w: Window, h: seq<Obs>, o: Obs)
    requires Holds(w, h + [o], |h|)
    ensures Holds(Window(w.raw + [o.fill], w.virt + [o.virtual]), h + [o], |h| + 1)
  {
  }

  /** Rewinding a window by the length of the run it ends with leaves what came before it. */
  lemma HoldsRewound(w: Window, h: seq<Obs>, gap: nat)
    requires Holds(w, h, |h|) && gap <= |h|
    ensures var keep := |w.raw| - Min(gap, |w.raw|);
            Holds(Window(w.raw[..keep], w.virt[..keep]), h, |h| - gap)
  {
  }

  lemma DeliverSenses(g: Geometry, c: Ctl, wp: int, h: seq<Obs>, o: Obs)
    requires Shaped(c) && SensedFrom(g, c, h) && o.delivered == (wp > c.lastWp)
    requires g.freezeReads >= 0
    ensures var r := Deliver(g, c, wp);
            && r.gapRun == GapLen(h + [o])
            && (r.frozen <==> GapLen(h + [o]) > g.freezeReads)
            && Holds(r.win, h + [o], if r.frozen then |h| + 1 - GapLen(h + [o]) else |h|)
  {
    hide Holds;
    hide GapLen;
    hide Deliver;
    GapLenSnoc(h, o);
    if c.frozen {
      DeliverFrozen(g, c, wp, h, o);
    } else {
      DeliverOpen(g, c, wp, h, o);
    }
  }

  lemma DeliverFrozen(g: Geometry, c: Ctl, wp: int, h: seq<Obs>, o: Obs)
    requires Shaped(c) && SensedFrom(g, c, h) && o.delivered == (wp > c.lastWp) && g.freezeReads >= 0 && c.frozen
    ensures var r := Deliver(g, c, wp);
            && r.gapRun == (if o.delivered then 0 else GapLen(h) + 1) && r.frozen == !o.delivered
            && Holds(r.win, h + [o], if r.frozen then |h| - GapLen(h) else |h|)
  {
    hide Holds;
    hide GapLen;
    hide WidthsShaped;
    HoldsNothing(h + [o], |h|);
    HoldsLonger(c.win, h, |h| - GapLen(h), o);
  }

  lemma DeliverOpen(g: Geometry, c: Ctl, wp: int, h: seq<Obs>, o: Obs)
    requires Shaped(c) && SensedFrom(g, c, h) && o.delivered == (wp > c.lastWp) && g.freezeReads >= 0 && !c.frozen
    ensures var r := Deliver(g, c, wp);
            && r.gapRun == (if o.delivered then 0 else GapLen(h) + 1) && r.frozen == (r.gapRun > g.freezeReads)
            && Holds(r.win, h + [o], if r.frozen then |h| - GapLen(h) else |h|)
  {
    hide Holds;
    hide GapLen;
    hide WidthsShaped;
    HoldsLonger(c.win, h, |h|, o);
    HoldsRewound(c.win, h, GapLen(h));
    var keep := |c.win.raw| - Min(GapLen(h), |c.win.raw|);
    var kept := Window(c.win.raw[..keep], c.win.virt[..keep]);
    HoldsLonger(kept, h, |h| - GapLen(h), o);
    assert Deliver(g, c, wp).win == if Deliver(g, c, wp).frozen then kept else c.win;
  }

  lemma ObserveSenses(g: Geometry, policy: Policy, c: Ctl, h: seq<Obs>, o: Obs)
    requires Shaped(c) && !c.frozen
    requires c.gapRun == GapLen(h + [o]) <= g.freezeReads && Holds(c.win, h + [o], |h|)
    ensures SensedFrom(g, Observe(g, policy, c, o.fill, o.virtual), h + [o])
  {
    hide Holds;
    hide CloseWindow;
    hide GapLen;
    hide WidthsShaped;
    var h' := h + [o];
    assert |h'| == |h| + 1;
    HoldsMore(c.win, h, o);
    HoldsNothing(h', |h'|);
    var c2 := c.(win := Window(c.win.raw + [o.fill], c.win.virt + [o.virtual]));
    assert Shaped(c2) && |c2.win.raw| > 0;
    CloseWindowFrame(g, policy, c2);
    var r := Observe(g, policy, c, o.fill, o.virtual);
    assert r == if |c2.win.raw| >= g.windowReads then CloseWindow(g, policy, c2) else c2;
    hide Observe;
    hide Shaped;
  }

  lemma SenseSenses(g: Geometry, policy: Policy, c: Ctl, wp: int, h: seq<Obs>)
    requires Sound(g) && Ok(g, c, wp) && c.started && SensedFrom(g, c, h)
    ensures var o := Obs(wp - c.readPos, wp - g.r * c.tick, wp > c.lastWp);
            SensedFrom(g, Sense(g, policy, c, wp, wp - c.readPos), h + [o])
  {
    hide Deliver;
    hide Observe;
    hide Holds;
    hide GapLen;
    var o := Obs(wp - c.readPos, wp - g.r * c.tick, wp > c.lastWp);
    DeliverSenses(g, c, wp, h, o);
    DeliverKeeps(g, c, wp);
    var c1 := Deliver(g, c, wp);
    if !c1.frozen {
      ObserveSenses(g, policy, c1, h, o);
    }
  }

  lemma CloseWindowFrame(g: Geometry, policy: Policy, c: Ctl)
    requires Shaped(c) && |c.win.raw| > 0
    ensures var r := CloseWindow(g, policy, c);
            r.win == EMPTY && r.gapRun == c.gapRun && r.frozen == c.frozen && r.tick == c.tick
  {
    hide Refresh;
    var c1 := Refresh(g, c);
    RefreshFrame(g, c);
  }

  lemma RefreshFrame(g: Geometry, c: Ctl)
    requires Shaped(c) && |c.win.raw| > 0
    ensures var r := Refresh(g, c); r.gapRun == c.gapRun && r.frozen == c.frozen && r.tick == c.tick
  {
  }

  lemma FinishSenses(g: Geometry, c: Ctl, debt: real, fill: int, n: nat, h: seq<Obs>)
    requires SensedFrom(g, c, h)
    ensures SensedFrom(g, Finish(c, debt, fill, n).0, h)
  {
    hide Holds;
  }

  lemma PlaceSenses(g: Geometry, c: Ctl, wp: int, h: seq<Obs>)
    requires Shaped(c) && SensedFrom(g, c, h)
    ensures SensedFrom(g, Place(g, c, wp), h)
  {
  }

  lemma ReadSenses(g: Geometry, policy: Policy, c: Ctl, wp: int, n: nat, h: seq<Obs>)
    requires Sound(g) && Snug(g) && Ok(g, c, wp) && SensedFrom(g, c, h)
    ensures SensedFrom(g, ReadStep(g, policy, c, wp, n).0, h + Sensing(g, c, wp, n))
  {
    hide Place;
    hide Sense;
    hide Finish;
    hide Accrue;
    hide SensedFrom;
    if n == 0 || (c.readPos == 0 && wp < c.setpoint) {
      assert h + Sensing(g, c, wp, n) == h;
    } else {
      PlaceKeeps(g, c, wp);
      PlaceSenses(g, c, wp, h);
      var c1 := Place(g, c, wp);
      SenseSenses(g, policy, c1, wp, h);
      var c2 := Sense(g, policy, c1, wp, wp - c1.readPos);
      FinishSenses(g, c2, Accrue(g, c2), wp - c1.readPos, n, h + Sensing(g, c, wp, n));
    }
  }

  /** Freeze excision, over every run: the open window is the most recent stretch of the
      history, except that once an undelivered run has passed the freeze limit the window
      ends exactly where that run began. Nothing of the outage stays in, nothing before
      it is lost. */
  lemma {:induction false} FreezeExcision(g: Geometry, evs: seq<Event>)
    requires Sound(g) && Snug(g)
    ensures Inv(g, Start(g))
    ensures SensedFrom(g, Exec(g, Start(g), evs).ctl, History(g, Start(g), evs))
  {
    InitialIsOk(g);
    if evs != [] {
      var front, e := evs[..|evs| - 1], evs[|evs| - 1];
      FreezeExcision(g, front);
      var m := Exec(g, Start(g), front);
      var h := History(g, Start(g), front);
      if e.Read? {
        ReadSenses(g, e.policy, m.ctl, m.wp, e.n, h);
      } else {
        assert h + [] == h;
      }
    }
  }

  /** The first delivery after a freeze starts afresh: a window of this one observation, and a drift
      history that is empty exactly when that window is not already full. If it is, the window
      closes at once and the history is that one close. */
  lemma ResumeIsFresh(g: Geometry, policy: Policy, c: Ctl, wp: int, fill: int)
    requires Sound(g) && Ok(g, c, wp) && c.started && c.frozen && wp > c.lastWp
    ensures var r := Sense(g, policy, c, wp, fill);
            && !r.frozen && r.gapRun == 0 && r.meter.debt == 0.0
            && (r.drift == Drift([], []) <==> g.windowReads >= 2)
            && (g.windowReads >= 2 ==>
                  && r.win == Window([fill], [wp - g.r * c.tick])
                  && r.widths == c.widths && r.setpoint == c.setpoint && r.meter == Meter(0.0, 0.0))
            && (g.windowReads <= 1 ==>
                  r.win == EMPTY && r.drift == Drift([c.tick + 1], [wp - g.r * c.tick]))
  {
    var d := Deliver(g, c, wp);
    assert d == c.(tick := c.tick + 1, lastWp := wp, frozen := false, gapRun := 0, win := EMPTY, drift := Drift([], []));
    var virtual := wp - g.r * c.tick;
    var c1 := d.(win := Window([fill], [virtual]));
    assert [] + [fill] == [fill] && [] + [virtual] == [virtual];
    if g.windowReads <= 1 {
      SingleClose(g, policy, c1, virtual);
    }
    hide CloseWindow;
  }

  lemma SingleClose(g: Geometry, policy: Policy, c: Ctl, v: int)
    requires Shaped(c) && |c.win.raw| == 1 && c.win.virt == [v] && c.drift == Drift([], [])
    ensures var r := CloseWindow(g, policy, c);
            && r.drift == Drift([c.tick], [v]) && r.win == EMPTY && r.frozen == c.frozen && r.gapRun == c.gapRun
            && r.meter.debt == c.meter.debt
  {
    hide HoldWidths;
    hide Setpoint;
    assert [v][..0] == [] && Sorted([v]) == [v];
    assert [] + [c.tick] == [c.tick] && [] + [v] == [v];
  }

  predicate OnlyReads(evs: seq<Event>) {
    forall i :: 0 <= i < |evs| ==> evs[i].Read?
  }

  /** What the estimator believes. */
  predicate SameBelief(c: Ctl, r: Ctl) {
    r.widths == c.widths && r.drift == c.drift && r.setpoint == c.setpoint && r.meter == c.meter
  }

  lemma FrozenRead(g: Geometry, policy: Policy, c: Ctl, wp: int, n: nat)
    requires Sound(g) && Snug(g) && Ok(g, c, wp) && c.frozen && c.lastWp == wp
    ensures var r := ReadStep(g, policy, c, wp, n).0;
            SameBelief(c, r) && r.frozen && r.lastWp == wp && Splices(r) == Splices(c)
  {
    ReadKeeps(g, policy, c, wp, n);
    hide Served;
    hide Place;
    hide Sense;
    hide Finish;
    hide Earned;
    if n > 0 && !(c.readPos == 0 && wp < c.setpoint) {
      FrozenPlace(g, c, wp);
      PlaceKeeps(g, c, wp);
      var c1 := Place(g, c, wp);
      FrozenSense(g, policy, c1, wp, wp - c1.readPos);
      var c2 := Sense(g, policy, c1, wp, wp - c1.readPos);
      FrozenFinish(c2, wp - c1.readPos, n);
    }
  }

  lemma FrozenPlace(g: Geometry, c: Ctl, wp: int)
    requires c.frozen && c.lastWp == wp
    ensures var r := Place(g, c, wp); SameBelief(c, r) && r.frozen && r.lastWp == wp && Splices(r) == Splices(c)
  {
  }

  lemma FrozenSense(g: Geometry, policy: Policy, c: Ctl, wp: int, fill: int)
    requires Shaped(c) && c.frozen && c.lastWp == wp
    ensures var r := Sense(g, policy, c, wp, fill);
            SameBelief(c, r) && r.frozen && r.lastWp == wp && Splices(r) == Splices(c)
  {
    hide Observe;
  }

  lemma FrozenFinish(c: Ctl, fill: int, n: nat)
    requires c.frozen && c.meter == Meter(0.0, 0.0)
    ensures var r := Finish(c, 0.0, fill, n).0;
            SameBelief(c, r) && r.frozen && r.lastWp == c.lastWp && Splices(r) == Splices(c)
  {
  }

  /** An outage teaches nothing: while nothing is delivered to a frozen reader, widths, drift
      history, setpoint, rate and debt stay put and no splice is made, however many reads
      the outage lasts. */
  lemma {:induction false} OutageTeachesNothing(g: Geometry, s: State, evs: seq<Event>)
    requires Inv(g, s) && s.ctl.frozen && s.ctl.lastWp == s.wp && OnlyReads(evs)
    ensures var s' := Exec(g, s, evs);
            && SameBelief(s.ctl, s'.ctl) && s'.ctl.frozen
            && s'.wp == s.wp && s'.ctl.lastWp == s.wp && Splices(s'.ctl) == Splices(s.ctl)
  {
    if evs != [] {
      var front, e := evs[..|evs| - 1], evs[|evs| - 1];
      OutageTeachesNothing(g, s, front);
      var m := Exec(g, s, front);
      FrozenRead(g, e.policy, m.ctl, m.wp, e.n);
      hide ReadStep;
    }
  }

  // ---- The recurrence filter -------------------------------------------------

  /** After a close the held width exceeds x exactly when it had not yet narrowed below x, or
      the rank-many widest recorded windows all exceed x. */
  lemma WidthHold(g: Geometry, h: Widths, wlMeas: int, whMeas: int, x: int)
    requires WidthsShaped(h)
    ensures var r := HoldWidths(g, h, wlMeas, whMeas);
            r.wl > x as real <==>
            h.wl - g.narrowStep > x as real || CountAbove(r.wlHist[..r.histLen], x) >= Min(WIDTH_RANK, r.histLen)
  {
    var r := HoldWidths(g, h, wlMeas, whMeas);
    RankFilter(r.wlHist[..r.histLen], WIDTH_RANK, x);
  }

  /** One-off events are not learned: with at least three windows recorded, any two of them,
      however wide, leave the held width and so the setpoint where the others put it. */
  lemma OneOffNotLearned(g: Geometry, policy: Policy, c: Ctl, wp: int, x: int)
    requires Sound(g) && !c.frozen && x >= 0
    requires Ok(g, c.(win := EMPTY), wp) && |c.win.raw| == |c.win.virt| > 0
    requires c.widths.wl <= x as real
    requires var h := HoldWidths(g, c.widths, MeasuredLow(g, c.win.virt), MeasuredHigh(c.win.virt));
             h.histLen >= WIDTH_RANK && CountAbove(h.wlHist[..h.histLen], x) <= 2
    ensures CloseWindow(g, policy, c).widths.wl <= x as real
    ensures CloseWindow(g, policy, c).setpoint <= Max(g.spBase + Trunc(g.kLow * x as real + 0.5), g.flDecl)
  {
    hide HoldWidths;
    hide MeasuredLow;
    hide MeasuredHigh;
    hide Setpoint;
    hide Trunc;
    WidthHold(g, c.widths, MeasuredLow(g, c.win.virt), MeasuredHigh(c.win.virt), x);
    CloseWindowKeeps(g, policy, c, wp);
    ClosedWith(g, policy, c);
    hide CloseWindow;
    WiderSetpoint(g, CloseWindow(g, policy, c).widths.wl, x as real);
  }

  lemma ClosedWith(g: Geometry, policy: Policy, c: Ctl)
    requires Shaped(c) && |c.win.raw| > 0
    ensures var h := HoldWidths(g, c.widths, MeasuredLow(g, c.win.virt), MeasuredHigh(c.win.virt));
            CloseWindow(g, policy, c).widths == h && CloseWindow(g, policy, c).setpoint == Setpoint(g, h.wl)
  {
    hide HoldWidths;
    hide MeasuredLow;
    hide MeasuredHigh;
    hide Setpoint;
  }

  lemma WiderSetpoint(g: Geometry, wl: real, x: real)
    requires Sound(g) && 0.0 <= wl <= x
    ensures Setpoint(g, wl) <= Max(g.spBase + Trunc(g.kLow * x + 0.5), g.flDecl)
  {
    hide Trunc;
    ScaledUp(g.kLow, wl, x);
    TruncMonotone(g.kLow * wl + 0.5, g.kLow * x + 0.5);
  }

  lemma TruncMonotone(a: real, b: real)
    requires 0.0 <= a <= b
    ensures Trunc(a) <= Trunc(b)
  {
  }

  lemma ScaledUp(k: real, a: real, b: real)
    requires k >= 0.0 && 0.0 <= a <= b
    ensures 0.0 <= k * a <= k * b
  {
    NonNegativeProduct(k, a);
    NonNegativeProduct(k, b - a);
    assert k * (b - a) == k * b - k * a;
  }
}
