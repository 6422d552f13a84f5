/** What an outage teaches before the reader freezes: exactly when a window closes on the dips of
    reads without a delivery, and what the estimate then holds. */
module JitterOutage {
  import opened Order
  import opened JitterConfig
  import opened JitterControl
  import opened JitterRuns
  import opened JitterSensing
  import opened JitterCramped

  /** The virtual signal of j reads from the given tick on with nothing delivered. */
  function Dips(g: Geometry, wp: int, tick: int, j: nat): (r: seq<int>)
    ensures |r| == j
  {
    seq(j, i => wp - g.r * (tick + i))
  }

  lemma DipsGrow(g: Geometry, wp: int, tick: int, j: nat)
    ensures Dips(g, wp, tick, j + 1) == Dips(g, wp, tick, j) + [wp - g.r * (tick + j)]
  {
  }

  /** A reader in the middle of playing, just after a delivery, with nothing pending. */
  predicate Playing(g: Geometry, s: State) {
    && Inv(g, s) && s.ctl.readPos > 0 && s.ctl.lastWp == s.wp && s.ctl.gapRun == 0 && !s.ctl.frozen
    && s.ctl.pendingTrim == 0 && Clears(g, s.wp - s.ctl.readPos)
  }

  ghost predicate RealReads(evs: seq<Event>) {
    forall i :: 0 <= i < |evs| ==> evs[i].Read? && evs[i].n > 0
  }

  /** j reads into an outage that has not yet filled the window: the window has taken j dips and
      nothing has been learned. */
  predicate Waited(g: Geometry, s: State, r: State, j: nat) {
    && Inv(g, r) && r.wp == s.wp && r.ctl.lastWp == s.wp && r.ctl.gapRun == j && !r.ctl.frozen
    && r.ctl.tick == s.ctl.tick + j && r.ctl.pendingTrim == 0 && r.ctl.started
    && 0 < s.ctl.readPos <= r.ctl.readPos && Clears(g, r.wp - r.ctl.readPos)
    && r.ctl.win.virt == s.ctl.win.virt + Dips(g, s.wp, s.ctl.tick, j)
    && SameEstimate(s.ctl, r.ctl)
  }

  /** The estimator's state: held widths, drift history and setpoint. */
  predicate SameEstimate(c: Ctl, r: Ctl) {
    r.widths == c.widths && r.drift == c.drift && r.setpoint == c.setpoint
  }

  /** Placement has nothing to do. */
  lemma StaysPut(g: Geometry, c: Ctl, wp: int)
    requires c.readPos > 0 && c.pendingTrim == 0 && Clears(g, wp - c.readPos)
    ensures Place(g, c, wp) == c
  {
  }

  lemma FinishEstimate(c: Ctl, debt: real, fill: int, n: nat)
    ensures var r := Finish(c, debt, fill, n).0;
            && SameEstimate(c, r) && r.win == c.win && r.lastWp == c.lastWp && r.gapRun == c.gapRun
            && r.frozen == c.frozen && r.tick == c.tick && r.pendingTrim == c.pendingTrim && r.started == c.started
  {
  }

  /** One more read without a delivery, short of the freeze. */
  lemma QuietSense(g: Geometry, policy: Policy, c: Ctl, wp: int, fill: int)
    requires Shaped(c) && c.started && !c.frozen && c.lastWp == wp && c.gapRun + 1 <= g.freezeReads
    ensures var r := Sense(g, policy, c, wp, fill);
            var c1 := c.(tick := c.tick + 1, gapRun := c.gapRun + 1,
                         win := Window(c.win.raw + [fill], c.win.virt + [wp - g.r * c.tick]));
            && Shaped(c1) && |c1.win.raw| > 0
            && r == if |c1.win.raw| >= g.windowReads then CloseWindow(g, policy, c1) else c1
  {
    hide CloseWindow;
  }

  lemma QuietRead(g: Geometry, s: State, r: State, j: nat, n: nat, policy: Policy)
    requires Playing(g, s) && Waited(g, s, r, j) && n > 0 && j + 1 <= g.freezeReads
    requires |s.ctl.win.virt| + j + 1 < g.windowReads
    ensures Waited(g, s, Step(g, r, Read(n, policy)), j + 1)
  {
    var c, wp := r.ctl, r.wp;
    var fill := wp - c.readPos;
    StaysPut(g, c, wp);
    QuietSense(g, policy, c, wp, fill);
    DipsGrow(g, s.wp, s.ctl.tick, j);
    ReadKeeps(g, policy, c, wp, n);
    var c1 := Sense(g, policy, c, wp, fill);
    FinishEstimate(c1, Accrue(g, c1), fill, n);
    assert s.ctl.win.virt + Dips(g, wp, s.ctl.tick, j) + [wp - g.r * c.tick] == s.ctl.win.virt + Dips(g, wp, s.ctl.tick, j + 1);
    hide Place;
    hide Sense;
    hide Finish;
    hide Accrue;
    hide Jump;
    hide Dips;
  }

  /** How long a window is when it closes: at least one read. */
  function WindowLength(g: Geometry): nat {
    Max(1, g.windowReads)
  }

  /** The drift history with one more close: its tick, and the median of its window. */
  function OneMoreClose(d: Drift, tick: int, window: seq<int>): Drift
    requires |window| > 0
  {
    Drift(KeepLast(d.ticks + [tick]), KeepLast(d.vals + [Median(window)]))
  }

  lemma CloseAdds(g: Geometry, policy: Policy, c: Ctl)
    requires Shaped(c) && |c.win.raw| > 0
    ensures var r := CloseWindow(g, policy, c);
            && r.win == EMPTY && r.drift == OneMoreClose(c.drift, c.tick, c.win.virt)
            && r.widths == HoldWidths(g, c.widths, MeasuredLow(g, c.win.virt), MeasuredHigh(c.win.virt))
  {
    hide HoldWidths;
    hide MeasuredLow;
    hide MeasuredHigh;
    hide Median;
    hide Setpoint;
  }

  /** The read that fills the window closes it on everything in it, dips included. */
  lemma FillingRead(g: Geometry, s: State, r: State, j: nat, n: nat, policy: Policy)
    requires Playing(g, s) && Waited(g, s, r, j) && n > 0 && j + 1 <= g.freezeReads
    requires |s.ctl.win.virt| + j + 1 == WindowLength(g)
    ensures Learned(g, s, Step(g, r, Read(n, policy)), j + 1)
  {
    var c, wp := r.ctl, r.wp;
    var fill := wp - c.readPos;
    StaysPut(g, c, wp);
    QuietSense(g, policy, c, wp, fill);
    DipsGrow(g, s.wp, s.ctl.tick, j);
    var window := s.ctl.win.virt + Dips(g, wp, s.ctl.tick, j + 1);
    assert c.win.virt + [wp - g.r * c.tick] == window;
    var full := c.(tick := c.tick + 1, gapRun := c.gapRun + 1, win := Window(c.win.raw + [fill], window));
    CloseAdds(g, policy, full);
    var c1 := Sense(g, policy, c, wp, fill);
    FinishEstimate(c1, Accrue(g, c1), fill, n);
    hide Place;
    hide Sense;
    hide CloseWindow;
    hide Finish;
    hide Accrue;
    hide Jump;
    hide Dips;
    hide OneMoreClose;
    hide HoldWidths;
  }

  /** The estimate now rests on a window whose last j values are dips. */
  predicate Learned(g: Geometry, s: State, r: State, j: nat) {
    && j > 0 && WidthsShaped(s.ctl.widths)
    && var window := s.ctl.win.virt + Dips(g, s.wp, s.ctl.tick, j);
    && r.ctl.win == EMPTY && r.ctl.drift == OneMoreClose(s.ctl.drift, s.ctl.tick + j, window)
    && r.ctl.widths == HoldWidths(g, s.ctl.widths, MeasuredLow(g, window), MeasuredHigh(window))
  }

  /** The read that freezes throws the dips away. */
  lemma FreezingRead(g: Geometry, s: State, r: State, n: nat, policy: Policy)
    requires Playing(g, s) && Waited(g, s, r, g.freezeReads) && n > 0
    ensures var r' := Step(g, r, Read(n, policy));
            SameEstimate(s.ctl, r'.ctl) && r'.ctl.frozen && r'.ctl.lastWp == r'.wp == s.wp
  {
    var c, wp := r.ctl, r.wp;
    var fill := wp - c.readPos;
    StaysPut(g, c, wp);
    assert Deliver(g, c, wp).frozen && SameEstimate(c, Deliver(g, c, wp)) && Deliver(g, c, wp).lastWp == wp;
    var c1 := Sense(g, policy, c, wp, fill);
    assert c1 == Deliver(g, c, wp);
    FinishEstimate(c1, Accrue(g, c1), fill, n);
    hide Place;
    hide Sense;
    hide Deliver;
    hide Finish;
    hide Accrue;
    hide Jump;
    hide Dips;
  }

  lemma {:induction false} ExecJoin(g: Geometry, s: State, a: seq<Event>, b: seq<Event>)
    requires Inv(g, s)
    ensures Exec(g, s, a + b) == Exec(g, Exec(g, s, a), b)
  {
    hide Step;
    hide Inv;
    if b == [] {
      assert a + b == a;
    } else {
      assert (a + b)[..|a + b| - 1] == a + b[..|b| - 1];
      ExecJoin(g, s, a, b[..|b| - 1]);
    }
  }

  lemma WaitStart(g: Geometry, s: State)
    requires Playing(g, s)
    ensures Waited(g, s, s, 0)
  {
    assert s.ctl.win.virt + Dips(g, s.wp, s.ctl.tick, 0) == s.ctl.win.virt;
  }

  lemma {:induction false} WaitRun(g: Geometry, s: State, evs: seq<Event>)
    requires Playing(g, s) && RealReads(evs) && |evs| <= g.freezeReads && |s.ctl.win.virt| + |evs| < WindowLength(g)
    ensures Waited(g, s, Exec(g, s, evs), |evs|)
  {
    hide Waited;
    hide Step;
    if evs == [] {
      WaitStart(g, s);
    } else {
      var k := |evs| - 1;
      WaitRun(g, s, evs[..k]);
      QuietRead(g, s, Exec(g, s, evs[..k]), k, evs[k].n, evs[k].policy);
    }
  }

  /** The read after the last tolerated one freezes the reader, with nothing learned. */
  lemma WaitedOut(g: Geometry, s: State, evs: seq<Event>)
    requires Playing(g, s) && RealReads(evs) && g.freezeReads >= 0 && |evs| == g.freezeReads + 1
    requires |s.ctl.win.virt| + g.freezeReads < WindowLength(g)
    ensures var r := Exec(g, s, evs); SameEstimate(s.ctl, r.ctl) && r.ctl.frozen && r.ctl.lastWp == r.wp
  {
    hide Step;
    hide Waited;
    hide Ok;
    var f := g.freezeReads;
    WaitRun(g, s, evs[..f]);
    FreezingRead(g, s, Exec(g, s, evs[..f]), evs[f].n, evs[f].policy);
  }

  lemma WaitedSame(g: Geometry, s: State, r: State, j: nat)
    requires Waited(g, s, r, j)
    ensures SameEstimate(s.ctl, r.ctl)
  {
  }

  /** An outage that does not fill the open window before the freeze teaches nothing, however long
      it lasts. */
  lemma OutageUnheard(g: Geometry, s: State, evs: seq<Event>)
    requires Playing(g, s) && RealReads(evs) && g.freezeReads >= 0
    requires |s.ctl.win.virt| + Min(|evs|, g.freezeReads) < WindowLength(g)
    ensures SameEstimate(s.ctl, Exec(g, s, evs).ctl)
  {
    hide Exec;
    hide Waited;
    hide Ok;
    if |evs| <= g.freezeReads {
      WaitRun(g, s, evs);
      WaitedSame(g, s, Exec(g, s, evs), |evs|);
    } else {
      var front, rest := evs[..g.freezeReads + 1], evs[g.freezeReads + 1..];
      assert evs == front + rest;
      WaitedOut(g, s, front);
      ExecJoin(g, s, front, rest);
      OutageTeachesNothing(g, Exec(g, s, front), rest);
    }
  }

  /** One that does reaches an estimate: at the read that fills the window it closes with all the
      dips so far in it. */
  lemma OutageHeard(g: Geometry, s: State, evs: seq<Event>)
    requires Playing(g, s) && RealReads(evs)
    requires |s.ctl.win.virt| + Min(|evs|, g.freezeReads) >= WindowLength(g)
    ensures var j := WindowLength(g) - |s.ctl.win.virt|;
            0 < j <= |evs| && Learned(g, s, Exec(g, s, evs[..j]), j)
  {
    hide Learned;
    hide Step;
    hide Exec;
    hide Waited;
    PlayingWindow(g, s);
    hide Playing;
    hide Ok;
    var j := WindowLength(g) - |s.ctl.win.virt|;
    var front, e := evs[..j - 1], evs[j - 1];
    assert evs[..j] == front + [e];
    WaitRun(g, s, front);
    ExecSnoc(g, s, front, e);
    FillingRead(g, s, Exec(g, s, front), j - 1, e.n, e.policy);
  }

  lemma PlayingWindow(g: Geometry, s: State)
    requires Playing(g, s)
    ensures |s.ctl.win.virt| < WindowLength(g) && Inv(g, s)
  {
  }

  // ---- A run that learns an outage ------------------------------------------------------------------

  lemma StartRead(g: Geometry, wp: int)
    requires Sound(g) && Roomy(g) && wp == Initial(g).setpoint + 1
    ensures Shaped(Initial(g)) && Initial(g).setpoint >= 2
    ensures var c := ReadStep(g, Still, Initial(g), wp, 1).0; AtRest(g, c, wp) && c.readPos == 2
  {
    InitialIsOk(g);
    var p := Place(g, Initial(g), wp);
    PlaceKeeps(g, Initial(g), wp);
    assert p.readPos == 1;
    hide Place;
    hide Serve;
    RestfulServe(g, p, wp, 1);
  }

  /** A read after a delivery, with nothing to place. */
  lemma DeliveredRead(g: Geometry, c: Ctl, wp: int)
    requires Sound(g) && AtRest(g, c, wp) && c.readPos > 0 && c.lastWp < wp && 1 <= wp - c.readPos && Clears(g, wp - c.readPos)
    ensures var r := ReadStep(g, Still, c, wp, 1).0;
            && AtRest(g, r, wp) && r.readPos == c.readPos + 1
            && r.gapRun == 0 && r.lastWp == wp && !r.frozen
  {
    StaysPut(g, c, wp);
    var fill := wp - c.readPos;
    RestfulServe(g, c, wp, 1);
    DeliveredSense(g, c, wp, fill);
    var c1 := Sense(g, Still, c, wp, fill);
    FinishEstimate(c1, Accrue(g, c1), fill, 1);
    hide Place;
    hide Sense;
    hide Finish;
    hide Accrue;
  }

  lemma DeliveredSense(g: Geometry, c: Ctl, wp: int, fill: int)
    requires Shaped(c) && c.started && c.lastWp < wp
    ensures var r := Sense(g, Still, c, wp, fill); r.gapRun == 0 && r.lastWp == wp && !r.frozen
  {
    hide HoldWidths;
    hide Setpoint;
  }

  /** Fill to the setpoint, start, deliver once more and read it. */
  function DeliveredRun(g: Geometry): seq<Event>
    requires Initial(g).setpoint >= 0
  {
    [Write(Initial(g).setpoint + 1), Read(1, Still), Write(1), Read(1, Still)]
  }

  lemma ExecFour(g: Geometry, a: Event, b: Event, c: Event, d: Event)
    requires Inv(g, Start(g))
    ensures Exec(g, Start(g), [a, b, c, d]) == Step(g, Step(g, Step(g, Step(g, Start(g), a), b), c), d)
  {
    hide Step;
    hide Exec;
    hide Inv;
    ExecNone(g, Start(g));
    ExecSnoc(g, Start(g), [], a);
    ExecSnoc(g, Start(g), [a], b);
    ExecSnoc(g, Start(g), [a, b], c);
    ExecSnoc(g, Start(g), [a, b, c], d);
    assert [] + [a] == [a] && [a] + [b] == [a, b] && [a, b] + [c] == [a, b, c] && [a, b, c] + [d] == [a, b, c, d];
  }

  lemma DeliveredRunPlays(g: Geometry)
    requires Sound(g) && Roomy(g)
    ensures Inv(g, Start(g)) && Initial(g).setpoint >= 2
    ensures Playing(g, Exec(g, Start(g), DeliveredRun(g)))
  {
    InitialIsOk(g);
    var sp := Initial(g).setpoint;
    StartRead(g, sp + 1);
    ValveClearance(g);
    assert g.spBase <= sp <= g.spMax;
    hide ReadStep;
    hide Jump;
    hide Exec;
    hide Initial;
    var c1 := ReadStep(g, Still, Initial(g), sp + 1, 1).0;
    RestLater(g, c1, sp + 1, sp + 2);
    DeliveredRead(g, c1, sp + 2);
    hide AtRest;
    hide Ok;
    FourSteps(g, sp);
    var s := Exec(g, Start(g), DeliveredRun(g));
    RestIs(g, s.ctl, s.wp);
  }

  lemma FourSteps(g: Geometry, sp: int)
    requires Inv(g, Start(g)) && sp == Initial(g).setpoint >= 0 && Shaped(Initial(g))
    ensures var c1 := ReadStep(g, Still, Initial(g), sp + 1, 1).0;
            var s := Exec(g, Start(g), DeliveredRun(g));
            Shaped(c1) && s.ctl == ReadStep(g, Still, c1, sp + 2, 1).0 && s.wp == sp + 2
  {
    hide ReadStep;
    hide Jump;
    hide Exec;
    ExecFour(g, Write(sp + 1), Read(1, Still), Write(1), Read(1, Still));
    var s1 := Step(g, Start(g), Write(sp + 1));
    assert s1.ctl == Initial(g) && s1.wp == sp + 1;
    var s2 := Step(g, s1, Read(1, Still));
    assert s2.ctl == ReadStep(g, Still, Initial(g), sp + 1, 1).0 && s2.wp == sp + 1;
    hide Initial;
    assert Shaped(s2.ctl);
    hide Ok;
    hide Shaped;
    var s3 := Step(g, s2, Write(1));
    assert s3.ctl == s2.ctl && s3.wp == sp + 2;
  }

  lemma RestLater(g: Geometry, c: Ctl, wp: int, later: int)
    requires AtRest(g, c, wp) && wp <= later
    ensures AtRest(g, c, later) && c.lastWp <= wp
  {
  }

  lemma RestIs(g: Geometry, c: Ctl, wp: int)
    requires AtRest(g, c, wp)
    ensures c.pendingTrim == 0
  {
  }

  /** In a reader so slow that a window is one read long, the first read of an outage is learned. */
  lemma SlowReaderLearnsOutage(g: Geometry)
    requires Sound(g) && Roomy(g) && g.windowReads <= 1
    ensures Inv(g, Start(g)) && Initial(g).setpoint >= 2
    ensures var s := Exec(g, Start(g), DeliveredRun(g)); Learned(g, s, Exec(g, s, [Read(1, Still)]), 1)
  {
    hide Learned;
    hide Exec;
    hide Playing;
    hide Ok;
    DeliveredRunPlays(g);
    hide Initial;
    hide DeliveredRun;
    var s, evs := Exec(g, Start(g), DeliveredRun(g)), [Read(1, Still)];
    PlayingWindow(g, s);
    assert evs[..1] == evs;
    OutageHeard(g, s, evs);
  }
}
