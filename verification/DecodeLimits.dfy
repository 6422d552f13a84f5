/** Where decoding from the outside stops: runs from construction with a read the decoder cannot
    place, and with a jump it cannot hear when it happens. Both use a reader so slow that every
    read closes a window. */
module DecodeLimits {
  import opened JitterConfig
  import opened JitterControl
  import opened JitterRuns
  import opened DecodeExact

  function Always(rate: real, trim: int): Policy {
    (c: Ctl) => (rate, trim)
  }

  /** Every read closes a window, and there is only one setpoint. */
  predicate EveryReadDecides(g: Geometry) {
    Sound(g) && Roomy(g) && g.windowReads <= 1 && g.spMax == g.spBase
  }

  /** Two seconds per read, 5 ms per write, everything else left to the constructor. */
  function SlowReader(): Settings {
    Settings(48000, 1, 0, 0, 0, 240, 96000, 0, 1.0, 0)
  }

  lemma SlowReaderDecides()
    ensures var g := Derive(SlowReader(), 240);
            && g.Some? && EveryReadDecides(g.value) && Earned(g.value, g.value.rateCap) == 40.0
            && g.value.spBase + 200 + g.value.w + g.value.r <= g.value.capacity
  {
    assert MsToFrames(48000, 1.0) == 48 && MsToFrames(48000, 30.0) == 1440 && MsToFrames(48000, 60.0) == 2880;
    DerivedGeometry(SlowReader(), 240);
    var g := Derive(SlowReader(), 240).value;
    assert g.w == 240 && g.r == 96000 && g.spBase == 96240 && g.capacity == 396576;
  }

  /** The first read, at a full setpoint: the decision is in force for the read itself. */
  lemma FirstDecision(g: Geometry, rate: real, trim: nat)
    requires EveryReadDecides(g)
    ensures var wp := g.spBase;
            var p := Place(g, Initial(g), wp);
            && Initial(g).setpoint == wp && Shaped(p) && p.readPos == 0
            && var c := Sense(g, Always(rate, trim), p, wp, wp);
            && Ok(g, c, wp) && c.readPos == 0 && c.started && !c.frozen && c.setpoint == wp
            && c.meter == Meter(Clamp(rate, g.rateCap), 0.0) && c.pendingTrim == trim
  {
    InitialIsOk(g);
    var wp := g.spBase;
    var p := Place(g, Initial(g), wp);
    PlaceKeeps(g, Initial(g), wp);
    SenseKeeps(g, Always(rate, trim), p, wp, wp);
    assert p.readPos == 0 && p.lastWp == wp && p.gapRun == 0 && p.win == EMPTY;
    hide Place;
    hide Refresh;
    var d := Deliver(g, p, wp);
    var c := d.(win := Window([wp], [wp - g.r * p.tick]));
    assert [] + [wp] == [wp];
    RefreshRest(g, c);
  }

  lemma RefreshRest(g: Geometry, c: Ctl)
    requires Shaped(c) && |c.win.raw| > 0
    ensures Refresh(g, c).meter == c.meter && Refresh(g, c).pendingTrim == c.pendingTrim && Refresh(g, c).readPos == c.readPos
    ensures Refresh(g, c).started == c.started && Refresh(g, c).frozen == c.frozen
  {
  }

  // ---- A read the decoder cannot place -----------------------------------------------------------

  /** Fill to the setpoint, then read one frame under a controller that wants to drop. */
  function LoneMarkerRun(g: Geometry): seq<Event>
    requires g.spBase >= 0
  {
    [Write(g.spBase), Read(1, Always(g.rateCap, 0))]
  }

  lemma FirstReadDrops(g: Geometry)
    requires EveryReadDecides(g) && Earned(g, g.rateCap) >= 1.0
    ensures Shaped(Initial(g)) && Initial(g).setpoint == g.spBase
    ensures ReadStep(g, Always(g.rateCap, 0), Initial(g), g.spBase, 1).1 == Drop(0)
  {
    FirstDecision(g, g.rateCap, 0);
    hide Place;
    hide Sense;
    hide Earned;
    InitialIsOk(g);
  }

  /** The run's only read is blind: its whole output is one splice average before any position was
      heard, and the decoder's ledger is wrong from then on. */
  lemma LoneMarkerMisheard(g: Geometry)
    requires EveryReadDecides(g) && Earned(g, g.rateCap) >= 1.0
    ensures Inv(g, Start(g)) && AllInRange(g, LoneMarkerRun(g))
    ensures !Exact(RigExec(g, LoneMarkerRun(g)))
  {
    InitialIsOk(g);
    var evs := LoneMarkerRun(g);
    assert evs[..0] == [] && evs[..1][..0] == [] && evs[..2] == evs;
    FilledRig(g);
    assert evs[..1] == [Write(g.spBase)];
    FirstReadDrops(g);
    hide RigExec;
    hide Exact;
    hide ReadStep;
    assert Blind(g, RigExec(g, evs[..1]), evs[1]);
    hide Blind;
    ExactUnlessBlind(g, evs, 1);
  }

  lemma FilledRig(g: Geometry)
    requires EveryReadDecides(g) && Inv(g, Start(g))
    ensures var r := RigExec(g, [Write(g.spBase)]);
            r == FreshRig(g).(s := Start(g).(wp := g.spBase)) && Exact(r)
    ensures RigExec(g, []) == FreshRig(g)
  {
    hide ReadStep;
    assert [Write(g.spBase)][..0] == [];
  }

  // ---- A jump the decoder cannot hear when it happens ---------------------------------------------

  /** Fill to the setpoint, read a frame under a controller that asks for a trim, write on, and read
      more than the fill the trim leaves. */
  function SilentJumpRun(g: Geometry): seq<Event>
    requires g.spBase >= 0
  {
    [Write(g.spBase), Read(1, Always(0.0, 120)), Write(200)]
  }

  lemma FirstReadTrims(g: Geometry)
    requires EveryReadDecides(g)
    ensures Shaped(Initial(g)) && Initial(g).setpoint == g.spBase
    ensures var c := ReadStep(g, Always(0.0, 120), Initial(g), g.spBase, 1).0;
            c.readPos == 1 && c.pendingTrim == 120 && c.setpoint == g.spBase && Ok(g, c, g.spBase)
  {
    FirstDecision(g, 0.0, 120);
    var c := Sense(g, Always(0.0, 120), Place(g, Initial(g), g.spBase), g.spBase, g.spBase);
    assert Accrue(g, c) == 0.0;
    hide Place;
    hide Sense;
    hide Accrue;
    InitialIsOk(g);
  }

  /** The read after the run moves the head by the whole trim and plays nothing: no snap is heard
      at it, although it jumped. */
  lemma LongReadJumpsSilently(g: Geometry)
    requires EveryReadDecides(g) && g.spBase + 200 + g.w + g.r <= g.capacity
    ensures Inv(g, Start(g))
    ensures var s := Exec(g, Start(g), SilentJumpRun(g));
            var n := g.spBase + 100;
            && Jump(g, s.ctl, s.wp, n) == 120
            && !ReadStep(g, Always(0.0, 0), s.ctl, s.wp, n).1.Produces()
  {
    InitialIsOk(g);
    FirstReadTrims(g);
    hide ReadStep;
    hide Exec;
    hide Ok;
    hide Jump;
    var a, b, c := Write(g.spBase), Read(1, Always(0.0, 120)), Write(200);
    ExecThree(g, a, b, c);
    assert [a, b, c] == SilentJumpRun(g);
    var s := Exec(g, Start(g), SilentJumpRun(g));
    LongerWrite(g, s.ctl, g.spBase, s.wp);
    SilentTrim(g, s.ctl, s.wp);
  }

  lemma LongerWrite(g: Geometry, c: Ctl, wp: int, later: int)
    requires Ok(g, c, wp) && wp <= later
    ensures Ok(g, c, later)
  {
  }

  lemma ExecThree(g: Geometry, a: Event, b: Event, c: Event)
    requires Inv(g, Start(g))
    ensures Exec(g, Start(g), [a, b, c]) == Step(g, Step(g, Step(g, Start(g), a), b), c)
  {
    hide Step;
    hide Exec;
    hide Inv;
    ExecNone(g, Start(g));
    ExecSnoc(g, Start(g), [], a);
    ExecSnoc(g, Start(g), [a], b);
    ExecSnoc(g, Start(g), [a, b], c);
    assert [] + [a] == [a] && [a] + [b] == [a, b] && [a, b] + [c] == [a, b, c];
  }

  lemma SilentTrim(g: Geometry, c: Ctl, wp: int)
    requires EveryReadDecides(g) && g.spBase + 200 + g.w + g.r <= g.capacity
    requires Ok(g, c, wp) && c.readPos == 1 && c.pendingTrim == 120 && c.setpoint == g.spBase && wp == g.spBase + 200
    ensures Jump(g, c, wp, g.spBase + 100) == 120
    ensures !ReadStep(g, Always(0.0, 0), c, wp, g.spBase + 100).1.Produces()
  {
    assert Jump(g, c, wp, g.spBase + 100) == 120;
    JumpPlays(g, Always(0.0, 0), c, wp, g.spBase + 100);
  }
}
