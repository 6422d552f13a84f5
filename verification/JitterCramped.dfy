/** Rings too small for their geometry: exactly when the read head can move back, with runs from
    construction that make it, and exactly when a capacity snap trips its valve again. */
module JitterCramped {
  import opened JitterConfig
  import opened JitterControl
  import opened JitterRuns
  import opened JitterDirection

  // ---- Runs in any ring ---------------------------------------------------------------------

  lemma ReadShaped(g: Geometry, policy: Policy, c: Ctl, wp: int, n: nat)
    requires Sound(g) && Shaped(c)
    ensures Shaped(ReadStep(g, policy, c, wp, n).0)
  {
    hide Place;
    hide Sense;
    hide Accrue;
    hide Finish;
    hide Shaped;
    if n > 0 && !(c.readPos == 0 && wp < c.setpoint) {
      PlaceShaped(g, c, wp);
      var c1 := Place(g, c, wp);
      SenseShaped(g, policy, c1, wp, wp - c1.readPos);
      var c2 := Sense(g, policy, c1, wp, wp - c1.readPos);
      FinishShaped(c2, Accrue(g, c2), wp - c1.readPos, n);
    }
  }

  lemma PlaceShaped(g: Geometry, c: Ctl, wp: int)
    requires Shaped(c)
    ensures Shaped(Place(g, c, wp))
  {
  }

  lemma FinishShaped(c: Ctl, debt: real, fill: int, n: nat)
    requires Shaped(c)
    ensures Shaped(Finish(c, debt, fill, n).0)
  {
  }

  lemma SenseShaped(g: Geometry, policy: Policy, c: Ctl, wp: int, fill: int)
    requires Shaped(c)
    ensures Shaped(Sense(g, policy, c, wp, fill))
  {
    hide NthLargest;
    hide Setpoint;
  }

  /** One call, in any ring: the reader's state and the write position. */
  function Call(g: Geometry, c: Ctl, wp: int, e: Event): (r: (Ctl, int))
    requires Sound(g) && Shaped(c)
    ensures Shaped(r.0)
  {
    match e
    case Write(k) => (c, wp + k)
    case Read(n, policy) =>
      ReadShaped(g, policy, c, wp, n);
      (ReadStep(g, policy, c, wp, n).0, wp)
  }

  function RunOf(g: Geometry, evs: seq<Event>): (r: (Ctl, int))
    requires Sound(g)
    ensures Shaped(r.0)
  {
    if evs == [] then (Initial(g), 0)
    else
      var m := RunOf(g, evs[..|evs| - 1]);
      Call(g, m.0, m.1, evs[|evs| - 1])
  }

  /** No write is longer than the ring. */
  ghost predicate Fitting(g: Geometry, evs: seq<Event>) {
    forall i :: 0 <= i < |evs| && evs[i].Write? ==> evs[i].k <= g.capacity
  }

  /** No call of the run moves the read head back. */
  ghost predicate NeverBack(g: Geometry, evs: seq<Event>)
    requires Sound(g)
  {
    forall i :: 0 <= i < |evs| ==> RunOf(g, evs[..i]).0.readPos <= RunOf(g, evs[..i + 1]).0.readPos
  }

  /** In a snug ring these runs are the ones the invariant is about. */
  lemma {:induction false} SnugRuns(g: Geometry, evs: seq<Event>)
    requires Sound(g) && Snug(g)
    ensures Inv(g, Start(g))
    ensures RunOf(g, evs) == (Exec(g, Start(g), evs).ctl, Exec(g, Start(g), evs).wp)
  {
    InitialIsOk(g);
    hide Call;
    hide Step;
    hide Shaped;
    hide Ok;
    if evs != [] {
      SnugRuns(g, evs[..|evs| - 1]);
      CallIsStep(g, Exec(g, Start(g), evs[..|evs| - 1]), evs[|evs| - 1]);
    }
  }

  lemma CallIsStep(g: Geometry, s: State, e: Event)
    requires Inv(g, s)
    ensures Call(g, s.ctl, s.wp, e) == (Step(g, s, e).ctl, Step(g, s, e).wp)
  {
    hide ReadStep;
    hide Jump;
  }

  lemma SnugNeverBack(g: Geometry, evs: seq<Event>)
    requires Sound(g) && Snug(g)
    ensures NeverBack(g, evs)
  {
    forall i | 0 <= i < |evs|
      ensures RunOf(g, evs[..i]).0.readPos <= RunOf(g, evs[..i + 1]).0.readPos
    {
      SnugRuns(g, evs[..i]);
      SnugRuns(g, evs[..i + 1]);
      assert evs[..i + 1][..i] == evs[..i];
      hide RunOf;
    }
  }

  // ---- The run that goes back ------------------------------------------------------------------

  /** A controller that never acts. */
  function Still(c: Ctl): (real, int) {
    (0.0, 0)
  }

  function SingleFrames(k: nat): (evs: seq<Event>)
    ensures |evs| == k && forall i :: 0 <= i < k ==> evs[i] == Write(1)
  {
    seq(k, _ => Write(1))
  }

  lemma {:induction false} OnlyWrites(g: Geometry, k: nat)
    requires Sound(g)
    ensures RunOf(g, SingleFrames(k)) == (Initial(g), k)
  {
    if k > 0 {
      OnlyWrites(g, k - 1);
      assert SingleFrames(k)[..k - 1] == SingleFrames(k - 1);
    }
  }

  /** In a ring that is not snug there is only one setpoint. */
  lemma OneSetpoint(g: Geometry)
    requires Sound(g) && !Snug(g)
    ensures g.spMax == g.spBase && Initial(g).setpoint == g.spBase
  {
    InitialIsOk(g);
  }

  /** With the still controller a read of a state at rest plays plainly or underruns, and leaves
      the state at rest. */
  predicate AtRest(g: Geometry, c: Ctl, wp: int) {
    Ok(g, c, wp) && c.meter == Meter(0.0, 0.0) && c.pendingTrim == 0
  }

  lemma RestfulServe(g: Geometry, c: Ctl, wp: int, n: nat)
    requires Sound(g) && AtRest(g, c, wp) && c.started && n > 0
    ensures var r := Serve(g, Still, c, wp, n).0;
            AtRest(g, r, wp) && r.readPos == c.readPos + if wp - c.readPos < n then 0 else n
  {
    hide Sense;
    hide Accrue;
    hide Finish;
    assert Shaped(c);
    hide Ok;
    RestfulSense(g, c, wp, wp - c.readPos);
    var c1 := Sense(g, Still, c, wp, wp - c.readPos);
    NothingEarned(g, c1);
    RestfulFinish(g, c1, wp, n);
  }

  lemma RestfulSense(g: Geometry, c: Ctl, wp: int, fill: int)
    requires Sound(g) && AtRest(g, c, wp) && c.started
    ensures var r := Sense(g, Still, c, wp, fill); AtRest(g, r, wp) && r.readPos == c.readPos && r.started
  {
    SenseKeeps(g, Still, c, wp, fill);
    SenseLeans(g, Still, c, wp, fill, 1.0);
    SenseLeans(g, Still, c, wp, fill, -1.0);
    StillNeverTrims(g, c, wp, fill);
    hide Sense;
  }

  lemma StillNeverTrims(g: Geometry, c: Ctl, wp: int, fill: int)
    requires Shaped(c)
    ensures Sense(g, Still, c, wp, fill).pendingTrim == c.pendingTrim
  {
    hide HoldWidths;
    hide Setpoint;
  }

  lemma RestfulFinish(g: Geometry, c: Ctl, wp: int, n: nat)
    requires AtRest(g, c, wp) && c.started && n > 0
    ensures var r := Finish(c, 0.0, wp - c.readPos, n).0;
            AtRest(g, r, wp) && r.readPos == c.readPos + if wp - c.readPos < n then 0 else n
  {
  }

  lemma NothingEarned(g: Geometry, c: Ctl)
    requires g.sr > 0 && c.meter == Meter(0.0, 0.0)
    ensures Accrue(g, c) == 0.0
  {
  }

  /** Fill to one past the setpoint, read one frame, then ask for more than the setpoint: the
      last read snaps back by a frame and plays nothing. */
  function RewindRun(g: Geometry): seq<Event>
    requires g.spBase >= 0
  {
    SingleFrames(g.spBase + 1) + [Read(1, Still), Read(g.spBase + 1, Still)]
  }

  lemma CrampedGoesBack(g: Geometry)
    requires Sound(g) && !Snug(g)
    ensures Fitting(g, RewindRun(g)) && !NeverBack(g, RewindRun(g))
  {
    hide ReadStep;
    hide Shaped;
    hide AtRest;
    var wp := g.spBase + 1;
    var evs := RewindRun(g);
    OnlyWrites(g, wp);
    assert evs[..wp] == SingleFrames(wp);
    assert evs[..wp + 1][..wp] == evs[..wp] && evs[..wp + 2][..wp + 1] == evs[..wp + 1];
    FirstReadStarts(g);
    var c1 := ReadStep(g, Still, Initial(g), wp, 1).0;
    assert RunOf(g, evs[..wp + 1]).0 == c1;
    SnapGoesBack(g, c1);
    assert RunOf(g, evs[..wp + 2]).0 == ReadStep(g, Still, c1, wp, g.spBase + 1).0;
  }

  lemma FirstReadStarts(g: Geometry)
    requires Sound(g) && !Snug(g)
    ensures Shaped(Initial(g))
    ensures var c := ReadStep(g, Still, Initial(g), g.spBase + 1, 1).0; AtRest(g, c, g.spBase + 1) && c.readPos == 2
  {
    OneSetpoint(g);
    InitialIsOk(g);
    var c, wp := Initial(g), g.spBase + 1;
    var p := Place(g, c, wp);
    assert p == Startup(c, wp).(stats := p.stats);
    hide Place;
    hide Serve;
    assert AtRest(g, p, wp) && p.started && p.readPos == 1;
    RestfulServe(g, p, wp, 1);
  }

  lemma SnapGoesBack(g: Geometry, c: Ctl)
    requires Sound(g) && !Snug(g) && AtRest(g, c, g.spBase + 1) && c.readPos == 2
    ensures ReadStep(g, Still, c, g.spBase + 1, g.spBase + 1).0.readPos == 1
  {
    OneSetpoint(g);
    var wp := g.spBase + 1;
    var p := Place(g, c, wp);
    assert p == c.(readPos := 1, win := EMPTY, stats := p.stats);
    hide Place;
    hide Serve;
    assert AtRest(g, p, wp) && p.started;
    RestfulServe(g, p, wp, g.spBase + 1);
  }

  /** The read head of a ring never moves back, whatever the calls and controllers, exactly when
      the ring is snug: room for the structural setpoint, a writer frame and a reader frame, less
      one. */
  lemma HeadNeverGoesBack(g: Geometry)
    requires Sound(g)
    ensures Snug(g) <==> forall evs :: Fitting(g, evs) ==> NeverBack(g, evs)
  {
    if Snug(g) {
      forall evs | Fitting(g, evs)
        ensures NeverBack(g, evs)
      {
        SnugNeverBack(g, evs);
      }
    } else {
      CrampedGoesBack(g);
    }
  }

  // ---- When a snap trips again --------------------------------------------------------------------

  /** A read k frames after a snap, with nothing delivered in between, snaps again exactly when
      the ring is short by more than k, and then goes back by those k frames. So in a roomy ring
      it never does, and a ring short by one trips only while nothing has been consumed. */
  lemma SnapTripsAgain(g: Geometry, c: Ctl, wp: int, k: nat)
    requires Sound(g) && g.spBase <= c.setpoint <= g.spMax && c.pendingTrim == 0 && c.readPos > 0
    requires c.readPos == wp - c.setpoint + k
    ensures var r := Place(g, c, wp);
            var trips := r.stats.laps + r.stats.overruns - c.stats.laps - c.stats.overruns;
            && (trips == 1 <==> c.setpoint + g.w + g.r > g.capacity + k)
            && (trips == 0 || trips == 1) && r.readPos == c.readPos - (if trips == 1 then k else 0)
  {
  }

  /** 240-frame writes and reads in a ring the settings make 600 frames: not snug. In one of 959:
      snug but not roomy. In one of 960: roomy. */
  lemma RingSizes()
    ensures var at := (ns: int) => Derive(Settings(48000, 1, 0, 0, 0, 240, 240, 0, 1.0, ns), 240);
            && at(12_500_000).Some? && at(19_979_167).Some? && at(20_000_000).Some?
            && at(12_500_000).value.capacity == 600 && !Snug(at(12_500_000).value)
            && at(19_979_167).value.capacity == 959 && Snug(at(19_979_167).value) && !Roomy(at(19_979_167).value)
            && at(20_000_000).value.capacity == 960 && Roomy(at(20_000_000).value)
  {
    MillisecondInFrames();
  }

  lemma MillisecondInFrames()
    ensures MsToFrames(48000, 1.0) == 48
  {
  }
}
