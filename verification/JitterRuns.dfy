/** Runs of a jitter buffer: what every reachable state satisfies, whatever the schedule
    of writes and reads and whatever is decided at each window close. */
module JitterRuns {
  import opened Order
  import opened JitterConfig
  import opened JitterControl

  // ---- Window statistics and the rank filter ---------------------------------

  lemma WindowStatsOrdered(buf: seq<int>)
    requires |buf| > 0
    ensures Least(buf) <= Median(buf) <= Greatest(buf)
    ensures forall i :: 0 <= i < |buf| ==> Least(buf) <= buf[i] <= Greatest(buf)
  {
    SortedIsSorted(buf);
    forall i | 0 <= i < |buf|
      ensures Least(buf) <= buf[i] <= Greatest(buf)
    {
      SortedMembers(buf, i);
    }
  }

  lemma NthLargestIn(h: seq<int>, n: int)
    requires |h| > 0 && n >= 1
    ensures NthLargest(h, n) in h
  {
    SortedMembers(h, |h| - Min(n, |h|));
  }

  // ---- The state invariant -------------------------------------------------

  predicate WidthsOk(g: Geometry, h: Widths) {
    && WidthsShaped(h)
    && (forall i :: 0 <= i < h.histLen ==> 0 <= h.wlHist[i] <= g.wlCap)
    && (forall i :: 0 <= i < h.histLen ==> 0 <= h.whHist[i])
    && (h.histLen < WIDTH_HISTORY ==> h.histPos == h.histLen)
    && 0.0 <= h.wl <= g.wlCap as real
  }

  /** Rate and debt within their caps, and both zero while frozen. */
  predicate Metered(g: Geometry, c: Ctl) {
    && Abs(c.meter.rate) <= g.rateCap
    && Abs(c.meter.debt) <= MAX_DEBT
    && (c.frozen ==> c.meter == Meter(0.0, 0.0))
  }

  predicate Ok(g: Geometry, c: Ctl, wp: int) {
    && Shaped(c) && WidthsOk(g, c.widths) && Metered(g, c)
    && g.spBase <= c.setpoint <= g.spMax
    && c.pendingTrim >= 0
    && |c.win.raw| < Max(1, g.windowReads)
    && 0 <= c.readPos <= wp
    && c.lastWp <= wp
    && (c.readPos > 0 ==> c.started)
  }

  lemma InitialIsOk(g: Geometry)
    requires Sound(g)
    ensures Ok(g, Initial(g), 0)
  {
  }

  lemma HoldWidthsKeeps(g: Geometry, h: Widths, wlMeas: int, whMeas: int)
    requires Sound(g) && WidthsOk(g, h) && 0 <= wlMeas <= g.wlCap && 0 <= whMeas
    ensures WidthsOk(g, HoldWidths(g, h, wlMeas, whMeas))
  {
    var r := HoldWidths(g, h, wlMeas, whMeas);
    NthLargestIn(r.wlHist[..r.histLen], WIDTH_RANK);
  }

  lemma SetpointInRange(g: Geometry, wl: real)
    requires Sound(g) && wl >= 0.0
    ensures g.spBase <= Setpoint(g, wl) <= g.spMax
  {
    assert g.kLow * wl >= 0.0;
  }

  lemma CloseWindowKeeps(g: Geometry, policy: Policy, c: Ctl, wp: int)
    requires Sound(g) && !c.frozen
    requires Ok(g, c.(win := EMPTY), wp) && |c.win.raw| == |c.win.virt| > 0
    ensures Ok(g, CloseWindow(g, policy, c), wp)
    ensures CloseWindow(g, policy, c).win == EMPTY
  {
    WindowStatsOrdered(c.win.virt);
    HoldWidthsKeeps(g, c.widths, MeasuredLow(g, c.win.virt), MeasuredHigh(c.win.virt));
    SetpointInRange(g, Refresh(g, c).widths.wl);
  }

  /** Sensing leaves the head and the counters alone and never adds debt. */
  predicate Sensed(g: Geometry, c: Ctl, r: Ctl, wp: int) {
    && Ok(g, r, wp)
    && r.readPos == c.readPos && r.started == c.started && r.stats == c.stats
    && Abs(r.meter.debt) <= Abs(c.meter.debt)
  }

  lemma DeliverKeeps(g: Geometry, c: Ctl, wp: int)
    requires Sound(g) && Ok(g, c, wp)
    ensures Sensed(g, c, Deliver(g, c, wp), wp)
  {
  }

  lemma ObserveKeeps(g: Geometry, policy: Policy, c: Ctl, wp: int, fill: int, virtual: int)
    requires Sound(g) && Ok(g, c, wp) && !c.frozen
    ensures Sensed(g, c, Observe(g, policy, c, fill, virtual), wp)
  {
    var c1 := c.(win := Window(c.win.raw + [fill], c.win.virt + [virtual]));
    if |c1.win.raw| >= g.windowReads {
      CloseWindowKeeps(g, policy, c1, wp);
    }
  }

  lemma SenseKeeps(g: Geometry, policy: Policy, c: Ctl, wp: int, fill: int)
    requires Sound(g) && Ok(g, c, wp)
    ensures Sensed(g, c, Sense(g, policy, c, wp, fill), wp)
  {
    hide Deliver;
    hide Observe;
    if c.started {
      DeliverKeeps(g, c, wp);
      var c1 := Deliver(g, c, wp);
      if !c1.frozen {
        ObserveKeeps(g, policy, c1, wp, fill, wp - g.r * c.tick);
      }
    }
  }

  /** Placement: the read position only moves forward, a startup or snap lands exactly at the
      setpoint, a trim never goes below it, and in a roomy ring what comes out trips neither valve. */
  lemma PlaceKeeps(g: Geometry, c: Ctl, wp: int)
    requires Sound(g) && Snug(g) && Ok(g, c, wp)
    requires c.readPos > 0 || wp >= c.setpoint
    ensures var r := Place(g, c, wp);
            && Ok(g, r, wp)
            && r.readPos >= c.readPos
            && wp - r.readPos < g.capacity && (Roomy(g) ==> Clears(g, wp - r.readPos))
            && (r.readPos != c.readPos ==> wp - r.readPos >= c.setpoint)
            && r.setpoint == c.setpoint && r.started && r.meter == c.meter && r.frozen == c.frozen
            && r.stats.dropped == c.stats.dropped && r.stats.inserted == c.stats.inserted
            && r.pendingTrim == 0
  {
    ValveClearance(g);
  }

  lemma EarnedBounds(g: Geometry, rate: real)
    requires Sound(g) && Abs(rate) <= g.rateCap
    ensures Abs(Earned(g, rate)) <= Earned(g, g.rateCap)
  {
    ScaledWithin(rate, g.rateCap, g.r as real / g.sr as real);
  }

  lemma ScaledWithin(x: real, cap: real, q: real)
    requires Abs(x) <= cap && q >= 0.0
    ensures Abs(x * q) <= cap * q
  {
    NonNegativeProduct(cap - x, q);
    NonNegativeProduct(cap + x, q);
    assert (cap - x) * q == cap * q - x * q && (cap + x) * q == cap * q + x * q;
  }

  lemma AccrueBounds(g: Geometry, c: Ctl)
    requires Sound(g) && Metered(g, c)
    ensures Abs(Accrue(g, c)) <= MAX_DEBT
    ensures Abs(Accrue(g, c)) <= Abs(c.meter.debt) + Earned(g, g.rateCap)
    ensures Earned(g, g.rateCap) >= 0.0
    ensures c.frozen ==> Accrue(g, c) == 0.0
  {
    hide Earned;
    EarnedBounds(g, c.meter.rate);
  }

  function Splices(c: Ctl): int {
    c.stats.dropped + c.stats.inserted
  }

  function Consumed(o: Outcome, n: nat): int {
    match o
    case Plain(_) => n
    case Drop(_) => n + 1
    case Insertion(_) => n - 1
    case _ => 0
  }

  /** How many ring frames, from its position on, a producing read touches. */
  function Needs(o: Outcome, n: nat): nat {
    if o.Drop? then n + 1 else n
  }

  /** The second half of a read: what the head, the splice counters and the debt do. */
  predicate Served(g: Geometry, c: Ctl, r: Ctl, o: Outcome, wp: int, n: nat, earned: real) {
    && Ok(g, r, wp)
    && r.readPos == c.readPos + Consumed(o, n) && Consumed(o, n) >= 0
    && (Splices(r) - Splices(c)) as real + Abs(r.meter.debt) <= Abs(c.meter.debt) + earned
    && Splices(r) == Splices(c) + (if o.Drop? || o.Insertion? then 1 else 0)
    && r.stats.dropped == c.stats.dropped + (if o.Drop? then 1 else 0)
    && (r.frozen ==> Splices(r) == Splices(c))
    && (o.Produces() ==> o.at == c.readPos && o.at + Needs(o, n) <= wp)
  }

  lemma FinishKeeps(g: Geometry, c: Ctl, debt: real, wp: int, n: nat, earned: real)
    requires Ok(g, c, wp) && c.started && n > 0 && earned >= 0.0
    requires Abs(debt) <= MAX_DEBT && (c.frozen ==> debt == 0.0)
    requires Abs(debt) <= Abs(c.meter.debt) + earned
    ensures var (r, o) := Finish(c, debt, wp - c.readPos, n);
            Served(g, c, r, o, wp, n, earned)
  {
  }

  lemma ServeKeeps(g: Geometry, policy: Policy, c: Ctl, wp: int, n: nat)
    requires Sound(g) && Ok(g, c, wp) && c.started && n > 0
    ensures var (r, o) := Serve(g, policy, c, wp, n);
            Served(g, c, r, o, wp, n, Earned(g, g.rateCap))
  {
    hide Sense;
    hide Earned;
    SenseKeeps(g, policy, c, wp, wp - c.readPos);
    var c1 := Sense(g, policy, c, wp, wp - c.readPos);
    AccrueBounds(g, c1);
    FinishKeeps(g, c1, Accrue(g, c1), wp, n, Earned(g, g.rateCap));
  }

  lemma PlaceIsJump(g: Geometry, c: Ctl, wp: int, n: nat)
    requires Sound(g) && n > 0 && !(c.readPos == 0 && wp < c.setpoint)
    ensures Place(g, c, wp).readPos == c.readPos + Jump(g, c, wp, n)
  {
  }

  /** The whole read in one statement: the state stays sound; the read head moves by the
      placement and by what was consumed, never back; a splice is paid for; nothing is
      spliced while frozen; and everything played lies in the written, unread span. */
  lemma ReadKeeps(g: Geometry, policy: Policy, c: Ctl, wp: int, n: nat)
    requires Sound(g) && Snug(g) && Ok(g, c, wp)
    ensures var (r, o) := ReadStep(g, policy, c, wp, n);
            && Served(g, c.(readPos := c.readPos + Jump(g, c, wp, n)), r, o, wp, n, Earned(g, g.rateCap))
            && Jump(g, c, wp, n) >= 0
            && (o.Produces() ==> wp - o.at < g.capacity)
  {
    hide Earned;
    hide Place;
    hide Serve;
    AccrueBounds(g, c);
    if n > 0 && !(c.readPos == 0 && wp < c.setpoint) {
      PlaceKeeps(g, c, wp);
      PlaceIsJump(g, c, wp, n);
      ServeKeeps(g, policy, Place(g, c, wp), wp, n);
    }
  }

  lemma ReadStaysOk(g: Geometry, policy: Policy, c: Ctl, wp: int, n: nat)
    requires Sound(g) && Snug(g) && Ok(g, c, wp)
    ensures Ok(g, ReadStep(g, policy, c, wp, n).0, wp)
  {
    hide ReadStep;
    hide Jump;
    hide Ok;
    ReadKeeps(g, policy, c, wp, n);
  }

  /** Startup, trim and valve displacement of one read. */
  function Jump(g: Geometry, c: Ctl, wp: int, n: nat): int {
    if n == 0 || (c.readPos == 0 && wp < c.setpoint) then 0
    else
      var c1 := if c.readPos == 0 then Startup(c, wp) else c;
      var c2 := Trim(c1, wp);
      (if c.readPos == 0 then wp - c.setpoint else 0)
      + TrimAmount(c1, wp)
      + (if wp - c2.readPos > g.capacity - (g.w + g.r) || wp - c2.readPos >= g.capacity
         then wp - c.setpoint - c2.readPos else 0)
  }

  // ---- Runs ----------------------------------------------------------------

  /** A write of k frames, or a read of n frames with the policy in force during it. */
  datatype Event = Write(k: nat) | Read(n: nat, policy: Policy)

  /** The two heads plus the ledger of everything that moved the read head. */
  datatype State = State(ctl: Ctl, wp: int, played: int, jumped: int)

  /** The read head is where the jumps, the frames played and the splices put it. */
  predicate Balanced(s: State) {
    s.ctl.readPos == s.jumped + s.played + s.ctl.stats.dropped - s.ctl.stats.inserted
  }

  predicate Inv(g: Geometry, s: State) {
    Sound(g) && Snug(g) && Ok(g, s.ctl, s.wp) && Balanced(s)
  }

  function Start(g: Geometry): State {
    State(Initial(g), 0, 0, 0)
  }

  function Step(g: Geometry, s: State, e: Event): (s': State)
    requires Inv(g, s)
    ensures Inv(g, s')
    ensures s'.ctl.readPos >= s.ctl.readPos && s'.wp >= s.wp
  {
    match e
    case Write(k) => s.(wp := s.wp + k)
    case Read(n, policy) =>
      ReadKeeps(g, policy, s.ctl, s.wp, n);
      var (c, o) := ReadStep(g, policy, s.ctl, s.wp, n);
      State(c, s.wp, s.played + (if o.Produces() then n else 0), s.jumped + Jump(g, s.ctl, s.wp, n))
  }

  /** The state after a run. Its contract is the whole-run safety invariant: heads in order,
      widths and setpoint within bounds, the read head monotone and fully accounted for. */
  function Exec(g: Geometry, s: State, evs: seq<Event>): (s': State)
    requires Inv(g, s)
    ensures Inv(g, s')
    ensures s'.ctl.readPos >= s.ctl.readPos && s'.wp >= s.wp
  {
    if evs == [] then s
    else Step(g, Exec(g, s, evs[..|evs| - 1]), evs[|evs| - 1])
  }

  lemma ExecNone(g: Geometry, s: State)
    requires Inv(g, s)
    ensures Exec(g, s, []) == s
  {
  }

  lemma ExecSnoc(g: Geometry, s: State, front: seq<Event>, e: Event)
    requires Inv(g, s)
    ensures Exec(g, s, front + [e]) == Step(g, Exec(g, s, front), e)
  {
    hide Step;
    assert (front + [e])[..|front|] == front;
  }

  /** Safety over every run from construction, with its parts spelled out. */
  lemma RunSafety(g: Geometry, evs: seq<Event>)
    requires Sound(g) && Snug(g)
    ensures Inv(g, Start(g))
    ensures var s := Exec(g, Start(g), evs);
            && 0 <= s.ctl.readPos <= s.wp
            && g.spBase <= s.ctl.setpoint <= g.spMax
            && 0.0 <= s.ctl.widths.wl <= g.wlCap as real
            && s.ctl.readPos == s.jumped + s.played + s.ctl.stats.dropped - s.ctl.stats.inserted
            && |s.ctl.win.raw| == |s.ctl.win.virt| < Max(1, g.windowReads)
            && (s.ctl.frozen ==> s.ctl.meter == Meter(0.0, 0.0))
  {
    InitialIsOk(g);
  }

  function Reads(evs: seq<Event>): nat {
    if evs == [] then 0
    else Reads(evs[..|evs| - 1]) + if evs[|evs| - 1].Read? then 1 else 0
  }

  /** The splice allowance of a stretch: what each of its reads earns. */
  function Allowance(evs: seq<Event>, earned: real): real {
    if evs == [] then 0.0
    else Allowance(evs[..|evs| - 1], earned) + if evs[|evs| - 1].Read? then earned else 0.0
  }

  lemma {:induction false} AllowanceIsProduct(evs: seq<Event>, earned: real)
    ensures Allowance(evs, earned) == Reads(evs) as real * earned
  {
    if evs != [] {
      AllowanceIsProduct(evs[..|evs| - 1], earned);
    }
  }

  lemma StepSplices(g: Geometry, s: State, e: Event)
    requires Inv(g, s)
    ensures (Splices(Step(g, s, e).ctl) - Splices(s.ctl)) as real + Abs(Step(g, s, e).ctl.meter.debt)
            <= Abs(s.ctl.meter.debt) + (if e.Read? then Earned(g, g.rateCap) else 0.0)
  {
    hide Earned;
    if e.Read? {
      ReadKeeps(g, e.policy, s.ctl, s.wp, e.n);
    }
  }

  lemma {:induction false} DebtPaysForSplices(g: Geometry, s: State, evs: seq<Event>, earned: real)
    requires Inv(g, s) && earned == Earned(g, g.rateCap)
    ensures (Splices(Exec(g, s, evs).ctl) - Splices(s.ctl)) as real + Abs(Exec(g, s, evs).ctl.meter.debt)
            <= Abs(s.ctl.meter.debt) + Allowance(evs, earned)
  {
    if evs != [] {
      DebtPaysForSplices(g, s, evs[..|evs| - 1], earned);
      StepSplices(g, Exec(g, s, evs[..|evs| - 1]), evs[|evs| - 1]);
    }
  }

  /** Any stretch of a run, starting anywhere, splices at most the debt clamp plus what its
      reads can earn at the rate cap. */
  lemma SpliceBound(g: Geometry, s: State, evs: seq<Event>, earned: real)
    requires Inv(g, s) && earned == Earned(g, g.rateCap)
    ensures (Splices(Exec(g, s, evs).ctl) - Splices(s.ctl)) as real <= MAX_DEBT + Reads(evs) as real * earned
  {
    DebtPaysForSplices(g, s, evs, earned);
    AllowanceIsProduct(evs, earned);
    assert Abs(s.ctl.meter.debt) <= MAX_DEBT;
  }
}
