/** The reader's decision state and the pure steps a read makes over it: startup gate,
    macro-trim, capacity valves, sensing, window close and splice debt. Audio content is
    elsewhere; everything here is about stream positions. */
module JitterControl {
  import opened Order
  import opened JitterConfig

  /** The open sensing window: pre-read raw fill and the virtual signal, read by read. */
  datatype Window = Window(raw: seq<int>, virt: seq<int>)

  /** Width history rings and the held widths. */
  datatype Widths = Widths(wlHist: seq<int>, whHist: seq<int>, histLen: int, histPos: int, wl: real, wh: real)

  /** Window-close ticks and the median virtual level at each, for the drift estimate. */
  datatype Drift = Drift(ticks: seq<int>, vals: seq<int>)

  datatype Meter = Meter(rate: real, debt: real)

  datatype Stats = Stats(underruns: int, laps: int, overruns: int, trims: int, dropped: int, inserted: int)

  datatype Ctl = Ctl(
    readPos: int, setpoint: int, pendingTrim: int,
    started: bool, tick: int, lastWp: int, gapRun: int, frozen: bool,
    win: Window, widths: Widths, drift: Drift, meter: Meter, stats: Stats)

  /** What decides the servo rate and the trim when a window closes, as a function of the
      reader's whole state at that moment. The shipping law is one such function; every
      result about runs holds for all of them. */
  type Policy = Ctl -> (real, int)

  /** What a read plays, and from which stream position. */
  datatype Outcome =
    | Idle                // zero-length read
    | Waiting             // startup gate closed: silence
    | Underrun            // too little fill: silence
    | Plain(at: int)
    | Drop(at: int)
    | Insertion(at: int)
  {
    predicate Produces() { Plain? || Drop? || Insertion? }
    predicate Silent() { Waiting? || Underrun? }
  }

  const EMPTY := Window([], [])

  function RMax(a: real, b: real): real {
    if a >= b then a else b
  }

  /** v limited to [-cap, cap]. */
  function Clamp(v: real, cap: real): real {
    if v > cap then cap else if v < -cap then -cap else v
  }

  /** The n-th largest entry, or the smallest when there are fewer than n. */
  function NthLargest(h: seq<int>, n: int): int
    requires |h| > 0 && n >= 1
  {
    Sorted(h)[|h| - Min(n, |h|)]
  }

  /** The filtered width exceeds x exactly when enough of the history does. */
  lemma RankFilter(h: seq<int>, n: int, x: int)
    requires |h| > 0 && n >= 1
    ensures NthLargest(h, n) > x <==> CountAbove(h, x) >= Min(n, |h|)
  {
    SortedIsSorted(h);
    CountAboveSorted(h, x);
    CountAboveOfSorted(Sorted(h), |h| - Min(n, |h|), x);
  }

  function Median(buf: seq<int>): int
    requires |buf| > 0
  {
    Sorted(buf)[|buf| / 2]
  }

  function Least(buf: seq<int>): int
    requires |buf| > 0
  {
    Sorted(buf)[0]
  }

  function Greatest(buf: seq<int>): int
    requires |buf| > 0
  {
    Sorted(buf)[|buf| - 1]
  }

  function Initial(g: Geometry): Ctl {
    Ctl(0, Min(Max(g.spBase, g.flDecl), g.spMax), 0, false, 0, 0, 0, false, EMPTY,
        Widths(seq(WIDTH_HISTORY, i => 0), seq(WIDTH_HISTORY, i => 0), 0, 0, 0.0, 0.0),
        Drift([], []), Meter(0.0, 0.0), Stats(0, 0, 0, 0, 0, 0))
  }

  /** The shape every reachable control state has; enough for the steps to be defined. */
  predicate Shaped(c: Ctl) {
    && |c.win.raw| == |c.win.virt| && c.gapRun >= 0
    && WidthsShaped(c.widths)
    && |c.drift.ticks| == |c.drift.vals| <= WIDTH_HISTORY
  }

  predicate WidthsShaped(h: Widths) {
    && |h.wlHist| == WIDTH_HISTORY && |h.whHist| == WIDTH_HISTORY
    && 0 <= h.histLen <= WIDTH_HISTORY && 0 <= h.histPos < WIDTH_HISTORY
  }

  /** Record one window's measured widths, filter by rank, hold eager-up reluctant-down. */
  function HoldWidths(g: Geometry, h: Widths, wlMeas: int, whMeas: int): Widths
    requires WidthsShaped(h)
  {
    var wlHist := h.wlHist[h.histPos := wlMeas];
    var whHist := h.whHist[h.histPos := whMeas];
    var histLen := if h.histLen < WIDTH_HISTORY then h.histLen + 1 else h.histLen;
    Widths(wlHist, whHist, histLen, (h.histPos + 1) % WIDTH_HISTORY,
           RMax(NthLargest(wlHist[..histLen], WIDTH_RANK) as real, h.wl - g.narrowStep),
           RMax(NthLargest(whHist[..histLen], WIDTH_RANK) as real, h.wh - g.narrowStep))
  }

  function MeasuredLow(g: Geometry, virt: seq<int>): int
    requires |virt| > 0
  {
    Min(Median(virt) - Least(virt), g.wlCap)
  }

  function MeasuredHigh(virt: seq<int>): int
    requires |virt| > 0
  {
    Greatest(virt) - Median(virt)
  }

  function KeepLast(s: seq<int>): seq<int> {
    if |s| > WIDTH_HISTORY then s[1..] else s
  }

  function Setpoint(g: Geometry, wl: real): int {
    Min(Max(g.spBase + Trunc(g.kLow * wl + 0.5), g.flDecl), g.spMax)
  }

  /** A window close up to the decision: widths, drift history and setpoint refreshed. */
  function Refresh(g: Geometry, c: Ctl): Ctl
    requires Shaped(c) && |c.win.raw| > 0
  {
    var h := HoldWidths(g, c.widths, MeasuredLow(g, c.win.virt), MeasuredHigh(c.win.virt));
    c.(widths := h,
       drift := Drift(KeepLast(c.drift.ticks + [c.tick]), KeepLast(c.drift.vals + [Median(c.win.virt)])),
       setpoint := Setpoint(g, h.wl))
  }

  /** Apply a decision: rate limited to the cap, a positive trim left pending, window reset. */
  function Decide(g: Geometry, c: Ctl, rate: real, trim: int): Ctl {
    c.(meter := Meter(Clamp(rate, g.rateCap), c.meter.debt),
       pendingTrim := if trim > 0 then trim else c.pendingTrim,
       win := EMPTY)
  }

  function CloseWindow(g: Geometry, policy: Policy, c: Ctl): Ctl
    requires Shaped(c) && |c.win.raw| > 0
  {
    var c1 := Refresh(g, c);
    var d := policy(c1);
    Decide(g, c1, d.0, d.1)
  }

  /** The delivery half of sensing: freeze after a long enough run of reads without a
      delivery, resume on the next one. */
  function Deliver(g: Geometry, c: Ctl, wp: int): Ctl
    requires Shaped(c)
  {
    var c0 := c.(tick := c.tick + 1, lastWp := wp);
    if wp > c.lastWp then
      if c.frozen then c0.(frozen := false, gapRun := 0, win := EMPTY, drift := Drift([], []))
      else c0.(gapRun := 0)
    else if !c.frozen && c.gapRun + 1 > g.freezeReads then
      var keep := |c.win.raw| - Min(c.gapRun, |c.win.raw|);
      c0.(frozen := true, gapRun := c.gapRun + 1, meter := Meter(0.0, 0.0),
          win := Window(c.win.raw[..keep], c.win.virt[..keep]))
    else c0.(gapRun := c.gapRun + 1)
  }

  /** Append one observation and close the window when it is full. */
  function Observe(g: Geometry, policy: Policy, c: Ctl, fill: int, virtual: int): Ctl
    requires Shaped(c)
  {
    var c1 := c.(win := Window(c.win.raw + [fill], c.win.virt + [virtual]));
    if |c1.win.raw| >= g.windowReads then CloseWindow(g, policy, c1) else c1
  }

  function Sense(g: Geometry, policy: Policy, c: Ctl, wp: int, fill: int): Ctl
    requires Shaped(c)
  {
    if !c.started then c else
    var c1 := Deliver(g, c, wp);
    if c1.frozen then c1 else Observe(g, policy, c1, fill, wp - g.r * c.tick)
  }

  function Startup(c: Ctl, wp: int): Ctl {
    c.(readPos := wp - c.setpoint, started := true, lastWp := wp)
  }

  function TrimAmount(c: Ctl, wp: int): int {
    if c.pendingTrim > 0 then Max(0, Min(c.pendingTrim, wp - c.readPos - c.setpoint)) else 0
  }

  function Trim(c: Ctl, wp: int): Ctl {
    if c.pendingTrim > 0 then
      var t := TrimAmount(c, wp);
      c.(readPos := c.readPos + t, pendingTrim := 0, win := EMPTY,
         stats := c.stats.(trims := c.stats.trims + if t > 0 then 1 else 0))
    else c
  }

  /** The capacity valves: snap to the setpoint when lapped or close to it. */
  function Valve(g: Geometry, c: Ctl, wp: int): Ctl {
    var fill := wp - c.readPos;
    if fill >= g.capacity then
      c.(readPos := wp - c.setpoint, win := EMPTY, stats := c.stats.(laps := c.stats.laps + 1))
    else if fill > g.capacity - (g.w + g.r) then
      c.(readPos := wp - c.setpoint, win := EMPTY, stats := c.stats.(overruns := c.stats.overruns + 1))
    else c
  }

  /** Where a read that passed the startup gate stands before it senses. */
  function Place(g: Geometry, c: Ctl, wp: int): Ctl {
    Valve(g, Trim(if c.readPos == 0 then Startup(c, wp) else c, wp), wp)
  }

  /** What one read earns towards a splice at the given rate. */
  function Earned(g: Geometry, rate: real): real
    requires g.sr > 0
  {
    rate * (g.r as real / g.sr as real)
  }

  function Accrue(g: Geometry, c: Ctl): real
    requires g.sr > 0
  {
    if c.frozen then c.meter.debt
    else Clamp(c.meter.debt + Earned(g, c.meter.rate), MAX_DEBT)
  }

  /** Play n frames from readPos with fill frames available, given the accrued debt and
      paying at most one splice. */
  function Play(c: Ctl, debt: real, fill: int, n: int): (Ctl, Outcome) {
    if debt >= 1.0 && fill >= n + 1 then
      (c.(meter := Meter(c.meter.rate, debt - 1.0), readPos := c.readPos + n + 1,
          stats := c.stats.(dropped := c.stats.dropped + 1)), Drop(c.readPos))
    else if debt <= -1.0 && n >= 2 then
      (c.(meter := Meter(c.meter.rate, debt + 1.0), readPos := c.readPos + n - 1,
          stats := c.stats.(inserted := c.stats.inserted + 1)), Insertion(c.readPos))
    else
      (c.(meter := Meter(c.meter.rate, debt), readPos := c.readPos + n), Plain(c.readPos))
  }

  /** The underrun valve, then play. */
  function Finish(c: Ctl, debt: real, fill: int, n: nat): (Ctl, Outcome) {
    if fill < n then (c.(stats := c.stats.(underruns := c.stats.underruns + 1)), Underrun)
    else Play(c, debt, fill, n)
  }

  /** The part of a read after placement. */
  function Serve(g: Geometry, policy: Policy, c: Ctl, wp: int, n: nat): (Ctl, Outcome)
    requires Shaped(c) && g.sr > 0
  {
    var c1 := Sense(g, policy, c, wp, wp - c.readPos);
    Finish(c1, Accrue(g, c1), wp - c.readPos, n)
  }

  /** One read of n frames with the published write position at wp. */
  function ReadStep(g: Geometry, policy: Policy, c: Ctl, wp: int, n: nat): (Ctl, Outcome)
    requires Shaped(c) && g.sr > 0
  {
    if n == 0 then (c, Idle)
    else if c.readPos == 0 && wp < c.setpoint then (c, Waiting)
    else Serve(g, policy, Place(g, c, wp), wp, n)
  }
}
