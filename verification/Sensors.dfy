/** The lab's observers of a jitter buffer: the fill-domain envelope sensor and the
    arrival-domain timestamp sensor, both on monotonic deques over tumbling windows. */
module Sensors {
  import opened Order
  import opened Deques

  datatype Estimate = Estimate(
    tick: int, ref: int, mean: real, median: int, widthLow: int, widthHigh: int, driftPPM: real, frozen: bool)

  /** One read as a sensor sees it; fill is negative without an attached buffer. */
  datatype Obs = Obs(tick: int, delivered: int, fill: int)

  function Up(v: int): real {
    v as real
  }

  function Down(v: int): real {
    -(v as real)
  }

  function Sum(s: seq<int>): int {
    if s == [] then 0 else Sum(s[..|s| - 1]) + s[|s| - 1]
  }

  lemma NoSum()
    ensures Sum([]) == 0
  {
  }

  lemma SumPush(s: seq<int>, v: int)
    ensures Sum(s + [v]) == Sum(s) + v
  {
    assert (s + [v])[..|s|] == s;
  }

  // ---- Windows as plain sequences -----------------------------------------------------

  /** m is a largest element of s. */
  ghost predicate IsMax(m: int, s: seq<int>) {
    m in s && forall i :: 0 <= i < |s| ==> s[i] <= m
  }

  ghost predicate IsMin(m: int, s: seq<int>) {
    m in s && forall i :: 0 <= i < |s| ==> m <= s[i]
  }

  lemma LargestIsMax(v: int, h: seq<int>, lo: nat)
    requires lo <= |h| && LargestSince(v, Up, h, lo)
    ensures IsMax(v, h[lo..])
  {
    var i :| 0 <= i < |h| && lo <= i && h[i] == v;
    assert h[lo..][i - lo] == v;
    forall j | 0 <= j < |h[lo..]|
      ensures h[lo..][j] <= v
    {
      assert Up(h[lo + j]) <= Up(v);
    }
  }

  lemma LargestIsMin(v: int, h: seq<int>, lo: nat)
    requires lo <= |h| && LargestSince(v, Down, h, lo)
    ensures IsMin(v, h[lo..])
  {
    var i :| 0 <= i < |h| && lo <= i && h[i] == v;
    assert h[lo..][i - lo] == v;
    forall j | 0 <= j < |h[lo..]|
      ensures v <= h[lo..][j]
    {
      assert Down(h[lo + j]) <= Down(v);
    }
  }

  /** What a window's estimate says of the window: the extremes and the median of its values. */
  ghost predicate Describes(e: Estimate, win: seq<int>) {
    && win != []
    && e.median == Sorted(win)[|win| / 2] && e.median in win
    && IsMax(e.ref, win) && IsMin(e.median - e.widthLow, win)
    && e.widthHigh == e.ref - e.median && 0 <= e.widthLow && 0 <= e.widthHigh
    && e.mean == Sum(win) as real / |win| as real
  }

  /** Both deques follow the last n values of the history h. */
  ghost predicate Tracks(maxDQ: seq<Entry<int>>, minDQ: seq<Entry<int>>, h: seq<int>, n: int) {
    && Leaders(maxDQ, Up, h, |h| - n)
    && Leaders(minDQ, Down, h, |h| - n)
  }

  /** After every push the fronts are the extremes of the last n values (fewer at the start). */
  ghost predicate FrontsAreExtremes(maxDQ: seq<Entry<int>>, minDQ: seq<Entry<int>>, h: seq<int>, n: int) {
    && maxDQ != [] && minDQ != [] && n >= 1
    && IsMax(maxDQ[0].v, h[Max(0, |h| - n)..]) && IsMin(minDQ[0].v, h[Max(0, |h| - n)..])
  }

  method PushBoth(maxDQ: seq<Entry<int>>, minDQ: seq<Entry<int>>, i: int, v: int, n: int, ghost h: seq<int>)
    returns (newMax: seq<Entry<int>>, newMin: seq<Entry<int>>)
    requires Tracks(maxDQ, minDQ, h, n) && i == |h| && n >= 1
    ensures Tracks(newMax, newMin, h + [v], n) && FrontsAreExtremes(newMax, newMin, h + [v], n)
  {
    hide Leaders;
    var lo := i + 1 - n;
    newMax := Slide(maxDQ, Up, i, v, lo, h, |h| - n);
    newMin := Slide(minDQ, Down, i, v, lo, h, |h| - n);
    AtLeastZero(newMax[0].v, Up, h + [v], lo);
    AtLeastZero(newMin[0].v, Down, h + [v], lo);
    LargestIsMax(newMax[0].v, h + [v], Max(0, lo));
    LargestIsMin(newMin[0].v, h + [v], Max(0, lo));
  }

  lemma AtLeastZero(v: int, key: int -> real, h: seq<int>, lo: int)
    requires LargestSince(v, key, h, lo)
    ensures LargestSince(v, key, h, Max(0, lo))
  {
    var i :| 0 <= i < |h| && lo <= i && h[i] == v;
    assert Max(0, lo) <= i;
  }

  // ---- The envelope sensor -----------------------------------------------------------------

  datatype EnvelopeConfig = EnvelopeConfig(
    windowReads: int, horizon: int, freezeReads: int, readerFrames: int, useRawFill: bool)

  /** Unset fields take their defaults. */
  function WithDefaults(c: EnvelopeConfig): (r: EnvelopeConfig)
    requires c.readerFrames > 0
  {
    EnvelopeConfig(
      if c.windowReads == 0 then 400 else c.windowReads,
      if c.horizon == 0 then 10 else c.horizon,
      if c.freezeReads == 0 then Max(8, 1920 / c.readerFrames) else c.freezeReads,
      c.readerFrames, c.useRawFill)
  }

  /** The drift estimate from the kept window means, in parts per million. */
  function DriftPPM(means: seq<real>, windowReads: int, readerFrames: int): real
    requires windowReads >= 1 && readerFrames >= 1
  {
    var n := |means|;
    if n < 2 then 0.0
    else (means[n - 1] - means[0]) / (n - 1) as real / windowReads as real / readerFrames as real * 1000000.0
  }

  function Keep<T>(s: seq<T>, v: T, cap: int): (r: seq<T>) {
    if |s| + 1 > cap then (s + [v])[1..] else s + [v]
  }

  /** The drift estimate is the rise of the means over the reads between them, per frame read. */
  lemma DriftIsMeanSlope(means: seq<real>, windowReads: int, readerFrames: int)
    requires windowReads >= 1 && readerFrames >= 1 && |means| >= 2
    ensures DriftPPM(means, windowReads, readerFrames) * readerFrames as real * windowReads as real * (|means| - 1) as real
            == (means[|means| - 1] - means[0]) * 1000000.0
  {
    Unscale(means[|means| - 1] - means[0], (|means| - 1) as real, windowReads as real, readerFrames as real);
  }

  lemma Unscale(rise: real, a: real, b: real, c: real)
    requires a > 0.0 && b > 0.0 && c > 0.0
    ensures (rise / a / b / c * 1000000.0) * c * b * a == rise * 1000000.0
  {
    var x := rise / a;
    var y := x / b;
    var z := y / c;
    assert x * a == rise && y * b == x && z * c == y;
    assert (z * 1000000.0) * c == y * 1000000.0;
    assert (y * 1000000.0) * b == x * 1000000.0;
    assert (x * 1000000.0) * a == rise * 1000000.0;
  }

  /** A ring keeps its newest values: the new one last, the oldest dropped when full. */
  lemma KeepsNewest<T>(s: seq<T>, v: T, cap: int)
    requires 1 <= cap && |s| <= cap
    ensures var r := Keep(s, v, cap);
            && |r| <= cap && |r| >= 1 && r[|r| - 1] == v && (|s| < cap ==> r[..|s|] == s) && (|s| == cap ==> r[..|s| - 1] == s[1..])
  {
  }

  /** The defaults, for the production reader frame. */
  lemma EnvelopeDefaults(raw: bool)
    ensures WithDefaults(EnvelopeConfig(0, 0, 0, 240, raw)) == EnvelopeConfig(400, 10, 8, 240, raw)
    ensures WithDefaults(EnvelopeConfig(7, 5, 3, 240, raw)) == EnvelopeConfig(7, 5, 3, 240, raw)
  {
  }

  lemma MedianWithin(win: seq<int>, hi: int, lo: int)
    requires win != [] && IsMax(hi, win) && IsMin(lo, win)
    ensures var m := Sorted(win)[|win| / 2]; m in win && lo <= m <= hi
  {
    SortedMembers(win, |win| / 2);
  }

  /** One estimate has been added, and it describes the window. */
  ghost predicate Reports(cfg: EnvelopeConfig, win: seq<int>, ests: seq<Estimate>, means: seq<real>, tick: int, frozen: bool,
                          newEsts: seq<Estimate>, newMeans: seq<real>)
    requires cfg.windowReads >= 1 && cfg.readerFrames >= 1
  {
    && |newEsts| == |ests| + 1 && ests <= newEsts
    && var e := newEsts[|ests|];
    && Describes(e, win)
    && newMeans == Keep(means, e.mean, cfg.horizon)
    && e.driftPPM == DriftPPM(newMeans, cfg.windowReads, cfg.readerFrames)
    && e.tick == tick && e.frozen == frozen
  }

  /** win is the end of the history h. */
  ghost predicate Ends(h: seq<int>, win: seq<int>) {
    |win| <= |h| && win == h[|h| - |win|..]
  }

  lemma EndGrows(h: seq<int>, win: seq<int>, v: int)
    requires Ends(h, win)
    ensures Ends(h + [v], win + [v])
  {
  }

  /** Fill as if every read had taken its frames: what was delivered less what was asked for. */
  function VirtualFill(o: Obs, readerFrames: int): int {
    o.delivered - o.tick * readerFrames
  }

  /** Delivering a reader frame per tick keeps the virtual fill level; more or less moves it by the
      difference. */
  lemma VirtualFillMoves(o: Obs, extra: int, readerFrames: int, fill: int)
    ensures VirtualFill(Obs(o.tick + 1, o.delivered + readerFrames + extra, fill), readerFrames) == VirtualFill(o, readerFrames) + extra
    ensures VirtualFill(Obs(0, o.delivered, fill), readerFrames) == o.delivered
  {
    assert (o.tick + 1) * readerFrames == o.tick * readerFrames + readerFrames;
  }

  class EnvelopeSensor {
    const cfg: EnvelopeConfig

    var prevDelivered: int
    var gapRun: int
    var frozen: bool
    var lastLevel: int
    var anchor: int

    var pushes: int
    var curTick: int
    var maxDQ: seq<Entry<int>>
    var minDQ: seq<Entry<int>>
    var winSum: int
    var winN: int
    var winBuf: seq<int>
    var means: seq<real>
    var ests: seq<Estimate>

    /** Every value pushed. */
    ghost var pushed: seq<int>

    /** The deques follow the last windowReads values, and the open window is the latest winN. */
    ghost predicate Filled()
      reads this
    {
      && pushes == |pushed| && Tracks(maxDQ, minDQ, pushed, cfg.windowReads)
      && winN == |winBuf| && Ends(pushed, winBuf) && winSum == Sum(winBuf)
    }

    ghost predicate Valid()
      reads this
    {
      && cfg.windowReads >= 1 && cfg.readerFrames >= 1 && Filled() && winN < cfg.windowReads
    }

    constructor (c: EnvelopeConfig)
      requires c.readerFrames > 0 && c.windowReads >= 0
      ensures Valid() && cfg == WithDefaults(c) && pushed == [] && ests == [] && !frozen
    {
      cfg := WithDefaults(c);
      prevDelivered, gapRun, frozen, lastLevel, anchor := 0, 0, false, 0, 0;
      pushes, curTick, maxDQ, minDQ := 0, 0, [], [];
      winSum, winN, winBuf, means, ests := 0, 0, [], [], [];
      pushed := [];
    }

    /** Push one value. When it completes a window the estimate describes exactly the window's
        values; otherwise the window just grows. */
    method Push(v: int)
      requires Valid()
      modifies this`pushes, this`maxDQ, this`minDQ, this`winSum, this`winN, this`winBuf, this`means, this`ests, this`pushed
      ensures Valid() && pushed == old(pushed) + [v]
      ensures FrontsAreExtremes(maxDQ, minDQ, pushed, cfg.windowReads)
      ensures old(winN) + 1 < cfg.windowReads ==>
                ests == old(ests) && means == old(means) && winBuf == old(winBuf) + [v]
      ensures old(winN) + 1 == cfg.windowReads ==>
                winBuf == [] && Reports(cfg, old(winBuf) + [v], old(ests), old(means), curTick, frozen, ests, means)
    {
      hide Tracks;
      hide FrontsAreExtremes;
      hide Reports;
      hide Ends;
      hide Sum;
      Take(v);
      if winN < cfg.windowReads {
        return;
      }
      CloseWindow();
    }

    /** Enter one value in the deques and the open window. */
    method Take(v: int)
      requires Filled() && cfg.windowReads >= 1
      modifies this`pushes, this`maxDQ, this`minDQ, this`winSum, this`winN, this`winBuf, this`pushed
      ensures Filled() && pushed == old(pushed) + [v] && winBuf == old(winBuf) + [v] && winN == old(winN) + 1
      ensures FrontsAreExtremes(maxDQ, minDQ, pushed, cfg.windowReads)
    {
      hide Tracks;
      hide FrontsAreExtremes;
      SumPush(winBuf, v);
      EndGrows(pushed, winBuf, v);
      hide Sum;
      hide Ends;
      var i := pushes;
      pushes := pushes + 1;
      maxDQ, minDQ := PushBoth(maxDQ, minDQ, i, v, cfg.windowReads, pushed);
      pushed := pushed + [v];
      winSum := winSum + v;
      winBuf := winBuf + [v];
      winN := winN + 1;
    }

    method CloseWindow()
      requires cfg.windowReads >= 1 && cfg.readerFrames >= 1 && Filled() && winN == cfg.windowReads
      requires FrontsAreExtremes(maxDQ, minDQ, pushed, cfg.windowReads)
      modifies this`winSum, this`winN, this`winBuf, this`means, this`ests
      ensures Valid() && winBuf == []
      ensures Reports(cfg, old(winBuf), old(ests), old(means), curTick, frozen, ests, means)
    {
      hide Leaders;
      hide Sorted;
      hide DriftPPM;
      var winMax, winMin := maxDQ[0].v, minDQ[0].v;
      MedianWithin(winBuf, winMax, winMin);
      hide IsMax;
      hide IsMin;
      NoSum();
      hide Sum;
      var mean := winSum as real / winN as real;
      var median := Sorted(winBuf)[|winBuf| / 2];
      winSum, winN, winBuf := 0, 0, [];
      means := means + [mean];
      if |means| > cfg.horizon {
        means := means[1..];
      }
      var ppm := DriftPPM(means, cfg.windowReads, cfg.readerFrames);
      ests := ests + [Estimate(curTick, winMax, mean, median, median - winMin, winMax - median, ppm, frozen)];
    }

    /** The sensed signal of an observation. */
    function Raw(o: Obs): int
      reads this
    {
      if cfg.useRawFill then o.fill else VirtualFill(o, cfg.readerFrames)
    }

    /** One read. A delivery that ends a freeze pushes exactly the value of the last delivered
        read before it, so the outage leaves no step; from then on the signal moves as the raw
        one does. Nothing is pushed while frozen. */
    method OnRead(o: Obs)
      requires Valid()
      modifies this
      ensures Valid()
      ensures cfg.useRawFill && o.fill < 0 ==> pushed == old(pushed) && anchor == old(anchor) && frozen == old(frozen)
      ensures !(cfg.useRawFill && o.fill < 0) ==>
                var delta := o.delivered - old(prevDelivered);
                && prevDelivered == o.delivered
                && gapRun == (if delta > 0 then 0 else old(gapRun) + 1)
                && frozen == (delta <= 0 && (old(frozen) || gapRun > cfg.freezeReads))
                && lastLevel == (if delta > 0 then Raw(o) else old(lastLevel))
                && pushed == old(pushed) + (if frozen then [] else [Raw(o) - anchor])
                && (if old(frozen) && delta > 0 then Raw(o) - anchor == old(lastLevel) - old(anchor) else anchor == old(anchor))
    {
      hide Tracks;
      hide FrontsAreExtremes;
      hide Reports;
      hide Sum;
      hide VirtualFill;
      var raw := VirtualFill(o, cfg.readerFrames);
      if cfg.useRawFill {
        if o.fill < 0 {
          return;
        }
        raw := o.fill;
      }
      var delta := o.delivered - prevDelivered;
      prevDelivered := o.delivered;
      if delta > 0 {
        if frozen {
          anchor := anchor + raw - lastLevel;
          frozen := false;
        }
        gapRun := 0;
        lastLevel := raw;
      } else {
        gapRun := gapRun + 1;
        if !frozen && gapRun > cfg.freezeReads {
          frozen := true;
        }
      }
      if frozen {
        return;
      }
      curTick := o.tick;
      Push(raw - anchor);
    }
  }

  // ---- The timestamp sensor ------------------------------------------------------------------

  const TIMESTAMP_HORIZON := 10

  function TransitDrift(mins: seq<Entry<int>>): real {
    var n := |mins|;
    if n >= 2 && mins[n - 1].idx - mins[0].idx > 0
    then -((mins[n - 1].v - mins[0].v) as real) / (mins[n - 1].idx - mins[0].idx) as real * 1000000.0
    else 0.0
  }

  /** Transit that falls by so much over so many positions is a writer fast by their ratio. */
  lemma TransitDriftIs(mins: seq<Entry<int>>)
    requires |mins| >= 2 && mins[|mins| - 1].idx > mins[0].idx
    ensures TransitDrift(mins) * (mins[|mins| - 1].idx - mins[0].idx) as real == (mins[0].v - mins[|mins| - 1].v) as real * 1000000.0
  {
    var n := |mins| - 1;
    var d, x := (mins[n].idx - mins[0].idx) as real, -((mins[n].v - mins[0].v) as real);
    var q := x / d;
    assert q * d == x;
    assert (q * 1000000.0) * d == x * 1000000.0;
  }

  class TimestampSensor {
    const windowWrites: int

    var writes: int
    var maxDQ: seq<Entry<int>>
    var minDQ: seq<Entry<int>>
    var winN: int
    var mins: seq<Entry<int>>
    var ests: seq<Estimate>

    /** Every transit deviation seen. */
    ghost var devs: seq<int>

    ghost predicate Valid()
      reads this
    {
      && windowWrites >= 1 && writes == |devs| && Tracks(maxDQ, minDQ, devs, windowWrites)
      && 0 <= winN < windowWrites && winN <= |devs|
    }

    constructor (windowWrites: int)
      requires windowWrites >= 0
      ensures Valid() && devs == [] && ests == []
      ensures this.windowWrites == if windowWrites == 0 then 400 else windowWrites
    {
      this.windowWrites := if windowWrites == 0 then 400 else windowWrites;
      writes, maxDQ, minDQ, winN, mins, ests := 0, [], [], 0, [], [];
      devs := [];
    }

    /** One write. A completed window reports the least transit of its writes and the spread
        between the largest and the least. */
    method OnWrite(time: int, pos: int)
      requires Valid()
      modifies this
      ensures Valid() && devs == old(devs) + [time - pos]
      ensures old(winN) + 1 < windowWrites ==> ests == old(ests) && mins == old(mins) && winN == old(winN) + 1
      ensures old(winN) + 1 == windowWrites ==>
                var win := devs[|devs| - windowWrites..];
                && winN == 0 && |ests| == |old(ests)| + 1 && old(ests) <= ests && ests[|old(ests)|].tick == pos
                && IsMin(ests[|old(ests)|].ref, win)
                && IsMax(ests[|old(ests)|].ref + ests[|old(ests)|].widthLow, win)
                && mins == Keep(old(mins), Entry(pos, ests[|old(ests)|].ref), TIMESTAMP_HORIZON)
                && ests[|old(ests)|].driftPPM == TransitDrift(mins)
    {
      hide Leaders;
      hide IsMax;
      hide IsMin;
      hide TransitDrift;
      var dev := time - pos;
      var i := writes;
      writes := writes + 1;
      maxDQ, minDQ := PushBoth(maxDQ, minDQ, i, dev, windowWrites, devs);
      devs := devs + [dev];
      winN := winN + 1;
      if winN < windowWrites {
        return;
      }
      winN := 0;
      var winMin, winMax := minDQ[0].v, maxDQ[0].v;
      mins := mins + [Entry(pos, winMin)];
      if |mins| > TIMESTAMP_HORIZON {
        mins := mins[1..];
      }
      ests := ests + [Estimate(pos, winMin, 0.0, 0, winMax - winMin, 0, TransitDrift(mins), false)];
    }
  }
}
