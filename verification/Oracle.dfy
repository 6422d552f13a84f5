/** The offline oracle: from a schedule alone, the least constant latency that would have covered
    every read, and the mean fills a constant and a window-adaptive buffer would have held. */
module Oracle {
  import opened Order
  import opened Deques
  import opened Schedule

  datatype OracleResult = OracleResult(dFrames: int, meanFillConst: real, meanFillAdaptive: real)

  // ---- Deficits ---------------------------------------------------------------------------

  /** Frames sent so far: a loss counts as delivered. */
  function Supply(events: seq<Event>): int {
    if events == [] then 0
    else
      var e := events[|events| - 1];
      Supply(events[..|events| - 1]) + if e.kind.KindRead? then 0 else e.frames
  }

  function Demand(events: seq<Event>, rate: real): real {
    if events == [] then 0.0
    else Demand(events[..|events| - 1], rate) + if events[|events| - 1].kind.KindRead? then rate else 0.0
  }

  /** After each read, demand less supply. */
  function Deficits(events: seq<Event>, rate: real): seq<real> {
    if events == [] then []
    else
      var init := events[..|events| - 1];
      Deficits(init, rate)
      + if events[|events| - 1].kind.KindRead? then [Demand(events, rate) - Supply(events) as real] else []
  }

  function Times(events: seq<Event>): seq<int> {
    if events == [] then []
    else Times(events[..|events| - 1]) + if events[|events| - 1].kind.KindRead? then [events[|events| - 1].time] else []
  }

  /** Each deficit is the reads so far at the demand rate, less the frames sent so far. */
  lemma {:induction false} DemandCountsReads(events: seq<Event>, rate: real)
    ensures Demand(events, rate) == Portion(|Side(events, true)| as real, rate)
    ensures |Deficits(events, rate)| == |Side(events, true)| == |Times(events)|
  {
    if events != [] {
      var n := |events| - 1;
      DemandCountsReads(events[..n], rate);
      OneMore(|Side(events[..n], true)| as real, rate);
    } else {
      assert Portion(0.0, rate) == 0.0;
    }
  }

  lemma OneMore(n: real, rate: real)
    ensures Portion(n + 1.0, rate) == Portion(n, rate) + rate
  {
  }

  lemma {:induction false} SupplyCountsFrames(events: seq<Event>, w: int)
    requires forall i :: 0 <= i < |events| && !events[i].kind.KindRead? ==> events[i].frames == w
    ensures Supply(events) == |Side(events, false)| * w
  {
    if events != [] {
      SupplyCountsFrames(events[..|events| - 1], w);
    }
  }

  // ---- The constant oracle ------------------------------------------------------------------

  /** The least nonnegative latency that covers every deficit. */
  ghost predicate LeastCover(d: real, defs: seq<real>) {
    && d >= 0.0 && (forall i :: 0 <= i < |defs| ==> defs[i] <= d)
    && forall c: real :: c >= 0.0 && Covers(c, defs) ==> d <= c
  }

  ghost predicate Covers(c: real, defs: seq<real>) {
    forall i :: 0 <= i < |defs| ==> defs[i] <= c
  }

  method WorstDeficit(defs: seq<real>) returns (d: real)
    ensures LeastCover(d, defs)
  {
    d := 0.0;
    ghost var at := 0;
    var i := 0;
    while i < |defs|
      invariant 0 <= i <= |defs| && d >= 0.0
      invariant forall k :: 0 <= k < i ==> defs[k] <= d
      invariant d == 0.0 || (0 <= at < |defs| && d == defs[at])
    {
      if defs[i] > d {
        d := defs[i];
        at := i;
      }
      i := i + 1;
    }
  }

  // ---- The adaptive oracle --------------------------------------------------------------------

  function Self(x: real): real {
    x
  }

  /** The largest of defs[lo..hi]. */
  function Peak(defs: seq<real>, lo: int, hi: int): (r: real)
    requires 0 <= lo < hi <= |defs|
    decreases hi - lo
  {
    if hi == lo + 1 then defs[lo]
    else
      var p := Peak(defs, lo, hi - 1);
      if defs[hi - 1] >= p then defs[hi - 1] else p
  }

  lemma {:induction false} PeakIs(defs: seq<real>, lo: int, hi: int)
    requires 0 <= lo < hi <= |defs|
    ensures forall i :: lo <= i < hi ==> defs[i] <= Peak(defs, lo, hi)
    ensures exists i :: lo <= i < hi && defs[i] == Peak(defs, lo, hi)
    decreases hi - lo
  {
    assert hi == lo + 1 ==> defs[lo] == Peak(defs, lo, hi);
    if hi > lo + 1 {
      PeakIs(defs, lo, hi - 1);
      assert defs[hi - 1] <= Peak(defs, lo, hi);
    }
  }

  lemma {:induction false} PeakOfPrefix(defs: seq<real>, lo: int, hi: int, n: nat)
    requires 0 <= lo < hi <= n <= |defs|
    ensures Peak(defs[..n], lo, hi) == Peak(defs, lo, hi)
    decreases hi - lo
  {
    if hi > lo + 1 {
      PeakOfPrefix(defs, lo, hi - 1, n);
    }
  }

  /** The trailing-window maximum after read i. */
  function Trailing(defs: seq<real>, i: nat, window: int): real
    requires i < |defs| && window >= 1
  {
    Peak(defs, Max(0, i + 1 - window), i + 1)
  }

  lemma FrontIsTrailing(defs: seq<real>, i: nat, window: int, v: real)
    requires i < |defs| && window >= 1 && LargestSince(v, Self, defs[..i + 1], i + 1 - window)
    ensures v == Trailing(defs, i, window)
  {
    var h, lo := defs[..i + 1], Max(0, i + 1 - window);
    PeakIs(h, lo, i + 1);
    PeakOfPrefix(defs, lo, i + 1, i + 1);
    var a :| 0 <= a < |h| && i + 1 - window <= a && h[a] == v;
    var b :| lo <= b < i + 1 && h[b] == Peak(h, lo, i + 1);
    assert Self(h[b]) <= Self(v) && h[a] <= Peak(h, lo, i + 1);
  }

  // ---- Sums after warm-up ------------------------------------------------------------------------

  function Counted(times: seq<int>, warmup: int, n: nat): nat
    requires n <= |times|
  {
    if n == 0 then 0 else Counted(times, warmup, n - 1) + if times[n - 1] < warmup then 0 else 1
  }

  /** Post-warm-up fill of a buffer that holds the latency d throughout. */
  function ConstFill(defs: seq<real>, times: seq<int>, warmup: int, d: real, n: nat): real
    requires n <= |times| == |defs|
  {
    if n == 0 then 0.0
    else ConstFill(defs, times, warmup, d, n - 1) + if times[n - 1] < warmup then 0.0 else d - defs[n - 1]
  }

  /** Post-warm-up fill of a buffer that holds the trailing maximum. */
  function AdaptiveFill(defs: seq<real>, times: seq<int>, warmup: int, window: int, n: nat): real
    requires n <= |times| == |defs| && window >= 1
  {
    if n == 0 then 0.0
    else AdaptiveFill(defs, times, warmup, window, n - 1)
         + if times[n - 1] < warmup then 0.0 else Trailing(defs, n - 1, window) - defs[n - 1]
  }

  /** The adaptive oracle never holds more than the constant one, and neither goes negative. */
  lemma {:induction false} AdaptiveIsCheaper(defs: seq<real>, times: seq<int>, warmup: int, window: int, d: real, n: nat)
    requires n <= |times| == |defs| && window >= 1 && Covers(d, defs)
    ensures 0.0 <= AdaptiveFill(defs, times, warmup, window, n) <= ConstFill(defs, times, warmup, d, n)
  {
    if n > 0 {
      AdaptiveIsCheaper(defs, times, warmup, window, d, n - 1);
      PeakIs(defs, Max(0, n - window), n);
    }
  }

  /** The worst deficit d was met within the window of read i. */
  ghost predicate RecentWorst(defs: seq<real>, i: nat, window: int, d: real) {
    exists j :: 0 <= j <= i && i - window < j < |defs| && defs[j] == d
  }

  lemma TrailingIsWorst(defs: seq<real>, i: nat, window: int, d: real)
    requires i < |defs| && window >= 1 && Covers(d, defs)
    ensures defs[i] <= Trailing(defs, i, window) <= d
    ensures Trailing(defs, i, window) == d <==> RecentWorst(defs, i, window, d)
  {
    PeakIs(defs, Max(0, i + 1 - window), i + 1);
  }

  /** Adapting gains nothing exactly when the worst deficit was never more than a window old at any
      read that counts. */
  lemma {:induction false} AdaptingGainsNothing(defs: seq<real>, times: seq<int>, warmup: int, window: int, d: real, n: nat)
    requires n <= |times| == |defs| && window >= 1 && Covers(d, defs)
    ensures AdaptiveFill(defs, times, warmup, window, n) == ConstFill(defs, times, warmup, d, n)
            <==> forall i: nat :: i < n && times[i] >= warmup ==> RecentWorst(defs, i, window, d)
  {
    if n > 0 {
      AdaptiveIsCheaper(defs, times, warmup, window, d, n - 1);
      AdaptingGainsNothing(defs, times, warmup, window, d, n - 1);
      TrailingIsWorst(defs, n - 1, window, d);
      hide RecentWorst;
      hide Trailing;
    }
  }

  /** The reads that count are those at or after the warm-up, and moving one deficit moves the
      constant fill by as much exactly if its read counts. */
  lemma {:induction false} ConstFillIs(defs: seq<real>, times: seq<int>, warmup: int, d: real, n: nat, i: nat, x: real)
    requires n <= |times| == |defs| && i < n
    ensures Counted(times, warmup, n) == |set k: nat | k < n && times[k] >= warmup|
    ensures ConstFill(defs[i := x], times, warmup, d, n)
            == ConstFill(defs, times, warmup, d, n) + if times[i] >= warmup then defs[i] - x else 0.0
  {
    CountedIs(times, warmup, n);
    if i < n - 1 {
      ConstFillIs(defs, times, warmup, d, n - 1, i, x);
    } else {
      ConstFillPrefix(defs, times, warmup, d, n - 1, i, x);
    }
  }

  lemma {:induction false} ConstFillPrefix(defs: seq<real>, times: seq<int>, warmup: int, d: real, n: nat, i: nat, x: real)
    requires n <= i < |times| == |defs|
    ensures ConstFill(defs[i := x], times, warmup, d, n) == ConstFill(defs, times, warmup, d, n)
  {
    if n > 0 {
      ConstFillPrefix(defs, times, warmup, d, n - 1, i, x);
    }
  }

  lemma {:induction false} CountedIs(times: seq<int>, warmup: int, n: nat)
    requires n <= |times|
    ensures Counted(times, warmup, n) == |set k: nat | k < n && times[k] >= warmup|
  {
    if n > 0 {
      CountedIs(times, warmup, n - 1);
      var s := set k: nat | k < n - 1 && times[k] >= warmup;
      assert (set k: nat | k < n && times[k] >= warmup) == if times[n - 1] >= warmup then s + {n - 1} else s;
    }
  }

  method ComputeDeficits(events: seq<Event>, rate: real) returns (defs: seq<real>, times: seq<int>)
    ensures defs == Deficits(events, rate) && times == Times(events) && |defs| == |times|
  {
    var delivered, demand := 0, 0.0;
    defs, times := [], [];
    var i := 0;
    while i < |events|
      invariant 0 <= i <= |events| && |defs| == |times|
      invariant delivered == Supply(events[..i]) && demand == Demand(events[..i], rate)
      invariant defs == Deficits(events[..i], rate) && times == Times(events[..i])
    {
      var e := events[i];
      assert events[..i + 1][..i] == events[..i];
      match e.kind {
        case KindWrite => delivered := delivered + e.frames;
        case KindLost => delivered := delivered + e.frames;
        case KindRead =>
          demand := demand + rate;
          defs := defs + [demand - delivered as real];
          times := times + [e.time];
      }
      i := i + 1;
    }
    assert events[..i] == events;
  }

  /** One pass with a monotonic deque gives the trailing-window fill. */
  method Fills(defs: seq<real>, times: seq<int>, warmup: int, window: int, d: real)
    returns (sumC: real, sumA: real, n: nat)
    requires |defs| == |times| && window >= 1
    ensures n == Counted(times, warmup, |defs|)
    ensures sumC == ConstFill(defs, times, warmup, d, |defs|)
    ensures sumA == AdaptiveFill(defs, times, warmup, window, |defs|)
  {
    hide Leaders;
    hide LargestSince;
    hide Trailing;
    sumC, sumA, n := 0.0, 0.0, 0;
    var dq: seq<Entry<real>> := [];
    NoLeaders(window);
    var i := 0;
    while i < |defs|
      invariant 0 <= i <= |defs| && Leaders(dq, Self, defs[..i], i - window)
      invariant n == Counted(times, warmup, i)
      invariant sumC == ConstFill(defs, times, warmup, d, i)
      invariant sumA == AdaptiveFill(defs, times, warmup, window, i)
    {
      assert defs[..i] + [defs[i]] == defs[..i + 1];
      dq := Slide(dq, Self, i, defs[i], i - window + 1, defs[..i], i - window);
      FrontIsTrailing(defs, i, window, dq[0].v);
      if times[i] >= warmup {
        sumC := sumC + (d - defs[i]);
        sumA := sumA + (dq[0].v - defs[i]);
        n := n + 1;
      }
      i := i + 1;
    }
  }

  lemma NoLeaders(window: int)
    ensures Leaders<real>([], Self, [], -window)
  {
  }

  /** The whole analysis. The constant oracle's latency is the least that covers every read, the
      means are those of the two fills, and adapting never costs more than standing still. */
  method ComputeOracle(events: seq<Event>, rate: real, warmup: int, window: int) returns (r: OracleResult, ghost d: real)
    requires window >= 0
    ensures var defs, times := Deficits(events, rate), Times(events);
            var w := if window == 0 then 400 else window;
            && |defs| == |times| && LeastCover(d, defs) && r.dFrames == (d + 0.5).Floor
            && var n := Counted(times, warmup, |defs|);
            && r.meanFillConst == (if n > 0 then ConstFill(defs, times, warmup, d, |defs|) / n as real else 0.0)
            && r.meanFillAdaptive == (if n > 0 then AdaptiveFill(defs, times, warmup, w, |defs|) / n as real else 0.0)
    ensures 0.0 <= r.meanFillAdaptive <= r.meanFillConst
  {
    var w := if window == 0 then 400 else window;
    var defs, times := ComputeDeficits(events, rate);
    var worst := WorstDeficit(defs);
    d := worst;
    var sumC, sumA, n := Fills(defs, times, warmup, w, worst);
    AdaptiveIsCheaper(defs, times, warmup, w, worst, |defs|);
    r := OracleResult((worst + 0.5).Floor, 0.0, 0.0);
    if n > 0 {
      DivideKeepsOrder(0.0, sumA, n as real);
      DivideKeepsOrder(sumA, sumC, n as real);
      r := r.(meanFillConst := sumC / n as real, meanFillAdaptive := sumA / n as real);
    }
  }
}
