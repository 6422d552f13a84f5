/** The window estimate, the shipping controller and its loops over local state. */
module JitterServo {
  import opened Order
  import opened JitterConfig
  import opened JitterControl

  datatype WindowEstimate = WindowEstimate(
    medianRaw: int, minRaw: int, maxRaw: int, widthLow: int, widthHigh: int,
    slopeFPS: real, horizonSec: real)

  datatype ServoGeometry = ServoGeometry(
    setpoint: int, deadband: int, theta: int,
    gainPerSec: real, rateCapPerSec: real, ffClampPerSec: real)

  /** The decision seam: servo rate and frames to trim. */
  type Controller = (WindowEstimate, ServoGeometry) -> (real, int)

  function SoftClamp(v: real, c: real): real
    requires c > 0.0
  {
    if v > c || v < -c then c * c / v else v
  }

  /** Odd: the same roll-off both ways. */
  lemma SoftClampOdd(v: real, c: real)
    requires c > 0.0
    ensures SoftClamp(-v, c) == -SoftClamp(v, c)
  {
    if v != 0.0 {
      NegatedDivisor(c * c, v);
    }
  }

  lemma NegatedDivisor(a: real, v: real)
    requires v != 0.0
    ensures a / -v == -(a / v)
  {
    var q := a / v;
    assert q * v == a;
    assert (-q) * (-v) == a;
  }

  /** Never beyond the knee, and for a positive slope never beyond the slope itself. */
  lemma SoftClampBounds(v: real, c: real)
    requires c > 0.0 && v >= 0.0
    ensures 0.0 <= SoftClamp(v, c) <= c
    ensures SoftClamp(v, c) <= v
  {
    if v > c {
      NonNegativeProduct(c, v - c);
      NonNegativeProduct(c, c);
      QuotientAtMost(c * c, c, v);
    }
  }

  lemma QuotientAtMost(a: real, b: real, v: real)
    requires v > 0.0 && 0.0 <= a <= b * v
    ensures 0.0 <= a / v <= b
  {
    var q := a / v;
    assert q * v == a;
    if q > b {
      assert (q - b) * v > 0.0;
    }
  }

  /** The shipping controller. Its feed-forward knee is always positive. */
  function PServo(est: WindowEstimate, geo: ServoGeometry): (real, int) {
    if est.minRaw - geo.setpoint > geo.theta then
      (0.0, est.medianRaw - geo.setpoint)
    else
      var ff := if geo.ffClampPerSec > 0.0 then SoftClamp(est.slopeFPS, geo.ffClampPerSec) else 0.0;
      var e := est.medianRaw - geo.setpoint;
      var p := if e > geo.deadband then Portion(geo.gainPerSec, (e - geo.deadband) as real) else 0.0;
      (Clamp(p + ff, geo.rateCapPerSec), 0)
  }

  /** The median of three: one of them, with at least one of the others on each side. */
  function Median3(a: int, b: int, c: int): (m: int)
    ensures m == a || m == b || m == c
    ensures (a <= m && b <= m) || (a <= m && c <= m) || (b <= m && c <= m)
    ensures (a >= m && b >= m) || (a >= m && c >= m) || (b >= m && c >= m)
  {
    var (a', b') := if a > b then (b, a) else (a, b);
    Max(a', if b' > c then c else b')
  }

  /** Drift slope in frames per second and its horizon, from the close ticks and medians. */
  function DriftSlope(g: Geometry, d: Drift): (real, real)
    requires |d.ticks| == |d.vals| && g.r > 0 && g.sr > 0
  {
    var n := |d.ticks|;
    if n >= 2 && d.ticks[n - 1] > d.ticks[0] then
      var lo := if n >= 6 then Median3(d.vals[0], d.vals[1], d.vals[2]) else d.vals[0];
      var hi := if n >= 6 then Median3(d.vals[n - 3], d.vals[n - 2], d.vals[n - 1]) else d.vals[n - 1];
      var ta := if n >= 6 then d.ticks[1] else d.ticks[0];
      var tb := if n >= 6 then d.ticks[n - 2] else d.ticks[n - 1];
      var span := tb - ta;
      if span > 0 then
        var perRead := (hi - lo) as real / span as real;
        var delta := perRead * span as real;
        (if delta >= g.ffDeadZone as real || delta <= -(g.ffDeadZone as real)
         then perRead * g.sr as real / g.r as real else 0.0,
         span as real * g.r as real / g.sr as real)
      else (0.0, 0.0)
    else (0.0, 0.0)
  }

  /** What a controller is shown at a window close, from the refreshed state. */
  function Estimate(g: Geometry, c: Ctl): WindowEstimate
    requires Shaped(c) && |c.win.raw| > 0 && g.r > 0 && g.sr > 0
  {
    var (slope, horizon) := DriftSlope(g, c.drift);
    WindowEstimate(Median(c.win.raw), Least(c.win.raw), Greatest(c.win.raw),
                   Trunc(c.widths.wl), Trunc(c.widths.wh), slope, horizon)
  }

  function ServoView(g: Geometry, c: Ctl): ServoGeometry {
    ServoGeometry(c.setpoint, Max(g.deadband, Trunc(c.widths.wl)), g.theta, g.gain, g.rateCap, g.ffClamp)
  }

  /** A controller plugged into the decision seam is one policy over the reader's state. */
  function PolicyOf(g: Geometry, ctrl: Controller): Policy {
    (c: Ctl) => if Shaped(c) && |c.win.raw| > 0 && g.r > 0 && g.sr > 0
                then ctrl(Estimate(g, c), ServoView(g, c)) else (0.0, 0)
  }

  lemma PolicyOfIs(g: Geometry, ctrl: Controller, c: Ctl)
    requires Shaped(c) && |c.win.raw| > 0 && g.r > 0 && g.sr > 0
    ensures PolicyOf(g, ctrl)(c) == ctrl(Estimate(g, c), ServoView(g, c))
  {
    hide Estimate;
    hide ServoView;
  }

  // ---- The rank filter's loop ----------------------------------------------------

  const NO_RANK: int := -0x4000_0000_0000_0000

  lemma {:induction false} CountAboveConcat(a: seq<int>, b: seq<int>, x: int)
    ensures CountAbove(a + b, x) == CountAbove(a, x) + CountAbove(b, x)
  {
    if b == [] {
      assert a + b == a;
    } else {
      assert (a + b)[..|a + b| - 1] == a + b[..|b| - 1];
      CountAboveConcat(a, b[..|b| - 1], x);
    }
  }

  lemma {:induction false} AllAbove(s: seq<int>, x: int)
    requires forall i :: 0 <= i < |s| ==> s[i] > x
    ensures CountAbove(s, x) == |s|
  {
    if s != [] {
      AllAbove(s[..|s| - 1], x);
    }
  }

  predicate Descending(s: seq<int>) {
    forall i, j :: 0 <= i < j < |s| ==> s[i] >= s[j]
  }

  /** t is the |t| largest of h, in order, padded below with NO_RANK. */
  ghost predicate TopOf(t: seq<int>, h: seq<int>) {
    && Descending(t)
    && forall x :: x >= NO_RANK ==> CountAbove(t, x) == Min(|t|, CountAbove(h, x))
  }

  lemma SnocCount(h: seq<int>, v: int, x: int)
    ensures CountAbove(h + [v], x) == CountAbove(h, x) + if v > x then 1 else 0
  {
    assert (h + [v])[..|h|] == h;
  }

  lemma InsertCount(a: seq<int>, v: int, b: seq<int>, last: int, x: int)
    ensures CountAbove(a + [v] + b, x) == CountAbove(a + b + [last], x)
              + (if v > x then 1 else 0) - (if last > x then 1 else 0)
  {
    SnocCount(a, v, x);
    CountAboveConcat(a + [v], b, x);
    CountAboveConcat(a, b, x);
    SnocCount(a + b, last, x);
    hide CountAbove;
  }

  lemma InsertDescends(t: seq<int>, i: nat, v: int)
    requires Descending(t) && i < |t| && v > t[i] && (forall j :: 0 <= j < i ==> v <= t[j])
    ensures Descending(t[..i] + [v] + t[i..|t| - 1])
  {
    var t' := t[..i] + [v] + t[i..|t| - 1];
    forall a, b | 0 <= a < b < |t'|
      ensures t'[a] >= t'[b]
    {
      assert a < i ==> t'[a] == t[a];
      assert b < i ==> t'[b] == t[b];
      assert a > i ==> t'[a] == t[a - 1];
      assert b > i ==> t'[b] == t[b - 1];
    }
  }

  /** Inserting v before the first smaller entry and dropping the last one. */
  lemma TopInsert(t: seq<int>, i: nat, v: int, h: seq<int>)
    requires TopOf(t, h) && i < |t| && v > t[i] && (forall j :: 0 <= j < i ==> v <= t[j])
    ensures TopOf(t[..i] + [v] + t[i..|t| - 1], h + [v])
  {
    var n := |t|;
    var t' := t[..i] + [v] + t[i..n - 1];
    InsertDescends(t, i, v);
    hide Descending;
    forall x | x >= NO_RANK
      ensures CountAbove(t', x) == Min(|t'|, CountAbove(h + [v], x))
    {
      assert t == t[..i] + t[i..n - 1] + [t[n - 1]];
      InsertCount(t[..i], v, t[i..n - 1], t[n - 1], x);
      SnocCount(h, v, x);
      LastAbove(t, x);
      hide CountAbove;
    }
  }

  /** A value no larger than every kept one leaves the top as it is. */
  lemma TopSkip(t: seq<int>, v: int, h: seq<int>)
    requires TopOf(t, h) && forall j :: 0 <= j < |t| ==> v <= t[j]
    ensures TopOf(t, h + [v])
  {
    forall x | x >= NO_RANK
      ensures CountAbove(t, x) == Min(|t|, CountAbove(h + [v], x))
    {
      SnocCount(h, v, x);
      if v > x {
        AllAbove(t, x);
      }
    }
  }

  lemma TopStart(t: seq<int>)
    requires forall i :: 0 <= i < |t| ==> t[i] == NO_RANK
    ensures TopOf(t, [])
  {
    forall x | x >= NO_RANK
      ensures CountAbove(t, x) == Min(|t|, CountAbove([], x))
    {
      NoneAbove(t, x);
    }
  }

  /** Put v at i among the first n entries, shifting the rest down and the last one out. */
  method InsertAt(top: array<int>, n: nat, i: nat, v: int)
    requires i < n <= top.Length
    modifies top
    ensures top[..n] == old(top[..n])[..i] + [v] + old(top[..n])[i..n - 1]
  {
    ghost var was := top[..];
    forall j | i < j < n {
      top[j] := top[j - 1];
    }
    top[i] := v;
    ghost var want := was[..n][..i] + [v] + was[..n][i..n - 1];
    forall j | 0 <= j < n
      ensures top[j] == want[j]
    {
      assert j < i ==> want[j] == was[j];
      assert j > i ==> want[j] == was[j - 1];
    }
    assert top[..n] == want;
  }

  /** The top-n scan with its insertion shift returns the n-th largest entry. */
  method RankNth(h: seq<int>, rank: nat) returns (r: int)
    requires |h| > 0 && 1 <= rank <= 8
    requires forall k :: 0 <= k < |h| ==> h[k] > NO_RANK
    ensures r == NthLargest(h, rank)
  {
    hide TopOf;
    hide NthLargest;
    var n := rank;
    if |h| < n { n := |h|; }
    var top := new int[8];
    var p := 0;
    while p < n
      invariant 0 <= p <= n
      invariant forall i :: 0 <= i < p ==> top[i] == NO_RANK
    {
      top[p] := NO_RANK;
      p := p + 1;
    }
    TopStart(top[..n]);
    var k := 0;
    assert h[..k] == [];
    while k < |h|
      invariant 0 <= k <= |h|
      invariant TopOf(top[..n], h[..k])
    {
      var v := h[k];
      ghost var t := top[..n];
      assert h[..k + 1] == h[..k] + [v];
      var i := 0;
      while i < n
        invariant 0 <= i <= n
        invariant top[..n] == t
        invariant forall j :: 0 <= j < i ==> v <= t[j]
      {
        if v > top[i] {
          TopInsert(t, i, v, h[..k]);
          InsertAt(top, n, i, v);
          break;
        }
        i := i + 1;
      }
      if i == n {
        TopSkip(t, v, h[..k]);
      }
      k := k + 1;
    }
    assert h[..k] == h;
    r := top[n - 1];
    RankMatches(h, rank, top[..n]);
  }

  lemma RankMatches(h: seq<int>, rank: nat, t: seq<int>)
    requires |h| > 0 && rank >= 1 && |t| == Min(rank, |h|) && TopOf(t, h)
    requires forall k :: 0 <= k < |h| ==> h[k] > NO_RANK
    ensures t[|t| - 1] == NthLargest(h, rank)
  {
    var v := NthLargest(h, rank);
    SortedMembers(h, |h| - Min(rank, |h|));
    hide NthLargest;
    RankFilter(h, rank, v);
    RankFilter(h, rank, v - 1);
    LastAbove(t, v);
    LastAbove(t, v - 1);
  }

  lemma LastAbove(t: seq<int>, x: int)
    requires |t| > 0 && Descending(t)
    ensures t[|t| - 1] > x <==> CountAbove(t, x) >= |t|
  {
    if t[|t| - 1] > x {
      AllAbove(t, x);
    }
  }
}
