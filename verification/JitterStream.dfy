/** The audio side of a jitter buffer: a flat interleaved sample stream, the ring that holds
    its recent part, and the blocks a read plays out of it. Sample q of the stream is channel
    q % nc of frame q / nc. */
module JitterStream {
  import opened Layout
  import opened Order
  import opened JitterControl

  // ---- Ring addressing -------------------------------------------------------

  /** Where sample q lives in a ring of n cells. */
  function Slot(q: int, n: int): (r: int)
    requires n > 0
    ensures 0 <= r < n
  {
    q % n
  }

  /** The ring d holds the last |d| samples of the stream st. */
  predicate RingHolds(d: seq<real>, st: seq<real>) {
    && |d| > 0
    && forall q :: 0 <= q < |st| && |st| - |d| <= q ==> d[Slot(q, |d|)] == st[q]
  }

  lemma DivModUnique(n: int, q1: int, r1: int, q2: int, r2: int)
    requires q1 * n + r1 == q2 * n + r2 && 0 <= r1 < n && 0 <= r2 < n
    ensures q1 == q2 && r1 == r2
  {
    if q1 < q2 {
      MulMono(q1 + 1, q2, n);
    } else if q2 < q1 {
      MulMono(q2 + 1, q1, n);
    }
  }

  lemma SlotIs(x: int, k: int, r: int, n: int)
    requires n > 0 && x == k * n + r && 0 <= r < n
    ensures Slot(x, n) == r
  {
    DivModUnique(n, k, r, x / n, x % n);
  }

  lemma SlotOfSum(s: int, i: int, n: int)
    requires n > 0 && 0 <= i <= n
    ensures Slot(s + i, n) == if Slot(s, n) + i < n then Slot(s, n) + i else Slot(s, n) + i - n
  {
    var k, m := s / n, Slot(s, n);
    assert s == k * n + m;
    hide Slot;
    if m + i < n {
      SlotIs(s + i, k, m + i, n);
    } else {
      assert (k + 1) * n == k * n + n;
      SlotIs(s + i, k + 1, m + i - n, n);
    }
  }

  lemma SlotsDistinct(a: int, b: int, n: int)
    requires n > 0 && a < b < a + n
    ensures Slot(a, n) != Slot(b, n)
  {
    hide Slot;
    SlotOfSum(a, b - a, n);
  }

  /** The frame address Flat(p % capacity, nc) + ch is the flat address wrapped to the ring size. */
  lemma FrameAddress(p: int, ch: int, capacity: int, nc: int)
    requires capacity > 0 && nc > 0 && p >= 0 && 0 <= ch < nc
    ensures Flat(capacity, nc) > 0
    ensures Slot(Flat(p, nc) + ch, Flat(capacity, nc)) == Flat(p % capacity, nc) + ch
    ensures 0 <= Flat(p % capacity, nc) && Flat(p % capacity, nc) + nc <= Flat(capacity, nc)
  {
    var k, r := p / capacity, p % capacity;
    assert p == k * capacity + r;
    MulMono(1, capacity, nc);
    MulMono(0, r, nc);
    MulMono(r + 1, capacity, nc);
    assert p * nc + ch == k * (capacity * nc) + (r * nc + ch);
    SlotIs(Flat(p, nc) + ch, k, Flat(r, nc) + ch, Flat(capacity, nc));
  }

  /** Overwriting the next |src| ring cells appends src to what the ring holds. */
  lemma RingAppend(d: seq<real>, d': seq<real>, st: seq<real>, src: seq<real>)
    requires RingHolds(d, st) && |d'| == |d| && |src| <= |d|
    requires forall q :: |st| <= q < |st| + |src| ==> d'[Slot(q, |d|)] == src[q - |st|]
    requires forall q :: |st| + |src| - |d| <= q < |st| ==> d'[Slot(q, |d|)] == d[Slot(q, |d|)]
    ensures RingHolds(d', st + src)
  {
    hide Slot;
  }

  /** A run of recent samples that does not wrap is read back as written. */
  lemma RingRun(d: seq<real>, st: seq<real>, a: int, b: int, len: int)
    requires RingHolds(d, st) && 0 <= len && 0 <= b && b + len <= |st| && |st| - |d| <= b
    requires Slot(b, |d|) == a && a + len <= |d|
    ensures d[a..a + len] == st[b..b + len]
  {
    hide Slot;
    var x, y := d[a..a + len], st[b..b + len];
    forall i | 0 <= i < |x|
      ensures x[i] == y[i]
    {
      SlotOfSum(b, i, |d|);
      assert d[Slot(b + i, |d|)] == st[b + i];
    }
  }

  /** Every channel of a frame that is still in the ring is read back as written. */
  lemma RingFrame(d: seq<real>, st: seq<real>, capacity: int, nc: int, wp: int, p: int)
    requires capacity > 0 && nc > 0 && RingHolds(d, st) && |d| == Flat(capacity, nc) && |st| == Flat(wp, nc)
    requires 0 <= p < wp <= p + capacity
    ensures var a, b := Flat(p % capacity, nc), Flat(p, nc);
            && 0 <= a && a + nc <= |d| && 0 <= b && b + nc <= |st|
            && d[a..a + nc] == st[b..b + nc]
  {
    hide RingHolds;
    hide Flat;
    RecentFrames(|st|, capacity, nc, wp, p, 1);
    FlatUnits(nc);
    FrameAddress(p, 0, capacity, nc);
    RingRun(d, st, Flat(p % capacity, nc), Flat(p, nc), nc);
  }

  lemma RecentFrames(samples: int, capacity: int, nc: int, wp: int, p: int, n: int)
    requires nc > 0 && samples == Flat(wp, nc) && 0 <= p && 0 <= n && p + n <= wp <= p + capacity
    ensures 0 <= Flat(p, nc) && Flat(p, nc) + Flat(n, nc) <= samples && samples - Flat(capacity, nc) <= Flat(p, nc)
  {
    hide Flat;
    FlatUnits(nc);
    FlatOrder(0, p, nc);
    FlatOrder(p + n, wp, nc);
    FlatOrder(wp, p + capacity, nc);
    FlatSum(p, n, nc);
    FlatSum(p, capacity, nc);
  }

  /** Sample offsets of a run of n frames starting at ring frame start. */
  lemma RunOffsets(start: int, n: int, capacity: int, nc: int)
    requires 0 <= start < capacity && 0 <= n <= capacity && nc > 0
    ensures 0 <= Flat(start, nc) < Flat(capacity, nc) && 0 <= Flat(n, nc) <= Flat(capacity, nc)
    ensures start + n <= capacity ==> Flat(start, nc) + Flat(n, nc) <= Flat(capacity, nc)
    ensures start + n > capacity ==> Flat(start, nc) + Flat(n, nc) > Flat(capacity, nc)
  {
    hide Flat;
    FlatUnits(nc);
    FlatOrder(0, start, nc);
    FlatOrder(start + 1, capacity, nc);
    FlatNext(start, nc);
    FlatOrder(0, n, nc);
    FlatOrder(n, capacity, nc);
    FlatSum(start, n, nc);
    if start + n <= capacity {
      FlatOrder(start + n, capacity, nc);
    } else {
      FlatOrder(capacity + 1, start + n, nc);
      FlatNext(capacity, nc);
    }
  }

  // ---- Splice cuts -------------------------------------------------------------

  /** Summed per-channel discontinuity between the frames at flat positions a and b. */
  function Discontinuity(st: seq<real>, a: nat, b: nat, channels: nat): (d: real)
    requires a + channels <= |st| && b + channels <= |st|
    ensures d >= 0.0
  {
    if channels == 0 then 0.0
    else Discontinuity(st, a, b, channels - 1) + Abs(st[a + channels - 1] - st[b + channels - 1])
  }

  /** The discontinuities of m adjacent frame pairs, the first starting at flat position a. */
  function Gaps(st: seq<real>, nc: nat, a: nat, m: nat): (s: seq<real>)
    requires a + Flat(m, nc) + nc <= |st|
    ensures |s| == m
  {
    if m == 0 then []
    else
      FlatNext(m - 1, nc);
      FlatOrder(0, m - 1, nc);
      Gaps(st, nc, a, m - 1) + [Discontinuity(st, a + Flat(m - 1, nc), a + Flat(m, nc), nc)]
  }

  lemma {:induction false} GapsAt(st: seq<real>, nc: nat, a: nat, m: nat, i: nat)
    requires a + Flat(m, nc) + nc <= |st| && i < m
    ensures 0 <= Flat(i, nc) && Flat(i + 1, nc) <= Flat(m, nc)
    ensures Gaps(st, nc, a, m)[i] == Discontinuity(st, a + Flat(i, nc), a + Flat(i + 1, nc), nc)
  {
    FlatOrder(0, i, nc);
    FlatOrder(i + 1, m, nc);
    FlatNext(m - 1, nc);
    hide Discontinuity;
    hide Flat;
    if i < m - 1 {
      GapsAt(st, nc, a, m - 1, i);
    }
  }

  /** The last position of the least value. */
  function LastArgMin(s: seq<real>): (k: nat)
    requires |s| > 0
    ensures k < |s|
    ensures forall i :: 0 <= i < |s| ==> s[k] <= s[i]
    ensures forall i :: k < i < |s| ==> s[k] < s[i]
  {
    if |s| == 1 then 0
    else
      var k := LastArgMin(s[..|s| - 1]);
      if s[|s| - 1] <= s[k] then |s| - 1 else k
  }

  // ---- Blocks ------------------------------------------------------------------

  /** len samples from flat position a with the frame pair at offset c merged into its average. */
  function Merged(st: seq<real>, nc: nat, a: nat, len: nat, c: nat): (b: seq<real>)
    requires a + len + nc <= |st| && c + nc <= len
    ensures |b| == len
  {
    seq(len, k requires 0 <= k < len =>
      if k < c then st[a + k]
      else if k < c + nc then (st[a + k] + st[a + k + nc]) * 0.5
      else st[a + k + nc])
  }

  /** len samples from flat position a with the average of a frame pair added at offset c. */
  function Padded(st: seq<real>, nc: nat, a: nat, len: nat, c: nat): (b: seq<real>)
    requires a + len <= |st| && nc <= c && c + nc <= len
    ensures |b| == len
  {
    seq(len, k requires 0 <= k < len =>
      if k < c then st[a + k]
      else if k < c + nc then (st[a + k - nc] + st[a + k]) * 0.5
      else st[a + k - nc])
  }

  lemma CutInside(cut: nat, n: nat, nc: nat)
    requires cut < n
    ensures 0 <= Flat(cut, nc) && Flat(cut, nc) + nc <= Flat(n, nc)
    ensures Flat(cut + 1, nc) == Flat(cut, nc) + nc
  {
    FlatOrder(cut + 1, n, nc);
    FlatOrder(0, cut, nc);
  }

  /** Where a drop of one frame cuts: the last least-discontinuous of the n consumed pairs. */
  function DropCut(st: seq<real>, nc: nat, a: nat, n: nat): nat
    requires n > 0 && a + Flat(n, nc) + nc <= |st|
  {
    LastArgMin(Gaps(st, nc, a, n))
  }

  /** Where an inserted frame goes: after the first frame of the last least-discontinuous pair. */
  function InsertCut(st: seq<real>, nc: nat, a: nat, n: nat): nat
    requires n > 1 && a + Flat(n, nc) <= |st|
  {
    FlatNext(n - 1, nc);
    1 + LastArgMin(Gaps(st, nc, a, n - 1))
  }

  function DropBlock(st: seq<real>, nc: nat, a: nat, n: nat): (b: seq<real>)
    requires n > 0 && a + Flat(n, nc) + nc <= |st|
    ensures |b| == Flat(n, nc)
  {
    var cut := DropCut(st, nc, a, n);
    CutInside(cut, n, nc);
    Merged(st, nc, a, Flat(n, nc), Flat(cut, nc))
  }

  function InsertBlock(st: seq<real>, nc: nat, a: nat, n: nat): (b: seq<real>)
    requires n > 1 && a + Flat(n, nc) <= |st|
    ensures |b| == Flat(n, nc)
  {
    var cut := InsertCut(st, nc, a, n);
    CutInside(cut, n, nc);
    CutInside(cut - 1, cut, nc);
    Padded(st, nc, a, Flat(n, nc), Flat(cut, nc))
  }

  /** A drop, frame by frame and channel by channel: at a pair that is no less continuous than any
      other, one averaged frame stands for two. */
  lemma DropFrame(st: seq<real>, nc: nat, a: nat, n: nat, f: nat, ch: nat)
    requires n > 0 && f < n && ch < nc && a + Flat(n, nc) + nc <= |st|
    ensures 0 <= Flat(f, nc) && Flat(f, nc) + nc <= Flat(n, nc)
    ensures var cut, k := DropCut(st, nc, a, n), Flat(f, nc) + ch;
            && cut < n && Gaps(st, nc, a, n)[cut] <= Gaps(st, nc, a, n)[f]
            && DropBlock(st, nc, a, n)[k]
               == if f < cut then st[a + k] else if f == cut then (st[a + k] + st[a + k + nc]) / 2.0 else st[a + k + nc]
  {
    var cut := DropCut(st, nc, a, n);
    CutInside(cut, n, nc);
    CutInside(f, n, nc);
    hide Flat;
    hide Gaps;
    if f < cut {
      CutInside(f, cut, nc);
    } else if f > cut {
      CutInside(cut, f, nc);
    }
  }

  /** An insertion: after the first frame of such a pair comes their average, and the rest follows
      one frame later. */
  lemma InsertFrame(st: seq<real>, nc: nat, a: nat, n: nat, f: nat, ch: nat)
    requires n > 1 && f < n && ch < nc && a + Flat(n, nc) <= |st|
    ensures 0 <= Flat(f, nc) && Flat(f, nc) + nc <= Flat(n, nc) && a + Flat(n - 1, nc) + nc <= |st|
    ensures var cut, k := InsertCut(st, nc, a, n), Flat(f, nc) + ch;
            && 1 <= cut < n && (f < n - 1 ==> Gaps(st, nc, a, n - 1)[cut - 1] <= Gaps(st, nc, a, n - 1)[f])
            && (f > 0 ==> k >= nc)
            && InsertBlock(st, nc, a, n)[k]
               == if f < cut then st[a + k] else if f == cut then (st[a + k - nc] + st[a + k]) / 2.0 else st[a + k - nc]
  {
    FlatNext(n - 1, nc);
    var cut := InsertCut(st, nc, a, n);
    CutInside(cut, n, nc);
    CutInside(cut - 1, cut, nc);
    CutInside(f, n, nc);
    hide Flat;
    hide Gaps;
    if f < cut {
      CutInside(f, cut, nc);
    } else if f > cut {
      CutInside(cut, f, nc);
    }
    if f > 0 {
      CutInside(f - 1, f, nc);
    }
  }

  /** The n frames a producing read plays from the stream. */
  function Block(st: seq<real>, nc: nat, o: Outcome, n: nat): (b: seq<real>)
    requires nc > 0 && n > 0 && o.Produces() && o.at >= 0
    requires o.Insertion? ==> n >= 2
    requires Flat(o.at, nc) + Flat(n, nc) + (if o.Drop? then nc else 0) <= |st|
    ensures |b| == Flat(n, nc)
  {
    var a := Flat(o.at, nc);
    if o.Drop? then DropBlock(st, nc, a, n)
    else if o.Insertion? then InsertBlock(st, nc, a, n)
    else st[a..a + Flat(n, nc)]
  }
}
