/** The jitter buffer itself: one interleaved ring with cumulative heads, its reader-owned
    control state, and the operations that update them in place. */
module JitterBuffer {
  import opened Layout
  import opened Order
  import opened JitterConfig
  import opened JitterControl
  import opened JitterServo
  import opened JitterRuns
  import opened JitterStream

  /** The channel-by-channel average of two frames, written to offset k of dst. */
  method AverageFrames(dst: array<real>, k: nat, x: seq<real>, y: seq<real>)
    requires |x| == |y| && k + |x| <= dst.Length
    modifies dst
    ensures dst[..] == Over(old(dst[..]), k, Mean(x, y))
  {
    ghost var before := dst[..];
    var ch := 0;
    while ch < |x|
      invariant 0 <= ch <= |x|
      invariant forall i :: 0 <= i < dst.Length && !(k <= i < k + ch) ==> dst[i] == before[i]
      invariant forall i :: k <= i < k + ch ==> dst[i] == (x[i - k] + y[i - k]) * 0.5
    {
      dst[k + ch] := (x[ch] + y[ch]) * 0.5;
      ch := ch + 1;
    }
    assert dst[..][..k] == before[..k];
    assert dst[..][k..k + |x|] == Mean(x, y);
    assert dst[..][k + |x|..] == before[k + |x|..];
  }

  function Mean(x: seq<real>, y: seq<real>): (r: seq<real>)
    requires |x| == |y|
    ensures |r| == |x|
  {
    seq(|x|, i requires 0 <= i < |x| => (x[i] + y[i]) * 0.5)
  }

  /** The frames a write keeps: whole frames only, and no more than the ring can hold. */
  function Clipped(src: seq<real>, nc: nat, capacity: nat): (r: seq<real>)
    requires nc > 0
    ensures |r| == Flat(Min(|src| / nc, capacity), nc)
  {
    var n := |src| / nc;
    ClipFits(|src|, nc, capacity);
    hide Flat;
    if n > capacity then src[Flat(n - capacity, nc)..Flat(n, nc)] else src[..Flat(n, nc)]
  }

  lemma ClipFits(samples: nat, nc: nat, capacity: nat)
    requires nc > 0
    ensures var n := samples / nc;
            && 0 <= n && 0 <= Flat(n, nc) <= samples && Flat(n, nc) == Flat(n - capacity, nc) + Flat(capacity, nc)
            && 0 <= Flat(capacity, nc) && (n > capacity ==> 0 <= Flat(n - capacity, nc))
  {
    var n := samples / nc;
    assert Flat(n, nc) <= samples;
    hide Flat;
    FlatNat(n, nc);
    FlatNat(capacity, nc);
    FlatSum(n - capacity, capacity, nc);
    if n > capacity {
      FlatNat(n - capacity, nc);
    }
  }

  /** What a write keeps ends where the source's whole frames end, sample by sample from the back,
      and is all of them when they fit. */
  lemma ClippedIsNewest(src: seq<real>, nc: nat, capacity: nat, k: nat)
    requires nc > 0
    ensures Flat(|src| / nc, nc) <= |src| && |Clipped(src, nc, capacity)| <= Flat(|src| / nc, nc)
    ensures k < |Clipped(src, nc, capacity)| ==>
              Clipped(src, nc, capacity)[|Clipped(src, nc, capacity)| - 1 - k] == src[Flat(|src| / nc, nc) - 1 - k]
    ensures |src| / nc <= capacity ==> |Clipped(src, nc, capacity)| == Flat(|src| / nc, nc)
  {
    ClipFits(|src|, nc, capacity);
    hide Flat;
  }

  class Buffer {
    const g: Geometry
    const ctrl: Controller
    const data: array<real>

    var writePos: int
    var readPos: int

    // Reader-owned state, grouped as the reader uses it.
    var setpoint: int
    var pendingTrim: int
    var started: bool
    var tick: int
    var lastWp: int
    var gapRun: int
    var frozen: bool
    var win: Window
    var widths: Widths
    var drift: Drift
    var meter: Meter
    var stats: Stats

    /** Every sample ever accepted, interleaved. */
    ghost var written: seq<real>

    /** The reader's state as one value. */
    function Control(): Ctl
      reads this
    {
      Ctl(readPos, setpoint, pendingTrim, started, tick, lastWp, gapRun, frozen, win, widths, drift, meter, stats)
    }

    /** The ring holds the recent stream. */
    ghost predicate Stored()
      reads this, data
    {
      && Sound(g) && Snug(g)
      && data.Length == Flat(g.capacity, g.nc)
      && writePos >= 0 && |written| == Flat(writePos, g.nc)
      && RingHolds(data[..], written)
    }

    ghost predicate Valid()
      reads this, data
    {
      Stored() && Ok(g, Control(), writePos)
    }

    constructor (g: Geometry, ctrl: Controller)
      requires Sound(g)
      ensures this.g == g && this.ctrl == ctrl && fresh(data)
      ensures Control() == Initial(g) && writePos == 0 && written == []
      ensures Snug(g) ==> Valid()
    {
      this.g, this.ctrl := g, ctrl;
      writePos, readPos := 0, 0;
      started, tick, lastWp, gapRun, frozen := false, 0, 0, 0, false;
      win, drift := Window([], []), Drift([], []);
      widths := Widths(seq(WIDTH_HISTORY, i => 0), seq(WIDTH_HISTORY, i => 0), 0, 0, 0.0, 0.0);
      meter, pendingTrim := Meter(0.0, 0.0), 0;
      setpoint := Min(Max(g.spBase, g.flDecl), g.spMax);
      stats := Stats(0, 0, 0, 0, 0, 0);
      written := [];
      FlatOrder(0, g.capacity, g.nc);
      data := new real[Flat(g.capacity, g.nc)](i => 0.0);
      new;
      InitialIsOk(g);
      if Snug(g) {
        FlatOrder(1, g.capacity, g.nc);
      }
    }

    // ---- Writing ----------------------------------------------------------------

    /** Copy the frames into the ring behind the write head, in one or two pieces. */
    method WriteToRing(src: seq<real>, nFrames: nat)
      requires Stored() && |src| == Flat(nFrames, g.nc) && nFrames <= g.capacity
      modifies data
      ensures RingHolds(data[..], written + src)
    {
      hide RingHolds;
      hide Flat;
      FlatUnits(g.nc);
      ghost var before := data[..];
      FrameAddress(writePos, 0, g.capacity, g.nc);
      var startFrame := writePos % g.capacity;
      RunOffsets(startFrame, nFrames, g.capacity, g.nc);
      var at := Flat(startFrame, g.nc);
      if startFrame + nFrames <= g.capacity {
        CopyInto(data, at, src);
      } else {
        var first := data.Length - at;
        OverWrapped(before, at, src[..first], src[first..]);
        CopyInto(data, at, src[..first]);
        CopyInto(data, 0, src[first..]);
      }
      WrapCopy(before, data[..], written, src, at);
    }

    /** Accept whole frames, oldest dropped if they exceed the ring, and publish them. */
    method Write(src: seq<real>)
      requires Valid()
      modifies this`writePos, this`written, data
      ensures Valid() && Control() == old(Control())
      ensures written == old(written) + Clipped(src, g.nc, g.capacity)
      ensures writePos == old(writePos) + Min(|src| / g.nc, g.capacity)
    {
      hide RingHolds;
      hide Flat;
      FlatUnits(g.nc);
      var nFrames := |src| / g.nc;
      ClipFits(|src|, g.nc, g.capacity);
      if nFrames == 0 {
        assert written + Clipped(src, g.nc, g.capacity) == written;
        return;
      }
      var frames := Clipped(src, g.nc, g.capacity);
      if nFrames > g.capacity {
        nFrames := g.capacity;
      }
      WriteToRing(frames, nFrames);
      written := written + frames;
      FlatSum(writePos, nFrames, g.nc);
      writePos := writePos + nFrames;
    }

    // ---- Reading from the ring ---------------------------------------------------

    /** n frames from position rp are published and not yet overwritten. */
    ghost predicate Readable(rp: int, n: int)
      reads this
    {
      0 <= rp && 0 <= n && rp + n <= writePos <= rp + g.capacity
    }

    method ReadFromRing(dst: array<real>, rp: int, n: nat)
      requires Stored() && Readable(rp, n) && dst != data && Flat(n, g.nc) <= dst.Length
      modifies dst
      ensures 0 <= Flat(rp, g.nc) && Flat(rp, g.nc) + Flat(n, g.nc) <= |written|
      ensures dst[..] == Over(old(dst[..]), 0, written[Flat(rp, g.nc)..Flat(rp, g.nc) + Flat(n, g.nc)])
    {
      hide RingHolds;
      hide Flat;
      hide Over;
      RecentFrames(|written|, g.capacity, g.nc, writePos, rp, n);
      FrameAddress(rp, 0, g.capacity, g.nc);
      var startFrame := rp % g.capacity;
      RunOffsets(startFrame, n, g.capacity, g.nc);
      var at, len := Flat(startFrame, g.nc), Flat(n, g.nc);
      WrappedRun(data[..], written, at, Flat(rp, g.nc), len);
      if startFrame + n <= g.capacity {
        CopyInto(dst, 0, data[at..at + len]);
      } else {
        var first := data.Length - at;
        CopyTwo(dst, data[at..], data[..len - first]);
      }
    }

    /** Summed per-channel discontinuity between two frames of the ring. */
    method FrameDiff(p: int, q: int) returns (d: real)
      requires Stored() && Readable(p, 1) && Readable(q, 1)
      ensures 0 <= Flat(p, g.nc) && Flat(p, g.nc) + g.nc <= |written| && 0 <= Flat(q, g.nc) && Flat(q, g.nc) + g.nc <= |written|
      ensures d == Discontinuity(written, Flat(p, g.nc), Flat(q, g.nc), g.nc)
    {
      hide RingHolds;
      hide Flat;
      var x := FrameAt(p);
      var y := FrameAt(q);
      ghost var a, b := Flat(p, g.nc), Flat(q, g.nc);
      d := 0.0;
      var ch := 0;
      while ch < g.nc
        invariant 0 <= ch <= g.nc
        invariant d == Discontinuity(written, a, b, ch)
      {
        var e := x[ch] - y[ch];
        if e < 0.0 {
          e := -e;
        }
        d := d + e;
        ch := ch + 1;
      }
    }

    /** The last least-discontinuous of the m adjacent frame pairs from rp on. */
    method LeastGap(rp: int, m: nat) returns (cut: nat)
      requires Stored() && Readable(rp, m + 1) && m > 0
      ensures 0 <= Flat(rp, g.nc) && Flat(rp, g.nc) + Flat(m, g.nc) + g.nc <= |written|
      ensures cut == LastArgMin(Gaps(written, g.nc, Flat(rp, g.nc), m))
    {
      hide RingHolds;
      hide Discontinuity;
      hide Gaps;
      hide LastArgMin;
      hide Flat;
      RecentFrames(|written|, g.capacity, g.nc, writePos, rp, m + 1);
      ghost var a := Flat(rp, g.nc);
      FlatNext(m, g.nc);
      FlatUnits(g.nc);
      FlatNat(m, g.nc);
      cut := 0;
      var best := -1.0;
      var i := 0;
      while i < m
        invariant 0 <= i <= m && 0 <= Flat(i, g.nc) <= Flat(m, g.nc)
        invariant i == 0 ==> best < 0.0
        invariant i > 0 ==> cut == LastArgMin(Gaps(written, g.nc, a, i)) && best == Gaps(written, g.nc, a, i)[cut] >= 0.0
      {
        var d := FrameDiff(rp + i, rp + i + 1);
        FlatOrder(i + 1, m, g.nc);
        FlatNat(i + 1, g.nc);
        GapStep(written, g.nc, rp, i);
        if best < 0.0 || d <= best {
          best := d;
          cut := i;
        }
        i := i + 1;
      }
    }

    /** The channels of one frame, as the ring holds them. */
    method FrameAt(p: int) returns (f: seq<real>)
      requires Stored() && Readable(p, 1)
      ensures 0 <= Flat(p, g.nc) && Flat(p, g.nc) + g.nc <= |written|
      ensures f == written[Flat(p, g.nc)..Flat(p, g.nc) + g.nc]
    {
      hide RingHolds;
      hide Flat;
      RingFrame(data[..], written, g.capacity, g.nc, writePos, p);
      var sb := Flat(p % g.capacity, g.nc);
      f := data[sb..sb + g.nc];
    }

    /** Copy one ring frame to offset k of dst. */
    method PutFrame(dst: array<real>, k: nat, p: int)
      requires Stored() && Readable(p, 1) && dst != data && k + g.nc <= dst.Length
      modifies dst
      ensures 0 <= Flat(p, g.nc) && Flat(p, g.nc) + g.nc <= |written|
      ensures dst[..] == Over(old(dst[..]), k, written[Flat(p, g.nc)..Flat(p, g.nc) + g.nc])
    {
      hide Flat;
      hide Over;
      var f := FrameAt(p);
      CopyInto(dst, k, f);
    }

    /** Put the average of the adjacent ring frames p and p + 1 at offset k of dst. */
    method PutAverage(dst: array<real>, k: nat, p: int)
      requires Stored() && Readable(p, 2) && dst != data && k + g.nc <= dst.Length
      modifies dst
      ensures 0 <= Flat(p, g.nc) && Flat(p, g.nc) + 2 * g.nc <= |written|
      ensures dst[..] == Over(old(dst[..]), k, Average(written, Flat(p, g.nc), g.nc))
    {
      hide Flat;
      hide Average;
      hide Mean;
      hide Over;
      var x := FrameAt(p);
      var y := FrameAt(p + 1);
      FlatNext(p, g.nc);
      AverageOf(written, Flat(p, g.nc), g.nc);
      AverageFrames(dst, k, x, y);
    }

    /** Frame j of a drop: the ring frame before the cut, the average at it, the next one after. */
    method DropFrame(dst: array<real>, rp: int, n: nat, cut: nat, j: nat)
      requires Stored() && Readable(rp, n + 1) && cut < n && j < n && dst != data && Flat(n, g.nc) <= dst.Length
      requires 0 <= Flat(rp, g.nc) && Flat(rp, g.nc) + Flat(n, g.nc) + g.nc <= |written|
      requires Flat(cut, g.nc) + g.nc <= Flat(n, g.nc) && Flat(j, g.nc) + g.nc <= Flat(n, g.nc)
      modifies dst
      ensures dst[..] == Over(old(dst[..]), Flat(j, g.nc),
                              Merged(written, g.nc, Flat(rp, g.nc), Flat(n, g.nc), Flat(cut, g.nc))[Flat(j, g.nc)..Flat(j, g.nc) + g.nc])
    {
      hide RingHolds;
      hide Merged;
      hide Average;
      hide Flat;
      hide Over;
      FlatNat(n, g.nc);
      FlatNat(cut, g.nc);
      FlatNat(j, g.nc);
      SpliceOffsets(j, cut, rp, g.nc);
      MergedFrames(written, g.nc, Flat(rp, g.nc), Flat(n, g.nc), Flat(cut, g.nc), Flat(j, g.nc));
      if j == cut {
        PutAverage(dst, Flat(j, g.nc), rp + j);
      } else {
        PutFrame(dst, Flat(j, g.nc), if j > cut then rp + j + 1 else rp + j);
      }
    }

    /** Frame j of an insertion: the ring frame before the cut, the average at it, the one
        before it after. */
    method InsertFrame(dst: array<real>, rp: int, n: nat, cut: nat, j: nat)
      requires Stored() && Readable(rp, n) && 0 < cut < n && j < n && dst != data && Flat(n, g.nc) <= dst.Length
      requires 0 <= Flat(rp, g.nc) && Flat(rp, g.nc) + Flat(n, g.nc) <= |written|
      requires g.nc <= Flat(cut, g.nc) && Flat(cut, g.nc) + g.nc <= Flat(n, g.nc) && Flat(j, g.nc) + g.nc <= Flat(n, g.nc)
      modifies dst
      ensures dst[..] == Over(old(dst[..]), Flat(j, g.nc),
                              Padded(written, g.nc, Flat(rp, g.nc), Flat(n, g.nc), Flat(cut, g.nc))[Flat(j, g.nc)..Flat(j, g.nc) + g.nc])
    {
      hide RingHolds;
      hide Padded;
      hide Average;
      hide Flat;
      hide Over;
      FlatNat(n, g.nc);
      FlatNat(cut, g.nc);
      FlatNat(j, g.nc);
      SpliceOffsets(j, cut, rp, g.nc);
      PaddedFrames(written, g.nc, Flat(rp, g.nc), Flat(n, g.nc), Flat(cut, g.nc), Flat(j, g.nc));
      if j == cut {
        PutAverage(dst, Flat(j, g.nc), rp + j - 1);
      } else {
        PutFrame(dst, Flat(j, g.nc), if j > cut then rp + j - 1 else rp + j);
      }
    }

    method FillDrop(dst: array<real>, rp: int, n: nat, cut: nat)
      requires Stored() && Readable(rp, n + 1) && cut < n && dst != data && Flat(n, g.nc) <= dst.Length
      requires 0 <= Flat(rp, g.nc) && Flat(rp, g.nc) + Flat(n, g.nc) + g.nc <= |written|
      requires 0 <= Flat(cut, g.nc) && Flat(cut, g.nc) + g.nc <= Flat(n, g.nc)
      modifies dst
      ensures dst[..] == Over(old(dst[..]), 0, Merged(written, g.nc, Flat(rp, g.nc), Flat(n, g.nc), Flat(cut, g.nc)))
    {
      hide RingHolds;
      hide Merged;
      hide Flat;
      FlatUnits(g.nc);
      hide Over;
      OverNothing(dst[..]);
      ghost var before := dst[..];
      ghost var block := Merged(written, g.nc, Flat(rp, g.nc), Flat(n, g.nc), Flat(cut, g.nc));
      var j := 0;
      while j < n
        invariant 0 <= j <= n && 0 <= Flat(j, g.nc) <= Flat(n, g.nc)
        invariant dst[..] == Over(before, 0, block[..Flat(j, g.nc)])
      {
        CutInside(j, n, g.nc);
        DropFrame(dst, rp, n, cut, j);
        OverGrows(before, block, Flat(j, g.nc), g.nc);
        j := j + 1;
      }
      assert block[..Flat(j, g.nc)] == block;
    }

    method FillInsert(dst: array<real>, rp: int, n: nat, cut: nat)
      requires Stored() && Readable(rp, n) && 0 < cut < n && dst != data && Flat(n, g.nc) <= dst.Length
      requires 0 <= Flat(rp, g.nc) && Flat(rp, g.nc) + Flat(n, g.nc) <= |written|
      requires g.nc <= Flat(cut, g.nc) && Flat(cut, g.nc) + g.nc <= Flat(n, g.nc)
      modifies dst
      ensures dst[..] == Over(old(dst[..]), 0, Padded(written, g.nc, Flat(rp, g.nc), Flat(n, g.nc), Flat(cut, g.nc)))
    {
      hide RingHolds;
      hide Padded;
      hide Flat;
      FlatUnits(g.nc);
      hide Over;
      OverNothing(dst[..]);
      ghost var before := dst[..];
      ghost var block := Padded(written, g.nc, Flat(rp, g.nc), Flat(n, g.nc), Flat(cut, g.nc));
      var j := 0;
      while j < n
        invariant 0 <= j <= n && 0 <= Flat(j, g.nc) <= Flat(n, g.nc)
        invariant dst[..] == Over(before, 0, block[..Flat(j, g.nc)])
      {
        CutInside(j, n, g.nc);
        InsertFrame(dst, rp, n, cut, j);
        OverGrows(before, block, Flat(j, g.nc), g.nc);
        j := j + 1;
      }
      assert block[..Flat(j, g.nc)] == block;
    }

    /** Play n frames out of n + 1, the pair at the cut averaged into one. */
    method SpliceDrop(dst: array<real>, rp: int, n: nat)
      requires Stored() && Readable(rp, n + 1) && n > 0 && dst != data && Flat(n, g.nc) <= dst.Length
      modifies dst
      ensures 0 <= Flat(rp, g.nc) && 0 <= Flat(n, g.nc) && Flat(rp, g.nc) + Flat(n, g.nc) + g.nc <= |written|
      ensures dst[..] == Over(old(dst[..]), 0, DropBlock(written, g.nc, Flat(rp, g.nc), n))
    {
      hide RingHolds;
      hide Merged;
      hide Gaps;
      hide LastArgMin;
      hide Flat;
      hide Over;
      var cut := LeastGap(rp, n);
      CutInside(cut, n, g.nc);
      FillDrop(dst, rp, n, cut);
    }

    /** Play n frames out of n - 1, with the average of the pair at the cut added. */
    method SpliceInsert(dst: array<real>, rp: int, n: nat)
      requires Stored() && Readable(rp, n) && n > 1 && dst != data && Flat(n, g.nc) <= dst.Length
      modifies dst
      ensures 0 <= Flat(rp, g.nc) && 0 <= Flat(n, g.nc) && Flat(rp, g.nc) + Flat(n, g.nc) <= |written|
      ensures dst[..] == Over(old(dst[..]), 0, InsertBlock(written, g.nc, Flat(rp, g.nc), n))
    {
      hide RingHolds;
      hide Padded;
      hide Gaps;
      hide LastArgMin;
      hide Flat;
      hide Over;
      FlatNext(n - 1, g.nc);
      FlatNat(n, g.nc);
      var least := LeastGap(rp, n - 1);
      var cut := least + 1;
      CutInside(cut, n, g.nc);
      CutInside(least, cut, g.nc);
      FillInsert(dst, rp, n, cut);
    }

    // ---- Sensing -------------------------------------------------------------------

    /** Close the sensing window: widths, drift history, setpoint, then the controller. */
    method CloseWindow()
      requires Sound(g) && Ok(g, Control().(win := EMPTY), writePos) && !frozen
      requires |win.raw| == |win.virt| > 0
      modifies this`win, this`widths, this`drift, this`setpoint, this`meter, this`pendingTrim
      ensures Control() == JitterControl.CloseWindow(g, PolicyOf(g, ctrl), old(Control()))
    {
      hide Median;
      hide Least;
      hide Greatest;
      hide HoldWidths;
      hide Setpoint;
      hide Estimate;
      hide ServoView;
      hide Clamp;
      hide PolicyOf;
      hide KeepLast;
      hide WidthsOk;
      ghost var c := Control();
      WindowStatsOrdered(win.virt);
      var medV, minV, maxV := Median(win.virt), Least(win.virt), Greatest(win.virt);
      widths := MeasureWidths(g, widths, Min(medV - minV, g.wlCap), maxV - medV);
      drift := Drift(KeepLast(drift.ticks + [tick]), KeepLast(drift.vals + [medV]));
      setpoint := Setpoint(g, widths.wl);
      assert Control() == Refresh(g, c);
      RefreshShaped(g, c);
      hide Refresh;
      PolicyOfIs(g, ctrl, Control());
      var (r, trim) := ctrl(Estimate(g, Control()), ServoView(g, Control()));
      meter := Meter(Clamp(r, g.rateCap), meter.debt);
      if trim > 0 {
        pendingTrim := trim;
      }
      win := EMPTY;
    }

    /** Note what was delivered since the last read: resume on a delivery, freeze after too
        long a run without one. */
    method NoteDelivery(wp: int)
      requires Shaped(Control())
      modifies this`tick, this`lastWp, this`gapRun, this`frozen, this`win, this`drift, this`meter
      ensures Control() == Deliver(g, old(Control()), wp)
    {
      tick := tick + 1;
      var delta := wp - lastWp;
      lastWp := wp;
      if delta > 0 {
        if frozen {
          frozen := false;
          win := EMPTY;
          drift := Drift([], []);
        }
        gapRun := 0;
      } else {
        gapRun := gapRun + 1;
        if !frozen && gapRun > g.freezeReads {
          frozen := true;
          meter := Meter(0.0, 0.0);
          var keep := |win.raw| - Min(gapRun - 1, |win.raw|);
          win := Window(win.raw[..keep], win.virt[..keep]);
        }
      }
    }

    /** Feed one pre-read observation to the window, with the freeze and resume rule. */
    method Sense(wp: int, fill: int)
      requires Sound(g) && Ok(g, Control(), writePos) && wp == writePos
      modifies this`tick, this`lastWp, this`gapRun, this`frozen,
               this`win, this`widths, this`drift, this`setpoint, this`meter, this`pendingTrim
      ensures Control() == JitterControl.Sense(g, PolicyOf(g, ctrl), old(Control()), wp, fill)
    {
      hide JitterControl.CloseWindow;
      hide PolicyOf;
      hide Deliver;
      if !started {
        return;
      }
      var now := tick;
      DeliverKeeps(g, Control(), wp);
      NoteDelivery(wp);
      if frozen {
        return;
      }
      win := Window(win.raw + [fill], win.virt + [wp - g.r * now]);
      if |win.raw| >= g.windowReads {
        CloseWindow();
      }
    }

    // ---- Reading -------------------------------------------------------------------

    /** Startup placement and pending trim. */
    method StartAndTrim(wp: int)
      modifies this`readPos, this`started, this`lastWp, this`pendingTrim, this`win, this`stats
      ensures Control() == var c := old(Control()); Trim(if c.readPos == 0 then Startup(c, wp) else c, wp)
    {
      if readPos == 0 {
        readPos := wp - setpoint;
        started := true;
        lastWp := wp;
      }
      if pendingTrim > 0 {
        var t := Min(pendingTrim, wp - readPos - setpoint);
        if t > 0 {
          readPos := readPos + t;
          stats := stats.(trims := stats.trims + 1);
        }
        pendingTrim := 0;
        win := EMPTY;
      }
    }

    /** Startup placement, pending trim and capacity valves. */
    method PlaceHead(wp: int)
      modifies this`readPos, this`started, this`lastWp, this`pendingTrim, this`win, this`stats
      ensures Control() == Place(g, old(Control()), wp)
    {
      hide Trim;
      hide Startup;
      StartAndTrim(wp);
      var fill := wp - readPos;
      if fill >= g.capacity {
        readPos := wp - setpoint;
        stats := stats.(laps := stats.laps + 1);
        win := EMPTY;
      } else if fill > g.capacity - (g.w + g.r) {
        readPos := wp - setpoint;
        stats := stats.(overruns := stats.overruns + 1);
        win := EMPTY;
      }
    }

    /** Play from the read head, paying at most one splice out of the accrued debt. */
    method PlayOut(dst: array<real>, n: nat)
      requires Stored() && 0 < n && Readable(readPos, n) && dst != data
      requires 0 <= Flat(n, g.nc) <= dst.Length
      modifies this`readPos, this`meter, this`stats, dst
      ensures (Control(), Playing(old(Control()), Accrue(g, old(Control())), writePos - old(readPos), n))
              == Play(old(Control()), Accrue(g, old(Control())), writePos - old(readPos), n)
      ensures var o := Playing(old(Control()), Accrue(g, old(Control())), writePos - old(readPos), n);
              Plays(written, g.nc, o, n, dst[..], old(dst[..]))
    {
      hide RingHolds;
      hide Flat;
      hide DropBlock;
      hide InsertBlock;
      hide Over;
      hide Accrue;
      var rp, fill := readPos, writePos - readPos;
      var owed := Accrue(g, Control());
      if owed >= 1.0 && fill >= n + 1 {
        meter := Meter(meter.rate, owed - 1.0);
        SpliceDrop(dst, rp, n);
        readPos := rp + n + 1;
        stats := stats.(dropped := stats.dropped + 1);
      } else if owed <= -1.0 && n >= 2 {
        meter := Meter(meter.rate, owed + 1.0);
        SpliceInsert(dst, rp, n);
        readPos := rp + n - 1;
        stats := stats.(inserted := stats.inserted + 1);
      } else {
        meter := Meter(meter.rate, owed);
        ReadFromRing(dst, rp, n);
        readPos := rp + n;
      }
    }

    /** Sense, then the underrun valve, then play. */
    method SenseAndPlay(dst: array<real>, n: nat) returns (ok: bool)
      requires Stored() && Ok(g, Control(), writePos) && dst != data
      requires 0 < n && 0 <= Flat(n, g.nc) <= dst.Length && writePos - readPos < g.capacity
      modifies this`readPos, this`tick, this`lastWp, this`gapRun, this`frozen,
               this`win, this`widths, this`drift, this`setpoint, this`meter, this`pendingTrim, this`stats, dst
      ensures var (c, o) := Serve(g, PolicyOf(g, ctrl), old(Control()), writePos, n);
              Control() == c && Delivers(written, g.nc, o, n, dst[..], old(dst[..]), ok)
    {
      hide RingHolds;
      hide Flat;
      hide Block;
      hide JitterControl.Sense;
      hide Play;
      hide Accrue;
      hide PolicyOf;
      var wp, fill := writePos, writePos - readPos;
      SenseKeeps(g, PolicyOf(g, ctrl), Control(), wp, fill);
      Sense(wp, fill);
      if fill < n {
        Silence(dst);
        stats := stats.(underruns := stats.underruns + 1);
        return false;
      }
      PlayOut(dst, n);
      return true;
    }

    /** One read: startup gate, trim, capacity valves, sensing, underrun valve, play. The state
        moves exactly as ReadStep says, and the samples are exactly those of the stream at
        the positions it names. */
    method Read(dst: array<real>) returns (ok: bool)
      requires Valid() && dst != data
      modifies this`readPos, this`started, this`tick, this`lastWp, this`gapRun, this`frozen,
               this`win, this`widths, this`drift, this`setpoint, this`meter, this`pendingTrim, this`stats, dst
      ensures Valid() && writePos == old(writePos) && written == old(written)
      ensures var n := dst.Length / g.nc;
              var (c, o) := ReadStep(g, PolicyOf(g, ctrl), old(Control()), writePos, n);
              Control() == c && Delivers(written, g.nc, o, n, dst[..], old(dst[..]), ok)
    {
      hide RingHolds;
      hide Flat;
      hide Plays;
      hide Place;
      hide Serve;
      hide PolicyOf;
      var n := dst.Length / g.nc;
      ReadStaysOk(g, PolicyOf(g, ctrl), Control(), writePos, n);
      if n == 0 {
        return true;
      }
      if readPos == 0 && writePos < setpoint {
        Silence(dst);
        return false;
      }
      PlaceKeeps(g, Control(), writePos);
      hide Ok;
      PlaceHead(writePos);
      WholeFrames(dst.Length, g.nc);
      ok := SenseAndPlay(dst, n);
    }
  }

  /** What a read hands back: nothing touched, all silence, or the block of its outcome. */
  predicate Delivers(st: seq<real>, nc: nat, o: Outcome, n: nat, dst: seq<real>, before: seq<real>, ok: bool) {
    && ok == !o.Silent()
    && (o.Idle? ==> dst == before)
    && (o.Silent() ==> |dst| == |before| && forall i :: 0 <= i < |dst| ==> dst[i] == 0.0)
    && (o.Produces() ==> Plays(st, nc, o, n, dst, before))
  }

  method Silence(dst: array<real>)
    modifies dst
    ensures forall i :: 0 <= i < dst.Length ==> dst[i] == 0.0
  {
    forall i | 0 <= i < dst.Length {
      dst[i] := 0.0;
    }
  }

  lemma WholeFrames(len: nat, nc: nat)
    requires nc > 0
    ensures 0 <= Flat(len / nc, nc) <= len
  {
    FlatNat(len / nc, nc);
  }

  function Playing(c: Ctl, debt: real, fill: int, n: int): Outcome {
    Play(c, debt, fill, n).1
  }

  /** A producing read filled its n frames with the block of its outcome and left the rest. */
  predicate Plays(st: seq<real>, nc: nat, o: Outcome, n: nat, dst: seq<real>, before: seq<real>) {
    && nc > 0 && n > 0 && o.Produces() && o.at >= 0 && (o.Insertion? ==> n >= 2)
    && 0 <= Flat(o.at, nc) && Flat(o.at, nc) + Flat(n, nc) + (if o.Drop? then nc else 0) <= |st|
    && 0 <= Flat(n, nc) <= |before|
    && dst == Over(before, 0, Block(st, nc, o, n))
  }

  /** Construction from settings; None is the constructor's panic. */
  method NewJitterBuffer(cfg: Settings, ctrl: Controller) returns (b: Option<Buffer>)
    requires cfg.sampleRate >= 0
    ensures b.None? ==> WriterFrames(cfg) <= 0 || ReaderFrames(cfg) <= 0
                        || exists grain :: IsGcd(grain, WriterFrames(cfg), ReaderFrames(cfg)) && Derive(cfg, grain).None?
    ensures b.Some? ==> fresh(b.value) && Sound(b.value.g) && b.value.ctrl == ctrl
    ensures b.Some? && Snug(b.value.g) ==> b.value.Valid() && b.value.Control() == Initial(b.value.g)
    ensures b.Some? ==> exists grain :: IsGcd(grain, WriterFrames(cfg), ReaderFrames(cfg)) && Derive(cfg, grain) == Some(b.value.g)
  {
    hide Derive;
    hide IsGcd;
    var w, r := WriterFrames(cfg), ReaderFrames(cfg);
    if w <= 0 || r <= 0 {
      return None;
    }
    var grain := Gcd(w, r);
    var geo := Derive(cfg, grain);
    if geo.None? {
      return None;
    }
    DerivedGeometry(cfg, grain);
    var buf := new Buffer(geo.value, ctrl);
    b := Some(buf);
  }

  /** Record one window's widths and hold them; the rank filter runs its own loop. */
  method MeasureWidths(g: Geometry, h: Widths, wlMeas: int, whMeas: int) returns (r: Widths)
    requires Sound(g) && WidthsOk(g, h) && 0 <= wlMeas <= g.wlCap && 0 <= whMeas
    ensures r == HoldWidths(g, h, wlMeas, whMeas)
  {
    hide NthLargest;
    var wlHist := h.wlHist[h.histPos := wlMeas];
    var whHist := h.whHist[h.histPos := whMeas];
    var histLen := if h.histLen < WIDTH_HISTORY then h.histLen + 1 else h.histLen;
    var wlEff := RankNth(wlHist[..histLen], WIDTH_RANK);
    var whEff := RankNth(whHist[..histLen], WIDTH_RANK);
    r := Widths(wlHist, whHist, histLen, (h.histPos + 1) % WIDTH_HISTORY,
                RMax(wlEff as real, h.wl - g.narrowStep), RMax(whEff as real, h.wh - g.narrowStep));
  }

  lemma RefreshShaped(g: Geometry, c: Ctl)
    requires Sound(g) && Shaped(c) && |c.win.raw| > 0
    ensures Shaped(Refresh(g, c)) && Refresh(g, c).win == c.win
  {
    hide NthLargest;
    hide Median;
    hide Setpoint;
  }

  /** The average of the two frames starting at flat position a. */
  function Average(st: seq<real>, a: nat, nc: nat): (r: seq<real>)
    requires a + 2 * nc <= |st|
    ensures |r| == nc
  {
    seq(nc, ch requires 0 <= ch < nc => (st[a + ch] + st[a + nc + ch]) * 0.5)
  }

  lemma AverageOf(st: seq<real>, a: nat, nc: nat)
    requires a + 2 * nc <= |st|
    ensures Average(st, a, nc) == Mean(st[a..a + nc], st[a + nc..a + nc + nc])
  {
  }

  lemma SpliceOffsets(j: nat, cut: nat, rp: nat, nc: nat)
    ensures j < cut ==> Flat(j, nc) + nc <= Flat(cut, nc)
    ensures j > cut ==> Flat(cut, nc) + nc <= Flat(j, nc)
    ensures Flat(rp + j, nc) == Flat(rp, nc) + Flat(j, nc)
    ensures Flat(rp + j + 1, nc) == Flat(rp, nc) + Flat(j, nc) + nc
    ensures Flat(rp + j - 1, nc) == Flat(rp, nc) + Flat(j, nc) - nc
  {
    hide Flat;
    FlatSum(rp, j, nc);
    FlatNext(rp + j, nc);
    FlatNext(rp + j - 1, nc);
    if j < cut {
      CutInside(j, cut, nc);
    } else if j > cut {
      CutInside(cut, j, nc);
    }
  }

  /** What a merged block holds, frame by frame. */
  lemma MergedFrames(st: seq<real>, nc: nat, a: nat, len: nat, c: nat, k: nat)
    requires a + len + nc <= |st| && c + nc <= len && k + nc <= len
    ensures k + nc <= c ==> Merged(st, nc, a, len, c)[k..k + nc] == st[a + k..a + k + nc]
    ensures k == c ==> Merged(st, nc, a, len, c)[k..k + nc] == Average(st, a + k, nc)
    ensures k >= c + nc ==> Merged(st, nc, a, len, c)[k..k + nc] == st[a + k + nc..a + k + nc + nc]
  {
    var b := Merged(st, nc, a, len, c)[k..k + nc];
    if k + nc <= c {
      SameFrame(b, st, a + k);
    } else if k >= c + nc {
      SameFrame(b, st, a + k + nc);
    }
  }

  /** What a padded block holds, frame by frame. */
  lemma PaddedFrames(st: seq<real>, nc: nat, a: nat, len: nat, c: nat, k: nat)
    requires a + len <= |st| && nc <= c && c + nc <= len && k + nc <= len
    ensures k + nc <= c ==> Padded(st, nc, a, len, c)[k..k + nc] == st[a + k..a + k + nc]
    ensures k == c ==> Padded(st, nc, a, len, c)[k..k + nc] == Average(st, a + k - nc, nc)
    ensures k >= c + nc ==> Padded(st, nc, a, len, c)[k..k + nc] == st[a + k - nc..a + k]
  {
    var b := Padded(st, nc, a, len, c)[k..k + nc];
    if k + nc <= c {
      SameFrame(b, st, a + k);
    } else if k >= c + nc {
      SameFrame(b, st, a + k - nc);
    }
  }

  lemma SameFrame(b: seq<real>, st: seq<real>, at: nat)
    requires at + |b| <= |st| && forall i :: 0 <= i < |b| ==> b[i] == st[at + i]
    ensures b == st[at..at + |b|]
  {
  }

  lemma GapStep(st: seq<real>, nc: nat, rp: nat, i: nat)
    requires Flat(rp, nc) + Flat(i + 1, nc) + nc <= |st|
    ensures Flat(rp, nc) + Flat(i, nc) + nc <= |st|
    ensures var s, s' := Gaps(st, nc, Flat(rp, nc), i), Gaps(st, nc, Flat(rp, nc), i + 1);
            && Flat(rp + i, nc) + nc <= |st| && Flat(rp + i + 1, nc) + nc <= |st|
            && s' == s + [Discontinuity(st, Flat(rp + i, nc), Flat(rp + i + 1, nc), nc)]
            && LastArgMin(s') == if i == 0 || s'[i] <= s[LastArgMin(s)] then i else LastArgMin(s)
  {
    FlatNext(i, nc);
    FlatSum(rp, i, nc);
    FlatNext(rp + i, nc);
    FlatOrder(0, i, nc);
    FlatOrder(0, rp, nc);
    hide Flat;
    hide Discontinuity;
  }

  /** A recent run of samples sits in the ring in one piece or, wrapped, in two. */
  lemma WrappedRun(d: seq<real>, st: seq<real>, at: int, b: int, len: int)
    requires RingHolds(d, st) && 0 <= len <= |d| && 0 <= b && b + len <= |st| && |st| - |d| <= b
    requires Slot(b, |d|) == at
    ensures at + len <= |d| ==> d[at..at + len] == st[b..b + len]
    ensures at + len > |d| ==> d[at..] + d[..len - (|d| - at)] == st[b..b + len]
  {
    var first := |d| - at;
    if len <= first {
      RingRun(d, st, at, b, len);
    } else {
      RingRun(d, st, at, b, first);
      SlotOfSum(b, first, |d|);
      RingRun(d, st, 0, b + first, len - first);
      assert st[b..b + len] == st[b..b + first] + st[b + first..b + len];
    }
  }

  lemma WrapCopy(d: seq<real>, d': seq<real>, st: seq<real>, src: seq<real>, at: nat)
    requires RingHolds(d, st) && |src| <= |d| && Slot(|st|, |d|) == at
    requires at + |src| <= |d| ==> d' == d[..at] + src + d[at + |src|..]
    requires at + |src| > |d| ==>
               d' == src[|d| - at..] + d[at + |src| - |d|..at] + src[..|d| - at]
    ensures RingHolds(d', st + src)
  {
    hide Slot;
    var n := |d|;
    forall q | |st| <= q < |st| + |src|
      ensures d'[Slot(q, n)] == src[q - |st|]
    {
      SlotOfSum(|st|, q - |st|, n);
    }
    forall q | |st| + |src| - n <= q < |st|
      ensures d'[Slot(q, n)] == d[Slot(q, n)]
    {
      SlotOfSum(|st| - n, q - (|st| - n), n);
      SlotOfSum(|st| - n, n, n);
    }
    RingAppend(d, d', st, src);
  }
}
