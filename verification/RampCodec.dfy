/** The self-describing ramp signal: stream position p is sent as the value 1 + p mod 2^20 on
    every channel, silence is zero, and a splice average is a half-integer. */
module RampCodec {
  import opened Layout
  import opened JitterStream

  const RAMP_WRAP := 0x10_0000

  function Ramp(p: int): real {
    (1 + p % RAMP_WRAP) as real
  }

  datatype SampleKind = SilenceSample | PlainAt(w: int) | MarkerSample | AlienSample

  /** Decode one sample; a plain sample carries its wrapped position. */
  function Classify(v: real): SampleKind {
    if v == 0.0 then SilenceSample
    else
      var i := if v >= 0.0 then v.Floor else -((-v).Floor);
      var frac := v - i as real;
      if frac == 0.0 then
        if 1 <= i <= RAMP_WRAP then PlainAt(i - 1) else AlienSample
      else if frac == 0.5 then MarkerSample
      else AlienSample
  }

  /** The average a splice makes of positions p and p + 1. */
  function MarkerValue(p: int): real {
    (Ramp(p) + Ramp(p + 1)) * 0.5
  }

  /** The position congruent to w nearest to the expected next one. */
  function UnwrapPos(lastAbs: int, w: int): int {
    var next := lastAbs + 1;
    var d := (w - next % RAMP_WRAP + RAMP_WRAP) % RAMP_WRAP;
    if d > RAMP_WRAP / 2 then next + d - RAMP_WRAP else next + d
  }

  /** Every position survives the codec up to the wrap. */
  lemma PlainRoundTrip(p: int)
    ensures Classify(Ramp(p)) == PlainAt(p % RAMP_WRAP)
  {
    var i := 1 + p % RAMP_WRAP;
    assert (i as real).Floor == i;
  }

  /** Unwrapping recovers a position exactly when it is less than half a wrap behind the expected
      one or at most half a wrap ahead. */
  lemma UnwrapExact(lastAbs: int, pos: int)
    requires lastAbs >= 0
    ensures UnwrapPos(lastAbs, pos % RAMP_WRAP) == pos <==> -(RAMP_WRAP / 2) < pos - (lastAbs + 1) <= RAMP_WRAP / 2
  {
    var next := lastAbs + 1;
    var j := pos - next;
    var d := (pos % RAMP_WRAP - next % RAMP_WRAP + RAMP_WRAP) % RAMP_WRAP;
    assert d == j % RAMP_WRAP;
  }

  /** Decoder positions may differ from stream positions by whole wraps. */
  lemma RampPeriodic(p: int, base: int)
    requires base % RAMP_WRAP == 0
    ensures (p + base) % RAMP_WRAP == p % RAMP_WRAP
    ensures Ramp(p + base) == Ramp(p)
    ensures MarkerValue(p + base) == MarkerValue(p)
  {
    assert (p + 1 + base) % RAMP_WRAP == (p + 1) % RAMP_WRAP;
  }

  lemma MarkerAt(p: int)
    ensures MarkerValue(p) == if p % RAMP_WRAP == RAMP_WRAP - 1 then (RAMP_WRAP + 1) as real / 2.0
                              else (p % RAMP_WRAP) as real + 1.5
  {
    assert p % RAMP_WRAP == RAMP_WRAP - 1 ==> (p + 1) % RAMP_WRAP == 0;
    assert p % RAMP_WRAP != RAMP_WRAP - 1 ==> (p + 1) % RAMP_WRAP == p % RAMP_WRAP + 1;
  }

  lemma NextResidue(p: int)
    ensures (p + 1) % RAMP_WRAP == if p % RAMP_WRAP == RAMP_WRAP - 1 then 0 else p % RAMP_WRAP + 1
  {
  }

  /** A splice average is always recognised as a marker, and tells an insertion at the last
      position from a drop after it. */
  lemma MarkerRecognised(p: int)
    ensures Classify(MarkerValue(p)) == MarkerSample
    ensures MarkerValue(p) != MarkerValue(p + 1)
  {
    MarkerAt(p);
    MarkerAt(p + 1);
    NextResidue(p);
    hide MarkerValue;
    var v := MarkerValue(p);
    if p % RAMP_WRAP == RAMP_WRAP - 1 {
      assert v == 524288.5;
      assert v.Floor == 524288;
    } else {
      var a := 1 + p % RAMP_WRAP;
      assert v == a as real + 0.5;
      assert v.Floor == a;
    }
  }

  /** n frames of ramp from stream position pos, interleaved. */
  function RampFrames(pos: int, n: nat, nc: nat): (s: seq<real>)
    requires nc > 0
    ensures |s| == Flat(n, nc)
  {
    FlatNat(n, nc);
    seq(Flat(n, nc), q requires 0 <= q < Flat(n, nc) => Ramp(pos + q / nc))
  }

  lemma RampFramesAt(pos: int, n: nat, nc: nat, f: nat, ch: nat)
    requires nc > 0 && f < n && ch < nc
    ensures 0 <= Flat(f, nc) && Flat(f, nc) + ch < Flat(n, nc)
    ensures RampFrames(pos, n, nc)[Flat(f, nc) + ch] == Ramp(pos + f)
  {
    CutInside(f, n, nc);
    var q := Flat(f, nc) + ch;
    DivModUnique(nc, f, ch, q / nc, q % nc);
  }

  /** Consecutive writes of ramp frames join into one ramp. */
  lemma RampFramesJoin(pos: int, m: nat, n: nat, nc: nat)
    requires nc > 0
    ensures RampFrames(pos, m, nc) + RampFrames(pos + m, n, nc) == RampFrames(pos, m + n, nc)
  {
    FlatNat(m, nc);
    FlatNat(n, nc);
    FlatSum(m, n, nc);
    var whole := RampFrames(pos, m + n, nc);
    var joined := RampFrames(pos, m, nc) + RampFrames(pos + m, n, nc);
    forall q | 0 <= q < |whole|
      ensures whole[q] == joined[q]
    {
      if q >= Flat(m, nc) {
        var k := q - Flat(m, nc);
        assert q == (m + k / nc) * nc + k % nc;
        DivModUnique(nc, m + k / nc, k % nc, q / nc, q % nc);
      }
    }
  }

  /** Fill a buffer with ramp frames. */
  method FillRamp(dst: array<real>, pos: int, n: nat, nc: nat)
    requires nc > 0 && dst.Length == Flat(n, nc)
    modifies dst
    ensures dst[..] == RampFrames(pos, n, nc)
  {
    hide Flat;
    FlatNat(n, nc);
    FlatUnits(nc);
    var f := 0;
    while f < n
      invariant 0 <= f <= n && 0 <= Flat(f, nc) <= Flat(n, nc)
      invariant dst[..Flat(f, nc)] == RampFrames(pos, n, nc)[..Flat(f, nc)]
    {
      CutInside(f, n, nc);
      FillFrame(dst, pos, n, nc, f);
      f := f + 1;
    }
    assert dst[..] == dst[..Flat(n, nc)];
  }

  method FillFrame(dst: array<real>, pos: int, n: nat, nc: nat, f: nat)
    requires nc > 0 && f < n && dst.Length == Flat(n, nc)
    requires 0 <= Flat(f, nc) && Flat(f, nc) + nc <= Flat(n, nc)
    requires dst[..Flat(f, nc)] == RampFrames(pos, n, nc)[..Flat(f, nc)]
    modifies dst
    ensures dst[..Flat(f, nc) + nc] == RampFrames(pos, n, nc)[..Flat(f, nc) + nc]
  {
    hide Flat;
    hide RampFrames;
    hide Ramp;
    ghost var ramp := RampFrames(pos, n, nc);
    var v, at := Ramp(pos + f), Flat(f, nc);
    var ch := 0;
    while ch < nc
      invariant 0 <= ch <= nc
      invariant dst[..at + ch] == ramp[..at + ch]
    {
      RampFramesAt(pos, n, nc, f, ch);
      dst[at + ch] := v;
      assert dst[..at + ch + 1] == dst[..at + ch] + [v];
      assert ramp[..at + ch + 1] == ramp[..at + ch] + [v];
      ch := ch + 1;
    }
  }
}
