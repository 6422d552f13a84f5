/** The crossfaded mix: packed inputs times transposed weight matrices, faded over the frame from
    the previous weights to the current ones; and the dense, zero-masked form of the same mix. */
module Crossfade {
  import opened Layout
  import opened DelayLine

  // ---- Sums -------------------------------------------------------------------------------

  function Sum(s: seq<real>): real {
    if s == [] then 0.0 else Sum(s[..|s| - 1]) + s[|s| - 1]
  }

  /** Fading two sums is summing the faded terms. */
  function Mixed(a: real, b: real, v: real): real {
    v * a + (1.0 - v) * b
  }

  function MixedTerms(a: seq<real>, b: seq<real>, v: real): (r: seq<real>)
    requires |a| == |b|
    ensures |r| == |a|
  {
    seq(|a|, k requires 0 <= k < |a| => Mixed(a[k], b[k], v))
  }

  lemma {:induction false} FadeOfSums(a: seq<real>, b: seq<real>, v: real)
    requires |a| == |b|
    ensures Mixed(Sum(a), Sum(b), v) == Sum(MixedTerms(a, b, v))
  {
    if a != [] {
      var n := |a| - 1;
      FadeOfSums(a[..n], b[..n], v);
      assert MixedTerms(a, b, v)[..n] == MixedTerms(a[..n], b[..n], v);
      MixedSplits(Sum(a[..n]), Sum(b[..n]), a[n], b[n], v);
    }
  }

  lemma MixedSplits(a: real, b: real, x: real, y: real, v: real)
    ensures Mixed(a + x, b + y, v) == Mixed(a, b, v) + Mixed(x, y, v)
  {
  }

  /** A faded product is the product with the faded weight. */
  lemma MixedFactor(cur: real, prev: real, x: real, v: real, a: real, b: real)
    requires a == cur * x && b == prev * x
    ensures Mixed(a, b, v) == Mixed(cur, prev, v) * x
  {
  }

  // ---- Matrix cells ----------------------------------------------------------------------------

  /** Entry (i, k) of a row-major matrix with rows of length n. */
  function Cell(m: seq<real>, i: int, k: int, n: int): real
    requires 0 <= i && 0 <= k < n && Flat(i, n) + k < |m|
  {
    FlatNat(i, n);
    m[Flat(i, n) + k]
  }

  lemma CellInside(i: int, k: int, n: int)
    requires 0 <= i && 0 <= k < n
    ensures 0 <= Flat(i, n) && Flat(i, n) + k < Flat(i + 1, n)
  {
    hide Flat;
    FlatNat(i, n);
    FlatNext(i, n);
  }

  lemma CellsApart(i: int, k: int, i2: int, k2: int, n: int)
    requires 0 <= i && 0 <= k < n && 0 <= i2 && 0 <= k2 < n && Flat(i, n) + k == Flat(i2, n) + k2
    ensures i == i2 && k == k2
  {
    hide Flat;
    FlatNext(i, n);
    FlatNext(i2, n);
    if i < i2 {
      FlatOrder(i + 1, i2, n);
    } else if i2 < i {
      FlatOrder(i2 + 1, i, n);
    }
  }

  lemma CellUpdate(m: seq<real>, i: int, k: int, n: int, v: real, i2: int, k2: int)
    requires 0 <= i && 0 <= k < n && Flat(i, n) + k < |m| && 0 <= i2 && 0 <= k2 < n && Flat(i2, n) + k2 < |m|
    ensures 0 <= Flat(i, n) + k
    ensures Cell(m[Flat(i, n) + k := v], i2, k2, n) == if i == i2 && k == k2 then v else Cell(m, i2, k2, n)
  {
    CellInside(i, k, n);
    CellInside(i2, k2, n);
    hide Flat;
    if Flat(i, n) + k == Flat(i2, n) + k2 {
      CellsApart(i, k, i2, k2, n);
    }
  }

  // ---- The matrix product ------------------------------------------------------------------------

  /** The terms of one output sample: weight row c against sample j of every input. */
  function Terms(inputs: seq<real>, weights: seq<real>, nIn: nat, stride: int, frame: int, c: int, j: int): (r: seq<real>)
    requires 0 <= c && 0 <= j < frame && nIn <= stride
    requires Flat(nIn, frame) <= |inputs| && Flat(c, stride) + nIn <= |weights|
    ensures |r| == nIn
  {
    seq(nIn, k requires 0 <= k < nIn => TermAt(inputs, weights, nIn, stride, frame, c, j, k))
  }

  function TermAt(inputs: seq<real>, weights: seq<real>, nIn: nat, stride: int, frame: int, c: int, j: int, k: int): real
    requires 0 <= c && 0 <= j < frame && 0 <= k < nIn <= stride
    requires Flat(nIn, frame) <= |inputs| && Flat(c, stride) + nIn <= |weights|
  {
    FlatOrder(k + 1, nIn, frame);
    CellInside(k, j, frame);
    Cell(weights, c, k, stride) * Cell(inputs, k, j, frame)
  }

  /** Output row c of the product. */
  function ProductRow(inputs: seq<real>, weights: seq<real>, nIn: nat, stride: int, frame: nat, c: int): (r: seq<real>)
    requires 0 <= c && nIn <= stride && Flat(nIn, frame) <= |inputs| && Flat(c, stride) + nIn <= |weights|
    ensures |r| == frame
  {
    seq(frame, j requires 0 <= j < frame => Sum(Terms(inputs, weights, nIn, stride, frame, c, j)))
  }

  /** Row i of a row-major matrix. */
  function Row(m: seq<real>, i: int, n: int): (r: seq<real>)
    requires 0 <= i && 0 <= n && Flat(i + 1, n) <= |m|
    ensures |r| == n
  {
    RowInside(i, n);
    m[Flat(i, n)..Flat(i + 1, n)]
  }

  lemma RowInside(i: int, n: int)
    requires 0 <= i && 0 <= n
    ensures 0 <= Flat(i, n) && Flat(i, n) + n == Flat(i + 1, n)
  {
    hide Flat;
    FlatNat(i, n);
    FlatNext(i, n);
  }

  lemma RowOver(m: seq<real>, i: int, n: int, row: seq<real>, other: int)
    requires 0 <= i && |row| == n && Flat(i + 1, n) <= |m| && 0 <= other && Flat(other + 1, n) <= |m|
    ensures 0 <= Flat(i, n) && Flat(i, n) + n <= |m|
    ensures Row(Over(m, Flat(i, n), row), other, n) == if other == i then row else Row(m, other, n)
  {
    RowInside(i, n);
    RowInside(other, n);
    hide Flat;
    var d := Over(m, Flat(i, n), row);
    if other < i {
      FlatOrder(other + 1, i, n);
    } else if other > i {
      FlatOrder(i + 1, other, n);
    }
    if other != i {
      OverElsewhere(m, Flat(i, n), row, Flat(other, n), Flat(other + 1, n));
    } else {
      assert d[Flat(i, n)..Flat(i, n) + n] == row;
    }
  }

  /** What the shape check admits. */
  predicate Shaped(inputs: seq<real>, weights: seq<real>, nIn: nat, nCh: nat, stride: int, frame: nat) {
    nIn <= stride && Flat(nIn, frame) <= |inputs| && (nCh > 0 ==> Flat(nCh - 1, stride) + nIn <= |weights|)
  }

  lemma ShapedRow(inputs: seq<real>, weights: seq<real>, nIn: nat, nCh: nat, stride: int, frame: nat, c: int)
    requires Shaped(inputs, weights, nIn, nCh, stride, frame) && 0 <= c < nCh
    ensures Flat(c, stride) + nIn <= |weights|
  {
    hide Flat;
    FlatOrder(c, nCh - 1, stride);
  }

  lemma RowFits(c: int, nCh: nat, frame: nat)
    requires 0 <= c < nCh
    ensures 0 <= Flat(c, frame) && Flat(c, frame) + frame == Flat(c + 1, frame) <= Flat(nCh, frame)
  {
    hide Flat;
    RowInside(c, frame);
    FlatOrder(c + 1, nCh, frame);
  }

  /** The library product, row by row: out = weights x inputs. */
  method Gemm(inputs: seq<real>, weights: seq<real>, nIn: nat, nCh: nat, stride: int, frame: nat, out: array<real>)
    requires Shaped(inputs, weights, nIn, nCh, stride, frame) && 0 <= Flat(nCh, frame) <= out.Length
    modifies out
    ensures forall c :: 0 <= c < nCh ==> IsProductRow(out[..], inputs, weights, nIn, nCh, stride, frame, c)
  {
    hide Flat;
    hide Row;
    hide ProductRow;
    var c := 0;
    while c < nCh
      invariant 0 <= c <= nCh
      invariant forall i :: 0 <= i < c ==> IsProductRow(out[..], inputs, weights, nIn, nCh, stride, frame, i)
    {
      ShapedRow(inputs, weights, nIn, nCh, stride, frame, c);
      RowFits(c, nCh, frame);
      ghost var before := out[..];
      var row := ProductRow(inputs, weights, nIn, stride, frame, c);
      CopyInto(out, Flat(c, frame), row);
      forall i | 0 <= i < c + 1
        ensures IsProductRow(out[..], inputs, weights, nIn, nCh, stride, frame, i)
      {
        RowFits(i, nCh, frame);
        RowOver(before, c, frame, row, i);
        assert i < c ==> IsProductRow(before, inputs, weights, nIn, nCh, stride, frame, i);
      }
      c := c + 1;
    }
  }

  ghost predicate IsProductRow(out: seq<real>, inputs: seq<real>, weights: seq<real>,
                               nIn: nat, nCh: nat, stride: int, frame: nat, c: int)
    requires Shaped(inputs, weights, nIn, nCh, stride, frame) && Flat(nCh, frame) <= |out| && 0 <= c < nCh
  {
    RowFits(c, nCh, frame);
    ShapedRow(inputs, weights, nIn, nCh, stride, frame, c);
    Row(out, c, frame) == ProductRow(inputs, weights, nIn, stride, frame, c)
  }

  // ---- The fade --------------------------------------------------------------------------------

  /** How far into the frame sample j is. */
  function Ramp(j: int, frame: nat): real
    requires frame >= 2
  {
    j as real / (frame - 1) as real
  }

  /** A row faded from prev to cur. */
  function FadedRow(cur: seq<real>, prev: seq<real>): (r: seq<real>)
    requires |cur| == |prev| >= 2
    ensures |r| == |cur|
  {
    seq(|cur|, j requires 0 <= j < |cur| => Mixed(cur[j], prev[j], Ramp(j, |cur|)))
  }

  lemma WholeOfItself(x: real)
    requires x > 0.0
    ensures x / x == 1.0 && 0.0 / x == 0.0
  {
  }

  /** The first sample is the previous product and the last the current one. */
  lemma FadeEnds(cur: seq<real>, prev: seq<real>)
    requires |cur| == |prev| >= 2
    ensures FadedRow(cur, prev)[0] == prev[0] && FadedRow(cur, prev)[|cur| - 1] == cur[|cur| - 1]
  {
    WholeOfItself((|cur| - 1) as real);
    assert 0 as real == 0.0;
  }

  lemma OverIs(before: seq<real>, after: seq<real>, at: nat, row: seq<real>)
    requires |after| == |before| && at + |row| <= |before|
    requires forall i :: 0 <= i < |before| && !(at <= i < at + |row|) ==> after[i] == before[i]
    requires forall i :: at <= i < at + |row| ==> after[i] == row[i - at]
    ensures after == Over(before, at, row)
  {
  }

  /** In between it moves linearly: sample j is j parts of the current product and the rest of the
      previous one. */
  lemma FadeIsLinear(cur: seq<real>, prev: seq<real>, j: int)
    requires |cur| == |prev| >= 2 && 0 <= j < |cur|
    ensures FadedRow(cur, prev)[j] * (|cur| - 1) as real == cur[j] * j as real + prev[j] * (|cur| - 1 - j) as real
  {
    var d, v := (|cur| - 1) as real, Ramp(j, |cur|);
    assert v * d == j as real;
    MixedTimes(cur[j], prev[j], v, d);
    assert (|cur| - 1 - j) as real == d - j as real;
  }

  lemma MixedTimes(a: real, b: real, v: real, d: real)
    ensures Mixed(a, b, v) * d == a * (v * d) + b * (d - v * d)
  {
  }

  /** One row of the combine, in place: out holds the current product, temp the previous one. */
  method FadeRow(out: array<real>, temp: array<real>, base: nat, frame: nat)
    requires out != temp && base + frame <= out.Length && base + frame <= temp.Length && frame >= 2
    modifies out
    ensures out[..] == Over(old(out[..]), base, FadedRow(old(out[base..base + frame]), temp[base..base + frame]))
  {
    hide Mixed;
    hide Ramp;
    hide Over;
    ghost var before := out[..];
    var j := 0;
    while j < frame
      invariant 0 <= j <= frame
      invariant forall i :: 0 <= i < out.Length && !(base <= i < base + j) ==> out[i] == before[i]
      invariant forall i :: base <= i < base + j ==> out[i] == Mixed(before[i], temp[i], Ramp(i - base, frame))
    {
      var v := Ramp(j, frame);
      out[base + j] := Mixed(out[base + j], temp[base + j], v);
      j := j + 1;
    }
    OverIs(before, out[..], base, FadedRow(before[base..base + frame], temp[base..base + frame]));
  }

  /** The same row when out holds the previous product and temp the current one. */
  method FadeRowBack(out: array<real>, temp: array<real>, base: nat, frame: nat)
    requires out != temp && base + frame <= out.Length && base + frame <= temp.Length && frame >= 2
    modifies out
    ensures out[..] == Over(old(out[..]), base, FadedRow(temp[base..base + frame], old(out[base..base + frame])))
  {
    hide Mixed;
    hide Ramp;
    hide Over;
    ghost var before := out[..];
    var j := 0;
    while j < frame
      invariant 0 <= j <= frame
      invariant forall i :: 0 <= i < out.Length && !(base <= i < base + j) ==> out[i] == before[i]
      invariant forall i :: base <= i < base + j ==> out[i] == Mixed(temp[i], before[i], Ramp(i - base, frame))
    {
      var v := Ramp(j, frame);
      out[base + j] := Mixed(temp[base + j], out[base + j], v);
      j := j + 1;
    }
    OverIs(before, out[..], base, FadedRow(temp[base..base + frame], before[base..base + frame]));
  }

  ghost predicate IsFadedRow(out: seq<real>, cur: seq<real>, prev: seq<real>, nCh: nat, frame: nat, c: int)
    requires frame >= 2 && 0 <= c < nCh
    requires Flat(nCh, frame) <= |out| && Flat(nCh, frame) <= |cur| && Flat(nCh, frame) <= |prev|
  {
    RowFits(c, nCh, frame);
    Row(out, c, frame) == FadedRow(Row(cur, c, frame), Row(prev, c, frame))
  }

  method FadeCombine(out: array<real>, temp: array<real>, nCh: nat, frame: nat, outIsCurrent: bool)
    requires out != temp && frame >= 2 && 0 <= Flat(nCh, frame) <= out.Length && Flat(nCh, frame) <= temp.Length
    modifies out
    ensures outIsCurrent ==> forall c :: 0 <= c < nCh ==> IsFadedRow(out[..], old(out[..]), temp[..], nCh, frame, c)
    ensures !outIsCurrent ==> forall c :: 0 <= c < nCh ==> IsFadedRow(out[..], temp[..], old(out[..]), nCh, frame, c)
  {
    hide Flat;
    hide FadedRow;
    hide IsFadedRow;
    hide Over;
    ghost var was := out[..];
    ghost var cur, prev := if outIsCurrent then was else temp[..], if outIsCurrent then temp[..] else was;
    var c := 0;
    while c < nCh
      invariant 0 <= c <= nCh
      invariant forall i :: 0 <= i < c ==> IsFadedRow(out[..], cur, prev, nCh, frame, i)
      invariant forall i :: c <= i < nCh ==> SameRow(out[..], was, nCh, frame, i)
    {
      RowFits(c, nCh, frame);
      assert SameRow(out[..], was, nCh, frame, c);
      ghost var before := out[..];
      if outIsCurrent {
        FadeRow(out, temp, Flat(c, frame), frame);
      } else {
        FadeRowBack(out, temp, Flat(c, frame), frame);
      }
      ghost var row := FadedRow(Row(cur, c, frame), Row(prev, c, frame));
      assert out[..] == Over(before, Flat(c, frame), row);
      RowsStep(before, out[..], was, cur, prev, nCh, frame, c, row);
      c := c + 1;
    }
  }

  ghost predicate SameRow(out: seq<real>, was: seq<real>, nCh: nat, frame: nat, i: int)
    requires 0 <= i < nCh && Flat(nCh, frame) <= |out| && Flat(nCh, frame) <= |was|
  {
    RowFits(i, nCh, frame);
    Row(out, i, frame) == Row(was, i, frame)
  }

  lemma RowsStep(before: seq<real>, out: seq<real>, was: seq<real>, cur: seq<real>, prev: seq<real>,
                 nCh: nat, frame: nat, c: int, row: seq<real>)
    requires frame >= 2 && 0 <= c < nCh && |out| == |before| && |was| == |before| && Flat(nCh, frame) <= |before|
    requires Flat(nCh, frame) <= |cur| && Flat(nCh, frame) <= |prev| && |row| == frame
    requires 0 <= Flat(c, frame) && Flat(c, frame) + frame <= |before| && Flat(c + 1, frame) <= Flat(nCh, frame)
    requires out == Over(before, Flat(c, frame), row) && row == FadedRow(Row(cur, c, frame), Row(prev, c, frame))
    requires forall i :: 0 <= i < c ==> IsFadedRow(before, cur, prev, nCh, frame, i)
    requires forall i :: c <= i < nCh ==> SameRow(before, was, nCh, frame, i)
    ensures forall i :: 0 <= i < c + 1 ==> IsFadedRow(out, cur, prev, nCh, frame, i)
    ensures forall i :: c + 1 <= i < nCh ==> SameRow(out, was, nCh, frame, i)
  {
    hide Flat;
    hide FadedRow;
    hide Over;
    forall i | 0 <= i < c + 1
      ensures IsFadedRow(out, cur, prev, nCh, frame, i)
    {
      RowFits(i, nCh, frame);
      RowOver(before, c, frame, row, i);
      assert i < c ==> IsFadedRow(before, cur, prev, nCh, frame, i);
    }
    forall i | c + 1 <= i < nCh
      ensures SameRow(out, was, nCh, frame, i)
    {
      RowFits(i, nCh, frame);
      RowOver(before, c, frame, row, i);
      assert SameRow(before, was, nCh, frame, i);
    }
  }

  // ---- The two forms of the mix ------------------------------------------------------------------

  /** Output row c: the weighted inputs, each faded from its previous weight to its current one. */
  ghost predicate IsMixRow(out: seq<real>, inputs: seq<real>, weights: seq<real>, prevWeights: seq<real>,
                           nIn: nat, nCh: nat, stride: int, frame: nat, c: int)
    requires frame >= 2 && 0 <= c < nCh && Flat(nCh, frame) <= |out|
    requires Shaped(inputs, weights, nIn, nCh, stride, frame) && Shaped(inputs, prevWeights, nIn, nCh, stride, frame)
  {
    RowFits(c, nCh, frame);
    ShapedRow(inputs, weights, nIn, nCh, stride, frame, c);
    ShapedRow(inputs, prevWeights, nIn, nCh, stride, frame, c);
    Row(out, c, frame) == FadedRow(ProductRow(inputs, weights, nIn, stride, frame, c),
                                   ProductRow(inputs, prevWeights, nIn, stride, frame, c))
  }

  lemma MixRowIs(out: seq<real>, cur: seq<real>, prev: seq<real>, inputs: seq<real>, weights: seq<real>, prevWeights: seq<real>,
                 nIn: nat, nCh: nat, stride: int, frame: nat, c: int)
    requires frame >= 2 && 0 <= c < nCh && Flat(nCh, frame) <= |out| && Flat(nCh, frame) <= |cur| && Flat(nCh, frame) <= |prev|
    requires Shaped(inputs, weights, nIn, nCh, stride, frame) && Shaped(inputs, prevWeights, nIn, nCh, stride, frame)
    requires IsFadedRow(out, cur, prev, nCh, frame, c)
    requires IsProductRow(cur, inputs, weights, nIn, nCh, stride, frame, c)
    requires IsProductRow(prev, inputs, prevWeights, nIn, nCh, stride, frame, c)
    ensures IsMixRow(out, inputs, weights, prevWeights, nIn, nCh, stride, frame, c)
  {
  }

  /** The dispatched form: current product into output, previous into temp, then the combine. */
  method EncodeFade(inputs: seq<real>, weights: seq<real>, prevWeights: seq<real>,
                    nIn: nat, nCh: nat, stride: int, frame: nat, output: array<real>, temp: array<real>)
    requires frame >= 2 && output != temp && 0 <= Flat(nCh, frame) <= output.Length && Flat(nCh, frame) <= temp.Length
    requires Shaped(inputs, weights, nIn, nCh, stride, frame) && Shaped(inputs, prevWeights, nIn, nCh, stride, frame)
    modifies output, temp
    ensures forall c :: 0 <= c < nCh ==> IsMixRow(output[..], inputs, weights, prevWeights, nIn, nCh, stride, frame, c)
  {
    hide Shaped;
    hide Flat;
    hide IsFadedRow;
    hide IsProductRow;
    hide IsMixRow;
    Gemm(inputs, weights, nIn, nCh, stride, frame, output);
    Gemm(inputs, prevWeights, nIn, nCh, stride, frame, temp);
    ghost var cur, prev := output[..], temp[..];
    FadeCombine(output, temp, nCh, frame, true);
    assert temp[..] == prev;
    forall c | 0 <= c < nCh
      ensures IsMixRow(output[..], inputs, weights, prevWeights, nIn, nCh, stride, frame, c)
    {
      MixRowIs(output[..], cur, prev, inputs, weights, prevWeights, nIn, nCh, stride, frame, c);
    }
  }

  /** The pure-Go form: previous product into output, current into temp, then the other combine. */
  method EncodeFadeBack(inputs: seq<real>, weights: seq<real>, prevWeights: seq<real>,
                        nIn: nat, nCh: nat, stride: int, frame: nat, output: array<real>, temp: array<real>)
    requires frame >= 2 && output != temp && 0 <= Flat(nCh, frame) <= output.Length && Flat(nCh, frame) <= temp.Length
    requires Shaped(inputs, weights, nIn, nCh, stride, frame) && Shaped(inputs, prevWeights, nIn, nCh, stride, frame)
    modifies output, temp
    ensures forall c :: 0 <= c < nCh ==> IsMixRow(output[..], inputs, weights, prevWeights, nIn, nCh, stride, frame, c)
  {
    hide Shaped;
    hide Flat;
    hide IsFadedRow;
    hide IsProductRow;
    hide IsMixRow;
    Gemm(inputs, prevWeights, nIn, nCh, stride, frame, output);
    Gemm(inputs, weights, nIn, nCh, stride, frame, temp);
    ghost var prev, cur := output[..], temp[..];
    FadeCombine(output, temp, nCh, frame, false);
    assert temp[..] == cur;
    forall c | 0 <= c < nCh
      ensures IsMixRow(output[..], inputs, weights, prevWeights, nIn, nCh, stride, frame, c)
    {
      MixRowIs(output[..], cur, prev, inputs, weights, prevWeights, nIn, nCh, stride, frame, c);
    }
  }

  /** Each sample of a mix row is the sum over inputs of the faded weight times the input. */
  function FadeTerms(inputs: seq<real>, weights: seq<real>, prevWeights: seq<real>,
                     nIn: nat, stride: int, frame: nat, c: int, j: int): (r: seq<real>)
    requires frame >= 2 && 0 <= c && 0 <= j < frame && nIn <= stride && Flat(nIn, frame) <= |inputs|
    requires Flat(c, stride) + nIn <= |weights| && Flat(c, stride) + nIn <= |prevWeights|
    ensures |r| == nIn
  {
    seq(nIn, k requires 0 <= k < nIn => FadeTerm(inputs, weights, prevWeights, nIn, stride, frame, c, j, k))
  }

  function FadeTerm(inputs: seq<real>, weights: seq<real>, prevWeights: seq<real>,
                    nIn: nat, stride: int, frame: nat, c: int, j: int, k: int): real
    requires frame >= 2 && 0 <= c && 0 <= j < frame && 0 <= k < nIn <= stride && Flat(nIn, frame) <= |inputs|
    requires Flat(c, stride) + nIn <= |weights| && Flat(c, stride) + nIn <= |prevWeights|
  {
    FlatOrder(k + 1, nIn, frame);
    CellInside(k, j, frame);
    Mixed(Cell(weights, c, k, stride), Cell(prevWeights, c, k, stride), Ramp(j, frame)) * Cell(inputs, k, j, frame)
  }

  lemma SampleIsFadedSum(out: seq<real>, inputs: seq<real>, weights: seq<real>, prevWeights: seq<real>,
                         nIn: nat, nCh: nat, stride: int, frame: nat, c: int, j: int)
    requires frame >= 2 && 0 <= c < nCh && 0 <= j < frame && Flat(nCh, frame) <= |out|
    requires Shaped(inputs, weights, nIn, nCh, stride, frame) && Shaped(inputs, prevWeights, nIn, nCh, stride, frame)
    requires IsMixRow(out, inputs, weights, prevWeights, nIn, nCh, stride, frame, c)
    ensures Flat(c, frame) + j < |out| && Flat(c, stride) + nIn <= |weights| && Flat(c, stride) + nIn <= |prevWeights|
    ensures Cell(out, c, j, frame) == Sum(FadeTerms(inputs, weights, prevWeights, nIn, stride, frame, c, j))
  {
    RowFits(c, nCh, frame);
    ShapedRow(inputs, weights, nIn, nCh, stride, frame, c);
    ShapedRow(inputs, prevWeights, nIn, nCh, stride, frame, c);
    hide Flat;
    hide Shaped;
    hide Ramp;
    hide Sum;
    hide Mixed;
    hide Cell;
    hide Row;
    hide Terms;
    hide FadeTerms;
    CellOfRow(out, c, j, frame);
    FadeOfSums(Terms(inputs, weights, nIn, stride, frame, c, j), Terms(inputs, prevWeights, nIn, stride, frame, c, j), Ramp(j, frame));
    TermsFade(inputs, weights, prevWeights, nIn, stride, frame, c, j);
  }

  lemma TermsFade(inputs: seq<real>, weights: seq<real>, prevWeights: seq<real>,
                  nIn: nat, stride: int, frame: nat, c: int, j: int)
    requires frame >= 2 && 0 <= c && 0 <= j < frame && nIn <= stride && Flat(nIn, frame) <= |inputs|
    requires Flat(c, stride) + nIn <= |weights| && Flat(c, stride) + nIn <= |prevWeights|
    ensures MixedTerms(Terms(inputs, weights, nIn, stride, frame, c, j), Terms(inputs, prevWeights, nIn, stride, frame, c, j),
                       Ramp(j, frame))
            == FadeTerms(inputs, weights, prevWeights, nIn, stride, frame, c, j)
  {
    hide Flat;
    hide Ramp;
    hide Mixed;
    hide Cell;
    var a := Terms(inputs, weights, nIn, stride, frame, c, j);
    var b := Terms(inputs, prevWeights, nIn, stride, frame, c, j);
    var v := Ramp(j, frame);
    forall k | 0 <= k < nIn
      ensures MixedTerms(a, b, v)[k] == FadeTerm(inputs, weights, prevWeights, nIn, stride, frame, c, j, k)
    {
      FlatOrder(k + 1, nIn, frame);
      CellInside(k, j, frame);
      MixedFactor(Cell(weights, c, k, stride), Cell(prevWeights, c, k, stride), Cell(inputs, k, j, frame), v, a[k], b[k]);
    }
  }

  lemma CellOfRow(m: seq<real>, c: int, j: int, n: int)
    requires 0 <= c && 0 <= j < n && Flat(c + 1, n) <= |m|
    ensures Flat(c, n) + j < |m| && Cell(m, c, j, n) == Row(m, c, n)[j]
  {
    RowInside(c, n);
  }

  // ---- Packing --------------------------------------------------------------------------------------

  /** One source's part in a frame: its samples and its weights per channel, now and before. */
  datatype Part = Part(input: seq<real>, cur: seq<real>, prev: seq<real>)

  predicate PartOk(p: Part, nCh: nat, frame: nat) {
    |p.input| == frame && |p.cur| == nCh && |p.prev| == nCh
  }

  ghost predicate PartsOk(parts: seq<Part>, nCh: nat, frame: nat) {
    forall k :: 0 <= k < |parts| ==> PartOk(parts[k], nCh, frame)
  }

  /** What the mix of the parts is, channel by channel and sample by sample. */
  function BlendTerms(parts: seq<Part>, nCh: nat, frame: nat, c: int, j: int): (r: seq<real>)
    requires frame >= 2 && 0 <= c < nCh && 0 <= j < frame && PartsOk(parts, nCh, frame)
    ensures |r| == |parts|
  {
    seq(|parts|, k requires 0 <= k < |parts| =>
      Mixed(parts[k].cur[c], parts[k].prev[c], Ramp(j, frame)) * parts[k].input[j])
  }

  /** Column k of a matrix with rows of length n holds col. */
  ghost predicate ColumnIs(m: seq<real>, k: int, n: int, col: seq<real>, nCh: nat)
    requires |col| == nCh
  {
    && 0 <= k < n && Flat(nCh, n) <= |m|
    && forall c :: 0 <= c < nCh ==> CellIs(m, c, k, n, nCh, col[c])
  }

  ghost predicate CellIs(m: seq<real>, c: int, k: int, n: int, nCh: nat, v: real)
    requires 0 <= c < nCh && 0 <= k < n && Flat(nCh, n) <= |m|
  {
    CellFits(c, k, n, nCh);
    Cell(m, c, k, n) == v
  }

  lemma CellFits(c: int, k: int, n: int, nCh: nat)
    requires 0 <= c < nCh && 0 <= k < n
    ensures 0 <= Flat(c, n) && Flat(c, n) + k < Flat(nCh, n)
  {
    hide Flat;
    CellInside(c, k, n);
    FlatOrder(c + 1, nCh, n);
  }

  /** Part k sits in row k of the inputs and column k of both weight matrices. */
  ghost predicate PackedAt(inputs: seq<real>, w: seq<real>, pw: seq<real>, p: Part, k: int, total: int, nCh: nat, frame: nat) {
    && PartOk(p, nCh, frame) && 0 <= k < total && Flat(k + 1, frame) <= |inputs|
    && Row(inputs, k, frame) == p.input
    && ColumnIs(w, k, total, p.cur, nCh) && ColumnIs(pw, k, total, p.prev, nCh)
  }

  /** Write a column; the other columns stay. */
  method PutColumn(m: array<real>, k: int, n: int, col: seq<real>)
    requires 0 <= k < n && Flat(|col|, n) <= m.Length
    modifies m
    ensures ColumnIs(m[..], k, n, col, |col|)
    ensures forall other, v :: other != k && |v| == |col| && ColumnIs(old(m[..]), other, n, v, |col|) ==>
              ColumnIs(m[..], other, n, v, |col|)
  {
    hide Flat;
    hide Cell;
    ghost var was := m[..];
    var i := 0;
    while i < |col|
      invariant 0 <= i <= |col|
      invariant forall c :: 0 <= c < i ==> CellIs(m[..], c, k, n, |col|, col[c])
      invariant forall c, other, v {:trigger CellIs(was, c, other, n, |col|, v)} ::
                  0 <= c < |col| && 0 <= other < n && other != k && CellIs(was, c, other, n, |col|, v)
                  ==> CellIs(m[..], c, other, n, |col|, v)
    {
      CellFits(i, k, n, |col|);
      ghost var before := m[..];
      m[Flat(i, n) + k] := col[i];
      assert m[..] == before[Flat(i, n) + k := col[i]];
      forall c, other, v | 0 <= c < |col| && 0 <= other < n && CellIs(before, c, other, n, |col|, v)
        ensures !(c == i && other == k) ==> CellIs(m[..], c, other, n, |col|, v)
      {
        CellFits(c, other, n, |col|);
        CellUpdate(before, i, k, n, col[i], c, other);
      }
      CellUpdate(before, i, k, n, col[i], i, k);
      i := i + 1;
    }
  }

  ghost predicate AllPacked(inputs: seq<real>, w: seq<real>, pw: seq<real>, parts: seq<Part>, total: int, nCh: nat, frame: nat) {
    && |parts| <= total && |inputs| == Flat(|parts|, frame)
    && forall k :: 0 <= k < |parts| ==> PackedAt(inputs, w, pw, parts[k], k, total, nCh, frame)
  }

  lemma PackOneMore(inputs: seq<real>, w: seq<real>, pw: seq<real>, w': seq<real>, pw': seq<real>,
                    parts: seq<Part>, p: Part, total: int, nCh: nat, frame: nat)
    requires AllPacked(inputs, w, pw, parts, total, nCh, frame) && PartOk(p, nCh, frame) && |parts| < total
    requires ColumnIs(w', |parts|, total, p.cur, nCh) && ColumnIs(pw', |parts|, total, p.prev, nCh)
    requires forall k, v :: k != |parts| && |v| == nCh && ColumnIs(w, k, total, v, nCh) ==> ColumnIs(w', k, total, v, nCh)
    requires forall k, v :: k != |parts| && |v| == nCh && ColumnIs(pw, k, total, v, nCh) ==> ColumnIs(pw', k, total, v, nCh)
    ensures AllPacked(inputs + p.input, w', pw', parts + [p], total, nCh, frame)
  {
    hide Flat;
    hide ColumnIs;
    var n := |parts|;
    RowInside(n, frame);
    forall k | 0 <= k < n + 1
      ensures PackedAt(inputs + p.input, w', pw', (parts + [p])[k], k, total, nCh, frame)
    {
      if k < n {
        assert PackedAt(inputs, w, pw, parts[k], k, total, nCh, frame);
        RowFits(k, n, frame);
        assert Row(inputs + p.input, k, frame) == Row(inputs, k, frame);
      } else {
        assert Row(inputs + p.input, n, frame) == p.input;
      }
    }
  }

  lemma TermIsBlend(inputs: seq<real>, w: seq<real>, pw: seq<real>, p: Part, k: int, n: nat, nCh: nat, frame: nat, c: int, j: int)
    requires frame >= 2 && 0 <= c < nCh && 0 <= j < frame && PackedAt(inputs, w, pw, p, k, n, nCh, frame)
    requires Flat(n, frame) <= |inputs| && Flat(c, n) + n <= |w| && Flat(c, n) + n <= |pw|
    ensures FadeTerm(inputs, w, pw, n, n, frame, c, j, k) == Mixed(p.cur[c], p.prev[c], Ramp(j, frame)) * p.input[j]
  {
    RowFits(k, n, frame);
    CellOfRow(inputs, k, j, frame);
    assert CellIs(w, c, k, n, nCh, p.cur[c]) && CellIs(pw, c, k, n, nCh, p.prev[c]);
    hide Flat;
    hide Cell;
    hide Mixed;
    hide Ramp;
  }

  /** The packed mix of a frame is the blend of its parts. */
  lemma PackedMixIsBlend(out: seq<real>, inputs: seq<real>, w: seq<real>, pw: seq<real>, parts: seq<Part>,
                         nCh: nat, frame: nat, c: int, j: int)
    requires frame >= 2 && 0 <= c < nCh && 0 <= j < frame && Flat(nCh, frame) <= |out| && PartsOk(parts, nCh, frame)
    requires AllPacked(inputs, w, pw, parts, |parts|, nCh, frame)
    requires Shaped(inputs, w, |parts|, nCh, |parts|, frame) && Shaped(inputs, pw, |parts|, nCh, |parts|, frame)
    requires IsMixRow(out, inputs, w, pw, |parts|, nCh, |parts|, frame, c)
    ensures Flat(c, frame) + j < |out|
    ensures Cell(out, c, j, frame) == Sum(BlendTerms(parts, nCh, frame, c, j))
  {
    hide Flat;
    hide Cell;
    hide Sum;
    hide IsMixRow;
    hide FadeTerms;
    hide BlendTerms;
    hide PackedAt;
    hide PartsOk;
    SampleIsFadedSum(out, inputs, w, pw, |parts|, nCh, |parts|, frame, c, j);
    TermsAreBlend(inputs, w, pw, parts, nCh, frame, c, j);
  }

  lemma TermsAreBlend(inputs: seq<real>, w: seq<real>, pw: seq<real>, parts: seq<Part>, nCh: nat, frame: nat, c: int, j: int)
    requires frame >= 2 && 0 <= c < nCh && 0 <= j < frame && PartsOk(parts, nCh, frame)
    requires AllPacked(inputs, w, pw, parts, |parts|, nCh, frame)
    requires Flat(c, |parts|) + |parts| <= |w| && Flat(c, |parts|) + |parts| <= |pw|
    ensures FadeTerms(inputs, w, pw, |parts|, |parts|, frame, c, j) == BlendTerms(parts, nCh, frame, c, j)
  {
    hide Flat;
    hide FadeTerm;
    hide Mixed;
    hide Ramp;
    hide PackedAt;
    forall k | 0 <= k < |parts|
      ensures FadeTerms(inputs, w, pw, |parts|, |parts|, frame, c, j)[k] == BlendTerms(parts, nCh, frame, c, j)[k]
    {
      assert PackedAt(inputs, w, pw, parts[k], k, |parts|, nCh, frame);
      TermIsBlend(inputs, w, pw, parts[k], k, |parts|, nCh, frame, c, j);
    }
  }

  class FadeMixer {
    const nCh: nat
    const frame: nat
    const maxNodes: nat
    const pureGo: bool
    const packedWeights: array<real>
    const previousPackedWeights: array<real>
    const tempMix: array<real>

    var total: int
    var running: int
    var packedInputs: seq<real>

    /** The parts added since the last reset. */
    ghost var parts: seq<Part>

    ghost predicate Valid()
      reads this, packedWeights, previousPackedWeights
    {
      && frame >= 2 && 0 <= running == |parts| <= total <= maxNodes
      && packedWeights.Length == Flat(nCh, maxNodes) && previousPackedWeights.Length == Flat(nCh, maxNodes)
      && tempMix.Length == Flat(nCh, frame)
      && packedWeights != previousPackedWeights && packedWeights != tempMix && previousPackedWeights != tempMix
      && PartsOk(parts, nCh, frame)
      && AllPacked(packedInputs, packedWeights[..], previousPackedWeights[..], parts, total, nCh, frame)
    }

    constructor (nCh: nat, frame: nat, maxNodes: nat, pureGo: bool)
      requires frame >= 2
      ensures Valid() && this.nCh == nCh && this.frame == frame && this.maxNodes == maxNodes && parts == []
      ensures fresh(packedWeights) && fresh(previousPackedWeights) && fresh(tempMix)
    {
      FlatNat(nCh, maxNodes);
      FlatNat(nCh, frame);
      FlatUnits(frame);
      this.nCh, this.frame, this.maxNodes, this.pureGo := nCh, frame, maxNodes, pureGo;
      packedWeights := new real[Flat(nCh, maxNodes)](_ => 0.0);
      previousPackedWeights := new real[Flat(nCh, maxNodes)](_ => 0.0);
      tempMix := new real[Flat(nCh, frame)](_ => 0.0);
      total, running, packedInputs, parts := 0, 0, [], [];
    }

    /** Start a frame of count parts. */
    method Reset(count: nat)
      requires Valid() && count <= maxNodes
      modifies this`total, this`running, this`packedInputs, this`parts
      ensures Valid() && total == count && parts == []
    {
      hide Flat;
      FlatUnits(frame);
      packedInputs := [];
      total := count;
      running := 0;
      parts := [];
    }

    /** Append a part's samples and scatter its weights into its column of both matrices. */
    method AddInput(input: seq<real>, weights: seq<real>, previousWeights: seq<real>)
      requires Valid() && running < total && PartOk(Part(input, weights, previousWeights), nCh, frame)
      modifies this`running, this`packedInputs, this`parts, packedWeights, previousPackedWeights
      ensures Valid() && total == old(total) && parts == old(parts) + [Part(input, weights, previousWeights)]
    {
      FlatNarrow(nCh, total, maxNodes);
      hide Flat;
      hide AllPacked;
      hide ColumnIs;
      ghost var w, pw := packedWeights[..], previousPackedWeights[..];
      PutColumn(packedWeights, running, total, weights);
      ghost var kept := packedWeights[..];
      PutColumn(previousPackedWeights, running, total, previousWeights);
      assert packedWeights[..] == kept;
      PackOneMore(packedInputs, w, pw, packedWeights[..], previousPackedWeights[..], parts,
                  Part(input, weights, previousWeights), total, nCh, frame);
      packedInputs := packedInputs + input;
      parts := parts + [Part(input, weights, previousWeights)];
      running := running + 1;
    }

    /** The same for a source read through its history ring: the part's samples are the stream at
        the delayed times. */
    method AddInputDelayed(source: InputRing, prevDelay: real, delay: real, weights: seq<real>, previousWeights: seq<real>)
      requires Valid() && running < total && source.Valid() && source.frame == frame
      requires 0.0 <= prevDelay <= HISTORY as real && 0.0 <= delay <= HISTORY as real
      requires |weights| == nCh && |previousWeights| == nCh
      modifies this`running, this`packedInputs, this`parts, packedWeights, previousPackedWeights
      ensures Valid() && total == old(total) && |parts| == |old(parts)| + 1 && old(parts) <= parts
      ensures var p := parts[|old(parts)|];
              && p.cur == weights && p.prev == previousWeights && |p.input| == frame
              && forall n :: 0 <= n < frame ==> p.input[n] == DelayedAt(source.stream, frame, prevDelay, delay, n)
    {
      hide AllPacked;
      hide Flat;
      hide PartsOk;
      hide RingIs;
      hide DelayedAt;
      var row := source.DelayedRow(prevDelay, delay);
      AddInput(row, weights, previousWeights);
    }

    /** Mix a complete frame, by either form. */
    method Mix(output: array<real>)
      requires Valid() && running == total && Flat(nCh, frame) <= output.Length
      requires output != packedWeights && output != previousPackedWeights && output != tempMix
      modifies output, tempMix
      ensures Valid()
      ensures forall c, j :: 0 <= c < nCh && 0 <= j < frame ==> BlendAt(output[..], parts, nCh, frame, c, j)
    {
      ghost var w, pw := packedWeights[..], previousPackedWeights[..];
      WholeShape(packedInputs, w, nCh, total, maxNodes, frame);
      WholeShape(packedInputs, pw, nCh, total, maxNodes, frame);
      FlatNat(nCh, frame);
      hide Flat;
      hide Shaped;
      hide IsMixRow;
      hide AllPacked;
      if pureGo {
        EncodeFadeBack(packedInputs, packedWeights[..], previousPackedWeights[..], total, nCh, total, frame, output, tempMix);
      } else {
        EncodeFade(packedInputs, packedWeights[..], previousPackedWeights[..], total, nCh, total, frame, output, tempMix);
      }
      assert packedWeights[..] == w && previousPackedWeights[..] == pw;
      forall c, j | 0 <= c < nCh && 0 <= j < frame
        ensures BlendAt(output[..], parts, nCh, frame, c, j)
      {
        PackedMixIsBlend(output[..], packedInputs, w, pw, parts, nCh, frame, c, j);
      }
    }
  }

  ghost predicate BlendAt(out: seq<real>, parts: seq<Part>, nCh: nat, frame: nat, c: int, j: int)
    requires frame >= 2 && 0 <= c < nCh && 0 <= j < frame && PartsOk(parts, nCh, frame)
  {
    Flat(c, frame) + j < |out| && Cell(out, c, j, frame) == Sum(BlendTerms(parts, nCh, frame, c, j))
  }

  lemma FlatNarrow(nCh: nat, total: int, maxNodes: nat)
    requires 0 <= total <= maxNodes
    ensures Flat(nCh, total) <= Flat(nCh, maxNodes)
  {
    assert nCh * (maxNodes - total) >= 0;
  }

  lemma WholeShape(inputs: seq<real>, w: seq<real>, nCh: nat, total: nat, maxNodes: nat, frame: nat)
    requires total <= maxNodes && |inputs| == Flat(total, frame) && |w| == Flat(nCh, maxNodes)
    ensures Shaped(inputs, w, total, nCh, total, frame)
  {
    FlatNarrow(nCh, total, maxNodes);
    FlatNext(nCh - 1, total);
    hide Flat;
  }

  // ---- The dense, masked form ---------------------------------------------------------------------

  predicate Distinct(slots: seq<nat>, n: nat) {
    && (forall i :: 0 <= i < |slots| ==> slots[i] < n)
    && (forall i, k :: 0 <= i < k < |slots| ==> slots[i] != slots[k])
  }

  function Picked(t: seq<real>, slots: seq<nat>): (r: seq<real>)
    requires Distinct(slots, |t|)
    ensures |r| == |slots|
  {
    seq(|slots|, i requires 0 <= i < |slots| => t[slots[i]])
  }

  function Unpicked(t: seq<real>, slots: seq<nat>): (r: seq<real>)
    ensures |r| == |t|
  {
    seq(|t|, s requires 0 <= s < |t| => if s in slots then 0.0 else t[s])
  }

  lemma {:induction false} SumTakesOut(t: seq<real>, s: nat)
    requires s < |t|
    ensures Sum(t) == t[s] + Sum(t[s := 0.0])
  {
    var n := |t| - 1;
    if s < n {
      SumTakesOut(t[..n], s);
      assert t[s := 0.0][..n] == t[..n][s := 0.0];
    } else {
      assert t[s := 0.0][..n] == t[..n];
    }
  }

  /** A sum over all slots is the sum over the picked ones plus the rest. */
  lemma {:induction false} SumSplits(t: seq<real>, slots: seq<nat>)
    requires Distinct(slots, |t|)
    ensures Sum(t) == Sum(Picked(t, slots)) + Sum(Unpicked(t, slots))
  {
    if slots == [] {
      assert Unpicked(t, slots) == t;
    } else {
      var m := |slots| - 1;
      var fewer := slots[..m];
      SumSplits(t, fewer);
      assert slots == fewer + [slots[m]];
      assert Picked(t, slots)[..m] == Picked(t, fewer);
      SumTakesOut(Unpicked(t, fewer), slots[m]);
      assert Unpicked(t, fewer)[slots[m] := 0.0] == Unpicked(t, slots);
    }
  }

  lemma {:induction false} SumOfZeros(t: seq<real>)
    requires forall i :: 0 <= i < |t| ==> t[i] == 0.0
    ensures Sum(t) == 0.0
  {
    if t != [] {
      SumOfZeros(t[..|t| - 1]);
    }
  }

  /** Which slots carry which parts this frame: the others have no current weight. */
  ghost predicate Scattered(data: seq<real>, cur: seq<real>, prev: seq<real>, slots: seq<nat>, parts: seq<Part>,
                            n: nat, nCh: nat, frame: nat) {
    && Distinct(slots, n) && |slots| == |parts| && Flat(n, frame) <= |data|
    && Flat(nCh, n) <= |cur| && Flat(nCh, n) <= |prev|
    && (forall i :: 0 <= i < |slots| ==> PackedAt(data, cur, prev, parts[i], slots[i], n, nCh, frame))
    && (forall s, c :: 0 <= s < n && s !in slots && 0 <= c < nCh ==> CellIs(cur, c, s, n, nCh, 0.0))
  }

  /** What the dense mix adds for the slots that are not in this frame: their previous weights
      fading out on whatever their rows hold. */
  ghost function FadeOut(data: seq<real>, cur: seq<real>, prev: seq<real>, slots: seq<nat>,
                         n: nat, nCh: nat, frame: nat, c: int, j: int): (r: seq<real>)
    requires frame >= 2 && 0 <= c < nCh && 0 <= j < frame && Flat(n, frame) <= |data|
    requires Flat(c, n) + n <= |cur| && Flat(c, n) + n <= |prev|
    ensures |r| == n
  {
    Unpicked(FadeTerms(data, cur, prev, n, n, frame, c, j), slots)
  }

  /** Dense over all slots = packed over this frame's parts, plus the fade-outs. */
  lemma DenseIsPackedPlusFadeOut(out: seq<real>, data: seq<real>, cur: seq<real>, prev: seq<real>,
                                 slots: seq<nat>, parts: seq<Part>, n: nat, nCh: nat, frame: nat, c: int, j: int)
    requires frame >= 2 && 0 <= c < nCh && 0 <= j < frame && Flat(nCh, frame) <= |out| && PartsOk(parts, nCh, frame)
    requires Scattered(data, cur, prev, slots, parts, n, nCh, frame)
    requires Shaped(data, cur, n, nCh, n, frame) && Shaped(data, prev, n, nCh, n, frame)
    requires IsMixRow(out, data, cur, prev, n, nCh, n, frame, c)
    ensures Flat(c, frame) + j < |out| && Flat(c, n) + n <= |cur| && Flat(c, n) + n <= |prev|
    ensures Cell(out, c, j, frame)
            == Sum(BlendTerms(parts, nCh, frame, c, j)) + Sum(FadeOut(data, cur, prev, slots, n, nCh, frame, c, j))
  {
    SampleIsFadedSum(out, data, cur, prev, n, nCh, n, frame, c, j);
    hide Flat;
    hide Cell;
    hide Sum;
    hide IsMixRow;
    hide FadeTerms;
    hide BlendTerms;
    hide PackedAt;
    hide CellIs;
    hide Shaped;
    var t := FadeTerms(data, cur, prev, n, n, frame, c, j);
    SumSplits(t, slots);
    PickedIsBlend(data, cur, prev, slots, parts, n, nCh, frame, c, j);
  }

  lemma PickedIsBlend(data: seq<real>, cur: seq<real>, prev: seq<real>,
                      slots: seq<nat>, parts: seq<Part>, n: nat, nCh: nat, frame: nat, c: int, j: int)
    requires frame >= 2 && 0 <= c < nCh && 0 <= j < frame && PartsOk(parts, nCh, frame)
    requires Scattered(data, cur, prev, slots, parts, n, nCh, frame)
    requires Flat(c, n) + n <= |cur| && Flat(c, n) + n <= |prev|
    ensures Picked(FadeTerms(data, cur, prev, n, n, frame, c, j), slots) == BlendTerms(parts, nCh, frame, c, j)
  {
    hide Flat;
    hide FadeTerm;
    hide Mixed;
    hide Ramp;
    hide PackedAt;
    hide CellIs;
    forall i | 0 <= i < |slots|
      ensures Picked(FadeTerms(data, cur, prev, n, n, frame, c, j), slots)[i] == BlendTerms(parts, nCh, frame, c, j)[i]
    {
      TermIsBlend(data, cur, prev, parts[i], slots[i], n, nCh, frame, c, j);
    }
  }

  /** A slot outside the frame contributes its previous weight, fading out. */
  lemma FadeOutTerm(data: seq<real>, cur: seq<real>, prev: seq<real>, slots: seq<nat>, parts: seq<Part>,
                    n: nat, nCh: nat, frame: nat, c: int, j: int, s: nat)
    requires frame >= 2 && 0 <= c < nCh && 0 <= j < frame && s < n && s !in slots
    requires Scattered(data, cur, prev, slots, parts, n, nCh, frame)
    requires Flat(c, n) + n <= |cur| && Flat(c, n) + n <= |prev|
    ensures Flat(s, frame) + j < |data| && Flat(c, n) + s < |prev|
    ensures FadeOut(data, cur, prev, slots, n, nCh, frame, c, j)[s]
            == (1.0 - Ramp(j, frame)) * Cell(prev, c, s, n) * Cell(data, s, j, frame)
  {
    RowFits(s, n, frame);
    assert CellIs(cur, c, s, n, nCh, 0.0);
    hide Flat;
    hide Cell;
    hide Ramp;
    hide PackedAt;
  }

  /** The dense mix equals the packed one whenever every slot outside this frame has no previous
      weight on the channel. */
  lemma DenseEqualsPacked(out: seq<real>, data: seq<real>, cur: seq<real>, prev: seq<real>,
                          slots: seq<nat>, parts: seq<Part>, n: nat, nCh: nat, frame: nat, c: int, j: int)
    requires frame >= 2 && 0 <= c < nCh && 0 <= j < frame && Flat(nCh, frame) <= |out| && PartsOk(parts, nCh, frame)
    requires Scattered(data, cur, prev, slots, parts, n, nCh, frame)
    requires Shaped(data, cur, n, nCh, n, frame) && Shaped(data, prev, n, nCh, n, frame)
    requires IsMixRow(out, data, cur, prev, n, nCh, n, frame, c)
    requires forall s :: 0 <= s < n && s !in slots ==> CellIs(prev, c, s, n, nCh, 0.0)
    ensures Flat(c, frame) + j < |out| && Cell(out, c, j, frame) == Sum(BlendTerms(parts, nCh, frame, c, j))
  {
    DenseIsPackedPlusFadeOut(out, data, cur, prev, slots, parts, n, nCh, frame, c, j);
    hide Flat;
    hide Sum;
    hide IsMixRow;
    hide BlendTerms;
    hide Shaped;
    hide Scattered;
    hide FadeTerms;
    var rest := FadeOut(data, cur, prev, slots, n, nCh, frame, c, j);
    forall s | 0 <= s < n
      ensures rest[s] == 0.0
    {
      if s !in slots {
        FadeOutTerm(data, cur, prev, slots, parts, n, nCh, frame, c, j, s);
        assert CellIs(prev, c, s, n, nCh, 0.0);
      }
    }
    SumOfZeros(rest);
  }

  /** Slot s of a weight matrix as the scatter leaves it after the first i parts. */
  ghost predicate ScatteredTo(cur: seq<real>, slots: seq<nat>, parts: seq<Part>, n: nat, nCh: nat, i: nat)
    requires i <= |slots| == |parts| && forall k :: 0 <= k < |parts| ==> |parts[k].cur| == nCh
  {
    && (forall k :: 0 <= k < i ==> ColumnIs(cur, slots[k], n, parts[k].cur, nCh))
    && (forall s :: 0 <= s < n && s !in slots[..i] ==> ColumnIs(cur, s, n, Zeros(nCh), nCh))
  }

  lemma ScatterStep(was: seq<real>, cur: seq<real>, slots: seq<nat>, parts: seq<Part>, n: nat, nCh: nat, i: nat)
    requires i < |slots| == |parts| && Distinct(slots, n) && forall k :: 0 <= k < |parts| ==> |parts[k].cur| == nCh
    requires ScatteredTo(was, slots, parts, n, nCh, i) && ColumnIs(cur, slots[i], n, parts[i].cur, nCh)
    requires forall s, v :: s != slots[i] && |v| == nCh && ColumnIs(was, s, n, v, nCh) ==> ColumnIs(cur, s, n, v, nCh)
    ensures ScatteredTo(cur, slots, parts, n, nCh, i + 1)
  {
    hide ColumnIs;
    hide Zeros;
    assert slots[..i + 1] == slots[..i] + [slots[i]];
  }

  /** Clear the current matrix, scatter this frame's weights, and mix densely over the shared rows. */
  method MixShared(data: seq<real>, cur: array<real>, prev: seq<real>, slots: seq<nat>, parts: seq<Part>,
                   n: nat, nCh: nat, frame: nat, output: array<real>, temp: array<real>)
    requires frame >= 2 && Distinct(slots, n) && |slots| == |parts| && PartsOk(parts, nCh, frame)
    requires Flat(n, frame) <= |data| && cur.Length == Flat(nCh, n) && |prev| == Flat(nCh, n)
    requires cur != output && cur != temp && output != temp && Flat(nCh, frame) <= output.Length && Flat(nCh, frame) <= temp.Length
    requires forall i :: 0 <= i < |slots| ==> SourceAt(data, prev, slots[i], parts[i], n, nCh, frame)
    modifies cur, output, temp
    ensures Scattered(data, cur[..], prev, slots, parts, n, nCh, frame)
    ensures Shaped(data, cur[..], n, nCh, n, frame) && Shaped(data, prev, n, nCh, n, frame)
    ensures forall c :: 0 <= c < nCh ==> IsMixRow(output[..], data, cur[..], prev, n, nCh, n, frame, c)
  {
    forall k | 0 <= k < cur.Length {
      cur[k] := 0.0;
    }
    ClearedColumns(cur[..], nCh, n);
    FlatNat(nCh, frame);
    hide Flat;
    hide ColumnIs;
    hide Zeros;
    var i := 0;
    while i < |slots|
      invariant 0 <= i <= |slots| && ScatteredTo(cur[..], slots, parts, n, nCh, i)
    {
      ghost var was := cur[..];
      PutColumn(cur, slots[i], n, parts[i].cur);
      ScatterStep(was, cur[..], slots, parts, n, nCh, i);
      i := i + 1;
    }
    assert slots[..i] == slots;
    ghost var w := cur[..];
    ScatterDone(data, w, prev, slots, parts, n, nCh, frame);
    hide Scattered;
    hide Shaped;
    hide IsMixRow;
    EncodeFade(data, cur[..], prev, n, nCh, n, frame, output, temp);
    assert cur[..] == w;
  }

  /** The part's frame and its previous weights are where its slot says. */
  ghost predicate SourceAt(data: seq<real>, prev: seq<real>, s: nat, p: Part, n: nat, nCh: nat, frame: nat) {
    && PartOk(p, nCh, frame) && Flat(s + 1, frame) <= |data| && Row(data, s, frame) == p.input
    && ColumnIs(prev, s, n, p.prev, nCh)
  }

  lemma ClearedColumns(cur: seq<real>, nCh: nat, n: nat)
    requires |cur| == Flat(nCh, n) && forall k :: 0 <= k < |cur| ==> cur[k] == 0.0
    ensures forall s :: 0 <= s < n ==> ColumnIs(cur, s, n, Zeros(nCh), nCh)
  {
    hide Flat;
    forall s, c | 0 <= s < n && 0 <= c < nCh
      ensures CellIs(cur, c, s, n, nCh, 0.0)
    {
      CellFits(c, s, n, nCh);
    }
  }

  lemma ScatterDone(data: seq<real>, cur: seq<real>, prev: seq<real>, slots: seq<nat>, parts: seq<Part>,
                    n: nat, nCh: nat, frame: nat)
    requires Distinct(slots, n) && |slots| == |parts| && PartsOk(parts, nCh, frame)
    requires Flat(n, frame) <= |data| && |cur| == Flat(nCh, n) && |prev| == Flat(nCh, n)
    requires ScatteredTo(cur, slots, parts, n, nCh, |slots|) && slots[..|slots|] == slots
    requires forall i :: 0 <= i < |slots| ==> SourceAt(data, prev, slots[i], parts[i], n, nCh, frame)
    ensures Scattered(data, cur, prev, slots, parts, n, nCh, frame)
    ensures Shaped(data, cur, n, nCh, n, frame) && Shaped(data, prev, n, nCh, n, frame)
  {
    FlatNext(nCh - 1, n);
    hide Flat;
    hide Cell;
    forall s, c | 0 <= s < n && s !in slots && 0 <= c < nCh
      ensures CellIs(cur, c, s, n, nCh, 0.0)
    {
      assert ColumnIs(cur, s, n, Zeros(nCh), nCh);
      assert CellIs(cur, c, s, n, nCh, Zeros(nCh)[c]);
    }
  }
}
