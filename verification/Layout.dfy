/** Flat interleaved layouts, block copies, and the optional value. */
module Layout {

  datatype Option<+T> = None | Some(value: T)

  lemma MulMono(a: int, b: int, n: int)
    requires a <= b && n >= 0
    ensures a * n <= b * n
  {
    assert (b - a) * n >= 0;
  }

  /** The sample offset of n frames. */
  function Flat(n: int, nc: int): int {
    n * nc
  }

  lemma FlatSum(a: int, b: int, nc: int)
    ensures Flat(a + b, nc) == Flat(a, nc) + Flat(b, nc)
  {
  }

  lemma FlatUnits(nc: int)
    ensures Flat(0, nc) == 0 && Flat(1, nc) == nc
  {
  }

  lemma FlatOrder(a: int, b: int, nc: int)
    requires a <= b && nc >= 0
    ensures Flat(a, nc) <= Flat(b, nc)
  {
    MulMono(a, b, nc);
  }

  lemma FlatNat(n: int, nc: int)
    requires n >= 0 && nc >= 0
    ensures Flat(n, nc) >= 0
  {
    FlatOrder(0, n, nc);
  }

  /** The next frame starts nc samples further on. */
  lemma FlatNext(n: int, nc: int)
    ensures Flat(n + 1, nc) == Flat(n, nc) + nc
  {
  }

  /** s with src written over it from index at on. */
  function Over(s: seq<real>, at: nat, src: seq<real>): (r: seq<real>)
    requires at + |src| <= |s|
    ensures |r| == |s|
  {
    s[..at] + src + s[at + |src|..]
  }

  /** Writing a block piece by piece. */
  lemma OverGrows(s: seq<real>, block: seq<real>, k: nat, m: nat)
    requires k + m <= |block| <= |s|
    ensures Over(Over(s, 0, block[..k]), k, block[k..k + m]) == Over(s, 0, block[..k + m])
  {
    var r := Over(s, 0, block[..k]);
    assert r[..k] == block[..k] && r[k + m..] == s[k + m..];
    assert block[..k] + block[k..k + m] == block[..k + m];
  }

  lemma OverNothing(s: seq<real>)
    ensures Over(s, 0, []) == s
  {
  }

  /** Copy src over dst from index at on. */
  method CopyInto(dst: array<real>, at: nat, src: seq<real>)
    requires at + |src| <= dst.Length
    modifies dst
    ensures dst[..] == Over(old(dst[..]), at, src)
  {
    forall i | 0 <= i < |src| {
      dst[at + i] := src[i];
    }
  }

  /** Copy x and then y to the front of dst. */
  method CopyTwo(dst: array<real>, x: seq<real>, y: seq<real>)
    requires |x| + |y| <= dst.Length
    modifies dst
    ensures dst[..] == Over(old(dst[..]), 0, x + y)
  {
    hide Over;
    OverGrows(dst[..], x + y, |x|, |y|);
    assert (x + y)[..|x|] == x && (x + y)[|x|..|x| + |y|] == y && (x + y)[..|x| + |y|] == x + y;
    CopyInto(dst, 0, x);
    CopyInto(dst, |x|, y);
  }

  /** Sample t of a stream that is silent before its start. */
  function At(s: seq<real>, t: int): real {
    if 0 <= t < |s| then s[t] else 0.0
  }

  function Zeros(n: nat): (r: seq<real>)
    ensures |r| == n
  {
    seq(n, _ => 0.0)
  }

  lemma OverElsewhere(m: seq<real>, at: nat, src: seq<real>, lo: nat, hi: nat)
    requires at + |src| <= |m| && lo <= hi <= |m| && (hi <= at || at + |src| <= lo)
    ensures Over(m, at, src)[lo..hi] == m[lo..hi]
  {
    var d := Over(m, at, src);
    forall k | lo <= k < hi
      ensures d[k] == m[k]
    {
    }
  }

  /** Two copies in a row, the second wrapping round to the front. */
  lemma OverWrapped(s: seq<real>, at: nat, x: seq<real>, y: seq<real>)
    requires at + |x| == |s| && |y| <= at
    ensures Over(Over(s, at, x), 0, y) == y + s[|y|..at] + x
  {
  }
}
