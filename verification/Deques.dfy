/** The monotonic deque shared by the sensors and the oracle: entries it could still need, in
    arrival order, largest first. */
module Deques {

  datatype Entry<T> = Entry(idx: int, v: T)

  /** The first arrival the k-th entry speaks for. */
  function From<T>(dq: seq<Entry<T>>, k: int, lo: int): int
    requires 0 <= k < |dq|
  {
    if k == 0 then lo else dq[k - 1].idx + 1
  }

  /** An entry is one of the values pushed, still inside the window. */
  ghost predicate Genuine<T>(dq: seq<Entry<T>>, h: seq<T>, lo: int) {
    && (forall k :: 0 <= k < |dq| ==> lo <= dq[k].idx < |h| && 0 <= dq[k].idx && dq[k].v == h[dq[k].idx])
    && (forall k, l :: 0 <= k < l < |dq| ==> dq[k].idx < dq[l].idx)
    && (if dq == [] then lo >= |h| || h == [] else dq[|dq| - 1].idx == |h| - 1)
  }

  /** Entry k is at least every value pushed after entry k - 1. */
  ghost predicate Tops<T>(dq: seq<Entry<T>>, key: T -> real, h: seq<T>, lo: int, k: int)
    requires 0 <= k < |dq|
  {
    forall i :: From(dq, k, lo) <= i < |h| && 0 <= i ==> key(h[i]) <= key(dq[k].v)
  }

  ghost predicate Leaders<T>(dq: seq<Entry<T>>, key: T -> real, h: seq<T>, lo: int) {
    && Genuine(dq, h, lo)
    && forall k :: 0 <= k < |dq| ==> Tops(dq, key, h, lo, k)
  }

  /** The front of the deque is a largest value of the window. */
  ghost predicate LargestSince<T>(v: T, key: T -> real, h: seq<T>, lo: int) {
    && (exists i :: 0 <= i < |h| && lo <= i && h[i] == v)
    && forall i :: 0 <= i < |h| && lo <= i ==> key(h[i]) <= key(v)
  }

  lemma FrontIsLargest<T>(dq: seq<Entry<T>>, key: T -> real, h: seq<T>, lo: int)
    requires Leaders(dq, key, h, lo) && lo < |h| && h != []
    ensures dq != [] && LargestSince(dq[0].v, key, h, lo)
  {
    assert Tops(dq, key, h, lo, 0);
  }

  /** Dropping from the back what the new value outranks, then adding it, keeps the leaders. */
  lemma AppendKeeps<T>(dq: seq<Entry<T>>, key: T -> real, h: seq<T>, lo: int, m: nat, v: T)
    requires Leaders(dq, key, h, lo) && m <= |dq| && lo <= |h|
    requires m < |dq| ==> key(dq[m].v) <= key(v)
    requires forall k :: 0 <= k < m ==> key(dq[k].v) > key(v)
    ensures Leaders(dq[..m] + [Entry(|h|, v)], key, h + [v], lo)
  {
    var r := dq[..m] + [Entry(|h|, v)];
    forall k | 0 <= k < |r|
      ensures Tops(r, key, h + [v], lo, k)
    {
      if k < m {
        assert Tops(dq, key, h, lo, k);
      } else if m < |dq| {
        assert Tops(dq, key, h, lo, m);
      }
    }
  }

  /** Dropping from the front what has left the window keeps the leaders of the smaller window. */
  lemma PruneKeeps<T>(dq: seq<Entry<T>>, key: T -> real, h: seq<T>, lo: int, m: nat, upto: int)
    requires Leaders(dq, key, h, lo) && lo <= upto && m <= |dq|
    requires forall k :: 0 <= k < m ==> dq[k].idx < upto
    requires m < |dq| ==> dq[m].idx >= upto
    ensures Leaders(dq[m..], key, h, upto)
  {
    var r := dq[m..];
    forall k | 0 <= k < |r|
      ensures Tops(r, key, h, upto, k)
    {
      assert Tops(dq, key, h, lo, m + k);
    }
  }

  /** One push: outranked entries leave at the back, entries before upto leave at the front. */
  method Slide<T>(dq: seq<Entry<T>>, key: T -> real, i: int, v: T, upto: int, ghost h: seq<T>, ghost lo: int)
    returns (r: seq<Entry<T>>)
    requires Leaders(dq, key, h, lo) && i == |h| && lo <= upto && lo <= |h|
    ensures Leaders(r, key, h + [v], upto)
    ensures upto <= |h| ==> r != [] && LargestSince(r[0].v, key, h + [v], upto)
  {
    hide Leaders;
    hide LargestSince;
    r := dq;
    while |r| > 0 && key(r[|r| - 1].v) <= key(v)
      invariant |r| <= |dq| && r == dq[..|r|]
      invariant |r| < |dq| ==> key(dq[|r|].v) <= key(v)
      decreases |r|
    {
      r := r[..|r| - 1];
    }
    BackOrder(dq, key, h, lo, |r|, v);
    AppendKeeps(dq, key, h, lo, |r|, v);
    r := r + [Entry(i, v)];
    ghost var full := r;
    ghost var n := 0;
    while |r| > 0 && r[0].idx < upto
      invariant 0 <= n <= |full| && r == full[n..]
      invariant forall k :: 0 <= k < n ==> full[k].idx < upto
      decreases |r|
    {
      r := r[1..];
      n := n + 1;
    }
    PruneKeeps(full, key, h + [v], lo, n, upto);
    if upto <= |h| {
      FrontIsLargest(r, key, h + [v], upto);
    }
  }

  /** Values fall along the deque, so stopping at the first that outranks v is enough. */
  lemma BackOrder<T>(dq: seq<Entry<T>>, key: T -> real, h: seq<T>, lo: int, m: nat, v: T)
    requires Leaders(dq, key, h, lo) && m <= |dq| && (m > 0 ==> key(dq[m - 1].v) > key(v))
    ensures forall k :: 0 <= k < m ==> key(dq[k].v) > key(v)
  {
    forall k | 0 <= k < m
      ensures key(dq[k].v) > key(v)
    {
      assert Tops(dq, key, h, lo, k);
    }
  }
}
