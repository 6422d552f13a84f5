/** Order statistics of integer sequences: the sort that window statistics are read from, and
    the count that characterises an n-th largest value; and scaling in the order of the reals. */
module Order {

  function Min(a: int, b: int): int {
    if a <= b then a else b
  }

  function Max(a: int, b: int): int {
    if a >= b then a else b
  }

  predicate IsSorted(s: seq<int>) {
    forall i, j :: 0 <= i < j < |s| ==> s[i] <= s[j]
  }

  function Insert(s: seq<int>, v: int): (r: seq<int>)
    ensures |r| == |s| + 1
  {
    if s == [] || v <= s[0] then [v] + s else [s[0]] + Insert(s[1..], v)
  }

  /** The ascending sort of s. */
  function Sorted(s: seq<int>): (r: seq<int>)
    ensures |r| == |s|
  {
    if s == [] then [] else Insert(Sorted(s[..|s| - 1]), s[|s| - 1])
  }

  lemma {:induction false} InsertPermutes(s: seq<int>, v: int)
    ensures multiset(Insert(s, v)) == multiset(s) + multiset{v}
  {
    if s != [] && v > s[0] {
      InsertPermutes(s[1..], v);
      assert s == [s[0]] + s[1..];
    }
  }

  lemma {:induction false} SortedPermutes(s: seq<int>)
    ensures multiset(Sorted(s)) == multiset(s)
  {
    if s != [] {
      SortedPermutes(s[..|s| - 1]);
      InsertPermutes(Sorted(s[..|s| - 1]), s[|s| - 1]);
      assert s == s[..|s| - 1] + [s[|s| - 1]];
    }
  }

  lemma {:induction false} InsertKeepsSorted(s: seq<int>, v: int)
    requires IsSorted(s)
    ensures IsSorted(Insert(s, v))
  {
    if s != [] && v > s[0] {
      InsertKeepsSorted(s[1..], v);
      var t := Insert(s[1..], v);
      forall j | 0 <= j < |t| ensures s[0] <= t[j] {
        InsertMember(s[1..], v, j);
        hide Insert;
      }
      ConsKeepsSorted(s[0], t);
    } else {
      ConsKeepsSorted(v, s);
    }
  }

  lemma ConsKeepsSorted(x: int, s: seq<int>)
    requires IsSorted(s) && forall j :: 0 <= j < |s| ==> x <= s[j]
    ensures IsSorted([x] + s)
  {
  }

  lemma {:induction false} InsertMember(s: seq<int>, v: int, j: nat)
    requires j < |Insert(s, v)|
    ensures Insert(s, v)[j] == v || Insert(s, v)[j] in s
  {
    if s != [] && v > s[0] && j > 0 {
      InsertMember(s[1..], v, j - 1);
    }
  }

  lemma {:induction false} SortedIsSorted(s: seq<int>)
    ensures IsSorted(Sorted(s))
  {
    if s != [] {
      SortedIsSorted(s[..|s| - 1]);
      InsertKeepsSorted(Sorted(s[..|s| - 1]), s[|s| - 1]);
    }
  }

  /** Every element of the sort is an element of the original, and the ends bound it. */
  lemma SortedMembers(s: seq<int>, i: nat)
    requires i < |s|
    ensures Sorted(s)[i] in s
    ensures exists j :: 0 <= j < |s| && Sorted(s)[j] == s[i]
  {
    SortedPermutes(s);
    assert Sorted(s)[i] in multiset(Sorted(s));
    assert s[i] in multiset(s);
    assert s[i] in multiset(Sorted(s));
  }

  /** How many entries of s lie strictly above x. */
  function CountAbove(s: seq<int>, x: int): (n: nat)
    ensures n <= |s|
  {
    if s == [] then 0
    else CountAbove(s[..|s| - 1], x) + if s[|s| - 1] > x then 1 else 0
  }

  lemma {:induction false} CountAboveCons(v: int, s: seq<int>, x: int)
    ensures CountAbove([v] + s, x) == CountAbove(s, x) + if v > x then 1 else 0
  {
    if s == [] {
      assert [v] + s == [v];
      assert CountAbove([v][..0], x) == 0;
    } else {
      assert ([v] + s)[..|s|] == [v] + s[..|s| - 1];
      CountAboveCons(v, s[..|s| - 1], x);
    }
  }

  lemma {:induction false} CountAboveInsert(s: seq<int>, v: int, x: int)
    ensures CountAbove(Insert(s, v), x) == CountAbove(s, x) + if v > x then 1 else 0
  {
    if s == [] || v <= s[0] {
      CountAboveCons(v, s, x);
    } else {
      assert s == [s[0]] + s[1..];
      CountAboveInsert(s[1..], v, x);
      CountAboveCons(s[0], Insert(s[1..], v), x);
      CountAboveCons(s[0], s[1..], x);
    }
  }

  lemma {:induction false} CountAboveSorted(s: seq<int>, x: int)
    ensures CountAbove(Sorted(s), x) == CountAbove(s, x)
  {
    if s != [] {
      CountAboveSorted(s[..|s| - 1], x);
      CountAboveInsert(Sorted(s[..|s| - 1]), s[|s| - 1], x);
    }
  }

  /** In a sorted sequence the k-th entry exceeds x exactly when at least |s| - k entries do. */
  lemma {:induction false} CountAboveOfSorted(s: seq<int>, k: nat, x: int)
    requires IsSorted(s) && k < |s|
    ensures s[k] > x <==> CountAbove(s, x) >= |s| - k
  {
    if k == |s| - 1 {
      if s[k] <= x {
        NoneAbove(s, x);
      }
    } else {
      CountAboveOfSorted(s[..|s| - 1], k, x);
      if CountAbove(s, x) >= |s| - k && s[|s| - 1] <= x {
        NoneAbove(s, x);
      }
    }
  }

  lemma {:induction false} NoneAbove(s: seq<int>, x: int)
    requires forall i :: 0 <= i < |s| ==> s[i] <= x
    ensures CountAbove(s, x) == 0
  {
    if s != [] {
      NoneAbove(s[..|s| - 1], x);
    }
  }

  // ---- Order on reals -------------------------------------------------------------------

  lemma DivideKeepsOrder(a: real, b: real, c: real)
    requires a <= b && c > 0.0
    ensures a / c <= b / c
  {
    var x, y := a / c, b / c;
    assert x * c == a && y * c == b;
  }

  lemma TimesKeeps(a: real, b: real, c: real)
    requires a <= b && c >= 0.0
    ensures a * c <= b * c
  {
    var d := b - a;
    NonNegativeProduct(d, c);
    assert d * c == b * c - a * c;
  }

  lemma NonNegativeProduct(a: real, b: real)
    requires a >= 0.0 && b >= 0.0
    ensures a * b >= 0.0
  {
  }

  /** A share of at most one of something lies between nothing and all of it. */
  lemma ShareOf(t: real, d: real)
    requires 0.0 <= t <= 1.0
    ensures d >= 0.0 ==> 0.0 <= Portion(t, d) <= d
    ensures d <= 0.0 ==> d <= Portion(t, d) <= 0.0
  {
    var u := 1.0 - t;
    assert u * d == d - t * d;
    if d >= 0.0 {
      NonNegativeProduct(t, d);
      NonNegativeProduct(u, d);
    } else {
      var e := -d;
      NonNegativeProduct(t, e);
      NonNegativeProduct(u, e);
      assert t * e == -(t * d) && u * e == -(u * d);
    }
  }

  lemma PositiveProduct(a: real, b: real)
    requires a > 0.0 && b > 0.0
    ensures a * b > 0.0
  {
  }

  lemma PositiveQuotient(a: real, b: real)
    requires a > 0.0 && b > 0.0
    ensures a / b > 0.0
  {
    assert (a / b) * b == a;
  }

  function Abs(x: real): real {
    if x < 0.0 then -x else x
  }

  /** Conversion of a float to an integer: truncation toward zero. */
  function Trunc(x: real): (n: int)
    ensures x >= 0.0 ==> n >= 0
  {
    if x >= 0.0 then x.Floor else -((-x).Floor)
  }

  /** A share t of d. */
  function Portion(t: real, d: real): real {
    t * d
  }

  /** t of the way from a to b. */
  function Lerp(a: real, b: real, t: real): real {
    a + Portion(t, b - a)
  }

  /** v lies between a and b, ends included. */
  predicate Amid(a: real, b: real, v: real) {
    a <= v <= b || b <= v <= a
  }

  lemma LerpAmid(a: real, b: real, t: real)
    requires 0.0 <= t <= 1.0
    ensures Amid(a, b, Lerp(a, b, t))
  {
    hide Portion;
    ShareOf(t, b - a);
  }
}
