/** Row counts and sums as the services' `COUNT`, `SUM` and `AVG` queries
    compute them, over a table kept as a sequence of rows. A count is a sum
    whose weight is 0 or 1. */
module Tally {

  /** The sum of `w` over the rows. */
  function SumOf<T>(s: seq<T>, w: T -> int): int {
    if s == [] then 0 else w(s[0]) + SumOf(s[1..], w)
  }

  /** No row occurs twice. */
  predicate Distinct<T(==)>(s: seq<T>) {
    forall i, j :: 0 <= i < j < |s| ==> s[i] != s[j]
  }

  /** The rows other than `x` (a `DELETE ... WHERE` on every column). */
  function Without<T(==,!new)>(s: seq<T>, x: T): (r: seq<T>)
    ensures forall y :: y in r <==> y in s && y != x
    ensures |r| <= |s|
  {
    if s == [] then []
    else if s[0] == x then Without(s[1..], x)
    else [s[0]] + Without(s[1..], x)
  }

  lemma {:induction false} SumOfConcat<T>(a: seq<T>, b: seq<T>, w: T -> int)
    ensures SumOf(a + b, w) == SumOf(a, w) + SumOf(b, w)
  {
    if a == [] {
      assert a + b == b;
    } else {
      assert (a + b)[1..] == a[1..] + b;
      SumOfConcat(a[1..], b, w);
    }
  }

  /** Inserting a row adds its weight. */
  lemma SumOfAppend<T>(s: seq<T>, x: T, w: T -> int)
    ensures SumOf(s + [x], w) == SumOf(s, w) + w(x)
  {
    SumOfConcat(s, [x], w);
    assert [x][1..] == [];
  }

  /** Deleting the row at `i` subtracts its weight. */
  lemma SumOfRemove<T>(s: seq<T>, i: nat, w: T -> int)
    requires i < |s|
    ensures SumOf(s[..i] + s[i + 1..], w) == SumOf(s, w) - w(s[i])
  {
    var tail := [s[i]] + s[i + 1..];
    assert s == s[..i] + tail;
    assert tail[1..] == s[i + 1..];
    assert SumOf(tail, w) == w(s[i]) + SumOf(s[i + 1..], w);
    SumOfConcat(s[..i], tail, w);
    SumOfConcat(s[..i], s[i + 1..], w);
  }

  /** Updating the row at `i` swaps its weight for the new one. */
  lemma SumOfReplace<T>(s: seq<T>, i: nat, x: T, w: T -> int)
    requires i < |s|
    ensures SumOf(s[i := x], w) == SumOf(s, w) - w(s[i]) + w(x)
  {
    SumOfRemove(s, i, w);
    SumOfRemove(s[i := x], i, w);
    assert s[i := x][..i] + s[i := x][i + 1..] == s[..i] + s[i + 1..];
  }

  /** A row set that does not hold `x` is unchanged by deleting it. */
  lemma {:induction false} WithoutAbsent<T(!new)>(s: seq<T>, x: T)
    requires x !in s
    ensures Without(s, x) == s
  {
    if s != [] {
      WithoutAbsent(s[1..], x);
      assert s == [s[0]] + s[1..];
    }
  }

  /** Deleting a row that occurs at most once subtracts its weight once, or
      nothing when it is absent. */
  lemma {:induction false} SumOfWithout<T(!new)>(s: seq<T>, x: T, w: T -> int)
    requires Distinct(s)
    ensures SumOf(Without(s, x), w) == SumOf(s, w) - (if x in s then w(x) else 0)
  {
    if s != [] {
      assert Distinct(s[1..]);
      if s[0] == x {
        assert x !in s[1..];
        WithoutAbsent(s[1..], x);
      } else {
        SumOfWithout(s[1..], x, w);
        assert x in s <==> x in s[1..];
        assert Without(s, x)[1..] == Without(s[1..], x);
      }
    }
  }

  lemma {:induction false} WithoutKeepsDistinct<T(!new)>(s: seq<T>, x: T)
    requires Distinct(s)
    ensures Distinct(Without(s, x))
  {
    if s != [] {
      assert Distinct(s[1..]);
      WithoutKeepsDistinct(s[1..], x);
      if s[0] != x {
        assert s[0] !in Without(s[1..], x);
      }
    }
  }

  /** Weights that agree on every row give the same sum. */
  lemma {:induction false} SumOfAgree<T>(s: seq<T>, w1: T -> int, w2: T -> int)
    requires forall x :: x in s ==> w1(x) == w2(x)
    ensures SumOf(s, w1) == SumOf(s, w2)
  {
    if s != [] {
      SumOfAgree(s[1..], w1, w2);
    }
  }

  /** Weights between `lo` and `hi` give a sum between `lo` and `hi` times the
      count of rows with a non-zero weight. */
  lemma {:induction false} SumOfBounds<T>(s: seq<T>, w: T -> int, c: T -> int, lo: int, hi: int)
    requires forall x :: x in s ==> (c(x) == 0 && w(x) == 0) || (c(x) == 1 && lo <= w(x) <= hi)
    ensures lo * SumOf(s, c) <= SumOf(s, w) <= hi * SumOf(s, c)
    ensures 0 <= SumOf(s, c)
  {
    if s != [] {
      SumOfBounds(s[1..], w, c, lo, hi);
      var h, n := s[0], SumOf(s[1..], c);
      assert h in s;
      assert SumOf(s, c) == c(h) + n;
      if c(h) == 1 {
        OneMore(lo, n);
        OneMore(hi, n);
      }
    }
  }

  lemma OneMore(k: int, n: int)
    ensures k * (1 + n) == k + k * n
  {
  }

  lemma DistinctAppend<T>(s: seq<T>, x: T)
    requires Distinct(s) && x !in s
    ensures Distinct(s + [x])
  {
    assert forall i :: 0 <= i < |s| ==> (s + [x])[i] == s[i];
  }
}
