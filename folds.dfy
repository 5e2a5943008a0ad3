/**
 * The `reduce` sums of the frontend helpers: the sum of a per-element
 * amount over a list, and how sums and filters split over a concatenation.
 */
module Folds {
  import Sorting

  /** `s.reduce((sum, x) => sum + f(x), 0)`. */
  function Sum<T>(s: seq<T>, f: T -> int): int {
    if s == [] then 0 else f(s[0]) + Sum(s[1..], f)
  }

  lemma {:induction false} SumAppend<T>(a: seq<T>, b: seq<T>, f: T -> int)
    ensures Sum(a + b, f) == Sum(a, f) + Sum(b, f)
  {
    if a != [] {
      assert (a + b)[0] == a[0];
      assert (a + b)[1..] == a[1..] + b;
      SumAppend(a[1..], b, f);
    } else {
      assert a + b == b;
    }
  }

  /** With no negative amounts the sum is not negative. */
  lemma {:induction false} SumNonNegative<T>(s: seq<T>, f: T -> int)
    requires forall i :: 0 <= i < |s| ==> f(s[i]) >= 0
    ensures Sum(s, f) >= 0
  {
    if s != [] {
      assert forall i :: 0 <= i < |s[1..]| ==> s[1..][i] == s[i + 1];
      SumNonNegative(s[1..], f);
    }
  }

  lemma {:induction false} FilterAppend<T(!new)>(a: seq<T>, b: seq<T>, p: T -> bool)
    ensures Sorting.Filter(a + b, p) == Sorting.Filter(a, p) + Sorting.Filter(b, p)
  {
    if a != [] {
      assert (a + b)[0] == a[0];
      assert (a + b)[1..] == a[1..] + b;
      FilterAppend(a[1..], b, p);
    } else {
      assert a + b == b;
    }
  }

  /** With no negative amounts, a filtered sum lies between 0 and the whole sum. */
  lemma {:induction false} FilteredSumBounds<T(!new)>(s: seq<T>, p: T -> bool, f: T -> int)
    requires forall i :: 0 <= i < |s| ==> f(s[i]) >= 0
    ensures 0 <= Sum(Sorting.Filter(s, p), f) <= Sum(s, f)
  {
    if s != [] {
      FilteredSumBounds(s[1..], p, f);
      assert Sorting.Filter(s, p) == (if p(s[0]) then [s[0]] else []) + Sorting.Filter(s[1..], p);
      SumAppend(if p(s[0]) then [s[0]] else [], Sorting.Filter(s[1..], p), f);
      assert Sum([s[0]], f) == f(s[0]) + Sum([], f);
    }
  }

  /** A filter by a stronger condition keeps no more elements. */
  lemma {:induction false} FilterStronger<T(!new)>(s: seq<T>, p: T -> bool, q: T -> bool)
    requires forall x :: p(x) ==> q(x)
    ensures |Sorting.Filter(s, p)| <= |Sorting.Filter(s, q)|
  {
    if s != [] {
      FilterStronger(s[1..], p, q);
    }
  }
}
