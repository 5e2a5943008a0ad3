/**
 * The stable comparator sorts of the frontend (`Array.prototype.sort` is
 * stable): scheduler task order, plan item order, column project order and
 * the order of placed tasks by block. Every comparator in the core compares
 * two integers lexicographically, so a sort is described by a `Key`.
 *
 * `SortBy` is insertion sort: each element is inserted after every element
 * whose key does not exceed its own, which is what makes it stable.
 */
module Sorting {
  /** A lexicographic sort key: compared by `major`, then by `minor`. */
  datatype Key = Key(major: int, minor: int)

  predicate KeyLt(a: Key, b: Key) {
    a.major < b.major || (a.major == b.major && a.minor < b.minor)
  }

  predicate KeyLe(a: Key, b: Key) {
    a.major < b.major || (a.major == b.major && a.minor <= b.minor)
  }

  ghost predicate SortedBy<T>(s: seq<T>, key: T -> Key) {
    forall i, j :: 0 <= i < j < |s| ==> KeyLe(key(s[i]), key(s[j]))
  }

  /** The elements of `s` whose key is `k`, in their order in `s`. */
  function WithKey<T>(s: seq<T>, key: T -> Key, k: Key): (r: seq<T>)
    ensures |r| <= |s|
    ensures forall i :: 0 <= i < |r| ==> key(r[i]) == k && r[i] in s
  {
    if s == [] then []
    else (if key(s[0]) == k then [s[0]] else []) + WithKey(s[1..], key, k)
  }

  /** `x` inserted into sorted `s` after every element whose key is not above its own. */
  function Insert<T>(x: T, s: seq<T>, key: T -> Key): (r: seq<T>)
    requires SortedBy(s, key)
    ensures SortedBy(r, key)
    ensures multiset(r) == multiset(s) + multiset{x}
    ensures |r| == |s| + 1
    ensures forall i :: 0 <= i < |r| ==> r[i] == x || r[i] in s
  {
    if s == [] then [x]
    else if KeyLt(key(x), key(s[0])) then [x] + s
    else
      var rest := Insert(x, s[1..], key);
      InsertBehindHead(x, s, rest, key);
      [s[0]] + rest
  }

  /** Putting the head of `s` in front of `x` inserted into the tail keeps the order. */
  lemma InsertBehindHead<T>(x: T, s: seq<T>, rest: seq<T>, key: T -> Key)
    requires SortedBy(s, key) && s != [] && !KeyLt(key(x), key(s[0]))
    requires SortedBy(rest, key)
    requires multiset(rest) == multiset(s[1..]) + multiset{x}
    requires forall i :: 0 <= i < |rest| ==> rest[i] == x || rest[i] in s[1..]
    ensures SortedBy([s[0]] + rest, key)
    ensures multiset([s[0]] + rest) == multiset(s) + multiset{x}
    ensures forall i :: 0 <= i < |[s[0]] + rest| ==> ([s[0]] + rest)[i] == x || ([s[0]] + rest)[i] in s
  {
    assert s == [s[0]] + s[1..];
    forall i | 0 <= i < |rest| ensures KeyLe(key(s[0]), key(rest[i])) {
      if rest[i] != x {
        var j :| 0 <= j < |s[1..]| && s[1..][j] == rest[i];
        assert s[j + 1] == rest[i];
      }
    }
    var r := [s[0]] + rest;
    forall i, j | 0 <= i < j < |r| ensures KeyLe(key(r[i]), key(r[j])) {
      assert r[j] == rest[j - 1];
      if i > 0 {
        assert r[i] == rest[i - 1];
      }
    }
  }

  /** Stable sort of `s` by `key`. */
  function SortBy<T>(s: seq<T>, key: T -> Key): (r: seq<T>)
    ensures SortedBy(r, key)
    ensures multiset(r) == multiset(s)
    ensures |r| == |s|
  {
    if s == [] then []
    else
      assert s == s[..|s| - 1] + [s[|s| - 1]];
      Insert(s[|s| - 1], SortBy(s[..|s| - 1], key), key)
  }

  /** `Array.prototype.filter`: the elements satisfying `p`, in order. */
  function Filter<T(!new)>(s: seq<T>, p: T -> bool): (r: seq<T>)
    ensures |r| <= |s|
    ensures forall i :: 0 <= i < |r| ==> p(r[i])
    ensures forall x :: x in r <==> x in s && p(x)
  {
    if s == [] then []
    else (if p(s[0]) then [s[0]] else []) + Filter(s[1..], p)
  }

  /** What a filter keeps and what it drops make up the whole input. */
  lemma {:induction false} FilterPartition<T(!new)>(s: seq<T>, p: T -> bool, q: T -> bool)
    requires forall i :: 0 <= i < |s| ==> q(s[i]) == !p(s[i])
    ensures multiset(Filter(s, p)) + multiset(Filter(s, q)) == multiset(s)
  {
    if s != [] {
      assert forall i :: 0 <= i < |s[1..]| ==> s[1..][i] == s[i + 1];
      FilterPartition(s[1..], p, q);
      var restP, restQ := Filter(s[1..], p), Filter(s[1..], q);
      assert multiset(s) == multiset{s[0]} + multiset(s[1..]) by {
        assert s == [s[0]] + s[1..];
      }
      if p(s[0]) {
        assert Filter(s, p) == [s[0]] + restP;
        assert Filter(s, q) == restQ;
      } else {
        assert Filter(s, p) == restP;
        assert Filter(s, q) == [s[0]] + restQ;
      }
    }
  }

  /** Sorting a filtered sequence keeps exactly the elements that pass the filter. */
  lemma SortedFilter<T(!new)>(s: seq<T>, p: T -> bool, key: T -> Key)
    ensures forall i :: 0 <= i < |SortBy(Filter(s, p), key)| ==>
              p(SortBy(Filter(s, p), key)[i]) && SortBy(Filter(s, p), key)[i] in s
    ensures forall i :: 0 <= i < |s| && p(s[i]) ==> s[i] in SortBy(Filter(s, p), key)
    ensures forall x :: x in SortBy(Filter(s, p), key) <==> x in s && p(x)
  {
    var kept := Filter(s, p);
    var r := SortBy(kept, key);
    forall i | 0 <= i < |r| ensures p(r[i]) && r[i] in s {
      assert r[i] in multiset(r);
      assert r[i] in kept;
      var k :| 0 <= k < |kept| && kept[k] == r[i];
    }
    forall i | 0 <= i < |s| && p(s[i]) ensures s[i] in r {
      assert s[i] in kept;
      assert s[i] in multiset(kept);
    }
  }

  // ---------------------------------------------------------------------------
  // Stability
  // ---------------------------------------------------------------------------

  lemma {:induction false} WithKeyAppend<T>(a: seq<T>, b: seq<T>, key: T -> Key, k: Key)
    ensures WithKey(a + b, key, k) == WithKey(a, key, k) + WithKey(b, key, k)
  {
    if a != [] {
      var head := if key(a[0]) == k then [a[0]] else [];
      assert (a + b)[0] == a[0] && (a + b)[1..] == a[1..] + b;
      WithKeyAppend(a[1..], b, key, k);
      calc {
        WithKey(a + b, key, k);
        head + WithKey(a[1..] + b, key, k);
        head + (WithKey(a[1..], key, k) + WithKey(b, key, k));
        (head + WithKey(a[1..], key, k)) + WithKey(b, key, k);
        WithKey(a, key, k) + WithKey(b, key, k);
      }
    } else {
      assert a + b == b;
    }
  }

  /** In a sorted sequence starting above `k`, nothing has key `k`. */
  lemma {:induction false} WithKeyAbove<T>(s: seq<T>, key: T -> Key, k: Key)
    requires SortedBy(s, key) && s != [] && KeyLt(k, key(s[0]))
    ensures WithKey(s, key, k) == []
  {
    if |s| > 1 {
      assert KeyLe(key(s[0]), key(s[1]));
      WithKeyAbove(s[1..], key, k);
    }
  }

  lemma {:induction false} InsertStable<T>(x: T, s: seq<T>, key: T -> Key, k: Key)
    requires SortedBy(s, key)
    ensures WithKey(Insert(x, s, key), key, k) == WithKey(s, key, k) + WithKey([x], key, k)
  {
    if s == [] {
      assert Insert(x, s, key) == [x];
      assert s + [x] == [x];
    } else if KeyLt(key(x), key(s[0])) {
      assert Insert(x, s, key) == [x] + s;
      if key(x) == k {
        WithKeyAbove(s, key, k);
      }
      WithKeyAppend([x], s, key, k);
    } else {
      var rest := Insert(x, s[1..], key);
      assert Insert(x, s, key) == [s[0]] + rest;
      InsertStable(x, s[1..], key, k);
      ConsWithKey(s[0], rest, s[1..], WithKey([x], key, k), key, k);
      assert [s[0]] + s[1..] == s;
    }
  }

  /** Putting the same element in front of two sequences keeps a relation between their `WithKey`s. */
  lemma ConsWithKey<T>(h: T, rest: seq<T>, tail: seq<T>, extra: seq<T>, key: T -> Key, k: Key)
    requires WithKey(rest, key, k) == WithKey(tail, key, k) + extra
    ensures WithKey([h] + rest, key, k) == WithKey([h] + tail, key, k) + extra
  {
    var front := WithKey([h], key, k);
    calc {
      WithKey([h] + rest, key, k);
      { WithKeyAppend([h], rest, key, k); }
      front + (WithKey(tail, key, k) + extra);
      (front + WithKey(tail, key, k)) + extra;
      { WithKeyAppend([h], tail, key, k); }
      WithKey([h] + tail, key, k) + extra;
    }
  }

  /** The sort is stable: elements with equal keys keep their relative order. */
  lemma {:induction false} SortByStable<T>(s: seq<T>, key: T -> Key, k: Key)
    ensures WithKey(SortBy(s, key), key, k) == WithKey(s, key, k)
  {
    if s != [] {
      var init, last := s[..|s| - 1], s[|s| - 1];
      var sortedInit := SortBy(init, key);
      assert SortBy(s, key) == Insert(last, sortedInit, key);
      SortByStable(init, key, k);
      InsertStable(last, sortedInit, key, k);
      WithKeyAppend(init, [last], key, k);
      assert init + [last] == s;
    }
  }
}
