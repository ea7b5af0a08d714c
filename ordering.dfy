/**
 * The collection operations the handlers and pages use on rows:
 * `filter`, the store's `orderBy`, and a search by id (`findUnique`, `some`).
 */
module Ordering {
  import opened Wrappers

  /** `s.filter(p)`: the elements satisfying `p`, each as often as in `s`, in their order. */
  function Filter<T(!new)>(s: seq<T>, p: T -> bool): (r: seq<T>)
    ensures |r| <= |s|
    ensures forall k | 0 <= k < |r| :: p(r[k])
    ensures forall x :: multiset(r)[x] == if p(x) then multiset(s)[x] else 0
  {
    if s == [] then []
    else
      var rest := Filter(s[1..], p);
      assert s == [s[0]] + s[1..];
      if p(s[0]) then [s[0]] + rest else rest
  }

  /** Filtering keeps exactly the elements of `s` that satisfy `p`. */
  lemma FilterMembers<T(!new)>(s: seq<T>, p: T -> bool, x: T)
    ensures x in Filter(s, p) <==> x in s && p(x)
  {
    assert x in Filter(s, p) <==> multiset(Filter(s, p))[x] > 0;
    assert x in s <==> multiset(s)[x] > 0;
  }

  /** Filtering distributes over concatenation. */
  lemma {:induction false} FilterAppend<T(!new)>(a: seq<T>, b: seq<T>, p: T -> bool)
    ensures Filter(a + b, p) == Filter(a, p) + Filter(b, p)
  {
    if a == [] {
      assert a + b == b;
    } else {
      assert (a + b)[0] == a[0];
      assert (a + b)[1..] == a[1..] + b;
      FilterAppend(a[1..], b, p);
    }
  }

  /** `s.filter(p).length`. */
  function Count<T(!new)>(s: seq<T>, p: T -> bool): (n: nat)
    ensures n <= |s|
  {
    |Filter(s, p)|
  }

  /** Nothing is counted exactly when no element satisfies the predicate. */
  lemma CountZero<T(!new)>(s: seq<T>, p: T -> bool)
    ensures Count(s, p) == 0 <==> forall k | 0 <= k < |s| :: !p(s[k])
  {
    var r := Filter(s, p);
    if r == [] {
      forall k | 0 <= k < |s| ensures !p(s[k]) {
        assert s[k] in multiset(s);
      }
    } else {
      assert r[0] in multiset(r);
      assert r[0] in multiset(s);
    }
  }

  /** Every element of `s` has a key no smaller than the one before it. */
  ghost predicate SortedBy<T>(s: seq<T>, key: T -> int) {
    forall i, j | 0 <= i < j < |s| :: key(s[i]) <= key(s[j])
  }

  /** An element no larger than every element of a sorted list can go in front of it. */
  lemma ConsSorted<T>(a: T, rest: seq<T>, key: T -> int)
    requires SortedBy(rest, key)
    requires forall k | 0 <= k < |rest| :: key(a) <= key(rest[k])
    ensures SortedBy([a] + rest, key)
  {
    var r := [a] + rest;
    forall i, j | 0 <= i < j < |r| ensures key(r[i]) <= key(r[j]) {
      assert r[j] == rest[j - 1];
      if i > 0 {
        assert r[i] == rest[i - 1];
      }
    }
  }

  /** Every element of `tail` with `x` added has a key at least `key(a)`,
      when `a` heads the sorted list `[a] + tail` and `x`'s key is larger. */
  lemma LowerBound<T>(a: T, tail: seq<T>, x: T, rest: seq<T>, key: T -> int)
    requires SortedBy([a] + tail, key) && key(a) < key(x)
    requires multiset(rest) == multiset(tail) + multiset{x}
    ensures forall k | 0 <= k < |rest| :: key(a) <= key(rest[k])
  {
    forall k | 0 <= k < |rest| ensures key(a) <= key(rest[k]) {
      var y := rest[k];
      assert y in multiset(rest);
      if y != x {
        assert y in multiset(tail);
        var j :| 0 <= j < |tail| && tail[j] == y;
        assert ([a] + tail)[0] == a && ([a] + tail)[j + 1] == y;
      }
    }
  }

  function InsertBy<T>(x: T, s: seq<T>, key: T -> int): (r: seq<T>)
    requires SortedBy(s, key)
    ensures SortedBy(r, key)
    ensures multiset(r) == multiset(s) + multiset{x}
  {
    if s == [] || key(x) <= key(s[0]) then [x] + s
    else
      var tail := s[1..];
      assert s == [s[0]] + tail;
      var rest := InsertBy(x, tail, key);
      LowerBound(s[0], tail, x, rest, key);
      ConsSorted(s[0], rest, key);
      [s[0]] + rest
  }

  /** The store's `orderBy` on one key, ascending: a sorted permutation of the rows. */
  function SortBy<T>(s: seq<T>, key: T -> int): (r: seq<T>)
    ensures SortedBy(r, key)
    ensures multiset(r) == multiset(s)
    ensures |r| == |s|
  {
    if s == [] then []
    else
      assert s == [s[0]] + s[1..];
      InsertBy(s[0], SortBy(s[1..], key), key)
  }

  /** The first position whose element satisfies `p`, if any. */
  function IndexWhere<T>(s: seq<T>, p: T -> bool): (r: Option<nat>)
    ensures r.Some? ==> r.value < |s| && p(s[r.value])
    ensures r.Some? ==> forall k | 0 <= k < r.value :: !p(s[k])
    ensures r.None? <==> forall k | 0 <= k < |s| :: !p(s[k])
  {
    if s == [] then None
    else if p(s[0]) then Some(0)
    else
      match IndexWhere(s[1..], p)
      case None => None
      case Some(i) => Some(i + 1)
  }
}
