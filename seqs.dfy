/**
 * The array operations the registries are written with: `filter`, `map`, `find`,
 * `findIndex`, `slice(0, n)` and a stable `sort` by a numeric key, as functions on
 * sequences with the facts about them that the rest of the model relies on.
 */
module Seqs {
  import opened Wrappers

  /** `s.filter(p)`: the elements of `s` that satisfy `p`, in their original order. */
  function Filter<T(!new)>(s: seq<T>, p: T -> bool): (r: seq<T>)
    ensures |r| <= |s|
    ensures forall x :: x in r <==> x in s && p(x)
    ensures forall x :: multiset(r)[x] == if p(x) then multiset(s)[x] else 0
    decreases |s|
  {
    if s == [] then []
    else
      assert s == [s[0]] + s[1..];
      var rest := Filter(s[1..], p);
      if p(s[0]) then [s[0]] + rest else rest
  }

  /** A filter that no element passes is empty. */
  lemma FilterNone<T(!new)>(s: seq<T>, p: T -> bool)
    requires forall x :: x in s ==> !p(x)
    ensures Filter(s, p) == []
  {
  }

  /** `a` is `b` with some elements deleted: an order-preserving subsequence. */
  ghost predicate IsSubsequence<T>(a: seq<T>, b: seq<T>)
    decreases |b|
  {
    a == [] || (b != [] && ((a[0] == b[0] && IsSubsequence(a[1..], b[1..])) || IsSubsequence(a, b[1..])))
  }

  lemma {:induction false} FilterIsSubsequence<T(!new)>(s: seq<T>, p: T -> bool)
    ensures IsSubsequence(Filter(s, p), s)
    decreases |s|
  {
    if s != [] {
      FilterIsSubsequence(s[1..], p);
      var rest := Filter(s[1..], p);
      if p(s[0]) {
        assert Filter(s, p) == [s[0]] + rest;
        assert ([s[0]] + rest)[1..] == rest;
      }
    }
  }

  /** Filtering twice keeps what satisfies both predicates: a chain of filters is one filter. */
  lemma {:induction false} FilterFilter<T(!new)>(s: seq<T>, p: T -> bool, q: T -> bool, both: T -> bool)
    requires forall x :: both(x) == (p(x) && q(x))
    ensures Filter(Filter(s, p), q) == Filter(s, both)
    decreases |s|
  {
    if s != [] {
      FilterFilter(s[1..], p, q, both);
      var rest := Filter(s[1..], p);
      if p(s[0]) {
        assert Filter(s, p) == [s[0]] + rest;
        assert ([s[0]] + rest)[1..] == rest;
      }
    }
  }

  /** Filtering by two predicates that agree on every element gives the same result. */
  lemma {:induction false} FilterAgree<T(!new)>(s: seq<T>, p: T -> bool, q: T -> bool)
    requires forall x :: x in s ==> p(x) == q(x)
    ensures Filter(s, p) == Filter(s, q)
    decreases |s|
  {
    if s != [] {
      FilterAgree(s[1..], p, q);
    }
  }

  /** A filter whose predicate holds of every element returns the input itself. */
  lemma {:induction false} FilterKeepsAll<T(!new)>(s: seq<T>, p: T -> bool)
    requires forall x :: x in s ==> p(x)
    ensures Filter(s, p) == s
    decreases |s|
  {
    if s != [] {
      FilterKeepsAll(s[1..], p);
      assert s == [s[0]] + s[1..];
    }
  }

  /** No two elements of `s` share a key. */
  ghost predicate UniqueBy<T, K>(s: seq<T>, key: T -> K) {
    forall i, j :: 0 <= i < j < |s| ==> key(s[i]) != key(s[j])
  }

  /** A sequence is unique by a key exactly when its tail is and the head's key is not in the tail. */
  lemma UniqueByCons<T, K>(x: T, t: seq<T>, key: T -> K)
    ensures UniqueBy([x] + t, key) <==> UniqueBy(t, key) && forall y :: y in t ==> key(y) != key(x)
  {
    var s := [x] + t;
    if UniqueBy(s, key) {
      forall i, j | 0 <= i < j < |t| ensures key(t[i]) != key(t[j]) {
        assert t[i] == s[i + 1] && t[j] == s[j + 1];
      }
      forall y | y in t ensures key(y) != key(x) {
        var k :| 0 <= k < |t| && t[k] == y;
        assert s[k + 1] == y && s[0] == x;
        assert key(s[0]) != key(s[k + 1]);
      }
    }
    if UniqueBy(t, key) && forall y :: y in t ==> key(y) != key(x) {
      forall i, j | 0 <= i < j < |s| ensures key(s[i]) != key(s[j]) {
        if i == 0 {
          assert s[j] in t;
        } else {
          assert s[i] == t[i - 1] && s[j] == t[j - 1];
        }
      }
    }
  }

  /** Filtering keeps keys unique. */
  lemma {:induction false} FilterUniqueBy<T(!new), K>(s: seq<T>, p: T -> bool, key: T -> K)
    requires UniqueBy(s, key)
    ensures UniqueBy(Filter(s, p), key)
    decreases |s|
  {
    if s != [] {
      assert s == [s[0]] + s[1..];
      UniqueByCons(s[0], s[1..], key);
      FilterUniqueBy(s[1..], p, key);
      if p(s[0]) {
        UniqueByCons(s[0], Filter(s[1..], p), key);
      }
    }
  }

  /** Appending an element whose key is new keeps keys unique. */
  lemma UniqueByAppend<T, K>(s: seq<T>, x: T, key: T -> K)
    requires UniqueBy(s, key)
    requires forall y :: y in s ==> key(y) != key(x)
    ensures UniqueBy(s + [x], key)
  {
    var r := s + [x];
    forall i, j | 0 <= i < j < |r| ensures key(r[i]) != key(r[j]) {
      if j == |s| {
        assert r[i] in s;
      }
    }
  }

  /** `s.map(f)`. */
  function Map<T, U>(s: seq<T>, f: T -> U): (r: seq<U>)
    ensures |r| == |s|
    ensures forall i :: 0 <= i < |s| ==> r[i] == f(s[i])
  {
    seq(|s|, i requires 0 <= i < |s| => f(s[i]))
  }

  /** The values of a map are exactly the images of the input's elements. */
  lemma MapIn<T, U>(s: seq<T>, f: T -> U)
    ensures forall x :: x in Map(s, f) <==> exists y :: y in s && f(y) == x
  {
    var r := Map(s, f);
    forall x | x in r ensures exists y :: y in s && f(y) == x {
      var k :| 0 <= k < |r| && r[k] == x;
      assert s[k] in s;
    }
    forall y | y in s ensures f(y) in r {
      var k :| 0 <= k < |s| && s[k] == y;
      assert r[k] == f(y);
    }
  }

  /** `s.findIndex(p)`, starting the scan at index `from`: the first index whose element satisfies `p`. */
  function FindIndexFrom<T>(s: seq<T>, p: T -> bool, from: nat): (r: Option<nat>)
    requires from <= |s|
    ensures r.Some? ==> from <= r.value < |s| && p(s[r.value])
    ensures r.Some? ==> forall j :: from <= j < r.value ==> !p(s[j])
    ensures r.None? ==> forall j :: from <= j < |s| ==> !p(s[j])
    decreases |s| - from
  {
    if from == |s| then None
    else if p(s[from]) then Some(from)
    else FindIndexFrom(s, p, from + 1)
  }

  /** `s.findIndex(p)`, with `None` for JavaScript's -1. */
  function FindIndex<T>(s: seq<T>, p: T -> bool): (r: Option<nat>)
    ensures r.Some? ==> r.value < |s| && p(s[r.value]) && forall j :: 0 <= j < r.value ==> !p(s[j])
    ensures r.None? <==> forall j :: 0 <= j < |s| ==> !p(s[j])
  {
    FindIndexFrom(s, p, 0)
  }

  /** `s.find(p)`, with `None` for `undefined`: the first element that satisfies `p`. */
  function Find<T(!new)>(s: seq<T>, p: T -> bool): (r: Option<T>)
    ensures r.Some? ==> r.value in s && p(r.value)
    ensures r.None? <==> forall x :: x in s ==> !p(x)
    ensures r.Some? ==> exists k :: 0 <= k < |s| && s[k] == r.value && forall j :: 0 <= j < k ==> !p(s[j])
  {
    match FindIndex(s, p)
    case Some(k) => Some(s[k])
    case None => None
  }

  /** `s.filter(p)[0]` is `s.find(p)`: the first element satisfying `p`. */
  lemma {:induction false} FilterHeadIsFind<T(!new)>(s: seq<T>, p: T -> bool)
    ensures |Filter(s, p)| > 0 <==> Find(s, p).Some?
    ensures |Filter(s, p)| > 0 ==> Filter(s, p)[0] == Find(s, p).value
    decreases |s|
  {
    if s != [] {
      FilterHeadIsFind(s[1..], p);
      if !p(s[0]) {
        assert FindIndexFrom(s, p, 1) == FindIndex(s, p);
        FindShift(s, p, 1);
      }
    }
  }

  /** Scanning `s` from index `from + 1` is scanning its tail from `from`, one index later. */
  lemma {:induction false} FindShift<T>(s: seq<T>, p: T -> bool, from: nat)
    requires 1 <= from <= |s|
    ensures FindIndexFrom(s, p, from) == match FindIndexFrom(s[1..], p, from - 1)
      case Some(k) => Some(k + 1)
      case None => None
    decreases |s| - from
  {
    if from < |s| {
      assert s[1..][from - 1] == s[from];
      FindShift(s, p, from + 1);
    }
  }

  /** `s.slice(0, end)`: a negative `end` counts from the back, and the result is clamped to `s`. */
  function SliceTo<T>(s: seq<T>, end: int): (r: seq<T>)
    ensures end >= 0 ==> |r| == if end < |s| then end else |s|
    ensures end < 0 ==> |r| == if |s| + end > 0 then |s| + end else 0
    ensures r <= s
  {
    if end >= 0 then (if end < |s| then s[..end] else s)
    else (if |s| + end > 0 then s[..|s| + end] else [])
  }

  /** Ascending order by a numeric key, the order `sort((a, b) => key(a) - key(b))` produces. */
  ghost predicate SortedBy<T>(s: seq<T>, key: T -> int) {
    forall i, j :: 0 <= i < j < |s| ==> key(s[i]) <= key(s[j])
  }

  /** Inserts `x` in front of the first element whose key is not smaller: ties keep `x` first. */
  function InsertBy<T>(x: T, s: seq<T>, key: T -> int): (r: seq<T>)
    ensures multiset(r) == multiset{x} + multiset(s)
    decreases |s|
  {
    if s == [] then [x]
    else if key(x) <= key(s[0]) then [x] + s
    else
      assert s == [s[0]] + s[1..];
      [s[0]] + InsertBy(x, s[1..], key)
  }

  lemma {:induction false} InsertBySorted<T>(x: T, s: seq<T>, key: T -> int)
    requires SortedBy(s, key)
    ensures SortedBy(InsertBy(x, s, key), key)
    decreases |s|
  {
    if s != [] && key(x) > key(s[0]) {
      var rest := InsertBy(x, s[1..], key);
      InsertBySorted(x, s[1..], key);
      forall k | 0 <= k < |rest| ensures key(s[0]) <= key(rest[k]) {
        assert rest[k] in multiset(rest);
        if rest[k] != x {
          assert rest[k] in multiset(s[1..]);
          var m :| 0 <= m < |s[1..]| && s[1..][m] == rest[k];
          assert s[m + 1] == rest[k];
        }
      }
      var r := [s[0]] + rest;
      assert InsertBy(x, s, key) == r;
      forall i, j | 0 <= i < j < |r| ensures key(r[i]) <= key(r[j]) {
        if i > 0 {
          assert r[i] == rest[i - 1] && r[j] == rest[j - 1];
        } else {
          assert r[j] == rest[j - 1];
        }
      }
    }
  }

  /** A stable sort of `s` by `key`, ascending (insertion sort). */
  function SortBy<T>(s: seq<T>, key: T -> int): (r: seq<T>)
    ensures SortedBy(r, key)
    ensures multiset(r) == multiset(s)
    ensures |r| == |s|
    decreases |s|
  {
    if s == [] then []
    else
      assert s == [s[0]] + s[1..];
      var sortedRest := SortBy(s[1..], key);
      InsertBySorted(s[0], sortedRest, key);
      var r := InsertBy(s[0], sortedRest, key);
      assert |r| == |multiset(r)|;
      r
  }

  /** A prefix of a sorted sequence is sorted and holds only elements of the sequence. */
  lemma PrefixOfSorted<T>(a: seq<T>, s: seq<T>, key: T -> int)
    requires a <= s && SortedBy(s, key)
    ensures SortedBy(a, key)
    ensures forall x :: x in a ==> x in s
  {
    forall i, j | 0 <= i < j < |a| ensures key(a[i]) <= key(a[j]) {
      assert a[i] == s[i] && a[j] == s[j];
    }
    forall x | x in a ensures x in s {
      var i :| 0 <= i < |a| && a[i] == x;
      assert s[i] == x;
    }
  }

  /** Every element of a subsequence is an element of the sequence. */
  lemma {:induction false} SubsequenceMembers<T>(a: seq<T>, b: seq<T>)
    requires IsSubsequence(a, b)
    ensures forall x :: x in a ==> x in b
    decreases |b|
  {
    if a != [] {
      if a[0] == b[0] && IsSubsequence(a[1..], b[1..]) {
        SubsequenceMembers(a[1..], b[1..]);
        assert a == [a[0]] + a[1..];
      } else {
        SubsequenceMembers(a, b[1..]);
      }
    }
  }

  /** The head of a filtered sequence is the element at the first index that passes. */
  lemma FilterHeadIndex<T(!new)>(s: seq<T>, p: T -> bool)
    ensures |Filter(s, p)| > 0 ==>
      exists k :: 0 <= k < |s| && s[k] == Filter(s, p)[0] && forall j :: 0 <= j < k ==> !p(s[j])
  {
    FilterHeadIsFind(s, p);
  }
}
