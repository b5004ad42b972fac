/**
 * `Array.prototype.filter` and `findIndex`/`find` over sequences, with the facts the
 * rest of the model states its results through: membership, order and concatenation.
 */
module Seqs {
  import opened Js

  /** `s.filter(p)`: the elements of s that satisfy p, in their order in s. */
  function Filter<T>(s: seq<T>, p: T -> bool): (r: seq<T>)
    ensures |r| <= |s|
    decreases |s|
  {
    if s == [] then [] else (if p(s[0]) then [s[0]] else []) + Filter(s[1..], p)
  }

  /** An element is kept exactly when it is in s and satisfies p. */
  lemma {:induction false} FilterMembers<T>(s: seq<T>, p: T -> bool)
    ensures forall i :: 0 <= i < |Filter(s, p)| ==> Filter(s, p)[i] in s && p(Filter(s, p)[i])
    ensures forall i :: 0 <= i < |s| && p(s[i]) ==> s[i] in Filter(s, p)
    decreases |s|
  {
    if s != [] {
      FilterMembers(s[1..], p);
      var r := Filter(s, p);
      var t := Filter(s[1..], p);
      assert r == (if p(s[0]) then [s[0]] else []) + t;
      forall i | 0 <= i < |s| && p(s[i]) ensures s[i] in r {
        if i > 0 { assert s[1..][i - 1] == s[i]; }
      }
      forall i | 0 <= i < |r| ensures r[i] in s && p(r[i]) {
        if !p(s[0]) || i > 0 {
          var j := if p(s[0]) then i - 1 else i;
          assert r[i] == t[j];
          assert t[j] in s[1..];
        }
      }
    }
  }

  /** r is obtained from s by dropping elements: r keeps s's order. */
  predicate Subsequence<T(==)>(r: seq<T>, s: seq<T>)
    decreases |s|
  {
    if r == [] then true
    else if s == [] then false
    else if r[0] == s[0] then Subsequence(r[1..], s[1..])
    else Subsequence(r, s[1..])
  }

  lemma {:induction false} FilterIsSubsequence<T>(s: seq<T>, p: T -> bool)
    ensures Subsequence(Filter(s, p), s)
    decreases |s|
  {
    if s != [] {
      FilterIsSubsequence(s[1..], p);
      var r := Filter(s, p);
      if p(s[0]) {
        assert r[0] == s[0] && r[1..] == Filter(s[1..], p);
      } else {
        assert r == Filter(s[1..], p);
        FilterMembers(s[1..], p);
      }
    }
  }

  /** Filtering a concatenation filters each part. */
  lemma {:induction false} FilterConcat<T>(a: seq<T>, b: seq<T>, p: T -> bool)
    ensures Filter(a + b, p) == Filter(a, p) + Filter(b, p)
    decreases |a|
  {
    if a == [] {
      assert a + b == b;
    } else {
      var h := if p(a[0]) then [a[0]] else [];
      assert (a + b)[0] == a[0] && (a + b)[1..] == a[1..] + b;
      assert Filter(a + b, p) == h + Filter(a[1..] + b, p);
      FilterConcat(a[1..], b, p);
      assert h + (Filter(a[1..], p) + Filter(b, p)) == (h + Filter(a[1..], p)) + Filter(b, p);
    }
  }

  /** A permutation of a sequence none of whose elements satisfies p has none either. */
  lemma PermutationNoneMatch<T>(a: seq<T>, b: seq<T>, p: T -> bool)
    requires multiset(a) == multiset(b)
    requires forall i :: 0 <= i < |a| ==> !p(a[i])
    ensures forall i :: 0 <= i < |b| ==> !p(b[i])
  {
    forall i | 0 <= i < |b| ensures !p(b[i]) {
      assert b[i] in multiset(a);
      var j :| 0 <= j < |a| && a[j] == b[i];
    }
  }

  /** A permutation of a sequence with an element satisfying p has one too. */
  lemma PermutationSomeMatch<T>(a: seq<T>, b: seq<T>, p: T -> bool, k: nat)
    requires multiset(a) == multiset(b) && k < |a| && p(a[k])
    ensures exists i :: 0 <= i < |b| && p(b[i])
  {
    assert a[k] in multiset(b);
    var i :| 0 <= i < |b| && b[i] == a[k];
  }

  lemma FilterCons<T>(x: T, s: seq<T>, p: T -> bool)
    ensures Filter([x] + s, p) == (if p(x) then [x] else []) + Filter(s, p)
  {
    assert ([x] + s)[0] == x && ([x] + s)[1..] == s;
  }

  /** Filtering twice keeps the elements that pass both tests. */
  lemma {:induction false} FilterFilter<T>(s: seq<T>, p: T -> bool, q: T -> bool, pq: T -> bool)
    requires forall x :: pq(x) == (p(x) && q(x))
    ensures Filter(Filter(s, p), q) == Filter(s, pq)
    decreases |s|
  {
    if s != [] {
      FilterFilter(s[1..], p, q, pq);
      FilterConcat(if p(s[0]) then [s[0]] else [], Filter(s[1..], p), q);
    }
  }

  lemma FilterAll<T>(s: seq<T>, p: T -> bool)
    requires forall i :: 0 <= i < |s| ==> p(s[i])
    ensures Filter(s, p) == s
  {
    if s != [] {
      FilterAll(s[1..], p);
    }
  }

  lemma FilterNone<T>(s: seq<T>, p: T -> bool)
    requires forall i :: 0 <= i < |s| ==> !p(s[i])
    ensures Filter(s, p) == []
  {
    if s != [] {
      FilterNone(s[1..], p);
    }
  }

  /** Filtering with two predicates that agree on s gives the same result. */
  lemma {:induction false} FilterSame<T>(s: seq<T>, p: T -> bool, q: T -> bool)
    requires forall i :: 0 <= i < |s| ==> p(s[i]) == q(s[i])
    ensures Filter(s, p) == Filter(s, q)
    decreases |s|
  {
    if s != [] {
      FilterSame(s[1..], p, q);
    }
  }

  /** `s.findIndex(p)`, with `None` for -1. */
  function FirstIndex<T>(s: seq<T>, p: T -> bool): (r: Option<nat>)
    ensures r.Some? ==> r.value < |s| && p(s[r.value]) && forall j :: 0 <= j < r.value ==> !p(s[j])
    ensures r.None? ==> forall j :: 0 <= j < |s| ==> !p(s[j])
    decreases |s|
  {
    if s == [] then None
    else if p(s[0]) then Some(0)
    else match FirstIndex(s[1..], p)
      case None => None
      case Some(i) => Some(i + 1)
  }

  /** `s.find(p)`, with `None` for `undefined`. */
  function Find<T>(s: seq<T>, p: T -> bool): (r: Option<T>)
    ensures r.Some? <==> exists i :: 0 <= i < |s| && p(s[i])
    ensures r.Some? ==> r.value in s && p(r.value)
    ensures r.Some? ==> exists k :: 0 <= k < |s| && s[k] == r.value && forall j :: 0 <= j < k ==> !p(s[j])
  {
    match FirstIndex(s, p)
    case None => None
    case Some(i) => Some(s[i])
  }

  function Max(a: int, b: int): int
  {
    if a >= b then a else b
  }

  /** `xs.reduce((max, x) => Math.max(max, x), acc)`. */
  function MaxFrom(xs: seq<int>, acc: int): (r: int)
    ensures r >= acc
    ensures forall i :: 0 <= i < |xs| ==> r >= xs[i]
    ensures r == acc || exists i :: 0 <= i < |xs| && r == xs[i]
    decreases |xs|
  {
    if xs == [] then acc else MaxFrom(xs[1..], Max(acc, xs[0]))
  }

  /** The values of a property that every element has: `s.map(x => x.prop)` once none is missing or null. */
  function Values<T, U>(s: seq<T>, prop: T -> Field<U>): (r: seq<U>)
    requires forall i :: 0 <= i < |s| ==> prop(s[i]).Val?
    ensures |r| == |s| && forall i :: 0 <= i < |s| ==> r[i] == prop(s[i]).v
  {
    seq(|s|, i requires 0 <= i < |s| && prop(s[i]).Val? => prop(s[i]).v)
  }

  /** `s.map(f)`. */
  function Map<T, U>(s: seq<T>, f: T -> U): (r: seq<U>)
    ensures |r| == |s|
    ensures forall i :: 0 <= i < |s| ==> r[i] == f(s[i])
  {
    seq(|s|, i requires 0 <= i < |s| => f(s[i]))
  }
}
