/**
 * `Array.prototype.sort` with a comparator of the form used throughout the app:
 * elements are mapped to a key and two keys are compared with JavaScript's `>` and `<`.
 * The engine's sort is stable, so for such a comparator its result is the one stable
 * sorted permutation, which insertion sort produces.
 */
module ArraySort {
  import opened Js
  import opened Seqs

  /** A sort key: a number, `Infinity`, or a string. */
  datatype Key = Finite(n: int) | Infinity | Text(s: string)

  /**
   * JavaScript's `a < b` on keys of one kind. A sort only ever compares keys of one
   * kind; across kinds the order is fixed as numbers < Infinity < strings.
   */
  predicate KeyLess(a: Key, b: Key)
  {
    match (a, b)
    case (Finite(x), Finite(y)) => x < y
    case (Finite(_), _) => true
    case (Infinity, Text(_)) => true
    case (Text(x), Text(y)) => StrLess(x, y)
    case _ => false
  }

  /**
   * The comparator: ascending is `a > b ? 1 : a < b ? -1 : 0`, anything else is
   * `a < b ? 1 : a > b ? -1 : 0`.
   */
  function Compare(a: Key, b: Key, ascending: bool): (c: int)
    ensures -1 <= c <= 1
  {
    if ascending then
      (if KeyLess(b, a) then 1 else if KeyLess(a, b) then -1 else 0)
    else
      (if KeyLess(a, b) then 1 else if KeyLess(b, a) then -1 else 0)
  }

  lemma KeyLessTrichotomy(a: Key, b: Key)
    ensures KeyLess(a, b) || a == b || KeyLess(b, a)
    ensures !(KeyLess(a, b) && KeyLess(b, a))
  {
    if a.Text? && b.Text? {
      StrLessTrichotomy(a.s, b.s);
    }
  }

  lemma KeyLessIrreflexive(a: Key)
    ensures !KeyLess(a, a)
  {
    if a.Text? {
      StrLessIrreflexive(a.s);
    }
  }

  lemma KeyLessTransitive(a: Key, b: Key, c: Key)
    requires KeyLess(a, b) && KeyLess(b, c)
    ensures KeyLess(a, c)
  {
    if a.Text? && b.Text? && c.Text? {
      StrLessTransitive(a.s, b.s, c.s);
    }
  }

  /** Equal keys, and only equal keys, compare as 0. */
  lemma CompareZeroIffEqual(a: Key, b: Key, ascending: bool)
    ensures Compare(a, b, ascending) == 0 <==> a == b
  {
    KeyLessTrichotomy(a, b);
    KeyLessIrreflexive(a);
  }

  /** The comparator is antisymmetric: swapping its arguments negates it. */
  lemma CompareAntisymmetric(a: Key, b: Key, ascending: bool)
    ensures Compare(a, b, ascending) == -Compare(b, a, ascending)
  {
    KeyLessTrichotomy(a, b);
  }

  /** Descending is the exact negation of ascending. */
  lemma DescendingMirrorsAscending(a: Key, b: Key)
    ensures Compare(a, b, false) == -Compare(a, b, true)
  {
    KeyLessTrichotomy(a, b);
  }

  lemma CompareTransitive(a: Key, b: Key, c: Key, ascending: bool)
    requires Compare(a, b, ascending) <= 0 && Compare(b, c, ascending) <= 0
    ensures Compare(a, c, ascending) <= 0
  {
    KeyLessTrichotomy(a, b);
    KeyLessTrichotomy(b, c);
    KeyLessTrichotomy(a, c);
    if KeyLess(c, a) && ascending {
      if KeyLess(a, b) { KeyLessTransitive(c, a, b); }
      else if KeyLess(b, c) { KeyLessTransitive(b, c, a); }
    }
    if KeyLess(a, c) && !ascending {
      if KeyLess(b, a) { KeyLessTransitive(b, a, c); }
      else if KeyLess(c, b) { KeyLessTransitive(a, c, b); }
    }
  }

  /** Inserts x before the first element it does not compare above. */
  function Insert<T>(x: T, r: seq<T>, key: T -> Key, ascending: bool): seq<T>
  {
    if r == [] then [x]
    else if Compare(key(x), key(r[0]), ascending) <= 0 then [x] + r
    else [r[0]] + Insert(x, r[1..], key, ascending)
  }

  /** The stable sort of s by the comparator over key. */
  function Sort<T>(s: seq<T>, key: T -> Key, ascending: bool): seq<T>
  {
    if s == [] then [] else Insert(s[0], Sort(s[1..], key, ascending), key, ascending)
  }

  predicate Sorted<T>(r: seq<T>, key: T -> Key, ascending: bool)
  {
    forall i, j :: 0 <= i < j < |r| ==> Compare(key(r[i]), key(r[j]), ascending) <= 0
  }

  /** The elements whose key is k. */
  function HasKey<T>(key: T -> Key, k: Key): T -> bool
  {
    y => key(y) == k
  }

  lemma {:induction false} InsertPermutes<T>(x: T, r: seq<T>, key: T -> Key, ascending: bool)
    ensures multiset(Insert(x, r, key, ascending)) == multiset(r) + multiset{x}
    decreases |r|
  {
    if r != [] && Compare(key(x), key(r[0]), ascending) > 0 {
      InsertPermutes(x, r[1..], key, ascending);
      assert r == [r[0]] + r[1..];
    }
  }

  /** An element that compares before every element of a sorted sequence can go in front. */
  lemma PrependSorted<T>(x: T, r: seq<T>, key: T -> Key, ascending: bool)
    requires Sorted(r, key, ascending)
    requires forall j :: 0 <= j < |r| ==> Compare(key(x), key(r[j]), ascending) <= 0
    ensures Sorted([x] + r, key, ascending)
  {
    var t := [x] + r;
    forall i, j | 0 <= i < j < |t| ensures Compare(key(t[i]), key(t[j]), ascending) <= 0 {
      if i == 0 {
        assert t[j] == r[j - 1];
      } else {
        assert t[i] == r[i - 1] && t[j] == r[j - 1];
      }
    }
  }

  lemma {:induction false} InsertSorted<T>(x: T, r: seq<T>, key: T -> Key, ascending: bool)
    requires Sorted(r, key, ascending)
    ensures Sorted(Insert(x, r, key, ascending), key, ascending)
    decreases |r|
  {
    if r == [] {
    } else if Compare(key(x), key(r[0]), ascending) <= 0 {
      forall j | 0 <= j < |r| ensures Compare(key(x), key(r[j]), ascending) <= 0 {
        if j > 0 {
          CompareTransitive(key(x), key(r[0]), key(r[j]), ascending);
        }
      }
      PrependSorted(x, r, key, ascending);
    } else {
      var rest := r[1..];
      assert Sorted(rest, key, ascending);
      InsertSorted(x, rest, key, ascending);
      var u := Insert(x, rest, key, ascending);
      InsertPermutes(x, rest, key, ascending);
      forall j | 0 <= j < |u| ensures Compare(key(r[0]), key(u[j]), ascending) <= 0 {
        var y := u[j];
        assert y in multiset(u);
        if y == x {
          CompareAntisymmetric(key(x), key(r[0]), ascending);
        } else {
          assert y in multiset(rest);
          var k :| 0 <= k < |rest| && rest[k] == y;
          assert r[k + 1] == y;
        }
      }
      PrependSorted(r[0], u, key, ascending);
    }
  }

  lemma {:induction false} InsertByKey<T>(x: T, r: seq<T>, key: T -> Key, ascending: bool, k: Key)
    ensures Filter(Insert(x, r, key, ascending), HasKey(key, k))
         == (if key(x) == k then [x] else []) + Filter(r, HasKey(key, k))
    decreases |r|
  {
    var p := HasKey(key, k);
    if r == [] {
      FilterCons(x, r, p);
    } else if Compare(key(x), key(r[0]), ascending) <= 0 {
      FilterCons(x, r, p);
    } else {
      var rest := r[1..];
      InsertByKey(x, rest, key, ascending, k);
      CompareZeroIffEqual(key(x), key(r[0]), ascending);
      FilterCons(r[0], Insert(x, rest, key, ascending), p);
      FilterCons(r[0], rest, p);
      assert r == [r[0]] + rest;
    }
  }

  lemma {:induction false} SortPermutes<T>(s: seq<T>, key: T -> Key, ascending: bool)
    ensures multiset(Sort(s, key, ascending)) == multiset(s)
    decreases |s|
  {
    if s != [] {
      var sorted := Sort(s[1..], key, ascending);
      SortPermutes(s[1..], key, ascending);
      InsertPermutes(s[0], sorted, key, ascending);
      assert s == [s[0]] + s[1..];
      assert multiset(s) == multiset(s[1..]) + multiset{s[0]};
    }
  }

  lemma {:induction false} SortSorted<T>(s: seq<T>, key: T -> Key, ascending: bool)
    ensures Sorted(Sort(s, key, ascending), key, ascending)
    decreases |s|
  {
    if s != [] {
      SortSorted(s[1..], key, ascending);
      InsertSorted(s[0], Sort(s[1..], key, ascending), key, ascending);
    }
  }

  lemma {:induction false} SortStable<T>(s: seq<T>, key: T -> Key, ascending: bool, k: Key)
    ensures Filter(Sort(s, key, ascending), HasKey(key, k)) == Filter(s, HasKey(key, k))
    decreases |s|
  {
    if s != [] {
      SortStable(s[1..], key, ascending, k);
      InsertByKey(s[0], Sort(s[1..], key, ascending), key, ascending, k);
    }
  }

  /**
   * The sort returns a permutation of its input, in comparator order, and keeps the
   * input order among elements with equal keys (stability).
   */
  lemma SortCorrect<T>(s: seq<T>, key: T -> Key, ascending: bool)
    ensures multiset(Sort(s, key, ascending)) == multiset(s)
    ensures |Sort(s, key, ascending)| == |s|
    ensures Sorted(Sort(s, key, ascending), key, ascending)
    ensures forall k :: Filter(Sort(s, key, ascending), HasKey(key, k)) == Filter(s, HasKey(key, k))
  {
    SortPermutes(s, key, ascending);
    SortSorted(s, key, ascending);
    assert |multiset(Sort(s, key, ascending))| == |s|;
    forall k ensures Filter(Sort(s, key, ascending), HasKey(key, k)) == Filter(s, HasKey(key, k)) {
      SortStable(s, key, ascending, k);
    }
  }
}
