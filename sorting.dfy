/**
 * A stable sort by a "may come before" relation, the shape of Python's
 * `sorted(..., key=k, reverse=True)` (which keeps tied elements in their
 * original order) and of the store's single-field sorts.
 */
module Sorting {
  import opened ListOps

  /** Any two elements can be put in some order. */
  ghost predicate Total<T(!new)>(before: (T, T) -> bool) {
    forall a, b :: before(a, b) || before(b, a)
  }

  ghost predicate Transitive<T(!new)>(before: (T, T) -> bool) {
    forall a, b, c :: before(a, b) && before(b, c) ==> before(a, c)
  }

  ghost predicate TotalPreorder<T(!new)>(before: (T, T) -> bool) {
    Total(before) && Transitive(before)
  }

  /** Every element may come before every later one. */
  predicate SortedBy<T>(s: seq<T>, before: (T, T) -> bool) {
    forall i, j :: 0 <= i < j < |s| ==> before(s[i], s[j])
  }

  /** The elements tied with `y`: each may come before the other. */
  function Ties<T>(before: (T, T) -> bool, y: T): T -> bool {
    z => before(z, y) && before(y, z)
  }

  /** Put `x` in front of the first element it may come before (so in front of its ties). */
  function Insert<T>(x: T, s: seq<T>, before: (T, T) -> bool): (r: seq<T>)
    ensures |r| == |s| + 1
    ensures multiset(r) == multiset(s) + multiset{x}
  {
    if |s| == 0 || before(x, s[0]) then [x] + s
    else
      assert s == [s[0]] + s[1..];
      [s[0]] + Insert(x, s[1..], before)
  }

  /** Insertion sort: a permutation of `s`, sorted by `before`, ties in their original order. */
  function SortBy<T>(s: seq<T>, before: (T, T) -> bool): (r: seq<T>)
    ensures |r| == |s|
    ensures multiset(r) == multiset(s)
  {
    if |s| == 0 then []
    else
      assert s == [s[0]] + s[1..];
      Insert(s[0], SortBy(s[1..], before), before)
  }

  lemma {:induction false} InsertSorted<T(!new)>(x: T, s: seq<T>, before: (T, T) -> bool)
    requires TotalPreorder(before) && SortedBy(s, before)
    ensures SortedBy(Insert(x, s, before), before)
  {
    if |s| > 0 && !before(x, s[0]) {
      var rest := Insert(x, s[1..], before);
      InsertSorted(x, s[1..], before);
      forall z | z in rest
        ensures before(s[0], z)
      {
        assert z in multiset(rest);
        if z != x {
          var j :| 1 <= j < |s| && s[j] == z;
        }
      }
      var r := [s[0]] + rest;
      forall i, j | 0 <= i < j < |r|
        ensures before(r[i], r[j])
      {
        if i == 0 {
          assert r[j] in rest;
        } else {
          assert r[i] == rest[i - 1] && r[j] == rest[j - 1];
        }
      }
    }
  }

  /** The result of `SortBy` is sorted. */
  lemma {:induction false} SortBySorted<T(!new)>(s: seq<T>, before: (T, T) -> bool)
    requires TotalPreorder(before)
    ensures SortedBy(SortBy(s, before), before)
  {
    if |s| > 0 {
      SortBySorted(s[1..], before);
      InsertSorted(s[0], SortBy(s[1..], before), before);
    }
  }

  /** An element that `x` may not come before is not tied with anything `x` is tied with. */
  lemma PassedNotTied<T(!new)>(x: T, z: T, before: (T, T) -> bool, y: T)
    requires TotalPreorder(before) && !before(x, z) && Ties(before, y)(x)
    ensures !Ties(before, y)(z)
  {
  }

  /** Inserting `x` into a list does not reorder the elements tied with `y`. */
  lemma {:induction false} InsertKeepsTies<T(!new)>(x: T, s: seq<T>, before: (T, T) -> bool, y: T)
    requires TotalPreorder(before)
    ensures Filter(Insert(x, s, before), Ties(before, y)) == Filter([x] + s, Ties(before, y))
  {
    var tied := Ties(before, y);
    if |s| > 0 && !before(x, s[0]) {
      InsertKeepsTies(x, s[1..], before, y);
      var rest := Insert(x, s[1..], before);
      assert Insert(x, s, before) == [s[0]] + rest;
      FilterCons(s[0], rest, tied);
      FilterCons(s[0], [x] + s[1..], tied);
      if tied(x) {
        PassedNotTied(x, s[0], before, y);
      }
      FilterSwap(s[0], x, s[1..], tied);
      assert [s[0]] + s[1..] == s;
    }
  }

  /** Stability: the elements tied with any `y` keep their original relative order. */
  lemma {:induction false} SortByStable<T(!new)>(s: seq<T>, before: (T, T) -> bool, y: T)
    requires TotalPreorder(before)
    ensures Filter(SortBy(s, before), Ties(before, y)) == Filter(s, Ties(before, y))
  {
    if |s| > 0 {
      var tied := Ties(before, y);
      var rest := SortBy(s[1..], before);
      SortByStable(s[1..], before, y);
      calc {
        Filter(SortBy(s, before), tied);
        Filter(Insert(s[0], rest, before), tied);
        { InsertKeepsTies(s[0], rest, before, y); }
        Filter([s[0]] + rest, tied);
        { FilterAppend([s[0]], rest, tied); }
        Filter([s[0]], tied) + Filter(rest, tied);
        Filter([s[0]], tied) + Filter(s[1..], tied);
        { FilterAppend([s[0]], s[1..], tied); assert s == [s[0]] + s[1..]; }
        Filter(s, tied);
      }
    }
  }

  /** The first `n` elements of a sorted list (`sorted(...)[:n]`), or all of them when there are fewer. */
  function Take<T>(s: seq<T>, n: nat): (r: seq<T>)
    ensures |r| == if |s| < n then |s| else n
    ensures forall i :: 0 <= i < |r| ==> r[i] == s[i]
  {
    if |s| < n then s else s[..n]
  }
}
