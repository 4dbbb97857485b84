/**
 * The list builtins the services lean on, over Dafny sequences: a list
 * comprehension with a condition, `sum`, `max` and `min`, and the bounds
 * that relate an average to the extremes.
 */
module ListOps {

  /** `[x for x in s if p(x)]`: the elements satisfying `p`, in their original order. */
  function Filter<T(!new)>(s: seq<T>, p: T -> bool): (r: seq<T>)
    ensures |r| <= |s|
    ensures forall x :: x in r <==> x in s && p(x)
  {
    if |s| == 0 then []
    else
      assert s == [s[0]] + s[1..];
      (if p(s[0]) then [s[0]] else []) + Filter(s[1..], p)
  }

  /** Filtering distributes over concatenation. */
  lemma {:induction false} FilterAppend<T(!new)>(a: seq<T>, b: seq<T>, p: T -> bool)
    ensures Filter(a + b, p) == Filter(a, p) + Filter(b, p)
  {
    if |a| == 0 {
      assert a + b == b;
    } else {
      var head := if p(a[0]) then [a[0]] else [];
      calc {
        Filter(a + b, p);
        { assert (a + b)[0] == a[0] && (a + b)[1..] == a[1..] + b; }
        head + Filter(a[1..] + b, p);
        { FilterAppend(a[1..], b, p); }
        head + (Filter(a[1..], p) + Filter(b, p));
        (head + Filter(a[1..], p)) + Filter(b, p);
      }
    }
  }

  /** Filtering a one-element list. */
  lemma FilterSingle<T(!new)>(x: T, p: T -> bool)
    ensures Filter([x], p) == if p(x) then [x] else []
  {
    assert [x][1..] == [];
  }

  /** Filtering a list split into its head and tail. */
  lemma FilterCons<T(!new)>(x: T, s: seq<T>, p: T -> bool)
    ensures Filter([x] + s, p) == (if p(x) then [x] else []) + Filter(s, p)
  {
    FilterAppend([x], s, p);
    FilterSingle(x, p);
  }

  /** Two neighbours that do not both pass the condition can trade places without changing the result. */
  lemma FilterSwap<T(!new)>(a: T, b: T, t: seq<T>, p: T -> bool)
    requires !(p(a) && p(b))
    ensures Filter([a] + ([b] + t), p) == Filter([b] + ([a] + t), p)
  {
    FilterCons(a, [b] + t, p);
    FilterCons(b, t, p);
    FilterCons(b, [a] + t, p);
    FilterCons(a, t, p);
  }

  /** Every element satisfies exactly one of two complementary conditions. */
  lemma {:induction false} FilterComplement<T(!new)>(s: seq<T>, p: T -> bool, q: T -> bool)
    requires forall x :: q(x) == !p(x)
    ensures |Filter(s, p)| + |Filter(s, q)| == |s|
  {
    if |s| > 0 {
      FilterComplement(s[1..], p, q);
    }
  }

  /** `sum` of integers. */
  function SumInt(s: seq<int>): int {
    if |s| == 0 then 0 else s[0] + SumInt(s[1..])
  }

  /** `sum` of reals. */
  function SumReal(s: seq<real>): real {
    if |s| == 0 then 0.0 else s[0] + SumReal(s[1..])
  }

  /** `max` of a non-empty list of integers. */
  function MaxInt(s: seq<int>): (m: int)
    requires |s| > 0
    ensures m in s && forall x :: x in s ==> x <= m
  {
    if |s| == 1 then s[0]
    else
      assert s == [s[0]] + s[1..];
      var rest := MaxInt(s[1..]);
      if s[0] >= rest then s[0] else rest
  }

  /** `min` of a non-empty list of integers. */
  function MinInt(s: seq<int>): (m: int)
    requires |s| > 0
    ensures m in s && forall x :: x in s ==> m <= x
  {
    if |s| == 1 then s[0]
    else
      assert s == [s[0]] + s[1..];
      var rest := MinInt(s[1..]);
      if s[0] <= rest then s[0] else rest
  }

  /** `max` of a non-empty list of reals. Dafny has no numeric type common to `int` and
      `real`, so the real-valued maximum and minimum repeat the integer ones. */
  function MaxReal(s: seq<real>): (m: real)
    requires |s| > 0
    ensures m in s && forall x :: x in s ==> x <= m
  {
    if |s| == 1 then s[0]
    else
      assert s == [s[0]] + s[1..];
      var rest := MaxReal(s[1..]);
      if s[0] >= rest then s[0] else rest
  }

  /** `min` of a non-empty list of reals. */
  function MinReal(s: seq<real>): (m: real)
    requires |s| > 0
    ensures m in s && forall x :: x in s ==> m <= x
  {
    if |s| == 1 then s[0]
    else
      assert s == [s[0]] + s[1..];
      var rest := MinReal(s[1..]);
      if s[0] <= rest then s[0] else rest
  }

  /** The integers of a list as reals. */
  function AsReals(s: seq<int>): (r: seq<real>)
    ensures |r| == |s| && forall i :: 0 <= i < |s| ==> r[i] == s[i] as real
  {
    seq(|s|, i requires 0 <= i < |s| => s[i] as real)
  }

  /** Summing integers and then converting agrees with converting and then summing. */
  lemma {:induction false} SumAsReals(s: seq<int>)
    ensures SumReal(AsReals(s)) == SumInt(s) as real
  {
    if |s| > 0 {
      SumAsReals(s[1..]);
      assert AsReals(s)[1..] == AsReals(s[1..]);
    }
  }

  /** A sum of reals that all lie in [lo, hi] lies in [n*lo, n*hi]. */
  lemma {:induction false} SumRealBounds(s: seq<real>, lo: real, hi: real)
    requires forall i :: 0 <= i < |s| ==> lo <= s[i] <= hi
    ensures (|s| as real) * lo <= SumReal(s) <= (|s| as real) * hi
  {
    if |s| > 0 {
      SumRealBounds(s[1..], lo, hi);
      var n := (|s| - 1) as real;
      assert (|s| as real) * lo == n * lo + lo && (|s| as real) * hi == n * hi + hi;
    }
  }

  /** Dividing bounds on a total by a positive count gives bounds on the mean. */
  lemma MeanFromTotal(total: real, n: real, lo: real, hi: real)
    requires n > 0.0
    requires n * lo <= total <= n * hi
    ensures lo <= total / n <= hi
  {
    assert total / n * n == total;
  }

  /** `sum(s) / len(s) if s else 0` over integers, as a real (Python's true division). */
  function AverageInt(s: seq<int>): real {
    if |s| == 0 then 0.0 else SumInt(s) as real / |s| as real
  }

  /** `sum(s) / len(s) if s else 0` over reals. */
  function AverageReal(s: seq<real>): real {
    if |s| == 0 then 0.0 else SumReal(s) / |s| as real
  }

  /** An average of reals within [lo, hi] stays within [lo, hi]; an empty list averages to 0. */
  lemma AverageRealWithin(s: seq<real>, lo: real, hi: real)
    requires forall i :: 0 <= i < |s| ==> lo <= s[i] <= hi
    requires |s| > 0 || lo <= 0.0 <= hi
    ensures lo <= AverageReal(s) <= hi
  {
    if |s| > 0 {
      SumRealBounds(s, lo, hi);
      MeanFromTotal(SumReal(s), |s| as real, lo, hi);
    }
  }

  /** The average of a non-empty list of integers lies between its `min` and its `max`. */
  lemma AverageIntBetween(s: seq<int>)
    requires |s| > 0
    ensures (MinInt(s) as real) <= AverageInt(s) <= (MaxInt(s) as real)
  {
    var r := AsReals(s);
    forall i | 0 <= i < |r|
      ensures MinInt(s) as real <= r[i] <= MaxInt(s) as real
    {
      assert s[i] in s;
    }
    SumAsReals(s);
    AverageRealWithin(r, MinInt(s) as real, MaxInt(s) as real);
  }

  /** The average of a non-empty list of reals lies between its `min` and its `max`. */
  lemma AverageRealBetween(s: seq<real>)
    requires |s| > 0
    ensures MinReal(s) <= AverageReal(s) <= MaxReal(s)
  {
    forall i | 0 <= i < |s|
      ensures MinReal(s) <= s[i] <= MaxReal(s)
    {
      assert s[i] in s;
    }
    AverageRealWithin(s, MinReal(s), MaxReal(s));
  }
}
