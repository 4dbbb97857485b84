/**
 * Shapes shared by every module: optional values (Python's `None`) and the
 * `(success, message, value)` triples the services return, plus two counting
 * facts about finite sets.
 */
module Common {

  datatype Option<+T> = None | Some(value: T)

  datatype Result<+T, +E> = Success(value: T) | Failure(error: E)

  /** The integers 0, 1, ..., n-1 in order (Python's `range(n)`). */
  function Range(n: nat): (r: seq<int>)
    ensures |r| == n
    ensures forall i :: 0 <= i < n ==> r[i] == i
  {
    seq(n, i => i)
  }

  /** The number of distinct elements of a sequence never exceeds its length. */
  lemma {:induction false} DistinctElementsBound<T>(s: seq<T>)
    ensures |(set x <- s)| <= |s|
  {
    if |s| > 0 {
      DistinctElementsBound(s[1..]);
      assert (set x <- s) == {s[0]} + (set x <- s[1..]);
    }
  }

  /** A subset is no larger than the set that contains it. */
  lemma SubsetCard<T>(a: set<T>, b: set<T>)
    requires a <= b
    ensures |a| <= |b|
  {
    assert b == a + (b - a);
  }

  /** A second update of the same key overrides the first. */
  lemma UpdateTwice<K, V>(m: map<K, V>, k: K, a: V, b: V)
    ensures m[k := a][k := b] == m[k := b]
  {
  }

  /** Two maps with the same keys and the same value under each key are equal. */
  lemma SameMaps<K, V>(a: map<K, V>, b: map<K, V>)
    requires forall k :: k in a <==> k in b
    requires forall k :: k in a ==> a[k] == b[k]
    ensures a == b
  {
  }
}
