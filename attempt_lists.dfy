/**
 * The list comprehensions the services run over attempt documents read from
 * the store: by date, completed only, by user, and the score and percentage
 * columns.
 */
module AttemptLists {
  import opened Attempts
  import opened ListOps

  /** The condition `{"quiz_date": d}`. */
  function DatedOn(d: Date): AttemptDoc -> bool {
    (a: AttemptDoc) => a.quizDate == d
  }

  /** The attempts for one quiz date (a `find({"quiz_date": d})`), in store order. */
  function OnDate(docs: seq<AttemptDoc>, d: Date): (r: seq<AttemptDoc>)
    ensures forall a :: a in r <==> a in docs && a.quizDate == d
  {
    Filter(docs, DatedOn(d))
  }

  predicate IsCompleted(a: AttemptDoc) {
    a.isCompleted
  }

  /** The completed attempts (`if a.get('is_completed', False)`), in store order. */
  function CompletedOnly(docs: seq<AttemptDoc>): (r: seq<AttemptDoc>)
    ensures forall a :: a in r <==> a in docs && a.isCompleted
  {
    Filter(docs, IsCompleted)
  }

  /**
   * Picking one date's attempts out of the completed ones, or the completed
   * ones out of the date's attempts, gives the same list in the same order.
   */
  lemma {:induction false} CompletedOnDateCommute(docs: seq<AttemptDoc>, d: Date)
    ensures OnDate(CompletedOnly(docs), d) == CompletedOnly(OnDate(docs, d))
  {
    if |docs| > 0 {
      var x, rest := docs[0], docs[1..];
      assert docs == [x] + rest;
      CompletedOnDateCommute(rest, d);
      FilterCons(x, rest, IsCompleted);
      FilterCons(x, rest, DatedOn(d));
      FilterAppend(if x.isCompleted then [x] else [], CompletedOnly(rest), DatedOn(d));
      FilterAppend(if x.quizDate == d then [x] else [], OnDate(rest, d), IsCompleted);
      FilterSingle(x, DatedOn(d));
      FilterSingle(x, IsCompleted);
    }
  }

  /** The attempts of one user, in store order. */
  function ForUser(docs: seq<AttemptDoc>, u: UserId): (r: seq<AttemptDoc>)
    ensures forall a :: a in r <==> a in docs && a.userId == u
  {
    Filter(docs, (a: AttemptDoc) => a.userId == u)
  }

  /** The attempts whose date is one of `dates` (a `$in` query), in store order. */
  function InDates(docs: seq<AttemptDoc>, dates: seq<Date>): (r: seq<AttemptDoc>)
    ensures forall a :: a in r <==> a in docs && a.quizDate in dates
  {
    Filter(docs, (a: AttemptDoc) => a.quizDate in dates)
  }

  /** `[a['score'] for a in docs]`. */
  function ScoresOf(docs: seq<AttemptDoc>): (r: seq<int>)
    ensures |r| == |docs| && forall i :: 0 <= i < |docs| ==> r[i] == docs[i].score
  {
    seq(|docs|, i requires 0 <= i < |docs| => docs[i].score)
  }

  /** `[a['percentage'] for a in docs]`. */
  function PercentagesOf(docs: seq<AttemptDoc>): (r: seq<real>)
    ensures |r| == |docs| && forall i :: 0 <= i < |docs| ==> r[i] == docs[i].percentage
  {
    seq(|docs|, i requires 0 <= i < |docs| => docs[i].percentage)
  }

  /** Percentages that all lie in [0, 100] average to a value in [0, 100]. */
  lemma AveragePercentageBounded(docs: seq<AttemptDoc>)
    requires forall a :: a in docs ==> 0.0 <= a.percentage <= 100.0
    ensures 0.0 <= AverageReal(PercentagesOf(docs)) <= 100.0
  {
    var p := PercentagesOf(docs);
    forall i | 0 <= i < |p|
      ensures 0.0 <= p[i] <= 100.0
    {
      assert docs[i] in docs;
    }
    AverageRealWithin(p, 0.0, 100.0);
  }
}
