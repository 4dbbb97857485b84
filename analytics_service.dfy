/**
 * The analytics service (services/analytics_service.py): read-only reports
 * over the quiz catalogue, the attempt documents in store order and the
 * users. The clock (`date.today()`) is the day number `today` and
 * `strftime('%Y-%m-%d')` is the function `fmt` from day numbers to dates.
 */
module Analytics {
  import opened Common
  import opened Attempts
  import Quizzes
  import Users
  import opened ListOps
  import opened Sorting
  import opened AttemptLists

  datatype AnalyticsError = NotConnected | NoQuizFound(date: Date) | UserNotFound

  // ---------------------------------------------------------------------
  // Day windows

  /**
   * `[fmt(today - (days - 1) + i) for i in range(days)]`: the last `days`
   * dates up to and including today, oldest first.
   */
  function Window(today: int, days: int, fmt: int -> Date): (w: seq<Date>)
    ensures |w| == if days < 0 then 0 else days
    ensures forall i :: 0 <= i < |w| ==> w[i] == fmt(today - days + 1 + i)
    ensures days > 0 ==> w[|w| - 1] == fmt(today)
  {
    if days <= 0 then []
    else seq(days, i requires 0 <= i < days => fmt(today - days + 1 + i))
  }

  // ---------------------------------------------------------------------
  // Ranking by percentage

  /** The order of `sorted(..., key=percentage, reverse=True)`: higher percentage first. */
  predicate ByPercentageDesc(a: AttemptDoc, b: AttemptDoc) {
    a.percentage >= b.percentage
  }

  lemma ByPercentageDescPreorder()
    ensures TotalPreorder(ByPercentageDesc)
  {
  }

  /** The attempts sorted by non-increasing percentage, ties in store order. */
  function Ranked(docs: seq<AttemptDoc>): (r: seq<AttemptDoc>)
    ensures |r| == |docs| && multiset(r) == multiset(docs)
    ensures forall i, j :: 0 <= i < j < |r| ==> r[i].percentage >= r[j].percentage
  {
    ByPercentageDescPreorder();
    SortBySorted(docs, ByPercentageDesc);
    SortBy(docs, ByPercentageDesc)
  }

  /**
   * Attempts with the same percentage as `y` appear in the ranking in the
   * order the store returned them (Python's sort is stable).
   */
  lemma RankedKeepsTiesInStoreOrder(docs: seq<AttemptDoc>, y: AttemptDoc)
    ensures Filter(Ranked(docs), (z: AttemptDoc) => z.percentage == y.percentage) ==
            Filter(docs, (z: AttemptDoc) => z.percentage == y.percentage)
  {
    ByPercentageDescPreorder();
    SortByStable(docs, ByPercentageDesc, y);
    var tied := Ties(ByPercentageDesc, y);
    var same := (z: AttemptDoc) => z.percentage == y.percentage;
    SameFilter(Ranked(docs), tied, same);
    SameFilter(docs, tied, same);
  }

  /** Filtering by two conditions that agree everywhere gives the same list. */
  lemma {:induction false} SameFilter<T(!new)>(s: seq<T>, p: T -> bool, q: T -> bool)
    requires forall x :: p(x) == q(x)
    ensures Filter(s, p) == Filter(s, q)
  {
    if |s| > 0 {
      SameFilter(s[1..], p, q);
    }
  }

  // ---------------------------------------------------------------------
  // Who an attempt belongs to

  /** `user_lookup.get(user_id, {}).get('name', 'Unknown User')`. */
  function NameOf(users: map<UserId, Users.User>, u: UserId): (name: string)
    ensures u in users ==> name == users[u].name
    ensures u !in users ==> name == Users.UnknownUser
  {
    if u in users then users[u].name else Users.UnknownUser
  }

  /** `user_lookup.get(user_id, {}).get('email', 'Unknown')`. */
  function EmailOf(users: map<UserId, Users.User>, u: UserId): (email: string)
    ensures u in users ==> email == users[u].email
    ensures u !in users ==> email == "Unknown"
  {
    if u in users then users[u].email else "Unknown"
  }

  // ---------------------------------------------------------------------
  // get_last_7_days_stats

  datatype Performer = Performer(name: string, email: string, score: int, totalQuestions: int, percentage: real)

  datatype Title = QuizFor(date: Date) | NoQuizAvailable

  datatype DayStat = DayStat(
    date: Date,
    title: Title,
    totalQuestions: int,
    participantsCount: nat,
    averageScore: real,
    averagePercentage: real,
    highestScore: int,
    lowestScore: int,
    topPerformers: seq<Performer>,
    completionRate: real)

  datatype Overall = Overall(totalParticipants: nat, totalAttempts: nat, totalQuizzes: nat)

  datatype WeekReport = WeekReport(overall: Overall, daily: seq<DayStat>, dateRange: seq<Date>)

  /** The top three of a day's completed attempts, best first, with their owners' names. */
  function TopThree(done: seq<AttemptDoc>, users: map<UserId, Users.User>): (top: seq<Performer>)
    ensures |top| == if |done| < 3 then |done| else 3
    ensures forall i :: 0 <= i < |top| ==>
      var a := Ranked(done)[i];
      top[i] == Performer(NameOf(users, a.userId), EmailOf(users, a.userId), a.score, a.totalQuestions, a.percentage)
    ensures forall i, j :: 0 <= i < j < |top| ==> top[i].percentage >= top[j].percentage
  {
    var best := Take(Ranked(done), 3);
    seq(|best|, i requires 0 <= i < |best| =>
      Performer(NameOf(users, best[i].userId), EmailOf(users, best[i].userId),
                best[i].score, best[i].totalQuestions, best[i].percentage))
  }

  /**
   * An attempt with a higher percentage than some entry of the top three is
   * itself in the top three, ahead of that entry.
   */
  lemma BetterAttemptRanksAhead(done: seq<AttemptDoc>, users: map<UserId, Users.User>, a: AttemptDoc, i: nat)
    requires a in done && i < |TopThree(done, users)|
    requires a.percentage > TopThree(done, users)[i].percentage
    ensures exists j :: 0 <= j < i && Ranked(done)[j] == a
  {
    var r := Ranked(done);
    assert a in multiset(r);
    var k :| 0 <= k < |r| && r[k] == a;
    assert r[i].percentage == TopThree(done, users)[i].percentage;
    assert k < i;
  }

  /**
   * One day of the week report. `done` and `all` are the completed and all
   * attempts for the date `d`.
   */
  function DayStatFor(d: Date, quizzes: map<Quizzes.Date, Quizzes.Quiz>, done: seq<AttemptDoc>,
                      all: seq<AttemptDoc>, users: map<UserId, Users.User>): (s: DayStat)
    requires |done| <= |all|
    ensures s.date == d && s.completionRate == Percentage(|done|, |all|)
    ensures 0.0 <= s.completionRate <= 100.0
    ensures s.completionRate == 0.0 <== |done| == 0
    ensures s.title == if d in quizzes then QuizFor(d) else NoQuizAvailable
    ensures s.totalQuestions == if d in quizzes then quizzes[d].totalQuestions else 0
    ensures s.participantsCount == if d in quizzes then |done| else 0
    ensures d in quizzes && |done| > 0 ==>
      s.highestScore == MaxInt(ScoresOf(done)) && s.lowestScore == MinInt(ScoresOf(done)) &&
      s.averageScore == AverageInt(ScoresOf(done)) && s.averagePercentage == AverageReal(PercentagesOf(done)) &&
      s.lowestScore as real <= s.averageScore <= s.highestScore as real &&
      s.topPerformers == TopThree(done, users)
    ensures !(d in quizzes && |done| > 0) ==>
      s.participantsCount == 0 && s.averageScore == 0.0 && s.averagePercentage == 0.0 &&
      s.highestScore == 0 && s.lowestScore == 0 && s.topPerformers == []
  {
    PercentageBounds(|done|, |all|);
    var rate := Percentage(|done|, |all|);
    if d in quizzes && |done| > 0 then
      var scores := ScoresOf(done);
      AverageIntBetween(scores);
      DayStat(d, QuizFor(d), quizzes[d].totalQuestions, |done|,
              AverageInt(scores), AverageReal(PercentagesOf(done)), MaxInt(scores), MinInt(scores),
              TopThree(done, users), rate)
    else if d in quizzes then
      DayStat(d, QuizFor(d), quizzes[d].totalQuestions, 0, 0.0, 0.0, 0, 0, [], rate)
    else
      DayStat(d, NoQuizAvailable, 0, 0, 0.0, 0.0, 0, 0, [], rate)
  }

  /** The user ids of a list of attempts, with repetitions. */
  function UserIdsOf(docs: seq<AttemptDoc>): (ids: seq<UserId>)
    ensures |ids| == |docs| && forall i :: 0 <= i < |docs| ==> ids[i] == docs[i].userId
  {
    seq(|docs|, i requires 0 <= i < |docs| => docs[i].userId)
  }

  /**
   * The days of the window, oldest first, each over the date's attempts and
   * the completed ones among them.
   */
  function Days(window: seq<Date>, quizzes: map<Quizzes.Date, Quizzes.Quiz>, all: seq<AttemptDoc>,
                users: map<UserId, Users.User>): (days: seq<DayStat>)
    ensures |days| == |window|
    ensures forall i :: 0 <= i < |window| ==>
      days[i] == DayStatFor(window[i], quizzes, CompletedOnly(OnDate(all, window[i])), OnDate(all, window[i]), users)
  {
    seq(|window|, i requires 0 <= i < |window| =>
      DayStatFor(window[i], quizzes, CompletedOnly(OnDate(all, window[i])), OnDate(all, window[i]), users))
  }

  /**
   * `get_last_7_days_stats`: the seven dates ending today; overall counts of
   * completed attempts in the window, their distinct users and the window's
   * quizzes; and one entry per date, oldest first.
   */
  function Last7DaysStats(connected: bool, today: int, fmt: int -> Date,
                          quizzes: map<Quizzes.Date, Quizzes.Quiz>, docs: seq<AttemptDoc>,
                          users: map<UserId, Users.User>): (r: Result<WeekReport, AnalyticsError>)
    ensures !connected <==> r == Failure(NotConnected)
    ensures r.Success? ==>
      var window := Window(today, 7, fmt);
      var completed := CompletedOnly(InDates(docs, window));
      r.value.dateRange == window && r.value.daily == Days(window, quizzes, InDates(docs, window), users) &&
      |r.value.daily| == 7 && (forall i :: 0 <= i < 7 ==> r.value.daily[i].date == fmt(today - 6 + i)) &&
      r.value.overall.totalAttempts == |completed| &&
      r.value.overall.totalParticipants == |set a | a in completed :: a.userId| &&
      r.value.overall.totalParticipants <= r.value.overall.totalAttempts &&
      r.value.overall.totalQuizzes == |set d | d in window && d in quizzes| <= 7
  {
    if !connected then Failure(NotConnected)
    else
      var window := Window(today, 7, fmt);
      var inWindow := InDates(docs, window);
      var completed := CompletedOnly(inWindow);
      ParticipantsBound(completed);
      QuizDatesInWindow(window, quizzes);
      var overall := Overall(|set a | a in completed :: a.userId|, |completed|, |set d | d in window && d in quizzes|);
      Success(WeekReport(overall, Days(window, quizzes, inWindow, users), window))
  }

  /** There are no more distinct users than attempts. */
  lemma ParticipantsBound(completed: seq<AttemptDoc>)
    ensures |set a | a in completed :: a.userId| <= |completed|
  {
    var ids := UserIdsOf(completed);
    var participants := set a | a in completed :: a.userId;
    assert participants == set x <- ids by {
      forall x | x in participants ensures x in ids {
        var a :| a in completed && a.userId == x;
        var i :| 0 <= i < |completed| && completed[i] == a;
        assert ids[i] == x;
      }
    }
    DistinctElementsBound(ids);
  }

  /** A window has no more quiz dates than days. */
  lemma QuizDatesInWindow(window: seq<Date>, quizzes: map<Quizzes.Date, Quizzes.Quiz>)
    ensures |set d | d in window && d in quizzes| <= |window|
  {
    DistinctElementsBound(window);
    SubsetCard(set d | d in window && d in quizzes, set x <- window);
  }

  // ---------------------------------------------------------------------
  // get_quiz_analytics

  predicate From90(p: real) { p >= 90.0 }
  predicate From80(p: real) { 80.0 <= p < 90.0 }
  predicate From70(p: real) { 70.0 <= p < 80.0 }
  predicate From60(p: real) { 60.0 <= p < 70.0 }
  predicate Below60(p: real) { p < 60.0 }

  datatype Distribution = Distribution(from90: nat, from80: nat, from70: nat, from60: nat, below60: nat)

  /** The five score bands: how many percentages fall in each. */
  function DistributionOf(ps: seq<real>): (dist: Distribution)
    ensures dist.from90 == |Filter(ps, From90)| && dist.from80 == |Filter(ps, From80)|
    ensures dist.from70 == |Filter(ps, From70)| && dist.from60 == |Filter(ps, From60)|
    ensures dist.below60 == |Filter(ps, Below60)|
    ensures dist.from90 + dist.from80 + dist.from70 + dist.from60 + dist.below60 == |ps|
  {
    BandsPartition(ps);
    Distribution(|Filter(ps, From90)|, |Filter(ps, From80)|, |Filter(ps, From70)|,
                 |Filter(ps, From60)|, |Filter(ps, Below60)|)
  }

  /** Every percentage lies in exactly one band, so the band counts add up to the count of percentages. */
  lemma {:induction false} BandsPartition(ps: seq<real>)
    ensures |Filter(ps, From90)| + |Filter(ps, From80)| + |Filter(ps, From70)| +
            |Filter(ps, From60)| + |Filter(ps, Below60)| == |ps|
  {
    if |ps| > 0 {
      BandsPartition(ps[1..]);
    }
  }

  datatype Participant = Participant(
    rank: nat,
    name: string,
    email: string,
    score: int,
    totalQuestions: int,
    percentage: real,
    completedAt: Option<Timestamp>)

  /** The ranking: one entry per attempt, best first, ranked 1, 2, 3, ... with no shared ranks. */
  function Participants(done: seq<AttemptDoc>, users: map<UserId, Users.User>): (ps: seq<Participant>)
    ensures |ps| == |done|
    ensures forall i :: 0 <= i < |ps| ==> ps[i].rank == i + 1
    ensures forall i :: 0 <= i < |ps| ==>
      var a := Ranked(done)[i];
      ps[i] == Participant(i + 1, NameOf(users, a.userId), EmailOf(users, a.userId),
                           a.score, a.totalQuestions, a.percentage, a.completedAt)
    ensures forall i, j :: 0 <= i < j < |ps| ==> ps[i].percentage >= ps[j].percentage
  {
    var r := Ranked(done);
    seq(|r|, i requires 0 <= i < |r| =>
      Participant(i + 1, NameOf(users, r[i].userId), EmailOf(users, r[i].userId),
                  r[i].score, r[i].totalQuestions, r[i].percentage, r[i].completedAt))
  }

  datatype QuizReport =
    | NoCompletedAttempts(quizDate: Date, totalQuestions: int)
    | QuizReport(
        quizDate: Date,
        totalQuestions: int,
        participantsCount: nat,
        averageScore: real,
        averagePercentage: real,
        highestScore: int,
        lowestScore: int,
        distribution: Distribution,
        participants: seq<Participant>)

  /**
   * `get_quiz_analytics`: an error without a store or a quiz; a report with no
   * participants (not an error) when nobody completed it; otherwise the
   * averages, extremes, the five bands and the ranking of the completed attempts.
   */
  function QuizAnalytics(connected: bool, d: Date, quizzes: map<Quizzes.Date, Quizzes.Quiz>,
                         docs: seq<AttemptDoc>, users: map<UserId, Users.User>): (r: Result<QuizReport, AnalyticsError>)
    ensures !connected ==> r == Failure(NotConnected)
    ensures connected && d !in quizzes ==> r == Failure(NoQuizFound(d))
    ensures r.Success? <==> connected && d in quizzes
    ensures r.Success? ==> r.value.quizDate == d && r.value.totalQuestions == quizzes[d].totalQuestions
    ensures r.Success? ==>
      var done := CompletedOnly(OnDate(docs, d));
      (r.value.NoCompletedAttempts? <==> |done| == 0) &&
      (r.value.QuizReport? ==>
        r.value.participantsCount == |done| == |r.value.participants| &&
        r.value.highestScore == MaxInt(ScoresOf(done)) && r.value.lowestScore == MinInt(ScoresOf(done)) &&
        r.value.averageScore == AverageInt(ScoresOf(done)) &&
        r.value.lowestScore as real <= r.value.averageScore <= r.value.highestScore as real &&
        r.value.averagePercentage == AverageReal(PercentagesOf(done)) &&
        r.value.distribution == DistributionOf(PercentagesOf(done)) &&
        r.value.participants == Participants(done, users))
  {
    if !connected then Failure(NotConnected)
    else if d !in quizzes then Failure(NoQuizFound(d))
    else
      var quiz := quizzes[d];
      var done := CompletedOnly(OnDate(docs, d));
      if |done| == 0 then Success(NoCompletedAttempts(d, quiz.totalQuestions))
      else
        var scores := ScoresOf(done);
        AverageIntBetween(scores);
        Success(QuizReport(d, quiz.totalQuestions, |done|, AverageInt(scores), AverageReal(PercentagesOf(done)),
                           MaxInt(scores), MinInt(scores), DistributionOf(PercentagesOf(done)),
                           Participants(done, users)))
  }


  // ---------------------------------------------------------------------
  // get_user_performance

  /** Byte-wise string order, as the store sorts `quiz_date`. */
  predicate StrLe(a: string, b: string) {
    |a| == 0 || (|b| > 0 && (a[0] < b[0] || (a[0] == b[0] && StrLe(a[1..], b[1..]))))
  }

  lemma {:induction false} StrLeTotal(a: string, b: string)
    ensures StrLe(a, b) || StrLe(b, a)
  {
    if |a| > 0 && |b| > 0 && a[0] == b[0] {
      StrLeTotal(a[1..], b[1..]);
    }
  }

  lemma {:induction false} StrLeTransitive(a: string, b: string, c: string)
    requires StrLe(a, b) && StrLe(b, c)
    ensures StrLe(a, c)
  {
    if |a| > 0 && |b| > 0 && |c| > 0 && a[0] == b[0] == c[0] {
      StrLeTransitive(a[1..], b[1..], c[1..]);
    }
  }

  /** Attempts ordered by quiz date, ascending. */
  predicate ByDate(a: AttemptDoc, b: AttemptDoc) {
    StrLe(a.quizDate, b.quizDate)
  }

  lemma ByDatePreorder()
    ensures TotalPreorder(ByDate)
  {
    forall a: AttemptDoc, b: AttemptDoc
      ensures ByDate(a, b) || ByDate(b, a)
    {
      StrLeTotal(a.quizDate, b.quizDate);
    }
    forall a: AttemptDoc, b: AttemptDoc, c: AttemptDoc | ByDate(a, b) && ByDate(b, c)
      ensures ByDate(a, c)
    {
      StrLeTransitive(a.quizDate, b.quizDate, c.quizDate);
    }
  }

  /** The attempts sorted by quiz date, oldest first. */
  function ByDateAscending(docs: seq<AttemptDoc>): (r: seq<AttemptDoc>)
    ensures |r| == |docs| && multiset(r) == multiset(docs)
    ensures forall i, j :: 0 <= i < j < |r| ==> StrLe(r[i].quizDate, r[j].quizDate)
  {
    ByDatePreorder();
    SortBySorted(docs, ByDate);
    SortBy(docs, ByDate)
  }

  datatype DatedResult = DatedResult(date: Date, score: int, percentage: real, totalQuestions: int)

  datatype Performance =
    | NoAttemptsFound(userName: string, userEmail: string)
    | Performance(
        userName: string,
        userEmail: string,
        attemptsCount: nat,
        averageScore: real,
        averagePercentage: real,
        bestScore: int,
        worstScore: int,
        bestPercentage: real,
        worstPercentage: real,
        improvementTrend: real,
        attemptsByDate: seq<DatedResult>)

  /** `percentages[-1] - percentages[0] if len(percentages) > 1 else 0`. */
  function Trend(ps: seq<real>): (t: real)
    ensures |ps| <= 1 ==> t == 0.0
    ensures |ps| > 1 ==> (t > 0.0 <==> ps[|ps| - 1] > ps[0]) && (t < 0.0 <==> ps[|ps| - 1] < ps[0])
  {
    if |ps| > 1 then ps[|ps| - 1] - ps[0] else 0.0
  }

  /** The user's completed attempts within the window, oldest first. */
  function UserHistory(docs: seq<AttemptDoc>, u: UserId, window: seq<Date>): (h: seq<AttemptDoc>)
    ensures forall a :: a in h <==> a in docs && a.userId == u && a.quizDate in window && a.isCompleted
    ensures multiset(h) == multiset(CompletedOnly(InDates(ForUser(docs, u), window)))
    ensures forall i, j :: 0 <= i < j < |h| ==> StrLe(h[i].quizDate, h[j].quizDate)
  {
    var h := ByDateAscending(CompletedOnly(InDates(ForUser(docs, u), window)));
    assert forall a :: a in h <==> a in multiset(h);
    h
  }

  /** The report for a user with at least one completed attempt in the window. */
  function PerformanceOf(user: Users.User, h: seq<AttemptDoc>): (p: Performance)
    requires |h| > 0
    ensures p.Performance? && p.userName == user.name && p.userEmail == user.email
    ensures p.attemptsCount == |h| == |p.attemptsByDate|
    ensures p.bestScore == MaxInt(ScoresOf(h)) && p.worstScore == MinInt(ScoresOf(h))
    ensures p.averageScore == AverageInt(ScoresOf(h)) && p.averagePercentage == AverageReal(PercentagesOf(h))
    ensures p.worstScore as real <= p.averageScore <= p.bestScore as real
    ensures p.bestPercentage == MaxReal(PercentagesOf(h)) && p.worstPercentage == MinReal(PercentagesOf(h))
    ensures p.worstPercentage <= p.averagePercentage <= p.bestPercentage
    ensures p.improvementTrend == Trend(PercentagesOf(h))
    ensures forall i :: 0 <= i < |h| ==>
      p.attemptsByDate[i] == DatedResult(h[i].quizDate, h[i].score, h[i].percentage, h[i].totalQuestions)
  {
    var scores := ScoresOf(h);
    var ps := PercentagesOf(h);
    AverageIntBetween(scores);
    AverageRealBetween(ps);
    var byDate := seq(|h|, i requires 0 <= i < |h| =>
      DatedResult(h[i].quizDate, h[i].score, h[i].percentage, h[i].totalQuestions));
    Performance(user.name, user.email, |h|, AverageInt(scores), AverageReal(ps),
                MaxInt(scores), MinInt(scores), MaxReal(ps), MinReal(ps), Trend(ps), byDate)
  }

  /**
   * `get_user_performance`: an error without a store or without the user; a
   * report with no attempts when the user completed nothing in the last
   * `days` days; otherwise the report over those attempts, oldest first.
   */
  function UserPerformance(connected: bool, u: UserId, today: int, days: int, fmt: int -> Date,
                           docs: seq<AttemptDoc>, users: map<UserId, Users.User>): (r: Result<Performance, AnalyticsError>)
    ensures !connected ==> r == Failure(NotConnected)
    ensures connected && u !in users ==> r == Failure(UserNotFound)
    ensures r.Success? <==> connected && u in users
    ensures r.Success? ==>
      var h := UserHistory(docs, u, Window(today, days, fmt));
      (r.value.NoAttemptsFound? <==> |h| == 0) &&
      (|h| == 0 ==> r.value == NoAttemptsFound(users[u].name, users[u].email)) &&
      (|h| > 0 ==> r.value == PerformanceOf(users[u], h))
  {
    if !connected then Failure(NotConnected)
    else if u !in users then Failure(UserNotFound)
    else
      var h := UserHistory(docs, u, Window(today, days, fmt));
      if |h| == 0 then Success(NoAttemptsFound(users[u].name, users[u].email))
      else Success(PerformanceOf(users[u], h))
  }

}
