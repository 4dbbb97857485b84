/**
 * The quiz service (services/quiz_service.py) over its document store.
 *
 * The store holds the quiz catalogue keyed by date and the attempts keyed by
 * (user, date): the unique indexes on `quiz_date` and on
 * `(user_id, quiz_date)` make both collections maps. `order` remembers the
 * order attempts were inserted in; the model assumes that a plain `find`
 * returns them in that order, which the store itself does not promise. Per (user, date) an attempt moves Absent -> InProgress -> Completed
 * and never back.
 */
module QuizService {
  import opened Common
  import opened Attempts
  import opened Quizzes
  import opened ListOps
  import opened AttemptLists

  type AttemptKey = (UserId, Attempts.Date)

  /** The `(False, message)` answers of the service, one per message. */
  datatype ServiceError =
    | NotConnected
    | NoQuizForDate(date: Attempts.Date)
    | NoQuizFound(date: Attempts.Date)
    | AlreadyCompleted
    | NoActiveAttempt
    | QuizAlreadyCompleted
    | QuizNotFound
    | MalformedQuiz
    | ValidationErrors(errors: seq<QuizError>)
    | QuizExists(date: Attempts.Date)

  /** `can_user_attempt_quiz`'s answer. */
  datatype Verdict = Allowed | Denied(reason: ServiceError)

  /** What `start_quiz_attempt` hands back: the attempt, and whether it was resumed. */
  datatype Started = Started(attempt: AttemptDoc, resumed: bool)

  /** `get_user_quiz_status`'s three states (the labels and button texts are presentation). */
  datatype QuizStatus =
    | NotAttempted
    | InProgress(answeredQuestions: nat)
    | Completed(score: int, totalQuestions: int, percentage: real)

  /**
   * `get_quiz_statistics` for a quiz with no attempts at all (zero counts and
   * averages, and no incomplete count or completion rate), or with some.
   */
  datatype QuizStats =
    | NoAttempts(quizDate: Attempts.Date, totalQuestions: nat)
    | Stats(quizDate: Attempts.Date, totalQuestions: nat, totalAttempts: nat, completedAttempts: nat,
            incompleteAttempts: int, averageScore: real, averagePercentage: real, completionRate: real)

  /** What every stored attempt satisfies. */
  predicate AttemptInvariant(a: AttemptDoc) {
    DistinctIndices(a.answers) &&
    (a.isCompleted <==> a.completedAt.Some?) &&
    0 <= a.score <= a.totalQuestions &&
    0.0 <= a.percentage <= 100.0
  }

  /** The documents stored under `keys`, in that order. */
  function DocsOf(keys: seq<AttemptKey>, attempts: map<AttemptKey, AttemptDoc>): (r: seq<AttemptDoc>)
    requires forall k :: k in keys ==> k in attempts
    ensures |r| == |keys| && forall i :: 0 <= i < |keys| ==> r[i] == attempts[keys[i]]
  {
    seq(|keys|, i requires 0 <= i < |keys| => attempts[keys[i]])
  }

  // ---------------------------------------------------------------------
  // The answer key a submission is scored against

  /**
   * The key `{i: questions[i]['answer']}` for the first `n` questions, or
   * `None` when one of them has no answer (the lookup raises, and the
   * submission reports an error).
   */
  function AnswerKey(questions: seq<Question>, n: nat): (r: Option<map<int, string>>)
    requires n <= |questions|
    ensures r.Some? <==> forall i :: 0 <= i < n ==> questions[i].answer.Some?
    ensures r.Some? ==> |r.value| == n
    ensures r.Some? ==> forall i :: i in r.value <==> 0 <= i < n
    ensures r.Some? ==> forall i :: 0 <= i < n ==> r.value[i] == questions[i].answer.value
  {
    if n == 0 then Some(map[])
    else match AnswerKey(questions, n - 1)
      case None => None
      case Some(m) =>
        if questions[n - 1].answer.None? then None
        else
          assert n - 1 !in m;
          Some(m[n - 1 := questions[n - 1].answer.value])
  }

  /** The loop of `submit_quiz` that builds the answer key, question by question. */
  method AnswerKeyOf(questions: seq<Question>) returns (key: Option<map<int, string>>)
    ensures key == AnswerKey(questions, |questions|)
  {
    var m: map<int, string> := map[];
    var i := 0;
    while i < |questions|
      invariant 0 <= i <= |questions|
      invariant AnswerKey(questions, i) == Some(m)
    {
      if questions[i].answer.None? {
        NoAnswerNoKey(questions, i);
        return None;
      }
      AnswerKeyStep(questions, i, m);
      m := m[i := questions[i].answer.value];
      i := i + 1;
    }
    return Some(m);
  }

  /** One more answered question adds its entry to the key. */
  lemma AnswerKeyStep(questions: seq<Question>, i: nat, m: map<int, string>)
    requires i < |questions| && questions[i].answer.Some? && AnswerKey(questions, i) == Some(m)
    ensures AnswerKey(questions, i + 1) == Some(m[i := questions[i].answer.value])
  {
  }

  /** One question without an answer leaves the whole quiz without a key. */
  lemma NoAnswerNoKey(questions: seq<Question>, i: nat)
    requires i < |questions| && questions[i].answer.None?
    ensures AnswerKey(questions, |questions|) == None
  {
    assert !(forall j :: 0 <= j < |questions| ==> questions[j].answer.Some?);
  }

  /** Scoring keeps one record per question index. */
  lemma FlaggedKeepsDistinct(answers: seq<AnswerRecord>, key: map<int, string>)
    requires DistinctIndices(answers)
    ensures DistinctIndices(Flagged(answers, key))
  {
    FlaggedChangesOnlyKeyFlags(answers, key);
  }

  /** A well-formed quiz always has a full answer key, one entry per question. */
  lemma WellFormedQuizHasKey(quiz: Quiz)
    requires WellFormed(quiz)
    ensures AnswerKey(quiz.questions, |quiz.questions|).Some?
    ensures |AnswerKey(quiz.questions, |quiz.questions|).value| == |quiz.questions|
  {
    forall i | 0 <= i < |quiz.questions|
      ensures quiz.questions[i].answer.Some?
    {
      assert QuestionOk(quiz.questions[i]);
    }
  }

  // ---------------------------------------------------------------------
  // Statistics for one date

  /**
   * `get_quiz_statistics` once the quiz is found: counts over all of the
   * date's attempts, averages over the completed ones only.
   */
  function StatsOf(d: Attempts.Date, quiz: Quiz, docs: seq<AttemptDoc>): (s: QuizStats)
    ensures s.quizDate == d && s.totalQuestions == TotalQuestions(quiz)
    ensures s.NoAttempts? <==> forall a :: a in docs ==> a.quizDate != d
    ensures s.Stats? ==>
      s.totalAttempts == |OnDate(docs, d)| > 0 &&
      s.completedAttempts == |CompletedOnly(OnDate(docs, d))| <= s.totalAttempts &&
      s.incompleteAttempts == s.totalAttempts - s.completedAttempts >= 0 &&
      0.0 <= s.completionRate <= 100.0 &&
      s.completionRate == Percentage(s.completedAttempts, s.totalAttempts) &&
      (s.completionRate == 100.0 <==> s.completedAttempts == s.totalAttempts) &&
      s.averageScore == AverageInt(ScoresOf(CompletedOnly(OnDate(docs, d)))) &&
      s.averagePercentage == AverageReal(PercentagesOf(CompletedOnly(OnDate(docs, d)))) &&
      (s.completedAttempts == 0 ==> s.averageScore == 0.0 && s.averagePercentage == 0.0)
  {
    var onDate := OnDate(docs, d);
    if |onDate| == 0 then
      assert forall a :: a in docs ==> a.quizDate != d;
      NoAttempts(d, TotalQuestions(quiz))
    else
      assert onDate[0] in docs;
      var done := CompletedOnly(onDate);
      var n := |done|;
      PercentageBounds(n, |onDate|);
      CompletionRateFull(n, |onDate|);
      Stats(d, TotalQuestions(quiz), |onDate|, n, |onDate| - n,
            AverageInt(ScoresOf(done)), AverageReal(PercentagesOf(done)), Percentage(n, |onDate|))
  }

  /** The completion rate is 100 exactly when every attempt is completed. */
  lemma CompletionRateFull(completed: int, total: int)
    requires 0 <= completed <= total && total > 0
    ensures Percentage(completed, total) == 100.0 <==> completed == total
  {
    var q := completed as real / total as real;
    assert q * total as real == completed as real;
    assert Percentage(completed, total) == q * 100.0;
    if completed == total {
      assert q == 1.0;
    }
    if q * 100.0 == 100.0 {
      assert q == 1.0;
      assert completed as real == total as real;
    }
  }

  /** With every stored percentage in [0, 100], so is the average percentage. */
  lemma StatsAveragePercentageBounded(d: Attempts.Date, quiz: Quiz, docs: seq<AttemptDoc>)
    requires forall a :: a in docs ==> 0.0 <= a.percentage <= 100.0
    ensures var s := StatsOf(d, quiz, docs);
      s.Stats? ==> 0.0 <= s.averagePercentage <= 100.0
  {
    AveragePercentageBounded(CompletedOnly(OnDate(docs, d)));
  }

  /**
   * Averages are over completed attempts only: one more attempt still in
   * progress changes the counts but not the averages.
   */
  lemma InProgressAttemptLeavesAverages(d: Attempts.Date, quiz: Quiz, docs: seq<AttemptDoc>, a: AttemptDoc)
    requires !a.isCompleted && a.quizDate == d
    requires StatsOf(d, quiz, docs).Stats?
    ensures var before, after := StatsOf(d, quiz, docs), StatsOf(d, quiz, docs + [a]);
      after.Stats? &&
      after.totalAttempts == before.totalAttempts + 1 &&
      after.completedAttempts == before.completedAttempts &&
      after.averageScore == before.averageScore &&
      after.averagePercentage == before.averagePercentage
  {
    var pd := (x: AttemptDoc) => x.quizDate == d;
    FilterAppend(docs, [a], pd);
    assert OnDate(docs + [a], d) == OnDate(docs, d) + [a];
    FilterAppend(OnDate(docs, d), [a], IsCompleted);
    assert CompletedOnly(OnDate(docs + [a], d)) == CompletedOnly(OnDate(docs, d));
  }

  // ---------------------------------------------------------------------
  // The store

  class QuizStore {
    /** `db.is_connected()`. */
    var connected: bool
    /** The quizzes collection, keyed by `quiz_date`. */
    var quizzes: map<Quizzes.Date, Quiz>
    /** The attempts collection, keyed by `(user_id, quiz_date)`. */
    var attempts: map<AttemptKey, AttemptDoc>
    /** The keys of `attempts` in insertion order. */
    var order: seq<AttemptKey>

    ghost predicate Valid()
      reads this
    {
      (forall k :: k in attempts ==> attempts[k].userId == k.0 && attempts[k].quizDate == k.1) &&
      (forall k :: k in attempts ==> AttemptInvariant(attempts[k])) &&
      (forall k :: k in attempts <==> k in order) &&
      (forall i, j :: 0 <= i < j < |order| ==> order[i] != order[j]) &&
      (forall d :: d in quizzes ==> quizzes[d].quizDate == d)
    }

    /** An empty store, connected or not. */
    constructor (connected: bool)
      ensures Valid()
      ensures this.connected == connected && quizzes == map[] && attempts == map[] && order == []
    {
      this.connected := connected;
      quizzes := map[];
      attempts := map[];
      order := [];
    }

    /** Every attempt document, in insertion order (assumed to be the order a plain `find` returns them in). */
    function Snapshot(): (docs: seq<AttemptDoc>)
      reads this
      requires Valid()
      ensures |docs| == |order|
      ensures forall a :: a in docs <==> exists k :: k in attempts && attempts[k] == a
    {
      var docs := DocsOf(order, attempts);
      assert forall k :: k in attempts ==> attempts[k] in docs by {
        forall k | k in attempts
          ensures attempts[k] in docs
        {
          var i :| 0 <= i < |order| && order[i] == k;
          assert docs[i] == attempts[k];
        }
      }
      docs
    }

    /** `get_quiz_by_date`: `None` when disconnected or when the date has no quiz. */
    function QuizByDate(d: Quizzes.Date): (r: Option<Quiz>)
      reads this
      ensures r.Some? <==> connected && d in quizzes
      ensures r.Some? ==> r.value == quizzes[d]
    {
      if connected && d in quizzes then Some(quizzes[d]) else None
    }

    /** `get_user_attempt`: `None` when disconnected or when there is no attempt. */
    function UserAttempt(u: UserId, d: Attempts.Date): (r: Option<AttemptDoc>)
      reads this
      ensures r.Some? <==> connected && (u, d) in attempts
      ensures r.Some? ==> r.value == attempts[(u, d)]
    {
      if connected && (u, d) in attempts then Some(attempts[(u, d)]) else None
    }

    /**
     * `can_user_attempt_quiz`: allowed exactly when connected, the date has a
     * quiz, and the user has no completed attempt for it (an attempt in
     * progress does not stand in the way). Reasons are checked in that order.
     */
    function CanAttempt(u: UserId, d: Attempts.Date): (v: Verdict)
      reads this
      ensures v.Allowed? <==>
        connected && d in quizzes && !((u, d) in attempts && attempts[(u, d)].isCompleted)
      ensures !connected ==> v == Denied(NotConnected)
      ensures connected && d !in quizzes ==> v == Denied(NoQuizForDate(d))
      ensures connected && d in quizzes && v.Denied? ==> v == Denied(AlreadyCompleted)
    {
      if !connected then Denied(NotConnected)
      else if QuizByDate(d).None? then Denied(NoQuizForDate(d))
      else match UserAttempt(u, d)
        case Some(a) => if a.isCompleted then Denied(AlreadyCompleted) else Allowed
        case None => Allowed
    }

    /** `get_user_quiz_status`: no attempt (or no store), in progress, or completed with its result. */
    function UserQuizStatus(u: UserId, d: Attempts.Date): (s: QuizStatus)
      reads this
      ensures s.NotAttempted? <==> !connected || (u, d) !in attempts
      ensures s.InProgress? ==> s.answeredQuestions == |attempts[(u, d)].answers|
      ensures s.Completed? ==> (attempts[(u, d)].isCompleted &&
        s == Completed(attempts[(u, d)].score, attempts[(u, d)].totalQuestions, attempts[(u, d)].percentage))
      ensures s.Completed? <==> connected && (u, d) in attempts && attempts[(u, d)].isCompleted
      ensures s.InProgress? <==> connected && (u, d) in attempts && !attempts[(u, d)].isCompleted
      ensures connected && d in quizzes ==> (s.Completed? <==> CanAttempt(u, d).Denied?)
    {
      match UserAttempt(u, d)
      case None => NotAttempted
      case Some(a) =>
        if a.isCompleted then Completed(a.score, a.totalQuestions, a.percentage)
        else InProgress(|a.answers|)
    }

    /** `get_quiz_statistics`: an error without a store or a quiz, else the date's statistics. */
    function QuizStatistics(d: Attempts.Date): (r: Result<QuizStats, ServiceError>)
      reads this
      requires Valid()
      ensures r.Failure? <==> !connected || d !in quizzes
      ensures !connected ==> r == Failure(NotConnected)
      ensures connected && d !in quizzes ==> r == Failure(NoQuizFound(d))
      ensures r.Success? ==> r.value == StatsOf(d, quizzes[d], Snapshot())
    {
      if !connected then Failure(NotConnected)
      else match QuizByDate(d)
        case None => Failure(NoQuizFound(d))
        case Some(quiz) => Success(StatsOf(d, quiz, Snapshot()))
    }

    /**
     * `start_quiz_attempt`: refuse when the user may not attempt the quiz;
     * hand back an attempt in progress untouched; otherwise insert exactly one
     * fresh attempt whose total is the quiz's question count.
     */
    method StartQuizAttempt(u: UserId, d: Attempts.Date, now: Timestamp) returns (r: Result<Started, ServiceError>)
      requires Valid()
      modifies this
      ensures Valid()
      ensures old(CanAttempt(u, d)).Denied? ==>
        r == Failure(old(CanAttempt(u, d)).reason) && unchanged(this)
      ensures old(CanAttempt(u, d)).Allowed? && (u, d) in old(attempts) ==>
        r == Success(Started(old(attempts)[(u, d)], true)) && unchanged(this)
      ensures old(CanAttempt(u, d)).Allowed? && (u, d) !in old(attempts) ==>
        var doc := NewAttempt(u, d, now).(totalQuestions := |old(quizzes)[d].questions|);
        r == Success(Started(doc, false)) &&
        attempts == old(attempts)[(u, d) := doc] && order == old(order) + [(u, d)] &&
        quizzes == old(quizzes) && connected == old(connected)
      ensures r.Success? <==> old(CanAttempt(u, d)).Allowed?
      ensures r.Success? ==> CanAttempt(u, d).Allowed? && UserQuizStatus(u, d).InProgress?
    {
      var verdict := CanAttempt(u, d);
      if verdict.Denied? {
        return Failure(verdict.reason);
      }
      // Allowed, so any attempt on record is still in progress.
      var existing := UserAttempt(u, d);
      if existing.Some? {
        return Success(Started(existing.value, true));
      }
      var attempt := new QuizAttempt(u, d, now);
      attempt.totalQuestions := TotalQuestions(quizzes[d]);
      var doc := attempt.ToDict();
      attempts := attempts[(u, d) := doc];
      order := order + [(u, d)];
      return Success(Started(doc, false));
    }

    /**
     * `save_answer`: refuse without a store, without an attempt, or once the
     * attempt is completed, changing nothing; otherwise upsert the answer into
     * the stored records and mark the attempt auto-saved, and nothing else.
     */
    method SaveAnswer(u: UserId, d: Attempts.Date, k: QuestionKey, selected: string, now: Timestamp)
      returns (r: Result<(), ServiceError>)
      requires Valid()
      modifies this
      ensures Valid()
      ensures !old(connected) ==> r == Failure(NotConnected)
      ensures old(connected) && (u, d) !in old(attempts) ==> r == Failure(NoActiveAttempt)
      ensures old(connected) && (u, d) in old(attempts) && old(attempts)[(u, d)].isCompleted ==>
        r == Failure(QuizAlreadyCompleted)
      ensures r.Failure? ==> unchanged(this)
      ensures r.Success? <==> old(connected) && (u, d) in old(attempts) && !old(attempts)[(u, d)].isCompleted
      ensures r.Success? ==>
        var before := old(attempts)[(u, d)];
        attempts == old(attempts)[(u, d) := before.(answers := Upsert(before.answers, k, selected, None, now),
                                                    autoSaved := true)] &&
        order == old(order) && quizzes == old(quizzes) && connected == old(connected)
      ensures CanAttempt(u, d) == old(CanAttempt(u, d))
    {
      if !connected {
        return Failure(NotConnected);
      }
      var existing := UserAttempt(u, d);
      if existing.None? {
        return Failure(NoActiveAttempt);
      }
      var doc := existing.value;
      if doc.isCompleted {
        return Failure(QuizAlreadyCompleted);
      }
      var attempt := new QuizAttempt.FromDict(doc);
      attempt.AddAnswer(k, selected, None, now);
      UpsertKeepsDistinct(doc.answers, k, selected, None, now);
      Replace((u, d), doc.(answers := attempt.answers, autoSaved := true));
      return Success(());
    }

    /**
     * `submit_quiz`: refuse without a store, without an attempt, once completed,
     * or without the quiz, changing nothing; otherwise score the records against
     * `{i: questions[i]['answer']}`, and store the score, total, percentage, the
     * flagged records and the completion. The user may not attempt it again.
     */
    method SubmitQuiz(u: UserId, d: Attempts.Date, now: Timestamp) returns (r: Result<ScoreResult, ServiceError>)
      requires Valid()
      modifies this
      ensures Valid()
      ensures !old(connected) ==> r == Failure(NotConnected)
      ensures old(connected) && (u, d) !in old(attempts) ==> r == Failure(NoActiveAttempt)
      ensures old(connected) && (u, d) in old(attempts) && old(attempts)[(u, d)].isCompleted ==>
        r == Failure(QuizAlreadyCompleted)
      ensures old(connected) && (u, d) in old(attempts) && !old(attempts)[(u, d)].isCompleted && d !in old(quizzes) ==>
        r == Failure(QuizNotFound)
      ensures old(connected) && (u, d) in old(attempts) && !old(attempts)[(u, d)].isCompleted && d in old(quizzes) &&
              AnswerKey(old(quizzes)[d].questions, |old(quizzes)[d].questions|).None? ==>
        r == Failure(MalformedQuiz)
      ensures r.Failure? ==> unchanged(this)
      ensures r.Success? <==>
        old(connected) && (u, d) in old(attempts) && !old(attempts)[(u, d)].isCompleted && d in old(quizzes) &&
        AnswerKey(old(quizzes)[d].questions, |old(quizzes)[d].questions|).Some?
      ensures r.Success? ==>
        old(connected) && (u, d) in old(attempts) && !old(attempts)[(u, d)].isCompleted && d in old(quizzes) &&
        var key := AnswerKey(old(quizzes)[d].questions, |old(quizzes)[d].questions|);
        var before := old(attempts)[(u, d)];
        key.Some? &&
        r.value == Scored(before.answers, key.value) &&
        r.value.totalQuestions == |old(quizzes)[d].questions| &&
        attempts == old(attempts)[(u, d) := before.(answers := Flagged(before.answers, key.value),
                                                    score := r.value.score,
                                                    totalQuestions := r.value.totalQuestions,
                                                    percentage := r.value.percentage,
                                                    isCompleted := true,
                                                    completedAt := Some(now))] &&
        order == old(order) && quizzes == old(quizzes) && connected == old(connected)
      ensures r.Success? ==> CanAttempt(u, d) == Denied(AlreadyCompleted)
    {
      if !connected {
        return Failure(NotConnected);
      }
      var existing := UserAttempt(u, d);
      if existing.None? {
        return Failure(NoActiveAttempt);
      }
      var doc := existing.value;
      if doc.isCompleted {
        return Failure(QuizAlreadyCompleted);
      }
      var quiz := QuizByDate(d);
      if quiz.None? {
        return Failure(QuizNotFound);
      }
      var key := AnswerKeyOf(quiz.value.questions);
      if key.None? {
        return Failure(MalformedQuiz);
      }
      var attempt := new QuizAttempt.FromDict(doc);
      var result := attempt.CalculateScore(key.value);
      attempt.CompleteAttempt(now);
      FlaggedKeepsDistinct(doc.answers, key.value);
      Replace((u, d), attempt.ToDict());
      return Success(result);
    }

    /** Overwrite one stored attempt with a document that keeps the invariant. */
    method Replace(k: AttemptKey, doc: AttemptDoc)
      requires Valid() && k in attempts
      requires doc.userId == k.0 && doc.quizDate == k.1 && AttemptInvariant(doc)
      modifies this
      ensures Valid()
      ensures attempts == old(attempts)[k := doc]
      ensures order == old(order) && quizzes == old(quizzes) && connected == old(connected)
    {
      attempts := attempts[k := doc];
    }

    /**
     * `create_quiz`: refuse without a store, refuse a quiz with validation
     * errors (all of them), refuse a date that already has a quiz, changing
     * nothing; otherwise the new quiz becomes the one found for its date.
     */
    method CreateQuiz(d: Quizzes.Date, questions: seq<Question>) returns (r: Result<Quiz, ServiceError>)
      requires Valid()
      modifies this
      ensures Valid()
      ensures !old(connected) ==> r == Failure(NotConnected)
      ensures old(connected) && Validate(NewQuiz(d, questions)) != [] ==>
        r == Failure(ValidationErrors(Validate(NewQuiz(d, questions))))
      ensures old(connected) && Validate(NewQuiz(d, questions)) == [] && d in old(quizzes) ==>
        r == Failure(QuizExists(d))
      ensures r.Failure? ==> unchanged(this)
      ensures r.Success? <==> old(connected) && IsValid(NewQuiz(d, questions)) && d !in old(quizzes)
      ensures r.Success? ==>
        r.value == NewQuiz(d, questions) && WellFormed(r.value) &&
        quizzes == old(quizzes)[d := r.value] && QuizByDate(d) == Some(r.value) &&
        attempts == old(attempts) && order == old(order) && connected == old(connected)
    {
      if !connected {
        return Failure(NotConnected);
      }
      var quiz := NewQuiz(d, questions);
      var errors := Validate(quiz);
      if errors != [] {
        return Failure(ValidationErrors(errors));
      }
      if d in quizzes {
        return Failure(QuizExists(d));
      }
      ValidateEmptyIffWellFormed(quiz);
      quizzes := quizzes[d := quiz];
      return Success(quiz);
    }
  }
}
