/**
 * A user's attempt at one date's quiz (models/quiz_attempt.py): the list of
 * answer records with at most one record per question index, the upsert that
 * keeps it so, scoring against an index-to-option answer key, and the
 * one-way switch to completed.
 *
 * `AttemptDoc` is the stored document (`to_dict`); `QuizAttempt` is the
 * in-memory object the service loads from it, mutates, and writes back.
 */
module Attempts {
  import opened Common

  /** Wall-clock readings (`datetime.utcnow()`), supplied by the caller. */
  type Timestamp = int
  type UserId = string
  type Date = string

  /**
   * A question index as stored in a record: normally an int; a batch-save key
   * that does not convert to an int is stored as the string it was.
   */
  datatype QuestionKey = IntKey(index: int) | StrKey(key: string)

  datatype AnswerRecord = AnswerRecord(
    questionIndex: QuestionKey,
    selectedAnswer: string,
    isCorrect: Option<bool>,
    answeredAt: Timestamp)

  datatype AttemptDoc = AttemptDoc(
    userId: UserId,
    quizDate: Date,
    answers: seq<AnswerRecord>,
    score: int,
    totalQuestions: int,
    percentage: real,
    attemptedAt: Timestamp,
    completedAt: Option<Timestamp>,
    isCompleted: bool,
    autoSaved: bool)

  /** What `calculate_score` returns (the percentage before display rounding). */
  datatype ScoreResult = ScoreResult(score: nat, totalQuestions: nat, percentage: real)

  datatype Progress = Progress(
    answeredQuestions: nat,
    totalQuestions: int,
    progressPercentage: real,
    isCompleted: bool)

  datatype AttemptError =
    | UserIdRequired
    | QuizDateRequired
    | NegativeScore
    | NegativeTotal
    | PercentageOutOfRange

  /** A fresh attempt document, as `QuizAttempt.__init__` leaves it. */
  function NewAttempt(userId: UserId, quizDate: Date, now: Timestamp): (a: AttemptDoc)
    ensures a.userId == userId && a.quizDate == quizDate && a.attemptedAt == now
    ensures a.answers == [] && a.score == 0 && a.totalQuestions == 0 && a.percentage == 0.0
    ensures a.completedAt == None && !a.isCompleted && !a.autoSaved
  {
    AttemptDoc(userId, quizDate, [], 0, 0, 0.0, now, None, false, false)
  }

  // ---------------------------------------------------------------------
  // Looking up and upserting records

  /** At most one record per question index. */
  predicate DistinctIndices(answers: seq<AnswerRecord>) {
    forall i, j :: 0 <= i < j < |answers| ==> answers[i].questionIndex != answers[j].questionIndex
  }

  /** The position of the first record for question `k` (the record `get_answer_for_question` returns). */
  function FindAnswer(answers: seq<AnswerRecord>, k: QuestionKey): (r: Option<nat>)
    ensures r.Some? ==> r.value < |answers| && answers[r.value].questionIndex == k
    ensures r.Some? ==> forall j :: 0 <= j < r.value ==> answers[j].questionIndex != k
    ensures r.None? <==> forall j :: 0 <= j < |answers| ==> answers[j].questionIndex != k
  {
    if |answers| == 0 then None
    else if answers[0].questionIndex == k then Some(0)
    else match FindAnswer(answers[1..], k)
      case None => None
      case Some(j) => Some(j + 1)
  }

  /** Two record lists with the same question indices, position by position, find the same positions. */
  lemma FindAnswerByIndices(a: seq<AnswerRecord>, b: seq<AnswerRecord>, k: QuestionKey)
    requires |a| == |b|
    requires forall j :: 0 <= j < |a| ==> a[j].questionIndex == b[j].questionIndex
    ensures FindAnswer(a, k) == FindAnswer(b, k)
  {
  }

  /**
   * `add_answer`: the first record for `k` gets the new answer, flag and time in
   * place; without one, a new record is appended.
   */
  function Upsert(answers: seq<AnswerRecord>, k: QuestionKey, selected: string,
                  isCorrect: Option<bool>, now: Timestamp): (r: seq<AnswerRecord>)
    ensures |r| == |answers| + (if FindAnswer(answers, k).Some? then 0 else 1)
    ensures forall i :: 0 <= i < |answers| && answers[i].questionIndex != k ==> r[i] == answers[i]
    ensures FindAnswer(r, k).Some?
    ensures r[FindAnswer(r, k).value] == AnswerRecord(k, selected, isCorrect, now)
  {
    var record := AnswerRecord(k, selected, isCorrect, now);
    match FindAnswer(answers, k)
    case Some(j) =>
      var r := answers[j := record];
      assert FindAnswer(r, k) == Some(j) by { FindAnswerByIndices(answers, r, k); }
      r
    case None =>
      var r := answers + [record];
      assert r[|answers|].questionIndex == k;
      assert forall j :: 0 <= j < |answers| ==> r[j] == answers[j];
      r
  }

  /** The upsert never creates a second record for an index. */
  lemma UpsertKeepsDistinct(answers: seq<AnswerRecord>, k: QuestionKey, selected: string,
                            isCorrect: Option<bool>, now: Timestamp)
    requires DistinctIndices(answers)
    ensures DistinctIndices(Upsert(answers, k, selected, isCorrect, now))
  {
  }

  /**
   * Saving the same answer twice leaves what one save (at the later time)
   * leaves: one record, not two.
   */
  lemma {:induction false} UpsertIdempotent(answers: seq<AnswerRecord>, k: QuestionKey, selected: string,
                                            isCorrect: Option<bool>, t1: Timestamp, t2: Timestamp)
    ensures Upsert(Upsert(answers, k, selected, isCorrect, t1), k, selected, isCorrect, t2)
         == Upsert(answers, k, selected, isCorrect, t2)
  {
    var once := Upsert(answers, k, selected, isCorrect, t1);
    var record := AnswerRecord(k, selected, isCorrect, t2);
    match FindAnswer(answers, k)
    case Some(j) =>
      FindAnswerByIndices(answers, once, k);
      assert once[j := record] == answers[j := record];
    case None =>
      assert FindAnswer(once, k) == Some(|answers|);
      assert once[|answers| := record] == answers + [record];
  }

  /** After an upsert for `k`, lookups of every other index find what they found before. */
  lemma UpsertOtherIndex(answers: seq<AnswerRecord>, k: QuestionKey, selected: string,
                         isCorrect: Option<bool>, now: Timestamp, other: QuestionKey)
    requires other != k
    ensures var r := Upsert(answers, k, selected, isCorrect, now);
      FindAnswer(r, other) == FindAnswer(answers, other) &&
      (FindAnswer(r, other).Some? ==> r[FindAnswer(r, other).value] == answers[FindAnswer(answers, other).value])
  {
    var r := Upsert(answers, k, selected, isCorrect, now);
    match FindAnswer(answers, k)
    case Some(j) =>
      FindAnswerByIndices(answers, r, other);
    case None =>
      assert r[..|answers|] == answers;
  }

  // ---------------------------------------------------------------------
  // Scoring

  /** The record for question `i` exists and selects the correct option. */
  predicate Matches(answers: seq<AnswerRecord>, i: int, correct: string) {
    var pos := FindAnswer(answers, IntKey(i));
    pos.Some? && answers[pos.value].selectedAnswer == correct
  }

  /** The key indices answered correctly. */
  function CorrectIndices(answers: seq<AnswerRecord>, key: map<int, string>): (c: set<int>)
    ensures c <= key.Keys
    ensures forall i :: i in c <==> i in key && Matches(answers, i, key[i])
  {
    set i | i in key && Matches(answers, i, key[i])
  }

  /** `score / total * 100`, or 0 when there are no questions. */
  function Percentage(score: int, total: int): (p: real)
    ensures total > 0 ==> p * total as real == score as real * 100.0
    ensures total <= 0 ==> p == 0.0
  {
    if total > 0 then
      var q := score as real / total as real;
      assert q * total as real == score as real;
      assert q * 100.0 * total as real == q * total as real * 100.0;
      q * 100.0
    else 0.0
  }

  /** A score between 0 and the total gives a percentage between 0 and 100. */
  lemma PercentageBounds(score: int, total: int)
    requires 0 <= score <= total
    ensures 0.0 <= Percentage(score, total) <= 100.0
    ensures score == total && total > 0 ==> Percentage(score, total) == 100.0
  {
    if total > 0 {
      var q := score as real / total as real;
      assert q * total as real == score as real;
      assert 0.0 <= q <= 1.0;
    }
  }

  /** What `calculate_score` computes for a set of records and an answer key. */
  function Scored(answers: seq<AnswerRecord>, key: map<int, string>): (r: ScoreResult)
    ensures r.totalQuestions == |key|
    ensures r.score == |CorrectIndices(answers, key)| <= r.totalQuestions
    ensures 0.0 <= r.percentage <= 100.0
    ensures r.percentage == Percentage(r.score, r.totalQuestions)
    ensures r.totalQuestions == 0 ==> r.percentage == 0.0
  {
    var c := CorrectIndices(answers, key);
    SubsetCard(c, key.Keys);
    PercentageBounds(|c|, |key|);
    ScoreResult(|c|, |key|, Percentage(|c|, |key|))
  }

  /** Every question of the key answered correctly: full marks, 100% when there is a question. */
  lemma AllCorrectScoresFull(answers: seq<AnswerRecord>, key: map<int, string>)
    requires forall i :: i in key ==> Matches(answers, i, key[i])
    ensures Scored(answers, key).score == |key|
    ensures |key| > 0 ==> Scored(answers, key).percentage == 100.0
  {
    assert CorrectIndices(answers, key) == key.Keys;
    PercentageBounds(|key|, |key|);
  }

  /** No answers at all: score 0 and percentage 0, whatever the key. */
  lemma NoAnswersScoreZero(key: map<int, string>)
    ensures Scored([], key).score == 0 && Scored([], key).percentage == 0.0
  {
    assert CorrectIndices([], key) == {};
  }

  /**
   * The record at `j` after scoring: the first record for a key index gets
   * `is_correct` set to whether it matches; every other record is untouched.
   */
  function FlagRecord(answers: seq<AnswerRecord>, key: map<int, string>, j: nat): AnswerRecord
    requires j < |answers|
  {
    var r := answers[j];
    if r.questionIndex.IntKey? && r.questionIndex.index in key && FindAnswer(answers, r.questionIndex) == Some(j)
    then r.(isCorrect := Some(r.selectedAnswer == key[r.questionIndex.index]))
    else r
  }

  /** The records after `calculate_score` has written its flags. */
  function Flagged(answers: seq<AnswerRecord>, key: map<int, string>): (r: seq<AnswerRecord>)
    ensures |r| == |answers|
    ensures forall j :: 0 <= j < |r| ==>
      var k := answers[j].questionIndex;
      if k.IntKey? && k.index in key && FindAnswer(answers, k) == Some(j)
      then r[j] == answers[j].(isCorrect := Some(answers[j].selectedAnswer == key[k.index]))
      else r[j] == answers[j]
    ensures forall j :: 0 <= j < |r| ==> r[j] == FlagRecord(answers, key, j)
  {
    seq(|answers|, j requires 0 <= j < |answers| => FlagRecord(answers, key, j))
  }

  /** The records once the key indices in `done` have been scored. */
  ghost function PartiallyFlagged(answers: seq<AnswerRecord>, key: map<int, string>, done: set<int>): (r: seq<AnswerRecord>)
    ensures |r| == |answers|
  {
    seq(|answers|, j requires 0 <= j < |answers| =>
      if answers[j].questionIndex.IntKey? && answers[j].questionIndex.index in done
      then FlagRecord(answers, key, j) else answers[j])
  }

  /** Once every key index is scored, the records are the flagged ones. */
  lemma AllFlagged(answers: seq<AnswerRecord>, key: map<int, string>)
    ensures PartiallyFlagged(answers, key, key.Keys) == Flagged(answers, key)
  {
    var p, f := PartiallyFlagged(answers, key, key.Keys), Flagged(answers, key);
    forall j | 0 <= j < |answers|
      ensures p[j] == f[j]
    {
    }
  }

  /**
   * Scoring key index `i` against the records `p` scored so far: the first
   * record for `i` is found at the same place as in the unscored records,
   * it alone is flagged, and a match adds one point.
   */
  lemma FlagStep(answers: seq<AnswerRecord>, key: map<int, string>, done: set<int>, i: int,
                 p: seq<AnswerRecord>, pos: Option<nat>)
    requires i in key && i !in done
    requires p == PartiallyFlagged(answers, key, done) && pos == FindAnswer(p, IntKey(i))
    ensures pos == FindAnswer(answers, IntKey(i))
    ensures pos.Some? ==> pos.value < |p| && p[pos.value].selectedAnswer == answers[pos.value].selectedAnswer
    ensures PartiallyFlagged(answers, key, done + {i}) ==
      if pos.Some? then p[pos.value := p[pos.value].(isCorrect := Some(p[pos.value].selectedAnswer == key[i]))] else p
    ensures |CorrectIndices(answers, key) * (done + {i})| ==
      |CorrectIndices(answers, key) * done| + if pos.Some? && p[pos.value].selectedAnswer == key[i] then 1 else 0
  {
    PartiallyFlaggedKeepsSelections(answers, key, done);
    FindAnswerByIndices(answers, p, IntKey(i));
    FlagStepRecords(answers, key, done, i);
    FlagStepCount(answers, key, done, i);
  }

  /** Scoring changes flags only. */
  lemma PartiallyFlaggedKeepsSelections(answers: seq<AnswerRecord>, key: map<int, string>, done: set<int>)
    ensures var p := PartiallyFlagged(answers, key, done);
      forall j :: 0 <= j < |p| ==>
        p[j].questionIndex == answers[j].questionIndex && p[j].selectedAnswer == answers[j].selectedAnswer
  {
  }

  lemma FlagStepCount(answers: seq<AnswerRecord>, key: map<int, string>, done: set<int>, i: int)
    requires i in key && i !in done
    ensures |CorrectIndices(answers, key) * (done + {i})| ==
      |CorrectIndices(answers, key) * done| + if Matches(answers, i, key[i]) then 1 else 0
  {
    var c := CorrectIndices(answers, key);
    if Matches(answers, i, key[i]) {
      assert c * (done + {i}) == (c * done) + {i};
    } else {
      assert c * (done + {i}) == c * done;
    }
  }

  lemma FlagStepRecords(answers: seq<AnswerRecord>, key: map<int, string>, done: set<int>, i: int)
    requires i in key && i !in done
    ensures var p := PartiallyFlagged(answers, key, done);
      var pos := FindAnswer(answers, IntKey(i));
      PartiallyFlagged(answers, key, done + {i}) ==
        (if pos.Some? then p[pos.value := p[pos.value].(isCorrect := Some(answers[pos.value].selectedAnswer == key[i]))]
         else p)
  {
    var p := PartiallyFlagged(answers, key, done);
    var p' := PartiallyFlagged(answers, key, done + {i});
    var pos := FindAnswer(answers, IntKey(i));
    var q := if pos.Some? then p[pos.value := p[pos.value].(isCorrect := Some(answers[pos.value].selectedAnswer == key[i]))] else p;
    forall j | 0 <= j < |answers|
      ensures p'[j] == q[j]
    {
      if answers[j].questionIndex == IntKey(i) {
        assert p[j] == answers[j];
        if pos == Some(j) {
          assert p'[j] == FlagRecord(answers, key, j);
        } else {
          assert FlagRecord(answers, key, j) == answers[j];
        }
      } else {
        assert pos.Some? ==> pos.value != j;
      }
    }
  }

  /**
   * Scoring changes only flags: indices, selections and times stay, and a
   * record whose index is not a key index keeps its flag too.
   */
  lemma FlaggedChangesOnlyKeyFlags(answers: seq<AnswerRecord>, key: map<int, string>)
    ensures var r := Flagged(answers, key);
      forall j :: 0 <= j < |r| ==>
        r[j].questionIndex == answers[j].questionIndex &&
        r[j].selectedAnswer == answers[j].selectedAnswer &&
        r[j].answeredAt == answers[j].answeredAt &&
        (!(answers[j].questionIndex.IntKey? && answers[j].questionIndex.index in key) ==> r[j] == answers[j])
  {
  }

  /**
   * With one record per index, every record for a key index ends up flagged
   * correct exactly when it counted towards the score.
   */
  lemma FlagsAgreeWithScore(answers: seq<AnswerRecord>, key: map<int, string>, j: nat)
    requires DistinctIndices(answers)
    requires j < |answers| && answers[j].questionIndex.IntKey? && answers[j].questionIndex.index in key
    ensures var i := answers[j].questionIndex.index;
      Flagged(answers, key)[j].isCorrect == Some(i in CorrectIndices(answers, key))
  {
    assert FindAnswer(answers, answers[j].questionIndex) == Some(j);
  }

  /** Flags do not move records or change selections, so flagged records keep the same score. */
  lemma FlaggedKeepsScore(answers: seq<AnswerRecord>, key: map<int, string>)
    ensures Scored(Flagged(answers, key), key) == Scored(answers, key)
  {
    var r := Flagged(answers, key);
    forall i | i in key
      ensures Matches(r, i, key[i]) == Matches(answers, i, key[i])
    {
      FindAnswerByIndices(answers, r, IntKey(i));
    }
    assert CorrectIndices(r, key) == CorrectIndices(answers, key);
  }

  // ---------------------------------------------------------------------
  // Read-only views of an attempt

  /** `get_progress`. */
  function ProgressOf(a: AttemptDoc): (p: Progress)
    ensures p.answeredQuestions == |a.answers| && p.totalQuestions == a.totalQuestions
    ensures p.isCompleted == a.isCompleted
    ensures p.progressPercentage == Percentage(|a.answers|, a.totalQuestions)
    ensures a.totalQuestions <= 0 ==> p.progressPercentage == 0.0
  {
    Progress(|a.answers|, a.totalQuestions, Percentage(|a.answers|, a.totalQuestions), a.isCompleted)
  }

  /** The question indices the records use, as integers, when all are integers. */
  function IntIndices(answers: seq<AnswerRecord>): set<int> {
    set r | r in answers && r.questionIndex.IntKey? :: r.questionIndex.index
  }

  lemma {:induction false} IntIndicesCard(answers: seq<AnswerRecord>)
    requires DistinctIndices(answers)
    requires forall j :: 0 <= j < |answers| ==> answers[j].questionIndex.IntKey?
    ensures |IntIndices(answers)| == |answers|
  {
    if |answers| > 0 {
      var rest := answers[1..];
      IntIndicesCard(rest);
      assert IntIndices(answers) == {answers[0].questionIndex.index} + IntIndices(rest);
    }
  }

  /**
   * When every record answers a distinct question of the quiz, at most every
   * question is answered and progress stays between 0 and 100.
   */
  lemma ProgressBounded(a: AttemptDoc)
    requires a.totalQuestions >= 0 && DistinctIndices(a.answers)
    requires forall j :: 0 <= j < |a.answers| ==>
      a.answers[j].questionIndex.IntKey? && 0 <= a.answers[j].questionIndex.index < a.totalQuestions
    ensures ProgressOf(a).answeredQuestions <= a.totalQuestions
    ensures 0.0 <= ProgressOf(a).progressPercentage <= 100.0
  {
    IntIndicesCard(a.answers);
    if a.totalQuestions > 0 {
      var range := Range(a.totalQuestions);
      DistinctElementsBound(range);
      forall v | v in IntIndices(a.answers)
        ensures v in range
      {
        var r :| r in a.answers && r.questionIndex.IntKey? && r.questionIndex.index == v;
        assert range[v] == v;
      }
      SubsetCard(IntIndices(a.answers), set x <- range);
    }
    PercentageBounds(|a.answers|, if a.totalQuestions > 0 then a.totalQuestions else |a.answers|);
  }

  /** `validate`: the attempt's field checks, in the order they are made. */
  function ValidateAttempt(a: AttemptDoc): (errs: seq<AttemptError>)
    ensures errs == [] <==>
      a.userId != "" && a.quizDate != "" && a.score >= 0 && a.totalQuestions >= 0 &&
      0.0 <= a.percentage <= 100.0
    ensures UserIdRequired in errs <==> a.userId == ""
    ensures QuizDateRequired in errs <==> a.quizDate == ""
    ensures NegativeScore in errs <==> a.score < 0
    ensures NegativeTotal in errs <==> a.totalQuestions < 0
    ensures PercentageOutOfRange in errs <==> a.percentage < 0.0 || a.percentage > 100.0
  {
    (if a.userId == "" then [UserIdRequired] else []) +
    (if a.quizDate == "" then [QuizDateRequired] else []) +
    (if a.score < 0 then [NegativeScore] else []) +
    (if a.totalQuestions < 0 then [NegativeTotal] else []) +
    (if a.percentage < 0.0 || a.percentage > 100.0 then [PercentageOutOfRange] else [])
  }

  /** `is_valid`: no validation error. */
  predicate IsValidAttempt(a: AttemptDoc)
    ensures IsValidAttempt(a) <==>
      a.userId != "" && a.quizDate != "" && a.score >= 0 && a.totalQuestions >= 0 &&
      0.0 <= a.percentage <= 100.0
  {
    |ValidateAttempt(a)| == 0
  }

  /** Scoring any records against any key leaves an attempt that passes the numeric checks. */
  lemma ScoredAttemptValid(a: AttemptDoc, key: map<int, string>)
    requires a.userId != "" && a.quizDate != ""
    ensures var s := Scored(a.answers, key);
      IsValidAttempt(a.(answers := Flagged(a.answers, key), score := s.score,
                        totalQuestions := s.totalQuestions, percentage := s.percentage))
  {
  }

  /**
   * The loop of `calculate_score`: for each key index, the first record for it
   * (if any) is flagged, and a match adds a point. Key order does not matter.
   */
  method ScoreRecords(answers: seq<AnswerRecord>, key: map<int, string>) returns (records: seq<AnswerRecord>, count: nat)
    ensures records == Flagged(answers, key)
    ensures count == Scored(answers, key).score
  {
    records := answers;
    count := 0;
    var remaining := key.Keys;
    ghost var done: set<int> := {};
    while remaining != {}
      invariant remaining <= key.Keys && done == key.Keys - remaining
      invariant records == PartiallyFlagged(answers, key, done)
      invariant count == |CorrectIndices(answers, key) * done|
      decreases remaining
    {
      var i :| i in remaining;
      records, count := ScoreIndex(answers, key, done, i, records, count);
      MoveOne(key.Keys, remaining, done, i);
      remaining := remaining - {i};
      done := done + {i};
    }
    AllCounted(answers, key, done);
    AllFlagged(answers, key);
  }

  /** Moving one index from the remaining ones to the scored ones. */
  lemma MoveOne(all: set<int>, remaining: set<int>, done: set<int>, i: int)
    requires remaining <= all && done == all - remaining && i in remaining
    ensures remaining - {i} <= all && done + {i} == all - (remaining - {i})
    ensures remaining - {i} < remaining
  {
  }

  /** With every key index scored, the count is the score. */
  lemma AllCounted(answers: seq<AnswerRecord>, key: map<int, string>, done: set<int>)
    requires done == key.Keys
    ensures |CorrectIndices(answers, key) * done| == Scored(answers, key).score
  {
    assert CorrectIndices(answers, key) * done == CorrectIndices(answers, key);
  }

  /** One round of that loop: key index `i` against the records scored so far. */
  method ScoreIndex(answers: seq<AnswerRecord>, key: map<int, string>, ghost done: set<int>, i: int,
                    records: seq<AnswerRecord>, count: nat) returns (records': seq<AnswerRecord>, count': nat)
    requires i in key && i !in done
    requires records == PartiallyFlagged(answers, key, done) && count == |CorrectIndices(answers, key) * done|
    ensures records' == PartiallyFlagged(answers, key, done + {i})
    ensures count' == |CorrectIndices(answers, key) * (done + {i})|
  {
    var pos := FindAnswer(records, IntKey(i));
    FlagStep(answers, key, done, i, records, pos);
    records', count' := records, count;
    if pos.Some? && records[pos.value].selectedAnswer == key[i] {
      count' := count + 1;
      records' := records[pos.value := records[pos.value].(isCorrect := Some(true))];
    } else if pos.Some? {
      records' := records[pos.value := records[pos.value].(isCorrect := Some(false))];
    }
  }

  // ---------------------------------------------------------------------
  // The in-memory object

  class QuizAttempt {
    var userId: UserId
    var quizDate: Date
    var answers: seq<AnswerRecord>
    var score: int
    var totalQuestions: int
    var percentage: real
    var attemptedAt: Timestamp
    var completedAt: Option<Timestamp>
    var isCompleted: bool
    var autoSaved: bool

    /** `to_dict`. */
    function ToDict(): AttemptDoc
      reads this
    {
      AttemptDoc(userId, quizDate, answers, score, totalQuestions, percentage,
                 attemptedAt, completedAt, isCompleted, autoSaved)
    }

    /** `__init__`: no score, no total, not completed, not auto-saved. */
    constructor (userId: UserId, quizDate: Date, now: Timestamp, answers: seq<AnswerRecord> := [])
      ensures ToDict() == NewAttempt(userId, quizDate, now).(answers := answers)
    {
      this.userId := userId;
      this.quizDate := quizDate;
      this.answers := answers;
      score := 0;
      totalQuestions := 0;
      percentage := 0.0;
      attemptedAt := now;
      completedAt := None;
      isCompleted := false;
      autoSaved := false;
    }

    /** `from_dict`: loading a stored document and writing it back gives the same document. */
    constructor FromDict(doc: AttemptDoc)
      ensures ToDict() == doc
    {
      userId := doc.userId;
      quizDate := doc.quizDate;
      answers := doc.answers;
      score := doc.score;
      totalQuestions := doc.totalQuestions;
      percentage := doc.percentage;
      attemptedAt := doc.attemptedAt;
      completedAt := doc.completedAt;
      isCompleted := doc.isCompleted;
      autoSaved := doc.autoSaved;
    }

    /** `get_answer_for_question`: the position of the record it returns, scanning from the front. */
    method GetAnswerForQuestion(k: QuestionKey) returns (pos: Option<nat>)
      ensures pos == FindAnswer(answers, k)
    {
      var i := 0;
      while i < |answers|
        invariant 0 <= i <= |answers|
        invariant forall j :: 0 <= j < i ==> answers[j].questionIndex != k
      {
        if answers[i].questionIndex == k {
          return Some(i);
        }
        i := i + 1;
      }
      return None;
    }

    /** `add_answer`: update the record for `k` in place, or append one. */
    method AddAnswer(k: QuestionKey, selected: string, isCorrect: Option<bool>, now: Timestamp)
      modifies this
      ensures ToDict() == old(ToDict()).(answers := Upsert(old(answers), k, selected, isCorrect, now))
    {
      var pos := GetAnswerForQuestion(k);
      var record := AnswerRecord(k, selected, isCorrect, now);
      if pos.Some? {
        answers := answers[pos.value := record];
      } else {
        answers := answers + [record];
      }
    }

    /**
     * `calculate_score`: count the key indices answered correctly, flag the
     * records of key indices, and set score, total and percentage.
     */
    method CalculateScore(key: map<int, string>) returns (result: ScoreResult)
      modifies this
      ensures result == Scored(old(answers), key)
      ensures ToDict() == old(ToDict()).(answers := Flagged(old(answers), key), score := result.score,
                                         totalQuestions := result.totalQuestions, percentage := result.percentage)
    {
      var records, count := ScoreRecords(answers, key);
      answers := records;
      score := count;
      totalQuestions := |key|;
      percentage := if totalQuestions > 0 then score as real / totalQuestions as real * 100.0 else 0.0;
      result := ScoreResult(count, |key|, percentage);
    }

    /**
     * `get_answers_summary`: a copy of every record, field by field, in order;
     * since every stored record has all four fields, the copy equals the records.
     */
    method GetAnswersSummary() returns (summary: seq<AnswerRecord>)
      ensures summary == answers
    {
      summary := [];
      var i := 0;
      while i < |answers|
        invariant 0 <= i <= |answers|
        invariant summary == answers[..i]
      {
        var a := answers[i];
        summary := summary + [AnswerRecord(a.questionIndex, a.selectedAnswer, a.isCorrect, a.answeredAt)];
        i := i + 1;
      }
    }

    /** `complete_attempt`: the switch to completed, stamped with the time. */
    method CompleteAttempt(now: Timestamp)
      modifies this
      ensures ToDict() == old(ToDict()).(isCompleted := true, completedAt := Some(now))
    {
      isCompleted := true;
      completedAt := Some(now);
    }
  }
}
