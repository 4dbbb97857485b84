/**
 * The parts of the quiz routes (app/routes/quiz.py) that carry logic of their
 * own: the auto-save of a batch of answers, the guard of the single-answer
 * route, and the map of saved answers the quiz page is shown with. Sessions,
 * authentication and the HTTP responses themselves are not modelled.
 */
module QuizRoutes {
  import opened Common
  import opened Attempts
  import opened QuizService

  /** The `answers` member of a save-progress request: not a JSON object, or its entries. */
  datatype Payload = NotADict | Entries(entries: seq<(string, Option<string>)>)

  datatype RouteError = InvalidPayload | MissingIndexOrAnswer | Service(error: ServiceError)

  /** "No answers to save", or "Progress saved (n answers)". */
  datatype SaveOutcome = NothingToSave | Saved(count: nat)

  // ---------------------------------------------------------------------
  // save_progress

  /** `int(k)` when the key converts, else the key itself. */
  function KeyOf(k: string, toInt: string -> Option<int>): (q: QuestionKey)
    ensures toInt(k).Some? ==> q == IntKey(toInt(k).value)
    ensures toInt(k).None? ==> q == StrKey(k)
  {
    match toInt(k)
    case Some(i) => IntKey(i)
    case None => StrKey(k)
  }

  /** The number of entries with a value (`None` values are skipped). */
  function WithValues(entries: seq<(string, Option<string>)>): (n: nat)
    ensures n <= |entries|
    ensures n == 0 <==> forall i :: 0 <= i < |entries| ==> entries[i].1.None?
  {
    if |entries| == 0 then 0
    else WithValues(entries[..|entries| - 1]) + (if entries[|entries| - 1].1.Some? then 1 else 0)
  }

  /** The records after upserting every entry with a value, in the order of the entries. */
  function UpsertAll(answers: seq<AnswerRecord>, entries: seq<(string, Option<string>)>,
                     toInt: string -> Option<int>, now: Timestamp): (r: seq<AnswerRecord>)
    ensures DistinctIndices(answers) ==> DistinctIndices(r)
  {
    if |entries| == 0 then answers
    else
      var before := UpsertAll(answers, entries[..|entries| - 1], toInt, now);
      var (k, v) := entries[|entries| - 1];
      if v.None? then before
      else
        var r := Upsert(before, KeyOf(k, toInt), v.value, None, now);
        assert DistinctIndices(before) ==> DistinctIndices(r) by {
          if DistinctIndices(before) {
            UpsertKeepsDistinct(before, KeyOf(k, toInt), v.value, None, now);
          }
        }
        r
  }

  /** An open attempt after a batch: the records upserted, and marked auto-saved once anything was saved. */
  function AfterBatch(before: AttemptDoc, entries: seq<(string, Option<string>)>,
                      toInt: string -> Option<int>, now: Timestamp): AttemptDoc
  {
    before.(answers := UpsertAll(before.answers, entries, toInt, now),
            autoSaved := before.autoSaved || WithValues(entries) > 0)
  }

  /** One more entry: skipped without a value, else one more upsert and the auto-saved mark. */
  lemma AfterBatchStep(before: AttemptDoc, entries: seq<(string, Option<string>)>, i: nat,
                       toInt: string -> Option<int>, now: Timestamp)
    requires i < |entries|
    ensures var prev := AfterBatch(before, entries[..i], toInt, now);
      var (k, v) := entries[i];
      AfterBatch(before, entries[..i + 1], toInt, now) ==
        if v.None? then prev else SaveStep(prev, k, v.value, toInt, now)
  {
    assert entries[..i + 1][..i] == entries[..i];
  }

  /** Entries without a value leave the records as they are. */
  lemma {:induction false} UpsertAllSkipsNulls(answers: seq<AnswerRecord>, entries: seq<(string, Option<string>)>,
                                               toInt: string -> Option<int>, now: Timestamp)
    requires forall i :: 0 <= i < |entries| ==> entries[i].1.None?
    ensures UpsertAll(answers, entries, toInt, now) == answers
  {
    if |entries| > 0 {
      UpsertAllSkipsNulls(answers, entries[..|entries| - 1], toInt, now);
    }
  }

  /**
   * After the batch, the record for the key of the last entry with a value is
   * that entry's answer.
   */
  lemma UpsertAllLastWins(answers: seq<AnswerRecord>, entries: seq<(string, Option<string>)>,
                          toInt: string -> Option<int>, now: Timestamp)
    requires |entries| > 0 && entries[|entries| - 1].1.Some?
    ensures var r := UpsertAll(answers, entries, toInt, now);
      var (k, v) := entries[|entries| - 1];
      FindAnswer(r, KeyOf(k, toInt)).Some? &&
      r[FindAnswer(r, KeyOf(k, toInt)).value] == AnswerRecord(KeyOf(k, toInt), v.value, None, now)
  {
  }

  /** The user's attempt for the date is stored and still open, and the store is up. */
  predicate IsOpen(store: QuizStore, u: UserId, d: Date)
    reads store
  {
    store.connected && (u, d) in store.attempts && !store.attempts[(u, d)].isCompleted
  }

  /** One saved entry: its answer upserted, and the attempt marked auto-saved. */
  function SaveStep(doc: AttemptDoc, k: string, selected: string, toInt: string -> Option<int>, now: Timestamp): AttemptDoc
  {
    doc.(answers := Upsert(doc.answers, KeyOf(k, toInt), selected, None, now), autoSaved := true)
  }

  /** One entry of the batch as it reaches the attempt: skipped without a value, else saved. */
  function EntryStep(doc: AttemptDoc, entry: (string, Option<string>), toInt: string -> Option<int>, now: Timestamp): AttemptDoc
  {
    if entry.1.Some? then SaveStep(doc, entry.0, entry.1.value, toInt, now) else doc
  }

  /**
   * One entry of the batch: skipped without a value, else handed to the
   * service. `doc` is the attempt as the earlier entries left it (stored
   * under `(u, d)` exactly when the attempt is `open`); the save succeeds
   * exactly when there is a value and the attempt is open.
   */
  method SaveEntry(store: QuizStore, u: UserId, d: Date, entry: (string, Option<string>),
                   toInt: string -> Option<int>, now: Timestamp,
                   ghost attempts0: map<AttemptKey, AttemptDoc>, ghost open: bool, ghost doc: AttemptDoc) returns (ok: bool)
    requires store.Valid() && IsOpen(store, u, d) == open
    requires store.attempts == if open then attempts0[(u, d) := doc] else attempts0
    modifies store
    ensures store.Valid() && IsOpen(store, u, d) == open
    ensures store.connected == old(store.connected) && store.quizzes == old(store.quizzes)
    ensures store.order == old(store.order)
    ensures ok <==> entry.1.Some? && open
    ensures store.attempts == if open then attempts0[(u, d) := EntryStep(doc, entry, toInt, now)] else attempts0
  {
    ok := false;
    if entry.1.Some? {
      var result := store.SaveAnswer(u, d, KeyOf(entry.0, toInt), entry.1.value, now);
      ok := result.Success?;
      if ok {
        UpdateTwice(attempts0, (u, d), doc, SaveStep(doc, entry.0, entry.1.value, toInt, now));
      }
    }
  }

  /** What the batch has done after its first `i` entries, for an open or a closed attempt. */
  predicate BatchSoFar(before: AttemptDoc, entries: seq<(string, Option<string>)>, i: nat,
                       toInt: string -> Option<int>, now: Timestamp, open: bool, doc: AttemptDoc, saved: nat)
    requires i <= |entries|
  {
    doc == AfterBatch(before, entries[..i], toInt, now) &&
    saved == if open then WithValues(entries[..i]) else 0
  }

  /** One more entry of the batch. */
  lemma BatchSoFarStep(before: AttemptDoc, entries: seq<(string, Option<string>)>, i: nat,
                       toInt: string -> Option<int>, now: Timestamp, open: bool, doc: AttemptDoc, saved: nat, ok: bool)
    requires i < |entries| && BatchSoFar(before, entries, i, toInt, now, open, doc, saved)
    requires ok <==> entries[i].1.Some? && open
    ensures BatchSoFar(before, entries, i + 1, toInt, now, open, EntryStep(doc, entries[i], toInt, now),
                       if ok then saved + 1 else saved)
  {
    AfterBatchStep(before, entries, i, toInt, now);
    assert entries[..i + 1][..i] == entries[..i];
  }

  lemma BatchSoFarDone(before: AttemptDoc, entries: seq<(string, Option<string>)>,
                       toInt: string -> Option<int>, now: Timestamp, open: bool, doc: AttemptDoc, saved: nat)
    requires BatchSoFar(before, entries, |entries|, toInt, now, open, doc, saved)
    ensures doc == AfterBatch(before, entries, toInt, now)
    ensures saved == if open then WithValues(entries) else 0
  {
    assert entries[..|entries|] == entries;
  }

  /**
   * The loop of the save-progress route: every entry with a value goes to
   * the service, and the successful saves are counted. While the attempt is
   * open every such save succeeds, otherwise none does.
   */
  method SaveEntries(store: QuizStore, u: UserId, d: Date, entries: seq<(string, Option<string>)>,
                     toInt: string -> Option<int>, now: Timestamp) returns (saved: nat)
    requires store.Valid()
    modifies store
    ensures store.Valid()
    ensures saved == if old(IsOpen(store, u, d)) then WithValues(entries) else 0
    ensures store.connected == old(store.connected) && store.quizzes == old(store.quizzes)
    ensures store.order == old(store.order)
    ensures store.attempts == if old(IsOpen(store, u, d))
      then old(store.attempts)[(u, d) := AfterBatch(old(store.attempts)[(u, d)], entries, toInt, now)]
      else old(store.attempts)
  {
    ghost var open := IsOpen(store, u, d);
    ghost var attempts0 := store.attempts;
    ghost var before := if open then store.attempts[(u, d)] else NewAttempt(u, d, now);
    ghost var doc := before;
    saved := 0;
    var i := 0;
    assert entries[..0] == [];
    while i < |entries|
      invariant 0 <= i <= |entries|
      invariant store.Valid() && IsOpen(store, u, d) == open
      invariant store.connected == old(store.connected) && store.quizzes == old(store.quizzes)
      invariant store.order == old(store.order)
      invariant BatchSoFar(before, entries, i, toInt, now, open, doc, saved)
      // the same, spelled out for the verifier
      invariant doc == AfterBatch(before, entries[..i], toInt, now)
      invariant saved == if open then WithValues(entries[..i]) else 0
      invariant store.attempts == if open then attempts0[(u, d) := doc] else attempts0
    {
      var ok := SaveEntry(store, u, d, entries[i], toInt, now, attempts0, open, doc);
      BatchSoFarStep(before, entries, i, toInt, now, open, doc, saved, ok);
      saved := if ok then saved + 1 else saved;
      doc := EntryStep(doc, entries[i], toInt, now);
      i := i + 1;
    }
    BatchSoFarDone(before, entries, toInt, now, open, doc, saved);
  }

  /**
   * The save-progress route: refuse a payload that is not an object; report
   * nothing to save for an empty one; otherwise save the entries and report
   * how many were saved.
   */
  method SaveProgress(store: QuizStore, u: UserId, d: Date, payload: Payload,
                      toInt: string -> Option<int>, now: Timestamp) returns (r: Result<SaveOutcome, RouteError>)
    requires store.Valid()
    modifies store
    ensures store.Valid()
    ensures payload.NotADict? ==> r == Failure(InvalidPayload) && unchanged(store)
    ensures payload == Entries([]) ==> r == Success(NothingToSave) && unchanged(store)
    ensures payload.Entries? && |payload.entries| > 0 ==>
      var open := old(IsOpen(store, u, d));
      r == Success(Saved(if open then WithValues(payload.entries) else 0)) &&
      store.connected == old(store.connected) && store.quizzes == old(store.quizzes) && store.order == old(store.order) &&
      store.attempts == if open then old(store.attempts)[(u, d) := AfterBatch(old(store.attempts)[(u, d)], payload.entries, toInt, now)]
                        else old(store.attempts)
  {
    if payload.NotADict? {
      return Failure(InvalidPayload);
    }
    if |payload.entries| == 0 {
      return Success(NothingToSave);
    }
    var saved := SaveEntries(store, u, d, payload.entries, toInt, now);
    return Success(Saved(saved));
  }

  // ---------------------------------------------------------------------
  // save_answer (the single-answer route)

  /**
   * The single-answer route: a request without a question index or without
   * an answer is refused before the service is asked; otherwise the
   * service's answer is passed on.
   */
  method SaveAnswerRoute(store: QuizStore, u: UserId, d: Date, questionIndex: Option<QuestionKey>,
                         selected: Option<string>, now: Timestamp) returns (r: Result<(), RouteError>)
    requires store.Valid()
    modifies store
    ensures store.Valid()
    ensures questionIndex.None? || selected.None? ==> r == Failure(MissingIndexOrAnswer) && unchanged(store)
    ensures questionIndex.Some? && selected.Some? && !old(store.connected) ==>
      r == Failure(Service(NotConnected))
    ensures questionIndex.Some? && selected.Some? && old(store.connected) && (u, d) !in old(store.attempts) ==>
      r == Failure(Service(NoActiveAttempt))
    ensures questionIndex.Some? && selected.Some? && old(store.connected) && (u, d) in old(store.attempts) &&
            old(store.attempts)[(u, d)].isCompleted ==>
      r == Failure(Service(QuizAlreadyCompleted))
    ensures r.Success? <==> (questionIndex.Some? && selected.Some? &&
      old(store.connected) && (u, d) in old(store.attempts) && !old(store.attempts)[(u, d)].isCompleted)
    ensures r.Failure? ==> unchanged(store)
    ensures r.Success? ==>
      var before := old(store.attempts)[(u, d)];
      store.attempts == old(store.attempts)[(u, d) := before.(answers := Upsert(before.answers, questionIndex.value,
                                                                                selected.value, None, now),
                                                              autoSaved := true)] &&
      store.order == old(store.order) && store.quizzes == old(store.quizzes) && store.connected == old(store.connected)
  {
    if questionIndex.None? || selected.None? {
      return Failure(MissingIndexOrAnswer);
    }
    var result := store.SaveAnswer(u, d, questionIndex.value, selected.value, now);
    if result.Failure? {
      return Failure(Service(result.error));
    }
    return Success(());
  }

  // ---------------------------------------------------------------------
  // take_quiz: the answers shown on the quiz page

  /** `{a['question_index']: a['selected_answer'] for a in answers}`: a later record overwrites an earlier one. */
  function AnswerMap(answers: seq<AnswerRecord>): (m: map<QuestionKey, string>)
    ensures forall k :: k in m <==> FindAnswer(answers, k).Some?
  {
    if |answers| == 0 then map[]
    else
      var prefix := answers[..|answers| - 1];
      var last := answers[|answers| - 1];
      assert forall k :: FindAnswer(prefix, k).Some? || k == last.questionIndex <==> FindAnswer(answers, k).Some? by {
        forall k ensures FindAnswer(prefix, k).Some? || k == last.questionIndex <==> FindAnswer(answers, k).Some? {
          if FindAnswer(prefix, k).Some? {
            assert answers[FindAnswer(prefix, k).value] == prefix[FindAnswer(prefix, k).value];
          }
          if FindAnswer(answers, k).Some? && k != last.questionIndex {
            assert prefix[FindAnswer(answers, k).value] == answers[FindAnswer(answers, k).value];
          }
        }
      }
      AnswerMap(prefix)[last.questionIndex := last.selectedAnswer]
  }

  /** With one record per index, the page shows each record's answer under its index. */
  lemma {:induction false} AnswerMapShowsRecords(answers: seq<AnswerRecord>)
    requires DistinctIndices(answers)
    ensures forall k :: k in AnswerMap(answers) ==>
      AnswerMap(answers)[k] == answers[FindAnswer(answers, k).value].selectedAnswer
  {
    if |answers| > 0 {
      var prefix := answers[..|answers| - 1];
      var last := answers[|answers| - 1];
      AnswerMapShowsRecords(prefix);
      forall k | k in AnswerMap(answers)
        ensures AnswerMap(answers)[k] == answers[FindAnswer(answers, k).value].selectedAnswer
      {
        if k != last.questionIndex {
          var j := FindAnswer(prefix, k).value;
          assert answers[j] == prefix[j];
          assert FindAnswer(answers, k) == Some(j);
        } else {
          assert FindAnswer(answers, k) == Some(|answers| - 1);
        }
      }
    }
  }

  /** The page's map after saving an answer is the old map with that answer under its index. */
  lemma AnswerMapAfterSave(answers: seq<AnswerRecord>, k: QuestionKey, selected: string,
                           isCorrect: Option<bool>, now: Timestamp)
    requires DistinctIndices(answers)
    ensures AnswerMap(Upsert(answers, k, selected, isCorrect, now)) == AnswerMap(answers)[k := selected]
  {
    var after, expected := AnswerMap(Upsert(answers, k, selected, isCorrect, now)), AnswerMap(answers)[k := selected];
    AnswerMapAfterSaveKeys(answers, k, selected, isCorrect, now, after, expected);
    SameMaps(after, expected);
  }

  /** The same, for every index at once. */
  lemma AnswerMapAfterSaveKeys(answers: seq<AnswerRecord>, k: QuestionKey, selected: string,
                               isCorrect: Option<bool>, now: Timestamp,
                               after: map<QuestionKey, string>, expected: map<QuestionKey, string>)
    requires DistinctIndices(answers)
    requires after == AnswerMap(Upsert(answers, k, selected, isCorrect, now))
    requires expected == AnswerMap(answers)[k := selected]
    ensures forall key :: key in after <==> key in expected
    ensures forall key :: key in after ==> after[key] == expected[key]
  {
    forall key
      ensures key in after <==> key in expected
      ensures key in after ==> after[key] == expected[key]
    {
      AnswerMapAfterSaveAt(answers, k, selected, isCorrect, now, key, after, expected);
    }
  }

  /** The same, one index at a time. */
  lemma AnswerMapAfterSaveAt(answers: seq<AnswerRecord>, k: QuestionKey, selected: string,
                             isCorrect: Option<bool>, now: Timestamp, key: QuestionKey,
                             after: map<QuestionKey, string>, expected: map<QuestionKey, string>)
    requires DistinctIndices(answers)
    requires after == AnswerMap(Upsert(answers, k, selected, isCorrect, now))
    requires expected == AnswerMap(answers)[k := selected]
    ensures key in after <==> key in expected
    ensures key in after ==> after[key] == expected[key]
  {
    var r := Upsert(answers, k, selected, isCorrect, now);
    UpsertKeepsDistinct(answers, k, selected, isCorrect, now);
    AnswerMapShowsRecords(r);
    if key != k {
      AnswerMapShowsRecords(answers);
      UpsertOtherIndex(answers, k, selected, isCorrect, now, key);
    }
  }

  /** The loop of `take_quiz` that builds the map of saved answers. */
  method UserAnswers(attempt: QuizAttempt) returns (m: map<QuestionKey, string>)
    ensures m == AnswerMap(attempt.answers)
  {
    m := map[];
    var i := 0;
    while i < |attempt.answers|
      invariant 0 <= i <= |attempt.answers|
      invariant m == AnswerMap(attempt.answers[..i])
    {
      assert attempt.answers[..i + 1][..i] == attempt.answers[..i];
      m := m[attempt.answers[i].questionIndex := attempt.answers[i].selectedAnswer];
      i := i + 1;
    }
    assert attempt.answers[..i] == attempt.answers;
  }
}
