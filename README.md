# Daily quiz: attempts, scoring, validation, lifecycle and analytics

This project models the core of a daily-quiz web application in Dafny.

- There is one quiz per calendar date. A signed-in user may attempt each date's quiz.
- Answers are auto-saved one by one or in batches while the attempt is open. Each question index has at most one answer record.
- On submission the records are scored against the quiz's answer key, and the attempt is switched to completed for good.
- A reporting layer aggregates completed attempts into reports: a rolling seven-day window, one quiz date, or one user's history.

The modules follow the program's files:

| module | file | form |
|---|---|---|
| `Attempts` | `models/quiz_attempt.py` | answer records and scoring as functions; the `QuizAttempt` object as a class whose methods update its fields |
| `Quizzes` | `models/quiz.py` | pure functions |
| `Users` | `models/user.py` | pure functions |
| `QuizService` | `services/quiz_service.py` | the document store as the class `QuizStore` with `connected`, `quizzes`, `attempts` and the insertion `order` of attempts; read-only operations as functions, writing operations as methods |
| `Analytics` | `services/analytics_service.py` | pure functions over the catalogue, the attempt documents in store order and the users |
| `QuizRoutes` | `app/routes/quiz.py` | the batch-save loop, the guard of the single-answer route and the `user_answers` map of the quiz page |
| `AttemptLists`, `ListOps`, `Sorting`, `Common` | — | shared comprehensions over attempt documents, filters, sums, averages, a stable insertion sort, `Option`/`Result` |

Modelling choices:

- The unique indexes on `quiz_date` and on `(user_id, quiz_date)` make both store collections maps. `QuizStore.order` keeps the keys of the attempts in insertion order; the model assumes that a plain `find` returns attempts in that order, which the store itself does not promise. `QuizStore.Valid` ties every stored attempt to its key and keeps its records at one per question index.
- Dates are strings. The clock (`datetime.utcnow()`) is a `now` parameter. `date.today()` is a day number `today`, and `strftime('%Y-%m-%d')` is a function `fmt` from day numbers to date strings, both given by the caller.
- A question index is `IntKey(i)`, or `StrKey(k)` for a batch-save key that does not convert to an integer. The route passes such keys to the service unchanged.
- Service and route messages are error constructors, one per message, not text. The two "no quiz" messages are distinct: `NoQuizForDate` when a new attempt is checked and `NoQuizFound` for a date's statistics.
- Percentages and averages are `real` and unrounded. The source also stores the unrounded percentage and rounds only what it returns.
- Python's `sorted` is stable. The ranking is modelled as a stable insertion sort, and tied attempts are proved to keep their store order.
- The model follows the code in these points:
  - the stored percentage is not rounded;
  - a day's `participants_count` counts completed attempts only, and there is no separate count of opened attempts and no participation rate;
  - ties in the rankings keep store order, because the sort is stable;
  - a concurrent duplicate start is not turned into a resume.

## Model

| member | source | states |
|---|---|---|
| `Attempts.NewAttempt` | new_quiz_app/models/quiz_attempt.py:11-21 | a new attempt has no answers, score 0, total 0, percentage 0, is not completed, has no completion time and is not auto-saved |
| `Attempts.QuizAttempt.constructor` | new_quiz_app/models/quiz_attempt.py:11-21 | the new object's document is that fresh attempt, holding the answers it was given |
| `Attempts.QuizAttempt.FromDict` | new_quiz_app/models/quiz_attempt.py:39-58 | loading a stored document and writing it back gives the same document |
| `Attempts.FindAnswer` | new_quiz_app/models/quiz_attempt.py:80-85 | the position of the first record for an index; `None` exactly when no record has that index |
| `Attempts.FindAnswerByIndices` | new_quiz_app/models/quiz_attempt.py:80-85 | the lookup depends only on the records' indices, position by position |
| `Attempts.QuizAttempt.GetAnswerForQuestion` | new_quiz_app/models/quiz_attempt.py:80-85 | the front-to-back scan returns the first record for the index, or none |
| `Attempts.Upsert` | new_quiz_app/models/quiz_attempt.py:60-78 | with a record for the index, the length is unchanged; otherwise exactly one record is added. Records of other indices are unchanged. The index's record then holds the new answer, flag and time |
| `Attempts.UpsertKeepsDistinct` | new_quiz_app/models/quiz_attempt.py:63-78 | at most one record per question index is preserved |
| `Attempts.UpsertIdempotent` | new_quiz_app/models/quiz_attempt.py:63-78 | saving the same answer twice leaves what one save at the later time leaves, with no second record |
| `Attempts.UpsertOtherIndex` | new_quiz_app/models/quiz_attempt.py:60-85 | after saving index k, every other index is found at the same place with the same record |
| `Attempts.QuizAttempt.AddAnswer` | new_quiz_app/models/quiz_attempt.py:60-78 | the object's new records are the upsert of the old ones; every other field is unchanged |
| `Attempts.CorrectIndices` | new_quiz_app/models/quiz_attempt.py:92-98 | the key indices whose record selects the key's option, and no others |
| `Attempts.Percentage` | new_quiz_app/models/quiz_attempt.py:100 | with a positive total, percentage × total = score × 100; 0 otherwise |
| `Attempts.Flagged` | new_quiz_app/models/quiz_attempt.py:92-98 | the first record for each key index gets its flag set to whether its selection equals the key's answer; every other record is unchanged |
| `Attempts.Scored` | new_quiz_app/models/quiz_attempt.py:87-106 | total = size of the key; score = number of correctly answered key indices, at most the total; percentage = score/total × 100, in [0, 100], and 0 with no questions |
| `Attempts.PercentageBounds` | new_quiz_app/models/quiz_attempt.py:100 | a score between 0 and the total gives a percentage in [0, 100], and 100 when all are correct |
| `Attempts.AllCorrectScoresFull` | new_quiz_app/models/quiz_attempt.py:87-106 | every key index answered correctly gives score = total, and 100% when there is a question |
| `Attempts.NoAnswersScoreZero` | new_quiz_app/models/quiz_attempt.py:87-106 | no answers give score 0 and percentage 0, whatever the key |
| `Attempts.FlaggedChangesOnlyKeyFlags` | new_quiz_app/models/quiz_attempt.py:92-98 | scoring keeps each record's index, selection and time. A record whose index is not in the key keeps its flag too |
| `Attempts.FlagsAgreeWithScore` | new_quiz_app/models/quiz_attempt.py:92-98 | with one record per index, a key index's record is flagged correct exactly when that index counted toward the score |
| `Attempts.FlaggedKeepsScore` | new_quiz_app/models/quiz_attempt.py:87-98 | flagged records score exactly as the unflagged ones |
| `Attempts.ScoreRecords` | new_quiz_app/models/quiz_attempt.py:92-98 | the loop over the key yields the flagged records and a count equal to the score, whatever order it visits the key in |
| `Attempts.ScoreIndex` | new_quiz_app/models/quiz_attempt.py:93-98 | one round of that loop flags the first record for one more key index and adds its point |
| `Attempts.QuizAttempt.CalculateScore` | new_quiz_app/models/quiz_attempt.py:87-106 | returns the score result and stores the flagged records, score, total and percentage; nothing else changes |
| `Attempts.QuizAttempt.CompleteAttempt` | new_quiz_app/models/quiz_attempt.py:108-111 | sets completed and the completion time, and nothing else |
| `Attempts.ProgressOf` | new_quiz_app/models/quiz_attempt.py:113-121 | answered = number of records; total and completed as stored; progress = answered/total × 100, and 0 when the total is not positive |
| `Attempts.ProgressBounded` | new_quiz_app/models/quiz_attempt.py:113-121 | when each record answers a distinct question of the quiz, answered ≤ total and progress is in [0, 100] |
| `Attempts.QuizAttempt.GetAnswersSummary` | new_quiz_app/models/quiz_attempt.py:123-133 | the summary lists every record, in order, unchanged |
| `Attempts.ValidateAttempt` | new_quiz_app/models/quiz_attempt.py:135-158 | each of the five errors (missing user id, missing date, negative score, negative total, percentage outside [0, 100]) is reported exactly when its check fails; no error exactly when all pass |
| `Attempts.IsValidAttempt` | new_quiz_app/models/quiz_attempt.py:156-158 | valid exactly when there is a user id and a date, score ≥ 0, total ≥ 0 and percentage in [0, 100] |
| `Attempts.ScoredAttemptValid` | new_quiz_app/models/quiz_attempt.py:87-106 | an attempt with a user and a date is still valid after scoring, for any records and any key |
| `Quizzes.NewQuiz` | new_quiz_app/models/quiz.py:11-16 | an omitted or zero total becomes the number of questions; any other total is kept |
| `Quizzes.QuestionErrors` | new_quiz_app/models/quiz.py:68-92 | no error exactly when the question is well formed; every error carries the 1-based question number. Each of the six problems is reported exactly when it applies: missing text, missing options, options that are not a dictionary, missing answer, fewer than two options in a dictionary, and an answer that is not among a dictionary's options. The last two are therefore never reported for options that are not a dictionary |
| `Quizzes.PerQuestion` | new_quiz_app/models/quiz.py:62-64 | one error list per question, in question order |
| `Quizzes.ConcatReports` | new_quiz_app/models/quiz.py:62-64 | the joined list has an error about question i+1 exactly when that question's own list is non-empty |
| `Quizzes.QuestionErrorsInOrder` | new_quiz_app/models/quiz.py:62-64 | question errors come in question order, and each is about a question of the quiz |
| `Quizzes.ValidateReportsMalformedQuestion` | new_quiz_app/models/quiz.py:48-92 | `validate` reports a problem numbered i+1 exactly when question i is malformed, so errors are collected rather than stopped at the first |
| `Quizzes.QuestionsErrorsEmpty` | new_quiz_app/models/quiz.py:62-92 | no question error exactly when every question is well formed |
| `Quizzes.Validate` | new_quiz_app/models/quiz.py:48-66 | reports a missing date, no questions and a non-positive total, each exactly when it applies; every question error names a question of the quiz |
| `Quizzes.ValidateHasQuestionErrors` | new_quiz_app/models/quiz.py:61-64 | `validate` reports a problem of question i+1 exactly when `_validate_question` reports it for question i, so each question's complete list reaches the quiz's list |
| `Quizzes.ValidateEmptyIffWellFormed` | new_quiz_app/models/quiz.py:48-92 | no error exactly when there is a date, at least one question, a positive total and every question is well formed |
| `Quizzes.IsValid` | new_quiz_app/models/quiz.py:104-106 | valid exactly when the quiz is well formed in that sense |
| `Quizzes.QuestionByIndex` | new_quiz_app/models/quiz.py:94-98 | the question at an index exactly when 0 ≤ index < number of questions, otherwise none |
| `Quizzes.TotalQuestions` | new_quiz_app/models/quiz.py:100-102 | the reported total n is such that a question exists at index i exactly when 0 ≤ i < n |
| `Quizzes.NewQuizTotalAgrees` | new_quiz_app/models/quiz.py:100-102 | a quiz built without a total reports the same total as its question count |
| `Quizzes.NewQuizValid` | new_quiz_app/models/quiz.py:11-16 | a quiz built without a total from well-formed questions is valid exactly when it has a date |
| `Users.NewUser` | new_quiz_app/models/user.py:11-19 | a missing or empty name becomes "Unknown User"; a missing given or family name becomes empty; the name is never empty |
| `Users.FullName` | new_quiz_app/models/user.py:63-72 | "given family" when both are set, the one that is set otherwise, the stored name when neither is |
| `Users.DisplayName` | new_quiz_app/models/user.py:74-79 | the full name unless it is empty or "Unknown User", in which case the email |
| `Users.Validate` | new_quiz_app/models/user.py:81-96 | reports a missing id, missing email, bad email format and missing name, each exactly when it applies, and never both email errors |
| `Users.ValidateEmptyIff` | new_quiz_app/models/user.py:81-96 | no error exactly when there is an id, an email containing '@' and a name |
| `Users.IsValid` | new_quiz_app/models/user.py:98-100 | valid exactly when there is an id, an email containing '@' and a name |
| `Users.NewUserValidIff` | new_quiz_app/models/user.py:11-19 | a freshly built user is valid exactly when its id is non-empty and its email contains '@' |
| `Users.NamelessUserShownByEmail` | new_quiz_app/models/user.py:63-79 | a user built with no names is shown by their email |
| `Users.DisplayNameNeverPlaceholder` | new_quiz_app/models/user.py:74-79 | the shown name is never empty or the placeholder unless the email is. A user named "Unknown" "User" is shown by their email |
| `AttemptLists.OnDate` | new_quiz_app/services/quiz_service.py:317 | the attempts for one date, in store order |
| `AttemptLists.CompletedOnly` | new_quiz_app/services/quiz_service.py:331-334 | the completed attempts, in store order |
| `AttemptLists.CompletedOnDateCommute` | new_quiz_app/services/analytics_service.py:45-66 | taking a date's attempts from the completed ones equals taking the completed ones from the date's attempts, same order |
| `AttemptLists.AveragePercentageBounded` | new_quiz_app/services/quiz_service.py:334-337 | percentages in [0, 100] average to a value in [0, 100] |
| `QuizService.AnswerKey` | new_quiz_app/services/quiz_service.py:266-269 | the key exists exactly when every question has an answer; it maps each position 0..n-1 to that question's answer and nothing else |
| `QuizService.AnswerKeyOf` | new_quiz_app/services/quiz_service.py:266-269 | the loop builds that key, or reports a question without an answer |
| `QuizService.WellFormedQuizHasKey` | new_quiz_app/services/quiz_service.py:266-269 | a well-formed quiz always has a key with one entry per question |
| `QuizService.FlaggedKeepsDistinct` | new_quiz_app/services/quiz_service.py:284-293 | the flagged records written back on submission still have one record per index |
| `QuizService.StatsOf` | new_quiz_app/services/quiz_service.py:312-348 | no attempts exactly when none is for the date. Otherwise: completed ≤ total; incomplete = total − completed; rate in [0, 100], and 100 exactly when all are completed; averages are the mean score and mean percentage of the completed attempts only, and 0 with none |
| `QuizService.CompletionRateFull` | new_quiz_app/services/quiz_service.py:347 | the completion rate is 100 exactly when every attempt is completed |
| `QuizService.StatsAveragePercentageBounded` | new_quiz_app/services/quiz_service.py:334-337 | with stored percentages in [0, 100], the average percentage is in [0, 100] |
| `QuizService.InProgressAttemptLeavesAverages` | new_quiz_app/services/quiz_service.py:331-337 | one more attempt in progress adds to the total count but leaves the completed count and both averages unchanged |
| `QuizService.QuizStore.QuizByDate` | new_quiz_app/services/quiz_service.py:22-35 | the stored quiz for the date exactly when connected and one exists; none otherwise |
| `QuizService.QuizStore.UserAttempt` | new_quiz_app/services/quiz_service.py:139-155 | the stored attempt of the user for the date exactly when connected and one exists; none otherwise |
| `QuizService.QuizStore.CanAttempt` | new_quiz_app/services/quiz_service.py:157-172 | allowed exactly when connected, the date has a quiz and the user has no completed attempt (one in progress is allowed). The refusal reasons are checked in the source's order |
| `QuizService.QuizStore.UserQuizStatus` | new_quiz_app/services/quiz_service.py:79-106 | not attempted exactly when there is no stored attempt (or no store); completed, with its stored result, exactly when the stored attempt is completed; in progress, with the number answered, exactly when it is not. With a quiz, "completed" exactly when a new attempt is refused |
| `QuizService.QuizStore.QuizStatistics` | new_quiz_app/services/quiz_service.py:305-351 | an error exactly when disconnected or the date has no quiz ("no quiz found"); otherwise the statistics of the date's stored attempts |
| `QuizService.QuizStore.StartQuizAttempt` | new_quiz_app/services/quiz_service.py:174-206 | refused as `can_user_attempt_quiz` refuses, changing nothing; resumes an open attempt unchanged without inserting; otherwise inserts exactly one fresh attempt whose total is the quiz's question count |
| `QuizService.QuizStore.SaveAnswer` | new_quiz_app/services/quiz_service.py:208-245 | fails without a store, without an attempt or once completed, changing nothing. Otherwise only that attempt changes: its records are upserted and it is marked auto-saved |
| `QuizService.QuizStore.SubmitQuiz` | new_quiz_app/services/quiz_service.py:247-303 | succeeds exactly when connected, the attempt exists and is open, the quiz exists and every question has an answer; it fails without a store, without an attempt, once completed, without the quiz, or with a question lacking an answer (malformed quiz), changing nothing. Otherwise it scores against the key position ↦ answer, and stores the score, total, percentage, flagged records and completion. Afterwards a new attempt is refused |
| `QuizService.QuizStore.CreateQuiz` | new_quiz_app/services/quiz_service.py:108-137 | refuses with all validation errors, or for a date that has a quiz, changing nothing. Otherwise the quiz becomes the one found for its date; it succeeds exactly when connected, valid and new |
| `Analytics.Window` | new_quiz_app/services/analytics_service.py:25-32 | the last `days` dates up to and including today, oldest first |
| `Analytics.Ranked` | new_quiz_app/services/analytics_service.py:202 | a permutation of the attempts, in non-increasing percentage order |
| `Analytics.RankedKeepsTiesInStoreOrder` | new_quiz_app/services/analytics_service.py:85 | attempts with equal percentages keep their store order, because the sort is stable |
| `Analytics.NameOf` | new_quiz_app/services/analytics_service.py:88-90 | the user's name, or "Unknown User" for an unknown user |
| `Analytics.EmailOf` | new_quiz_app/services/analytics_service.py:91 | the user's email, or "Unknown" for an unknown user |
| `Analytics.TopThree` | new_quiz_app/services/analytics_service.py:85-95 | at most three performers: the first three of the ranking, best first, with their owners' names |
| `Analytics.BetterAttemptRanksAhead` | new_quiz_app/services/analytics_service.py:85-95 | an attempt with a higher percentage than the i-th top performer is ranked before position i |
| `Analytics.DayStatFor` | new_quiz_app/services/analytics_service.py:64-140 | rate = completed/all × 100, in [0, 100], and 0 with no attempts. With a quiz and completed attempts: count, max, min, averages and top three of those attempts, with lowest ≤ average ≤ highest. Otherwise all zero with no top three. The title says "no quiz" only without a quiz |
| `Analytics.Days` | new_quiz_app/services/analytics_service.py:63-142 | one entry per date of the window, in window order, over that date's attempts |
| `Analytics.Last7DaysStats` | new_quiz_app/services/analytics_service.py:18-149 | an error exactly when disconnected. Otherwise there are seven days from today−6 to today; attempts = completed attempts in the window; participants = distinct users among them, at most the attempts; quizzes = dates of the window with a quiz, at most 7 |
| `Analytics.ParticipantsBound` | new_quiz_app/services/analytics_service.py:48 | there are no more distinct users than completed attempts |
| `Analytics.QuizDatesInWindow` | new_quiz_app/services/analytics_service.py:35-37 | no more quiz dates than dates in the window |
| `Analytics.DistributionOf` | new_quiz_app/services/analytics_service.py:192-198 | each band count is the number of percentages in that band (≥90, [80,90), [70,80), [60,70), <60), and the five add up to the number of percentages |
| `Analytics.BandsPartition` | new_quiz_app/services/analytics_service.py:192-198 | the bands ≥90, [80,90), [70,80), [60,70) and <60 partition every list of percentages |
| `Analytics.Participants` | new_quiz_app/services/analytics_service.py:201-212 | one entry per completed attempt in ranking order, rank = position + 1, non-increasing percentages |
| `Analytics.QuizAnalytics` | new_quiz_app/services/analytics_service.py:155-225 | an error exactly when disconnected or there is no quiz. With a quiz but no completed attempt, a report without participants. Otherwise the count, max, min, the mean score and mean percentage (lowest ≤ average ≤ highest), the distribution and the ranked participants |
| `Analytics.ByDateAscending` | new_quiz_app/services/analytics_service.py:255 | a permutation of the attempts in ascending date order |
| `Analytics.Trend` | new_quiz_app/services/analytics_service.py:279 | 0 with fewer than two attempts; otherwise positive (negative) exactly when the last percentage is above (below) the first |
| `Analytics.UserHistory` | new_quiz_app/services/analytics_service.py:251-255 | exactly the user's completed attempts dated within the window, each once, oldest first |
| `Analytics.PerformanceOf` | new_quiz_app/services/analytics_service.py:265-289 | count, best and worst score and percentage, the mean score and mean percentage lying between them, the trend, and one dated result per attempt in order |
| `Analytics.UserPerformance` | new_quiz_app/services/analytics_service.py:231-291 | an error exactly when disconnected or the user is unknown; "no attempts" exactly when the history is empty; otherwise the performance over that history |
| `QuizRoutes.KeyOf` | new_quiz_app/app/routes/quiz.py:123-127 | a key that converts to an integer becomes that index; any other key is passed on unchanged |
| `QuizRoutes.WithValues` | new_quiz_app/app/routes/quiz.py:128-133 | at most the number of entries, and 0 exactly when every value is null |
| `QuizRoutes.UpsertAll` | new_quiz_app/app/routes/quiz.py:122-131 | applying the entries' saves in order keeps one record per index |
| `QuizRoutes.UpsertAllSkipsNulls` | new_quiz_app/app/routes/quiz.py:128-129 | entries with null values change nothing |
| `QuizRoutes.UpsertAllLastWins` | new_quiz_app/app/routes/quiz.py:122-131 | after the batch, the last entry's key holds that entry's answer |
| `QuizRoutes.SaveEntry` | new_quiz_app/app/routes/quiz.py:128-135 | an entry succeeds exactly when it has a value and the attempt is open, and then saves it; otherwise nothing changes |
| `QuizRoutes.SaveEntries` | new_quiz_app/app/routes/quiz.py:121-136 | count = entries with a value if the attempt is open, else 0; a failing entry does not stop the rest. Only that attempt changes, to the batch applied in order |
| `QuizRoutes.SaveProgress` | new_quiz_app/app/routes/quiz.py:114-138 | refuses a non-object payload and reports nothing to save for an empty one, changing nothing. Otherwise it saves the batch and reports the count |
| `QuizRoutes.SaveAnswerRoute` | new_quiz_app/app/routes/quiz.py:84-93 | a missing index or answer is refused before the service is asked; each service refusal is passed on. It succeeds exactly when both are given and the user's attempt is open, and then only that attempt changes: the answer is upserted and it is marked auto-saved. Any failure changes nothing |
| `QuizRoutes.AnswerMap` | new_quiz_app/app/routes/quiz.py:58-61 | the map's keys are exactly the indices that have a record |
| `QuizRoutes.AnswerMapShowsRecords` | new_quiz_app/app/routes/quiz.py:58-61 | with one record per index, each index shows its record's answer |
| `QuizRoutes.AnswerMapAfterSave` | new_quiz_app/app/routes/quiz.py:58-61 | after saving an answer, the page's map is the old map with that answer under its index |
| `QuizRoutes.UserAnswers` | new_quiz_app/app/routes/quiz.py:58-61 | the loop builds that map, a later record overwriting an earlier one |

## Left out

- Rounding: `round(x, 2)` on returned percentages, averages and rates is not modelled. Every returned value is the unrounded one.
- Day names (`strftime('%A')`, and `'Unknown'` when parsing fails) are not modelled, nor the `date_range` text of the seven-day report.
- The clock and calendar are parameters: `now` for `datetime.utcnow()`, `today` and `fmt` for `date.today()` and `strftime`.
- One `now` stamps every record a batch saves, and every save of one request, whereas the source reads the clock again for each record.
- Insertion order: the model assumes that a plain `find` returns attempts in insertion order. The store does not guarantee a natural order, so rankings of tied attempts may differ in the source.
- Store exceptions and the "Error …" replies that catch them are not modelled, including the "Database not connected" check the service makes a second time in `start_quiz_attempt`, which cannot fail once the first check passed.
- Concurrent requests and duplicate-key races are not modelled. The model is sequential, so the `matched_count == 0` replies of `save_answer` and `submit_quiz` cannot occur.
- `ObjectId` conversion and the `_id`/`id` fields are not modelled; documents are addressed by (user, date).
- A stored question without an `answer` makes `submit_quiz` raise, which the source catches as a generic error. The model returns a `MalformedQuiz` error; a quiz that passed validation always has every answer.
- Authentication, the session, `request.get_json()` parsing (a missing body is a server error) and the JSON or HTML responses are not modelled. `save_progress` values are modelled as strings or null; other JSON value types are not.
- `update_last_active`, `to_dict`/`from_dict` of users and quizzes, `__repr__` and the log lines are not modelled.
- `get_recent_quizzes` and `get_todays_quiz` of the quiz service are not modelled; they fall outside the modelled operations.
- The email report, the OAuth flow, the configuration and the index creation (`config/database.py`) are not part of this model. The store maps stand for the uniqueness the indexes give.
- The store's `sort("quiz_date", 1)` of a user's attempts is modelled as a stable sort by character-wise string order. The store's own order among attempts with the same date is not modelled, and a user has at most one attempt per date anyway. The sort of the quiz catalogue is left out, because no modelled result depends on the catalogue's order.
