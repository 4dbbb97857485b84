/**
 * A daily quiz (models/quiz.py): its questions and the structural check that
 * reports every problem, question by question, rather than stopping at the
 * first one.
 */
module Quizzes {
  import opened Common

  type Date = string

  /**
   * The `options` entry of a question as it arrives: absent, present but not
   * a dictionary, or a dictionary from option key to option text.
   */
  datatype OptionsField = NoOptions | NotADict | OptionMap(options: map<string, string>)

  /** A question; `None` marks a key that is absent from the question's dictionary. */
  datatype Question = Question(text: Option<string>, options: OptionsField, answer: Option<string>)

  datatype Quiz = Quiz(quizDate: Date, questions: seq<Question>, totalQuestions: int)

  /** What can be wrong with one question; messages carry the 1-based question number. */
  datatype QuestionProblem =
    | MissingText
    | MissingOptions
    | OptionsNotADict
    | MissingAnswer
    | TooFewOptions
    | AnswerNotAnOption

  datatype QuizError =
    | DateRequired
    | QuestionsRequired
    | TotalNotPositive
    | InQuestion(number: int, problem: QuestionProblem)

  /** The question number an error is about; quiz-level errors are about no question (0). */
  function NumberOf(e: QuizError): int {
    if e.InQuestion? then e.number else 0
  }

  /**
   * `Quiz.__init__`: an omitted or zero `total_questions` becomes the number of
   * questions; any other given value is kept as it is.
   */
  function NewQuiz(quizDate: Date, questions: seq<Question>, totalQuestions: Option<int> := None): (q: Quiz)
    ensures q.quizDate == quizDate && q.questions == questions
    ensures totalQuestions.None? || totalQuestions == Some(0) ==> q.totalQuestions == |questions|
    ensures totalQuestions.Some? && totalQuestions.value != 0 ==> q.totalQuestions == totalQuestions.value
  {
    var total := if totalQuestions.None? || totalQuestions.value == 0 then |questions| else totalQuestions.value;
    Quiz(quizDate, questions, total)
  }

  /** A question is well formed: text, a dictionary of at least two options, and an answer among them. */
  predicate QuestionOk(q: Question) {
    q.text.Some? && q.options.OptionMap? && |q.options.options| >= 2 &&
    q.answer.Some? && q.answer.value in q.options.options
  }

  /** A quiz is well formed: a date, at least one question, a positive total, and every question well formed. */
  predicate WellFormed(quiz: Quiz) {
    quiz.quizDate != "" && |quiz.questions| > 0 && quiz.totalQuestions > 0 &&
    forall i :: 0 <= i < |quiz.questions| ==> QuestionOk(quiz.questions[i])
  }

  /**
   * `_validate_question`: the problems of the question at 0-based `index`, in
   * the order they are checked. The option-count and answer-membership checks
   * run only when the options are a dictionary.
   */
  function QuestionErrors(q: Question, index: int): (errs: seq<QuizError>)
    ensures errs == [] <==> QuestionOk(q)
    ensures forall e :: e in errs ==> e.InQuestion? && e.number == index + 1
    ensures InQuestion(index + 1, MissingText) in errs <==> q.text.None?
    ensures InQuestion(index + 1, MissingOptions) in errs <==> q.options.NoOptions?
    ensures InQuestion(index + 1, OptionsNotADict) in errs <==> q.options.NotADict?
    ensures InQuestion(index + 1, MissingAnswer) in errs <==> q.answer.None?
    ensures InQuestion(index + 1, TooFewOptions) in errs <==> q.options.OptionMap? && |q.options.options| < 2
    ensures (InQuestion(index + 1, AnswerNotAnOption) in errs <==>
      q.options.OptionMap? && q.answer.Some? && q.answer.value !in q.options.options)
    ensures !q.options.OptionMap? ==>
      InQuestion(index + 1, TooFewOptions) !in errs && InQuestion(index + 1, AnswerNotAnOption) !in errs
  {
    var n := index + 1;
    (if q.text.None? then [InQuestion(n, MissingText)] else []) +
    (match q.options
     case NoOptions => [InQuestion(n, MissingOptions)]
     case NotADict => [InQuestion(n, OptionsNotADict)]
     case OptionMap(_) => []) +
    (if q.answer.None? then [InQuestion(n, MissingAnswer)] else []) +
    (match q.options
     case OptionMap(opts) =>
       (if |opts| < 2 then [InQuestion(n, TooFewOptions)] else []) +
       (if q.answer.Some? && q.answer.value !in opts then [InQuestion(n, AnswerNotAnOption)] else [])
     case _ => [])
  }

  /** The per-question error lists, in question order. */
  function PerQuestion(questions: seq<Question>): (lists: seq<seq<QuizError>>)
    ensures |lists| == |questions|
    ensures forall i :: 0 <= i < |questions| ==> lists[i] == QuestionErrors(questions[i], i)
  {
    seq(|questions|, i requires 0 <= i < |questions| => QuestionErrors(questions[i], i))
  }

  /** The lists joined one after the other (the loop's repeated `extend`). */
  function Concat(lists: seq<seq<QuizError>>): seq<QuizError> {
    if |lists| == 0 then [] else Concat(lists[..|lists| - 1]) + lists[|lists| - 1]
  }

  /**
   * `validate`: the quiz-level problems followed by every question's problems.
   * Each quiz-level problem is reported exactly when it applies, and every
   * other error is about a question of the quiz.
   */
  function Validate(quiz: Quiz): (errs: seq<QuizError>)
    ensures DateRequired in errs <==> quiz.quizDate == ""
    ensures QuestionsRequired in errs <==> |quiz.questions| == 0
    ensures TotalNotPositive in errs <==> quiz.totalQuestions <= 0
    ensures forall e :: e in errs && e.InQuestion? ==> 1 <= e.number <= |quiz.questions|
  {
    (if quiz.quizDate == "" then [DateRequired] else []) +
    (if |quiz.questions| == 0 then [QuestionsRequired] else []) +
    (if quiz.totalQuestions <= 0 then [TotalNotPositive] else []) +
    QuestionsErrors(quiz.questions)
  }

  /** The errors of every question, question after question (the loop of `validate`). */
  function QuestionsErrors(questions: seq<Question>): (errs: seq<QuizError>)
    ensures forall e :: e in errs ==> e.InQuestion? && 1 <= e.number <= |questions|
  {
    PerQuestionNumbered(questions);
    ConcatNumbered(PerQuestion(questions));
    Concat(PerQuestion(questions))
  }

  /** `is_valid`: no validation error, which is exactly a well-formed quiz. */
  predicate IsValid(quiz: Quiz)
    ensures IsValid(quiz) <==> WellFormed(quiz)
  {
    ValidateEmptyIffWellFormed(quiz);
    |Validate(quiz)| == 0
  }

  /** Every error in `lists[i]` is about question `i + 1`. */
  predicate NumberedLists(lists: seq<seq<QuizError>>) {
    forall i, e :: 0 <= i < |lists| && e in lists[i] ==> NumberOf(e) == i + 1
  }

  lemma PerQuestionNumbered(questions: seq<Question>)
    ensures NumberedLists(PerQuestion(questions))
  {
  }

  /** Every joined error carries a number between 1 and the number of lists. */
  lemma {:induction false} ConcatNumbered(lists: seq<seq<QuizError>>)
    requires NumberedLists(lists)
    ensures forall e :: e in Concat(lists) ==> 1 <= NumberOf(e) <= |lists|
  {
    if |lists| > 0 {
      var init := lists[..|lists| - 1];
      assert NumberedLists(init) by {
        forall i, e | 0 <= i < |init| && e in init[i]
          ensures NumberOf(e) == i + 1
        {
          assert init[i] == lists[i];
        }
      }
      ConcatNumbered(init);
    }
  }

  /** Joined errors come in question order: their numbers never decrease along the list. */
  lemma {:induction false} ConcatOrdered(lists: seq<seq<QuizError>>)
    requires NumberedLists(lists)
    ensures forall a, b :: 0 <= a < b < |Concat(lists)| ==> NumberOf(Concat(lists)[a]) <= NumberOf(Concat(lists)[b])
  {
    if |lists| > 0 {
      var init := lists[..|lists| - 1];
      var last := lists[|lists| - 1];
      assert NumberedLists(init) by {
        forall i, e | 0 <= i < |init| && e in init[i]
          ensures NumberOf(e) == i + 1
        {
          assert init[i] == lists[i];
        }
      }
      ConcatOrdered(init);
      ConcatNumbered(init);
      var prev := Concat(init);
      var errs := prev + last;
      forall a, b | 0 <= a < b < |errs|
        ensures NumberOf(errs[a]) <= NumberOf(errs[b])
      {
        if b >= |prev| {
          assert errs[b] in lists[|lists| - 1];
          assert NumberOf(errs[b]) == |lists|;
          if a < |prev| {
            assert errs[a] in prev;
          } else {
            assert errs[a] in lists[|lists| - 1];
          }
        } else {
          assert errs[a] == prev[a] && errs[b] == prev[b];
          assert NumberOf(prev[a]) <= NumberOf(prev[b]);
        }
      }
    }
  }

  /** The joined list holds an error about question `i + 1` exactly when `lists[i]` is non-empty. */
  lemma {:induction false} ConcatReports(lists: seq<seq<QuizError>>, i: int)
    requires NumberedLists(lists) && 0 <= i < |lists|
    ensures lists[i] != [] <==> exists e :: e in Concat(lists) && NumberOf(e) == i + 1
  {
    var init := lists[..|lists| - 1];
    var last := lists[|lists| - 1];
    assert Concat(lists) == Concat(init) + last;
    assert NumberedLists(init) by {
      forall j, e | 0 <= j < |init| && e in init[j]
        ensures NumberOf(e) == j + 1
      {
        assert init[j] == lists[j];
      }
    }
    if i == |lists| - 1 {
      ConcatNumbered(init);
      if last != [] {
        assert last[0] in Concat(init) + last;
        assert NumberOf(last[0]) == i + 1;
      }
      if exists e :: e in Concat(init) + last && NumberOf(e) == i + 1 {
        var e :| e in Concat(init) + last && NumberOf(e) == i + 1;
        assert e !in Concat(init);
        assert e in last;
      }
    } else {
      ConcatReports(init, i);
      assert init[i] == lists[i];
      if exists e :: e in Concat(init) + last && NumberOf(e) == i + 1 {
        var e :| e in Concat(init) + last && NumberOf(e) == i + 1;
        assert e in Concat(init);
      }
    }
  }

  /** An error about question `i + 1` is in the joined list exactly when it is in `lists[i]`. */
  lemma {:induction false} ConcatHolds(lists: seq<seq<QuizError>>, i: int, e: QuizError)
    requires NumberedLists(lists) && 0 <= i < |lists| && NumberOf(e) == i + 1
    ensures e in Concat(lists) <==> e in lists[i]
  {
    var init := lists[..|lists| - 1];
    var last := lists[|lists| - 1];
    assert Concat(lists) == Concat(init) + last;
    assert NumberedLists(init) by {
      forall j, x | 0 <= j < |init| && x in init[j]
        ensures NumberOf(x) == j + 1
      {
        assert init[j] == lists[j];
      }
    }
    if i == |lists| - 1 {
      ConcatNumbered(init);
    } else {
      ConcatHolds(init, i, e);
      assert init[i] == lists[i];
    }
  }

  /**
   * `validate` reports problem `p` of question `i + 1` exactly when
   * `_validate_question` reports it for question `i`, so every question's
   * complete list of problems reaches the quiz's list.
   */
  lemma ValidateHasQuestionErrors(quiz: Quiz, i: int, p: QuestionProblem)
    requires 0 <= i < |quiz.questions|
    ensures InQuestion(i + 1, p) in Validate(quiz) <==> InQuestion(i + 1, p) in QuestionErrors(quiz.questions[i], i)
  {
    PerQuestionNumbered(quiz.questions);
    ConcatHolds(PerQuestion(quiz.questions), i, InQuestion(i + 1, p));
  }

  /** Question errors come in question order, and each is about a question of the quiz. */
  lemma QuestionErrorsInOrder(quiz: Quiz)
    ensures var errs := Concat(PerQuestion(quiz.questions));
      (forall e :: e in errs ==> 1 <= NumberOf(e) <= |quiz.questions|) &&
      (forall a, b :: 0 <= a < b < |errs| ==> NumberOf(errs[a]) <= NumberOf(errs[b]))
  {
    PerQuestionNumbered(quiz.questions);
    ConcatNumbered(PerQuestion(quiz.questions));
    ConcatOrdered(PerQuestion(quiz.questions));
  }

  /** `validate` reports a problem numbered `i + 1` exactly when question `i` is malformed. */
  lemma ValidateReportsMalformedQuestion(quiz: Quiz, i: int)
    requires 0 <= i < |quiz.questions|
    ensures !QuestionOk(quiz.questions[i]) <==> exists e :: e in Validate(quiz) && NumberOf(e) == i + 1
  {
    PerQuestionNumbered(quiz.questions);
    ConcatReports(PerQuestion(quiz.questions), i);
  }

  /** The question errors are empty exactly when every question is well formed. */
  lemma QuestionsErrorsEmpty(questions: seq<Question>)
    ensures Concat(PerQuestion(questions)) == [] <==>
      forall i :: 0 <= i < |questions| ==> QuestionOk(questions[i])
  {
    var lists := PerQuestion(questions);
    var errs := Concat(lists);
    PerQuestionNumbered(questions);
    ConcatNumbered(lists);
    if errs != [] {
      assert errs[0] in errs;
      ConcatReports(lists, NumberOf(errs[0]) - 1);
    } else {
      forall i | 0 <= i < |questions|
        ensures QuestionOk(questions[i])
      {
        ConcatReports(lists, i);
      }
    }
  }

  /** `validate` returns no error exactly when the quiz is well formed. */
  lemma ValidateEmptyIffWellFormed(quiz: Quiz)
    ensures Validate(quiz) == [] <==> WellFormed(quiz)
  {
    QuestionsErrorsEmpty(quiz.questions);
  }

  /** `get_question_by_index`: the question at a 0-based index, or `None` outside the list. */
  function QuestionByIndex(quiz: Quiz, index: int): (r: Option<Question>)
    ensures r.Some? <==> 0 <= index < |quiz.questions|
    ensures r.Some? ==> r.value == quiz.questions[index]
  {
    if 0 <= index < |quiz.questions| then Some(quiz.questions[index]) else None
  }

  /** `get_total_questions`: the length of the question list, whatever the stored total says. */
  function TotalQuestions(quiz: Quiz): (n: nat)
    ensures forall i :: QuestionByIndex(quiz, i).Some? <==> 0 <= i < n
  {
    |quiz.questions|
  }

  /** A quiz built without a total always agrees with its question count. */
  lemma NewQuizTotalAgrees(quizDate: Date, questions: seq<Question>)
    ensures NewQuiz(quizDate, questions).totalQuestions == TotalQuestions(NewQuiz(quizDate, questions))
  {
  }

  /** A quiz built without a total from a non-empty, well-formed question list only needs a date. */
  lemma NewQuizValid(quizDate: Date, questions: seq<Question>)
    requires |questions| > 0 && forall i :: 0 <= i < |questions| ==> QuestionOk(questions[i])
    ensures IsValid(NewQuiz(quizDate, questions)) <==> quizDate != ""
  {
    ValidateEmptyIffWellFormed(NewQuiz(quizDate, questions));
  }
}
