/** The quiz of a day: a question index, one selected answer per question
    (-1 while unanswered), and whether the quiz has started and whether the
    results are on show. Finishing the quiz reports the score to the day
    view, which completes the day on a passing score. */
module QuizComponent {
  import opened Common

  datatype QuizQuestion = QuizQuestion(question: string, options: seq<string>, correctAnswer: int, explanation: Option<string>)

  /** `new Array(n).fill(-1)`. */
  function Unanswered(n: nat): (r: seq<int>)
    ensures |r| == n && forall i :: 0 <= i < n ==> r[i] == -1
  {
    seq(n, _ => -1)
  }

  /** The points of question `i`: 1 when its selected answer is the correct one. */
  function Point(answers: seq<int>, questions: seq<QuizQuestion>, i: int): int
    requires 0 <= i < |answers| == |questions|
  {
    if answers[i] == questions[i].correctAnswer then 1 else 0
  }

  /** `calculateScore`: the reduce over the selected answers, one point per
      answer equal to its question's `correctAnswer`. */
  function Score(answers: seq<int>, questions: seq<QuizQuestion>): (s: int)
    requires |answers| == |questions|
    ensures 0 <= s <= |answers|
  {
    if answers == [] then 0
    else Point(answers, questions, 0) + Score(answers[1..], questions[1..])
  }

  /** `getScorePercentage() >= 60` in integers: with no questions the
      percentage is `0 / 0`, NaN, which is not at least 60. */
  predicate Passed(score: int, total: int)
  {
    total > 0 && score * 100 >= 60 * total
  }

  class Quiz {
    const questions: seq<QuizQuestion>
    var currentQuestion: int
    var selectedAnswers: seq<int>
    var showResults: bool
    var quizStarted: bool

    /** One answer per question, and the index on a question whenever
        there is one. */
    predicate Valid()
      reads this
    {
      && |selectedAnswers| == |questions|
      && (|questions| > 0 ==> 0 <= currentQuestion < |questions|)
      && (|questions| == 0 ==> currentQuestion == 0)
    }

    /** The component's initial state. */
    constructor (qs: seq<QuizQuestion>)
      ensures Valid()
      ensures questions == qs
      ensures currentQuestion == 0 && selectedAnswers == Unanswered(|qs|)
      ensures !showResults && !quizStarted
    {
      questions := qs;
      currentQuestion := 0;
      selectedAnswers := Unanswered(|qs|);
      showResults := false;
      quizStarted := false;
    }

    /** The "Start Quiz" button. */
    method Start()
      requires Valid()
      modifies this
      ensures Valid() && quizStarted
      ensures currentQuestion == old(currentQuestion) && selectedAnswers == old(selectedAnswers)
      ensures showResults == old(showResults)
    {
      quizStarted := true;
    }

    /** `handleAnswerSelect`: offered only while a question is on show. */
    method SelectAnswer(answerIndex: int)
      requires Valid() && |questions| > 0
      modifies this
      ensures Valid()
      ensures selectedAnswers == old(selectedAnswers)[old(currentQuestion) := answerIndex]
      ensures currentQuestion == old(currentQuestion)
      ensures showResults == old(showResults) && quizStarted == old(quizStarted)
    {
      var newAnswers := selectedAnswers;
      newAnswers := newAnswers[currentQuestion := answerIndex];
      selectedAnswers := newAnswers;
    }

    /** `handleNext`: the next question, or on the last question the
        results, with the score handed to `onComplete`. */
    method Next() returns (reported: Option<int>)
      requires Valid()
      modifies this
      ensures Valid()
      ensures old(currentQuestion) < |questions| - 1 ==>
        currentQuestion == old(currentQuestion) + 1 && reported.None? && showResults == old(showResults)
      ensures old(currentQuestion) >= |questions| - 1 ==>
        currentQuestion == old(currentQuestion) && showResults &&
        reported == Some(Score(selectedAnswers, questions))
      ensures selectedAnswers == old(selectedAnswers) && quizStarted == old(quizStarted)
    {
      if currentQuestion < |questions| - 1 {
        currentQuestion := currentQuestion + 1;
        reported := None;
      } else {
        showResults := true;
        var score := Score(selectedAnswers, questions);
        reported := Some(score);
      }
    }

    /** `handlePrevious`. */
    method Previous()
      requires Valid()
      modifies this
      ensures Valid()
      ensures currentQuestion == if old(currentQuestion) > 0 then old(currentQuestion) - 1 else old(currentQuestion)
      ensures selectedAnswers == old(selectedAnswers)
      ensures showResults == old(showResults) && quizStarted == old(quizStarted)
    {
      if currentQuestion > 0 {
        currentQuestion := currentQuestion - 1;
      }
    }

    /** `restartQuiz`: back to the first question with every answer
        cleared, the quiz started and the results hidden. */
    method Restart()
      requires Valid()
      modifies this
      ensures Valid()
      ensures currentQuestion == 0 && selectedAnswers == Unanswered(|questions|)
      ensures !showResults && quizStarted
    {
      currentQuestion := 0;
      selectedAnswers := Unanswered(|questions|);
      showResults := false;
      quizStarted := true;
    }
  }

  /* ---------------- properties ---------------- */

  /** A quiz with every answer still -1 scores 0 when every correct answer
      is a real option index. */
  lemma {:induction false} UnansweredScoresZero(questions: seq<QuizQuestion>)
    requires forall i :: 0 <= i < |questions| ==> questions[i].correctAnswer >= 0
    ensures Score(Unanswered(|questions|), questions) == 0
  {
    if questions != [] {
      assert Unanswered(|questions|)[1..] == Unanswered(|questions| - 1);
      UnansweredScoresZero(questions[1..]);
    }
  }

  /** Answering every question correctly scores the number of questions. */
  lemma {:induction false} AllCorrectScoresTotal(answers: seq<int>, questions: seq<QuizQuestion>)
    requires |answers| == |questions|
    requires forall i :: 0 <= i < |answers| ==> answers[i] == questions[i].correctAnswer
    ensures Score(answers, questions) == |questions|
  {
    if answers != [] {
      AllCorrectScoresTotal(answers[1..], questions[1..]);
    }
  }

  /** The score counts exactly the correctly answered questions: it is the
      sum of the per-question points, so changing one answer moves the
      score by the change in that question's point and by at most one. */
  lemma {:induction false} ScoreAfterSelect(answers: seq<int>, questions: seq<QuizQuestion>, i: int, a: int)
    requires |answers| == |questions| && 0 <= i < |answers|
    ensures Score(answers[i := a], questions) ==
      Score(answers, questions) - Point(answers, questions, i) + Point(answers[i := a], questions, i)
    ensures -1 <= Score(answers[i := a], questions) - Score(answers, questions) <= 1
  {
    if i > 0 {
      assert answers[i := a][1..] == answers[1..][i - 1 := a];
      ScoreAfterSelect(answers[1..], questions[1..], i - 1, a);
    } else {
      assert answers[i := a][1..] == answers[1..];
    }
  }

  /** The integer rule is the component's percentage rule:
      `score / total * 100 >= 60` exactly when `score * 100 >= 60 * total`. */
  lemma PassedIsSixtyPercent(score: int, total: int)
    requires total > 0
    ensures Passed(score, total) <==> (score as real / total as real) * 100.0 >= 60.0
  {
    var t := total as real;
    var p := score as real / t;
    assert p * t == score as real;
    ScaleByPositive(p * 100.0, 60.0, t);
    assert p * 100.0 * t == (p * t) * 100.0;
    assert p * 100.0 * t == score as real * 100.0;
    assert (score * 100) as real == score as real * 100.0;
    assert (60 * total) as real == 60.0 * t;
    assert Passed(score, total) <==> (score * 100) as real >= (60 * total) as real;
  }

  /** Multiplying both sides by a positive number keeps the order. */
  lemma ScaleByPositive(x: real, y: real, t: real)
    requires t > 0.0
    ensures x >= y <==> x * t >= y * t
  {
    if x >= y {
      assert (x - y) * t >= 0.0;
    } else {
      assert (y - x) * t > 0.0;
    }
  }

  /** Every answer right always passes; every answer still open never
      passes. */
  lemma PassExtremes(questions: seq<QuizQuestion>)
    requires |questions| > 0
    requires forall i :: 0 <= i < |questions| ==> questions[i].correctAnswer >= 0
    ensures Passed(|questions|, |questions|)
    ensures !Passed(Score(Unanswered(|questions|), questions), |questions|)
  {
    UnansweredScoresZero(questions);
  }

  /* ---------------- the day view's use of the score ---------------- */

  /** The rule of the day view as written: the day is completed when the
      reported score is at least 3. */
  predicate DayViewerCompletesAsWritten(score: int)
  {
    score >= 3
  }

  /** With five questions the written rule is the 60% rule. */
  lemma AsWrittenMatchesOnFiveQuestions(score: int)
    ensures DayViewerCompletesAsWritten(score) <==> Passed(score, 5)
  {
  }

  /** With one question a perfect score passes the quiz but never
      completes the day under the written rule. */
  lemma AsWrittenRejectsPerfectOneQuestionQuiz()
    ensures Passed(1, 1) && !DayViewerCompletesAsWritten(1)
  {
  }

  /** The rule the day view's comment states: completion on 60% or more of
      the quiz's questions. */
  predicate DayViewerCompletes(score: int, total: int)
  {
    Passed(score, total)
  }

  /** The corrected rule completes the day on exactly the scores the quiz
      shows as passed, for every quiz length, and agrees with the written
      rule on five questions. */
  lemma DayViewerCompletesIffPassed(score: int, total: int)
    requires total > 0
    ensures DayViewerCompletes(score, total) <==> (score as real / total as real) * 100.0 >= 60.0
    ensures total == 5 ==> (DayViewerCompletes(score, total) <==> DayViewerCompletesAsWritten(score))
    ensures DayViewerCompletes(total, total)
  {
    PassedIsSixtyPercent(score, total);
  }
}
