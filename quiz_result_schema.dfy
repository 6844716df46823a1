/**
 * The record of one quiz attempt (server/src/models/quizResult.model.js): a
 * result per question, the earned points, the percentage, the pass and review
 * flags and the concepts to review.
 */
module QuizResultSchema {
  import opened Common

  /**
   * What the client sent for one question: nothing, a string (a choice id or
   * a typed answer) or a list of choice ids.
   */
  datatype Answer = Missing | Str(s: string) | Choices(ids: seq<string>)

  /**
   * `isCorrect` is `None` when the scoring left it `undefined`, which the
   * required check then rejects.
   */
  datatype QuestionResult = QuestionResult(
    question: Id,
    userAnswer: Answer,
    isCorrect: Option<bool>,
    pointsEarned: int,
    answerTime: int)

  datatype QuizResult = QuizResult(
    user: Id,
    quiz: Id,
    roadmap: Id,
    content: Option<Id>,
    questionResults: seq<QuestionResult>,
    totalScore: int,
    percentageScore: Percent,
    passed: bool,
    completionTime: int,
    reviewNeeded: bool,
    conceptsToReview: seq<string>,
    completedAt: Time)

  /** A question result with the schema's defaults for points and answer time. */
  function NewQuestionResult(question: Id, userAnswer: Answer, isCorrect: Option<bool>): (r: QuestionResult)
    ensures r.pointsEarned == 0 && r.answerTime == 0
    ensures r.question == question && r.userAnswer == userAnswer && r.isCorrect == isCorrect
  {
    QuestionResult(question, userAnswer, isCorrect, 0, 0)
  }

  /** A quiz result with the schema's defaults for completion time and review flag. */
  function NewQuizResult(user: Id, quiz: Id, roadmap: Id, results: seq<QuestionResult>,
                         totalScore: int, percentageScore: Percent, passed: bool, now: Time): (r: QuizResult)
    ensures r.completionTime == 0 && !r.reviewNeeded && r.conceptsToReview == []
    ensures r.questionResults == results && r.completedAt == now
  {
    QuizResult(user, quiz, roadmap, None, results, totalScore, percentageScore, passed, 0, false, [], now)
  }

  /** Each question result must carry its `isCorrect` flag. */
  predicate ValidQuizResult(r: QuizResult) {
    forall i :: 0 <= i < |r.questionResults| ==> r.questionResults[i].isCorrect.Some?
  }
}
