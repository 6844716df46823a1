/**
 * The quiz document (server/src/models/quiz.model.js): a list of questions of
 * three kinds, each worth some points, with the quiz's passing score and time
 * limit.
 */
module QuizSchema {
  import opened Common
  import Text

  datatype QuestionType = MultipleChoice | TrueFalse | ShortAnswer

  datatype Difficulty = Easy | Medium | Hard

  /**
   * One answer option of a multiple-choice question. Neither field is ever
   * required (see `OptionFieldsNeverRequired`), so both may be absent.
   */
  datatype Choice = Choice(id: Id, text: Option<string>, isCorrect: Option<bool>)

  datatype Question = Question(
    id: Id,
    questionText: string,
    questionType: QuestionType,
    options: seq<Choice>,
    correctAnswer: Option<string>,
    explanation: Option<string>,
    difficulty: Difficulty,
    pointsValue: int)

  datatype Quiz = Quiz(
    id: Id,
    title: string,
    description: Option<string>,
    topic: Option<Id>,
    content: Option<Id>,
    roadmap: Option<Id>,
    user: Id,
    questions: seq<Question>,
    timeLimit: int,
    passingScore: int,
    isReview: bool,
    aiGenerated: bool,
    createdAt: Time)

  /** A question as the schema stores it when type, difficulty and points are not given. */
  function NewQuestion(id: Id, questionText: string, questionType: Option<QuestionType>, options: seq<Choice>,
                       correctAnswer: Option<string>, explanation: Option<string>,
                       difficulty: Option<Difficulty>, pointsValue: Option<int>): (q: Question)
    ensures questionType.None? ==> q.questionType == MultipleChoice
    ensures difficulty.None? ==> q.difficulty == Medium
    ensures pointsValue.None? ==> q.pointsValue == 1
    ensures questionType.Some? ==> q.questionType == questionType.value
    ensures difficulty.Some? ==> q.difficulty == difficulty.value
    ensures pointsValue.Some? ==> q.pointsValue == pointsValue.value
  {
    Question(id, questionText,
             if questionType.Some? then questionType.value else MultipleChoice,
             options, correctAnswer, explanation,
             if difficulty.Some? then difficulty.value else Medium,
             if pointsValue.Some? then pointsValue.value else 1)
  }

  /** A quiz with the schema's defaults; the title is stored trimmed. */
  function NewQuiz(id: Id, title: string, user: Id, questions: seq<Question>, now: Time): (z: Quiz)
    ensures z.timeLimit == 5 && z.passingScore == 70
    ensures !z.isReview && z.aiGenerated
    ensures z.questions == questions && z.user == user && z.createdAt == now
    ensures |z.title| <= |title|
  {
    Quiz(id, Text.Trim(title), None, None, None, None, user, questions, 5, 70, false, true, now)
  }

  /**
   * The required checks on a question. `correctAnswer` is required for
   * true/false and short-answer questions. The option fields declare
   * themselves required for multiple-choice questions, but their condition
   * reads `questionType` from the option itself, which has no such field, so
   * they never are.
   */
  predicate ValidQuestion(q: Question) {
    && q.questionText != ""
    && (q.questionType == TrueFalse || q.questionType == ShortAnswer ==> q.correctAnswer.Some?)
  }

  /** The required checks on a quiz: a non-empty title and valid questions. */
  predicate ValidQuiz(z: Quiz) {
    && z.title != ""
    && forall i :: 0 <= i < |z.questions| ==> ValidQuestion(z.questions[i])
  }

  /**
   * A multiple-choice question whose options carry neither text nor a
   * correctness flag still passes validation.
   */
  lemma OptionFieldsNeverRequired(id: Id, text: string, options: seq<Choice>)
    requires text != ""
    requires forall k :: 0 <= k < |options| ==> options[k].text.None? && options[k].isCorrect.None?
    ensures ValidQuestion(NewQuestion(id, text, None, options, None, None, None, None))
    ensures NewQuestion(id, text, None, options, None, None, None, None).questionType == MultipleChoice
  {
  }

  /** A true/false or short-answer question without a correct answer is rejected. */
  lemma MissingCorrectAnswerRejected(q: Question)
    requires q.questionType != MultipleChoice && q.correctAnswer.None?
    ensures !ValidQuestion(q)
  {
  }
}
