/**
 * Quiz submission (server/src/routes/quiz.routes.js): the scoring loop that
 * grades each answer, totals the points and collects the concepts to review;
 * the percentage, pass and review flags of the saved result; the roadmap
 * update made when the quiz is passed; and the delivery timer created
 * afterwards. The defaults of the question mapping in `/generate` are here too.
 *
 * Short answers are graded by an AI service; its verdict enters as the
 * function `grade`. The delivery interval it computes enters as `TimerData`.
 */
module QuizRoutes {
  import opened Common
  import Text
  import opened QuizSchema
  import opened QuizResultSchema
  import opened TimerSchema
  import opened RoadmapSchema
  import opened RoadmapRoutes

  // ---------------------------------------------------------------------------
  // Defaults of the `/generate` question mapping

  /** `question.difficulty || 'medium'`: a missing or empty difficulty becomes "medium". */
  function MappedDifficulty(d: Option<string>): (r: string)
    ensures r != ""
    ensures d.Some? && d.value != "" ==> r == d.value
    ensures d.None? || d.value == "" ==> r == "medium"
  {
    if d.Some? && d.value != "" then d.value else "medium"
  }

  /** `question.pointsValue || 1`: a missing or zero value becomes 1. */
  function MappedPoints(p: Option<int>): (r: int)
    ensures r != 0
    ensures p.Some? && p.value != 0 ==> r == p.value
    ensures p.None? || p.value == 0 ==> r == 1
  {
    if p.Some? && p.value != 0 then p.value else 1
  }

  // ---------------------------------------------------------------------------
  // Grading one answer

  /** The short-answer service's verdict: correctness and the points it grants. */
  datatype Verdict = Verdict(isCorrect: bool, points: int)

  /**
   * The evaluation of one answer: the `isCorrect` value (`None` when it is
   * left `undefined`) and the points earned, or a thrown TypeError.
   */
  datatype Eval = Graded(correct: Option<bool>, points: int) | Throws

  /** The id strings of the options flagged correct, in option order. */
  function CorrectIds(options: seq<Choice>): (ids: seq<string>)
    ensures |ids| <= |options|
    ensures forall c :: c in ids <==>
              exists k :: 0 <= k < |options| && options[k].isCorrect == Some(true) && c == Text.NatToString(options[k].id)
  {
    if |options| == 0 then []
    else
      var rest := CorrectIds(options[1..]);
      assert forall k :: 0 <= k < |options| - 1 ==> options[1..][k] == options[k + 1];
      if options[0].isCorrect == Some(true) then [Text.NatToString(options[0].id)] + rest else rest
  }

  /** `options.find(opt => opt.isCorrect)`, as the index of the option found. */
  function FirstCorrect(options: seq<Choice>): (r: Option<nat>)
    ensures r.Some? ==> r.value < |options| && options[r.value].isCorrect == Some(true)
    ensures r.Some? ==> forall k :: 0 <= k < r.value ==> options[k].isCorrect != Some(true)
    ensures r.None? <==> forall k :: 0 <= k < |options| ==> options[k].isCorrect != Some(true)
  {
    if |options| == 0 then None
    else if options[0].isCorrect == Some(true) then Some(0)
    else
      match FirstCorrect(options[1..])
      case None => None
      case Some(k) => Some(k + 1)
  }

  /** A list answer matches when it is as long as the correct ids and contains each of them. */
  predicate SameSelection(correct: seq<string>, chosen: seq<string>) {
    |correct| == |chosen| && forall c :: c in correct ==> c in chosen
  }

  function PointsIf(ok: bool, points: int): int {
    if ok then points else 0
  }

  /** How the loop body grades answer `a` to question `q`. */
  function Evaluate(q: Question, a: Answer, grade: (Question, Answer) -> Verdict): Eval {
    match q.questionType
    case MultipleChoice =>
      if a.Choices? then
        var ok := SameSelection(CorrectIds(q.options), a.ids);
        Graded(Some(ok), PointsIf(ok, q.pointsValue))
      else if FirstCorrect(q.options).None? then
        Graded(None, 0)
      else if a.Missing? then
        Throws
      else
        var ok := Text.NatToString(q.options[FirstCorrect(q.options).value].id) == a.s;
        Graded(Some(ok), PointsIf(ok, q.pointsValue))
    case TrueFalse =>
      if q.correctAnswer.None? || !a.Str? then Throws
      else
        var ok := Text.SameIgnoringCase(q.correctAnswer.value, a.s);
        Graded(Some(ok), PointsIf(ok, q.pointsValue))
    case ShortAnswer =>
      var v := grade(q, a);
      Graded(Some(v.isCorrect), v.points)
  }

  /** Every element occurs once. */
  predicate Distinct<T(==)>(s: seq<T>) {
    forall i, j :: 0 <= i < j < |s| ==> s[i] != s[j]
  }

  function Elements<T>(s: seq<T>): set<T> {
    set x | x in s
  }

  lemma {:induction false} DistinctElements<T>(s: seq<T>)
    requires Distinct(s)
    ensures |Elements(s)| == |s|
  {
    if |s| > 0 {
      var rest := s[1..];
      assert Distinct(rest) by {
        forall i, j | 0 <= i < j < |rest| ensures rest[i] != rest[j] {
          assert rest[i] == s[i + 1] && rest[j] == s[j + 1];
        }
      }
      DistinctElements(rest);
      assert s[0] !in rest;
      assert Elements(s) == {s[0]} + Elements(rest);
    }
  }

  lemma {:induction false} CorrectIdsDistinct(options: seq<Choice>)
    requires forall j, k :: 0 <= j < k < |options| ==> options[j].id != options[k].id
    ensures Distinct(CorrectIds(options))
  {
    if |options| > 0 {
      var rest := options[1..];
      CorrectIdsDistinct(rest);
      if options[0].isCorrect == Some(true) {
        var c := Text.NatToString(options[0].id);
        assert c !in CorrectIds(rest) by {
          if c in CorrectIds(rest) {
            var k :| 0 <= k < |rest| && rest[k].isCorrect == Some(true) && c == Text.NatToString(rest[k].id);
            Text.NatToStringInjective(options[0].id, rest[k].id);
          }
        }
        var ids := [c] + CorrectIds(rest);
        forall i, j | 0 <= i < j < |ids| ensures ids[i] != ids[j] {
          if i == 0 {
            assert ids[j] in CorrectIds(rest);
          } else {
            assert ids[i] == CorrectIds(rest)[i - 1] && ids[j] == CorrectIds(rest)[j - 1];
          }
        }
      }
    }
  }

  /**
   * When neither list repeats an id, the length-and-inclusion test of a list
   * answer is exactly "the chosen ids are the correct ids".
   */
  lemma SameSelectionIsSetEquality(correct: seq<string>, chosen: seq<string>)
    requires Distinct(correct) && Distinct(chosen)
    ensures SameSelection(correct, chosen) <==> Elements(correct) == Elements(chosen)
  {
    DistinctElements(correct);
    DistinctElements(chosen);
    var a, b := Elements(correct), Elements(chosen);
    if a == b {
      forall c | c in correct ensures c in chosen {
        assert c in a;
      }
    }
    if SameSelection(correct, chosen) {
      forall c | c in a ensures c in b {
        assert c in correct;
      }
      assert |b - a| == |b| - |a| by {
        assert b == a + (b - a);
        assert a * (b - a) == {};
      }
      assert b == a;
    }
  }

  /**
   * A list answer to a multiple-choice question whose options have distinct
   * ids earns the points iff the chosen ids, none repeated, are exactly the
   * ids of the options flagged correct.
   */
  lemma MultiSelectCorrectIff(q: Question, ids: seq<string>, grade: (Question, Answer) -> Verdict)
    requires q.questionType == MultipleChoice
    requires forall j, k :: 0 <= j < k < |q.options| ==> q.options[j].id != q.options[k].id
    requires Distinct(ids)
    ensures var e := Evaluate(q, Choices(ids), grade);
      && e.Graded? && e.correct.Some?
      && (e.correct.value <==> Elements(ids) == set k | 0 <= k < |q.options| && q.options[k].isCorrect == Some(true)
                                                        :: Text.NatToString(q.options[k].id))
      && e.points == (if e.correct.value then q.pointsValue else 0)
  {
    var correct := CorrectIds(q.options);
    CorrectIdsDistinct(q.options);
    SameSelectionIsSetEquality(correct, ids);
    var s := set k | 0 <= k < |q.options| && q.options[k].isCorrect == Some(true) :: Text.NatToString(q.options[k].id);
    assert Elements(correct) == s;
  }

  /**
   * A single answer to a multiple-choice question: with no option flagged
   * correct `isCorrect` stays undefined and no points are earned; otherwise a
   * missing answer throws, and a given one is correct iff it is the id of the
   * first option flagged correct.
   */
  lemma SingleChoiceCorrectIff(q: Question, a: Answer, grade: (Question, Answer) -> Verdict)
    requires q.questionType == MultipleChoice && !a.Choices?
    ensures (forall k :: 0 <= k < |q.options| ==> q.options[k].isCorrect != Some(true)) ==>
              Evaluate(q, a, grade) == Graded(None, 0)
    ensures (exists k :: 0 <= k < |q.options| && q.options[k].isCorrect == Some(true)) && a.Missing? ==>
              Evaluate(q, a, grade).Throws?
  {
  }

  /** With k the first option flagged correct, a string answer is correct iff it is option k's id. */
  lemma SingleChoiceFirstCorrect(q: Question, s: string, k: int, grade: (Question, Answer) -> Verdict)
    requires q.questionType == MultipleChoice
    requires 0 <= k < |q.options| && q.options[k].isCorrect == Some(true)
    requires forall j :: 0 <= j < k ==> q.options[j].isCorrect != Some(true)
    ensures var ok := Text.NatToString(q.options[k].id) == s;
      Evaluate(q, Str(s), grade) == Graded(Some(ok), if ok then q.pointsValue else 0)
  {
    var f := FirstCorrect(q.options);
    assert f.Some?;
    if f.value < k {
      assert false;
    }
  }

  /**
   * A true/false answer is graded case-insensitively: it earns the points iff
   * it equals the correct answer once both are lower-cased, and changing the
   * case of the answer never changes the grade. A missing correct answer or a
   * non-string answer throws.
   */
  lemma TrueFalseIgnoresCase(q: Question, s: string, grade: (Question, Answer) -> Verdict)
    requires q.questionType == TrueFalse
    ensures q.correctAnswer.None? ==> Evaluate(q, Str(s), grade).Throws?
    ensures Evaluate(q, Missing, grade).Throws?
    ensures q.correctAnswer.Some? ==>
      && Evaluate(q, Str(s), grade).correct == Some(Text.ToLower(q.correctAnswer.value) == Text.ToLower(s))
      && Evaluate(q, Str(Text.ToLower(s)), grade) == Evaluate(q, Str(s), grade)
  {
    if q.correctAnswer.Some? {
      Text.ToLowerIdempotent(s);
      Text.SameIgnoringCaseIff(q.correctAnswer.value, s);
      Text.SameIgnoringCaseIff(q.correctAnswer.value, Text.ToLower(s));
    }
  }

  // ---------------------------------------------------------------------------
  // The scoring loop

  /** The first three space-separated words of the question text followed by "...". */
  function Concept(questionText: string): (c: string)
    ensures |c| >= 3 && c[|c| - 3..] == "..."
    ensures c[..|c| - 3] <= questionText
  {
    Text.FirstWords(questionText, 3) + "..."
  }

  /** What the loop has accumulated: the results, both point totals and the missed concepts. */
  datatype Tally = Tally(results: seq<QuestionResult>, total: int, earned: int, concepts: seq<string>)

  /** `answers[i]`: a missing entry is `undefined`. */
  function AnswerAt(answers: seq<Answer>, i: int): Answer {
    if 0 <= i < |answers| then answers[i] else Missing
  }

  /** One iteration of the loop on question q with answer a, which evaluated to `e`. */
  function Step(t: Tally, q: Question, a: Answer, e: Eval): Option<Tally> {
    match e
    case Throws => None
    case Graded(correct, points) =>
      Some(Tally(t.results + [QuestionResult(q.id, a, correct, points, 0)],
                 t.total + q.pointsValue,
                 t.earned + points,
                 if correct != Some(true) then t.concepts + [Concept(q.questionText)] else t.concepts))
  }

  /** The loop body's evaluation, with the short-answer verdicts `grade`. */
  function Grading(grade: (Question, Answer) -> Verdict): (Question, Answer) -> Eval {
    (q: Question, a: Answer) => Evaluate(q, a, grade)
  }

  /** The sum of the questions' point values. */
  function PointsTotal(qs: seq<Question>): int {
    if |qs| == 0 then 0 else PointsTotal(qs[..|qs| - 1]) + qs[|qs| - 1].pointsValue
  }

  /**
   * The loop run over the questions `qs` (a prefix of the quiz's questions),
   * each answer evaluated by `eval`: the tally, or `None` when an evaluation
   * throws.
   */
  function Scored(qs: seq<Question>, answers: seq<Answer>, eval: (Question, Answer) -> Eval): Option<Tally> {
    if |qs| == 0 then Some(Tally([], 0, 0, []))
    else
      match Scored(qs[..|qs| - 1], answers, eval)
      case None => None
      case Some(t) =>
        var a := AnswerAt(answers, |qs| - 1);
        Step(t, qs[|qs| - 1], a, eval(qs[|qs| - 1], a))
  }

  /** Once an evaluation throws, so does the whole loop. */
  lemma {:induction false} ScoredThrowsOnward(qs: seq<Question>, n: nat, answers: seq<Answer>,
                                              eval: (Question, Answer) -> Eval)
    requires n <= |qs| && Scored(qs[..n], answers, eval).None?
    ensures Scored(qs, answers, eval).None?
  {
    if n < |qs| {
      assert qs[..|qs| - 1][..n] == qs[..n];
      ScoredThrowsOnward(qs[..|qs| - 1], n, answers, eval);
    } else {
      assert qs[..n] == qs;
    }
  }

  /** A question whose evaluation throws ends the whole loop in `None`. */
  lemma ScoredStops(qs: seq<Question>, i: int, answers: seq<Answer>, eval: (Question, Answer) -> Eval, t: Tally)
    requires 0 <= i < |qs| && Scored(qs[..i], answers, eval) == Some(t)
    requires eval(qs[i], AnswerAt(answers, i)).Throws?
    ensures Scored(qs, answers, eval).None?
  {
    assert qs[..i + 1][..i] == qs[..i];
    ScoredThrowsOnward(qs, i + 1, answers, eval);
  }

  /**
   * The loop's next step on a question i evaluated to `e` without throwing:
   * the tally grows by the question's result, its points, and its concept
   * when it was missed.
   */
  lemma ScoredNext(qs: seq<Question>, i: int, answers: seq<Answer>, eval: (Question, Answer) -> Eval,
                   t: Tally, e: Eval)
    requires 0 <= i < |qs| && Scored(qs[..i], answers, eval) == Some(t)
    requires e == eval(qs[i], AnswerAt(answers, i)) && e.Graded?
    ensures Scored(qs[..i + 1], answers, eval) == Some(Tally(
              t.results + [QuestionResult(qs[i].id, AnswerAt(answers, i), e.correct, e.points, 0)],
              t.total + qs[i].pointsValue,
              t.earned + e.points,
              if e.correct != Some(true) then t.concepts + [Concept(qs[i].questionText)] else t.concepts))
  {
    assert qs[..i + 1][..i] == qs[..i];
  }

  /**
   * When the loop completes, the tally holds one result per question in
   * question order, carrying that question's evaluation, and the total of
   * all point values.
   */
  lemma {:induction false} ScoredResults(qs: seq<Question>, answers: seq<Answer>, eval: (Question, Answer) -> Eval)
    requires Scored(qs, answers, eval).Some?
    ensures var t := Scored(qs, answers, eval).value;
      && |t.results| == |qs| && t.total == PointsTotal(qs)
      && (forall i :: 0 <= i < |qs| ==>
            && t.results[i].question == qs[i].id
            && t.results[i].userAnswer == AnswerAt(answers, i)
            && t.results[i].answerTime == 0
            && eval(qs[i], AnswerAt(answers, i)) == Graded(t.results[i].isCorrect, t.results[i].pointsEarned))
  {
    if |qs| > 0 {
      var n := |qs| - 1;
      var init := qs[..n];
      ScoredResults(init, answers, eval);
      assert forall i :: 0 <= i < n ==> init[i] == qs[i];
    }
  }

  /** Every question not answered correctly contributes its concept. */
  lemma {:induction false} ScoredConceptsCover(qs: seq<Question>, answers: seq<Answer>, eval: (Question, Answer) -> Eval)
    requires Scored(qs, answers, eval).Some?
    ensures var t := Scored(qs, answers, eval).value;
      && |t.results| == |qs|
      && (forall i :: 0 <= i < |qs| && t.results[i].isCorrect != Some(true) ==>
            Concept(qs[i].questionText) in t.concepts)
  {
    if |qs| > 0 {
      var n := |qs| - 1;
      var init := qs[..n];
      ScoredConceptsCover(init, answers, eval);
      assert forall i :: 0 <= i < n ==> init[i] == qs[i];
    }
  }

  /** Every concept collected is that of a question not answered correctly. */
  lemma {:induction false} ScoredConceptsMissed(qs: seq<Question>, answers: seq<Answer>, eval: (Question, Answer) -> Eval)
    requires Scored(qs, answers, eval).Some?
    ensures var t := Scored(qs, answers, eval).value;
      && |t.results| == |qs|
      && (forall c :: c in t.concepts ==>
            exists i :: 0 <= i < |qs| && t.results[i].isCorrect != Some(true) && c == Concept(qs[i].questionText))
  {
    if |qs| > 0 {
      var n := |qs| - 1;
      var init := qs[..n];
      ScoredConceptsMissed(init, answers, eval);
      var t0 := Scored(init, answers, eval).value;
      var t := Scored(qs, answers, eval).value;
      forall c | c in t.concepts
        ensures exists i :: 0 <= i < |qs| && t.results[i].isCorrect != Some(true) && c == Concept(qs[i].questionText)
      {
        if c in t0.concepts {
          var i :| 0 <= i < n && t0.results[i].isCorrect != Some(true) && c == Concept(init[i].questionText);
          assert t.results[i] == t0.results[i] && init[i] == qs[i];
        } else {
          assert t.results[n].isCorrect != Some(true) && c == Concept(qs[n].questionText);
        }
      }
    }
  }

  /**
   * The `for` loop of the submit handler; it returns the accumulated tally,
   * or `None` when evaluating an answer throws.
   */
  method ScoreAnswers(qs: seq<Question>, answers: seq<Answer>, grade: (Question, Answer) -> Verdict)
    returns (r: Option<Tally>)
    ensures r == Scored(qs, answers, Grading(grade))
  {
    var results: seq<QuestionResult> := [];
    var totalPoints, earnedPoints := 0, 0;
    var concepts: seq<string> := [];
    var i := 0;
    while i < |qs|
      invariant 0 <= i <= |qs|
      invariant Scored(qs[..i], answers, Grading(grade)) == Some(Tally(results, totalPoints, earnedPoints, concepts))
    {
      ghost var before := Tally(results, totalPoints, earnedPoints, concepts);
      var q := qs[i];
      var userAnswer := if i < |answers| then answers[i] else Missing;
      assert userAnswer == AnswerAt(answers, i);
      var e := Evaluate(q, userAnswer, grade);
      assert e == Grading(grade)(q, userAnswer);
      if e.Throws? {
        ScoredStops(qs, i, answers, Grading(grade), before);
        return None;
      }
      totalPoints := totalPoints + q.pointsValue;
      earnedPoints := earnedPoints + e.points;
      if e.correct != Some(true) {
        concepts := concepts + [Concept(q.questionText)];
      }
      results := results + [QuestionResult(q.id, userAnswer, e.correct, e.points, 0)];
      ScoredNext(qs, i, answers, Grading(grade), before, e);
      i := i + 1;
    }
    assert qs[..i] == qs;
    r := Some(Tally(results, totalPoints, earnedPoints, concepts));
  }

  /**
   * With non-negative point values, and short-answer grants within each
   * question's value, the points earned lie between 0 and the total.
   */
  lemma {:induction false} EarnedWithinTotal(qs: seq<Question>, answers: seq<Answer>,
                                             grade: (Question, Answer) -> Verdict)
    requires forall i :: 0 <= i < |qs| ==> qs[i].pointsValue >= 0
    requires forall i :: 0 <= i < |qs| && qs[i].questionType == ShortAnswer ==>
               0 <= grade(qs[i], AnswerAt(answers, i)).points <= qs[i].pointsValue
    requires Scored(qs, answers, Grading(grade)).Some?
    ensures 0 <= Scored(qs, answers, Grading(grade)).value.earned <= Scored(qs, answers, Grading(grade)).value.total
  {
    if |qs| > 0 {
      var init := qs[..|qs| - 1];
      assert forall i :: 0 <= i < |init| ==> init[i] == qs[i];
      EarnedWithinTotal(init, answers, grade);
    }
  }

  // ---------------------------------------------------------------------------
  // De-duplicating the concepts: `[...new Set(list)]`

  /** The elements of s in order of first occurrence, each once. */
  function Dedup(s: seq<string>): (d: seq<string>)
    ensures Distinct(d)
    ensures forall x :: x in d <==> x in s
    ensures |d| <= |s|
  {
    if |s| == 0 then []
    else
      var d := Dedup(s[..|s| - 1]);
      assert forall x :: x in s <==> x in s[..|s| - 1] || x == s[|s| - 1];
      if s[|s| - 1] in d then d else d + [s[|s| - 1]]
  }

  /** A list without repeats is its own de-duplication. */
  lemma {:induction false} DedupOfDistinct(s: seq<string>)
    requires Distinct(s)
    ensures Dedup(s) == s
  {
    if |s| > 0 {
      var init := s[..|s| - 1];
      DedupOfDistinct(init);
      assert s[|s| - 1] !in init;
      assert init + [s[|s| - 1]] == s;
    }
  }

  /** De-duplication keeps the first element and is idempotent. */
  lemma DedupFirstAndIdempotent(s: seq<string>)
    ensures Dedup(Dedup(s)) == Dedup(s)
    ensures |s| > 0 ==> |Dedup(s)| > 0 && Dedup(s)[0] == s[0]
  {
    DedupOfDistinct(Dedup(s));
    if |s| > 0 {
      DedupStartsWithFirst(s);
    }
  }

  lemma {:induction false} DedupStartsWithFirst(s: seq<string>)
    requires |s| > 0
    ensures |Dedup(s)| > 0 && Dedup(s)[0] == s[0]
  {
    if |s| > 1 {
      var init := s[..|s| - 1];
      DedupStartsWithFirst(init);
      assert init[0] == s[0];
    }
  }

  // ---------------------------------------------------------------------------
  // The saved quiz result

  /**
   * The quiz result the handler saves, or `None` when the handler ends in a
   * server error before anything is saved: an evaluation threw, no points
   * at all in a zero total made the percentage NaN, the quiz has no roadmap,
   * or an `isCorrect` left undefined failed the required check. Points
   * earned against a zero total give an infinite percentage, which is saved.
   */
  function AttemptResult(quiz: Quiz, answers: Option<seq<Answer>>, grade: (Question, Answer) -> Verdict,
                         completionTime: Option<int>, userId: Id, now: Time): Option<QuizResult>
  {
    if answers.None? then None
    else
      match Scored(quiz.questions, answers.value, Grading(grade))
      case None => None
      case Some(t) =>
        match JsRoundPercent(t.earned, t.total)
        case None => None
        case Some(percentage) =>
          if quiz.roadmap.None? then None
          else
            var passed := AtLeast(percentage, quiz.passingScore);
            var result := QuizResult(userId, quiz.id, quiz.roadmap.value, quiz.content, t.results, t.earned,
                                     percentage, passed,
                                     if completionTime.Some? then completionTime.value else 0,
                                     !passed || !AtLeast(percentage, 80), Dedup(t.concepts), now);
            if ValidQuizResult(result) then Some(result) else None
  }

  /**
   * A saved result has one entry per question in order, its score is the
   * earned points, the percentage is their rounded share of the total,
   * `passed` holds iff the percentage reaches the passing score, a review is
   * needed iff the quiz was failed or scored under 80.
   */
  lemma AttemptOutcome(quiz: Quiz, answers: Option<seq<Answer>>, grade: (Question, Answer) -> Verdict,
                       completionTime: Option<int>, userId: Id, now: Time)
    requires AttemptResult(quiz, answers, grade, completionTime, userId, now).Some?
    ensures var res := AttemptResult(quiz, answers, grade, completionTime, userId, now).value;
      var t := Scored(quiz.questions, answers.value, Grading(grade)).value;
      && (t.total != 0 || t.earned != 0)
      && |res.questionResults| == |quiz.questions|
      && (forall i :: 0 <= i < |quiz.questions| ==> res.questionResults[i].question == quiz.questions[i].id)
      && res.totalScore == t.earned
      && t.total == PointsTotal(quiz.questions)
      && Some(res.percentageScore) == JsRoundPercent(t.earned, t.total)
      && (t.total != 0 ==> res.percentageScore == Finite(RoundPercent(t.earned, t.total)))
      && (res.passed <==> AtLeast(res.percentageScore, quiz.passingScore))
      && (res.reviewNeeded <==> !res.passed || !AtLeast(res.percentageScore, 80))
      && ValidQuizResult(res)
  {
    ScoredResults(quiz.questions, answers.value, Grading(grade));
  }

  /**
   * Point values that cancel out (a total of zero) with points earned: the
   * percentage is infinite, the attempt passes exactly when the earned points
   * are positive, and a passed attempt needs no review.
   */
  lemma ZeroTotalWithPoints(quiz: Quiz, answers: Option<seq<Answer>>, grade: (Question, Answer) -> Verdict,
                            completionTime: Option<int>, userId: Id, now: Time)
    requires AttemptResult(quiz, answers, grade, completionTime, userId, now).Some?
    requires PointsTotal(quiz.questions) == 0
    ensures var res := AttemptResult(quiz, answers, grade, completionTime, userId, now).value;
      && res.totalScore != 0
      && !res.percentageScore.Finite?
      && (res.passed <==> res.totalScore > 0)
      && (res.passed ==> !res.reviewNeeded)
      && (!res.passed ==> res.reviewNeeded)
  {
    ScoredResults(quiz.questions, answers.value, Grading(grade));
  }

  /**
   * No points earned against a zero total is `NaN`, which the required
   * number refuses: nothing is saved.
   */
  lemma ZeroOfZeroNotSaved(quiz: Quiz, answers: seq<Answer>, grade: (Question, Answer) -> Verdict,
                           completionTime: Option<int>, userId: Id, now: Time)
    requires Scored(quiz.questions, answers, Grading(grade)).Some?
    requires Scored(quiz.questions, answers, Grading(grade)).value.earned == 0
    requires PointsTotal(quiz.questions) == 0
    ensures AttemptResult(quiz, Some(answers), grade, completionTime, userId, now).None?
  {
    ScoredResults(quiz.questions, answers, Grading(grade));
  }

  /** The concepts to review are the missed questions' concepts, each listed once. */
  lemma AttemptConcepts(quiz: Quiz, answers: Option<seq<Answer>>, grade: (Question, Answer) -> Verdict,
                        completionTime: Option<int>, userId: Id, now: Time)
    requires AttemptResult(quiz, answers, grade, completionTime, userId, now).Some?
    ensures var res := AttemptResult(quiz, answers, grade, completionTime, userId, now).value;
      && |res.questionResults| == |quiz.questions|
      && Distinct(res.conceptsToReview)
      && (forall i :: 0 <= i < |quiz.questions| && !res.questionResults[i].isCorrect.value ==>
            Concept(quiz.questions[i].questionText) in res.conceptsToReview)
      && (forall c :: c in res.conceptsToReview ==>
            exists i :: 0 <= i < |quiz.questions| && !res.questionResults[i].isCorrect.value
                        && c == Concept(quiz.questions[i].questionText))
  {
    var t := Scored(quiz.questions, answers.value, Grading(grade)).value;
    var res := AttemptResult(quiz, answers, grade, completionTime, userId, now).value;
    assert res.questionResults == t.results && res.conceptsToReview == Dedup(t.concepts);
    assert ValidQuizResult(res);
    ScoredConceptsCover(quiz.questions, answers.value, Grading(grade));
    ScoredConceptsMissed(quiz.questions, answers.value, Grading(grade));
  }

  /**
   * With a passing score of at most 80 a review is needed exactly when the
   * percentage is under 80; with a higher passing score exactly when the quiz
   * was failed.
   */
  lemma ReviewThreshold(quiz: Quiz, answers: Option<seq<Answer>>, grade: (Question, Answer) -> Verdict,
                        completionTime: Option<int>, userId: Id, now: Time)
    requires AttemptResult(quiz, answers, grade, completionTime, userId, now).Some?
    ensures var res := AttemptResult(quiz, answers, grade, completionTime, userId, now).value;
      && (quiz.passingScore <= 80 ==> (res.reviewNeeded <==> !AtLeast(res.percentageScore, 80)))
      && (quiz.passingScore > 80 ==> (res.reviewNeeded <==> !res.passed))
  {
  }

  /**
   * With non-negative point values and no short-answer questions, the
   * percentage of a saved result is finite and lies in 0..100.
   */
  lemma {:induction false} PercentageInRange(quiz: Quiz, answers: Option<seq<Answer>>, grade: (Question, Answer) -> Verdict,
                                             completionTime: Option<int>, userId: Id, now: Time)
    requires forall i :: 0 <= i < |quiz.questions| ==> quiz.questions[i].pointsValue >= 0
    requires forall i :: 0 <= i < |quiz.questions| ==> quiz.questions[i].questionType != ShortAnswer
    requires AttemptResult(quiz, answers, grade, completionTime, userId, now).Some?
    ensures AttemptResult(quiz, answers, grade, completionTime, userId, now).value.percentageScore.Finite?
    ensures 0 <= AttemptResult(quiz, answers, grade, completionTime, userId, now).value.percentageScore.value <= 100
  {
    var t := Scored(quiz.questions, answers.value, Grading(grade)).value;
    EarnedWithinTotal(quiz.questions, answers.value, grade);
    RoundPercentInRange(t.earned, t.total);
  }

  /**
   * An `isCorrect` left undefined (a single multiple-choice answer to a
   * question with no option flagged correct) makes the whole submission fail.
   */
  lemma UndefinedCorrectnessFails(quiz: Quiz, answers: seq<Answer>, grade: (Question, Answer) -> Verdict,
                                  completionTime: Option<int>, userId: Id, now: Time, i: int)
    requires 0 <= i < |quiz.questions| && quiz.questions[i].questionType == MultipleChoice
    requires !AnswerAt(answers, i).Choices?
    requires forall k :: 0 <= k < |quiz.questions[i].options| ==> quiz.questions[i].options[k].isCorrect != Some(true)
    ensures AttemptResult(quiz, Some(answers), grade, completionTime, userId, now).None?
  {
    var r := Scored(quiz.questions, answers, Grading(grade));
    if r.Some? {
      ScoredResults(quiz.questions, answers, Grading(grade));
    }
  }

  // ---------------------------------------------------------------------------
  // Locating a topic by id: the nested `for...of` with `break`

  /** The first topic with the given id in module-major order, as (module, topic) indexes. */
  function FindTopic(modules: seq<Module>, id: Id): (r: Option<(nat, nat)>)
    ensures r.Some? ==> FirstMatch(modules, id, r.value.0, r.value.1)
    ensures r.None? ==> forall i, j :: 0 <= i < |modules| && 0 <= j < |modules[i].topics| ==> modules[i].topics[j].id != id
  {
    if |modules| == 0 then None
    else
      match FindIn(modules[0].topics, id)
      case Some(j) => Some((0, j))
      case None =>
        match FindTopic(modules[1..], id)
        case None => None
        case Some(p) =>
          assert forall i :: 1 <= i < |modules| ==> modules[1..][i - 1] == modules[i];
          Some((p.0 + 1, p.1))
  }

  /** The index of the first topic with the given id. */
  function FindIn(topics: seq<Topic>, id: Id): (r: Option<nat>)
    ensures r.Some? ==> r.value < |topics| && topics[r.value].id == id
    ensures r.Some? ==> forall j :: 0 <= j < r.value ==> topics[j].id != id
    ensures r.None? ==> forall j :: 0 <= j < |topics| ==> topics[j].id != id
  {
    if |topics| == 0 then None
    else if topics[0].id == id then Some(0)
    else
      match FindIn(topics[1..], id)
      case None => None
      case Some(j) => Some(j + 1)
  }

  /** (mi, ti) holds the id and no topic before it in module-major order does. */
  predicate FirstMatch(modules: seq<Module>, id: Id, mi: int, ti: int) {
    && 0 <= mi < |modules| && 0 <= ti < |modules[mi].topics|
    && modules[mi].topics[ti].id == id
    && (forall i, j :: 0 <= i < mi && 0 <= j < |modules[i].topics| ==> modules[i].topics[j].id != id)
    && (forall j :: 0 <= j < ti ==> modules[mi].topics[j].id != id)
  }

  lemma FirstMatchUnique(modules: seq<Module>, id: Id, a: int, b: int, c: int, d: int)
    requires FirstMatch(modules, id, a, b) && FirstMatch(modules, id, c, d)
    ensures a == c && b == d
  {
  }

  /** The nested search loop, leaving both loops at the first topic whose id matches. */
  method LocateTopic(modules: seq<Module>, id: Id) returns (found: Option<(nat, nat)>)
    ensures found == FindTopic(modules, id)
  {
    var mi := 0;
    while mi < |modules|
      invariant 0 <= mi <= |modules|
      invariant forall i, j :: 0 <= i < mi && 0 <= j < |modules[i].topics| ==> modules[i].topics[j].id != id
    {
      var ti := 0;
      while ti < |modules[mi].topics|
        invariant 0 <= ti <= |modules[mi].topics|
        invariant forall j :: 0 <= j < ti ==> modules[mi].topics[j].id != id
      {
        if modules[mi].topics[ti].id == id {
          var r := FindTopic(modules, id);
          if r.Some? {
            FirstMatchUnique(modules, id, mi, ti, r.value.0, r.value.1);
          }
          return Some((mi, ti));
        }
        ti := ti + 1;
      }
      mi := mi + 1;
    }
    found := None;
  }

  // ---------------------------------------------------------------------------
  // The roadmap update of a passed quiz

  /**
   * The pass branch's change to the matched topic (mi, ti) before the
   * progress is recomputed: the topic is completed and stamped, its module is
   * completed and stamped only when all its topics now are (it is never
   * cleared here), and the pointer advances.
   */
  function PassTopic(r: Roadmap, mi: int, ti: int, now: Time): (r': Roadmap)
    requires ValidTopicIndex(r, mi, ti)
    ensures ValidTopicIndex(r', mi, ti)
  {
    Advance(MarkPassed(r, mi, ti, now), mi, ti, now)
  }

  /** The flag updates of `PassTopic`, before the pointer moves. */
  function MarkPassed(r: Roadmap, mi: int, ti: int, now: Time): (r': Roadmap)
    requires ValidTopicIndex(r, mi, ti)
    ensures ValidTopicIndex(r', mi, ti)
  {
    var r1 := WithTopic(r, mi, ti, r.modules[mi].topics[ti].(completed := true, completedAt := Some(now)));
    var m := r1.modules[mi];
    if AllTopicsCompleted(m.topics)
    then r1.(modules := r1.modules[mi := m.(completed := true, completedAt := Some(now))])
    else r1
  }

  /**
   * The pass branch on roadmap r for the quiz's topic id: the first matching
   * topic is passed, and the progress is recomputed even when no topic
   * matched. A quiz without a topic throws at the first comparison, and a
   * roadmap without topics gets a NaN progress that cannot be saved; both end
   * in a server error with the roadmap unsaved.
   */
  function CompleteTopicById(r: Roadmap, topicId: Option<Id>, now: Time): (u: Update)
    ensures u.status == Ok || u.status == ServerError
    ensures u.status == ServerError ==> u.doc == r
  {
    if TopicCount(r.modules) == 0 || topicId.None? then Update(ServerError, r)
    else
      match FindTopic(r.modules, topicId.value)
      case None => Update(Ok, r.(progress := Progress(r.modules)))
      case Some((mi, ti)) =>
        var r3 := PassTopic(r, mi, ti, now);
        TopicCountAtLeast(r3.modules, mi);
        Update(Ok, r3.(progress := Progress(r3.modules)))
  }

  /** A quiz with a topic id and a roadmap with topics is answered with Ok; otherwise with a server error. */
  lemma CompleteTopicByIdStatus(r: Roadmap, topicId: Option<Id>, now: Time)
    ensures CompleteTopicById(r, topicId, now).status == Ok <==> topicId.Some? && TopicCount(r.modules) > 0
  {
  }

  /** When no topic has the id, only the progress is recomputed. */
  lemma CompleteTopicByIdNoMatch(r: Roadmap, id: Id, now: Time)
    requires TopicCount(r.modules) > 0
    requires forall i, j :: 0 <= i < |r.modules| && 0 <= j < |r.modules[i].topics| ==> r.modules[i].topics[j].id != id
    ensures CompleteTopicById(r, Some(id), now).doc == r.(progress := Progress(r.modules))
  {
  }

  /** With a match, the result is the passed topic's roadmap with its progress recomputed. */
  lemma CompleteTopicByIdFound(r: Roadmap, id: Id, mi: int, ti: int, now: Time)
    requires FirstMatch(r.modules, id, mi, ti)
    ensures TopicCount(r.modules) > 0
    ensures var r3 := PassTopic(r, mi, ti, now);
      TopicCount(r3.modules) > 0 && CompleteTopicById(r, Some(id), now).doc == r3.(progress := Progress(r3.modules))
  {
    TopicCountAtLeast(r.modules, mi);
    TopicCountAtLeast(PassTopic(r, mi, ti, now).modules, mi);
    var f := FindTopic(r.modules, id);
    FirstMatchUnique(r.modules, id, mi, ti, f.value.0, f.value.1);
  }

  /**
   * Passing topic (mi, ti): that topic is completed and stamped, every other
   * topic (a later one with the same id included) and every other module is
   * unchanged, the module becomes completed iff all its topics now are or it
   * already was, and the pointer takes the step `Advance` defines, the one the
   * progress route takes.
   */
  lemma PassTopicEffect(r: Roadmap, mi: int, ti: int, now: Time)
    requires ValidTopicIndex(r, mi, ti)
    ensures var r' := PassTopic(r, mi, ti, now);
      var a := Advance(r, mi, ti, now);
      var m := r.modules[mi];
      var m' := r'.modules[mi];
      && |r'.modules| == |r.modules| && |m'.topics| == |m.topics|
      && m'.topics[ti] == m.topics[ti].(completed := true, completedAt := Some(now))
      && (forall j :: 0 <= j < |m.topics| && j != ti ==> m'.topics[j] == m.topics[j])
      && (forall i :: 0 <= i < |r.modules| && i != mi ==> r'.modules[i] == r.modules[i])
      && (m'.completed <==> m.completed || forall j :: 0 <= j < |m'.topics| ==> m'.topics[j].completed)
      && (m'.completedAt == if AllTopicsCompleted(m'.topics) then Some(now) else m.completedAt)
      && r'.currentModule == a.currentModule && r'.currentTopic == a.currentTopic
      && r'.completedAt == a.completedAt
  {
  }

  /** Passing a topic completes one more topic unless it was already completed. */
  lemma {:induction false} PassTopicCounts(r: Roadmap, mi: int, ti: int, now: Time)
    requires ValidTopicIndex(r, mi, ti)
    ensures var r' := PassTopic(r, mi, ti, now);
      && TopicCount(r'.modules) == TopicCount(r.modules)
      && CompletedCount(r'.modules) + Bit(r.modules[mi].topics[ti].completed) == CompletedCount(r.modules) + 1
  {
    var m := r.modules[mi];
    var t := m.topics[ti].(completed := true, completedAt := Some(now));
    var r1 := WithTopic(r, mi, ti, t);
    var m1 := r1.modules[mi];
    CompletedInUpdate(m.topics, ti, t);
    CountsUpdate(r.modules, mi, m1);
    CountsUpdate(r1.modules, mi, m1.(completed := true, completedAt := Some(now)));
    assert r1.modules[mi := m1.(completed := true, completedAt := Some(now))][mi] == m1.(completed := true, completedAt := Some(now));
  }

  /** Passing a quiz never lowers the roadmap's progress, which stays in 0..100. */
  lemma CompleteTopicByIdMonotonic(r: Roadmap, id: Id, now: Time)
    requires TopicCount(r.modules) > 0
    ensures var r' := CompleteTopicById(r, Some(id), now).doc;
      && 0 <= r'.progress <= 100
      && Progress(r.modules) <= r'.progress
  {
    var f := FindTopic(r.modules, id);
    if f.Some? {
      var (mi, ti) := f.value;
      CompleteTopicByIdFound(r, id, mi, ti, now);
      PassTopicCounts(r, mi, ti, now);
      var r3 := PassTopic(r, mi, ti, now);
      RoundPercentMonotonic(CompletedCount(r.modules), CompletedCount(r3.modules), TopicCount(r.modules));
    }
  }

  /** Marking a topic passed keeps completed modules fully completed and leaves the pointer alone. */
  lemma MarkPassedPreserves(r: Roadmap, mi: int, ti: int, now: Time)
    requires ValidTopicIndex(r, mi, ti) && ModulesConsistent(r) && PointerInRange(r)
    ensures ModulesConsistent(MarkPassed(r, mi, ti, now)) && PointerInRange(MarkPassed(r, mi, ti, now))
  {
    var r' := MarkPassed(r, mi, ti, now);
    forall i | 0 <= i < |r'.modules| && r'.modules[i].completed
      ensures AllTopicsCompleted(r'.modules[i].topics)
    {
      if i != mi {
        assert r'.modules[i] == r.modules[i];
      } else {
        var ts := r'.modules[mi].topics;
        forall j | 0 <= j < |ts|
          ensures ts[j].completed
        {
          if j != ti {
            assert ts[j] == r.modules[mi].topics[j];
          }
        }
      }
    }
  }

  /** The pass branch keeps a roadmap's completed modules consistent and its pointer in range. */
  lemma CompleteTopicByIdPreserves(r: Roadmap, topicId: Option<Id>, now: Time)
    requires ModulesConsistent(r) && PointerInRange(r)
    ensures ModulesConsistent(CompleteTopicById(r, topicId, now).doc)
    ensures PointerInRange(CompleteTopicById(r, topicId, now).doc)
  {
    if TopicCount(r.modules) > 0 && topicId.Some? {
      var f := FindTopic(r.modules, topicId.value);
      if f.Some? {
        var (mi, ti) := f.value;
        CompleteTopicByIdFound(r, topicId.value, mi, ti, now);
        MarkPassedPreserves(r, mi, ti, now);
        AdvanceKeepsPointerInRange(MarkPassed(r, mi, ti, now), mi, ti, now);
      }
    }
  }

  /** The pass branch run on the loaded roadmap document. */
  method CompleteQuizTopic(doc: RoadmapDoc, topicId: Option<Id>, now: Time) returns (status: Status)
    modifies doc
    ensures status == CompleteTopicById(old(doc.Value()), topicId, now).status
    ensures doc.Value() == CompleteTopicById(old(doc.Value()), topicId, now).doc
  {
    if TopicCount(doc.modules) == 0 || topicId.None? {
      return ServerError;
    }
    ghost var before := doc.Value();
    var found := LocateTopic(doc.modules, topicId.value);
    if found.Some? {
      var (mi, ti) := found.value;
      CompleteTopicByIdFound(before, topicId.value, mi, ti, now);
      var m := doc.modules[mi];
      var topics := m.topics[ti := m.topics[ti].(completed := true, completedAt := Some(now))];
      if AllTopicsCompleted(topics) {
        doc.modules := doc.modules[mi := m.(topics := topics, completed := true, completedAt := Some(now))];
      } else {
        doc.modules := doc.modules[mi := m.(topics := topics)];
      }
      assert doc.Value() == MarkPassed(before, mi, ti, now);
      doc.AdvancePointer(mi, ti, now);
      assert doc.Value() == PassTopic(before, mi, ti, now);
      TopicCountAtLeast(doc.modules, mi);
    }
    doc.progress := Progress(doc.modules);
    status := Ok;
  }

  // ---------------------------------------------------------------------------
  // The timer created after a submission and the whole handler

  /** The next delivery as the timing service computed it. */
  datatype TimerData = TimerData(intervalMinutes: int, isReview: bool)

  /**
   * The timer saved after grading: due `intervalMinutes` after now, a review
   * timer keeps the quiz's topic, an ordinary one has none.
   */
  function SubmissionTimer(id: Id, quiz: Quiz, userId: Id, roadmap: Id, data: TimerData, now: Time): (t: Timer)
    ensures t.nextContentDelivery == now + data.intervalMinutes * MillisPerMinute
    ensures t.topic == (if data.isReview then quiz.topic else None)
    ensures t.isReview == data.isReview && t.interval == data.intervalMinutes
    ensures t.active && !t.notificationSent && !t.contentDelivered
    ensures t.user == userId && t.roadmap == roadmap && t.content == quiz.content
  {
    NewTimer(id, userId, roadmap, now + data.intervalMinutes * MillisPerMinute, now)
      .(topic := if data.isReview then quiz.topic else None, content := quiz.content,
        isReview := data.isReview, interval := data.intervalMinutes)
  }

  /** What `POST /:id/submit` saved besides the roadmap. */
  datatype Submission = Submission(status: Status, result: Option<QuizResult>, timer: Option<Timer>)

  /**
   * `POST /:id/submit`. `quiz` and `doc` are the quiz and the roadmap stored
   * under the requested ids, if any; `timerId` is the id the new timer gets.
   */
  method Submit(quiz: Option<Quiz>, doc: RoadmapDoc?, userId: Id, answers: Option<seq<Answer>>,
                completionTime: Option<int>, grade: (Question, Answer) -> Verdict,
                data: TimerData, timerId: Id, now: Time)
    returns (s: Submission)
    modifies doc
    ensures quiz.None? || quiz.value.user != userId || doc == null || doc.user != userId
            || quiz.value.roadmap != Some(doc.id) ==>
      s == Submission(NotFound, None, None) && (doc != null ==> doc.Value() == old(doc.Value()))
    ensures quiz.Some? && quiz.value.user == userId && doc != null && doc.user == userId
            && quiz.value.roadmap == Some(doc.id) ==>
      var res := AttemptResult(quiz.value, answers, grade, completionTime, userId, now);
      && s.result == res
      && (res.None? ==> s.status == ServerError && s.timer.None? && doc.Value() == old(doc.Value()))
      && (res.Some? && !res.value.passed ==>
            doc.Value() == old(doc.Value()) && s.status == Ok
            && s.timer == Some(SubmissionTimer(timerId, quiz.value, userId, res.value.roadmap, data, now)))
      && (res.Some? && res.value.passed ==>
            var u := CompleteTopicById(old(doc.Value()), quiz.value.topic, now);
            && doc.Value() == u.doc && s.status == u.status
            && s.timer == (if u.status == Ok
                           then Some(SubmissionTimer(timerId, quiz.value, userId, res.value.roadmap, data, now))
                           else None))
  {
    if quiz.None? || quiz.value.user != userId || doc == null || doc.user != userId || quiz.value.roadmap != Some(doc.id) {
      return Submission(NotFound, None, None);
    }
    var z := quiz.value;
    if answers.None? {
      return Submission(ServerError, None, None);
    }
    var tally := ScoreAnswers(z.questions, answers.value, grade);
    if tally.None? {
      return Submission(ServerError, None, None);
    }
    var t := tally.value;
    var percentage := JsRoundPercent(t.earned, t.total);
    if percentage.None? {
      return Submission(ServerError, None, None);
    }
    var percentageScore := percentage.value;
    var passed := AtLeast(percentageScore, z.passingScore);
    var result := QuizResult(userId, z.id, z.roadmap.value, z.content, t.results, t.earned, percentageScore, passed,
                             if completionTime.Some? then completionTime.value else 0,
                             !passed || !AtLeast(percentageScore, 80), Dedup(t.concepts), now);
    if !ValidQuizResult(result) {
      return Submission(ServerError, None, None);
    }
    if passed {
      var status := CompleteQuizTopic(doc, z.topic, now);
      if status != Ok {
        return Submission(status, Some(result), None);
      }
    }
    s := Submission(Ok, Some(result), Some(SubmissionTimer(timerId, z, userId, z.roadmap.value, data, now)));
  }
}
