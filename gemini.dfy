/**
 * The post-processing the AI service (server/src/services/gemini.service.js)
 * applies to model answers: pulling a JSON text out of a reply, checking the
 * shape of a roadmap or quiz, filling in quiz defaults, the fallback quiz,
 * and the word count and reading time of generated content.
 *
 * The model calls themselves are not modelled: a reply is an input (`None`
 * when the call failed) and `JSON.parse` is the parameter `parse`.
 */
module Gemini {
  import opened Common
  import opened Json
  import Text

  // ---------------------------------------------------------------------------
  // Searching text

  /** `pat` occurs in `s` at index `i`. */
  predicate OccursAt(s: string, pat: string, i: nat) {
    i + |pat| <= |s| && s[i..i + |pat|] == pat
  }

  /** An occurrence inside a slice is an occurrence in the whole text. */
  lemma OccursInSlice(s: string, lo: nat, hi: nat, pat: string, i: nat)
    requires lo <= hi <= |s|
    ensures OccursAt(s[lo..hi], pat, i) ==> lo + i + |pat| <= hi && OccursAt(s, pat, lo + i)
  {
    if i + |pat| <= hi - lo {
      var a := s[lo..hi][i..i + |pat|];
      var b := s[lo + i..lo + i + |pat|];
      assert |a| == |b|;
      forall k | 0 <= k < |a|
        ensures a[k] == b[k]
      {
        assert a[k] == s[lo..hi][i + k] == s[lo + i + k];
      }
      assert a == b;
    }
  }

  /** An occurrence starts with the pattern's first character. */
  lemma OccursAtHead(s: string, pat: string, i: nat)
    requires |pat| > 0
    ensures OccursAt(s, pat, i) ==> i < |s| && s[i] == pat[0]
  {
    if OccursAt(s, pat, i) {
      assert s[i..i + |pat|][0] == s[i];
    }
  }

  /** The first index at or after `from` where `pat` occurs. */
  function IndexOf(s: string, pat: string, from: nat): (r: Option<nat>)
    requires |pat| > 0
    ensures r.Some? ==> from <= r.value && OccursAt(s, pat, r.value)
    ensures r.Some? ==> forall i :: from <= i < r.value ==> !OccursAt(s, pat, i)
    ensures r.None? ==> forall i :: from <= i ==> !OccursAt(s, pat, i)
    decreases |s| - from
  {
    if from + |pat| > |s| then None
    else if OccursAt(s, pat, from) then Some(from)
    else IndexOf(s, pat, from + 1)
  }

  /** The first index holding `c`. */
  function FirstIndex(s: string, c: char): (r: Option<nat>)
    ensures r.Some? ==> r.value < |s| && s[r.value] == c && forall i :: 0 <= i < r.value ==> s[i] != c
    ensures r.None? ==> forall i :: 0 <= i < |s| ==> s[i] != c
  {
    if |s| == 0 then None
    else if s[0] == c then Some(0)
    else match FirstIndex(s[1..], c)
      case None => None
      case Some(i) => Some(i + 1)
  }

  /** The last index holding `c`. */
  function LastIndex(s: string, c: char): (r: Option<nat>)
    ensures r.Some? ==> r.value < |s| && s[r.value] == c && forall i :: r.value < i < |s| ==> s[i] != c
    ensures r.None? ==> forall i :: 0 <= i < |s| ==> s[i] != c
  {
    if |s| == 0 then None
    else if s[|s| - 1] == c then Some(|s| - 1)
    else LastIndex(s[..|s| - 1], c)
  }

  /**
   * `/{[\s\S]*}/`: the greedy match runs from the first `{` to the last `}`,
   * and there is one exactly when some `{` comes before some `}`.
   */
  function ObjectSpan(s: string): (r: Option<string>)
    ensures r.Some? <==> exists i, j :: 0 <= i < j < |s| && s[i] == '{' && s[j] == '}'
    ensures r.Some? ==> |r.value| >= 2 && r.value[0] == '{' && r.value[|r.value| - 1] == '}'
  {
    match (FirstIndex(s, '{'), LastIndex(s, '}'))
    case (Some(i), Some(j)) => if i < j then Some(s[i..j + 1]) else None
    case _ => None
  }

  // ---------------------------------------------------------------------------
  // The roadmap reply (gemini.service.js:99-126)

  const JsonFence := "```json\n"
  const PlainFence := "```\n"
  const FenceEnd := "\n```"

  /**
   * Where `/<open>([\s\S]*?)\n```/` matches: the first opener and the first
   * closer after it. When the first opener has no closer after it, no later
   * opener has one either, so there is no match.
   */
  function FenceMatch(s: string, open: string): (r: Option<(nat, nat)>)
    requires |open| > 0
    ensures r.Some? ==>
      && r.value.0 + |open| <= r.value.1
      && OccursAt(s, open, r.value.0) && OccursAt(s, FenceEnd, r.value.1)
      && (forall i :: 0 <= i < r.value.0 ==> !OccursAt(s, open, i))
      && (forall i :: r.value.0 + |open| <= i < r.value.1 ==> !OccursAt(s, FenceEnd, i))
    ensures r.None? ==>
      || (forall i :: 0 <= i ==> !OccursAt(s, open, i))
      || (IndexOf(s, open, 0).Some? &&
          forall i :: IndexOf(s, open, 0).value + |open| <= i ==> !OccursAt(s, FenceEnd, i))
  {
    match IndexOf(s, open, 0)
    case None => None
    case Some(p) =>
      match IndexOf(s, FenceEnd, p + |open|)
      case None => None
      case Some(q) => Some((p, q))
  }

  /** Group 1 of that match: the text between the opener and the closer, which holds no closer. */
  function FencedBody(s: string, open: string): (r: Option<string>)
    requires |open| > 0
    ensures r.Some? <==> FenceMatch(s, open).Some?
    ensures r.Some? ==> forall i :: 0 <= i ==> !OccursAt(r.value, FenceEnd, i)
  {
    match FenceMatch(s, open)
    case None => None
    case Some((p, q)) =>
      var b := s[p + |open|..q];
      forall i | 0 <= i
        ensures !OccursAt(b, FenceEnd, i)
      {
        OccursInSlice(s, p + |open|, q, FenceEnd, i);
      }
      Some(b)
  }

  /**
   * The JSON text of a roadmap reply: the body of the first ```` ```json ````
   * block, else of the first plain ```` ``` ```` block, else the span from the
   * first `{` to the last `}`. A block matched with an empty body does not
   * count, and the plain block is only looked for when there is no
   * ```` ```json ```` block at all.
   */
  function RoadmapJsonText(s: string): (r: Option<string>)
    ensures r.Some? ==> r.value != ""
    ensures r.None? <==>
      && (FencedBody(s, JsonFence).Some? ==> FencedBody(s, JsonFence).value == "")
      && (FencedBody(s, JsonFence).None? && FencedBody(s, PlainFence).Some? ==> FencedBody(s, PlainFence).value == "")
      && ObjectSpan(s).None?
  {
    var fenced := match FencedBody(s, JsonFence)
      case Some(b) => Some(b)
      case None => FencedBody(s, PlainFence);
    if fenced.Some? && fenced.value != "" then fenced else ObjectSpan(s)
  }

  /**
   * A JSON text inside a ```` ```json ```` block comes out as it went in,
   * whatever braces it holds, as long as it is not empty and does not
   * itself close the block.
   */
  lemma FencedRoundTrip(t: string)
    requires t != ""
    requires forall i :: 0 <= i ==> !OccursAt(t, FenceEnd, i)
    ensures RoadmapJsonText(JsonFence + t + FenceEnd) == Some(t)
  {
    var s := JsonFence + t + FenceEnd;
    var n := |JsonFence|;
    assert s[0..n] == JsonFence;
    assert IndexOf(s, JsonFence, 0) == Some(0);
    var end := n + |t|;
    assert s[n..end] == t;
    assert s[end..end + |FenceEnd|] == FenceEnd;
    forall i | n <= i < end
      ensures !OccursAt(s, FenceEnd, i)
    {
      if i + |FenceEnd| <= end {
        assert s[i..i + |FenceEnd|] == s[n..end][i - n..i - n + |FenceEnd|];
        assert !OccursAt(t, FenceEnd, i - n);
      } else if i + |FenceEnd| <= |s| {
        // the window holds the newline that starts the closing fence, at an
        // offset where the closer has a backtick
        assert s[end] == '\n';
        assert s[i..i + |FenceEnd|][end - i] == '\n';
        assert FenceEnd[end - i] == '`';
      }
    }
    assert OccursAt(s, FenceEnd, end);
    assert IndexOf(s, FenceEnd, n) == Some(end);
  }

  /** A reply that is a bare object without backticks is taken whole. */
  lemma BareObjectTakenWhole(s: string)
    requires |s| >= 2 && s[0] == '{' && s[|s| - 1] == '}'
    requires forall i :: 0 <= i < |s| ==> s[i] != '`'
    ensures RoadmapJsonText(s) == Some(s)
  {
    forall i | 0 <= i
      ensures !OccursAt(s, JsonFence, i) && !OccursAt(s, PlainFence, i)
    {
      OccursAtHead(s, JsonFence, i);
      OccursAtHead(s, PlainFence, i);
    }
    assert FirstIndex(s, '{') == Some(0);
    assert LastIndex(s, '}') == Some(|s| - 1);
    assert s[0..|s|] == s;
  }

  /** What the roadmap check demands: a truthy title and description and an array of modules. */
  predicate ValidRoadmapData(j: Json) {
    Truthy(Get(j, "title")) && Truthy(Get(j, "description")) && IsArray(Get(j, "modules"))
  }

  /**
   * The roadmap the service hands back, or `None` where it throws: no JSON
   * text, a text `parse` refuses, or data without the required shape.
   */
  function ExtractRoadmap(s: string, parse: string -> Option<Json>): (r: Option<Json>)
    ensures r.Some? <==>
      RoadmapJsonText(s).Some? && parse(RoadmapJsonText(s).value).Some?
      && ValidRoadmapData(parse(RoadmapJsonText(s).value).value)
    ensures r.Some? ==>
      && r.value.JObj? && r.value == parse(RoadmapJsonText(s).value).value
      && Get(r.value, "title").Some? && Get(r.value, "description").Some?
      && Get(r.value, "modules").Some? && Get(r.value, "modules").value.JArr?
  {
    match RoadmapJsonText(s)
    case None => None
    case Some(t) =>
      match parse(t)
      case None => None
      case Some(j) => if ValidRoadmapData(j) then Some(j) else None
  }

  // ---------------------------------------------------------------------------
  // The learning unit (gemini.service.js:149-152, 227-230, 380-381)

  /**
   * What the quiz and content requests say about their unit. Whether a
   * subtopic index was supplied at all is what matters, not its value.
   */
  datatype LearningUnit = LearningUnit(topicTitle: string, subtopicIndexGiven: bool, subtopicTitle: Option<string>)

  /** A subtopic request: an index was supplied and the subtopic title is truthy. */
  predicate IsSubtopic(u: LearningUnit) {
    u.subtopicIndexGiven && u.subtopicTitle.Some? && u.subtopicTitle.value != ""
  }

  function UnitTitle(u: LearningUnit): string {
    if IsSubtopic(u) then u.subtopicTitle.value else u.topicTitle
  }

  /**
   * The unit is named after the subtopic exactly for subtopic requests; a
   * subtopic title without an index, or an empty one, names the topic.
   */
  lemma UnitTitleChoice(u: LearningUnit)
    ensures IsSubtopic(u) <==> u.subtopicIndexGiven && u.subtopicTitle.Some? && u.subtopicTitle.value != ""
    ensures !u.subtopicIndexGiven ==> UnitTitle(u) == u.topicTitle
    ensures u.subtopicTitle.None? || u.subtopicTitle.value == "" ==> UnitTitle(u) == u.topicTitle
    ensures IsSubtopic(u) ==> UnitTitle(u) == u.subtopicTitle.value
  {
  }

  // ---------------------------------------------------------------------------
  // The quiz reply (gemini.service.js:305-359)

  const Fence := "```"

  /** The first index at or after `i` that is not whitespace. */
  function SkipSpaces(s: string, i: nat): (j: nat)
    requires i <= |s|
    ensures i <= j <= |s| && (forall k :: i <= k < j ==> Text.IsSpace(s[k])) && (j < |s| ==> !Text.IsSpace(s[j]))
    decreases |s| - i
  {
    if i < |s| && Text.IsSpace(s[i]) then SkipSpaces(s, i + 1) else i
  }

  /** The start of the whitespace run that ends at `hi`, no further back than `lo`. */
  function BackOverSpaces(s: string, lo: nat, hi: nat): (j: nat)
    requires lo <= hi <= |s|
    ensures lo <= j <= hi && (forall k :: j <= k < hi ==> Text.IsSpace(s[k])) && (lo < j ==> !Text.IsSpace(s[j - 1]))
    decreases hi - lo
  {
    if lo < hi && Text.IsSpace(s[hi - 1]) then BackOverSpaces(s, lo, hi - 1) else hi
  }

  /** Where the body starts: past the first fence, an optional `json` and whitespace. */
  function QuizBodyStart(s: string, p: nat): (start: nat)
    requires p + |Fence| <= |s|
    ensures p + |Fence| <= start <= |s|
    ensures forall k :: p + |Fence| <= k < start ==> s[k] != '`'
  {
    var a := p + |Fence|;
    var b := if a + 4 <= |s| && s[a..a + 4] == "json" then a + 4 else a;
    assert forall k :: a <= k < b ==> s[k] == s[a..a + 4][k - a];
    SkipSpaces(s, b)
  }

  /**
   * Group 1 of `/```(?:json)?\s*([\s\S]*?)\s*```/`: from the first fence,
   * past `json` and whitespace, up to the whitespace before the next fence.
   * The body holds no fence and neither starts nor ends with whitespace.
   */
  function QuizFenceBody(s: string): (r: Option<string>)
    ensures r.Some? ==> forall i :: 0 <= i ==> !OccursAt(r.value, Fence, i)
    ensures r.Some? && r.value != "" ==> !Text.IsSpace(r.value[0]) && !Text.IsSpace(r.value[|r.value| - 1])
  {
    match IndexOf(s, Fence, 0)
    case None => None
    case Some(p) =>
      var start := QuizBodyStart(s, p);
      match IndexOf(s, Fence, start)
      case None => None
      case Some(q) =>
        var e := BackOverSpaces(s, start, q);
        var b := s[start..e];
        forall i | 0 <= i
          ensures !OccursAt(b, Fence, i)
        {
          OccursInSlice(s, start, e, Fence, i);
        }
        Some(b)
  }

  /** A quiz reply has a fenced body exactly when it holds two fences that do not overlap. */
  lemma QuizFenceFound(s: string)
    ensures QuizFenceBody(s).Some? <==>
      exists i, j :: 0 <= i && i + |Fence| <= j && OccursAt(s, Fence, i) && OccursAt(s, Fence, j)
  {
    if i, j :| 0 <= i && i + |Fence| <= j && OccursAt(s, Fence, i) && OccursAt(s, Fence, j) {
      var p := IndexOf(s, Fence, 0).value;
      var start := QuizBodyStart(s, p);
      OccursAtHead(s, Fence, j);
    }
  }

  /**
   * The JSON text taken from a quiz reply that is not JSON as a whole:
   * the fenced body, else the `{`…`}` span, trimmed; an empty fenced body
   * is a failure even when the reply holds braces.
   */
  function QuizJsonText(s: string): (r: Option<string>)
    ensures r.Some? ==> r.value != ""
    ensures QuizFenceBody(s).Some? ==> r == if QuizFenceBody(s).value == "" then None else Some(Text.Trim(QuizFenceBody(s).value))
    ensures QuizFenceBody(s).None? ==> r.Some? == ObjectSpan(s).Some?
  {
    match QuizFenceBody(s)
    case Some(b) =>
      if b == "" then None
      else
        Text.TrimEndKeepsHead(b);
        Some(Text.Trim(b))
    case None =>
      match ObjectSpan(s)
      case None => None
      case Some(o) =>
        Text.TrimEndKeepsHead(o);
        Some(Text.Trim(o))
  }

  /** The parsed quiz: the whole reply when it parses, else the extracted text. */
  function ParsedQuiz(s: string, parse: string -> Option<Json>): (r: Option<Json>)
    ensures parse(s).Some? ==> r == parse(s)
    ensures parse(s).None? && QuizJsonText(s).None? ==> r.None?
  {
    match parse(s)
    case Some(j) => Some(j)
    case None =>
      match QuizJsonText(s)
      case None => None
      case Some(t) => parse(t)
  }

  /** The quiz check: an object whose `questions` is a non-empty array. */
  predicate ValidQuizData(q: Json) {
    && Truthy(Some(q)) && Truthy(Get(q, "questions")) && IsArray(Get(q, "questions"))
    && |Get(q, "questions").value.items| != 0
  }

  /** The questions of valid quiz data. */
  function Questions(q: Json): (qs: seq<Json>)
    requires ValidQuizData(q)
    ensures |qs| > 0 && Get(q, "questions") == Some(JArr(qs))
  {
    Get(q, "questions").value.items
  }

  /** The title a quiz without one gets: the topic title comes first for subtopics. */
  function DefaultQuizTitle(u: LearningUnit): (t: string)
    ensures |t| >= 6 + |UnitTitle(u)| && (IsSubtopic(u) ==> |t| >= 6 + |u.topicTitle|)
    ensures t[..6] == "Quiz: "
    ensures t[|t| - |UnitTitle(u)|..] == UnitTitle(u)
    ensures IsSubtopic(u) ==> t[6..6 + |u.topicTitle|] == u.topicTitle
  {
    "Quiz: " + (if IsSubtopic(u) then u.topicTitle + ": " else "") + UnitTitle(u)
  }

  const DefaultExplanation := "This answer is correct based on the learning material."
  const DefaultOptions := JArr([JStr("Option A"), JStr("Option B"), JStr("Option C"), JStr("Option D")])

  /**
   * The fix-up of one question, or `None` where it throws: the service code is
   * strict, so writing a field of `null` or of a primitive value is a
   * `TypeError`. An array question is kept as it is (a field set on an array
   * is not part of a JSON value).
   */
  function NormaliseQuestion(q: Json): (r: Option<Json>)
    ensures r.Some? <==> q.JObj? || q.JArr?
  {
    match q
    case JArr(_) => Some(q)
    case JObj(_) =>
      var q1 := if Truthy(Get(q, "explanation")) then q else Set(q, "explanation", JStr(DefaultExplanation));
      var opts := Get(q1, "options");
      Some(if Get(q1, "type") == Some(JStr("multipleChoice")) && (!Truthy(opts) || !IsArray(opts))
           then Set(Set(q1, "options", DefaultOptions), "answer", JNum(0))
           else q1)
    case _ => None
  }

  /**
   * A question object comes out with a truthy explanation, its own when it
   * had one; a multiple-choice question without an options array gets the
   * four default options and answer 0; every other field is kept.
   */
  lemma NormaliseQuestionEffect(q: Json)
    requires q.JObj?
    ensures var r := NormaliseQuestion(q).value;
      && r.JObj?
      && Truthy(Get(r, "explanation"))
      && (Truthy(Get(q, "explanation")) ==> Get(r, "explanation") == Get(q, "explanation"))
      && (!Truthy(Get(q, "explanation")) ==> Get(r, "explanation") == Some(JStr(DefaultExplanation)))
      && (Get(q, "type") == Some(JStr("multipleChoice")) && !IsArray(Get(q, "options")) ==>
            Get(r, "options") == Some(DefaultOptions) && Get(r, "answer") == Some(JNum(0)))
      && (!(Get(q, "type") == Some(JStr("multipleChoice")) && !IsArray(Get(q, "options"))) ==>
            Get(r, "options") == Get(q, "options") && Get(r, "answer") == Get(q, "answer"))
      && (forall k :: k != "explanation" && k != "options" && k != "answer" ==> Get(r, k) == Get(q, k))
  {
  }

  /** Fixing a fixed question changes nothing. */
  lemma NormaliseQuestionIdempotent(q: Json)
    requires NormaliseQuestion(q).Some?
    ensures NormaliseQuestion(NormaliseQuestion(q).value) == NormaliseQuestion(q)
  {
    if q.JObj? {
      var r := NormaliseQuestion(q).value;
      NormaliseQuestionEffect(q);
      assert Truthy(Get(r, "explanation"));
      assert Get(r, "type") == Some(JStr("multipleChoice")) ==> IsArray(Get(r, "options"));
      assert Set(r, "explanation", JStr(DefaultExplanation)) == r || Truthy(Get(r, "explanation"));
    }
  }

  /** `questions.map(...)`: every question fixed, in order, or `None` where one throws. */
  function NormaliseAll(qs: seq<Json>): (r: Option<seq<Json>>)
    ensures r.Some? <==> forall i :: 0 <= i < |qs| ==> NormaliseQuestion(qs[i]).Some?
    ensures r.Some? ==> |r.value| == |qs| && forall i :: 0 <= i < |qs| ==> NormaliseQuestion(qs[i]) == Some(r.value[i])
  {
    if |qs| == 0 then Some([])
    else
      match NormaliseQuestion(qs[0])
      case None => None
      case Some(x) =>
        match NormaliseAll(qs[1..])
        case None => None
        case Some(rest) =>
          assert forall i :: 1 <= i < |qs| ==> qs[i] == qs[1..][i - 1];
          Some([x] + rest)
  }

  /** The fix-up loop over the questions, one question at a time. */
  method NormaliseQuestions(qs: seq<Json>) returns (r: Option<seq<Json>>)
    ensures r == NormaliseAll(qs)
  {
    var out: seq<Json> := [];
    for i := 0 to |qs|
      invariant |out| == i
      invariant forall j :: 0 <= j < i ==> NormaliseQuestion(qs[j]) == Some(out[j])
    {
      var x := NormaliseQuestion(qs[i]);
      if x.None? {
        return None;
      }
      out := out + [x.value];
    }
    var all := NormaliseAll(qs);
    assert all.Some?;
    assert out == all.value;
    r := Some(out);
  }

  /** The quiz after the title default and the question fix-up, or `None` where a question throws. */
  function NormaliseQuiz(q: Json, u: LearningUnit): (r: Option<Json>)
    requires ValidQuizData(q)
    ensures r.Some? <==> NormaliseAll(Questions(q)).Some?
    ensures r.Some? ==>
      && r.value.JObj?
      && Get(r.value, "title") == (if Truthy(Get(q, "title")) then Get(q, "title") else Some(JStr(DefaultQuizTitle(u))))
      && Get(r.value, "questions") == Some(JArr(NormaliseAll(Questions(q)).value))
      && (forall k :: k != "title" && k != "questions" ==> Get(r.value, k) == Get(q, k))
  {
    var title := if Truthy(Get(q, "title")) then Get(q, "title").value else JStr(DefaultQuizTitle(u));
    var titled := Set(q, "title", title);
    match NormaliseAll(Questions(q))
    case None => None
    case Some(qs) => Some(Set(titled, "questions", JArr(qs)))
  }

  /**
   * The fixed wording of the fallback quiz: the multiple-choice question is
   * `choiceBefore`, the unit title and "?"; the true/false one is the unit
   * title followed by `statementAfter`.
   */
  datatype FallbackWording = FallbackWording(descriptionBefore: string, choiceBefore: string, options: seq<string>,
                                             choiceExplanation: string, statementAfter: string,
                                             statementExplanation: string)

  const FallbackText := FallbackWording(
    "Test your knowledge about ",
    "Which of the following best describes ",
    ["A core concept in this module", "An advanced topic requiring prerequisite knowledge",
     "A supplementary concept providing context", "A practical application of earlier concepts"],
    "This is the main focus of the current learning unit.",
    " is an important concept to understand for mastery of this subject.",
    "Understanding this concept is essential for building a solid foundation in this subject area.")

  /** The fallback quiz for the unit title `t`, in the given wording. */
  function FallbackQuizWith(t: string, w: FallbackWording): (q: Json)
    requires |w.options| == 4
    ensures ValidQuizData(q)
  {
    JObj(map[
      "title" := JStr("Quiz: " + t),
      "description" := JStr(w.descriptionBefore + t),
      "questions" := JArr([
        JObj(map[
          "type" := JStr("multipleChoice"),
          "question" := JStr(w.choiceBefore + t + "?"),
          "options" := JArr([JStr(w.options[0]), JStr(w.options[1]), JStr(w.options[2]), JStr(w.options[3])]),
          "answer" := JNum(0),
          "explanation" := JStr(w.choiceExplanation)]),
        JObj(map[
          "type" := JStr("trueFalse"),
          "question" := JStr(t + w.statementAfter),
          "answer" := JBool(true),
          "explanation" := JStr(w.statementExplanation)])])])
  }

  /** The quiz returned when generation fails in any way. */
  function CreateFallbackQuiz(u: LearningUnit): (q: Json)
    ensures ValidQuizData(q)
  {
    FallbackQuizWith(UnitTitle(u), FallbackText)
  }

  /**
   * In any wording, the fallback quiz has exactly two questions: a
   * multiple-choice one with four options and answer 0, then a true/false
   * one with answer true; when both explanations are non-empty the fix-up
   * leaves both questions as they are.
   */
  lemma FallbackQuizWithShape(t: string, w: FallbackWording)
    requires |w.options| == 4 && |w.choiceExplanation| > 0 && |w.statementExplanation| > 0
    ensures var q := FallbackQuizWith(t, w);
      var qs := Questions(q);
      && Get(q, "title") == Some(JStr("Quiz: " + t))
      && |qs| == 2
      && Get(qs[0], "type") == Some(JStr("multipleChoice"))
      && Get(qs[0], "options").Some? && Get(qs[0], "options").value.JArr?
      && |Get(qs[0], "options").value.items| == 4
      && Get(qs[0], "answer") == Some(JNum(0))
      && Get(qs[1], "type") == Some(JStr("trueFalse"))
      && Get(qs[1], "answer") == Some(JBool(true))
      && (forall i :: 0 <= i < 2 ==> NormaliseQuestion(qs[i]) == Some(qs[i]))
  {
  }

  /**
   * The fallback quiz has exactly two questions: a multiple-choice one with
   * four options and answer 0, then a true/false one with answer true. Its
   * title names the unit alone, without the topic a subtopic belongs to.
   */
  lemma FallbackQuizShape(u: LearningUnit)
    ensures var q := CreateFallbackQuiz(u);
      var qs := Questions(q);
      && Get(q, "title") == Some(JStr("Quiz: " + UnitTitle(u)))
      && |qs| == 2
      && Get(qs[0], "type") == Some(JStr("multipleChoice"))
      && Get(qs[0], "options").Some? && Get(qs[0], "options").value.JArr?
      && |Get(qs[0], "options").value.items| == 4
      && Get(qs[0], "answer") == Some(JNum(0))
      && Get(qs[1], "type") == Some(JStr("trueFalse"))
      && Get(qs[1], "answer") == Some(JBool(true))
      && (forall i :: 0 <= i < 2 ==> NormaliseQuestion(qs[i]) == Some(qs[i]))
  {
    FallbackQuizWithShape(UnitTitle(u), FallbackText);
  }

  /**
   * `generateQuiz` on a model reply (`None` when the call failed): the
   * parsed, checked and fixed-up quiz, or the fallback quiz on any failure.
   */
  function GenerateQuiz(reply: Option<string>, parse: string -> Option<Json>, u: LearningUnit): Json {
    if reply.None? then CreateFallbackQuiz(u)
    else
      match ParsedQuiz(reply.value, parse)
      case None => CreateFallbackQuiz(u)
      case Some(q) =>
        if !ValidQuizData(q) then CreateFallbackQuiz(u)
        else
          match NormaliseQuiz(q, u)
          case None => CreateFallbackQuiz(u)
          case Some(r) => r
  }

  /**
   * Generation never fails: a failed call, a reply without usable JSON,
   * quiz data of the wrong shape or a question that cannot be fixed all give
   * the fallback quiz; otherwise the reply's quiz comes back with its
   * questions fixed up, as many as it had and in its order.
   */
  lemma {:induction false} GenerateQuizOutcome(reply: Option<string>, parse: string -> Option<Json>, u: LearningUnit)
    ensures var r := GenerateQuiz(reply, parse, u);
      && ValidQuizData(r)
      && Truthy(Get(r, "title"))
      && (forall i :: 0 <= i < |Questions(r)| ==> NormaliseQuestion(Questions(r)[i]) == Some(Questions(r)[i]))
      && (reply.None? || ParsedQuiz(reply.value, parse).None? ==> r == CreateFallbackQuiz(u))
      && (reply.Some? && ParsedQuiz(reply.value, parse).Some? ==>
            var q := ParsedQuiz(reply.value, parse).value;
            && (!ValidQuizData(q) ==> r == CreateFallbackQuiz(u))
            && (ValidQuizData(q) && NormaliseAll(Questions(q)).Some? ==>
                  |Questions(r)| == |Questions(q)| &&
                  forall i :: 0 <= i < |Questions(q)| ==> NormaliseQuestion(Questions(q)[i]) == Some(Questions(r)[i])))
  {
    var r := GenerateQuiz(reply, parse, u);
    FallbackQuizShape(u);
    if reply.Some? && ParsedQuiz(reply.value, parse).Some? {
      var q := ParsedQuiz(reply.value, parse).value;
      if ValidQuizData(q) && NormaliseAll(Questions(q)).Some? {
        var qs := NormaliseAll(Questions(q)).value;
        assert r == NormaliseQuiz(q, u).value;
        assert Questions(r) == qs;
        forall i | 0 <= i < |qs|
          ensures NormaliseQuestion(qs[i]) == Some(qs[i])
        {
          NormaliseQuestionIdempotent(Questions(q)[i]);
        }
        assert Truthy(Get(r, "title"));
      }
    }
  }

  // ---------------------------------------------------------------------------
  // Generated content (gemini.service.js:205-211)

  /** What `generateContent` returns; note that it carries no description. */
  datatype ContentResult = ContentResult(
    title: string,
    contentText: string,
    generatedAt: Time,
    wordCount: nat,
    readingTimeMinutes: nat)

  /** `Math.ceil(words / 200)`, at 200 words a minute. */
  function ReadingMinutes(words: nat): (m: nat)
    ensures 200 * m >= words
    ensures m > 0 ==> 200 * (m - 1) < words
  {
    (words + 199) / 200
  }

  /** The content answer for a unit, given the model's text. */
  function GenerateContentResult(u: LearningUnit, text: string, now: Time): (r: ContentResult)
    ensures r.title == UnitTitle(u) && r.contentText == text && r.generatedAt == now
    ensures r.wordCount == |Text.SplitWhitespace(text)|
  {
    var words := |Text.SplitWhitespace(text)|;
    ContentResult(UnitTitle(u), text, now, words, ReadingMinutes(words))
  }

  /**
   * Every text counts at least one word, the empty one included, so the
   * reading time is at least a minute and is the word count divided by 200,
   * rounded up.
   */
  lemma ReadingTimeBounds(u: LearningUnit, text: string, now: Time)
    ensures var r := GenerateContentResult(u, text, now);
      && r.wordCount >= 1 && r.readingTimeMinutes >= 1
      && 200 * (r.readingTimeMinutes - 1) < r.wordCount <= 200 * r.readingTimeMinutes
  {
  }

  /** A text without whitespace is one word and a minute's reading. */
  lemma OneWordText(u: LearningUnit, text: string, now: Time)
    requires forall i :: 0 <= i < |text| ==> !Text.IsSpace(text[i])
    ensures GenerateContentResult(u, text, now).wordCount == 1
    ensures GenerateContentResult(u, text, now).readingTimeMinutes == 1
  {
    Text.SplitWhitespaceOfWord(text);
  }
}
