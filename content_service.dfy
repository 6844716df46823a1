/**
 * The client's content service (client/src/services/content.service.js):
 * the request bodies and URLs it sends, the content cache it keeps in
 * `localStorage` under "content_"-prefixed keys, and the mock quiz used in
 * development. The HTTP calls themselves are not part of this model.
 */
module ContentService {
  import opened Common
  import opened Json
  import opened BrowserStorage
  import Text

  /**
   * The body of `generateContent` and `generateQuiz`: roadmap, module and
   * topic, and the subtopic index only when one is given (not null).
   */
  method GenerateRequestData(roadmapId: string, moduleIndex: int, topicIndex: int, subtopicIndex: Option<int>)
    returns (data: Json)
    ensures data.JObj?
    ensures data.fields.Keys == {"roadmapId", "moduleIndex", "topicIndex"} + (if subtopicIndex.Some? then {"subtopicIndex"} else {})
    ensures Get(data, "roadmapId") == Some(JStr(roadmapId))
    ensures Get(data, "moduleIndex") == Some(JNum(moduleIndex)) && Get(data, "topicIndex") == Some(JNum(topicIndex))
    ensures subtopicIndex.Some? ==> Get(data, "subtopicIndex") == Some(JNum(subtopicIndex.value))
  {
    var fields := map["roadmapId" := JStr(roadmapId), "moduleIndex" := JNum(moduleIndex), "topicIndex" := JNum(topicIndex)];
    if subtopicIndex.Some? {
      fields := fields["subtopicIndex" := JNum(subtopicIndex.value)];
    }
    data := JObj(fields);
  }

  /** The path of a topic's content or quiz, before any subtopic suffix. */
  function TopicPath(collection: string, roadmapId: string, moduleIndex: int, topicIndex: int): string {
    "/" + collection + "/roadmap/" + roadmapId + "/module/" + Text.IntToString(moduleIndex)
      + "/topic/" + Text.IntToString(topicIndex)
  }

  /**
   * `getContentForTopic` (collection "content") and `getQuizForTopic`
   * (collection "quizzes"): the topic path, with `/subtopic/{i}` appended
   * exactly when a subtopic index is given.
   */
  method UnitUrl(collection: string, roadmapId: string, moduleIndex: int, topicIndex: int, subtopicIndex: Option<int>)
    returns (url: string)
    ensures |url| >= |TopicPath(collection, roadmapId, moduleIndex, topicIndex)|
    ensures url[..|TopicPath(collection, roadmapId, moduleIndex, topicIndex)|]
         == TopicPath(collection, roadmapId, moduleIndex, topicIndex)
    ensures subtopicIndex.None? <==> |url| == |TopicPath(collection, roadmapId, moduleIndex, topicIndex)|
    ensures subtopicIndex.Some? ==>
      url[|TopicPath(collection, roadmapId, moduleIndex, topicIndex)|..] == "/subtopic/" + Text.IntToString(subtopicIndex.value)
  {
    var base := TopicPath(collection, roadmapId, moduleIndex, topicIndex);
    url := base;
    if subtopicIndex.Some? {
      var suffix := "/subtopic/" + Text.IntToString(subtopicIndex.value);
      url := base + suffix;
      assert url[..|base|] == base && url[|base|..] == suffix;
    }
  }

  /** Different subtopics of a topic have different URLs. */
  lemma SubtopicUrlsDiffer(base: string, a: int, b: int)
    requires a != b
    ensures base + "/subtopic/" + Text.IntToString(a) != base + "/subtopic/" + Text.IntToString(b)
  {
    var pa := base + "/subtopic/" + Text.IntToString(a);
    var pb := base + "/subtopic/" + Text.IntToString(b);
    var n := |base + "/subtopic/"|;
    if pa == pb {
      assert pa[n..] == Text.IntToString(a);
      assert pb[n..] == Text.IntToString(b);
      Text.IntToStringInjective(a, b);
    }
  }

  // ---------------------------------------------------------------------------
  // The content cache

  /** The storage key of a cache key. */
  function CacheKey(key: string): string {
    ContentPrefix + key
  }

  /**
   * Cache keys live in their own name space: different keys never share an
   * entry, and none is the key of the notifications, the timer or the history.
   */
  lemma CacheKeysSeparate(a: string, b: string)
    ensures a != b ==> CacheKey(a) != CacheKey(b)
    ensures CacheKey(a) != NotificationsKey && CacheKey(a) != CurrentTimerKey && CacheKey(a) != HistoryKey
  {
    assert CacheKey(a)[..|ContentPrefix|] == ContentPrefix;
    assert CacheKey(a)[|ContentPrefix|..] == a;
    assert CacheKey(b)[|ContentPrefix|..] == b;
    assert NotificationsKey[0] != ContentPrefix[0];
    assert CurrentTimerKey[1] != ContentPrefix[1];
    assert HistoryKey[0] != ContentPrefix[0];
  }

  /** `getLocalContent(key)`: the cached value, or null (`JNull`) without a window or an entry. */
  function LocalContent(hasWindow: bool, m: map<string, Stored>, key: string): (r: Json)
    ensures !hasWindow || CacheKey(key) !in m ==> r == JNull
  {
    if hasWindow && CacheKey(key) in m && m[CacheKey(key)].Cached? then m[CacheKey(key)].content else JNull
  }

  /** `cacheContentLocally(key, content)`: true, with the content stored, exactly when there is a window. */
  method CacheContentLocally(st: LocalStorage, key: string, content: Json) returns (ok: bool)
    modifies st
    ensures ok == st.hasWindow
    ensures st.items == if st.hasWindow then old(st.items)[CacheKey(key) := Cached(content)] else old(st.items)
  {
    if !st.hasWindow {
      return false;
    }
    st.items := st.items[ContentPrefix + key := Cached(content)];
    return true;
  }

  /** `clearLocalContent(key)`: true, with the entry removed, exactly when there is a window. */
  method ClearLocalContent(st: LocalStorage, key: string) returns (ok: bool)
    modifies st
    ensures ok == st.hasWindow
    ensures st.items == if st.hasWindow then old(st.items) - {CacheKey(key)} else old(st.items)
  {
    if !st.hasWindow {
      return false;
    }
    st.items := st.items - {ContentPrefix + key};
    return true;
  }

  /**
   * Reading a key after caching under it gives what was cached; after
   * clearing it gives null; caching or clearing one key leaves every other
   * key's content, and the non-cache entries, as they were.
   */
  lemma CacheRoundTrip(m: map<string, Stored>, key: string, other: string, content: Json)
    ensures LocalContent(true, m[CacheKey(key) := Cached(content)], key) == content
    ensures LocalContent(true, m - {CacheKey(key)}, key) == JNull
    ensures other != key ==>
      && LocalContent(true, m[CacheKey(key) := Cached(content)], other) == LocalContent(true, m, other)
      && LocalContent(true, m - {CacheKey(key)}, other) == LocalContent(true, m, other)
    ensures forall k :: k in {NotificationsKey, CurrentTimerKey, HistoryKey} && k in m ==>
      && k in m[CacheKey(key) := Cached(content)] && m[CacheKey(key) := Cached(content)][k] == m[k]
      && k in m - {CacheKey(key)} && (m - {CacheKey(key)})[k] == m[k]
  {
    CacheKeysSeparate(key, other);
  }

  // ---------------------------------------------------------------------------
  // The mock quiz (content.service.js:205-276)

  /** An answer option: its id ("a" to "d") and its text. */
  datatype MockOption = MockOption(id: string, text: string)

  /** A question of the mock quiz, with the fields of its object literal. */
  datatype MockQuestion =
    | MultipleChoice(id: int, text: string, options: seq<MockOption>, correctAnswer: string, explanation: string)
    | TrueFalse(id: int, text: string, correctAnswer: string, explanation: string)

  /** The quiz object `mockGenerateQuiz` returns; `timestamp` is in milliseconds. */
  datatype MockQuiz = MockQuiz(id: string, roadmapId: string, moduleIndex: int, topicIndex: int, title: string,
                               description: string, questions: seq<MockQuestion>, timestamp: Time)

  /**
   * The fixed wording of one mock question: its text is `before`, the topic
   * title and `after`; a multiple-choice question has four option texts.
   */
  datatype Wording = Wording(before: string, after: string, optionTexts: seq<string>, explanation: string)

  const Wording1 := Wording("What is the main purpose of ", "?",
    ["To simplify complex processes", "To organize data efficiently", "To improve system performance",
     "To enhance user experience"],
    "The main purpose is to simplify complex processes, making them more understandable and manageable.")
  const Wording2 := Wording("True or False: ", " is primarily used in backend development.", [],
    "This concept is indeed primarily used in backend development for handling data processing and business logic.")
  const Wording3 := Wording("What is a key benefit of using ", "?",
    ["Reduced code complexity", "Faster execution time", "Lower memory usage", "All of the above"],
    "All of these are benefits of using this approach or concept in software development.")
  const Wording4 := Wording("Which of the following is NOT related to ", "?",
    ["Data structures", "Algorithms", "User interface design", "Performance optimization"],
    "User interface design is typically not directly related to this concept, which is more focused on data and logic handling.")
  const Wording5 := Wording("When implementing ", ", what should you be most careful about?",
    ["Error handling", "Optimization", "Documentation", "Testing"],
    "Proper error handling is crucial when implementing this concept to ensure stability and reliability.")

  /** A multiple-choice question: the four options get the ids "a" to "d". */
  function Choice(id: int, topicTitle: string, w: Wording, correctAnswer: string): MockQuestion
    requires |w.optionTexts| == 4
  {
    var t := w.optionTexts;
    MultipleChoice(id, w.before + topicTitle + w.after,
                   [MockOption("a", t[0]), MockOption("b", t[1]), MockOption("c", t[2]), MockOption("d", t[3])],
                   correctAnswer, w.explanation)
  }

  /** The questions of the mock quiz with the given wordings, numbered 1 to 5. */
  function QuestionsWith(topicTitle: string, w1: Wording, w2: Wording, w3: Wording, w4: Wording, w5: Wording)
    : seq<MockQuestion>
    requires |w1.optionTexts| == 4 && |w3.optionTexts| == 4 && |w4.optionTexts| == 4 && |w5.optionTexts| == 4
  {
    [ Choice(1, topicTitle, w1, "a"),
      TrueFalse(2, w2.before + topicTitle + w2.after, "true", w2.explanation),
      Choice(3, topicTitle, w3, "d"),
      Choice(4, topicTitle, w4, "c"),
      Choice(5, topicTitle, w5, "a") ]
  }

  /** `mockGenerateQuiz`: `now` stands for `Date.now()` and for the time stamp. */
  function MockGenerateQuiz(roadmapId: string, moduleIndex: int, topicIndex: int, topicTitle: string, now: Time): MockQuiz {
    MockQuiz("quiz-" + Text.IntToString(now), roadmapId, moduleIndex, topicIndex, "Quiz: " + topicTitle,
             "Test your knowledge of " + topicTitle,
             QuestionsWith(topicTitle, Wording1, Wording2, Wording3, Wording4, Wording5), now)
  }

  /** A multiple-choice question names one of its own options as the answer. */
  predicate AnswerAmongOptions(q: MockQuestion) {
    q.MultipleChoice? ==> exists k :: 0 <= k < |q.options| && q.options[k].id == q.correctAnswer
  }

  /** Whatever the wording, the questions are numbered 1 to 5 and each answer is among its options. */
  lemma QuestionsWithShape(topicTitle: string, w1: Wording, w2: Wording, w3: Wording, w4: Wording, w5: Wording)
    requires |w1.optionTexts| == 4 && |w3.optionTexts| == 4 && |w4.optionTexts| == 4 && |w5.optionTexts| == 4
    ensures var qs := QuestionsWith(topicTitle, w1, w2, w3, w4, w5);
      && |qs| == 5
      && (forall i :: 0 <= i < 5 ==> qs[i].id == i + 1)
      && (forall i :: 0 <= i < 5 ==> AnswerAmongOptions(qs[i]))
  {
    var qs := QuestionsWith(topicTitle, w1, w2, w3, w4, w5);
    assert qs[0].options[0].id == qs[0].correctAnswer;
    assert qs[2].options[3].id == qs[2].correctAnswer;
    assert qs[3].options[2].id == qs[3].correctAnswer;
    assert qs[4].options[0].id == qs[4].correctAnswer;
  }

  /**
   * The mock quiz has five questions, numbered 1 to 5, and every
   * multiple-choice one names one of its own options as the answer.
   */
  lemma MockQuizShape(roadmapId: string, moduleIndex: int, topicIndex: int, topicTitle: string, now: Time)
    ensures var qs := MockGenerateQuiz(roadmapId, moduleIndex, topicIndex, topicTitle, now).questions;
      && |qs| == 5
      && (forall i :: 0 <= i < 5 ==> qs[i].id == i + 1)
      && (forall i :: 0 <= i < 5 ==> AnswerAmongOptions(qs[i]))
  {
    QuestionsWithShape(topicTitle, Wording1, Wording2, Wording3, Wording4, Wording5);
  }
}
