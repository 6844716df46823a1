/**
 * The two progress handlers of the roadmap routes (server/src/routes/roadmap.routes.js):
 * setting a topic's or a subtopic's completion flag, cascading completion up
 * to the module, moving the current-module/current-topic pointer and
 * recomputing the roadmap's progress percentage.
 *
 * The handlers change the loaded document in place; `RoadmapDoc` is that
 * document and its methods are proved against the functions
 * `SetTopicProgress` and `SetSubtopicProgress`, about which the lemmas below
 * state what the handlers promise.
 */
module RoadmapRoutes {
  import opened Common
  import opened RoadmapSchema

  /** Both indexes name an existing topic (`modules[mi] && modules[mi].topics[ti]`). */
  predicate ValidTopicIndex(r: Roadmap, mi: int, ti: int) {
    0 <= mi < |r.modules| && 0 <= ti < |r.modules[mi].topics|
  }

  /** The three indexes name an existing subtopic. */
  predicate ValidSubtopicIndex(r: Roadmap, mi: int, ti: int, si: int) {
    ValidTopicIndex(r, mi, ti) && 0 <= si < |r.modules[mi].topics[ti].subtopics|
  }

  /** `topics.every(topic => topic.completed)`. */
  predicate AllTopicsCompleted(topics: seq<Topic>) {
    forall j :: 0 <= j < |topics| ==> topics[j].completed
  }

  /** `subtopics.every(subtopic => subtopic.completed)`. */
  predicate AllSubtopicsCompleted(subtopics: seq<Subtopic>) {
    forall k :: 0 <= k < |subtopics| ==> subtopics[k].completed
  }

  function Bit(b: bool): nat {
    if b then 1 else 0
  }

  /** The number of completed topics in one topic list (`filter(...).length`). */
  function CompletedIn(topics: seq<Topic>): (c: nat)
    ensures c <= |topics|
    ensures c == |topics| <==> AllTopicsCompleted(topics)
  {
    if |topics| == 0 then 0
    else CompletedIn(topics[..|topics| - 1]) + Bit(topics[|topics| - 1].completed)
  }

  /** The total number of topics, folded over the modules from the left. */
  function TopicCount(modules: seq<Module>): nat {
    if |modules| == 0 then 0
    else TopicCount(modules[..|modules| - 1]) + |modules[|modules| - 1].topics|
  }

  /** The total number of completed topics, folded over the modules from the left. */
  function CompletedCount(modules: seq<Module>): (c: nat)
    ensures c <= TopicCount(modules)
  {
    if |modules| == 0 then 0
    else CompletedCount(modules[..|modules| - 1]) + CompletedIn(modules[|modules| - 1].topics)
  }

  /** `Math.round(completedTopics / totalTopics * 100)`. */
  function Progress(modules: seq<Module>): (p: int)
    requires TopicCount(modules) > 0
    ensures 0 <= p <= 100
  {
    RoundPercentInRange(CompletedCount(modules), TopicCount(modules));
    RoundPercent(CompletedCount(modules), TopicCount(modules))
  }

  /** A roadmap whose topics are all completed is at 100%; one with none completed is at 0%. */
  lemma {:induction false} ProgressExtremes(modules: seq<Module>)
    requires TopicCount(modules) > 0
    ensures (forall i :: 0 <= i < |modules| ==> AllTopicsCompleted(modules[i].topics)) ==> Progress(modules) == 100
    ensures (forall i :: 0 <= i < |modules| ==> CompletedIn(modules[i].topics) == 0) ==> Progress(modules) == 0
  {
    CountsWhenAllOrNone(modules);
    RoundPercentInRange(CompletedCount(modules), TopicCount(modules));
  }

  lemma {:induction false} CountsWhenAllOrNone(modules: seq<Module>)
    ensures (forall i :: 0 <= i < |modules| ==> AllTopicsCompleted(modules[i].topics)) ==>
              CompletedCount(modules) == TopicCount(modules)
    ensures (forall i :: 0 <= i < |modules| ==> CompletedIn(modules[i].topics) == 0) ==>
              CompletedCount(modules) == 0
  {
    if |modules| > 0 {
      var init := modules[..|modules| - 1];
      CountsWhenAllOrNone(init);
      assert forall i :: 0 <= i < |init| ==> init[i] == modules[i];
    }
  }

  /** The module holding a valid topic index contributes its topics to the total. */
  lemma {:induction false} TopicCountAtLeast(modules: seq<Module>, mi: int)
    requires 0 <= mi < |modules|
    ensures TopicCount(modules) >= |modules[mi].topics|
  {
    if mi < |modules| - 1 {
      TopicCountAtLeast(modules[..|modules| - 1], mi);
    }
  }

  /** Replacing one topic changes the completed count by the change of its flag. */
  lemma {:induction false} CompletedInUpdate(topics: seq<Topic>, j: int, t: Topic)
    requires 0 <= j < |topics|
    ensures CompletedIn(topics[j := t]) + Bit(topics[j].completed) == CompletedIn(topics) + Bit(t.completed)
  {
    var n := |topics|;
    if j < n - 1 {
      assert topics[j := t][..n - 1] == topics[..n - 1][j := t];
      CompletedInUpdate(topics[..n - 1], j, t);
    } else {
      assert topics[j := t][..n - 1] == topics[..n - 1];
    }
  }

  /** Replacing one module changes both counts by the change of that module's own counts. */
  lemma {:induction false} CountsUpdate(modules: seq<Module>, i: int, m: Module)
    requires 0 <= i < |modules|
    ensures TopicCount(modules[i := m]) + |modules[i].topics| == TopicCount(modules) + |m.topics|
    ensures CompletedCount(modules[i := m]) + CompletedIn(modules[i].topics)
         == CompletedCount(modules) + CompletedIn(m.topics)
  {
    var n := |modules|;
    if i < n - 1 {
      assert modules[i := m][..n - 1] == modules[..n - 1][i := m];
      CountsUpdate(modules[..n - 1], i, m);
    } else {
      assert modules[i := m][..n - 1] == modules[..n - 1];
    }
  }

  /** `roadmap.modules[mi].topics[ti] = t`. */
  function WithTopic(r: Roadmap, mi: int, ti: int, t: Topic): (r': Roadmap)
    requires ValidTopicIndex(r, mi, ti)
    ensures ValidTopicIndex(r', mi, ti) && r'.modules[mi].topics[ti] == t
  {
    var m := r.modules[mi];
    r.(modules := r.modules[mi := m.(topics := m.topics[ti := t])])
  }

  /**
   * The pointer step taken when topic (mi, ti) is completed: the next topic of
   * the module, or the first topic of the next module; past the last module
   * the roadmap is stamped completed and the pointer stays where it was.
   */
  function Advance(r: Roadmap, mi: int, ti: int, now: Time): Roadmap
    requires ValidTopicIndex(r, mi, ti)
  {
    var (nm, nt) := if ti + 1 >= |r.modules[mi].topics| then (mi + 1, 0) else (mi, ti + 1);
    if nm < |r.modules| then r.(currentModule := nm, currentTopic := nt)
    else r.(completedAt := Some(now))
  }

  /** The outcome of a handler: the status it answers with and the document as saved. */
  datatype Update = Update(status: Status, doc: Roadmap)

  /** `PUT /:id/progress` on a roadmap found for the user. */
  function SetTopicProgress(r: Roadmap, mi: int, ti: int, completed: bool, now: Time): (u: Update)
    ensures u.status == Ok || u.status == BadRequest
  {
    if !ValidTopicIndex(r, mi, ti) then Update(BadRequest, r)
    else
      var m := r.modules[mi];
      var t := m.topics[ti].(completed := completed, completedAt := if completed then Some(now) else None);
      var topics := m.topics[ti := t];
      var all := AllTopicsCompleted(topics);
      var m' := m.(topics := topics, completed := all, completedAt := if all then Some(now) else None);
      var r1 := r.(modules := r.modules[mi := m']);
      var r2 := if completed then Advance(r1, mi, ti, now) else r1;
      TopicCountAtLeast(r2.modules, mi);
      Update(Ok, r2.(progress := Progress(r2.modules)))
  }

  /** `PUT /:id/progress/subtopic` on a roadmap found for the user. */
  function SetSubtopicProgress(r: Roadmap, mi: int, ti: int, si: int, completed: bool, now: Time): (u: Update)
    ensures u.status == Ok || u.status == BadRequest
  {
    if !ValidSubtopicIndex(r, mi, ti, si) then Update(BadRequest, r)
    else
      var r2 := SubtopicMarked(r, mi, ti, si, completed, now);
      TopicCountAtLeast(r2.modules, mi);
      Update(Ok, r2.(progress := Progress(r2.modules)))
  }

  /** The subtopic handler's changes before the progress is recomputed. */
  function SubtopicMarked(r: Roadmap, mi: int, ti: int, si: int, completed: bool, now: Time): (r2: Roadmap)
    requires ValidSubtopicIndex(r, mi, ti, si)
    ensures |r2.modules| == |r.modules|
  {
    var m := r.modules[mi];
    var t := m.topics[ti];
    var s := t.subtopics[si].(completed := completed, completedAt := if completed then Some(now) else None);
    var subtopics := t.subtopics[si := s];
    if completed then
      if AllSubtopicsCompleted(subtopics) then
        var topics := m.topics[ti := t.(subtopics := subtopics, completed := true, completedAt := Some(now))];
        var all := AllTopicsCompleted(topics);
        var m' := m.(topics := topics, completed := all, completedAt := if all then Some(now) else m.completedAt);
        Advance(r.(modules := r.modules[mi := m']), mi, ti, now)
      else
        WithTopic(r, mi, ti, t.(subtopics := subtopics))
    else
      var topics := m.topics[ti := t.(subtopics := subtopics, completed := false, completedAt := None)];
      r.(modules := r.modules[mi := m.(topics := topics, completed := false, completedAt := None)])
  }

  // ---------------------------------------------------------------------------
  // What the topic handler promises

  /** An index that names no topic is answered with 400 and the roadmap is left as it was. */
  lemma SetTopicProgressRejects(r: Roadmap, mi: int, ti: int, completed: bool, now: Time)
    ensures var u := SetTopicProgress(r, mi, ti, completed, now);
      (u.status == BadRequest <==> !ValidTopicIndex(r, mi, ti)) &&
      (u.status == BadRequest ==> u.doc == r)
  {
  }

  /**
   * The topic takes the requested flag, is stamped iff it is now completed,
   * keeps everything else (its subtopics in particular), and no other topic
   * or module changes.
   */
  lemma SetTopicProgressTopic(r: Roadmap, mi: int, ti: int, completed: bool, now: Time)
    requires ValidTopicIndex(r, mi, ti)
    ensures var r' := SetTopicProgress(r, mi, ti, completed, now).doc;
      && |r'.modules| == |r.modules|
      && |r'.modules[mi].topics| == |r.modules[mi].topics|
      && r'.modules[mi].topics[ti].completed == completed
      && (r'.modules[mi].topics[ti].completedAt == if completed then Some(now) else None)
      && r'.modules[mi].topics[ti] == r.modules[mi].topics[ti].(completed := r'.modules[mi].topics[ti].completed,
                                                               completedAt := r'.modules[mi].topics[ti].completedAt)
      && (forall j :: 0 <= j < |r.modules[mi].topics| && j != ti ==> r'.modules[mi].topics[j] == r.modules[mi].topics[j])
      && (forall i :: 0 <= i < |r.modules| && i != mi ==> r'.modules[i] == r.modules[i])
  {
  }

  /**
   * Afterwards the module is completed iff every one of its topics is, and it
   * carries a completion time exactly when it is completed.
   */
  lemma SetTopicProgressModule(r: Roadmap, mi: int, ti: int, completed: bool, now: Time)
    requires ValidTopicIndex(r, mi, ti)
    ensures var m' := SetTopicProgress(r, mi, ti, completed, now).doc.modules[mi];
      && (m'.completed <==> forall j :: 0 <= j < |m'.topics| ==> m'.topics[j].completed)
      && (m'.completedAt == if m'.completed then Some(now) else None)
      && (!completed ==> !m'.completed)
  {
    SetTopicProgressTopic(r, mi, ti, completed, now);
  }

  /**
   * The pointer: unchanged when the topic is marked incomplete; otherwise the
   * next topic of the module, or the first topic of the next module, or,
   * after the last topic of the last module, unchanged with the roadmap
   * stamped completed.
   */
  lemma SetTopicProgressPointer(r: Roadmap, mi: int, ti: int, completed: bool, now: Time)
    requires ValidTopicIndex(r, mi, ti)
    ensures var r' := SetTopicProgress(r, mi, ti, completed, now).doc;
      && (!completed ==> r'.currentModule == r.currentModule && r'.currentTopic == r.currentTopic
                         && r'.completedAt == r.completedAt)
      && (completed && ti + 1 < |r.modules[mi].topics| ==>
            r'.currentModule == mi && r'.currentTopic == ti + 1 && r'.completedAt == r.completedAt)
      && (completed && ti + 1 == |r.modules[mi].topics| && mi + 1 < |r.modules| ==>
            r'.currentModule == mi + 1 && r'.currentTopic == 0 && r'.completedAt == r.completedAt)
      && (completed && ti + 1 == |r.modules[mi].topics| && mi + 1 == |r.modules| ==>
            r'.currentModule == r.currentModule && r'.currentTopic == r.currentTopic
            && r'.completedAt == Some(now))
  {
  }

  /**
   * The saved progress is the rounded share of completed topics over the whole
   * roadmap, lies in 0..100, and the completed count moves by exactly the
   * change of the topic's flag.
   */
  lemma {:induction false} SetTopicProgressCounts(r: Roadmap, mi: int, ti: int, completed: bool, now: Time)
    requires ValidTopicIndex(r, mi, ti)
    ensures var r' := SetTopicProgress(r, mi, ti, completed, now).doc;
      && TopicCount(r'.modules) == TopicCount(r.modules) > 0
      && CompletedCount(r'.modules) + Bit(r.modules[mi].topics[ti].completed)
         == CompletedCount(r.modules) + Bit(completed)
      && r'.progress == RoundPercent(CompletedCount(r'.modules), TopicCount(r'.modules))
      && 0 <= r'.progress <= 100
  {
    var r' := SetTopicProgress(r, mi, ti, completed, now).doc;
    var m := r.modules[mi];
    var t := m.topics[ti];
    var m' := r'.modules[mi];
    SetTopicProgressTopic(r, mi, ti, completed, now);
    assert m'.topics == m.topics[ti := m'.topics[ti]];
    assert r'.modules == r.modules[mi := m'];
    CompletedInUpdate(m.topics, ti, m'.topics[ti]);
    CountsUpdate(r.modules, mi, m');
    TopicCountAtLeast(r.modules, mi);
  }

  /** Marking a topic completed never lowers the progress; marking it incomplete never raises it. */
  lemma SetTopicProgressMonotonic(r: Roadmap, mi: int, ti: int, completed: bool, now: Time)
    requires ValidTopicIndex(r, mi, ti)
    ensures TopicCount(r.modules) > 0
    ensures var r' := SetTopicProgress(r, mi, ti, completed, now).doc;
      && (completed ==> Progress(r.modules) <= r'.progress)
      && (!completed ==> r'.progress <= Progress(r.modules))
  {
    var r' := SetTopicProgress(r, mi, ti, completed, now).doc;
    SetTopicProgressCounts(r, mi, ti, completed, now);
    if completed {
      RoundPercentMonotonic(CompletedCount(r.modules), CompletedCount(r'.modules), TopicCount(r.modules));
    } else {
      RoundPercentMonotonic(CompletedCount(r'.modules), CompletedCount(r.modules), TopicCount(r.modules));
    }
  }

  // ---------------------------------------------------------------------------
  // What the subtopic handler promises

  /** Any index that names no subtopic is answered with 400 and nothing changes. */
  lemma SetSubtopicProgressRejects(r: Roadmap, mi: int, ti: int, si: int, completed: bool, now: Time)
    ensures var u := SetSubtopicProgress(r, mi, ti, si, completed, now);
      (u.status == BadRequest <==> !ValidSubtopicIndex(r, mi, ti, si)) &&
      (u.status == BadRequest ==> u.doc == r)
  {
  }

  /** The subtopic always takes the flag and is stamped iff completed; its siblings do not change. */
  lemma SetSubtopicProgressSubtopic(r: Roadmap, mi: int, ti: int, si: int, completed: bool, now: Time)
    requires ValidSubtopicIndex(r, mi, ti, si)
    ensures var r' := SetSubtopicProgress(r, mi, ti, si, completed, now).doc;
      var old_s := r.modules[mi].topics[ti].subtopics;
      && ValidSubtopicIndex(r', mi, ti, si)
      && r'.modules[mi].topics[ti].subtopics
         == old_s[si := old_s[si].(completed := completed, completedAt := if completed then Some(now) else None)]
      && (forall i :: 0 <= i < |r.modules| && i != mi ==> r'.modules[i] == r.modules[i])
      && (forall j :: 0 <= j < |r.modules[mi].topics| && j != ti ==> r'.modules[mi].topics[j] == r.modules[mi].topics[j])
  {
  }

  /**
   * Completing the last incomplete subtopic completes the topic, recomputes the
   * module's flag from its topics (stamping it only when it becomes completed)
   * and advances the pointer exactly as completing the topic directly does.
   */
  lemma SetSubtopicProgressCompletesTopic(r: Roadmap, mi: int, ti: int, si: int, now: Time)
    requires ValidSubtopicIndex(r, mi, ti, si)
    requires forall k :: 0 <= k < |r.modules[mi].topics[ti].subtopics| && k != si ==>
               r.modules[mi].topics[ti].subtopics[k].completed
    ensures var r' := SetSubtopicProgress(r, mi, ti, si, true, now).doc;
      var d := SetTopicProgress(r, mi, ti, true, now).doc;
      var m' := r'.modules[mi];
      && m'.topics[ti].completed && m'.topics[ti].completedAt == Some(now)
      && (m'.completed <==> forall j :: 0 <= j < |m'.topics| ==> m'.topics[j].completed)
      && (m'.completedAt == if m'.completed then Some(now) else r.modules[mi].completedAt)
      && r'.currentModule == d.currentModule && r'.currentTopic == d.currentTopic
      && r'.completedAt == d.completedAt
  {
  }

  /** Replacing a topic by one with the same flag changes neither count. */
  lemma {:induction false} CountsKeepFlag(r: Roadmap, mi: int, ti: int, t: Topic)
    requires ValidTopicIndex(r, mi, ti) && t.completed == r.modules[mi].topics[ti].completed
    ensures TopicCount(WithTopic(r, mi, ti, t).modules) == TopicCount(r.modules) > 0
    ensures CompletedCount(WithTopic(r, mi, ti, t).modules) == CompletedCount(r.modules)
  {
    var m := r.modules[mi];
    CompletedInUpdate(m.topics, ti, t);
    CountsUpdate(r.modules, mi, m.(topics := m.topics[ti := t]));
    TopicCountAtLeast(r.modules, mi);
  }

  /**
   * Completing a subtopic while a sibling is still incomplete changes that
   * subtopic and nothing else about the roadmap: flags, time stamps, pointer
   * and (since no topic changed) the progress value are as before.
   */
  lemma {:induction false} SetSubtopicProgressPartial(r: Roadmap, mi: int, ti: int, si: int, now: Time)
    requires ValidSubtopicIndex(r, mi, ti, si)
    requires exists k :: 0 <= k < |r.modules[mi].topics[ti].subtopics| && k != si &&
               !r.modules[mi].topics[ti].subtopics[k].completed
    ensures TopicCount(r.modules) > 0
    ensures var r' := SetSubtopicProgress(r, mi, ti, si, true, now).doc;
      var t := r.modules[mi].topics[ti];
      var s := t.subtopics[si].(completed := true, completedAt := Some(now));
      && r' == WithTopic(r, mi, ti, t.(subtopics := t.subtopics[si := s])).(progress := r'.progress)
      && r'.progress == Progress(r.modules)
  {
    var t := r.modules[mi].topics[ti];
    var s := t.subtopics[si].(completed := true, completedAt := Some(now));
    var subtopics := t.subtopics[si := s];
    var k :| 0 <= k < |t.subtopics| && k != si && !t.subtopics[k].completed;
    assert !subtopics[k].completed;
    assert !AllSubtopicsCompleted(subtopics);
    CountsKeepFlag(r, mi, ti, t.(subtopics := subtopics));
  }

  /**
   * Marking a subtopic incomplete clears its time stamp and forces its topic
   * and its module to incomplete with cleared time stamps; the pointer does
   * not move.
   */
  lemma SetSubtopicProgressUncompletes(r: Roadmap, mi: int, ti: int, si: int, now: Time)
    requires ValidSubtopicIndex(r, mi, ti, si)
    ensures var r' := SetSubtopicProgress(r, mi, ti, si, false, now).doc;
      && !r'.modules[mi].topics[ti].subtopics[si].completed
      && r'.modules[mi].topics[ti].subtopics[si].completedAt.None?
      && !r'.modules[mi].topics[ti].completed && r'.modules[mi].topics[ti].completedAt.None?
      && !r'.modules[mi].completed && r'.modules[mi].completedAt.None?
      && r'.currentModule == r.currentModule && r'.currentTopic == r.currentTopic
      && r'.completedAt == r.completedAt
  {
  }

  // ---------------------------------------------------------------------------
  // Invariants both handlers keep

  /** Every module marked completed has all of its topics completed. */
  predicate ModulesConsistent(r: Roadmap) {
    forall i :: 0 <= i < |r.modules| && r.modules[i].completed ==> AllTopicsCompleted(r.modules[i].topics)
  }

  /** The roadmap's current position names an existing module, and a topic of it or the first slot. */
  predicate PointerInRange(r: Roadmap) {
    && 0 <= r.currentModule < |r.modules|
    && 0 <= r.currentTopic
    && (r.currentTopic == 0 || r.currentTopic < |r.modules[r.currentModule].topics|)
  }

  lemma AdvanceKeepsPointerInRange(r: Roadmap, mi: int, ti: int, now: Time)
    requires ValidTopicIndex(r, mi, ti) && PointerInRange(r)
    ensures PointerInRange(Advance(r, mi, ti, now))
    ensures Advance(r, mi, ti, now).modules == r.modules
  {
  }

  /** The topic handler keeps both invariants. */
  lemma SetTopicProgressPreserves(r: Roadmap, mi: int, ti: int, completed: bool, now: Time)
    requires ModulesConsistent(r) && PointerInRange(r)
    ensures var r' := SetTopicProgress(r, mi, ti, completed, now).doc;
      ModulesConsistent(r') && PointerInRange(r')
  {
    if ValidTopicIndex(r, mi, ti) {
      SetTopicProgressTopic(r, mi, ti, completed, now);
      SetTopicProgressModule(r, mi, ti, completed, now);
    }
  }

  /** The subtopic handler keeps both invariants. */
  lemma SetSubtopicProgressPreserves(r: Roadmap, mi: int, ti: int, si: int, completed: bool, now: Time)
    requires ModulesConsistent(r) && PointerInRange(r)
    ensures ModulesConsistent(SetSubtopicProgress(r, mi, ti, si, completed, now).doc)
    ensures PointerInRange(SetSubtopicProgress(r, mi, ti, si, completed, now).doc)
  {
    if ValidSubtopicIndex(r, mi, ti, si) {
      SubtopicMarkedPreserves(r, mi, ti, si, completed, now);
    }
  }

  /**
   * Replacing one module by one with as many topics, completed only when all
   * its topics are, keeps both invariants.
   */
  lemma ReplaceModulePreserves(r: Roadmap, mi: int, m': Module)
    requires ModulesConsistent(r) && PointerInRange(r) && 0 <= mi < |r.modules|
    requires |m'.topics| == |r.modules[mi].topics|
    requires m'.completed ==> AllTopicsCompleted(m'.topics)
    ensures ModulesConsistent(r.(modules := r.modules[mi := m']))
    ensures PointerInRange(r.(modules := r.modules[mi := m']))
  {
    var r1 := r.(modules := r.modules[mi := m']);
    forall i | 0 <= i < |r1.modules| && r1.modules[i].completed
      ensures AllTopicsCompleted(r1.modules[i].topics)
    {
      if i != mi {
        assert r1.modules[i] == r.modules[i];
      }
    }
    assert |r1.modules[r.currentModule].topics| == |r.modules[r.currentModule].topics|;
  }

  lemma SubtopicMarkedPreserves(r: Roadmap, mi: int, ti: int, si: int, completed: bool, now: Time)
    requires ValidSubtopicIndex(r, mi, ti, si) && ModulesConsistent(r) && PointerInRange(r)
    ensures ModulesConsistent(SubtopicMarked(r, mi, ti, si, completed, now))
    ensures PointerInRange(SubtopicMarked(r, mi, ti, si, completed, now))
  {
    var m := r.modules[mi];
    var t := m.topics[ti];
    var s := t.subtopics[si].(completed := completed, completedAt := if completed then Some(now) else None);
    var subtopics := t.subtopics[si := s];
    if completed && AllSubtopicsCompleted(subtopics) {
      var topics := m.topics[ti := t.(subtopics := subtopics, completed := true, completedAt := Some(now))];
      var all := AllTopicsCompleted(topics);
      var m' := m.(topics := topics, completed := all, completedAt := if all then Some(now) else m.completedAt);
      ReplaceModulePreserves(r, mi, m');
      AdvanceKeepsPointerInRange(r.(modules := r.modules[mi := m']), mi, ti, now);
    } else if completed {
      var m' := m.(topics := m.topics[ti := t.(subtopics := subtopics)]);
      assert forall j :: 0 <= j < |m.topics| ==> m'.topics[j].completed == m.topics[j].completed;
      ReplaceModulePreserves(r, mi, m');
    } else {
      var topics := m.topics[ti := t.(subtopics := subtopics, completed := false, completedAt := None)];
      ReplaceModulePreserves(r, mi, m.(topics := topics, completed := false, completedAt := None));
    }
  }

  // ---------------------------------------------------------------------------
  // The loaded document and the handlers

  /** A roadmap document as loaded by `findOne` and saved back by the handlers. */
  class RoadmapDoc {
    const id: Id
    const user: Id
    const title: string
    const description: string
    const goal: string
    const active: bool
    const createdAt: Time
    var modules: seq<Module>
    var progress: int
    var completedAt: Option<Time>
    var currentModule: int
    var currentTopic: int

    /** The document's current contents. */
    function Value(): (r: Roadmap)
      reads this
      ensures r.modules == modules && r.progress == progress && r.completedAt == completedAt
      ensures r.currentModule == currentModule && r.currentTopic == currentTopic
    {
      Roadmap(id, user, title, description, goal, modules, progress, active, createdAt,
              completedAt, currentModule, currentTopic)
    }

    constructor (r: Roadmap)
      ensures Value() == r
    {
      id, user, title, description, goal := r.id, r.user, r.title, r.description, r.goal;
      active, createdAt := r.active, r.createdAt;
      modules, progress, completedAt := r.modules, r.progress, r.completedAt;
      currentModule, currentTopic := r.currentModule, r.currentTopic;
    }

    /** Replaces topic (mi, ti) of the stored tree. */
    method ReplaceTopic(mi: int, ti: int, t: Topic)
      requires ValidTopicIndex(Value(), mi, ti)
      modifies this
      ensures Value() == WithTopic(old(Value()), mi, ti, t)
    {
      var m := modules[mi];
      modules := modules[mi := m.(topics := m.topics[ti := t])];
    }

    /** The pointer step after completing topic (mi, ti). */
    method AdvancePointer(mi: int, ti: int, now: Time)
      requires 0 <= mi < |modules| && 0 <= ti < |modules[mi].topics|
      modifies this
      ensures Value() == Advance(old(Value()), mi, ti, now)
    {
      var nextModule, nextTopic := mi, ti + 1;
      if nextTopic >= |modules[mi].topics| {
        nextModule, nextTopic := mi + 1, 0;
      }
      if nextModule < |modules| {
        currentModule, currentTopic := nextModule, nextTopic;
      } else {
        completedAt := Some(now);
      }
    }

    /** The body of `PUT /:id/progress` once the roadmap is found. */
    method UpdateProgress(mi: int, ti: int, completed: bool, now: Time) returns (status: Status)
      modifies this
      ensures var u := SetTopicProgress(old(Value()), mi, ti, completed, now);
        status == u.status && Value() == u.doc
    {
      if !(0 <= mi < |modules| && 0 <= ti < |modules[mi].topics|) {
        return BadRequest;
      }
      var m := modules[mi];
      var topics := m.topics[ti := m.topics[ti].(completed := completed,
                                                 completedAt := if completed then Some(now) else None)];
      var all := AllTopicsCompleted(topics);
      modules := modules[mi := m.(topics := topics, completed := all,
                                  completedAt := if all then Some(now) else None)];
      if completed {
        AdvancePointer(mi, ti, now);
      }
      TopicCountAtLeast(modules, mi);
      progress := Progress(modules);
      status := Ok;
    }

    /** The body of `PUT /:id/progress/subtopic` once the roadmap is found. */
    method UpdateSubtopicProgress(mi: int, ti: int, si: int, completed: bool, now: Time) returns (status: Status)
      modifies this
      ensures var u := SetSubtopicProgress(old(Value()), mi, ti, si, completed, now);
        status == u.status && Value() == u.doc
    {
      if !(0 <= mi < |modules| && 0 <= ti < |modules[mi].topics| && 0 <= si < |modules[mi].topics[ti].subtopics|) {
        return BadRequest;
      }
      var m := modules[mi];
      var t := m.topics[ti];
      var subtopics := t.subtopics[si := t.subtopics[si].(completed := completed,
                                                          completedAt := if completed then Some(now) else None)];
      if completed {
        if AllSubtopicsCompleted(subtopics) {
          var topics := m.topics[ti := t.(subtopics := subtopics, completed := true, completedAt := Some(now))];
          var all := AllTopicsCompleted(topics);
          modules := modules[mi := m.(topics := topics, completed := all,
                                      completedAt := if all then Some(now) else m.completedAt)];
          AdvancePointer(mi, ti, now);
        } else {
          modules := modules[mi := m.(topics := m.topics[ti := t.(subtopics := subtopics)])];
        }
      } else {
        var topics := m.topics[ti := t.(subtopics := subtopics, completed := false, completedAt := None)];
        modules := modules[mi := m.(topics := topics, completed := false, completedAt := None)];
      }
      TopicCountAtLeast(modules, mi);
      progress := Progress(modules);
      status := Ok;
    }
  }

  /**
   * `PUT /:id/progress`: `doc` is the roadmap stored under the requested id, if
   * any; one that belongs to another user is not found either.
   */
  method HandleProgress(doc: RoadmapDoc?, userId: Id, mi: int, ti: int, completed: bool, now: Time)
    returns (status: Status)
    modifies doc
    ensures doc == null || doc.user != userId ==> status == NotFound
    ensures doc != null && doc.user != userId ==> doc.Value() == old(doc.Value())
    ensures doc != null && doc.user == userId ==>
      var u := SetTopicProgress(old(doc.Value()), mi, ti, completed, now);
      status == u.status && doc.Value() == u.doc
  {
    if doc == null || doc.user != userId {
      return NotFound;
    }
    status := doc.UpdateProgress(mi, ti, completed, now);
  }

  /** `PUT /:id/progress/subtopic`, with the same lookup as `HandleProgress`. */
  method HandleSubtopicProgress(doc: RoadmapDoc?, userId: Id, mi: int, ti: int, si: int, completed: bool, now: Time)
    returns (status: Status)
    modifies doc
    ensures doc == null || doc.user != userId ==> status == NotFound
    ensures doc != null && doc.user != userId ==> doc.Value() == old(doc.Value())
    ensures doc != null && doc.user == userId ==>
      var u := SetSubtopicProgress(old(doc.Value()), mi, ti, si, completed, now);
      status == u.status && doc.Value() == u.doc
  {
    if doc == null || doc.user != userId {
      return NotFound;
    }
    status := doc.UpdateSubtopicProgress(mi, ti, si, completed, now);
  }
}
