/**
 * The roadmap document (server/src/models/roadmap.model.js): an ordered tree
 * of modules, topics and subtopics, each unit carrying a completion flag, plus
 * the roadmap's progress percentage and its current-module/current-topic
 * pointer.
 */
module RoadmapSchema {
  import opened Common
  import Text

  datatype Subtopic = Subtopic(
    id: Id,
    title: string,
    description: string,
    completed: bool,
    completedAt: Option<Time>)

  datatype Topic = Topic(
    id: Id,
    title: string,
    description: string,
    order: int,
    estimatedTimeMinutes: int,
    completed: bool,
    completedAt: Option<Time>,
    nextReviewDate: Option<Time>,
    reviewCount: int,
    contentId: Option<Id>,
    quizId: Option<Id>,
    subtopics: seq<Subtopic>)

  datatype Module = Module(
    id: Id,
    title: string,
    description: string,
    order: int,
    topics: seq<Topic>,
    completed: bool,
    completedAt: Option<Time>)

  datatype Roadmap = Roadmap(
    id: Id,
    user: Id,
    title: string,
    description: string,
    goal: string,
    modules: seq<Module>,
    progress: int,
    active: bool,
    createdAt: Time,
    completedAt: Option<Time>,
    currentModule: int,
    currentTopic: int)

  // Documents as the schema creates them when only the required paths are given:
  // the trimmed strings are stored trimmed and every other path takes its default.

  function NewSubtopic(id: Id, title: string, description: string): Subtopic {
    Subtopic(id, Text.Trim(title), description, false, None)
  }

  function NewTopic(id: Id, title: string, description: string, order: int, subtopics: seq<Subtopic>): Topic {
    Topic(id, Text.Trim(title), description, order, 10, false, None, None, 0, None, None, subtopics)
  }

  function NewModule(id: Id, title: string, description: string, order: int, topics: seq<Topic>): Module {
    Module(id, Text.Trim(title), description, order, topics, false, None)
  }

  function NewRoadmap(id: Id, user: Id, title: string, description: string, goal: string,
                      modules: seq<Module>, now: Time): Roadmap {
    Roadmap(id, user, Text.Trim(title), description, Text.Trim(goal), modules, 0, true, now, None, 0, 0)
  }

  /** A required string path rejects both a missing value and "". */
  predicate Present(s: string) {
    s != ""
  }

  predicate ValidSubtopic(s: Subtopic) {
    Present(s.title) && Present(s.description)
  }

  predicate ValidTopic(t: Topic) {
    && Present(t.title) && Present(t.description)
    && forall i :: 0 <= i < |t.subtopics| ==> ValidSubtopic(t.subtopics[i])
  }

  predicate ValidModule(m: Module) {
    && Present(m.title) && Present(m.description)
    && forall i :: 0 <= i < |m.topics| ==> ValidTopic(m.topics[i])
  }

  /** What saving a roadmap checks: the required paths at every level. */
  predicate ValidRoadmap(r: Roadmap) {
    && Present(r.title) && Present(r.description) && Present(r.goal)
    && forall i :: 0 <= i < |r.modules| ==> ValidModule(r.modules[i])
  }

  /** No unit of the tree is complete. */
  predicate NothingCompleted(r: Roadmap) {
    forall i :: 0 <= i < |r.modules| ==>
      && !r.modules[i].completed
      && forall j :: 0 <= j < |r.modules[i].topics| ==>
           && !r.modules[i].topics[j].completed
           && forall k :: 0 <= k < |r.modules[i].topics[j].subtopics| ==>
                !r.modules[i].topics[j].subtopics[k].completed
  }

  /**
   * A roadmap built from freshly created units starts with nothing
   * completed, progress 0, the pointer at (0, 0) and `active` set.
   */
  lemma NewRoadmapDefaults(id: Id, user: Id, title: string, description: string, goal: string,
                           modules: seq<Module>, now: Time)
    requires forall i :: 0 <= i < |modules| ==>
               && !modules[i].completed
               && forall j :: 0 <= j < |modules[i].topics| ==>
                    && !modules[i].topics[j].completed
                    && forall k :: 0 <= k < |modules[i].topics[j].subtopics| ==>
                         !modules[i].topics[j].subtopics[k].completed
    ensures var r := NewRoadmap(id, user, title, description, goal, modules, now);
      && NothingCompleted(r)
      && r.progress == 0 && 0 <= r.progress <= 100
      && r.currentModule == 0 && r.currentTopic == 0
      && r.active && r.completedAt.None?
  {
  }

  /** New topics take an estimated 10 minutes, no reviews and no content or quiz link. */
  lemma NewTopicDefaults(id: Id, title: string, description: string, order: int, subtopics: seq<Subtopic>)
    ensures var t := NewTopic(id, title, description, order, subtopics);
      && t.estimatedTimeMinutes == 10 && t.reviewCount == 0
      && !t.completed && t.completedAt.None?
      && t.contentId.None? && t.quizId.None?
      && t.subtopics == subtopics
  {
  }

  /** A title that is only whitespace is stored as "" and fails the required check. */
  lemma BlankTitleRejected(id: Id, title: string, description: string)
    requires forall i :: 0 <= i < |title| ==> Text.IsSpace(title[i])
    ensures !ValidSubtopic(NewSubtopic(id, title, description))
  {
  }
}
