/**
 * The learning-content document (server/src/models/content.model.js): one
 * piece of generated or edited material, addressed inside a roadmap by module
 * and topic index and, for subtopic material, a subtopic index.
 */
module ContentSchema {
  import opened Common
  import Text

  /** The values the `type` path accepts. */
  predicate IsContentType(s: string) {
    s == "text" || s == "video" || s == "mixed"
  }

  /** The values the `difficulty` path accepts. */
  predicate IsContentDifficulty(s: string) {
    s == "beginner" || s == "intermediate" || s == "advanced"
  }

  datatype Content = Content(
    id: Id,
    title: string,
    description: string,
    contentType: string,
    textContent: Option<string>,
    videoUrl: Option<string>,
    videoStartTime: Option<int>,
    videoEndTime: Option<int>,
    tags: seq<string>,
    estimatedTimeMinutes: int,
    difficulty: string,
    roadmap: Id,
    moduleIndex: int,
    topicIndex: int,
    subtopicIndex: Option<int>,   // None marks content for a whole topic
    user: Id,
    aiGenerated: bool,
    viewCount: int,
    updatedAt: Time)

  /** Every tag trimmed, as the schema stores tags. */
  function TrimAll(tags: seq<string>): (r: seq<string>)
    ensures |r| == |tags|
    ensures forall i :: 0 <= i < |r| ==> r[i] == Text.Trim(tags[i])
  {
    if |tags| == 0 then [] else [Text.Trim(tags[0])] + TrimAll(tags[1..])
  }

  /**
   * A content document as the schema builds it; an absent type, difficulty,
   * reading time or subtopic index takes the schema default.
   */
  function NewContent(id: Id, title: string, description: string, contentType: Option<string>,
                      textContent: Option<string>, tags: seq<string>, estimatedTimeMinutes: Option<int>,
                      difficulty: Option<string>, roadmap: Id, moduleIndex: int, topicIndex: int,
                      subtopicIndex: Option<int>, user: Id, now: Time): (c: Content)
    ensures contentType.None? ==> c.contentType == "text"
    ensures difficulty.None? ==> c.difficulty == "beginner"
    ensures estimatedTimeMinutes.None? ==> c.estimatedTimeMinutes == 10
    ensures c.aiGenerated && c.viewCount == 0
    ensures c.videoUrl.None? && c.videoStartTime.None? && c.videoEndTime.None?
    ensures c.roadmap == roadmap && c.user == user && c.subtopicIndex == subtopicIndex
    ensures c.moduleIndex == moduleIndex && c.topicIndex == topicIndex
  {
    Content(id, Text.Trim(title), description,
            if contentType.Some? then contentType.value else "text",
            textContent, None, None, None, TrimAll(tags),
            if estimatedTimeMinutes.Some? then estimatedTimeMinutes.value else 10,
            if difficulty.Some? then difficulty.value else "beginner",
            roadmap, moduleIndex, topicIndex, subtopicIndex, user, true, 0, now)
  }

  /** What saving checks: the required strings and both enumerations. */
  predicate ValidContent(c: Content) {
    && c.title != "" && c.description != ""
    && IsContentType(c.contentType)
    && IsContentDifficulty(c.difficulty)
  }

  /**
   * New content without type and difficulty is valid exactly when its title
   * has a non-space character and its description is not empty.
   */
  lemma NewContentValidity(id: Id, title: string, description: string, textContent: Option<string>,
                           tags: seq<string>, roadmap: Id, moduleIndex: int, topicIndex: int,
                           subtopicIndex: Option<int>, user: Id, now: Time)
    ensures var c := NewContent(id, title, description, None, textContent, tags, None, None,
                                roadmap, moduleIndex, topicIndex, subtopicIndex, user, now);
      ValidContent(c) <==> description != "" && exists i :: 0 <= i < |title| && !Text.IsSpace(title[i])
  {
    var c := NewContent(id, title, description, None, textContent, tags, None, None,
                        roadmap, moduleIndex, topicIndex, subtopicIndex, user, now);
    Text.TrimBlank(title);
  }
}
