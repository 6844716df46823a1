/**
 * The content routes (server/src/routes/content.routes.js): generating content
 * for a topic or subtopic of a roadmap and linking it into the roadmap,
 * editing content field by field, and deleting content together with its link.
 * The content collection is the field `contents` of a `ContentStore`; the
 * roadmap a request reaches is a `RoadmapDoc`.
 */
module ContentRoutes {
  import opened Common
  import opened RoadmapSchema
  import opened RoadmapRoutes
  import opened ContentSchema
  import Gemini
  import Text

  /** `x || default` on an optional string: "" counts as absent. */
  function Truthy(o: Option<string>): (r: Option<string>)
    ensures r.Some? <==> o.Some? && o.value != ""
    ensures r.Some? ==> r == o
  {
    if o.Some? && o.value != "" then o else None
  }

  // ---------------------------------------------------------------------------
  // POST /generate

  /** The body of a generate request; `subtopicIndex` is None when undefined or null. */
  datatype GenerateRequest = GenerateRequest(roadmapId: Id, moduleIndex: int, topicIndex: int, subtopicIndex: Option<int>)

  /** The fields the content generator answered with; any of them may be missing. */
  datatype GeneratedContent = GeneratedContent(
    title: Option<string>,
    description: Option<string>,
    contentType: Option<string>,
    textContent: Option<string>,
    tags: Option<seq<string>>,
    estimatedTimeMinutes: Option<int>,
    difficulty: Option<string>)

  /**
   * The query for existing content: roadmap, user, module and topic index,
   * and the subtopic index only for a subtopic request. A topic request
   * therefore also matches content made for one of the topic's subtopics.
   */
  predicate KeyMatches(c: Content, req: GenerateRequest, user: Id) {
    && c.roadmap == req.roadmapId && c.user == user
    && c.moduleIndex == req.moduleIndex && c.topicIndex == req.topicIndex
    && (req.subtopicIndex.Some? ==> c.subtopicIndex == req.subtopicIndex)
  }

  /** `Content.findOne(query)`: the first stored content the key matches. */
  function FindExisting(cs: seq<Content>, req: GenerateRequest, user: Id): (r: Option<nat>)
    ensures r.Some? ==> r.value < |cs| && KeyMatches(cs[r.value], req, user)
    ensures r.Some? ==> forall j :: 0 <= j < r.value ==> !KeyMatches(cs[j], req, user)
    ensures r.None? <==> forall j :: 0 <= j < |cs| ==> !KeyMatches(cs[j], req, user)
  {
    FirstWhere(cs, (c: Content) => KeyMatches(c, req, user))
  }

  /** The new document built from the generator's answer. */
  function GeneratedDocument(gen: GeneratedContent, id: Id, req: GenerateRequest, user: Id, now: Time): (c: Content)
    ensures KeyMatches(c, req, user) && c.subtopicIndex == req.subtopicIndex
  {
    NewContent(id,
               if gen.title.Some? then gen.title.value else "",
               if gen.description.Some? then gen.description.value else "",
               Truthy(gen.contentType), gen.textContent,
               if gen.tags.Some? then gen.tags.value else [],
               gen.estimatedTimeMinutes, Truthy(gen.difficulty),
               req.roadmapId, req.moduleIndex, req.topicIndex, req.subtopicIndex, user, now)
  }

  /** The request names an existing module and topic, and subtopic when it asks for one. */
  predicate Addressable(r: Roadmap, req: GenerateRequest) {
    && ValidTopicIndex(r, req.moduleIndex, req.topicIndex)
    && (req.subtopicIndex.Some? ==> ValidSubtopicIndex(r, req.moduleIndex, req.topicIndex, req.subtopicIndex.value))
  }

  /** The roadmap with topic (mi, ti) linked to content id, unless it is linked already. */
  function LinkTopic(r: Roadmap, mi: int, ti: int, id: Id): Roadmap
    requires ValidTopicIndex(r, mi, ti)
  {
    var t := r.modules[mi].topics[ti];
    if t.contentId.None? then WithTopic(r, mi, ti, t.(contentId := Some(id))) else r
  }

  datatype Generated = Generated(status: Status, contents: seq<Content>, roadmap: Option<Roadmap>, content: Option<Content>)

  /**
   * `POST /generate`. `stored` is the roadmap document under the requested id,
   * if any; `gen` is the generator's answer, None when it failed. A subtopic
   * link is not kept, because the subtopic schema has no `contentId` path.
   */
  function GenerateStep(cs: seq<Content>, stored: Option<Roadmap>, userExists: bool, user: Id,
                        req: GenerateRequest, gen: Option<GeneratedContent>, newId: Id, now: Time): Generated
  {
    if !userExists || stored.None? || stored.value.id != req.roadmapId || stored.value.user != user
       || !Addressable(stored.value, req) then
      Generated(NotFound, cs, stored, None)
    else
      match FindExisting(cs, req, user)
      case Some(k) => Generated(Ok, cs, stored, Some(cs[k]))
      case None =>
        if gen.None? then Generated(ServerError, cs, stored, None)
        else
          var c := GeneratedDocument(gen.value, newId, req, user, now);
          if !ValidContent(c) then Generated(ServerError, cs, stored, None)
          else if req.subtopicIndex.Some? then Generated(Created, cs + [c], stored, Some(c))
          else Generated(Created, cs + [c], Some(LinkTopic(stored.value, req.moduleIndex, req.topicIndex, newId)), Some(c))
  }

  /**
   * A missing user, roadmap, module, topic or requested subtopic answers 404
   * before anything is looked up or generated, and changes nothing.
   */
  lemma GenerateStepNotFound(cs: seq<Content>, stored: Option<Roadmap>, userExists: bool, user: Id,
                             req: GenerateRequest, gen: Option<GeneratedContent>, newId: Id, now: Time)
    ensures var g := GenerateStep(cs, stored, userExists, user, req, gen, newId, now);
      && (g.status == NotFound <==>
            !userExists || stored.None? || stored.value.id != req.roadmapId || stored.value.user != user
            || !(0 <= req.moduleIndex < |stored.value.modules|)
            || !(0 <= req.topicIndex < |stored.value.modules[req.moduleIndex].topics|)
            || (req.subtopicIndex.Some? &&
                !(0 <= req.subtopicIndex.value < |stored.value.modules[req.moduleIndex].topics[req.topicIndex].subtopics|)))
      && (g.status != Created ==> g.contents == cs && g.roadmap == stored)
  {
  }

  /** Existing content under the key is answered as it is; nothing is created or linked. */
  lemma GenerateStepReturnsExisting(cs: seq<Content>, stored: Option<Roadmap>, userExists: bool, user: Id,
                                    req: GenerateRequest, gen: Option<GeneratedContent>, newId: Id, now: Time)
    requires userExists && stored.Some? && stored.value.id == req.roadmapId && stored.value.user == user
    requires Addressable(stored.value, req)
    requires exists j :: 0 <= j < |cs| && KeyMatches(cs[j], req, user)
    ensures var g := GenerateStep(cs, stored, userExists, user, req, gen, newId, now);
      && g.status == Ok && g.contents == cs && g.roadmap == stored
      && g.content.Some? && g.content.value in cs && KeyMatches(g.content.value, req, user)
  {
  }

  /** The lookup for a topic's content is also satisfied by content made for one of its subtopics. */
  lemma TopicLookupMatchesSubtopicContent(c: Content, req: GenerateRequest, user: Id)
    requires req.subtopicIndex.None? && c.subtopicIndex.Some?
    requires c.roadmap == req.roadmapId && c.user == user
    requires c.moduleIndex == req.moduleIndex && c.topicIndex == req.topicIndex
    ensures KeyMatches(c, req, user) && c.subtopicIndex != req.subtopicIndex
  {
  }

  /**
   * Linking sets the topic's content id only if it was unset; no other
   * field of the topic and no other unit of the roadmap changes.
   */
  lemma LinkTopicEffect(r: Roadmap, mi: int, ti: int, id: Id)
    requires ValidTopicIndex(r, mi, ti)
    ensures ValidTopicIndex(LinkTopic(r, mi, ti, id), mi, ti)
    ensures LinkTopic(r, mi, ti, id).modules[mi].topics[ti].contentId ==
              if r.modules[mi].topics[ti].contentId.Some? then r.modules[mi].topics[ti].contentId else Some(id)
    ensures LinkTopic(r, mi, ti, id).modules[mi].topics[ti] ==
              r.modules[mi].topics[ti].(contentId := LinkTopic(r, mi, ti, id).modules[mi].topics[ti].contentId)
    ensures |LinkTopic(r, mi, ti, id).modules| == |r.modules|
    ensures forall i :: 0 <= i < |r.modules| && i != mi ==> LinkTopic(r, mi, ti, id).modules[i] == r.modules[i]
    ensures forall j :: 0 <= j < |r.modules[mi].topics| && j != ti ==>
              LinkTopic(r, mi, ti, id).modules[mi].topics[j] == r.modules[mi].topics[j]
    ensures LinkTopic(r, mi, ti, id) == r.(modules := LinkTopic(r, mi, ti, id).modules)
  {
  }

  /**
   * New content is appended under the request's key, with subtopic index
   * None exactly for a topic request, and only when nothing matched the key.
   * A topic request links the topic (see LinkTopicEffect); a subtopic
   * request leaves the roadmap as it was.
   */
  lemma GenerateStepCreates(cs: seq<Content>, stored: Option<Roadmap>, userExists: bool, user: Id,
                            req: GenerateRequest, gen: Option<GeneratedContent>, newId: Id, now: Time)
    requires GenerateStep(cs, stored, userExists, user, req, gen, newId, now).status == Created
    ensures GenerateStep(cs, stored, userExists, user, req, gen, newId, now).content.Some?
    ensures var g := GenerateStep(cs, stored, userExists, user, req, gen, newId, now);
      var c := g.content.value;
      && g.contents == cs + [c]
      && c.id == newId && KeyMatches(c, req, user) && ValidContent(c)
      && (c.subtopicIndex.None? <==> req.subtopicIndex.None?)
      && c.aiGenerated
    ensures forall j :: 0 <= j < |cs| ==> !KeyMatches(cs[j], req, user)
    ensures stored.Some? && ValidTopicIndex(stored.value, req.moduleIndex, req.topicIndex)
    ensures req.subtopicIndex.Some? ==> GenerateStep(cs, stored, userExists, user, req, gen, newId, now).roadmap == stored
    ensures req.subtopicIndex.None? ==>
              GenerateStep(cs, stored, userExists, user, req, gen, newId, now).roadmap ==
              Some(LinkTopic(stored.value, req.moduleIndex, req.topicIndex, newId))
  {
  }

  /**
   * The content service's answer as the handler reads it: of the fields the
   * handler looks for, the answer carries only `title`; the text sits under
   * `contentText`, which the handler never reads.
   */
  function ServiceAnswer(r: Gemini.ContentResult): (g: GeneratedContent)
    ensures g.title == Some(r.title)
    ensures g.description.None? && g.textContent.None? && g.tags.None?
  {
    GeneratedContent(Some(r.title), None, None, None, None, None, None)
  }

  /**
   * The description of the unit a request names, which the handler sends to
   * the generator: the subtopic's for a subtopic request, else the topic's.
   */
  function UnitDescription(r: Roadmap, req: GenerateRequest): string
    requires Addressable(r, req)
  {
    var t := r.modules[req.moduleIndex].topics[req.topicIndex];
    if req.subtopicIndex.Some? then t.subtopics[req.subtopicIndex.value].description else t.description
  }

  /**
   * The service's answer mapped as the handler evidently intends: its title,
   * its `contentText` as the content text, and the description of the unit
   * it was generated for; the other fields take the schema defaults.
   */
  function IntendedAnswer(r: Gemini.ContentResult, description: string): (g: GeneratedContent)
    ensures g.title == Some(r.title) && g.description == Some(description)
    ensures g.textContent == Some(r.contentText)
    ensures g.contentType.None? && g.tags.None? && g.estimatedTimeMinutes.None? && g.difficulty.None?
  {
    GeneratedContent(Some(r.title), Some(description), None, Some(r.contentText), None, None, None)
  }

  /**
   * With the intended mapping, a request for an existing unit that has no
   * content yet answers 201 whenever the generated title is not blank and
   * the unit has a description: the generated title and text are stored as
   * one new content document appended to the collection.
   */
  lemma IntendedAnswerSaved(cs: seq<Content>, stored: Option<Roadmap>, userExists: bool, user: Id,
                            req: GenerateRequest, r: Gemini.ContentResult, newId: Id, now: Time)
    requires userExists && stored.Some? && stored.value.id == req.roadmapId && stored.value.user == user
    requires Addressable(stored.value, req)
    requires FindExisting(cs, req, user).None?
    requires exists i :: 0 <= i < |r.title| && !Text.IsSpace(r.title[i])
    requires UnitDescription(stored.value, req) != ""
    ensures var g := GenerateStep(cs, stored, userExists, user, req,
                                  Some(IntendedAnswer(r, UnitDescription(stored.value, req))), newId, now);
      && g.status == Created && g.content.Some?
      && g.contents == cs + [g.content.value]
      && g.content.value.id == newId && KeyMatches(g.content.value, req, user)
      && g.content.value.title == Text.Trim(r.title)
      && g.content.value.description == UnitDescription(stored.value, req)
      && g.content.value.textContent == Some(r.contentText)
  {
    Text.TrimBlank(r.title);
  }

  /**
   * As the service and the handler are written, generation never creates
   * content: the answer has no description, which the schema requires, so a
   * request that finds no existing content answers 500 and stores nothing.
   */
  lemma ServiceAnswerNeverSaved(cs: seq<Content>, stored: Option<Roadmap>, userExists: bool, user: Id,
                                req: GenerateRequest, r: Gemini.ContentResult, newId: Id, now: Time)
    ensures var g := GenerateStep(cs, stored, userExists, user, req, Some(ServiceAnswer(r)), newId, now);
      && g.status != Created
      && g.contents == cs && g.roadmap == stored
      && (g.status == ServerError <==>
            && userExists && stored.Some? && stored.value.id == req.roadmapId && stored.value.user == user
            && Addressable(stored.value, req) && FindExisting(cs, req, user).None?)
  {
  }

  // ---------------------------------------------------------------------------
  // PUT /:id

  /**
   * The edit request. A string, tag list or reading time is applied only when
   * truthy; `videoStartTime`/`videoEndTime` are None when undefined and
   * `Some(None)` when null, and are applied whenever defined.
   */
  datatype ContentPatch = ContentPatch(
    title: Option<string>,
    description: Option<string>,
    contentType: Option<string>,
    textContent: Option<string>,
    videoUrl: Option<string>,
    videoStartTime: Option<Option<int>>,
    videoEndTime: Option<Option<int>>,
    tags: Option<seq<string>>,
    estimatedTimeMinutes: Option<int>,
    difficulty: Option<string>)

  /** A supplied string that is truthy, i.e. not "". */
  predicate Given(o: Option<string>) {
    o.Some? && o.value != ""
  }

  /** The text fields after the edit: each replaced only by a truthy value. */
  function PatchedText(c: Content, p: ContentPatch): Content {
    c.(title := if Given(p.title) then Text.Trim(p.title.value) else c.title,
       description := if Given(p.description) then p.description.value else c.description,
       contentType := if Given(p.contentType) then p.contentType.value else c.contentType,
       textContent := if Given(p.textContent) then p.textContent else c.textContent,
       videoUrl := if Given(p.videoUrl) then p.videoUrl else c.videoUrl)
  }

  /** The video times, tags, reading time and difficulty after the edit. */
  function PatchedMeta(c: Content, p: ContentPatch): Content {
    c.(videoStartTime := if p.videoStartTime.Some? then p.videoStartTime.value else c.videoStartTime,
       videoEndTime := if p.videoEndTime.Some? then p.videoEndTime.value else c.videoEndTime,
       tags := if p.tags.Some? then TrimAll(p.tags.value) else c.tags,
       estimatedTimeMinutes := if p.estimatedTimeMinutes.Some? && p.estimatedTimeMinutes.value != 0
                               then p.estimatedTimeMinutes.value else c.estimatedTimeMinutes,
       difficulty := if Given(p.difficulty) then p.difficulty.value else c.difficulty)
  }

  /** The content after all the field assignments of the edit handler. */
  function Patched(c: Content, p: ContentPatch, now: Time): Content {
    PatchedMeta(PatchedText(c, p), p).(aiGenerated := false, updatedAt := now)
  }

  /** `Content.findOne({ _id: id, user })`: the first content with that id and owner. */
  function OwnedContent(cs: seq<Content>, id: Id, user: Id): (r: Option<nat>)
    ensures r.Some? ==> r.value < |cs| && cs[r.value].id == id && cs[r.value].user == user
    ensures r.Some? ==> forall j :: 0 <= j < r.value ==> !(cs[j].id == id && cs[j].user == user)
    ensures r.None? <==> forall j :: 0 <= j < |cs| ==> !(cs[j].id == id && cs[j].user == user)
  {
    FirstWhere(cs, (c: Content) => c.id == id && c.user == user)
  }

  datatype ContentsUpdate = ContentsUpdate(status: Status, contents: seq<Content>)

  /** `PUT /:id`; an edit that fails validation is not saved and answers 500. */
  function UpdateStep(cs: seq<Content>, id: Id, user: Id, p: ContentPatch, now: Time): ContentsUpdate {
    match OwnedContent(cs, id, user)
    case None => ContentsUpdate(NotFound, cs)
    case Some(k) =>
      var c := Patched(cs[k], p, now);
      if ValidContent(c) then ContentsUpdate(Ok, cs[k := c]) else ContentsUpdate(ServerError, cs)
  }

  /**
   * An edit changes only the user's content with that id. Each field takes
   * the request's value only when that value is truthy (the video times:
   * when defined), the address and ownership fields never change, and the
   * content is always marked as not AI-generated.
   */
  lemma UpdateStepEffect(cs: seq<Content>, id: Id, user: Id, p: ContentPatch, now: Time)
    ensures var u := UpdateStep(cs, id, user, p, now);
      && (u.status == NotFound <==> forall j :: 0 <= j < |cs| ==> !(cs[j].id == id && cs[j].user == user))
      && (u.status != Ok ==> u.contents == cs)
      && (u.status == Ok ==>
            var k := OwnedContent(cs, id, user).value;
            var c, c' := cs[k], u.contents[k];
            && |u.contents| == |cs|
            && (forall j :: 0 <= j < |cs| && j != k ==> u.contents[j] == cs[j])
            && ValidContent(c')
            && !c'.aiGenerated && c'.updatedAt == now
            && c'.id == c.id && c'.user == c.user && c'.roadmap == c.roadmap
            && c'.moduleIndex == c.moduleIndex && c'.topicIndex == c.topicIndex
            && c'.subtopicIndex == c.subtopicIndex && c'.viewCount == c.viewCount
            && c' == Patched(c, p, now))
  {
  }

  /**
   * Each field of an edited content: the strings, the tags, the reading time
   * and the difficulty take the request's value exactly when it is truthy
   * (the title and the tags trimmed, as the schema does on save), the video
   * times whenever they are defined (null clears them); every other field is
   * kept, except that the content is marked as edited at `now`.
   */
  lemma PatchedEffect(c: Content, p: ContentPatch, now: Time)
    ensures var c' := Patched(c, p, now);
      && (Given(p.title) ==> c'.title == Text.Trim(p.title.value))
      && (!Given(p.title) ==> c'.title == c.title)
      && (Given(p.description) ==> c'.description == p.description.value)
      && (!Given(p.description) ==> c'.description == c.description)
      && (Given(p.contentType) ==> c'.contentType == p.contentType.value)
      && (!Given(p.contentType) ==> c'.contentType == c.contentType)
      && (Given(p.textContent) ==> c'.textContent == p.textContent)
      && (!Given(p.textContent) ==> c'.textContent == c.textContent)
      && (Given(p.videoUrl) ==> c'.videoUrl == p.videoUrl)
      && (!Given(p.videoUrl) ==> c'.videoUrl == c.videoUrl)
      && (p.videoStartTime.Some? ==> c'.videoStartTime == p.videoStartTime.value)
      && (p.videoStartTime.None? ==> c'.videoStartTime == c.videoStartTime)
      && (p.videoEndTime.Some? ==> c'.videoEndTime == p.videoEndTime.value)
      && (p.videoEndTime.None? ==> c'.videoEndTime == c.videoEndTime)
      && (p.tags.Some? ==> c'.tags == TrimAll(p.tags.value))
      && (p.tags.None? ==> c'.tags == c.tags)
      && (p.estimatedTimeMinutes.Some? && p.estimatedTimeMinutes.value != 0 ==>
            c'.estimatedTimeMinutes == p.estimatedTimeMinutes.value)
      && (p.estimatedTimeMinutes.None? || p.estimatedTimeMinutes.value == 0 ==>
            c'.estimatedTimeMinutes == c.estimatedTimeMinutes)
      && (Given(p.difficulty) ==> c'.difficulty == p.difficulty.value)
      && (!Given(p.difficulty) ==> c'.difficulty == c.difficulty)
      && !c'.aiGenerated && c'.updatedAt == now
      && c'.id == c.id && c'.user == c.user && c'.roadmap == c.roadmap
      && c'.moduleIndex == c.moduleIndex && c'.topicIndex == c.topicIndex
      && c'.subtopicIndex == c.subtopicIndex && c'.viewCount == c.viewCount
  {
  }

  /** Sending the same edit again changes nothing but the edit time. */
  lemma PatchedIdempotent(c: Content, p: ContentPatch, t1: Time, t2: Time)
    ensures Patched(Patched(c, p, t1), p, t2) == Patched(c, p, t2)
  {
  }

  // ---------------------------------------------------------------------------
  // DELETE /:id

  /**
   * The roadmap after deleting content c: when c's module and topic exist, a
   * subtopic link is cleared if c names an existing subtopic (that path is
   * not in the schema, so the roadmap stays as it was), and otherwise the
   * topic's link is cleared, whatever content it pointed to.
   */
  function Unlink(r: Roadmap, c: Content): Roadmap {
    if !ValidTopicIndex(r, c.moduleIndex, c.topicIndex) then r
    else if c.subtopicIndex.Some? && ValidSubtopicIndex(r, c.moduleIndex, c.topicIndex, c.subtopicIndex.value) then r
    else WithTopic(r, c.moduleIndex, c.topicIndex, r.modules[c.moduleIndex].topics[c.topicIndex].(contentId := None))
  }

  datatype Deleted = Deleted(status: Status, contents: seq<Content>, roadmap: Option<Roadmap>)

  /** `DELETE /:id`; `stored` is the roadmap document under the deleted content's roadmap id, if any. */
  function DeleteStep(cs: seq<Content>, stored: Option<Roadmap>, id: Id, user: Id): Deleted {
    match OwnedContent(cs, id, user)
    case None => Deleted(NotFound, cs, stored)
    case Some(k) =>
      var c := cs[k];
      var rest := cs[..k] + cs[k + 1..];
      if stored.Some? && stored.value.id == c.roadmap && stored.value.user == user
      then Deleted(Ok, rest, Some(Unlink(stored.value, c)))
      else Deleted(Ok, rest, stored)
  }

  /**
   * Deleting removes exactly the user's content with that id and keeps the
   * rest in order; content that is missing or owned by someone else answers
   * 404 and changes nothing.
   */
  lemma DeleteStepRemoves(cs: seq<Content>, stored: Option<Roadmap>, id: Id, user: Id)
    ensures DeleteStep(cs, stored, id, user).status == NotFound <==>
              forall j :: 0 <= j < |cs| ==> !(cs[j].id == id && cs[j].user == user)
    ensures DeleteStep(cs, stored, id, user).status == NotFound ==>
              DeleteStep(cs, stored, id, user).contents == cs && DeleteStep(cs, stored, id, user).roadmap == stored
    ensures DeleteStep(cs, stored, id, user).status == Ok ==>
              RemovedFrom(DeleteStep(cs, stored, id, user).contents, cs, OwnedContent(cs, id, user).value)
  {
    match OwnedContent(cs, id, user)
    case None =>
    case Some(k) => RemovedAt(cs, k);
  }

  /**
   * Deleting content clears its topic's link, whatever content it pointed
   * to, unless the content names an existing subtopic (then the roadmap stays
   * as it was, as it does when the module or topic is gone); nothing else in
   * the roadmap changes.
   */
  lemma DeleteStepUnlinks(cs: seq<Content>, stored: Option<Roadmap>, id: Id, user: Id)
    requires OwnedContent(cs, id, user).Some?
    ensures var c := cs[OwnedContent(cs, id, user).value];
      var d := DeleteStep(cs, stored, id, user);
      && d.status == Ok
      && (stored.Some? && stored.value.id == c.roadmap && stored.value.user == user &&
          ValidTopicIndex(stored.value, c.moduleIndex, c.topicIndex) &&
          !(c.subtopicIndex.Some? && ValidSubtopicIndex(stored.value, c.moduleIndex, c.topicIndex, c.subtopicIndex.value)) ==>
            && d.roadmap.Some?
            && d.roadmap.value.modules[c.moduleIndex].topics[c.topicIndex].contentId.None?
            && d.roadmap.value == WithTopic(stored.value, c.moduleIndex, c.topicIndex,
                 stored.value.modules[c.moduleIndex].topics[c.topicIndex].(contentId := None)))
      && (c.subtopicIndex.Some? && stored.Some? &&
          ValidSubtopicIndex(stored.value, c.moduleIndex, c.topicIndex, c.subtopicIndex.value) ==>
            d.roadmap == stored)
      && (stored.None? || stored.value.id != c.roadmap || stored.value.user != user ==> d.roadmap == stored)
      && (stored.Some? && !ValidTopicIndex(stored.value, c.moduleIndex, c.topicIndex) ==> d.roadmap == stored)
  {
  }

  /** Creating topic content and deleting it again leaves the topic unlinked if it was unlinked before. */
  lemma GenerateThenDeleteUnlinks(r: Roadmap, mi: int, ti: int, newId: Id, c: Content)
    requires ValidTopicIndex(r, mi, ti) && r.modules[mi].topics[ti].contentId.None?
    requires c.moduleIndex == mi && c.topicIndex == ti && c.subtopicIndex.None?
    ensures Unlink(LinkTopic(r, mi, ti, newId), c) == r
  {
    var t := r.modules[mi].topics[ti];
    var r1 := LinkTopic(r, mi, ti, newId);
    assert r1.modules[mi].topics[ti].(contentId := None) == t;
    assert r1.modules[mi].topics[ti := t] == r.modules[mi].topics;
    assert r1.modules[mi := r1.modules[mi].(topics := r.modules[mi].topics)] == r.modules;
  }

  /** The text-field assignments of `PUT /:id`, one truthy check per field. */
  method ApplyTextFields(c0: Content, p: ContentPatch) returns (c: Content)
    ensures c == PatchedText(c0, p)
  {
    c := c0;
    if Given(p.title) { c := c.(title := Text.Trim(p.title.value)); }
    if Given(p.description) { c := c.(description := p.description.value); }
    if Given(p.contentType) { c := c.(contentType := p.contentType.value); }
    if Given(p.textContent) { c := c.(textContent := p.textContent); }
    if Given(p.videoUrl) { c := c.(videoUrl := p.videoUrl); }
  }

  /** The remaining assignments of `PUT /:id`: video times when defined, the rest when truthy. */
  method ApplyMetaFields(c0: Content, p: ContentPatch) returns (c: Content)
    ensures c == PatchedMeta(c0, p)
  {
    c := c0;
    if p.videoStartTime.Some? { c := c.(videoStartTime := p.videoStartTime.value); }
    if p.videoEndTime.Some? { c := c.(videoEndTime := p.videoEndTime.value); }
    if p.tags.Some? { c := c.(tags := TrimAll(p.tags.value)); }
    if p.estimatedTimeMinutes.Some? && p.estimatedTimeMinutes.value != 0 {
      c := c.(estimatedTimeMinutes := p.estimatedTimeMinutes.value);
    }
    if Given(p.difficulty) { c := c.(difficulty := p.difficulty.value); }
  }

  // ---------------------------------------------------------------------------
  // The content collection

  class ContentStore {
    var contents: seq<Content>

    constructor ()
      ensures contents == []
    {
      contents := [];
    }

    /** `POST /generate`; `doc` is the roadmap stored under the requested id, if any. */
    method Generate(doc: RoadmapDoc?, userExists: bool, user: Id, req: GenerateRequest,
                    gen: Option<GeneratedContent>, newId: Id, now: Time)
      returns (status: Status, content: Option<Content>)
      modifies this, doc
      ensures var stored := if doc == null then None else Some(old(doc.Value()));
        var g := GenerateStep(old(contents), stored, userExists, user, req, gen, newId, now);
        && status == g.status && content == g.content && contents == g.contents
        && (doc != null ==> Some(doc.Value()) == g.roadmap)
    {
      if !userExists || doc == null || doc.id != req.roadmapId || doc.user != user
         || !(0 <= req.moduleIndex < |doc.modules|)
         || !(0 <= req.topicIndex < |doc.modules[req.moduleIndex].topics|) {
        return NotFound, None;
      }
      var mi, ti := req.moduleIndex, req.topicIndex;
      if req.subtopicIndex.Some? && !(0 <= req.subtopicIndex.value < |doc.modules[mi].topics[ti].subtopics|) {
        return NotFound, None;
      }
      ghost var stored := doc.Value();
      assert Addressable(stored, req);
      var existing := FindExisting(contents, req, user);
      if existing.Some? {
        return Ok, Some(contents[existing.value]);
      }
      if gen.None? {
        return ServerError, None;
      }
      var c := GeneratedDocument(gen.value, newId, req, user, now);
      if !ValidContent(c) {
        return ServerError, None;
      }
      contents := contents + [c];
      if req.subtopicIndex.None? && doc.modules[mi].topics[ti].contentId.None? {
        doc.ReplaceTopic(mi, ti, doc.modules[mi].topics[ti].(contentId := Some(newId)));
      }
      status, content := Created, Some(c);
    }

    /** `PUT /:id`. */
    method Update(id: Id, user: Id, p: ContentPatch, now: Time) returns (status: Status)
      modifies this
      ensures ContentsUpdate(status, contents) == UpdateStep(old(contents), id, user, p, now)
    {
      var k := OwnedContent(contents, id, user);
      if k.None? {
        return NotFound;
      }
      var c := ApplyTextFields(contents[k.value], p);
      c := ApplyMetaFields(c, p);
      c := c.(aiGenerated := false, updatedAt := now);
      if !ValidContent(c) {
        return ServerError;
      }
      contents := contents[k.value := c];
      status := Ok;
    }

    /** `DELETE /:id`; `doc` is the roadmap stored under the content's roadmap id, if any. */
    method Delete(doc: RoadmapDoc?, id: Id, user: Id) returns (status: Status)
      modifies this, doc
      ensures var stored := if doc == null then None else Some(old(doc.Value()));
        var d := DeleteStep(old(contents), stored, id, user);
        && status == d.status && contents == d.contents
        && (doc != null ==> Some(doc.Value()) == d.roadmap)
    {
      var k := OwnedContent(contents, id, user);
      if k.None? {
        return NotFound;
      }
      var c := contents[k.value];
      contents := contents[..k.value] + contents[k.value + 1..];
      if doc != null && doc.id == c.roadmap && doc.user == user
         && 0 <= c.moduleIndex < |doc.modules| && 0 <= c.topicIndex < |doc.modules[c.moduleIndex].topics| {
        var subtopics := doc.modules[c.moduleIndex].topics[c.topicIndex].subtopics;
        if !(c.subtopicIndex.Some? && 0 <= c.subtopicIndex.value < |subtopics|) {
          doc.ReplaceTopic(c.moduleIndex, c.topicIndex, doc.modules[c.moduleIndex].topics[c.topicIndex].(contentId := None));
        }
      }
      status := Ok;
    }
  }
}
