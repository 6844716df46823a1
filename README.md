# Atomic Sensei core, modelled in Dafny

Atomic Sensei is a learning application. A user states a learning goal. A generative AI model turns the goal into a
roadmap of modules, topics and optional subtopics. The app then serves short lessons and generated quizzes. It tracks
what the user has completed, and it schedules "next lesson" reminders through server-side timers, browser
notifications and a client-side learning timer.

This project models the parts of that system that hold its logic:

- the Express route handlers that change roadmaps, quiz results, timers, content and user profiles;
- the Gemini service's JSON extraction, quiz normalisation, fallback quiz and reading-time estimate;
- the Mongoose schemas' defaults and validations;
- the browser-side notification, timer and content-cache services, over `localStorage`;
- the notification centre's "mark all read" and its time-ago buckets.

Module layout, one Dafny module per source file:

- `RoadmapSchema`, `QuizSchema`, `QuizResultSchema`, `TimerSchema`, `UserSchema` and `ContentSchema` hold the
  documents and their constructors with schema defaults.
- `RoadmapRoutes`, `QuizRoutes`, `TimerRoutes`, `ContentRoutes` and `UserRoutes` hold the handlers. Each handler is a
  step function from the stored state, the request and the inputs the handler receives (the clock, AI answers) to a
  status and the new state. The documents the source changes in place are classes (`RoadmapDoc`, `TimerStore`,
  `ContentStore`, `UserDoc`). Their methods are proved equal to the step functions, and lemmas about the step functions
  carry the properties.
- `Gemini` covers the text handling around the AI model: finding the JSON in a reply, normalising quiz questions, the
  fallback quiz and the content result.
- `BrowserStorage` is the `localStorage` object, a class over a map from keys to typed stored values.
  `NotificationService`, `NotificationCenter`, `TimerService` and `ContentService` are the client services that read
  and write it.
- `Common`, `Text` and `Json` hold the shared pieces: option and status types, JavaScript's `Math.round` of a
  percentage, `split`/`join`/`trim`/`toLowerCase`/`padStart` on strings, and an abstract JSON value.

## Model

| member | source | states |
|---|---|---|
| RoadmapRoutes.CompletedIn | server/src/routes/roadmap.routes.js:154 | a topic list's completed count is at most its length, and equals it exactly when every topic is completed (the `every` test) |
| RoadmapRoutes.CompletedCount | server/src/routes/roadmap.routes.js:186-188 | the completed topics of the whole roadmap never outnumber its topics |
| RoadmapRoutes.Progress | server/src/routes/roadmap.routes.js:185-190 | the rounded percentage of completed topics lies in 0..100 for any roadmap with a topic |
| RoadmapRoutes.ProgressExtremes | server/src/routes/roadmap.routes.js:185-190 | all topics completed gives 100, none completed gives 0 |
| RoadmapRoutes.SetTopicProgress | server/src/routes/roadmap.routes.js:144-200 | a found roadmap is answered only with 200 or 400 |
| RoadmapRoutes.SetTopicProgressRejects | server/src/routes/roadmap.routes.js:144-200 | 400 exactly when the module or topic index names no topic, and then the roadmap is unchanged |
| RoadmapRoutes.SetTopicProgressTopic | server/src/routes/roadmap.routes.js:145-151 | the topic takes the requested flag, has a completion time iff completed, keeps its other fields (its subtopics included); no other topic or module changes |
| RoadmapRoutes.SetTopicProgressModule | server/src/routes/roadmap.routes.js:154-161 | the module is completed iff every one of its topics is, stamped iff completed; marking a topic incomplete always leaves the module incomplete |
| RoadmapRoutes.SetTopicProgressPointer | server/src/routes/roadmap.routes.js:164-182 | incomplete: pointer and completion time unchanged; completed: next topic, or first topic of the next module, or past the last module the roadmap is stamped and the pointer stays |
| RoadmapRoutes.SetTopicProgressCounts | server/src/routes/roadmap.routes.js:185-190 | the saved progress is the rounded share of completed topics over all modules, in 0..100, and the completed count moves by exactly the change of the topic's flag |
| RoadmapRoutes.SetTopicProgressMonotonic | server/src/routes/roadmap.routes.js:145-190 | completing a topic never lowers the progress, uncompleting never raises it |
| RoadmapRoutes.SetSubtopicProgress | server/src/routes/roadmap.routes.js:223-290 | a found roadmap is answered only with 200 or 400 |
| RoadmapRoutes.SetSubtopicProgressRejects | server/src/routes/roadmap.routes.js:224-229 | 400 exactly when any of the three indexes names nothing, and then nothing changes |
| RoadmapRoutes.SetSubtopicProgressSubtopic | server/src/routes/roadmap.routes.js:232-235 | the subtopic takes the flag and is stamped iff completed; its siblings, the other topics and the other modules are unchanged |
| RoadmapRoutes.SetSubtopicProgressCompletesTopic | server/src/routes/roadmap.routes.js:234-271 | completing the last incomplete subtopic completes and stamps the topic, recomputes the module's flag (stamping it only when completed, otherwise keeping its old time) and moves the pointer exactly as completing the topic does |
| RoadmapRoutes.SetSubtopicProgressPartial | server/src/routes/roadmap.routes.js:234-242 | while a sibling is still incomplete only that subtopic changes, and the progress stays what it was |
| RoadmapRoutes.SetSubtopicProgressUncompletes | server/src/routes/roadmap.routes.js:272-282 | uncompleting a subtopic clears its time and forces its topic and module to incomplete with cleared times; the pointer does not move |
| RoadmapRoutes.AdvanceKeepsPointerInRange | server/src/routes/roadmap.routes.js:164-182 | the pointer step keeps the pointer on an existing module and a topic of it, and touches no module |
| RoadmapRoutes.SetTopicProgressPreserves | server/src/routes/roadmap.routes.js:144-190 | the topic handler keeps "a completed module has all its topics completed" and the pointer in range |
| RoadmapRoutes.SetSubtopicProgressPreserves | server/src/routes/roadmap.routes.js:223-290 | the subtopic handler keeps the same two invariants |
| RoadmapRoutes.RoadmapDoc.AdvancePointer | server/src/routes/roadmap.routes.js:164-182 | the in-place pointer assignments give the document `Advance` describes |
| RoadmapRoutes.RoadmapDoc.UpdateProgress | server/src/routes/roadmap.routes.js:144-200 | the in-place handler body answers and saves what `SetTopicProgress` describes |
| RoadmapRoutes.RoadmapDoc.UpdateSubtopicProgress | server/src/routes/roadmap.routes.js:223-297 | the in-place handler body answers and saves what `SetSubtopicProgress` describes |
| RoadmapRoutes.HandleProgress | server/src/routes/roadmap.routes.js:132-205 | a missing roadmap, or one of another user, is 404 and untouched; otherwise the outcome of `SetTopicProgress` |
| RoadmapRoutes.HandleSubtopicProgress | server/src/routes/roadmap.routes.js:212-302 | the same lookup, then the outcome of `SetSubtopicProgress` |
| QuizRoutes.MappedDifficulty | server/src/routes/quiz.routes.js:97 | a missing or empty difficulty becomes "medium", any other is kept; the result is never empty |
| QuizRoutes.MappedPoints | server/src/routes/quiz.routes.js:98 | a missing or zero point value becomes 1, any other is kept; the result is never 0 |
| QuizRoutes.CorrectIds | server/src/routes/quiz.routes.js:221 | the ids of exactly the options flagged correct, no more of them than options |
| QuizRoutes.FirstCorrect | server/src/routes/quiz.routes.js:229 | the first option flagged correct, and none when no option is |
| QuizRoutes.CorrectIdsDistinct | server/src/routes/quiz.routes.js:221 | options with distinct ids give a correct-id list without repeats |
| QuizRoutes.SameSelectionIsSetEquality | server/src/routes/quiz.routes.js:225-226 | for lists without repeats, "same length and contains every correct id" is set equality |
| QuizRoutes.MultiSelectCorrectIff | server/src/routes/quiz.routes.js:219-250 | a list answer is correct iff its ids are exactly the correct options' ids, and then earns the question's points, otherwise 0 |
| QuizRoutes.SingleChoiceCorrectIff | server/src/routes/quiz.routes.js:228-230 | with no correct option `isCorrect` stays undefined and earns 0; with one, a missing answer throws |
| QuizRoutes.SingleChoiceFirstCorrect | server/src/routes/quiz.routes.js:228-250 | a string answer is correct iff it is the id of the first correct option, earning the points exactly then |
| QuizRoutes.TrueFalseIgnoresCase | server/src/routes/quiz.routes.js:232-234 | a true/false answer is correct iff it equals the correct answer after lower-casing both, and the answer's case never matters; a missing answer or correct answer throws |
| QuizRoutes.Concept | server/src/routes/quiz.routes.js:260 | the concept ends in "..." and what precedes it is a prefix of the question text |
| QuizRoutes.ScoredThrowsOnward | server/src/routes/quiz.routes.js:210-272 | once an evaluation throws, the loop as a whole throws |
| QuizRoutes.ScoredStops | server/src/routes/quiz.routes.js:210-246 | a question whose evaluation throws ends the loop in an error |
| QuizRoutes.ScoredNext | server/src/routes/quiz.routes.js:249-271 | one iteration appends the question's result, adds its point value to the total and its earned points, and its concept when not correct |
| QuizRoutes.ScoredResults | server/src/routes/quiz.routes.js:210-271 | a finished loop holds one result per question in question order, each carrying that question's evaluation and an answer time of 0, and the total of all point values |
| QuizRoutes.ScoredConceptsCover | server/src/routes/quiz.routes.js:258-262 | every question not answered correctly contributes its concept |
| QuizRoutes.ScoredConceptsMissed | server/src/routes/quiz.routes.js:258-262 | every collected concept comes from a question not answered correctly |
| QuizRoutes.ScoreAnswers | server/src/routes/quiz.routes.js:204-272 | the imperative loop returns the tally `Scored` defines, or the error |
| QuizRoutes.EarnedWithinTotal | server/src/routes/quiz.routes.js:245-255 | with non-negative point values and short-answer grants within their question's value, 0 <= earned <= total |
| QuizRoutes.Dedup | server/src/routes/quiz.routes.js:290 | the de-duplicated list has no repeats, the same elements and is no longer |
| QuizRoutes.DedupOfDistinct | server/src/routes/quiz.routes.js:290 | a list without repeats is kept as it is |
| QuizRoutes.DedupFirstAndIdempotent | server/src/routes/quiz.routes.js:290 | de-duplicating twice is de-duplicating once, and the first element stays first |
| QuizRoutes.AttemptOutcome | server/src/routes/quiz.routes.js:274-293 | a saved result has one entry per question in order, score = earned points, a total or an earned score that is not zero, the percentage `Math.round(earned / total * 100)` as a JavaScript number (the rounded share for a non-zero total, an infinity otherwise), passed iff the percentage reaches the passing score, review needed iff failed or under 80, and it passes validation |
| QuizRoutes.ZeroTotalWithPoints | server/src/routes/quiz.routes.js:275-289 | point values summing to 0 with points earned give an infinite percentage that is saved: passed iff the earned points are positive, and a review is needed exactly when not passed |
| QuizRoutes.ZeroOfZeroNotSaved | server/src/routes/quiz.routes.js:275-293 | no points earned against a zero total is `NaN`, which the required number refuses, so nothing is saved |
| QuizRoutes.AttemptConcepts | server/src/routes/quiz.routes.js:258-290 | the concepts to review are exactly the missed questions' concepts, each once |
| QuizRoutes.ReviewThreshold | server/src/routes/quiz.routes.js:276-289 | with a passing score of at most 80 a review is needed iff the percentage does not reach 80; above 80 iff the quiz was failed |
| QuizRoutes.PercentageInRange | server/src/routes/quiz.routes.js:275 | with non-negative point values and no short-answer question the percentage is finite and lies in 0..100 |
| QuizRoutes.UndefinedCorrectnessFails | server/src/routes/quiz.routes.js:229-293 | a single answer to a question with no correct option leaves `isCorrect` undefined and the result cannot be saved |
| QuizRoutes.FindTopic | server/src/routes/quiz.routes.js:299-336 | the first topic in module-major order with the quiz's topic id, and none when no topic has it |
| QuizRoutes.FindIn | server/src/routes/quiz.routes.js:300-301 | the first topic of one module with the id, and none when it has none |
| QuizRoutes.FirstMatchUnique | server/src/routes/quiz.routes.js:299-336 | the first match is unique |
| QuizRoutes.LocateTopic | server/src/routes/quiz.routes.js:298-336 | the nested loop with its `break`s stops at the position `FindTopic` gives |
| QuizRoutes.PassTopic | server/src/routes/quiz.routes.js:303-329 | passing keeps the indexes valid |
| QuizRoutes.CompleteTopicById | server/src/routes/quiz.routes.js:296-345 | the pass branch answers 200 or 500, and on 500 the roadmap is not saved |
| QuizRoutes.CompleteTopicByIdStatus | server/src/routes/quiz.routes.js:301-345 | 200 exactly when the quiz has a topic and the roadmap has topics (otherwise a throw or a NaN progress) |
| QuizRoutes.CompleteTopicByIdNoMatch | server/src/routes/quiz.routes.js:338-345 | with no matching topic only the progress is recomputed |
| QuizRoutes.CompleteTopicByIdFound | server/src/routes/quiz.routes.js:299-345 | with a match, the first matching topic is passed and the progress recomputed |
| QuizRoutes.PassTopicEffect | server/src/routes/quiz.routes.js:303-329 | only the first matching topic is completed and stamped; its module becomes completed iff all its topics are or it already was (never cleared); the pointer moves as in the progress route |
| QuizRoutes.PassTopicCounts | server/src/routes/quiz.routes.js:303-342 | passing completes exactly one more topic unless it was already completed |
| QuizRoutes.CompleteTopicByIdMonotonic | server/src/routes/quiz.routes.js:339-344 | passing a quiz never lowers the progress, which stays in 0..100 |
| QuizRoutes.MarkPassedPreserves | server/src/routes/quiz.routes.js:303-310 | marking a topic passed keeps completed modules fully completed and the pointer in range |
| QuizRoutes.CompleteTopicByIdPreserves | server/src/routes/quiz.routes.js:296-345 | the pass branch keeps both roadmap invariants |
| QuizRoutes.CompleteQuizTopic | server/src/routes/quiz.routes.js:296-345 | the in-place pass branch answers and saves what `CompleteTopicById` describes |
| QuizRoutes.SubmissionTimer | server/src/routes/quiz.routes.js:355-367 | the new timer is due the chosen interval after now, keeps the quiz's topic only for a review, is active and neither notified nor delivered |
| QuizRoutes.Submit | server/src/routes/quiz.routes.js:186-385 | a missing quiz, or a roadmap that is missing, not the user's or not the quiz's own, is 404 with nothing saved; an error in scoring or saving is 500 with the roadmap untouched; a failed quiz leaves the roadmap as it was and saves the timer; a passed one applies `CompleteTopicById` and saves the timer only when that succeeds |
| TimerRoutes.PendingFor | server/src/routes/timer.routes.js:16-19 | exactly the user's active, undelivered timers, none added |
| TimerRoutes.Insert | server/src/routes/timer.routes.js:20 | inserting into a sorted list keeps it sorted and adds exactly that timer |
| TimerRoutes.SortedCons | server/src/routes/timer.routes.js:20 | a head due no later than the first element keeps a sorted list sorted |
| TimerRoutes.SortByDelivery | server/src/routes/timer.routes.js:20 | the result is sorted by due time and a permutation of the input |
| TimerRoutes.ActiveTimersExactly | server/src/routes/timer.routes.js:16-20 | the active list is sorted by due time and holds exactly the user's active, undelivered timers, each as often as stored |
| TimerRoutes.EarliestDue | server/src/routes/timer.routes.js:39-44 | none iff no timer of the user is active, undelivered and due; otherwise a due timer with the smallest due time, the first in store order among ties |
| TimerRoutes.EarliestDueHeadsActiveList | server/src/routes/timer.routes.js:16-44 | the timer `/next` picks is due when the head of the active list is |
| TimerRoutes.ReplyStatus | server/src/routes/timer.routes.js:46-128 | "nothing due", "needs generation" and the ready reply are 200; the missing roadmap, module or topic are not |
| TimerRoutes.NextStepMarksOnlyPicked | server/src/routes/timer.routes.js:39-141 | nothing due is answered as such and changes nothing; at most the picked timer changes, only by being marked notified at now, exactly when the reply is ready or the review topic is missing |
| TimerRoutes.NextStepBranches | server/src/routes/timer.routes.js:62-128 | the review branch is taken iff the timer is a review with a topic and names the first topic with that id; otherwise the roadmap's current topic, 404 when the roadmap's current position names none, and "needs generation" without marking when no content exists |
| TimerRoutes.Owned | server/src/routes/timer.routes.js:242 | the first timer with the id and owner, none iff the user has no such timer |
| TimerRoutes.DeliveredStepEffect | server/src/routes/timer.routes.js:176-193 | 404 with nothing changed iff the user has no such timer; otherwise only that timer gets the delivered flag and time, and it leaves the active list |
| TimerRoutes.SnoozeStepEffect | server/src/routes/timer.routes.js:200-233 | 400 iff the minutes are missing or under 1 (checked first), 404 iff the user has no such timer; otherwise only that timer changes: due later by the minutes counted from its old due time, with the notification flag and time cleared |
| TimerRoutes.SnoozedNotDueEarly | server/src/routes/timer.routes.js:215-220 | a snoozed timer is not due before its old due time plus the minutes |
| TimerRoutes.DeleteStepEffect | server/src/routes/timer.routes.js:240-253 | 404 with nothing changed iff the user has no such timer; otherwise exactly that timer is removed and the others keep their order |
| TimerRoutes.TimerStore.Active | server/src/routes/timer.routes.js:14-27 | the stored collection's active list, sorted by due time |
| TimerRoutes.TimerStore.Next | server/src/routes/timer.routes.js:34-169 | the in-place handler answers and saves what `NextStep` describes |
| TimerRoutes.TimerStore.Delivered | server/src/routes/timer.routes.js:176-193 | the in-place handler answers and saves what `DeliveredStep` describes |
| TimerRoutes.TimerStore.Snooze | server/src/routes/timer.routes.js:200-233 | the in-place handler answers and saves what `SnoozeStep` describes |
| TimerRoutes.TimerStore.Delete | server/src/routes/timer.routes.js:240-253 | the in-place handler answers and saves what `DeleteStep` describes |
| ContentRoutes.Truthy | server/src/routes/content.routes.js:107-111 | `x \|\| default` on an optional string: a value is kept iff it is present and non-empty |
| ContentRoutes.FindExisting | server/src/routes/content.routes.js:58-69 | the first stored content the lookup key matches, none iff no content matches |
| ContentRoutes.GeneratedDocument | server/src/routes/content.routes.js:104-118 | the new document carries the request's key, with a subtopic index exactly for a subtopic request |
| ContentRoutes.GenerateStepNotFound | server/src/routes/content.routes.js:19-55 | 404 iff the user, the roadmap, the module, the topic or a requested subtopic is missing; nothing changes unless content is created |
| ContentRoutes.GenerateStepReturnsExisting | server/src/routes/content.routes.js:69-73 | existing content under the key is answered with 200; nothing is created or linked |
| ContentRoutes.TopicLookupMatchesSubtopicContent | server/src/routes/content.routes.js:58-67 | a topic request's key leaves out the subtopic index, so content made for one of the topic's subtopics satisfies it |
| ContentRoutes.LinkTopicEffect | server/src/routes/content.routes.js:128-133 | the topic's content id is set only if it was unset; nothing else in the roadmap changes |
| ContentRoutes.GenerateStepCreates | server/src/routes/content.routes.js:104-135 | 201 only when nothing matched the key: the new valid, AI-generated content is appended under the key with a subtopic index exactly for a subtopic request; a topic request links the topic, a subtopic request leaves the roadmap as it was |
| ContentRoutes.ServiceAnswer | server/src/services/gemini.service.js:205-211 | of the fields the handler reads, the content service's answer carries only the title |
| ContentRoutes.ServiceAnswerNeverSaved | server/src/routes/content.routes.js:104-120 | with the service's answer nothing is ever created: a request that finds no existing content fails validation and answers 500 with nothing stored |
| ContentRoutes.IntendedAnswer | server/src/routes/content.routes.js:104-109 | the corrected mapping of the service's answer: its title, its `contentText` as the text, and the unit's description |
| ContentRoutes.IntendedAnswerSaved | server/src/routes/content.routes.js:104-135 | with the corrected mapping, an existing unit with no content, a non-blank generated title and a unit description gives 201 and appends exactly one document carrying the generated title (trimmed) and text under the request's key |
| ContentRoutes.OwnedContent | server/src/routes/content.routes.js:271-309 | the first content with the id and owner, none iff the user has no such content |
| ContentRoutes.UpdateStepEffect | server/src/routes/content.routes.js:266-300 | 404 iff the user has no such content, and any status but 200 leaves the collection as it was; on 200 only that content changes, to `Patched` of it (whose fields `PatchedEffect` states), and it stays valid |
| ContentRoutes.PatchedEffect | server/src/routes/content.routes.js:278-291 | each of title (trimmed), description, type, text, video URL, difficulty and reading time is overwritten exactly when the request's value is truthy, and tags (trimmed) whenever supplied; the video times whenever defined, null clearing them; otherwise each keeps its value; address and owner never change, and the content is marked manually edited at now |
| ContentRoutes.PatchedIdempotent | server/src/routes/content.routes.js:278-291 | applying the same edit twice equals applying it once, up to the edit time |
| ContentRoutes.DeleteStepRemoves | server/src/routes/content.routes.js:309-313 | 404 with nothing changed iff the user has no such content; otherwise exactly that content is removed, the rest kept in order |
| ContentRoutes.DeleteStepUnlinks | server/src/routes/content.routes.js:316-332 | the topic's link is cleared unless the content names an existing subtopic; a missing roadmap, module or topic leaves the roadmap as it was; nothing else changes |
| ContentRoutes.GenerateThenDeleteUnlinks | server/src/routes/content.routes.js:316-332 | creating topic content for an unlinked topic and deleting it again restores the roadmap |
| ContentRoutes.ApplyTextFields | server/src/routes/content.routes.js:278-282 | the conditional assignments give the text fields of `Patched` |
| ContentRoutes.ApplyMetaFields | server/src/routes/content.routes.js:283-287 | the conditional assignments give the remaining fields of `Patched` |
| ContentRoutes.ContentStore.Generate | server/src/routes/content.routes.js:14-140 | the in-place handler answers and saves what `GenerateStep` describes |
| ContentRoutes.ContentStore.Update | server/src/routes/content.routes.js:266-300 | the in-place handler answers and saves what `UpdateStep` describes |
| ContentRoutes.ContentStore.Delete | server/src/routes/content.routes.js:307-339 | the in-place handler answers and saves what `DeleteStep` describes |
| UserRoutes.ViewOmitsPassword | server/src/routes/user.routes.js:66-73 | the answer shows id, name, email, age, education level and preferences, and does not depend on the password |
| UserRoutes.UpdateProfileStepEffect | server/src/routes/user.routes.js:42-75 | a saved update stores a truthy name trimmed and keeps the name otherwise, overwrites age and education level only with truthy values (age 0 is ignored), and sets the preferences to `PatchedPreferences` of the old ones when any are supplied; id, email and password never change; an update that fails validation is 500 and leaves the user as it was |
| UserRoutes.PatchedPreferencesEffect | server/src/routes/user.routes.js:46-60 | the content type, theme and learning time are overwritten exactly when the request's value is truthy, the gamification flag whenever it is a boolean (false included); otherwise each keeps its value |
| UserRoutes.UpdateProfileStepKeepsValid | server/src/routes/user.routes.js:42-63 | whatever the request, a valid user stays valid |
| UserRoutes.AgeOutOfRangeRejected | server/src/models/user.model.js:22-26 | an age outside 5..100 is refused with 500 and nothing changes |
| UserRoutes.ChangePasswordStepEffect | server/src/routes/user.routes.js:98-108 | a wrong current password is 401 and a missing or short new one 500, both leaving the user unchanged; otherwise only the password changes, to the hash of the new one |
| UserRoutes.UserDoc.UpdateProfile | server/src/routes/user.routes.js:42-75 | the in-place field assignments save and answer what `UpdateProfileStep` describes |
| UserRoutes.UserDoc.ChangePassword | server/src/routes/user.routes.js:98-108 | the in-place assignment saves and answers what `ChangePasswordStep` describes |
| UserRoutes.ApplyPreferences | server/src/routes/user.routes.js:46-60 | the conditional preference assignments give `PatchedPreferences` |
| UserRoutes.HandleUpdateProfile | server/src/routes/user.routes.js:31-80 | a missing user is 404; otherwise the outcome of `UpdateProfileStep` |
| UserRoutes.HandleChangePassword | server/src/routes/user.routes.js:87-113 | a missing user is 404; otherwise the outcome of `ChangePasswordStep` |
| Gemini.IndexOf | server/src/services/gemini.service.js:102-103 | the first occurrence of a pattern at or after a position, none iff there is none |
| Gemini.FirstIndex | server/src/services/gemini.service.js:109 | the first position holding a character, none iff none does |
| Gemini.LastIndex | server/src/services/gemini.service.js:109 | the last position holding a character, none iff none does |
| Gemini.ObjectSpan | server/src/services/gemini.service.js:109 | `/{[\s\S]*}/` matches iff some `{` precedes some `}`, and the match starts with `{` and ends with `}` |
| Gemini.FenceMatch | server/src/services/gemini.service.js:102-103 | the lazy fence pattern matches at the first opener and the first closer after it, and not at all when that opener has no closer |
| Gemini.FencedBody | server/src/services/gemini.service.js:102-106 | group 1 exists iff the fence pattern matches, and holds no closer |
| Gemini.RoadmapJsonText | server/src/services/gemini.service.js:101-116 | the JSON text is the first non-empty one of the `json` block body, the plain block body and the brace span; with none of them it is an error |
| Gemini.FencedRoundTrip | server/src/services/gemini.service.js:102-106 | a non-empty text that holds no closer, put in a `json` block, is extracted unchanged |
| Gemini.BareObjectTakenWhole | server/src/services/gemini.service.js:108-111 | a reply that is a bare object without backticks is taken whole |
| Gemini.ExtractRoadmap | server/src/services/gemini.service.js:98-129 | roadmap data is accepted iff a JSON text is found, parses, and has a truthy title, a truthy description and an array of modules |
| Gemini.UnitTitleChoice | server/src/services/gemini.service.js:149-152 | a request is for a subtopic iff an index was supplied and the subtopic title is truthy; the unit title is then the subtopic's, otherwise the topic's |
| Gemini.SkipSpaces | server/src/services/gemini.service.js:315 | the first non-whitespace position at or after the start |
| Gemini.BackOverSpaces | server/src/services/gemini.service.js:315 | the start of the whitespace run before a position |
| Gemini.QuizBodyStart | server/src/services/gemini.service.js:315 | the body starts past the fence, an optional `json` and whitespace, with no backtick skipped |
| Gemini.QuizFenceBody | server/src/services/gemini.service.js:315 | group 1 of the quiz fence pattern holds no fence and neither starts nor ends with whitespace |
| Gemini.QuizFenceFound | server/src/services/gemini.service.js:315 | the quiz fence pattern matches iff the reply holds two non-overlapping fences |
| Gemini.QuizJsonText | server/src/services/gemini.service.js:315-319 | the trimmed fenced body, else the brace span; an empty fenced body is a failure even when braces follow |
| Gemini.ParsedQuiz | server/src/services/gemini.service.js:305-331 | a reply that parses whole is used whole; otherwise the extracted text is parsed, and without one it fails |
| Gemini.Questions | server/src/services/gemini.service.js:334-337 | accepted quiz data has a non-empty array of questions |
| Gemini.DefaultQuizTitle | server/src/services/gemini.service.js:342-343 | the default title is "Quiz: ", the topic title and ": " for a subtopic, then the unit title |
| Gemini.NormaliseQuestion | server/src/services/gemini.service.js:346-359 | fixing a question fails exactly when it is not an object (or array), since writing a field of a primitive throws |
| Gemini.NormaliseQuestionEffect | server/src/services/gemini.service.js:348-356 | a question ends with a truthy explanation, its own when it had one; a multiple-choice question without an options array gets the four default options and answer 0; every other field is kept |
| Gemini.NormaliseQuestionIdempotent | server/src/services/gemini.service.js:346-359 | fixing a fixed question changes nothing |
| Gemini.NormaliseAll | server/src/services/gemini.service.js:346-359 | the questions keep their count and order, each fixed, unless one fails |
| Gemini.NormaliseQuestions | server/src/services/gemini.service.js:346-359 | the loop over the questions gives `NormaliseAll` |
| Gemini.NormaliseQuiz | server/src/services/gemini.service.js:341-361 | an existing truthy title is kept, otherwise the default title is set; the questions are replaced by the fixed ones; no other field changes |
| Gemini.FallbackQuizWith | server/src/services/gemini.service.js:385-408 | the fallback quiz passes the quiz-data check in any wording |
| Gemini.CreateFallbackQuiz | server/src/services/gemini.service.js:379-409 | the fallback quiz passes the quiz-data check |
| Gemini.FallbackQuizWithShape | server/src/services/gemini.service.js:385-408 | in any wording with non-empty explanations: title "Quiz: " + unit title, exactly two questions, a four-option multiple-choice one with answer 0 then a true/false one with answer true, both left alone by the fix-up |
| Gemini.FallbackQuizShape | server/src/services/gemini.service.js:379-408 | the same for the service's own wording, with the unit title alone in the title |
| Gemini.GenerateQuizOutcome | server/src/services/gemini.service.js:224-372 | generation never fails: a failed call, unusable JSON, the wrong shape or an unfixable question give the fallback quiz; otherwise the reply's questions come back fixed, in order; the result always passes the check and has a truthy title |
| Gemini.ReadingMinutes | server/src/services/gemini.service.js:210 | the reading time is the word count divided by 200, rounded up |
| Gemini.GenerateContentResult | server/src/services/gemini.service.js:205-211 | the answer is titled after the unit, carries the text and the time, and counts the pieces of the text split on whitespace runs |
| Gemini.ReadingTimeBounds | server/src/services/gemini.service.js:209-210 | every text counts at least one word, so the reading time is at least a minute and 200·(m−1) < words <= 200·m |
| Gemini.OneWordText | server/src/services/gemini.service.js:209-210 | a text without whitespace is one word and one minute |
| NotificationService.Notifications | client/src/services/notification.service.js:61-67 | without a window or a stored list the list is empty; otherwise it is the stored list |
| NotificationService.NewNotification | client/src/services/notification.service.js:48-53 | the new entry takes its id and time stamp from the clock and is unread, unless the caller supplies them; the caller's other fields are kept |
| NotificationService.StoreNotification | client/src/services/notification.service.js:45-58 | with a window the new entry is put first in the stored list and returned; without one nothing is stored or returned |
| NotificationService.StoreNotificationPrepends | client/src/services/notification.service.js:54-55 | storing grows the list by one, puts the entry first and keeps the others in order; no other key changes |
| NotificationService.MarkRead | client/src/services/notification.service.js:73-77 | the entries with the id become read, every other entry is kept, length and order stay |
| NotificationService.MarkAsRead | client/src/services/notification.service.js:70-80 | with a window the marked list is written back, even when nothing was stored |
| NotificationService.MarkReadEffect | client/src/services/notification.service.js:73-77 | each entry keeps id, time stamp and fields, and is read afterwards iff it was read or carries the id |
| NotificationService.MarkReadIdempotent | client/src/services/notification.service.js:70-80 | marking an id twice is marking it once |
| NotificationService.UnreadCount | client/src/services/notification.service.js:86 | the unread count never exceeds the list's length |
| NotificationService.UnreadCountOf | client/src/services/notification.service.js:83-89 | without a window the count is 0, and it never exceeds the list's length |
| NotificationService.UnreadCountZero | client/src/services/notification.service.js:86 | the count is 0 exactly when every entry is read |
| NotificationService.MarkReadLowersCount | client/src/services/notification.service.js:70-88 | marking read never raises the unread count |
| NotificationService.ClearAll | client/src/services/notification.service.js:92-96 | with a window an empty list is written; nothing else changes |
| NotificationService.ClearAllEmpties | client/src/services/notification.service.js:92-96 | after clearing the list is empty, the unread count 0, and the other keys are kept |
| NotificationCenter.MarkAllAsRead | client/src/components/notifications/NotificationCenter.jsx:46-53 | every entry unread in the shown list is read afterwards, none becomes unread, no other key changes; when the shown list is the stored one, the unread count becomes 0 |
| NotificationCenter.FloorsCompose | client/src/components/notifications/NotificationCenter.jsx:64-67 | flooring to minutes, then hours, then days equals flooring the milliseconds to hours or days directly |
| NotificationCenter.NotificationTimeBuckets | client/src/components/notifications/NotificationCenter.jsx:61-75 | under a minute (the future included) "Just now", then whole minutes under an hour, whole hours under a day, whole days under a week, then the locale date |
| NotificationCenter.MinuteBucketBounds | client/src/components/notifications/NotificationCenter.jsx:65-70 | the minute count is the number of whole minutes elapsed, between 1 and 59 |
| TimerService.SetLearningTimer | client/src/services/timer.service.js:5-29 | with a window an active timer expiring the minutes after now becomes current and is returned; without one nothing happens |
| TimerService.CurrentTimer | client/src/services/timer.service.js:32-50 | nothing without a window or a stored timer; a timer past its expiry is returned marked expired while active and not at all once inactive; otherwise the stored timer |
| TimerService.CurrentTimerAfterSet | client/src/services/timer.service.js:5-50 | right after setting, the timer is current; after its expiry it reads as expired and still active |
| TimerService.CheckTimerExpiry | client/src/services/timer.service.js:53-66 | the in-place check returns and stores what `CheckExpiry` describes |
| TimerService.CheckExpiryOnce | client/src/services/timer.service.js:53-66 | a timer is reported exactly when the stored one is active and past its expiry, and is then stored inactive; a second check, then or later, reports nothing and changes nothing |
| TimerService.CancelTimer | client/src/services/timer.service.js:69-79 | with a window the current timer is removed |
| TimerService.CancelledTimerIsGone | client/src/services/timer.service.js:69-71 | after cancelling there is no current timer and nothing else is touched |
| TimerService.WithFinished | client/src/services/timer.service.js:136-139 | the history never exceeds 20 entries |
| TimerService.AddTimerToHistory | client/src/services/timer.service.js:133-142 | with a window the stamped timer is put first and the history cut to 20 |
| TimerService.WithFinishedKeepsNewest | client/src/services/timer.service.js:136-139 | the finished timer comes first, followed by the newest earlier entries, as many as fit in 20 |
| TimerService.TimeRemaining | client/src/services/timer.service.js:145-156 | no timer gives zeros; the total is the time to expiry, at least 0; minutes and seconds (under 60) are the whole minutes and seconds of it |
| TimerService.ClockTextReadsBack | client/src/services/timer.service.js:161 | a clock text reads back as its minutes (at least two digits) and seconds (exactly two) |
| TimerService.FormatTimeRemainingReadsBack | client/src/services/timer.service.js:159-162 | the formatted remaining time reads back as its minutes and seconds |
| ContentService.GenerateRequestData | client/src/services/content.service.js:8-41 | the request body has roadmap, module and topic, and a subtopic index exactly when one is given |
| ContentService.UnitUrl | client/src/services/content.service.js:91-123 | the URL starts with the topic path and has `/subtopic/{i}` appended exactly when a subtopic index is given |
| ContentService.SubtopicUrlsDiffer | client/src/services/content.service.js:93-95 | different subtopics of a topic get different URLs |
| ContentService.CacheKeysSeparate | client/src/services/content.service.js:148-176 | distinct cache keys never share an entry, and none is a key of the other services |
| ContentService.LocalContent | client/src/services/content.service.js:159-170 | without a window or an entry the result is null |
| ContentService.CacheContentLocally | client/src/services/content.service.js:145-156 | true, with the content stored under its key, exactly when there is a window |
| ContentService.ClearLocalContent | client/src/services/content.service.js:173-184 | true, with the entry removed, exactly when there is a window |
| ContentService.CacheRoundTrip | client/src/services/content.service.js:145-184 | reading after caching gives what was cached, after clearing null; other keys' content and the other services' entries are unchanged |
| ContentService.QuestionsWithShape | client/src/services/content.service.js:213-273 | in any wording the questions are numbered 1 to 5 and every multiple-choice answer is one of its own options |
| ContentService.MockQuizShape | client/src/services/content.service.js:205-276 | the mock quiz has five questions numbered 1 to 5, and every multiple-choice answer is one of its own options' ids |
| Common.RoundPercent | server/src/routes/roadmap.routes.js:190 | `Math.round(part / whole * 100)` in integers: the result is the integer nearest to 100·part/whole, halves rounded up |
| Common.JsRoundPercent | server/src/routes/quiz.routes.js:275 | `Math.round(part / whole * 100)` as a JavaScript number: the rounded share for a non-zero whole, +Infinity or -Infinity by the part's sign for a zero whole, and NaN (none) for 0/0 |
| Common.FirstWhere | server/src/routes/timer.routes.js:242 | `findOne` in insertion order: the first matching element, none iff no element matches |
| Common.RoundPercentInRange | server/src/routes/quiz.routes.js:275 | for 0 <= part <= whole the percentage lies in 0..100, with 0 for none and 100 for all |
| Common.RoundPercentMonotonic | server/src/routes/roadmap.routes.js:185-190 | a larger part never gives a smaller percentage |
| Common.RemovedAt | server/src/routes/timer.routes.js:242 | deleting the element at k leaves one fewer, the multiset minus that element, the others in order |
| Text.Split | server/src/routes/quiz.routes.js:260 | `split(' ')` always gives at least one piece |
| Text.SplitPiecesLackSeparator | server/src/routes/quiz.routes.js:260 | no piece of `split(' ')` holds a space |
| Text.JoinSplit | server/src/routes/quiz.routes.js:260 | joining the pieces of a split with the same separator gives the text back |
| Text.JoinTakeIsPrefix | server/src/routes/quiz.routes.js:260 | joining the first pieces gives a prefix of the joined text |
| Text.FirstWords | server/src/routes/quiz.routes.js:260 | the first n space-separated words are a prefix of the text |
| Text.FirstWordsOfShortText | server/src/routes/quiz.routes.js:260 | with fewer than n spaces the first n words are the whole text |
| Text.SplitWhitespace | server/src/services/gemini.service.js:209 | `split(/\s+/)` gives at least one piece |
| Text.SplitWhitespaceKeepsNonSpace | server/src/services/gemini.service.js:209 | put together, the pieces of a whitespace split are exactly the non-whitespace characters |
| Text.SplitWhitespacePiecesAreWords | server/src/services/gemini.service.js:209 | no piece of a whitespace split holds whitespace |
| Text.SplitWhitespaceOfWord | server/src/services/gemini.service.js:209 | a text without whitespace is a single piece |
| Text.ToLower | server/src/routes/quiz.routes.js:234 | lower-casing keeps the length and maps each character |
| Text.ToLowerIdempotent | server/src/routes/quiz.routes.js:234 | lower-casing twice is lower-casing once |
| Text.SameIgnoringCaseIff | server/src/routes/quiz.routes.js:234 | comparing character by character ignoring case is comparing the lower-cased texts |
| Text.Trim | server/src/models/roadmap.model.js:7 | the trimmed text is no longer than the text, neither starts nor ends with whitespace, and holds only characters of the text |
| Text.TrimBlank | server/src/models/roadmap.model.js:4-8 | trimming gives "" exactly for an empty or all-whitespace text |
| Text.NatToString | client/src/services/timer.service.js:161 | `toString()` of a natural number is decimal digits with no leading zero |
| Text.ParseNatToString | client/src/services/timer.service.js:161 | the decimal text of a number reads back as the number |
| Text.NatToStringInjective | server/src/routes/quiz.routes.js:221-230 | different ids have different decimal texts |
| Text.IntToString | client/src/services/content.service.js:91-94 | the text of an index in a URL is never empty |
| Text.IntToStringInjective | client/src/services/content.service.js:91-94 | different integers have different texts |
| Text.PadStart2 | client/src/services/timer.service.js:161 | `padStart(2, '0')` gives exactly two characters for a shorter text and leaves a longer one its length |
| Text.ParseNatPadStart2 | client/src/services/timer.service.js:161 | zero padding keeps the digits and the value |
| Text.PaddedNumberDigits | client/src/services/timer.service.js:161 | a padded number has at least two digits, exactly two below 100 |
| Text.PaddedNumberReadsBack | client/src/services/timer.service.js:161 | a padded number reads back as itself |
| RoadmapSchema.NewRoadmapDefaults | server/src/models/roadmap.model.js:89-133 | a roadmap built from fresh units has nothing completed, progress 0 (within 0..100), the pointer at (0, 0), `active` set and no completion time |
| RoadmapSchema.NewTopicDefaults | server/src/models/roadmap.model.js:22-63 | a new topic takes 10 estimated minutes, 0 reviews, is incomplete and has no content or quiz link |
| RoadmapSchema.BlankTitleRejected | server/src/models/roadmap.model.js:3-12 | a whitespace-only title is trimmed to "" and fails the required check |
| QuizSchema.NewQuestion | server/src/models/quiz.model.js:4-46 | an absent type, difficulty or point value becomes multiple-choice, medium or 1; a given one is kept |
| QuizSchema.NewQuiz | server/src/models/quiz.model.js:49-96 | a new quiz has a 5-minute limit, passing score 70, is not a review, is AI-generated and keeps its questions, owner and creation time; its title is stored trimmed |
| QuizSchema.OptionFieldsNeverRequired | server/src/models/quiz.model.js:14-27 | the option fields' required predicate looks at the option, not the question, so a multiple-choice question with bare options passes validation |
| QuizSchema.MissingCorrectAnswerRejected | server/src/models/quiz.model.js:28-33 | a true/false or short-answer question without `correctAnswer` fails validation |
| QuizResultSchema.NewQuestionResult | server/src/models/quizResult.model.js:4-24 | points earned and answer time default to 0, the other fields are as given |
| QuizResultSchema.NewQuizResult | server/src/models/quizResult.model.js:27-76 | completion time defaults to 0, the review flag to false, the concepts to an empty list |
| TimerSchema.NewTimer | server/src/models/timer.model.js:3-56 | a new timer is active, not a review, neither notified nor delivered, has a 60-minute interval and no topic or content |
| UserSchema.NewUser | server/src/models/user.model.js:4-61 | a new user has education level "other", no age, the default preferences, and an email with no upper-case letter and no longer than typed |
| UserSchema.NewUserValid | server/src/models/user.model.js:4-61 | a new user with a non-blank name and email and a password passes validation |
| ContentSchema.TrimAll | server/src/models/content.model.js:33-36 | every tag is stored trimmed, none added or dropped |
| ContentSchema.NewContent | server/src/models/content.model.js:3-90 | absent type, difficulty and reading time become "text", "beginner" and 10; the content is AI-generated, unviewed and has no video; the subtopic index is as given (null for topic content) |
| ContentSchema.NewContentValidity | server/src/models/content.model.js:4-45 | new content without type or difficulty is valid exactly when its title has a non-space character and its description is non-empty |

## Left out

- HTTP routing, request parsing, JWT authentication and the auth middleware are not modelled. Each handler takes the authenticated user id as a parameter.
- MongoDB persistence is modelled as sequences and maps of documents. Query operators, indexes (such as the unique e-mail index), populate and transactions are left out. A failed save is modelled as a 500 status with nothing stored.
- The bcrypt pre-save hook and `comparePassword` are not modelled as hashing. The hash is a function parameter and the password check is a boolean input.
- Calls to the Gemini model are inputs: the reply text, the short-answer verdict and the next-delivery interval. Prompt construction is left out.
- `JSON.parse` and `JSON.stringify` are abstract. Parsing is a function parameter, and `localStorage` holds typed values in place of JSON text.
- Floating point is not modelled. A percentage is the exact ratio rounded half up, as `Math.round` does, so binary rounding error in the division is not captured. A division by a zero total gives an infinity of the numerator's sign, which is saved, or `NaN` for 0/0, which Mongoose refuses on save and which is modelled as the save failing.
- QuizRoutes.ScoreAnswers: short-answer credit is the AI verdict's points as an integer, not the fractional `score / 100 * pointsValue`.
- Clocks are an integer `now` in milliseconds. ISO date strings are the same milliseconds, and `toLocaleDateString` is a parameter.
- `setTimeout`, `scheduleNotification`, the browser Notification API and `window.focus` are effects outside the model and are left out.
- Case folding and whitespace are ASCII-only. `Text.DigitValue` reads a non-digit as 0, which never happens on the digit strings it is used on.
- `roadmap.service.js`, the read-only GET routes, the roadmap-generation route and the remaining handlers are not part of this model.
- The `/generate` quiz route's mapping is modelled only for its defaults (difficulty and points). The rest of that handler only copies fields.
- Ids are numbers. The model does not capture Mongo `ObjectId` formatting.
- ContentService.CacheContentLocally: the storage-quota exception path (returning `false`, or `null` on read) is not modelled. A write always succeeds.
- Gemini.NormaliseQuestion: a question whose options are already an array is kept as it is, as in the source. The model does not check the inner shape of such an array.
- The content document's `lastViewed`, `relatedQuiz` and `relatedContent` fields are kept out of the model, because no core handler reads or writes them.
- ContentRoutes.GenerateStep: the subtopic's `contentId` link is not kept, because the subtopic schema declares no `contentId` path and Mongoose drops the value on save. The topic's link is kept.
- `mockGenerateContent` on the client only builds placeholder text from its arguments, and it is modelled only through the request data and URLs it shares with the real calls.

## Findings

| source | as written | input that shows it | evidently intended | confidence | as-written member | corrected member |
|---|---|---|---|---|---|---|
| server/src/routes/content.routes.js:104-120 | the new content document takes `description` and `textContent` from the service result, but `generateContent` returns `title`, `contentText`, `generatedAt`, `wordCount` and `readingTimeMinutes`, so both fields are undefined and `description` is required | any generate request for a unit that has no stored content | the generated title and text are saved as the unit's content (its `contentText` as the text, the unit's description as the description) and the handler answers 201 | not executed | ContentRoutes.ServiceAnswerNeverSaved | ContentRoutes.IntendedAnswerSaved |
