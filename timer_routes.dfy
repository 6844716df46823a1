/**
 * The delivery-timer routes (server/src/routes/timer.routes.js): listing a
 * user's waiting timers by due time, picking the earliest due timer and
 * marking it notified, marking a timer delivered, snoozing it and deleting
 * it. The timer collection is the field `timers` of a `TimerStore`.
 */
module TimerRoutes {
  import opened Common
  import opened TimerSchema
  import opened RoadmapSchema
  import QuizRoutes

  // ---------------------------------------------------------------------------
  // GET /active: the user's waiting timers, earliest first

  /** The user's waiting timers, in store order. */
  function PendingFor(ts: seq<Timer>, user: Id): (r: seq<Timer>)
    ensures forall t :: t in r <==> t in ts && t.user == user && Pending(t)
    ensures |r| <= |ts|
  {
    if |ts| == 0 then []
    else
      var rest := PendingFor(ts[1..], user);
      assert forall t :: t in ts <==> t == ts[0] || t in ts[1..];
      if ts[0].user == user && Pending(ts[0]) then [ts[0]] + rest else rest
  }

  predicate SortedByDelivery(ts: seq<Timer>) {
    forall i, j :: 0 <= i < j < |ts| ==> ts[i].nextContentDelivery <= ts[j].nextContentDelivery
  }

  /** Puts t before the first element due no earlier than t. */
  function Insert(t: Timer, ts: seq<Timer>): (r: seq<Timer>)
    requires SortedByDelivery(ts)
    ensures SortedByDelivery(r)
    ensures multiset(r) == multiset(ts) + multiset{t}
    ensures |r| == |ts| + 1
    ensures r[0] == t || (|ts| > 0 && r[0] == ts[0])
  {
    if |ts| == 0 then [t]
    else if t.nextContentDelivery <= ts[0].nextContentDelivery then [t] + ts
    else
      var rest := Insert(t, ts[1..]);
      assert ts == [ts[0]] + ts[1..];
      SortedCons(ts[0], rest);
      [ts[0]] + rest
  }

  /** A sorted sequence stays sorted under a head due no later than its first element. */
  lemma SortedCons(t: Timer, ts: seq<Timer>)
    requires SortedByDelivery(ts)
    requires |ts| > 0 ==> t.nextContentDelivery <= ts[0].nextContentDelivery
    ensures SortedByDelivery([t] + ts)
  {
  }

  /** `.sort({ nextContentDelivery: 1 })`, an insertion sort keeping ties in store order. */
  function SortByDelivery(ts: seq<Timer>): (r: seq<Timer>)
    ensures SortedByDelivery(r)
    ensures multiset(r) == multiset(ts)
  {
    if |ts| == 0 then []
    else
      assert ts == [ts[0]] + ts[1..];
      Insert(ts[0], SortByDelivery(ts[1..]))
  }

  /** The response of `GET /active`. */
  function ActiveTimers(ts: seq<Timer>, user: Id): seq<Timer> {
    SortByDelivery(PendingFor(ts, user))
  }

  /**
   * The list holds exactly the user's active, undelivered timers, each as
   * often as in the store, ordered by due time.
   */
  lemma ActiveTimersExactly(ts: seq<Timer>, user: Id)
    ensures var a := ActiveTimers(ts, user);
      && SortedByDelivery(a)
      && multiset(a) == multiset(PendingFor(ts, user))
      && |a| == |PendingFor(ts, user)|
      && forall t :: t in a <==> t in ts && t.user == user && t.active && !t.contentDelivered
  {
    var a := ActiveTimers(ts, user);
    var p := PendingFor(ts, user);
    assert |a| == |multiset(a)| == |multiset(p)| == |p|;
    forall t ensures t in a <==> t in p {
      assert t in a <==> t in multiset(a);
      assert t in p <==> t in multiset(p);
    }
  }

  // ---------------------------------------------------------------------------
  // GET /next: choosing the earliest due timer

  /** A timer `/next` may pick at time now: the user's, waiting and due. */
  predicate Due(t: Timer, user: Id, now: Time) {
    t.user == user && Pending(t) && t.nextContentDelivery <= now
  }

  /**
   * The index of the timer `/next` picks: a due timer with the smallest due
   * time, the first in store order among equals.
   */
  function EarliestDue(ts: seq<Timer>, user: Id, now: Time): (r: Option<nat>)
    ensures r.None? <==> forall j :: 0 <= j < |ts| ==> !Due(ts[j], user, now)
    ensures r.Some? ==> r.value < |ts| && Due(ts[r.value], user, now)
    ensures r.Some? ==> forall j :: 0 <= j < |ts| && Due(ts[j], user, now) ==>
              ts[r.value].nextContentDelivery <= ts[j].nextContentDelivery
    ensures r.Some? ==> forall j :: 0 <= j < r.value && Due(ts[j], user, now) ==>
              ts[r.value].nextContentDelivery < ts[j].nextContentDelivery
  {
    if |ts| == 0 then None
    else
      var n := |ts| - 1;
      var r0 := EarliestDue(ts[..n], user, now);
      assert forall j :: 0 <= j < n ==> ts[..n][j] == ts[j];
      if !Due(ts[n], user, now) then r0
      else if r0.None? then Some(n)
      else if ts[n].nextContentDelivery < ts[r0.value].nextContentDelivery then Some(n)
      else r0
  }

  /** The timer picked is the first timer of the user's active list that is due. */
  lemma EarliestDueHeadsActiveList(ts: seq<Timer>, user: Id, now: Time)
    requires EarliestDue(ts, user, now).Some?
    ensures var a := ActiveTimers(ts, user);
      |a| > 0 && a[0].nextContentDelivery == ts[EarliestDue(ts, user, now).value].nextContentDelivery
  {
    var k := EarliestDue(ts, user, now).value;
    var a := ActiveTimers(ts, user);
    ActiveTimersExactly(ts, user);
    assert ts[k] in a;
    var i :| 0 <= i < |a| && a[i] == ts[k];
    assert a[0].nextContentDelivery <= a[i].nextContentDelivery;
    assert a[0] in ts;
    var j :| 0 <= j < |ts| && ts[j] == a[0];
    assert Due(ts[j], user, now);
  }

  /** What `/next` answered. */
  datatype NextReply =
    | NothingDue
    | RoadmapNotFound
    | ModuleNotFound
    | TopicNotFound
    | NeedsGeneration(timer: Id, moduleIndex: int, topicIndex: int)
    | Ready(timer: Id, moduleIndex: int, topicIndex: int, isReview: bool)
    | ReviewTopicMissing

  /** The status each reply is sent with. */
  function ReplyStatus(reply: NextReply): (s: Status)
    ensures s == Ok <==> reply.NothingDue? || reply.NeedsGeneration? || reply.Ready?
  {
    match reply
    case RoadmapNotFound => NotFound
    case ModuleNotFound => NotFound
    case TopicNotFound => NotFound
    case ReviewTopicMissing => ServerError
    case _ => Ok
  }

  datatype NextResult = NextResult(reply: NextReply, timers: seq<Timer>)

  /** `t` marked as notified at `now`. */
  function Notified(t: Timer, now: Time): Timer {
    t.(notificationSent := true, notificationSentAt := Some(now))
  }

  /**
   * `GET /next`. `roadmaps` is the roadmap collection by id; `contentFound`
   * is whether the content lookup for the current topic finds a document.
   * The review branch looks the timer's topic up by id; a review topic that
   * is not found leaves the timer marked and then fails.
   */
  function NextStep(ts: seq<Timer>, roadmaps: map<Id, Roadmap>, user: Id, contentFound: bool, now: Time): NextResult {
    match EarliestDue(ts, user, now)
    case None => NextResult(NothingDue, ts)
    case Some(k) =>
      var t := ts[k];
      if t.roadmap !in roadmaps || roadmaps[t.roadmap].user != user then NextResult(RoadmapNotFound, ts)
      else
        var r := roadmaps[t.roadmap];
        var marked := ts[k := Notified(t, now)];
        if t.isReview && t.topic.Some? then
          match QuizRoutes.FindTopic(r.modules, t.topic.value)
          case None => NextResult(ReviewTopicMissing, marked)
          case Some((mi, ti)) => NextResult(Ready(t.id, mi, ti, true), marked)
        else if !(0 <= r.currentModule < |r.modules|) then NextResult(ModuleNotFound, ts)
        else if !(0 <= r.currentTopic < |r.modules[r.currentModule].topics|) then NextResult(TopicNotFound, ts)
        else if !contentFound then NextResult(NeedsGeneration(t.id, r.currentModule, r.currentTopic), ts)
        else NextResult(Ready(t.id, r.currentModule, r.currentTopic, t.isReview), marked)
  }

  /**
   * `/next` changes at most the picked timer, and only by marking it
   * notified at now; it does so exactly when it answers `Ready` or fails on a
   * missing review topic. With nothing due it answers so and changes nothing.
   */
  lemma NextStepMarksOnlyPicked(ts: seq<Timer>, roadmaps: map<Id, Roadmap>, user: Id, contentFound: bool, now: Time)
    ensures var res := NextStep(ts, roadmaps, user, contentFound, now);
      && (res.reply.NothingDue? <==> forall j :: 0 <= j < |ts| ==> !Due(ts[j], user, now))
      && (res.reply.Ready? || res.reply.ReviewTopicMissing? ==>
            var k := EarliestDue(ts, user, now).value;
            res.timers == ts[k := Notified(ts[k], now)])
      && (!(res.reply.Ready? || res.reply.ReviewTopicMissing?) ==> res.timers == ts)
      && (res.reply.Ready? || res.reply.NeedsGeneration? ==>
            res.reply.timer == ts[EarliestDue(ts, user, now).value].id)
  {
  }

  /**
   * The review branch is taken iff the picked timer is a review with a topic:
   * then the reply names the first topic with that id; otherwise it names the
   * roadmap's current module and topic, and a missing content document means
   * "needs generation" without marking the timer.
   */
  lemma NextStepBranches(ts: seq<Timer>, roadmaps: map<Id, Roadmap>, user: Id, contentFound: bool, now: Time)
    requires EarliestDue(ts, user, now).Some?
    requires var t := ts[EarliestDue(ts, user, now).value]; t.roadmap in roadmaps && roadmaps[t.roadmap].user == user
    ensures var t := ts[EarliestDue(ts, user, now).value];
      var r := roadmaps[t.roadmap];
      var res := NextStep(ts, roadmaps, user, contentFound, now);
      && (t.isReview && t.topic.Some? ==>
            match QuizRoutes.FindTopic(r.modules, t.topic.value)
            case None => res.reply == ReviewTopicMissing
            case Some(p) => res.reply == Ready(t.id, p.0, p.1, true))
      && (!(t.isReview && t.topic.Some?) && ValidTopicIndexAt(r) && !contentFound ==>
            res.reply == NeedsGeneration(t.id, r.currentModule, r.currentTopic) && res.timers == ts)
      && (!(t.isReview && t.topic.Some?) && ValidTopicIndexAt(r) && contentFound ==>
            res.reply == Ready(t.id, r.currentModule, r.currentTopic, t.isReview))
      && (!(t.isReview && t.topic.Some?) && !ValidTopicIndexAt(r) ==> ReplyStatus(res.reply) == NotFound)
  {
  }

  /** The roadmap's current module and topic name an existing topic. */
  predicate ValidTopicIndexAt(r: Roadmap) {
    0 <= r.currentModule < |r.modules| && 0 <= r.currentTopic < |r.modules[r.currentModule].topics|
  }

  // ---------------------------------------------------------------------------
  // PUT /:id/delivered, PUT /:id/snooze, DELETE /:id

  /** `Timer.findOne({ _id: id, user })`: the first timer with that id and owner. */
  function Owned(ts: seq<Timer>, id: Id, user: Id): (r: Option<nat>)
    ensures r.Some? ==> r.value < |ts| && ts[r.value].id == id && ts[r.value].user == user
    ensures r.Some? ==> forall j :: 0 <= j < r.value ==> !(ts[j].id == id && ts[j].user == user)
    ensures r.None? <==> forall j :: 0 <= j < |ts| ==> !(ts[j].id == id && ts[j].user == user)
  {
    FirstWhere(ts, (t: Timer) => t.id == id && t.user == user)
  }

  datatype TimersUpdate = TimersUpdate(status: Status, timers: seq<Timer>)

  /** `PUT /:id/delivered`. */
  function DeliveredStep(ts: seq<Timer>, id: Id, user: Id, now: Time): TimersUpdate {
    match Owned(ts, id, user)
    case None => TimersUpdate(NotFound, ts)
    case Some(k) => TimersUpdate(Ok, ts[k := ts[k].(contentDelivered := true, contentDeliveredAt := Some(now))])
  }

  /**
   * `/delivered` answers 404 and changes nothing when the user has no timer
   * with that id; otherwise it sets the delivered flag and time of that timer
   * and changes nothing else, so the timer leaves the user's active list.
   */
  lemma DeliveredStepEffect(ts: seq<Timer>, id: Id, user: Id, now: Time)
    ensures var u := DeliveredStep(ts, id, user, now);
      && (u.status == NotFound <==> forall j :: 0 <= j < |ts| ==> !(ts[j].id == id && ts[j].user == user))
      && (u.status == NotFound ==> u.timers == ts)
      && (u.status == Ok ==>
            var k := Owned(ts, id, user).value;
            && |u.timers| == |ts|
            && u.timers[k] == ts[k].(contentDelivered := true, contentDeliveredAt := Some(now))
            && (forall j :: 0 <= j < |ts| && j != k ==> u.timers[j] == ts[j])
            && u.timers[k] !in ActiveTimers(u.timers, user))
  {
    if DeliveredStep(ts, id, user, now).status == Ok {
      ActiveTimersExactly(DeliveredStep(ts, id, user, now).timers, user);
    }
  }

  /** `PUT /:id/snooze`; `minutes` is `None` when the body has no usable number. */
  function SnoozeStep(ts: seq<Timer>, id: Id, user: Id, minutes: Option<int>): TimersUpdate {
    if minutes.None? || minutes.value < 1 then TimersUpdate(BadRequest, ts)
    else
      match Owned(ts, id, user)
      case None => TimersUpdate(NotFound, ts)
      case Some(k) =>
        var t := ts[k];
        TimersUpdate(Ok, ts[k := t.(nextContentDelivery := t.nextContentDelivery + minutes.value * MillisPerMinute,
                                    notificationSent := false, notificationSentAt := None)])
  }

  /**
   * `/snooze` rejects a missing or non-positive number of minutes with 400
   * before looking the timer up, answers 404 for a timer the user does not
   * have, and otherwise moves that timer's due time later by the minutes,
   * counted from its previous due time, and clears its notification; nothing
   * else changes.
   */
  lemma SnoozeStepEffect(ts: seq<Timer>, id: Id, user: Id, minutes: Option<int>)
    ensures var u := SnoozeStep(ts, id, user, minutes);
      && (u.status == BadRequest <==> minutes.None? || minutes.value < 1)
      && (u.status == NotFound <==> minutes.Some? && minutes.value >= 1 &&
                                     forall j :: 0 <= j < |ts| ==> !(ts[j].id == id && ts[j].user == user))
      && (u.status != Ok ==> u.timers == ts)
      && (u.status == Ok ==>
            var k := Owned(ts, id, user).value;
            && |u.timers| == |ts|
            && u.timers[k].nextContentDelivery == ts[k].nextContentDelivery + minutes.value * 60000
            && u.timers[k].nextContentDelivery > ts[k].nextContentDelivery
            && !u.timers[k].notificationSent && u.timers[k].notificationSentAt.None?
            && u.timers[k] == ts[k].(nextContentDelivery := u.timers[k].nextContentDelivery,
                                     notificationSent := false, notificationSentAt := None)
            && (forall j :: 0 <= j < |ts| && j != k ==> u.timers[j] == ts[j]))
  {
  }

  /** A timer snoozed by m minutes is not due for the next m minutes after it was due. */
  lemma SnoozedNotDueEarly(ts: seq<Timer>, id: Id, user: Id, minutes: int, now: Time)
    requires SnoozeStep(ts, id, user, Some(minutes)).status == Ok
    requires now < ts[Owned(ts, id, user).value].nextContentDelivery + minutes * MillisPerMinute
    ensures !Due(SnoozeStep(ts, id, user, Some(minutes)).timers[Owned(ts, id, user).value], user, now)
  {
  }

  /** `DELETE /:id`. */
  function DeleteStep(ts: seq<Timer>, id: Id, user: Id): TimersUpdate {
    match Owned(ts, id, user)
    case None => TimersUpdate(NotFound, ts)
    case Some(k) => TimersUpdate(Ok, ts[..k] + ts[k + 1..])
  }

  /** Delete removes exactly the user's timer with that id, keeping the others in order. */
  lemma DeleteStepEffect(ts: seq<Timer>, id: Id, user: Id)
    ensures DeleteStep(ts, id, user).status == NotFound <==>
              forall j :: 0 <= j < |ts| ==> !(ts[j].id == id && ts[j].user == user)
    ensures DeleteStep(ts, id, user).status == NotFound ==> DeleteStep(ts, id, user).timers == ts
    ensures DeleteStep(ts, id, user).status == Ok ==>
              RemovedFrom(DeleteStep(ts, id, user).timers, ts, Owned(ts, id, user).value)
  {
    match Owned(ts, id, user)
    case None =>
    case Some(k) => RemovedAt(ts, k);
  }

  // ---------------------------------------------------------------------------
  // The timer collection

  class TimerStore {
    var timers: seq<Timer>

    constructor ()
      ensures timers == []
    {
      timers := [];
    }

    /** `GET /active`. */
    function Active(user: Id): (r: seq<Timer>)
      reads this
      ensures SortedByDelivery(r)
    {
      ActiveTimers(timers, user)
    }

    /** `GET /next`: picks the due timer and marks it notified when content is at hand. */
    method Next(roadmaps: map<Id, Roadmap>, user: Id, contentFound: bool, now: Time) returns (reply: NextReply)
      modifies this
      ensures NextResult(reply, timers) == NextStep(old(timers), roadmaps, user, contentFound, now)
    {
      var due := EarliestDue(timers, user, now);
      if due.None? {
        return NothingDue;
      }
      var k := due.value;
      var t := timers[k];
      if t.roadmap !in roadmaps || roadmaps[t.roadmap].user != user {
        return RoadmapNotFound;
      }
      var r := roadmaps[t.roadmap];
      if t.isReview && t.topic.Some? {
        var found := QuizRoutes.LocateTopic(r.modules, t.topic.value);
        timers := timers[k := Notified(t, now)];
        if found.None? {
          return ReviewTopicMissing;
        }
        return Ready(t.id, found.value.0, found.value.1, true);
      }
      if !(0 <= r.currentModule < |r.modules|) {
        return ModuleNotFound;
      }
      if !(0 <= r.currentTopic < |r.modules[r.currentModule].topics|) {
        return TopicNotFound;
      }
      if !contentFound {
        return NeedsGeneration(t.id, r.currentModule, r.currentTopic);
      }
      timers := timers[k := Notified(t, now)];
      reply := Ready(t.id, r.currentModule, r.currentTopic, t.isReview);
    }

    /** `PUT /:id/delivered`. */
    method Delivered(id: Id, user: Id, now: Time) returns (status: Status)
      modifies this
      ensures TimersUpdate(status, timers) == DeliveredStep(old(timers), id, user, now)
    {
      var k := Owned(timers, id, user);
      if k.None? {
        return NotFound;
      }
      timers := timers[k.value := timers[k.value].(contentDelivered := true, contentDeliveredAt := Some(now))];
      status := Ok;
    }

    /** `PUT /:id/snooze`. */
    method Snooze(id: Id, user: Id, minutes: Option<int>) returns (status: Status)
      modifies this
      ensures TimersUpdate(status, timers) == SnoozeStep(old(timers), id, user, minutes)
    {
      if minutes.None? || minutes.value < 1 {
        return BadRequest;
      }
      var k := Owned(timers, id, user);
      if k.None? {
        return NotFound;
      }
      var t := timers[k.value];
      timers := timers[k.value := t.(nextContentDelivery := t.nextContentDelivery + minutes.value * MillisPerMinute,
                                     notificationSent := false, notificationSentAt := None)];
      status := Ok;
    }

    /** `DELETE /:id`. */
    method Delete(id: Id, user: Id) returns (status: Status)
      modifies this
      ensures TimersUpdate(status, timers) == DeleteStep(old(timers), id, user)
    {
      var k := Owned(timers, id, user);
      if k.None? {
        return NotFound;
      }
      timers := timers[..k.value] + timers[k.value + 1..];
      status := Ok;
    }
  }
}
