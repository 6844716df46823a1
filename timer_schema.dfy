/**
 * The server-side delivery timer (server/src/models/timer.model.js): when the
 * next piece of content is due for a user's roadmap, whether it is a review,
 * and whether the user was notified and the content delivered.
 */
module TimerSchema {
  import opened Common

  datatype Timer = Timer(
    id: Id,
    user: Id,
    roadmap: Id,
    nextContentDelivery: Time,
    topic: Option<Id>,
    content: Option<Id>,
    isReview: bool,
    notificationSent: bool,
    notificationSentAt: Option<Time>,
    contentDelivered: bool,
    contentDeliveredAt: Option<Time>,
    active: bool,
    interval: int,
    createdAt: Time)

  /** A timer with only the required paths given: every flag takes its default. */
  function NewTimer(id: Id, user: Id, roadmap: Id, nextContentDelivery: Time, now: Time): (t: Timer)
    ensures !t.isReview && !t.notificationSent && !t.contentDelivered && t.active
    ensures t.interval == 60 && t.topic.None? && t.content.None?
    ensures t.notificationSentAt.None? && t.contentDeliveredAt.None?
    ensures t.user == user && t.roadmap == roadmap && t.nextContentDelivery == nextContentDelivery
  {
    Timer(id, user, roadmap, nextContentDelivery, None, None, false, false, None, false, None, true, 60, now)
  }

  /** The timers that are still waiting: active and not yet delivered. */
  predicate Pending(t: Timer) {
    t.active && !t.contentDelivered
  }
}
