/**
 * The browser's `localStorage` as the client services use it: one entry per
 * key. The services keep the notification list under "notifications", the
 * running timer under "current_timer", the finished timers under
 * "timer_history", and cached content under "content_" followed by the
 * cache key.
 *
 * Entries hold the value that was written rather than its JSON text:
 * `JSON.stringify` followed by `JSON.parse` is taken to give the value back.
 */
module BrowserStorage {
  import opened Common
  import opened Json

  /** A stored notification: the three fields the service sets, and the caller's other fields. */
  datatype Notification = Notification(id: int, timestamp: Time, read: bool, fields: map<string, Json>)

  /** A client-side learning timer (client/src/services/timer.service.js:10-19). */
  datatype ClientTimer = ClientTimer(
    roadmapId: string,
    moduleIndex: int,
    topicIndex: int,
    minutes: int,
    kind: string,          // 'manual' or 'ai'
    startTime: Time,
    expiryTime: Time,
    active: bool,
    expired: bool)         // only set on copies marked expired

  datatype HistoryEntry = HistoryEntry(timer: ClientTimer, completedAt: Time)

  datatype Stored =
    | NotificationList(list: seq<Notification>)
    | TimerRecord(timer: ClientTimer)
    | TimerHistory(entries: seq<HistoryEntry>)
    | Cached(content: Json)

  const NotificationsKey := "notifications"
  const CurrentTimerKey := "current_timer"
  const HistoryKey := "timer_history"
  const ContentPrefix := "content_"

  /**
   * `localStorage` together with whether there is a window at all; during
   * server rendering there is none and every service gives up.
   */
  class LocalStorage {
    const hasWindow: bool
    var items: map<string, Stored>

    constructor (hasWindow: bool)
      ensures this.hasWindow == hasWindow && items == map[]
    {
      this.hasWindow := hasWindow;
      items := map[];
    }
  }
}
