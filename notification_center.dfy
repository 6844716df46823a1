/**
 * The logic of the notification bell
 * (client/src/components/notifications/NotificationCenter.jsx): marking
 * every unread notification read, and telling how long ago a notification
 * arrived. The rendering is not part of this model.
 */
module NotificationCenter {
  import opened Common
  import opened BrowserStorage
  import opened NotificationService
  import Text

  /**
   * `handleMarkAllAsRead`: `shown` is the list the component loaded last;
   * each unread entry in it is marked read by id, and the unread count is
   * read again.
   */
  method MarkAllAsRead(st: LocalStorage, shown: seq<Notification>) returns (unread: nat)
    modifies st
    ensures st.items - {NotificationsKey} == old(st.items) - {NotificationsKey}
    ensures var l0, l := Notifications(st.hasWindow, old(st.items)), Notifications(st.hasWindow, st.items);
      && |l| == |l0|
      && (forall k :: 0 <= k < |l| ==> l[k].id == l0[k].id && (l0[k].read ==> l[k].read))
      && (forall j, k :: 0 <= j < |shown| && !shown[j].read && 0 <= k < |l| && l[k].id == shown[j].id ==> l[k].read)
    ensures unread == UnreadCountOf(st.hasWindow, st.items)
    ensures shown == Notifications(st.hasWindow, old(st.items)) ==> unread == 0
  {
    ghost var l0 := Notifications(st.hasWindow, st.items);
    for i := 0 to |shown|
      invariant st.items - {NotificationsKey} == old(st.items) - {NotificationsKey}
      invariant var l := Notifications(st.hasWindow, st.items);
        && |l| == |l0|
        && (forall k :: 0 <= k < |l| ==> l[k].id == l0[k].id && (l0[k].read ==> l[k].read))
        && (forall j, k :: 0 <= j < i && !shown[j].read && 0 <= k < |l| && l[k].id == shown[j].id ==> l[k].read)
    {
      if !shown[i].read {
        MarkAsRead(st, shown[i].id);
      }
    }
    unread := UnreadCountOf(st.hasWindow, st.items);
    if shown == l0 {
      var l := Notifications(st.hasWindow, st.items);
      forall k | 0 <= k < |l|
        ensures l[k].read
      {
        if !l0[k].read {
          assert l[k].id == shown[k].id;
        }
      }
      UnreadCountZero(l);
    }
  }

  const MillisPerHour := 60 * MillisPerMinute
  const MillisPerDay := 24 * MillisPerHour

  /**
   * `formatNotificationTime`: minutes, hours and days are each the floor of
   * the previous unit, so a time stamp in the future reads "Just now".
   * `localeDate` is what `toLocaleDateString` gives for the time stamp.
   */
  function FormatNotificationTime(timestamp: Time, now: Time, localeDate: string): string {
    var diffMs := now - timestamp;
    var diffMins := diffMs / MillisPerMinute;
    var diffHours := diffMins / 60;
    var diffDays := diffHours / 24;
    if diffMins < 1 then "Just now"
    else if diffMins < 60 then Text.IntToString(diffMins) + " min ago"
    else if diffHours < 24 then Text.IntToString(diffHours) + " hr ago"
    else if diffDays < 7 then Text.IntToString(diffDays) + " day ago"
    else localeDate
  }

  /** Flooring to minutes, then hours, then days is flooring to hours or days directly. */
  lemma FloorsCompose(d: int)
    ensures (d / MillisPerMinute) / 60 == d / MillisPerHour
    ensures ((d / MillisPerMinute) / 60) / 24 == d / MillisPerDay
  {
    var m := d / MillisPerMinute;
    var h := m / 60;
    assert 60000 * m <= d < 60000 * m + 60000;
    assert 60 * h <= m < 60 * h + 60;
    assert 3600000 * h <= d < 3600000 * h + 3600000;
    var dd := h / 24;
    assert 24 * dd <= h < 24 * dd + 24;
    assert 86400000 * dd <= d < 86400000 * dd + 86400000;
  }

  /**
   * The buckets by elapsed milliseconds: under a minute (or in the future)
   * "Just now", then whole minutes under an hour, whole hours under a day,
   * whole days under a week, and the locale date after that.
   */
  lemma {:induction false} NotificationTimeBuckets(timestamp: Time, now: Time, localeDate: string)
    ensures var d := now - timestamp;
      var r := FormatNotificationTime(timestamp, now, localeDate);
      && (d < MillisPerMinute ==> r == "Just now")
      && (MillisPerMinute <= d < MillisPerHour ==> r == Text.IntToString(d / MillisPerMinute) + " min ago")
      && (MillisPerHour <= d < MillisPerDay ==> r == Text.IntToString(d / MillisPerHour) + " hr ago")
      && (MillisPerDay <= d < 7 * MillisPerDay ==> r == Text.IntToString(d / MillisPerDay) + " day ago")
      && (d >= 7 * MillisPerDay ==> r == localeDate)
  {
    FloorsCompose(now - timestamp);
  }

  /** A bucket's number counts whole units elapsed and stays below the next unit. */
  lemma MinuteBucketBounds(timestamp: Time, now: Time)
    requires MillisPerMinute <= now - timestamp < MillisPerHour
    ensures var m := (now - timestamp) / MillisPerMinute;
      1 <= m < 60 && m * MillisPerMinute <= now - timestamp < (m + 1) * MillisPerMinute
  {
  }
}
