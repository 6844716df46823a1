/**
 * The client's notification list (client/src/services/notification.service.js):
 * new notifications go to the front of the list kept in `localStorage`, a
 * notification can be marked read by id, unread ones are counted, and the
 * whole list can be cleared. Browser notifications and the permission
 * request are not part of this model.
 */
module NotificationService {
  import opened Common
  import opened Json
  import opened BrowserStorage

  /** The list under "notifications"; when nothing is stored it is empty. */
  function StoredNotifications(m: map<string, Stored>): seq<Notification> {
    if NotificationsKey in m && m[NotificationsKey].NotificationList? then m[NotificationsKey].list else []
  }

  /** `getNotifications()`: the stored list, or [] without a window. */
  function Notifications(hasWindow: bool, m: map<string, Stored>): (r: seq<Notification>)
    ensures !hasWindow || NotificationsKey !in m ==> r == []
    ensures hasWindow ==> r == StoredNotifications(m)
  {
    if hasWindow then StoredNotifications(m) else []
  }

  /** What the caller passes; a field given here replaces the service's default. */
  datatype NotificationInput = NotificationInput(id: Option<int>, timestamp: Option<Time>, read: Option<bool>,
                                                 fields: map<string, Json>)

  /** The new entry: id and time stamp from the clock and unread, unless the caller says otherwise. */
  function NewNotification(n: NotificationInput, now: Time): (r: Notification)
    ensures n.id.None? ==> r.id == now
    ensures n.id.Some? ==> r.id == n.id.value
    ensures n.timestamp.None? ==> r.timestamp == now
    ensures n.timestamp.Some? ==> r.timestamp == n.timestamp.value
    ensures n.read.None? ==> !r.read
    ensures n.read.Some? ==> r.read == n.read.value
    ensures r.fields == n.fields
  {
    Notification(if n.id.Some? then n.id.value else now,
                 if n.timestamp.Some? then n.timestamp.value else now,
                 if n.read.Some? then n.read.value else false,
                 n.fields)
  }

  /** `storeNotification`: with a window, the new entry is put first and returned. */
  method StoreNotification(st: LocalStorage, input: NotificationInput, now: Time) returns (r: Option<Notification>)
    modifies st
    ensures !st.hasWindow ==> r.None? && st.items == old(st.items)
    ensures st.hasWindow ==>
      && r == Some(NewNotification(input, now))
      && st.items == old(st.items)[NotificationsKey := NotificationList([r.value] + StoredNotifications(old(st.items)))]
  {
    if !st.hasWindow {
      return None;
    }
    var notifications := StoredNotifications(st.items);
    var n := NewNotification(input, now);
    notifications := [n] + notifications;
    st.items := st.items[NotificationsKey := NotificationList(notifications)];
    r := Some(n);
  }

  /**
   * Storing puts exactly one entry in front and keeps the others as they
   * were; no other key changes.
   */
  lemma StoreNotificationPrepends(m: map<string, Stored>, n: Notification)
    ensures var m' := m[NotificationsKey := NotificationList([n] + StoredNotifications(m))];
      var l, l' := StoredNotifications(m), StoredNotifications(m');
      && |l'| == |l| + 1 && l'[0] == n && l'[1..] == l
      && forall k :: k in m && k != NotificationsKey ==> k in m' && m'[k] == m[k]
  {
    var l := StoredNotifications(m);
    assert ([n] + l)[1..] == l;
  }

  /** The list after `markAsRead(id)`: the entries with that id become read. */
  function MarkRead(list: seq<Notification>, id: int): (r: seq<Notification>)
    ensures |r| == |list|
    ensures forall i :: 0 <= i < |list| ==>
      r[i] == if list[i].id == id then list[i].(read := true) else list[i]
  {
    if |list| == 0 then []
    else [if list[0].id == id then list[0].(read := true) else list[0]] + MarkRead(list[1..], id)
  }

  /** `markAsRead(id)`: with a window, the marked list is written back, even when none was stored. */
  method MarkAsRead(st: LocalStorage, id: int)
    modifies st
    ensures !st.hasWindow ==> st.items == old(st.items)
    ensures st.hasWindow ==>
      st.items == old(st.items)[NotificationsKey := NotificationList(MarkRead(StoredNotifications(old(st.items)), id))]
  {
    if st.hasWindow {
      var notifications := StoredNotifications(st.items);
      st.items := st.items[NotificationsKey := NotificationList(MarkRead(notifications, id))];
    }
  }

  /**
   * Marking keeps the length and the order: each entry keeps its id, time
   * stamp and fields, and it is read afterwards exactly when it was read or
   * carries the id.
   */
  lemma MarkReadEffect(list: seq<Notification>, id: int)
    ensures var r := MarkRead(list, id);
      && |r| == |list|
      && forall i :: 0 <= i < |list| ==>
           && r[i].id == list[i].id && r[i].timestamp == list[i].timestamp && r[i].fields == list[i].fields
           && (r[i].read <==> list[i].read || list[i].id == id)
  {
  }

  /** Marking the same id twice is marking it once. */
  lemma MarkReadIdempotent(list: seq<Notification>, id: int)
    ensures MarkRead(MarkRead(list, id), id) == MarkRead(list, id)
  {
    var once := MarkRead(list, id);
    var twice := MarkRead(once, id);
    assert |twice| == |once|;
    forall i | 0 <= i < |once|
      ensures twice[i] == once[i]
    {
    }
  }

  /** The number of unread entries. */
  function UnreadCount(list: seq<Notification>): (n: nat)
    ensures n <= |list|
  {
    if |list| == 0 then 0 else (if list[0].read then 0 else 1) + UnreadCount(list[1..])
  }

  /** `getUnreadCount()`: 0 without a window. */
  function UnreadCountOf(hasWindow: bool, m: map<string, Stored>): (n: nat)
    ensures n <= |Notifications(hasWindow, m)|
    ensures !hasWindow ==> n == 0
  {
    if hasWindow then UnreadCount(StoredNotifications(m)) else 0
  }

  /** The count is 0 exactly when every entry is read. */
  lemma {:induction false} UnreadCountZero(list: seq<Notification>)
    ensures UnreadCount(list) == 0 <==> forall i :: 0 <= i < |list| ==> list[i].read
  {
    if |list| > 0 {
      UnreadCountZero(list[1..]);
      assert forall i :: 1 <= i < |list| ==> list[i] == list[1..][i - 1];
    }
  }

  /** Marking read never raises the unread count. */
  lemma {:induction false} MarkReadLowersCount(list: seq<Notification>, id: int)
    ensures UnreadCount(MarkRead(list, id)) <= UnreadCount(list)
  {
    if |list| > 0 {
      MarkReadLowersCount(list[1..], id);
      assert MarkRead(list, id)[1..] == MarkRead(list[1..], id);
    }
  }

  /** `clearAll()`: with a window, an empty list is written. */
  method ClearAll(st: LocalStorage)
    modifies st
    ensures !st.hasWindow ==> st.items == old(st.items)
    ensures st.hasWindow ==> st.items == old(st.items)[NotificationsKey := NotificationList([])]
  {
    if st.hasWindow {
      st.items := st.items[NotificationsKey := NotificationList([])];
    }
  }

  /** After clearing there are no notifications and none is unread; other keys are kept. */
  lemma ClearAllEmpties(hasWindow: bool, m: map<string, Stored>)
    ensures var m' := if hasWindow then m[NotificationsKey := NotificationList([])] else m;
      && Notifications(hasWindow, m') == []
      && UnreadCountOf(hasWindow, m') == 0
      && forall k :: k in m && k != NotificationsKey ==> k in m' && m'[k] == m[k]
  {
  }
}
