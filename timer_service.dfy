/**
 * The client's learning timer (client/src/services/timer.service.js): one
 * current timer kept in `localStorage`, how it reads once it has expired,
 * the expiry check that switches it off, cancelling it, a history of at most
 * twenty finished timers, and the minutes and seconds left as `mm:ss`.
 *
 * The browser notification scheduled with `setTimeout` is not part of this
 * model; the clock is the parameter `now`, in milliseconds.
 */
module TimerService {
  import opened Common
  import opened BrowserStorage
  import Text

  /** The timer under "current_timer", if any. */
  function StoredTimer(m: map<string, Stored>): Option<ClientTimer> {
    if CurrentTimerKey in m && m[CurrentTimerKey].TimerRecord? then Some(m[CurrentTimerKey].timer) else None
  }

  /** `setLearningTimer`: with a window, an active timer expiring `minutes` from now becomes current. */
  method SetLearningTimer(st: LocalStorage, roadmapId: string, moduleIndex: int, topicIndex: int,
                          minutes: int, kind: string, now: Time) returns (r: Option<ClientTimer>)
    modifies st
    ensures !st.hasWindow ==> r.None? && st.items == old(st.items)
    ensures st.hasWindow ==>
      && r == Some(ClientTimer(roadmapId, moduleIndex, topicIndex, minutes, kind, now,
                               now + minutes * MillisPerMinute, true, false))
      && st.items == old(st.items)[CurrentTimerKey := TimerRecord(r.value)]
  {
    if !st.hasWindow {
      return None;
    }
    var expiryTime := now + minutes * 60 * 1000;
    var timer := ClientTimer(roadmapId, moduleIndex, topicIndex, minutes, kind, now, expiryTime, true, false);
    st.items := st.items[CurrentTimerKey := TimerRecord(timer)];
    r := Some(timer);
  }

  /**
   * `getCurrentTimer()`: nothing without a window or a stored timer; a timer
   * whose expiry has passed is returned marked expired while it is still
   * active and not at all once it is inactive; any other timer as stored.
   */
  function CurrentTimer(hasWindow: bool, m: map<string, Stored>, now: Time): (r: Option<ClientTimer>)
    ensures !hasWindow || StoredTimer(m).None? ==> r.None?
    ensures r.Some? ==> r.value.active || r.value.expiryTime >= now
    ensures hasWindow && StoredTimer(m).Some? ==>
              (r.None? <==> !StoredTimer(m).value.active && StoredTimer(m).value.expiryTime < now)
    ensures r.Some? ==> StoredTimer(m).Some?
    ensures r.Some? ==>
      r.value == if StoredTimer(m).value.expiryTime < now then StoredTimer(m).value.(expired := true) else StoredTimer(m).value
  {
    if !hasWindow then None
    else
      match StoredTimer(m)
      case None => None
      case Some(t) =>
        if t.expiryTime < now then (if t.active then Some(t.(expired := true)) else None)
        else Some(t)
  }

  /**
   * Right after it is set, a timer for a non-negative number of minutes is
   * the current one; once its expiry has passed it reads as expired and
   * still active, with everything else as set.
   */
  lemma CurrentTimerAfterSet(m: map<string, Stored>, t: ClientTimer, now: Time, later: Time)
    requires t.active && !t.expired && t.startTime == now && t.minutes >= 0
    requires t.expiryTime == now + t.minutes * MillisPerMinute
    ensures CurrentTimer(true, m[CurrentTimerKey := TimerRecord(t)], now) == Some(t)
    ensures later > t.expiryTime ==> CurrentTimer(true, m[CurrentTimerKey := TimerRecord(t)], later) == Some(t.(expired := true))
    ensures later <= t.expiryTime ==> CurrentTimer(true, m[CurrentTimerKey := TimerRecord(t)], later) == Some(t)
  {
  }

  /** What `checkTimerExpiry` returns and the storage after it. */
  datatype ExpiryCheck = ExpiryCheck(timer: Option<ClientTimer>, items: map<string, Stored>)

  function CheckExpiry(hasWindow: bool, m: map<string, Stored>, now: Time): ExpiryCheck {
    match CurrentTimer(hasWindow, m, now)
    case Some(t) =>
      if t.expiryTime < now && t.active then
        var off := t.(active := false);
        ExpiryCheck(Some(off), m[CurrentTimerKey := TimerRecord(off)])
      else ExpiryCheck(None, m)
    case None => ExpiryCheck(None, m)
  }

  /**
   * `checkTimerExpiry()`: an expired, active timer is stored switched off and
   * returned marked expired; otherwise nothing is returned or changed.
   */
  method CheckTimerExpiry(st: LocalStorage, now: Time) returns (r: Option<ClientTimer>)
    modifies st
    ensures var c := CheckExpiry(st.hasWindow, old(st.items), now);
      r == c.timer && st.items == c.items
  {
    var timer := CurrentTimer(st.hasWindow, st.items, now);
    if timer.Some? && timer.value.expiryTime < now && timer.value.active {
      var t := timer.value.(active := false);
      st.items := st.items[CurrentTimerKey := TimerRecord(t)];
      return Some(t.(expired := true));
    }
    return None;
  }

  /**
   * The check reports a timer exactly when the stored one is active and
   * past its expiry; it then stores it inactive. Checking again, at that
   * time or later, reports nothing and changes nothing.
   */
  lemma CheckExpiryOnce(hasWindow: bool, m: map<string, Stored>, now: Time, later: Time)
    requires now <= later
    ensures var c := CheckExpiry(hasWindow, m, now);
      && (c.timer.Some? <==> hasWindow && StoredTimer(m).Some? && StoredTimer(m).value.active
                              && StoredTimer(m).value.expiryTime < now)
      && (c.timer.Some? ==>
            && c.timer == Some(StoredTimer(m).value.(active := false, expired := true))
            && StoredTimer(c.items) == c.timer)
      && (c.timer.None? ==> c.items == m)
      && (c.timer.Some? ==> CheckExpiry(hasWindow, c.items, later) == ExpiryCheck(None, c.items))
      && CheckExpiry(hasWindow, c.items, now) == ExpiryCheck(None, c.items)
  {
  }

  /** `cancelTimer()`: with a window, the current timer is removed. */
  method CancelTimer(st: LocalStorage)
    modifies st
    ensures st.items == if st.hasWindow then old(st.items) - {CurrentTimerKey} else old(st.items)
  {
    if st.hasWindow {
      st.items := st.items - {CurrentTimerKey};
    }
  }

  /** After cancelling there is no current timer and nothing else is touched. */
  lemma CancelledTimerIsGone(m: map<string, Stored>, now: Time)
    ensures CurrentTimer(true, m - {CurrentTimerKey}, now).None?
    ensures forall k :: k in m && k != CurrentTimerKey ==> k in m - {CurrentTimerKey} && (m - {CurrentTimerKey})[k] == m[k]
  {
  }

  /** The history under "timer_history", newest first; nothing stored reads as []. */
  function StoredHistory(m: map<string, Stored>): seq<HistoryEntry> {
    if HistoryKey in m && m[HistoryKey].TimerHistory? then m[HistoryKey].entries else []
  }

  const HistoryLimit := 20

  /** The history after a timer finishes: the new entry first, cut to the limit. */
  function WithFinished(h: seq<HistoryEntry>, e: HistoryEntry): (r: seq<HistoryEntry>)
    ensures |r| <= HistoryLimit
  {
    var longer := [e] + h;
    if |longer| > HistoryLimit then longer[..HistoryLimit] else longer
  }

  /** `addTimerToHistory(timer)`: with a window, the timer is stamped and put first, and the list cut to 20. */
  method AddTimerToHistory(st: LocalStorage, timer: ClientTimer, now: Time)
    modifies st
    ensures !st.hasWindow ==> st.items == old(st.items)
    ensures st.hasWindow ==>
      st.items == old(st.items)[HistoryKey := TimerHistory(WithFinished(StoredHistory(old(st.items)), HistoryEntry(timer, now)))]
  {
    if st.hasWindow {
      var history := StoredHistory(st.items);
      history := [HistoryEntry(timer, now)] + history;
      var trimmed := if |history| > 20 then history[..20] else history;
      st.items := st.items[HistoryKey := TimerHistory(trimmed)];
    }
  }

  /**
   * The finished timer comes first, followed by the newest of the earlier
   * entries, as many as fit in twenty.
   */
  lemma WithFinishedKeepsNewest(h: seq<HistoryEntry>, e: HistoryEntry)
    ensures var r := WithFinished(h, e);
      && |r| == (if |h| + 1 < HistoryLimit then |h| + 1 else HistoryLimit)
      && r[0] == e
      && r[1..] == h[..|r| - 1]
  {
    var r := WithFinished(h, e);
    assert ([e] + h)[1..] == h;
  }

  /** `getTimeRemaining(timer)`: minutes, seconds and milliseconds left. */
  datatype Remaining = Remaining(minutes: int, seconds: int, total: int)

  function TimeRemaining(timer: Option<ClientTimer>, now: Time): (r: Remaining)
    ensures timer.None? ==> r == Remaining(0, 0, 0)
    ensures timer.Some? ==> r.total == if timer.value.expiryTime > now then timer.value.expiryTime - now else 0
    ensures r.minutes >= 0 && 0 <= r.seconds < 60
    ensures r.minutes * MillisPerMinute + r.seconds * MillisPerSecond <= r.total
    ensures r.total < r.minutes * MillisPerMinute + (r.seconds + 1) * MillisPerSecond
  {
    if timer.None? then Remaining(0, 0, 0)
    else
      var total := if timer.value.expiryTime - now > 0 then timer.value.expiryTime - now else 0;
      Remaining(total / (1000 * 60), (total % (1000 * 60)) / 1000, total)
  }

  /** Minutes and seconds as `mm:ss`, each part zero-padded to two digits. */
  function ClockText(minutes: nat, seconds: nat): string {
    Text.PadStart2(Text.NatToString(minutes)) + ":" + Text.PadStart2(Text.NatToString(seconds))
  }

  /** `formatTimeRemaining(timer)`. */
  function FormatTimeRemaining(timer: Option<ClientTimer>, now: Time): string {
    var r := TimeRemaining(timer, now);
    ClockText(r.minutes, r.seconds)
  }

  /** Two digit strings joined by a colon split back at the colon. */
  lemma ColonJoinSplits(mm: string, ss: string)
    requires |mm| >= 2 && |ss| == 2
    requires forall i :: 0 <= i < |mm| ==> Text.IsDigit(mm[i])
    requires forall i :: 0 <= i < |ss| ==> Text.IsDigit(ss[i])
    ensures var s := mm + ":" + ss;
      && |s| >= 5 && s[|s| - 3] == ':'
      && (forall i :: 0 <= i < |s| && i != |s| - 3 ==> Text.IsDigit(s[i]))
      && s[..|s| - 3] == mm && s[|s| - 2..] == ss
  {
    var s := mm + ":" + ss;
    assert s[..|s| - 3] == mm;
    assert s[|s| - 2..] == ss;
    forall i | 0 <= i < |s| && i != |s| - 3
      ensures Text.IsDigit(s[i])
    {
      if i < |mm| {
        assert s[i] == mm[i];
      } else {
        assert s[i] == ss[i - |mm| - 1];
      }
    }
  }

  /** Reading back the two parts of a colon-joined text gives the parts' values. */
  lemma ColonJoinParses(mm: string, ss: string, minutes: nat, seconds: nat)
    requires |ss| == 2
    requires Text.ParseNat(mm) == minutes && Text.ParseNat(ss) == seconds
    ensures var s := mm + ":" + ss;
      Text.ParseNat(s[..|s| - 3]) == minutes && Text.ParseNat(s[|s| - 2..]) == seconds
  {
    var s := mm + ":" + ss;
    assert s[..|s| - 3] == mm;
    assert s[|s| - 2..] == ss;
  }

  /**
   * `s` reads back as a clock: before the colon at least two digits giving
   * the minutes, after it exactly two giving the seconds.
   */
  predicate ReadsBackAs(s: string, minutes: nat, seconds: nat) {
    && |s| >= 5 && s[|s| - 3] == ':'
    && (forall i :: 0 <= i < |s| && i != |s| - 3 ==> Text.IsDigit(s[i]))
    && Text.ParseNat(s[..|s| - 3]) == minutes
    && Text.ParseNat(s[|s| - 2..]) == seconds
  }

  /** The clock text of a number of minutes and of seconds under a minute reads back as both. */
  lemma ClockTextReadsBack(minutes: nat, seconds: nat)
    requires seconds < 60
    ensures ReadsBackAs(ClockText(minutes, seconds), minutes, seconds)
  {
    var mm := Text.PadStart2(Text.NatToString(minutes));
    var ss := Text.PadStart2(Text.NatToString(seconds));
    Text.PaddedNumberDigits(minutes);
    Text.PaddedNumberDigits(seconds);
    ColonJoinSplits(mm, ss);
    Text.PaddedNumberReadsBack(minutes);
    Text.PaddedNumberReadsBack(seconds);
    ColonJoinParses(mm, ss, minutes, seconds);
  }

  /** The remaining time's text reads back as its minutes and seconds. */
  lemma FormatTimeRemainingReadsBack(timer: Option<ClientTimer>, now: Time)
    ensures ReadsBackAs(FormatTimeRemaining(timer, now), TimeRemaining(timer, now).minutes,
                        TimeRemaining(timer, now).seconds)
  {
    var r := TimeRemaining(timer, now);
    ClockTextReadsBack(r.minutes, r.seconds);
  }
}
