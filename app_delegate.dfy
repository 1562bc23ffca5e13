/** The notification-action handling of the app delegate (`AppDelegate` in
    `SalahStreakApp`): marking a prayer done from a reminder, and snoozing one. */
module AppDelegate {
  import opened Wrappers
  import opened Text
  import opened Seqs
  import opened PrayerTypes
  import opened Models
  import opened NotificationService

  const MarkDoneAction := "MARK_DONE"
  const SnoozeAction := "SNOOZE"

  /** The snooze delay: 20 minutes. */
  const SnoozeSeconds := 20 * 60

  /** What a notification response asks for. */
  datatype Command = MarkDone(prayer: PrayerType) | Snooze(prayer: PrayerType) | Ignore

  /** The switch on the action identifier; the prayer must be a known raw value. */
  function CommandFor(actionIdentifier: string, prayerRaw: Option<string>): Command {
    if actionIdentifier == MarkDoneAction && prayerRaw.Some? && FromRawValue(prayerRaw.value).Some? then
      MarkDone(FromRawValue(prayerRaw.value).value)
    else if actionIdentifier == SnoozeAction && prayerRaw.Some? && FromRawValue(prayerRaw.value).Some? then
      Snooze(FromRawValue(prayerRaw.value).value)
    else Ignore
  }

  /** A response acts on prayer `p` exactly when it carries `p`'s raw value and one
      of the two action identifiers; everything else is ignored. */
  lemma CommandDecoding(actionIdentifier: string, prayerRaw: Option<string>, p: PrayerType)
    ensures CommandFor(actionIdentifier, prayerRaw) == MarkDone(p)
        <==> actionIdentifier == MarkDoneAction && prayerRaw == Some(RawValue(p))
    ensures CommandFor(actionIdentifier, prayerRaw) == Snooze(p)
        <==> actionIdentifier == SnoozeAction && prayerRaw == Some(RawValue(p))
    ensures CommandFor(actionIdentifier, prayerRaw) == Ignore
        <==> (actionIdentifier != MarkDoneAction && actionIdentifier != SnoozeAction)
             || prayerRaw.None? || FromRawValue(prayerRaw.value).None?
  {
    RawValueFirstLetterDistinct(p, p);
    if prayerRaw.Some? && FromRawValue(prayerRaw.value).Some? {
      RawValueFirstLetterDistinct(FromRawValue(prayerRaw.value).value, p);
    }
  }

  /** The one-off reminder `snoozePrayer` schedules. */
  datatype SnoozeRequest = SnoozeRequest(identifier: string, prayer: PrayerType, fireAt: int,
                                         title: string, body: string, category: string)

  /** The snooze request's identifier: it starts with the prayer's raw value. */
  function SnoozeIdentifier(p: PrayerType): (id: string)
    ensures |id| > |RawValue(p)| && id[..|RawValue(p)|] == RawValue(p)
  {
    RawValue(p) + "_snooze"
  }

  /** `snoozePrayer(_, minutes: 20)` at `now`. */
  function SnoozeFor(p: PrayerType, now: int): (r: SnoozeRequest)
    ensures r.fireAt - now == 1200
    ensures r.prayer == p && r.title == Title && r.category == Category
  {
    SnoozeRequest(SnoozeIdentifier(p), p, now + SnoozeSeconds, Title,
                  "Reminder: " + DisplayName(p) + " prayer is waiting.", Category)
  }

  /** The snooze identifier never collides with a cascade identifier, so marking a
      prayer done cancels its cascade reminders but never a pending snooze. */
  lemma SnoozeNeverCancelled(p: PrayerType, q: PrayerType, dateString: string)
    ensures SnoozeIdentifier(p) !in CancelIdentifiers(q, dateString)
    ensures SnoozeIdentifier(p) != SnoozeIdentifier(q) <==> p != q
  {
    RawValueFirstLetterDistinct(p, q);
    var a := SnoozeIdentifier(p);
    forall i | 0 <= i < 4 ensures a != Identifier(q, dateString, i) {
      var b := Identifier(q, dateString, i);
      assert b[|b| - 1] == DigitChar(i);
    }
    if p != q {
      assert SnoozeIdentifier(p)[0] != SnoozeIdentifier(q)[0];
    }
  }

  /** The entry `markPrayerDoneFromNotification` looks for: the prayer, still pending. */
  function PendingOf(p: PrayerType): PrayerEntry -> bool {
    (e: PrayerEntry) => e.prayer == p && e.status == Pending
  }

  /** Marking from a notification: only a pending entry of the prayer is touched,
      and the day's done and completed counts each rise by exactly one. */
  lemma NotificationMarkCounts(entries: seq<PrayerEntry>, p: PrayerType, now: int)
    requires FirstIndex(entries, PendingOf(p)).Some?
    ensures var i := FirstIndex(entries, PendingOf(p)).value;
            var r := MarkFirst(entries, PendingOf(p), now, Notification);
            && entries[i].prayer == p && entries[i].status == Pending
            && r[i] == entries[i].(status := Done, performedAt := Some(now), source := Notification)
            && (forall j :: 0 <= j < |entries| && j != i ==> r[j] == entries[j])
            && DoneCount(r) == DoneCount(entries) + 1
            && CompletedCount(r) == CompletedCount(entries) + 1
  {
    MarkFirstEffect(entries, PendingOf(p), now, Notification);
  }

  /** `markPrayerDoneFromNotification` on today's log (if one was fetched) and the
      stats (if any). Without a log or a pending entry of `p` nothing changes and
      nothing is cancelled. Otherwise the entry is marked, `totalPrayers` rises by
      one when there are stats, and `p`'s reminders for `today` are cancelled. */
  method MarkPrayerDoneFromNotification(log: DailyLog?, stats: UserStats?, p: PrayerType, now: int, today: string)
    returns (cancelled: seq<string>)
    modifies log, stats
    ensures log == null || FirstIndex(old(log.entries), PendingOf(p)).None? ==>
      && cancelled == []
      && (log != null ==> log.entries == old(log.entries))
      && (stats != null ==> stats.totalPrayers == old(stats.totalPrayers))
    ensures log != null && FirstIndex(old(log.entries), PendingOf(p)).Some? ==>
      && log.entries == MarkFirst(old(log.entries), PendingOf(p), now, Notification)
      && (stats != null ==> stats.totalPrayers == old(stats.totalPrayers) + 1)
      && cancelled == CancelIdentifiers(p, today)
    ensures log != null ==>
      && log.date == old(log.date) && log.streakProtected == old(log.streakProtected)
      && log.createdAt == old(log.createdAt)
    ensures stats != null ==>
      && stats.currentStreak == old(stats.currentStreak) && stats.bestStreak == old(stats.bestStreak)
      && stats.freezesAvailable == old(stats.freezesAvailable) && stats.badgesUnlocked == old(stats.badgesUnlocked)
      && stats.hasCompletedOnboarding == old(stats.hasCompletedOnboarding)
  {
    cancelled := [];
    if log == null {
      return;
    }
    var found := MarkFirstEntry(log, PendingOf(p), now, Notification);
    if !found {
      return;
    }
    if stats != null {
      CountPrayer(stats);
    }
    cancelled := CancelIdentifiers(p, today);
  }

  /** `userNotificationCenter(_:didReceive:withCompletionHandler:)`: dispatches on
      the action and always calls the completion handler. Returns the identifiers
      cancelled, the snooze scheduled, and whether the handler was called. */
  method HandleResponse(actionIdentifier: string, prayerRaw: Option<string>,
                        log: DailyLog?, stats: UserStats?, now: int, today: string)
    returns (cancelled: seq<string>, snoozed: Option<SnoozeRequest>, completionCalled: bool)
    modifies log, stats
    ensures completionCalled
    ensures match CommandFor(actionIdentifier, prayerRaw)
      case MarkDone(p) =>
        && snoozed == None
        && (log == null || FirstIndex(old(log.entries), PendingOf(p)).None? ==>
              && cancelled == []
              && (log != null ==> log.entries == old(log.entries))
              && (stats != null ==> stats.totalPrayers == old(stats.totalPrayers)))
        && (log != null && FirstIndex(old(log.entries), PendingOf(p)).Some? ==>
              && log.entries == MarkFirst(old(log.entries), PendingOf(p), now, Notification)
              && (stats != null ==> stats.totalPrayers == old(stats.totalPrayers) + 1)
              && cancelled == CancelIdentifiers(p, today))
      case Snooze(p) =>
        && snoozed == Some(SnoozeFor(p, now)) && cancelled == []
        && (log != null ==> log.entries == old(log.entries))
        && (stats != null ==> stats.totalPrayers == old(stats.totalPrayers))
      case Ignore =>
        && snoozed == None && cancelled == []
        && (log != null ==> log.entries == old(log.entries))
        && (stats != null ==> stats.totalPrayers == old(stats.totalPrayers))
    ensures log != null ==>
      && log.date == old(log.date) && log.streakProtected == old(log.streakProtected)
      && log.createdAt == old(log.createdAt)
    ensures stats != null ==>
      && stats.currentStreak == old(stats.currentStreak) && stats.bestStreak == old(stats.bestStreak)
      && stats.freezesAvailable == old(stats.freezesAvailable) && stats.badgesUnlocked == old(stats.badgesUnlocked)
      && stats.hasCompletedOnboarding == old(stats.hasCompletedOnboarding)
  {
    cancelled, snoozed := [], None;
    match CommandFor(actionIdentifier, prayerRaw) {
      case MarkDone(p) =>
        cancelled := MarkPrayerDoneFromNotification(log, stats, p, now, today);
      case Snooze(p) =>
        snoozed := Some(SnoozeFor(p, now));
      case Ignore =>
    }
    completionCalled := true;
  }
}
