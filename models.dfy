/** The persisted records: prayer entries, the day aggregate and the user's stats. */
module Models {
  import opened Wrappers
  import opened PrayerTypes
  import Seqs

  /** Persisted status of one prayer on one day. */
  datatype PrayerStatus = Pending | Done | Missed | Qada

  /** Where a completion came from. */
  datatype EntrySource = App | Notification

  /** One prayer on one day. Instants are whole seconds. */
  datatype PrayerEntry = PrayerEntry(
    prayer: PrayerType,
    scheduledDate: int,
    windowStart: int,
    windowEnd: int,
    performedAt: Option<int>,
    status: PrayerStatus,
    source: EntrySource)

  /** `PrayerEntry.init`: status defaults to pending, source to app, no completion time. */
  function NewEntry(prayer: PrayerType, scheduledDate: int, windowStart: int, windowEnd: int): (e: PrayerEntry)
    ensures e.status == Pending && e.source == App && e.performedAt == None
    ensures e.prayer == prayer && e.scheduledDate == scheduledDate
    ensures e.windowStart == windowStart && e.windowEnd == windowEnd
  {
    PrayerEntry(prayer, scheduledDate, windowStart, windowEnd, None, Pending, App)
  }

  predicate IsCompleted(e: PrayerEntry) {
    e.status == Done || e.status == Qada
  }

  /** Number of entries with status done. */
  function DoneCount(es: seq<PrayerEntry>): (n: nat)
    ensures n <= |es|
  {
    if es == [] then 0
    else DoneCount(es[..|es| - 1]) + (if es[|es| - 1].status == Done then 1 else 0)
  }

  /** `DailyLog.completedCount`: entries that are done or made up (qada). */
  function CompletedCount(es: seq<PrayerEntry>): (n: nat)
    ensures n <= |es|
  {
    if es == [] then 0
    else CompletedCount(es[..|es| - 1]) + (if IsCompleted(es[|es| - 1]) then 1 else 0)
  }

  /** `DailyLog.isPerfect`: exactly five entries are done; qada does not count. */
  predicate IsPerfect(es: seq<PrayerEntry>) {
    DoneCount(es) == 5
  }

  /** `DailyLog.isStreakSafe`: five entries, every one done or qada. */
  predicate IsStreakSafe(es: seq<PrayerEntry>) {
    |es| == 5 && forall i :: 0 <= i < |es| ==> IsCompleted(es[i])
  }

  /** Done entries are a subset of completed ones. */
  lemma {:induction false} DoneAtMostCompleted(es: seq<PrayerEntry>)
    ensures DoneCount(es) <= CompletedCount(es) <= |es|
  {
    if es != [] {
      DoneAtMostCompleted(es[..|es| - 1]);
    }
  }

  /** The completed count reaches the length exactly when every entry is completed. */
  lemma {:induction false} CompletedCountFull(es: seq<PrayerEntry>)
    ensures CompletedCount(es) == |es| <==> forall i :: 0 <= i < |es| ==> IsCompleted(es[i])
  {
    if es != [] {
      var init := es[..|es| - 1];
      CompletedCountFull(init);
      assert forall i :: 0 <= i < |init| ==> init[i] == es[i];
    }
  }

  /** The done count reaches the length exactly when every entry is done. */
  lemma {:induction false} DoneCountFull(es: seq<PrayerEntry>)
    ensures DoneCount(es) == |es| <==> forall i :: 0 <= i < |es| ==> es[i].status == Done
  {
    if es != [] {
      var init := es[..|es| - 1];
      DoneCountFull(init);
      assert forall i :: 0 <= i < |init| ==> init[i] == es[i];
    }
  }

  /** Streak safety is "five entries, all five completed". */
  lemma StreakSafeIffFiveCompleted(es: seq<PrayerEntry>)
    ensures IsStreakSafe(es) <==> |es| == 5 && CompletedCount(es) == 5
  {
    CompletedCountFull(es);
  }

  /** With exactly five entries a perfect day is streak-safe, and a streak-safe day
      has a completed count of five. */
  lemma PerfectImpliesStreakSafe(es: seq<PrayerEntry>)
    requires |es| == 5
    ensures IsPerfect(es) ==> IsStreakSafe(es)
    ensures IsStreakSafe(es) ==> CompletedCount(es) == 5
  {
    DoneCountFull(es);
    CompletedCountFull(es);
  }

  /** `isPerfect` alone does not require five entries: six entries with five done
      make a perfect day that is not streak-safe. */
  lemma PerfectWithSixEntries(e: PrayerEntry)
    requires e.status == Done
    ensures var es := [e, e, e, e, e, e.(status := Pending)];
            IsPerfect(es) && !IsStreakSafe(es)
  {
    var es := [e, e, e, e, e, e.(status := Pending)];
    DoneCountFull(es[..5]);
    assert DoneCount(es) == DoneCount(es[..5]);
  }

  /** Marks the first entry satisfying `P` as done at `now`, from `source`;
      without such an entry the list is unchanged. */
  function MarkFirst(es: seq<PrayerEntry>, P: PrayerEntry -> bool, now: int, source: EntrySource): (r: seq<PrayerEntry>)
    ensures |r| == |es|
  {
    match Seqs.FirstIndex(es, P)
    case None => es
    case Some(i) => es[i := es[i].(status := Done, performedAt := Some(now), source := source)]
  }

  /** Replacing one entry changes each count by the difference it makes there. */
  lemma {:induction false} CountsAfterUpdate(es: seq<PrayerEntry>, i: nat, e: PrayerEntry)
    requires i < |es|
    ensures DoneCount(es[i := e]) + (if es[i].status == Done then 1 else 0)
         == DoneCount(es) + (if e.status == Done then 1 else 0)
    ensures CompletedCount(es[i := e]) + (if IsCompleted(es[i]) then 1 else 0)
         == CompletedCount(es) + (if IsCompleted(e) then 1 else 0)
  {
    var n := |es| - 1;
    if i < n {
      CountsAfterUpdate(es[..n], i, e);
      assert es[i := e][..n] == es[..n][i := e];
    } else {
      assert es[i := e][..n] == es[..n];
    }
  }

  /** Marking the first match done: the entry keeps its prayer and window, every
      other entry is unchanged, and the done count rises by one exactly when the
      matched entry was not already done. */
  lemma MarkFirstEffect(es: seq<PrayerEntry>, P: PrayerEntry -> bool, now: int, source: EntrySource)
    ensures var r := MarkFirst(es, P, now, source);
            match Seqs.FirstIndex(es, P)
            case None =>
              r == es
            case Some(i) =>
              && r[i].status == Done && r[i].performedAt == Some(now) && r[i].source == source
              && r[i].prayer == es[i].prayer && r[i].scheduledDate == es[i].scheduledDate
              && r[i].windowStart == es[i].windowStart && r[i].windowEnd == es[i].windowEnd
              && (forall j :: 0 <= j < |es| && j != i ==> r[j] == es[j])
              && DoneCount(r) == DoneCount(es) + (if es[i].status == Done then 0 else 1)
              && CompletedCount(r) == CompletedCount(es) + (if IsCompleted(es[i]) then 0 else 1)
  {
    match Seqs.FirstIndex(es, P)
    case None =>
    case Some(i) =>
      CountsAfterUpdate(es, i, es[i].(status := Done, performedAt := Some(now), source := source));
  }

  /** One day's record (`DailyLog`). `date` is the day number of its start of day. */
  class DailyLog {
    var date: int
    var entries: seq<PrayerEntry>
    var streakProtected: bool
    var createdAt: int

    /** A new log has no entries and is not protected. */
    constructor (date: int, now: int)
      ensures this.date == date && createdAt == now
      ensures entries == [] && !streakProtected
    {
      this.date := date;
      entries := [];
      streakProtected := false;
      createdAt := now;
    }
  }

  /** The per-user counters (`UserStats`). */
  class UserStats {
    var currentStreak: int
    var bestStreak: int
    var freezesAvailable: int
    var totalPrayers: int
    var badgesUnlocked: seq<string>
    var hasCompletedOnboarding: bool

    /** Every counter starts at zero and no badge is unlocked. */
    constructor ()
      ensures currentStreak == 0 && bestStreak == 0 && freezesAvailable == 0 && totalPrayers == 0
      ensures badgesUnlocked == [] && !hasCompletedOnboarding
    {
      currentStreak, bestStreak, freezesAvailable, totalPrayers := 0, 0, 0, 0;
      badgesUnlocked := [];
      hasCompletedOnboarding := false;
    }
  }

  /** Marks the first entry of the log satisfying `P` as done at `now`, from
      `source`, as both mark-done paths do in place; `found` tells whether there
      was such an entry. */
  method MarkFirstEntry(log: DailyLog, P: PrayerEntry -> bool, now: int, source: EntrySource) returns (found: bool)
    modifies log`entries
    ensures found == Seqs.FirstIndex(old(log.entries), P).Some?
    ensures log.entries == MarkFirst(old(log.entries), P, now, source)
  {
    var idx := Seqs.FirstIndex(log.entries, P);
    found := idx.Some?;
    if found {
      var i := idx.value;
      var entry := log.entries[i];
      log.entries := log.entries[i := entry.(status := Done, performedAt := Some(now), source := source)];
    }
  }

  /** `totalPrayers += 1`. */
  method CountPrayer(stats: UserStats)
    modifies stats`totalPrayers
    ensures stats.totalPrayers == old(stats.totalPrayers) + 1
  {
    stats.totalPrayers := stats.totalPrayers + 1;
  }
}
