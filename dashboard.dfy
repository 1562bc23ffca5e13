/** The dashboard's live prayer cards and its two mutating actions:
    marking a card done and generating the day's entries. */
module Dashboard {
  import opened Wrappers
  import opened Seqs
  import opened PrayerTypes
  import opened Models
  import opened BadgeService
  import opened PrayerTimeService
  import opened NotificationService

  /** What a card shows (`PrayerCardState`). `Qada` is shown by the summary
      sheet but never derived by `rebuildCards`. */
  datatype PrayerCardState = Future | Active | Warning | Missed | Done | Qada

  /** A card is in its warning state when less than this many seconds of the window remain. */
  const WarningSeconds := 600

  /** One card of the dashboard (`PrayerCardModel`). */
  datatype PrayerCardModel = PrayerCardModel(prayer: PrayerType, state: PrayerCardState,
                                             scheduledTime: int, windowEnd: int)

  /** The state derivation of `rebuildCards`: a pending or qada entry is placed
      against its window, a done or missed entry keeps its status. */
  function CardState(status: PrayerStatus, now: int, windowStart: int, windowEnd: int): PrayerCardState {
    match status
    case Done => PrayerCardState.Done
    case Missed => PrayerCardState.Missed
    case Pending | Qada =>
      if now < windowStart then Future
      else if now > windowEnd then PrayerCardState.Missed
      else if windowEnd - now < WarningSeconds then Warning
      else Active
  }

  /** The card for one entry at `now`. */
  function CardFor(e: PrayerEntry, now: int): PrayerCardModel {
    PrayerCardModel(e.prayer, CardState(e.status, now, e.windowStart, e.windowEnd), e.scheduledDate, e.windowEnd)
  }

  function ScheduledKey(e: PrayerEntry): int {
    e.scheduledDate
  }

  /** The card of each entry at `now`, as the `map` of `rebuildCards` builds it. */
  function CardAt(now: int): PrayerEntry -> PrayerCardModel {
    (e: PrayerEntry) => CardFor(e, now)
  }

  /** The cards `rebuildCards` shows: the entries' cards, each exactly as often
      as its entry occurs, ordered by scheduled time. */
  function Cards(entries: seq<PrayerEntry>, now: int): (cards: seq<PrayerCardModel>)
    ensures |cards| == |entries|
    ensures forall i, j :: 0 <= i < j < |cards| ==> cards[i].scheduledTime <= cards[j].scheduledTime
    ensures multiset(cards) == multiset(Map(entries, CardAt(now)))
    ensures forall e :: e in entries ==> CardFor(e, now) in cards
    ensures forall c :: c in cards ==> exists e :: e in entries && c == CardFor(e, now)
  {
    var cards := Map(SortBy(entries, ScheduledKey), CardAt(now));
    CardsSorted(entries, now);
    CardsPermutation(entries, now);
    cards
  }

  /** The sort orders the cards by scheduled time. */
  lemma CardsSorted(entries: seq<PrayerEntry>, now: int)
    ensures var cards := Map(SortBy(entries, ScheduledKey), CardAt(now));
            forall i, j :: 0 <= i < j < |cards| ==> cards[i].scheduledTime <= cards[j].scheduledTime
  {
    var sorted := SortBy(entries, ScheduledKey);
    assert forall i, j :: 0 <= i < j < |sorted| ==> ScheduledKey(sorted[i]) <= ScheduledKey(sorted[j]);
  }

  /** Sorting only reorders, so the cards are those of the entries. */
  lemma CardsPermutation(entries: seq<PrayerEntry>, now: int)
    ensures var cards := Map(SortBy(entries, ScheduledKey), CardAt(now));
            && multiset(cards) == multiset(Map(entries, CardAt(now)))
            && (forall e :: e in entries ==> CardFor(e, now) in cards)
            && (forall c :: c in cards ==> exists e :: e in entries && c == CardFor(e, now))
  {
    var sorted := SortBy(entries, ScheduledKey);
    var cards := Map(sorted, CardAt(now));
    MapPermutation(sorted, entries, CardAt(now));
    MapMembers(entries, CardAt(now));
    assert forall c :: c in cards <==> c in multiset(Map(entries, CardAt(now)));
  }

  /** The state table of `rebuildCards`, each state with the exact condition for it. */
  lemma CardStateTable(status: PrayerStatus, now: int, windowStart: int, windowEnd: int)
    ensures var s := CardState(status, now, windowStart, windowEnd);
      && s != PrayerCardState.Qada
      && (s == PrayerCardState.Done <==> status == PrayerStatus.Done)
      && (status == PrayerStatus.Missed ==> s == PrayerCardState.Missed)
      && (status == Pending || status == PrayerStatus.Qada ==>
            && (s == Future <==> now < windowStart)
            && (s == PrayerCardState.Missed <==> windowStart <= now && windowEnd < now)
            && (s == Warning <==> windowStart <= now <= windowEnd && windowEnd - now < 600)
            && (s == Active <==> windowStart <= now <= windowEnd && windowEnd - now >= 600))
  {
  }

  /** A qada entry is displayed exactly as a pending one. */
  lemma QadaShownAsPending(now: int, windowStart: int, windowEnd: int)
    ensures CardState(PrayerStatus.Qada, now, windowStart, windowEnd) == CardState(Pending, now, windowStart, windowEnd)
  {
  }

  /** The last second of a window is already a warning. */
  lemma WindowEndIsWarning(windowStart: int, windowEnd: int)
    requires windowStart <= windowEnd
    ensures CardState(Pending, windowEnd, windowStart, windowEnd) == Warning
  {
  }

  /** The match `markPrayerDone` looks for: any entry of the card's prayer. */
  function ForPrayer(p: PrayerType): PrayerEntry -> bool {
    (e: PrayerEntry) => e.prayer == p
  }

  /** The entries `generateTodayEntries` creates for the day's windows. */
  function EntriesFor(windows: seq<PrayerWindow>): (es: seq<PrayerEntry>)
    ensures |es| == |windows|
    ensures forall i :: 0 <= i < |es| ==>
      && es[i].prayer == windows[i].prayer && es[i].scheduledDate == windows[i].scheduledTime
      && es[i].windowStart == windows[i].start && es[i].windowEnd == windows[i].end
      && es[i].status == Pending && es[i].source == App && es[i].performedAt == None
  {
    seq(|windows|, i requires 0 <= i < |windows| =>
      NewEntry(windows[i].prayer, windows[i].scheduledTime, windows[i].start, windows[i].end))
  }

  lemma EntriesForAppend(windows: seq<PrayerWindow>, k: nat)
    requires k < |windows|
    ensures EntriesFor(windows[..k + 1]) == EntriesFor(windows[..k]) +
      [NewEntry(windows[k].prayer, windows[k].scheduledTime, windows[k].start, windows[k].end)]
  {
  }

  /** The dashboard screen's state (`DashboardViewModel`). The fetched log and
      stats are held as possibly-absent references, as the source holds optionals. */
  class DashboardViewModel {
    var prayerCards: seq<PrayerCardModel>
    var currentStreak: int
    var completedCount: int
    var newBadges: seq<Badge>
    var dailyLog: DailyLog?
    var userStats: UserStats?

    /** A view model over the records the store returned. */
    constructor (dailyLog: DailyLog?, userStats: UserStats?)
      ensures this.dailyLog == dailyLog && this.userStats == userStats
      ensures prayerCards == [] && currentStreak == 0 && completedCount == 0 && newBadges == []
    {
      this.dailyLog := dailyLog;
      this.userStats := userStats;
      prayerCards := [];
      currentStreak := 0;
      completedCount := 0;
      newBadges := [];
    }

    /** The entries on display: none without a log. */
    function Entries(): seq<PrayerEntry>
      reads this, dailyLog
    {
      if dailyLog == null then [] else dailyLog.entries
    }

    /** `rebuildCards`: recomputes the cards and the completed count from the
        entries at `now`; no entry changes. */
    method RebuildCards(now: int)
      modifies this`prayerCards, this`completedCount
      ensures prayerCards == Cards(Entries(), now)
      ensures completedCount == CompletedCount(Entries())
    {
      var entries := if dailyLog == null then [] else dailyLog.entries;
      prayerCards := Cards(entries, now);
      completedCount := if dailyLog == null then 0 else CompletedCount(dailyLog.entries);
    }

    /** `markPrayerDone`. Out of range or already-done cards are ignored. Otherwise
        the first entry with the card's prayer is marked done from the app and that
        prayer's reminders for `today` are cancelled (their identifiers are
        returned); `totalPrayers` is incremented whether or not an entry matched;
        badges are re-checked when both records exist; the cards are rebuilt. */
    method MarkPrayerDone(cardIndex: nat, now: int, today: string) returns (cancelled: seq<string>)
      modifies this`prayerCards, this`completedCount, this`newBadges, dailyLog, userStats
      ensures old(cardIndex >= |prayerCards| || prayerCards[cardIndex].state == PrayerCardState.Done) ==>
        && cancelled == [] && prayerCards == old(prayerCards) && completedCount == old(completedCount)
        && newBadges == old(newBadges)
        && (dailyLog != null ==> dailyLog.entries == old(dailyLog.entries))
        && (userStats != null ==>
              userStats.totalPrayers == old(userStats.totalPrayers)
              && userStats.badgesUnlocked == old(userStats.badgesUnlocked))
      ensures old(cardIndex < |prayerCards| && prayerCards[cardIndex].state != PrayerCardState.Done) ==>
        var p := old(prayerCards[cardIndex].prayer);
        && (dailyLog != null ==> dailyLog.entries == MarkFirst(old(dailyLog.entries), ForPrayer(p), now, App))
        && cancelled == (if dailyLog != null && FirstIndex(old(dailyLog.entries), ForPrayer(p)).Some?
                         then CancelIdentifiers(p, today) else [])
        && (userStats != null ==> userStats.totalPrayers == old(userStats.totalPrayers) + 1)
        && (userStats != null && dailyLog != null ==>
              (userStats.badgesUnlocked, newBadges)
                == AwardFrom(AllBadges, old(userStats.badgesUnlocked), FactsOf(userStats, dailyLog)))
        && (userStats != null && dailyLog == null ==> userStats.badgesUnlocked == old(userStats.badgesUnlocked))
        && (userStats == null || dailyLog == null ==> newBadges == old(newBadges))
        && prayerCards == Cards(Entries(), now)
        && completedCount == CompletedCount(Entries())
      ensures dailyLog != null ==>
        && dailyLog.date == old(dailyLog.date) && dailyLog.streakProtected == old(dailyLog.streakProtected)
        && dailyLog.createdAt == old(dailyLog.createdAt)
      ensures userStats != null ==>
        && userStats.currentStreak == old(userStats.currentStreak)
        && userStats.bestStreak == old(userStats.bestStreak)
        && userStats.freezesAvailable == old(userStats.freezesAvailable)
        && userStats.hasCompletedOnboarding == old(userStats.hasCompletedOnboarding)
    {
      cancelled := [];
      if cardIndex >= |prayerCards| {
        return;
      }
      var card := prayerCards[cardIndex];
      if card.state == PrayerCardState.Done {
        return;
      }
      cancelled := MarkCard(card.prayer, now, today);
      RebuildCards(now);
    }

    /** The record updates of `markPrayerDone` for a card of prayer `p` that is not done. */
    method MarkCard(p: PrayerType, now: int, today: string) returns (cancelled: seq<string>)
      modifies this`newBadges, dailyLog, userStats
      ensures dailyLog != null ==> dailyLog.entries == MarkFirst(old(dailyLog.entries), ForPrayer(p), now, App)
      ensures cancelled == (if dailyLog != null && FirstIndex(old(dailyLog.entries), ForPrayer(p)).Some?
                            then CancelIdentifiers(p, today) else [])
      ensures userStats != null ==> userStats.totalPrayers == old(userStats.totalPrayers) + 1
      ensures userStats != null && dailyLog != null ==>
        (userStats.badgesUnlocked, newBadges)
          == AwardFrom(AllBadges, old(userStats.badgesUnlocked), FactsOf(userStats, dailyLog))
      ensures userStats != null && dailyLog == null ==> userStats.badgesUnlocked == old(userStats.badgesUnlocked)
      ensures userStats == null || dailyLog == null ==> newBadges == old(newBadges)
      ensures dailyLog != null ==>
        && dailyLog.date == old(dailyLog.date) && dailyLog.streakProtected == old(dailyLog.streakProtected)
        && dailyLog.createdAt == old(dailyLog.createdAt)
      ensures userStats != null ==>
        && userStats.currentStreak == old(userStats.currentStreak)
        && userStats.bestStreak == old(userStats.bestStreak)
        && userStats.freezesAvailable == old(userStats.freezesAvailable)
        && userStats.hasCompletedOnboarding == old(userStats.hasCompletedOnboarding)
    {
      cancelled := [];
      if dailyLog != null {
        cancelled := MarkCardEntry(dailyLog, p, now, today);
      }
      if userStats != null {
        CountPrayer(userStats);
      }
      if userStats != null && dailyLog != null {
        newBadges := CheckAndAwardBadges(userStats, dailyLog);
      }
    }

    /** `generateTodayEntries`. Without settings holding both coordinates nothing
        happens. Otherwise the day's windows are computed at that location with the
        settings' method and madhab; one new pending entry per window is appended
        to the log (when there is one), and the reminder cascade for those windows
        is scheduled for `today` in any case; the scheduled requests are returned,
        and no two of them share an identifier. */
    method GenerateTodayEntries(coordinates: Option<Coordinate>, calcMethod: CalculationMethodType,
                                madhab: MadhabType, calculator: Calculator, day: int,
                                today: string, now: int)
      returns (scheduled: seq<Reminder>)
      modifies dailyLog
      ensures coordinates.None? ==> scheduled == [] && (dailyLog != null ==> dailyLog.entries == old(dailyLog.entries))
      ensures coordinates.Some? ==>
        var windows := PrayerWindows(calculator, coordinates.value, day, calcMethod, madhab);
        && scheduled == Cascade(windows, today, now)
        && (dailyLog != null ==> dailyLog.entries == old(dailyLog.entries) + EntriesFor(windows))
      ensures DistinctIdentifiers(scheduled)
      ensures dailyLog != null ==>
        && dailyLog.date == old(dailyLog.date) && dailyLog.streakProtected == old(dailyLog.streakProtected)
        && dailyLog.createdAt == old(dailyLog.createdAt)
    {
      scheduled := [];
      if coordinates.None? {
        return;
      }
      var windows := PrayerWindows(calculator, coordinates.value, day, calcMethod, madhab);
      ghost var before := if dailyLog == null then [] else dailyLog.entries;
      for k := 0 to |windows|
        invariant dailyLog != null ==> dailyLog.entries == before + EntriesFor(windows[..k])
        invariant dailyLog != null ==>
          && dailyLog.date == old(dailyLog.date) && dailyLog.streakProtected == old(dailyLog.streakProtected)
          && dailyLog.createdAt == old(dailyLog.createdAt)
      {
        var w := windows[k];
        var entry := NewEntry(w.prayer, w.scheduledTime, w.start, w.end);
        EntriesForAppend(windows, k);
        if dailyLog != null {
          dailyLog.entries := dailyLog.entries + [entry];
        }
      }
      assert windows[..|windows|] == windows;
      scheduled := SchedulePrayerNotifications(windows, today, now);
      PrayerWindowsPrayers(calculator, coordinates.value, day, calcMethod, madhab);
      CascadeIdentifiersDistinct(windows, today, now);
    }
  }

  /** The entry update of `markPrayerDone`: the first entry of prayer `p` is
      marked done from the app; when there is one, the identifiers of that
      prayer's reminders for `today` are returned for cancellation. */
  method MarkCardEntry(dailyLog: DailyLog, p: PrayerType, now: int, today: string) returns (cancelled: seq<string>)
    modifies dailyLog`entries
    ensures dailyLog.entries == MarkFirst(old(dailyLog.entries), ForPrayer(p), now, App)
    ensures cancelled == if FirstIndex(old(dailyLog.entries), ForPrayer(p)).Some? then CancelIdentifiers(p, today) else []
  {
    var found := MarkFirstEntry(dailyLog, ForPrayer(p), now, App);
    cancelled := if found then CancelIdentifiers(p, today) else [];
  }

  /** A card that is already done is never marked again, and marking a card whose
      first matching entry was not done raises the day's done count by one. */
  lemma MarkDoneCounts(entries: seq<PrayerEntry>, p: PrayerType, now: int)
    requires FirstIndex(entries, ForPrayer(p)).Some?
    ensures var i := FirstIndex(entries, ForPrayer(p)).value;
            var r := MarkFirst(entries, ForPrayer(p), now, App);
            && r[i].prayer == p && r[i].status == PrayerStatus.Done
            && DoneCount(r) == DoneCount(entries) + (if entries[i].status == PrayerStatus.Done then 0 else 1)
  {
    MarkFirstEffect(entries, ForPrayer(p), now, App);
  }
}
