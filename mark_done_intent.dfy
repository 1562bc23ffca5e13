/** The widget's "Mark Prayer Done" intent (`MarkDoneIntent.perform`). The shared
    store is passed in and the snapshot to store back is returned. */
module MarkDoneIntent {
  import opened Wrappers
  import opened Text
  import opened Seqs
  import opened WidgetData

  const NoDataDialog := "No prayer data available"

  /** The entry the intent acts on: the named prayer, still pending. */
  function PendingOf(prayer: string): WidgetPrayerEntry -> bool {
    (e: WidgetPrayerEntry) => e.prayer == prayer && e.status == "pending"
  }

  /** `perform`. Without stored data nothing is written and the "no data" dialog is
      returned. Otherwise the first pending entry of `prayer` becomes `"done"`, keeping
      its prayer and times, every other entry is kept, the streak is carried over and
      the snapshot is stamped with `now`. */
  method Perform(stored: Option<WidgetPrayerData>, prayer: string, now: int)
    returns (newStored: Option<WidgetPrayerData>, dialog: string)
    ensures stored.None? ==> newStored == None && dialog == NoDataDialog
    ensures stored.Some? ==>
      var before := stored.value.prayers;
      && newStored.Some?
      && var updated := newStored.value.prayers;
      && |updated| == |before|
      && newStored.value.currentStreak == stored.value.currentStreak
      && newStored.value.updatedAt == now
      && dialog == Capitalized(prayer) + " prayer marked as done"
      && match FirstIndex(before, PendingOf(prayer))
         case None =>
           updated == before
         case Some(idx) =>
           && updated[idx] == before[idx].(status := "done")
           && (forall j :: 0 <= j < |before| && j != idx ==> updated[j] == before[j])
           && CompletedCount(updated) == CompletedCount(before) + 1
  {
    if stored.None? {
      return None, NoDataDialog;
    }
    var data := stored.value;
    var updated := data.prayers;
    var found := FirstIndex(updated, PendingOf(prayer));
    if found.Some? {
      var idx := found.value;
      updated := updated[idx := WidgetPrayerEntry(updated[idx].prayer, "done", updated[idx].scheduledTime, updated[idx].windowEnd)];
      CompletedCountAfterUpdate(data.prayers, idx, updated[idx]);
    }
    newStored := Some(WidgetPrayerData(updated, data.currentStreak, now));
    dialog := Capitalized(prayer) + " prayer marked as done";
  }
}
