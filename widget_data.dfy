/** The snapshot the app shares with its widget (`WidgetPrayerData`). Prayers and
    statuses are carried as their raw strings, as the snapshot stores them. */
module WidgetData {
  import opened Wrappers
  import Seqs

  datatype WidgetPrayerEntry = WidgetPrayerEntry(prayer: string, status: string, scheduledTime: int, windowEnd: int)

  datatype WidgetPrayerData = WidgetPrayerData(prayers: seq<WidgetPrayerEntry>, currentStreak: int, updatedAt: int)

  /** An entry that can still be prayed at `now`. */
  predicate IsOpenAt(e: WidgetPrayerEntry, now: int) {
    e.status == "pending" && now < e.windowEnd
  }

  function OpenAt(now: int): WidgetPrayerEntry -> bool {
    (e: WidgetPrayerEntry) => IsOpenAt(e, now)
  }

  /** `currentPrayer`: the first entry still open at `now`, if any. */
  function CurrentPrayer(data: WidgetPrayerData, now: int): (r: Option<WidgetPrayerEntry>)
    ensures r.Some? ==> r.value.status == "pending" && now < r.value.windowEnd
    ensures r.Some? ==> exists i :: 0 <= i < |data.prayers| && data.prayers[i] == r.value
                                    && forall j :: 0 <= j < i ==> !IsOpenAt(data.prayers[j], now)
    ensures r.None? <==> forall j :: 0 <= j < |data.prayers| ==> !IsOpenAt(data.prayers[j], now)
  {
    var r := Seqs.First(data.prayers, OpenAt(now));
    assert r.Some? ==> var i := Seqs.FirstIndex(data.prayers, OpenAt(now)).value;
      data.prayers[i] == r.value && forall j :: 0 <= j < i ==> !IsOpenAt(data.prayers[j], now);
    r
  }

  predicate IsDone(e: WidgetPrayerEntry) {
    e.status == "done"
  }

  /** `completedCount`: entries whose status is exactly `"done"`. */
  function CompletedCount(prayers: seq<WidgetPrayerEntry>): (n: nat)
    ensures n <= |prayers|
  {
    if prayers == [] then 0
    else CompletedCount(prayers[..|prayers| - 1]) + (if IsDone(prayers[|prayers| - 1]) then 1 else 0)
  }

  /** The count reaches its extremes exactly when all or none of the entries are done;
      in particular entries marked `"qada"` are not counted. */
  lemma {:induction false} CompletedCountExtremes(prayers: seq<WidgetPrayerEntry>)
    ensures CompletedCount(prayers) == |prayers| <==> forall i :: 0 <= i < |prayers| ==> IsDone(prayers[i])
    ensures CompletedCount(prayers) == 0 <==> forall i :: 0 <= i < |prayers| ==> !IsDone(prayers[i])
  {
    if prayers != [] {
      var n := |prayers| - 1;
      CompletedCountExtremes(prayers[..n]);
      assert forall i :: 0 <= i < n ==> prayers[..n][i] == prayers[i];
    }
  }

  /** Replacing one entry changes the count by the difference it makes there. */
  lemma {:induction false} CompletedCountAfterUpdate(prayers: seq<WidgetPrayerEntry>, i: nat, e: WidgetPrayerEntry)
    requires i < |prayers|
    ensures CompletedCount(prayers[i := e]) + (if IsDone(prayers[i]) then 1 else 0)
         == CompletedCount(prayers) + (if IsDone(e) then 1 else 0)
  {
    var n := |prayers| - 1;
    if i < n {
      CompletedCountAfterUpdate(prayers[..n], i, e);
      assert prayers[i := e][..n] == prayers[..n][i := e];
    } else {
      assert prayers[i := e][..n] == prayers[..n];
    }
  }
}
