/** The widget's timeline provider (`SalahStreakWidgetProvider`): which instants
    the widget is refreshed at, each carrying the same snapshot. */
module WidgetProvider {
  import opened Wrappers
  import opened Seqs
  import opened WidgetData

  /** The fallback refresh, 15 minutes after `now`. */
  const FallbackSeconds := 900

  datatype WidgetEntry = WidgetEntry(date: int, prayerData: Option<WidgetPrayerData>)

  /** `placeholder`: an entry at `now` with no data. */
  function Placeholder(now: int): (e: WidgetEntry)
    ensures e.date == now && e.prayerData.None?
  {
    WidgetEntry(now, None)
  }

  /** The instants of the prayers, in list order, that lie strictly after `now`:
      each prayer's window end, then its scheduled time. */
  function Upcoming(prayers: seq<WidgetPrayerEntry>, now: int): seq<int> {
    if prayers == [] then []
    else
      var p := prayers[|prayers| - 1];
      Upcoming(prayers[..|prayers| - 1], now)
        + (if p.windowEnd > now then [p.windowEnd] else [])
        + (if p.scheduledTime > now then [p.scheduledTime] else [])
  }

  /** Every upcoming instant is after `now` and belongs to some prayer, and there
      are at most two per prayer. */
  lemma {:induction false} UpcomingBounds(prayers: seq<WidgetPrayerEntry>, now: int)
    ensures |Upcoming(prayers, now)| <= 2 * |prayers|
    ensures forall t :: t in Upcoming(prayers, now) ==> t > now
    ensures forall t :: t in Upcoming(prayers, now) ==>
      exists i :: 0 <= i < |prayers| && (t == prayers[i].windowEnd || t == prayers[i].scheduledTime)
  {
    if prayers != [] {
      var n := |prayers| - 1;
      UpcomingBounds(prayers[..n], now);
      forall t | t in Upcoming(prayers, now)
        ensures exists i :: 0 <= i < |prayers| && (t == prayers[i].windowEnd || t == prayers[i].scheduledTime)
      {
        if t in Upcoming(prayers[..n], now) {
          var i :| 0 <= i < n && (t == prayers[..n][i].windowEnd || t == prayers[..n][i].scheduledTime);
          assert prayers[..n][i] == prayers[i];
        } else {
          assert t == prayers[n].windowEnd || t == prayers[n].scheduledTime;
        }
      }
    }
  }

  /** Every window end and scheduled time after `now` is among the upcoming instants. */
  lemma {:induction false} UpcomingComplete(prayers: seq<WidgetPrayerEntry>, now: int, i: nat)
    requires i < |prayers|
    ensures prayers[i].windowEnd > now ==> prayers[i].windowEnd in Upcoming(prayers, now)
    ensures prayers[i].scheduledTime > now ==> prayers[i].scheduledTime in Upcoming(prayers, now)
  {
    var n := |prayers| - 1;
    if i < n {
      UpcomingComplete(prayers[..n], now, i);
      assert prayers[..n][i] == prayers[i];
    }
  }

  function Identity(t: int): int {
    t
  }

  /** The refresh instants before sorting. */
  function RefreshDates(data: Option<WidgetPrayerData>, now: int): seq<int> {
    [now] + (if data.Some? then Upcoming(data.value.prayers, now) else []) + [now + FallbackSeconds]
  }

  function Dates(entries: seq<WidgetEntry>): seq<int> {
    seq(|entries|, i requires 0 <= i < |entries| => entries[i].date)
  }

  /** The refresh instants are all at or after `now`, and there are two more of
      them than upcoming prayer instants. */
  lemma RefreshDatesBounds(data: Option<WidgetPrayerData>, now: int)
    ensures forall t :: t in RefreshDates(data, now) ==> t >= now
    ensures |RefreshDates(data, now)| == 2 + (if data.Some? then |Upcoming(data.value.prayers, now)| else 0)
    ensures data.Some? ==> |RefreshDates(data, now)| <= 2 + 2 * |data.value.prayers|
  {
    if data.Some? {
      UpcomingBounds(data.value.prayers, now);
    }
  }

  /** The date list `timeline` builds before sorting it. */
  method CollectDates(now: int, data: Option<WidgetPrayerData>) returns (dates: seq<int>)
    ensures dates == RefreshDates(data, now)
  {
    dates := [now];
    if data.Some? {
      var prayers := data.value.prayers;
      for k := 0 to |prayers|
        invariant dates == [now] + Upcoming(prayers[..k], now)
      {
        var p := prayers[k];
        assert prayers[..k + 1][..k] == prayers[..k];
        if p.windowEnd > now {
          dates := dates + [p.windowEnd];
        }
        if p.scheduledTime > now {
          dates := dates + [p.scheduledTime];
        }
      }
      assert prayers[..|prayers|] == prayers;
    }
    dates := dates + [now + FallbackSeconds];
  }

  /** One timeline entry per date, each carrying `data`. */
  function Stamp(dates: seq<int>, data: Option<WidgetPrayerData>): (entries: seq<WidgetEntry>)
    ensures Dates(entries) == dates
    ensures forall i :: 0 <= i < |entries| ==> entries[i].date == dates[i] && entries[i].prayerData == data
  {
    seq(|dates|, i requires 0 <= i < |dates| => WidgetEntry(dates[i], data))
  }

  /** Sorting keeps every date's lower bound. */
  lemma SortedFloor(dates: seq<int>, now: int)
    requires forall t :: t in dates ==> t >= now
    ensures forall i :: 0 <= i < |SortBy(dates, Identity)| ==> SortBy(dates, Identity)[i] >= now
  {
    var sorted := SortBy(dates, Identity);
    assert multiset(sorted) == multiset(dates);
    forall i | 0 <= i < |sorted| ensures sorted[i] >= now {
      var t := sorted[i];
      assert t in multiset(sorted);
      assert t in dates;
    }
  }

  /** `timeline`: `now`, every prayer instant after `now`, and the 15-minute
      fallback, in ascending order, each entry carrying the snapshot `data`. */
  method Timeline(now: int, data: Option<WidgetPrayerData>) returns (entries: seq<WidgetEntry>)
    ensures multiset(Dates(entries)) == multiset(RefreshDates(data, now))
    ensures forall i, j :: 0 <= i < j < |entries| ==> entries[i].date <= entries[j].date
    ensures forall i :: 0 <= i < |entries| ==> entries[i].date >= now && entries[i].prayerData == data
    ensures |entries| == 2 + (if data.Some? then |Upcoming(data.value.prayers, now)| else 0)
    ensures data.None? ==> |entries| == 2
    ensures data.Some? ==> |entries| <= 2 + 2 * |data.value.prayers|
  {
    var dates := CollectDates(now, data);
    RefreshDatesBounds(data, now);
    SortedFloor(dates, now);
    var sorted := SortBy(dates, Identity);
    assert forall i, j :: 0 <= i < j < |sorted| ==> Identity(sorted[i]) <= Identity(sorted[j]);
    entries := Stamp(sorted, data);
  }
}
