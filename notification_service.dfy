/** The reminder cascade (`NotificationService`): fire instants, identifiers and
    message texts. Delivery to the notification center is outside the model; the
    scheduling method returns the requests it would add. */
module NotificationService {
  import opened Text
  import opened PrayerTypes
  import opened PrayerTimeService

  /** Fractions of the window at which reminders fire: 0, 0.25, 0.5 and 0.85. */
  const CascadePoints: seq<real> := [0.0, 0.25, 0.5, 0.85]

  /** Minimum time, in seconds, between the last reminder and the window's end. */
  const LastReminderFloor: real := 1800.0

  const Title := "SalahStreak"
  const Category := "PRAYER_REMINDER"

  /** One `UNNotificationRequest` as the scheduler builds it. */
  datatype Reminder = Reminder(identifier: string, prayer: PrayerType, fireAt: real,
                               cascadeIndex: nat, title: string, body: string, category: string)

  /** Reminder `index` fires at `start + fraction × (end − start)`. */
  function FireAt(w: PrayerWindow, index: nat): real
    requires index < |CascadePoints|
  {
    w.start as real + (w.end - w.start) as real * CascadePoints[index]
  }

  /** `"<prayer>_<yyyy-MM-dd>_<index>"`. */
  function Identifier(p: PrayerType, dateString: string, index: nat): (id: string)
    ensures |id| > 0 && id[0] == RawValue(p)[0]
    ensures index < 10 ==> id[|id| - 1] == DigitChar(index)
  {
    RawValue(p) + "_" + dateString + "_" + NatToString(index)
  }

  /** The four message variants, chosen by cascade index. */
  function Messages(p: PrayerType): (ms: seq<string>)
    ensures |ms| == 4
  {
    var name := DisplayName(p);
    [ "It's time for " + name + " prayer.",
      "Don't forget your " + name + " prayer.",
      name + " prayer \U{2014} don't let it slip.",
      "Last reminder: " + name + " prayer ends soon." ]
  }

  /** Whether reminder `index` survives both filters: the 30-minute floor on the
      last point, and never at or before `now`. */
  predicate Survives(w: PrayerWindow, index: nat, now: int)
    requires index < |CascadePoints|
  {
    && (index == |CascadePoints| - 1 ==> w.end as real - FireAt(w, index) >= LastReminderFloor)
    && FireAt(w, index) > now as real
  }

  function MakeReminder(w: PrayerWindow, dateString: string, index: nat): Reminder
    requires index < |CascadePoints|
  {
    Reminder(Identifier(w.prayer, dateString, index), w.prayer, FireAt(w, index), index,
             Title, Messages(w.prayer)[index], Category)
  }

  /** The cascade indices below `n` that survive the filters, in increasing
      order: exactly the surviving ones. */
  function SurvivingIndices(w: PrayerWindow, now: int, n: nat): (r: seq<nat>)
    requires n <= |CascadePoints|
    ensures |r| <= n
    ensures forall k :: 0 <= k < |r| ==> r[k] < n && Survives(w, r[k], now)
    ensures forall k, l :: 0 <= k < l < |r| ==> r[k] < r[l]
    ensures forall i :: 0 <= i < n && Survives(w, i, now) ==> i in r
  {
    if n == 0 then []
    else
      var prev := SurvivingIndices(w, now, n - 1);
      if Survives(w, n - 1, now) then
        var r := prev + [n - 1];
        assert forall k :: 0 <= k < |prev| ==> r[k] == prev[k];
        assert r[|prev|] == n - 1;
        r
      else prev
  }

  /** The reminders for the given cascade indices of one window. */
  function RemindersAt(w: PrayerWindow, dateString: string, indices: seq<nat>): (rs: seq<Reminder>)
    requires forall k :: 0 <= k < |indices| ==> indices[k] < |CascadePoints|
    ensures |rs| == |indices|
    ensures forall k :: 0 <= k < |rs| ==> rs[k] == MakeReminder(w, dateString, indices[k])
  {
    seq(|indices|, k requires 0 <= k < |indices| => MakeReminder(w, dateString, indices[k]))
  }

  function WindowReminders(w: PrayerWindow, dateString: string, now: int): seq<Reminder> {
    RemindersAt(w, dateString, SurvivingIndices(w, now, |CascadePoints|))
  }

  /** All reminders for a list of windows, window by window. */
  function Cascade(windows: seq<PrayerWindow>, dateString: string, now: int): seq<Reminder> {
    if windows == [] then []
    else Cascade(windows[..|windows| - 1], dateString, now) + WindowReminders(windows[|windows| - 1], dateString, now)
  }

  /** Per window: at most four reminders, indices from 0..3 in increasing order,
      reminder `i` at fraction `i` of the window, none at or before `now`, and
      an index is present exactly when it survives the filters. */
  lemma WindowRemindersSpec(w: PrayerWindow, dateString: string, now: int)
    ensures var rs := WindowReminders(w, dateString, now);
            && |rs| <= 4
            && (forall k :: 0 <= k < |rs| ==> rs[k].cascadeIndex < 4 && rs[k].prayer == w.prayer)
            && (forall k, l :: 0 <= k < l < |rs| ==> rs[k].cascadeIndex < rs[l].cascadeIndex)
            && (forall k :: 0 <= k < |rs| ==> rs[k].fireAt == FireAt(w, rs[k].cascadeIndex) && rs[k].fireAt > now as real)
            && (forall k :: 0 <= k < |rs| ==> rs[k].identifier == Identifier(w.prayer, dateString, rs[k].cascadeIndex))
            && (forall k :: 0 <= k < |rs| ==> rs[k].body == Messages(w.prayer)[rs[k].cascadeIndex])
            && (forall i :: 0 <= i < 4 ==> (Survives(w, i, now) <==> exists k :: 0 <= k < |rs| && rs[k].cascadeIndex == i))
  {
    var idx := SurvivingIndices(w, now, 4);
    var rs := WindowReminders(w, dateString, now);
    forall i | 0 <= i < 4 && Survives(w, i, now)
      ensures exists k :: 0 <= k < |rs| && rs[k].cascadeIndex == i
    {
      var k :| 0 <= k < |idx| && idx[k] == i;
      assert rs[k].cascadeIndex == i;
    }
  }

  /** The floor on the last point: 15% of the window must be at least 1800 s, so
      the 0.85 reminder can only fire in windows of at least 200 minutes. */
  lemma LastPointFloor(w: PrayerWindow)
    ensures w.end as real - FireAt(w, 3) >= LastReminderFloor <==> w.end - w.start >= 12000
  {
  }

  /** A one-hour and a three-hour window both lose the 0.85 reminder; a
      200-minute window keeps it once it is in the future. */
  lemma LastPointExamples(start: int, now: int, dateString: string)
    ensures !Survives(PrayerWindow(Fajr, start, start + 3600, start), 3, now)
    ensures !Survives(PrayerWindow(Fajr, start, start + 10800, start), 3, now)
    ensures now < start + 10200 ==> Survives(PrayerWindow(Fajr, start, start + 12000, start), 3, now)
  {
  }

  /** Identifiers with cascade indices below 10 determine prayer and index:
      distinct prayers or indices give distinct identifiers, on any dates. */
  lemma IdentifierInjective(p: PrayerType, q: PrayerType, d1: string, d2: string, i: nat, j: nat)
    requires i < 10 && j < 10
    requires Identifier(p, d1, i) == Identifier(q, d2, j)
    ensures p == q && i == j
  {
    RawValueFirstLetterDistinct(p, q);
    var a, b := Identifier(p, d1, i), Identifier(q, d2, j);
    assert a[|a| - 1] == b[|b| - 1];
  }

  /** The identifiers `cancelNotifications` removes: indices 0 to 3. */
  function CancelIdentifiers(p: PrayerType, dateString: string): (ids: seq<string>)
    ensures |ids| == 4
    ensures forall i :: 0 <= i < 4 ==> ids[i] == Identifier(p, dateString, i)
  {
    seq(4, i requires 0 <= i < 4 => Identifier(p, dateString, i))
  }

  /** Cancellation covers whatever was scheduled for that prayer and date, and
      never names another prayer's reminders. */
  lemma CancelCoversScheduled(w: PrayerWindow, dateString: string, now: int, q: PrayerType, i: nat)
    ensures forall r :: r in WindowReminders(w, dateString, now) ==> r.identifier in CancelIdentifiers(w.prayer, dateString)
    ensures q != w.prayer ==> Identifier(q, dateString, i) !in CancelIdentifiers(w.prayer, dateString)
  {
    WindowRemindersSpec(w, dateString, now);
    var rs := WindowReminders(w, dateString, now);
    forall r | r in rs ensures r.identifier in CancelIdentifiers(w.prayer, dateString) {
      var k :| 0 <= k < |rs| && rs[k] == r;
      assert CancelIdentifiers(w.prayer, dateString)[r.cascadeIndex] == r.identifier;
    }
    if q != w.prayer && Identifier(q, dateString, i) in CancelIdentifiers(w.prayer, dateString) {
      var k :| 0 <= k < 4 && CancelIdentifiers(w.prayer, dateString)[k] == Identifier(q, dateString, i);
      RawValueFirstLetterDistinct(q, w.prayer);
    }
  }

  /** The four message variants differ from one another. */
  lemma MessagesDistinct(p: PrayerType)
    ensures forall i, j :: 0 <= i < j < 4 ==> Messages(p)[i] != Messages(p)[j]
  {
    DisplayNameCapitalizesRaw(p);
    var ms := Messages(p);
    var name := DisplayName(p);
    assert ms[2][0] == name[0] && ms[2][1] == name[1];
    assert ms[0][0] == 'I' && ms[0][1] == 't';
    assert ms[1][0] == 'D' && ms[1][1] == 'o';
    assert ms[3][0] == 'L';
  }

  predicate DistinctIdentifiers(rs: seq<Reminder>) {
    forall k, l :: 0 <= k < l < |rs| ==> rs[k].identifier != rs[l].identifier
  }

  /** Reminders for different windows with distinct prayers have distinct
      identifiers, so no request replaces another. */
  lemma {:induction false} CascadeIdentifiersDistinct(windows: seq<PrayerWindow>, dateString: string, now: int)
    requires forall a, b :: 0 <= a < b < |windows| ==> windows[a].prayer != windows[b].prayer
    ensures DistinctIdentifiers(Cascade(windows, dateString, now))
    ensures forall r :: r in Cascade(windows, dateString, now) ==>
              exists a :: 0 <= a < |windows| && r.prayer == windows[a].prayer && r.cascadeIndex < 4 &&
                          r.identifier == Identifier(r.prayer, dateString, r.cascadeIndex)
  {
    if windows != [] {
      var init := windows[..|windows| - 1];
      var w := windows[|windows| - 1];
      CascadeIdentifiersDistinct(init, dateString, now);
      WindowIdentifiers(w, dateString, now);
      var front := Cascade(init, dateString, now);
      var back := WindowReminders(w, dateString, now);
      forall r | r in front ensures r.prayer != w.prayer {
        var a :| 0 <= a < |init| && r.prayer == init[a].prayer;
        assert init[a] == windows[a];
      }
      AppendDistinct(front, back, w.prayer, dateString);
      forall r | r in front + back
        ensures exists a :: 0 <= a < |windows| && r.prayer == windows[a].prayer && r.cascadeIndex < 4 &&
                            r.identifier == Identifier(r.prayer, dateString, r.cascadeIndex)
      {
        if r in front {
          var a :| 0 <= a < |init| && r.prayer == init[a].prayer && r.cascadeIndex < 4 &&
                   r.identifier == Identifier(r.prayer, dateString, r.cascadeIndex);
          assert init[a] == windows[a];
        } else {
          var k :| 0 <= k < |back| && back[k] == r;
          assert windows[|windows| - 1] == w;
        }
      }
    }
  }

  /** The identifying part of `WindowRemindersSpec`, without the fire instants. */
  lemma WindowIdentifiers(w: PrayerWindow, dateString: string, now: int)
    ensures var rs := WindowReminders(w, dateString, now);
            && (forall k :: 0 <= k < |rs| ==>
                  rs[k].prayer == w.prayer && rs[k].cascadeIndex < 4 &&
                  rs[k].identifier == Identifier(w.prayer, dateString, rs[k].cascadeIndex))
            && (forall k, l :: 0 <= k < l < |rs| ==> rs[k].cascadeIndex < rs[l].cascadeIndex)
  {
    var idx := SurvivingIndices(w, now, 4);
    var rs := WindowReminders(w, dateString, now);
    assert forall k :: 0 <= k < |rs| ==> rs[k].cascadeIndex == idx[k];
  }

  /** Appending one window's reminders, whose prayer no earlier reminder has and
      whose indices increase, keeps identifiers distinct. */
  lemma AppendDistinct(front: seq<Reminder>, back: seq<Reminder>, p: PrayerType, dateString: string)
    requires DistinctIdentifiers(front)
    requires forall r :: r in front ==>
      r.prayer != p && r.cascadeIndex < 4 && r.identifier == Identifier(r.prayer, dateString, r.cascadeIndex)
    requires forall k :: 0 <= k < |back| ==>
      back[k].prayer == p && back[k].cascadeIndex < 4 && back[k].identifier == Identifier(p, dateString, back[k].cascadeIndex)
    requires forall k, l :: 0 <= k < l < |back| ==> back[k].cascadeIndex < back[l].cascadeIndex
    ensures DistinctIdentifiers(front + back)
  {
    var rs := front + back;
    forall k, l | 0 <= k < l < |rs| ensures rs[k].identifier != rs[l].identifier {
      if l >= |front| {
        var r1, r2 := rs[k], rs[l];
        assert r2 == back[l - |front|];
        if k >= |front| {
          assert r1 == back[k - |front|];
        } else {
          assert r1 == front[k];
        }
        if r1.identifier == r2.identifier {
          IdentifierInjective(r1.prayer, r2.prayer, dateString, dateString, r1.cascadeIndex, r2.cascadeIndex);
        }
      } else {
        assert rs[k] == front[k] && rs[l] == front[l];
      }
    }
  }

  /** One more cascade index extends the window's reminders by at most that one. */
  lemma RemindersStep(w: PrayerWindow, dateString: string, now: int, n: nat)
    requires n < |CascadePoints|
    ensures RemindersAt(w, dateString, SurvivingIndices(w, now, n + 1)) ==
            RemindersAt(w, dateString, SurvivingIndices(w, now, n)) +
            (if Survives(w, n, now) then [MakeReminder(w, dateString, n)] else [])
  {
  }

  /** The inner loop of `schedulePrayerNotifications`: the cascade points of one
      window, skipping those the two filters reject. */
  method ScheduleWindow(window: PrayerWindow, dateString: string, now: int) returns (requests: seq<Reminder>)
    ensures requests == WindowReminders(window, dateString, now)
  {
    requests := [];
    var duration := (window.end - window.start) as real;
    for index := 0 to |CascadePoints|
      invariant requests == RemindersAt(window, dateString, SurvivingIndices(window, now, index))
    {
      RemindersStep(window, dateString, now, index);
      var fireAt := window.start as real + duration * CascadePoints[index];
      assert fireAt == FireAt(window, index);
      if index == |CascadePoints| - 1 {
        var remaining := window.end as real - fireAt;
        if remaining < LastReminderFloor { continue; }
      }
      if fireAt <= now as real { continue; }
      var identifier := Identifier(window.prayer, dateString, index);
      requests := requests + [Reminder(identifier, window.prayer, fireAt, index, Title, Messages(window.prayer)[index], Category)];
    }
  }

  /** `schedulePrayerNotifications(for:on:)`: every window's surviving cascade
      points, window by window. Returns the requests it adds, in order. */
  method SchedulePrayerNotifications(windows: seq<PrayerWindow>, dateString: string, now: int)
    returns (requests: seq<Reminder>)
    ensures requests == Cascade(windows, dateString, now)
  {
    requests := [];
    for w := 0 to |windows|
      invariant requests == Cascade(windows[..w], dateString, now)
    {
      var windowRequests := ScheduleWindow(windows[w], dateString, now);
      requests := requests + windowRequests;
      assert windows[..w + 1][..w] == windows[..w];
    }
    assert windows[..|windows|] == windows;
  }
}
