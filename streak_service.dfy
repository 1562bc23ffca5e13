/** End-of-day streak bookkeeping (`StreakService.processDayEnd`). */
module StreakService {
  import opened Models

  /** The three counters the reducer reads and writes. */
  datatype Streak = Streak(current: int, best: int, freezes: int)

  /** What closing a day yields: the new counters, and whether the day gets
      `streakProtected = true` (when false the flag is left as it was). */
  datatype DayEndOutcome = DayEndOutcome(streak: Streak, protects: bool)

  /** Counters a well-formed stats record keeps: no negative streak, the best
      streak is at least the current one, no negative freeze balance. */
  predicate ValidStreak(s: Streak) {
    0 <= s.current <= s.best && s.freezes >= 0
  }

  function Max(a: int, b: int): int {
    if a >= b then a else b
  }

  /** The reducer on values: perfect day, qada-covered day, freeze, or reset.
      Swift's truncating `%` and Dafny's `%` agree on whether a number is a
      multiple of 7, so the freeze test is the same for negative streaks. */
  function DayEnd(s: Streak, perfect: bool, safe: bool): (r: DayEndOutcome)
    ensures s.freezes >= 0 ==> r.streak.freezes >= 0
    ensures ValidStreak(s) ==> ValidStreak(r.streak)
    ensures r.streak.best >= s.best
  {
    if perfect then
      var c := s.current + 1;
      DayEndOutcome(Streak(c, if c > s.best then c else s.best,
                           if c % 7 == 0 then s.freezes + 1 else s.freezes), false)
    else if safe then
      DayEndOutcome(s, true)
    else if s.freezes > 0 then
      DayEndOutcome(s.(freezes := s.freezes - 1), true)
    else
      DayEndOutcome(s.(current := 0), false)
  }

  /** A perfect day extends the streak by one, raises the best streak to it if
      needed, and grants a freeze exactly when the new streak is a multiple of 7. */
  lemma PerfectDayExtends(s: Streak, safe: bool)
    ensures var r := DayEnd(s, true, safe);
            && r.streak.current == s.current + 1
            && r.streak.best == Max(s.best, s.current + 1)
            && (r.streak.freezes == s.freezes + 1 <==> (s.current + 1) % 7 == 0)
            && (r.streak.freezes == s.freezes <==> (s.current + 1) % 7 != 0)
            && !r.protects
  {
  }

  /** A day covered by qada protects the day and changes no counter. */
  lemma QadaDayProtects(s: Streak)
    ensures DayEnd(s, false, true) == DayEndOutcome(s, true)
  {
  }

  /** A missed day with a freeze in stock spends exactly one and keeps the streak. */
  lemma MissedDayUsesFreeze(s: Streak)
    requires s.freezes > 0
    ensures var r := DayEnd(s, false, false);
            && r.streak.freezes == s.freezes - 1
            && r.streak.current == s.current && r.streak.best == s.best
            && r.protects
  {
  }

  /** A missed day without freezes resets the streak; the best streak, the
      freezes and the protected flag stay as they were. */
  lemma MissedDayResets(s: Streak)
    requires s.freezes <= 0
    ensures var r := DayEnd(s, false, false);
            && r.streak == s.(current := 0)
            && !r.protects
  {
  }

  /** Closes a run of days in order; each day is (isPerfect, isStreakSafe). */
  function CloseDays(s: Streak, days: seq<(bool, bool)>): Streak {
    if days == [] then s
    else
      var last := days[|days| - 1];
      DayEnd(CloseDays(s, days[..|days| - 1]), last.0, last.1).streak
  }

  /** Every run of days keeps well-formed counters well-formed, and the streak
      grows by at most one per day. */
  lemma {:induction false} CloseDaysValid(s: Streak, days: seq<(bool, bool)>)
    requires ValidStreak(s)
    ensures ValidStreak(CloseDays(s, days))
    ensures CloseDays(s, days).current <= s.current + |days|
  {
    if days != [] {
      CloseDaysValid(s, days[..|days| - 1]);
    }
  }

  lemma SevenStep(n: int)
    requires n >= 0
    ensures (n + 1) / 7 == n / 7 + (if (n + 1) % 7 == 0 then 1 else 0)
  {
  }

  /** A run of perfect days from a non-negative streak: the streak grows by the
      run's length and one freeze is granted per multiple of 7 passed. */
  lemma {:induction false} PerfectRun(s: Streak, days: seq<(bool, bool)>)
    requires s.current >= 0
    requires forall i :: 0 <= i < |days| ==> days[i].0
    ensures CloseDays(s, days).current == s.current + |days|
    ensures CloseDays(s, days).best == Max(s.best, if days == [] then s.best else s.current + |days|)
    ensures CloseDays(s, days).freezes == s.freezes + (s.current + |days|) / 7 - s.current / 7
  {
    if days != [] {
      PerfectRun(s, days[..|days| - 1]);
      SevenStep(s.current + |days| - 1);
    }
  }

  /** `processDayEnd` on the stored records. Only the three counters and the
      day's `streakProtected` flag may change. */
  method ProcessDayEnd(dailyLog: DailyLog, stats: UserStats)
    modifies dailyLog`streakProtected, stats`currentStreak, stats`bestStreak, stats`freezesAvailable
    ensures var r := DayEnd(Streak(old(stats.currentStreak), old(stats.bestStreak), old(stats.freezesAvailable)),
                            IsPerfect(dailyLog.entries), IsStreakSafe(dailyLog.entries));
            && Streak(stats.currentStreak, stats.bestStreak, stats.freezesAvailable) == r.streak
            && dailyLog.streakProtected == (old(dailyLog.streakProtected) || r.protects)
    ensures dailyLog.entries == old(dailyLog.entries)
    ensures stats.totalPrayers == old(stats.totalPrayers) && stats.badgesUnlocked == old(stats.badgesUnlocked)
  {
    if IsPerfect(dailyLog.entries) {
      stats.currentStreak := stats.currentStreak + 1;
      if stats.currentStreak > stats.bestStreak {
        stats.bestStreak := stats.currentStreak;
      }
      if stats.currentStreak % 7 == 0 {
        stats.freezesAvailable := stats.freezesAvailable + 1;
      }
    } else if IsStreakSafe(dailyLog.entries) {
      dailyLog.streakProtected := true;
    } else {
      if stats.freezesAvailable > 0 {
        stats.freezesAvailable := stats.freezesAvailable - 1;
        dailyLog.streakProtected := true;
      } else {
        stats.currentStreak := 0;
      }
    }
  }
}
