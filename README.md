# SalahStreak bookkeeping, in Dafny

This project models the bookkeeping core of SalahStreak, an iOS app that tracks the five daily
prayers (Fajr, Dhuhr, Asr, Maghrib, Isha) and keeps a streak of perfect days. It covers:

- **The day aggregate.** A `DailyLog` holds one entry per prayer, each pending, done, missed
  or made up later (qada). The model defines its derived counts: `isPerfect`,
  `completedCount` and `isStreakSafe`.
- **The end-of-day streak reducer** (`StreakService.processDayEnd`): perfect days, days
  covered by qada, streak freezes and resets.
- **Badge awarding** over the fixed six-badge catalog (`BadgeService`), and the badge
  gallery built from it (`BadgesViewModel`).
- **The reminder cascade** (`NotificationService`). Each prayer window gets up to four
  reminders, at 0, 25, 50 and 85 % of the window. The last one is dropped when fewer than
  30 minutes of the window would remain, and no reminder is scheduled in the past.
  Identifiers have the form `<prayer>_<yyyy-MM-dd>_<index>`, and cancellation removes all
  four of a prayer's identifiers.
- **Window assembly** (`PrayerTimeService.prayerWindows`), with the astronomical
  calculator as a parameter.
- **The dashboard** (`DashboardViewModel`): the live card state of each prayer,
  `markPrayerDone` and `generateTodayEntries`.
- **Notification actions** (`AppDelegate` in `SalahStreakApp.swift`): mark done, snooze,
  and the dispatch between them.
- **The home-screen widget**: the shared snapshot (`WidgetPrayerData`), the mark-done
  intent, the timeline of refresh instants, and the countdown text.
- **Statistics and onboarding**: the statistics screen (summary, weekly grid, per-prayer
  breakdown) and the three-step onboarding counter.

How the Swift code maps to Dafny:

- Records the code changes in place are classes: `DailyLog`, `UserStats` and the view
  models.
- Values are datatypes: entries, cards, badges, windows, reminders and widget snapshots.
- A Swift optional reference (`DailyLog?`, `UserStats?`) is a nullable Dafny reference.
- Instants are whole seconds (`int`) and days are day numbers.
- The `yyyy-MM-dd` date string is an input.
- Cascade fractions are exact reals.
- The current time is always a parameter named `now`.
- Each method is proved against a function that specifies it. The properties the code
  promises are then proved about those functions as lemmas.

A 3-hour window drops the 85 % reminder: 85 % of it leaves 1620 s, under the 1800 s
floor (`NotificationService.LastPointFloor`, `NotificationService.LastPointExamples`). The
last reminder survives only in windows of at least 12000 s.

## Model

| member | source | states |
|---|---|---|
| Models.NewEntry | SalahStreak/Core/Models/SwiftData/PrayerEntry.swift:12-25 | A new entry is pending, from the app and not performed, and keeps the prayer, scheduled date and window it was given |
| Models.DoneAtMostCompleted | SalahStreak/Core/Models/SwiftData/DailyLog.swift:12-13 | The done count is at most the completed count, which is at most the number of entries |
| Models.CompletedCountFull | SalahStreak/Core/Models/SwiftData/DailyLog.swift:13 | `completedCount` equals the number of entries exactly when every entry is done or qada |
| Models.DoneCountFull | SalahStreak/Core/Models/SwiftData/DailyLog.swift:12 | The done count equals the number of entries exactly when every entry is done |
| Models.StreakSafeIffFiveCompleted | SalahStreak/Core/Models/SwiftData/DailyLog.swift:13-14 | A day is streak-safe exactly when it has five entries and a completed count of five |
| Models.PerfectImpliesStreakSafe | SalahStreak/Core/Models/SwiftData/DailyLog.swift:12-14 | With five entries, a perfect day is streak-safe, and a streak-safe day has completed count 5 |
| Models.PerfectWithSixEntries | SalahStreak/Core/Models/SwiftData/DailyLog.swift:12-14 | `isPerfect` only counts done entries: six entries with five done are perfect but not streak-safe |
| Models.CountsAfterUpdate | SalahStreak/Core/Models/SwiftData/DailyLog.swift:12-13 | Replacing one entry changes the done and completed counts by exactly the difference that entry makes |
| Models.MarkFirstEffect | SalahStreak/Features/Dashboard/DashboardViewModel.swift:46-49 | Marking the first match: it becomes done with the given time and source and keeps its prayer and window; all other entries are unchanged; the done and completed counts rise by one unless it already counted; with no match nothing changes |
| Models.DailyLog.constructor | SalahStreak/Core/Models/SwiftData/DailyLog.swift:8-18 | A new log has its date, no entries, and is not protected |
| Models.UserStats.constructor | SalahStreak/Core/Models/SwiftData/UserStats.swift:5-10 | All counters start at 0, no badge is unlocked, onboarding is not completed |
| Models.MarkFirstEntry | SalahStreak/SalahStreakApp.swift:140-144 | Updates the log's entries in place to the marked list, and reports whether an entry matched |
| Models.CountPrayer | SalahStreak/Features/Dashboard/DashboardViewModel.swift:59 | `totalPrayers` rises by exactly one |
| StreakService.DayEnd | SalahStreak/Core/Services/StreakService.swift:6-28 | Freezes never go negative, a well-formed streak (0 ≤ current ≤ best) stays well-formed, and the best streak never decreases |
| StreakService.PerfectDayExtends | SalahStreak/Core/Services/StreakService.swift:7-15 | A perfect day adds one to the streak and sets best to max(best, new streak). A freeze is granted exactly when the new streak is a multiple of 7. The day is not protected |
| StreakService.QadaDayProtects | SalahStreak/Core/Services/StreakService.swift:16-18 | A non-perfect streak-safe day protects the day and changes no counter |
| StreakService.MissedDayUsesFreeze | SalahStreak/Core/Services/StreakService.swift:20-23 | With a freeze in stock, a missed day spends exactly one freeze, keeps current and best streak, and protects the day |
| StreakService.MissedDayResets | SalahStreak/Core/Services/StreakService.swift:24-26 | Without freezes, a missed day resets the streak to 0 and changes nothing else, including the protected flag |
| StreakService.CloseDaysValid | SalahStreak/Core/Services/StreakService.swift:6-28 | Over any run of days, well-formed counters stay well-formed and the streak grows by at most one per day |
| StreakService.PerfectRun | SalahStreak/Core/Services/StreakService.swift:7-15 | A run of n perfect days adds n to the streak, raises best to at least the new streak, and grants one freeze per multiple of 7 passed |
| StreakService.ProcessDayEnd | SalahStreak/Core/Services/StreakService.swift:6-28 | The stored counters and `streakProtected` become the reducer's result (the flag is only ever set); entries, `totalPrayers` and `badgesUnlocked` are untouched |
| BadgeService.AwardFrom | SalahStreak/Core/Services/BadgeService.swift:17-26 | The new unlocked list is the old one with the awarded ids appended in order. At most one badge per catalog entry is awarded, and each is marked unlocked |
| BadgeService.CatalogIdsDistinct | SalahStreak/Core/Services/BadgeService.swift:5-12 | The catalog has six entries with pairwise distinct ids |
| BadgeService.AwardMatchesEligible | SalahStreak/Core/Services/BadgeService.swift:17-24 | Growing the list inside the loop changes nothing: the awarded badges are exactly the not-owned catalog entries whose rule holds, in catalog order |
| BadgeService.EligibleMembers | SalahStreak/Core/Services/BadgeService.swift:18-21 | A catalog entry is eligible exactly when it is not owned and its rule holds |
| BadgeService.AwardComplete | SalahStreak/Core/Services/BadgeService.swift:18-38 | A badge is newly awarded exactly when it was not already unlocked and its rule holds, so an owned badge is never returned again |
| BadgeService.AwardFresh | SalahStreak/Core/Services/BadgeService.swift:18-23 | No awarded badge was already owned, and the awarded list has no duplicates |
| BadgeService.AwardIdempotent | SalahStreak/Core/Services/BadgeService.swift:17-26 | A second call with the same stats and day awards nothing and leaves the unlocked list as it is |
| BadgeService.EarlyBirdNeverAwarded | SalahStreak/Core/Services/BadgeService.swift:37 | `early_bird` is never awarded |
| BadgeService.Thresholds | SalahStreak/Core/Services/BadgeService.swift:33-38 | For a badge not yet owned: `first_prayer` iff ≥ 1 prayer; `consistent` iff ≥ 50; `week_warrior` iff streak ≥ 7; `month_master` iff streak ≥ 30; `perfect_day` iff the day is perfect |
| BadgeService.CheckAndAwardBadges | SalahStreak/Core/Services/BadgeService.swift:14-27 | The loop appends to `badgesUnlocked` and returns exactly what the awarding walk yields. No other stats field changes |
| NotificationService.Identifier | SalahStreak/Core/Services/NotificationService.swift:46 | The identifier starts with the prayer's first letter and ends with the index digit |
| NotificationService.Messages | SalahStreak/Core/Services/NotificationService.swift:73-78 | There are exactly four message variants |
| NotificationService.SurvivingIndices | SalahStreak/Core/Services/NotificationService.swift:34-44 | The surviving cascade indices are increasing, each passes both filters, and every index that passes is present |
| NotificationService.RemindersAt | SalahStreak/Core/Services/NotificationService.swift:46-52 | Building block of the cascade; its own contract only unfolds its body. What a window's reminders are (fire instants, identifiers, messages, which indices survive) is stated by `NotificationService.WindowRemindersSpec` |
| NotificationService.WindowRemindersSpec | SalahStreak/Core/Services/NotificationService.swift:30-53 | Per window: at most four reminders, with indices 0..3 increasing. Reminder i fires at start + fraction[i]·(end − start), after `now`, with identifier `<prayer>_<date>_<i>` and message i. An index is present iff it survives the filters |
| NotificationService.LastPointFloor | SalahStreak/Core/Services/NotificationService.swift:38-41 | The last point is at least 1800 s before the window end exactly when the window is at least 12000 s long |
| NotificationService.LastPointExamples | SalahStreak/Core/Services/NotificationService.swift:38-44 | A 60-minute and a 3-hour window lose the 0.85 reminder; a 200-minute window keeps it while it is in the future |
| NotificationService.IdentifierInjective | SalahStreak/Core/Services/NotificationService.swift:46 | Equal identifiers (indices below 10) have the same prayer and index |
| NotificationService.CancelIdentifiers | SalahStreak/Core/Services/NotificationService.swift:59 | Its own contract only unfolds its body (the identifiers for indices 0..3). The promise that cancellation removes every reminder the prayer scheduled, and none of another prayer's, is `NotificationService.CancelCoversScheduled` |
| NotificationService.CancelCoversScheduled | SalahStreak/Core/Services/NotificationService.swift:57-61 | Every scheduled identifier of a window is among its prayer's cancelled ones, and no other prayer's identifier is |
| NotificationService.MessagesDistinct | SalahStreak/Core/Services/NotificationService.swift:73-80 | The four message variants are pairwise different |
| NotificationService.CascadeIdentifiersDistinct | SalahStreak/Core/Services/NotificationService.swift:30-52 | For windows of distinct prayers, all scheduled identifiers are pairwise distinct. Each has the form `<prayer>_<date>_<index>` for one of the windows' prayers |
| NotificationService.WindowIdentifiers | SalahStreak/Core/Services/NotificationService.swift:46-52 | One window's reminders carry its prayer, indices below 4 in increasing order, and the identifier for that prayer and index |
| NotificationService.ScheduleWindow | SalahStreak/Core/Services/NotificationService.swift:31-53 | The inner loop with its two `continue` filters yields exactly the window's surviving reminders |
| NotificationService.SchedulePrayerNotifications | SalahStreak/Core/Services/NotificationService.swift:27-55 | The nested loop yields exactly the cascade of all windows, window by window |
| PrayerTimeService.ParamsMapping | SalahStreak/Core/Services/PrayerTimeService.swift:10-42 | The method mapping is one-to-one: umMalaysia goes to singapore, muslim_league_of_india to karachi. Hanafi maps to hanafi and everything else to shafi |
| PrayerTimeService.AssembleShape | SalahStreak/Core/Services/PrayerTimeService.swift:13-30 | No raw times give no windows; otherwise five windows in the order fajr..isha, each scheduled at its start |
| PrayerTimeService.AssembleBoundaries | SalahStreak/Core/Services/PrayerTimeService.swift:18-29 | Fajr ends at sunrise; Dhuhr, Asr and Maghrib end where the next starts; Isha ends at tomorrow's Fajr if known, else 6 h after Isha |
| PrayerTimeService.AssembleChronological | SalahStreak/Core/Services/PrayerTimeService.swift:24-30 | Strictly increasing raw times give non-empty windows, in chronological order and not overlapping |
| PrayerTimeService.PrayerWindowsUsesBothDays | SalahStreak/Core/Services/PrayerTimeService.swift:7-22 | With no times for the day the result is empty. When the next day is computable, Isha ends at its Fajr, computed at the same location with the same parameters |
| PrayerTimeService.PrayerWindowsPrayers | SalahStreak/Core/Services/PrayerTimeService.swift:13-30 | Whatever the calculator yields, the result is empty or the five prayers once each in daily order, so no two windows share a prayer |
| PrayerTypes.RawValue | SalahStreak/Core/Models/Enums/PrayerType.swift:3-4 | Every raw value is a lower-case word of at least three letters |
| PrayerTypes.FromRawValue | SalahStreak/Core/Models/Enums/PrayerType.swift:3-4 | `PrayerType(rawValue:)` returns the case with that raw value, and nothing when no case has it |
| PrayerTypes.Index | SalahStreak/Core/Models/Enums/PrayerType.swift:4 | Each case sits at its position in the daily order |
| PrayerTypes.AllCasesComplete | SalahStreak/Core/Models/Enums/PrayerType.swift:3-4 | Exactly five cases, each listed once, every case listed |
| PrayerTypes.RawValueFirstLetterDistinct | SalahStreak/Core/Models/Enums/PrayerType.swift:3-4 | Raw values differ already in their first letter, and `PrayerType(rawValue:)` inverts `rawValue` |
| PrayerTypes.DisplayNameCapitalizesRaw | SalahStreak/Core/Models/Enums/PrayerType.swift:6 | The display name is the raw value with its first letter capitalised |
| PrayerTypes.IconNonEmpty | SalahStreak/Core/Models/Enums/PrayerType.swift:8-16 | Every icon name is non-empty |
| Dashboard.Cards | SalahStreak/Features/Dashboard/DashboardViewModel.swift:117-133 | The cards are a permutation of the entries' cards (each as often as its entry occurs), sorted by scheduled time |
| Dashboard.CardStateTable | SalahStreak/Features/Dashboard/DashboardViewModel.swift:119-130 | No card is derived as qada. Done shows done and missed shows missed. A pending or qada entry is future iff before its window, missed iff after it, warning iff inside with < 600 s left, else active |
| Dashboard.QadaShownAsPending | SalahStreak/Features/Dashboard/DashboardViewModel.swift:122 | A qada entry is shown exactly as a pending one |
| Dashboard.WindowEndIsWarning | SalahStreak/Features/Dashboard/DashboardViewModel.swift:127-130 | At the window's last second a pending card is in warning |
| Dashboard.EntriesFor | SalahStreak/Features/Dashboard/DashboardViewModel.swift:102-105 | One new pending app entry per window, in order, copying prayer, scheduled time, start and end |
| Dashboard.DashboardViewModel.constructor | SalahStreak/Features/Dashboard/DashboardViewModel.swift:8-15 | Empty cards, zero counters, no new badges, over the given records |
| Dashboard.DashboardViewModel.RebuildCards | SalahStreak/Features/Dashboard/DashboardViewModel.swift:115-135 | The cards and the completed count are recomputed from the entries (none without a log); no entry changes |
| Dashboard.DashboardViewModel.MarkPrayerDone | SalahStreak/Features/Dashboard/DashboardViewModel.swift:40-68 | Out-of-range or done cards change nothing. Otherwise the first entry of the card's prayer is marked done from the app, and its reminders are cancelled if it existed. `totalPrayers` rises by one even with no match. Badges are awarded when both records exist, and the cards are rebuilt. The log's date, protection flag and creation time, and the stats' streak counters and onboarding flag, never change |
| Dashboard.DashboardViewModel.GenerateTodayEntries | SalahStreak/Features/Dashboard/DashboardViewModel.swift:91-113 | Without coordinates nothing happens. Otherwise the windows are `prayerWindows` at those coordinates with the settings' method and madhab; one pending entry per window is appended, and the cascade for those windows is scheduled with pairwise distinct identifiers. Only the log's entries change |
| Dashboard.MarkCardEntry | SalahStreak/Features/Dashboard/DashboardViewModel.swift:46-52 | The first entry of the prayer is marked done from the app; its identifiers are cancelled only when it existed |
| Dashboard.MarkDoneCounts | SalahStreak/Features/Dashboard/DashboardViewModel.swift:46-49 | The marked entry has the card's prayer and is done, and the done count rises by one unless it was already done |
| WidgetData.CurrentPrayer | SalahStreak/Shared/WidgetPrayerData.swift:35-38 | The result is the first entry that is pending with `now` before its window end; there is none exactly when no entry is open |
| WidgetData.CompletedCount | SalahStreak/Shared/WidgetPrayerData.swift:40-42 | The count is at most the number of entries |
| WidgetData.CompletedCountExtremes | SalahStreak/Shared/WidgetPrayerData.swift:40-42 | The count equals the length iff all entries are `"done"`, and is 0 iff none is, so `"qada"` is not counted |
| WidgetData.CompletedCountAfterUpdate | SalahStreak/Shared/WidgetPrayerData.swift:40-42 | Replacing one entry changes the count by exactly the difference it makes |
| MarkDoneIntent.Perform | SalahStreakWidget/MarkDoneIntent.swift:18-41 | No data: nothing is stored and the "no data" dialog is returned. Otherwise only the first pending entry of the prayer becomes `"done"` (times kept), others are unchanged, and the count rises by one. Length and streak are kept and the time is stamped |
| WidgetProvider.Placeholder | SalahStreakWidget/SalahStreakWidgetProvider.swift:18-20 | The placeholder is at `now` and carries no data |
| WidgetProvider.UpcomingBounds | SalahStreakWidget/SalahStreakWidgetProvider.swift:31-36 | Every added instant is strictly after `now` and is one of a prayer's two instants, at most two per prayer |
| WidgetProvider.UpcomingComplete | SalahStreakWidget/SalahStreakWidgetProvider.swift:31-36 | Every window end and scheduled time after `now` is added |
| WidgetProvider.RefreshDatesBounds | SalahStreakWidget/SalahStreakWidgetProvider.swift:30-38 | All refresh instants are ≥ `now`; there are 2 plus the upcoming ones, at most 2 + 2·prayers |
| WidgetProvider.CollectDates | SalahStreakWidget/SalahStreakWidgetProvider.swift:30-38 | The loop builds `now`, each prayer's later instants in order, then `now + 900` |
| WidgetProvider.Stamp | SalahStreakWidget/SalahStreakWidgetProvider.swift:40 | Its own contract only unfolds its body (one entry per date, each with the snapshot). The timeline's properties (sorted, a permutation of the refresh instants, none before `now`) are `WidgetProvider.Timeline` |
| WidgetProvider.SortedFloor | SalahStreakWidget/SalahStreakWidgetProvider.swift:40 | Sorting keeps every instant at or after `now` |
| WidgetProvider.Timeline | SalahStreakWidget/SalahStreakWidgetProvider.swift:26-42 | The entries' dates are a sorted permutation of the refresh instants, all ≥ `now`, each with the same snapshot; exactly 2 without data, at most 2 + 2·prayers |
| WidgetView.TimeStringMinutes | SalahStreakWidget/SalahStreakWidgetView.swift:137-143 | The text is `"now"` exactly when no time is left; otherwise it reads back as the whole minutes left |
| WidgetView.TimeStringLong | SalahStreakWidget/SalahStreakWidgetView.swift:142 | From an hour on, `"<h>h <m>m"` reads back as h·60 + m, the whole minutes left |
| WidgetView.TimeStringSameMinutes | SalahStreakWidget/SalahStreakWidgetView.swift:137-143 | Two positive countdowns show the same text exactly when they have the same whole minutes |
| WidgetView.TimeStringExamples | SalahStreakWidget/SalahStreakWidgetView.swift:139-142 | 45 s shows `"0m"`, 3725 s shows `"1h 2m"`, 0 s shows `"now"` |
| Stats.Summary | SalahStreak/Features/Stats/StatsViewModel.swift:49-56 | The summary copies the stored counters, or is all zero without stats. This copy is the source's whole promise, so the contract reads like the body |
| Stats.Row | SalahStreak/Features/Stats/StatsViewModel.swift:66-76 | Its own contract only unfolds its body (five cells in daily order). What each cell shows is stated by `Stats.CellShowsFirstEntry` |
| Stats.Grid | SalahStreak/Features/Stats/StatsViewModel.swift:58-78 | Its own contract only unfolds its body: seven rows, and row `offset` comes from the first log dated `today − (6 − offset)`. What each cell shows is stated by `Stats.CellShowsFirstEntry` |
| Stats.CellOfInjective | SalahStreak/Features/Stats/StatsViewModel.swift:70-75 | Each status maps to its own cell, and no status is shown as "no data" |
| Stats.CellShowsFirstEntry | SalahStreak/Features/Stats/StatsViewModel.swift:67-75 | A cell shows "no data" exactly when there is no log or no entry of that prayer; otherwise it shows the first such entry's status |
| Stats.PrayerCompleted | SalahStreak/Features/Stats/StatsViewModel.swift:95 | The per-day count of a prayer's done or qada entries is at most the number of entries |
| Stats.Breakdown | SalahStreak/Features/Stats/StatsViewModel.swift:92-99 | One item per prayer in daily order; each count is that prayer's done or qada entries over all logs |
| Stats.PrayersPartitionDay | SalahStreak/Features/Stats/StatsViewModel.swift:95 | Over one day, the five per-prayer counts add up to the day's completed count |
| Stats.PrayersPartitionLogs | SalahStreak/Features/Stats/StatsViewModel.swift:94-96 | Over all logs, the five per-prayer totals add up to the summed completed counts |
| Stats.BreakdownSum | SalahStreak/Features/Stats/StatsViewModel.swift:92-99 | The breakdown's counts sum to the sum of the logs' `completedCount` |
| Stats.StatsViewModel.constructor | SalahStreak/Features/Stats/StatsViewModel.swift:9-17 | The screen over the fetched logs and stats, before anything is computed |
| Stats.StatsViewModel.ComputeSummaryStats | SalahStreak/Features/Stats/StatsViewModel.swift:49-56 | Sets the summary from the stats |
| Stats.StatsViewModel.ComputeWeeklyGrid | SalahStreak/Features/Stats/StatsViewModel.swift:58-78 | Sets the grid for `today` from the logs |
| Stats.StatsViewModel.ComputePrayerBreakdown | SalahStreak/Features/Stats/StatsViewModel.swift:92-99 | Sets the breakdown from the logs |
| BadgesView.Tiles | SalahStreak/Features/Badges/BadgesViewModel.swift:47-59 | All six catalog badges, in catalog order and with catalog text; a badge is unlocked iff its id is in the list |
| BadgesView.NoStatsAllLocked | SalahStreak/Features/Badges/BadgesViewModel.swift:48 | Without stats every badge is locked |
| BadgesView.TilesAfterAward | SalahStreak/Features/Badges/BadgesViewModel.swift:47-59 | After awarding, a tile is unlocked iff it already was or its rule holds, so awarding never locks a tile |
| BadgesView.BadgesViewModel.constructor | SalahStreak/Features/Badges/BadgesViewModel.swift:9-14 | No badges and no selection, over the fetched stats |
| BadgesView.BadgesViewModel.ComputeBadges | SalahStreak/Features/Badges/BadgesViewModel.swift:47-59 | Sets the tiles from the stats' unlocked list, or from the empty list without stats |
| BadgesView.BadgesViewModel.SelectBadge | SalahStreak/Features/Badges/BadgesViewModel.swift:63-65 | Sets the selection; nothing else changes |
| BadgesView.BadgesViewModel.DeselectBadge | SalahStreak/Features/Badges/BadgesViewModel.swift:67-69 | Clears the selection; nothing else changes |
| Onboarding.NavigationSteps | SalahStreak/Features/Onboarding/OnboardingViewModel.swift:29-42 | Each move keeps the step in 0..2. Next and previous undo each other away from the ends, and the ends are fixed. A jump lands on its target iff the target is in range |
| Onboarding.NavigationStaysInRange | SalahStreak/Features/Onboarding/OnboardingViewModel.swift:29-42 | Any sequence of moves from a valid step stays in 0..2 |
| Onboarding.ForwardToLast | SalahStreak/Features/Onboarding/OnboardingViewModel.swift:29-32 | Two forward moves from the start reach the last step, and a third stays there |
| Onboarding.OnboardingViewModel.constructor | SalahStreak/Features/Onboarding/OnboardingViewModel.swift:9-13 | Defaults: step 0, no location, Hanafi, North America, notifications off |
| Onboarding.OnboardingViewModel.NextStep | SalahStreak/Features/Onboarding/OnboardingViewModel.swift:29-32 | Adds one unless at the last step; stays in range |
| Onboarding.OnboardingViewModel.PreviousStep | SalahStreak/Features/Onboarding/OnboardingViewModel.swift:34-37 | Subtracts one unless at 0; stays in range |
| Onboarding.OnboardingViewModel.MoveToStep | SalahStreak/Features/Onboarding/OnboardingViewModel.swift:39-42 | Sets the step to an in-range target and ignores others |
| Onboarding.OnboardingViewModel.HandleLocationPermission | SalahStreak/Features/Onboarding/OnboardingViewModel.swift:46-49 | Records the location (or none) and advances one step |
| Onboarding.OnboardingViewModel.HandleMadhabSelection | SalahStreak/Features/Onboarding/OnboardingViewModel.swift:51-54 | Records the madhab and advances one step |
| Onboarding.OnboardingViewModel.HandleGoalSelection | SalahStreak/Features/Onboarding/OnboardingViewModel.swift:56-59 | Sets the method and the notification flag; the step is unchanged |
| AppDelegate.CommandDecoding | SalahStreak/SalahStreakApp.swift:110-125 | A response marks or snoozes prayer p exactly when it carries p's raw value and that action identifier. Any other identifier, or a missing or unknown raw value, is ignored |
| AppDelegate.SnoozeIdentifier | SalahStreak/SalahStreakApp.swift:166 | The snooze identifier starts with the prayer's raw value. That it differs between prayers and from every cascade identifier is `AppDelegate.SnoozeNeverCancelled` |
| AppDelegate.SnoozeFor | SalahStreak/SalahStreakApp.swift:156-166 | The snooze fires 1200 s after `now`, for the prayer, with the app's title and reminder category |
| AppDelegate.SnoozeNeverCancelled | SalahStreak/SalahStreakApp.swift:166 | No snooze identifier is among any prayer's cancelled identifiers, and snooze identifiers differ between prayers |
| AppDelegate.NotificationMarkCounts | SalahStreak/SalahStreakApp.swift:139-144 | The first pending entry of the prayer becomes done from a notification and nothing else changes. The day's done and completed counts each rise by exactly one |
| AppDelegate.MarkPrayerDoneFromNotification | SalahStreak/SalahStreakApp.swift:131-154 | With no log or no pending entry of the prayer, nothing changes and nothing is cancelled. Otherwise the entry is marked, `totalPrayers` rises by one when stats exist, and the prayer's reminders are cancelled. No other field of the log or the stats changes |
| AppDelegate.HandleResponse | SalahStreak/SalahStreakApp.swift:110-127 | Mark-done and snooze act as above. Anything else changes nothing. No field besides the entries and `totalPrayers` ever changes. The completion handler is always called |

## Left out

- The astronomical calculator (the Adhan library's `PrayerTimes` and
  `CalculationMethod.*.params`) is a function parameter. Its own properties, such as Hanafi
  Asr being no earlier than Shafi Asr, are not modelled.
- Persistence is not modelled: SwiftData fetches, inserts and `save()`, the repositories,
  the model container, and the JSON/app-group storage of the widget snapshot. The stored
  snapshot is passed in and returned.
- The notification center is not modelled: delivery, removal, authorization and category
  registration. Scheduling returns the requests it would add, and cancellation returns the
  identifiers it would remove.
- Haptics, widget timeline reloads and the Timer that rebuilds cards every minute are left out.
- Concurrency is left out. `markPrayerDoneFromNotification` runs its body on the main queue
  later; the model runs it synchronously.
- Clocks and calendars are inputs: `Date()`, `startOfDay`, `date(byAdding:)` and the
  `yyyy-MM-dd` formatter. `now`, day numbers and date strings are parameters.
- The stats screen's `computeDayLabels` is not modelled, because it only formats weekday
  names.
- Floating-point progress ratios (`OnboardingViewModel.progress`) are not modelled. The
  cascade fractions are exact rationals rather than `Double`.
- `finishOnboarding` is not modelled, because it only writes settings and requests
  authorization. The `onAppear`/`loadData`/`refresh` loaders are not modelled, because
  they only fetch records.
- Swift `Int` overflow is not modelled; counters are unbounded integers.
- WidgetView.TimeStringMinutes: the countdown takes whole seconds as input. The
  truncation of `timeIntervalSinceNow` to `Int` is not modelled.
- Swift `capitalized` is modelled for ASCII text only. It is used for display names and
  the widget dialog.
- Entries are values inside `DailyLog.entries`. SwiftData object identity, the entry–log
  relationship, and the entry's unused `id`, `latitude` and `longitude` fields are not
  modelled.
- Dashboard.Cards: Swift's `sorted(by:)` is modelled by a stable insertion sort. The
  contract fixes the order only up to entries with equal scheduled times.
- `safeEntries`, which the notification handler and the statistics screen read, is not
  defined in the files modelled here. The model assumes it is the log's `entries`.
- `CellStatus` in `StatsView.swift` has no `qada` case, yet `computeWeeklyGrid` returns
  `.qada`. The model adds a `CellQada` cell status so that the weekly grid can be stated.
- `PrayerCardState` is not defined in the files modelled here. Its `qada` case is
  inferred from the summary sheet's switches. `rebuildCards` never derives it
  (`Dashboard.CardStateTable`).
- The astronomical calculator takes the coordinates as a plain `Coordinate` value
  (latitude and longitude as reals). Nothing about their meaning is modelled.
- Reading the user settings is folded into `GenerateTodayEntries`' inputs. Missing settings
  or a missing latitude or longitude are the `None` coordinates. The day number and the
  date string are independent inputs, where the source derives both from `Date()`.
- The widget snapshot keeps prayers and statuses as their raw strings, as the source does.
- `early_bird` tracking does not exist in the code (its rule is `false`), and no history
  is invented for it.
