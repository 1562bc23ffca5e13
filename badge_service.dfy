/** The badge catalog and awarding (`BadgeService`, `Badge`, `BadgeID`). */
module BadgeService {
  import opened Models

  datatype BadgeId = FirstPrayer | PerfectDay | WeekWarrior | MonthMaster | EarlyBird | Consistent

  function RawId(id: BadgeId): string {
    match id
    case FirstPrayer => "first_prayer"
    case PerfectDay => "perfect_day"
    case WeekWarrior => "week_warrior"
    case MonthMaster => "month_master"
    case EarlyBird => "early_bird"
    case Consistent => "consistent"
  }

  /** A catalog entry. */
  datatype BadgeDef = BadgeDef(id: BadgeId, title: string, description: string, icon: string)

  /** The badge value shown to the user (`Badge`). */
  datatype Badge = Badge(id: string, title: string, description: string, icon: string, isUnlocked: bool)

  /** `allBadges`, in catalog order. */
  const AllBadges: seq<BadgeDef> := [
    BadgeDef(FirstPrayer, "First Prayer", "Complete your very first prayer.", "star"),
    BadgeDef(PerfectDay, "Perfect Day", "Complete all 5 prayers in a single day.", "checkmark.seal"),
    BadgeDef(WeekWarrior, "Week Warrior", "Maintain a 7-day streak.", "flame"),
    BadgeDef(MonthMaster, "Month Master", "Maintain a 30-day streak.", "trophy"),
    BadgeDef(EarlyBird, "Early Bird", "Complete 10 Fajr prayers on time.", "sunrise"),
    BadgeDef(Consistent, "Consistent", "Complete 50 total prayers.", "heart.fill")
  ]

  /** What the rules read: the stats counters and whether the day is perfect. */
  datatype Facts = Facts(totalPrayers: int, currentStreak: int, dayPerfect: bool)

  function FactsOf(stats: UserStats, dailyLog: DailyLog): Facts
    reads stats, dailyLog
  {
    Facts(stats.totalPrayers, stats.currentStreak, IsPerfect(dailyLog.entries))
  }

  /** The rule table (`isUnlocked`). Early Bird has no rule and is never earned. */
  function IsUnlocked(id: BadgeId, f: Facts): bool {
    match id
    case FirstPrayer => f.totalPrayers >= 1
    case PerfectDay => f.dayPerfect
    case WeekWarrior => f.currentStreak >= 7
    case MonthMaster => f.currentStreak >= 30
    case EarlyBird => false
    case Consistent => f.totalPrayers >= 50
  }

  function ToBadge(d: BadgeDef, unlocked: bool): Badge {
    Badge(RawId(d.id), d.title, d.description, d.icon, unlocked)
  }

  function Ids(bs: seq<Badge>): (ids: seq<string>)
    ensures |ids| == |bs|
    ensures forall i :: 0 <= i < |bs| ==> ids[i] == bs[i].id
  {
    seq(|bs|, i requires 0 <= i < |bs| => bs[i].id)
  }

  predicate Earns(d: BadgeDef, owned: seq<string>, f: Facts) {
    var alreadyOwned := RawId(d.id) in owned;
    var unlocked := alreadyOwned || IsUnlocked(d.id, f);
    unlocked && !alreadyOwned
  }

  /** The awarding loop over `defs`, threading the unlocked list as it grows:
      the new unlocked list and the newly awarded badges. */
  function AwardFrom(defs: seq<BadgeDef>, owned: seq<string>, f: Facts): (r: (seq<string>, seq<Badge>))
    ensures r.0 == owned + Ids(r.1)
    ensures |r.1| <= |defs|
    ensures forall i :: 0 <= i < |r.1| ==> r.1[i].isUnlocked
  {
    if defs == [] then (owned, [])
    else if Earns(defs[0], owned, f) then
      var b := ToBadge(defs[0], true);
      var t := AwardFrom(defs[1..], owned + [b.id], f);
      assert Ids([b] + t.1) == [b.id] + Ids(t.1);
      (t.0, [b] + t.1)
    else AwardFrom(defs[1..], owned, f)
  }

  /** Reference definition: the catalog entries that are not owned and whose
      rule holds, in catalog order. */
  function Eligible(defs: seq<BadgeDef>, owned: seq<string>, f: Facts): seq<BadgeDef> {
    if defs == [] then []
    else if RawId(defs[0].id) !in owned && IsUnlocked(defs[0].id, f) then [defs[0]] + Eligible(defs[1..], owned, f)
    else Eligible(defs[1..], owned, f)
  }

  function ToUnlockedBadges(ds: seq<BadgeDef>): seq<Badge> {
    if ds == [] then [] else [ToBadge(ds[0], true)] + ToUnlockedBadges(ds[1..])
  }

  predicate DistinctIds(defs: seq<BadgeDef>) {
    forall i, j :: 0 <= i < j < |defs| ==> RawId(defs[i].id) != RawId(defs[j].id)
  }

  lemma {:induction false} EligibleIgnoresForeignId(defs: seq<BadgeDef>, owned: seq<string>, x: string, f: Facts)
    requires forall i :: 0 <= i < |defs| ==> RawId(defs[i].id) != x
    ensures Eligible(defs, owned + [x], f) == Eligible(defs, owned, f)
  {
    if defs != [] {
      EligibleIgnoresForeignId(defs[1..], owned, x, f);
    }
  }

  /** With distinct catalog ids, growing the list during the walk changes nothing:
      the loop awards exactly the eligible entries, in catalog order. */
  lemma {:induction false} AwardMatchesEligible(defs: seq<BadgeDef>, owned: seq<string>, f: Facts)
    requires DistinctIds(defs)
    ensures AwardFrom(defs, owned, f).1 == ToUnlockedBadges(Eligible(defs, owned, f))
  {
    if defs != [] {
      var x := RawId(defs[0].id);
      if Earns(defs[0], owned, f) {
        EligibleIgnoresForeignId(defs[1..], owned, x, f);
        AwardMatchesEligible(defs[1..], owned + [x], f);
      } else {
        AwardMatchesEligible(defs[1..], owned, f);
      }
    }
  }

  lemma CatalogIdsDistinct()
    ensures DistinctIds(AllBadges)
    ensures |AllBadges| == 6
  {
  }

  /** Membership in the awarded list: exactly the not-yet-owned entries whose
      rule holds. */
  lemma {:induction false} EligibleMembers(defs: seq<BadgeDef>, owned: seq<string>, f: Facts, d: BadgeDef)
    ensures d in Eligible(defs, owned, f) <==> d in defs && RawId(d.id) !in owned && IsUnlocked(d.id, f)
  {
    if defs != [] {
      EligibleMembers(defs[1..], owned, f, d);
      assert defs == [defs[0]] + defs[1..];
    }
  }

  lemma {:induction false} UnlockedBadgesIds(ds: seq<BadgeDef>, x: string)
    ensures x in Ids(ToUnlockedBadges(ds)) <==> exists d :: d in ds && RawId(d.id) == x
  {
    if ds != [] {
      UnlockedBadgesIds(ds[1..], x);
      assert Ids(ToUnlockedBadges(ds)) == [RawId(ds[0].id)] + Ids(ToUnlockedBadges(ds[1..]));
      assert ds == [ds[0]] + ds[1..];
    }
  }

  /** A catalog badge is newly awarded exactly when it was not already unlocked
      and its rule holds; in particular no owned badge is returned again. */
  lemma AwardComplete(owned: seq<string>, f: Facts, id: BadgeId)
    ensures RawId(id) in Ids(AwardFrom(AllBadges, owned, f).1) <==> RawId(id) !in owned && IsUnlocked(id, f)
  {
    CatalogIdsDistinct();
    AwardMatchesEligible(AllBadges, owned, f);
    UnlockedBadgesIds(Eligible(AllBadges, owned, f), RawId(id));
    var d := AllBadges[match id
      case FirstPrayer => 0 case PerfectDay => 1 case WeekWarrior => 2
      case MonthMaster => 3 case EarlyBird => 4 case Consistent => 5];
    EligibleMembers(AllBadges, owned, f, d);
    forall e | e in Eligible(AllBadges, owned, f) && RawId(e.id) == RawId(id)
      ensures RawId(id) !in owned && IsUnlocked(id, f)
    {
      EligibleMembers(AllBadges, owned, f, e);
    }
  }

  /** Nothing already owned is awarded, and no badge is awarded twice. */
  lemma {:induction false} AwardFresh(defs: seq<BadgeDef>, owned: seq<string>, f: Facts)
    ensures forall i :: 0 <= i < |AwardFrom(defs, owned, f).1| ==> AwardFrom(defs, owned, f).1[i].id !in owned
    ensures forall i, j :: 0 <= i < j < |AwardFrom(defs, owned, f).1| ==>
              AwardFrom(defs, owned, f).1[i].id != AwardFrom(defs, owned, f).1[j].id
  {
    if defs != [] {
      if Earns(defs[0], owned, f) {
        var x := RawId(defs[0].id);
        AwardFresh(defs[1..], owned + [x], f);
      } else {
        AwardFresh(defs[1..], owned, f);
      }
    }
  }

  /** Walking the catalog again with the grown list awards nothing and leaves it as it is. */
  lemma {:induction false} AwardIdempotentFrom(defs: seq<BadgeDef>, owned: seq<string>, f: Facts)
    requires forall i :: 0 <= i < |defs| ==> IsUnlocked(defs[i].id, f) ==> RawId(defs[i].id) in owned
    ensures AwardFrom(defs, owned, f) == (owned, [])
  {
    if defs != [] {
      AwardIdempotentFrom(defs[1..], owned, f);
    }
  }

  /** Idempotence: a second call with the same stats and day awards nothing. */
  lemma AwardIdempotent(owned: seq<string>, f: Facts)
    ensures var first := AwardFrom(AllBadges, owned, f);
            AwardFrom(AllBadges, first.0, f) == (first.0, [])
  {
    var first := AwardFrom(AllBadges, owned, f);
    forall i | 0 <= i < |AllBadges| && IsUnlocked(AllBadges[i].id, f)
      ensures RawId(AllBadges[i].id) in first.0
    {
      AwardComplete(owned, f, AllBadges[i].id);
    }
    AwardIdempotentFrom(AllBadges, first.0, f);
  }

  /** Early Bird is never awarded. */
  lemma EarlyBirdNeverAwarded(owned: seq<string>, f: Facts)
    ensures "early_bird" !in Ids(AwardFrom(AllBadges, owned, f).1)
  {
    AwardComplete(owned, f, EarlyBird);
  }

  /** The thresholds: one prayer earns First Prayer, fifty earn Consistent,
      streaks of 7 and 30 earn Week Warrior and Month Master, a perfect day
      earns Perfect Day, each when not already owned. */
  lemma Thresholds(owned: seq<string>, f: Facts)
    ensures "first_prayer" !in owned ==> ("first_prayer" in Ids(AwardFrom(AllBadges, owned, f).1) <==> f.totalPrayers >= 1)
    ensures "consistent" !in owned ==> ("consistent" in Ids(AwardFrom(AllBadges, owned, f).1) <==> f.totalPrayers >= 50)
    ensures "week_warrior" !in owned ==> ("week_warrior" in Ids(AwardFrom(AllBadges, owned, f).1) <==> f.currentStreak >= 7)
    ensures "month_master" !in owned ==> ("month_master" in Ids(AwardFrom(AllBadges, owned, f).1) <==> f.currentStreak >= 30)
    ensures "perfect_day" !in owned ==> ("perfect_day" in Ids(AwardFrom(AllBadges, owned, f).1) <==> f.dayPerfect)
  {
    AwardComplete(owned, f, FirstPrayer);
    AwardComplete(owned, f, Consistent);
    AwardComplete(owned, f, WeekWarrior);
    AwardComplete(owned, f, MonthMaster);
    AwardComplete(owned, f, PerfectDay);
  }

  /** One step of the walk. */
  lemma AwardStep(defs: seq<BadgeDef>, i: nat, owned: seq<string>, f: Facts)
    requires i < |defs|
    ensures AwardFrom(defs[i..], owned, f) ==
            if Earns(defs[i], owned, f) then
              var t := AwardFrom(defs[i + 1..], owned + [RawId(defs[i].id)], f);
              (t.0, [ToBadge(defs[i], true)] + t.1)
            else AwardFrom(defs[i + 1..], owned, f)
  {
    assert defs[i..][1..] == defs[i + 1..];
  }

  /** `checkAndAwardBadges`: walks the catalog, appending each newly earned id to
      `badgesUnlocked` and returning the new badges. No other stats field changes. */
  method CheckAndAwardBadges(stats: UserStats, dailyLog: DailyLog) returns (newlyAwarded: seq<Badge>)
    modifies stats`badgesUnlocked
    ensures (stats.badgesUnlocked, newlyAwarded) == AwardFrom(AllBadges, old(stats.badgesUnlocked), FactsOf(stats, dailyLog))
  {
    var f := FactsOf(stats, dailyLog);
    ghost var total := AwardFrom(AllBadges, stats.badgesUnlocked, f);
    newlyAwarded := [];
    for i := 0 to |AllBadges|
      invariant f == FactsOf(stats, dailyLog)
      invariant AwardFrom(AllBadges[i..], stats.badgesUnlocked, f).0 == total.0
      invariant newlyAwarded + AwardFrom(AllBadges[i..], stats.badgesUnlocked, f).1 == total.1
    {
      var def := AllBadges[i];
      AwardStep(AllBadges, i, stats.badgesUnlocked, f);
      var alreadyOwned := RawId(def.id) in stats.badgesUnlocked;
      var unlocked := alreadyOwned || IsUnlocked(def.id, f);
      if unlocked && !alreadyOwned {
        stats.badgesUnlocked := stats.badgesUnlocked + [RawId(def.id)];
        newlyAwarded := newlyAwarded + [ToBadge(def, true)];
      }
    }
    assert AllBadges[|AllBadges|..] == [];
    assert AwardFrom([], stats.badgesUnlocked, f) == (stats.badgesUnlocked, []);
    assert newlyAwarded + [] == newlyAwarded;
  }
}
