/** The badge gallery (`BadgesViewModel`): every catalog badge as a locked or
    unlocked tile, and the tile the user has opened. */
module BadgesView {
  import opened Wrappers
  import opened Models
  import opened BadgeService

  /** `computeBadges`: the catalog in order, each badge unlocked exactly when its id
      is in the unlocked list. */
  function Tiles(unlocked: seq<string>): (tiles: seq<Badge>)
    ensures |tiles| == |AllBadges| == 6
    ensures forall i :: 0 <= i < 6 ==>
      && tiles[i].id == RawId(AllBadges[i].id) && tiles[i].title == AllBadges[i].title
      && tiles[i].description == AllBadges[i].description && tiles[i].icon == AllBadges[i].icon
      && (tiles[i].isUnlocked <==> RawId(AllBadges[i].id) in unlocked)
  {
    seq(|AllBadges|, i requires 0 <= i < |AllBadges| => ToBadge(AllBadges[i], RawId(AllBadges[i].id) in unlocked))
  }

  /** With no stats the unlocked list is empty, so every tile is locked. */
  lemma NoStatsAllLocked()
    ensures forall i :: 0 <= i < 6 ==> !Tiles([])[i].isUnlocked
  {
  }

  /** After awarding, a tile is unlocked exactly when it already was or its rule
      now holds; awarding never locks a tile. */
  lemma TilesAfterAward(owned: seq<string>, f: Facts, i: nat)
    requires i < 6
    ensures Tiles(AwardFrom(AllBadges, owned, f).0)[i].isUnlocked
        <==> Tiles(owned)[i].isUnlocked || IsUnlocked(AllBadges[i].id, f)
  {
    AwardComplete(owned, f, AllBadges[i].id);
  }

  /** The gallery's state. The fetched stats are held by reference. */
  class BadgesViewModel {
    var badges: seq<Badge>
    var selectedBadge: Option<Badge>
    var stats: UserStats?

    constructor (stats: UserStats?)
      ensures this.stats == stats && badges == [] && selectedBadge == None
    {
      this.stats := stats;
      badges := [];
      selectedBadge := None;
    }

    method ComputeBadges()
      modifies this`badges
      ensures badges == Tiles(if stats == null then [] else stats.badgesUnlocked)
    {
      var unlockedBadgeIds := if stats == null then [] else stats.badgesUnlocked;
      badges := Tiles(unlockedBadgeIds);
    }

    /** `selectBadge`: only the selection changes. */
    method SelectBadge(badge: Badge)
      modifies this`selectedBadge
      ensures selectedBadge == Some(badge)
    {
      selectedBadge := Some(badge);
    }

    /** `deselectBadge`: only the selection is cleared. */
    method DeselectBadge()
      modifies this`selectedBadge
      ensures selectedBadge == None
    {
      selectedBadge := None;
    }
  }
}
