/** Looking around a room: one or two things turn up and the player may take one. */
module SearchActions {
  import opened Outcomes
  import opened Items
  import opened DungeonMap
  import opened PlayerDataHolder
  import opened PowerPointManager
  import opened InventoryManager
  import opened PotionActions

  const BaseContents: seq<string> := [TeleportationSpell, FreezeSpell, Cake, Sandwich, Hammer, Potion]

  /** What a search draws from: the six base items, and the Relic on level 3 until it is found. */
  function SearchPool(levelNumber: int, relicFound: bool): (pool: seq<string>)
    ensures |BaseContents| <= |pool| && pool[..|BaseContents|] == BaseContents
    ensures Relic in pool <==> levelNumber == 3 && !relicFound
    ensures |pool| == |BaseContents| + (if levelNumber == 3 && !relicFound then 1 else 0)
    ensures Distinct(pool)
  {
    if levelNumber == 3 && !relicFound then BaseContents + [Relic] else BaseContents
  }

  /** The things a search turns up when `found` have turned up so far and the next pool
      entry is named by `draws[i]`: an entry not yet found is kept, one already found is
      drawn again, until `count` different ones turned up. `None` when the draws run out
      first. */
  function TurnedUp(pool: seq<string>, count: nat, draws: seq<nat>, i: nat, found: seq<string>)
    : (r: Option<seq<string>>)
    requires |pool| > 0 && i <= |draws|
    requires Distinct(found) && |found| <= count
    requires forall k :: 0 <= k < |found| ==> found[k] in pool
    ensures r.Some? ==>
      && |r.value| == count && r.value[..|found|] == found && Distinct(r.value)
      && (forall k :: 0 <= k < |r.value| ==> r.value[k] in pool)
    decreases |draws| - i
  {
    if |found| == count then Some(found)
    else if i == |draws| then None
    else
      var item := pool[draws[i] % |pool|];
      if item in found then TurnedUp(pool, count, draws, i + 1, found)
      else TurnedUp(pool, count, draws, i + 1, found + [item])
  }

  /** What the draws of a look around turn up: the first draw picks one or two things, the
      later draws pick them from `pool`. */
  function SearchFinds(pool: seq<string>, draws: seq<nat>): (r: Option<seq<string>>)
    requires |pool| > 0
    ensures |draws| == 0 ==> r == None
    ensures r.Some? ==> |r.value| == draws[0] % 2 + 1
  {
    if |draws| == 0 then None else TurnedUp(pool, draws[0] % 2 + 1, draws, 1, [])
  }

  /** What a look around does, for a player holding `inventory` with `points` on level
      `levelNumber`, the Relic found or not as `relicFound`. One or two different pool items
      are offered, exactly those `SearchFinds` names for `draws`; the search stops with
      `OutOfDraws` exactly when the draws run out first. `choice` is the number the player types
      and `potionDraw` the draw that names a potion taken. A Potion is drunk at once, the Relic
      is taken and marked found, anything else is added unless already held; a number outside
      the offered list, or a search that ran out of draws, takes nothing. */
  predicate Searched(levelNumber: int, relicFound: bool, inventory: set<string>, points: int,
                     draws: seq<nat>, choice: int, potionDraw: nat, offered: seq<string>, s: Status,
                     relicFound': bool, inventory': set<string>, points': int)
  {
    var pool := SearchPool(levelNumber, relicFound);
    && (s == Done || s == Failed(OutOfDraws))
    && (s == Done <==> SearchFinds(pool, draws).Some?)
    && (s == Done ==> offered == SearchFinds(pool, draws).value)
    && Distinct(offered)
    && (forall k :: 0 <= k < |offered| ==> offered[k] in pool)
    && (s == Done ==> 1 <= |offered| <= 2)
    && (relicFound ==> relicFound')
    && (s != Done || !(1 <= choice <= |offered|) ==>
          inventory' == inventory && points' == points && relicFound' == relicFound)
    && (s == Done && 1 <= choice <= |offered| ==>
          var selected := offered[choice - 1];
          var potion := GetRandomPotion(potionDraw);
          if selected == Potion then
            && inventory' == inventory && relicFound' == relicFound
            && (potion == SleepingPotion ==> points' == Deducted(points, 5))
            && (potion == HealthPotion ==> points' == points + 5)
            && (potion == VisionPotion ==> points' == points)
          else if selected == Relic then
            inventory' == inventory + {Relic} && relicFound' && points' == points
          else
            inventory' == inventory + {selected} && relicFound' == relicFound && points' == points)
  }

  /** `lookAround`. The first draw picks how many things turn up (one or two); later draws
      pick pool entries until that many different ones turned up. */
  method LookAround(player: Player, dungeon: MapState, relics: RelicManager,
                    draws: seq<nat>, choice: int, potionDraw: nat)
    returns (offered: seq<string>, s: Status)
    modifies player`inventory, player`powerPoints, relics
    ensures Searched(dungeon.currentLevelNumber, old(relics.relicFound), old(player.inventory),
                     old(player.powerPoints), draws, choice, potionDraw, offered, s,
                     relics.relicFound, player.inventory, player.powerPoints)
  {
    var contents := SearchPool(dungeon.currentLevelNumber, relics.IsRelicFound());
    offered := [];
    if |draws| == 0 {
      return offered, Failed(OutOfDraws);
    }
    var itemCount := draws[0] % 2 + 1;
    var i := 1;
    while |offered| < itemCount
      invariant 1 <= i <= |draws|
      invariant |offered| <= itemCount
      invariant Distinct(offered)
      invariant forall k :: 0 <= k < |offered| ==> offered[k] in contents
      invariant TurnedUp(contents, itemCount, draws, i, offered) == SearchFinds(contents, draws)
      decreases |draws| - i
    {
      if i == |draws| {
        return offered, Failed(OutOfDraws);
      }
      var item := contents[draws[i] % |contents|];
      i := i + 1;
      if item !in offered {
        offered := offered + [item];
      }
    }
    if 0 < choice <= |offered| {
      var selectedItem := offered[choice - 1];
      if selectedItem == Potion {
        var potionType := GetRandomPotion(potionDraw);
        DrinkPotion(player, potionType);
      } else if selectedItem == Relic {
        AddItem(player, Relic);
        relics.MarkRelicFound();
      } else if !HasItem(player, selectedItem) {
        AddItem(player, selectedItem);
      }
    }
    s := Done;
  }
}
