/** Items in the player's inventory: adding, testing, spending, the explorer's random
    gift and the effect of using an item from the inventory menu. */
module InventoryManager {
  import opened Outcomes
  import opened Items
  import opened DungeonMap
  import opened PlayerDataHolder
  import opened PowerPointManager
  import opened PositionDataHolder
  import opened TeleportationActions
  import opened SetFacts

  /** The items a gift is drawn from, in the order the draws index them. */
  const NonPotionItems: seq<string> := [TeleportationSpell, FreezeSpell, Cake, Sandwich, Hammer]
  const NonPotionItemSet: set<string> := {TeleportationSpell, FreezeSpell, Cake, Sandwich, Hammer}

  /** The inventory-menu labels of the items that can be used from the inventory. */
  const TeleportLabel: string := "Teleportation Spell"
  const CakeLabel: string := "Cake (+3 Power Points)"
  const SandwichLabel: string := "Sandwich (+5 Power Points)"

  method AddItem(player: Player, item: string)
    modifies player`inventory
    ensures player.inventory == old(player.inventory) + {item}
    ensures item in old(player.inventory) ==> player.inventory == old(player.inventory)
  {
    player.inventory := player.inventory + {item};
  }

  /** `hasItem`: whether the player holds `item`. */
  predicate HasItem(player: Player, item: string): (held: bool)
    reads player
    ensures held <==> item in player.inventory
  {
    item in player.inventory
  }

  /** Removes `item`, reporting whether it was there to remove. */
  method UseItem(player: Player, item: string) returns (removed: bool)
    modifies player`inventory
    ensures removed <==> item in old(player.inventory)
    ensures player.inventory == old(player.inventory) - {item}
    ensures item !in player.inventory
  {
    removed := item in player.inventory;
    player.inventory := player.inventory - {item};
  }

  method ClearInventory(player: Player)
    modifies player`inventory
    ensures player.inventory == {}
  {
    player.inventory := {};
  }

  /** What a gift of `amount` items leaves: only pool items are added, nothing is lost,
      and exactly `amount` (or none, for a negative amount) are new when it completed. */
  predicate Granted(before: set<string>, after: set<string>, amount: int, completed: bool) {
    && before <= after
    && after - before <= NonPotionItemSet
    && (completed ==> |after - before| == (if amount > 0 then amount else 0))
    && (!completed ==> |after - before| < amount)
  }

  /** How a gift ends: the inventory reached, and whether every item asked for was added. */
  datatype Gift = Gift(inventory: set<string>, completed: bool)

  /** The gift of `amount` more items to a player holding `held`, when the next pool entry
      is named by `draws[i]`: a drawn item not yet held is added, one already held is drawn
      again, until `amount` were added or the draws ran out. */
  function GiftFrom(held: set<string>, amount: int, draws: seq<nat>, i: nat): (g: Gift)
    requires i <= |draws|
    ensures held <= g.inventory && g.inventory - held <= NonPotionItemSet
    ensures g.completed ==> |g.inventory - held| == (if amount > 0 then amount else 0)
    ensures !g.completed ==> |g.inventory - held| < amount
    decreases |draws| - i
  {
    if amount <= 0 then Gift(held, true)
    else if i == |draws| then Gift(held, false)
    else
      var item := NonPotionItems[draws[i] % |NonPotionItems|];
      if item in held then GiftFrom(held, amount, draws, i + 1)
      else
        var g := GiftFrom(held + {item}, amount - 1, draws, i + 1);
        assert g.inventory - held == (g.inventory - (held + {item})) + {item};
        g
  }

  /** `giveRandomItems`: keeps drawing pool items, adding each one not yet held, until
      `amount` new items were added. `completed` is false when the draws ran out: the
      source loop never ends when fewer than `amount` pool items are missing. */
  method GiveRandomItems(player: Player, amount: int, draws: seq<nat>) returns (completed: bool)
    modifies player`inventory
    ensures Gift(player.inventory, completed) == GiftFrom(old(player.inventory), amount, draws, 0)
    ensures Granted(old(player.inventory), player.inventory, amount, completed)
    ensures amount > |NonPotionItemSet - old(player.inventory)| ==> !completed
  {
    var itemsAdded := 0;
    var i := 0;
    while itemsAdded < amount
      invariant 0 <= i <= |draws|
      invariant GiftFrom(player.inventory, amount - itemsAdded, draws, i)
             == GiftFrom(old(player.inventory), amount, draws, 0)
      decreases |draws| - i
    {
      if i == |draws| {
        assert GiftFrom(player.inventory, amount - itemsAdded, draws, i) == Gift(player.inventory, false);
        return false;
      }
      ghost var before := player.inventory;
      ghost var left := amount - itemsAdded;
      var randomItem := NonPotionItems[draws[i] % |NonPotionItems|];
      i := i + 1;
      if !HasItem(player, randomItem) {
        AddItem(player, randomItem);
        itemsAdded := itemsAdded + 1;
        assert GiftFrom(before, left, draws, i - 1) == GiftFrom(before + {randomItem}, left - 1, draws, i);
      } else {
        assert GiftFrom(before, left, draws, i - 1) == GiftFrom(before, left, draws, i);
      }
    }
    assert GiftFrom(player.inventory, amount - itemsAdded, draws, i) == Gift(player.inventory, true);
    completed := true;
    SubsetSize(player.inventory - old(player.inventory), NonPotionItemSet - old(player.inventory));
  }

  /** What using `selectedItem` from the inventory menu does, for a player holding `held`
      with `points` on cell `here` of `level`: a spell label spends the spell and teleports
      (or fails, staying put); a food label spends the food and adds its points; any item
      not held, or any other label, changes nothing. */
  predicate ItemUseEffect(level: Grid, selectedItem: string, held: set<string>, points: int, here: Cell,
                          s: Status, held': set<string>, points': int, here': Cell)
  {
    if selectedItem == TeleportLabel && TeleportationSpell in held then
      && held' == held - {TeleportationSpell} && points' == points
      && (s == Done || s == Failed(OutOfDraws) || s == Failed(ColumnOutOfRange))
      && (s == Done ==> IsLandingCell(level, here') && here' != here)
      && (s != Done ==> here' == here)
    else if selectedItem == CakeLabel && Cake in held then
      held' == held - {Cake} && points' == points + 3 && s == Done && here' == here
    else if selectedItem == SandwichLabel && Sandwich in held then
      held' == held - {Sandwich} && points' == points + 5 && s == Done && here' == here
    else
      held' == held && points' == points && s == Done && here' == here
  }

  /** `handleInventoryItemUse`. */
  method HandleInventoryItemUse(selectedItem: string, player: Player, pos: Position,
                                dungeon: MapState, draws: seq<nat>) returns (s: Status)
    modifies player`inventory, player`powerPoints, pos
    ensures ItemUseEffect(dungeon.currentLevel, selectedItem, old(player.inventory), old(player.powerPoints),
                          old(pos.Here()), s, player.inventory, player.powerPoints, pos.Here())
  {
    s := Done;
    if selectedItem == TeleportLabel {
      var used := UseItem(player, TeleportationSpell);
      if used {
        s := UseTeleportationSpell(pos, dungeon, draws);
      }
    } else if selectedItem == CakeLabel {
      var used := UseItem(player, Cake);
      if used {
        AddPowerPoints(player, 3);
      }
    } else if selectedItem == SandwichLabel {
      var used := UseItem(player, Sandwich);
      if used {
        AddPowerPoints(player, 5);
      }
    }
  }

  /** Whether the single Relic has been found; once found it stays found. */
  class RelicManager {
    var relicFound: bool

    constructor ()
      ensures !relicFound
    {
      relicFound := false;
    }

    /** `isRelicFound`: whether the Relic has been picked up in this game. */
    predicate IsRelicFound(): (found: bool)
      reads this
      ensures found <==> relicFound
    {
      relicFound
    }

    method MarkRelicFound()
      modifies this
      ensures relicFound
    {
      relicFound := true;
    }
  }
}
