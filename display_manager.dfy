/** The inventory menu: the items that can be used, in menu order, and the use of the one
    the player picks. */
module DisplayManager {
  import opened Outcomes
  import opened Items
  import opened DungeonMap
  import opened PlayerDataHolder
  import opened PositionDataHolder
  import opened InventoryManager

  /** The numbers typed at the inventory menu, and the draws of a teleport chosen there. */
  datatype InventoryInput = InventoryInput(choice: int, draws: seq<nat>)

  /** The usable items the menu lists, in the order Teleportation Spell, Cake, Sandwich. */
  function UsableItems(inventory: set<string>): (menu: seq<string>)
    ensures TeleportLabel in menu <==> TeleportationSpell in inventory
    ensures CakeLabel in menu <==> Cake in inventory
    ensures SandwichLabel in menu <==> Sandwich in inventory
    ensures forall k :: 0 <= k < |menu| ==> menu[k] in {TeleportLabel, CakeLabel, SandwichLabel}
    ensures forall j, k :: 0 <= j < k < |menu| ==> menu[j] != menu[k]
    ensures TeleportationSpell in inventory ==> menu[0] == TeleportLabel
    ensures Sandwich in inventory ==> menu[|menu| - 1] == SandwichLabel
  {
    (if TeleportationSpell in inventory then [TeleportLabel] else [])
    + (if Cake in inventory then [CakeLabel] else [])
    + (if Sandwich in inventory then [SandwichLabel] else [])
  }

  /** The item that a menu entry spends. */
  function ItemOf(entry: string): string {
    if entry == TeleportLabel then TeleportationSpell
    else if entry == CakeLabel then Cake
    else Sandwich
  }

  /** Every entry of the menu names an item the player holds, so picking it always spends
      that item. */
  lemma MenuEntriesAreHeld(inventory: set<string>, k: int)
    requires 0 <= k < |UsableItems(inventory)|
    ensures ItemOf(UsableItems(inventory)[k]) in inventory
  {
  }

  /** What the inventory menu does: a number in range uses the listed item; any other number,
      an inventory with nothing usable, or an empty inventory changes nothing. */
  predicate InventoryMenuEffect(level: Grid, inventory: set<string>, points: int, here: Cell, choice: int,
                                s: Status, inventory': set<string>, points': int, here': Cell)
  {
    var menu := UsableItems(inventory);
    && (1 <= choice <= |menu| ==>
          ItemUseEffect(level, menu[choice - 1], inventory, points, here, s, inventory', points', here'))
    && (!(1 <= choice <= |menu|) ==>
          inventory' == inventory && points' == points && here' == here && s == Done)
  }

  /** `displayInventory`: lists the usable items and uses the one whose number is typed. */
  method DisplayInventory(player: Player, pos: Position, dungeon: MapState, input: InventoryInput)
    returns (s: Status)
    modifies player`inventory, player`powerPoints, pos
    ensures InventoryMenuEffect(dungeon.currentLevel, old(player.inventory), old(player.powerPoints),
                                old(pos.Here()), input.choice, s,
                                player.inventory, player.powerPoints, pos.Here())
  {
    s := Done;
    if player.inventory == {} {
      return;
    }
    var usableItems := UsableItems(player.inventory);
    if |usableItems| > 0 {
      if input.choice > 0 && input.choice <= |usableItems| {
        var selectedItem := usableItems[input.choice - 1];
        s := HandleInventoryItemUse(selectedItem, player, pos, dungeon, input.draws);
      }
    }
  }
}
