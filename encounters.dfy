/** The four encounters: trap, mad scientist, lost explorer and guardian. Each one offers
    a numbered menu built from the items the player holds; `choice` is the number the
    player types. */
module Encounters {
  import opened Items
  import opened JavaStrings
  import opened PlayerDataHolder
  import opened PowerPointManager
  import opened InventoryManager

  /** Entry `choice` (counting from 1) of a numbered menu, or `fallback` for any other number. */
  function Pick<T>(menu: seq<T>, choice: int, fallback: T): (option: T)
    ensures 1 <= choice <= |menu| ==> option == menu[choice - 1]
    ensures !(1 <= choice <= |menu|) ==> option == fallback
  {
    if 1 <= choice <= |menu| then menu[choice - 1] else fallback
  }

  // Trap

  datatype TrapAction = UseHammer | UseFreezeSpell | DoNothing

  /** The trap's menu: the Hammer and the Freeze Spell when held, then "Do nothing". */
  function TrapMenu(inventory: set<string>): seq<TrapAction> {
    (if Hammer in inventory then [UseHammer] else [])
    + (if FreezeSpell in inventory then [UseFreezeSpell] else [])
    + [DoNothing]
  }

  /** What the trap does to inventory and points: the chosen tool is spent and the trap is
      escaped; doing nothing, or a number off the menu, costs 7 points. */
  predicate TrapEffect(inventory: set<string>, points: int, choice: int, inventory': set<string>, points': int) {
    var action := Pick(TrapMenu(inventory), choice, DoNothing);
    && (action == UseHammer ==> inventory' == inventory - {Hammer} && points' == points)
    && (action == UseFreezeSpell ==> inventory' == inventory - {FreezeSpell} && points' == points)
    && (action == DoNothing ==> inventory' == inventory && points' == Deducted(points, 7))
  }

  /** `trap`; a player holding neither tool always loses 7 points. */
  method Trap(player: Player, choice: int)
    modifies player`inventory, player`powerPoints
    ensures TrapEffect(old(player.inventory), old(player.powerPoints), choice, player.inventory, player.powerPoints)
    ensures Hammer !in old(player.inventory) && FreezeSpell !in old(player.inventory) ==>
      player.inventory == old(player.inventory) && player.powerPoints == Deducted(old(player.powerPoints), 7)
  {
    var hasHammer := HasItem(player, Hammer);
    var hasFreezeSpell := HasItem(player, FreezeSpell);
    if hasHammer || hasFreezeSpell {
      if hasHammer && choice == 1 {
        var _ := UseItem(player, Hammer);
        return;
      } else if hasFreezeSpell && ((hasHammer && choice == 2) || (!hasHammer && choice == 1)) {
        var _ := UseItem(player, FreezeSpell);
        return;
      }
    }
    DeductPowerPoints(player, 7);
  }

  // Mad scientist

  /** A riddle and its expected answer, in lower case. */
  datatype Riddle = Riddle(question: string, answer: string)

  datatype ScientistAction = FreezeScientist | SolveRiddle

  /** The scientist's menu, shown only to a player holding a Freeze Spell. */
  function ScientistMenu(inventory: set<string>): seq<ScientistAction> {
    if FreezeSpell in inventory then [FreezeScientist, SolveRiddle] else []
  }

  /** A typed answer as it is compared: surrounding blanks dropped, letters lower-cased. */
  function NormalizeAnswer(answer: string): string {
    ToLower(Trim(answer))
  }

  /** What the scientist does: with a Freeze Spell, choosing 1 spends it and ends the
      encounter; otherwise the riddle drawn by `riddleDraw` is asked, and an answer that
      does not match costs 8 points. */
  predicate ScientistEffect(inventory: set<string>, points: int, riddles: seq<Riddle>, choice: int,
                            riddleDraw: nat, answer: string, inventory': set<string>, points': int)
    requires |riddles| > 0
  {
    var action := Pick(ScientistMenu(inventory), choice, SolveRiddle);
    var riddle := riddles[riddleDraw % |riddles|];
    && (action == FreezeScientist ==> inventory' == inventory - {FreezeSpell} && points' == points)
    && (action == SolveRiddle ==> inventory' == inventory)
    && (action == SolveRiddle && NormalizeAnswer(answer) == riddle.answer ==> points' == points)
    && (action == SolveRiddle && NormalizeAnswer(answer) != riddle.answer ==> points' == Deducted(points, 8))
  }

  /** `madScientist`. */
  method MadScientist(player: Player, riddles: seq<Riddle>, choice: int, riddleDraw: nat, answer: string)
    requires |riddles| > 0
    modifies player`inventory, player`powerPoints
    ensures ScientistEffect(old(player.inventory), old(player.powerPoints), riddles, choice, riddleDraw, answer,
                            player.inventory, player.powerPoints)
  {
    var hasFreezeSpell := HasItem(player, FreezeSpell);
    if hasFreezeSpell {
      if choice == 1 {
        var _ := UseItem(player, FreezeSpell);
        return;
      }
    }
    var riddleIndex := riddleDraw % |riddles|;
    var riddleAnswer := riddles[riddleIndex].answer;
    var typed := ToLower(Trim(answer));
    if typed != riddleAnswer {
      DeductPowerPoints(player, 8);
    }
  }

  /** An answer matches however it is padded with blanks: only its core, lower-cased, counts. */
  lemma AnswerIgnoresPadding(lead: string, core: string, trail: string)
    requires Blank(lead) && Blank(trail)
    requires |core| > 0 ==> core[0] > ' ' && core[|core| - 1] > ' '
    ensures NormalizeAnswer(lead + core + trail) == ToLower(core)
  {
    TrimDropsPadding(lead, core, trail);
  }

  // Lost explorer

  datatype ExplorerAction = SubdueExplorer | EscapeExplorer | FightExplorer

  /** The explorer's menu: Hammer and Freeze Spell together, the Teleportation Spell, then the fight. */
  function ExplorerMenu(inventory: set<string>): seq<ExplorerAction> {
    (if Hammer in inventory && FreezeSpell in inventory then [SubdueExplorer] else [])
    + (if TeleportationSpell in inventory then [EscapeExplorer] else [])
    + [FightExplorer]
  }

  /** `handleExplorerWin`: the explorer hands over three items. */
  method HandleExplorerWin(player: Player, draws: seq<nat>) returns (completed: bool)
    modifies player`inventory
    ensures Gift(player.inventory, completed) == GiftFrom(old(player.inventory), 3, draws, 0)
    ensures Granted(old(player.inventory), player.inventory, 3, completed)
    ensures |NonPotionItemSet - old(player.inventory)| < 3 ==> !completed
  {
    completed := GiveRandomItems(player, 3, draws);
  }

  /** `handleExplorerLose`: 5 points and every item are lost. */
  method HandleExplorerLose(player: Player)
    modifies player`inventory, player`powerPoints
    ensures player.powerPoints == Deducted(old(player.powerPoints), 5)
    ensures player.inventory == {}
  {
    DeductPowerPoints(player, 5);
    ClearInventory(player);
  }

  /** `fightLostExplorer`: more than 70 points wins three items; otherwise the player loses. */
  method FightLostExplorer(player: Player, draws: seq<nat>) returns (completed: bool)
    modifies player`inventory, player`powerPoints
    ensures old(player.powerPoints) > 70 ==>
      player.powerPoints == old(player.powerPoints)
      && Gift(player.inventory, completed) == GiftFrom(old(player.inventory), 3, draws, 0)
      && Granted(old(player.inventory), player.inventory, 3, completed)
    ensures old(player.powerPoints) <= 70 ==>
      completed && player.powerPoints == Deducted(old(player.powerPoints), 5) && player.inventory == {}
  {
    if player.powerPoints > 70 {
      completed := HandleExplorerWin(player, draws);
    } else {
      HandleExplorerLose(player);
      completed := true;
    }
  }

  /** What the explorer does: subduing spends Hammer and Freeze Spell and wins three items,
      escaping spends the Teleportation Spell, and the fight (also what any number off the
      menu leads to) is won with more than 70 points and otherwise costs 5 points and
      every item. The three items are those `draws` name for the gift, and `completed` is
      false when the gift ran out of draws. */
  predicate ExplorerEffect(inventory: set<string>, points: int, choice: int, draws: seq<nat>,
                           inventory': set<string>, points': int, completed: bool) {
    var action := Pick(ExplorerMenu(inventory), choice, FightExplorer);
    && (action == SubdueExplorer ==>
          && points' == points
          && Gift(inventory', completed) == GiftFrom(inventory - {Hammer, FreezeSpell}, 3, draws, 0)
          && Granted(inventory - {Hammer, FreezeSpell}, inventory', 3, completed))
    && (action == EscapeExplorer ==>
          completed && points' == points && inventory' == inventory - {TeleportationSpell})
    && (action == FightExplorer && points > 70 ==>
          && points' == points
          && Gift(inventory', completed) == GiftFrom(inventory, 3, draws, 0)
          && Granted(inventory, inventory', 3, completed))
    && (action == FightExplorer && points <= 70 ==>
          completed && points' == Deducted(points, 5) && inventory' == {})
  }

  /** `lostExplorerEncounter`. */
  method LostExplorerEncounter(player: Player, choice: int, draws: seq<nat>) returns (completed: bool)
    modifies player`inventory, player`powerPoints
    ensures ExplorerEffect(old(player.inventory), old(player.powerPoints), choice, draws,
                           player.inventory, player.powerPoints, completed)
  {
    var hasHammer := HasItem(player, Hammer);
    var hasFreezeSpell := HasItem(player, FreezeSpell);
    var hasTeleportationSpell := HasItem(player, TeleportationSpell);

    var optionNumber := 1;
    var hammerFreezeOption := -1;
    var teleportOption := -1;
    if hasHammer && hasFreezeSpell {
      hammerFreezeOption := optionNumber;
      optionNumber := optionNumber + 1;
    }
    if hasTeleportationSpell {
      teleportOption := optionNumber;
      optionNumber := optionNumber + 1;
    }
    var fightOption := optionNumber;
    ghost var menu := ExplorerMenu(player.inventory);
    assert fightOption == |menu| && menu[fightOption - 1] == FightExplorer;
    assert hammerFreezeOption != -1 ==> hammerFreezeOption == 1 && menu[0] == SubdueExplorer;
    assert teleportOption != -1 ==> 1 <= teleportOption <= |menu| && menu[teleportOption - 1] == EscapeExplorer;
    ghost var action := Pick(menu, choice, FightExplorer);

    if choice == hammerFreezeOption && hammerFreezeOption != -1 {
      assert action == SubdueExplorer;
      var _ := UseItem(player, FreezeSpell);
      var _ := UseItem(player, Hammer);
      assert player.inventory == old(player.inventory) - {Hammer, FreezeSpell};
      completed := HandleExplorerWin(player, draws);
    } else if choice == teleportOption && teleportOption != -1 {
      assert action == EscapeExplorer;
      var _ := UseItem(player, TeleportationSpell);
      completed := true;
    } else if choice == fightOption {
      assert action == FightExplorer;
      completed := FightLostExplorer(player, draws);
    } else {
      assert action == FightExplorer;
      completed := FightLostExplorer(player, draws);
    }
  }

  // Guardian

  datatype GuardianResult =
    | Won         // the Relic destroyed the Guardian
    | Fled        // the Teleportation Spell was spent to flee
    | FleeFailed  // the flee branch ran without a spell to spend
    | Lost        // the Guardian attacked

  datatype GuardianAction = UseRelic | FleeWithSpell

  /** The guardian's menu: the Relic and the Teleportation Spell when held. */
  function GuardianMenu(inventory: set<string>): seq<GuardianAction> {
    (if Relic in inventory then [UseRelic] else [])
    + (if TeleportationSpell in inventory then [FleeWithSpell] else [])
  }

  /** What the guardian's menu promises: a listed option does what it says; an empty menu
      or a number off the menu loses. */
  function MenuOutcome(inventory: set<string>, choice: int): GuardianResult {
    var menu := GuardianMenu(inventory);
    if 1 <= choice <= |menu| then
      (if menu[choice - 1] == UseRelic then Won else Fled)
    else Lost
  }

  /** What the guardian does. `choice` is the number read, or -1 when the input is not a
      number. Every number but -1 gets what the menu promises; -1 equals the option number
      of an item not held, so it wins for a player holding only the Teleportation Spell
      and reaches the flee branch, with nothing to spend, for one holding only the Relic.
      Only a successful flee changes the inventory: winning keeps the Relic. */
  predicate GuardianEffect(inventory: set<string>, choice: int, inventory': set<string>, result: GuardianResult) {
    && (choice != -1 ==> result == MenuOutcome(inventory, choice))
    && (choice == -1 ==>
          result == (if Relic !in inventory && TeleportationSpell in inventory then Won
                     else if Relic in inventory && TeleportationSpell !in inventory then FleeFailed
                     else Lost))
    && inventory' == (if result == Fled then inventory - {TeleportationSpell} else inventory)
  }

  /** `guardianEncounter`. */
  method GuardianEncounter(player: Player, choice: int) returns (result: GuardianResult)
    modifies player`inventory
    ensures GuardianEffect(old(player.inventory), choice, player.inventory, result)
  {
    var hasRelic := HasItem(player, Relic);
    var hasTeleport := HasItem(player, TeleportationSpell);

    var optionNumber := 1;
    var relicOption := -1;
    var teleportOption := -1;
    if hasRelic {
      relicOption := optionNumber;
      optionNumber := optionNumber + 1;
    }
    if hasTeleport {
      teleportOption := optionNumber;
      optionNumber := optionNumber + 1;
    }

    if !hasRelic && !hasTeleport {
      return Lost;
    }

    if choice == relicOption {
      result := Won;
    } else if choice == teleportOption {
      var used := UseItem(player, TeleportationSpell);
      result := if used then Fled else FleeFailed;
    } else {
      result := Lost;
    }
  }
}
