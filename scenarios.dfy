/** Whole-encounter outcomes worked through for concrete players. */
module Scenarios {
  import opened Items
  import opened PlayerDataHolder
  import opened PowerPointManager
  import opened Encounters
  import opened DungeonMap
  import opened PositionDataHolder
  import opened InventoryManager
  import opened EncounterManager
  import opened DisplayManager
  import opened MovementLogic
  import opened LevelTransitionHandler
  import opened JavaStrings

  /** A new game on level 1, with the trap placed in the room north of the entrance and the
      scientist elsewhere: the player starts on the entrance, steps up onto the trap holding
      nothing, and, whatever number is typed at the trap, ends with 90 points (3 for the step,
      7 for the trap) and no items. */
  method StepOntoTrapWithoutTools(trapChoice: int) returns (points: int, inventory: set<string>)
    ensures points == 90 && inventory == {}
  {
    var dungeon := new MapState();
    var enc := new EncounterState();
    enc.trapRoom := Cell(3, 1);
    enc.madScientistRoom := Cell(1, 1);
    var relics := new RelicManager();
    var player := new Player();
    var pos := new Position(dungeon, Level1);
    var placed := InitializePlayerPosition(pos, dungeon);
    LevelMarkers();
    assert pos.Here() in CellsWith(Level1, Entrance);
    assert pos.Here() == Cell(4, 1);
    assert ToLower("up") == "up";
    var input := EncounterInput(trapChoice, 0, 0, "", 0, [], 0);
    var moved, s;
    ghost var fired, trace, offered;
    moved, s, fired, trace, offered := HandleMovement(pos, player, dungeon, enc, relics, "up", [Riddle("", "")],
                                                      input, SearchInput([], 0, 0), InventoryInput(0, []));
    assert moved;
    assert fired.trap && !fired.scientist && !fired.explorer && fired.guardian.None?;
    points, inventory := player.powerPoints, player.inventory;
  }

  /** Leaving level 1 by its exit: the game goes on, on level 2, with the player on its
      entrance, however the new encounters are drawn. */
  method LeaveLevelOne(draws: seq<nat>) returns (continues: bool, levelNumber: int, here: Cell)
    ensures continues && levelNumber == 2 && here == Cell(1, 1)
  {
    var dungeon := new MapState();
    var enc := new EncounterState();
    var pos := new Position(dungeon, Level1);
    var onExit := pos.SetCurrentPosition(dungeon, 3, 3);
    var s;
    continues, s := HandleLevelTransition(pos, dungeon, enc, draws);
    LevelMarkers();
    levelNumber, here := dungeon.currentLevelNumber, pos.Here();
  }

  /** Leaving level 3 by its exit ends the game and leaves the player where they are. */
  method LeaveLastLevel(draws: seq<nat>) returns (continues: bool, here: Cell)
    ensures !continues && here == Cell(0, 4)
  {
    var dungeon := new MapState();
    var enc := new EncounterState();
    var pos := new Position(dungeon, Level3);
    SetCurrentLevelDirectly(dungeon, Level3, 3);
    var onExit := pos.SetCurrentPosition(dungeon, 0, 4);
    var s;
    continues, s := HandleLevelTransition(pos, dungeon, enc, draws);
    here := pos.Here();
  }

  /** Using the Relic on the guardian wins and the Relic stays in the inventory. */
  lemma RelicWinKeepsRelic(inventory': set<string>, result: GuardianResult)
    requires GuardianEffect({Relic}, 1, inventory', result)
    ensures result == Won && inventory' == {Relic}
  {
  }

  /** A player with exactly 70 points and nothing to offer loses the explorer's fight. */
  lemma ExplorerFightAtSeventy(choice: int, draws: seq<nat>, inventory': set<string>, points': int,
                               completed: bool)
    requires ExplorerEffect({}, 70, choice, draws, inventory', points', completed)
    ensures completed && points' == 65 && inventory' == {}
  {
  }

  /** Input that is not a number wins against the guardian for a player holding only the
      Teleportation Spell, although the menu it was shown offers no way to win. */
  lemma NonNumericInputWinsWithSpellOnly(inventory': set<string>, result: GuardianResult)
    requires GuardianEffect({TeleportationSpell}, -1, inventory', result)
    ensures result == Won && inventory' == {TeleportationSpell}
    ensures MenuOutcome({TeleportationSpell}, -1) == Lost
    ensures GuardianMenu({TeleportationSpell}) == [FleeWithSpell]
  {
  }

  /** For the same player, the only listed option flees and spends the spell. */
  lemma ListedOptionFlees(inventory': set<string>, result: GuardianResult)
    requires GuardianEffect({TeleportationSpell}, 1, inventory', result)
    ensures result == Fled && inventory' == {}
  {
  }
}
