# Dungeon game engine, modelled in Dafny

This project models the game-state engine of a text dungeon crawler written in Java, and proves
properties of that model:

- three fixed 5×5 levels of walls, an entrance, an exit and floor;
- the player's position, power points and inventory, including the one-off Relic;
- how the encounter manager places a trap, a mad scientist, a lost explorer (level 2) and the
  guardian (level 3) in random rooms, and which of them fires when the player steps onto a room;
- the effect of each encounter on the player;
- movement commands, searching a room, potions, the teleportation spell and moving to the next
  level.

Each Java class whose fields change in place is a Dafny `class` with the same fields. These are:

- `Player` for `PlayerDataHolder`;
- `Position` for `PositionDataHolder`;
- `MapState` for the static current level of `DungeonMap`;
- `EncounterState` for `EncounterManager.EncounterState`;
- `RelicManager` for `InventoryManager.RelicManager`.

Their methods carry `modifies` frames and state the new state in full, either field by field or
through an effect predicate over the old and new values. Where an operation draws random
numbers, a reference function of the draws says what it picks: the gift's items, the rooms of the
encounters and the things a search turns up. The callers, up to the movement and level-transition
methods, state the same equation. The teleport's landing cell is the exception noted
under "## Left out". The encounter check passes through a ghost
snapshot of the player after each encounter, and each encounter's step from one snapshot to the next
is tied to that encounter's effect predicate. A step chains this from the points left after the
3-point step cost. The inventory menu of `DisplayManager.displayInventory` is a method over these
classes as well. The rest is pure:

- the level factory and `getLevel`;
- the deduction rule of the power point manager;
- command parsing;
- the string helpers the code relies on: `String.split(",")`, `String.join`, `trim`, `toLowerCase`.

These are datatypes and functions. Lemmas prove round trips and reference properties about them.
The encounters' prompts are modelled as menus: each encounter shows a numbered list
built from the inventory. A predicate per encounter defines its effect on that menu. The
method that follows the Java option-numbering code is proved to have exactly that effect.

Randomness and console input are parameters:

- Each `new Random()` of the source becomes a sequence of draws `draws: seq<nat>`. `nextInt(b)` is
  the next draw modulo `b`.
- Each number read from the scanner is an `int` parameter. The guardian reads with `hasNextInt`
  and takes `-1` for input that is not a number; the model's `-1` stands for that input.
- The source's retry loops have no bound. When the draws run out, the model answers
  `Failed(OutOfDraws)`, standing for a loop that has not ended.
- Java exceptions become a `Status` or `Result` with an `Error`.

Where the code and its own documentation comments disagree, the model follows the code:

- A step costs 3 power points (`MovementLogic.java:121-130`), not 5.
- A wrong riddle answer costs 8 (`Encounters.java:39-83`), not 10.
- Using the Relic on the guardian leaves the Relic in the inventory (`Encounters.java:316-378`).
- The guardian's "game over" path only prints (`LevelTransitionHandler.java:75-78`). The player
  keeps their points, and the guardian stays armed for the next visit.

## Model

| member | source | states |
|---|---|---|
| SetFacts.SubsetSize | src/main/java/com/dungeonGame/logic/InventoryManager.java:90-101 | a subset has at most as many elements as its superset (used to bound how many items can still be granted) |
| JavaStrings.Pieces | src/main/java/com/dungeonGame/logic/PlayerDataHolder.java:97-99 | splitting on commas always yields at least one piece, and no piece holds a comma |
| JavaStrings.Split | src/main/java/com/dungeonGame/logic/PlayerDataHolder.java:97-99 | no piece of `split(",")` holds a comma; a text without a comma splits into itself; when there was a comma, the last piece kept is non-empty |
| JavaStrings.Join | src/main/java/com/dungeonGame/Main.java:89-91 | `String.join(",", …)` of nothing is `""`; the join starts with the first name, and with two or more names a comma follows it |
| JavaStrings.StripTrailingEmpty | src/main/java/com/dungeonGame/logic/PlayerDataHolder.java:97-99 | `split` drops exactly the trailing empty pieces: the result is a prefix, its last piece is non-empty and every dropped piece is empty |
| JavaStrings.PiecesOfCommaFree | src/main/java/com/dungeonGame/logic/PlayerDataHolder.java:97-99 | a text without a comma splits into itself |
| JavaStrings.PiecesAfterComma | src/main/java/com/dungeonGame/logic/PlayerDataHolder.java:97-99 | splitting `a,b` gives `a` followed by the pieces of `b` when `a` has no comma |
| JavaStrings.PiecesOfJoin | src/main/java/com/dungeonGame/Main.java:89-91 | splitting a comma-join of comma-free names gives back the names, before trailing empties are dropped |
| JavaStrings.SplitJoin | src/main/java/com/dungeonGame/Main.java:89-91 | `split(",")` inverts `String.join(",", …)` on comma-free names whose last name is non-empty |
| JavaStrings.Trim | src/main/java/com/dungeonGame/encounter/Encounters.java:73 | the trimmed text is no longer than the input and starts and ends with a character above space |
| JavaStrings.TrimStart | src/main/java/com/dungeonGame/encounter/Encounters.java:73 | the result is a suffix of the input starting with a character above space |
| JavaStrings.TrimEnd | src/main/java/com/dungeonGame/encounter/Encounters.java:73 | the result is a prefix of the input ending with a character above space |
| JavaStrings.TrimStartDropsLead | src/main/java/com/dungeonGame/encounter/Encounters.java:73 | leading blanks in front of a non-blank start are exactly what is dropped |
| JavaStrings.TrimEndDropsTrail | src/main/java/com/dungeonGame/encounter/Encounters.java:73 | trailing blanks after a non-blank end are exactly what is dropped |
| JavaStrings.TrimDropsPadding | src/main/java/com/dungeonGame/encounter/Encounters.java:73 | trimming blank padding off any core gives back the core, including the empty core |
| JavaStrings.ToLower | src/main/java/com/dungeonGame/logic/MovementLogic.java:63 | lower-casing keeps the length, maps every character by the ASCII rule and leaves no upper-case letter |
| DungeonMap.GetLevel | src/main/java/com/dungeonGame/logic/mapAndLevelHandler/DungeonMap.java:85-91 | levels 1 to 3 are returned from the level table; any other number raises an invalid-level error |
| DungeonMap.LevelMarkers | src/main/java/com/dungeonGame/logic/mapAndLevelHandler/DungeonMap.java:151-199 | every level is 5×5 with exactly one entrance and one exit, at the cells the factory draws; this fixes the three level tables of `LevelFactory` (constants, so they carry no contract of their own) |
| DungeonMap.MapState.constructor | src/main/java/com/dungeonGame/logic/mapAndLevelHandler/DungeonMap.java:27-38 | the map starts on level 1 |
| PlayerDataHolder.ParseInventory | src/main/java/com/dungeonGame/logic/PlayerDataHolder.java:97-99 | `Set.of(text.split(","))` succeeds exactly when no name repeats; then the set holds exactly the split names, one per piece; otherwise it raises a duplicate-item error |
| PlayerDataHolder.DistinctElements | src/main/java/com/dungeonGame/logic/PlayerDataHolder.java:97-99 | a list without repeats has as many elements as its set |
| PlayerDataHolder.InventoryRoundTrip | src/main/java/com/dungeonGame/Main.java:89-91 | saving a non-empty inventory as a comma-join and reading it back with `setInventory` gives the same inventory, whatever order the set was joined in |
| PlayerDataHolder.EmptyInventoryReadsBack | src/main/java/com/dungeonGame/Main.java:89-91 | an empty inventory is saved as `""` and reads back as the set holding one empty name, not as the empty set |
| PlayerDataHolder.Player.constructor | src/main/java/com/dungeonGame/logic/PlayerDataHolder.java:36-39 | a new player has 100 power points, no items, no name and no room |
| PlayerDataHolder.Player.SetPowerPoints | src/main/java/com/dungeonGame/logic/PlayerDataHolder.java:63-65 | the points become the given value and nothing else changes |
| PlayerDataHolder.Player.SetInventoryFromText | src/main/java/com/dungeonGame/logic/PlayerDataHolder.java:97-99 | the inventory becomes the parsed set; on a repeated name it raises and the inventory is unchanged |
| PowerPointManager.Deducted | src/main/java/com/dungeonGame/logic/PowerPointManager.java:55-61 | the result is never negative: it is `points - amount` when that is not negative and 0 otherwise, never more than `points` |
| PowerPointManager.DeductionsCompose | src/main/java/com/dungeonGame/logic/PowerPointManager.java:55-61 | two deductions floored at zero equal one deduction of their sum |
| PowerPointManager.DeductionLeavesAlive | src/main/java/com/dungeonGame/logic/PlayerDataHolder.java:93-95 | after a deduction the player is alive (points above zero) exactly when the amount was less than the points held |
| PowerPointManager.AddPowerPoints | src/main/java/com/dungeonGame/logic/PowerPointManager.java:29-32 | the points grow by exactly the amount |
| PowerPointManager.DeductPowerPoints | src/main/java/com/dungeonGame/logic/PowerPointManager.java:55-61 | the points become the floored deduction, and the player is still alive exactly when fewer points were taken than held |
| PositionDataHolder.Position.constructor | src/main/java/com/dungeonGame/logic/PositionDataHolder.java:34-37 | the position starts at (0, 0) and the map's current level becomes the given level, numbered 1 |
| PositionDataHolder.Position.SetCurrentPosition | src/main/java/com/dungeonGame/logic/PositionDataHolder.java:65-74 | the move is taken exactly when the target is in bounds and not a wall; out of bounds and into a wall raise their own errors and leave the position unchanged |
| TeleportationActions.UseTeleportationSpell | src/main/java/com/dungeonGame/roomContents/TeleportationActions.java:40-58 | a successful teleport lands on an in-bounds cell that is not a wall, exit or entrance, other than the current one; a column drawn past the row width (only possible on a grid with more rows than columns) raises; failure leaves the position unchanged |
| InventoryManager.AddItem | src/main/java/com/dungeonGame/logic/InventoryManager.java:23-25 | the item is added, and adding an item already held changes nothing |
| InventoryManager.UseItem | src/main/java/com/dungeonGame/logic/InventoryManager.java:45-47 | the answer is true exactly when the item was held, and afterwards it is not held |
| InventoryManager.ClearInventory | src/main/java/com/dungeonGame/logic/InventoryManager.java:54-56 | the inventory becomes empty |
| InventoryManager.GiftFrom | src/main/java/com/dungeonGame/logic/InventoryManager.java:90-101 | the gift from a given draw on only adds pool items and loses nothing; when it completes exactly `amount` new items were added (none for an amount that is not positive), otherwise fewer |
| InventoryManager.GiveRandomItems | src/main/java/com/dungeonGame/logic/InventoryManager.java:90-101 | the new inventory and completion are exactly `GiftFrom` of the draws; so only pool items are added, nothing is removed, and a completed call adds exactly `amount` new items; asking for more items than are still missing never completes, which stands for the endless loop of the source |
| InventoryManager.HasItem | src/main/java/com/dungeonGame/logic/InventoryManager.java:34-36 | the answer is true exactly when the item is in the player's inventory |
| InventoryManager.HandleInventoryItemUse | src/main/java/com/dungeonGame/logic/InventoryManager.java:127-161 | the new inventory, points, position and status satisfy `ItemUseEffect`: a held Teleportation Spell is spent, keeps the points and, when it lands, moves to a valid cell other than the current one (otherwise the position stays); a held Cake gives +3 and a held Sandwich +5; any other selection, or an item not held, changes nothing |
| InventoryManager.RelicManager.constructor | src/main/java/com/dungeonGame/logic/InventoryManager.java:171 | the Relic starts as not found |
| InventoryManager.RelicManager.IsRelicFound | src/main/java/com/dungeonGame/logic/InventoryManager.java:178-180 | the answer is true exactly when the Relic has been recorded as found |
| InventoryManager.RelicManager.MarkRelicFound | src/main/java/com/dungeonGame/logic/InventoryManager.java:185-187 | afterwards the Relic is recorded as found |
| PotionActions.GetRandomPotion | src/main/java/com/dungeonGame/roomContents/PotionActions.java:92-95 | the potion is one of the three potions, chosen by the draw |
| PotionActions.EveryPotionCanBeDrawn | src/main/java/com/dungeonGame/roomContents/PotionActions.java:34 | every potion in the table is drawn by some draw |
| PotionActions.DrinkPotion | src/main/java/com/dungeonGame/roomContents/PotionActions.java:62-80 | the sleeping potion takes 5 points (floored at zero), the health potion gives 5, and any other potion leaves the points as they were |
| SearchActions.SearchPool | src/main/java/com/dungeonGame/logic/SearchActions.java:59-124 | a room holds the six base items, plus the Relic exactly on level 3 while it has not been found; no item is listed twice |
| SearchActions.TurnedUp | src/main/java/com/dungeonGame/logic/SearchActions.java:75-80 | when drawing completes, exactly `count` distinct pool items turned up, starting with those found before |
| SearchActions.SearchFinds | src/main/java/com/dungeonGame/logic/SearchActions.java:72-80 | no draws find nothing; a completed search finds `draws[0] % 2 + 1` things, one or two |
| SearchActions.LookAround | src/main/java/com/dungeonGame/logic/SearchActions.java:59-124 | the Relic flag, inventory, points and status satisfy `Searched`: the items offered are exactly `SearchFinds` of the draws, and the search ends with `OutOfDraws` exactly when those run out first; running out of draws or a choice out of range changes nothing; a Potion is drunk instead of kept; taking the Relic also marks it found; any other item is added to the inventory; a found Relic stays found |
| Encounters.Pick | src/main/java/com/dungeonGame/encounter/Encounters.java:169-234 | a numbered menu answers the listed option for a number in range and the fallback otherwise |
| Encounters.Trap | src/main/java/com/dungeonGame/encounter/Encounters.java:102-141 | the trap follows its menu: the hammer or the freeze spell is spent to escape unharmed, and anything else costs 7 points; with neither tool held every input costs 7 |
| Encounters.MadScientist | src/main/java/com/dungeonGame/encounter/Encounters.java:39-83 | with a Freeze Spell held, option 1 spends it and ends the encounter; otherwise the drawn riddle is asked, a trimmed, lower-cased answer equal to the stored one passes unharmed, and a wrong one costs 8 points (floored at zero) and nothing else |
| Encounters.AnswerIgnoresPadding | src/main/java/com/dungeonGame/encounter/Encounters.java:73 | blank padding around an answer never changes how it is judged |
| Encounters.HandleExplorerWin | src/main/java/com/dungeonGame/encounter/Encounters.java:269-271 | the inventory and completion are exactly `GiftFrom` of the draws for three items, so the player gains 3 new pool items, which cannot complete when fewer than 3 are still missing |
| Encounters.HandleExplorerLose | src/main/java/com/dungeonGame/encounter/Encounters.java:282-286 | the player loses 5 points (floored at zero) and the whole inventory |
| Encounters.FightLostExplorer | src/main/java/com/dungeonGame/encounter/Encounters.java:246-259 | with more than 70 points the fight is won and the gift is exactly `GiftFrom` of the draws for three items; with 70 or fewer it is lost, costing 5 points (floored at zero) and every item |
| Encounters.LostExplorerEncounter | src/main/java/com/dungeonGame/encounter/Encounters.java:169-234 | the explorer follows his menu: subduing spends the Hammer and the Freeze Spell and wins the 3 items `GiftFrom` names for the draws, escaping spends the Teleportation Spell, and fighting (also what an unlisted number does) wins 3 items above 70 points and otherwise costs 5 points and the whole inventory |
| Encounters.GuardianEncounter | src/main/java/com/dungeonGame/encounter/Encounters.java:316-378 | the guardian follows its menu: the Relic wins and is kept, the Teleportation Spell flees and is spent, and anything else loses; input that is not a number takes the code's own path: it wins with only the spell held and fails to flee with only the Relic |
| EncounterManager.EncounterState.constructor | src/main/java/com/dungeonGame/encounter/EncounterManager.java:251-321 | no encounter has fired yet and every room starts at (0, 0) |
| EncounterManager.IsValidEncounterRoom | src/main/java/com/dungeonGame/encounter/EncounterManager.java:189-192 | a valid room is walkable and neither the exit nor the entrance, and every floor cell is valid; the model asks in addition that the cell is inside the grid, which every drawn candidate is |
| EncounterManager.RoomForEncounters | src/main/java/com/dungeonGame/encounter/EncounterManager.java:189-192 | every level has at least three rooms that can hold an encounter, and level 3 has at least three floor rooms for the guardian |
| EncounterManager.CandidateAt | src/main/java/com/dungeonGame/encounter/EncounterManager.java:153-168 | every room drawn lies inside the level |
| EncounterManager.FirstValidRoom | src/main/java/com/dungeonGame/encounter/EncounterManager.java:153-168 | a room answered is a valid encounter room drawn after `from`, and the only errors are no-valid-room and running out of draws |
| EncounterManager.FirstValidRoomIs | src/main/java/com/dungeonGame/encounter/EncounterManager.java:153-168 | the room `getValidEncounterRoom` answers is the first valid candidate, drawn from two draws each; no-valid-room means the first 100 candidates were invalid; running out means every candidate the draws allow was invalid |
| EncounterManager.GetValidEncounterRoom | src/main/java/com/dungeonGame/encounter/EncounterManager.java:153-168 | the room found is the first valid one among at most 100 drawn candidates; after 100 invalid candidates it raises no-valid-room; the answer is exactly `FirstValidRoom` of the draws |
| EncounterManager.RoomPlacedFrom | src/main/java/com/dungeonGame/encounter/EncounterManager.java:85-88 | the room a placement loop settles on is valid, not taken, floor where floor is required, and drawn after `from` |
| EncounterManager.PlaceEncounterRoom | src/main/java/com/dungeonGame/encounter/EncounterManager.java:80-122 | a placed room is a valid encounter room not already taken, and a floor cell where floor is required; the answer is exactly `RoomPlacedFrom` of the draws |
| EncounterManager.Assignment | src/main/java/com/dungeonGame/encounter/EncounterManager.java:80-122 | the rooms each placement draws, in order from one stream of draws: a completed assignment places the rooms as `RoomsPlaced` says, and the explorer's room changes only on level 2, the guardian's only on level 3 |
| EncounterManager.AssignEncounters | src/main/java/com/dungeonGame/encounter/EncounterManager.java:80-122 | the four rooms and the status are exactly `Assignment` of the draws, so a placement that raises leaves the rooms placed before it; on success the trap and the scientist sit in different valid rooms, the explorer is placed on level 2 and the guardian on a floor room of level 3, and every flag is reset; rooms of other levels' encounters are left alone |
| EncounterManager.CheckForEncounters | src/main/java/com/dungeonGame/encounter/EncounterManager.java:201-239 | an encounter fires exactly when the player stands on its armed room (`FiresAt`); each fired encounter's flag is set; the encounters run in the order trap, scientist, explorer, guardian, each fired one taking the player from the previous snapshot to the next by its effect predicate and each other one leaving the snapshot as it was (`EncountersEffect`); a player on no armed room is unchanged; only the guardian stays armed afterwards |
| MovementLogic.ParseCommand | src/main/java/com/dungeonGame/logic/MovementLogic.java:63-119 | each word list maps, ignoring case, to exactly one command, and every step is one orthogonal cell |
| MovementLogic.CommandsIgnoreCase | src/main/java/com/dungeonGame/logic/MovementLogic.java:63 | a command and its lower-cased form are parsed alike |
| MovementLogic.LowerIsIdempotent | src/main/java/com/dungeonGame/Main.java:139 | lower-casing an already lower-cased input changes nothing |
| MovementLogic.IsValidMove | src/main/java/com/dungeonGame/logic/MovementLogic.java:156-167 | a move is valid exactly when the target is inside the level and not a wall |
| MovementLogic.HandleMovement | src/main/java/com/dungeonGame/logic/MovementLogic.java:58-131 | the player moves exactly on a step command to a walkable cell; a move costs 3 points (floored at zero) and then runs the encounters of the reached room in order, as `EncountersEffect` states from the points left after the step; a look around leaves the position and satisfies `Searched`; the inventory command satisfies `InventoryMenuEffect`; any other command changes nothing; without a move the flags are unchanged; a reached room is disarmed unless on level 3; a found Relic stays found |
| LevelTransitionHandler.IsOnExit | src/main/java/com/dungeonGame/logic/mapAndLevelHandler/LevelTransitionHandler.java:26-28 | the player is on the exit exactly when the current cell holds the level's exit |
| LevelTransitionHandler.FindNextLevel | src/main/java/com/dungeonGame/logic/mapAndLevelHandler/LevelTransitionHandler.java:86-93 | levels 1 and 2 lead to the next existing level, and every other number answers -1 |
| LevelTransitionHandler.GetLevelByNumber | src/main/java/com/dungeonGame/logic/mapAndLevelHandler/LevelTransitionHandler.java:158-163 | levels 1 to 3 are found; any other number raises an invalid-level error |
| LevelTransitionHandler.SetCurrentLevelDirectly | src/main/java/com/dungeonGame/logic/mapAndLevelHandler/LevelTransitionHandler.java:176-179 | the map's level and number become the given ones |
| LevelTransitionHandler.InitializePlayerPosition | src/main/java/com/dungeonGame/logic/mapAndLevelHandler/LevelTransitionHandler.java:101-111 | the player is put on the first entrance in row order, and a level without an entrance raises no-entrance with the position unchanged |
| LevelTransitionHandler.SetCurrentLevel | src/main/java/com/dungeonGame/logic/mapAndLevelHandler/DungeonMap.java:112-124 | the new level becomes current, the player stands on its entrance, and levels after the first get fresh encounters: the rooms and status are exactly `Assignment` of the draws, including the rooms left by a placement that raises |
| LevelTransitionHandler.Initialize | src/main/java/com/dungeonGame/logic/mapAndLevelHandler/DungeonMap.java:60-71 | the map starts on level 1, and the encounter rooms and status are exactly `Assignment` of the draws for level 1, so on success the encounters are placed |
| LevelTransitionHandler.HandleLevelTransition | src/main/java/com/dungeonGame/logic/mapAndLevelHandler/LevelTransitionHandler.java:50-67 | on levels 1 and 2 the game continues on the next level from its entrance, with the rooms and status exactly `Assignment` of the draws for that level; on the last level the game ends and no state changes |
| LevelTransitionHandler.InitializeGame | src/main/java/com/dungeonGame/logic/mapAndLevelHandler/LevelTransitionHandler.java:130-144 | a fresh 100-point player with no items starts on level 1 at its entrance, and the encounters are left as they were; a level without an entrance leaves the new position at (0, 0) |
| Scenarios.StepOntoTrapWithoutTools | src/main/java/com/dungeonGame/logic/MovementLogic.java:58-131 | a new player with no items on level 1 who types "up" from the entrance onto the trap ends with 90 points (3 for the step, 7 for the trap) and no items, whatever trap option is typed |
| Scenarios.LeaveLevelOne | src/main/java/com/dungeonGame/logic/mapAndLevelHandler/LevelTransitionHandler.java:50-67 | a player placed on the exit of level 1 goes on to level 2 and stands on its entrance (1, 1) |
| Scenarios.LeaveLastLevel | src/main/java/com/dungeonGame/logic/mapAndLevelHandler/LevelTransitionHandler.java:50-67 | a player on the exit of level 3 ends the game and stays on that exit |
| DisplayManager.UsableItems | src/main/java/com/dungeonGame/logic/DisplayManager.java:170-182 | the menu lists `Teleportation Spell`, `Cake (+3 Power Points)` and `Sandwich (+5 Power Points)` exactly for the items held, each once, in that order |
| DisplayManager.MenuEntriesAreHeld | src/main/java/com/dungeonGame/logic/DisplayManager.java:170-198 | every entry of the menu names an item the player holds |
| DisplayManager.DisplayInventory | src/main/java/com/dungeonGame/logic/DisplayManager.java:154-208 | the new inventory, points and position satisfy `InventoryMenuEffect`: a number from 1 to the menu's length uses that entry as `handleInventoryItemUse` does, and any other number, a menu without usable items or an empty inventory changes nothing |
| Scenarios.RelicWinKeepsRelic | src/main/java/com/dungeonGame/encounter/Encounters.java:316-378 | using the Relic on the guardian wins and the Relic remains held |
| Scenarios.ExplorerFightAtSeventy | src/main/java/com/dungeonGame/encounter/Encounters.java:246-259 | a player with 70 points and no items loses the fight, ending with 65 points and nothing held |
| Scenarios.NonNumericInputWinsWithSpellOnly | src/main/java/com/dungeonGame/encounter/Encounters.java:316-378 | with only the spell held, input that is not a number wins against the guardian, although the only listed option is to flee |
| Scenarios.ListedOptionFlees | src/main/java/com/dungeonGame/encounter/Encounters.java:316-378 | with only the spell held, option 1 flees and spends the spell |

## Left out

- Console output, delays, screen clearing and the room and map displays (`GameUtils`, the other
  methods of `DisplayManager`) are left out: they have no effect on the game state.
  `handleGameOver` only prints, so it is not modelled either.
- The main loop, saving and loading through `UserDAO`/SQLite, the `test.mode` shortcut and
  `GameUtils` are left out: they are I/O around the engine.
- `Scanner` input is a parameter. The trap, scientist, explorer, search and inventory prompts read
  with a bare `nextInt`, which throws on input that is not a number; that exception is not
  modelled, and those prompts' parameters are always numbers.
- `Random` is a sequence of draws per operation. The retry loops of `giveRandomItems`,
  room placement and teleportation have no bound in the source; the model stops at the end of the
  draws with `OutOfDraws`. That a loop can run forever is stated as "never completes" (for example,
  `GiveRandomItems` cannot complete when fewer pool items are missing than asked for); it is not
  proved that the source loops forever.
- The mad scientist's random opening line is left out; it only selects text. The riddles table is a
  parameter, so its contents are not part of this model.
- Java `int` overflow is not modelled. Power points are unbounded integers. Repeated searches that
  find Health potions raise the points without bound, so the source's points could wrap past
  2^31 - 1 where the model's keep growing.
- `toLowerCase` is modelled for ASCII letters only.
- `trim` strips every character up to and including the space character, as Java does.
- The map's level is both a grid and a number, and the model keeps them as the source sets them.
  The source compares level arrays by reference and fetches the next level by number. On the
  loaded-game path (`Main`, not modelled), `PositionDataHolder`'s constructor resets the number to 1
  while the loaded grid stays current, so the grid and the number can disagree. The model's `Position` constructor
  resets the number in the same way, but no property is proved about a game in that state.
- The static fields of `DungeonMap` that are `null` before `initialize` are not modelled. The map
  state is the state after the level factory has run, so every `currentLevel != null` guard holds.
- Static state becomes an explicit object passed along: the map (`MapState`), the guardian flag and
  the Relic flag (`EncounterState`, `RelicManager`).
- `drinkPotion` and `lookAround` are modelled without their unused position parameter, and
  `handleLevelTransition` without its player parameter. These are used only for display.
- `LevelTransitionHandler`'s own `player` field is modelled as the fresh player that
  `InitializeGame` returns.
- `setName`, `setCurrentRoom`, `setInventory(Set)` and the getters are not modelled: they are plain
  field reads and writes. The model's fields are public.
- `EncounterManager.EncounterState`'s per-field setters and getters are not modelled separately.
  The methods that call them set the fields directly.
- The guardian's completion flag is never set to true anywhere in the source, so the model keeps it
  false. A guardian on level 3 stays armed.
- InventoryManager.HandleInventoryItemUse: the landing cell is stated as valid and different from
  the start, not as the first valid candidate among the draws.
- TeleportationActions.UseTeleportationSpell: which candidate the draws pick is not stated, only
  that the landing cell is valid.
