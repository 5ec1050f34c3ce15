/** One typed command: a step in one of four directions, a look around, the inventory,
    or something unrecognised. */
module MovementLogic {
  import opened Outcomes
  import opened JavaStrings
  import opened DungeonMap
  import opened PlayerDataHolder
  import opened PowerPointManager
  import opened PositionDataHolder
  import opened InventoryManager
  import opened SearchActions
  import opened Encounters
  import opened EncounterManager
  import opened DisplayManager

  const UpWords: set<string> :=
    {"up", "move up", "move forward", "forward", "go up", "upwards", "move upwards"}
  const DownWords: set<string> :=
    {"down", "go down", "below", "go below", "move below", "behind", "go behind"}
  const LeftWords: set<string> := {"left", "go left", "move left"}
  const RightWords: set<string> := {"right", "go right", "move right"}
  const LookWords: set<string> := {"look around", "search", "around", "look", "observe"}
  const InventoryWords: set<string> := {"look inventory", "inventory", "bag", "open inventory", "open bag"}

  /** A command after lower-casing: a step changes the row by `dx` and the column by `dy`. */
  datatype Command = Step(dx: int, dy: int) | LookAround | OpenInventory | Unrecognised

  /** The switch of `handleMovement` on the lower-cased input. A step is always exactly one
      cell up, down, left or right. */
  function ParseCommand(input: string): (c: Command)
    ensures c.Step? ==> (c.dx == 0 <==> c.dy != 0) && -1 <= c.dx <= 1 && -1 <= c.dy <= 1
    ensures c == Step(-1, 0) <==> ToLower(input) in UpWords
    ensures c == Step(1, 0) <==> ToLower(input) in DownWords
    ensures c == Step(0, -1) <==> ToLower(input) in LeftWords
    ensures c == Step(0, 1) <==> ToLower(input) in RightWords
    ensures c == LookAround <==> ToLower(input) in LookWords
    ensures c == OpenInventory <==> ToLower(input) in InventoryWords
  {
    var command := ToLower(input);
    if command in UpWords then Step(-1, 0)
    else if command in DownWords then Step(1, 0)
    else if command in LeftWords then Step(0, -1)
    else if command in RightWords then Step(0, 1)
    else if command in LookWords then LookAround
    else if command in InventoryWords then OpenInventory
    else Unrecognised
  }

  /** Commands are matched regardless of letter case. */
  lemma CommandsIgnoreCase(input: string)
    ensures ParseCommand(input) == ParseCommand(ToLower(input))
  {
    LowerIsIdempotent(input);
  }

  lemma {:induction false} LowerIsIdempotent(s: string)
    ensures ToLower(ToLower(s)) == ToLower(s)
  {
    var once := ToLower(s);
    assert forall i :: 0 <= i < |s| ==> LowerChar(once[i]) == once[i];
  }

  /** `isValidMove`: the target lies inside the grid (columns bounded by the first row) and
      is not a wall. */
  function IsValidMove(dungeon: MapState, newX: int, newY: int): (valid: bool)
    reads dungeon
    ensures valid <==> Walkable(dungeon.currentLevel, Cell(newX, newY))
  {
    var level := dungeon.currentLevel;
    if newX < 0 || newX >= |level| || newY < 0 || newY >= |level[0]| then false
    else level[newX][newY] != Wall
  }

  /** What a look around reads: its draws, the number typed and the potion draw. */
  datatype SearchInput = SearchInput(draws: seq<nat>, choice: int, potionDraw: nat)

  /** `handleMovement`. A step onto a walkable cell moves there, costs 3 points (floored
      at zero), runs the encounter check and returns true. Any other command returns false.
      A look around searches the room; the inventory command opens the inventory menu, where
      using an item may change the items, the points and (by teleport) the position; an
      unrecognised command, or a step into a wall or off the grid, changes nothing. The
      ghost results record what the encounter check and the search did. */
  method HandleMovement(pos: Position, player: Player, dungeon: MapState, enc: EncounterState,
                        relics: RelicManager, userInput: string, riddles: seq<Riddle>,
                        encounterInput: EncounterInput, searchInput: SearchInput,
                        inventoryInput: InventoryInput)
    returns (moved: bool, s: Status, ghost fired: Fired, ghost trace: Trace, ghost offered: seq<string>)
    requires |riddles| > 0
    modifies pos, player`inventory, player`powerPoints, relics
    modifies enc`trapEncountered, enc`madScientistEncountered, enc`explorerEncountered
    ensures var command := ParseCommand(userInput);
      moved <==> command.Step? && Walkable(dungeon.currentLevel, Cell(old(pos.playerX) + command.dx, old(pos.playerY) + command.dy))
    ensures moved ==> var command := ParseCommand(userInput);
      pos.Here() == Cell(old(pos.playerX) + command.dx, old(pos.playerY) + command.dy)
    ensures moved ==> var here := pos.Here(); old(FiresAt(enc, dungeon.currentLevelNumber, here, fired))
    ensures moved ==>
      EncountersEffect(Snapshot(old(player.inventory), Deducted(old(player.powerPoints), 3)), riddles,
                       encounterInput, fired, s == Done, trace, Snapshot(player.inventory, player.powerPoints))
    ensures moved ==> !Armed(enc, dungeon.currentLevelNumber, pos.Here()) || dungeon.currentLevelNumber == 3
    ensures !moved ==>
      && enc.trapEncountered == old(enc.trapEncountered)
      && enc.madScientistEncountered == old(enc.madScientistEncountered)
      && enc.explorerEncountered == old(enc.explorerEncountered)
    ensures ParseCommand(userInput) == LookAround ==>
      && pos.Here() == old(pos.Here())
      && Searched(dungeon.currentLevelNumber, old(relics.relicFound), old(player.inventory),
                  old(player.powerPoints), searchInput.draws, searchInput.choice, searchInput.potionDraw,
                  offered, s, relics.relicFound, player.inventory, player.powerPoints)
    ensures ParseCommand(userInput) == OpenInventory ==>
      && relics.relicFound == old(relics.relicFound)
      && InventoryMenuEffect(dungeon.currentLevel, old(player.inventory), old(player.powerPoints),
                             old(pos.Here()), inventoryInput.choice, s,
                             player.inventory, player.powerPoints, pos.Here())
    ensures !moved && ParseCommand(userInput) != LookAround && ParseCommand(userInput) != OpenInventory ==>
      && pos.Here() == old(pos.Here())
      && player.inventory == old(player.inventory) && player.powerPoints == old(player.powerPoints)
      && relics.relicFound == old(relics.relicFound) && s == Done
    ensures moved ==> relics.relicFound == old(relics.relicFound)
    ensures old(relics.relicFound) ==> relics.relicFound
    ensures s == Done || s == Failed(OutOfDraws) || s == Failed(ColumnOutOfRange)
  {
    fired := Fired(false, false, false, None);
    trace := Trace(Snapshot({}, 0), Snapshot({}, 0), Snapshot({}, 0));
    offered := [];
    var newX := pos.playerX;
    var newY := pos.playerY;
    var command := ParseCommand(userInput);
    match command {
      case Step(dx, dy) =>
        newX := newX + dx;
        newY := newY + dy;
      case LookAround =>
        offered, s := SearchActions.LookAround(player, dungeon, relics,
                        searchInput.draws, searchInput.choice, searchInput.potionDraw);
        return false, s, fired, trace, offered;
      case OpenInventory =>
        s := DisplayInventory(player, pos, dungeon, inventoryInput);
        return false, s, fired, trace, offered;
      case Unrecognised =>
        return false, Done, fired, trace, offered;
    }

    if !IsValidMove(dungeon, newX, newY) {
      return false, Done, fired, trace, offered;
    }

    var _ := pos.SetCurrentPosition(dungeon, newX, newY);
    DeductPowerPoints(player, 3);
    fired, s, trace := CheckForEncounters(pos, player, dungeon, enc, riddles, encounterInput);
    moved := true;
  }
}
