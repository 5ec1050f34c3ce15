/** Where the encounters of the current level sit, whether each has fired, and the check
    that runs them when the player steps onto their room. */
module EncounterManager {
  import opened Outcomes
  import opened DungeonMap
  import opened PlayerDataHolder
  import opened PositionDataHolder
  import opened Encounters
  import opened SetFacts

  /** The encounter rooms and the once-per-level flags (all rooms start at (0, 0)). */
  class EncounterState {
    var trapEncountered: bool
    var madScientistEncountered: bool
    var explorerEncountered: bool
    var guardianEncounterCompleted: bool
    var trapRoom: Cell
    var madScientistRoom: Cell
    var explorerRoom: Cell
    var guardianRoom: Cell

    constructor ()
      ensures !trapEncountered && !madScientistEncountered && !explorerEncountered
      ensures !guardianEncounterCompleted
      ensures trapRoom == Cell(0, 0) && madScientistRoom == Cell(0, 0)
      ensures explorerRoom == Cell(0, 0) && guardianRoom == Cell(0, 0)
    {
      trapEncountered := false;
      madScientistEncountered := false;
      explorerEncountered := false;
      guardianEncounterCompleted := false;
      trapRoom := Cell(0, 0);
      madScientistRoom := Cell(0, 0);
      explorerRoom := Cell(0, 0);
      guardianRoom := Cell(0, 0);
    }

    /** The four rooms, as one value. */
    function AllRooms(): Rooms
      reads this
    {
      Rooms(trapRoom, madScientistRoom, explorerRoom, guardianRoom)
    }
  }

  /** The rooms of the trap, the mad scientist, the lost explorer and the guardian. */
  datatype Rooms = Rooms(trap: Cell, madScientist: Cell, explorer: Cell, guardian: Cell)

  /** A room an encounter may occupy: inside the grid and not a wall, the exit or the entrance. */
  predicate IsValidEncounterRoom(level: Grid, c: Cell): (valid: bool)
    ensures valid ==> Walkable(level, c) && At(level, c) != Exit && At(level, c) != Entrance
    ensures InBounds(level, c) && At(level, c) == Floor ==> valid
  {
    InBounds(level, c) && At(level, c) != Wall && At(level, c) != Exit && At(level, c) != Entrance
  }

  /** Every cell of `level` an encounter may occupy. */
  function EncounterRooms(level: Grid): set<Cell> {
    set x, y | 0 <= x < |level| && 0 <= y < |level[0]| && IsValidEncounterRoom(level, Cell(x, y)) :: Cell(x, y)
  }

  /** Each level has room for three encounters in distinct valid cells, and level 3 has
      three plain floor cells, so placement can succeed on every level. */
  lemma RoomForEncounters()
    ensures forall n :: 0 <= n < |Levels| ==> |EncounterRooms(Levels[n])| >= 3
    ensures |CellsWith(Level3, Floor)| >= 3
  {
    var three1 := {Cell(1, 1), Cell(1, 2), Cell(1, 3)};
    assert three1 <= EncounterRooms(Level1);
    SubsetSize(three1, EncounterRooms(Level1));
    var three2 := {Cell(1, 2), Cell(1, 3), Cell(2, 1)};
    assert three2 <= EncounterRooms(Level2);
    SubsetSize(three2, EncounterRooms(Level2));
    var three3 := {Cell(0, 2), Cell(0, 3), Cell(1, 1)};
    assert three3 <= EncounterRooms(Level3);
    SubsetSize(three3, EncounterRooms(Level3));
    assert three3 <= CellsWith(Level3, Floor);
    SubsetSize(three3, CellsWith(Level3, Floor));
  }

  /** The `k`-th room candidate drawn from position `from` on: row and column from two
      consecutive draws. */
  function CandidateAt(level: Grid, draws: seq<nat>, from: nat, k: nat): (c: Cell)
    requires from + 2 * k + 1 < |draws|
    ensures InBounds(level, c)
  {
    Cell(draws[from + 2 * k] % |level|, draws[from + 2 * k + 1] % |level[0]|)
  }

  /** The result of drawing a room: the room and where the next draw starts, or the reason
      no room came out. */
  datatype RoomDraw = Found(room: Cell, next: nat) | Missed(error: Error)

  /** The answer of `getValidEncounterRoom` when its candidates start at draw `from` and the
      first `attempts` of them were invalid: the next valid candidate, `NoValidRoom` once a
      101st candidate is drawn, or `OutOfDraws` when no further candidate can be drawn. */
  function FirstValidRoom(level: Grid, draws: seq<nat>, from: nat, attempts: nat): (r: RoomDraw)
    requires attempts <= 100
    ensures r.Found? ==> IsValidEncounterRoom(level, r.room) && from < r.next <= |draws|
    ensures r.Missed? ==> r.error == NoValidRoom || r.error == OutOfDraws
    decreases 100 - attempts
  {
    if from + 2 * attempts + 2 > |draws| then Missed(OutOfDraws)
    else if attempts == 100 then Missed(NoValidRoom)
    else if IsValidEncounterRoom(level, CandidateAt(level, draws, from, attempts)) then
      Found(CandidateAt(level, draws, from, attempts), from + 2 * attempts + 2)
    else FirstValidRoom(level, draws, from, attempts + 1)
  }

  /** `FirstValidRoom` candidate by candidate, once the first `attempts` candidates were
      invalid: a room found is the first valid candidate; giving up means the 100
      candidates were invalid; running out means every candidate the draws allow was. */
  lemma {:induction false} FirstValidRoomIs(level: Grid, draws: seq<nat>, from: nat, attempts: nat)
    requires attempts <= 100 && from + 2 * attempts <= |draws|
    requires forall k: nat :: k < attempts ==> !IsValidEncounterRoom(level, CandidateAt(level, draws, from, k))
    ensures var r := FirstValidRoom(level, draws, from, attempts);
      && (r.Found? ==>
            && r.next <= from + 200 && (r.next - from) % 2 == 0
            && r.room == CandidateAt(level, draws, from, (r.next - from) / 2 - 1)
            && (forall k: nat :: k < (r.next - from) / 2 - 1 ==>
                  !IsValidEncounterRoom(level, CandidateAt(level, draws, from, k))))
      && (r == Missed(NoValidRoom) ==>
            && from + 202 <= |draws|
            && (forall k: nat :: k < 100 ==> !IsValidEncounterRoom(level, CandidateAt(level, draws, from, k))))
      && (r == Missed(OutOfDraws) ==>
            && |draws| < from + 202
            && (forall k: nat :: from + 2 * k + 1 < |draws| ==>
                  !IsValidEncounterRoom(level, CandidateAt(level, draws, from, k))))
    decreases 100 - attempts
  {
    var r := FirstValidRoom(level, draws, from, attempts);
    if from + 2 * attempts + 2 > |draws| {
      assert r == Missed(OutOfDraws);
      assert forall k: nat :: from + 2 * k + 1 < |draws| ==> k < attempts;
    } else if attempts == 100 {
      assert r == Missed(NoValidRoom);
    } else if IsValidEncounterRoom(level, CandidateAt(level, draws, from, attempts)) {
      assert r == Found(CandidateAt(level, draws, from, attempts), from + 2 * attempts + 2);
      assert (r.next - from) / 2 - 1 == attempts;
    } else {
      assert r == FirstValidRoom(level, draws, from, attempts + 1);
      FirstValidRoomIs(level, draws, from, attempts + 1);
    }
  }

  /** `getValidEncounterRoom`: draws candidates until a valid room turns up, raising once a
      101st candidate is drawn. The room found is the first valid one among the first 100;
      giving up means all 100 were invalid. */
  method GetValidEncounterRoom(level: Grid, draws: seq<nat>, from: nat) returns (r: RoomDraw)
    requires from <= |draws|
    ensures r.Found? ==>
      && IsValidEncounterRoom(level, r.room)
      && from < r.next <= |draws| && r.next <= from + 200
      && (r.next - from) % 2 == 0
      && r.room == CandidateAt(level, draws, from, (r.next - from) / 2 - 1)
      && (forall k: nat :: k < (r.next - from) / 2 - 1 ==>
            !IsValidEncounterRoom(level, CandidateAt(level, draws, from, k)))
    ensures r == Missed(NoValidRoom) ==>
      && from + 202 <= |draws|
      && (forall k: nat :: k < 100 ==> !IsValidEncounterRoom(level, CandidateAt(level, draws, from, k)))
    ensures r == Missed(OutOfDraws) ==>
      && |draws| < from + 202
      && (forall k: nat :: from + 2 * k + 1 < |draws| ==>
            !IsValidEncounterRoom(level, CandidateAt(level, draws, from, k)))
    ensures r.Missed? ==> r.error == NoValidRoom || r.error == OutOfDraws
    ensures r == FirstValidRoom(level, draws, from, 0)
  {
    var attempts := 0;
    var i := from;
    while true
      invariant 0 <= attempts <= 100
      invariant i == from + 2 * attempts && i <= |draws|
      invariant FirstValidRoom(level, draws, from, attempts) == FirstValidRoom(level, draws, from, 0)
      decreases 100 - attempts
    {
      if i + 2 > |draws| {
        FirstValidRoomIs(level, draws, from, 0);
        return Missed(OutOfDraws);
      }
      ghost var tried := attempts;
      var x := draws[i] % |level|;
      var y := draws[i + 1] % |level[0]|;
      assert Cell(x, y) == CandidateAt(level, draws, from, attempts);
      i := i + 2;
      attempts := attempts + 1;
      if attempts > 100 {
        FirstValidRoomIs(level, draws, from, 0);
        return Missed(NoValidRoom);
      }
      if IsValidEncounterRoom(level, Cell(x, y)) {
        FirstValidRoomIs(level, draws, from, 0);
        return Found(Cell(x, y), i);
      }
      assert FirstValidRoom(level, draws, from, tried) == FirstValidRoom(level, draws, from, attempts);
    }
  }

  /** The room one placement loop of `assignEncounters` settles on when it draws from
      `from` on: the first answer of `getValidEncounterRoom` that is not in `taken` (and,
      for the guardian, is a plain floor cell), or the first error. */
  function RoomPlacedFrom(level: Grid, draws: seq<nat>, from: nat, taken: set<Cell>, floorOnly: bool)
    : (r: RoomDraw)
    ensures r.Found? ==>
      && IsValidEncounterRoom(level, r.room) && r.room !in taken
      && (floorOnly ==> At(level, r.room) == Floor)
      && from < r.next <= |draws|
    ensures r.Missed? ==> r.error == NoValidRoom || r.error == OutOfDraws
    decreases |draws| - from
  {
    var d := FirstValidRoom(level, draws, from, 0);
    if d.Missed? || (d.room !in taken && (!floorOnly || At(level, d.room) == Floor)) then d
    else RoomPlacedFrom(level, draws, d.next, taken, floorOnly)
  }

  /** One placement loop of `assignEncounters`: draws valid rooms until one is not already
      taken (and, for the guardian, is a plain floor cell). */
  method PlaceEncounterRoom(level: Grid, draws: seq<nat>, from: nat, taken: set<Cell>, floorOnly: bool)
    returns (r: RoomDraw)
    requires from <= |draws|
    ensures r.Found? ==>
      && IsValidEncounterRoom(level, r.room) && r.room !in taken
      && (floorOnly ==> At(level, r.room) == Floor)
      && from < r.next <= |draws|
    ensures r.Missed? ==> r.error == NoValidRoom || r.error == OutOfDraws
    ensures r == RoomPlacedFrom(level, draws, from, taken, floorOnly)
  {
    var i := from;
    while true
      invariant from <= i <= |draws|
      invariant RoomPlacedFrom(level, draws, i, taken, floorOnly) == RoomPlacedFrom(level, draws, from, taken, floorOnly)
      decreases |draws| - i
    {
      r := GetValidEncounterRoom(level, draws, i);
      if r.Missed? {
        return;
      }
      if r.room !in taken && (!floorOnly || At(level, r.room) == Floor) {
        return;
      }
      i := r.next;
    }
  }

  /** Rooms as `assignEncounters` places them on a level with number `n`: trap and scientist
      in two different valid rooms, on level 2 the explorer in a third, on level 3 the
      guardian on a floor cell apart from both. */
  predicate RoomsPlaced(rooms: Rooms, level: Grid, n: int) {
    && IsValidEncounterRoom(level, rooms.trap)
    && IsValidEncounterRoom(level, rooms.madScientist)
    && rooms.trap != rooms.madScientist
    && (n == 2 ==>
          IsValidEncounterRoom(level, rooms.explorer)
          && rooms.explorer != rooms.trap && rooms.explorer != rooms.madScientist)
    && (n == 3 ==>
          IsValidEncounterRoom(level, rooms.guardian) && At(level, rooms.guardian) == Floor
          && rooms.guardian != rooms.trap && rooms.guardian != rooms.madScientist)
  }

  /** How `assignEncounters` ends: the rooms it leaves and whether a placement raised. */
  datatype Assigned = Assigned(rooms: Rooms, status: Status)

  /** What `assignEncounters` does to `rooms` on a level with number `n`: the trap's room is
      the first valid one drawn, and each later placement draws on after the one before.
      A placement that raises leaves the rooms placed before it and keeps the rest. */
  function Assignment(level: Grid, n: int, draws: seq<nat>, rooms: Rooms): (a: Assigned)
    ensures a.status == Done || a.status == Failed(NoValidRoom) || a.status == Failed(OutOfDraws)
    ensures a.status == Done ==> RoomsPlaced(a.rooms, level, n)
    ensures n != 2 ==> a.rooms.explorer == rooms.explorer
    ensures n != 3 ==> a.rooms.guardian == rooms.guardian
  {
    var trap := FirstValidRoom(level, draws, 0, 0);
    if trap.Missed? then Assigned(rooms, Failed(trap.error))
    else
      var scientist := RoomPlacedFrom(level, draws, trap.next, {trap.room}, false);
      if scientist.Missed? then Assigned(rooms.(trap := trap.room), Failed(scientist.error))
      else
        var placed := rooms.(trap := trap.room, madScientist := scientist.room);
        var taken := {trap.room, scientist.room};
        if n == 2 then
          var explorer := RoomPlacedFrom(level, draws, scientist.next, taken, false);
          if explorer.Missed? then Assigned(placed, Failed(explorer.error))
          else Assigned(placed.(explorer := explorer.room), Done)
        else if n == 3 then
          var guardian := RoomPlacedFrom(level, draws, scientist.next, taken, true);
          if guardian.Missed? then Assigned(placed, Failed(guardian.error))
          else Assigned(placed.(guardian := guardian.room), Done)
        else Assigned(placed, Done)
  }

  /** The state `assignEncounters` leaves for a level with number `n`: trap and
      scientist in two different valid rooms, on level 2 the explorer in a third, on
      level 3 the guardian on a floor cell apart from both; every flag cleared. */
  predicate Placed(enc: EncounterState, level: Grid, n: int)
    reads enc
  {
    && RoomsPlaced(enc.AllRooms(), level, n)
    && !enc.trapEncountered && !enc.madScientistEncountered
    && (n == 2 ==> !enc.explorerEncountered)
    && !enc.guardianEncounterCompleted
  }

  /** `assignEncounters`: places the level's encounters, all from one stream of draws, and
      clears their flags. The explorer's room and flag are touched only on level 2, the
      guardian's room only on level 3. If a placement raises, no flag is touched. */
  method AssignEncounters(enc: EncounterState, dungeon: MapState, level: Grid, draws: seq<nat>)
    returns (s: Status)
    modifies enc
    ensures Assigned(enc.AllRooms(), s) == Assignment(level, dungeon.currentLevelNumber, draws, old(enc.AllRooms()))
    ensures s == Done || s == Failed(NoValidRoom) || s == Failed(OutOfDraws)
    ensures s == Done ==> Placed(enc, level, dungeon.currentLevelNumber)
    ensures dungeon.currentLevelNumber != 2 ==>
      enc.explorerRoom == old(enc.explorerRoom) && enc.explorerEncountered == old(enc.explorerEncountered)
    ensures dungeon.currentLevelNumber != 3 ==> enc.guardianRoom == old(enc.guardianRoom)
    ensures s != Done ==>
      && enc.trapEncountered == old(enc.trapEncountered)
      && enc.madScientistEncountered == old(enc.madScientistEncountered)
      && enc.explorerEncountered == old(enc.explorerEncountered)
      && enc.guardianEncounterCompleted == old(enc.guardianEncounterCompleted)
  {
    var trap := GetValidEncounterRoom(level, draws, 0);
    if trap.Missed? {
      return Failed(trap.error);
    }
    enc.trapRoom := trap.room;

    var madScientist := PlaceEncounterRoom(level, draws, trap.next, {enc.trapRoom}, false);
    if madScientist.Missed? {
      return Failed(madScientist.error);
    }
    enc.madScientistRoom := madScientist.room;
    var next := madScientist.next;

    if dungeon.currentLevelNumber == 2 {
      var explorer := PlaceEncounterRoom(level, draws, next, {enc.trapRoom, enc.madScientistRoom}, false);
      if explorer.Missed? {
        return Failed(explorer.error);
      }
      enc.explorerRoom := explorer.room;
      next := explorer.next;
    }

    if dungeon.currentLevelNumber == 3 {
      var guardian := PlaceEncounterRoom(level, draws, next, {enc.trapRoom, enc.madScientistRoom}, true);
      if guardian.Missed? {
        return Failed(guardian.error);
      }
      enc.guardianRoom := guardian.room;
    }

    enc.trapEncountered := false;
    enc.madScientistEncountered := false;
    if dungeon.currentLevelNumber == 2 {
      enc.explorerEncountered := false;
    }
    enc.guardianEncounterCompleted := false;
    s := Done;
  }

  /** Whether stepping onto `c` would set off an encounter. */
  predicate Armed(enc: EncounterState, levelNumber: int, c: Cell)
    reads enc
  {
    || (!enc.trapEncountered && c == enc.trapRoom)
    || (!enc.madScientistEncountered && c == enc.madScientistRoom)
    || (levelNumber == 2 && !enc.explorerEncountered && c == enc.explorerRoom)
    || (levelNumber == 3 && !enc.guardianEncounterCompleted && c == enc.guardianRoom)
  }

  /** The inputs the encounters read: the numbers the player types, the riddle draw and
      typed answer, and the draws behind the explorer's gift. */
  datatype EncounterInput = EncounterInput(
    trapChoice: int,
    scientistChoice: int, riddleDraw: nat, answer: string,
    explorerChoice: int, explorerDraws: seq<nat>,
    guardianChoice: int)

  /** Which encounters a check set off, and how the guardian went if it did. */
  datatype Fired = Fired(trap: bool, scientist: bool, explorer: bool, guardian: Option<GuardianResult>)

  /** `fired` lists exactly the encounters that a player standing on `c` sets off, given the
      flags and rooms of `enc` before the check. */
  predicate FiresAt(enc: EncounterState, levelNumber: int, c: Cell, fired: Fired)
    reads enc
  {
    && fired.trap == (!enc.trapEncountered && c == enc.trapRoom)
    && fired.scientist == (!enc.madScientistEncountered && c == enc.madScientistRoom)
    && fired.explorer == (levelNumber == 2 && !enc.explorerEncountered && c == enc.explorerRoom)
    && fired.guardian.Some? == (levelNumber == 3 && !enc.guardianEncounterCompleted && c == enc.guardianRoom)
  }

  /** The player's items and points at one moment. */
  datatype Snapshot = Snapshot(inventory: set<string>, points: int)

  /** The player's items and points after the trap, the scientist and the explorer had
      their turn (equal to the state before, for one that did not fire). */
  datatype Trace = Trace(afterTrap: Snapshot, afterScientist: Snapshot, afterExplorer: Snapshot)

  /** The encounters that fired, applied one after the other in the order trap, scientist,
      explorer, guardian, take the player from `start` to `end`. `completed` is false only
      when the explorer's gift did not finish. */
  predicate EncountersEffect(start: Snapshot, riddles: seq<Riddle>, input: EncounterInput, fired: Fired,
                             completed: bool, trace: Trace, end: Snapshot)
    requires |riddles| > 0
  {
    var t := trace.afterTrap;
    var m := trace.afterScientist;
    var e := trace.afterExplorer;
    && (fired.trap ==> TrapEffect(start.inventory, start.points, input.trapChoice, t.inventory, t.points))
    && (!fired.trap ==> t == start)
    && (fired.scientist ==>
          ScientistEffect(t.inventory, t.points, riddles, input.scientistChoice, input.riddleDraw,
                          input.answer, m.inventory, m.points))
    && (!fired.scientist ==> m == t)
    && (fired.explorer ==>
          ExplorerEffect(m.inventory, m.points, input.explorerChoice, input.explorerDraws,
                         e.inventory, e.points, completed))
    && (!fired.explorer ==> e == m && completed)
    && (fired.guardian.Some? ==>
          GuardianEffect(e.inventory, input.guardianChoice, end.inventory, fired.guardian.value)
          && end.points == e.points)
    && (fired.guardian.None? ==> end == e)
  }

  /** The trap's block of `checkForEncounters`. */
  method TrapTurn(pos: Position, player: Player, enc: EncounterState, choice: int) returns (fires: bool)
    modifies enc`trapEncountered, player`inventory, player`powerPoints
    ensures fires == (!old(enc.trapEncountered) && pos.Here() == enc.trapRoom)
    ensures enc.trapEncountered == (old(enc.trapEncountered) || fires)
    ensures fires ==>
      TrapEffect(old(player.inventory), old(player.powerPoints), choice, player.inventory, player.powerPoints)
    ensures !fires ==> player.inventory == old(player.inventory) && player.powerPoints == old(player.powerPoints)
  {
    fires := !enc.trapEncountered && pos.playerX == enc.trapRoom.x && pos.playerY == enc.trapRoom.y;
    if fires {
      Trap(player, choice);
      enc.trapEncountered := true;
    }
  }

  /** The mad scientist's block of `checkForEncounters`. */
  method ScientistTurn(pos: Position, player: Player, enc: EncounterState, riddles: seq<Riddle>,
                       input: EncounterInput) returns (fires: bool)
    requires |riddles| > 0
    modifies enc`madScientistEncountered, player`inventory, player`powerPoints
    ensures fires == (!old(enc.madScientistEncountered) && pos.Here() == enc.madScientistRoom)
    ensures enc.madScientistEncountered == (old(enc.madScientistEncountered) || fires)
    ensures fires ==>
      ScientistEffect(old(player.inventory), old(player.powerPoints), riddles, input.scientistChoice,
                      input.riddleDraw, input.answer, player.inventory, player.powerPoints)
    ensures !fires ==> player.inventory == old(player.inventory) && player.powerPoints == old(player.powerPoints)
  {
    fires := !enc.madScientistEncountered
             && pos.playerX == enc.madScientistRoom.x && pos.playerY == enc.madScientistRoom.y;
    if fires {
      MadScientist(player, riddles, input.scientistChoice, input.riddleDraw, input.answer);
      enc.madScientistEncountered := true;
    }
  }

  /** The lost explorer's block of `checkForEncounters`. */
  method ExplorerTurn(pos: Position, player: Player, dungeon: MapState, enc: EncounterState,
                      input: EncounterInput) returns (fires: bool, completed: bool)
    modifies enc`explorerEncountered, player`inventory, player`powerPoints
    ensures fires ==
      (dungeon.currentLevelNumber == 2 && !old(enc.explorerEncountered) && pos.Here() == enc.explorerRoom)
    ensures enc.explorerEncountered == (old(enc.explorerEncountered) || fires)
    ensures fires ==>
      ExplorerEffect(old(player.inventory), old(player.powerPoints), input.explorerChoice, input.explorerDraws,
                     player.inventory, player.powerPoints, completed)
    ensures !fires ==>
      completed && player.inventory == old(player.inventory) && player.powerPoints == old(player.powerPoints)
  {
    fires := dungeon.currentLevelNumber == 2 && !enc.explorerEncountered
             && pos.playerX == enc.explorerRoom.x && pos.playerY == enc.explorerRoom.y;
    completed := true;
    if fires {
      completed := LostExplorerEncounter(player, input.explorerChoice, input.explorerDraws);
      enc.explorerEncountered := true;
    }
  }

  /** The guardian's block of `checkForEncounters`. */
  method GuardianTurn(pos: Position, player: Player, dungeon: MapState, enc: EncounterState, choice: int)
    returns (result: Option<GuardianResult>)
    modifies player`inventory
    ensures result.Some? ==
      (dungeon.currentLevelNumber == 3 && !enc.guardianEncounterCompleted && pos.Here() == enc.guardianRoom)
    ensures result.Some? ==> GuardianEffect(old(player.inventory), choice, player.inventory, result.value)
    ensures result.None? ==> player.inventory == old(player.inventory)
  {
    result := None;
    if dungeon.currentLevelNumber == 3 && !enc.guardianEncounterCompleted
       && pos.playerX == enc.guardianRoom.x && pos.playerY == enc.guardianRoom.y
    {
      var outcome := GuardianEncounter(player, choice);
      result := Some(outcome);
    }
  }

  /** `checkForEncounters`: every encounter whose room is the player's and that has not
      fired yet runs, in the order trap, scientist, explorer (level 2 only), guardian
      (level 3 only). The first three are flagged so that they fire at most once per
      placement; the guardian flag is never set, so the guardian fires on every visit.
      `trace` records the player's state between the encounters. */
  method CheckForEncounters(pos: Position, player: Player, dungeon: MapState, enc: EncounterState,
                            riddles: seq<Riddle>, input: EncounterInput)
    returns (fired: Fired, s: Status, ghost trace: Trace)
    requires |riddles| > 0
    modifies enc`trapEncountered, enc`madScientistEncountered, enc`explorerEncountered
    modifies player`inventory, player`powerPoints
    ensures var here := pos.Here(); old(FiresAt(enc, dungeon.currentLevelNumber, here, fired))
    ensures EncountersEffect(Snapshot(old(player.inventory), old(player.powerPoints)), riddles, input, fired,
                             s == Done, trace, Snapshot(player.inventory, player.powerPoints))
    ensures fired.trap || fired.scientist || fired.explorer || fired.guardian.Some?
            <==> old(Armed(enc, dungeon.currentLevelNumber, pos.Here()))
    ensures enc.trapEncountered == (old(enc.trapEncountered) || fired.trap)
    ensures enc.madScientistEncountered == (old(enc.madScientistEncountered) || fired.scientist)
    ensures enc.explorerEncountered == (old(enc.explorerEncountered) || fired.explorer)
    ensures !old(Armed(enc, dungeon.currentLevelNumber, pos.Here())) ==>
      player.inventory == old(player.inventory) && player.powerPoints == old(player.powerPoints)
    ensures !Armed(enc, dungeon.currentLevelNumber, pos.Here()) || dungeon.currentLevelNumber == 3
    ensures s == Done || (s == Failed(OutOfDraws) && fired.explorer)
  {
    var trap := TrapTurn(pos, player, enc, input.trapChoice);
    ghost var t := Snapshot(player.inventory, player.powerPoints);
    var scientist := ScientistTurn(pos, player, enc, riddles, input);
    ghost var m := Snapshot(player.inventory, player.powerPoints);
    var explorer, completed := ExplorerTurn(pos, player, dungeon, enc, input);
    ghost var e := Snapshot(player.inventory, player.powerPoints);
    var guardian := GuardianTurn(pos, player, dungeon, enc, input.guardianChoice);
    fired := Fired(trap, scientist, explorer, guardian);
    s := if completed then Done else Failed(OutOfDraws);
    trace := Trace(t, m, e);
  }
}
