/** Moving between levels: finding the entrance, switching the current level, and starting
    a game. `DungeonMap.setCurrentLevel` and `DungeonMap.initialize` are here as well:
    they call into this handler and the encounter manager, which both depend on the map. */
module LevelTransitionHandler {
  import opened Outcomes
  import opened DungeonMap
  import opened PlayerDataHolder
  import opened PositionDataHolder
  import opened EncounterManager

  /** `c` holds the first 'E' of `g` in row-major order. */
  predicate IsFirstEntrance(g: Grid, c: Cell) {
    && InBounds(g, c) && At(g, c) == Entrance
    && forall i, j :: 0 <= i < |g| && 0 <= j < |g[0]| && (i < c.x || (i == c.x && j < c.y)) ==>
         g[i][j] != Entrance
  }

  /** `isOnExit`: the player stands on the exit of the current level. */
  predicate IsOnExit(pos: Position, dungeon: MapState)
    reads pos, dungeon
    requires InBounds(dungeon.currentLevel, pos.Here())
    ensures IsOnExit(pos, dungeon) <==> pos.Here() in CellsWith(dungeon.currentLevel, Exit)
  {
    dungeon.currentLevel[pos.playerX][pos.playerY] == Exit
  }

  /** `findNextLevel`: the level after level `levelNumber`, or -1 after the last one. */
  function FindNextLevel(levelNumber: int): (next: int)
    ensures next == -1 <==> !(1 <= levelNumber < |Levels|)
    ensures next != -1 ==> next == levelNumber + 1 && GetLevel(next).Ok?
  {
    if levelNumber == 1 then 2
    else if levelNumber == 2 then 3
    else -1
  }

  /** `getLevelByNumber`: the layout of level `levelNumber`, which must be 1, 2 or 3. */
  function GetLevelByNumber(levelNumber: int): (r: Result<Grid>)
    ensures r.Ok? <==> 1 <= levelNumber <= 3
    ensures r.Ok? ==> r.value == Levels[levelNumber - 1]
    ensures r.Err? ==> r.error == InvalidLevel
  {
    if levelNumber < 1 || levelNumber > 3 then Err(InvalidLevel)
    else GetLevel(levelNumber)
  }

  /** `setCurrentLevelDirectly`: only the current grid and its number change. */
  method SetCurrentLevelDirectly(dungeon: MapState, newLevel: Grid, levelNumber: int)
    modifies dungeon
    ensures dungeon.currentLevel == newLevel && dungeon.currentLevelNumber == levelNumber
  {
    dungeon.currentLevel := newLevel;
    dungeon.currentLevelNumber := levelNumber;
  }

  /** `initializePlayerPosition`: scans the current level row by row and puts the player on
      the first 'E'; a level without one raises. */
  method InitializePlayerPosition(pos: Position, dungeon: MapState) returns (s: Status)
    modifies pos
    ensures s == Done <==> CellsWith(dungeon.currentLevel, Entrance) != {}
    ensures s == Done ==> IsFirstEntrance(dungeon.currentLevel, pos.Here())
    ensures s != Done ==> s == Failed(NoEntrance) && pos.Here() == old(pos.Here())
  {
    var level := dungeon.currentLevel;
    var i := 0;
    while i < |level|
      invariant 0 <= i <= |level|
      invariant forall a, b :: 0 <= a < i && 0 <= b < |level[0]| ==> level[a][b] != Entrance
      invariant pos.Here() == old(pos.Here())
    {
      var j := 0;
      while j < |level[i]|
        invariant 0 <= j <= |level[i]|
        invariant forall b :: 0 <= b < j ==> level[i][b] != Entrance
        invariant pos.Here() == old(pos.Here())
      {
        if level[i][j] == Entrance {
          s := pos.SetCurrentPosition(dungeon, i, j);
          assert Cell(i, j) in CellsWith(level, Entrance);
          return;
        }
        j := j + 1;
      }
      i := i + 1;
    }
    s := Failed(NoEntrance);
  }

  /** `DungeonMap.setCurrentLevel`: makes `newLevel` current as number `levelNumber`, puts
      the player on its first entrance and, above level 1, places its encounters afresh. */
  method SetCurrentLevel(pos: Position, dungeon: MapState, enc: EncounterState,
                         newLevel: Grid, levelNumber: int, draws: seq<nat>) returns (s: Status)
    modifies pos, dungeon, enc
    ensures dungeon.currentLevel == newLevel && dungeon.currentLevelNumber == levelNumber
    ensures CellsWith(newLevel, Entrance) == {} ==>
      s == Failed(NoEntrance) && pos.Here() == old(pos.Here()) && unchanged(enc)
    ensures CellsWith(newLevel, Entrance) != {} ==> IsFirstEntrance(newLevel, pos.Here())
    ensures levelNumber <= 1 ==> unchanged(enc)
    ensures levelNumber <= 1 && CellsWith(newLevel, Entrance) != {} ==> s == Done
    ensures levelNumber > 1 && CellsWith(newLevel, Entrance) != {} ==>
      && (s == Done || s == Failed(NoValidRoom) || s == Failed(OutOfDraws))
      && (s == Done ==> Placed(enc, newLevel, levelNumber))
      && Assigned(enc.AllRooms(), s) == Assignment(newLevel, levelNumber, draws, old(enc.AllRooms()))
  {
    dungeon.currentLevel := newLevel;
    dungeon.currentLevelNumber := levelNumber;
    SetCurrentLevelDirectly(dungeon, newLevel, levelNumber);
    s := InitializePlayerPosition(pos, dungeon);
    if s != Done {
      return;
    }
    if levelNumber > 1 {
      s := AssignEncounters(enc, dungeon, newLevel, draws);
    }
  }

  /** `DungeonMap.initialize`: level 1 becomes current, as number 1, and its encounters
      are placed. */
  method Initialize(dungeon: MapState, enc: EncounterState, draws: seq<nat>) returns (s: Status)
    modifies dungeon, enc
    ensures dungeon.currentLevel == Level1 && dungeon.currentLevelNumber == 1
    ensures s == Done || s == Failed(NoValidRoom) || s == Failed(OutOfDraws)
    ensures s == Done ==> Placed(enc, Level1, 1)
    ensures Assigned(enc.AllRooms(), s) == Assignment(Level1, 1, draws, old(enc.AllRooms()))
  {
    var levels := Levels;
    dungeon.currentLevel := levels[0];
    dungeon.currentLevelNumber := 1;
    s := AssignEncounters(enc, dungeon, dungeon.currentLevel, draws);
  }

  /** `handleLevelTransition`: after the last level it returns false and changes nothing;
      otherwise the next level becomes current, the player stands on its entrance, its
      encounters are placed, and it returns true. */
  method HandleLevelTransition(pos: Position, dungeon: MapState, enc: EncounterState, draws: seq<nat>)
    returns (continues: bool, s: Status)
    modifies pos, dungeon, enc
    ensures var next := FindNextLevel(old(dungeon.currentLevelNumber));
      next == -1 ==>
        && !continues && s == Done
        && unchanged(dungeon) && pos.Here() == old(pos.Here()) && unchanged(enc)
    ensures var next := FindNextLevel(old(dungeon.currentLevelNumber));
      next != -1 ==>
        && continues
        && dungeon.currentLevelNumber == next && dungeon.currentLevel == Levels[next - 1]
        && pos.Here() in CellsWith(dungeon.currentLevel, Entrance)
        && (s == Done || s == Failed(NoValidRoom) || s == Failed(OutOfDraws))
        && (s == Done ==> Placed(enc, dungeon.currentLevel, next))
        && Assigned(enc.AllRooms(), s) == Assignment(Levels[next - 1], next, draws, old(enc.AllRooms()))
  {
    var nextLevel := FindNextLevel(dungeon.currentLevelNumber);
    if nextLevel == -1 {
      return false, Done;
    }
    var newLevel := GetLevel(nextLevel).value;
    LevelMarkers();
    s := SetCurrentLevel(pos, dungeon, enc, newLevel, nextLevel, draws);
    continues := true;
  }

  /** `initializeGame`: `initialLevel` becomes current as level 1, a new position is set on
      its first entrance (twice, as in the source), encounters are not placed again, and a
      new player with 100 points and no items is returned with the position. */
  method InitializeGame(dungeon: MapState, enc: EncounterState, initialLevel: Grid)
    returns (player: Player, pos: Position, s: Status)
    modifies dungeon, enc
    ensures fresh(player) && fresh(pos)
    ensures player.powerPoints == StartingPowerPoints && player.inventory == {}
    ensures dungeon.currentLevel == initialLevel && dungeon.currentLevelNumber == 1
    ensures unchanged(enc)
    ensures s == Done <==> CellsWith(initialLevel, Entrance) != {}
    ensures s == Done ==> IsFirstEntrance(initialLevel, pos.Here())
    ensures s != Done ==> pos.Here() == Cell(0, 0)
  {
    pos := new Position(dungeon, initialLevel);
    s := SetCurrentLevel(pos, dungeon, enc, initialLevel, 1, []);
    if s == Done {
      s := InitializePlayerPosition(pos, dungeon);
    }
    player := new Player();
  }
}
