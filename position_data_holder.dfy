/** Where the player stands on the current level. */
module PositionDataHolder {
  import opened Outcomes
  import opened DungeonMap

  class Position {
    var playerX: int
    var playerY: int

    function Here(): Cell
      reads this
    {
      Cell(playerX, playerY)
    }

    /** Makes `initialLevel` the current level, as level 1; the position starts at (0, 0). */
    constructor (dungeon: MapState, initialLevel: Grid)
      modifies dungeon
      ensures dungeon.currentLevel == initialLevel && dungeon.currentLevelNumber == 1
      ensures playerX == 0 && playerY == 0
    {
      playerX := 0;
      playerY := 0;
      new;
      dungeon.currentLevel := initialLevel;
      dungeon.currentLevelNumber := 1;
    }

    /** Moves to (x, y) on the current level; a cell outside the grid or a wall raises
        and leaves the position where it was. */
    method SetCurrentPosition(dungeon: MapState, x: int, y: int) returns (s: Status)
      modifies this
      ensures s == Done <==> Walkable(dungeon.currentLevel, Cell(x, y))
      ensures s == Failed(OutOfBounds) <==> !InBounds(dungeon.currentLevel, Cell(x, y))
      ensures s == Done || s == Failed(OutOfBounds) || s == Failed(IntoWall)
      ensures s == Done ==> Here() == Cell(x, y)
      ensures s != Done ==> Here() == old(Here())
    {
      var level := dungeon.currentLevel;
      if x < 0 || x >= |level| || y < 0 || y >= |level[0]| {
        return Failed(OutOfBounds);
      }
      if level[x][y] == Wall {
        return Failed(IntoWall);
      }
      playerX := x;
      playerY := y;
      s := Done;
    }
  }
}
