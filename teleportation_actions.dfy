/** The Teleportation Spell: a jump to a random open cell of the current level. */
module TeleportationActions {
  import opened Outcomes
  import opened DungeonMap
  import opened PositionDataHolder

  /** A cell the spell may land on: inside the grid and not a wall, the exit or the entrance. */
  predicate IsLandingCell(g: Grid, c: Cell) {
    InBounds(g, c) && At(g, c) != Wall && At(g, c) != Exit && At(g, c) != Entrance
  }

  /** Draws row and column from draws[i] and draws[i + 1], each taken modulo the number
      of ROWS, until the pair names a landing cell other than the player's own. A column
      past the end of the rows (only on a grid with more rows than columns) raises. */
  method UseTeleportationSpell(pos: Position, dungeon: MapState, draws: seq<nat>) returns (s: Status)
    modifies pos
    ensures s == Done || s == Failed(OutOfDraws) || s == Failed(ColumnOutOfRange)
    ensures s == Done ==>
      IsLandingCell(dungeon.currentLevel, pos.Here())
      && pos.Here() != old(pos.Here())
    ensures s == Done ==> pos.playerY < Rows(dungeon.currentLevel)
    ensures s != Done ==> pos.Here() == old(pos.Here())
    ensures s == Failed(ColumnOutOfRange) ==> Rows(dungeon.currentLevel) > Cols(dungeon.currentLevel)
  {
    var level := dungeon.currentLevel;
    var levelSize := |level|;
    var i := 0;
    while true
      invariant 0 <= i <= |draws|
      invariant pos.Here() == old(pos.Here())
      decreases |draws| - i
    {
      if i + 2 > |draws| {
        return Failed(OutOfDraws);
      }
      var newX := draws[i] % levelSize;
      var newY := draws[i + 1] % levelSize;
      i := i + 2;
      if newY >= |level[0]| {
        return Failed(ColumnOutOfRange);
      }
      var cell := level[newX][newY];
      if !(cell == Wall || cell == Exit || cell == Entrance)
         && !(newX == pos.playerX && newY == pos.playerY)
      {
        s := pos.SetCurrentPosition(dungeon, newX, newY);
        return;
      }
    }
  }
}
