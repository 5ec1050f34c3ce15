/** The level layouts and the map-wide state: which level is current and its number. */
module DungeonMap {
  import opened Outcomes

  const Wall := 'W'
  const Entrance := 'E'
  const Exit := 'X'
  const Floor := ' '

  /** A grid coordinate: `x` is the row, `y` the column. */
  datatype Cell = Cell(x: int, y: int)

  predicate IsGrid(g: seq<seq<char>>) {
    |g| > 0 && |g[0]| > 0 && forall i :: 0 <= i < |g| ==> |g[i]| == |g[0]|
  }

  /** A level layout: a non-empty rectangle of cells. */
  type Grid = g: seq<seq<char>> | IsGrid(g) witness [[Floor]]

  function Rows(g: Grid): nat { |g| }
  function Cols(g: Grid): nat { |g[0]| }

  predicate InBounds(g: Grid, c: Cell) {
    0 <= c.x < |g| && 0 <= c.y < |g[0]|
  }

  function At(g: Grid, c: Cell): char
    requires InBounds(g, c)
  {
    g[c.x][c.y]
  }

  /** A cell the player may stand on: inside the grid and not a wall. */
  predicate Walkable(g: Grid, c: Cell) {
    InBounds(g, c) && At(g, c) != Wall
  }

  /** The cells of `g` that hold `ch`. */
  function CellsWith(g: Grid, ch: char): set<Cell> {
    set x, y | 0 <= x < |g| && 0 <= y < |g[0]| && g[x][y] == ch :: Cell(x, y)
  }

  // LevelFactory
  const Level1: Grid := [
    "WWWWW",
    "W   W",
    "W W W",
    "W WXW",
    "WEWWW"]

  const Level2: Grid := [
    "WWWWW",
    "WE  W",
    "W W W",
    "W   X",
    "WW  W"]

  const Level3: Grid := [
    "WW  X",
    "W  W ",
    "W    ",
    "W EWW",
    "WWWWW"]

  const Levels: seq<Grid> := [Level1, Level2, Level3]

  /** `getLevel`: the layout of level `n`, which must be 1, 2 or 3. */
  function GetLevel(n: int): (r: Result<Grid>)
    ensures r.Ok? <==> 1 <= n <= |Levels|
    ensures r.Ok? ==> r.value == Levels[n - 1]
    ensures r.Err? ==> r.error == InvalidLevel
  {
    if n < 1 || n > |Levels| then Err(InvalidLevel) else Ok(Levels[n - 1])
  }

  /** Every level is a 5 by 5 grid with exactly one entrance and exactly one exit. */
  lemma LevelMarkers()
    ensures forall n :: 0 <= n < |Levels| ==> Rows(Levels[n]) == 5 && Cols(Levels[n]) == 5
    ensures CellsWith(Level1, Entrance) == {Cell(4, 1)} && CellsWith(Level1, Exit) == {Cell(3, 3)}
    ensures CellsWith(Level2, Entrance) == {Cell(1, 1)} && CellsWith(Level2, Exit) == {Cell(3, 4)}
    ensures CellsWith(Level3, Entrance) == {Cell(3, 2)} && CellsWith(Level3, Exit) == {Cell(0, 4)}
  {
  }

  /** DungeonMap's static state once the level factory has built the levels. */
  class MapState {
    var currentLevel: Grid
    var currentLevelNumber: int

    constructor ()
      ensures currentLevel == Level1 && currentLevelNumber == 1
    {
      currentLevel := Level1;
      currentLevelNumber := 1;
    }
  }
}
