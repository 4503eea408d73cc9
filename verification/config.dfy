/** Shared constants and enumerations of the engine (src/core/config.js), and the tile grid. */
module Config {

  /** Side of one tile, in field units. */
  const TileSize: int := 16
  /** Number of tiles along each side of the square field. */
  const GridSize: int := 26
  /** Side of the playfield: 26 tiles of 16 units. */
  const FieldSize: int := TileSize * GridSize

  const PlayerBaseLives: nat := 3
  const MaxEnemiesOnField: nat := 4
  const TotalEnemiesPerStage: nat := 20

  datatype Tile = Empty | Brick | Steel | Water | Grass | Ice | Base | Eagle

  datatype Direction = Up | Right | Down | Left

  datatype EnemyType = Basic | Fast | Power | Armor

  datatype GameState = Menu | StageIntro | Playing | Paused | GameOver | Score

  /** The seven pick-ups; `ExtraLife` is the one the game calls TANK. */
  datatype PowerUpType = Helmet | Timer | Shovel | Star | Grenade | ExtraLife | Gun

  /** Which edition of the engine a tick or a stage load follows: `AsWritten` is the code as it
      stands; `Repaired` gives the player's fire its due, keeps the pick-ups a grenade drops and
      puts the base back into the generated stages (README, "## Findings"). */
  datatype Build = AsWritten | Repaired

  /** The time that passes over frames of lengths `dts`. */
  function Sum(dts: seq<real>): real {
    if |dts| == 0 then 0.0 else Sum(dts[..|dts| - 1]) + dts[|dts| - 1]
  }

  /** A value that may be absent (the source's `null`). */
  datatype Option<T> = None | Some(value: T)

  /** A terrain grid, indexed `grid[row][col]`. */
  type Grid = seq<seq<Tile>>

  /** The grid every stage uses: GridSize rows of GridSize tiles. */
  ghost predicate IsGrid(g: Grid) {
    |g| == GridSize && forall y :: 0 <= y < |g| ==> |g[y]| == GridSize
  }

  /** True when (row, col) names a cell of `g`. */
  predicate InGrid(g: Grid, row: int, col: int) {
    0 <= row < |g| && 0 <= col < |g[row]|
  }

  /** `g` with the single cell (row, col) replaced by `t`. */
  function SetCell(g: Grid, row: int, col: int, t: Tile): (r: Grid)
    requires InGrid(g, row, col)
    ensures |r| == |g|
    ensures forall y :: 0 <= y < |g| ==> |r[y]| == |g[y]|
    ensures r[row][col] == t
    ensures forall y, x :: InGrid(g, y, x) && (y != row || x != col) ==> r[y][x] == g[y][x]
  {
    g[row := g[row][col := t]]
  }
}
