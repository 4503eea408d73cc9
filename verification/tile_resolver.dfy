/** Terrain rules of src/core/tileResolver.js: which tiles tanks may enter, which tiles stop
    bullets, and how one hit changes one cell of the grid. */
module TileResolver {
  import opened Config

  /** Tanks may enter empty ground, grass and ice. */
  predicate IsPassable(tile: Tile) {
    tile == Empty || tile == Grass || tile == Ice
  }

  /** Bullets are stopped by brick, steel, water and the base wall. */
  predicate IsBulletBlocking(tile: Tile) {
    tile == Brick || tile == Steel || tile == Water || tile == Base
  }

  /** Every tile except the eagle is exactly one of passable and bullet-blocking; the eagle is
      neither (bullets reach it through the resolver's dedicated eagle branch). */
  lemma TerrainPartition(tile: Tile)
    ensures !(IsPassable(tile) && IsBulletBlocking(tile))
    ensures tile != Eagle <==> (IsPassable(tile) || IsBulletBlocking(tile))
    ensures IsPassable(tile) <==> tile in {Empty, Grass, Ice}
    ensures IsBulletBlocking(tile) <==> tile in {Brick, Steel, Water, Base}
  {
  }

  /** True when a hit of power `power` destroys a tile of this kind. */
  predicate Destructible(tile: Tile, power: int) {
    tile == Brick || tile == Base || (tile == Steel && power > 1)
  }

  /** `hitTile(level, row, col, power)`: returns the new grid and whether the tile was
      destroyed. Brick and the base wall fall to any power, steel only to power above 1;
      a destroyed tile becomes EMPTY. No other cell ever changes. */
  function HitTile(level: Grid, row: int, col: int, power: int): (r: (Grid, bool))
    requires InGrid(level, row, col)
    ensures r.1 <==> Destructible(level[row][col], power)
    ensures r.1 ==> r.0 == SetCell(level, row, col, Empty)
    ensures !r.1 ==> r.0 == level
    ensures |r.0| == |level| && forall y :: 0 <= y < |level| ==> |r.0[y]| == |level[y]|
    ensures forall y, x :: InGrid(level, y, x) && (y != row || x != col) ==> r.0[y][x] == level[y][x]
  {
    var tile := level[row][col];
    if tile == Brick then
      (SetCell(level, row, col, Empty), true)
    else if tile == Steel && power > 1 then
      (SetCell(level, row, col, Empty), true)
    else if tile == Base then
      (SetCell(level, row, col, Empty), true)
    else
      (level, false)
  }

  /** Steel is the only tile whose fate depends on power: a power-1 hit leaves it standing and
      reports no destruction; a stronger hit clears it. */
  lemma SteelNeedsPowerTwo(level: Grid, row: int, col: int, power: int)
    requires InGrid(level, row, col) && level[row][col] == Steel
    ensures power <= 1 ==> HitTile(level, row, col, power) == (level, false)
    ensures power > 1 ==> HitTile(level, row, col, power).1 && HitTile(level, row, col, power).0[row][col] == Empty
  {
  }

  /** Water, grass, ice, the eagle and empty ground are never changed by `hitTile`. */
  lemma IndestructibleTiles(level: Grid, row: int, col: int, power: int)
    requires InGrid(level, row, col)
    requires level[row][col] in {Water, Grass, Ice, Eagle, Empty}
    ensures HitTile(level, row, col, power) == (level, false)
  {
  }
}
