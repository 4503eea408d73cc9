/** Grid construction of src/data/levels.js: rectangle fills, the two mirror operations, the
    base fortification, the ten stage builders and the 25 generated stages (35 in all).
    The `mulberry32` generator behind `addRandomGrass` is a `Seeded` parameter. */
module Levels {
  import opened Config
  import opened Utils
  import opened Random

  /** Row of the upper base wall and column of the base: rows 23-24, columns 11-15. */
  const BaseRow: int := GridSize - 3
  /** Row of the BASE tile and of the lower base wall. */
  const BaseTileRow: int := GridSize - 2
  /** Row of the EAGLE, the last row of the grid. */
  const EagleRow: int := GridSize - 1
  const Center: int := GridSize / 2

  /** No cell of `g` holds tile `t`. */
  ghost predicate Lacks(g: Grid, t: Tile) {
    forall y, x :: InGrid(g, y, x) ==> g[y][x] != t
  }

  /** Two grids of the stage shape are equal when they agree on every cell. */
  lemma GridExtensionality(a: Grid, b: Grid)
    requires IsGrid(a) && IsGrid(b)
    requires forall y, x :: 0 <= y < GridSize && 0 <= x < GridSize ==> a[y][x] == b[y][x]
    ensures a == b
  {
    forall y | 0 <= y < GridSize ensures a[y] == b[y] {
      assert forall x :: 0 <= x < GridSize ==> a[y][x] == b[y][x];
    }
  }

  /** `createEmptyLevel`: GridSize rows of GridSize EMPTY tiles. */
  function CreateEmptyLevel(): (g: Grid)
    ensures IsGrid(g)
    ensures forall y, x :: InGrid(g, y, x) ==> g[y][x] == Empty
    ensures forall t :: t != Empty ==> Lacks(g, t)
  {
    seq(GridSize, _ => seq(GridSize, _ => Empty))
  }

  /** The rectangle spanned by two corners given in any order. */
  predicate InRect(x0: int, y0: int, x1: int, y1: int, x: int, y: int) {
    Min(x0, x1) <= x <= Max(x0, x1) && Min(y0, y1) <= y <= Max(y0, y1)
  }

  /** `fillRect`: corners in any order, clipped to the grid; exactly the cells of the grid
      inside the rectangle become `tile`. */
  function FillRect(level: Grid, x0: int, y0: int, x1: int, y1: int, tile: Tile): (r: Grid)
    requires IsGrid(level)
    ensures IsGrid(r)
    ensures forall y, x :: 0 <= y < GridSize && 0 <= x < GridSize ==>
              r[y][x] == (if InRect(x0, y0, x1, y1, x, y) then tile else level[y][x])
    ensures forall t :: t != tile && Lacks(level, t) ==> Lacks(r, t)
  {
    var minX := Max(0, Min(x0, x1));
    var maxX := Min(GridSize - 1, Max(x0, x1));
    var minY := Max(0, Min(y0, y1));
    var maxY := Min(GridSize - 1, Max(y0, y1));
    seq(GridSize, y requires 0 <= y < GridSize =>
      seq(GridSize, x requires 0 <= x < GridSize =>
        if minY <= y <= maxY && minX <= x <= maxX then tile else level[y][x]))
  }

  /** The nested loops of `fillRect`, writing one cell at a time, compute `FillRect`. */
  method FillRectInPlace(level: Grid, x0: int, y0: int, x1: int, y1: int, tile: Tile) returns (r: Grid)
    requires IsGrid(level)
    ensures r == FillRect(level, x0, y0, x1, y1, tile)
  {
    var minX := Max(0, Min(x0, x1));
    var maxX := Min(GridSize - 1, Max(x0, x1));
    var minY := Max(0, Min(y0, y1));
    var maxY := Min(GridSize - 1, Max(y0, y1));
    r := level;
    var y := minY;
    while y <= maxY
      invariant IsGrid(r)
      invariant minY <= y && (y <= maxY + 1 || y == minY)
      invariant forall yy, xx :: 0 <= yy < GridSize && 0 <= xx < GridSize ==>
                  r[yy][xx] == (if minY <= yy < y && minX <= xx <= maxX then tile else level[yy][xx])
    {
      var x := minX;
      while x <= maxX
        invariant IsGrid(r)
        invariant minX <= x && (x <= maxX + 1 || x == minX)
        invariant forall yy, xx :: 0 <= yy < GridSize && 0 <= xx < GridSize ==>
                    r[yy][xx] == (if (minY <= yy < y && minX <= xx <= maxX) || (yy == y && minX <= xx < x)
                                  then tile else level[yy][xx])
      {
        r := SetCell(r, y, x, tile);
        x := x + 1;
      }
      y := y + 1;
    }
    GridExtensionality(r, FillRect(level, x0, y0, x1, y1, tile));
  }

  /** `clearRect`: a fill with EMPTY. */
  function ClearRect(level: Grid, x0: int, y0: int, x1: int, y1: int): (r: Grid)
    requires IsGrid(level)
    ensures IsGrid(r)
    ensures r == FillRect(level, x0, y0, x1, y1, Empty)
    ensures forall t :: t != Empty && Lacks(level, t) ==> Lacks(r, t)
  {
    FillRect(level, x0, y0, x1, y1, Empty)
  }

  /** `mirrorVertically`: the left half (columns 0..12) is kept and copied onto the right half,
      so every row reads the same from both ends. */
  function MirrorVertically(level: Grid): (r: Grid)
    requires IsGrid(level)
    ensures IsGrid(r)
    ensures forall y, x :: 0 <= y < GridSize && 0 <= x < GridSize / 2 ==> r[y][x] == level[y][x]
    ensures forall y, x :: 0 <= y < GridSize && 0 <= x < GridSize ==> r[y][GridSize - 1 - x] == r[y][x]
    ensures forall t :: Lacks(level, t) ==> Lacks(r, t)
  {
    seq(GridSize, y requires 0 <= y < GridSize =>
      seq(GridSize, x requires 0 <= x < GridSize =>
        if x < GridSize / 2 then level[y][x] else level[y][GridSize - 1 - x]))
  }

  /** The loop of `mirrorVertically` (cell `[y][25-x]` takes cell `[y][x]` for x < 13). */
  method MirrorVerticallyInPlace(level: Grid) returns (r: Grid)
    requires IsGrid(level)
    ensures r == MirrorVertically(level)
  {
    var target := MirrorVertically(level);
    r := level;
    var y := 0;
    while y < GridSize
      invariant 0 <= y <= GridSize
      invariant |r| == GridSize
      invariant forall yy :: 0 <= yy < y ==> r[yy] == target[yy]
      invariant forall yy :: y <= yy < GridSize ==> r[yy] == level[yy]
    {
      var row := r[y];
      var x := 0;
      while x < GridSize / 2
        invariant 0 <= x <= GridSize / 2
        invariant |row| == GridSize
        invariant forall xx :: 0 <= xx <= GridSize - 1 - x ==> row[xx] == level[y][xx]
        invariant forall xx :: GridSize - 1 - x < xx < GridSize ==> row[xx] == level[y][GridSize - 1 - xx]
      {
        row := row[GridSize - 1 - x := row[x]];
        x := x + 1;
      }
      assert row == target[y];
      r := r[y := row];
      y := y + 1;
    }
  }

  /** `mirrorHorizontally`: the top half (rows 0..12) is kept and each of its rows is copied
      onto the row at the same distance from the bottom edge. */
  function MirrorHorizontally(level: Grid): (r: Grid)
    requires IsGrid(level)
    ensures IsGrid(r)
    ensures forall y :: 0 <= y < GridSize / 2 ==> r[y] == level[y] && r[GridSize - 1 - y] == level[y]
    ensures forall t :: Lacks(level, t) ==> Lacks(r, t)
  {
    seq(GridSize, y requires 0 <= y < GridSize => if y < GridSize / 2 then level[y] else level[GridSize - 1 - y])
  }

  /** The loop of `mirrorHorizontally` (row 25-y becomes a copy of row y for y < 13). */
  method MirrorHorizontallyInPlace(level: Grid) returns (r: Grid)
    requires IsGrid(level)
    ensures r == MirrorHorizontally(level)
  {
    r := level;
    var y := 0;
    while y < GridSize / 2
      invariant 0 <= y <= GridSize / 2
      invariant |r| == GridSize
      invariant forall yy :: 0 <= yy <= GridSize - 1 - y ==> r[yy] == level[yy]
      invariant forall yy :: GridSize - 1 - y < yy < GridSize ==> r[yy] == level[GridSize - 1 - yy]
    {
      r := r[GridSize - 1 - y := r[y]];
      y := y + 1;
    }
  }

  /** The cells `applyBase` writes: the two wall rows over columns 11..15, and the eagle. */
  predicate InBaseFootprint(y: int, x: int) {
    ((y == BaseRow || y == BaseTileRow) && Center - 2 <= x <= Center + 2) || (y == EagleRow && x == Center)
  }

  /** The wall loop of `applyBase`: columns `x..last` of rows `row` and `row + 1` become BRICK. */
  function BaseWalls(level: Grid, row: int, x: int, last: int): (r: Grid)
    requires IsGrid(level)
    requires 0 <= row && row + 1 < GridSize && 0 <= x && last < GridSize
    ensures IsGrid(r)
    ensures forall yy, xx :: 0 <= yy < GridSize && 0 <= xx < GridSize ==>
              r[yy][xx] == (if (yy == row || yy == row + 1) && x <= xx <= last then Brick else level[yy][xx])
    decreases last - x + 1
  {
    if x > last then level
    else BaseWalls(SetCell(SetCell(level, row, x, Brick), row + 1, x, Brick), row, x + 1, last)
  }

  /** `applyBase`: rows 23-24, columns 11-15 become BRICK, except the BASE at [24][13], and the
      EAGLE is placed at [25][13]. No other cell changes. */
  function ApplyBase(level: Grid): (r: Grid)
    requires IsGrid(level)
    ensures IsGrid(r)
    ensures r[BaseTileRow][Center] == Base && r[EagleRow][Center] == Eagle
    ensures forall x :: Center - 2 <= x <= Center + 2 ==> r[BaseRow][x] == Brick
    ensures forall x :: Center - 2 <= x <= Center + 2 && x != Center ==> r[BaseTileRow][x] == Brick
    ensures forall y, x :: 0 <= y < GridSize && 0 <= x < GridSize && !InBaseFootprint(y, x) ==> r[y][x] == level[y][x]
  {
    var walls := BaseWalls(level, BaseRow, Center - 2, Center + 2);
    var withBase := SetCell(walls, BaseTileRow, Center, Base);
    SetCell(withBase, EagleRow, Center, Eagle)
  }

  /** On a grid without an eagle, `applyBase` leaves exactly one: at [25][13]. */
  lemma ApplyBaseSingleEagle(level: Grid)
    requires IsGrid(level) && Lacks(level, Eagle)
    ensures forall y, x :: InGrid(ApplyBase(level), y, x) && ApplyBase(level)[y][x] == Eagle ==>
              y == EagleRow && x == Center
  {
  }

  // ---------------------------------------------------------------- stage layouts

  /** A loop `for (y = start; y < limit; y += step) fillRect(x0, y, x1, y + extra, tile)`. */
  function StripeRows(level: Grid, y: int, limit: int, step: nat, x0: int, x1: int, extra: int, tile: Tile): (r: Grid)
    requires IsGrid(level) && step > 0
    ensures IsGrid(r)
    ensures forall t :: t != tile && Lacks(level, t) ==> Lacks(r, t)
    decreases limit - y
  {
    if y >= limit then level
    else StripeRows(FillRect(level, x0, y, x1, y + extra, tile), y + step, limit, step, x0, x1, extra, tile)
  }

  /** A loop `for (x = start; x < limit; x += step) fillRect(x, y0, x + extra, y1, tile)`. */
  function StripeColumns(level: Grid, x: int, limit: int, step: nat, y0: int, y1: int, extra: int, tile: Tile): (r: Grid)
    requires IsGrid(level) && step > 0
    ensures IsGrid(r)
    ensures forall t :: t != tile && Lacks(level, t) ==> Lacks(r, t)
    decreases limit - x
  {
    if x >= limit then level
    else StripeColumns(FillRect(level, x, y0, x + extra, y1, tile), x + step, limit, step, y0, y1, extra, tile)
  }

  /** The diagonal loop of the eighth layout: two brick blocks per step, mirrored left/right. */
  function DiagonalBlocks(level: Grid, i: int): (r: Grid)
    requires IsGrid(level)
    ensures IsGrid(r)
    ensures forall t :: t != Brick && Lacks(level, t) ==> Lacks(r, t)
    decreases GridSize - 6 - i
  {
    if i >= GridSize - 6 then level
    else
      var g := FillRect(level, i, i, Min(i + 2, GridSize - 1), Min(i + 2, GridSize - 6), Brick);
      var g := FillRect(g, GridSize - 1 - i, i, GridSize - 1 - Max(i - 2, 0), Min(i + 2, GridSize - 6), Brick);
      DiagonalBlocks(g, i + 4)
  }

  /** The 30 patches of `addRandomGrass`, from patch `i` on; patch i uses draws 2i (column) and
      2i+1 (row). With draws in [0, 1) no patch reaches below row 20. */
  function GrassPatches(level: Grid, draws: nat -> Draw, i: nat): (r: Grid)
    requires IsGrid(level)
    ensures IsGrid(r)
    ensures forall t :: t != Grass && Lacks(level, t) ==> Lacks(r, t)
    ensures forall y, x :: GridSize - 5 <= y < GridSize && 0 <= x < GridSize ==> r[y][x] == level[y][x]
    decreases 30 - i
  {
    if i >= 30 then level
    else
      var x := (draws(2 * i) * GridSize as real).Floor;
      var y := (draws(2 * i + 1) * (GridSize - 6) as real).Floor;
      assert 0 <= y < GridSize - 6;
      GrassPatches(FillRect(level, x, y, Min(x + 1, GridSize - 1), Min(y + 1, GridSize - 6), Grass), draws, i + 1)
  }

  /** `addRandomGrass(level, seed)`. */
  function AddRandomGrass(level: Grid, seed: nat, prng: Seeded): (r: Grid)
    requires IsGrid(level)
    ensures IsGrid(r)
    ensures forall t :: t != Grass && Lacks(level, t) ==> Lacks(r, t)
    ensures forall y, x :: GridSize - 5 <= y < GridSize && 0 <= x < GridSize ==> r[y][x] == level[y][x]
  {
    GrassPatches(level, prng(seed), 0)
  }

  /** Neither the eagle nor the base wall tile appears in `g`. */
  ghost predicate BaseFree(g: Grid) {
    Lacks(g, Eagle) && Lacks(g, Base)
  }

  /** One drawing call of a stage configurator: `fillRect`, `clearRect`, the two mirrors, the
      row and column `for` loops of fills, the diagonal loop of the eighth configurator, and
      `addRandomGrass` with a fixed seed. */
  datatype Stroke =
    | Fill(x0: int, y0: int, x1: int, y1: int, tile: Tile)
    | Clear(x0: int, y0: int, x1: int, y1: int)
    | MirrorV
    | MirrorH
    | Rows(y: int, limit: int, step: Pos, x0: int, x1: int, extra: int, tile: Tile)
    | Columns(x: int, limit: int, step: Pos, y0: int, y1: int, extra: int, tile: Tile)
    | Diagonal
    | RandomGrass(seed: nat)

  /** The loop stride of a stroke. */
  type Pos = n: nat | n > 0 witness 1

  /** Stroke `s` never writes tile `t`. */
  predicate Spares(s: Stroke, t: Tile) {
    && (s.Fill? || s.Rows? || s.Columns? ==> s.tile != t)
    && (s.Clear? ==> t != Empty)
    && (s.Diagonal? ==> t != Brick)
    && (s.RandomGrass? ==> t != Grass)
  }

  /** One drawing call applied to the level. */
  function Apply(level: Grid, s: Stroke, prng: Seeded): (r: Grid)
    requires IsGrid(level)
    ensures IsGrid(r)
    ensures forall t :: Spares(s, t) && Lacks(level, t) ==> Lacks(r, t)
  {
    match s
    case Fill(x0, y0, x1, y1, tile) => FillRect(level, x0, y0, x1, y1, tile)
    case Clear(x0, y0, x1, y1) => ClearRect(level, x0, y0, x1, y1)
    case MirrorV => MirrorVertically(level)
    case MirrorH => MirrorHorizontally(level)
    case Rows(y, limit, step, x0, x1, extra, tile) => StripeRows(level, y, limit, step, x0, x1, extra, tile)
    case Columns(x, limit, step, y0, y1, extra, tile) => StripeColumns(level, x, limit, step, y0, y1, extra, tile)
    case Diagonal => DiagonalBlocks(level, 0)
    case RandomGrass(seed) => AddRandomGrass(level, seed, prng)
  }

  /** No stroke of `strokes` writes tile `t`. */
  predicate SparedBy(strokes: seq<Stroke>, t: Tile) {
    forall i :: 0 <= i < |strokes| ==> Spares(strokes[i], t)
  }

  /** The drawing calls `strokes` applied in order. A tile that no stroke writes and that the
      level lacks is still missing at the end. */
  function Paint(level: Grid, strokes: seq<Stroke>, prng: Seeded): (r: Grid)
    requires IsGrid(level)
    ensures IsGrid(r)
    ensures forall t :: Lacks(level, t) && SparedBy(strokes, t) ==> Lacks(r, t)
    decreases |strokes|
  {
    if |strokes| == 0 then level
    else
      var r := Paint(Apply(level, strokes[0], prng), strokes[1..], prng);
      assert forall t :: SparedBy(strokes, t) ==> SparedBy(strokes[1..], t) by {
        forall t | SparedBy(strokes, t) ensures SparedBy(strokes[1..], t) {
          forall i | 0 <= i < |strokes[1..]| ensures Spares(strokes[1..][i], t) {
            assert strokes[1..][i] == strokes[i + 1];
          }
        }
      }
      r
  }

  /** Painting a concatenation paints the first part, then the second. */
  lemma {:induction false} PaintConcat(level: Grid, a: seq<Stroke>, b: seq<Stroke>, prng: Seeded)
    requires IsGrid(level)
    ensures Paint(level, a + b, prng) == Paint(Paint(level, a, prng), b, prng)
    decreases |a|
  {
    if |a| > 0 {
      assert (a + b)[0] == a[0];
      assert (a + b)[1..] == a[1..] + b;
      PaintConcat(Apply(level, a[0], prng), a[1..], b, prng);
    } else {
      assert a + b == b;
    }
  }

  /** The drawing calls of configurator `k` of the stage table, in source order. Only the
      ninth uses the seeded generator, always with seed 13; the builder's own seed is ignored
      by all. */
  function Strokes(k: nat): (r: seq<Stroke>)
    requires k < 10
    ensures SparedBy(r, Eagle) && SparedBy(r, Base)
  {
    var n := GridSize;
    match k
    case 0 =>
      [Fill(0, 0, 3, n - 6, Brick), Fill(n - 4, 0, n - 1, n - 6, Brick), Clear(1, 6, n - 2, n - 8),
       Fill(4, 2, 8, 5, Brick), Fill(n - 9, 2, n - 5, 5, Brick), Fill(9, 8, 16, 12, Water),
       Fill(9, 13, 16, 15, Water), Fill(6, 9, 7, 14, Brick), Fill(n - 8, 9, n - 7, 14, Brick),
       MirrorV, Fill(11, 5, 14, 7, Brick)]
    case 1 =>
      [Fill(0, 0, n - 1, 2, Steel), Fill(0, 3, 5, n - 8, Brick), Fill(n - 6, 3, n - 1, n - 8, Brick),
       Fill(8, 5, 17, 10, Water), Fill(4, 12, n - 5, 16, Grass), MirrorV,
       Fill(11, 8, 14, 9, Steel), Fill(11, 10, 14, 11, Steel)]
    case 2 =>
      [Fill(2, 0, 4, n - 7, Brick), Fill(n - 5, 0, n - 3, n - 7, Brick), Fill(6, 5, n - 7, 7, Steel),
       Fill(6, 9, n - 7, 11, Steel), Fill(5, 13, n - 6, 15, Grass), Fill(8, 2, n - 9, 4, Water), MirrorV]
    case 3 =>
      [Fill(0, 0, n - 1, n - 8, Grass), Fill(3, 3, n - 4, n - 12, Brick), Clear(5, 5, n - 6, n - 14),
       Fill(9, 7, n - 10, n - 16, Water), MirrorV, MirrorH]
    case 4 =>
      [Fill(0, 0, n - 1, 1, Brick), Fill(0, 2, n - 1, 3, Water), Fill(0, 4, n - 1, 5, Grass),
       Fill(0, 6, n - 1, 7, Steel), Fill(0, 8, n - 1, 9, Water), Fill(0, 10, n - 1, 11, Grass), MirrorH]
    case 5 =>
      [Fill(2, 0, n - 3, n - 8, Brick), Clear(4, 2, n - 5, n - 10), Fill(4, 2, 6, n - 10, Water),
       Fill(n - 7, 2, n - 5, n - 10, Water), Fill(10, 2, n - 11, n - 10, Steel), MirrorV]
    case 6 =>
      [Fill(0, 0, n - 1, n - 9, Empty), Rows(0, n - 8, 3, 0, n - 1, 0, Brick), Columns(0, n, 4, 0, n - 9, 0, Brick)]
    case 7 =>
      [Fill(0, 0, n - 1, n - 6, Empty), Diagonal, Fill(11, 8, 14, n - 9, Water)]
    case 8 =>
      [Fill(0, 0, n - 1, n - 6, Empty), Columns(0, n, 6, 0, n - 6, 1, Steel), Rows(0, n - 6, 6, 0, n - 1, 1, Steel),
       RandomGrass(13)]
    case 9 =>
      [Fill(0, 0, n - 1, n - 6, Grass), Fill(4, 0, n - 5, n - 6, Empty), Rows(0, n - 6, 5, 4, n - 5, 1, Water),
       Fill(8, 2, n - 9, n - 8, Brick)]
  }

  /** The configurator of stage builder `k` (the part before `applyBase`): its drawing calls
      applied to the level. None of them writes an EAGLE or a BASE. */
  function Configure(k: nat, level: Grid, prng: Seeded): (r: Grid)
    requires k < 10 && IsGrid(level)
    ensures IsGrid(r)
    ensures BaseFree(level) ==> BaseFree(r)
  {
    Paint(level, Strokes(k), prng)
  }

  /** `createStageBuilder(configurator)`: an empty level, configured, then `applyBase` last —
      so every builder's stage is a full grid with the BASE at [24][13] and its only EAGLE at
      [25][13]. */
  function BuildStage(k: nat, prng: Seeded): (r: Grid)
    requires k < 10
    ensures IsGrid(r)
    ensures r[BaseTileRow][Center] == Base && r[EagleRow][Center] == Eagle
    ensures forall y, x :: InGrid(r, y, x) && r[y][x] == Eagle ==> y == EagleRow && x == Center
    ensures forall y, x :: 0 <= y < GridSize && 0 <= x < GridSize && !InBaseFootprint(y, x) ==>
              r[y][x] != Eagle && r[y][x] != Base
  {
    var configured := Configure(k, CreateEmptyLevel(), prng);
    ApplyBaseSingleEagle(configured);
    ApplyBase(configured)
  }

  /** Generated stage `i` exactly as `generateAdditionalStages` builds it: the builder's
      finished stage (base included) is then mirrored and grassed. */
  function GeneratedStageAsWritten(i: nat, prng: Seeded): (r: Grid)
    ensures IsGrid(r)
  {
    var level := BuildStage(i % 10, prng);
    var level := if i % 2 == 0 then MirrorVertically(level) else level;
    var level := if i % 3 == 0 then MirrorHorizontally(level) else level;
    if i % 4 == 0 then AddRandomGrass(level, 97 + i, prng) else level
  }

  /** The left half of a built stage (columns 0..12) holds neither an EAGLE nor a BASE: the
      only base cells there are the BRICK walls at columns 11 and 12. */
  lemma LeftHalfBaseFree(k: nat, prng: Seeded)
    requires k < 10
    ensures forall y, x :: 0 <= y < GridSize && 0 <= x < GridSize / 2 ==>
              BuildStage(k, prng)[y][x] != Eagle && BuildStage(k, prng)[y][x] != Base
  {
  }

  /** The top half of a built stage (rows 0..12) holds neither an EAGLE nor a BASE. */
  lemma TopHalfBaseFree(k: nat, prng: Seeded)
    requires k < 10
    ensures forall y, x :: 0 <= y < GridSize / 2 && 0 <= x < GridSize ==>
              BuildStage(k, prng)[y][x] != Eagle && BuildStage(k, prng)[y][x] != Base
  {
  }

  /** Copying the left half over the right half of a grid whose left half is base-free leaves
      a base-free grid. */
  lemma {:induction false} MirrorVerticallyFromFreeHalf(g: Grid)
    requires IsGrid(g)
    requires forall y, x :: 0 <= y < GridSize && 0 <= x < GridSize / 2 ==> g[y][x] != Eagle && g[y][x] != Base
    ensures BaseFree(MirrorVertically(g))
  {
    var m := MirrorVertically(g);
    forall y, x | InGrid(m, y, x) ensures m[y][x] != Eagle && m[y][x] != Base {
      if x >= GridSize / 2 {
        assert m[y][x] == m[y][GridSize - 1 - x] == g[y][GridSize - 1 - x];
      }
    }
  }

  /** Copying the top half over the bottom half of a grid whose top half is base-free leaves
      a base-free grid. */
  lemma {:induction false} MirrorHorizontallyFromFreeHalf(g: Grid)
    requires IsGrid(g)
    requires forall y, x :: 0 <= y < GridSize / 2 && 0 <= x < GridSize ==> g[y][x] != Eagle && g[y][x] != Base
    ensures BaseFree(MirrorHorizontally(g))
  {
    var m := MirrorHorizontally(g);
    forall y, x | InGrid(m, y, x) ensures m[y][x] != Eagle && m[y][x] != Base {
      if y >= GridSize / 2 {
        var y' := GridSize - 1 - y;
        assert m[y] == m[GridSize - 1 - y'] == g[y'];
      } else {
        assert m[y] == g[y];
      }
    }
  }

  /** As written, any generated stage that is mirrored (i even, or i a multiple of 3) has
      neither an EAGLE nor a BASE tile anywhere: the mirror copies terrain over the cells
      `applyBase` wrote. Generated stage 0 (the eleventh stage) is one of them. */
  lemma {:induction false} MirroredStageLosesBase(i: nat, prng: Seeded)
    requires i % 2 == 0 || i % 3 == 0
    ensures Lacks(GeneratedStageAsWritten(i, prng), Eagle)
    ensures Lacks(GeneratedStageAsWritten(i, prng), Base)
  {
    var built := BuildStage(i % 10, prng);
    var v := if i % 2 == 0 then MirrorVertically(built) else built;
    var h := if i % 3 == 0 then MirrorHorizontally(v) else v;
    if i % 2 == 0 {
      LeftHalfBaseFree(i % 10, prng);
      MirrorVerticallyFromFreeHalf(built);
    } else {
      TopHalfBaseFree(i % 10, prng);
      MirrorHorizontallyFromFreeHalf(built);
    }
    assert BaseFree(h);
    var last := if i % 4 == 0 then AddRandomGrass(h, 97 + i, prng) else h;
    assert BaseFree(last);
  }

  /** The terrain of generated stage `i` before its base is built: the builder's layout,
      mirrored and grassed as the written code does. It never holds an EAGLE or a BASE. */
  function GeneratedTerrain(i: nat, prng: Seeded): (r: Grid)
    ensures IsGrid(r) && BaseFree(r)
  {
    var level := Configure(i % 10, CreateEmptyLevel(), prng);
    assert BaseFree(level);
    var level := if i % 2 == 0 then MirrorVertically(level) else level;
    assert BaseFree(level);
    var level := if i % 3 == 0 then MirrorHorizontally(level) else level;
    assert BaseFree(level);
    if i % 4 == 0 then AddRandomGrass(level, 97 + i, prng) else level
  }

  /** Generated stage `i` with the base built after the mirrors and the grass, as every
      builder does: the layout of the written code, but the base and eagle always survive. */
  function GeneratedStage(i: nat, prng: Seeded): (r: Grid)
    ensures IsGrid(r)
    ensures r[BaseTileRow][Center] == Base && r[EagleRow][Center] == Eagle
    ensures forall y, x :: InGrid(r, y, x) && r[y][x] == Eagle ==> y == EagleRow && x == Center
  {
    var level := GeneratedTerrain(i, prng);
    ApplyBaseSingleEagle(level);
    ApplyBase(level)
  }

  /** Number of stages: ten builders plus 25 generated ones. */
  const StageCount: nat := 35

  /** Stage `j` of `LEVELS`, with the generated stages taken from `GeneratedStage`. */
  function Stage(j: nat, prng: Seeded): (r: Grid)
    ensures IsGrid(r)
    ensures r[BaseTileRow][Center] == Base && r[EagleRow][Center] == Eagle
    ensures forall y, x :: InGrid(r, y, x) && r[y][x] == Eagle ==> y == EagleRow && x == Center
  {
    if j < 10 then BuildStage(j, prng) else GeneratedStage(j - 10, prng)
  }

  /** `LEVELS` with the generated stages taken from `GeneratedStage`: every stage is a full
      grid whose BASE stands at [24][13] and whose one EAGLE stands at [25][13]. */
  function Levels(prng: Seeded): (r: seq<Grid>)
    ensures |r| == StageCount
    ensures forall j :: 0 <= j < |r| ==>
              IsGrid(r[j]) && r[j][BaseTileRow][Center] == Base && r[j][EagleRow][Center] == Eagle
  {
    seq(StageCount, j requires 0 <= j < StageCount => Stage(j, prng))
  }

  /** Stage `j` of `LEVELS` exactly as written. */
  function StageAsWritten(j: nat, prng: Seeded): (r: Grid)
    ensures IsGrid(r)
    ensures j == 10 ==> BaseFree(r)
  {
    if j < 10 then BuildStage(j, prng)
    else if j == 10 then
      MirroredStageLosesBase(0, prng);
      GeneratedStageAsWritten(0, prng)
    else GeneratedStageAsWritten(j - 10, prng)
  }

  /** Every generated stage as written that is mirrored — those whose number past the
      builders is even or a multiple of three, 17 of the 25 — holds neither an EAGLE nor a
      BASE. */
  lemma MirroredStagesAsWrittenLoseBase(j: nat, prng: Seeded)
    requires 10 <= j && ((j - 10) % 2 == 0 || (j - 10) % 3 == 0)
    ensures BaseFree(StageAsWritten(j, prng))
  {
    if j > 10 {
      MirroredStageLosesBase(j - 10, prng);
    }
  }

  /** `LEVELS` exactly as written: 35 full grids, but the eleventh has no eagle and no base. */
  function LevelsAsWritten(prng: Seeded): (r: seq<Grid>)
    ensures |r| == StageCount
    ensures forall j :: 0 <= j < |r| ==> IsGrid(r[j])
    ensures BaseFree(r[10])
  {
    seq(StageCount, j requires 0 <= j < StageCount => StageAsWritten(j, prng))
  }

  /** Stage `j` as a build loads it: `LEVELS[j]` as written, or with the generated stages
      repaired. The ten hand-built stages are the same in both. */
  function StageOf(build: Build, j: nat, prng: Seeded): (r: Grid)
    ensures IsGrid(r)
    ensures j < 10 ==> r == BuildStage(j, prng)
    ensures build == Repaired ==> r[BaseTileRow][Center] == Base && r[EagleRow][Center] == Eagle
    ensures build == AsWritten && j == 10 ==> BaseFree(r)
  {
    if build == Repaired then Stage(j, prng) else StageAsWritten(j, prng)
  }
}
