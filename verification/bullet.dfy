/** The bullet of src/entities/bullet.js, as a value: construction centred on its owner,
    flight, the out-of-field test, the row-major tile scan, tile centres and `destroy`.
    The game keeps every live bullet in one list tagged with its owner's id; a tank's bullet
    set is the part of that list it owns, and `destroy` removes the bullet from the list.
    How one bullet's update changes the game is in the BulletResolution module. */
module Bullets {
  import opened Config
  import opened Utils
  import opened TileResolver
  import opened Tanks

  datatype Bullet = Bullet(
    id: nat,
    ownerId: nat,
    fromPlayer: bool,
    x: real,
    y: real,
    direction: Direction,
    speed: real,
    power: int)

  /** Width and height of a bullet: half a tile. */
  const BulletSize: real := 8.0

  /** `new Bullet({owner, speed, power})`: the owner's direction, an 8 x 8 box centred in the
      owner's 16 x 16 box. */
  function NewBullet(id: nat, owner: Tank, speed: real, power: int): (b: Bullet)
    ensures b.id == id && b.ownerId == owner.id && b.fromPlayer == owner.role.Player?
    ensures b.direction == owner.direction && b.speed == speed && b.power == power
    ensures b.x + BulletSize / 2.0 == owner.x + TankSize / 2.0
    ensures b.y + BulletSize / 2.0 == owner.y + TankSize / 2.0
  {
    var offset := (TankSize - BulletSize) / 2.0;
    Bullet(id, owner.id, owner.role.Player?, owner.x + offset, owner.y + offset, owner.direction, speed, power)
  }

  /** `createBullet(owner)`: player bullets fly at 220 and hit with power 2 from star level 3
      on (else 1); enemy bullets fly at 180 with the archetype's bullet power. */
  function CreateBullet(id: nat, owner: Tank): (b: Bullet)
    ensures b == NewBullet(id, owner, b.speed, b.power)
    ensures owner.role.Player? ==> b.speed == 220.0 && b.power == (if owner.role.level >= 3 then 2 else 1)
    ensures owner.role.Enemy? ==> b.speed == 180.0 && b.power == (if owner.role.bulletPower == 0 then 1 else owner.role.bulletPower)
    ensures b.power >= 1
  {
    match owner.role
    case Player(level, _) => NewBullet(id, owner, 220.0, if level >= 3 then 2 else 1)
    case Enemy(_, _, bulletPower, _) => NewBullet(id, owner, 180.0, if bulletPower == 0 then 1 else bulletPower)
  }

  /** The flight part of `update`: `speed * dt` along the bullet's direction. */
  function Advance(b: Bullet, dt: real): (r: Bullet)
    ensures (r.x, r.y) == Step(b.x, b.y, b.direction, b.speed * dt)
    ensures r == b.(x := r.x, y := r.y)
  {
    var p := Step(b.x, b.y, b.direction, b.speed * dt);
    b.(x := p.0, y := p.1)
  }

  /** The bullet's box has left the field: its top-left corner, or the point one bullet-size
      beyond it, is off the field. */
  predicate LeavesField(b: Bullet) {
    !IsInsideField(b.x, b.y) || !IsInsideField(b.x + BulletSize, b.y + BulletSize)
  }

  /** Every cell a bullet on the field overlaps is a cell of the grid. */
  lemma CoveredCellsInGrid(b: Bullet)
    requires !LeavesField(b)
    ensures 0 <= CoordToTile(b.x) <= CoordToTile(b.x + BulletSize - 1.0) < GridSize
    ensures 0 <= CoordToTile(b.y) <= CoordToTile(b.y + BulletSize - 1.0) < GridSize
  {
    CoordToTileMonotone(b.x, b.x + BulletSize - 1.0);
    CoordToTileMonotone(b.y, b.y + BulletSize - 1.0);
    CoordToTileMonotone(b.x + BulletSize - 1.0, b.x + BulletSize);
    CoordToTileMonotone(b.y + BulletSize - 1.0, b.y + BulletSize);
  }

  /** `tileToCenter(i)`: the coordinate of the middle of tile `i`. */
  function TileToCenter(i: int): (c: real)
    ensures c == TileToCoord(i) + TileSize as real / 2.0
    ensures CoordToTile(c) == i
  {
    i as real * TileSize as real + TileSize as real / 2.0
  }

  /** A tile the scan stops at: anything bullet-blocking, or the eagle. */
  predicate Stops(tile: Tile) {
    IsBulletBlocking(tile) || tile == Eagle
  }

  /** Cell (r1, c1) comes before cell (r2, c2) in row-major order. */
  predicate Before(r1: int, c1: int, r2: int, c2: int) {
    r1 < r2 || (r1 == r2 && c1 < c2)
  }

  /** The inner loop of `handleTileCollision`: the first column in `col..right` of row `row`
      whose tile stops bullets. */
  function ScanColumns(grid: Grid, row: int, col: int, right: int): (r: Option<int>)
    requires IsGrid(grid) && 0 <= row < GridSize && 0 <= col && right < GridSize
    ensures r.Some? ==> col <= r.value <= right && Stops(grid[row][r.value])
    ensures r.Some? ==> forall c :: col <= c < r.value ==> !Stops(grid[row][c])
    ensures r.None? ==> forall c :: col <= c <= right ==> !Stops(grid[row][c])
    decreases right - col
  {
    if col > right then None
    else if Stops(grid[row][col]) then Some(col)
    else ScanColumns(grid, row, col + 1, right)
  }

  /** The nested loops of `handleTileCollision`: the first cell of rows `row..bottom`,
      columns `left..right`, in row-major order, whose tile stops bullets. */
  function ScanRows(grid: Grid, row: int, bottom: int, left: int, right: int): (r: Option<(int, int)>)
    requires IsGrid(grid) && 0 <= row && bottom < GridSize && 0 <= left && right < GridSize
    ensures r.Some? ==> row <= r.value.0 <= bottom && left <= r.value.1 <= right
    ensures r.Some? ==> Stops(grid[r.value.0][r.value.1])
    ensures r.Some? ==> forall rr, cc ::
              (row <= rr <= bottom && left <= cc <= right && Before(rr, cc, r.value.0, r.value.1)) ==>
                !Stops(grid[rr][cc])
    ensures r.None? ==> forall rr, cc :: row <= rr <= bottom && left <= cc <= right ==> !Stops(grid[rr][cc])
    decreases bottom - row
  {
    if row > bottom then None
    else match ScanColumns(grid, row, left, right)
      case Some(c) => Some((row, c))
      case None => ScanRows(grid, row + 1, bottom, left, right)
  }

  /** The cell that stops bullet `b`, if any, among the cells its box covers. */
  function TileHit(grid: Grid, b: Bullet): (r: Option<(int, int)>)
    requires IsGrid(grid) && !LeavesField(b)
    ensures r.Some? ==> 0 <= r.value.0 < GridSize && 0 <= r.value.1 < GridSize
    ensures r.Some? ==> Stops(grid[r.value.0][r.value.1])
    ensures r.Some? ==> CoordToTile(b.y) <= r.value.0 <= CoordToTile(b.y + BulletSize - 1.0)
    ensures r.Some? ==> CoordToTile(b.x) <= r.value.1 <= CoordToTile(b.x + BulletSize - 1.0)
    ensures r.None? ==> forall rr, cc ::
              (CoordToTile(b.y) <= rr <= CoordToTile(b.y + BulletSize - 1.0) &&
               CoordToTile(b.x) <= cc <= CoordToTile(b.x + BulletSize - 1.0)) ==> !Stops(grid[rr][cc])
  {
    CoveredCellsInGrid(b);
    ScanRows(grid, CoordToTile(b.y), CoordToTile(b.y + BulletSize - 1.0),
             CoordToTile(b.x), CoordToTile(b.x + BulletSize - 1.0))
  }

  // ---------------------------------------------------------------- the game's bullet list

  /** The live bullets owned by tank `owner`: that tank's bullet set. */
  function OwnedBy(bullets: seq<Bullet>, owner: nat): (r: seq<Bullet>)
    ensures |r| <= |bullets|
    ensures forall b :: b in r <==> b in bullets && b.ownerId == owner
  {
    if |bullets| == 0 then []
    else (if bullets[0].ownerId == owner then [bullets[0]] else []) + OwnedBy(bullets[1..], owner)
  }

  /** `bullets.size` of tank `owner`. */
  function Owned(bullets: seq<Bullet>, owner: nat): nat {
    |OwnedBy(bullets, owner)|
  }

  /** The bullet with id `id` is in the list. */
  predicate Live(bullets: seq<Bullet>, id: nat) {
    exists i :: 0 <= i < |bullets| && bullets[i].id == id
  }

  /** `destroy`: the bullet leaves the list (and so its owner's set); nothing else changes. */
  function Destroy(bullets: seq<Bullet>, id: nat): (r: seq<Bullet>)
    ensures !Live(r, id)
    ensures forall b :: b in r <==> b in bullets && b.id != id
    ensures |r| <= |bullets|
    ensures !Live(bullets, id) ==> r == bullets
  {
    if |bullets| == 0 then []
    else
      var rest := Destroy(bullets[1..], id);
      assert !Live(bullets, id) ==> !Live(bullets[1..], id) by {
        if Live(bullets[1..], id) {
          var i :| 0 <= i < |bullets[1..]| && bullets[1..][i].id == id;
          assert bullets[i + 1].id == id;
        }
      }
      if bullets[0].id == id then rest
      else
        assert !Live([bullets[0]] + rest, id) by {
          forall i | 0 <= i < |[bullets[0]] + rest| ensures ([bullets[0]] + rest)[i].id != id {
            if i > 0 {
              assert ([bullets[0]] + rest)[i] == rest[i - 1];
            }
          }
        }
        assert bullets == [bullets[0]] + bullets[1..];
        [bullets[0]] + rest
  }

  /** No two different bullets share an id. */
  ghost predicate UniqueIds(bullets: seq<Bullet>) {
    forall a, b :: a in bullets && b in bullets && a.id == b.id ==> a == b
  }

  /** The bullet object with id `id`, if it is still in the list. */
  function Find(bullets: seq<Bullet>, id: nat): (r: Option<Bullet>)
    ensures r.Some? ==> r.value in bullets && r.value.id == id
    ensures r.None? <==> !Live(bullets, id)
  {
    if |bullets| == 0 then None
    else if bullets[0].id == id then Some(bullets[0])
    else
      var rest := Find(bullets[1..], id);
      assert Live(bullets, id) ==> Live(bullets[1..], id) by {
        if Live(bullets, id) {
          var i :| 0 <= i < |bullets| && bullets[i].id == id;
          assert bullets[1..][i - 1].id == id;
        }
      }
      assert Live(bullets[1..], id) ==> Live(bullets, id) by {
        if Live(bullets[1..], id) {
          var i :| 0 <= i < |bullets[1..]| && bullets[1..][i].id == id;
          assert bullets[i + 1].id == id;
        }
      }
      rest
  }

  /** The bullet object with `b`'s id now holds `b` (the source mutates it in place). */
  function Replace(bullets: seq<Bullet>, b: Bullet): (r: seq<Bullet>)
    ensures |r| == |bullets|
    ensures forall i :: 0 <= i < |bullets| ==> r[i] == (if bullets[i].id == b.id then b else bullets[i])
  {
    if |bullets| == 0 then [] else [if bullets[0].id == b.id then b else bullets[0]] + Replace(bullets[1..], b)
  }

  /** After a replacement every bullet is the new one or an old one with another id. */
  lemma ReplaceMembers(bullets: seq<Bullet>, b: Bullet)
    ensures forall x :: x in Replace(bullets, b) ==> x == b || (x in bullets && x.id != b.id)
  {
    forall x | x in Replace(bullets, b) ensures x == b || (x in bullets && x.id != b.id) {
      var i :| 0 <= i < |Replace(bullets, b)| && Replace(bullets, b)[i] == x;
      if bullets[i].id != b.id {
        assert x == bullets[i];
      }
    }
  }

  /** The bullets whose owner is in `owners`, in their original order. */
  function KeepOwners(bullets: seq<Bullet>, owners: set<nat>): (r: seq<Bullet>)
    ensures forall b :: b in r <==> b in bullets && b.ownerId in owners
  {
    if |bullets| == 0 then []
    else (if bullets[0].ownerId in owners then [bullets[0]] else []) + KeepOwners(bullets[1..], owners)
  }

  /** `bullets.clear()` on tank `owner`: its bullets leave the list, all others stay. */
  function DropOwner(bullets: seq<Bullet>, owner: nat): (r: seq<Bullet>)
    ensures forall b :: b in r <==> b in bullets && b.ownerId != owner
  {
    if |bullets| == 0 then []
    else (if bullets[0].ownerId != owner then [bullets[0]] else []) + DropOwner(bullets[1..], owner)
  }

  /** Keeping the bullets of `owners` keeps those tanks' sets whole and empties the others. */
  lemma {:induction false} OwnedAfterKeep(bullets: seq<Bullet>, owners: set<nat>, o: nat)
    ensures OwnedBy(KeepOwners(bullets, owners), o) == (if o in owners then OwnedBy(bullets, o) else [])
  {
    if |bullets| > 0 {
      OwnedAfterKeep(bullets[1..], owners, o);
      var head := if bullets[0].ownerId in owners then [bullets[0]] else [];
      var rest := KeepOwners(bullets[1..], owners);
      assert KeepOwners(bullets, owners) == head + rest;
      if |head| == 1 {
        assert (head + rest)[0] == bullets[0] && (head + rest)[1..] == rest;
      } else {
        assert head + rest == rest;
      }
    }
  }

  /** Clearing `owner`'s bullets empties its set and leaves every other tank's set whole. */
  lemma {:induction false} OwnedAfterDrop(bullets: seq<Bullet>, owner: nat, o: nat)
    ensures OwnedBy(DropOwner(bullets, owner), o) == (if o == owner then [] else OwnedBy(bullets, o))
  {
    if |bullets| > 0 {
      OwnedAfterDrop(bullets[1..], owner, o);
      var head := if bullets[0].ownerId != owner then [bullets[0]] else [];
      var rest := DropOwner(bullets[1..], owner);
      assert DropOwner(bullets, owner) == head + rest;
      if |head| == 1 {
        assert (head + rest)[0] == bullets[0] && (head + rest)[1..] == rest;
      } else {
        assert head + rest == rest;
      }
    }
  }

  /** A new bullet joins its owner's set and no other. */
  lemma {:induction false} OwnedAfterAppend(bullets: seq<Bullet>, b: Bullet)
    ensures OwnedBy(bullets + [b], b.ownerId) == OwnedBy(bullets, b.ownerId) + [b]
    ensures forall o :: o != b.ownerId ==> OwnedBy(bullets + [b], o) == OwnedBy(bullets, o)
  {
    if |bullets| == 0 {
      assert [b][1..] == [];
    } else {
      assert (bullets + [b])[1..] == bullets[1..] + [b];
      OwnedAfterAppend(bullets[1..], b);
    }
  }

  /** The count of each tank after a new bullet is appended. */
  lemma OwnedAfterAppendCount(bullets: seq<Bullet>, b: Bullet, o: nat)
    ensures Owned(bullets + [b], o) == Owned(bullets, o) + (if o == b.ownerId then 1 else 0)
  {
    OwnedAfterAppend(bullets, b);
  }

  /** A tank no listed bullet belongs to owns none of them. */
  lemma {:induction false} NoneOwned(bullets: seq<Bullet>, o: nat)
    requires forall b :: b in bullets ==> b.ownerId != o
    ensures Owned(bullets, o) == 0
  {
    if |bullets| > 0 {
      assert bullets[0] in bullets;
      NoneOwned(bullets[1..], o);
    }
  }

  /** A bullet with an identity above every listed one keeps the identities distinct. */
  lemma AppendFresh(bullets: seq<Bullet>, b: Bullet)
    requires UniqueIds(bullets) && forall x :: x in bullets ==> x.id < b.id
    ensures UniqueIds(bullets + [b])
  {
    forall x, y | x in bullets + [b] && y in bullets + [b] && x.id == y.id ensures x == y {
      if x != b && y != b {
        assert x in bullets && y in bullets;
      }
    }
  }

  /** `destroy` never adds to any tank's set. */
  lemma {:induction false} OwnedAfterDestroy(bullets: seq<Bullet>, id: nat)
    ensures forall o :: Owned(Destroy(bullets, id), o) <= Owned(bullets, o)
  {
    if |bullets| > 0 {
      OwnedAfterDestroy(bullets[1..], id);
      var rest := Destroy(bullets[1..], id);
      forall o ensures Owned(Destroy(bullets, id), o) <= Owned(bullets, o) {
        var mine := if bullets[0].ownerId == o then [bullets[0]] else [];
        assert OwnedBy(bullets, o) == mine + OwnedBy(bullets[1..], o);
        assert Owned(rest, o) <= Owned(bullets[1..], o);
        if bullets[0].id != id {
          assert ([bullets[0]] + rest)[1..] == rest;
          assert OwnedBy(Destroy(bullets, id), o) == mine + OwnedBy(rest, o);
        }
      }
    }
  }

  /** Moving a bullet keeps every tank's count, as long as the bullet keeps its owner. */
  lemma {:induction false} OwnedAfterReplace(bullets: seq<Bullet>, b: Bullet)
    requires forall c :: c in bullets && c.id == b.id ==> c.ownerId == b.ownerId
    ensures forall o :: Owned(Replace(bullets, b), o) == Owned(bullets, o)
  {
    if |bullets| > 0 {
      OwnedAfterReplace(bullets[1..], b);
      var head := if bullets[0].id == b.id then b else bullets[0];
      var rest := Replace(bullets[1..], b);
      assert Replace(bullets, b) == [head] + rest;
      assert ([head] + rest)[1..] == rest;
      forall o ensures Owned(Replace(bullets, b), o) == Owned(bullets, o) {
        assert OwnedBy(Replace(bullets, b), o) == (if head.ownerId == o then [head] else []) + OwnedBy(rest, o);
        assert OwnedBy(bullets, o) == (if bullets[0].ownerId == o then [bullets[0]] else []) + OwnedBy(bullets[1..], o);
        assert Owned(rest, o) == Owned(bullets[1..], o);
        assert head.ownerId == bullets[0].ownerId;
      }
    }
  }

  /** A second `destroy` of the same bullet changes nothing. */
  lemma DestroyIdempotent(bullets: seq<Bullet>, id: nat)
    ensures Destroy(Destroy(bullets, id), id) == Destroy(bullets, id)
  {
  }

  /** Destroying one bullet leaves every other owner's set as it was. */
  lemma {:induction false} DestroyKeepsOtherOwners(bullets: seq<Bullet>, id: nat, owner: nat)
    requires forall b :: b in bullets && b.id == id ==> b.ownerId != owner
    ensures OwnedBy(Destroy(bullets, id), owner) == OwnedBy(bullets, owner)
  {
    if |bullets| > 0 {
      DestroyKeepsOtherOwners(bullets[1..], id, owner);
      if bullets[0].id != id {
        assert Destroy(bullets, id) == [bullets[0]] + Destroy(bullets[1..], id);
        assert ([bullets[0]] + Destroy(bullets[1..], id))[1..] == Destroy(bullets[1..], id);
      }
    }
  }
}
