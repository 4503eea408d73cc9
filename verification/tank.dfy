/** Tank rules of src/entities/tank.js: the per-archetype stat table, damage and shields, fire
    gating, the `canMoveTo` collision test, movement with the grid-alignment nudge, the enemy
    AI and the per-tick update. A tank is an immutable record; every operation returns the
    new record. A tank's bullet set lives in the game (see the Bullets module), so the
    operations that fire take the number of live bullets the tank owns as `owned` and report
    whether a bullet is to be created. */
module Tanks {
  import opened Config
  import opened Utils
  import opened Random
  import opened TileResolver

  /** What distinguishes the player from an enemy: the player's star level and lives, an
      enemy's archetype, remaining hit points, bullet power and score value. */
  datatype Role =
    | Player(level: nat, lives: nat)
    | Enemy(etype: EnemyType, hitPoints: int, bulletPower: nat, scoreValue: nat)

  /** One tank. `id` stands for the object identity the source compares with `===`. */
  datatype Tank = Tank(
    id: nat,
    x: real,
    y: real,
    speed: real,
    direction: Direction,
    cooldown: real,
    maxBullets: nat,
    invincibleTimer: real,
    frozen: real,
    alive: bool,
    role: Role)

  /** Width and height of every tank: one tile. */
  const TankSize: real := 16.0
  /** `bounds` of every movement context: the side of the field. */
  const Bounds: real := 416.0
  /** Largest coordinate of a tank's top-left corner: `bounds - width`. */
  const MaxCoord: real := Bounds - TankSize

  /** The four directions in the order `randomChoice` picks from. */
  const Directions: seq<Direction> := [Up, Down, Left, Right]

  // ---------------------------------------------------------------- construction and stats

  /** Position of an archetype in the source's tables: BASIC, FAST, POWER, ARMOR. */
  function Rank(t: EnemyType): (n: nat)
    ensures n < 4
  {
    match t
    case Basic => 0
    case Fast => 1
    case Power => 2
    case Armor => 3
  }

  function EnemySpeed(t: EnemyType): real {
    match t
    case Basic => 50.0
    case Fast => 70.0
    case Power => 55.0
    case Armor => 40.0
  }

  function EnemyHitPoints(t: EnemyType): nat {
    match t
    case Basic => 1
    case Fast => 1
    case Power => 1
    case Armor => 4
  }

  function EnemyBulletPower(t: EnemyType): nat {
    match t
    case Basic => 1
    case Fast => 1
    case Power => 2
    case Armor => 1
  }

  function EnemyScoreValue(t: EnemyType): nat {
    match t
    case Basic => 100
    case Fast => 200
    case Power => 300
    case Armor => 400
  }

  /** `new EnemyTank({x, y, type})`: facing down, with the default two-second spawn shield. */
  function NewEnemy(id: nat, x: real, y: real, etype: EnemyType): (t: Tank)
    ensures t.id == id && t.x == x && t.y == y && t.alive
    ensures t.direction == Down && t.cooldown == 0.0 && t.frozen == 0.0 && t.invincibleTimer == 2.0
    ensures t.role.Enemy? && t.role.etype == etype
    ensures t.speed == [50.0, 70.0, 55.0, 40.0][Rank(etype)]
    ensures t.role.hitPoints == (if etype == Armor then 4 else 1)
    ensures t.role.bulletPower == (if etype == Power then 2 else 1)
    ensures t.role.scoreValue == 100 * (Rank(etype) + 1)
    ensures t.maxBullets == (if etype == Power then 2 else 1)
  {
    Tank(id, x, y, EnemySpeed(etype), Down, 0.0, if etype == Power then 2 else 1, 2.0, 0.0, true,
      Enemy(etype, EnemyHitPoints(etype), EnemyBulletPower(etype), EnemyScoreValue(etype)))
  }

  /** `new PlayerTank({x, y})`: speed 60, facing up, star level 0, three lives, one bullet. */
  function NewPlayer(id: nat, x: real, y: real): (t: Tank)
    ensures t.id == id && t.x == x && t.y == y && t.alive
    ensures t.role == Player(0, PlayerBaseLives)
    ensures t.speed == 60.0 && t.direction == Up && t.maxBullets == 1
    ensures t.cooldown == 0.0 && t.invincibleTimer == 0.0 && t.frozen == 0.0
  {
    Tank(id, x, y, 60.0, Up, 0.0, 1, 0.0, 0.0, true, Player(0, 3))
  }

  // ---------------------------------------------------------------- damage and shields

  /** `damage(power)`: returns the new tank and whether the hit was lethal. A shielded tank
      ignores the hit. An enemy loses `power` hit points and dies when they reach zero or
      less; the player (who has no hit points) dies on any unshielded hit. */
  function Damage(t: Tank, power: int): (r: (Tank, bool))
    ensures t.invincibleTimer > 0.0 ==> r == (t, false)
    ensures t.invincibleTimer <= 0.0 && t.role.Player? ==> r == (t.(alive := false), true)
    ensures t.invincibleTimer <= 0.0 && t.role.Enemy? ==>
              r.0.role == t.role.(hitPoints := t.role.hitPoints - power) &&
              (r.1 <==> t.role.hitPoints - power <= 0) &&
              r.0 == t.(role := r.0.role, alive := t.alive && !r.1)
  {
    if t.invincibleTimer > 0.0 then (t, false)
    else match t.role
      case Player(_, _) => (t.(alive := false), true)
      case Enemy(_, hp, _, _) =>
        var t' := t.(role := t.role.(hitPoints := hp - power));
        if hp - power > 0 then (t', false) else (t'.(alive := false), true)
  }

  /** `k` successive hits of the same power; the second component tells whether the last
      hit was lethal (false when k is 0). */
  function Hits(t: Tank, power: int, k: nat): (Tank, bool)
  {
    if k == 0 then (t, false) else Damage(Hits(t, power, k - 1).0, power)
  }

  /** On an unshielded enemy, hits accumulate: after `k` hits of power `p` it has lost k * p
      hit points, and the k-th hit is the lethal one exactly when it brings the total to zero
      or below. */
  lemma {:induction false} HitsAccumulate(t: Tank, power: int, k: nat)
    requires t.role.Enemy? && t.invincibleTimer <= 0.0
    ensures Hits(t, power, k).0.role.Enemy?
    ensures Hits(t, power, k).0.role.hitPoints == t.role.hitPoints - k * power
    ensures Hits(t, power, k).0.invincibleTimer == t.invincibleTimer
    ensures k > 0 ==> (Hits(t, power, k).1 <==> t.role.hitPoints - k * power <= 0)
  {
    if k > 0 {
      HitsAccumulate(t, power, k - 1);
    }
  }

  /** A fresh ARMOR tank, once its shield is gone, survives three power-1 hits and dies on
      the fourth; any other archetype dies on the first. */
  lemma ArmorDiesOnFourthHit(t: Tank)
    requires t.role.Enemy? && t.invincibleTimer <= 0.0
    requires t.role.hitPoints == EnemyHitPoints(t.role.etype)
    ensures t.role.etype == Armor ==> !Hits(t, 1, 1).1 && !Hits(t, 1, 2).1 && !Hits(t, 1, 3).1 && Hits(t, 1, 4).1
    ensures t.role.etype != Armor ==> Hits(t, 1, 1).1
  {
    HitsAccumulate(t, 1, 1);
    HitsAccumulate(t, 1, 2);
    HitsAccumulate(t, 1, 3);
    HitsAccumulate(t, 1, 4);
  }

  /** `grantShield(duration)`: the shield is extended to `duration` but never shortened. */
  function GrantShield(t: Tank, duration: real): (r: Tank)
    ensures r.invincibleTimer >= t.invincibleTimer && r.invincibleTimer >= duration
    ensures r.invincibleTimer == t.invincibleTimer || r.invincibleTimer == duration
    ensures r == t.(invincibleTimer := r.invincibleTimer)
  {
    t.(invincibleTimer := RMax(t.invincibleTimer, duration))
  }

  /** Shields stack as a maximum: granting is idempotent and the order of two grants does not
      matter. */
  lemma GrantShieldCommutes(t: Tank, a: real, b: real)
    ensures GrantShield(GrantShield(t, a), b) == GrantShield(GrantShield(t, b), a)
    ensures GrantShield(GrantShield(t, a), a) == GrantShield(t, a)
  {
  }

  // ---------------------------------------------------------------- firing

  /** `Tank.fire`: a bullet is created only when the cooldown has run out and the tank owns
      fewer live bullets than it may; the cooldown then restarts (0.35 s for the player,
      0.5 s for an enemy). Otherwise nothing changes. */
  function Fire(t: Tank, owned: nat): (r: (Tank, bool))
    ensures r.1 <==> t.cooldown <= 0.0 && owned < t.maxBullets
    ensures r.1 ==> r.0 == t.(cooldown := if t.role.Player? then 0.35 else 0.5)
    ensures !r.1 ==> r.0 == t
  {
    if t.cooldown > 0.0 || owned >= t.maxBullets then (t, false)
    else (t.(cooldown := if t.role.Player? then 0.35 else 0.5), true)
  }

  /** Firing gates itself: after a shot the tank owns at most `maxBullets` bullets, and firing
      again at once is refused. */
  lemma FireGatesItself(t: Tank, owned: nat)
    requires Fire(t, owned).1
    ensures owned + 1 <= t.maxBullets
    ensures !Fire(Fire(t, owned).0, owned + 1).1
  {
  }

  /** The player's bullet allowance: two from star level 2 on. */
  function PlayerMaxBullets(level: nat): nat { if level >= 2 then 2 else 1 }

  /** The player's cooldown after a shot: 0.15 s at star level 3, else 0.2 s. */
  function PlayerCooldown(level: nat): real { if level >= 3 then 0.15 else 0.2 }

  /** `PlayerTank.fire` as written: it stores the allowance and a positive cooldown and only
      then delegates to `Tank.fire`, whose guard sees that cooldown and refuses. The player
      never fires. */
  function PlayerFireAsWritten(t: Tank, owned: nat): (r: (Tank, bool))
    requires t.role.Player?
    ensures !r.1
    ensures r.0 == t.(maxBullets := PlayerMaxBullets(t.role.level), cooldown := PlayerCooldown(t.role.level))
  {
    Fire(t.(maxBullets := PlayerMaxBullets(t.role.level), cooldown := PlayerCooldown(t.role.level)), owned)
  }

  /** `PlayerTank.fire` with the level-dependent cooldown stored after the guard instead of
      before it: the player fires when the cooldown has run out and it owns fewer bullets
      than its level allows, and the cooldown then restarts at the level's value. */
  function PlayerFire(t: Tank, owned: nat): (r: (Tank, bool))
    requires t.role.Player?
    ensures r.1 <==> t.cooldown <= 0.0 && owned < PlayerMaxBullets(t.role.level)
    ensures r.0.maxBullets == PlayerMaxBullets(t.role.level)
    ensures r.1 ==> r.0 == t.(maxBullets := r.0.maxBullets, cooldown := PlayerCooldown(t.role.level))
    ensures !r.1 ==> r.0 == t.(maxBullets := r.0.maxBullets)
  {
    var t' := t.(maxBullets := PlayerMaxBullets(t.role.level));
    var (fired, shot) := Fire(t', owned);
    if shot then (fired.(cooldown := PlayerCooldown(t.role.level)), true) else (fired, false)
  }

  /** The discrepancy on a concrete input: a new player with no bullets in flight cannot fire
      as written, and fires with the corrected order. */
  lemma PlayerFireFinding()
    ensures !PlayerFireAsWritten(NewPlayer(0, 192.0, 352.0), 0).1
    ensures PlayerFire(NewPlayer(0, 192.0, 352.0), 0).1
  {
  }

  // ---------------------------------------------------------------- player bookkeeping

  /** `upgrade()` (and the STAR pick-up): one more star level, capped at 3. */
  function Upgrade(t: Tank): (r: Tank)
    requires t.role.Player?
    ensures r.role.Player? && r.role.lives == t.role.lives
    ensures r.role.level <= 3 && r.role.level >= Min(t.role.level, 3)
    ensures t.role.level < 3 ==> r.role.level == t.role.level + 1
    ensures r == t.(role := r.role)
  {
    t.(role := t.role.(level := Min(3, t.role.level + 1)))
  }

  /** Three upgrades take a new player to the top level, where upgrading changes nothing. */
  lemma UpgradeSaturates(t: Tank)
    requires t.role.Player? && t.role.level == 0
    ensures Upgrade(Upgrade(Upgrade(t))).role.level == 3
    ensures Upgrade(Upgrade(Upgrade(Upgrade(t)))) == Upgrade(Upgrade(Upgrade(t)))
  {
  }

  /** `reset(position)`: back at `(x, y)`, facing up, cooldown cleared, alive, with a
      two-second shield. Level and lives are kept. (Clearing its bullet set is done by the
      game, which owns the bullets.) */
  function ResetPlayer(t: Tank, x: real, y: real): (r: Tank)
    ensures r.x == x && r.y == y && r.direction == Up && r.cooldown == 0.0 && r.alive
    ensures r.invincibleTimer == 2.0
    ensures r.id == t.id && r.role == t.role && r.speed == t.speed && r.frozen == t.frozen
    ensures r.maxBullets == t.maxBullets
  {
    t.(x := x, y := y, direction := Up, cooldown := 0.0, alive := true, invincibleTimer := 2.0)
  }

  // ---------------------------------------------------------------- collision

  /** `rectOverlap`: two axis-aligned boxes share interior area. */
  predicate RectOverlap(x1: real, y1: real, w1: real, h1: real, x2: real, y2: real, w2: real, h2: real) {
    x1 < x2 + w2 && x1 + w1 > x2 && y1 < y2 + h2 && y1 + h1 > y2
  }

  /** Overlap is symmetric. */
  lemma RectOverlapSymmetric(x1: real, y1: real, w1: real, h1: real, x2: real, y2: real, w2: real, h2: real)
    ensures RectOverlap(x1, y1, w1, h1, x2, y2, w2, h2) <==> RectOverlap(x2, y2, w2, h2, x1, y1, w1, h1)
  {
  }

  /** Two boxes of positive size overlap exactly when their centres are closer than the sum of
      their half-sizes on both axes. */
  lemma RectOverlapByCentres(x1: real, y1: real, w1: real, h1: real, x2: real, y2: real, w2: real, h2: real)
    requires w1 > 0.0 && h1 > 0.0 && w2 > 0.0 && h2 > 0.0
    ensures RectOverlap(x1, y1, w1, h1, x2, y2, w2, h2) <==>
              Abs((x1 + w1 / 2.0) - (x2 + w2 / 2.0)) < (w1 + w2) / 2.0 &&
              Abs((y1 + h1 / 2.0) - (y2 + h2 / 2.0)) < (h1 + h2) / 2.0
  {
  }

  /** Both corners of a tank-sized box at (x, y) lie on the field. */
  predicate BoxInside(x: real, y: real) {
    IsInsideField(x, y) && IsInsideField(x + TankSize - 1.0, y + TankSize - 1.0)
  }

  /** Every tile a tank-sized box at (x, y) covers is passable. */
  predicate TilesClear(grid: Grid, x: real, y: real)
    requires IsGrid(grid)
  {
    forall row, col ::
      (0 <= row < GridSize && 0 <= col < GridSize &&
       CoordToTile(y) <= row <= CoordToTile(y + TankSize - 1.0) &&
       CoordToTile(x) <= col <= CoordToTile(x + TankSize - 1.0)) ==> IsPassable(grid[row][col])
  }

  /** `other` keeps the tank `self` out of (x, y): a different, live tank overlapping there. */
  predicate Blocks(other: Tank, self: nat, x: real, y: real) {
    other.id != self && other.alive && RectOverlap(x, y, TankSize, TankSize, other.x, other.y, TankSize, TankSize)
  }

  /** `canMoveTo(x, y, 16, 16, context)` for the tank `self` among `tanks`. */
  predicate CanMoveTo(grid: Grid, tanks: seq<Tank>, self: nat, x: real, y: real)
    requires IsGrid(grid)
  {
    BoxInside(x, y) && TilesClear(grid, x, y) && forall i :: 0 <= i < |tanks| ==> !Blocks(tanks[i], self, x, y)
  }

  /** The loops of `canMoveTo`: the bounds test, the row-major tile scan with early exit, then
      the scan over the other tanks. */
  method CanMoveToScan(grid: Grid, tanks: seq<Tank>, self: nat, x: real, y: real) returns (ok: bool)
    requires IsGrid(grid)
    ensures ok <==> CanMoveTo(grid, tanks, self, x, y)
  {
    if !IsInsideField(x, y) || !IsInsideField(x + TankSize - 1.0, y + TankSize - 1.0) {
      return false;
    }
    var left, top := CoordToTile(x), CoordToTile(y);
    var right, bottom := CoordToTile(x + TankSize - 1.0), CoordToTile(y + TankSize - 1.0);
    CoordToTileMonotone(x, x + TankSize - 1.0);
    CoordToTileMonotone(y, y + TankSize - 1.0);
    var row := top;
    while row <= bottom
      invariant top <= row <= bottom + 1
      invariant forall r, c :: top <= r < row && left <= c <= right ==> IsPassable(grid[r][c])
    {
      var col := left;
      while col <= right
        invariant left <= col <= right + 1
        invariant forall c :: left <= c < col ==> IsPassable(grid[row][c])
      {
        if !IsPassable(grid[row][col]) {
          return false;
        }
        col := col + 1;
      }
      row := row + 1;
    }
    var i := 0;
    while i < |tanks|
      invariant 0 <= i <= |tanks|
      invariant forall j :: 0 <= j < i ==> !Blocks(tanks[j], self, x, y)
    {
      if tanks[i].id != self && tanks[i].alive &&
         RectOverlap(x, y, TankSize, TankSize, tanks[i].x, tanks[i].y, TankSize, TankSize) {
        return false;
      }
      i := i + 1;
    }
    return true;
  }

  /** A place some other tank could move to is never inside a live tank: if `a` may move to
      (x, y), then no live tank other than `a` overlaps the box there, seen from either side. */
  lemma CanMoveToExcludesOverlap(grid: Grid, tanks: seq<Tank>, self: nat, x: real, y: real, i: nat)
    requires IsGrid(grid) && CanMoveTo(grid, tanks, self, x, y)
    requires i < |tanks| && tanks[i].id != self && tanks[i].alive
    ensures !RectOverlap(tanks[i].x, tanks[i].y, TankSize, TankSize, x, y, TankSize, TankSize)
  {
    RectOverlapSymmetric(x, y, TankSize, TankSize, tanks[i].x, tanks[i].y, TankSize, TankSize);
  }

  // ---------------------------------------------------------------- movement

  /** A tank's top-left corner lies in [0, 400] on both axes. */
  predicate OnField(t: Tank) {
    0.0 <= t.x <= MaxCoord && 0.0 <= t.y <= MaxCoord
  }

  /** The point `distance` away from (x, y) in direction `d` (y grows downwards). */
  function Step(x: real, y: real, d: Direction, distance: real): (p: (real, real))
    ensures d == Up ==> p == (x, y - distance)
    ensures d == Down ==> p == (x, y + distance)
    ensures d == Left ==> p == (x - distance, y)
    ensures d == Right ==> p == (x + distance, y)
  {
    match d
    case Up => (x, y - distance)
    case Down => (x, y + distance)
    case Left => (x - distance, y)
    case Right => (x + distance, y)
  }

  /** `Tank.move` (used by enemies): the tank steps `speed * dt` along its direction when
      `canMoveTo` allows it, committing the clamped position; otherwise an enemy takes one
      draw and turns to a random direction, and the player stays put. */
  function Move(t: Tank, dt: real, grid: Grid, tanks: seq<Tank>, rng: Source): (r: (Tank, Source))
    requires IsGrid(grid)
    ensures var p := Step(t.x, t.y, t.direction, t.speed * dt);
            CanMoveTo(grid, tanks, t.id, p.0, p.1) ==>
              r.1 == rng && r.0 == t.(x := Clamp(p.0, 0.0, MaxCoord), y := Clamp(p.1, 0.0, MaxCoord)) && OnField(r.0)
    ensures var p := Step(t.x, t.y, t.direction, t.speed * dt);
            !CanMoveTo(grid, tanks, t.id, p.0, p.1) && t.role.Enemy? ==>
              r.1.cursor == rng.cursor + 1 && r.0 == t.(direction := r.0.direction) &&
              r.0.direction == RandomChoice(Directions, rng.draw(rng.cursor))
    ensures var p := Step(t.x, t.y, t.direction, t.speed * dt);
            !CanMoveTo(grid, tanks, t.id, p.0, p.1) && t.role.Player? ==> r == (t, rng)
  {
    var p := Step(t.x, t.y, t.direction, t.speed * dt);
    if CanMoveTo(grid, tanks, t.id, p.0, p.1) then
      (t.(x := Clamp(p.0, 0.0, MaxCoord), y := Clamp(p.1, 0.0, MaxCoord)), rng)
    else if t.role.Enemy? then
      var (d, rng') := Next(rng);
      (t.(direction := RandomChoice(Directions, d)), rng')
    else (t, rng)
  }

  /** Where `Move` goes, `canMoveTo` said yes: a tank whose position changed passed the
      bounds test, its box covers only passable tiles, and no other live tank overlapped the
      probed spot. The clamp then keeps the committed corner within one unit of that spot
      (the bounds test admits corners up to, not including, 401), exactly on it inside [0, 400]. */
  lemma MoveLandsClear(t: Tank, dt: real, grid: Grid, tanks: seq<Tank>, rng: Source)
    requires IsGrid(grid)
    ensures var r := Move(t, dt, grid, tanks, rng).0;
            var p := Step(t.x, t.y, t.direction, t.speed * dt);
            (r.x != t.x || r.y != t.y) ==>
              && CanMoveTo(grid, tanks, t.id, p.0, p.1)
              && TilesClear(grid, p.0, p.1)
              && (forall i :: 0 <= i < |tanks| ==> !Blocks(tanks[i], t.id, p.0, p.1))
              && 0.0 <= p.0 - r.x < 1.0 && 0.0 <= p.1 - r.y < 1.0
              && (p.0 <= MaxCoord ==> r.x == p.0) && (p.1 <= MaxCoord ==> r.y == p.1)
              && r.x == Clamp(p.0, 0.0, MaxCoord) && r.y == Clamp(p.1, 0.0, MaxCoord)
  {
  }

  /** The corner `Move` commits is itself clear: the clamp never takes a box onto a tile the
      probed spot did not cover, and it lands on the field. */
  lemma MoveLandsOnClearTiles(t: Tank, dt: real, grid: Grid, tanks: seq<Tank>, rng: Source)
    requires IsGrid(grid)
    ensures var r := Move(t, dt, grid, tanks, rng).0;
            (r.x != t.x || r.y != t.y) ==> TilesClear(grid, r.x, r.y) && OnField(r)
  {
    var p := Step(t.x, t.y, t.direction, t.speed * dt);
    var r := Move(t, dt, grid, tanks, rng).0;
    MoveLandsClear(t, dt, grid, tanks, rng);
    if r.x != t.x || r.y != t.y {
      ClampedBoxClear(grid, p.0, p.1, r.x, r.y);
    }
  }

  /** A box that passed the bounds test on clear tiles is still on clear tiles once its
      corner is clamped to [0, 400]. */
  lemma ClampedBoxClear(grid: Grid, x: real, y: real, x': real, y': real)
    requires IsGrid(grid) && BoxInside(x, y) && TilesClear(grid, x, y)
    requires x' == Clamp(x, 0.0, MaxCoord) && y' == Clamp(y, 0.0, MaxCoord)
    ensures TilesClear(grid, x', y') && 0.0 <= x' <= MaxCoord && 0.0 <= y' <= MaxCoord
  {
    ClampKeepsTiles(x);
    ClampKeepsTiles(y);
    TilesClearByTiles(grid, x, y, x', y');
  }

  /** Whether a box's tiles are clear depends only on the tiles its edges fall in. */
  lemma TilesClearByTiles(grid: Grid, x: real, y: real, x': real, y': real)
    requires IsGrid(grid) && TilesClear(grid, x, y)
    requires CoordToTile(x') == CoordToTile(x) && CoordToTile(x' + TankSize - 1.0) == CoordToTile(x + TankSize - 1.0)
    requires CoordToTile(y') == CoordToTile(y) && CoordToTile(y' + TankSize - 1.0) == CoordToTile(y + TankSize - 1.0)
    ensures TilesClear(grid, x', y')
  {
  }

  /** Clamping a corner that passed the bounds test to [0, 400] leaves the tiles its box
      covers unchanged: past 400 both edges stay in the last column or row. */
  lemma ClampKeepsTiles(v: real)
    requires 0.0 <= v && v + TankSize - 1.0 < Bounds
    ensures CoordToTile(Clamp(v, 0.0, MaxCoord)) == CoordToTile(v)
    ensures CoordToTile(Clamp(v, 0.0, MaxCoord) + TankSize - 1.0) == CoordToTile(v + TankSize - 1.0)
  {
    if v > MaxCoord {
      assert Clamp(v, 0.0, MaxCoord) == MaxCoord;
      assert CoordToTile(MaxCoord) == 25;
      assert CoordToTile(v) == 25;
      assert CoordToTile(MaxCoord + TankSize - 1.0) == 25;
      assert CoordToTile(v + TankSize - 1.0) == 25;
    }
  }

  /** `Math.round` on a non-negative or negative real: the nearest integer, halves upwards. */
  function JsRound(v: real): (n: int)
    ensures n as real - 0.5 <= v < n as real + 0.5
  {
    (v + 0.5).Floor
  }

  /** The grid line `alignAxisToGrid` steers towards: the nearest multiple of 16, clamped. */
  function AlignTarget(value: real, maxCoordinate: real): real {
    Clamp(JsRound(value / TileSize as real) as real * TileSize as real, 0.0, maxCoordinate)
  }

  /** `alignAxisToGrid(value, max, step)`: with a positive step, moves `value` at most `step`
      towards its grid line, landing on it when it is within reach; never overshoots. */
  function AlignAxisToGrid(value: real, maxCoordinate: real, step: real): (r: real)
    ensures step <= 0.0 ==> r == value
    ensures step > 0.0 ==> Abs(r - value) <= step
    ensures step > 0.0 && Abs(AlignTarget(value, maxCoordinate) - value) <= step ==> r == AlignTarget(value, maxCoordinate)
    ensures step > 0.0 && Abs(AlignTarget(value, maxCoordinate) - value) > step ==>
              Abs(AlignTarget(value, maxCoordinate) - r) == Abs(AlignTarget(value, maxCoordinate) - value) - step
  {
    if step <= 0.0 then value
    else
      var target := AlignTarget(value, maxCoordinate);
      var delta := target - value;
      if Abs(delta) <= step then target
      else if delta > 0.0 then value + step else value - step
  }

  /** On the field the grid line is a multiple of 16 at most half a tile away, so a nudge
      never has to travel more than 8 units. */
  lemma AlignTargetIsNearestLine(value: real)
    requires 0.0 <= value <= MaxCoord
    ensures 0 <= CoordToTile(AlignTarget(value, MaxCoord)) < GridSize
    ensures TileToCoord(CoordToTile(AlignTarget(value, MaxCoord))) == AlignTarget(value, MaxCoord)
    ensures Abs(AlignTarget(value, MaxCoord) - value) <= 8.0
  {
    var n := JsRound(value / 16.0);
    assert 0 <= n <= 25;
    assert AlignTarget(value, MaxCoord) == TileToCoord(n);
    TileCoordRoundTrip(n);
  }

  /** An aligned coordinate of an on-field tank stays on the field. */
  lemma AlignStaysOnField(value: real, step: real)
    requires 0.0 <= value <= MaxCoord
    ensures 0.0 <= AlignAxisToGrid(value, MaxCoord, step) <= MaxCoord
  {
  }

  /** The pressed keys the engine reads through `isPressed`. */
  datatype Input = Input(up: bool, down: bool, left: bool, right: bool, fire: bool, pause: bool)

  /** `resolveInputDirection`: up beats down beats left beats right; none when no arrow is
      pressed. */
  function ResolveInputDirection(input: Input): (r: Option<Direction>)
    ensures r.None? <==> !input.up && !input.down && !input.left && !input.right
    ensures r.Some? ==> (r.value == Up <==> input.up)
    ensures r.Some? ==> (r.value == Down <==> !input.up && input.down)
    ensures r.Some? ==> (r.value == Left <==> !input.up && !input.down && input.left)
  {
    if input.up then Some(Up)
    else if input.down then Some(Down)
    else if input.left then Some(Left)
    else if input.right then Some(Right)
    else None
  }

  /** The player's travel for one tick: its speed, 15% faster per star level, times dt. */
  function PlayerVelocity(t: Tank, dt: real): real
    requires t.role.Player?
  {
    t.speed * (1.0 + t.role.level as real * 0.15) * dt
  }

  /** The moving part of `PlayerTank.move` for a vertical direction: nudge x towards its grid
      line when that spot is free, then step `v` up or down when that spot is free. */
  function MoveVertically(t: Tank, v: real, grid: Grid, tanks: seq<Tank>): (r: Tank)
    requires IsGrid(grid) && v > 0.0 && (t.direction == Up || t.direction == Down)
    ensures r == t.(x := r.x, y := r.y)
    ensures OnField(t) ==> OnField(r) && Abs(r.x - t.x) <= v && Abs(r.y - t.y) <= v
    ensures OnField(t) && t.direction == Up ==> r.y <= t.y
    ensures OnField(t) && t.direction == Down ==> r.y >= t.y
  {
    var ax := AlignAxisToGrid(t.x, MaxCoord, v);
    var t' := if ax != t.x && CanMoveTo(grid, tanks, t.id, ax, t.y) then t.(x := Clamp(ax, 0.0, MaxCoord)) else t;
    var ty := if t.direction == Up then t'.y - v else t'.y + v;
    if CanMoveTo(grid, tanks, t.id, t'.x, ty) then t'.(y := Clamp(ty, 0.0, MaxCoord)) else t'
  }

  /** The moving part of `PlayerTank.move` for a horizontal direction: nudge y towards its
      grid line when that spot is free, then step `v` left or right when that spot is free. */
  function MoveHorizontally(t: Tank, v: real, grid: Grid, tanks: seq<Tank>): (r: Tank)
    requires IsGrid(grid) && v > 0.0 && (t.direction == Left || t.direction == Right)
    ensures r == t.(x := r.x, y := r.y)
    ensures OnField(t) ==> OnField(r) && Abs(r.x - t.x) <= v && Abs(r.y - t.y) <= v
    ensures OnField(t) && t.direction == Left ==> r.x <= t.x
    ensures OnField(t) && t.direction == Right ==> r.x >= t.x
  {
    var ay := AlignAxisToGrid(t.y, MaxCoord, v);
    var t' := if ay != t.y && CanMoveTo(grid, tanks, t.id, t.x, ay) then t.(y := Clamp(ay, 0.0, MaxCoord)) else t;
    var tx := if t.direction == Left then t'.x - v else t'.x + v;
    if CanMoveTo(grid, tanks, t.id, tx, t'.y) then t'.(x := Clamp(tx, 0.0, MaxCoord)) else t'
  }

  /** The movement half of `PlayerTank.move`: turn to the pressed direction, then nudge and
      step along it. Without an arrow key (or with no time passing) nothing moves. */
  function PlayerMove(t: Tank, dt: real, grid: Grid, tanks: seq<Tank>, input: Input): (r: Tank)
    requires IsGrid(grid) && t.role.Player?
    ensures ResolveInputDirection(input).None? ==> r == t
    ensures ResolveInputDirection(input).Some? ==> r.direction == ResolveInputDirection(input).value
    ensures r == t.(x := r.x, y := r.y, direction := r.direction)
    ensures OnField(t) ==> OnField(r)
    ensures OnField(t) && r.direction == Up ==> r.y <= t.y
    ensures OnField(t) && r.direction == Down ==> r.y >= t.y
    ensures OnField(t) && r.direction == Left ==> r.x <= t.x
    ensures OnField(t) && r.direction == Right ==> r.x >= t.x
    ensures OnField(t) && PlayerVelocity(t, dt) > 0.0 ==>
              Abs(r.x - t.x) <= PlayerVelocity(t, dt) && Abs(r.y - t.y) <= PlayerVelocity(t, dt)
  {
    match ResolveInputDirection(input)
    case None => t
    case Some(d) =>
      var turned := t.(direction := d);
      var v := PlayerVelocity(t, dt);
      if v <= 0.0 then turned
      else if d == Up || d == Down then MoveVertically(turned, v, grid, tanks)
      else MoveHorizontally(turned, v, grid, tanks)
  }

  // ---------------------------------------------------------------- enemy AI

  /** Chance per tick that an enemy turns at random: 2% for FAST, 1% for the others. */
  function TurnChance(etype: EnemyType): real { if etype == Fast then 0.02 else 0.01 }

  /** The player is within a tile of the enemy on the x axis (same column band). */
  predicate AlignedHorizontally(t: Tank, player: Tank) { Abs(player.x - t.x) < TankSize }
  /** The player is within a tile of the enemy on the y axis (same row band). */
  predicate AlignedVertically(t: Tank, player: Tank) { Abs(player.y - t.y) < TankSize }

  /** The random turn of `EnemyTank.aiUpdate`: one draw, and when it falls below the turn
      chance a second draw picks the new direction. Nothing else changes. */
  function RandomTurn(t: Tank, rng: Source): (r: (Tank, Source))
    requires t.role.Enemy?
    ensures r.0 == t.(direction := r.0.direction) && r.1.draw == rng.draw
    ensures rng.draw(rng.cursor) < TurnChance(t.role.etype) ==>
              r.1.cursor == rng.cursor + 2 && r.0.direction == RandomChoice(Directions, rng.draw(rng.cursor + 1))
    ensures rng.draw(rng.cursor) >= TurnChance(t.role.etype) ==> r.0 == t && r.1.cursor == rng.cursor + 1
  {
    var (turn, rng) := Next(rng);
    if turn < TurnChance(t.role.etype) then
      var (pick, rng') := Next(rng);
      (t.(direction := RandomChoice(Directions, pick)), rng')
    else (t, rng)
  }

  /** The part of `EnemyTank.aiUpdate` run while the player lives: face the player when lined
      up with it (the column band first), then, with the cooldown run out and a bullet free,
      fire when lined up, or else on a draw below 0.02. The draw is taken only in that last
      case. Returns the tank, whether it fired, and the stream. */
  function Engage(t: Tank, player: Tank, owned: nat, rng: Source): (r: (Tank, bool, Source))
    requires t.role.Enemy?
    ensures AlignedHorizontally(t, player) ==> r.0.direction == (if player.y < t.y then Up else Down)
    ensures !AlignedHorizontally(t, player) && AlignedVertically(t, player) ==>
              r.0.direction == (if player.x < t.x then Left else Right)
    ensures !AlignedHorizontally(t, player) && !AlignedVertically(t, player) ==> r.0.direction == t.direction
    ensures r.0 == t.(direction := r.0.direction, cooldown := r.0.cooldown)
    ensures r.1 <==> r.0.cooldown != t.cooldown
    ensures r.1 ==> t.cooldown <= 0.0 && owned < t.maxBullets && r.0.cooldown == 0.5
    ensures t.cooldown <= 0.0 && owned < t.maxBullets && (AlignedHorizontally(t, player) || AlignedVertically(t, player)) ==>
              r.1 && r.2 == rng
    ensures t.cooldown <= 0.0 && owned < t.maxBullets && !AlignedHorizontally(t, player) && !AlignedVertically(t, player) ==>
              r.2 == rng.(cursor := rng.cursor + 1) && (r.1 <==> rng.draw(rng.cursor) < 0.02)
    ensures !(t.cooldown <= 0.0 && owned < t.maxBullets) ==> !r.1 && r.2 == rng
  {
    var alignH := AlignedHorizontally(t, player);
    var alignV := AlignedVertically(t, player);
    var t :=
      if alignH then t.(direction := if player.y < t.y then Up else Down)
      else if alignV then t.(direction := if player.x < t.x then Left else Right)
      else t;
    if t.cooldown <= 0.0 && owned < t.maxBullets then
      if alignH || alignV then
        var (t', shot) := Fire(t, owned);
        (t', shot, rng)
      else
        var (chance, rng') := Next(rng);
        if chance < 0.02 then
          var (t', shot) := Fire(t, owned);
          (t', shot, rng')
        else (t, false, rng')
    else (t, false, rng)
  }

  /** `EnemyTank.aiUpdate`: a frozen enemy only thaws; otherwise it may turn at random, and
      while the player lives it engages. Draws are taken only where the source evaluates
      `Math.random()`. Returns the tank, whether it fired, and the stream. */
  function EnemyAi(t: Tank, dt: real, player: Tank, owned: nat, rng: Source): (r: (Tank, bool, Source))
    requires t.role.Enemy?
    ensures t.frozen > 0.0 ==> r == (t.(frozen := t.frozen - dt), false, rng)
    ensures t.frozen <= 0.0 ==>
              var (turned, rng') := RandomTurn(t, rng);
              r == if player.alive then Engage(turned, player, owned, rng') else (turned, false, rng')
    ensures r.1 ==> t.frozen <= 0.0 && player.alive && t.cooldown <= 0.0 && owned < t.maxBullets
    ensures r.0 == t.(direction := r.0.direction, cooldown := r.0.cooldown, frozen := r.0.frozen)
    ensures rng.cursor <= r.2.cursor <= rng.cursor + 3 && r.2.draw == rng.draw
  {
    if t.frozen > 0.0 then (t.(frozen := t.frozen - dt), false, rng)
    else
      var (turned, rng') := RandomTurn(t, rng);
      if player.alive then Engage(turned, player, owned, rng') else (turned, false, rng')
  }

  /** An enemy's shot is a `Tank.fire` that succeeds: the AI fires only where `Fire` would,
      leaving the cooldown `Fire` leaves; and when the player lives and is lined up with an
      active enemy, the AI fires exactly when `Fire` would. */
  lemma EnemyAiFiresThroughFire(t: Tank, dt: real, player: Tank, owned: nat, rng: Source)
    requires t.role.Enemy?
    ensures var r := EnemyAi(t, dt, player, owned, rng);
            r.1 ==> Fire(t, owned).1 && r.0.cooldown == Fire(t, owned).0.cooldown
    ensures t.frozen <= 0.0 && player.alive && (AlignedHorizontally(t, player) || AlignedVertically(t, player)) ==>
              (EnemyAi(t, dt, player, owned, rng).1 <==> Fire(t, owned).1)
  {
    if t.frozen <= 0.0 {
      var turned := RandomTurn(t, rng).0;
      assert turned.x == t.x && turned.y == t.y && turned.cooldown == t.cooldown && turned.maxBullets == t.maxBullets;
    }
  }

  /** A FAST enemy turns twice as readily: on any stream on which another enemy turns, a FAST
      one with the same state takes the same turn; and a first draw in [0.01, 0.02) turns
      the FAST enemy but leaves any other as it was. */
  lemma FastTurnsMoreOften(t: Tank, rng: Source)
    requires t.role.Enemy?
    ensures var fast := t.(role := t.role.(etype := Fast));
            RandomTurn(t, rng).1.cursor == rng.cursor + 2 ==>
              RandomTurn(fast, rng) == (RandomTurn(t, rng).0.(role := fast.role), RandomTurn(t, rng).1)
    ensures var fast := t.(role := t.role.(etype := Fast));
            t.role.etype != Fast && 0.01 <= rng.draw(rng.cursor) < 0.02 ==>
              RandomTurn(t, rng).0 == t && RandomTurn(fast, rng).1.cursor == rng.cursor + 2
  {
  }

  // ---------------------------------------------------------------- per-tick update

  /** The shield countdown of `update`: it runs only while positive. */
  function TickShield(t: Tank, dt: real): Tank {
    if t.invincibleTimer > 0.0 then t.(invincibleTimer := t.invincibleTimer - dt) else t
  }

  /** The cooldown countdown at the end of `update`: it runs only while positive. */
  function TickCooldown(t: Tank, dt: real): Tank {
    if t.cooldown > 0.0 then t.(cooldown := t.cooldown - dt) else t
  }

  /** `Tank.update` for an enemy: a dead tank is left alone; otherwise the shield counts down,
      a frozen tank only thaws, and an active one runs its AI, moves and cools down. The
      second component is the tank as it was when it fired (the bullet's origin), if it did. */
  function UpdateEnemy(t: Tank, dt: real, grid: Grid, tanks: seq<Tank>, player: Tank, owned: nat, rng: Source)
    : (r: (Tank, Option<Tank>, Source))
    requires IsGrid(grid) && t.role.Enemy?
    ensures !t.alive ==> r == (t, None, rng)
    ensures t.alive && t.frozen > 0.0 ==>
              r == (TickShield(t, dt).(frozen := t.frozen - dt), None, rng)
    ensures r.1.Some? ==> t.alive && t.frozen <= 0.0 && player.alive && t.cooldown <= 0.0 && owned < t.maxBullets
    ensures r.1.Some? ==> r.1.value.id == t.id && r.1.value.x == t.x && r.1.value.y == t.y && r.1.value.role == t.role
    ensures (t.alive && t.frozen <= 0.0 && player.alive && t.cooldown <= 0.0 && owned < t.maxBullets &&
             (AlignedHorizontally(t, player) || AlignedVertically(t, player))) ==> r.1.Some?
    ensures r.0.id == t.id && r.0.role == t.role && r.0.alive == t.alive && r.0.maxBullets == t.maxBullets
    ensures t.alive && OnField(t) && t.frozen <= 0.0 ==> OnField(r.0)
  {
    if !t.alive then (t, None, rng)
    else
      var t := TickShield(t, dt);
      if t.frozen > 0.0 then (t.(frozen := t.frozen - dt), None, rng)
      else
        var (t, fired, rng) := EnemyAi(t, dt, player, owned, rng);
        var shooter := if fired then Some(t) else None;
        var (t, rng) := Move(t, dt, grid, tanks, rng);
        (TickCooldown(t, dt), shooter, rng)
  }

  /** `Tank.update` for the player (which has no AI): shield countdown, thaw when frozen,
      otherwise `PlayerTank.move` — movement, then a shot when fire is held — and the
      cooldown countdown. The shot is `PlayerFireAsWritten` in the `AsWritten` build, so the
      player never fires and holding fire only restarts its cooldown, and `PlayerFire` in the
      `Repaired` build. The second component is the tank as it was when it fired, if it did. */
  function UpdatePlayer(build: Build, t: Tank, dt: real, grid: Grid, tanks: seq<Tank>, input: Input, owned: nat)
    : (r: (Tank, Option<Tank>))
    requires IsGrid(grid) && t.role.Player?
    ensures !t.alive ==> r == (t, None)
    ensures build == AsWritten ==> r.1.None?
    ensures build == AsWritten && t.alive && t.frozen <= 0.0 && input.fire ==>
              r.0.cooldown == PlayerCooldown(t.role.level) - dt && r.0.maxBullets == PlayerMaxBullets(t.role.level)
    ensures build == Repaired && r.1.Some? ==>
              t.alive && t.frozen <= 0.0 && input.fire && t.cooldown <= 0.0 && owned < PlayerMaxBullets(t.role.level)
    ensures (build == Repaired && t.alive && t.frozen <= 0.0 && input.fire && t.cooldown <= 0.0 &&
             owned < PlayerMaxBullets(t.role.level)) ==> r.1.Some?
    ensures r.1.Some? ==> r.1.value.id == t.id && r.1.value.role == t.role
    ensures r.0.id == t.id && r.0.role == t.role && r.0.alive == t.alive
    ensures OnField(t) ==> OnField(r.0)
  {
    if !t.alive then (t, None)
    else
      var t := TickShield(t, dt);
      if t.frozen > 0.0 then (t.(frozen := t.frozen - dt), None)
      else
        var t := PlayerMove(t, dt, grid, tanks, input);
        var (t, shooter) :=
          if input.fire then
            var (t', shot) := if build == Repaired then PlayerFire(t, owned) else PlayerFireAsWritten(t, owned);
            (t', if shot then Some(t') else None)
          else (t, None);
        (TickCooldown(t, dt), shooter)
  }
}
