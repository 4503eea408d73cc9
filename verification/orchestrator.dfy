/** The game record and the event handlers of src/game/game.js: enemy spawning, power-up
    drops and their effects, kills, the shovel fortification, player death, game over, stage
    completion, pausing and stage preparation. Every handler is a function from the game
    record to the next one; `Math.random()` is read from the record's `rng` stream, and the
    seeded generator the stage builder uses is the parameter `prng`. The per-tick update
    that calls these handlers is in the GameLoop module. */
module Orchestrator {
  import opened Config
  import opened Utils
  import opened Random
  import opened Tanks
  import opened Bullets
  import opened TileResolver
  import Explosions
  import PowerUps
  import SpawnTables
  import Levels

  /** `SPAWN_POSITIONS`: the three enemy entry points along the top of the field. */
  const SpawnPositions: seq<(real, real)> := [(16.0, 16.0), (200.0, 16.0), (384.0, 16.0)]

  /** `PLAYER_SPAWN_POSITION`: left of the centre, four tiles above the bottom edge. */
  const PlayerSpawnX: real := 192.0
  const PlayerSpawnY: real := 352.0

  /** `POWER_UP_SEQUENCE`: the pick-ups a drop chooses from, uniformly. */
  const PowerUpSequence: seq<PowerUpType> := [Star, Helmet, Timer, Grenade, ExtraLife, Shovel, Gun]

  /** Everything the Game object keeps between frames. `nextId` hands out the identities of
      new tanks and bullets; `rng` is the stream of `Math.random()` draws. */
  datatype Game = Game(
    state: GameState,
    levelIndex: nat,
    hiScore: nat,
    score: nat,
    stageScore: nat,
    lastCompletedStage: int,
    killStats: SpawnTables.Counts,
    kills: nat,
    stageCounter: nat,
    level: Grid,
    spawnQueue: seq<EnemyType>,
    player: Tank,
    enemies: seq<Tank>,
    bullets: seq<Bullet>,
    powerUps: seq<PowerUps.PowerUp>,
    explosions: seq<Explosions.Explosion>,
    spawnTimer: real,
    freezeTimer: real,
    shovelTimer: real,
    baseDestroyed: bool,
    time: real,
    stageIntroTimer: real,
    gameOverTimer: real,
    nextId: nat,
    rng: Source)

  // ---------------------------------------------------------------- invariants

  /** What every handler needs: a full grid, the player in the player role and every enemy in
      the enemy role. */
  ghost predicate Shaped(g: Game) {
    && IsGrid(g.level)
    && g.player.role.Player?
    && forall e :: e in g.enemies ==> e.role.Enemy?
  }

  /** No two enemies share an identity. */
  ghost predicate DistinctIds(es: seq<Tank>) {
    forall i, j :: 0 <= i < j < |es| ==> es[i].id != es[j].id
  }

  /** The identities of the tanks on the field: the player and every enemy. */
  function TankIds(g: Game): set<nat> {
    {g.player.id} + EnemyIds(g.enemies)
  }

  /** The identities of a list of enemies. */
  function EnemyIds(es: seq<Tank>): set<nat> {
    set e | e in es :: e.id
  }

  /** The invariant that holds at every point of a tick: `Shaped`, the star level at most 3,
      at most four enemies and twenty queued, the high score at least the score, identities
      fresh and distinct, every bullet tagged as the player's exactly when the player owns
      it, and no tank with more bullets in flight than its allowance. */
  ghost predicate Core(g: Game) {
    && Shaped(g)
    && g.player.role.level <= 3
    && |g.enemies| <= MaxEnemiesOnField
    && |g.spawnQueue| <= TotalEnemiesPerStage
    && g.score <= g.hiScore
    && g.player.id < g.nextId
    && (forall e :: e in g.enemies ==> e.id < g.nextId && e.id != g.player.id)
    && DistinctIds(g.enemies)
    && (forall b :: b in g.bullets ==> b.id < g.nextId && (b.fromPlayer <==> b.ownerId == g.player.id))
    && UniqueIds(g.bullets)
    && Owned(g.bullets, g.player.id) <= PlayerMaxBullets(g.player.role.level)
    && (forall e :: e in g.enemies ==> Owned(g.bullets, e.id) <= e.maxBullets)
  }

  /** Every bullet belongs to a tank on the field. (Inside the bullet phase a killed enemy's
      bullets still fly; the phase ends by dropping them.) */
  ghost predicate Owners(g: Game) {
    forall b :: b in g.bullets ==> b.ownerId in TankIds(g)
  }

  /** The invariant between ticks. */
  ghost predicate Valid(g: Game) {
    Core(g) && Owners(g)
  }

  /** Replacing the bullet list keeps `Core` when the new bullets are correctly tagged, have
      fresh and distinct identities, and no tank gains a bullet. */
  lemma CoreWithBullets(g: Game, bs: seq<Bullet>)
    requires Core(g)
    requires forall b :: b in bs ==> b.id < g.nextId && (b.fromPlayer <==> b.ownerId == g.player.id)
    requires UniqueIds(bs)
    requires Owned(bs, g.player.id) <= Owned(g.bullets, g.player.id)
    requires forall e :: e in g.enemies ==> Owned(bs, e.id) <= Owned(g.bullets, e.id)
    ensures Core(g.(bullets := bs))
  {
  }

  /** A step that keeps the tanks and bullets, keeps the grid a grid, never grows the queue
      or turns back the identity counter, and leaves the high score at least the score keeps
      both invariants. */
  lemma CoreFrame(g: Game, h: Game)
    requires Core(g)
    requires IsGrid(h.level) && h.player == g.player && h.enemies == g.enemies && h.bullets == g.bullets
    requires |h.spawnQueue| <= |g.spawnQueue| && g.nextId <= h.nextId && h.score <= h.hiScore
    ensures Core(h)
    ensures Owners(g) ==> Owners(h)
  {
  }

  /** Changing the player record keeps both invariants when it keeps the identity and the
      player role, and the star level stays at most 3 without lowering the allowance below
      the bullets the player has in flight. */
  lemma CoreWithPlayer(g: Game, p: Tank)
    requires Core(g)
    requires p.id == g.player.id && p.role.Player? && p.role.level <= 3
    requires Owned(g.bullets, p.id) <= PlayerMaxBullets(p.role.level)
    ensures Core(g.(player := p))
    ensures Owners(g) ==> Owners(g.(player := p))
  {
    assert TankIds(g.(player := p)) == TankIds(g);
  }

  /** Bullets taken from a valid game's list are correctly tagged and distinct. */
  lemma SubsetTagged(g: Game, bs: seq<Bullet>)
    requires Core(g)
    requires forall b :: b in bs ==> b in g.bullets
    ensures forall b :: b in bs ==> b.id < g.nextId && (b.fromPlayer <==> b.ownerId == g.player.id)
    ensures UniqueIds(bs)
  {
  }

  /** Bullets whose owner has left the field are never updated or drawn again: drop them. */
  function Prune(g: Game): (r: Game)
    ensures Core(g) ==> Valid(r)
    ensures r == g.(bullets := r.bullets)
    ensures forall b :: b in r.bullets <==> b in g.bullets && b.ownerId in TankIds(g)
    ensures Owners(g) ==> r == g
    ensures Owners(r)
  {
    var bs := KeepOwners(g.bullets, TankIds(g));
    assert Core(g) ==> Core(g.(bullets := bs)) by {
      if Core(g) {
        SubsetTagged(g, bs);
        OwnedAfterKeep(g.bullets, TankIds(g), g.player.id);
        forall e | e in g.enemies ensures Owned(bs, e.id) <= Owned(g.bullets, e.id) {
          OwnedAfterKeep(g.bullets, TankIds(g), e.id);
        }
        CoreWithBullets(g, bs);
      }
    }
    assert Owners(g) ==> bs == g.bullets by {
      if Owners(g) {
        KeepAllOwners(g.bullets, TankIds(g));
      }
    }
    g.(bullets := bs)
  }

  /** A filter that keeps every bullet's owner is the identity. */
  lemma {:induction false} KeepAllOwners(bullets: seq<Bullet>, owners: set<nat>)
    requires forall b :: b in bullets ==> b.ownerId in owners
    ensures KeepOwners(bullets, owners) == bullets
  {
    if |bullets| > 0 {
      KeepAllOwners(bullets[1..], owners);
      assert bullets == [bullets[0]] + bullets[1..];
    }
  }

  // ---------------------------------------------------------------- small helpers

  /** `killStats[type]++`. */
  function CountKill(c: SpawnTables.Counts, t: EnemyType): (r: SpawnTables.Counts)
    ensures r.Of(t) == c.Of(t) + 1
    ensures forall u :: u != t ==> r.Of(u) == c.Of(u)
    ensures r.Total() == c.Total() + 1
  {
    match t
    case Basic => c.(basic := c.basic + 1)
    case Fast => c.(fast := c.fast + 1)
    case Power => c.(power := c.power + 1)
    case Armor => c.(armor := c.armor + 1)
  }

  /** `enemies.filter((enemy) => enemy.alive)`. */
  function AliveOnly(es: seq<Tank>): (r: seq<Tank>)
    ensures |r| <= |es|
    ensures forall e :: e in r <==> e in es && e.alive
    ensures DistinctIds(es) ==> DistinctIds(r)
  {
    if |es| == 0 then []
    else
      var rest := AliveOnly(es[1..]);
      if es[0].alive then
        assert DistinctIds(es) ==> DistinctIds([es[0]] + rest) by {
          if DistinctIds(es) {
            forall i, j | 0 <= i < j < |[es[0]] + rest| ensures ([es[0]] + rest)[i].id != ([es[0]] + rest)[j].id {
              var s := [es[0]] + rest;
              assert s[j] == rest[j - 1] && s[j] in es[1..];
              var k :| 0 <= k < |es[1..]| && es[1..][k] == s[j];
              if i == 0 {
                assert es[0].id != es[k + 1].id;
              } else {
                assert s[i] == rest[i - 1];
              }
            }
          }
        }
        [es[0]] + rest
      else rest
  }

  /** `x in s[k := v]` means `x` is `v` or an element of `s`. */
  lemma UpdateMembers<T>(s: seq<T>, k: nat, v: T)
    requires k < |s|
    ensures forall x :: x in s[k := v] ==> x == v || x in s
  {
    forall x | x in s[k := v] ensures x == v || x in s {
      var i :| 0 <= i < |s| && s[k := v][i] == x;
      if i != k {
        assert s[i] == x;
      }
    }
  }

  // ---------------------------------------------------------------- enemy spawning

  /** The spawn point of the enemy that leaves `remaining` entries in the queue:
      `(TOTAL_ENEMIES_PER_STAGE - remaining) % 3`. */
  function Lane(remaining: nat): (i: nat)
    ensures i < |SpawnPositions|
  {
    (TotalEnemiesPerStage - remaining) % |SpawnPositions|
  }

  /** Over a full queue of twenty the entry points rotate centre, right, left: the k-th enemy
      (from 0) enters at point (k + 1) mod 3. */
  lemma LanesRotate(k: nat)
    requires k < TotalEnemiesPerStage
    ensures Lane(TotalEnemiesPerStage - 1 - k) == (k + 1) % 3
    ensures k > 0 ==> Lane(TotalEnemiesPerStage - 1 - k) == (Lane(TotalEnemiesPerStage - k) + 1) % 3
  {
  }

  /** The enemy `spawnNextEnemy` creates: the archetype's stats, a 1.5 s shield, and frozen for
      whatever is left of a running freeze. */
  function Newcomer(id: nat, etype: EnemyType, lane: nat, freezeTimer: real): (e: Tank)
    requires lane < |SpawnPositions|
    ensures e.id == id && e.role.Enemy? && e.role.etype == etype && e.alive
    ensures (e.x, e.y) == SpawnPositions[lane]
    ensures e.invincibleTimer == 1.5
    ensures e.frozen == (if freezeTimer > 0.0 then freezeTimer else 0.0)
    ensures e == NewEnemy(id, e.x, e.y, etype).(invincibleTimer := 1.5, frozen := e.frozen)
  {
    var (x, y) := SpawnPositions[lane];
    var e := NewEnemy(id, x, y, etype).(invincibleTimer := 1.5);
    if freezeTimer > 0.0 then e.(frozen := freezeTimer) else e
  }

  /** `spawnNextEnemy`: nothing happens when the queue is empty or four enemies are on the
      field; otherwise the head of the queue enters as a new enemy at the end of the list. */
  function SpawnNextEnemy(g: Game): (r: Game)
    ensures (|g.spawnQueue| == 0 || |g.enemies| >= MaxEnemiesOnField) ==> r == g
    ensures (|g.spawnQueue| > 0 && |g.enemies| < MaxEnemiesOnField) ==>
              && r.spawnQueue == g.spawnQueue[1..]
              && |r.enemies| == |g.enemies| + 1
              && r.enemies[..|g.enemies|] == g.enemies
              && r.enemies[|g.enemies|] == Newcomer(g.nextId, g.spawnQueue[0], Lane(|g.spawnQueue| - 1), g.freezeTimer)
              && r == g.(spawnQueue := r.spawnQueue, enemies := r.enemies, nextId := g.nextId + 1)
    ensures |r.enemies| + |r.spawnQueue| == |g.enemies| + |g.spawnQueue|
  {
    if |g.spawnQueue| == 0 || |g.enemies| >= MaxEnemiesOnField then g
    else
      var queue := g.spawnQueue[1..];
      var e := Newcomer(g.nextId, g.spawnQueue[0], Lane(|queue|), g.freezeTimer);
      var r := g.(spawnQueue := queue, enemies := g.enemies + [e], nextId := g.nextId + 1);
      assert r.enemies[..|g.enemies|] == g.enemies;
      r
  }

  /** Spawning keeps the game valid: the cap of four holds and the newcomer has a fresh
      identity and no bullets. */
  lemma SpawnKeepsValid(g: Game)
    requires Valid(g)
    ensures Valid(SpawnNextEnemy(g))
  {
    if |g.spawnQueue| > 0 && |g.enemies| < MaxEnemiesOnField {
      var r := SpawnNextEnemy(g);
      var e := r.enemies[|g.enemies|];
      var g1 := g.(spawnQueue := r.spawnQueue, nextId := r.nextId);
      CoreWithCounters(g, r.spawnQueue, r.nextId);
      assert r.enemies == g.enemies + [e];
      assert forall b :: b in g.bullets ==> b.ownerId != e.id by {
        forall b | b in g.bullets ensures b.ownerId != e.id {
          assert b.ownerId in TankIds(g);
        }
      }
      NoneOwned(g.bullets, e.id);
      AppendDistinct(g.enemies, e);
      CoreWithEnemies(g1, r.enemies);
      assert r == g1.(enemies := r.enemies);
      assert EnemyIds(g.enemies) <= EnemyIds(r.enemies);
    }
  }

  /** A shorter queue and a later identity counter keep `Core`. */
  lemma CoreWithCounters(g: Game, queue: seq<EnemyType>, nextId: nat)
    requires Core(g) && |queue| <= |g.spawnQueue| && g.nextId <= nextId
    ensures Core(g.(spawnQueue := queue, nextId := nextId))
  {
  }

  /** Replacing the enemy list keeps `Core` when the new enemies are at most four, distinct,
      fresh and within their bullet allowance. */
  lemma CoreWithEnemies(g: Game, es: seq<Tank>)
    requires Core(g)
    requires |es| <= MaxEnemiesOnField && DistinctIds(es)
    requires forall e :: e in es ==> (e.role.Enemy? && e.id < g.nextId && e.id != g.player.id &&
                                      Owned(g.bullets, e.id) <= e.maxBullets)
    ensures Core(g.(enemies := es))
  {
  }

  /** An enemy whose identity no listed enemy has can join the list. */
  lemma AppendDistinct(es: seq<Tank>, e: Tank)
    requires DistinctIds(es) && forall x :: x in es ==> x.id != e.id
    ensures DistinctIds(es + [e])
  {
    forall i, j | 0 <= i < j < |es + [e]| ensures (es + [e])[i].id != (es + [e])[j].id {
      assert (es + [e])[i] == es[i] && es[i] in es;
    }
  }

  // ---------------------------------------------------------------- power-up drops

  /** The do-while of `spawnPowerUp`, from attempt `attempts` on: each attempt draws x in
      [0, 400) and y in [0, 352), and the loop stops at a passable tile or after ten attempts.
      Returns the position, the number of attempts made and the stream. */
  function PlacePowerUp(level: Grid, rng: Source, attempts: nat): (r: (nat, nat, nat, Source))
    requires IsGrid(level) && attempts < 10
    ensures r.0 < FieldSize - TileSize && r.1 < FieldSize - 4 * TileSize
    ensures attempts < r.2 <= 10
    ensures IsPassable(level[r.1 / TileSize][r.0 / TileSize]) || r.2 == 10
    ensures r.3.draw == rng.draw && r.3.cursor == rng.cursor + 2 * (r.2 - attempts)
    decreases 10 - attempts
  {
    var (dx, rng1) := Next(rng);
    var (dy, rng2) := Next(rng1);
    var x := ChoiceIndex((FieldSize - TileSize) as nat, dx);
    var y := ChoiceIndex((FieldSize - 4 * TileSize) as nat, dy);
    if attempts + 1 < 10 && !IsPassable(level[y / TileSize][x / TileSize]) then
      PlacePowerUp(level, rng2, attempts + 1)
    else (x, y, attempts + 1, rng2)
  }

  /** A first draw that lands on a passable tile is kept: only one attempt is made. */
  lemma FirstPassableDrawKept(level: Grid, rng: Source)
    requires IsGrid(level)
    requires var x := ChoiceIndex((FieldSize - TileSize) as nat, rng.draw(rng.cursor));
             var y := ChoiceIndex((FieldSize - 4 * TileSize) as nat, rng.draw(rng.cursor + 1));
             IsPassable(level[y / TileSize][x / TileSize])
    ensures PlacePowerUp(level, rng, 0).2 == 1
    ensures PlacePowerUp(level, rng, 0).0 == ChoiceIndex((FieldSize - TileSize) as nat, rng.draw(rng.cursor))
  {
  }

  /** `spawnPowerUp`: one draw picks the kind, then `PlacePowerUp` picks the place; a new
      ten-second token is appended. Nothing else changes. */
  function SpawnPowerUp(g: Game): (r: Game)
    requires IsGrid(g.level)
    ensures |r.powerUps| == |g.powerUps| + 1 && r.powerUps[..|g.powerUps|] == g.powerUps
    ensures var p := r.powerUps[|g.powerUps|];
            && p.kind in PowerUpSequence && p.alive && p.timer == 10.0
            && 0.0 <= p.x < 400.0 && 0.0 <= p.y < 352.0
            && p.x == p.x.Floor as real && p.y == p.y.Floor as real
    ensures r == g.(powerUps := r.powerUps, rng := r.rng)
    ensures r.rng.draw == g.rng.draw && g.rng.cursor + 3 <= r.rng.cursor <= g.rng.cursor + 21
  {
    var (d, rng) := Next(g.rng);
    var kind := RandomChoice(PowerUpSequence, d);
    var (x, y, _, rng) := PlacePowerUp(g.level, rng, 0);
    var r := g.(powerUps := g.powerUps + [PowerUps.NewPowerUp(kind, x as real, y as real)], rng := rng);
    assert r.powerUps[..|g.powerUps|] == g.powerUps;
    r
  }

  // ---------------------------------------------------------------- kills

  /** `handleTankDestroyed` for an enemy `t` (already marked dead by the hit when a bullet
      killed it): one more kill of its type, its score value added to the score and the stage
      score, the high score raised to the score, an explosion at its centre, a power-up drop
      on every fourth kill, and the dead removed from the enemy list. */
  function EnemyDestroyed(g: Game, t: Tank): (r: Game)
    requires IsGrid(g.level) && t.role.Enemy?
    ensures r.kills == g.kills + 1
    ensures r.killStats == CountKill(g.killStats, t.role.etype)
    ensures r.score == g.score + t.role.scoreValue && r.stageScore == g.stageScore + t.role.scoreValue
    ensures r.hiScore == Max(g.hiScore, r.score)
    ensures r.explosions == g.explosions + [Explosions.NewExplosion(t.x + TankSize / 2.0, t.y + TankSize / 2.0)]
    ensures r.kills % 4 == 0 ==> |r.powerUps| == |g.powerUps| + 1 && r.powerUps[..|g.powerUps|] == g.powerUps
    ensures r.kills % 4 != 0 ==> r.powerUps == g.powerUps && r.rng == g.rng
    ensures r.enemies == AliveOnly(g.enemies)
    ensures r == g.(kills := r.kills, killStats := r.killStats, score := r.score, stageScore := r.stageScore,
                    hiScore := r.hiScore, explosions := r.explosions, powerUps := r.powerUps, rng := r.rng,
                    enemies := r.enemies)
  {
    var value := t.role.scoreValue;
    var g1 := g.(kills := g.kills + 1, killStats := CountKill(g.killStats, t.role.etype),
                 score := g.score + value, stageScore := g.stageScore + value,
                 hiScore := if g.score + value > g.hiScore then g.score + value else g.hiScore,
                 explosions := g.explosions + [Explosions.NewExplosion(t.x + TankSize / 2.0, t.y + TankSize / 2.0)]);
    var g2 := if g1.kills % 4 == 0 then SpawnPowerUp(g1) else g1;
    g2.(enemies := AliveOnly(g2.enemies))
  }

  /** A kill keeps the invariant that holds inside a tick. */
  lemma EnemyDestroyedKeepsCore(g: Game, t: Tank)
    requires Core(g) && t.role.Enemy?
    ensures Core(EnemyDestroyed(g, t))
  {
    var r := EnemyDestroyed(g, t);
    assert forall e :: e in r.enemies ==> e in g.enemies;
  }

  /** `handleTankDestroyed` for the player: an explosion at its centre and the player marked
      dead. */
  function PlayerDestroyed(g: Game): (r: Game)
    ensures !r.player.alive && r.player == g.player.(alive := false)
    ensures r.explosions == g.explosions + [Explosions.NewExplosion(g.player.x + TankSize / 2.0, g.player.y + TankSize / 2.0)]
    ensures r == g.(player := r.player, explosions := r.explosions)
  {
    g.(explosions := g.explosions + [Explosions.NewExplosion(g.player.x + TankSize / 2.0, g.player.y + TankSize / 2.0)],
       player := g.player.(alive := false))
  }

  /** Sum of the score values of a list of enemies. */
  function ScoreOf(es: seq<Tank>): nat {
    if |es| == 0 then 0 else (if es[0].role.Enemy? then es[0].role.scoreValue else 0) + ScoreOf(es[1..])
  }

  /** The GRENADE loop: `handleTankDestroyed` for every enemy of the snapshot `es`, in order. */
  function KillAll(g: Game, es: seq<Tank>): (r: Game)
    requires IsGrid(g.level) && forall e :: e in es ==> e.role.Enemy?
    ensures IsGrid(r.level) && r.level == g.level && r.player == g.player && r.bullets == g.bullets
    ensures r.kills == g.kills + |es|
    ensures r.score == g.score + ScoreOf(es) && r.stageScore == g.stageScore + ScoreOf(es)
    ensures |es| > 0 ==> r.hiScore == Max(g.hiScore, r.score)
    ensures |es| == 0 ==> r == g
    ensures |r.powerUps| >= |g.powerUps| && r.powerUps[..|g.powerUps|] == g.powerUps
    ensures |r.powerUps| == |g.powerUps| + ((g.kills + |es|) / 4 - g.kills / 4)
    ensures (forall e :: e in g.enemies ==> e.role.Enemy?) ==> forall e :: e in r.enemies ==> e.role.Enemy?
    ensures r.state == g.state && r.nextId == g.nextId && r.spawnQueue == g.spawnQueue
    ensures r.freezeTimer == g.freezeTimer && r.shovelTimer == g.shovelTimer && r.baseDestroyed == g.baseDestroyed
    ensures r.levelIndex == g.levelIndex && r.time == g.time && r.spawnTimer == g.spawnTimer
    decreases |es|
  {
    if |es| == 0 then g
    else
      var g1 := EnemyDestroyed(g, es[0]);
      assert forall e :: e in es[1..] ==> e in es;
      var r := KillAll(g1, es[1..]);
      DropOnFourth(g.kills);
      assert r.powerUps[..|g.powerUps|] == r.powerUps[..|g1.powerUps|][..|g.powerUps|];
      r
  }

  /** One more kill crosses a multiple of four exactly when the new count is one. */
  lemma DropOnFourth(k: nat)
    ensures (k + 1) / 4 - k / 4 == (if (k + 1) % 4 == 0 then 1 else 0)
  {
  }

  /** With the GRENADE every enemy on the field is destroyed: the kill counter grows by their
      number and the score by the sum of their values; the field is then empty. */
  function DetonateGrenade(g: Game): (r: Game)
    requires Shaped(g)
    ensures r.enemies == []
    ensures r.kills == g.kills + |g.enemies| && r.score == g.score + ScoreOf(g.enemies)
    ensures |r.powerUps| >= |g.powerUps| && r.powerUps[..|g.powerUps|] == g.powerUps
    ensures |r.powerUps| == |g.powerUps| + ((g.kills + |g.enemies|) / 4 - g.kills / 4)
    ensures forall b :: b in r.bullets <==> b in g.bullets && b.ownerId == g.player.id
    ensures Core(g) ==> Valid(r)
  {
    var g1 := KillAll(g, g.enemies).(enemies := []);
    assert TankIds(g1) == {g.player.id};
    assert Core(g) ==> Core(g1) by {
      if Core(g) {
        CoreWithEnemies(g, []);
        CoreFrame(g.(enemies := []), g1);
      }
    }
    Prune(g1)
  }

  // ---------------------------------------------------------------- the shovel

  /** `POWER_TILE_STEEL` / `POWER_TILE_BRICK`. */
  function ShovelTiles(strong: bool): (r: seq<Tile>)
    ensures |r| == 5 && r[2] == Base
  {
    if strong then [Steel, Steel, Base, Steel, Steel] else [Brick, Brick, Base, Brick, Brick]
  }

  /** The cells the shovel rewrites: rows 23 and 24, columns 11 to 15. */
  predicate InShovelArea(y: int, x: int) {
    (y == Levels.BaseRow || y == Levels.BaseTileRow) && Levels.Center - 2 <= x <= Levels.Center + 2
  }

  /** The loop of `reinforceBase` from offset `offset` on. */
  function PlaceShovelTiles(level: Grid, tiles: seq<Tile>, offset: nat): (r: Grid)
    requires IsGrid(level) && |tiles| == 5 && offset <= 5
    ensures IsGrid(r)
    ensures forall y, x :: (0 <= y < GridSize && 0 <= x < GridSize && InShovelArea(y, x) &&
                            Levels.Center - 2 + offset <= x) ==> r[y][x] == tiles[x - Levels.Center + 2]
    ensures forall y, x :: (0 <= y < GridSize && 0 <= x < GridSize &&
                            !(InShovelArea(y, x) && Levels.Center - 2 + offset <= x)) ==> r[y][x] == level[y][x]
    decreases 5 - offset
  {
    if offset == 5 then level
    else
      var x := Levels.Center - 2 + offset;
      var next := SetCell(SetCell(level, Levels.BaseRow, x, tiles[offset]), Levels.BaseTileRow, x, tiles[offset]);
      PlaceShovelTiles(next, tiles, offset + 1)
  }

  /** `reinforceBase(strong)`: the two rows around the base become steel (strong) or brick
      with BASE in the middle column; every other cell is kept. */
  function ReinforceBase(level: Grid, strong: bool): (r: Grid)
    requires IsGrid(level)
    ensures IsGrid(r)
    ensures forall y, x :: 0 <= y < GridSize && 0 <= x < GridSize && InShovelArea(y, x) ==>
              r[y][x] == (if x == Levels.Center then Base else if strong then Steel else Brick)
    ensures forall y, x :: 0 <= y < GridSize && 0 <= x < GridSize && !InShovelArea(y, x) ==> r[y][x] == level[y][x]
  {
    PlaceShovelTiles(level, ShovelTiles(strong), 0)
  }

  /** Only the last fortification counts: reinforcing twice is reinforcing once with the
      second strength (so reinforcing is idempotent). */
  lemma ReinforceLastWins(level: Grid, a: bool, b: bool)
    requires IsGrid(level)
    ensures ReinforceBase(ReinforceBase(level, a), b) == ReinforceBase(level, b)
  {
    Levels.GridExtensionality(ReinforceBase(ReinforceBase(level, a), b), ReinforceBase(level, b));
  }

  /** On a stage as `applyBase` built it, the shovel and its expiry change exactly one cell:
      the middle of row 23, which `applyBase` made BRICK, is BASE afterwards. The eagle row is
      untouched. */
  lemma ShovelRevertAddsBaseCell(level: Grid)
    requires IsGrid(level)
    ensures var built := Levels.ApplyBase(level);
            var after := ReinforceBase(ReinforceBase(built, true), false);
            && built[Levels.BaseRow][Levels.Center] == Brick
            && after[Levels.BaseRow][Levels.Center] == Base
            && after[Levels.EagleRow] == built[Levels.EagleRow]
            && forall y, x :: (0 <= y < GridSize && 0 <= x < GridSize &&
                               (y != Levels.BaseRow || x != Levels.Center)) ==> after[y][x] == built[y][x]
  {
    var built := Levels.ApplyBase(level);
    ReinforceLastWins(built, true, false);
  }

  /** `updateShovelTimer(dt)`: a running shovel counts down, and when it runs out the walls
      go back to brick. */
  function UpdateShovelTimer(g: Game, dt: real): (r: Game)
    requires IsGrid(g.level)
    ensures g.shovelTimer <= 0.0 ==> r == g
    ensures g.shovelTimer > 0.0 ==> r.shovelTimer == g.shovelTimer - dt
    ensures g.shovelTimer > 0.0 && r.shovelTimer <= 0.0 ==> r.level == ReinforceBase(g.level, false)
    ensures g.shovelTimer > 0.0 && r.shovelTimer > 0.0 ==> r.level == g.level
    ensures IsGrid(r.level) && r == g.(shovelTimer := r.shovelTimer, level := r.level)
  {
    if g.shovelTimer <= 0.0 then g
    else
      var g1 := g.(shovelTimer := g.shovelTimer - dt);
      if g1.shovelTimer <= 0.0 then g1.(level := ReinforceBase(g1.level, false)) else g1
  }

  // ---------------------------------------------------------------- collecting power-ups

  /** `collectPowerUp`: HELMET shields the player for ten seconds, TIMER freezes every enemy
      for five, SHOVEL fortifies the base for fifteen, STAR adds a star level, GRENADE
      destroys every enemy, TANK adds a life and GUN sets the top star level. */
  function Collect(g: Game, kind: PowerUpType): (r: Game)
    requires Shaped(g)
    ensures Shaped(r)
    ensures kind == Helmet ==>
              && r.player.invincibleTimer >= 10.0 && r.player.invincibleTimer >= g.player.invincibleTimer
              && r == g.(player := g.player.(invincibleTimer := r.player.invincibleTimer))
    ensures kind == Timer ==>
              && r.freezeTimer == 5.0 && |r.enemies| == |g.enemies|
              && (forall i :: 0 <= i < |g.enemies| ==> r.enemies[i] == g.enemies[i].(frozen := 5.0))
              && r == g.(freezeTimer := 5.0, enemies := r.enemies)
    ensures kind == Shovel ==> r == g.(shovelTimer := 15.0, level := ReinforceBase(g.level, true))
    ensures kind == Star ==>
              && r.player.role.level == Min(3, g.player.role.level + 1)
              && r == g.(player := g.player.(role := g.player.role.(level := r.player.role.level)))
    ensures kind == Grenade ==>
              && r.enemies == [] && r.kills == g.kills + |g.enemies| && r.score == g.score + ScoreOf(g.enemies)
              && r == DetonateGrenade(g)
    ensures kind == ExtraLife ==>
              && r.player.role.lives == g.player.role.lives + 1
              && r == g.(player := g.player.(role := g.player.role.(lives := r.player.role.lives)))
    ensures kind == Gun ==>
              && r.player.role.level == 3
              && r == g.(player := g.player.(role := g.player.role.(level := 3)))
  {
    match kind
    case Helmet => g.(player := GrantShield(g.player, 10.0))
    case Timer => g.(freezeTimer := 5.0, enemies := FreezeAll(g.enemies, 5.0))
    case Shovel => g.(shovelTimer := 15.0, level := ReinforceBase(g.level, true))
    case Star => g.(player := Upgrade(g.player))
    case Grenade => DetonateGrenade(g)
    case ExtraLife => g.(player := g.player.(role := g.player.role.(lives := g.player.role.lives + 1)))
    case Gun => g.(player := g.player.(role := g.player.role.(level := 3)))
  }

  /** Every enemy's frozen timer set to `v`. */
  function FreezeAll(es: seq<Tank>, v: real): (r: seq<Tank>)
    ensures |r| == |es| && forall i :: 0 <= i < |es| ==> r[i] == es[i].(frozen := v)
  {
    seq(|es|, i requires 0 <= i < |es| => es[i].(frozen := v))
  }

  /** Collecting a power-up keeps the invariant of a tick, and the invariant between ticks. */
  lemma CollectKeepsValid(g: Game, kind: PowerUpType)
    requires Core(g)
    ensures Core(Collect(g, kind))
    ensures Valid(g) ==> Valid(Collect(g, kind))
  {
    var r := Collect(g, kind);
    match kind
    case Timer =>
      var g1 := g.(enemies := FreezeAll(g.enemies, 5.0));
      FreezeKeepsValid(g, 5.0);
      CoreFrame(g1, r);
    case Shovel =>
      CoreFrame(g, r);
    case Grenade =>
    case Star =>
      CoreWithPlayer(g, r.player);
    case _ =>
      CoreWithPlayer(g, r.player);
  }

  /** Setting every enemy's frozen timer keeps the enemies' identities and allowances. */
  lemma FreezeKeepsValid(g: Game, v: real)
    requires Core(g)
    ensures Core(g.(enemies := FreezeAll(g.enemies, v)))
    ensures Valid(g) ==> Valid(g.(enemies := FreezeAll(g.enemies, v)))
  {
    var es := FreezeAll(g.enemies, v);
    forall e | e in es
      ensures e.role.Enemy? && e.id < g.nextId && e.id != g.player.id && Owned(g.bullets, e.id) <= e.maxBullets
    {
      var i :| 0 <= i < |es| && es[i] == e;
      assert g.enemies[i] in g.enemies;
    }
    SameIds(g.enemies, es);
    CoreWithEnemies(g, es);
    assert TankIds(g.(enemies := es)) == TankIds(g);
  }

  /** Two enemy lists whose members have the same identities position by position have the
      same identity set, and one is duplicate-free when the other is. */
  lemma SameIds(es: seq<Tank>, fs: seq<Tank>)
    requires |es| == |fs| && forall i :: 0 <= i < |es| ==> fs[i].id == es[i].id
    ensures EnemyIds(fs) == EnemyIds(es)
    ensures DistinctIds(es) ==> DistinctIds(fs)
  {
    forall o | o in EnemyIds(es) ensures o in EnemyIds(fs) {
      var e :| e in es && e.id == o;
      var i :| 0 <= i < |es| && es[i] == e;
      assert fs[i] in fs;
    }
    forall o | o in EnemyIds(fs) ensures o in EnemyIds(es) {
      var f :| f in fs && f.id == o;
      var i :| 0 <= i < |fs| && fs[i] == f;
      assert es[i] in es;
    }
  }

  // ---------------------------------------------------------------- lives, stages, pause

  /** `handleGameOver`: the GAME OVER screen with its five-second timer. */
  function HandleGameOver(g: Game): (r: Game)
    ensures r.state == GameOver && r.gameOverTimer == 5.0
    ensures r == g.(state := GameOver, gameOverTimer := 5.0)
  {
    g.(state := GameOver, gameOverTimer := 5.0)
  }

  /** `handlePlayerDeath`: with a life in reserve the player loses it and respawns at the
      spawn point with its bullets cleared; with none the game is over. */
  function HandlePlayerDeath(g: Game): (r: Game)
    requires g.player.role.Player?
    ensures g.player.role.lives > 0 ==>
              && r.player == ResetPlayer(g.player, PlayerSpawnX, PlayerSpawnY).(role := g.player.role.(lives := g.player.role.lives - 1))
              && r.bullets == DropOwner(g.bullets, g.player.id)
              && r.state == g.state
    ensures g.player.role.lives == 0 ==> r == HandleGameOver(g)
    ensures r.player.role.Player? && r.player.role.level == g.player.role.level
    ensures r == g.(player := r.player, bullets := r.bullets, state := r.state, gameOverTimer := r.gameOverTimer)
  {
    if g.player.role.lives > 0 then
      var p := ResetPlayer(g.player, PlayerSpawnX, PlayerSpawnY);
      g.(player := p.(role := p.role.(lives := p.role.lives - 1)), bullets := DropOwner(g.bullets, g.player.id))
    else HandleGameOver(g)
  }

  /** A death keeps the game valid: the player keeps its identity and the bullets left all
      belong to enemies. */
  lemma PlayerDeathKeepsValid(g: Game)
    requires Valid(g)
    ensures Valid(HandlePlayerDeath(g))
  {
    var r := HandlePlayerDeath(g);
    if g.player.role.lives > 0 {
      var g1 := g.(bullets := r.bullets);
      SubsetTagged(g, r.bullets);
      OwnedAfterDrop(g.bullets, g.player.id, g.player.id);
      forall e | e in g.enemies ensures Owned(r.bullets, e.id) <= Owned(g.bullets, e.id) {
        OwnedAfterDrop(g.bullets, g.player.id, e.id);
      }
      CoreWithBullets(g, r.bullets);
      assert Owners(g1);
      CoreWithPlayer(g1, r.player);
      assert r == g1.(player := r.player);
    } else {
      CoreFrame(g, r);
    }
  }

  /** A player with `n` lives in reserve survives `n` deaths: each death costs one life and
      the (n + 1)-th ends the game. */
  lemma LivesCountDown(g: Game)
    requires g.player.role.Player? && g.player.role.lives > 0
    ensures HandlePlayerDeath(g).player.role.lives == g.player.role.lives - 1
    ensures HandlePlayerDeath(g).state == g.state && HandlePlayerDeath(g).player.alive
  {
  }

  /** `completeStage`: the stage is recorded as the last one completed, the index moves to the
      next stage (wrapping after the 35th) and the score screen is shown. */
  function CompleteStage(g: Game): (r: Game)
    ensures r.lastCompletedStage == g.levelIndex
    ensures r.levelIndex < Levels.StageCount
    ensures g.levelIndex + 1 < Levels.StageCount ==> r.levelIndex == g.levelIndex + 1
    ensures g.levelIndex + 1 == Levels.StageCount ==> r.levelIndex == 0
    ensures r.state == Score
    ensures r == g.(lastCompletedStage := r.lastCompletedStage, levelIndex := r.levelIndex, state := Score)
  {
    g.(lastCompletedStage := g.levelIndex, levelIndex := (g.levelIndex + 1) % Levels.StageCount, state := Score)
  }

  /** Stage progression is a cycle: 35 completions in a row bring the index back. */
  lemma {:induction false} StagesCycle(g: Game, n: nat)
    requires g.levelIndex < Levels.StageCount
    ensures Completions(g, n).levelIndex == (g.levelIndex + n) % Levels.StageCount
    ensures n == Levels.StageCount ==> Completions(g, n).levelIndex == g.levelIndex
  {
    if n > 0 {
      StagesCycle(g, n - 1);
      NextIndex(g.levelIndex + n - 1);
    }
  }

  /** Moving to the next stage index commutes with wrapping. */
  lemma NextIndex(k: nat)
    ensures (k % Levels.StageCount + 1) % Levels.StageCount == (k + 1) % Levels.StageCount
  {
  }

  /** `n` stage completions in a row. */
  function Completions(g: Game, n: nat): Game {
    if n == 0 then g else CompleteStage(Completions(g, n - 1))
  }

  /** `togglePause`: PLAYING and PAUSED swap; every other state is kept. */
  function TogglePause(g: Game): (r: Game)
    ensures g.state == Playing ==> r.state == Paused
    ensures g.state == Paused ==> r.state == Playing
    ensures g.state != Playing && g.state != Paused ==> r.state == g.state
    ensures r == g.(state := r.state)
  {
    if g.state == Playing then g.(state := Paused)
    else if g.state == Paused then g.(state := Playing)
    else g
  }

  /** Pausing twice returns to the same game. */
  lemma TogglePauseInvolution(g: Game)
    ensures TogglePause(TogglePause(g)) == g
  {
  }

  /** `prepareStage` (after `resetStageRuntime`): the stage at the current index is loaded
      with its line-up of twenty enemies, the field is emptied, timers are reset, the
      player respawns with its bullets cleared, and the stage counter advances. The stage is
      taken from the build's table. */
  function PrepareStage(build: Build, g: Game, prng: Seeded): (r: Game)
    requires g.player.role.Player? && g.player.role.level <= 3 && g.score <= g.hiScore
    ensures r.level == Levels.StageOf(build, g.levelIndex % Levels.StageCount, prng)
    ensures r.spawnQueue == SpawnTables.SpawnSequence(g.levelIndex % Levels.StageCount)
    ensures r.enemies == [] && r.bullets == [] && r.powerUps == [] && r.explosions == []
    ensures r.spawnTimer == 1.5 && r.freezeTimer == 0.0 && r.shovelTimer == 0.0 && r.stageIntroTimer == 2.5
    ensures r.kills == 0 && r.killStats.Total() == 0 && !r.baseDestroyed && r.time == 0.0
    ensures r.stageCounter == g.stageCounter + 1
    ensures r.player == ResetPlayer(g.player, PlayerSpawnX, PlayerSpawnY)
    ensures r.state == g.state && r.score == g.score && r.hiScore == g.hiScore && r.levelIndex == g.levelIndex
    ensures r.nextId == g.nextId && r.lastCompletedStage == g.lastCompletedStage
  {
    var idx := g.levelIndex % Levels.StageCount;
    g.(level := Levels.StageOf(build, idx, prng),
       spawnQueue := SpawnTables.SpawnSequence(idx),
       enemies := [], bullets := [], powerUps := [], explosions := [],
       spawnTimer := 1.5, freezeTimer := 0.0, shovelTimer := 0.0, baseDestroyed := false, time := 0.0,
       kills := 0, killStats := SpawnTables.Counts(0, 0, 0, 0), stageIntroTimer := 2.5,
       stageCounter := g.stageCounter + 1,
       player := ResetPlayer(g.player, PlayerSpawnX, PlayerSpawnY))
  }

  /** A freshly prepared stage is valid: the field is empty and no bullets fly. */
  lemma PrepareKeepsValid(build: Build, g: Game, prng: Seeded)
    requires g.player.role.Player? && g.player.role.level <= 3 && g.score <= g.hiScore && g.player.id < g.nextId
    ensures Valid(PrepareStage(build, g, prng))
  {
    var r := PrepareStage(build, g, prng);
    EmptyFieldValid(r);
  }

  /** A game with a grid, a player within the star levels, no enemy and no bullet, a full
      queue at most, a fresh identity counter and the high score at least the score is
      valid. */
  lemma EmptyFieldValid(g: Game)
    requires IsGrid(g.level) && g.player.role.Player? && g.player.role.level <= 3
    requires g.enemies == [] && g.bullets == [] && |g.spawnQueue| <= TotalEnemiesPerStage
    requires g.score <= g.hiScore && g.player.id < g.nextId
    ensures Valid(g)
  {
  }

  /** `startNewGame`: back to the first stage with score zero, a new player with three lives,
      and the stage intro. The high score is kept. */
  function StartNewGame(build: Build, g: Game, prng: Seeded): (r: Game)
    ensures r.state == StageIntro && r.levelIndex == 0 && r.score == 0 && r.stageScore == 0
    ensures r.lastCompletedStage == -1 && r.stageCounter == 1 && r.hiScore == g.hiScore
    ensures r.player.role == Player(0, PlayerBaseLives) && r.player.alive
    ensures r.level == Levels.StageOf(build, 0, prng) && r.spawnQueue == SpawnTables.SpawnSequence(0)
    ensures Valid(r)
  {
    var g1 := g.(levelIndex := 0, score := 0, stageScore := 0, lastCompletedStage := -1, stageCounter := 0,
                 player := NewPlayer(g.nextId, PlayerSpawnX, PlayerSpawnY), nextId := g.nextId + 1,
                 baseDestroyed := false, state := StageIntro);
    PrepareKeepsValid(build, g1, prng);
    PrepareStage(build, g1, prng)
  }

  /** `startStage`: the intro of the stage at the current index. */
  function StartStage(build: Build, g: Game, prng: Seeded): (r: Game)
    requires g.player.role.Player? && g.player.role.level <= 3 && g.score <= g.hiScore
    ensures r.state == StageIntro
    ensures r == PrepareStage(build, g.(state := StageIntro), prng)
    ensures g.player.id < g.nextId ==> Valid(r)
  {
    assert g.player.id < g.nextId ==> Valid(PrepareStage(build, g.(state := StageIntro), prng)) by {
      if g.player.id < g.nextId {
        PrepareKeepsValid(build, g.(state := StageIntro), prng);
      }
    }
    PrepareStage(build, g.(state := StageIntro), prng)
  }

  /** The Game constructor: the menu, scores zero, the first stage loaded. (The source creates
      its player only when a game starts; here the player record exists from the start.) */
  function InitialGame(build: Build, prng: Seeded, rng: Source): (r: Game)
    ensures r.state == Menu && r.score == 0 && r.hiScore == 0 && r.lastCompletedStage == -1
    ensures r.level == Levels.StageOf(build, 0, prng) && r.enemies == [] && r.bullets == []
    ensures Valid(r)
  {
    var r := Game(Menu, 0, 0, 0, 0, -1, SpawnTables.Counts(0, 0, 0, 0), 0, 0, Levels.StageOf(build, 0, prng), [],
         NewPlayer(0, PlayerSpawnX, PlayerSpawnY), [], [], [], [], 2.0, 0.0, 0.0, false, 0.0, 0.0, 0.0, 1, rng);
    EmptyFieldValid(r);
    r
  }
}
