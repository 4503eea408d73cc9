/** The frame loop of src/game/game.js: the frame length, the state machine of `update`, and
    `updatePlaying` with its fixed order of phases — player, enemies, freeze countdown,
    bullets, power-up pickups, explosions, spawning, shovel, death, base, completion. */
module GameLoop {
  import opened Config
  import opened Utils
  import opened Random
  import opened Tanks
  import opened Bullets
  import opened Orchestrator
  import BulletResolution
  import Explosions
  import PowerUps

  /** `loop(time)`: the frame length in seconds, capped at 0.05. */
  function FrameDelta(now: real, last: real): (dt: real)
    ensures dt <= 0.05
    ensures (now - last) / 1000.0 <= 0.05 ==> dt == (now - last) / 1000.0
    ensures (now - last) / 1000.0 > 0.05 ==> dt == 0.05
  {
    RMin((now - last) / 1000.0, 0.05)
  }

  // ---------------------------------------------------------------- firing

  /** `createBullet(owner)` followed by the owner's `bullets.add`: the new bullet, with a fresh
      identity, joins the list. */
  function AddBullet(g: Game, shooter: Tank): (r: Game)
    ensures r.bullets == g.bullets + [CreateBullet(g.nextId, shooter)] && r.nextId == g.nextId + 1
    ensures r == g.(bullets := r.bullets, nextId := r.nextId)
  {
    g.(bullets := g.bullets + [CreateBullet(g.nextId, shooter)], nextId := g.nextId + 1)
  }

  /** A shot by a tank on the field that is below its allowance keeps both invariants: the
      bullet is fresh, tagged by its owner's role and counted against that owner only. */
  lemma ShotKeepsValid(g: Game, shooter: Tank)
    requires Core(g) && shooter.id in TankIds(g)
    requires shooter.id == g.player.id ==> shooter.role.Player? && Owned(g.bullets, shooter.id) < PlayerMaxBullets(g.player.role.level)
    requires shooter.id != g.player.id ==>
               (shooter.role.Enemy? && forall e :: e in g.enemies && e.id == shooter.id ==> Owned(g.bullets, e.id) < e.maxBullets)
    ensures Core(AddBullet(g, shooter))
    ensures Owners(g) ==> Owners(AddBullet(g, shooter))
  {
    var b := CreateBullet(g.nextId, shooter);
    AppendKeepsCore(g, b);
    assert Owners(g) ==> Owners(AddBullet(g, shooter)) by {
      if Owners(g) {
        assert TankIds(AddBullet(g, shooter)) == TankIds(g);
      }
    }
  }

  /** Appending a bullet with the next identity, tagged as the player's exactly when the
      player owns it, to an owner below its allowance keeps `Core`. */
  lemma AppendKeepsCore(g: Game, b: Bullet)
    requires Core(g)
    requires b.id == g.nextId && (b.fromPlayer <==> b.ownerId == g.player.id)
    requires b.ownerId == g.player.id ==> Owned(g.bullets, b.ownerId) < PlayerMaxBullets(g.player.role.level)
    requires forall e :: e in g.enemies && e.id == b.ownerId ==> Owned(g.bullets, e.id) < e.maxBullets
    ensures Core(g.(bullets := g.bullets + [b], nextId := g.nextId + 1))
  {
    var bs := g.bullets + [b];
    AppendFresh(g.bullets, b);
    OwnedAfterAppendCount(g.bullets, b, g.player.id);
    forall e | e in g.enemies ensures Owned(bs, e.id) <= e.maxBullets {
      OwnedAfterAppendCount(g.bullets, b, e.id);
    }
    CoreWithBulletList(g, bs, g.nextId + 1);
  }

  /** A new bullet list and a later identity counter keep `Core` when the bullets are tagged,
      fresh and distinct and every tank stays within its allowance. */
  lemma CoreWithBulletList(g: Game, bs: seq<Bullet>, nextId: nat)
    requires Core(g) && g.nextId <= nextId
    requires forall x :: x in bs ==> x.id < nextId && (x.fromPlayer <==> x.ownerId == g.player.id)
    requires UniqueIds(bs)
    requires Owned(bs, g.player.id) <= PlayerMaxBullets(g.player.role.level)
    requires forall e :: e in g.enemies ==> Owned(bs, e.id) <= e.maxBullets
    ensures Core(g.(bullets := bs, nextId := nextId))
  {
  }

  // ---------------------------------------------------------------- tanks

  /** `player.update(dt, context)`: the player moves among all tanks and, in the `Repaired`
      build, fires when the fire key is held, allowed and below its allowance; in the
      `AsWritten` build no shot is ever added. */
  function PlayerPhase(build: Build, g: Game, dt: real, input: Input): (r: Game)
    requires Shaped(g)
    ensures build == AsWritten ==> r.bullets == g.bullets && r.nextId == g.nextId
    ensures var (p, shot) := UpdatePlayer(build, g.player, dt, g.level, [g.player] + g.enemies, input, Owned(g.bullets, g.player.id));
            && r.player == p
            && (shot.None? ==> r == g.(player := p))
            && (shot.Some? ==> r == AddBullet(g.(player := p), shot.value))
    ensures Shaped(r) && r.enemies == g.enemies && r.level == g.level && r.spawnQueue == g.spawnQueue
    ensures Core(g) ==> Core(r)
  {
    var (p, shot) := UpdatePlayer(build, g.player, dt, g.level, [g.player] + g.enemies, input, Owned(g.bullets, g.player.id));
    var g1 := g.(player := p);
    assert Core(g) ==> Core(g1) by {
      if Core(g) {
        CoreWithPlayer(g, p);
      }
    }
    match shot
    case None => g1
    case Some(s) =>
      assert Core(g1) ==> Core(AddBullet(g1, s)) by {
        if Core(g1) {
          ShotKeepsValid(g1, s);
        }
      }
      AddBullet(g1, s)
  }

  /** `enemies[k].update(dt, context)`: the enemy sees every tank as it is now (those before
      it already moved) and may fire below its allowance. */
  function EnemyStep(g: Game, k: nat, dt: real): (r: Game)
    requires Shaped(g) && k < |g.enemies|
    ensures var (e, shot, rng) := UpdateEnemy(g.enemies[k], dt, g.level, [g.player] + g.enemies, g.player,
                                              Owned(g.bullets, g.enemies[k].id), g.rng);
            var g1 := g.(enemies := g.enemies[k := e], rng := rng);
            r == (if shot.Some? then AddBullet(g1, shot.value) else g1)
    ensures Shaped(r) && |r.enemies| == |g.enemies| && r.player == g.player && r.level == g.level
    ensures r.spawnQueue == g.spawnQueue && r.state == g.state
  {
    var e0 := g.enemies[k];
    assert e0 in g.enemies;
    var (e, shot, rng) := UpdateEnemy(e0, dt, g.level, [g.player] + g.enemies, g.player, Owned(g.bullets, e0.id), g.rng);
    var g1 := g.(enemies := g.enemies[k := e], rng := rng);
    UpdateMembers(g.enemies, k, e);
    if shot.Some? then AddBullet(g1, shot.value) else g1
  }

  /** An enemy's step keeps `Core`: it keeps its identity, role and allowance, and it only
      fires below that allowance. */
  lemma EnemyStepKeepsCore(g: Game, k: nat, dt: real)
    requires Core(g) && k < |g.enemies|
    ensures Core(EnemyStep(g, k, dt))
  {
    var e0 := g.enemies[k];
    assert e0 in g.enemies;
    var (e, shot, rng) := UpdateEnemy(e0, dt, g.level, [g.player] + g.enemies, g.player, Owned(g.bullets, e0.id), g.rng);
    var g1 := g.(enemies := g.enemies[k := e], rng := rng);
    BulletResolution.EnemyChangeKeepsCore(g, k, e);
    CoreFrame(g.(enemies := g1.enemies), g1);
    if shot.Some? {
      var s := shot.value;
      assert g1.enemies[k] in g1.enemies;
      forall x | x in g1.enemies && x.id == s.id ensures Owned(g1.bullets, x.id) < x.maxBullets {
        var j :| 0 <= j < |g1.enemies| && g1.enemies[j] == x;
        assert j == k;
      }
      ShotKeepsValid(g1, s);
    }
  }

  /** The enemy loop from index `k` on. */
  function EnemyPhase(g: Game, k: nat, dt: real): (r: Game)
    requires Shaped(g) && k <= |g.enemies|
    ensures Shaped(r) && |r.enemies| == |g.enemies| && r.player == g.player && r.level == g.level
    ensures r.spawnQueue == g.spawnQueue && r.state == g.state
    decreases |g.enemies| - k
  {
    if k == |g.enemies| then g else EnemyPhase(EnemyStep(g, k, dt), k + 1, dt)
  }

  /** The whole enemy loop keeps `Core`. */
  lemma {:induction false} EnemyPhaseKeepsCore(g: Game, k: nat, dt: real)
    requires Core(g) && k <= |g.enemies|
    ensures Core(EnemyPhase(g, k, dt))
    decreases |g.enemies| - k
  {
    if k < |g.enemies| {
      EnemyStepKeepsCore(g, k, dt);
      EnemyPhaseKeepsCore(EnemyStep(g, k, dt), k + 1, dt);
    }
  }

  /** The freeze countdown: a running freeze counts down, and when it runs out every enemy
      thaws at once. */
  function FreezeCountdown(g: Game, dt: real): (r: Game)
    requires Shaped(g)
    ensures g.freezeTimer <= 0.0 ==> r == g
    ensures g.freezeTimer > 0.0 ==> r.freezeTimer == g.freezeTimer - dt
    ensures g.freezeTimer > 0.0 && r.freezeTimer <= 0.0 ==>
              |r.enemies| == |g.enemies| && forall i :: 0 <= i < |g.enemies| ==> r.enemies[i] == g.enemies[i].(frozen := 0.0)
    ensures !(g.freezeTimer > 0.0 && r.freezeTimer <= 0.0) ==> r.enemies == g.enemies
    ensures r == g.(freezeTimer := r.freezeTimer, enemies := r.enemies)
    ensures Shaped(r)
    ensures Core(g) ==> Core(r)
  {
    if g.freezeTimer <= 0.0 then g
    else
      var g1 := g.(freezeTimer := g.freezeTimer - dt);
      if g1.freezeTimer <= 0.0 then
        var g2 := g1.(enemies := FreezeAll(g1.enemies, 0.0));
        assert Core(g) ==> Core(g2) by {
          if Core(g) {
            CoreFrame(g, g1);
            FreezeKeepsValid(g1, 0.0);
          }
        }
        g2
      else
        assert Core(g) ==> Core(g1) by {
          if Core(g) {
            CoreFrame(g, g1);
          }
        }
        g1
  }

  // ---------------------------------------------------------------- bullets

  /** The identities of a list of bullets, in order. */
  function Ids(bs: seq<Bullet>): (r: seq<nat>)
    ensures |r| == |bs| && forall i :: 0 <= i < |bs| ==> r[i] == bs[i].id
  {
    seq(|bs|, i requires 0 <= i < |bs| => bs[i].id)
  }

  /** The bullet sets of the enemies, in enemy order. */
  function EnemyBullets(bullets: seq<Bullet>, es: seq<Tank>): (r: seq<Bullet>)
    ensures forall b :: b in r <==> b in bullets && b.ownerId in EnemyIds(es)
  {
    if |es| == 0 then []
    else
      var rest := EnemyBullets(bullets, es[1..]);
      assert forall o :: o in EnemyIds(es) <==> o == es[0].id || o in EnemyIds(es[1..]) by {
        forall o ensures o in EnemyIds(es) <==> o == es[0].id || o in EnemyIds(es[1..]) {
          if o in EnemyIds(es) && o != es[0].id {
            var e :| e in es && e.id == o;
            assert e in es[1..];
          }
          if o in EnemyIds(es[1..]) {
            var e :| e in es[1..] && e.id == o;
            assert e in es;
          }
        }
      }
      OwnedBy(bullets, es[0].id) + rest
  }

  /** `getAllBullets()`: the player's bullets, then each enemy's, in that order; the ids are
      taken at the start of the phase. */
  function Snapshot(g: Game): (r: seq<nat>)
    ensures forall b :: b in g.bullets && b.ownerId in TankIds(g) ==> b.id in r
    ensures forall id :: id in r ==> Live(g.bullets, id)
  {
    var bs := OwnedBy(g.bullets, g.player.id) + EnemyBullets(g.bullets, g.enemies);
    var r := Ids(bs);
    forall b | b in g.bullets && b.ownerId in TankIds(g) ensures b.id in r {
      assert b in bs;
      var i :| 0 <= i < |bs| && bs[i] == b;
      assert r[i] == b.id;
    }
    forall id | id in r ensures Live(g.bullets, id) {
      var i :| 0 <= i < |r| && r[i] == id;
      assert bs[i] in g.bullets;
      var j :| 0 <= j < |g.bullets| && g.bullets[j] == bs[i];
    }
    r
  }

  /** The updates of the bullets `ids`, in order. */
  function RunBullets(g: Game, ids: seq<nat>, dt: real): (r: Game)
    requires Shaped(g)
    ensures Shaped(r) && |r.bullets| <= |g.bullets| && r.nextId == g.nextId
    ensures r.spawnQueue == g.spawnQueue && r.state == g.state
    ensures Core(g) ==> Core(r)
    decreases |ids|
  {
    if |ids| == 0 then g else RunBullets(BulletResolution.UpdateBullet(g, ids[0], dt), ids[1..], dt)
  }

  /** The bullet phase: every bullet of the snapshot is updated in turn (a bullet destroyed
      earlier in the phase is skipped), and the bullets of tanks killed in the phase, which
      no later snapshot will list, are dropped. */
  function BulletPhase(g: Game, dt: real): (r: Game)
    requires Shaped(g)
    ensures Shaped(r) && r.nextId == g.nextId
    ensures r.spawnQueue == g.spawnQueue && r.state == g.state
    ensures Owners(r)
    ensures Core(g) ==> Valid(r)
  {
    Prune(RunBullets(g, Snapshot(g), dt))
  }

  // ---------------------------------------------------------------- power-ups

  /** `intersects(player, powerUp)`: the two 16 x 16 boxes overlap. */
  predicate Touches(t: Tank, p: PowerUps.PowerUp) {
    RectOverlap(t.x, t.y, TankSize, TankSize, p.x, p.y, p.width, p.height)
  }

  /** The callback of the `powerUps.filter` of `updatePlaying` over the tokens `ps`: a live
      token the player touches is marked collected and its effect applied; every token is then
      updated and only the live ones are kept. Returns the game and the kept tokens. Tokens
      that effects append while the filter runs go to the game's own list, which the filter
      does not visit. */
  function Pickups(g: Game, ps: seq<PowerUps.PowerUp>, dt: real): (r: (Game, seq<PowerUps.PowerUp>))
    requires Shaped(g)
    ensures Shaped(r.0)
    ensures |r.1| <= |ps| && forall p :: p in r.1 ==> p.alive
    ensures |r.0.powerUps| >= |g.powerUps|
    ensures r.0.state == g.state && r.0.baseDestroyed == g.baseDestroyed && r.0.spawnQueue == g.spawnQueue
    decreases |ps|
  {
    if |ps| == 0 then (g, [])
    else
      var p := ps[0];
      var collected := p.alive && Touches(g.player, p);
      var g1 := if collected then Collect(g, p.kind) else g;
      var p1 := PowerUps.Update(if collected then p.(alive := false) else p, dt);
      var (g2, kept) := Pickups(g1, ps[1..], dt);
      (g2, if p1.alive then [p1] + kept else kept)
  }

  /** Collecting keeps the game valid, whatever tokens are picked up. */
  lemma {:induction false} PickupsKeepValid(g: Game, ps: seq<PowerUps.PowerUp>, dt: real)
    requires Valid(g)
    ensures Valid(Pickups(g, ps, dt).0)
    decreases |ps|
  {
    if |ps| > 0 {
      var p := ps[0];
      if p.alive && Touches(g.player, p) {
        CollectKeepsValid(g, p.kind);
        PickupsKeepValid(Collect(g, p.kind), ps[1..], dt);
      } else {
        PickupsKeepValid(g, ps[1..], dt);
      }
    }
  }

  /** The pickup phase as written: the list becomes the filter's result, so a token that an
      effect appended during the filter (a GRENADE's every-fourth-kill drop) is lost. */
  function PickupPhaseAsWritten(g: Game, dt: real): (r: Game)
    requires Shaped(g)
    ensures Shaped(r)
    ensures var (g1, kept) := Pickups(g.(powerUps := []), g.powerUps, dt);
            r == g1.(powerUps := kept)
    ensures r.state == g.state && r.baseDestroyed == g.baseDestroyed && r.spawnQueue == g.spawnQueue
  {
    var (g1, kept) := Pickups(g.(powerUps := []), g.powerUps, dt);
    g1.(powerUps := kept)
  }

  /** The pickup phase as intended: the kept tokens, followed by those the effects dropped;
      it keeps every token the written phase keeps. */
  function PickupPhase(g: Game, dt: real): (r: Game)
    requires Shaped(g)
    ensures Shaped(r)
    ensures var (g1, kept) := Pickups(g.(powerUps := []), g.powerUps, dt);
            r == g1.(powerUps := kept + g1.powerUps)
    ensures PickupPhaseAsWritten(g, dt).powerUps <= r.powerUps
    ensures r == PickupPhaseAsWritten(g, dt).(powerUps := r.powerUps)
    ensures r.state == g.state && r.baseDestroyed == g.baseDestroyed && r.spawnQueue == g.spawnQueue
  {
    var (g1, kept) := Pickups(g.(powerUps := []), g.powerUps, dt);
    g1.(powerUps := kept + g1.powerUps)
  }

  /** The pickup phase keeps the game valid. */
  lemma PickupPhaseKeepsValid(g: Game, dt: real)
    requires Valid(g)
    ensures Valid(PickupPhase(g, dt))
  {
    var g0 := g.(powerUps := []);
    CoreFrame(g, g0);
    PickupsKeepValid(g0, g.powerUps, dt);
    var g1 := Pickups(g0, g.powerUps, dt).0;
    CoreFrame(g1, PickupPhase(g, dt));
  }

  /** The pickup phase as written keeps the game valid too: dropping the tokens the effects
      added breaks neither invariant. */
  lemma PickupPhaseAsWrittenKeepsValid(g: Game, dt: real)
    requires Valid(g)
    ensures Valid(PickupPhaseAsWritten(g, dt))
  {
    var g0 := g.(powerUps := []);
    CoreFrame(g, g0);
    PickupsKeepValid(g0, g.powerUps, dt);
    var g1 := Pickups(g0, g.powerUps, dt).0;
    CoreFrame(g1, PickupPhaseAsWritten(g, dt));
  }

  /** The pickup phase of a build: the written one, or the one that keeps the grenade's drops. */
  function PickupPhaseOf(build: Build, g: Game, dt: real): (r: Game)
    requires Shaped(g)
    ensures Shaped(r) && r.state == g.state && r.spawnQueue == g.spawnQueue
    ensures Valid(g) ==> Valid(r)
  {
    if build == Repaired then
      assert Valid(g) ==> Valid(PickupPhase(g, dt)) by {
        if Valid(g) {
          PickupPhaseKeepsValid(g, dt);
        }
      }
      PickupPhase(g, dt)
    else
      assert Valid(g) ==> Valid(PickupPhaseAsWritten(g, dt)) by {
        if Valid(g) {
          PickupPhaseAsWrittenKeepsValid(g, dt);
        }
      }
      PickupPhaseAsWritten(g, dt)
  }

  /** The lost drop: a GRENADE picked up as the only token, with three kills since the last
      drop and an enemy on the field, earns a drop that the written pickup phase throws away
      and the intended one keeps. */
  lemma GrenadeDropFinding(g: Game, dt: real)
    requires Shaped(g) && |g.powerUps| == 1
    requires g.powerUps[0].kind == Grenade && g.powerUps[0].alive && Touches(g.player, g.powerUps[0])
    requires g.kills % 4 == 3 && |g.enemies| >= 1
    ensures PickupPhaseAsWritten(g, dt).powerUps == []
    ensures |PickupPhase(g, dt).powerUps| >= 1
  {
    var g0 := g.(powerUps := []);
    var p := g.powerUps[0];
    var g1 := Collect(g0, Grenade);
    assert (g.kills + |g.enemies|) / 4 - g.kills / 4 >= 1;
    assert |g1.powerUps| >= 1;
    assert PowerUps.Update(p.(alive := false), dt).alive == false;
    assert g.powerUps[1..] == [];
    assert Pickups(g0, g.powerUps, dt) == (g1, []);
  }

  // ---------------------------------------------------------------- the tick

  /** The spawn clock: when it runs out the next enemy is spawned (if one may be) and the
      clock restarts at three seconds, whether or not an enemy came. */
  function SpawnClock(g: Game, dt: real): (r: Game)
    ensures g.spawnTimer - dt > 0.0 ==> r == g.(spawnTimer := g.spawnTimer - dt)
    ensures g.spawnTimer - dt <= 0.0 ==> r == SpawnNextEnemy(g).(spawnTimer := 3.0)
    ensures r.state == g.state && r.level == g.level
  {
    var g1 := g.(spawnTimer := g.spawnTimer - dt);
    if g1.spawnTimer <= 0.0 then SpawnNextEnemy(g1).(spawnTimer := 3.0) else g1
  }

  /** The spawn clock keeps the game valid. */
  lemma SpawnClockKeepsValid(g: Game, dt: real)
    requires Valid(g)
    ensures Valid(SpawnClock(g, dt))
  {
    var g1 := g.(spawnTimer := g.spawnTimer - dt);
    CoreFrame(g, g1);
    if g1.spawnTimer <= 0.0 {
      SpawnKeepsValid(g1);
      CoreFrame(SpawnNextEnemy(g1), SpawnClock(g, dt));
    }
  }

  /** The end of the tick: a dead player is handled, then a destroyed base ends the game, and
      last a stage with no enemy left on the field or in the queue is complete — even when
      the game just ended. */
  function EndOfTick(g: Game): (r: Game)
    requires g.player.role.Player?
    ensures var g1 := if !g.player.alive then HandlePlayerDeath(g) else g;
            var g2 := if g1.baseDestroyed then HandleGameOver(g1) else g1;
            r == (if g2.enemies == [] && g2.spawnQueue == [] then CompleteStage(g2) else g2)
    ensures g.enemies == [] && g.spawnQueue == [] ==> r.state == Score
    ensures !(g.enemies == [] && g.spawnQueue == []) && (g.baseDestroyed || (!g.player.alive && g.player.role.lives == 0)) ==>
              r.state == GameOver
  {
    var g1 := if !g.player.alive then HandlePlayerDeath(g) else g;
    var g2 := if g1.baseDestroyed then HandleGameOver(g1) else g1;
    if g2.enemies == [] && g2.spawnQueue == [] then CompleteStage(g2) else g2
  }

  /** The end of the tick keeps the game valid. */
  lemma EndOfTickKeepsValid(g: Game)
    requires Valid(g)
    ensures Valid(EndOfTick(g))
  {
    var g1 := if !g.player.alive then HandlePlayerDeath(g) else g;
    if !g.player.alive {
      PlayerDeathKeepsValid(g);
    }
    var g2 := if g1.baseDestroyed then HandleGameOver(g1) else g1;
    CoreFrame(g1, g2);
    CoreFrame(g2, EndOfTick(g));
  }

  /** The phases of `updatePlaying` after the clock and the pause key, in the source's order,
      with the player's fire and the pickups of the given build. The field phases leave the
      game's state alone, so a tick ends in the state it began in, in GAME OVER or in SCORE. */
  function Phases(build: Build, g: Game, dt: real, input: Input): (r: Game)
    requires Shaped(g)
    ensures r.state == g.state || r.state == GameOver || r.state == Score
  {
    var g1 := PlayerPhase(build, g, dt, input);
    var g2 := EnemyPhase(g1, 0, dt);
    var g3 := FreezeCountdown(g2, dt);
    var g4 := BulletPhase(g3, dt);
    var g5 := PickupPhaseOf(build, g4, dt);
    var g6 := g5.(explosions := Explosions.UpdateAll(g5.explosions, dt));
    var g7 := SpawnClock(g6, dt);
    EndOfTick(UpdateShovelTimer(g7, dt))
  }

  /** The tanks, the freeze and the bullets turn a valid game into a valid one. */
  lemma FieldPhasesKeepValid(build: Build, g: Game, dt: real, input: Input)
    requires Valid(g)
    ensures Valid(BulletPhase(FreezeCountdown(EnemyPhase(PlayerPhase(build, g, dt, input), 0, dt), dt), dt))
  {
    var g2 := EnemyPhase(PlayerPhase(build, g, dt, input), 0, dt);
    EnemyPhaseKeepsCore(PlayerPhase(build, g, dt, input), 0, dt);
    assert Core(FreezeCountdown(g2, dt));
  }

  /** `updatePlaying(dt)`: the clock advances; a pause key press pauses and ends the tick;
      otherwise the phases run. */
  function UpdatePlaying(build: Build, g: Game, dt: real, input: Input): (r: Game)
    requires Shaped(g)
    ensures input.pause ==> r == TogglePause(g.(time := g.time + dt))
    ensures !input.pause ==> r == Phases(build, g.(time := g.time + dt), dt, input)
    ensures g.state == Playing && input.pause ==> r == g.(time := g.time + dt, state := Paused)
    ensures !input.pause ==> r.state == g.state || r.state == GameOver || r.state == Score
  {
    if input.pause then TogglePause(g.(time := g.time + dt)) else Phases(build, g.(time := g.time + dt), dt, input)
  }

  /** `update(dt)`: MENU and SCORE wait for the player (the start and next-stage events are
      `StartNewGame` and `StartStage`); the stage intro counts down into PLAYING; PAUSED
      waits for the pause key; GAME OVER counts down into the menu. */
  function Update(build: Build, g: Game, dt: real, input: Input): (r: Game)
    requires Shaped(g)
    ensures g.state == Menu || g.state == Score ==> r == g
    ensures g.state == StageIntro ==>
              && r.stageIntroTimer == g.stageIntroTimer - dt
              && (r.state == Playing <==> r.stageIntroTimer <= 0.0)
              && r == g.(stageIntroTimer := r.stageIntroTimer, state := r.state)
    ensures g.state == Playing ==> r == UpdatePlaying(build, g, dt, input)
    ensures g.state == Playing ==>
              r.state == Playing || r.state == Paused || r.state == GameOver || r.state == Score
    ensures g.state == Paused ==> r == (if input.pause then g.(state := Playing) else g)
    ensures g.state == GameOver ==>
              && r.gameOverTimer == g.gameOverTimer - dt
              && (r.state == Menu <==> r.gameOverTimer <= 0.0)
              && r == g.(gameOverTimer := r.gameOverTimer, state := r.state)
  {
    match g.state
    case Menu => g
    case Score => g
    case StageIntro =>
      var t := g.stageIntroTimer - dt;
      g.(stageIntroTimer := t, state := if t <= 0.0 then Playing else StageIntro)
    case Playing => UpdatePlaying(build, g, dt, input)
    case Paused => if input.pause then TogglePause(g) else g
    case GameOver =>
      var t := g.gameOverTimer - dt;
      g.(gameOverTimer := t, state := if t <= 0.0 then Menu else GameOver)
  }
}
