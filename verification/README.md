# Tank battle simulation core in Dafny

This project models the simulation and combat engine of a browser tank game in the style of
*Battle City*. It covers:

- the 26 x 26 terrain grid and its stage builders;
- the per-stage enemy waves;
- tank movement, fire and damage;
- bullet flight and collision resolution;
- the explosion and power-up countdown tokens;
- the game object's event handlers (spawn director, kill bookkeeping, the seven power-up
  effects, the shovel, player death and lives);
- the frame loop's state machine (MENU, STAGE_INTRO, PLAYING, PAUSED, GAME_OVER, SCORE).

Everything is a pure function over immutable values:

- **Numbers.** Positions and timers are exact `real`s. Tile indices use `.Floor`.
- **Randomness.** Every `Math.random()` draw is read from an explicit stream (`Random.Source`: a
  function from index to a draw in [0, 1), plus a cursor). Each step is therefore
  deterministic in its inputs.
- **Bullet ownership.** A tank's `bullets` set becomes the bullets of one game-wide list whose
  `ownerId` is that tank's identity.
- **Identity.** JavaScript object identity becomes a numeric `id`. The counter `nextId` hands
  out fresh ones.

The modules follow the source files:

| module | file | covers |
|---|---|---|
| `Config` | `config.dfy` | constants and enumerations |
| `Random` | `random.dfy` | the draw stream |
| `Utils` | `utils.dfy` | `utils.js` |
| `TileResolver` | `tile_resolver.dfy` | `tileResolver.js` |
| `SpawnTables` | `spawn_tables.dfy` | `spawnTables.js` |
| `Levels` | `levels.dfy` | `levels.js` |
| `Tanks` | `tank.dfy` | `tank.js` |
| `Bullets` | `bullet.dfy` | `bullet.js` |
| `BulletResolution` | `bullet_resolution.dfy` | a bullet's `update` over the whole game |
| `Explosions` | `explosion.dfy` | `explosion.js` |
| `PowerUps` | `power_up.dfy` | `powerUp.js` |
| `Orchestrator` | `orchestrator.dfy` | the `Game` record and its handlers in `game.js` |
| `GameLoop` | `game_loop.dfy` | `loop`, `update` and `updatePlaying` |
| `TickInvariant` | `tick_invariant.dfy` | the invariant of the frame loop |

The central property is `TickInvariant.UpdateKeepsValid`: every frame, in every state and in
either build (below), keeps `Orchestrator.Valid`. `Valid` says all of the following:

- the grid is 26 x 26;
- the player holds the player role with a star level of at most 3;
- at most four enemies are on the field and at most twenty are queued;
- the high score is at least the score;
- tank and bullet identities are fresh and distinct;
- every bullet is tagged as the player's exactly when the player owns it;
- no tank has more bullets in flight than its allowance;
- every bullet belongs to a tank on the field.

Where the code and the design description disagree, the model follows the code:

- **Hitting the base wall.** A hit on the BASE wall tile only clears it. The game ends only when
  a bullet reaches the EAGLE tile (`src/entities/bullet.js:69-74`).
- **Shovel revert.** The revert writes BASE, not BRICK, in the middle column of both rows
  (`src/game/game.js:40-46`).
- **Stage completion.** A stage with no enemies left on the field or in the queue completes
  even in a tick that has just ended the game (`src/game/game.js:245-255`).
- **Player fire, grenade drops and the generated stages.** The code departs from the design in
  three places (see "## Findings"). The frame loop and stage loading therefore take a
  `Config.Build`:
  - `AsWritten` follows the code. The player never fires, the tokens a GRENADE drops during
    the pickup phase are lost, and every mirrored generated stage has no base.
  - `Repaired` applies the three corrections.

  The invariant is proved for both builds.

## Model

| member | source | states |
|---|---|---|
| TileResolver.TerrainPartition | src/core/tileResolver.js:4-15 | Passable tiles are exactly EMPTY, GRASS and ICE, and bullet-blocking tiles are exactly BRICK, STEEL, WATER and BASE. No tile is both. Every tile except the EAGLE is one or the other. |
| TileResolver.HitTile | src/core/tileResolver.js:17-32 | It reports destruction exactly for BRICK, for BASE, and for STEEL under power above 1. A destroyed cell becomes EMPTY; otherwise the grid is returned unchanged. No cell other than [row][col] ever changes. |
| TileResolver.SteelNeedsPowerTwo | src/core/tileResolver.js:23-26 | Against STEEL, a power-1 hit returns the grid unchanged and false. A stronger hit clears the cell. |
| TileResolver.IndestructibleTiles | src/core/tileResolver.js:17-32 | WATER, GRASS, ICE, EAGLE and EMPTY cells are never changed, and the hit reports false. |
| Utils.Clamp | src/core/utils.js:3-5 | The result is at least `min`. It is at most `max` when `min <= max`, is `value` itself when that is already inside, and is always one of the three inputs. |
| Utils.FormatScore | src/core/utils.js:7-9 | The decimal of the value, left-padded with '0' to at least 6 characters and never truncated. The digits parse back to the value. |
| Utils.FormatStage | src/core/utils.js:11-13 | The same as FormatScore, with a minimum width of 2. |
| Utils.DecimalRoundTrip | src/core/utils.js:7-13 | Parsing the decimal digits of `n` gives back `n`. |
| Utils.PaddedDecimalValue | src/core/utils.js:7-13 | Zero padding to any width keeps the numeric value. |
| Utils.CoordToTile | src/core/utils.js:19-21 | The tile returned is the one whose span [16t, 16t+16) contains the coordinate. |
| Utils.TileCoordRoundTrip | src/core/utils.js:15-21 | `coordToTile(tileToCoord(t)) == t` for every integer tile `t`. |
| Utils.CoordToTileMonotone | src/core/utils.js:19-21 | A larger coordinate never maps to an earlier tile. |
| Utils.IsInsideField | src/core/utils.js:23-25 | The bounds test 0 <= x, y < 416 holds exactly when both tile indices are cells of the 26 x 26 grid. |
| Utils.ChoiceIndexInterval | src/core/utils.js:40-43 | Index `i` is chosen exactly by the draws in [i/n, (i+1)/n), so the choice is uniform. |
| Utils.RandomChoice | src/core/utils.js:40-43 | For a non-empty list, the value picked is an element of the list. |
| Utils.EveryChoiceReachable | src/core/utils.js:40-43 | Every element is picked by some draw: the draw i/n picks element i. |
| Utils.Shuffle | src/core/utils.js:27-34 | The result has the same length and is a permutation of the input (same multiset). One draw is taken per swap, n - 1 in all. |
| SpawnTables.BuildSequence | src/data/spawnTables.js:41-51 | The `a` BASIC come first, then `b` FAST, `c` POWER and `d` ARMOR in that order, then BASIC padding. The length is max(20, a+b+c+d), so a longer row is never truncated. |
| SpawnTables.BuildSequenceCounts | src/data/spawnTables.js:41-51 | Each type occurs as often as the row asks, plus the padding as BASIC, so the row can be read back from the sequence. |
| SpawnTables.BuildSequenceLoop | src/data/spawnTables.js:41-51 | The push loops, one enemy at a time, compute BuildSequence. |
| SpawnTables.PlanRowsAreFull | src/data/spawnTables.js:3-39 | The plan has 35 rows and every row sums to 20, so the padding loop never runs. |
| SpawnTables.SpawnSequence | src/data/spawnTables.js:41-53 | The entry of plan row `i` has exactly 20 enemies, and each type occurs as often as row `i` says. |
| SpawnTables.EnemySpawnTable | src/data/spawnTables.js:53 | The table has one entry of length 20 per plan row, and the per-type counts of entry `i` equal row `i`. |
| SpawnTables.FirstStageLineUp | src/data/spawnTables.js:4 | Entry 0 is 18 BASIC followed by 2 FAST. |
| SpawnTables.ArmorNeverDecreases | src/data/spawnTables.js:3-39 | Along the plan, the armor count never decreases. |
| Levels.CreateEmptyLevel | src/data/levels.js:3-10 | A 26 x 26 grid whose every cell is EMPTY. |
| Levels.FillRect | src/data/levels.js:12-22 | Corners may come in either order and are clipped to [0, 25]. Exactly the cells of that rectangle take the tile; every other cell is unchanged. |
| Levels.FillRectInPlace | src/data/levels.js:12-22 | The nested write loops compute FillRect. |
| Levels.ClearRect | src/data/levels.js:24-26 | The same as FillRect with EMPTY. |
| Levels.MirrorVertically | src/data/levels.js:28-34 | Columns 0..12 are unchanged, every row reads the same from both ends (`row[25-x] == row[x]`), and no tile absent before appears. |
| Levels.MirrorVerticallyInPlace | src/data/levels.js:28-34 | The cell-by-cell loop computes MirrorVertically. |
| Levels.MirrorHorizontally | src/data/levels.js:36-41 | Rows 0..12 are unchanged, and row 25-y is a copy of row y for y < 13. |
| Levels.MirrorHorizontallyInPlace | src/data/levels.js:36-41 | The row-copy loop computes MirrorHorizontally. |
| Levels.ApplyBase | src/data/levels.js:43-52 | Rows 23-24, columns 11-15 become BRICK, except BASE at [24][13]. EAGLE is set at [25][13]. Nothing else changes. |
| Levels.ApplyBaseSingleEagle | src/data/levels.js:43-52 | On a grid without an eagle, the only EAGLE after `applyBase` is at [25][13]. |
| Levels.AddRandomGrass | src/data/levels.js:54-61 | GRASS is the only tile written, and rows 21-25 (the base area) are never touched. |
| Levels.Strokes | src/data/levels.js:81-174 | The drawing calls of each of the ten configurators, in source order. None of them writes an EAGLE or a BASE. |
| Levels.Configure | src/data/levels.js:81-174 | A configurator keeps a grid free of EAGLE and BASE. |
| Levels.BuildStage | src/data/levels.js:72-79 | A builder's stage is 26 x 26, with BASE at [24][13] and its only EAGLE at [25][13], because `applyBase` runs last. Outside the base footprint there is neither. |
| Levels.MirroredStageLosesBase | src/data/levels.js:176-193 | As written, every generated stage that is mirrored has neither an EAGLE nor a BASE tile. That is 17 of the 25. |
| Levels.GeneratedStage | src/data/levels.js:176-193 | Generated stage `i` with the base built after the mirrors and the grass: BASE at [24][13] and a single EAGLE at [25][13]. |
| Levels.GeneratedStageAsWritten | src/data/levels.js:176-193 | Generated stage `i` as written, mirrored and grassed after the base was built, is a 26 x 26 grid. MirroredStageLosesBase states what the mirrors do to its base. |
| Levels.Stage | src/data/levels.js:195-198 | Stage `j` of the repaired table is a 26 x 26 grid with BASE at [24][13] and a single EAGLE at [25][13]. |
| Levels.StageAsWritten | src/data/levels.js:195-198 | Stage `j` of `LEVELS` as written is a 26 x 26 grid, and `LEVELS[10]` has neither an EAGLE nor a BASE. |
| Levels.MirroredStagesAsWrittenLoseBase | src/data/levels.js:176-198 | Every stage of `LEVELS` as written whose generated number is even or a multiple of three has neither an EAGLE nor a BASE. |
| Levels.StageOf | src/data/levels.js:195-198 | The stage a build loads is a 26 x 26 grid. The ten hand-built stages are the same in both builds. The repaired build always has BASE at [24][13] and EAGLE at [25][13], while the written one has neither in `LEVELS[10]`. |
| Levels.Levels | src/data/levels.js:195-198 | The repaired table, with the generated stages taken from GeneratedStage. There are 35 stages (10 builders plus 25 generated), each a 26 x 26 grid with BASE at [24][13] and EAGLE at [25][13]. |
| Levels.LevelsAsWritten | src/data/levels.js:195-198 | `LEVELS` as written has 35 full grids, but the eleventh has neither an EAGLE nor a BASE. |
| Tanks.NewEnemy | src/entities/tank.js:226-256 | The enemy stat table: speed 50/70/55/40, HP 1/1/1/4, bullet power 1/1/2/1, score 100/200/300/400 for BASIC/FAST/POWER/ARMOR. Only POWER has two bullets. A new enemy faces DOWN with a 2 s shield. |
| Tanks.NewPlayer | src/entities/tank.js:131-136 | The player starts with speed 60, facing UP, star level 0, three lives and one bullet. |
| Tanks.Damage | src/entities/tank.js:83-93 | A shielded tank is unchanged and the hit is not lethal. An unshielded player always dies. An unshielded enemy loses `power` hit points and dies exactly when they reach 0 or less. |
| Tanks.HitsAccumulate | src/entities/tank.js:83-93 | On an unshielded enemy, `k` hits of power `p` remove k*p hit points. The last one is lethal exactly when the remainder is at most 0. |
| Tanks.ArmorDiesOnFourthHit | src/entities/tank.js:83-93 | An unshielded ARMOR tank survives three power-1 hits and dies on the fourth. The other archetypes die on the first. |
| Tanks.GrantShield | src/entities/tank.js:95-97 | The shield becomes the larger of the old timer and the duration, so it is never shortened, and nothing else changes. |
| Tanks.GrantShieldCommutes | src/entities/tank.js:95-97 | Two grants commute, and granting the same duration twice is granting it once. |
| Tanks.Fire | src/entities/tank.js:69-76 | A shot happens exactly when the cooldown has run out and the tank is below its allowance. A shot sets the cooldown to 0.35 (player) or 0.5 (enemy); otherwise nothing changes. |
| Tanks.FireGatesItself | src/entities/tank.js:69-76 | After a shot the tank owns at most `maxBullets` bullets, and an immediate second shot is refused. |
| Tanks.PlayerFireAsWritten | src/entities/tank.js:187-191 | As written, the player's fire stores the allowance and a positive cooldown and never produces a bullet. |
| Tanks.PlayerFireFinding | src/entities/tank.js:187-191 | A new player with no bullet in flight cannot fire as written, but can with PlayerFire. |
| Tanks.PlayerFire | src/entities/tank.js:187-191 | The allowance is 2 from star level 2 (else 1). A shot happens exactly when the cooldown has run out and the player is below that allowance; it then sets the cooldown to 0.15 at level 3 (else 0.2). |
| Tanks.Upgrade | src/entities/tank.js:193-195 | One more star level, capped at 3. Lives and everything else are kept. |
| Tanks.UpgradeSaturates | src/entities/tank.js:193-195 | Three upgrades take a new player to level 3, where upgrading changes nothing. |
| Tanks.ResetPlayer | src/entities/tank.js:197-205 | The player is back at the given position, facing UP, with the cooldown cleared, alive, and a 2 s shield. Its identity, role and allowance are kept. |
| Tanks.RectOverlapSymmetric | src/entities/tank.js:126-128 | Box overlap is symmetric. |
| Tanks.RectOverlapByCentres | src/entities/tank.js:126-128 | Two boxes of positive size overlap exactly when their centres are closer than half the summed widths on x and half the summed heights on y. |
| Tanks.CanMoveToScan | src/entities/tank.js:100-124 | The bounds test, the row-major tile scan with early exit, and the loop over the other live tanks together return true exactly when both corners are on the field, every covered tile is passable, and no other live tank overlaps. |
| Tanks.CanMoveToExcludesOverlap | src/entities/tank.js:100-124 | A place a tank may move to is never inside another live tank. |
| Tanks.Move | src/entities/tank.js:39-54 | When `canMoveTo` allows the step of `speed * dt`, the clamped position is committed, the result is on the field, and no draw is taken. When it refuses, an enemy takes one draw and turns to the chosen direction, while a player stays as it was. |
| Tanks.MoveLandsClear | src/entities/tank.js:39-54 | When `move` changes a tank's position, `canMoveTo` accepted the probed spot: its tiles are passable and no other live tank overlaps it. The committed corner is that spot, clamped by less than one unit when the spot lies past 400. |
| Tanks.MoveLandsOnClearTiles | src/entities/tank.js:39-54 | The corner `move` commits lies on the field and covers only passable tiles. Clamping past 400 never reaches a tile that the probed spot did not cover. |
| Tanks.AlignAxisToGrid | src/entities/tank.js:216-224 | With step <= 0 the value is returned unchanged. Otherwise it moves at most `step` toward the nearest multiple of 16 (clamped to [0, max]), and lands on it when it is within `step`. |
| Tanks.AlignTargetIsNearestLine | src/entities/tank.js:216-224 | On the field, the target is a grid line at most half a tile away. |
| Tanks.ResolveInputDirection | src/entities/tank.js:208-214 | UP beats DOWN beats LEFT beats RIGHT. There is no direction exactly when no arrow is held. |
| Tanks.PlayerMove | src/entities/tank.js:138-180 | With no arrow held, nothing changes. Otherwise the player turns to the held direction, moves only in x and y, never backwards along it, and by at most the velocity on each axis, and stays on the field. |
| Tanks.RandomTurn | src/entities/tank.js:264-267 | One draw is taken. Below 2% (FAST) or 1% (others) the tank turns to the direction a second draw picks; otherwise it is unchanged. |
| Tanks.FastTurnsMoreOften | src/entities/tank.js:264-267 | On any stream on which an enemy turns, a FAST enemy in the same state takes the same turn. A first draw in [0.01, 0.02) turns a FAST enemy and leaves any other unchanged. |
| Tanks.Engage | src/entities/tank.js:268-281 | The tank faces the player when within a tile on x (vertical first), else on y. It fires without a draw when aligned, and otherwise on a draw below 0.02. It fires only when its cooldown has run out and it is below its allowance, and firing sets the cooldown to 0.5. |
| Tanks.EnemyAi | src/entities/tank.js:258-282 | A frozen enemy only thaws. Otherwise it takes the random turn and, while the player lives, engages. It fires only when unfrozen, the player is alive, the cooldown has run out and it is below its allowance. |
| Tanks.EnemyAiFiresThroughFire | src/entities/tank.js:268-281 | The AI fires only where `Tank.fire` succeeds, and leaves the cooldown `Tank.fire` leaves. An active enemy lined up with the live player fires exactly when `Tank.fire` would. |
| Tanks.UpdateEnemy | src/entities/tank.js:21-37 | A dead enemy is left alone and a frozen one only thaws. A live, unfrozen enemy aligned with the live player and allowed to fire does fire. Identity, role, alive flag and allowance are kept, and a tank on the field stays on it. |
| Tanks.UpdatePlayer | src/entities/tank.js:21-37 | A dead player is left alone. As written, the player never fires, and with fire held an active player ends the tick with its level's allowance and its level's cooldown less `dt`. In the repaired build, the player fires exactly when it is alive and unfrozen, fire is held, the cooldown has run out and it is below its allowance. A player on the field stays on it. |
| Bullets.NewBullet | src/entities/bullet.js:5-16 | The bullet has the owner's direction, an 8 x 8 box centred in the owner's 16 x 16 box, and the given speed and power. |
| Bullets.CreateBullet | src/game/game.js:403-409 | Player bullets fly at 220 with power 2 from star level 3 (else 1). Enemy bullets fly at 180 with the enemy's bullet power, or 1 when that is 0. |
| Bullets.Advance | src/entities/bullet.js:20-24 | The bullet moves exactly `speed * dt` along its direction. |
| Bullets.CoveredCellsInGrid | src/entities/bullet.js:26-30 | A bullet that passed the bounds test covers only cells of the grid, so the tile scan never indexes outside it. |
| Bullets.TileToCenter | src/entities/bullet.js:107-109 | The centre of tile `i` lies in tile `i`. |
| Bullets.TileHit | src/entities/bullet.js:52-76 | The stopping cell, if any, is the first cell in row-major order among those the box covers that is bullet-blocking or the EAGLE. When there is none, no covered cell stops the bullet. |
| Bullets.Destroy | src/entities/bullet.js:35-44 | The bullet leaves the list, and so its owner's set. Nothing else is removed, and a bullet not in the list changes nothing. |
| Bullets.DestroyIdempotent | src/entities/bullet.js:35-44 | A second `destroy` of the same bullet changes nothing. |
| Bullets.OwnedAfterDestroy | src/entities/bullet.js:35-44 | `destroy` never adds to any tank's bullet count. |
| Bullets.DestroyKeepsOtherOwners | src/entities/bullet.js:38-40 | Destroying a bullet leaves every other owner's set as it was. |
| Bullets.OwnedAfterAppend | src/entities/tank.js:71-73 | A new bullet joins its owner's set and no other. |
| BulletResolution.TileCollision | src/entities/bullet.js:52-77 | A bullet-blocking cell goes to `hitTile`, and an explosion appears at the tile centre only when the tile is destroyed. An EAGLE cell becomes EMPTY and marks the base destroyed. In both cases the bullet is destroyed. With no stopping cell, nothing changes. |
| BulletResolution.TileCollisionChangesOneCell | src/entities/bullet.js:52-77 | A tile collision changes at most the one cell the bullet stopped at, and that cell only to EMPTY. |
| BulletResolution.FirstStruck | src/entities/bullet.js:81-83 | Finds the first enemy in list order that is live, is not the owner, and overlaps the bullet. |
| BulletResolution.StrikeEnemy | src/entities/bullet.js:83-89 | The enemy takes the damage and the bullet is destroyed. Only a lethal hit records the kill. |
| BulletResolution.StrikePlayer | src/entities/bullet.js:83-89 | The player takes the damage and the bullet is destroyed. An unshielded player dies, and a shielded one is unchanged. |
| BulletResolution.CancelBullets | src/entities/bullet.js:95-101 | Both bullets are destroyed, one explosion is added at the enemy bullet's position, and nothing else changes. |
| BulletResolution.EntityCollision | src/entities/bullet.js:79-105 | A player bullet strikes the first enemy it hits. An enemy bullet strikes the player if it overlaps, and otherwise cancels against the first player bullet it crosses. An enemy bullet never changes the enemies, the kills or the score. |
| BulletResolution.Collide | src/entities/bullet.js:30-32 | Terrain is checked first. A bullet stopped by terrain skips the entity checks. |
| BulletResolution.UpdateBullet | src/entities/bullet.js:18-33 | A bullet no longer in the list changes nothing. A bullet that leaves the field is destroyed with no other check. Otherwise it is moved and then collides. The invariant inside a tick is kept. |
| Explosions.NewExplosion | src/entities/explosion.js:2-9 | A new explosion has radius 18, duration 0.4, elapsed 0 and is alive. |
| Explosions.Update | src/entities/explosion.js:11-16 | Elapsed grows by exactly `dt`. The explosion is alive afterwards exactly when it was alive and elapsed is still below the duration, so it is never revived. |
| Explosions.RunLifetime | src/entities/explosion.js:11-16 | Over any sequence of non-negative frames, the explosion has aged by the total and is alive exactly while that total stays below its duration. |
| Explosions.UpdateAllMembers | src/game/game.js:232-235 | The explosions kept are exactly the updated ones that are still alive. |
| PowerUps.NewPowerUp | src/entities/powerUp.js:4-12 | A new power-up is a live 16 x 16 token with a timer of 10. |
| PowerUps.Update | src/entities/powerUp.js:14-19 | The timer drops by exactly `dt`. The token is alive afterwards exactly when it was alive and the timer is still positive, so it is never revived. |
| PowerUps.RunLifetime | src/entities/powerUp.js:14-19 | Over non-negative frames, a token lives exactly while less than its remaining time has passed. |
| PowerUps.CollectedIsDropped | src/game/game.js:223-230 | A token marked collected stays dead through its update, so the filter drops it in the same tick. |
| Orchestrator.CountKill | src/game/game.js:437 | The kill count of the enemy's type goes up by one, and the other types are unchanged. |
| Orchestrator.AliveOnly | src/game/game.js:450 | Exactly the live enemies are kept, and distinct identities stay distinct. |
| Orchestrator.LanesRotate | src/game/game.js:366-367 | Over a full queue the entry points rotate centre, right, left. |
| Orchestrator.Lane | src/game/game.js:366-367 | The entry point index computed from the queue length always names one of the three spawn positions. |
| Orchestrator.Newcomer | src/game/game.js:365-373 | The new enemy has the archetype's stats at its lane's position, a 1.5 s shield, and the freeze timer as its frozen timer when a freeze is running. |
| Orchestrator.SpawnNextEnemy | src/game/game.js:362-374 | Nothing changes when the queue is empty or four enemies are on the field. Otherwise the queue head leaves the queue and joins the field, so enemies on the field plus enemies queued stays constant. |
| Orchestrator.SpawnKeepsValid | src/game/game.js:362-374 | Spawning keeps the game valid: at most four enemies, and a fresh, distinct identity. |
| Orchestrator.PlacePowerUp | src/game/game.js:461-468 | Each attempt takes two draws, with x below 400 and y below 352. Sampling stops at the first passable tile or after ten attempts, keeping the last point. |
| Orchestrator.FirstPassableDrawKept | src/game/game.js:464-468 | When the first point lands on a passable tile, only one attempt is made. |
| Orchestrator.SpawnPowerUp | src/game/game.js:459-471 | Exactly one token is appended, of a kind chosen from the seven, and nothing else changes except the draw stream. |
| Orchestrator.EnemyDestroyed | src/game/game.js:434-450 | Kills and the type's count go up by one. Score and stage score go up by the score value, and the high score becomes the larger of itself and the score. An explosion appears at the tank's centre. A power-up is dropped exactly when kills reach a multiple of 4. Only live enemies stay on the field. |
| Orchestrator.EnemyDestroyedKeepsCore | src/game/game.js:434-450 | A kill keeps the invariant that holds inside a tick. |
| Orchestrator.PlayerDestroyed | src/game/game.js:452-456 | The player is marked dead and an explosion appears at its centre. Nothing else changes. |
| Orchestrator.KillAll | src/game/game.js:491-497 | Credits every enemy of the snapshot as a kill. Kills grow by their number and the score by the sum of their score values. One drop is made for each multiple of 4 crossed. |
| Orchestrator.DetonateGrenade | src/game/game.js:491-497 | The field is left empty of enemies, with each enemy credited as a kill and its score value added. Only the player's bullets remain, and the game stays valid. |
| Orchestrator.ReinforceBase | src/game/game.js:581-590 | Only rows 23-24, columns 11-15 are written: STEEL (strong) or BRICK, with BASE in column 13. |
| Orchestrator.ReinforceLastWins | src/game/game.js:581-590 | Reinforcing twice is reinforcing once with the second choice, so the operation is idempotent. |
| Orchestrator.ShovelRevertAddsBaseCell | src/game/game.js:40-46 | On a stage as `applyBase` built it, the shovel and its revert change exactly one cell: [23][13] goes from BRICK to BASE. |
| Orchestrator.UpdateShovelTimer | src/game/game.js:572-579 | The timer counts down only while positive. When it crosses to 0 or below, the walls revert to brick, and only then. |
| Orchestrator.Collect | src/game/game.js:473-504 | The seven power-up effects. HELMET: shield of at least 10. TIMER: freeze timer 5 and every enemy frozen for 5. SHOVEL: shovel timer reset to 15, plus steel walls. STAR: min(3, level+1). GRENADE: every enemy destroyed. TANK: one more life. GUN: level 3. |
| Orchestrator.CollectKeepsValid | src/game/game.js:473-504 | Collecting any power-up keeps the game valid. |
| Orchestrator.HandlePlayerDeath | src/game/game.js:508-515 | With a life in reserve, the player loses it and respawns by `reset`, and its bullets are cleared. Without one, the game goes to GAME OVER with a 5 s timer. |
| Orchestrator.PlayerDeathKeepsValid | src/game/game.js:508-515 | A death keeps the game valid. |
| Orchestrator.LivesCountDown | src/game/game.js:508-511 | Each death with lives in reserve costs exactly one life and leaves the state unchanged. |
| Orchestrator.HandleGameOver | src/game/game.js:521-526 | The state becomes GAME OVER with a 5 s timer, and nothing else changes. |
| Orchestrator.CompleteStage | src/game/game.js:528-533 | The current index is recorded as the last completed. The index moves to (index + 1) mod 35 and the state becomes SCORE. |
| Orchestrator.StagesCycle | src/game/game.js:528-533 | `n` completions move the index by `n` mod 35, so 35 of them bring it back. |
| Orchestrator.TogglePause | src/game/game.js:539-547 | PLAYING and PAUSED swap, and every other state is kept. |
| Orchestrator.TogglePauseInvolution | src/game/game.js:539-547 | Toggling twice returns the same game. |
| Orchestrator.PrepareStage | src/game/game.js:326-360 | Loads the stage of index mod 35 from the build's table, and the wave of that index. It empties the field. The spawn timer is 1.5, the intro timer 2.5, and kills and the freeze and shovel timers are zero. The player is reset and the stage counter goes up by one. |
| Orchestrator.PrepareKeepsValid | src/game/game.js:326-347 | A freshly prepared stage is valid. |
| Orchestrator.StartNewGame | src/game/game.js:303-318 | Returns to stage 1 of the build's table, with score 0 and a new player with three lives, in the intro. The high score is kept and the game is valid. |
| Orchestrator.StartStage | src/game/game.js:320-324 | The intro of the stage at the current index, loaded from the build's table. It is valid when the player's identity is fresh. |
| Orchestrator.InitialGame | src/game/game.js:77-92 | The menu, with scores zero and the first stage of the build's table loaded, in a valid game. |
| GameLoop.FrameDelta | src/game/game.js:114 | The frame length in seconds, capped at 0.05. |
| GameLoop.ShotKeepsValid | src/entities/tank.js:69-76 | A shot by a tank on the field that is below its allowance keeps both invariants. |
| GameLoop.PlayerPhase | src/game/game.js:204 | The player updates among all tanks. As written, no bullet is ever added, and the bullet list and identity counter are unchanged. In the repaired build, a bullet is added exactly when the update fires. The invariant inside a tick is kept. |
| GameLoop.EnemyStepKeepsCore | src/game/game.js:206-208 | One enemy's update keeps the invariant inside a tick. |
| GameLoop.EnemyPhaseKeepsCore | src/game/game.js:206-208 | The whole enemy loop keeps the invariant inside a tick. |
| GameLoop.EnemyPhase | src/game/game.js:206-208 | The enemy loop keeps the number of enemies, the player, the grid, the queue and the state. |
| GameLoop.FreezeCountdown | src/game/game.js:210-217 | A running freeze counts down. When it runs out, every enemy thaws, and only then. |
| GameLoop.Snapshot | src/game/game.js:425-432 | Every bullet of a tank on the field is visited, and only bullets still in the list are visited. |
| GameLoop.RunBullets | src/game/game.js:219-221 | Updating the listed bullets in turn never adds a bullet. It keeps the identity counter, the queue and the state, and keeps the invariant inside a tick. |
| Orchestrator.Prune | src/game/game.js:425-432 | Exactly the bullets whose owner is on the field are kept, and nothing else changes. A game whose bullets all have an owner on the field is unchanged. From the invariant inside a tick, the result is valid. |
| GameLoop.BulletPhase | src/game/game.js:219-221 | After the bullet phase, every bullet belongs to a tank on the field and the game is valid. |
| GameLoop.PickupsKeepValid | src/game/game.js:223-230 | Collecting keeps the game valid, whatever tokens are picked up. |
| GameLoop.Pickups | src/game/game.js:223-230 | The filter callback keeps at most as many tokens as it visits, all of them live. The game's own list only grows. The state, the base flag and the queue are unchanged. |
| GameLoop.PickupPhaseAsWritten | src/game/game.js:223-230 | As written, the token list becomes the filter's result, dropping what the effects appended. The state, the base flag and the queue are unchanged. |
| GameLoop.PickupPhaseAsWrittenKeepsValid | src/game/game.js:223-230 | The written pickup phase keeps the game valid. |
| GameLoop.GrenadeDropFinding | src/game/game.js:223-230 | A GRENADE collected as the only token, at three kills since the last drop, leaves no token as written, but one with PickupPhase. |
| GameLoop.PickupPhase | src/game/game.js:223-230 | The kept tokens are followed by those the effects dropped. Every token the written phase keeps is kept. |
| GameLoop.PickupPhaseKeepsValid | src/game/game.js:223-230 | The pickup phase keeps the game valid. |
| GameLoop.PickupPhaseOf | src/game/game.js:223-230 | The pickup phase of either build keeps the state and the queue and keeps the game valid. |
| GameLoop.SpawnClock | src/game/game.js:237-241 | When the timer runs out, the next enemy is spawned if one may be, and the timer resets to 3 even when nothing spawned. |
| GameLoop.SpawnClockKeepsValid | src/game/game.js:237-241 | The spawn clock keeps the game valid. |
| GameLoop.EndOfTick | src/game/game.js:245-255 | A dead player is handled, then a destroyed base ends the game, then an empty field and queue complete the stage, overriding a GAME OVER set in the same tick. |
| GameLoop.EndOfTickKeepsValid | src/game/game.js:245-255 | The end of the tick keeps the game valid. |
| GameLoop.FieldPhasesKeepValid | src/game/game.js:204-221 | In either build, the tanks, the freeze and the bullets turn a valid game into a valid one. |
| GameLoop.Phases | src/game/game.js:204-255 | A tick of play ends in the state it began in, in GAME OVER or in SCORE. |
| GameLoop.UpdatePlaying | src/game/game.js:196-256 | With the pause key during play, the frame only advances the clock and enters PAUSED. Without it, the phases run on the advanced clock, and the frame ends in the state it began in, in GAME OVER or in SCORE. |
| GameLoop.Update | src/game/game.js:121-142 | MENU and SCORE wait. The stage intro counts down and enters PLAYING exactly when its timer runs out. PAUSED resumes exactly on the pause key. GAME OVER counts down and enters MENU exactly when its timer runs out. PLAYING runs `updatePlaying` and is followed by PLAYING, PAUSED, GAME OVER or SCORE. |
| TickInvariant.PhasesKeepValid | src/game/game.js:204-255 | In either build, a whole tick of play, every phase in order, keeps the game valid. |
| TickInvariant.PlayKeepsValid | src/game/game.js:196-256 | In either build, `updatePlaying` without the pause key keeps the game valid. |
| TickInvariant.PausingFrameKeepsValid | src/game/game.js:196-202 | A frame in which the pause key is pressed during play keeps the game valid. |
| TickInvariant.UpdateKeepsValid | src/game/game.js:121-142 | Every frame, in every state and in either build, keeps the game valid. |

## Left out

- Rendering, the canvas, assets and power-up icons are not part of this model; they draw and never change the simulation.
- Audio (`src/audio/audioManager.js`) is not part of this model; sound effects and themes are fire-and-forget calls.
- The DOM is not part of this model: the overlay and HUD `innerHTML`, `textContent` and `onclick` writes, and `attachAudioControls`.
- Keyboard handling (`src/core/input.js`) is replaced by the `Tanks.Input` record of pressed keys.
- The one-shot `once('fire')` listeners and the menu clicks become the explicit events `Orchestrator.StartNewGame` and `Orchestrator.StartStage`. The listeners that the MENU, GAME OVER and SCORE screens register again every frame are not modelled.
- `requestAnimationFrame` and the `running` flag are not modelled. The frame loop is `GameLoop.FrameDelta` followed by `GameLoop.Update`.
- The `setTimeout` that starts the battle music is not modelled: it only plays audio.
- `Math.random()` is a supplied stream of draws. Probabilities (the 1%/2% turn chance, the 2% fire chance, the uniform drop kind and place) are stated as conditions on the draws, not as distributions.
- `mulberry32` and its 32-bit arithmetic are abstracted as a seeded source `Random.Seeded`, one draw in [0, 1) per seed and index.
- Levels.AddRandomGrass: states only that GRASS is the one tile written and that rows 21-25 stay untouched. It does not state which cells each of the 30 patches covers.
- Levels.Configure: states only that the configurators keep a grid free of EAGLE and BASE. The exact layout of each stage follows from `Levels.Strokes` but is not restated cell by cell.
- IEEE floating point is replaced by exact reals. The `|| 0` guard of `loop` against a NaN frame length has no counterpart.
- `deepClone` (JSON copy) is a value copy: every grid here is an immutable value.
- The base class's `Tank.aiUpdate` (`src/entities/tank.js:56-67`) is not modelled: `EnemyTank` overrides it and the player never runs AI.
- The `stage` and `difficulty` fields of the enemy context are never read, and `friendlies` is always empty. Bullet targets are the enemies for player bullets and the player for enemy bullets.
- A destroyed bullet leaves the game's list instead of keeping a dead `alive` flag. Every read of a bullet in the source filters on `alive`, so the two agree.
- Utils.RandomChoice: requires a non-empty list. The source would return `undefined` for an empty one, but every caller passes one of the fixed four- or seven-element lists.
- Utils.Shuffle: modelled as the Fisher-Yates swaps with draws from the stream; no module of the game calls it.
- Explosions.UpdateAllMembers: states which explosions are kept, not that they keep their relative order, although the function does keep it.
- Tanks.PlayerMove: states the direction, which fields change, staying on the field, never moving backwards, and the per-axis bound by the velocity. It does not state the exact coordinates after the grid nudge; those are `Tanks.AlignAxisToGrid`'s contract.
- GameLoop.BulletPhase: states the invariant the phase keeps. What each bullet does is `BulletResolution.UpdateBullet`'s contract.
- `src/data/powerUps.js` (display names, descriptions and icons), `src/main.js` and the tests are not part of this model.

## Findings

| source | as written | input that shows it | evidently intended | confidence | as-written member | corrected member |
|---|---|---|---|---|---|---|
| src/entities/tank.js:187-191 | `PlayerTank.fire` sets `cooldown` to 0.2 or 0.15 before calling the inherited `fire`, whose guard at line 70 then always returns early. | A new player (level 0, cooldown 0, no bullet in flight) with fire held: no bullet is created. | Check the guard first, and set the level-dependent cooldown only after a shot. | not executed | Tanks.PlayerFireAsWritten, Tanks.PlayerFireFinding, Tanks.UpdatePlayer | Tanks.PlayerFire, Tanks.UpdatePlayer |
| src/game/game.js:223-230 | A GRENADE collected inside the `powerUps.filter` callback kills enemies, and their every-fourth-kill drops are pushed onto the array being filtered. The filter's result then replaces that array, so the drops are lost. | One GRENADE token touching the player, `kills % 4 == 3`, at least one enemy on the field: afterwards no token is left. | Tokens dropped during the pickup phase join the kept tokens. | not executed | GameLoop.PickupPhaseAsWritten, GameLoop.GrenadeDropFinding | GameLoop.PickupPhase, GameLoop.PickupPhaseOf |
| src/data/levels.js:176-193 | `generateAdditionalStages` mirrors the builder's finished stage, so the mirror overwrites the base that `applyBase` built. | Generated stage 0 (`LEVELS[10]`): mirrored both ways, with no EAGLE and no BASE tile anywhere. | Build the base after the mirrors and the grass, as every stage builder does. | not executed | Levels.GeneratedStageAsWritten, Levels.MirroredStageLosesBase, Levels.MirroredStagesAsWrittenLoseBase | Levels.GeneratedStage, Levels.Stage, Levels.Levels |

`Config.Build` selects between the two halves wherever the frame loop or stage loading uses
them. `AsWritten` uses `Tanks.PlayerFireAsWritten`, `GameLoop.PickupPhaseAsWritten` and
`Levels.StageAsWritten`, and `Repaired` uses the corrected members.
