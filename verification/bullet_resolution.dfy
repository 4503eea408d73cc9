/** How one bullet's `update` (src/entities/bullet.js) changes the game: flight, the
    out-of-field kill, the tile collision with its explosion or eagle hit, and the entity
    collision with its damage, kill bookkeeping or bullet cancellation. The bullet phase of a
    tick runs this over a snapshot of the bullets and then drops the bullets of tanks that
    have left the field. */
module BulletResolution {
  import opened Config
  import opened Utils
  import opened TileResolver
  import opened Tanks
  import opened Bullets
  import opened Orchestrator
  import Explosions

  // ---------------------------------------------------------------- invariant steps

  /** Destroying a bullet keeps `Core`. */
  lemma DestroyKeepsCore(g: Game, id: nat)
    requires Core(g)
    ensures Core(g.(bullets := Destroy(g.bullets, id)))
  {
    SubsetTagged(g, Destroy(g.bullets, id));
    OwnedAfterDestroy(g.bullets, id);
    CoreWithBullets(g, Destroy(g.bullets, id));
  }

  /** Moving a listed bullet (same identity, owner and tag) keeps `Core`. */
  lemma ReplaceKeepsCore(g: Game, c: Bullet, b: Bullet)
    requires Core(g) && c in g.bullets
    requires c.id == b.id && c.ownerId == b.ownerId && c.fromPlayer == b.fromPlayer
    ensures Core(g.(bullets := Replace(g.bullets, b)))
  {
    var bs := Replace(g.bullets, b);
    assert UniqueIds(bs) && forall x :: x in bs ==> x.id < g.nextId && (x.fromPlayer <==> x.ownerId == g.player.id) by {
      ReplaceTagged(g.bullets, c, b, g.nextId, g.player.id);
    }
    assert forall o :: Owned(bs, o) == Owned(g.bullets, o) by {
      ReplaceTagged(g.bullets, c, b, g.nextId, g.player.id);
      OwnedAfterReplace(g.bullets, b);
    }
    CoreWithBullets(g, bs);
  }

  /** Moving a listed bullet keeps the list's identities distinct and its tags. */
  lemma ReplaceTagged(bullets: seq<Bullet>, c: Bullet, b: Bullet, nextId: nat, player: nat)
    requires c in bullets && c.id == b.id && c.ownerId == b.ownerId && c.fromPlayer == b.fromPlayer
    requires UniqueIds(bullets)
    requires forall x :: x in bullets ==> x.id < nextId && (x.fromPlayer <==> x.ownerId == player)
    ensures UniqueIds(Replace(bullets, b))
    ensures forall x :: x in Replace(bullets, b) ==> x.id < nextId && (x.fromPlayer <==> x.ownerId == player)
    ensures forall x :: x in bullets && x.id == b.id ==> x.ownerId == b.ownerId
  {
    var bs := Replace(bullets, b);
    ReplaceMembers(bullets, b);
    forall x, y | x in bs && y in bs && x.id == y.id ensures x == y {
      if x != b && y != b {
        assert x in bullets && y in bullets;
      }
    }
  }

  /** Replacing enemy `i` by a record with the same identity, role kind and allowance keeps
      `Core`. */
  lemma EnemyChangeKeepsCore(g: Game, i: nat, t: Tank)
    requires Core(g) && i < |g.enemies|
    requires t.id == g.enemies[i].id && t.role.Enemy? && t.maxBullets == g.enemies[i].maxBullets
    ensures Core(g.(enemies := g.enemies[i := t]))
  {
    var es := g.enemies[i := t];
    UpdateMembers(g.enemies, i, t);
    assert g.enemies[i] in g.enemies;
    forall j, k | 0 <= j < k < |es| ensures es[j].id != es[k].id {
      assert es[j].id == g.enemies[j].id && es[k].id == g.enemies[k].id;
    }
    CoreWithEnemies(g, es);
  }

  // ---------------------------------------------------------------- tile collision

  /** `handleTileCollision` for a bullet `b` on the field: the first cell in row-major order
      under the bullet that stops it is hit. A blocking tile goes to `hitTile`, with an
      explosion at the cell's centre only when the tile was destroyed; the eagle is cleared
      and the base is marked destroyed. In both cases the bullet is destroyed. The second
      component tells whether the bullet was stopped. */
  function TileCollision(g: Game, b: Bullet): (r: (Game, bool))
    requires IsGrid(g.level) && !LeavesField(b)
    ensures TileHit(g.level, b).None? ==> r == (g, false)
    ensures TileHit(g.level, b).Some? ==>
              var (row, col) := TileHit(g.level, b).value;
              var tile := g.level[row][col];
              var cleared := Destructible(tile, b.power) || tile == Eagle;
              && r.1
              && r.0.bullets == Destroy(g.bullets, b.id)
              && r.0.level == (if cleared then SetCell(g.level, row, col, Empty) else g.level)
              && r.0.baseDestroyed == (g.baseDestroyed || tile == Eagle)
              && r.0.explosions == g.explosions +
                   (if Destructible(tile, b.power)
                    then [Explosions.NewExplosion(TileToCenter(col), TileToCenter(row))] else [])
              && r.0 == g.(bullets := r.0.bullets, level := r.0.level, baseDestroyed := r.0.baseDestroyed,
                           explosions := r.0.explosions)
    ensures IsGrid(r.0.level)
  {
    match TileHit(g.level, b)
    case None => (g, false)
    case Some((row, col)) =>
      var tile := g.level[row][col];
      var bullets := Destroy(g.bullets, b.id);
      if IsBulletBlocking(tile) then
        var (level, destroyed) := HitTile(g.level, row, col, b.power);
        var boom := if destroyed then [Explosions.NewExplosion(TileToCenter(col), TileToCenter(row))] else [];
        (g.(level := level, explosions := g.explosions + boom, bullets := bullets), true)
      else
        (g.(level := SetCell(g.level, row, col, Empty), baseDestroyed := true, bullets := bullets), true)
  }

  /** A tile collision changes at most the one cell the bullet stopped at, and that cell only
      when the hit destroys it or it is the eagle: water and indestructible steel stop the
      bullet and stay. */
  lemma TileCollisionChangesOneCell(g: Game, b: Bullet)
    requires IsGrid(g.level) && !LeavesField(b)
    ensures forall y, x :: (0 <= y < GridSize && 0 <= x < GridSize && TileCollision(g, b).0.level[y][x] != g.level[y][x]) ==>
              && TileHit(g.level, b) == Some((y, x))
              && (Destructible(g.level[y][x], b.power) || g.level[y][x] == Eagle)
              && TileCollision(g, b).0.level[y][x] == Empty
  {
  }

  // ---------------------------------------------------------------- entity collision

  /** The bullet's 8 x 8 box overlaps the tank's 16 x 16 box. */
  predicate Overlaps(b: Bullet, t: Tank) {
    RectOverlap(b.x, b.y, BulletSize, BulletSize, t.x, t.y, TankSize, TankSize)
  }

  /** `t` is a target the entity collision takes: live, not the bullet's owner, overlapping. */
  predicate Struck(b: Bullet, t: Tank) {
    t.alive && t.id != b.ownerId && Overlaps(b, t)
  }

  /** The index of the first target of `b` among `es[k..]`. */
  function FirstStruck(es: seq<Tank>, b: Bullet, k: nat): (r: Option<nat>)
    requires k <= |es|
    ensures r.Some? ==> k <= r.value < |es| && Struck(b, es[r.value])
    ensures r.Some? ==> forall j :: k <= j < r.value ==> !Struck(b, es[j])
    ensures r.None? ==> forall j :: k <= j < |es| ==> !Struck(b, es[j])
    decreases |es| - k
  {
    if k == |es| then None
    else if Struck(b, es[k]) then Some(k)
    else FirstStruck(es, b, k + 1)
  }

  /** `other` is a different bullet whose box overlaps `b`'s. */
  predicate Crosses(b: Bullet, other: Bullet) {
    other.id != b.id && RectOverlap(b.x, b.y, BulletSize, BulletSize, other.x, other.y, BulletSize, BulletSize)
  }

  /** The index of the first bullet among `bs[k..]` that `b` crosses. */
  function FirstCrossing(bs: seq<Bullet>, b: Bullet, k: nat): (r: Option<nat>)
    requires k <= |bs|
    ensures r.Some? ==> k <= r.value < |bs| && Crosses(b, bs[r.value])
    ensures r.Some? ==> forall j :: k <= j < r.value ==> !Crosses(b, bs[j])
    ensures r.None? ==> forall j :: k <= j < |bs| ==> !Crosses(b, bs[j])
    decreases |bs| - k
  {
    if k == |bs| then None
    else if Crosses(b, bs[k]) then Some(k)
    else FirstCrossing(bs, b, k + 1)
  }

  /** A player bullet strikes enemy `i`: the enemy takes the damage, the bullet is destroyed,
      and a lethal hit goes through the kill bookkeeping. */
  function StrikeEnemy(g: Game, b: Bullet, i: nat): (r: Game)
    requires Shaped(g) && i < |g.enemies|
    ensures var (t, lethal) := Damage(g.enemies[i], b.power);
            && (lethal <==> r.kills == g.kills + 1)
            && (!lethal ==> r == g.(enemies := g.enemies[i := t], bullets := Destroy(g.bullets, b.id)))
            && (lethal ==> r.score == g.score + g.enemies[i].role.scoreValue && t !in r.enemies &&
                           r.bullets == Destroy(g.bullets, b.id))
    ensures r.player == g.player && r.level == g.level && r.nextId == g.nextId
    ensures |r.explosions| >= |g.explosions| && r.explosions[..|g.explosions|] == g.explosions
    ensures Shaped(r)
    ensures Core(g) ==> Core(r)
  {
    var (t, lethal) := Damage(g.enemies[i], b.power);
    var g1 := g.(enemies := g.enemies[i := t], bullets := Destroy(g.bullets, b.id));
    UpdateMembers(g.enemies, i, t);
    assert Core(g) ==> Core(g1) by {
      if Core(g) {
        EnemyChangeKeepsCore(g, i, t);
        DestroyKeepsCore(g.(enemies := g.enemies[i := t]), b.id);
      }
    }
    if lethal then
      assert Core(g1) ==> Core(EnemyDestroyed(g1, t)) by {
        if Core(g1) {
          EnemyDestroyedKeepsCore(g1, t);
        }
      }
      EnemyDestroyed(g1, t)
    else g1
  }

  /** An enemy bullet strikes the player: the player takes the damage, the bullet is
      destroyed, and a lethal hit marks the player dead with an explosion. */
  function StrikePlayer(g: Game, b: Bullet): (r: Game)
    requires Shaped(g)
    ensures var (p, lethal) := Damage(g.player, b.power);
            && r.bullets == Destroy(g.bullets, b.id)
            && r.player == p
            && (lethal <==> |r.explosions| == |g.explosions| + 1)
            && r == g.(player := p, bullets := r.bullets, explosions := r.explosions)
    ensures g.player.invincibleTimer <= 0.0 ==> !r.player.alive
    ensures g.player.invincibleTimer > 0.0 ==> r.player == g.player
    ensures Shaped(r)
    ensures Core(g) ==> Core(r)
  {
    var (p, lethal) := Damage(g.player, b.power);
    var g1 := g.(player := p, bullets := Destroy(g.bullets, b.id));
    assert Core(g) ==> Core(g1) by {
      if Core(g) {
        DestroyKeepsCore(g, b.id);
        CoreWithPlayer(g.(bullets := Destroy(g.bullets, b.id)), p);
      }
    }
    if lethal then
      assert Core(g1) ==> Core(PlayerDestroyed(g1)) by {
        if Core(g1) {
          CoreWithPlayer(g1, PlayerDestroyed(g1).player);
        }
      }
      PlayerDestroyed(g1)
    else g1
  }

  /** An enemy bullet and a player bullet cancel: both are destroyed, and one explosion marks
      the enemy bullet's position. */
  function CancelBullets(g: Game, b: Bullet, other: Bullet): (r: Game)
    ensures r.bullets == Destroy(Destroy(g.bullets, b.id), other.id)
    ensures !Live(r.bullets, b.id) && !Live(r.bullets, other.id)
    ensures r.explosions == g.explosions + [Explosions.NewExplosion(b.x, b.y)]
    ensures r == g.(bullets := r.bullets, explosions := r.explosions)
    ensures Core(g) ==> Core(r)
  {
    var g1 := g.(bullets := Destroy(Destroy(g.bullets, b.id), other.id),
                 explosions := g.explosions + [Explosions.NewExplosion(b.x, b.y)]);
    assert Core(g) ==> Core(g1) by {
      if Core(g) {
        DestroyKeepsCore(g, b.id);
        DestroyKeepsCore(g.(bullets := Destroy(g.bullets, b.id)), other.id);
        CoreFrame(g.(bullets := g1.bullets), g1);
      }
    }
    g1
  }

  /** `handleEntityCollision`: a player bullet damages the first enemy it strikes; an enemy
      bullet damages the player if it strikes it, and otherwise cancels against the first of
      the player's bullets it crosses. A bullet that meets nothing flies on, and a player
      bullet never destroys another bullet. */
  function EntityCollision(g: Game, b: Bullet): (r: Game)
    requires Shaped(g)
    ensures b.fromPlayer ==>
              && (FirstStruck(g.enemies, b, 0).None? ==> r == g)
              && (FirstStruck(g.enemies, b, 0).Some? ==> r == StrikeEnemy(g, b, FirstStruck(g.enemies, b, 0).value))
              && (r.bullets == g.bullets || r.bullets == Destroy(g.bullets, b.id))
    ensures !b.fromPlayer && Struck(b, g.player) ==> r == StrikePlayer(g, b)
    ensures !b.fromPlayer && !Struck(b, g.player) ==>
              var mine := OwnedBy(g.bullets, g.player.id);
              && (FirstCrossing(mine, b, 0).None? ==> r == g)
              && (FirstCrossing(mine, b, 0).Some? ==> r == CancelBullets(g, b, mine[FirstCrossing(mine, b, 0).value]))
    ensures !b.fromPlayer ==> r.enemies == g.enemies && r.kills == g.kills && r.score == g.score
    ensures |r.bullets| <= |g.bullets| && r.level == g.level && r.nextId == g.nextId
    ensures r.spawnQueue == g.spawnQueue && r.state == g.state
    ensures Shaped(r)
    ensures Core(g) ==> Core(r)
  {
    if b.fromPlayer then
      match FirstStruck(g.enemies, b, 0)
      case None => g
      case Some(i) => StrikeEnemy(g, b, i)
    else if Struck(b, g.player) then
      StrikePlayer(g, b)
    else
      var mine := OwnedBy(g.bullets, g.player.id);
      match FirstCrossing(mine, b, 0)
      case None => g
      case Some(k) => CancelBullets(g, b, mine[k])
  }

  // ---------------------------------------------------------------- one bullet, one phase

  /** The collisions of a bullet on the field, already moved in the list: terrain first, and
      only a bullet terrain did not stop goes on to the tanks. */
  function Collide(g: Game, b: Bullet): (r: Game)
    requires Shaped(g) && !LeavesField(b)
    ensures TileHit(g.level, b).Some? ==>
              && !Live(r.bullets, b.id)
              && r.player == g.player && r.enemies == g.enemies && r.score == g.score
    ensures TileHit(g.level, b).None? ==> r == EntityCollision(g, b)
    ensures |r.bullets| <= |g.bullets| && r.nextId == g.nextId
    ensures r.spawnQueue == g.spawnQueue && r.state == g.state
    ensures Shaped(r)
    ensures Core(g) ==> Core(r)
  {
    var (g1, stopped) := TileCollision(g, b);
    if stopped then
      assert Core(g) ==> Core(g1) by {
        if Core(g) {
          DestroyKeepsCore(g, b.id);
          CoreFrame(g.(bullets := Destroy(g.bullets, b.id)), g1);
        }
      }
      g1
    else EntityCollision(g, b)
  }

  /** `bullet.update(dt, context)` for the bullet with identity `id`. A bullet already
      destroyed in this phase is skipped. Otherwise it moves; if its box has left the field it
      is destroyed and nothing else is checked; if terrain stops it, no tank is checked;
      otherwise the entity collision runs. */
  function UpdateBullet(g: Game, id: nat, dt: real): (r: Game)
    requires Shaped(g)
    ensures !Live(g.bullets, id) ==> r == g
    ensures Live(g.bullets, id) ==>
              var b := Advance(Find(g.bullets, id).value, dt);
              && (LeavesField(b) ==> r == g.(bullets := Destroy(g.bullets, id)))
              && (!LeavesField(b) && TileHit(g.level, b).Some? ==>
                    && !Live(r.bullets, id)
                    && r.player == g.player && r.enemies == g.enemies && r.score == g.score)
              && (!LeavesField(b) && TileHit(g.level, b).None? ==>
                    r == EntityCollision(g.(bullets := Replace(g.bullets, b)), b))
    ensures |r.bullets| <= |g.bullets| && r.nextId == g.nextId
    ensures r.spawnQueue == g.spawnQueue && r.state == g.state
    ensures Shaped(r)
    ensures Core(g) ==> Core(r)
  {
    match Find(g.bullets, id)
    case None => g
    case Some(c) =>
      var b := Advance(c, dt);
      if LeavesField(b) then
        assert Core(g) ==> Core(g.(bullets := Destroy(g.bullets, id))) by {
          if Core(g) {
            DestroyKeepsCore(g, id);
          }
        }
        g.(bullets := Destroy(g.bullets, id))
      else
        var g1 := g.(bullets := Replace(g.bullets, b));
        assert Core(g) ==> Core(g1) by {
          if Core(g) {
            ReplaceKeepsCore(g, c, b);
          }
        }
        Collide(g1, b)
  }
}
