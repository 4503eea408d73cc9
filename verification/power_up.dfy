/** The pick-up token of src/entities/powerUp.js: a one-tile box with a ten-second timer. */
module PowerUps {
  import opened Config

  datatype PowerUp = PowerUp(kind: PowerUpType, x: real, y: real, width: real, height: real, alive: bool, timer: real)

  /** `new PowerUp({type, x, y})`: a live 16 x 16 box with ten seconds to live. */
  function NewPowerUp(kind: PowerUpType, x: real, y: real): (p: PowerUp)
    ensures p.kind == kind && p.x == x && p.y == y
    ensures p.width == 16.0 && p.height == 16.0 && p.alive && p.timer == 10.0
  {
    PowerUp(kind, x, y, TileSize as real, TileSize as real, true, 10.0)
  }

  /** `update(dt)`: the timer drops by exactly `dt`; the token dies when it reaches zero and
      is never revived. */
  function Update(p: PowerUp, dt: real): (r: PowerUp)
    ensures r.timer == p.timer - dt
    ensures r.alive <==> p.alive && r.timer > 0.0
    ensures r == p.(timer := r.timer, alive := r.alive)
  {
    var p' := p.(timer := p.timer - dt);
    if p'.timer <= 0.0 then p'.(alive := false) else p'
  }

  /** The token after one update per frame, with frame lengths `dts`. */
  function Run(p: PowerUp, dts: seq<real>): PowerUp {
    if |dts| == 0 then p else Update(Run(p, dts[..|dts| - 1]), dts[|dts| - 1])
  }

  /** With non-negative frame lengths an uncollected token lives exactly while less than its
      remaining time has passed: a new one disappears once ten seconds have gone by. */
  lemma {:induction false} RunLifetime(p: PowerUp, dts: seq<real>)
    requires p.alive && p.timer > 0.0
    requires forall i :: 0 <= i < |dts| ==> dts[i] >= 0.0
    ensures Run(p, dts).timer == p.timer - Sum(dts)
    ensures Run(p, dts).alive <==> Sum(dts) < p.timer
  {
    if |dts| > 0 {
      RunLifetime(p, dts[..|dts| - 1]);
    }
  }

  /** A token marked collected stays dead through its update, so the filter that follows drops
      it in the same tick. */
  lemma CollectedIsDropped(p: PowerUp, dt: real)
    ensures !Update(p.(alive := false), dt).alive
  {
  }
}
