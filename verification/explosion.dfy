/** The explosion token of src/entities/explosion.js: a countdown that dies once its elapsed
    time reaches its duration. */
module Explosions {
  import opened Config

  datatype Explosion = Explosion(x: real, y: real, radius: real, duration: real, elapsed: real, alive: bool)

  /** `new Explosion({x, y})`: radius 18, lasting 0.4 s, just started. */
  function NewExplosion(x: real, y: real): (e: Explosion)
    ensures e.x == x && e.y == y && e.radius == 18.0 && e.duration == 0.4
    ensures e.elapsed == 0.0 && e.alive
  {
    Explosion(x, y, 18.0, 0.4, 0.0, true)
  }

  /** `update(dt)`: time advances by exactly `dt`; the explosion dies when it has run its
      duration and is never revived. */
  function Update(e: Explosion, dt: real): (r: Explosion)
    ensures r.elapsed == e.elapsed + dt
    ensures r.alive <==> e.alive && r.elapsed < e.duration
    ensures r == e.(elapsed := r.elapsed, alive := r.alive)
  {
    var e' := e.(elapsed := e.elapsed + dt);
    if e'.elapsed >= e'.duration then e'.(alive := false) else e'
  }

  /** The explosion after one update per frame, with frame lengths `dts`. */
  function Run(e: Explosion, dts: seq<real>): Explosion {
    if |dts| == 0 then e else Update(Run(e, dts[..|dts| - 1]), dts[|dts| - 1])
  }

  /** With non-negative frame lengths the explosion has aged by the total time, and it is
      alive exactly while that total stays below its duration. */
  lemma {:induction false} RunLifetime(e: Explosion, dts: seq<real>)
    requires e.alive && e.elapsed < e.duration
    requires forall i :: 0 <= i < |dts| ==> dts[i] >= 0.0
    ensures Run(e, dts).duration == e.duration
    ensures Run(e, dts).elapsed == e.elapsed + Sum(dts)
    ensures Run(e, dts).alive <==> e.elapsed + Sum(dts) < e.duration
  {
    if |dts| > 0 {
      RunLifetime(e, dts[..|dts| - 1]);
    }
  }

  /** The explosion phase of a tick: every explosion is updated and only the live ones are
      kept, in their original order. */
  function UpdateAll(es: seq<Explosion>, dt: real): (r: seq<Explosion>)
    ensures |r| <= |es|
    ensures forall i :: 0 <= i < |r| ==> r[i].alive
  {
    if |es| == 0 then []
    else
      var e := Update(es[0], dt);
      if e.alive then [e] + UpdateAll(es[1..], dt) else UpdateAll(es[1..], dt)
  }

  /** The explosions kept are exactly the updates of the listed ones that are still alive. */
  lemma {:induction false} UpdateAllMembers(es: seq<Explosion>, dt: real)
    ensures forall x :: x in UpdateAll(es, dt) <==> x.alive && exists j :: 0 <= j < |es| && x == Update(es[j], dt)
  {
    if |es| > 0 {
      UpdateAllMembers(es[1..], dt);
      forall x ensures x in UpdateAll(es, dt) <==> x.alive && exists j :: 0 <= j < |es| && x == Update(es[j], dt) {
        if x.alive && exists j :: 0 <= j < |es| && x == Update(es[j], dt) {
          var j :| 0 <= j < |es| && x == Update(es[j], dt);
          if j > 0 {
            assert x == Update(es[1..][j - 1], dt);
          }
        }
        if x in UpdateAll(es[1..], dt) {
          var j :| 0 <= j < |es[1..]| && x == Update(es[1..][j], dt);
          assert x == Update(es[j + 1], dt);
        }
      }
    }
  }
}
