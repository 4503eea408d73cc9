/** The seam that replaces the global `Math.random()`: every draw the engine makes is read
    from an explicit stream, so each step function is deterministic in its inputs. */
module Random {

  /** One value of `Math.random()`: a real in [0, 1). */
  type Draw = r: real | 0.0 <= r < 1.0

  /** An infinite stream of draws and the index of the next one to hand out. */
  datatype Source = Source(draw: nat -> Draw, cursor: nat)

  /** Hands out the next draw and advances the cursor by exactly one. */
  function Next(s: Source): (r: (Draw, Source))
    ensures r.1.cursor == s.cursor + 1 && r.1.draw == s.draw
    ensures r.0 == s.draw(s.cursor)
  {
    (s.draw(s.cursor), s.(cursor := s.cursor + 1))
  }

  /** A seeded generator (the `mulberry32` of the level builder): draw `k` for seed `seed`. */
  type Seeded = nat -> nat -> Draw
}
