/** The invariant of the frame loop: every frame of `update`, in every state, turns a valid
    game into a valid game. */
module TickInvariant {
  import opened Config
  import opened Tanks
  import opened Orchestrator
  import opened GameLoop
  import Explosions

  /** Advancing the play clock keeps the game valid. */
  lemma ClockKeepsValid(g: Game, dt: real)
    requires Valid(g)
    ensures Valid(g.(time := g.time + dt))
  {
    CoreFrame(g, g.(time := g.time + dt));
  }

  /** Pausing keeps the game valid. */
  lemma PauseKeepsValid(g: Game)
    requires Valid(g)
    ensures Valid(TogglePause(g))
  {
    CoreFrame(g, TogglePause(g));
  }

  /** A frame in which the pause key is pressed during play keeps the game valid. */
  lemma PausingFrameKeepsValid(build: Build, g: Game, dt: real, input: Input)
    requires Valid(g) && g.state == Playing && input.pause
    ensures Valid(Update(build, g, dt, input))
  {
    ClockKeepsValid(g, dt);
    PauseKeepsValid(g.(time := g.time + dt));
  }

  /** A whole tick of play keeps the game valid in either build: every phase in order. */
  lemma PhasesKeepValid(build: Build, g: Game, dt: real, input: Input)
    requires Valid(g)
    ensures Valid(Phases(build, g, dt, input))
  {
    FieldPhasesKeepValid(build, g, dt, input);
    var g4 := BulletPhase(FreezeCountdown(EnemyPhase(PlayerPhase(build, g, dt, input), 0, dt), dt), dt);
    var g5 := PickupPhaseOf(build, g4, dt);
    var g6 := g5.(explosions := Explosions.UpdateAll(g5.explosions, dt));
    CoreFrame(g5, g6);
    SpawnClockKeepsValid(g6, dt);
    var g7 := SpawnClock(g6, dt);
    CoreFrame(g7, UpdateShovelTimer(g7, dt));
    EndOfTickKeepsValid(UpdateShovelTimer(g7, dt));
  }

  /** `updatePlaying` without the pause key keeps the game valid: the clock, then the tick. */
  lemma PlayKeepsValid(build: Build, g: Game, dt: real, input: Input)
    requires Valid(g) && !input.pause
    ensures Valid(UpdatePlaying(build, g, dt, input))
  {
    ClockKeepsValid(g, dt);
    PhasesKeepValid(build, g.(time := g.time + dt), dt, input);
    TickOnAdvancedClock(build, g, dt, input);
  }

  /** Without the pause key, `updatePlaying` is the tick run on the advanced clock, so it is
      valid whenever that tick's result is. */
  lemma TickOnAdvancedClock(build: Build, g: Game, dt: real, input: Input)
    requires Shaped(g) && !input.pause && Valid(Phases(build, g.(time := g.time + dt), dt, input))
    ensures Valid(UpdatePlaying(build, g, dt, input))
  {
  }

  /** A frame of play keeps the game valid. */
  lemma PlayingFrameKeepsValid(build: Build, g: Game, dt: real, input: Input)
    requires Valid(g) && g.state == Playing && !input.pause
    ensures Valid(Update(build, g, dt, input))
  {
    PlayKeepsValid(build, g, dt, input);
  }

  /** Every frame keeps the game valid, in every state and in either build: outside play a
      frame changes only timers and the state. */
  lemma UpdateKeepsValid(build: Build, g: Game, dt: real, input: Input)
    requires Valid(g)
    ensures Valid(Update(build, g, dt, input))
  {
    if g.state != Playing {
      CoreFrame(g, Update(build, g, dt, input));
    } else if input.pause {
      PausingFrameKeepsValid(build, g, dt, input);
    } else {
      PlayingFrameKeepsValid(build, g, dt, input);
    }
  }
}
