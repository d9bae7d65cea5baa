/** Properties of the cycle driver: the fetch, the early program-counter advance and the timer tick. */
module CycleProperties {
  import opened Base
  import opened State
  import opened Decoder
  import opened Handlers
  import opened Interpreter

  /** The routines that write the program counter themselves. */
  predicate ControlsFlow(h: Handler)
  {
    h in {Op00EE, Op1NNN, Op2NNN, Op3XKK, Op4XKK, Op5XY0, Op9XY0, OpBNNN, OpEX9E, OpEXA1, OpFX0A}
  }

  /** Every other routine leaves the program counter at the word after the instruction. */
  lemma StraightLineAdvances(m: Machine, rand: Byte)
    requires Ready(m)
    requires Dispatch(Fetch(m)).None? || !ControlsFlow(Dispatch(Fetch(m)).value)
    ensures Cycle(m, rand).pc == m.pc + 2
  {
  }

  /**
   * Unless the instruction sets a timer, each timer drops by exactly one when
   * it is running and stays at zero when it is stopped.
   */
  lemma TimersCountDown(m: Machine, rand: Byte)
    requires Ready(m)
    requires Dispatch(Fetch(m)) != Some(OpFX15) && Dispatch(Fetch(m)) != Some(OpFX18)
    ensures m.delayTimer > 0 ==> Cycle(m, rand).delayTimer == m.delayTimer - 1
    ensures m.delayTimer == 0 ==> Cycle(m, rand).delayTimer == 0
    ensures m.soundTimer > 0 ==> Cycle(m, rand).soundTimer == m.soundTimer - 1
    ensures m.soundTimer == 0 ==> Cycle(m, rand).soundTimer == 0
  {
    var op := Fetch(m);
    var s := Step(m, rand);
    assert s.delayTimer == m.delayTimer && s.soundTimer == m.soundTimer by {
      match Dispatch(op)
      case None =>
      case Some(h) =>
    }
  }

  /** FX15 sets the delay timer before the tick, so the new value is already one lower. */
  lemma SetDelayThenTick(m: Machine, rand: Byte)
    requires Ready(m) && Dispatch(Fetch(m)) == Some(OpFX15)
    ensures var vx := m.v[X(Fetch(m))]; Cycle(m, rand).delayTimer == if vx > 0 then vx - 1 else 0
    ensures Cycle(m, rand).soundTimer == CountDown(m.soundTimer)
  {
  }

  /** FX18 sets the sound timer before the tick, so the new value is already one lower. */
  lemma SetSoundThenTick(m: Machine, rand: Byte)
    requires Ready(m) && Dispatch(Fetch(m)) == Some(OpFX18)
    ensures var vx := m.v[X(Fetch(m))]; Cycle(m, rand).soundTimer == if vx > 0 then vx - 1 else 0
    ensures Cycle(m, rand).delayTimer == CountDown(m.delayTimer)
  {
  }

  /** FX07 reads the delay timer before the tick. */
  lemma ReadDelayBeforeTick(m: Machine, rand: Byte)
    requires Ready(m) && Dispatch(Fetch(m)) == Some(OpFX07)
    ensures Cycle(m, rand).v[X(Fetch(m))] == m.delayTimer
  {
  }
}
