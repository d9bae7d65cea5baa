/** One fetch-decode-execute-tick cycle of the interpreter. */
module Interpreter {
  import opened Base
  import opened State
  import opened Decoder
  import opened Handlers

  /** The big-endian instruction word at the program counter. */
  function Fetch(m: Machine): (op: Word)
    requires Valid(m) && m.pc + 1 < MEMORY_SIZE
    ensures op / 0x100 == m.memory[m.pc] && op % 0x100 == m.memory[m.pc + 1]
  {
    m.memory[m.pc] as int * 0x100 + m.memory[m.pc + 1]
  }

  /** Count a timer down by one, stopping at zero. */
  function CountDown(t: Byte): (r: Byte)
    ensures t == 0 ==> r == 0
    ensures t > 0 ==> r + 1 == t
  {
    if t > 0 then t - 1 else t
  }

  /** The end-of-cycle timer tick: both timers count down, nothing else changes. */
  function Tick(m: Machine): (r: Machine)
    ensures r.delayTimer <= m.delayTimer && r.soundTimer <= m.soundTimer
    ensures m.delayTimer > 0 ==> r.delayTimer + 1 == m.delayTimer
    ensures m.soundTimer > 0 ==> r.soundTimer + 1 == m.soundTimer
    ensures r == m.(delayTimer := r.delayTimer, soundTimer := r.soundTimer)
  {
    m.(delayTimer := CountDown(m.delayTimer), soundTimer := CountDown(m.soundTimer))
  }

  /** Whether the dispatched routine (if any) stays within its arrays. */
  predicate DefinedFor(m: Machine, op: Word)
    requires Valid(m)
  {
    match Dispatch(op)
    case None => true
    case Some(h) => Defined(m, h, op)
  }

  /**
   * The machine can run a cycle without reading outside memory or the keypad:
   * the fetch stays within memory and the fetched instruction's reads do too.
   */
  predicate Ready(m: Machine)
  {
    Valid(m) && m.pc + 1 < MEMORY_SIZE && DefinedFor(m, Fetch(m))
  }

  /** The state after the program counter is advanced and the fetched instruction runs. */
  function Step(m: Machine, rand: Byte): (r: Machine)
    requires Ready(m)
    ensures Valid(r)
    ensures r.keypad == m.keypad
    ensures Dispatch(Fetch(m)) != Some(OpFX33) && Dispatch(Fetch(m)) != Some(OpFX55) ==> r.memory == m.memory
    ensures Dispatch(Fetch(m)) != Some(OpFX15) ==> r.delayTimer == m.delayTimer
    ensures Dispatch(Fetch(m)) != Some(OpFX18) ==> r.soundTimer == m.soundTimer
  {
    var op := Fetch(m);
    var advanced := m.(pc := Wrap16(m.pc + 2));
    match Dispatch(op)
    case None => advanced
    case Some(h) => Execute(advanced, h, op, rand)
  }

  /** One full cycle: fetch, advance, dispatch, then tick both timers. */
  function Cycle(m: Machine, rand: Byte): (r: Machine)
    requires Ready(m)
    ensures Valid(r)
    ensures r.keypad == m.keypad
    ensures Dispatch(Fetch(m)) != Some(OpFX33) && Dispatch(Fetch(m)) != Some(OpFX55) ==> r.memory == m.memory
  {
    Tick(Step(m, rand))
  }
}
