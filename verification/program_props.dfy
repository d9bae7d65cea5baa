/** Construction, loading, and a short program run end to end. */
module ProgramProperties {
  import opened Base
  import opened State
  import opened Decoder
  import opened Handlers
  import opened Interpreter
  import opened SkipProperties

  /** After loading into a fresh machine, the first fetch reads the program's first two bytes, high byte first. */
  lemma LoadThenFetch(rom: seq<Byte>)
    requires 2 <= |rom| <= MAX_ROM_SIZE
    ensures Load(Init(), rom).Loaded?
    ensures Fetch(Load(Init(), rom).machine) == rom[0] as int * 0x100 + rom[1]
  {
  }

  /** A fresh machine starts with an empty stack and stopped timers. */
  lemma InitIsQuiet()
    ensures Init().sp == 0 && Tick(Init()) == Init()
  {
  }

  /** A cycle on 6XKK: VX receives KK and execution moves to the next instruction. */
  lemma LoadByteCycle(m: Machine, rand: Byte)
    requires Ready(m) && High(Fetch(m)) == 0x6
    ensures Cycle(m, rand) == Tick(m.(pc := m.pc + 2, v := m.v[X(Fetch(m)) := KK(Fetch(m))]))
  {
  }

  /** A cycle on 1NNN. */
  lemma JumpCycle(m: Machine, rand: Byte)
    requires Ready(m) && High(Fetch(m)) == 0x1
    ensures Cycle(m, rand) == Tick(m.(pc := NNN(Fetch(m))))
  {
  }

  /** The machine right after loading `rom` into a fresh machine. */
  function Boot(rom: seq<Byte>): (m: Machine)
    requires |rom| <= MAX_ROM_SIZE
    ensures Valid(m) && m.pc == PROGRAM_START && m.delayTimer == 0 && m.soundTimer == 0
    ensures forall k :: 0 <= k < |rom| ==> m.memory[PROGRAM_START + k] == rom[k]
    ensures forall r :: 0 <= r < REGISTER_COUNT ==> m.v[r] == 0
  {
    Load(Init(), rom).machine
  }

  /** 6A02 (VA := 2), 3A02 (skip if VA == 2), 1204 (jump to itself at 0x204). */
  const DEMO: seq<Byte> := [0x6A, 0x02, 0x3A, 0x02, 0x12, 0x04]

  /**
   * Two cycles of the demo program load VA and then skip: the skip matches, so
   * it passes over the jump at 0x204 and execution continues at 0x206.
   */
  lemma DemoProgramSkipsJump(rand1: Byte, rand2: Byte)
    ensures Ready(Boot(DEMO)) && Ready(Cycle(Boot(DEMO), rand1))
    ensures Cycle(Cycle(Boot(DEMO), rand1), rand2).pc == 0x206
    ensures Cycle(Cycle(Boot(DEMO), rand1), rand2).v[0xA] == 2
  {
    var m0 := Boot(DEMO);
    assert m0.memory[0x200] == 0x6A && m0.memory[0x201] == 0x02;
    assert Fetch(m0) == 0x6A02;
    LoadByteCycle(m0, rand1);
    var m1 := Cycle(m0, rand1);
    assert m1.memory[0x202] == 0x3A && m1.memory[0x203] == 0x02;
    assert Fetch(m1) == 0x3A02;
    SkipIfEqualByteCycle(m1, rand2);
  }

  /** As the demo, but the skip compares VA with 3, so it does not skip. */
  const DEMO_NO_SKIP: seq<Byte> := [0x6A, 0x02, 0x3A, 0x03, 0x12, 0x04]

  /**
   * Two cycles reach the jump at 0x204; from there every further cycle leaves
   * the machine exactly as it is.
   */
  lemma DemoProgramLoops(rand1: Byte, rand2: Byte, rand3: Byte)
    ensures Ready(Boot(DEMO_NO_SKIP)) && Ready(Cycle(Boot(DEMO_NO_SKIP), rand1))
    ensures var m2 := Cycle(Cycle(Boot(DEMO_NO_SKIP), rand1), rand2);
      m2.pc == 0x204 && m2.v[0xA] == 2 && Ready(m2) && Cycle(m2, rand3) == m2
  {
    var m0 := Boot(DEMO_NO_SKIP);
    assert m0.memory[0x200] == 0x6A && m0.memory[0x201] == 0x02;
    assert Fetch(m0) == 0x6A02;
    LoadByteCycle(m0, rand1);
    var m1 := Cycle(m0, rand1);
    assert m1.memory[0x202] == 0x3A && m1.memory[0x203] == 0x03;
    assert Fetch(m1) == 0x3A03;
    SkipIfEqualByteCycle(m1, rand2);
    var m2 := Cycle(m1, rand2);
    assert m2.memory[0x204] == 0x12 && m2.memory[0x205] == 0x04;
    assert Fetch(m2) == 0x1204;
    JumpCycle(m2, rand3);
  }
}
