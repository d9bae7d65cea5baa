/** The machine state of the interpreter: memory, registers, timers, stack, display, keypad. */
module State {
  import opened Base

  const MEMORY_SIZE := 4096
  const REGISTER_COUNT := 16
  const STACK_SIZE := 16
  const DISPLAY_WIDTH := 64
  const DISPLAY_HEIGHT := 32
  const DISPLAY_CELLS := DISPLAY_WIDTH * DISPLAY_HEIGHT
  const KEY_COUNT := 16

  /** Where the glyph table is placed at construction. */
  const FONT_ADDRESS := 0x50
  /** Where a program is loaded and where execution starts. */
  const PROGRAM_START := 0x200
  /** Size in bytes of one hex-digit glyph. */
  const GLYPH_SIZE := 5

  /** The sixteen 5-byte glyphs of the hex digits 0 to F. */
  const FONT: seq<Byte> := [
    0xF0, 0x90, 0x90, 0x90, 0xF0,
    0x20, 0x60, 0x20, 0x20, 0x70,
    0xF0, 0x10, 0xF0, 0x80, 0xF0,
    0xF0, 0x10, 0xF0, 0x10, 0xF0,
    0x90, 0x90, 0xF0, 0x10, 0x10,
    0xF0, 0x80, 0xF0, 0x10, 0xF0,
    0xF0, 0x80, 0xF0, 0x90, 0xF0,
    0xF0, 0x10, 0x20, 0x40, 0x40,
    0xF0, 0x90, 0xF0, 0x10, 0xF0,
    0xF0, 0x90, 0xF0, 0x10, 0xF0,
    0xF0, 0x90, 0xF0, 0x90, 0x90,
    0xE0, 0x90, 0xE0, 0x90, 0xE0,
    0xF0, 0x80, 0x80, 0x80, 0xF0,
    0xE0, 0x90, 0x90, 0x90, 0xE0,
    0xF0, 0x80, 0xF0, 0x80, 0xF0,
    0xF0, 0x80, 0xF0, 0x80, 0x80
  ]

  /**
   * The interpreter state. A display cell is `true` when lit (the source stores
   * 0xFFFFFFFF for lit and 0 for dark, and only ever toggles between the two);
   * a key is `true` while pressed.
   */
  datatype Machine = Machine(
    memory: seq<Byte>,
    v: seq<Byte>,
    i: Word,
    delayTimer: Byte,
    soundTimer: Byte,
    pc: Word,
    sp: Byte,
    stack: seq<Word>,
    display: seq<bool>,
    keypad: seq<bool>)

  /** Every fixed-size array has its declared size and the stack depth is within the stack. */
  predicate Valid(m: Machine)
  {
    && |m.memory| == MEMORY_SIZE
    && |m.v| == REGISTER_COUNT
    && m.sp <= STACK_SIZE
    && |m.stack| == STACK_SIZE
    && |m.display| == DISPLAY_CELLS
    && |m.keypad| == KEY_COUNT
  }

  function Zeros(n: nat): (s: seq<Byte>)
    ensures |s| == n && forall k :: 0 <= k < n ==> s[k] == 0
  {
    seq(n, _ => 0)
  }

  /** The freshly constructed machine. */
  function Init(): (m: Machine)
    ensures Valid(m)
    ensures m.pc == PROGRAM_START
    ensures m.i == 0 && m.sp == 0 && m.delayTimer == 0 && m.soundTimer == 0
    ensures m.memory[FONT_ADDRESS..FONT_ADDRESS + |FONT|] == FONT
    ensures forall a :: 0 <= a < MEMORY_SIZE && !(FONT_ADDRESS <= a < FONT_ADDRESS + |FONT|) ==> m.memory[a] == 0
    ensures forall k :: 0 <= k < REGISTER_COUNT ==> m.v[k] == 0
    ensures forall k :: 0 <= k < STACK_SIZE ==> m.stack[k] == 0
    ensures forall c :: 0 <= c < DISPLAY_CELLS ==> !m.display[c]
    ensures forall k :: 0 <= k < KEY_COUNT ==> !m.keypad[k]
  {
    var memory := Zeros(FONT_ADDRESS) + FONT + Zeros(MEMORY_SIZE - FONT_ADDRESS - |FONT|);
    assert memory[FONT_ADDRESS..FONT_ADDRESS + |FONT|] == FONT;
    Machine(
      memory := memory,
      v := Zeros(REGISTER_COUNT),
      i := 0,
      delayTimer := 0,
      soundTimer := 0,
      pc := PROGRAM_START,
      sp := 0,
      stack := seq(STACK_SIZE, _ => 0),
      display := seq(DISPLAY_CELLS, _ => false),
      keypad := seq(KEY_COUNT, _ => false))
  }

  /** The largest program that fits between the load address and the end of memory. */
  const MAX_ROM_SIZE := MEMORY_SIZE - PROGRAM_START

  datatype LoadResult = Loaded(machine: Machine) | TooLarge

  /**
   * Loading a program image: an image longer than the space above the load
   * address is refused (the caller keeps its machine as it was); otherwise the
   * bytes are copied to the load address and execution restarts there.
   */
  function Load(m: Machine, rom: seq<Byte>): (r: LoadResult)
    requires Valid(m)
    ensures r.TooLarge? <==> |rom| > MAX_ROM_SIZE
    ensures r.Loaded? ==>
      && Valid(r.machine)
      && r.machine.pc == PROGRAM_START
      && (forall k :: 0 <= k < |rom| ==> r.machine.memory[PROGRAM_START + k] == rom[k])
      && (forall a :: 0 <= a < MEMORY_SIZE && !(PROGRAM_START <= a < PROGRAM_START + |rom|) ==>
            r.machine.memory[a] == m.memory[a])
      && r.machine == m.(memory := r.machine.memory, pc := PROGRAM_START)
  {
    if |rom| > MAX_ROM_SIZE then TooLarge
    else Loaded(m.(memory := m.memory[..PROGRAM_START] + rom + m.memory[PROGRAM_START + |rom|..],
                   pc := PROGRAM_START))
  }
}
