/**
 * The 34 instruction routines, each a pure transition of the machine. A routine
 * runs after the cycle has already advanced the program counter past the
 * instruction, so "skip" adds a further 2 and jumps overwrite it. Each routine
 * reads its operands from the instruction word `op`, as the source routines
 * read the current opcode.
 */
module Handlers {
  import opened Base
  import opened State
  import opened Decoder
  import opened Bits
  import Sprite

  /**
   * The routine's memory and keypad reads stay inside their arrays. The source
   * does not check these indices; the model covers only the inputs where they
   * are in range.
   */
  predicate Defined(m: Machine, h: Handler, op: Word)
    requires Valid(m)
  {
    match h
    case OpDXYN => N(op) == 0 || m.i + N(op) <= MEMORY_SIZE
    case OpEX9E => m.v[X(op)] < KEY_COUNT
    case OpEXA1 => m.v[X(op)] < KEY_COUNT
    case OpFX33 => m.i + 3 <= MEMORY_SIZE
    case OpFX55 => m.i + X(op) < MEMORY_SIZE
    case OpFX65 => m.i + X(op) < MEMORY_SIZE
    case _ => true
  }

  /** Advance past the next instruction. */
  function Skip(m: Machine): Machine
  {
    m.(pc := Wrap16(m.pc + 2))
  }

  /** Every register other than `x` keeps its value (VF included). */
  predicate RegistersKept(m: Machine, r: Machine, x: Nibble)
    requires Valid(m) && Valid(r)
  {
    forall k :: 0 <= k < REGISTER_COUNT && k != x ==> r.v[k] == m.v[k]
  }

  /** Registers other than `x` and VF keep their values. */
  predicate OthersKept(m: Machine, r: Machine, x: Nibble)
    requires Valid(m) && Valid(r)
  {
    forall k :: 0 <= k < REGISTER_COUNT && k != x && k != 0xF ==> r.v[k] == m.v[k]
  }

  /** 00E0: clear the display. */
  function ClearScreen(m: Machine): (r: Machine)
    requires Valid(m)
    ensures Valid(r)
    ensures forall c :: 0 <= c < DISPLAY_CELLS ==> !r.display[c]
    ensures r == m.(display := r.display)
  {
    m.(display := seq(DISPLAY_CELLS, _ => false))
  }

  /** 00EE: pop the return address; with an empty stack nothing changes (stack underflow). */
  function Return(m: Machine): (r: Machine)
    requires Valid(m)
    ensures Valid(r)
    ensures m.sp == 0 ==> r == m
    ensures m.sp > 0 ==> r.sp + 1 == m.sp && r.pc == m.stack[r.sp] && r == m.(sp := r.sp, pc := r.pc)
  {
    if m.sp == 0 then m
    else m.(sp := m.sp - 1, pc := m.stack[m.sp - 1])
  }

  /** 1NNN: jump. */
  function Jump(m: Machine, op: Word): (r: Machine)
    requires Valid(m)
    ensures Valid(r)
    ensures r.pc < 0x1000 && r.pc + 0x1000 * High(op) == op
    ensures r == m.(pc := r.pc)
  {
    m.(pc := NNN(op))
  }

  /** 2NNN: push the return address and jump; with a full stack nothing changes (stack overflow). */
  function Call(m: Machine, op: Word): (r: Machine)
    requires Valid(m)
    ensures Valid(r)
    ensures m.sp == STACK_SIZE ==> r == m
    ensures m.sp < STACK_SIZE ==>
      && r.sp == m.sp + 1 && r.stack[m.sp] == m.pc && r.pc == NNN(op)
      && (forall k :: 0 <= k < STACK_SIZE && k != m.sp ==> r.stack[k] == m.stack[k])
      && r == m.(sp := r.sp, stack := r.stack, pc := r.pc)
  {
    if m.sp >= STACK_SIZE then m
    else m.(stack := m.stack[m.sp := m.pc], sp := m.sp + 1, pc := NNN(op))
  }

  /** 3XKK: skip if Vx equals the immediate. */
  function SkipIfEqualByte(m: Machine, op: Word): (r: Machine)
    requires Valid(m)
    ensures Valid(r)
    ensures r == m || r == Skip(m)
    ensures r == Skip(m) <==> m.v[X(op)] == KK(op)
  {
    if m.v[X(op)] == KK(op) then Skip(m) else m
  }

  /** 4XKK: skip if Vx differs from the immediate. */
  function SkipIfNotEqualByte(m: Machine, op: Word): (r: Machine)
    requires Valid(m)
    ensures Valid(r)
    ensures r == m || r == Skip(m)
    ensures r == Skip(m) <==> m.v[X(op)] != KK(op)
  {
    if m.v[X(op)] != KK(op) then Skip(m) else m
  }

  /** 5XY0: skip if Vx equals Vy (the low nibble is not examined). */
  function SkipIfEqualRegister(m: Machine, op: Word): (r: Machine)
    requires Valid(m)
    ensures Valid(r)
    ensures r == m || r == Skip(m)
    ensures r == Skip(m) <==> m.v[X(op)] == m.v[Y(op)]
  {
    if m.v[X(op)] == m.v[Y(op)] then Skip(m) else m
  }

  /** 6XKK: load the immediate into Vx. */
  function LoadByte(m: Machine, op: Word): (r: Machine)
    requires Valid(m)
    ensures Valid(r)
    ensures r.v[X(op)] == KK(op) && RegistersKept(m, r, X(op))
    ensures r == m.(v := r.v)
  {
    m.(v := m.v[X(op) := KK(op)])
  }

  /** 7XKK: add the immediate to Vx, modulo 256, leaving VF alone. */
  function AddByte(m: Machine, op: Word): (r: Machine)
    requires Valid(m)
    ensures Valid(r)
    ensures (r.v[X(op)] - m.v[X(op)] - KK(op)) % 0x100 == 0
    ensures RegistersKept(m, r, X(op)) && r == m.(v := r.v)
  {
    var x := X(op);
    m.(v := m.v[x := Wrap8(m.v[x] + KK(op))])
  }

  /** 8XY0: Vx := Vy. */
  function Copy(m: Machine, op: Word): (r: Machine)
    requires Valid(m)
    ensures Valid(r)
    ensures r.v[X(op)] == m.v[Y(op)]
    ensures RegistersKept(m, r, X(op)) && r == m.(v := r.v)
  {
    m.(v := m.v[X(op) := m.v[Y(op)]])
  }

  /** 8XY1: Vx := Vx | Vy. */
  function Or(m: Machine, op: Word): (r: Machine)
    requires Valid(m)
    ensures Valid(r)
    ensures forall k: nat :: k < 8 ==> (Bit(r.v[X(op)], k) <==> Bit(m.v[X(op)], k) || Bit(m.v[Y(op)], k))
    ensures RegistersKept(m, r, X(op)) && r == m.(v := r.v)
  {
    var x, y := X(op), Y(op);
    m.(v := m.v[x := Or8(m.v[x], m.v[y])])
  }

  /** 8XY2: Vx := Vx & Vy. */
  function And(m: Machine, op: Word): (r: Machine)
    requires Valid(m)
    ensures Valid(r)
    ensures forall k: nat :: k < 8 ==> (Bit(r.v[X(op)], k) <==> Bit(m.v[X(op)], k) && Bit(m.v[Y(op)], k))
    ensures RegistersKept(m, r, X(op)) && r == m.(v := r.v)
  {
    var x, y := X(op), Y(op);
    m.(v := m.v[x := And8(m.v[x], m.v[y])])
  }

  /** 8XY3: Vx := Vx ^ Vy. */
  function Xor(m: Machine, op: Word): (r: Machine)
    requires Valid(m)
    ensures Valid(r)
    ensures forall k: nat :: k < 8 ==> (Bit(r.v[X(op)], k) <==> Bit(m.v[X(op)], k) != Bit(m.v[Y(op)], k))
    ensures RegistersKept(m, r, X(op)) && r == m.(v := r.v)
  {
    var x, y := X(op), Y(op);
    m.(v := m.v[x := Xor8(m.v[x], m.v[y])])
  }

  /**
   * 8XY4: add with carry. The unmasked sum is taken first; VF is written, then
   * Vx, so with X = F the low byte of the sum overwrites the carry.
   */
  function AddWithCarry(m: Machine, op: Word): (r: Machine)
    requires Valid(m)
    ensures Valid(r)
    ensures X(op) != 0xF ==>
      var vx: int, vy: int, carry: int := m.v[X(op)], m.v[Y(op)], r.v[0xF];
      carry <= 1 && r.v[X(op)] + 0x100 * carry == vx + vy
    ensures X(op) == 0xF ==> var vf: int := m.v[0xF]; r.v[0xF] == Wrap8(vf + m.v[Y(op)])
    ensures OthersKept(m, r, X(op)) && r == m.(v := r.v)
  {
    var x, y := X(op), Y(op);
    var sum: int := m.v[x] as int + m.v[y];
    var flagged := m.v[0xF := Flag(sum > 0xFF)];
    m.(v := flagged[x := Wrap8(sum)])
  }

  /**
   * 8XY5: Vx := Vx - Vy, VF := (Vx > Vy). VF is written first and the
   * subtraction then reads the updated registers.
   */
  function SubtractWithBorrow(m: Machine, op: Word): (r: Machine)
    requires Valid(m)
    ensures Valid(r)
    ensures X(op) != 0xF && Y(op) != 0xF ==>
      var vx: int, vy: int := m.v[X(op)], m.v[Y(op)];
      && (r.v[0xF] == 1 <==> vx > vy) && r.v[0xF] <= 1
      && (vx >= vy ==> r.v[X(op)] + vy == vx)
      && (vx < vy ==> r.v[X(op)] + vy == vx + 0x100)
    ensures OthersKept(m, r, X(op)) && r == m.(v := r.v)
  {
    var x, y := X(op), Y(op);
    var flagged := m.v[0xF := Flag(m.v[x] > m.v[y])];
    m.(v := flagged[x := Wrap8(flagged[x] as int - flagged[y])])
  }

  /** 8XY6: VF := bit 0 of Vx, then Vx := Vx >> 1. Vy is not read. */
  function ShiftRight(m: Machine, op: Word): (r: Machine)
    requires Valid(m)
    ensures Valid(r)
    ensures X(op) != 0xF ==> var shifted: int := r.v[X(op)]; r.v[0xF] <= 1 && 2 * shifted + r.v[0xF] == m.v[X(op)]
    ensures X(op) == 0xF ==> r.v[0xF] == 0
    ensures OthersKept(m, r, X(op)) && r == m.(v := r.v)
  {
    var x := X(op);
    var flagged := m.v[0xF := m.v[x] % 2];
    m.(v := flagged[x := flagged[x] / 2])
  }

  /**
   * 8XY7: Vx := Vy - Vx, VF := (Vy > Vx). VF is written first and the
   * subtraction then reads the updated registers.
   */
  function SubtractReverse(m: Machine, op: Word): (r: Machine)
    requires Valid(m)
    ensures Valid(r)
    ensures X(op) != 0xF && Y(op) != 0xF ==>
      var vx: int, vy: int := m.v[X(op)], m.v[Y(op)];
      && (r.v[0xF] == 1 <==> vy > vx) && r.v[0xF] <= 1
      && (vy >= vx ==> r.v[X(op)] + vx == vy)
      && (vy < vx ==> r.v[X(op)] + vx == vy + 0x100)
    ensures OthersKept(m, r, X(op)) && r == m.(v := r.v)
  {
    var x, y := X(op), Y(op);
    var flagged := m.v[0xF := Flag(m.v[y] > m.v[x])];
    m.(v := flagged[x := Wrap8(flagged[y] as int - flagged[x])])
  }

  /** 8XYE: VF := bit 7 of Vx, then Vx := Vx << 1 (as a byte). Vy is not read. */
  function ShiftLeft(m: Machine, op: Word): (r: Machine)
    requires Valid(m)
    ensures Valid(r)
    ensures X(op) != 0xF ==>
      var vx: int, carry: int := m.v[X(op)], r.v[0xF];
      carry <= 1 && r.v[X(op)] + 0x100 * carry == 2 * vx
    ensures X(op) == 0xF ==> r.v[0xF] == 2 * (m.v[0xF] / 0x80)
    ensures OthersKept(m, r, X(op)) && r == m.(v := r.v)
  {
    var x := X(op);
    var flagged := m.v[0xF := m.v[x] / 0x80];
    m.(v := flagged[x := Wrap8(flagged[x] as int * 2)])
  }

  /** 9XY0: skip if Vx differs from Vy; any 9XYn with n != 0 does nothing. */
  function SkipIfNotEqualRegister(m: Machine, op: Word): (r: Machine)
    requires Valid(m)
    ensures Valid(r)
    ensures r == m || r == Skip(m)
    ensures r == Skip(m) <==> N(op) == 0 && m.v[X(op)] != m.v[Y(op)]
  {
    if N(op) == 0 && m.v[X(op)] != m.v[Y(op)] then Skip(m) else m
  }

  /** ANNN: I := NNN. */
  function LoadIndex(m: Machine, op: Word): (r: Machine)
    requires Valid(m)
    ensures Valid(r)
    ensures r.i < 0x1000 && r.i + 0x1000 * High(op) == op
    ensures r == m.(i := r.i)
  {
    m.(i := NNN(op))
  }

  /** BNNN: jump to NNN + V0, kept to 16 bits. */
  function JumpOffset(m: Machine, op: Word): (r: Machine)
    requires Valid(m)
    ensures Valid(r)
    ensures var base: int := m.v[0]; r.pc + 0x1000 * High(op) == op + base
    ensures r == m.(pc := r.pc)
  {
    m.(pc := Wrap16(NNN(op) + m.v[0]))
  }

  /** CXKK: Vx := rand & KK, for the random byte `rand` the caller supplies. */
  function Random(m: Machine, op: Word, rand: Byte): (r: Machine)
    requires Valid(m)
    ensures Valid(r)
    ensures forall k: nat :: k < 8 ==> (Bit(r.v[X(op)], k) <==> Bit(rand, k) && Bit(KK(op), k))
    ensures forall k: nat :: Bit(r.v[X(op)], k) ==> Bit(KK(op), k)
    ensures RegistersKept(m, r, X(op)) && r == m.(v := r.v)
  {
    var x := X(op);
    AndWithinMask(rand, KK(op));
    m.(v := m.v[x := And8(rand, KK(op))])
  }

  /** The N sprite rows that DXYN draws, read from memory at I. */
  function SpriteAt(m: Machine, op: Word): (s: seq<Byte>)
    requires Valid(m) && Defined(m, OpDXYN, op)
    ensures |s| == N(op) && forall row :: 0 <= row < |s| ==> s[row] == m.memory[m.i + row]
  {
    if N(op) == 0 then [] else m.memory[m.i..m.i + N(op)]
  }

  lemma DrawReference(d: seq<bool>, sprite: seq<Byte>, v: seq<Byte>, x: Nibble, y: Nibble)
    requires |d| == DISPLAY_CELLS && |v| == REGISTER_COUNT && |sprite| < 0x10
    ensures x != 0xF && y != 0xF ==>
      && Sprite.Draw(d, sprite, v, x, y).display == Sprite.XorSprite(d, sprite, v[x], v[y])
      && (Sprite.Draw(d, sprite, v, x, y).collided <==> Sprite.Collides(d, sprite, v[x], v[y]))
  {
    if x != 0xF && y != 0xF {
      Sprite.DrawMatchesReference(d, sprite, v, x, y);
    }
  }

  /**
   * DXYN: draw the N-row sprite at I at (Vx, Vy) with wrap-around; VF is reset
   * to 0 and raised when a lit cell is turned off. With X and Y other than F
   * this toggles exactly the cells the sprite covers.
   */
  function DrawSprite(m: Machine, op: Word): (r: Machine)
    requires Valid(m) && Defined(m, OpDXYN, op)
    ensures Valid(r)
    ensures X(op) != 0xF && Y(op) != 0xF ==>
      var sprite := SpriteAt(m, op);
      && r.display == Sprite.XorSprite(m.display, sprite, m.v[X(op)], m.v[Y(op)])
      && r.v[0xF] == Flag(Sprite.Collides(m.display, sprite, m.v[X(op)], m.v[Y(op)]))
    ensures r.v[0xF] <= 1
    ensures RegistersKept(m, r, 0xF) && r == m.(display := r.display, v := r.v)
  {
    var x, y := X(op), Y(op);
    var canvas := Sprite.Draw(m.display, SpriteAt(m, op), m.v, x, y);
    DrawReference(m.display, SpriteAt(m, op), m.v, x, y);
    m.(display := canvas.display, v := m.v[0xF := Flag(canvas.collided)])
  }

  /** EX9E: skip if the key numbered Vx is pressed. */
  function SkipIfKey(m: Machine, op: Word): (r: Machine)
    requires Valid(m) && Defined(m, OpEX9E, op)
    ensures Valid(r)
    ensures r == m || r == Skip(m)
    ensures r == Skip(m) <==> m.keypad[m.v[X(op)]]
  {
    if m.keypad[m.v[X(op)]] then Skip(m) else m
  }

  /** EXA1: skip if the key numbered Vx is not pressed. */
  function SkipIfNotKey(m: Machine, op: Word): (r: Machine)
    requires Valid(m) && Defined(m, OpEXA1, op)
    ensures Valid(r)
    ensures r == m || r == Skip(m)
    ensures r == Skip(m) <==> !m.keypad[m.v[X(op)]]
  {
    if !m.keypad[m.v[X(op)]] then Skip(m) else m
  }

  /** FX07: Vx := delay timer. */
  function ReadDelay(m: Machine, op: Word): (r: Machine)
    requires Valid(m)
    ensures Valid(r)
    ensures r.v[X(op)] == m.delayTimer
    ensures RegistersKept(m, r, X(op)) && r == m.(v := r.v)
  {
    m.(v := m.v[X(op) := m.delayTimer])
  }

  /** The lowest-numbered pressed key at or above `from`, scanning upwards. */
  function FirstPressed(keys: seq<bool>, from: nat): (r: Option<nat>)
    requires from <= |keys|
    ensures r.Some? ==> from <= r.value < |keys| && keys[r.value]
    ensures r.Some? ==> forall k :: from <= k < r.value ==> !keys[k]
    ensures r.None? ==> forall k :: from <= k < |keys| ==> !keys[k]
    decreases |keys| - from
  {
    if from == |keys| then None
    else if keys[from] then Some(from)
    else FirstPressed(keys, from + 1)
  }

  /**
   * FX0A: store the lowest pressed key in Vx; with no key pressed, step the
   * program counter back so the same instruction runs again.
   */
  function WaitKey(m: Machine, op: Word): (r: Machine)
    requires Valid(m)
    ensures Valid(r)
    ensures (exists k :: 0 <= k < KEY_COUNT && m.keypad[k]) ==>
      var key := r.v[X(op)];
      && key < KEY_COUNT && m.keypad[key] && (forall k :: 0 <= k < key ==> !m.keypad[k])
      && r == m.(v := r.v) && RegistersKept(m, r, X(op))
    ensures (forall k :: 0 <= k < KEY_COUNT ==> !m.keypad[k]) ==>
      Wrap16(r.pc + 2) == m.pc && r == m.(pc := r.pc)
  {
    match FirstPressed(m.keypad, 0)
    case Some(k) => m.(v := m.v[X(op) := k])
    case None => m.(pc := Wrap16(m.pc - 2))
  }

  /** FX15: delay timer := Vx. */
  function SetDelay(m: Machine, op: Word): (r: Machine)
    requires Valid(m)
    ensures Valid(r)
    ensures r.delayTimer == m.v[X(op)]
    ensures r == m.(delayTimer := r.delayTimer)
  {
    m.(delayTimer := m.v[X(op)])
  }

  /** FX18: sound timer := Vx. */
  function SetSound(m: Machine, op: Word): (r: Machine)
    requires Valid(m)
    ensures Valid(r)
    ensures r.soundTimer == m.v[X(op)]
    ensures r == m.(soundTimer := r.soundTimer)
  {
    m.(soundTimer := m.v[X(op)])
  }

  /** FX1E: I := I + Vx, kept to 16 bits. */
  function AddIndex(m: Machine, op: Word): (r: Machine)
    requires Valid(m)
    ensures Valid(r)
    ensures (r.i - m.i - m.v[X(op)]) % 0x1_0000 == 0
    ensures r == m.(i := r.i)
  {
    m.(i := Wrap16(m.i + m.v[X(op)]))
  }

  /** FX29: point I at the glyph of the digit in Vx. */
  function FontIndex(m: Machine, op: Word): (r: Machine)
    requires Valid(m)
    ensures Valid(r)
    ensures var digit: int := m.v[X(op)]; r.i == FONT_ADDRESS + GLYPH_SIZE * digit
    ensures r == m.(i := r.i)
  {
    m.(i := Wrap16(FONT_ADDRESS + m.v[X(op)] * GLYPH_SIZE))
  }

  /** FX33: write the hundreds, tens and ones digits of Vx to I, I+1, I+2. */
  function StoreBcd(m: Machine, op: Word): (r: Machine)
    requires Valid(m) && Defined(m, OpFX33, op)
    ensures Valid(r)
    ensures r.memory[m.i] < 10 && r.memory[m.i + 1] < 10 && r.memory[m.i + 2] < 10
    ensures var hundreds: int, tens: int, ones: int := r.memory[m.i], r.memory[m.i + 1], r.memory[m.i + 2];
      100 * hundreds + 10 * tens + ones == m.v[X(op)]
    ensures forall a :: 0 <= a < MEMORY_SIZE && !(m.i <= a < m.i + 3) ==> r.memory[a] == m.memory[a]
    ensures r == m.(memory := r.memory)
  {
    var value := m.v[X(op)];
    m.(memory := m.memory[m.i := value / 100][m.i + 1 := value / 10 % 10][m.i + 2 := value % 10])
  }

  /** FX55: copy V0..Vx to memory at I..I+x; I is not changed. */
  function StoreRegisters(m: Machine, op: Word): (r: Machine)
    requires Valid(m) && Defined(m, OpFX55, op)
    ensures Valid(r)
    ensures forall k :: 0 <= k <= X(op) ==> r.memory[m.i + k] == m.v[k]
    ensures forall a :: 0 <= a < MEMORY_SIZE && !(m.i <= a <= m.i + X(op)) ==> r.memory[a] == m.memory[a]
    ensures r == m.(memory := r.memory)
  {
    var x := X(op);
    m.(memory := m.memory[..m.i] + m.v[..x + 1] + m.memory[m.i + x + 1..])
  }

  /** FX65: copy memory at I..I+x to V0..Vx; I is not changed. */
  function LoadRegisters(m: Machine, op: Word): (r: Machine)
    requires Valid(m) && Defined(m, OpFX65, op)
    ensures Valid(r)
    ensures forall k :: 0 <= k <= X(op) ==> r.v[k] == m.memory[m.i + k]
    ensures forall k :: X(op) < k < REGISTER_COUNT ==> r.v[k] == m.v[k]
    ensures r == m.(v := r.v)
  {
    var x := X(op);
    m.(v := m.memory[m.i..m.i + x + 1] + m.v[x + 1..])
  }

  /** Run routine `h` on the instruction word `op`. */
  function Execute(m: Machine, h: Handler, op: Word, rand: Byte): (r: Machine)
    requires Valid(m) && Defined(m, h, op)
    ensures Valid(r)
    ensures r.keypad == m.keypad
    ensures h != OpFX33 && h != OpFX55 ==> r.memory == m.memory
    ensures h != Op00E0 && h != OpDXYN ==> r.display == m.display
    ensures h != OpFX15 ==> r.delayTimer == m.delayTimer
    ensures h != OpFX18 ==> r.soundTimer == m.soundTimer
    ensures h != Op00EE && h != Op2NNN ==> r.sp == m.sp && r.stack == m.stack
  {
    match h
    case Op00E0 => ClearScreen(m)
    case Op00EE => Return(m)
    case Op1NNN => Jump(m, op)
    case Op2NNN => Call(m, op)
    case Op3XKK => SkipIfEqualByte(m, op)
    case Op4XKK => SkipIfNotEqualByte(m, op)
    case Op5XY0 => SkipIfEqualRegister(m, op)
    case Op6XKK => LoadByte(m, op)
    case Op7XKK => AddByte(m, op)
    case Op8XY0 => Copy(m, op)
    case Op8XY1 => Or(m, op)
    case Op8XY2 => And(m, op)
    case Op8XY3 => Xor(m, op)
    case Op8XY4 => AddWithCarry(m, op)
    case Op8XY5 => SubtractWithBorrow(m, op)
    case Op8XY6 => ShiftRight(m, op)
    case Op8XY7 => SubtractReverse(m, op)
    case Op8XYE => ShiftLeft(m, op)
    case Op9XY0 => SkipIfNotEqualRegister(m, op)
    case OpANNN => LoadIndex(m, op)
    case OpBNNN => JumpOffset(m, op)
    case OpCXKK => Random(m, op, rand)
    case OpDXYN => DrawSprite(m, op)
    case OpEX9E => SkipIfKey(m, op)
    case OpEXA1 => SkipIfNotKey(m, op)
    case OpFX07 => ReadDelay(m, op)
    case OpFX0A => WaitKey(m, op)
    case OpFX15 => SetDelay(m, op)
    case OpFX18 => SetSound(m, op)
    case OpFX1E => AddIndex(m, op)
    case OpFX29 => FontIndex(m, op)
    case OpFX33 => StoreBcd(m, op)
    case OpFX55 => StoreRegisters(m, op)
    case OpFX65 => LoadRegisters(m, op)
  }
}
