/** Conditional skips and the key wait: how far the program counter moves in one cycle. */
module SkipProperties {
  import opened Base
  import opened State
  import opened Decoder
  import opened Handlers
  import opened Interpreter

  /** The program counter after a cycle on a skip: 4 bytes on when the condition holds, 2 otherwise. */
  predicate SkipsWhen(m: Machine, r: Machine, cond: bool)
  {
    r.pc == (if cond then m.pc + 4 else m.pc + 2)
  }

  /** 3XKK skips exactly when VX equals KK, and changes nothing else. */
  lemma SkipIfEqualByteCycle(m: Machine, rand: Byte)
    requires Ready(m) && High(Fetch(m)) == 0x3
    ensures SkipsWhen(m, Cycle(m, rand), m.v[X(Fetch(m))] == KK(Fetch(m)))
    ensures Cycle(m, rand) == Tick(m.(pc := Cycle(m, rand).pc))
  {
  }

  lemma SkipIfNotEqualByteCycle(m: Machine, rand: Byte)
    requires Ready(m) && High(Fetch(m)) == 0x4
    ensures SkipsWhen(m, Cycle(m, rand), m.v[X(Fetch(m))] != KK(Fetch(m)))
  {
  }

  lemma SkipIfEqualRegisterCycle(m: Machine, rand: Byte)
    requires Ready(m) && High(Fetch(m)) == 0x5
    ensures SkipsWhen(m, Cycle(m, rand), m.v[X(Fetch(m))] == m.v[Y(Fetch(m))])
  {
  }

  /** 9XY0 skips on differing registers; 9XYn with n != 0 never skips. */
  lemma SkipIfNotEqualRegisterCycle(m: Machine, rand: Byte)
    requires Ready(m) && High(Fetch(m)) == 0x9
    ensures SkipsWhen(m, Cycle(m, rand), N(Fetch(m)) == 0 && m.v[X(Fetch(m))] != m.v[Y(Fetch(m))])
    ensures N(Fetch(m)) != 0 ==> Cycle(m, rand) == Tick(m.(pc := m.pc + 2))
  {
  }

  lemma SkipIfKeyCycle(m: Machine, rand: Byte)
    requires Ready(m) && Dispatch(Fetch(m)) == Some(OpEX9E)
    ensures m.v[X(Fetch(m))] < KEY_COUNT
    ensures SkipsWhen(m, Cycle(m, rand), m.keypad[m.v[X(Fetch(m))]])
  {
  }

  lemma SkipIfNotKeyCycle(m: Machine, rand: Byte)
    requires Ready(m) && Dispatch(Fetch(m)) == Some(OpEXA1)
    ensures m.v[X(Fetch(m))] < KEY_COUNT
    ensures SkipsWhen(m, Cycle(m, rand), !m.keypad[m.v[X(Fetch(m))]])
  {
  }

  /** For the same operands, exactly one of 3XKK and 4XKK skips. */
  lemma ByteSkipsComplementary(m: Machine, op: Word)
    requires Valid(m)
    ensures (SkipIfEqualByte(m, op) == m) != (SkipIfNotEqualByte(m, op) == m)
  {
  }

  /** For the same operands and low nibble 0, exactly one of 5XY0 and 9XY0 skips. */
  lemma RegisterSkipsComplementary(m: Machine, op: Word)
    requires Valid(m) && N(op) == 0
    ensures (SkipIfEqualRegister(m, op) == m) != (SkipIfNotEqualRegister(m, op) == m)
  {
  }

  /** For the same key, exactly one of EX9E and EXA1 skips. */
  lemma KeySkipsComplementary(m: Machine, op: Word)
    requires Valid(m) && m.v[X(op)] < KEY_COUNT
    ensures (SkipIfKey(m, op) == m) != (SkipIfNotKey(m, op) == m)
  {
  }

  /** FX0A with no key pressed: the cycle re-arms the same instruction and only the timers move. */
  lemma WaitKeyBlocks(m: Machine, rand: Byte)
    requires Ready(m) && Dispatch(Fetch(m)) == Some(OpFX0A)
    requires forall k :: 0 <= k < KEY_COUNT ==> !m.keypad[k]
    ensures Cycle(m, rand) == Tick(m)
  {
  }

  /** FX0A with some key pressed: Vx receives the lowest pressed key and execution moves on. */
  lemma WaitKeyTakesLowest(m: Machine, rand: Byte, key: nat)
    requires Ready(m) && Dispatch(Fetch(m)) == Some(OpFX0A)
    requires key < KEY_COUNT && m.keypad[key]
    ensures var r := Cycle(m, rand); var got := r.v[X(Fetch(m))];
      && got <= key && m.keypad[got]
      && (forall k :: 0 <= k < got ==> !m.keypad[k])
      && r.pc == m.pc + 2
  {
  }
}
