/** Properties of the register arithmetic and logic family 8XYn, of 7XKK and of the masked random byte of CXKK. */
module AluProperties {
  import opened Base
  import opened State
  import opened Decoder
  import opened Handlers
  import opened Interpreter
  import opened Bits

  /** The instruction word `op` with its Y field replaced by `y`. */
  function WithY(op: Word, y: Nibble): (r: Word)
    ensures High(r) == High(op) && X(r) == X(op) && Y(r) == y && N(r) == N(op)
  {
    High(op) * 0x1000 + X(op) * 0x100 + y * 0x10 + N(op)
  }

  /** 8XY4 through a whole cycle: the sum modulo 256 and a carry of 1 exactly when the sum exceeds 255. */
  lemma AddWithCarryCycle(m: Machine, rand: Byte)
    requires Ready(m) && Dispatch(Fetch(m)) == Some(Op8XY4) && X(Fetch(m)) != 0xF
    ensures var op := Fetch(m);
      var sum := m.v[X(op)] as int + m.v[Y(op)];
      && Cycle(m, rand).v[X(op)] == sum % 0x100
      && (Cycle(m, rand).v[0xF] == 1 <==> sum > 0xFF)
      && (Cycle(m, rand).v[0xF] == 0 <==> sum <= 0xFF)
  {
  }

  /** 8XY5 on equal operands: the comparison is strict, so the flag is 0 and so is the result. */
  lemma SubtractEqualOperands(m: Machine, op: Word)
    requires Valid(m) && X(op) != 0xF && Y(op) != 0xF && m.v[X(op)] == m.v[Y(op)]
    ensures SubtractWithBorrow(m, op).v[X(op)] == 0 && SubtractWithBorrow(m, op).v[0xF] == 0
  {
  }

  /** 8XY5 and 8XY7 on the same operands give results that add up to 0 modulo 256. */
  lemma SubtractionsNegateEachOther(m: Machine, op: Word)
    requires Valid(m) && X(op) != 0xF && Y(op) != 0xF
    ensures (SubtractWithBorrow(m, op).v[X(op)] as int + SubtractReverse(m, op).v[X(op)]) % 0x100 == 0
  {
  }

  /**
   * Adding Vy with 8XY4 and then subtracting it with 8XY5 (same X and Y,
   * neither F, X != Y) gives Vx back; the carry and the no-borrow flag agree
   * exactly when the sum stayed in range or Vy is zero.
   */
  lemma AddThenSubtract(m: Machine, add: Word, sub: Word)
    requires Valid(m) && X(add) == X(sub) && Y(add) == Y(sub)
    requires X(add) != 0xF && Y(add) != 0xF && X(add) != Y(add)
    ensures SubtractWithBorrow(AddWithCarry(m, add), sub).v[X(add)] == m.v[X(add)]
  {
  }

  /** 8XY6 and 8XYE do not read Y: any Y field gives the same result. */
  lemma ShiftsIgnoreY(m: Machine, op: Word, y: Nibble)
    requires Valid(m)
    ensures ShiftRight(m, WithY(op, y)) == ShiftRight(m, op)
    ensures ShiftLeft(m, WithY(op, y)) == ShiftLeft(m, op)
  {
  }

  /** 8XY6 then 8XYE on the same register clears bit 0 and nothing else. */
  lemma ShiftRightThenLeft(m: Machine, op: Word)
    requires Valid(m) && X(op) != 0xF
    ensures ShiftLeft(ShiftRight(m, op), op).v[X(op)] == m.v[X(op)] - m.v[X(op)] % 2
  {
  }

  /**
   * 8XY1, 8XY2 and 8XY3 on the same operands, read as numbers: OR plus AND is
   * VX + VY, and so is XOR plus twice AND.
   */
  lemma LogicSums(m: Machine, op: Word)
    requires Valid(m)
    ensures var vx: int, vy: int, or: int, and: int := m.v[X(op)], m.v[Y(op)], Or(m, op).v[X(op)], And(m, op).v[X(op)];
      or + and == vx + vy
    ensures var vx: int, vy: int, xor: int, and: int := m.v[X(op)], m.v[Y(op)], Xor(m, op).v[X(op)], And(m, op).v[X(op)];
      xor + 2 * and == vx + vy
  {
    assert Pow2(8) == 0x100;
    BitwiseSums(m.v[X(op)], m.v[Y(op)], 8);
  }

  /**
   * CXKK keeps the random byte's bits under the mask: with KK = FF it stores the
   * random byte unchanged, with KK = 0 it stores 0, and the stored value never
   * exceeds KK or the random byte.
   */
  lemma RandomMask(m: Machine, op: Word, rand: Byte)
    requires Valid(m)
    ensures Random(m, op, rand).v[X(op)] <= KK(op) && Random(m, op, rand).v[X(op)] <= rand
    ensures KK(op) == 0xFF ==> Random(m, op, rand).v[X(op)] == rand
    ensures KK(op) == 0 ==> Random(m, op, rand).v[X(op)] == 0
  {
    AndMasks(rand, KK(op));
  }

  /** 8XY3 twice with X != Y gives Vx back. */
  lemma XorTwiceRestores(m: Machine, op: Word)
    requires Valid(m) && X(op) != Y(op)
    ensures Xor(Xor(m, op), op) == m
  {
    XorTwice(m.v[X(op)], m.v[Y(op)]);
    assert Xor(Xor(m, op), op).v == m.v;
  }

  /** 7XKK adds without touching the flag register (for X other than F). */
  lemma AddByteKeepsFlag(m: Machine, op: Word)
    requires Valid(m) && X(op) != 0xF
    ensures AddByte(m, op).v[0xF] == m.v[0xF]
    ensures AddByte(m, op).v[X(op)] == (m.v[X(op)] + KK(op)) % 0x100
  {
  }

  /** After 8XY0, a 5XY0 on the same registers skips: VX and VY now hold the same value. */
  lemma CopyThenSkipEqual(m: Machine, copy: Word, skip: Word)
    requires Valid(m) && X(copy) == X(skip) && Y(copy) == Y(skip)
    ensures SkipIfEqualRegister(Copy(m, copy), skip) == Skip(Copy(m, copy))
  {
  }
}
