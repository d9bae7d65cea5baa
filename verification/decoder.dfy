/**
 * Decoding of a 16-bit instruction word: the operand fields and the two-level
 * dispatch table (a main table indexed by the high nibble, and four sub-tables
 * for the families 0x0, 0x8 and 0xE, selected by the low nibble, and 0xF,
 * selected by the low byte).
 */
module Decoder {
  import opened Base

  /** Bits 15-12: the main-table selector. */
  function High(op: Word): Nibble { op / 0x1000 }
  /** Bits 11-8: the first register operand. */
  function X(op: Word): Nibble { op / 0x100 % 0x10 }
  /** Bits 7-4: the second register operand. */
  function Y(op: Word): Nibble { op / 0x10 % 0x10 }
  /** Bits 3-0: a sub-table selector or a sprite height. */
  function N(op: Word): Nibble { op % 0x10 }
  /** Bits 7-0: an immediate byte, or the selector of the 0xF family. */
  function KK(op: Word): Byte { op % 0x100 }
  /** Bits 11-0: an immediate address. */
  function NNN(op: Word): Word { op % 0x1000 }

  /** The 34 instruction routines, named after the pattern they are registered for. */
  datatype Handler =
    | Op00E0 | Op00EE | Op1NNN | Op2NNN | Op3XKK | Op4XKK | Op5XY0 | Op6XKK | Op7XKK
    | Op8XY0 | Op8XY1 | Op8XY2 | Op8XY3 | Op8XY4 | Op8XY5 | Op8XY6 | Op8XY7 | Op8XYE
    | Op9XY0 | OpANNN | OpBNNN | OpCXKK | OpDXYN | OpEX9E | OpEXA1
    | OpFX07 | OpFX0A | OpFX15 | OpFX18 | OpFX1E | OpFX29 | OpFX33 | OpFX55 | OpFX65

  /** A main-table slot: a routine, or one of the four sub-tables. */
  datatype Entry = Direct(handler: Handler) | Sub0 | Sub8 | SubE | SubF

  /** Slot counts of the sub-tables; a selector at or above the count has no slot. */
  const TABLE0_SIZE := 0xE + 1
  const TABLE8_SIZE := 0xE + 1
  const TABLEE_SIZE := 0xE + 1
  const TABLEF_SIZE := 0x65 + 1

  /**
   * The main table, indexed by the high nibble: every slot is filled, the
   * families 0x0, 0x8, 0xE and 0xF go to a sub-table, and every other slot holds
   * the routine registered for that nibble.
   */
  function MainTable(high: Nibble): (r: Option<Entry>)
    ensures r.Some?
    ensures !r.value.Direct? <==> high == 0x0 || high == 0x8 || high == 0xE || high == 0xF
    ensures r.value.Direct? ==> Template(r.value.handler) == high * 0x1000
  {
    match high
    case 0x0 => Some(Sub0)
    case 0x1 => Some(Direct(Op1NNN))
    case 0x2 => Some(Direct(Op2NNN))
    case 0x3 => Some(Direct(Op3XKK))
    case 0x4 => Some(Direct(Op4XKK))
    case 0x5 => Some(Direct(Op5XY0))
    case 0x6 => Some(Direct(Op6XKK))
    case 0x7 => Some(Direct(Op7XKK))
    case 0x8 => Some(Sub8)
    case 0x9 => Some(Direct(Op9XY0))
    case 0xA => Some(Direct(OpANNN))
    case 0xB => Some(Direct(OpBNNN))
    case 0xC => Some(Direct(OpCXKK))
    case 0xD => Some(Direct(OpDXYN))
    case 0xE => Some(SubE)
    case 0xF => Some(SubF)
  }

  /** The sub-table of family 0x0, by the low nibble: a filled slot holds the routine registered for it. */
  function Lookup0(sel: nat): (r: Option<Handler>)
    ensures r.Some? ==> Template(r.value) == sel
  {
    if sel >= TABLE0_SIZE then None
    else if sel == 0x0 then Some(Op00E0)
    else if sel == 0xE then Some(Op00EE)
    else None
  }

  /** The sub-table of family 0x8, by the low nibble: a filled slot holds the routine registered for it. */
  function Lookup8(sel: nat): (r: Option<Handler>)
    ensures r.Some? ==> Template(r.value) == 0x8000 + sel
  {
    if sel >= TABLE8_SIZE then None
    else match sel
      case 0x0 => Some(Op8XY0)
      case 0x1 => Some(Op8XY1)
      case 0x2 => Some(Op8XY2)
      case 0x3 => Some(Op8XY3)
      case 0x4 => Some(Op8XY4)
      case 0x5 => Some(Op8XY5)
      case 0x6 => Some(Op8XY6)
      case 0x7 => Some(Op8XY7)
      case 0xE => Some(Op8XYE)
      case _ => None
  }

  /** The sub-table of family 0xE, by the low nibble: a filled slot holds the routine registered for it. */
  function LookupE(sel: nat): (r: Option<Handler>)
    ensures r.Some? ==> Template(r.value) == 0xE000 + sel
  {
    if sel >= TABLEE_SIZE then None
    else if sel == 0xE then Some(OpEX9E)
    else if sel == 0x1 then Some(OpEXA1)
    else None
  }

  /** The sub-table of family 0xF, by the low byte: a filled slot holds the routine registered for it. */
  function LookupF(sel: nat): (r: Option<Handler>)
    ensures r.Some? ==> Template(r.value) == 0xF000 + sel
  {
    if sel >= TABLEF_SIZE then None
    else match sel
      case 0x07 => Some(OpFX07)
      case 0x0A => Some(OpFX0A)
      case 0x15 => Some(OpFX15)
      case 0x18 => Some(OpFX18)
      case 0x1E => Some(OpFX1E)
      case 0x29 => Some(OpFX29)
      case 0x33 => Some(OpFX33)
      case 0x55 => Some(OpFX55)
      case 0x65 => Some(OpFX65)
      case _ => None
  }

  /**
   * The bits of `op` that the tables look at, with every operand bit cleared:
   * the high nibble, plus the low nibble in families 0x0, 0x8 and 0xE and the
   * low byte in family 0xF.
   */
  function Key(op: Word): Word
  {
    var h := High(op);
    if h == 0x0 || h == 0x8 || h == 0xE then h * 0x1000 + N(op)
    else if h == 0xF then h * 0x1000 + KK(op)
    else h * 0x1000
  }

  /** The instruction word a routine is registered for, with all operand bits zero. */
  function Template(h: Handler): Word
  {
    match h
    case Op00E0 => 0x0000
    case Op00EE => 0x000E
    case Op1NNN => 0x1000
    case Op2NNN => 0x2000
    case Op3XKK => 0x3000
    case Op4XKK => 0x4000
    case Op5XY0 => 0x5000
    case Op6XKK => 0x6000
    case Op7XKK => 0x7000
    case Op8XY0 => 0x8000
    case Op8XY1 => 0x8001
    case Op8XY2 => 0x8002
    case Op8XY3 => 0x8003
    case Op8XY4 => 0x8004
    case Op8XY5 => 0x8005
    case Op8XY6 => 0x8006
    case Op8XY7 => 0x8007
    case Op8XYE => 0x800E
    case Op9XY0 => 0x9000
    case OpANNN => 0xA000
    case OpBNNN => 0xB000
    case OpCXKK => 0xC000
    case OpDXYN => 0xD000
    case OpEX9E => 0xE00E
    case OpEXA1 => 0xE001
    case OpFX07 => 0xF007
    case OpFX0A => 0xF00A
    case OpFX15 => 0xF015
    case OpFX18 => 0xF018
    case OpFX1E => 0xF01E
    case OpFX29 => 0xF029
    case OpFX33 => 0xF033
    case OpFX55 => 0xF055
    case OpFX65 => 0xF065
  }

  /**
   * The routine the two tables select for `op`, or `None` when the selected
   * sub-table slot is empty or lies beyond the sub-table. A selected routine is
   * always the one registered for the selector bits of `op`.
   */
  function Dispatch(op: Word): (r: Option<Handler>)
    ensures r.Some? ==> Template(r.value) == Key(op)
  {
    match MainTable(High(op))
    case None => None
    case Some(Direct(h)) => Some(h)
    case Some(Sub0) => Lookup0(N(op))
    case Some(Sub8) => Lookup8(N(op))
    case Some(SubE) => LookupE(N(op))
    case Some(SubF) => LookupF(KK(op))
  }
}
