/** Properties of the two-level dispatch and of what an unregistered instruction does. */
module DispatchProperties {
  import opened Base
  import opened State
  import opened Decoder
  import opened Handlers
  import opened Interpreter

  /** Every main-table slot is filled, so the "unknown opcode" report is never reached. */
  lemma MainTableFull(high: Nibble)
    ensures MainTable(high).Some?
  {
  }

  /**
   * A routine is selected exactly when the selector bits of the word are the
   * bits it is registered for.
   */
  lemma DispatchByKey(op: Word, h: Handler)
    ensures Dispatch(op) == Some(h) <==> Key(op) == Template(h)
  {
    if Key(op) == Template(h) {
      match h
      case Op00E0 =>
      case Op00EE =>
      case _ =>
    }
  }

  /** The registered word of every routine dispatches back to that routine. */
  lemma TemplateDispatches(h: Handler)
    ensures Dispatch(Template(h)) == Some(h)
  {
    DispatchByKey(Template(h), h);
  }

  /**
   * Selectors outside a sub-table select nothing: low nibble F in families
   * 0x0, 0x8 and 0xE, and a low byte above 0x65 in family 0xF.
   */
  lemma OutOfTableSelectors(op: Word)
    ensures (High(op) == 0x0 || High(op) == 0x8 || High(op) == 0xE) && N(op) == 0xF ==> Dispatch(op) == None
    ensures High(op) == 0xF && KK(op) >= TABLEF_SIZE ==> Dispatch(op) == None
  {
  }

  /** Empty slots inside the sub-tables: 8XY8, 00E1 and FX00 among them. */
  lemma EmptySlots(x: Nibble, y: Nibble)
    ensures Dispatch(0x8008 + x * 0x100 + y * 0x10) == None
    ensures Dispatch(0x00E1) == None
    ensures Dispatch(0xF000 + x * 0x100) == None
  {
  }

  /**
   * A cycle on an unregistered instruction only advances the program counter
   * by 2 and ticks the timers.
   */
  lemma UnregisteredIsNoOp(m: Machine, rand: Byte)
    requires Ready(m) && Dispatch(Fetch(m)) == None
    ensures Cycle(m, rand) == Tick(m.(pc := m.pc + 2))
  {
  }
}
