/** The index register and the memory-block instructions ANNN, BNNN, FX1E, FX29, FX33, FX55, FX65. */
module MemoryProperties {
  import opened Base
  import opened State
  import opened Decoder
  import opened Handlers
  import opened Interpreter

  /** ANNN loads I with the 12-bit immediate. */
  lemma LoadIndexCycle(m: Machine, rand: Byte)
    requires Ready(m) && High(Fetch(m)) == 0xA
    ensures Cycle(m, rand).i == Fetch(m) % 0x1000
  {
  }

  /** BNNN never needs the 16-bit wrap: NNN + V0 is at most 0xFFF + 0xFF. */
  lemma JumpOffsetExact(m: Machine, op: Word)
    requires Valid(m)
    ensures JumpOffset(m, op).pc == NNN(op) + m.v[0]
  {
  }

  /** FX1E wraps I at 16 bits: 0xFFFF + 1 is 0. */
  lemma AddIndexWraps(m: Machine, op: Word)
    requires Valid(m) && m.i == 0xFFFF && m.v[X(op)] == 1
    ensures AddIndex(m, op).i == 0
  {
  }

  /** FX29 points I at 0x50 + 5 * Vx; for digit A that is 0x82. */
  lemma FontIndexAddress(m: Machine, op: Word)
    requires Valid(m)
    ensures FontIndex(m, op).i == FONT_ADDRESS + GLYPH_SIZE * m.v[X(op)]
    ensures m.v[X(op)] == 0xA ==> FontIndex(m, op).i == 0x82
  {
  }

  /**
   * On a machine whose glyph table is intact, FX29 on a digit leaves I at that
   * digit's five glyph bytes.
   */
  lemma FontIndexFindsGlyph(m: Machine, op: Word)
    requires Valid(m) && m.v[X(op)] < 0x10
    requires m.memory[FONT_ADDRESS..FONT_ADDRESS + |FONT|] == FONT
    ensures var r := FontIndex(m, op); var start := GLYPH_SIZE * m.v[X(op)];
      r.memory[r.i..r.i + GLYPH_SIZE] == FONT[start..start + GLYPH_SIZE]
  {
    var start := 5 * m.v[X(op)];
    assert start + 5 <= |FONT|;
    var r := FontIndex(m, op);
    assert r.i == FONT_ADDRESS + start;
    assert r.memory == m.memory;
    calc {
      r.memory[r.i..r.i + 5];
      m.memory[FONT_ADDRESS..FONT_ADDRESS + |FONT|][start..start + 5];
      FONT[start..start + 5];
    }
  }

  /** FX33 on 157 writes 1, 5, 7. */
  lemma StoreBcdExample(m: Machine, op: Word)
    requires Valid(m) && Defined(m, OpFX33, op) && m.v[X(op)] == 157
    ensures var r := StoreBcd(m, op); r.memory[m.i] == 1 && r.memory[m.i + 1] == 5 && r.memory[m.i + 2] == 7
  {
  }

  /** FX55 followed by FX65 with the same X and I gives back every register and keeps the stored block. */
  lemma StoreThenLoad(m: Machine, store: Word, load: Word)
    requires Valid(m) && X(store) == X(load) && Defined(m, OpFX55, store)
    ensures Defined(StoreRegisters(m, store), OpFX65, load)
    ensures LoadRegisters(StoreRegisters(m, store), load) == StoreRegisters(m, store)
  {
    var s := StoreRegisters(m, store);
    var x := X(store);
    assert LoadRegisters(s, load).v == m.v by {
      assert s.memory[m.i..m.i + x + 1] == m.v[..x + 1];
    }
  }

  /** FX65 followed by FX55 with the same X and I leaves memory as it was. */
  lemma LoadThenStore(m: Machine, load: Word, store: Word)
    requires Valid(m) && X(store) == X(load) && Defined(m, OpFX65, load)
    ensures Defined(LoadRegisters(m, load), OpFX55, store)
    ensures StoreRegisters(LoadRegisters(m, load), store).memory == m.memory
  {
    var l := LoadRegisters(m, load);
    var x := X(load);
    assert l.v[..x + 1] == m.memory[m.i..m.i + x + 1];
    assert m.memory == m.memory[..m.i] + m.memory[m.i..m.i + x + 1] + m.memory[m.i + x + 1..];
  }
}
