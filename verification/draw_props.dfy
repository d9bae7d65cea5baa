/** Properties of DXYN on the machine: XOR drawing, collision flag, wrap-around. */
module DrawProperties {
  import opened Base
  import opened State
  import opened Decoder
  import opened Handlers
  import opened Interpreter
  import Sprite

  predicate Blank(display: seq<bool>)
  {
    forall c :: 0 <= c < |display| ==> !display[c]
  }

  /**
   * DXYN twice with the same operands and I (X, Y not F) restores the display,
   * and the second draw reports a collision exactly when some cell the sprite
   * covers was dark before the first.
   */
  lemma DrawTwiceRestores(m: Machine, op: Word)
    requires Valid(m) && Defined(m, OpDXYN, op) && X(op) != 0xF && Y(op) != 0xF
    ensures Defined(DrawSprite(m, op), OpDXYN, op)
    ensures DrawSprite(DrawSprite(m, op), op).display == m.display
    ensures DrawSprite(DrawSprite(m, op), op).v[0xF] == 1
        <==> exists c :: 0 <= c < DISPLAY_CELLS && Sprite.Covers(SpriteAt(m, op), m.v[X(op)], m.v[Y(op)], c) && !m.display[c]
  {
    var once := DrawSprite(m, op);
    assert SpriteAt(once, op) == SpriteAt(m, op);
    assert once.v[X(op)] == m.v[X(op)] && once.v[Y(op)] == m.v[Y(op)];
    Sprite.DrawTwice(m.display, SpriteAt(m, op), m.v, X(op), Y(op));
    Sprite.DrawMatchesReference(m.display, SpriteAt(m, op), m.v, X(op), Y(op));
  }

  /**
   * On a blank display the first draw reports no collision, and drawing the
   * same sprite again reports one exactly when the sprite has a set pixel.
   */
  lemma DrawTwiceOnBlank(m: Machine, op: Word)
    requires Valid(m) && Defined(m, OpDXYN, op) && X(op) != 0xF && Y(op) != 0xF
    requires Blank(m.display)
    ensures DrawSprite(m, op).v[0xF] == 0
    ensures Defined(DrawSprite(m, op), OpDXYN, op)
    ensures DrawSprite(DrawSprite(m, op), op).v[0xF] == 1 <==> Sprite.HasSetPixel(SpriteAt(m, op))
  {
    DrawTwiceRestores(m, op);
    Sprite.CoversSomeCell(SpriteAt(m, op), m.v[X(op)], m.v[Y(op)]);
  }

  /** DXYN with N = 0 draws nothing but still clears VF. */
  lemma EmptySpriteClearsFlag(m: Machine, op: Word)
    requires Valid(m) && N(op) == 0
    ensures DrawSprite(m, op).display == m.display && DrawSprite(m, op).v[0xF] == 0
  {
  }

  /** The reference picture of two rows of two set pixels at (63, 31): the four corners. */
  lemma CornerPicture(d: seq<bool>)
    requires |d| == DISPLAY_CELLS && Blank(d)
    ensures var r := Sprite.XorSprite(d, [0xC0, 0xC0], 63, 31);
      forall c :: 0 <= c < DISPLAY_CELLS ==> (r[c] <==> c in {0, 63, 1984, 2047})
  {
    var sprite: seq<Byte> := [0xC0, 0xC0];
    assert Sprite.Pixel(0xC0, 0) && Sprite.Pixel(0xC0, 1);
    assert forall col :: 2 <= col < 8 ==> !Sprite.Pixel(0xC0, col);
    forall c | 0 <= c < DISPLAY_CELLS
      ensures Sprite.Covers(sprite, 63, 31, c) <==> c in {0, 63, 1984, 2047}
    {
      var row := Sprite.RowOffset(31, c);
      var col := Sprite.ColOffset(63, c);
      if row < 2 && col < 2 {
        Sprite.CellFromOffsets(63, 31, c);
      }
    }
  }

  /**
   * DXYN drawing two rows of two set pixels (bytes C0 C0 at I) at (63, 31) on a
   * blank display wraps to the other edges instead of being clipped: exactly the
   * four corner cells light up, and nothing collides.
   */
  lemma DrawWrapsAtCorner(m: Machine, op: Word)
    requires Valid(m) && Blank(m.display)
    requires X(op) != 0xF && Y(op) != 0xF && N(op) == 2
    requires m.v[X(op)] == 63 && m.v[Y(op)] == 31
    requires m.i + 2 <= MEMORY_SIZE && m.memory[m.i] == 0xC0 && m.memory[m.i + 1] == 0xC0
    ensures Defined(m, OpDXYN, op)
    ensures forall c :: 0 <= c < DISPLAY_CELLS ==> (DrawSprite(m, op).display[c] <==> c in {0, 63, 1984, 2047})
    ensures DrawSprite(m, op).v[0xF] == 0
  {
    assert SpriteAt(m, op) == [0xC0, 0xC0];
    CornerPicture(m.display);
  }
}
