/**
 * Sprite drawing (instruction DXYN). `DrawRows` follows the routine pixel by
 * pixel: rows in order, the eight columns of a row in order, most significant
 * bit first, each set pixel toggling its wrapped display cell and raising the
 * collision flag when that cell was lit. `XorSprite` and `Collides` are the
 * reference picture: every covered cell toggled at once, and a collision iff
 * some covered cell was lit. `DrawMatchesReference` proves the two agree.
 */
module Sprite {
  import opened Base
  import opened State
  import opened Bits

  /** Pixel `col` of a sprite row, counted from the most significant bit. */
  predicate Pixel(b: Byte, col: nat)
    requires col < 8
  {
    Bit(b, 7 - col)
  }

  /** Row-major display index of screen point (x mod 64, y mod 32). */
  function Cell(x: nat, y: nat): (c: nat)
    ensures c < DISPLAY_CELLS
    ensures c % DISPLAY_WIDTH == x % DISPLAY_WIDTH && c / DISPLAY_WIDTH == y % DISPLAY_HEIGHT
  {
    (y % DISPLAY_HEIGHT) * DISPLAY_WIDTH + x % DISPLAY_WIDTH
  }

  /** The display together with the collision flag accumulated so far. */
  datatype Canvas = Canvas(display: seq<bool>, collided: bool)

  /**
   * The value of register `r` as the drawing loop reads it: the loop re-reads
   * the register at every pixel, after VF has been reset, so VF reads as the
   * collision flag accumulated so far.
   */
  function Coord(v: seq<Byte>, r: Nibble, c: Canvas): Byte
    requires |v| == REGISTER_COUNT
  {
    if r == 0xF then Flag(c.collided) else v[r]
  }

  /** Columns `col` to 7 of sprite row `row`, whose byte is `b`. */
  function DrawRow(c: Canvas, b: Byte, v: seq<Byte>, x: Nibble, y: Nibble, row: nat, col: nat): (r: Canvas)
    requires |c.display| == DISPLAY_CELLS && |v| == REGISTER_COUNT && col <= 8
    ensures |r.display| == DISPLAY_CELLS
    ensures c.collided ==> r.collided
    decreases 8 - col
  {
    if col == 8 then c
    else
      var next :=
        if Pixel(b, col) then
          var idx := Cell(Coord(v, x, c) + col, Coord(v, y, c) + row);
          Canvas(c.display[idx := !c.display[idx]], c.collided || c.display[idx])
        else c;
      DrawRow(next, b, v, x, y, row, col + 1)
  }

  /** Rows `row` to the last of `sprite`. */
  function DrawRows(c: Canvas, sprite: seq<Byte>, v: seq<Byte>, x: Nibble, y: Nibble, row: nat): (r: Canvas)
    requires |c.display| == DISPLAY_CELLS && |v| == REGISTER_COUNT && row <= |sprite|
    ensures |r.display| == DISPLAY_CELLS
    ensures c.collided ==> r.collided
    decreases |sprite| - row
  {
    if row == |sprite| then c
    else DrawRows(DrawRow(c, sprite[row], v, x, y, row, 0), sprite, v, x, y, row + 1)
  }

  /** The whole draw, starting from a cleared collision flag. */
  function Draw(display: seq<bool>, sprite: seq<Byte>, v: seq<Byte>, x: Nibble, y: Nibble): (r: Canvas)
    requires |display| == DISPLAY_CELLS && |v| == REGISTER_COUNT
    ensures |r.display| == DISPLAY_CELLS
  {
    DrawRows(Canvas(display, false), sprite, v, x, y, 0)
  }

  /* ---------- the reference picture ---------- */

  /** The sprite row that lands on display row `cell / 64` when the sprite's top is at `vy`. */
  function RowOffset(vy: int, cell: nat): nat
  {
    (cell / DISPLAY_WIDTH - vy) % DISPLAY_HEIGHT
  }

  /** The sprite column that lands on display column `cell % 64` when the sprite's left edge is at `vx`. */
  function ColOffset(vx: int, cell: nat): nat
  {
    (cell % DISPLAY_WIDTH - vx) % DISPLAY_WIDTH
  }

  /** Whether a set pixel of `sprite`, drawn at (vx, vy) with wrap-around, lands on `cell`. */
  predicate Covers(sprite: seq<Byte>, vx: Byte, vy: Byte, cell: nat)
  {
    var row := RowOffset(vy, cell);
    var col := ColOffset(vx, cell);
    row < |sprite| && col < 8 && Pixel(sprite[row], col)
  }

  /** Every covered cell toggled. */
  function XorSprite(display: seq<bool>, sprite: seq<Byte>, vx: Byte, vy: Byte): seq<bool>
  {
    seq(|display|, cell requires 0 <= cell < |display| => display[cell] != Covers(sprite, vx, vy, cell))
  }

  /** Some covered cell is lit. */
  predicate Collides(display: seq<bool>, sprite: seq<Byte>, vx: Byte, vy: Byte)
  {
    exists cell :: 0 <= cell < |display| && Covers(sprite, vx, vy, cell) && display[cell]
  }

  /* ---------- geometry of the wrap-around ---------- */

  /** The offsets of the cell that pixel (row, col) lands on are (row, col) again. */
  lemma CellOffsets(vx: Byte, vy: Byte, row: nat, col: nat)
    requires row < DISPLAY_HEIGHT && col < DISPLAY_WIDTH
    ensures RowOffset(vy, Cell(vx + col, vy + row)) == row
    ensures ColOffset(vx, Cell(vx + col, vy + row)) == col
  {
    var c := Cell(vx + col, vy + row);
    var qy := (vy + row) / DISPLAY_HEIGHT;
    assert c / DISPLAY_WIDTH == vy + row - DISPLAY_HEIGHT * qy;
    var qx := (vx + col) / DISPLAY_WIDTH;
    assert c % DISPLAY_WIDTH == vx + col - DISPLAY_WIDTH * qx;
  }

  /** Every cell is the landing cell of its own offsets. */
  lemma CellFromOffsets(vx: Byte, vy: Byte, cell: nat)
    requires cell < DISPLAY_CELLS
    ensures Cell(vx + ColOffset(vx, cell), vy + RowOffset(vy, cell)) == cell
  {
    var row := RowOffset(vy, cell);
    var col := ColOffset(vx, cell);
    var c := Cell(vx + col, vy + row);
    assert (vy + row) % DISPLAY_HEIGHT == cell / DISPLAY_WIDTH;
    assert (vx + col) % DISPLAY_WIDTH == cell % DISPLAY_WIDTH;
  }

  /** A cell lies at offsets (row, col) exactly when it is the landing cell of pixel (row, col). */
  lemma LandingCell(vx: Byte, vy: Byte, row: nat, col: nat, cell: nat)
    requires row < DISPLAY_HEIGHT && col < DISPLAY_WIDTH && cell < DISPLAY_CELLS
    ensures cell == Cell(vx + col, vy + row) <==> RowOffset(vy, cell) == row && ColOffset(vx, cell) == col
  {
    CellOffsets(vx, vy, row, col);
    if RowOffset(vy, cell) == row && ColOffset(vx, cell) == col {
      CellFromOffsets(vx, vy, cell);
    }
  }

  /* ---------- the loop agrees with the reference ---------- */

  /** Covered by a pixel the loop has already visited when it is at (row, col). */
  predicate CoveredBefore(sprite: seq<Byte>, vx: Byte, vy: Byte, cell: nat, row: nat, col: nat)
  {
    && Covers(sprite, vx, vy, cell)
    && (RowOffset(vy, cell) < row || (RowOffset(vy, cell) == row && ColOffset(vx, cell) < col))
  }

  function Partial(d: seq<bool>, sprite: seq<Byte>, vx: Byte, vy: Byte, row: nat, col: nat): seq<bool>
  {
    seq(|d|, cell requires 0 <= cell < |d| => d[cell] != CoveredBefore(sprite, vx, vy, cell, row, col))
  }

  predicate PartialCollides(d: seq<bool>, sprite: seq<Byte>, vx: Byte, vy: Byte, row: nat, col: nat)
  {
    exists cell :: 0 <= cell < |d| && CoveredBefore(sprite, vx, vy, cell, row, col) && d[cell]
  }

  lemma {:induction false} DrawRowProgress(d: seq<bool>, sprite: seq<Byte>, v: seq<Byte>, x: Nibble, y: Nibble,
                                           row: nat, col: nat, c: Canvas)
    requires |d| == DISPLAY_CELLS && |v| == REGISTER_COUNT && x != 0xF && y != 0xF
    requires row < |sprite| <= DISPLAY_HEIGHT && col <= 8
    requires c.display == Partial(d, sprite, v[x], v[y], row, col)
    requires c.collided == PartialCollides(d, sprite, v[x], v[y], row, col)
    ensures DrawRow(c, sprite[row], v, x, y, row, col).display == Partial(d, sprite, v[x], v[y], row + 1, 0)
    ensures DrawRow(c, sprite[row], v, x, y, row, col).collided == PartialCollides(d, sprite, v[x], v[y], row + 1, 0)
    decreases 8 - col
  {
    var vx, vy := v[x], v[y];
    if col == 8 {
      forall cell | 0 <= cell < |d|
        ensures CoveredBefore(sprite, vx, vy, cell, row, 8) == CoveredBefore(sprite, vx, vy, cell, row + 1, 0)
      {
      }
      assert Partial(d, sprite, vx, vy, row, 8) == Partial(d, sprite, vx, vy, row + 1, 0);
    } else {
      var b := sprite[row];
      var idx := Cell(vx + col, vy + row);
      forall cell | 0 <= cell < |d|
        ensures CoveredBefore(sprite, vx, vy, cell, row, col + 1)
                == (CoveredBefore(sprite, vx, vy, cell, row, col) || (cell == idx && Pixel(b, col)))
      {
        LandingCell(vx, vy, row, col, cell);
      }
      LandingCell(vx, vy, row, col, idx);
      var next :=
        if Pixel(b, col) then Canvas(c.display[idx := !c.display[idx]], c.collided || c.display[idx])
        else c;
      assert next.display == Partial(d, sprite, vx, vy, row, col + 1);
      assert next.collided == PartialCollides(d, sprite, vx, vy, row, col + 1) by {
        if Pixel(b, col) && d[idx] {
          assert CoveredBefore(sprite, vx, vy, idx, row, col + 1);
        }
      }
      DrawRowProgress(d, sprite, v, x, y, row, col + 1, next);
    }
  }

  lemma {:induction false} DrawRowsProgress(d: seq<bool>, sprite: seq<Byte>, v: seq<Byte>, x: Nibble, y: Nibble,
                                            row: nat, c: Canvas)
    requires |d| == DISPLAY_CELLS && |v| == REGISTER_COUNT && x != 0xF && y != 0xF
    requires row <= |sprite| <= DISPLAY_HEIGHT
    requires c.display == Partial(d, sprite, v[x], v[y], row, 0)
    requires c.collided == PartialCollides(d, sprite, v[x], v[y], row, 0)
    ensures DrawRows(c, sprite, v, x, y, row).display == Partial(d, sprite, v[x], v[y], |sprite|, 0)
    ensures DrawRows(c, sprite, v, x, y, row).collided == PartialCollides(d, sprite, v[x], v[y], |sprite|, 0)
    decreases |sprite| - row
  {
    if row < |sprite| {
      DrawRowProgress(d, sprite, v, x, y, row, 0, c);
      DrawRowsProgress(d, sprite, v, x, y, row + 1, DrawRow(c, sprite[row], v, x, y, row, 0));
    }
  }

  /**
   * With both coordinate registers other than VF, the pixel-by-pixel draw
   * toggles exactly the covered cells and reports a collision iff one of them
   * was lit. At most 32 rows (the instruction draws at most 15), so no two
   * pixels of one sprite land on the same cell.
   */
  lemma DrawMatchesReference(d: seq<bool>, sprite: seq<Byte>, v: seq<Byte>, x: Nibble, y: Nibble)
    requires |d| == DISPLAY_CELLS && |v| == REGISTER_COUNT && x != 0xF && y != 0xF
    requires |sprite| <= DISPLAY_HEIGHT
    ensures Draw(d, sprite, v, x, y).display == XorSprite(d, sprite, v[x], v[y])
    ensures Draw(d, sprite, v, x, y).collided <==> Collides(d, sprite, v[x], v[y])
  {
    var vx, vy := v[x], v[y];
    assert Partial(d, sprite, vx, vy, 0, 0) == d;
    DrawRowsProgress(d, sprite, v, x, y, 0, Canvas(d, false));
    forall cell | 0 <= cell < |d|
      ensures CoveredBefore(sprite, vx, vy, cell, |sprite|, 0) == Covers(sprite, vx, vy, cell)
    {
    }
    assert Partial(d, sprite, vx, vy, |sprite|, 0) == XorSprite(d, sprite, vx, vy);
  }

  /* ---------- consequences of the reference picture ---------- */

  /** Some row of the sprite has a set pixel. */
  predicate HasSetPixel(sprite: seq<Byte>)
  {
    exists row, col :: 0 <= row < |sprite| && 0 <= col < 8 && Pixel(sprite[row], col)
  }

  /** A sprite of at most 32 rows covers some cell exactly when it has a set pixel. */
  lemma CoversSomeCell(sprite: seq<Byte>, vx: Byte, vy: Byte)
    requires |sprite| <= DISPLAY_HEIGHT
    ensures (exists cell :: 0 <= cell < DISPLAY_CELLS && Covers(sprite, vx, vy, cell)) <==> HasSetPixel(sprite)
  {
    if HasSetPixel(sprite) {
      var row, col :| 0 <= row < |sprite| && 0 <= col < 8 && Pixel(sprite[row], col);
      CellOffsets(vx, vy, row, col);
      assert Covers(sprite, vx, vy, Cell(vx + col, vy + row));
    }
  }

  /**
   * Drawing the same sprite twice at the same place (coordinate registers other
   * than VF) restores the display, and the second draw reports a collision
   * exactly when some cell the sprite covers was dark before the first draw.
   */
  lemma DrawTwice(d: seq<bool>, sprite: seq<Byte>, v: seq<Byte>, x: Nibble, y: Nibble)
    requires |d| == DISPLAY_CELLS && |v| == REGISTER_COUNT && x != 0xF && y != 0xF
    requires |sprite| <= DISPLAY_HEIGHT
    ensures Draw(Draw(d, sprite, v, x, y).display, sprite, v, x, y).display == d
    ensures Draw(Draw(d, sprite, v, x, y).display, sprite, v, x, y).collided
        <==> exists cell :: 0 <= cell < DISPLAY_CELLS && Covers(sprite, v[x], v[y], cell) && !d[cell]
  {
    var first := Draw(d, sprite, v, x, y);
    DrawMatchesReference(d, sprite, v, x, y);
    DrawMatchesReference(first.display, sprite, v, x, y);
    var second := Draw(first.display, sprite, v, x, y);
    assert second.display == d;
    if second.collided {
      var cell :| 0 <= cell < DISPLAY_CELLS && Covers(sprite, v[x], v[y], cell) && first.display[cell];
      assert !d[cell];
    }
    if exists cell :: 0 <= cell < DISPLAY_CELLS && Covers(sprite, v[x], v[y], cell) && !d[cell] {
      var cell :| 0 <= cell < DISPLAY_CELLS && Covers(sprite, v[x], v[y], cell) && !d[cell];
      assert first.display[cell];
    }
  }
}
