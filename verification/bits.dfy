/**
 * Bitwise operations on unsigned integers, defined one bit at a time from the
 * least significant end, with `Bit` as the reference reading of a single bit.
 */
module Bits {

  /** `2^k`. */
  function Pow2(k: nat): (p: nat)
    ensures p >= 1
  {
    if k == 0 then 1 else 2 * Pow2(k - 1)
  }

  /** Bit `k` of `x`, i.e. `(x >> k) & 1 == 1`. */
  predicate Bit(x: nat, k: nat)
    decreases k
  {
    if k == 0 then x % 2 == 1 else Bit(x / 2, k - 1)
  }

  datatype BitOp = AndOp | OrOp | XorOp

  function Combine(f: BitOp, p: bool, q: bool): bool
  {
    match f
    case AndOp => p && q
    case OrOp => p || q
    case XorOp => p != q
  }

  /** The low `width` bits of `a` and `b` combined bit by bit with `f`. */
  function Bitwise(f: BitOp, a: nat, b: nat, width: nat): (r: nat)
    ensures r < Pow2(width)
    decreases width
  {
    if width == 0 then 0
    else 2 * Bitwise(f, a / 2, b / 2, width - 1) + (if Combine(f, a % 2 == 1, b % 2 == 1) then 1 else 0)
  }

  /** Every bit of the result is `f` of the operands' bits at the same position. */
  lemma {:induction false} BitwiseBits(f: BitOp, a: nat, b: nat, width: nat, k: nat)
    requires k < width
    ensures Bit(Bitwise(f, a, b, width), k) == Combine(f, Bit(a, k), Bit(b, k))
    decreases k
  {
    if k > 0 {
      BitwiseBits(f, a / 2, b / 2, width - 1, k - 1);
    }
  }

  /** No bit of a value below `2^width` is set at or above position `width`. */
  lemma {:induction false} HighBitsClear(x: nat, width: nat, k: nat)
    requires x < Pow2(width) && width <= k
    ensures !Bit(x, k)
    decreases k
  {
    if width == 0 {
      assert x == 0;
      ZeroHasNoBits(k);
    } else {
      HighBitsClear(x / 2, width - 1, k - 1);
    }
  }

  lemma {:induction false} ZeroHasNoBits(k: nat)
    ensures !Bit(0, k)
    decreases k
  {
    if k > 0 {
      ZeroHasNoBits(k - 1);
    }
  }

  /** Two values below `2^width` with the same low `width` bits are equal. */
  lemma {:induction false} BitsDetermine(a: nat, b: nat, width: nat)
    requires a < Pow2(width) && b < Pow2(width)
    requires forall k :: 0 <= k < width ==> Bit(a, k) == Bit(b, k)
    ensures a == b
    decreases width
  {
    if width > 0 {
      forall k | 0 <= k < width - 1
        ensures Bit(a / 2, k) == Bit(b / 2, k)
      {
        assert Bit(a, k + 1) == Bit(b, k + 1);
      }
      BitsDetermine(a / 2, b / 2, width - 1);
      assert Bit(a, 0) == Bit(b, 0);
    }
  }

  /** The eight low bits of a bitwise combination, each read through `Bit`. */
  lemma ByteBits(f: BitOp, a: nat, b: nat)
    ensures forall k: nat :: k < 8 ==> Bit(Bitwise(f, a, b, 8), k) == Combine(f, Bit(a, k), Bit(b, k))
  {
    forall k: nat | k < 8
      ensures Bit(Bitwise(f, a, b, 8), k) == Combine(f, Bit(a, k), Bit(b, k))
    {
      BitwiseBits(f, a, b, 8, k);
    }
  }

  /** Byte AND: a byte whose bit k is set exactly when both operands' bit k is. */
  function And8(a: nat, b: nat): (r: nat)
    ensures r < 0x100
    ensures forall k: nat :: k < 8 ==> (Bit(r, k) <==> Bit(a, k) && Bit(b, k))
  {
    assert Pow2(8) == 0x100;
    ByteBits(AndOp, a, b);
    Bitwise(AndOp, a, b, 8)
  }

  /** Byte OR: a byte whose bit k is set exactly when either operand's bit k is. */
  function Or8(a: nat, b: nat): (r: nat)
    ensures r < 0x100
    ensures forall k: nat :: k < 8 ==> (Bit(r, k) <==> Bit(a, k) || Bit(b, k))
  {
    assert Pow2(8) == 0x100;
    ByteBits(OrOp, a, b);
    Bitwise(OrOp, a, b, 8)
  }

  /** Byte XOR: a byte whose bit k is set exactly when the operands' bits k differ. */
  function Xor8(a: nat, b: nat): (r: nat)
    ensures r < 0x100
    ensures forall k: nat :: k < 8 ==> (Bit(r, k) <==> Bit(a, k) != Bit(b, k))
  {
    assert Pow2(8) == 0x100;
    ByteBits(XorOp, a, b);
    Bitwise(XorOp, a, b, 8)
  }

  /** A masked byte has no set bit outside the mask. */
  lemma AndWithinMask(a: nat, mask: nat)
    requires mask < 0x100
    ensures forall k: nat :: Bit(And8(a, mask), k) ==> Bit(mask, k)
  {
    assert Pow2(8) == 0x100;
    forall k: nat
      ensures Bit(And8(a, mask), k) ==> Bit(mask, k)
    {
      if k < 8 {
        BitwiseBits(AndOp, a, mask, 8, k);
      } else {
        HighBitsClear(And8(a, mask), 8, k);
      }
    }
  }

  /**
   * The arithmetic reading of the bitwise operations: on values below `2^width`,
   * AND plus OR is the sum, and so is XOR plus twice AND.
   */
  lemma {:induction false} BitwiseSums(a: nat, b: nat, width: nat)
    requires a < Pow2(width) && b < Pow2(width)
    ensures Bitwise(AndOp, a, b, width) + Bitwise(OrOp, a, b, width) == a + b
    ensures Bitwise(XorOp, a, b, width) + 2 * Bitwise(AndOp, a, b, width) == a + b
    decreases width
  {
    if width > 0 {
      BitwiseSums(a / 2, b / 2, width - 1);
    }
  }

  /** AND never exceeds either operand. */
  lemma {:induction false} AndBelow(a: nat, b: nat, width: nat)
    requires a < Pow2(width) && b < Pow2(width)
    ensures Bitwise(AndOp, a, b, width) <= a && Bitwise(AndOp, a, b, width) <= b
    decreases width
  {
    if width > 0 {
      AndBelow(a / 2, b / 2, width - 1);
    }
  }

  /** Every bit below `width` of `2^width - 1` is set. */
  lemma {:induction false} LowOnes(width: nat, k: nat)
    requires k < width
    ensures Bit(Pow2(width) - 1, k)
    decreases k
  {
    if k > 0 {
      LowOnes(width - 1, k - 1);
    }
  }

  /** Masking a byte with FF keeps it; masking with 0 clears it; the result is below both operands. */
  lemma AndMasks(a: nat, mask: nat)
    requires a < 0x100 && mask < 0x100
    ensures And8(a, mask) <= a && And8(a, mask) <= mask
    ensures mask == 0xFF ==> And8(a, mask) == a
  {
    assert Pow2(8) == 0x100;
    AndBelow(a, mask, 8);
    if mask == 0xFF {
      forall k | 0 <= k < 8
        ensures Bit(And8(a, mask), k) == Bit(a, k)
      {
        LowOnes(8, k);
      }
      BitsDetermine(And8(a, mask), a, 8);
    }
  }

  /** XOR-ing a byte twice with the same byte gives it back. */
  lemma XorTwice(a: nat, b: nat)
    requires a < 0x100
    ensures Xor8(Xor8(a, b), b) == a
  {
    assert Pow2(8) == 0x100;
    forall k | 0 <= k < 8
      ensures Bit(Xor8(Xor8(a, b), b), k) == Bit(a, k)
    {
      BitwiseBits(XorOp, Xor8(a, b), b, 8, k);
      BitwiseBits(XorOp, a, b, 8, k);
    }
    BitsDetermine(Xor8(Xor8(a, b), b), a, 8);
  }
}
