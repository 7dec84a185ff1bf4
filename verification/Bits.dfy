/** The bit operations that frames need, written as arithmetic on the values of bytes. */
module Bits {
  newtype Byte = x: int | 0 <= x < 256

  /** `b | 0x80`. */
  function SetTop(b: Byte): Byte {
    if b < 0x80 then b + 0x80 else b
  }

  /** `b & 0x80 != 0`. */
  predicate Top(b: Byte) {
    b >= 0x80
  }

  /** `b & 0x7F`. */
  function Low7(b: Byte): Byte {
    if b < 0x80 then b else b - 0x80
  }

  /** `b & 0x0F`. */
  function Low4(b: Byte): Byte {
    b % 16
  }

  function Pow2(k: nat): nat {
    if k == 0 then 1 else 2 * Pow2(k - 1)
  }

  /** Two numbers combined bit by bit, lowest bit first. */
  function XorBits(a: nat, b: nat, width: nat): (r: nat)
    ensures r < Pow2(width)
  {
    if width == 0 then 0 else 2 * XorBits(a / 2, b / 2, width - 1) + (if a % 2 == b % 2 then 0 else 1)
  }

  /** `a ^ b`. */
  function Xor(a: Byte, b: Byte): Byte {
    assert Pow2(8) == 256 by {
      assert Pow2(4) == 16;
    }
    XorBits(a as nat, b as nat, 8) as Byte
  }

  lemma HalfAndBit(half: nat, bit: nat)
    requires bit < 2
    ensures (2 * half + bit) / 2 == half && (2 * half + bit) % 2 == bit
  {
  }

  lemma {:induction false} XorBitsTwice(a: nat, b: nat, width: nat)
    requires a < Pow2(width)
    ensures XorBits(XorBits(a, b, width), b, width) == a
  {
    if width > 0 {
      XorBitsTwice(a / 2, b / 2, width - 1);
      HalfAndBit(XorBits(a / 2, b / 2, width - 1), if a % 2 == b % 2 then 0 else 1);
    }
  }

  lemma {:induction false} XorTwice(a: Byte, b: Byte)
    ensures Xor(Xor(a, b), b) == a
  {
    assert Pow2(4) == 16;
    XorBitsTwice(a as nat, b as nat, 8);
  }

  /** Bit k of a number. */
  function Bit(n: nat, k: nat): nat {
    if k == 0 then n % 2 else Bit(n / 2, k - 1)
  }

  lemma {:induction false} XorBitsBitwise(a: nat, b: nat, width: nat, k: nat)
    requires k < width
    ensures Bit(XorBits(a, b, width), k) == if Bit(a, k) != Bit(b, k) then 1 else 0
  {
    HalfAndBit(XorBits(a / 2, b / 2, width - 1), if a % 2 == b % 2 then 0 else 1);
    if k > 0 {
      XorBitsBitwise(a / 2, b / 2, width - 1, k - 1);
    }
  }

  /** Exclusive or: a bit of the result is set exactly if it is set in one of the two, but not in both. */
  lemma {:induction false} XorIsExclusive(a: Byte, b: Byte, k: nat)
    requires k < 8
    ensures Bit(Xor(a, b) as nat, k) == 1 <==> Bit(a as nat, k) != Bit(b as nat, k)
  {
    XorBitsBitwise(a as nat, b as nat, 8, k);
  }

  lemma {:induction false} XorBitsZero(a: nat, width: nat)
    requires a < Pow2(width)
    ensures XorBits(a, 0, width) == a
  {
    if width > 0 {
      XorBitsZero(a / 2, width - 1);
    }
  }

  lemma {:induction false} XorZero(a: Byte)
    ensures Xor(a, 0) == a
  {
    assert Pow2(4) == 16;
    XorBitsZero(a as nat, 8);
  }

  // ---- The arithmetic agrees with bit vectors ----

  lemma TopIsBitwise(b: bv8)
    ensures SetTop(b as Byte) == (b | 0x80) as Byte
    ensures Top(b as Byte) == (b & 0x80 != 0)
  {
  }

  lemma LowIsBitwise(b: bv8)
    ensures Low7(b as Byte) == (b & 0x7F) as Byte
    ensures Low4(b as Byte) == (b & 0x0F) as Byte
  {
  }
}
