/**
 * Fixed-width integers and the bitwise AND used by the render-texture
 * helper, stated on unbounded integers so that wrap-around, truncation
 * and masking are explicit.
 */
module Bits {

  const TWO_16: int := 0x1_0000
  const TWO_32: int := 0x1_0000_0000
  const TWO_64: int := 0x1_0000_0000_0000_0000
  const UINT32_MAX: int := 0xFFFF_FFFF

  type uint16 = x: int | 0 <= x < TWO_16
  type uint32 = x: int | 0 <= x < TWO_32
  type uint64 = x: int | 0 <= x < TWO_64
  /** `size_t` on the 64-bit targets the helper is built for. */
  type size_t = uint64
  /** A signed 32-bit value (`LONG`, `HRESULT`). */
  type int32 = x: int | -0x8000_0000 <= x < 0x8000_0000

  function Pow2(k: nat): (p: nat)
    ensures p >= 1
  {
    if k == 0 then 1 else 2 * Pow2(k - 1)
  }

  /** Bitwise AND of two naturals, one bit at a time from the least significant. */
  function BitAnd(x: nat, y: nat): (r: nat)
    ensures r <= x && r <= y
  {
    if x == 0 || y == 0 then 0
    else 2 * BitAnd(x / 2, y / 2) + (if x % 2 == 1 && y % 2 == 1 then 1 else 0)
  }

  /** `x >> k` */
  function ShiftRight(x: nat, k: nat): nat {
    if k == 0 then x else ShiftRight(x / 2, k - 1)
  }

  /** The k least significant bits of x, as a number. */
  function LowBits(x: nat, k: nat): (r: nat)
    ensures r <= x
  {
    if k == 0 then 0 else 2 * LowBits(x / 2, k - 1) + x % 2
  }

  lemma {:induction false} LowBitsBound(x: nat, k: nat)
    ensures LowBits(x, k) < Pow2(k)
  {
    if k > 0 {
      LowBitsBound(x / 2, k - 1);
    }
  }

  lemma {:induction false} LowBitsOfSmall(x: nat, k: nat)
    requires x < Pow2(k)
    ensures LowBits(x, k) == x
  {
    if k > 0 {
      LowBitsOfSmall(x / 2, k - 1);
    }
  }

  /** Masking with k low one-bits keeps the k low bits. */
  lemma {:induction false} BitAndLowOnes(x: nat, k: nat)
    ensures BitAnd(x, Pow2(k) - 1) == LowBits(x, k)
  {
    if k > 0 {
      var y := Pow2(k) - 1;
      assert y % 2 == 1 && y / 2 == Pow2(k - 1) - 1;
      BitAndLowOnes(x / 2, k - 1);
    }
  }

  /** A mask whose k low bits are clear drops the value's k low bits. */
  lemma {:induction false} BitAndShifted(x: nat, y: nat, k: nat)
    ensures BitAnd(x, Pow2(k) * y) == Pow2(k) * BitAnd(ShiftRight(x, k), y)
  {
    if k > 0 {
      var p := Pow2(k - 1);
      var m := p * y;
      var b := BitAnd(ShiftRight(x / 2, k - 1), y);
      DoubleFactor(p, y);
      DoubleFactor(p, b);
      BitAndShifted(x / 2, y, k - 1);
      assert BitAnd(x / 2, m) == p * b;
      if x > 0 && m > 0 {
        assert (2 * m) % 2 == 0 && (2 * m) / 2 == m;
        assert BitAnd(x, 2 * m) == 2 * BitAnd(x / 2, m);
      }
    }
  }

  lemma DoubleFactor(p: nat, y: nat)
    ensures (2 * p) * y == 2 * (p * y)
  {
  }

  lemma ShiftRightByte(x: nat)
    ensures ShiftRight(x, 8) == x / 256
  {
    var x1 := x / 2;
    var x2 := x1 / 2;
    var x3 := x2 / 2;
    var x4 := x3 / 2;
    var x5 := x4 / 2;
    var x6 := x5 / 2;
    var x7 := x6 / 2;
    var x8 := x7 / 2;
    assert ShiftRight(x7, 1) == ShiftRight(x8, 0) == x8;
    assert ShiftRight(x5, 3) == ShiftRight(x6, 2) == ShiftRight(x7, 1);
    assert ShiftRight(x3, 5) == ShiftRight(x4, 4) == ShiftRight(x5, 3);
    assert ShiftRight(x1, 7) == ShiftRight(x2, 6) == ShiftRight(x3, 5);
    assert ShiftRight(x, 8) == ShiftRight(x1, 7);
    assert x8 == x / 256;
  }

  /**
   * `x & m`, where m has ones exactly at bit positions 8 .. 8+n-1, is 256 times
   * the n bits of x that sit above its low byte.
   */
  lemma ByteAlignedMask(x: nat, n: nat)
    ensures Pow2(8) == 256
    ensures BitAnd(x, 256 * (Pow2(n) - 1)) == 256 * LowBits(x / 256, n)
  {
    assert Pow2(8) == 256;
    BitAndShifted(x, Pow2(n) - 1, 8);
    ShiftRightByte(x);
    BitAndLowOnes(x / 256, n);
  }

  /** Bit k of x. */
  function BitAt(x: nat, k: nat): (b: nat)
    ensures b <= 1
  {
    ShiftRight(x, k) % 2
  }

  lemma {:induction false} ShiftRightTwice(x: nat, a: nat, b: nat)
    ensures ShiftRight(ShiftRight(x, a), b) == ShiftRight(x, a + b)
  {
    if a > 0 {
      ShiftRightTwice(x / 2, a - 1, b);
    }
  }

  /** `x & (1 << k)` keeps bit k of x and nothing else. */
  lemma SingleBitMask(x: nat, k: nat)
    ensures BitAnd(x, Pow2(k)) == Pow2(k) * BitAt(x, k)
  {
    BitAndShifted(x, 1, k);
    var t := ShiftRight(x, k);
    assert BitAnd(t, 1) == t % 2;
  }

  /** `x & ((1 << k) | (1 << (k + d)))`, for d > 0, keeps exactly those two bits. */
  lemma TwoBitMask(x: nat, k: nat, d: nat)
    requires d > 0
    ensures BitAnd(x, Pow2(k) * (Pow2(d) + 1)) == Pow2(k + d) * BitAt(x, k + d) + Pow2(k) * BitAt(x, k)
  {
    var t := ShiftRight(x, k);
    BitAndShifted(x, Pow2(d) + 1, k);
    ShiftRightTwice(x, k, d);
    ShiftRightTwice(t, 1, d - 1);
    PowerSplit(k, d);
    var high := BitAt(t, d);
    assert Pow2(d) == 2 * Pow2(d - 1);
    assert BitAnd(t, Pow2(d) + 1) == Pow2(d) * high + t % 2 by {
      if t == 0 {
        ShiftRightOfZero(d);
      } else {
        assert (Pow2(d) + 1) % 2 == 1 && (Pow2(d) + 1) / 2 == Pow2(d - 1);
        SingleBitMask(t / 2, d - 1);
        assert ShiftRight(t / 2, d - 1) == ShiftRight(t, d);
        DoubleFactor(Pow2(d - 1), high);
      }
    }
    MulDistributes(Pow2(k), Pow2(d), high, t % 2);
  }

  lemma MulSucc(a: nat, m: nat)
    ensures (a + 1) * m == a * m + m
  {
  }

  lemma MulDistributes(p: nat, q: nat, h: nat, r: nat)
    ensures p * (q * h + r) == (p * q) * h + p * r
  {
  }

  lemma {:induction false} ShiftRightOfZero(k: nat)
    ensures ShiftRight(0, k) == 0
  {
    if k > 0 {
      ShiftRightOfZero(k - 1);
    }
  }

  lemma {:induction false} PowerSplit(a: nat, b: nat)
    ensures Pow2(a) * Pow2(b) == Pow2(a + b)
  {
    if a > 0 {
      PowerSplit(a - 1, b);
      DoubleFactor(Pow2(a - 1), Pow2(b));
    }
  }
}
