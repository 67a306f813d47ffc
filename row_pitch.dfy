/**
 * Row-pitch and image-size arithmetic of `RenderTexture::CopyData`.
 *
 * The destination pitch is `(fpRowPitch + 255) & ~0xFFu`: the sum is taken in
 * 64 bits, but `~0xFFu` is a 32-bit unsigned constant, so after widening the
 * mask is 0x0000_0000_FFFF_FF00 and every bit from 32 up is cleared.
 */
module RowPitch {
  import opened Bits

  /** `~0xFFu` widened to 64 bits. */
  const MASK_32: nat := 0xFFFF_FF00
  /** `~0xFFull`, the 64-bit mask the round-up needs. */
  const MASK_64: nat := 0xFFFF_FFFF_FFFF_FF00

  /** `(fpRowPitch + 255) & ~0xFFu` with 64-bit addition. */
  function RoundUpPitch(fpRowPitch: uint64): uint64 {
    BitAnd((fpRowPitch + 255) % TWO_64, MASK_32)
  }

  /** `(fpRowPitch + 255) & ~0xFFull`: the round-up with a full-width mask. */
  function RoundUpPitchWide(fpRowPitch: uint64): uint64 {
    BitAnd((fpRowPitch + 255) % TWO_64, MASK_64)
  }

  lemma MaskShapes()
    ensures Pow2(24) == 0x100_0000 && MASK_32 == 256 * (Pow2(24) - 1)
    ensures Pow2(56) == 0x100_0000_0000_0000 && MASK_64 == 256 * (Pow2(56) - 1)
  {
    assert Pow2(8) == 256;
    assert Pow2(16) == 0x1_0000;
    assert Pow2(24) == 0x100_0000;
    assert Pow2(32) == 0x1_0000_0000;
    assert Pow2(40) == 0x100_0000_0000;
    assert Pow2(48) == 0x1_0000_0000_0000;
    assert Pow2(56) == 0x100_0000_0000_0000;
  }

  /** The 32-bit-mask result, in arithmetic terms: 256 times bits 8..31 of the sum. */
  lemma RoundUpPitchValue(fpRowPitch: uint64)
    ensures RoundUpPitch(fpRowPitch) == 256 * LowBits(((fpRowPitch + 255) % TWO_64) / 256, 24)
  {
    MaskShapes();
    ByteAlignedMask((fpRowPitch + 255) % TWO_64, 24);
  }

  /**
   * Whatever the footprint pitch, the destination pitch is a multiple of 256
   * and at most 0xFFFF_FF00, so the `dstRowPitch > UINT32_MAX` test that
   * follows the round-up can never succeed.
   */
  lemma RoundUpPitchAlignedAndBounded(fpRowPitch: uint64)
    ensures RoundUpPitch(fpRowPitch) % 256 == 0
    ensures RoundUpPitch(fpRowPitch) <= 0xFFFF_FF00 <= UINT32_MAX
  {
    var low := LowBits(((fpRowPitch + 255) % TWO_64) / 256, 24);
    RoundUpPitchValue(fpRowPitch);
    assert low < 0x100_0000 by {
      LowBitsBound(((fpRowPitch + 255) % TWO_64) / 256, 24);
      MaskShapes();
    }
    ScaledBounds(RoundUpPitch(fpRowPitch), low);
  }

  lemma ScaledBounds(r: nat, low: nat)
    requires r == 256 * low && low < 0x100_0000
    ensures r % 256 == 0 && r <= 0xFFFF_FF00
  {
  }

  /** `q`, the rounded-up number of 256-byte units, gives the least multiple of 256 at or above `x`. */
  lemma RoundsToMultiple(x: nat, q: nat, r: nat)
    requires q == (x + 255) / 256 && r == 256 * q
    ensures r % 256 == 0 && x <= r < x + 256
  {
  }

  lemma QuotientBound(s: nat, n: nat)
    requires s < 256 * n
    ensures s / 256 < n
  {
  }

  /**
   * While the sum stays below 2^32 the result is the least multiple of 256
   * that is at least the footprint pitch.
   */
  lemma RoundUpPitchIsLeastMultiple(fpRowPitch: uint64)
    requires fpRowPitch + 255 < TWO_32
    ensures RoundUpPitch(fpRowPitch) % 256 == 0
    ensures fpRowPitch <= RoundUpPitch(fpRowPitch) < fpRowPitch + 256
    ensures RoundUpPitch(fpRowPitch) == 256 * ((fpRowPitch + 255) / 256)
  {
    var q := (fpRowPitch + 255) / 256;
    assert (fpRowPitch + 255) % TWO_64 == fpRowPitch + 255;
    QuotientBound(fpRowPitch + 255, 0x100_0000);
    assert LowBits(q, 24) == q by {
      MaskShapes();
      LowBitsOfSmall(q, 24);
    }
    RoundUpPitchValue(fpRowPitch);
    RoundsToMultiple(fpRowPitch, q, RoundUpPitch(fpRowPitch));
  }

  /**
   * Above 0xFFFF_FF00 the 32-bit mask drops the high bits: the destination
   * pitch comes out smaller than the footprint's pitch.
   */
  lemma RoundUpPitchShrinksWidePitches(fpRowPitch: uint64)
    requires fpRowPitch > 0xFFFF_FF00
    ensures RoundUpPitch(fpRowPitch) < fpRowPitch
  {
    RoundUpPitchAlignedAndBounded(fpRowPitch);
  }

  /** A pitch of exactly 2^32 bytes rounds to 0. */
  lemma RoundUpPitchOfTwoTo32()
    ensures RoundUpPitch(0x1_0000_0000) == 0
  {
    RoundUpPitchValue(0x1_0000_0000);
    MaskShapes();
    assert (0x1_0000_0000 + 255) % TWO_64 / 256 == 0x100_0000;
    LowBitsOfPowerOfTwo(24);
  }

  lemma {:induction false} LowBitsOfPowerOfTwo(k: nat)
    ensures LowBits(Pow2(k), k) == 0
  {
    if k > 0 {
      assert Pow2(k) / 2 == Pow2(k - 1) && Pow2(k) % 2 == 0;
      LowBitsOfPowerOfTwo(k - 1);
    }
  }

  /** The 64-bit-mask result, in arithmetic terms: 256 times bits 8..63 of the sum. */
  lemma RoundUpPitchWideValue(fpRowPitch: uint64)
    ensures RoundUpPitchWide(fpRowPitch) == 256 * LowBits(((fpRowPitch + 255) % TWO_64) / 256, 56)
  {
    MaskShapes();
    ByteAlignedMask((fpRowPitch + 255) % TWO_64, 56);
  }

  /**
   * With the full-width mask the result is the least multiple of 256 at or
   * above the footprint pitch whenever the 64-bit sum does not wrap.
   */
  lemma RoundUpPitchWideIsLeastMultiple(fpRowPitch: uint64)
    requires fpRowPitch + 255 < TWO_64
    ensures RoundUpPitchWide(fpRowPitch) % 256 == 0
    ensures fpRowPitch <= RoundUpPitchWide(fpRowPitch) < fpRowPitch + 256
    ensures RoundUpPitchWide(fpRowPitch) == 256 * ((fpRowPitch + 255) / 256)
  {
    var q := (fpRowPitch + 255) / 256;
    assert (fpRowPitch + 255) % TWO_64 == fpRowPitch + 255;
    QuotientBound(fpRowPitch + 255, 0x100_0000_0000_0000);
    assert LowBits(q, 56) == q by {
      MaskShapes();
      LowBitsOfSmall(q, 56);
    }
    RoundUpPitchWideValue(fpRowPitch);
    RoundsToMultiple(fpRowPitch, q, RoundUpPitchWide(fpRowPitch));
  }

  /**
   * With the full-width mask the `dstRowPitch > UINT32_MAX` test rejects
   * exactly the footprint pitches whose rounded value does not fit 32 bits.
   */
  lemma RoundUpPitchWideGuard(fpRowPitch: uint64)
    requires fpRowPitch + 255 < TWO_64
    ensures RoundUpPitchWide(fpRowPitch) > UINT32_MAX <==> fpRowPitch > 0xFFFF_FF00
  {
    RoundUpPitchWideIsLeastMultiple(fpRowPitch);
  }

  /**
   * For every pitch the full-width guard would accept, the 32-bit mask gives
   * the same result: the two round-ups differ only where the guard matters.
   */
  lemma RoundUpPitchAgreesBelowLimit(fpRowPitch: uint64)
    requires fpRowPitch <= 0xFFFF_FF00
    ensures RoundUpPitch(fpRowPitch) == RoundUpPitchWide(fpRowPitch)
  {
    RoundUpPitchIsLeastMultiple(fpRowPitch);
    RoundUpPitchWideIsLeastMultiple(fpRowPitch);
  }

  /**
   * `desc.Width * desc.Height * 4` as computed in 64 bits and returned through
   * the `uint32_t` result: the product modulo 2^32.
   */
  function ImageSize64(width: uint64, height: uint32): uint64 {
    (width * height * 4) % TWO_64
  }

  lemma ReturnedImageSize(width: uint64, height: uint32)
    ensures ImageSize64(width, height) % TWO_32 == (width * height * 4) % TWO_32
    ensures ImageSize64(width, height) % TWO_32 % 4 == 0
  {
    var p := width * height * 4;
    TimesFour(width * height);
    TruncateTwice(p);
  }

  lemma TimesFour(n: nat)
    ensures (n * 4) % 4 == 0
  {
  }

  /** Truncating to 64 and then to 32 bits is truncating to 32 bits; multiples of 4 stay multiples of 4. */
  lemma TruncateTwice(p: nat)
    ensures (p % TWO_64) % TWO_32 == p % TWO_32
    ensures p % 4 == 0 ==> (p % TWO_32) % 4 == 0
  {
    var q := p / TWO_64;
    assert p == TWO_64 * q + p % TWO_64;
    assert p == TWO_32 * (TWO_32 * q) + p % TWO_64;
  }
}
