// frames.go packs fields into shared bytes with masks, shifts and ors. Module Wire
// writes the same bytes with remainders and sums; this module shows the two agree.

module Bitwise {
  lemma BitwiseIsArithmetic(a: bv8, b: bv8)
    ensures (a & 0x1f) | ((b & 0x7) << 5) == a % 32 + (b % 8) * 32
    ensures ((a & 0x3) << 6) | (b & 0x3f) == (a % 4) * 64 + b % 64
  {
  }

  lemma RemainderAsInt(a: bv8)
    ensures (a % 32) as int == a as int % 32
    ensures (a % 64) as int == a as int % 64
  {
  }

  /** The masks, shifts and ors of the source, on eight-bit words, are this arithmetic. */
  lemma FlagsAreBitwise(a: bv8, b: bv8)
    ensures ((a & 0x1f) | ((b & 0x7) << 5)) as int == (a as int % 32) + (b as int % 8) * 32
  {
    BitwiseIsArithmetic(a, b);
    RemainderAsInt(a);
  }

  lemma CodeIsBitwise(a: bv8, b: bv8)
    ensures (((a & 0x3) << 6) | (b & 0x3f)) as int == (a as int % 4) * 64 + (b as int % 64)
  {
    BitwiseIsArithmetic(a, b);
    RemainderAsInt(b);
  }
}
