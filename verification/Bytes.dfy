/** Bytes as numbers, with the bit operations the codecs use written as arithmetic. */
module Bytes {
  type Byte = x: int | 0 <= x < 256
  type Data = seq<Byte>

  /** `b & 0x1F` */
  function Low5(b: Byte): Byte { b % 32 }

  /** `b & 0xE0` */
  function High3(b: Byte): Byte { b - b % 32 }

  /** `b & 0x80 != 0` */
  predicate Bit7(b: Byte) { b >= 128 }

  /** `b & 0x40 != 0` */
  predicate Bit6(b: Byte) { b % 128 >= 64 }

  /** `u16::from_be_bytes([hi, lo])` */
  function U16(hi: Byte, lo: Byte): nat { (hi as int) * 256 + lo as int }

  /** `b | 0x80` */
  function Or80(b: Byte): Byte { b % 128 + 128 }

  // The functions above are the masks of the source, byte for byte.

  lemma Low5IsMask(b: bv8)
    ensures (b & 0x1F) as int == Low5(b as int)
  {
    assert b & 0x1F == b % 32;
  }

  lemma High3IsMask(b: bv8)
    ensures (b & 0xE0) as int == High3(b as int)
  {
    assert b & 0xE0 == b - b % 32;
  }

  lemma Or80IsMask(b: bv8)
    ensures (b | 0x80) as int == Or80(b as int)
  {
    assert b | 0x80 == b % 128 + 128;
  }

  lemma FlagsAreMasks(b: bv8)
    ensures b & 0x80 != 0 <==> Bit7(b as int)
    ensures b & 0x40 != 0 <==> Bit6(b as int)
  {
    assert b & 0x80 != 0 <==> b >= 128;
    assert b & 0x40 != 0 <==> b % 128 >= 64;
  }

  /** And the header rebuilt from a start fragment is the source's, too. */
  lemma HeaderIsMask(b: bv8, t: bv8)
    ensures ((b & 0xE0) | (t & 0x1F)) as int == High3(b as int) + Low5(t as int)
  {
    assert (b & 0xE0) | (t & 0x1F) == (b & 0xE0) + (t & 0x1F);
    High3IsMask(b);
    Low5IsMask(t);
  }
}
