/** The operations of MD5 on 32-bit words (RFC 1321, sections 2 and 3.4), and what they do to each
    bit. */
module Words {
  type Word = bv32

  function Add(x: Word, y: Word): Word {
    x + y
  }

  function Sum(u: Word, v: Word, x: Word, y: Word): Word {
    u + v + x + y
  }

  function LeftRotate(value: Word, shift: bv32): Word
    requires shift <= 32
  {
    (value << shift) | (value >> (32 - shift))
  }

  function F(x: Word, y: Word, z: Word): Word { (x & y) | (!x & z) }
  function G(x: Word, y: Word, z: Word): Word { (x & z) | (y & !z) }
  function H(x: Word, y: Word, z: Word): Word { x ^ y ^ z }
  function I(x: Word, y: Word, z: Word): Word { y ^ (x | !z) }

  const ALL: Word := 0xffff_ffff

  /** Rotation moves the low bits up by the shift, and the bits that leave at the top come in, in
      their order, at the bottom. */
  lemma RotatedBits(value: Word, shift: bv32)
    requires 0 < shift < 32
    ensures LeftRotate(value, shift) >> shift == value & (ALL >> shift)
    ensures LeftRotate(value, shift) & !(ALL << shift) == value >> (32 - shift)
  {
  }

  // The auxiliary functions, bit by bit.

  /** Where X is set Y, elsewhere Z. */
  lemma BitsOfF(x: Word, y: Word, z: Word)
    ensures F(x, y, z) & x == y & x
    ensures F(x, y, z) & !x == z & !x
  {
  }

  /** Where Z is set X, elsewhere Y. */
  lemma BitsOfG(x: Word, y: Word, z: Word)
    ensures G(x, y, z) & z == x & z
    ensures G(x, y, z) & !z == y & !z
  {
  }

  /** Z, and the opposite where X and Y differ. */
  lemma BitsOfH(x: Word, y: Word, z: Word)
    ensures H(x, y, z) & !(x ^ y) == z & !(x ^ y)
    ensures H(x, y, z) & (x ^ y) == !z & (x ^ y)
  {
  }

  /** Y where Z is set and X is not, and the opposite elsewhere. */
  lemma BitsOfI(x: Word, y: Word, z: Word)
    ensures I(x, y, z) & (z & !x) == y & (z & !x)
    ensures I(x, y, z) & !(z & !x) == !y & !(z & !x)
  {
  }
}
