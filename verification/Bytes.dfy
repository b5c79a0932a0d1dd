/** Bytes, and 32-bit integers in little-endian order. */
module Bytes {
  type Byte = x: int | 0 <= x < 256

  const TWO_32 := 0x1_0000_0000
  const TWO_31 := 0x8000_0000

  predicate IsInt32(n: int) {
    -TWO_31 <= n < TWO_31
  }

  /** A signed word as the machine converts it to an unsigned one. */
  function AsUnsigned(n: int): nat
    requires IsInt32(n)
  {
    if n < 0 then n + TWO_32 else n
  }

  function Word(b0: int, b1: int, b2: int, b3: int): int {
    b0 + 0x100 * b1 + 0x1_0000 * b2 + 0x100_0000 * b3
  }

  function GetInt(b: seq<Byte>): (n: int)
    requires |b| == 4
    ensures IsInt32(n)
  {
    var u := Word(b[0], b[1], b[2], b[3]);
    if u < TWO_31 then u else u - TWO_32
  }

  function PutInt(n: int): (b: seq<Byte>)
    ensures |b| == 4
  {
    var u := n % TWO_32;
    [u % 0x100, u / 0x100 % 0x100, u / 0x1_0000 % 0x100, u / 0x100_0000]
  }

  /** The bytes of a text. */
  function Ascii(text: string): (b: seq<Byte>)
    requires forall i :: 0 <= i < |text| ==> text[i] < 128 as char
    ensures |b| == |text| && forall i :: 0 <= i < |b| ==> b[i] == text[i] as int
  {
    seq(|text|, i requires 0 <= i < |text| => text[i] as int)
  }

  /** The low-order byte first. */
  lemma LittleEndian()
    ensures PutInt(0x4030201) == [1, 2, 3, 4] && GetInt([1, 2, 3, 4]) == 0x4030201
    ensures PutInt(-2) == [0xfe, 0xff, 0xff, 0xff] && GetInt([0xfe, 0xff, 0xff, 0xff]) == -2
    ensures AsUnsigned(-2) == 0xffff_fffe && AsUnsigned(0) == 0 && AsUnsigned(2) == 2
  {
  }

  lemma LowDigit(b: int, r: int)
    requires 0 <= b < 0x100
    ensures (b + 0x100 * r) % 0x100 == b && (b + 0x100 * r) / 0x100 == r
  {
  }

  lemma NestedDivision(u: nat)
    ensures u / 0x1_0000 == u / 0x100 / 0x100
    ensures u / 0x100_0000 == u / 0x1_0000 / 0x100
  {
  }

  lemma {:induction false} GetPut(n: int)
    requires IsInt32(n)
    ensures GetInt(PutInt(n)) == n
  {
    NestedDivision(n % TWO_32);
  }

  lemma Digits(b0: Byte, b1: Byte, b2: Byte, b3: Byte)
    ensures var u := Word(b0, b1, b2, b3);
            0 <= u < TWO_32
            && u % 0x100 == b0 && u / 0x100 % 0x100 == b1 && u / 0x1_0000 % 0x100 == b2
            && u / 0x100_0000 == b3
  {
    var u := Word(b0, b1, b2, b3);
    NestedDivision(u);
    LowDigit(b0, Word(b1, b2, b3, 0));
    LowDigit(b1, Word(b2, b3, 0, 0));
    LowDigit(b2, b3);
  }

  lemma Residue(n: int, u: int)
    requires 0 <= u < TWO_32 && (n == u || n == u - TWO_32)
    ensures n % TWO_32 == u
  {
  }

  lemma {:induction false} PutGet(b: seq<Byte>)
    requires |b| == 4
    ensures PutInt(GetInt(b)) == b
  {
    Digits(b[0], b[1], b[2], b[3]);
    Residue(GetInt(b), Word(b[0], b[1], b[2], b[3]));
  }
}
