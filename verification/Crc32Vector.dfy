/** The check value of CRC-32 and entries of its table, worked out in steps: they bind the polynomial,
    the order of the bits and both complements. */
module Crc32Vector {
  import opened Crc32

  /** Some entries of the table (RFC 2083, section 15). */
  lemma TableEntries(table: seq<bv32>)
    requires IsTable(table)
    ensures table[0] == 0 && table[1] == 0x77073096 && table[128] == 0xedb88320 && table[255] == 0x2d02ef8d
  {
    assert Wide(0) == 0 && Wide(1) == 1 && Wide(128) == 128 && Wide(255) == 255;
    Shifts8(0);
    Entry1();
    Entry128();
    Entry255();
  }

  lemma Entry1()
    ensures Shifts(1, 8) == 0x77073096
  {
    Shifts8(1);
  }

  lemma Entry128()
    ensures Shifts(128, 8) == 0xedb88320
  {
    Shifts8(128);
  }

  lemma Entry255()
    ensures Shifts(255, 8) == 0x2d02ef8d
  {
    Shifts8(255);
  }

  ghost predicate After(m: seq<bv8>, n: nat, c: bv32) {
    n <= |m| && Divide(ONES, Bits(m[..n])) == c
  }

  /** One more byte. */
  lemma Next(m: seq<bv8>, n: nat, c: bv32)
    requires n < |m| && After(m, n, c)
    ensures After(m, n + 1, Shifts(Xor(c, Wide(m[n])), 8))
  {
    BitsNext(m, n);
    DivideConcat(ONES, Bits(m[..n]), BitsOf(m[n]));
    DivideByte(c, m[n]);
  }

  lemma Byte1(m: seq<bv8>)
    requires |m| == 9 && m[0] == 0x31 && After(m, 0, 0xffffffff)
    ensures After(m, 1, 0x7c231048)
  {
    Next(m, 0, 0xffffffff);
    assert Xor(0xffffffff, Wide(0x31)) == 0xffffffce;
    Shifts8(0xffffffce);
  }

  lemma Byte2(m: seq<bv8>)
    requires |m| == 9 && m[1] == 0x32 && After(m, 1, 0x7c231048)
    ensures After(m, 2, 0xb0acbb32)
  {
    Next(m, 1, 0x7c231048);
    assert Xor(0x7c231048, Wide(0x32)) == 0x7c23107a;
    Shifts8(0x7c23107a);
  }

  lemma Byte3(m: seq<bv8>)
    requires |m| == 9 && m[2] == 0x33 && After(m, 2, 0xb0acbb32)
    ensures After(m, 3, 0x77b79c2d)
  {
    Next(m, 2, 0xb0acbb32);
    assert Xor(0xb0acbb32, Wide(0x33)) == 0xb0acbb01;
    Shifts8(0xb0acbb01);
  }

  lemma Byte4(m: seq<bv8>)
    requires |m| == 9 && m[3] == 0x34 && After(m, 3, 0x77b79c2d)
    ensures After(m, 4, 0x641c1f5c)
  {
    Next(m, 3, 0x77b79c2d);
    assert Xor(0x77b79c2d, Wide(0x34)) == 0x77b79c19;
    Shifts8(0x77b79c19);
  }

  lemma Byte5(m: seq<bv8>)
    requires |m| == 9 && m[4] == 0x35 && After(m, 4, 0x641c1f5c)
    ensures After(m, 5, 0x340ac5e3)
  {
    Next(m, 4, 0x641c1f5c);
    assert Xor(0x641c1f5c, Wide(0x35)) == 0x641c1f69;
    Shifts8(0x641c1f69);
  }

  lemma Byte6(m: seq<bv8>)
    requires |m| == 9 && m[5] == 0x36 && After(m, 5, 0x340ac5e3)
    ensures After(m, 6, 0xf68d2c9e)
  {
    Next(m, 5, 0x340ac5e3);
    assert Xor(0x340ac5e3, Wide(0x36)) == 0x340ac5d5;
    Shifts8(0x340ac5d5);
  }

  lemma Byte7(m: seq<bv8>)
    requires |m| == 9 && m[6] == 0x37 && After(m, 6, 0xf68d2c9e)
    ensures After(m, 7, 0xaffc9660)
  {
    Next(m, 6, 0xf68d2c9e);
    assert Xor(0xf68d2c9e, Wide(0x37)) == 0xf68d2ca9;
    Shifts8(0xf68d2ca9);
  }

  lemma Byte8(m: seq<bv8>)
    requires |m| == 9 && m[7] == 0x38 && After(m, 7, 0xaffc9660)
    ensures After(m, 8, 0x651f2550)
  {
    Next(m, 7, 0xaffc9660);
    assert Xor(0xaffc9660, Wide(0x38)) == 0xaffc9658;
    Shifts8(0xaffc9658);
  }

  lemma Byte9(m: seq<bv8>)
    requires |m| == 9 && m[8] == 0x39 && After(m, 8, 0x651f2550)
    ensures After(m, 9, 0x340bc6d9)
  {
    Next(m, 8, 0x651f2550);
    assert Xor(0x651f2550, Wide(0x39)) == 0x651f2569;
    Shifts8(0x651f2569);
  }

  /** The digest of the bytes of "123456789". */
  lemma CheckValue(m: seq<bv8>)
    requires m == [0x31, 0x32, 0x33, 0x34, 0x35, 0x36, 0x37, 0x38, 0x39]
    ensures Digest(m) == 0xcbf43926
  {
    assert m[..0] == [] && m[..9] == m;
    assert After(m, 0, 0xffffffff);
    Byte1(m);
    Byte2(m);
    Byte3(m);
    Byte4(m);
    Byte5(m);
    Byte6(m);
    Byte7(m);
    Byte8(m);
    Byte9(m);
  }
}
