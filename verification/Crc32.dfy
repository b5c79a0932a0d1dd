/** CRC-32: the table-driven byte loop, the bit-serial division it stands for (RFC 2083,
    sections 3.4 and 15), and what the digest detects. */
module Crc32 {
  const POLYNOMIAL: bv32 := 0xedb88320
  const ONES: bv32 := 0xffffffff

  // --------------------------------------------------------------------- bit-serial division

  function Xor(a: bv32, b: bv32): bv32 {
    a ^ b
  }

  predicate Odd(c: bv32) {
    c & 1 == 1
  }

  function Half(c: bv32): bv32 {
    c >> 1
  }

  /** One step of the reflected division register. */
  function Shift(c: bv32): bv32 {
    if Odd(c) then Xor(POLYNOMIAL, Half(c)) else Half(c)
  }

  function Shifts(c: bv32, n: nat): bv32
    decreases n
  {
    if n == 0 then c else Shifts(Shift(c), n - 1)
  }

  function BitWord(bit: bool): bv32 {
    if bit then 1 else 0
  }

  /** The register after `bits` have been fed in, one at a time. */
  function Divide(c: bv32, bits: seq<bool>): bv32
    decreases |bits|
  {
    if bits == [] then c else Divide(Shift(Xor(c, BitWord(bits[0]))), bits[1..])
  }

  /** The bits of a byte, least significant first. */
  function BitsOf(b: bv8): (bits: seq<bool>)
    ensures |bits| == 8
  {
    [b & 1 != 0, b & 2 != 0, b & 4 != 0, b & 8 != 0,
     b & 16 != 0, b & 32 != 0, b & 64 != 0, b & 128 != 0]
  }

  function Bits(m: seq<bv8>): seq<bool> {
    if m == [] then [] else Bits(m[..|m| - 1]) + BitsOf(m[|m| - 1])
  }

  function Digest(m: seq<bv8>): bv32 {
    Xor(Divide(ONES, Bits(m)), ONES)
  }

  // ------------------------------------------------------------------------- word algebra

  lemma OddXor(a: bv32, b: bv32)
    ensures Odd(Xor(a, b)) <==> Odd(a) != Odd(b)
  {
  }

  lemma HalfXor(a: bv32, b: bv32)
    ensures Half(Xor(a, b)) == Xor(Half(a), Half(b))
  {
  }

  lemma XorAssoc(a: bv32, b: bv32, c: bv32)
    ensures Xor(Xor(a, b), c) == Xor(a, Xor(b, c))
  {
  }

  lemma XorSwap(a: bv32, b: bv32, c: bv32)
    ensures Xor(a, Xor(b, c)) == Xor(b, Xor(a, c))
  {
  }

  lemma XorTwice(a: bv32, b: bv32)
    ensures Xor(a, Xor(a, b)) == b
  {
  }

  lemma XorCommutes(a: bv32, b: bv32)
    ensures Xor(a, b) == Xor(b, a)
  {
  }

  lemma XorCancels(a: bv32, b: bv32, w: bv32)
    requires Xor(w, a) == Xor(w, b)
    ensures a == b
  {
    XorTwice(w, a);
    XorTwice(w, b);
  }

  /** Both halves of `Shift` are sums; this is how the polynomial moves through them. */
  lemma {:induction false} XorMoves(p: bv32, x: bv32, y: bv32)
    ensures Xor(p, Xor(x, y)) == Xor(Xor(p, x), y)
    ensures Xor(p, Xor(x, y)) == Xor(x, Xor(p, y))
    ensures Xor(x, y) == Xor(Xor(p, x), Xor(p, y))
  {
    XorAssoc(p, x, y);
    XorSwap(p, x, y);
    XorAssoc(p, x, Xor(p, y));
    XorSwap(x, p, y);
    XorTwice(p, Xor(x, y));
  }

  lemma {:induction false} ShiftLinear(a: bv32, b: bv32)
    ensures Shift(Xor(a, b)) == Xor(Shift(a), Shift(b))
  {
    OddXor(a, b);
    HalfXor(a, b);
    XorMoves(POLYNOMIAL, Half(a), Half(b));
  }

  /** The top coefficient of the polynomial makes a step reversible. */
  lemma ShiftInjective(a: bv32, b: bv32)
    requires Shift(a) == Shift(b)
    ensures a == b
  {
  }

  lemma {:induction false} ShiftsLinear(a: bv32, b: bv32, n: nat)
    ensures Shifts(Xor(a, b), n) == Xor(Shifts(a, n), Shifts(b, n))
    decreases n
  {
    if n > 0 {
      ShiftLinear(a, b);
      ShiftsLinear(Shift(a), Shift(b), n - 1);
    }
  }

  lemma {:induction false} ShiftsInjective(a: bv32, b: bv32, n: nat)
    requires Shifts(a, n) == Shifts(b, n)
    ensures a == b
    decreases n
  {
    if n > 0 {
      ShiftsInjective(Shift(a), Shift(b), n - 1);
      ShiftInjective(a, b);
    }
  }

  lemma {:induction false} DivideConcat(c: bv32, a: seq<bool>, b: seq<bool>)
    ensures Divide(c, a + b) == Divide(Divide(c, a), b)
    decreases |a|
  {
    if a == [] {
      assert a + b == b;
    } else {
      assert (a + b)[1..] == a[1..] + b;
      DivideConcat(Shift(Xor(c, BitWord(a[0]))), a[1..], b);
    }
  }

  lemma {:induction false} DivideInjective(c: bv32, d: bv32, bits: seq<bool>)
    requires Divide(c, bits) == Divide(d, bits)
    ensures c == d
    decreases |bits|
  {
    if bits != [] {
      var w := BitWord(bits[0]);
      DivideInjective(Shift(Xor(c, w)), Shift(Xor(d, w)), bits[1..]);
      ShiftInjective(Xor(c, w), Xor(d, w));
      XorCommutes(c, w);
      XorCommutes(d, w);
      XorCancels(c, d, w);
    }
  }

  // -------------------------------------------------------------- up to 32 bits as one word

  function Double(v: bv32): bv32 {
    v << 1
  }

  /** `w` below `v`: the word whose lowest bit is `w` and whose others are `v`. */
  function Push(w: bv32, v: bv32): bv32 {
    Xor(w, Double(v))
  }

  /** The first bit least significant. */
  function Number(bits: seq<bool>): bv32
    requires |bits| <= 32
  {
    if bits == [] then 0 else Push(BitWord(bits[0]), Number(bits[1..]))
  }

  /** `v` has bits only where `m` has. */
  predicate Within(v: bv32, m: bv32) {
    v & !m == 0
  }

  /** `n` ones. */
  function Below(n: nat): bv32
    requires n <= 32
  {
    if n == 0 then 0 else Push(1, Below(n - 1))
  }

  lemma PushWithin(w: bv32, v: bv32, m: bv32)
    requires Within(v, m) && Within(w, 1)
    ensures Within(Push(w, v), Push(1, m))
  {
  }

  lemma OneWithin()
    ensures Within(1, 1)
    ensures forall b :: Within(BitWord(b), 1)
    ensures forall m :: Within(0, m)
  {
  }

  lemma {:induction false} NumberBelow(bits: seq<bool>)
    requires |bits| <= 32
    ensures Within(Number(bits), Below(|bits|))
  {
    OneWithin();
    if bits != [] {
      NumberBelow(bits[1..]);
      PushWithin(BitWord(bits[0]), Number(bits[1..]), Below(|bits| - 1));
    }
  }

  lemma {:induction false} BelowGrows(n: nat, m: nat)
    requires n <= m <= 32
    ensures Within(Below(n), Below(m))
    decreases n
  {
    OneWithin();
    if n > 0 {
      BelowGrows(n - 1, m - 1);
      PushWithin(1, Below(n - 1), Below(m - 1));
    }
  }

  lemma Below31()
    ensures Below(31) == 0x7fff_ffff
  {
    assert Below(8) == 0xff;
    assert Below(16) == 0xffff;
    assert Below(24) == 0xff_ffff;
  }

  predicate TopClear(v: bv32) {
    v & 0x8000_0000 == 0
  }

  lemma WithinTopClear(v: bv32, m: bv32)
    requires Within(v, m) && Within(m, 0x7fff_ffff)
    ensures TopClear(v)
  {
  }

  lemma NumberTopClear(bits: seq<bool>)
    requires |bits| <= 31
    ensures TopClear(Number(bits))
  {
    NumberBelow(bits);
    BelowGrows(|bits|, 31);
    Below31();
    WithinTopClear(Number(bits), Below(|bits|));
  }

  lemma ShiftOfDouble(v: bv32)
    requires TopClear(v)
    ensures Shift(Double(v)) == v
  {
  }

  lemma {:induction false} ShiftOfPush(w: bv32, c: bv32, v: bv32)
    requires TopClear(v)
    ensures Shift(Xor(c, Push(w, v))) == Xor(Shift(Xor(c, w)), v)
  {
    ShiftOfDouble(v);
    XorAssoc(c, w, Double(v));
    ShiftLinear(Xor(c, w), Double(v));
  }

  /** Feeding up to 32 bits one at a time is the same as adding them as one word first. */
  lemma {:induction false} DivideWord(c: bv32, bits: seq<bool>)
    requires |bits| <= 32
    ensures Divide(c, bits) == Shifts(Xor(c, Number(bits)), |bits|)
    decreases |bits|
  {
    if bits == [] {
      assert Xor(c, 0) == c;
    } else {
      var w, r := BitWord(bits[0]), Number(bits[1..]);
      DivideWord(Shift(Xor(c, w)), bits[1..]);
      NumberTopClear(bits[1..]);
      ShiftOfPush(w, c, r);
    }
  }

  lemma PushInjective(u: bv32, v: bv32, r: bv32, s: bv32)
    requires Within(u, 1) && Within(v, 1) && TopClear(r) && TopClear(s)
    requires Push(u, r) == Push(v, s)
    ensures u == v && r == s
  {
  }

  lemma {:induction false} NumberInjective(x: seq<bool>, y: seq<bool>)
    requires |x| == |y| <= 32 && Number(x) == Number(y)
    ensures x == y
  {
    if x != [] {
      OneWithin();
      NumberTopClear(x[1..]);
      NumberTopClear(y[1..]);
      PushInjective(BitWord(x[0]), BitWord(y[0]), Number(x[1..]), Number(y[1..]));
      NumberInjective(x[1..], y[1..]);
      assert x == [x[0]] + x[1..] && y == [y[0]] + y[1..];
    }
  }

  // ---------------------------------------------------------------------- the byte-wise loop

  function Wide(b: bv8): bv32 {
    b as bv32
  }

  lemma Number8(x: seq<bool>)
    requires |x| == 8
    ensures Number(x) ==
            Push(BitWord(x[0]), Push(BitWord(x[1]), Push(BitWord(x[2]), Push(BitWord(x[3]),
            Push(BitWord(x[4]), Push(BitWord(x[5]), Push(BitWord(x[6]), Push(BitWord(x[7]), 0))))))))
  {
    assert x[1..][1..] == x[2..] && x[2..][1..] == x[3..] && x[3..][1..] == x[4..];
    assert x[4..][1..] == x[5..] && x[5..][1..] == x[6..] && x[6..][1..] == x[7..];
    assert x[7..][1..] == [];
    assert Number(x[7..]) == Push(BitWord(x[7]), 0);
    assert Number(x[6..]) == Push(BitWord(x[6]), Number(x[7..]));
    assert Number(x[5..]) == Push(BitWord(x[5]), Number(x[6..]));
    assert Number(x[4..]) == Push(BitWord(x[4]), Number(x[5..]));
    assert Number(x[3..]) == Push(BitWord(x[3]), Number(x[4..]));
    assert Number(x[2..]) == Push(BitWord(x[2]), Number(x[3..]));
    assert Number(x[1..]) == Push(BitWord(x[1]), Number(x[2..]));
  }

  lemma BitsOfNumber(b: bv8)
    ensures Number(BitsOf(b)) == Wide(b)
  {
    Number8(BitsOf(b));
  }

  /** Eight bits of the division at once. */
  lemma DivideByte(c: bv32, b: bv8)
    ensures Divide(c, BitsOf(b)) == Shifts(Xor(c, Wide(b)), 8)
  {
    DivideWord(c, BitsOf(b));
    BitsOfNumber(b);
  }

  function LowByte(x: bv32): bv8 {
    (x & 0xff) as bv8
  }

  function HighBytes(x: bv32): bv32 {
    x >> 8
  }

  lemma SplitWord(x: bv32)
    ensures x == Xor(Wide(LowByte(x)), x & 0xffff_ff00)
  {
  }

  lemma HalvesOfHigh(y: bv32)
    requires y & 0xff == 0
    ensures !Odd(y) && !Odd(y >> 1) && !Odd(y >> 2) && !Odd(y >> 3)
    ensures !Odd(y >> 4) && !Odd(y >> 5) && !Odd(y >> 6) && !Odd(y >> 7)
    ensures Half(y >> 1) == y >> 2 && Half(y >> 2) == y >> 3 && Half(y >> 3) == y >> 4
    ensures Half(y >> 4) == y >> 5 && Half(y >> 5) == y >> 6 && Half(y >> 6) == y >> 7
    ensures Half(y >> 7) == HighBytes(y)
  {
  }

  lemma Shifts8(y: bv32)
    ensures Shifts(y, 8) == Shift(Shift(Shift(Shift(Shift(Shift(Shift(Shift(y))))))))
  {
    assert Shifts(y, 8) == Shifts(Shift(Shift(y)), 6);
    assert Shifts(Shift(Shift(y)), 6) == Shifts(Shift(Shift(Shift(Shift(y)))), 4);
  }

  /** Nothing leaves the register while the low byte is zero. */
  lemma ShiftsOfHigh(y: bv32)
    requires y & 0xff == 0
    ensures Shifts(y, 8) == HighBytes(y)
  {
    HalvesOfHigh(y);
    Shifts8(y);
    assert Shift(y) == y >> 1;
  }

  /** The table entry of the low byte accounts for the eight bits that leave the register. */
  lemma {:induction false} ShiftsByTable(x: bv32)
    ensures Shifts(x, 8) == Xor(Shifts(Wide(LowByte(x)), 8), HighBytes(x))
  {
    var y := x & 0xffff_ff00;
    assert y & 0xff == 0 && HighBytes(y) == HighBytes(x);
    SplitWord(x);
    ShiftsLinear(Wide(LowByte(x)), y, 8);
    ShiftsOfHigh(y);
  }

  lemma HighBytesOfXor(c: bv32, b: bv8)
    ensures HighBytes(Xor(c, Wide(b))) == HighBytes(c)
  {
  }

  lemma BitsNext(m: seq<bv8>, i: nat)
    requires i < |m|
    ensures Bits(m[..i + 1]) == Bits(m[..i]) + BitsOf(m[i])
  {
    assert m[..i + 1][..i] == m[..i];
  }

  ghost predicate IsTable(table: seq<bv32>) {
    |table| == 256 && forall k :: 0 <= k < 256 ==> table[k] == Shifts(Wide(k as bv8), 8)
  }

  method Init(table: array<bv32>)
    requires table.Length == 256
    modifies table
    ensures IsTable(table[..])
  {
    var i := 0;
    while i < 256
      invariant 0 <= i <= 256
      invariant forall k :: 0 <= k < i ==> table[k] == Shifts(Wide(k as bv8), 8)
    {
      var c := Wide(i as bv8);
      var j := 0;
      while j < 8
        invariant 0 <= j <= 8
        invariant Shifts(c, 8 - j) == Shifts(Wide(i as bv8), 8)
      {
        c := if Odd(c) then Xor(POLYNOMIAL, Half(c)) else Half(c);
        j := j + 1;
      }
      table[i] := c;
      i := i + 1;
    }
  }

  lemma TableStep(table: seq<bv32>, c: bv32, b: bv8)
    requires IsTable(table)
    ensures Xor(table[LowByte(Xor(c, Wide(b))) as int], HighBytes(c)) == Divide(c, BitsOf(b))
  {
    var x := Xor(c, Wide(b));
    IndexOfByte(LowByte(x));
    ShiftsByTable(x);
    HighBytesOfXor(c, b);
    DivideByte(c, b);
  }

  lemma IndexOfByte(v: bv8)
    ensures (v as int) as bv8 == v
  {
  }

  /** The byte-at-a-time loop computes the bit-serial digest. */
  method Calc(table: array<bv32>, buf: seq<bv8>) returns (result: bv32)
    requires IsTable(table[..])
    ensures result == Digest(buf)
  {
    var c := ONES;
    var i := 0;
    assert buf[..0] == [];
    while i < |buf|
      invariant 0 <= i <= |buf|
      invariant c == Divide(ONES, Bits(buf[..i]))
    {
      TableStep(table[..], c, buf[i]);
      BitsNext(buf, i);
      DivideConcat(ONES, Bits(buf[..i]), BitsOf(buf[i]));
      c := Xor(table[LowByte(Xor(c, Wide(buf[i]))) as int], HighBytes(c));
      i := i + 1;
    }
    assert buf[..i] == buf;
    result := Xor(c, ONES);
  }

  // ------------------------------------------------------------------------------- detection

  /** Two bit strings that differ only inside a window of 32 leave different registers. */
  lemma WindowSeparates(c: bv32, before: seq<bool>, x: seq<bool>, y: seq<bool>, after: seq<bool>)
    requires |x| == |y| <= 32
    requires Divide(c, before + x + after) == Divide(c, before + y + after)
    ensures x == y
  {
    var d := Divide(c, before);
    DivideConcat(c, before + x, after);
    DivideConcat(c, before + y, after);
    DivideConcat(c, before, x);
    DivideConcat(c, before, y);
    DivideInjective(Divide(d, x), Divide(d, y), after);
    DivideWord(d, x);
    DivideWord(d, y);
    ShiftsInjective(Xor(d, Number(x)), Xor(d, Number(y)), |x|);
    XorCancels(Number(x), Number(y), d);
    NumberInjective(x, y);
  }

  lemma ByteOfBits(a: bv8, b: bv8)
    requires BitsOf(a) == BitsOf(b)
    ensures a == b
  {
    BitsOfNumber(a);
    BitsOfNumber(b);
    NarrowWide(a, b);
  }

  lemma NarrowWide(a: bv8, b: bv8)
    requires Wide(a) == Wide(b)
    ensures a == b
  {
  }

  lemma {:induction false} BitsInjective(m: seq<bv8>, n: seq<bv8>)
    requires |m| == |n| && Bits(m) == Bits(n)
    ensures m == n
  {
    if m != [] {
      var k := |m| - 1;
      BitsLength(m[..k]);
      BitsLength(n[..k]);
      var p, q := Bits(m[..k]), Bits(n[..k]);
      assert p == Bits(m)[..8 * k] && q == Bits(n)[..8 * k];
      assert BitsOf(m[k]) == Bits(m)[8 * k..] && BitsOf(n[k]) == Bits(n)[8 * k..];
      BitsInjective(m[..k], n[..k]);
      ByteOfBits(m[k], n[k]);
      assert m == m[..k] + [m[k]] && n == n[..k] + [n[k]];
    }
  }

  lemma {:induction false} BitsLength(m: seq<bv8>)
    ensures |Bits(m)| == 8 * |m|
  {
    if m != [] {
      BitsLength(m[..|m| - 1]);
    }
  }

  /** Every error burst of up to 32 bits is detected, at every bit position and in messages of
      every length: the digests agree exactly when the messages do. */
  lemma {:induction false} BurstDetected(m: seq<bv8>, n: seq<bv8>, before: seq<bool>, x: seq<bool>,
                                       y: seq<bool>, after: seq<bool>)
    requires |m| == |n| && |x| == |y| <= 32
    requires Bits(m) == before + x + after && Bits(n) == before + y + after
    ensures Digest(m) == Digest(n) <==> m == n
  {
    if Digest(m) == Digest(n) {
      var u, v := Divide(ONES, Bits(m)), Divide(ONES, Bits(n));
      XorCommutes(u, ONES);
      XorCommutes(v, ONES);
      XorCancels(u, v, ONES);
      WindowSeparates(ONES, before, x, y, after);
      BitsInjective(m, n);
    }
  }

  lemma {:induction false} BitsConcat(a: seq<bv8>, b: seq<bv8>)
    ensures Bits(a + b) == Bits(a) + Bits(b)
  {
    if b == [] {
      assert a + b == a;
    } else {
      var k := |b| - 1;
      assert (a + b)[..|a + b| - 1] == a + b[..k];
      BitsConcat(a, b[..k]);
    }
  }

  /** In particular, damage confined to four consecutive bytes never goes unnoticed. */
  lemma FourByteWindowDetected(before: seq<bv8>, x: seq<bv8>, y: seq<bv8>, after: seq<bv8>)
    requires |x| == |y| <= 4
    ensures Digest(before + x + after) == Digest(before + y + after) <==> x == y
  {
    var m, n := before + x + after, before + y + after;
    BitsConcat(before + x, after);
    BitsConcat(before + y, after);
    BitsConcat(before, x);
    BitsConcat(before, y);
    BitsLength(x);
    BitsLength(y);
    BurstDetected(m, n, Bits(before), Bits(x), Bits(y), Bits(after));
    assert x == m[|before|..|before| + |x|] && y == n[|before|..|before| + |x|];
  }
}
