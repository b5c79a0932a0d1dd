/** The word arithmetic behind the ring's capacity: rounding up to a power of two, and masking
    with one less than it. Words are naturals below 2^32, their bits taken off from below. */
module Capacity {
  import opened Bytes

  function Pow2(k: nat): (p: nat)
    ensures p > 0
  {
    if k == 0 then 1 else 2 * Pow2(k - 1)
  }

  ghost predicate IsPow2(n: nat) {
    exists k: nat :: n == Pow2(k)
  }

  function BitAnd(a: nat, b: nat): nat {
    if a == 0 || b == 0 then 0 else 2 * BitAnd(a / 2, b / 2) + (if a % 2 + b % 2 == 2 then 1 else 0)
  }

  function BitOr(a: nat, b: nat): nat
    decreases a + b
  {
    if a == 0 then b else if b == 0 then a
    else 2 * BitOr(a / 2, b / 2) + (if a % 2 + b % 2 == 0 then 0 else 1)
  }

  function ShiftRight(a: nat, n: nat): nat {
    if n == 0 then a else ShiftRight(a, n - 1) / 2
  }

  // ------------------------------------------------------------------------------- masking

  lemma {:induction false} MaskBits(x: nat, k: nat)
    requires x <= Pow2(k)
    ensures BitAnd(x, Pow2(k) - 1) == if x == Pow2(k) then 0 else x
  {
    if k > 0 && x > 0 {
      MaskBits(x / 2, k - 1);
      var p := Pow2(k - 1);
      assert (2 * p - 1) / 2 == p - 1 && (2 * p - 1) % 2 == 1;
    }
  }

  /** Masking an offset that has reached at most the end of the ring is wrapping it. */
  lemma MaskIsWrap(x: nat, capacity: nat)
    requires IsPow2(capacity) && x <= capacity
    ensures BitAnd(x, capacity - 1) == if x == capacity then 0 else x
  {
    var k: nat :| capacity == Pow2(k);
    MaskBits(x, k);
  }

  // ------------------------------------------------------------------------- rounding up

  lemma {:induction false} OrBounds(a: nat, b: nat, m: nat)
    requires a < Pow2(m) && b < Pow2(m)
    ensures b <= BitOr(a, b) < Pow2(m)
  {
    if a > 0 && b > 0 {
      OrBounds(a / 2, b / 2, m - 1);
    }
  }

  function ShiftLeft(a: nat, n: nat): nat {
    if n == 0 then a else 2 * ShiftLeft(a, n - 1)
  }

  /** High bits that the other operand does not reach stay as they are. */
  lemma {:induction false} OrKeepsHigh(h: nat, a: nat, b: nat, m: nat)
    requires a < Pow2(m) && b < Pow2(m)
    ensures BitOr(ShiftLeft(h, m) + a, b) == ShiftLeft(h, m) + BitOr(a, b)
  {
    if m == 0 {
      assert a == 0 && b == 0;
    } else {
      OrKeepsHigh(h, a / 2, b / 2, m - 1);
      var x := ShiftLeft(h, m) + a;
      assert x / 2 == ShiftLeft(h, m - 1) + a / 2 && x % 2 == a % 2;
    }
  }

  lemma {:induction false} OnesOnTop(n: nat, m: nat)
    ensures ShiftLeft(Pow2(n) - 1, m) == Pow2(n + m) - Pow2(m)
  {
    if m > 0 {
      OnesOnTop(n, m - 1);
    }
  }

  lemma {:induction false} Pow2Grows(i: nat, j: nat)
    requires i <= j
    ensures Pow2(i) <= Pow2(j)
  {
    if i < j {
      Pow2Grows(i, j - 1);
    }
  }

  /** `a` has `j` bits, of which all above the lowest `i` are ones. */
  predicate Smeared(a: nat, i: nat, j: nat) {
    i <= j && Pow2(j) - Pow2(i) <= a < Pow2(j)
  }

  lemma {:induction false} ShiftSmeared(a: nat, i: nat, j: nat, n: nat)
    requires Smeared(a, i, j) && n <= j
    ensures Smeared(ShiftRight(a, n), if n < i then i - n else 0, j - n)
  {
    if n > 0 {
      ShiftSmeared(a, i, j, n - 1);
      var b := ShiftRight(a, n - 1);
      var k := if n - 1 < i then i - (n - 1) else 0;
      assert Pow2(j - (n - 1)) == 2 * Pow2(j - n);
      assert k > 0 ==> Pow2(k) == 2 * Pow2(k - 1);
    }
  }

  lemma {:induction false} ShiftToNothing(a: nat, j: nat, n: nat)
    requires a < Pow2(j) && j <= n
    ensures ShiftRight(a, n) == 0
  {
    if j == 0 {
      ShiftOfZero(n);
    } else {
      ShiftHalf(a, n);
      ShiftToNothing(a / 2, j - 1, n - 1);
    }
  }

  lemma {:induction false} ShiftHalf(a: nat, n: nat)
    requires n > 0
    ensures ShiftRight(a, n) == ShiftRight(a / 2, n - 1)
  {
    if n > 1 {
      ShiftHalf(a, n - 1);
    }
  }

  lemma {:induction false} ShiftOfZero(n: nat)
    ensures ShiftRight(0, n) == 0
  {
    if n > 0 {
      ShiftOfZero(n - 1);
    }
  }

  /** One of the five steps doubles the number of ones at the top. */
  lemma SmearStep(a: nat, i: nat, j: nat, n: nat)
    requires Smeared(a, i, j) && i + n == j
    ensures Smeared(BitOr(a, ShiftRight(a, n)), if n < i then i - n else 0, j)
  {
    var b := ShiftRight(a, n);
    ShiftSmeared(a, i, j, n);
    var low := a - (Pow2(j) - Pow2(i));
    OnesOnTop(n, i);
    OrKeepsHigh(Pow2(n) - 1, low, b, i);
    OrBounds(low, b, i);
  }

  /** A step with all bits below the top one already ones changes nothing. */
  lemma SmearDone(a: nat, j: nat, n: nat)
    requires a == Pow2(j) - 1
    ensures BitOr(a, ShiftRight(a, n)) == a
  {
    if n >= j {
      ShiftToNothing(a, j, n);
    } else {
      ShiftSmeared(a, 0, j, n);
      Pow2Grows(j - n, j);
      OrWithin(j, j - n);
    }
  }

  lemma {:induction false} OrWithin(j: nat, i: nat)
    requires i <= j
    ensures BitOr(Pow2(j) - 1, Pow2(i) - 1) == Pow2(j) - 1
  {
    if i > 0 {
      OrWithin(j - 1, i - 1);
      var p, q := Pow2(j - 1), Pow2(i - 1);
      assert (2 * p - 1) / 2 == p - 1 && (2 * p - 1) % 2 == 1;
      assert (2 * q - 1) / 2 == q - 1 && (2 * q - 1) % 2 == 1;
    }
  }

  /** After a step of width `n`, at least the top `2 * n` bits are ones. */
  ghost predicate TopOnes(a: nat, j: nat, n: nat) {
    Smeared(a, if n < j then j - n else 0, j)
  }

  lemma TopOnesStep(a: nat, j: nat, n: nat)
    requires TopOnes(a, j, n)
    ensures TopOnes(BitOr(a, ShiftRight(a, n)), j, 2 * n)
  {
    if n < j {
      SmearStep(a, j - n, j, n);
    } else {
      SmearDone(a, j, n);
    }
  }

  function BitLength(a: nat): nat {
    if a == 0 then 0 else 1 + BitLength(a / 2)
  }

  lemma {:induction false} BitLengthBounds(a: nat)
    ensures a < Pow2(BitLength(a))
    ensures a > 0 ==> BitLength(a) > 0 && Pow2(BitLength(a) - 1) <= a
  {
    if a > 0 {
      BitLengthBounds(a / 2);
    }
  }

  lemma Pow2Nibble(k: nat)
    ensures Pow2(k + 4) == 16 * Pow2(k)
  {
    assert Pow2(k + 2) == 4 * Pow2(k);
  }

  lemma Pow2Of32()
    ensures Pow2(31) == 0x8000_0000 && Pow2(32) == TWO_32
  {
    Pow2Nibble(0);
    Pow2Nibble(4);
    Pow2Nibble(8);
    Pow2Nibble(12);
    Pow2Nibble(16);
    Pow2Nibble(20);
    Pow2Nibble(24);
    Pow2Nibble(28);
    assert Pow2(32) == 2 * Pow2(31);
  }

  lemma {:induction false} BitLengthAtMost(a: nat, j: nat)
    requires a < Pow2(j)
    ensures BitLength(a) <= j
  {
    if a > 0 {
      BitLengthAtMost(a / 2, j - 1);
    }
  }

  /** The least power of two that is not below `x`, and 0 exactly when there is none in 32 bits
      (or `x` is 0). */
  method RoundupPow2(x: nat) returns (r: nat)
    requires x < TWO_32
    ensures r == 0 <==> x == 0 || x > 0x8000_0000
    ensures r != 0 ==> IsPow2(r) && x <= r < 2 * x
  {
    var y := (x - 1) % TWO_32;
    ghost var j := BitLength(y);
    BitLengthBounds(y);
    assert TopOnes(y, j, 1);
    y := Smear(y, 1, j);
    y := Smear(y, 2, j);
    y := Smear(y, 4, j);
    y := Smear(y, 8, j);
    y := Smear(y, 16, j);
    RoundedUp(x, y, j);
    r := (y + 1) % TWO_32;
  }

  method Smear(x: nat, n: nat, ghost j: nat) returns (y: nat)
    requires TopOnes(x, j, n)
    ensures TopOnes(y, j, 2 * n)
  {
    TopOnesStep(x, j, n);
    y := BitOr(x, ShiftRight(x, n));
  }

  /** The word one less than `x`. */
  lemma Predecessor(x: nat)
    requires x < TWO_32
    ensures (x - 1) % TWO_32 == if x == 0 then TWO_32 - 1 else x - 1
  {
  }

  lemma Successor(y: nat)
    requires y < TWO_32
    ensures (y + 1) % TWO_32 == if y == TWO_32 - 1 then 0 else y + 1
  {
  }

  lemma RoundedUp(x: nat, y: nat, j: nat)
    requires x < TWO_32 && j == BitLength((x - 1) % TWO_32) && TopOnes(y, j, 32)
    ensures var r := (y + 1) % TWO_32;
            (r == 0 <==> x == 0 || x > 0x8000_0000) && (r != 0 ==> IsPow2(r) && x <= r < 2 * x)
  {
    Predecessor(x);
    var a := if x == 0 then TWO_32 - 1 else x - 1;
    Pow2Of32();
    BitLengthAtMost(a, 32);
    assert y == Pow2(j) - 1;
    Pow2Grows(j, 32);
    Successor(y);
    NextPow2(a, j);
  }

  /** Above `a` the next power of two is that of its length in bits. */
  lemma NextPow2(a: nat, j: nat)
    requires a < Pow2(32) && j == BitLength(a) && Pow2(31) == 0x8000_0000 && Pow2(32) == TWO_32
    ensures a < Pow2(j) && (a > 0 ==> Pow2(j) <= 2 * a) && (a == 0 ==> j == 0)
    ensures Pow2(j) == TWO_32 <==> a >= 0x8000_0000
  {
    BitLengthBounds(a);
    BitLengthAtMost(a, 32);
    if a < 0x8000_0000 {
      BitLengthAtMost(a, 31);
      Pow2Grows(j, 31);
    } else if j < 32 {
      Pow2Grows(j, 31);
    }
  }
}
