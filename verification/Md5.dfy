/** MD5: the streaming block loop and its rotating registers, against the padding and the four
    rounds of RFC 1321, sections 3.1 to 3.5. */
module Md5 {
  import opened Bytes
  import opened Words

  // ------------------------------------------------------------------------ RFC 1321, 3.1-3.2

  /** A word as four bytes, the low-order byte first. */
  function WordBytes(v: nat): (b: seq<bv8>)
    ensures |b| == 4
  {
    [(v % 0x100) as bv8, (v / 0x100 % 0x100) as bv8, (v / 0x1_0000 % 0x100) as bv8,
     (v / 0x100_0000 % 0x100) as bv8]
  }

  /** The length in bits as two words, the low-order word first. */
  function LengthBytes(m: seq<bv8>): (b: seq<bv8>)
    ensures |b| == 8
  {
    WordBytes(8 * |m| % TWO_32) + WordBytes(8 * |m| / TWO_32 % TWO_32)
  }

  function Zeros(n: nat): seq<bv8> {
    seq(n, _ => 0)
  }

  /** The message, a one bit, zeros up to 56 bytes modulo 64, and the length. */
  function Padded(m: seq<bv8>): seq<bv8> {
    m + [0x80] + Zeros((119 - |m| % 64) % 64) + LengthBytes(m)
  }

  lemma PadFillsBlock(n: nat)
    ensures n + 1 + (119 - n % 64) % 64 + 8 == 64 * ((n + 72) / 64)
  {
    var q, r := n / 64, n % 64;
    assert n == 64 * q + r;
    if r < 56 {
      assert (n + 72) / 64 == q + 1;
    } else {
      assert (n + 72) / 64 == q + 2;
    }
  }

  lemma PaddedLength(m: seq<bv8>)
    ensures |Padded(m)| == 64 * ((|m| + 72) / 64)
  {
    PadFillsBlock(|m|);
  }

  function Block(m: seq<bv8>, j: nat): (b: seq<bv8>)
    requires j < (|m| + 72) / 64
    ensures |b| == 64
  {
    PaddedLength(m);
    Padded(m)[64 * j..64 * j + 64]
  }

  // ------------------------------------------------------------------------ RFC 1321, 3.3-3.5

  datatype State = State(a: Word, b: Word, c: Word, d: Word)

  const INITIAL := State(0x67452301, 0xefcdab89, 0x98badcfe, 0x10325476)

  /** The message words as the second, third and fourth round list them. */
  const ROUND_2: seq<nat> := [1, 6, 11, 0, 5, 10, 15, 4, 9, 14, 3, 8, 13, 2, 7, 12]
  const ROUND_3: seq<nat> := [5, 8, 11, 14, 1, 4, 7, 10, 13, 0, 3, 6, 9, 12, 15, 2]
  const ROUND_4: seq<nat> := [0, 7, 14, 5, 12, 3, 10, 1, 8, 15, 6, 13, 4, 11, 2, 9]

  function WordIndex(i: nat): nat
    requires i < 64
  {
    if i < 16 then i
    else if i < 32 then ROUND_2[i - 16]
    else if i < 48 then ROUND_3[i - 32]
    else ROUND_4[i - 48]
  }

  /** The shift amounts, one row of four per round. */
  function ShiftAmount(i: nat): (s: bv32)
    ensures s < 32
  {
    var k := i % 4;
    if i < 16 then if k == 0 then 7 else if k == 1 then 12 else if k == 2 then 17 else 22
    else if i < 32 then if k == 0 then 5 else if k == 1 then 9 else if k == 2 then 14 else 20
    else if i < 48 then if k == 0 then 4 else if k == 1 then 11 else if k == 2 then 16 else 23
    else if k == 0 then 6 else if k == 1 then 10 else if k == 2 then 15 else 21
  }

  /** The constants, one list per round. */
  const SINE_1: seq<Word> := [
    0xd76aa478, 0xe8c7b756, 0x242070db, 0xc1bdceee, 0xf57c0faf, 0x4787c62a, 0xa8304613, 0xfd469501,
    0x698098d8, 0x8b44f7af, 0xffff5bb1, 0x895cd7be, 0x6b901122, 0xfd987193, 0xa679438e, 0x49b40821]
  const SINE_2: seq<Word> := [
    0xf61e2562, 0xc040b340, 0x265e5a51, 0xe9b6c7aa, 0xd62f105d, 0x02441453, 0xd8a1e681, 0xe7d3fbc8,
    0x21e1cde6, 0xc33707d6, 0xf4d50d87, 0x455a14ed, 0xa9e3e905, 0xfcefa3f8, 0x676f02d9, 0x8d2a4c8a]
  const SINE_3: seq<Word> := [
    0xfffa3942, 0x8771f681, 0x6d9d6122, 0xfde5380c, 0xa4beea44, 0x4bdecfa9, 0xf6bb4b60, 0xbebfbc70,
    0x289b7ec6, 0xeaa127fa, 0xd4ef3085, 0x04881d05, 0xd9d4d039, 0xe6db99e5, 0x1fa27cf8, 0xc4ac5665]
  const SINE_4: seq<Word> := [
    0xf4292244, 0x432aff97, 0xab9423a7, 0xfc93a039, 0x655b59c3, 0x8f0ccc92, 0xffeff47d, 0x85845dd1,
    0x6fa87e4f, 0xfe2ce6e0, 0xa3014314, 0x4e0811a1, 0xf7537e82, 0xbd3af235, 0x2ad7d2bb, 0xeb86d391]

  function Sine(i: nat): Word
    requires i < 64
  {
    if i < 16 then SINE_1[i]
    else if i < 32 then SINE_2[i - 16]
    else if i < 48 then SINE_3[i - 32]
    else SINE_4[i - 48]
  }

  predicate Small(k: nat) {
    k == 0 || k == 1 || k == 2 || k == 3 || k == 4 || k == 5 || k == 6 || k == 7 || k == 8
    || k == 9 || k == 10 || k == 11 || k == 12 || k == 13 || k == 14 || k == 15
  }

  lemma Mod16(x: int, k: int)
    ensures (x + 16 * k) % 16 == x % 16
  {
  }

  lemma Round2IsLinear(k: nat)
    requires k < 16
    ensures ROUND_2[k] == (5 * k + 1) % 16
  {
    assert Small(k);
  }

  lemma Round3IsLinear(k: nat)
    requires k < 16
    ensures ROUND_3[k] == (3 * k + 5) % 16
  {
    assert Small(k);
  }

  lemma Round4IsLinear(k: nat)
    requires k < 16
    ensures ROUND_4[k] == (7 * k) % 16
  {
    assert Small(k);
  }

  /** The word that the loop computes for operation `i`. */
  function LoopIndex(i: nat): nat {
    if i < 16 then i
    else if i < 32 then (5 * i + 1) % 16
    else if i < 48 then (3 * i + 5) % 16
    else (7 * i) % 16
  }

  lemma {:induction false} LoopIndexInRound(i: nat)
    requires i < 64
    ensures 16 <= i < 32 ==> LoopIndex(i) == (5 * (i - 16) + 1) % 16
    ensures 32 <= i < 48 ==> LoopIndex(i) == (3 * (i - 32) + 5) % 16
    ensures 48 <= i ==> LoopIndex(i) == (7 * (i - 48)) % 16
    ensures LoopIndex(i) < 16
  {
    Mod16(5 * (i - 16) + 1, 5);
    Mod16(3 * (i - 32) + 5, 6);
    Mod16(7 * (i - 48), 21);
  }

  /** The lists are arithmetic progressions modulo 16. */
  lemma {:induction false} WordIndexIsLinear(i: nat)
    requires i < 64
    ensures WordIndex(i) == LoopIndex(i) < 16
  {
    LoopIndexInRound(i);
    if 16 <= i < 32 {
      Round2IsLinear(i - 16);
    } else if 32 <= i < 48 {
      Round3IsLinear(i - 32);
    } else if 48 <= i {
      Round4IsLinear(i - 48);
    }
  }

  function WordAt(block: seq<bv8>, k: nat): Word
    requires |block| == 64 && k < 16
  {
    (block[4 * k] as bv32) | ((block[4 * k + 1] as bv32) << 8)
    | ((block[4 * k + 2] as bv32) << 16) | ((block[4 * k + 3] as bv32) << 24)
  }

  /** Each byte of the block in its place, the low-order byte first (section 2). */
  lemma WordBytesInOrder(block: seq<bv8>, k: nat)
    requires |block| == 64 && k < 16
    ensures var w := WordAt(block, k);
            && (w & 0xff) as bv8 == block[4 * k] && ((w >> 8) & 0xff) as bv8 == block[4 * k + 1]
            && ((w >> 16) & 0xff) as bv8 == block[4 * k + 2] && ((w >> 24) & 0xff) as bv8 == block[4 * k + 3]
  {
    PackedBytes(block[4 * k], block[4 * k + 1], block[4 * k + 2], block[4 * k + 3]);
  }

  lemma PackedBytes(b0: bv8, b1: bv8, b2: bv8, b3: bv8)
    ensures var w := (b0 as bv32) | ((b1 as bv32) << 8) | ((b2 as bv32) << 16) | ((b3 as bv32) << 24);
            && (w & 0xff) as bv8 == b0 && ((w >> 8) & 0xff) as bv8 == b1
            && ((w >> 16) & 0xff) as bv8 == b2 && ((w >> 24) & 0xff) as bv8 == b3
  {
  }

  /** The auxiliary function of operation `i`'s round. */
  function Auxiliary(i: nat, x: Word, y: Word, z: Word): Word {
    if i < 16 then F(x, y, z) else if i < 32 then G(x, y, z) else if i < 48 then H(x, y, z) else I(x, y, z)
  }

  /** `a = b + ((a + f(b,c,d) + X[k] + T[i]) <<< s)` */
  function Operation(i: nat, block: seq<bv8>, a: Word, b: Word, c: Word, d: Word): Word
    requires i < 64 && |block| == 64
  {
    WordIndexIsLinear(i);
    var sum := Sum(a, Auxiliary(i, b, c, d), WordAt(block, WordIndex(i)), Sine(i));
    Add(b, LeftRotate(sum, ShiftAmount(i)))
  }

  /** Operations come in the order ABCD, DABC, CDAB, BCDA: each changes one register. */
  function Operate(i: nat, block: seq<bv8>, s: State): State
    requires i < 64 && |block| == 64
  {
    var phase := i % 4;
    if phase == 0 then s.(a := Operation(i, block, s.a, s.b, s.c, s.d))
    else if phase == 1 then s.(d := Operation(i, block, s.d, s.a, s.b, s.c))
    else if phase == 2 then s.(c := Operation(i, block, s.c, s.d, s.a, s.b))
    else s.(b := Operation(i, block, s.b, s.c, s.d, s.a))
  }

  function Rounds(n: nat, block: seq<bv8>, s: State): State
    requires n <= 64 && |block| == 64
  {
    if n == 0 then s else Operate(n - 1, block, Rounds(n - 1, block, s))
  }

  function AddState(s: State, t: State): State {
    State(Add(s.a, t.a), Add(s.b, t.b), Add(s.c, t.c), Add(s.d, t.d))
  }

  function Process(s: State, block: seq<bv8>): State
    requires |block| == 64
  {
    AddState(s, Rounds(64, block, s))
  }

  function Chain(m: seq<bv8>, n: nat): State
    requires n <= (|m| + 72) / 64
  {
    if n == 0 then INITIAL else Process(Chain(m, n - 1), Block(m, n - 1))
  }

  function Digest(m: seq<bv8>): State {
    Chain(m, (|m| + 72) / 64)
  }

  lemma BlockOfMessage(m: seq<bv8>, j: nat)
    requires 64 * j + 64 <= |m|
    ensures Block(m, j) == m[64 * j..64 * j + 64]
  {
    PaddedLength(m);
  }

  /** Whole blocks of the message do not depend on what comes after them. */
  lemma {:induction false} ChainOfPrefix(m: seq<bv8>, more: seq<bv8>, n: nat)
    requires 64 * n <= |m|
    ensures Chain(m + more, n) == Chain(m, n)
    decreases n
  {
    if n > 0 {
      ChainOfPrefix(m, more, n - 1);
      BlockOfPrefix(m, more, n - 1);
      SameNext(m + more, m, n - 1);
    }
  }

  lemma SameNext(l: seq<bv8>, m: seq<bv8>, n: nat)
    requires 64 * n + 64 <= |l| && 64 * n + 64 <= |m|
    requires Chain(l, n) == Chain(m, n) && Block(l, n) == Block(m, n)
    ensures Chain(l, n + 1) == Chain(m, n + 1)
  {
  }

  lemma BlockOfPrefix(m: seq<bv8>, more: seq<bv8>, j: nat)
    requires 64 * j + 64 <= |m|
    ensures Block(m + more, j) == Block(m, j)
  {
    BlockOfMessage(m, j);
    BlockOfMessage(m + more, j);
    var at := 64 * j;
    assert (m + more)[at..at + 64] == m[at..at + 64];
  }

  /** A further block is processed from the state that the blocks before it have led to, and starts
      from the initial one if there are none. */
  lemma {:induction false} StreamsOn(m: seq<bv8>, block: seq<bv8>, more: seq<bv8>, n: nat)
    requires |m| == 64 * n && |block| == 64
    ensures Chain(m + block + more, n + 1) == Process(if m == [] then INITIAL else Chain(m, n), block)
  {
    var all := m + block + more;
    assert all == m + (block + more) && all[64 * n..64 * n + 64] == block;
    ChainOfPrefix(m, block + more, n);
    BlockOfMessage(all, n);
  }

  // --------------------------------------------------------------- the rotating registers

  /** The four registers in the order in which the loop holds them in each phase. */
  function Rotated(phase: nat, s: State): State
    requires phase < 4
  {
    if phase == 0 then s
    else if phase == 1 then State(s.d, s.a, s.b, s.c)
    else if phase == 2 then State(s.c, s.d, s.a, s.b)
    else State(s.b, s.c, s.d, s.a)
  }

  /** How the loop writes the second round's function. */
  function LoopG(b: Word, c: Word, d: Word): Word {
    (d & b) | (!d & c)
  }

  /** The loop's own choice of auxiliary function. */
  function Mix(i: nat, b: Word, c: Word, d: Word): Word {
    if i < 16 then F(b, c, d) else if i < 32 then LoopG(b, c, d) else if i < 48 then H(b, c, d) else I(b, c, d)
  }

  lemma MixIsAuxiliary(i: nat, b: Word, c: Word, d: Word)
    ensures Mix(i, b, c, d) == Auxiliary(i, b, c, d)
  {
    GCommutes(b, c, d);
  }

  lemma GCommutes(b: Word, c: Word, d: Word)
    ensures LoopG(b, c, d) == G(b, c, d)
  {
  }

  lemma SumSwap(u: Word, v: Word, x: Word, y: Word)
    ensures Sum(u, v, x, y) == Sum(u, v, y, x)
  {
  }

  /** One turn of the loop: rotate the names, change one of them. */
  function Turn(i: nat, block: seq<bv8>, r: State): State
    requires i < 64 && |block| == 64
  {
    WordIndexIsLinear(i);
    var input := WordAt(block, WordIndex(i));
    var sum := Sum(r.a, Mix(i, r.b, r.c, r.d), Sine(i), input);
    State(r.d, Add(r.b, LeftRotate(sum, ShiftAmount(i))), r.b, r.c)
  }

  lemma {:induction false} TurnIsOperation(i: nat, block: seq<bv8>, r: State)
    requires i < 64 && |block| == 64
    ensures Turn(i, block, r) == State(r.d, Operation(i, block, r.a, r.b, r.c, r.d), r.b, r.c)
  {
    MixIsAuxiliary(i, r.b, r.c, r.d);
    WordIndexIsLinear(i);
    SumSwap(r.a, Mix(i, r.b, r.c, r.d), Sine(i), WordAt(block, WordIndex(i)));
  }

  /** The register that an operation changes in each phase. */
  function SetRegister(phase: nat, s: State, v: Word): State
    requires phase < 4
  {
    if phase == 0 then s.(a := v)
    else if phase == 1 then s.(d := v)
    else if phase == 2 then s.(c := v)
    else s.(b := v)
  }

  lemma {:induction false} RotatedNext(phase: nat, s: State, v: Word)
    requires phase < 4
    ensures var r := Rotated(phase, s);
            State(r.d, v, r.b, r.c) == Rotated(if phase == 3 then 0 else phase + 1, SetRegister(phase, s, v))
  {
    if phase == 0 {
    } else if phase == 1 {
    } else if phase == 2 {
    } else {
    }
  }

  lemma OperateSets(i: nat, block: seq<bv8>, s: State)
    requires i < 64 && |block| == 64
    ensures var r := Rotated(i % 4, s);
            Operate(i, block, s) == SetRegister(i % 4, s, Operation(i, block, r.a, r.b, r.c, r.d))
  {
    var phase := i % 4;
    if phase == 0 {
    } else if phase == 1 {
    } else if phase == 2 {
    } else {
    }
  }

  lemma NextPhase(i: nat)
    ensures (i + 1) % 4 == if i % 4 == 3 then 0 else i % 4 + 1
  {
  }

  /** Rotating the names of the registers is going through the four operand orders. */
  lemma {:induction false} TurnIsOperate(i: nat, block: seq<bv8>, s: State)
    requires i < 64 && |block| == 64
    ensures Turn(i, block, Rotated(i % 4, s)) == Rotated((i + 1) % 4, Operate(i, block, s))
  {
    var r := Rotated(i % 4, s);
    TurnIsOperation(i, block, r);
    OperateSets(i, block, s);
    RotatedNext(i % 4, s, Operation(i, block, r.a, r.b, r.c, r.d));
    NextPhase(i);
  }

  method Choose(i: nat, b: Word, c: Word, d: Word) returns (f: Word, g: nat)
    requires i < 64
    ensures f == Mix(i, b, c, d) && g == WordIndex(i)
  {
    WordIndexIsLinear(i);
    if i < 16 {
      f, g := F(b, c, d), i;
    } else if i < 32 {
      f, g := LoopG(b, c, d), (5 * i + 1) % 16;
    } else if i < 48 {
      f, g := H(b, c, d), (3 * i + 5) % 16;
    } else {
      f, g := I(b, c, d), (7 * i) % 16;
    }
  }

  /** The body of the round loop. */
  method OneTurn(i: nat, block: seq<bv8>, r: State) returns (t: State)
    requires i < 64 && |block| == 64
    ensures t == Turn(i, block, r)
  {
    var a, b, c, d := r.a, r.b, r.c, r.d;
    WordIndexIsLinear(i);
    var f, g := Choose(i, b, c, d);
    var dTemp := d;
    d := c;
    c := b;
    b := Add(b, LeftRotate(Sum(a, f, Sine(i), WordAt(block, g)), ShiftAmount(i)));
    a := dTemp;
    t := State(a, b, c, d);
  }

  method RunRounds(block: seq<bv8>, s: State) returns (r: State)
    requires |block| == 64
    ensures r == Rounds(64, block, s)
  {
    r := s;
    var i := 0;
    while i < 64
      invariant 0 <= i <= 64
      invariant r == Rotated(i % 4, Rounds(i, block, s))
    {
      TurnIsOperate(i, block, Rounds(i, block, s));
      r := OneTurn(i, block, r);
      i := i + 1;
    }
  }

  // ------------------------------------------------------------------------ the block loop

  /** Byte `k` of the block that the loop builds when `len` bytes remain. */
  function RestByte(m: seq<bv8>, len: int, k: nat): bv8
    requires len <= |m| && k < 64
  {
    if k < len then m[|m| - len + k]
    else if k == len then 0x80
    else if len < 56 && 56 <= k < 60 then WordBytes(8 * |m|)[k - 56]
    else 0
  }

  function BuiltByte(m: seq<bv8>, j: nat, k: nat): bv8
    requires k < 64
  {
    RestByte(m, |m| - 64 * j, k)
  }

  lemma {:induction false} ShortLength(m: seq<bv8>)
    requires |m| < 0x1000_0000
    ensures LengthBytes(m) == WordBytes(8 * |m|) + [0, 0, 0, 0]
  {
    var v := 8 * |m|;
    assert v % TWO_32 == v && v / TWO_32 == 0;
    assert WordBytes(0) == [0, 0, 0, 0];
  }

  lemma {:induction false} PaddedAt(m: seq<bv8>, at: nat)
    requires |m| < 0x1000_0000 && at < |Padded(m)|
    ensures var end := |Padded(m)| - 8;
            Padded(m)[at] ==
            if at < |m| then m[at]
            else if at == |m| then 0x80
            else if at < end then 0
            else if at < end + 4 then WordBytes(8 * |m|)[at - end]
            else 0
  {
    ShortLength(m);
    var zeros := Zeros((119 - |m| % 64) % 64);
    assert Padded(m) == m + [0x80] + zeros + LengthBytes(m);
  }

  /** The blocks visited are those of the padded message, the extra one included, for which
      the number of bytes left is negative. */
  lemma {:induction false} BuiltBlock(m: seq<bv8>, j: nat)
    requires |m| < 0x1000_0000 && j < (|m| + 72) / 64
    ensures forall k :: 0 <= k < 64 ==> Block(m, j)[k] == BuiltByte(m, j, k)
  {
    PaddedLength(m);
    forall k | 0 <= k < 64
      ensures Block(m, j)[k] == BuiltByte(m, j, k)
    {
      PaddedAt(m, 64 * j + k);
      BuiltByteIsPadding(m, j, k);
    }
  }

  lemma BuiltByteIsPadding(m: seq<bv8>, j: nat, k: nat)
    requires |m| < 0x1000_0000 && j < (|m| + 72) / 64 && k < 64
    ensures var at := 64 * j + k;
            var end := 64 * ((|m| + 72) / 64) - 8;
            BuiltByte(m, j, k) ==
            if at < |m| then m[at]
            else if at == |m| then 0x80
            else if at < end then 0
            else if at < end + 4 then WordBytes(8 * |m|)[at - end]
            else 0
  {
    var len := |m| - 64 * j;
    var chunks := (|m| + 72) / 64;
    assert len < 56 <==> j == chunks - 1;
  }

  /** Fills the block for the chunk at which `len` bytes remain; `len` may be negative. */
  method FillBlock(m: seq<bv8>, len: int, temp: array<bv8>)
    requires temp.Length == 64 && len <= |m| && -64 <= len < 64
    modifies temp
    ensures forall k :: 0 <= k < 64 ==> temp[k] == RestByte(m, len, k)
  {
    forall k | 0 <= k < 64 {
      temp[k] := 0;
    }
    if len >= 0 {
      forall k | 0 <= k < len {
        temp[k] := m[|m| - len + k];
      }
      temp[len] := 0x80;
    }
    if len < 56 {
      var bits := WordBytes(8 * |m|);
      temp[56], temp[57], temp[58], temp[59] := bits[0], bits[1], bits[2], bits[3];
    }
  }

  /** The 64 bytes of chunk `j`: straight from the message, or built in `temp`. */
  method NextInput(m: seq<bv8>, len: int, ghost j: nat, temp: array<bv8>) returns (input: seq<bv8>)
    requires |m| < 0x1000_0000 && j < (|m| + 72) / 64 && len == |m| - 64 * j
    requires temp.Length == 64
    modifies temp
    ensures input == Block(m, j)
  {
    BuiltBlock(m, j);
    if len >= 64 {
      input := m[|m| - len..|m| - len + 64];
    } else {
      FillBlock(m, len, temp);
      input := temp[..];
    }
  }

  /** The body of the chunk loop. */
  method RunChunk(m: seq<bv8>, len: int, ghost j: nat, temp: array<bv8>, s: State) returns (r: State)
    requires |m| < 0x1000_0000 && j < (|m| + 72) / 64 && len == |m| - 64 * j
    requires temp.Length == 64 && s == Chain(m, j)
    modifies temp
    ensures r == Chain(m, j + 1)
  {
    var input := NextInput(m, len, j, temp);
    r := RunRounds(input, s);
    r := State(Add(s.a, r.a), Add(s.b, r.b), Add(s.c, r.c), Add(s.d, r.d));
  }

  /** For every input shorter than 2^28 bytes, the streaming loop computes the digest of the
      padded message. */
  method Calc(m: seq<bv8>) returns (result: State)
    requires |m| < 0x1000_0000
    ensures result == Digest(m)
  {
    var temp := new bv8[64](_ => 0);
    var chunks := (|m| + 8 + 64) / 64;
    var len := |m|;
    result := INITIAL;
    ghost var j := 0;
    ghost var total := (|m| + 72) / 64;
    while chunks > 0
      invariant 0 <= j <= total == (|m| + 72) / 64 && chunks == total - j
      invariant len == |m| - 64 * j
      invariant result == Chain(m, j)
    {
      result := RunChunk(m, len, j, temp, result);
      chunks, len, j := chunks - 1, len - 64, j + 1;
    }
  }
}
