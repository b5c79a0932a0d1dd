/** The test vector "abc" of RFC 1321, section A.5, worked out in steps: it binds the constants, the
    shifts and the order of the words. */
module Md5Vector {
  import opened Md5
  import opened Words

  /** The only block of the padded message, as words. */
  ghost predicate IsAbc(block: seq<bv8>) {
    && |block| == 64
    && WordAt(block, 0) == 0x80636261 && WordAt(block, 14) == 24 && WordAt(block, 15) == 0
    && forall k :: 1 <= k < 14 ==> WordAt(block, k) == 0
  }

  ghost predicate After(n: nat, block: seq<bv8>, s: State) {
    n <= 64 && |block| == 64 && Rounds(n, block, INITIAL) == s
  }

  lemma Next(n: nat, block: seq<bv8>, s: State)
    requires n < 64 && After(n, block, s)
    ensures After(n + 1, block, Operate(n, block, s))
  {
  }

  lemma Operations1To2(block: seq<bv8>)
    requires IsAbc(block) && After(0, block, State(0x67452301, 0xefcdab89, 0x98badcfe, 0x10325476))
    ensures After(2, block, State(0xd6d117b4, 0xefcdab89, 0x98badcfe, 0x344a8432))
  {
    Next(0, block, State(0x67452301, 0xefcdab89, 0x98badcfe, 0x10325476));
    Next(1, block, State(0xd6d117b4, 0xefcdab89, 0x98badcfe, 0x10325476));
  }

  lemma Operations3To4(block: seq<bv8>)
    requires IsAbc(block) && After(2, block, State(0xd6d117b4, 0xefcdab89, 0x98badcfe, 0x344a8432))
    ensures After(4, block, State(0xd6d117b4, 0x7ad956f2, 0x2f6fbd72, 0x344a8432))
  {
    Next(2, block, State(0xd6d117b4, 0xefcdab89, 0x98badcfe, 0x344a8432));
    Next(3, block, State(0xd6d117b4, 0xefcdab89, 0x2f6fbd72, 0x344a8432));
  }

  lemma Operations5To6(block: seq<bv8>)
    requires IsAbc(block) && After(4, block, State(0xd6d117b4, 0x7ad956f2, 0x2f6fbd72, 0x344a8432))
    ensures After(6, block, State(0xc73741ef, 0x7ad956f2, 0x2f6fbd72, 0x8bac3051))
  {
    Next(4, block, State(0xd6d117b4, 0x7ad956f2, 0x2f6fbd72, 0x344a8432));
    Next(5, block, State(0xc73741ef, 0x7ad956f2, 0x2f6fbd72, 0x344a8432));
  }

  lemma Operations7To8(block: seq<bv8>)
    requires IsAbc(block) && After(6, block, State(0xc73741ef, 0x7ad956f2, 0x2f6fbd72, 0x8bac3051))
    ensures After(8, block, State(0xc73741ef, 0x928d99f6, 0x207dc67b, 0x8bac3051))
  {
    Next(6, block, State(0xc73741ef, 0x7ad956f2, 0x2f6fbd72, 0x8bac3051));
    Next(7, block, State(0xc73741ef, 0x7ad956f2, 0x207dc67b, 0x8bac3051));
  }

  lemma Operations9To10(block: seq<bv8>)
    requires IsAbc(block) && After(8, block, State(0xc73741ef, 0x928d99f6, 0x207dc67b, 0x8bac3051))
    ensures After(10, block, State(0x854b3712, 0x928d99f6, 0x207dc67b, 0x74e2f284))
  {
    Next(8, block, State(0xc73741ef, 0x928d99f6, 0x207dc67b, 0x8bac3051));
    Next(9, block, State(0x854b3712, 0x928d99f6, 0x207dc67b, 0x8bac3051));
  }

  lemma Operations11To12(block: seq<bv8>)
    requires IsAbc(block) && After(10, block, State(0x854b3712, 0x928d99f6, 0x207dc67b, 0x74e2f284))
    ensures After(12, block, State(0x854b3712, 0x5ed49596, 0x3020401c, 0x74e2f284))
  {
    Next(10, block, State(0x854b3712, 0x928d99f6, 0x207dc67b, 0x74e2f284));
    Next(11, block, State(0x854b3712, 0x928d99f6, 0x3020401c, 0x74e2f284));
  }

  lemma Operations13To14(block: seq<bv8>)
    requires IsAbc(block) && After(12, block, State(0x854b3712, 0x5ed49596, 0x3020401c, 0x74e2f284))
    ensures After(14, block, State(0xdda9b9a6, 0x5ed49596, 0x3020401c, 0xa1051895))
  {
    Next(12, block, State(0x854b3712, 0x5ed49596, 0x3020401c, 0x74e2f284));
    Next(13, block, State(0xdda9b9a6, 0x5ed49596, 0x3020401c, 0x74e2f284));
  }

  lemma Operations15To16(block: seq<bv8>)
    requires IsAbc(block) && After(14, block, State(0xdda9b9a6, 0x5ed49596, 0x3020401c, 0xa1051895))
    ensures After(16, block, State(0xdda9b9a6, 0x72aff2e0, 0xe396856b, 0xa1051895))
  {
    Next(14, block, State(0xdda9b9a6, 0x5ed49596, 0x3020401c, 0xa1051895));
    Next(15, block, State(0xdda9b9a6, 0x5ed49596, 0xe396856b, 0xa1051895));
  }

  lemma Operations17To18(block: seq<bv8>)
    requires IsAbc(block) && After(16, block, State(0xdda9b9a6, 0x72aff2e0, 0xe396856b, 0xa1051895))
    ensures After(18, block, State(0x3e9e9126, 0x72aff2e0, 0xe396856b, 0x4a1d804e))
  {
    Next(16, block, State(0xdda9b9a6, 0x72aff2e0, 0xe396856b, 0xa1051895));
    Next(17, block, State(0x3e9e9126, 0x72aff2e0, 0xe396856b, 0xa1051895));
  }

  lemma Operations19To20(block: seq<bv8>)
    requires IsAbc(block) && After(18, block, State(0x3e9e9126, 0x72aff2e0, 0xe396856b, 0x4a1d804e))
    ensures After(20, block, State(0x3e9e9126, 0xb5b204e4, 0xe25e1652, 0x4a1d804e))
  {
    Next(18, block, State(0x3e9e9126, 0x72aff2e0, 0xe396856b, 0x4a1d804e));
    Next(19, block, State(0x3e9e9126, 0x72aff2e0, 0xe25e1652, 0x4a1d804e));
  }

  lemma Operations21To22(block: seq<bv8>)
    requires IsAbc(block) && After(20, block, State(0x3e9e9126, 0xb5b204e4, 0xe25e1652, 0x4a1d804e))
    ensures After(22, block, State(0x59a8ffda, 0xb5b204e4, 0xe25e1652, 0x6d002f1e))
  {
    Next(20, block, State(0x3e9e9126, 0xb5b204e4, 0xe25e1652, 0x4a1d804e));
    Next(21, block, State(0x59a8ffda, 0xb5b204e4, 0xe25e1652, 0x4a1d804e));
  }

  lemma Operations23To24(block: seq<bv8>)
    requires IsAbc(block) && After(22, block, State(0x59a8ffda, 0xb5b204e4, 0xe25e1652, 0x6d002f1e))
    ensures After(24, block, State(0x59a8ffda, 0x47092c07, 0xabfc7920, 0x6d002f1e))
  {
    Next(22, block, State(0x59a8ffda, 0xb5b204e4, 0xe25e1652, 0x6d002f1e));
    Next(23, block, State(0x59a8ffda, 0xb5b204e4, 0xabfc7920, 0x6d002f1e));
  }

  lemma Operations25To26(block: seq<bv8>)
    requires IsAbc(block) && After(24, block, State(0x59a8ffda, 0x47092c07, 0xabfc7920, 0x6d002f1e))
    ensures After(26, block, State(0xb7f268cf, 0x47092c07, 0xabfc7920, 0x09388eff))
  {
    Next(24, block, State(0x59a8ffda, 0x47092c07, 0xabfc7920, 0x6d002f1e));
    Next(25, block, State(0xb7f268cf, 0x47092c07, 0xabfc7920, 0x6d002f1e));
  }

  lemma Operations27To28(block: seq<bv8>)
    requires IsAbc(block) && After(26, block, State(0xb7f268cf, 0x47092c07, 0xabfc7920, 0x09388eff))
    ensures After(28, block, State(0xb7f268cf, 0x786acb8f, 0xfe1623b1, 0x09388eff))
  {
    Next(26, block, State(0xb7f268cf, 0x47092c07, 0xabfc7920, 0x09388eff));
    Next(27, block, State(0xb7f268cf, 0x47092c07, 0xfe1623b1, 0x09388eff));
  }

  lemma Operations29To30(block: seq<bv8>)
    requires IsAbc(block) && After(28, block, State(0xb7f268cf, 0x786acb8f, 0xfe1623b1, 0x09388eff))
    ensures After(30, block, State(0x790a77fb, 0x786acb8f, 0xfe1623b1, 0x9f47e4f8))
  {
    Next(28, block, State(0xb7f268cf, 0x786acb8f, 0xfe1623b1, 0x09388eff));
    Next(29, block, State(0x790a77fb, 0x786acb8f, 0xfe1623b1, 0x09388eff));
  }

  lemma Operations31To32(block: seq<bv8>)
    requires IsAbc(block) && After(30, block, State(0x790a77fb, 0x786acb8f, 0xfe1623b1, 0x9f47e4f8))
    ensures After(32, block, State(0x790a77fb, 0x726342d3, 0xa62884aa, 0x9f47e4f8))
  {
    Next(30, block, State(0x790a77fb, 0x786acb8f, 0xfe1623b1, 0x9f47e4f8));
    Next(31, block, State(0x790a77fb, 0x786acb8f, 0xa62884aa, 0x9f47e4f8));
  }

  lemma Operations33To34(block: seq<bv8>)
    requires IsAbc(block) && After(32, block, State(0x790a77fb, 0x726342d3, 0xa62884aa, 0x9f47e4f8))
    ensures After(34, block, State(0xb3707ebf, 0x726342d3, 0xa62884aa, 0x60127b2e))
  {
    Next(32, block, State(0x790a77fb, 0x726342d3, 0xa62884aa, 0x9f47e4f8));
    Next(33, block, State(0xb3707ebf, 0x726342d3, 0xa62884aa, 0x9f47e4f8));
  }

  lemma Operations35To36(block: seq<bv8>)
    requires IsAbc(block) && After(34, block, State(0xb3707ebf, 0x726342d3, 0xa62884aa, 0x60127b2e))
    ensures After(36, block, State(0xb3707ebf, 0x3b0875c7, 0x8d212ff5, 0x60127b2e))
  {
    Next(34, block, State(0xb3707ebf, 0x726342d3, 0xa62884aa, 0x60127b2e));
    Next(35, block, State(0xb3707ebf, 0x726342d3, 0x8d212ff5, 0x60127b2e));
  }

  lemma Operations37To38(block: seq<bv8>)
    requires IsAbc(block) && After(36, block, State(0xb3707ebf, 0x3b0875c7, 0x8d212ff5, 0x60127b2e))
    ensures After(38, block, State(0x21b117b9, 0x3b0875c7, 0x8d212ff5, 0x6e7429d5))
  {
    Next(36, block, State(0xb3707ebf, 0x3b0875c7, 0x8d212ff5, 0x60127b2e));
    Next(37, block, State(0x21b117b9, 0x3b0875c7, 0x8d212ff5, 0x60127b2e));
  }

  lemma Operations39To40(block: seq<bv8>)
    requires IsAbc(block) && After(38, block, State(0x21b117b9, 0x3b0875c7, 0x8d212ff5, 0x6e7429d5))
    ensures After(40, block, State(0x21b117b9, 0x5a2f5ea5, 0x3575227e, 0x6e7429d5))
  {
    Next(38, block, State(0x21b117b9, 0x3b0875c7, 0x8d212ff5, 0x6e7429d5));
    Next(39, block, State(0x21b117b9, 0x3b0875c7, 0x3575227e, 0x6e7429d5));
  }

  lemma Operations41To42(block: seq<bv8>)
    requires IsAbc(block) && After(40, block, State(0x21b117b9, 0x5a2f5ea5, 0x3575227e, 0x6e7429d5))
    ensures After(42, block, State(0x11de1779, 0x5a2f5ea5, 0x3575227e, 0xfadcaa38))
  {
    Next(40, block, State(0x21b117b9, 0x5a2f5ea5, 0x3575227e, 0x6e7429d5));
    Next(41, block, State(0x11de1779, 0x5a2f5ea5, 0x3575227e, 0x6e7429d5));
  }

  lemma Operations43To44(block: seq<bv8>)
    requires IsAbc(block) && After(42, block, State(0x11de1779, 0x5a2f5ea5, 0x3575227e, 0xfadcaa38))
    ensures After(44, block, State(0x11de1779, 0x4c6124f4, 0x31c465ca, 0xfadcaa38))
  {
    Next(42, block, State(0x11de1779, 0x5a2f5ea5, 0x3575227e, 0xfadcaa38));
    Next(43, block, State(0x11de1779, 0x5a2f5ea5, 0x31c465ca, 0xfadcaa38));
  }

  lemma Operations45To46(block: seq<bv8>)
    requires IsAbc(block) && After(44, block, State(0x11de1779, 0x4c6124f4, 0x31c465ca, 0xfadcaa38))
    ensures After(46, block, State(0x7f2e507b, 0x4c6124f4, 0x31c465ca, 0x99d9679d))
  {
    Next(44, block, State(0x11de1779, 0x4c6124f4, 0x31c465ca, 0xfadcaa38));
    Next(45, block, State(0x7f2e507b, 0x4c6124f4, 0x31c465ca, 0xfadcaa38));
  }

  lemma Operations47To48(block: seq<bv8>)
    requires IsAbc(block) && After(46, block, State(0x7f2e507b, 0x4c6124f4, 0x31c465ca, 0x99d9679d))
    ensures After(48, block, State(0x7f2e507b, 0x7beb9700, 0x8fae6399, 0x99d9679d))
  {
    Next(46, block, State(0x7f2e507b, 0x4c6124f4, 0x31c465ca, 0x99d9679d));
    Next(47, block, State(0x7f2e507b, 0x4c6124f4, 0x8fae6399, 0x99d9679d));
  }

  lemma Operations49To50(block: seq<bv8>)
    requires IsAbc(block) && After(48, block, State(0x7f2e507b, 0x7beb9700, 0x8fae6399, 0x99d9679d))
    ensures After(50, block, State(0x7b201df8, 0x7beb9700, 0x8fae6399, 0xf4e8e96e))
  {
    Next(48, block, State(0x7f2e507b, 0x7beb9700, 0x8fae6399, 0x99d9679d));
    Next(49, block, State(0x7b201df8, 0x7beb9700, 0x8fae6399, 0x99d9679d));
  }

  lemma Operations51To52(block: seq<bv8>)
    requires IsAbc(block) && After(50, block, State(0x7b201df8, 0x7beb9700, 0x8fae6399, 0xf4e8e96e))
    ensures After(52, block, State(0x7b201df8, 0x8bf025c4, 0xb298cefd, 0xf4e8e96e))
  {
    Next(50, block, State(0x7b201df8, 0x7beb9700, 0x8fae6399, 0xf4e8e96e));
    Next(51, block, State(0x7b201df8, 0x7beb9700, 0xb298cefd, 0xf4e8e96e));
  }

  lemma Operations53To54(block: seq<bv8>)
    requires IsAbc(block) && After(52, block, State(0x7b201df8, 0x8bf025c4, 0xb298cefd, 0xf4e8e96e))
    ensures After(54, block, State(0x06cc5e8a, 0x8bf025c4, 0xb298cefd, 0x5b0d97aa))
  {
    Next(52, block, State(0x7b201df8, 0x8bf025c4, 0xb298cefd, 0xf4e8e96e));
    Next(53, block, State(0x06cc5e8a, 0x8bf025c4, 0xb298cefd, 0xf4e8e96e));
  }

  lemma Operations55To56(block: seq<bv8>)
    requires IsAbc(block) && After(54, block, State(0x06cc5e8a, 0x8bf025c4, 0xb298cefd, 0x5b0d97aa))
    ensures After(56, block, State(0x06cc5e8a, 0x3bfa2c27, 0x7d632dd0, 0x5b0d97aa))
  {
    Next(54, block, State(0x06cc5e8a, 0x8bf025c4, 0xb298cefd, 0x5b0d97aa));
    Next(55, block, State(0x06cc5e8a, 0x8bf025c4, 0x7d632dd0, 0x5b0d97aa));
  }

  lemma Operations57To58(block: seq<bv8>)
    requires IsAbc(block) && After(56, block, State(0x06cc5e8a, 0x3bfa2c27, 0x7d632dd0, 0x5b0d97aa))
    ensures After(58, block, State(0x7f81cc35, 0x3bfa2c27, 0x7d632dd0, 0x094454ab))
  {
    Next(56, block, State(0x06cc5e8a, 0x3bfa2c27, 0x7d632dd0, 0x5b0d97aa));
    Next(57, block, State(0x7f81cc35, 0x3bfa2c27, 0x7d632dd0, 0x5b0d97aa));
  }

  lemma Operations59To60(block: seq<bv8>)
    requires IsAbc(block) && After(58, block, State(0x7f81cc35, 0x3bfa2c27, 0x7d632dd0, 0x094454ab))
    ensures After(60, block, State(0x7f81cc35, 0x7327d604, 0x4f9dbe3f, 0x094454ab))
  {
    Next(58, block, State(0x7f81cc35, 0x3bfa2c27, 0x7d632dd0, 0x094454ab));
    Next(59, block, State(0x7f81cc35, 0x3bfa2c27, 0x4f9dbe3f, 0x094454ab));
  }

  lemma Operations61To62(block: seq<bv8>)
    requires IsAbc(block) && After(60, block, State(0x7f81cc35, 0x7327d604, 0x4f9dbe3f, 0x094454ab))
    ensures After(62, block, State(0x310ade8f, 0x7327d604, 0x4f9dbe3f, 0x624d8cb2))
  {
    Next(60, block, State(0x7f81cc35, 0x7327d604, 0x4f9dbe3f, 0x094454ab));
    Next(61, block, State(0x310ade8f, 0x7327d604, 0x4f9dbe3f, 0x094454ab));
  }

  lemma Operations63To64(block: seq<bv8>)
    requires IsAbc(block) && After(62, block, State(0x310ade8f, 0x7327d604, 0x4f9dbe3f, 0x624d8cb2))
    ensures After(64, block, State(0x310ade8f, 0xc08226b3, 0xe484b9d8, 0x624d8cb2))
  {
    Next(62, block, State(0x310ade8f, 0x7327d604, 0x4f9dbe3f, 0x624d8cb2));
    Next(63, block, State(0x310ade8f, 0x7327d604, 0xe484b9d8, 0x624d8cb2));
  }

  lemma Round1(block: seq<bv8>)
    requires IsAbc(block) && After(0, block, State(0x67452301, 0xefcdab89, 0x98badcfe, 0x10325476))
    ensures After(16, block, State(0xdda9b9a6, 0x72aff2e0, 0xe396856b, 0xa1051895))
  {
    Operations1To2(block);
    Operations3To4(block);
    Operations5To6(block);
    Operations7To8(block);
    Operations9To10(block);
    Operations11To12(block);
    Operations13To14(block);
    Operations15To16(block);
  }

  lemma Round2(block: seq<bv8>)
    requires IsAbc(block) && After(16, block, State(0xdda9b9a6, 0x72aff2e0, 0xe396856b, 0xa1051895))
    ensures After(32, block, State(0x790a77fb, 0x726342d3, 0xa62884aa, 0x9f47e4f8))
  {
    Operations17To18(block);
    Operations19To20(block);
    Operations21To22(block);
    Operations23To24(block);
    Operations25To26(block);
    Operations27To28(block);
    Operations29To30(block);
    Operations31To32(block);
  }

  lemma Round3(block: seq<bv8>)
    requires IsAbc(block) && After(32, block, State(0x790a77fb, 0x726342d3, 0xa62884aa, 0x9f47e4f8))
    ensures After(48, block, State(0x7f2e507b, 0x7beb9700, 0x8fae6399, 0x99d9679d))
  {
    Operations33To34(block);
    Operations35To36(block);
    Operations37To38(block);
    Operations39To40(block);
    Operations41To42(block);
    Operations43To44(block);
    Operations45To46(block);
    Operations47To48(block);
  }

  lemma Round4(block: seq<bv8>)
    requires IsAbc(block) && After(48, block, State(0x7f2e507b, 0x7beb9700, 0x8fae6399, 0x99d9679d))
    ensures After(64, block, State(0x310ade8f, 0xc08226b3, 0xe484b9d8, 0x624d8cb2))
  {
    Operations49To50(block);
    Operations51To52(block);
    Operations53To54(block);
    Operations55To56(block);
    Operations57To58(block);
    Operations59To60(block);
    Operations61To62(block);
    Operations63To64(block);
  }

  lemma ZeroWord(block: seq<bv8>, k: nat)
    requires |block| == 64 && k < 16 && forall i :: 4 * k <= i < 4 * k + 4 ==> block[i] == 0
    ensures WordAt(block, k) == 0
  {
  }

  /** A message shorter than 56 bytes is one block. */
  lemma ShortBlock(m: seq<bv8>, k: nat)
    requires |m| < 56 && k < 64
    ensures Block(m, 0)[k] == RestByte(m, |m|, k)
  {
    BuiltBlock(m, 0);
  }

  lemma AbcBytes(m: seq<bv8>)
    requires m == [0x61, 0x62, 0x63]
    ensures var block := Block(m, 0);
            && block[0] == 0x61 && block[1] == 0x62 && block[2] == 0x63 && block[3] == 0x80
            && (forall k :: 4 <= k < 56 ==> block[k] == 0)
  {
    forall k | 0 <= k < 56
      ensures Block(m, 0)[k] == RestByte(m, 3, k)
    {
      ShortBlock(m, k);
    }
  }

  lemma AbcLength(m: seq<bv8>)
    requires |m| == 3
    ensures var block := Block(m, 0); block[56] == 24 && forall k :: 57 <= k < 64 ==> block[k] == 0
  {
    forall k | 56 <= k < 64
      ensures Block(m, 0)[k] == RestByte(m, 3, k)
    {
      ShortBlock(m, k);
    }
    assert WordBytes(24) == [24, 0, 0, 0];
  }

  lemma AbcBlock(m: seq<bv8>)
    requires m == [0x61, 0x62, 0x63]
    ensures IsAbc(Block(m, 0))
  {
    var block := Block(m, 0);
    AbcBytes(m);
    AbcLength(m);
    forall k | 1 <= k < 14
      ensures WordAt(block, k) == 0
    {
      ZeroWord(block, k);
    }
    ZeroWord(block, 15);
  }

  lemma DigestOfShort(m: seq<bv8>)
    requires |m| < 56
    ensures Digest(m) == Process(INITIAL, Block(m, 0))
  {
    assert Chain(m, 0) == INITIAL;
  }

  /** "abc" has the digest 900150983cd24fb0d6963f7d28e17f72, its words low-order byte first. */
  lemma DigestOfAbc(m: seq<bv8>)
    requires m == [0x61, 0x62, 0x63]
    ensures Digest(m) == State(0x98500190, 0xb04fd23c, 0x7d3f96d6, 0x727fe128)
  {
    var block := Block(m, 0);
    AbcBlock(m);
    Round1(block);
    Round2(block);
    Round3(block);
    Round4(block);
    AddedUp(block);
    DigestOfShort(m);
  }

  lemma AddedUp(block: seq<bv8>)
    requires After(64, block, State(0x310ade8f, 0xc08226b3, 0xe484b9d8, 0x624d8cb2))
    ensures Process(INITIAL, block) == State(0x98500190, 0xb04fd23c, 0x7d3f96d6, 0x727fe128)
  {
  }
}
