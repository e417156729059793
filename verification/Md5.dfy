/** The incremental digest of src/md5.c. */
module Md5 {
  import opened Wire
  import opened Md5Spec

  /** The macros, with fewer operations than the functions of RFC 1321 they stand for. */
  function F1(x: Word, y: Word, z: Word): Word { z ^ (x & (y ^ z)) }

  function G1(x: Word, y: Word, z: Word): Word { y ^ (z & (x ^ y)) }

  function H1(x: Word, y: Word, z: Word): Word { (x ^ y) ^ z }

  function H2(x: Word, y: Word, z: Word): Word { x ^ (y ^ z) }

  function I1(x: Word, y: Word, z: Word): Word { y ^ (x | !z) }

  /** The rotation in `STEP`, with its mask. */
  function Rotl(w: Word, s: nat): Word
    requires 0 < s < 32
  {
    (w << s) | ((w & 0xffffffff) >> (32 - s))
  }

  /** `STEP`, given the value of its function. */
  function Step(f: Word, a: Word, b: Word, x: Word, t: Word, s: nat): Word
    requires 0 < s < 32
  {
    Plus(Rotl(Plus(a, Plus(Plus(f, x), t)), s), b)
  }

  function Macro(i: nat, x: Word, y: Word, z: Word): Word
  {
    if i < 16 then F1(x, y, z)
    else if i < 32 then G1(x, y, z)
    else if i < 48 then H1(x, y, z)
    else I1(x, y, z)
  }

  lemma Select(x: bv32, y: bv32, z: bv32)
    ensures z ^ (x & (y ^ z)) == (x & y) | (!x & z) == (y & x) | (z & !x)
  {
  }

  lemma Mask(w: bv32)
    ensures w & 0xffffffff == w
  {
  }

  lemma F1IsF(x: Word, y: Word, z: Word)
    ensures F1(x, y, z) == F(x, y, z)
  {
    Select(x, y, z);
  }

  lemma G1IsG(x: Word, y: Word, z: Word)
    ensures G1(x, y, z) == G(x, y, z)
  {
    Select(z, x, y);
  }

  lemma HAndH2AreH(x: Word, y: Word, z: Word)
    ensures H1(x, y, z) == H(x, y, z)
    ensures H2(x, y, z) == H(x, y, z)
  {
  }

  lemma MacroIsAux(i: nat, x: Word, y: Word, z: Word)
    requires i < 64
    ensures Macro(i, x, y, z) == Aux(i, x, y, z)
  {
    hide F, G, H, F1, G1, H1, H2;
    F1IsF(x, y, z);
    G1IsG(x, y, z);
    HAndH2AreH(x, y, z);
  }

  lemma RotlIsRotate(w: Word, s: nat)
    requires 0 < s < 32
    ensures Rotl(w, s) == Rotate(w, s)
  {
    Mask(w);
  }

  lemma PlusAssociates(a: Word, b: Word, c: Word)
    ensures Plus(a, Plus(b, c)) == Plus(Plus(a, b), c)
  {
    calc {
      Plus(a, Plus(b, c));
      { assert Plus(b, c) == b + c; }
      Plus(a, b + c);
      a + (b + c);
      { Regroup(a, b, c); }
      (a + b) + c;
      Plus(a + b, c);
      { assert Plus(a, b) == a + b; }
      Plus(Plus(a, b), c);
    }
  }

  lemma Regroup(a: bv32, b: bv32, c: bv32)
    ensures a + (b + c) == (a + b) + c
  {
  }

  lemma PlusRegroups(a: Word, f: Word, x: Word, t: Word)
    ensures Plus(a, Plus(Plus(f, x), t)) == Plus(Plus(Plus(a, f), x), t)
  {
    hide Plus;
    PlusAssociates(a, Plus(f, x), t);
    PlusAssociates(a, f, x);
  }

  lemma PlusCommutes(a: Word, b: Word)
    ensures Plus(a, b) == Plus(b, a)
  {
  }

  /** One `STEP` of the unrolled loop is the next operation of RFC 1321, with the registers renamed
      instead of moved. */
  lemma StepIsOp(r0: Regs, x: seq<Word>, n: nat, a: Word, b: Word, c: Word, d: Word, f: Word, k: nat, t: Word, s: nat)
    requires n < 64 && |x| == 16 && Ops(r0, x, n) == Regs(a, b, c, d)
    requires f == Macro(n, b, c, d) && k == K(n) && t == T(n) && s == S(n)
    ensures Ops(r0, x, n + 1) == Regs(d, Step(f, a, b, x[k], t, s), b, c)
  {
    hide T, K, S, Aux, Macro, Rotl, Rotate, Plus;
    MacroIsAux(n, b, c, d);
    var sum := Plus(Plus(Plus(a, f), x[k]), t);
    PlusRegroups(a, f, x[k], t);
    RotlIsRotate(sum, s);
    PlusCommutes(b, Rotate(sum, s));
  }

  // The constants written into the steps are those of the tables.

  lemma Tables0()
    ensures K(0) == 0 && T(0) == 0xd76aa478 && S(0) == 7
    ensures K(1) == 1 && T(1) == 0xe8c7b756 && S(1) == 12
    ensures K(2) == 2 && T(2) == 0x242070db && S(2) == 17
    ensures K(3) == 3 && T(3) == 0xc1bdceee && S(3) == 22
    ensures K(4) == 4 && T(4) == 0xf57c0faf && S(4) == 7
    ensures K(5) == 5 && T(5) == 0x4787c62a && S(5) == 12
    ensures K(6) == 6 && T(6) == 0xa8304613 && S(6) == 17
    ensures K(7) == 7 && T(7) == 0xfd469501 && S(7) == 22
  {
  }

  lemma Tables8()
    ensures K(8) == 8 && T(8) == 0x698098d8 && S(8) == 7
    ensures K(9) == 9 && T(9) == 0x8b44f7af && S(9) == 12
    ensures K(10) == 10 && T(10) == 0xffff5bb1 && S(10) == 17
    ensures K(11) == 11 && T(11) == 0x895cd7be && S(11) == 22
    ensures K(12) == 12 && T(12) == 0x6b901122 && S(12) == 7
    ensures K(13) == 13 && T(13) == 0xfd987193 && S(13) == 12
    ensures K(14) == 14 && T(14) == 0xa679438e && S(14) == 17
    ensures K(15) == 15 && T(15) == 0x49b40821 && S(15) == 22
  {
  }

  lemma Tables16()
    ensures K(16) == 1 && T(16) == 0xf61e2562 && S(16) == 5
    ensures K(17) == 6 && T(17) == 0xc040b340 && S(17) == 9
    ensures K(18) == 11 && T(18) == 0x265e5a51 && S(18) == 14
    ensures K(19) == 0 && T(19) == 0xe9b6c7aa && S(19) == 20
    ensures K(20) == 5 && T(20) == 0xd62f105d && S(20) == 5
    ensures K(21) == 10 && T(21) == 0x02441453 && S(21) == 9
    ensures K(22) == 15 && T(22) == 0xd8a1e681 && S(22) == 14
    ensures K(23) == 4 && T(23) == 0xe7d3fbc8 && S(23) == 20
  {
  }

  lemma Tables24()
    ensures K(24) == 9 && T(24) == 0x21e1cde6 && S(24) == 5
    ensures K(25) == 14 && T(25) == 0xc33707d6 && S(25) == 9
    ensures K(26) == 3 && T(26) == 0xf4d50d87 && S(26) == 14
    ensures K(27) == 8 && T(27) == 0x455a14ed && S(27) == 20
    ensures K(28) == 13 && T(28) == 0xa9e3e905 && S(28) == 5
    ensures K(29) == 2 && T(29) == 0xfcefa3f8 && S(29) == 9
    ensures K(30) == 7 && T(30) == 0x676f02d9 && S(30) == 14
    ensures K(31) == 12 && T(31) == 0x8d2a4c8a && S(31) == 20
  {
  }

  lemma Tables32()
    ensures K(32) == 5 && T(32) == 0xfffa3942 && S(32) == 4
    ensures K(33) == 8 && T(33) == 0x8771f681 && S(33) == 11
    ensures K(34) == 11 && T(34) == 0x6d9d6122 && S(34) == 16
    ensures K(35) == 14 && T(35) == 0xfde5380c && S(35) == 23
    ensures K(36) == 1 && T(36) == 0xa4beea44 && S(36) == 4
    ensures K(37) == 4 && T(37) == 0x4bdecfa9 && S(37) == 11
    ensures K(38) == 7 && T(38) == 0xf6bb4b60 && S(38) == 16
    ensures K(39) == 10 && T(39) == 0xbebfbc70 && S(39) == 23
  {
  }

  lemma Tables40()
    ensures K(40) == 13 && T(40) == 0x289b7ec6 && S(40) == 4
    ensures K(41) == 0 && T(41) == 0xeaa127fa && S(41) == 11
    ensures K(42) == 3 && T(42) == 0xd4ef3085 && S(42) == 16
    ensures K(43) == 6 && T(43) == 0x04881d05 && S(43) == 23
    ensures K(44) == 9 && T(44) == 0xd9d4d039 && S(44) == 4
    ensures K(45) == 12 && T(45) == 0xe6db99e5 && S(45) == 11
    ensures K(46) == 15 && T(46) == 0x1fa27cf8 && S(46) == 16
    ensures K(47) == 2 && T(47) == 0xc4ac5665 && S(47) == 23
  {
  }

  lemma Tables48()
    ensures K(48) == 0 && T(48) == 0xf4292244 && S(48) == 6
    ensures K(49) == 7 && T(49) == 0x432aff97 && S(49) == 10
    ensures K(50) == 14 && T(50) == 0xab9423a7 && S(50) == 15
    ensures K(51) == 5 && T(51) == 0xfc93a039 && S(51) == 21
    ensures K(52) == 12 && T(52) == 0x655b59c3 && S(52) == 6
    ensures K(53) == 3 && T(53) == 0x8f0ccc92 && S(53) == 10
    ensures K(54) == 10 && T(54) == 0xffeff47d && S(54) == 15
    ensures K(55) == 1 && T(55) == 0x85845dd1 && S(55) == 21
  {
  }

  lemma Tables56()
    ensures K(56) == 8 && T(56) == 0x6fa87e4f && S(56) == 6
    ensures K(57) == 15 && T(57) == 0xfe2ce6e0 && S(57) == 10
    ensures K(58) == 6 && T(58) == 0xa3014314 && S(58) == 15
    ensures K(59) == 13 && T(59) == 0x4e0811a1 && S(59) == 21
    ensures K(60) == 4 && T(60) == 0xf7537e82 && S(60) == 6
    ensures K(61) == 11 && T(61) == 0xbd3af235 && S(61) == 10
    ensures K(62) == 2 && T(62) == 0x2ad7d2bb && S(62) == 15
    ensures K(63) == 9 && T(63) == 0xeb86d391 && S(63) == 21
  {
  }

  lemma StepF1(r0: Regs, x: seq<Word>, n: nat, a: Word, b: Word, c: Word, d: Word, k: nat, t: Word, s: nat)
    requires n < 16 && |x| == 16 && Ops(r0, x, n) == Regs(a, b, c, d)
    requires k == K(n) && t == T(n) && s == S(n)
    ensures Ops(r0, x, n + 1) == Regs(d, Step(F1(b, c, d), a, b, x[k], t, s), b, c)
  {
    hide T, K, S, Op, Ops, Step, F1, G1, H1, H2, I1;
    StepIsOp(r0, x, n, a, b, c, d, F1(b, c, d), k, t, s);
  }

  lemma StepG1(r0: Regs, x: seq<Word>, n: nat, a: Word, b: Word, c: Word, d: Word, k: nat, t: Word, s: nat)
    requires 16 <= n < 32 && |x| == 16 && Ops(r0, x, n) == Regs(a, b, c, d)
    requires k == K(n) && t == T(n) && s == S(n)
    ensures Ops(r0, x, n + 1) == Regs(d, Step(G1(b, c, d), a, b, x[k], t, s), b, c)
  {
    hide T, K, S, Op, Ops, Step, F1, G1, H1, H2, I1;
    StepIsOp(r0, x, n, a, b, c, d, G1(b, c, d), k, t, s);
  }

  lemma StepH1(r0: Regs, x: seq<Word>, n: nat, a: Word, b: Word, c: Word, d: Word, k: nat, t: Word, s: nat)
    requires 32 <= n < 48 && |x| == 16 && Ops(r0, x, n) == Regs(a, b, c, d)
    requires k == K(n) && t == T(n) && s == S(n)
    ensures Ops(r0, x, n + 1) == Regs(d, Step(H1(b, c, d), a, b, x[k], t, s), b, c)
  {
    hide T, K, S, Op, Ops, Step, F1, G1, H1, H2, I1;
    StepIsOp(r0, x, n, a, b, c, d, H1(b, c, d), k, t, s);
  }

  lemma StepH2(r0: Regs, x: seq<Word>, n: nat, a: Word, b: Word, c: Word, d: Word, k: nat, t: Word, s: nat)
    requires 32 <= n < 48 && |x| == 16 && Ops(r0, x, n) == Regs(a, b, c, d)
    requires k == K(n) && t == T(n) && s == S(n)
    ensures Ops(r0, x, n + 1) == Regs(d, Step(H2(b, c, d), a, b, x[k], t, s), b, c)
  {
    hide T, K, S, Op, Ops, Step, F1, G1, H1, H2, I1, H;
    HAndH2AreH(b, c, d);
    StepIsOp(r0, x, n, a, b, c, d, H2(b, c, d), k, t, s);
  }

  lemma StepI1(r0: Regs, x: seq<Word>, n: nat, a: Word, b: Word, c: Word, d: Word, k: nat, t: Word, s: nat)
    requires 48 <= n < 64 && |x| == 16 && Ops(r0, x, n) == Regs(a, b, c, d)
    requires k == K(n) && t == T(n) && s == S(n)
    ensures Ops(r0, x, n + 1) == Regs(d, Step(I1(b, c, d), a, b, x[k], t, s), b, c)
  {
    hide T, K, S, Op, Ops, Step, F1, G1, H1, H2, I1;
    StepIsOp(r0, x, n, a, b, c, d, I1(b, c, d), k, t, s);
  }

  method Steps0(r0: Regs, x: seq<Word>) returns (a: Word, b: Word, c: Word, d: Word)
    requires |x| == 16
    ensures Regs(a, b, c, d) == Ops(r0, x, 8)
  {
    a, b, c, d := r0.a, r0.b, r0.c, r0.d;
    assert Ops(r0, x, 0) == Regs(a, b, c, d);
    hide *;
    Tables0();
    StepF1(r0, x, 0, a, b, c, d, 0, 0xd76aa478, 7);
    a := Step(F1(b, c, d), a, b, x[0], 0xd76aa478, 7);
    StepF1(r0, x, 1, d, a, b, c, 1, 0xe8c7b756, 12);
    d := Step(F1(a, b, c), d, a, x[1], 0xe8c7b756, 12);
    StepF1(r0, x, 2, c, d, a, b, 2, 0x242070db, 17);
    c := Step(F1(d, a, b), c, d, x[2], 0x242070db, 17);
    StepF1(r0, x, 3, b, c, d, a, 3, 0xc1bdceee, 22);
    b := Step(F1(c, d, a), b, c, x[3], 0xc1bdceee, 22);
    StepF1(r0, x, 4, a, b, c, d, 4, 0xf57c0faf, 7);
    a := Step(F1(b, c, d), a, b, x[4], 0xf57c0faf, 7);
    StepF1(r0, x, 5, d, a, b, c, 5, 0x4787c62a, 12);
    d := Step(F1(a, b, c), d, a, x[5], 0x4787c62a, 12);
    StepF1(r0, x, 6, c, d, a, b, 6, 0xa8304613, 17);
    c := Step(F1(d, a, b), c, d, x[6], 0xa8304613, 17);
    StepF1(r0, x, 7, b, c, d, a, 7, 0xfd469501, 22);
    b := Step(F1(c, d, a), b, c, x[7], 0xfd469501, 22);
  }

  method Steps8(r0: Regs, x: seq<Word>) returns (a: Word, b: Word, c: Word, d: Word)
    requires |x| == 16
    ensures Regs(a, b, c, d) == Ops(r0, x, 16)
  {
    hide *;
    a, b, c, d := Steps0(r0, x);
    Tables8();
    StepF1(r0, x, 8, a, b, c, d, 8, 0x698098d8, 7);
    a := Step(F1(b, c, d), a, b, x[8], 0x698098d8, 7);
    StepF1(r0, x, 9, d, a, b, c, 9, 0x8b44f7af, 12);
    d := Step(F1(a, b, c), d, a, x[9], 0x8b44f7af, 12);
    StepF1(r0, x, 10, c, d, a, b, 10, 0xffff5bb1, 17);
    c := Step(F1(d, a, b), c, d, x[10], 0xffff5bb1, 17);
    StepF1(r0, x, 11, b, c, d, a, 11, 0x895cd7be, 22);
    b := Step(F1(c, d, a), b, c, x[11], 0x895cd7be, 22);
    StepF1(r0, x, 12, a, b, c, d, 12, 0x6b901122, 7);
    a := Step(F1(b, c, d), a, b, x[12], 0x6b901122, 7);
    StepF1(r0, x, 13, d, a, b, c, 13, 0xfd987193, 12);
    d := Step(F1(a, b, c), d, a, x[13], 0xfd987193, 12);
    StepF1(r0, x, 14, c, d, a, b, 14, 0xa679438e, 17);
    c := Step(F1(d, a, b), c, d, x[14], 0xa679438e, 17);
    StepF1(r0, x, 15, b, c, d, a, 15, 0x49b40821, 22);
    b := Step(F1(c, d, a), b, c, x[15], 0x49b40821, 22);
  }

  method Steps16(r0: Regs, x: seq<Word>) returns (a: Word, b: Word, c: Word, d: Word)
    requires |x| == 16
    ensures Regs(a, b, c, d) == Ops(r0, x, 24)
  {
    hide *;
    a, b, c, d := Steps8(r0, x);
    Tables16();
    StepG1(r0, x, 16, a, b, c, d, 1, 0xf61e2562, 5);
    a := Step(G1(b, c, d), a, b, x[1], 0xf61e2562, 5);
    StepG1(r0, x, 17, d, a, b, c, 6, 0xc040b340, 9);
    d := Step(G1(a, b, c), d, a, x[6], 0xc040b340, 9);
    StepG1(r0, x, 18, c, d, a, b, 11, 0x265e5a51, 14);
    c := Step(G1(d, a, b), c, d, x[11], 0x265e5a51, 14);
    StepG1(r0, x, 19, b, c, d, a, 0, 0xe9b6c7aa, 20);
    b := Step(G1(c, d, a), b, c, x[0], 0xe9b6c7aa, 20);
    StepG1(r0, x, 20, a, b, c, d, 5, 0xd62f105d, 5);
    a := Step(G1(b, c, d), a, b, x[5], 0xd62f105d, 5);
    StepG1(r0, x, 21, d, a, b, c, 10, 0x02441453, 9);
    d := Step(G1(a, b, c), d, a, x[10], 0x02441453, 9);
    StepG1(r0, x, 22, c, d, a, b, 15, 0xd8a1e681, 14);
    c := Step(G1(d, a, b), c, d, x[15], 0xd8a1e681, 14);
    StepG1(r0, x, 23, b, c, d, a, 4, 0xe7d3fbc8, 20);
    b := Step(G1(c, d, a), b, c, x[4], 0xe7d3fbc8, 20);
  }

  method Steps24(r0: Regs, x: seq<Word>) returns (a: Word, b: Word, c: Word, d: Word)
    requires |x| == 16
    ensures Regs(a, b, c, d) == Ops(r0, x, 32)
  {
    hide *;
    a, b, c, d := Steps16(r0, x);
    Tables24();
    StepG1(r0, x, 24, a, b, c, d, 9, 0x21e1cde6, 5);
    a := Step(G1(b, c, d), a, b, x[9], 0x21e1cde6, 5);
    StepG1(r0, x, 25, d, a, b, c, 14, 0xc33707d6, 9);
    d := Step(G1(a, b, c), d, a, x[14], 0xc33707d6, 9);
    StepG1(r0, x, 26, c, d, a, b, 3, 0xf4d50d87, 14);
    c := Step(G1(d, a, b), c, d, x[3], 0xf4d50d87, 14);
    StepG1(r0, x, 27, b, c, d, a, 8, 0x455a14ed, 20);
    b := Step(G1(c, d, a), b, c, x[8], 0x455a14ed, 20);
    StepG1(r0, x, 28, a, b, c, d, 13, 0xa9e3e905, 5);
    a := Step(G1(b, c, d), a, b, x[13], 0xa9e3e905, 5);
    StepG1(r0, x, 29, d, a, b, c, 2, 0xfcefa3f8, 9);
    d := Step(G1(a, b, c), d, a, x[2], 0xfcefa3f8, 9);
    StepG1(r0, x, 30, c, d, a, b, 7, 0x676f02d9, 14);
    c := Step(G1(d, a, b), c, d, x[7], 0x676f02d9, 14);
    StepG1(r0, x, 31, b, c, d, a, 12, 0x8d2a4c8a, 20);
    b := Step(G1(c, d, a), b, c, x[12], 0x8d2a4c8a, 20);
  }

  method Steps32(r0: Regs, x: seq<Word>) returns (a: Word, b: Word, c: Word, d: Word)
    requires |x| == 16
    ensures Regs(a, b, c, d) == Ops(r0, x, 40)
  {
    hide *;
    a, b, c, d := Steps24(r0, x);
    Tables32();
    StepH1(r0, x, 32, a, b, c, d, 5, 0xfffa3942, 4);
    a := Step(H1(b, c, d), a, b, x[5], 0xfffa3942, 4);
    StepH2(r0, x, 33, d, a, b, c, 8, 0x8771f681, 11);
    d := Step(H2(a, b, c), d, a, x[8], 0x8771f681, 11);
    StepH1(r0, x, 34, c, d, a, b, 11, 0x6d9d6122, 16);
    c := Step(H1(d, a, b), c, d, x[11], 0x6d9d6122, 16);
    StepH2(r0, x, 35, b, c, d, a, 14, 0xfde5380c, 23);
    b := Step(H2(c, d, a), b, c, x[14], 0xfde5380c, 23);
    StepH1(r0, x, 36, a, b, c, d, 1, 0xa4beea44, 4);
    a := Step(H1(b, c, d), a, b, x[1], 0xa4beea44, 4);
    StepH2(r0, x, 37, d, a, b, c, 4, 0x4bdecfa9, 11);
    d := Step(H2(a, b, c), d, a, x[4], 0x4bdecfa9, 11);
    StepH1(r0, x, 38, c, d, a, b, 7, 0xf6bb4b60, 16);
    c := Step(H1(d, a, b), c, d, x[7], 0xf6bb4b60, 16);
    StepH2(r0, x, 39, b, c, d, a, 10, 0xbebfbc70, 23);
    b := Step(H2(c, d, a), b, c, x[10], 0xbebfbc70, 23);
  }

  method Steps40(r0: Regs, x: seq<Word>) returns (a: Word, b: Word, c: Word, d: Word)
    requires |x| == 16
    ensures Regs(a, b, c, d) == Ops(r0, x, 48)
  {
    hide *;
    a, b, c, d := Steps32(r0, x);
    Tables40();
    StepH1(r0, x, 40, a, b, c, d, 13, 0x289b7ec6, 4);
    a := Step(H1(b, c, d), a, b, x[13], 0x289b7ec6, 4);
    StepH2(r0, x, 41, d, a, b, c, 0, 0xeaa127fa, 11);
    d := Step(H2(a, b, c), d, a, x[0], 0xeaa127fa, 11);
    StepH1(r0, x, 42, c, d, a, b, 3, 0xd4ef3085, 16);
    c := Step(H1(d, a, b), c, d, x[3], 0xd4ef3085, 16);
    StepH2(r0, x, 43, b, c, d, a, 6, 0x04881d05, 23);
    b := Step(H2(c, d, a), b, c, x[6], 0x04881d05, 23);
    StepH1(r0, x, 44, a, b, c, d, 9, 0xd9d4d039, 4);
    a := Step(H1(b, c, d), a, b, x[9], 0xd9d4d039, 4);
    StepH2(r0, x, 45, d, a, b, c, 12, 0xe6db99e5, 11);
    d := Step(H2(a, b, c), d, a, x[12], 0xe6db99e5, 11);
    StepH1(r0, x, 46, c, d, a, b, 15, 0x1fa27cf8, 16);
    c := Step(H1(d, a, b), c, d, x[15], 0x1fa27cf8, 16);
    StepH2(r0, x, 47, b, c, d, a, 2, 0xc4ac5665, 23);
    b := Step(H2(c, d, a), b, c, x[2], 0xc4ac5665, 23);
  }

  method Steps48(r0: Regs, x: seq<Word>) returns (a: Word, b: Word, c: Word, d: Word)
    requires |x| == 16
    ensures Regs(a, b, c, d) == Ops(r0, x, 56)
  {
    hide *;
    a, b, c, d := Steps40(r0, x);
    Tables48();
    StepI1(r0, x, 48, a, b, c, d, 0, 0xf4292244, 6);
    a := Step(I1(b, c, d), a, b, x[0], 0xf4292244, 6);
    StepI1(r0, x, 49, d, a, b, c, 7, 0x432aff97, 10);
    d := Step(I1(a, b, c), d, a, x[7], 0x432aff97, 10);
    StepI1(r0, x, 50, c, d, a, b, 14, 0xab9423a7, 15);
    c := Step(I1(d, a, b), c, d, x[14], 0xab9423a7, 15);
    StepI1(r0, x, 51, b, c, d, a, 5, 0xfc93a039, 21);
    b := Step(I1(c, d, a), b, c, x[5], 0xfc93a039, 21);
    StepI1(r0, x, 52, a, b, c, d, 12, 0x655b59c3, 6);
    a := Step(I1(b, c, d), a, b, x[12], 0x655b59c3, 6);
    StepI1(r0, x, 53, d, a, b, c, 3, 0x8f0ccc92, 10);
    d := Step(I1(a, b, c), d, a, x[3], 0x8f0ccc92, 10);
    StepI1(r0, x, 54, c, d, a, b, 10, 0xffeff47d, 15);
    c := Step(I1(d, a, b), c, d, x[10], 0xffeff47d, 15);
    StepI1(r0, x, 55, b, c, d, a, 1, 0x85845dd1, 21);
    b := Step(I1(c, d, a), b, c, x[1], 0x85845dd1, 21);
  }

  method Steps56(r0: Regs, x: seq<Word>) returns (a: Word, b: Word, c: Word, d: Word)
    requires |x| == 16
    ensures Regs(a, b, c, d) == Ops(r0, x, 64)
  {
    hide *;
    a, b, c, d := Steps48(r0, x);
    Tables56();
    StepI1(r0, x, 56, a, b, c, d, 8, 0x6fa87e4f, 6);
    a := Step(I1(b, c, d), a, b, x[8], 0x6fa87e4f, 6);
    StepI1(r0, x, 57, d, a, b, c, 15, 0xfe2ce6e0, 10);
    d := Step(I1(a, b, c), d, a, x[15], 0xfe2ce6e0, 10);
    StepI1(r0, x, 58, c, d, a, b, 6, 0xa3014314, 15);
    c := Step(I1(d, a, b), c, d, x[6], 0xa3014314, 15);
    StepI1(r0, x, 59, b, c, d, a, 13, 0x4e0811a1, 21);
    b := Step(I1(c, d, a), b, c, x[13], 0x4e0811a1, 21);
    StepI1(r0, x, 60, a, b, c, d, 4, 0xf7537e82, 6);
    a := Step(I1(b, c, d), a, b, x[4], 0xf7537e82, 6);
    StepI1(r0, x, 61, d, a, b, c, 11, 0xbd3af235, 10);
    d := Step(I1(a, b, c), d, a, x[11], 0xbd3af235, 10);
    StepI1(r0, x, 62, c, d, a, b, 2, 0x2ad7d2bb, 15);
    c := Step(I1(d, a, b), c, d, x[2], 0x2ad7d2bb, 15);
    StepI1(r0, x, 63, b, c, d, a, 9, 0xeb86d391, 21);
    b := Step(I1(c, d, a), b, c, x[9], 0xeb86d391, 21);
  }

  /** What the eight octets stored for the two words of the counter are: the message length in bits, modulo 2^64. */
  lemma LengthField(n: nat)
    ensures BitLength(n)
         == LittleEndian(8 * (n % 0x2000_0000), 4) + LittleEndian(n / 0x2000_0000 % 0x1_0000_0000, 4)
  {
    hide LittleEndian;
    BitsOf(n);
    Power4();
    LittleEndianSplits(8 * (n % 0x2000_0000), n / 0x2000_0000 % 0x1_0000_0000, 4);
  }

  lemma BitsOf(n: nat)
    ensures 8 * n % 0x1_0000_0000_0000_0000
         == 8 * (n % 0x2000_0000) + 0x1_0000_0000 * (n / 0x2000_0000 % 0x1_0000_0000)
  {
    var hi := n / 0x2000_0000;
    assert 8 * n == 8 * (n % 0x2000_0000) + 0x1_0000_0000 * (hi % 0x1_0000_0000)
                    + 0x1_0000_0000_0000_0000 * (hi / 0x1_0000_0000);
  }

  lemma Power4()
    ensures Power(4) == 0x1_0000_0000
  {
    assert Power(1) == 0x100 && Power(2) == 0x1_0000 && Power(3) == 0x100_0000;
  }

  function Power(width: nat): nat
  {
    if width == 0 then 1 else 0x100 * Power(width - 1)
  }

  lemma {:induction false} LittleEndianSplits(low: nat, high: nat, width: nat)
    requires low < Power(width)
    ensures LittleEndian(low + Power(width) * high, width + 4) == LittleEndian(low, width) + LittleEndian(high, 4)
    decreases width
  {
    hide LittleEndian, Power;
    PowerStep(width);
    if width == 0 {
      NoOctets(low, high);
    } else {
      var rest := Power(width - 1) * high;
      Scale(Power(width - 1), high);
      Peel(low, rest, width + 3);
      LittleEndianSplits(low / 0x100, high, width - 1);
      FirstOctet(low, width);
      Associates([low % 0x100], LittleEndian(low / 0x100, width - 1), LittleEndian(high, 4));
    }
  }

  lemma PowerStep(width: nat)
    ensures Power(width) == if width == 0 then 1 else 0x100 * Power(width - 1)
  {
  }

  lemma NoOctets(low: nat, high: nat)
    requires low < 1
    ensures LittleEndian(low + 1 * high, 4) == LittleEndian(low, 0) + LittleEndian(high, 4)
  {
    hide LittleEndian;
    assert low == 0;
    Nothing(LittleEndian(high, 4));
  }

  lemma Nothing(s: Bytes)
    ensures LittleEndian(0, 0) + s == s
  {
  }

  lemma FirstOctet(n: nat, width: nat)
    requires width > 0
    ensures LittleEndian(n, width) == [n % 0x100] + LittleEndian(n / 0x100, width - 1)
  {
  }

  lemma Scale(p: nat, high: nat)
    ensures 0x100 * p * high == 0x100 * (p * high)
  {
  }

  lemma Peel(low: nat, high: nat, width: nat)
    ensures LittleEndian(low + 0x100 * high, width + 1) == [low % 0x100] + LittleEndian(low / 0x100 + high, width)
  {
    assert (low + 0x100 * high) % 0x100 == low % 0x100;
    assert (low + 0x100 * high) / 0x100 == low / 0x100 + high;
  }

  /** The byte counter, kept in two words of 29 and 32 bits. */
  predicate Counter(lo: nat, hi: nat, total: nat)
  {
    lo == total % 0x2000_0000 && hi == total / 0x2000_0000 % 0x1_0000_0000
  }

  lemma CounterAdds(lo: nat, hi: nat, total: nat, size: nat)
    requires Counter(lo, hi, total)
    ensures var lo' := (lo + size) % 0x2000_0000;
            var hi' := if lo' < lo then (hi + 1) % 0x1_0000_0000 else hi;
            Counter(lo', (hi' + size / 0x2000_0000) % 0x1_0000_0000, total + size)
  {
    var t, s, rest := total / 0x2000_0000, size / 0x2000_0000, size % 0x2000_0000;
    Carry(lo, rest, s);
    Carry(lo, rest, t + s);
    var lo' := (lo + size) % 0x2000_0000;
    var carry := if lo' < lo then 1 else 0;
    assert total + size == lo + rest + 0x2000_0000 * (t + s);
    assert (total + size) / 0x2000_0000 == t + s + carry;
    Wraps(t, carry, s);
  }

  lemma Carry(lo: nat, rest: nat, high: nat)
    requires lo < 0x2000_0000 && rest < 0x2000_0000
    ensures var sum := lo + rest + 0x2000_0000 * high;
            && sum % 0x2000_0000 == (if lo + rest < 0x2000_0000 then lo + rest else lo + rest - 0x2000_0000)
            && sum / 0x2000_0000 == high + (if lo + rest < 0x2000_0000 then 0 else 1)
  {
  }

  lemma Wraps(t: nat, carry: nat, s: nat)
    requires carry <= 1
    ensures var hi := t % 0x1_0000_0000;
            var hi' := if carry == 1 then (hi + 1) % 0x1_0000_0000 else hi;
            (hi' + s) % 0x1_0000_0000 == (t + s + carry) % 0x1_0000_0000
  {
    assert t == 0x1_0000_0000 * (t / 0x1_0000_0000) + t % 0x1_0000_0000;
  }
}
