/** An answer that is known beforehand: the digest of the alphabet, from the test suite of RFC 1321, section A.5. */
module Md5Answer {
  import opened Wire
  import opened Md5Spec
  import opened Md5
  import opened Md5Context

  /** "abcdefghijklmnopqrstuvwxyz" */
  function Alphabet(): (s: Bytes)
    ensures |s| == 26 && forall k | 0 <= k < 26 :: s[k] == 0x61 + k
  {
    seq(26, k requires 0 <= k < 26 => 0x61 + k)
  }

  /** The words of its only block. */
  function X(): (x: seq<Word>)
    ensures |x| == 16
  {
    [0x64636261, 0x68676665, 0x6c6b6a69, 0x706f6e6d,
     0x74737271, 0x78777675, 0x00807a79, 0x00000000,
     0x00000000, 0x00000000, 0x00000000, 0x00000000,
     0x00000000, 0x00000000, 0x000000d0, 0x00000000]
  }

  lemma XIs()
    ensures X()[0] == 0x64636261 && X()[1] == 0x68676665 && X()[2] == 0x6c6b6a69 && X()[3] == 0x706f6e6d
    ensures X()[4] == 0x74737271 && X()[5] == 0x78777675 && X()[6] == 0x00807a79 && X()[7] == 0x00000000
    ensures X()[8] == 0x00000000 && X()[9] == 0x00000000 && X()[10] == 0x00000000 && X()[11] == 0x00000000
    ensures X()[12] == 0x00000000 && X()[13] == 0x00000000 && X()[14] == 0x000000d0 && X()[15] == 0x00000000
  {
  }

  /** One operation, on words that are known. */
  lemma Next(n: nat, r: Regs, x: Word, k: nat, t: Word, s: nat, b: Word) returns (r': Regs)
    requires n < 64 && Ops(INIT, X(), n) == r && k == K(n) && t == T(n) && s == S(n) && x == X()[k]
    requires Step(Macro(n, r.b, r.c, r.d), r.a, r.b, x, t, s) == b
    ensures r' == Ops(INIT, X(), n + 1) == Regs(r.d, b, r.b, r.c)
  {
    hide T, K, S, Op, Ops, Step, Macro, X;
    StepIsOp(INIT, X(), n, r.a, r.b, r.c, r.d, Macro(n, r.b, r.c, r.d), k, t, s);
    r' := Ops(INIT, X(), n + 1);
  }

  lemma Answer0() returns (r: Regs)
    ensures r == Ops(INIT, X(), 8) == Regs(0xfe15f787, 0xda9bbb0d, 0xb71122fc, 0xa811b278)
  {
    hide T, K, S, Op, Ops, X;
    XIs();
    Tables0();
    r := INIT;
    Nothing(r);
    r := Next(0, r, 0x64636261, 0, 0xd76aa478, 7, 0xd6d117a6);
    r := Next(1, r, 0x68676665, 1, 0xe8c7b756, 12, 0xaab1aaaa);
    r := Next(2, r, 0x6c6b6a69, 2, 0x242070db, 17, 0x227d8cf1);
    r := Next(3, r, 0x706f6e6d, 3, 0xc1bdceee, 22, 0x4503b812);
    r := Next(4, r, 0x74737271, 4, 0xf57c0faf, 7, 0xfe15f787);
    r := Next(5, r, 0x78777675, 5, 0x4787c62a, 12, 0xa811b278);
    r := Next(6, r, 0x00807a79, 6, 0xa8304613, 17, 0xb71122fc);
    r := Next(7, r, 0x00000000, 7, 0xfd469501, 22, 0xda9bbb0d);
  }

  lemma Nothing(r: Regs)
    ensures Ops(r, X(), 0) == r
  {
  }

  lemma Answer8() returns (r: Regs)
    ensures r == Ops(INIT, X(), 16) == Regs(0x1754a316, 0x608d6b7e, 0x00df74d5, 0x85567d90)
  {
    hide T, K, S, Op, Ops, X;
    XIs();
    Tables8();
    r := Answer0();
    r := Next(8, r, 0x00000000, 8, 0x698098d8, 7, 0xae752899);
    r := Next(9, r, 0x00000000, 9, 0x8b44f7af, 12, 0x2bbe757f);
    r := Next(10, r, 0x00000000, 10, 0xffff5bb1, 17, 0x7d4bd80b);
    r := Next(11, r, 0x00000000, 11, 0x895cd7be, 22, 0x56cfa5cb);
    r := Next(12, r, 0x00000000, 12, 0x6b901122, 7, 0x1754a316);
    r := Next(13, r, 0x00000000, 13, 0xfd987193, 12, 0x85567d90);
    r := Next(14, r, 0x000000d0, 14, 0xa679438e, 17, 0x00df74d5);
    r := Next(15, r, 0x00000000, 15, 0x49b40821, 22, 0x608d6b7e);
  }

  lemma Answer16() returns (r: Regs)
    ensures r == Ops(INIT, X(), 24) == Regs(0x570c43e0, 0xc9f162d4, 0xc28ab49d, 0x977efd2a)
  {
    hide T, K, S, Op, Ops, X;
    XIs();
    Tables16();
    r := Answer8();
    r := Next(16, r, 0x68676665, 1, 0xf61e2562, 5, 0x2d8071cc);
    r := Next(17, r, 0x00807a79, 6, 0xc040b340, 9, 0x5dcee119);
    r := Next(18, r, 0x00000000, 11, 0x265e5a51, 14, 0xedfe7e4b);
    r := Next(19, r, 0x64636261, 0, 0xe9b6c7aa, 20, 0x4c2145b3);
    r := Next(20, r, 0x78777675, 5, 0xd62f105d, 5, 0x570c43e0);
    r := Next(21, r, 0x00000000, 10, 0x02441453, 9, 0x977efd2a);
    r := Next(22, r, 0x00000000, 15, 0xd8a1e681, 14, 0xc28ab49d);
    r := Next(23, r, 0x74737271, 4, 0xe7d3fbc8, 20, 0xc9f162d4);
  }

  lemma Answer24() returns (r: Regs)
    ensures r == Ops(INIT, X(), 32) == Regs(0xf54d8710, 0xaeb35766, 0x2e69afc7, 0x927b72e2)
  {
    hide T, K, S, Op, Ops, X;
    XIs();
    Tables24();
    r := Answer16();
    r := Next(24, r, 0x00000000, 9, 0x21e1cde6, 5, 0x25bfae3b);
    r := Next(25, r, 0x000000d0, 14, 0xc33707d6, 9, 0x89980104);
    r := Next(26, r, 0x706f6e6d, 3, 0xf4d50d87, 14, 0xf8c8365f);
    r := Next(27, r, 0x00000000, 8, 0x455a14ed, 20, 0xe6d3b398);
    r := Next(28, r, 0x00000000, 13, 0xa9e3e905, 5, 0xf54d8710);
    r := Next(29, r, 0x6c6b6a69, 2, 0xfcefa3f8, 9, 0x927b72e2);
    r := Next(30, r, 0x00000000, 7, 0x676f02d9, 14, 0x2e69afc7);
    r := Next(31, r, 0x00000000, 12, 0x8d2a4c8a, 20, 0xaeb35766);
  }

  lemma Answer32() returns (r: Regs)
    ensures r == Ops(INIT, X(), 40) == Regs(0xb9c0c733, 0x8d41bf99, 0x23a9451b, 0xf1e6dc7a)
  {
    hide T, K, S, Op, Ops, X;
    XIs();
    Tables32();
    r := Answer24();
    r := Next(32, r, 0x78777675, 5, 0xfffa3942, 4, 0xb4bf680e);
    r := Next(33, r, 0x00000000, 8, 0x8771f681, 11, 0x4c8ffa80);
    r := Next(34, r, 0x00000000, 11, 0x6d9d6122, 16, 0x2361ed0a);
    r := Next(35, r, 0x000000d0, 14, 0xfde5380c, 23, 0x06a5e211);
    r := Next(36, r, 0x68676665, 1, 0xa4beea44, 4, 0xb9c0c733);
    r := Next(37, r, 0x74737271, 4, 0x4bdecfa9, 11, 0xf1e6dc7a);
    r := Next(38, r, 0x00000000, 7, 0xf6bb4b60, 16, 0x23a9451b);
    r := Next(39, r, 0x00000000, 10, 0xbebfbc70, 23, 0x8d41bf99);
  }

  lemma Answer40() returns (r: Regs)
    ensures r == Ops(INIT, X(), 48) == Regs(0xb5d41f9c, 0x71d10367, 0x703d54d8, 0xa04b4904)
  {
    hide T, K, S, Op, Ops, X;
    XIs();
    Tables40();
    r := Answer32();
    r := Next(40, r, 0x00000000, 13, 0x289b7ec6, 4, 0xa3e88ead);
    r := Next(41, r, 0x64636261, 0, 0xeaa127fa, 11, 0x02c0b11c);
    r := Next(42, r, 0x706f6e6d, 3, 0xd4ef3085, 16, 0x66f6468d);
    r := Next(43, r, 0x00807a79, 6, 0x04881d05, 23, 0x90a35af5);
    r := Next(44, r, 0x00000000, 9, 0xd9d4d039, 4, 0xb5d41f9c);
    r := Next(45, r, 0x00000000, 12, 0xe6db99e5, 11, 0xa04b4904);
    r := Next(46, r, 0x00000000, 15, 0x1fa27cf8, 16, 0x703d54d8);
    r := Next(47, r, 0x6c6b6a69, 2, 0xc4ac5665, 23, 0x71d10367);
  }

  lemma Answer48() returns (r: Regs)
    ensures r == Ops(INIT, X(), 56) == Regs(0xc1e942f1, 0x83877d1b, 0x23a68048, 0xd9bb987c)
  {
    hide T, K, S, Op, Ops, X;
    XIs();
    Tables48();
    r := Answer40();
    r := Next(48, r, 0x64636261, 0, 0xf4292244, 6, 0xfc32dd6e);
    r := Next(49, r, 0x00000000, 7, 0x432aff97, 10, 0x65456b34);
    r := Next(50, r, 0x000000d0, 14, 0xab9423a7, 15, 0xb35602cb);
    r := Next(51, r, 0x78777675, 5, 0xfc93a039, 21, 0x33edb197);
    r := Next(52, r, 0x00000000, 12, 0x655b59c3, 6, 0xc1e942f1);
    r := Next(53, r, 0x706f6e6d, 3, 0x8f0ccc92, 10, 0xd9bb987c);
    r := Next(54, r, 0x00000000, 10, 0xffeff47d, 15, 0x23a68048);
    r := Next(55, r, 0x68676665, 1, 0x85845dd1, 21, 0x83877d1b);
  }

  lemma Answer56() returns (r: Regs)
    ensures r == Ops(INIT, X(), 64) == Regs(0x708ed9c2, 0x1116e6d8, 0xd38f1e7f, 0x2baf1354)
  {
    hide T, K, S, Op, Ops, X;
    XIs();
    Tables56();
    r := Answer48();
    r := Next(56, r, 0x00000000, 8, 0x6fa87e4f, 6, 0x0077c208);
    r := Next(57, r, 0x00000000, 15, 0xfe2ce6e0, 10, 0x847fc2e7);
    r := Next(58, r, 0x00807a79, 6, 0xa3014314, 15, 0xa3e2247f);
    r := Next(59, r, 0x00000000, 13, 0x4e0811a1, 21, 0x5e6bc930);
    r := Next(60, r, 0x74737271, 4, 0xf7537e82, 6, 0x708ed9c2);
    r := Next(61, r, 0x00000000, 11, 0xbd3af235, 10, 0x2baf1354);
    r := Next(62, r, 0x6c6b6a69, 2, 0x2ad7d2bb, 15, 0xd38f1e7f);
    r := Next(63, r, 0x00000000, 9, 0xeb86d391, 21, 0x1116e6d8);
  }

  /** Its block, padded to 56 octets and with the length of 208 bits behind that. */
  lemma BlockIs()
    ensures var s := Padded(Alphabet());
            && |s| == 64 && s[..26] == Alphabet() && s[26] == 0x80 && s[56] == 208
            && forall k | 26 < k < 64 && k != 56 :: s[k] == 0
  {
    hide BitLength, Alphabet;
    LengthIs();
  }

  lemma LengthIs()
    ensures BitLength(26) == [208, 0, 0, 0, 0, 0, 0, 0]
  {
    hide LittleEndian;
    FirstOctet(208, 8);
    ZeroOctets(7);
  }

  lemma {:induction false} ZeroOctets(width: nat)
    ensures LittleEndian(0, width) == Zeros(width)
  {
    if width > 0 {
      ZeroOctets(width - 1);
    }
  }

  lemma WordsAre()
    ensures |Padded(Alphabet())| == 64 && Words(Padded(Alphabet())) == X()
  {
    hide Padded, WordAt, X;
    BlockIs();
    XIs();
    var s := Padded(Alphabet());
    Letters(s);
    Others(s);
    assert |Words(s)| == |X()| && forall n | 0 <= n < 16 :: Words(s)[n] == WordAt(s, 4 * n);
  }

  lemma Letters(s: Bytes)
    requires |s| == 64 && s[..26] == Alphabet() && s[26] == 0x80 && s[27] == 0
    ensures WordAt(s, 0) == 0x64636261
    ensures WordAt(s, 4) == 0x68676665
    ensures WordAt(s, 8) == 0x6c6b6a69
    ensures WordAt(s, 12) == 0x706f6e6d
    ensures WordAt(s, 16) == 0x74737271
    ensures WordAt(s, 20) == 0x78777675
    ensures WordAt(s, 24) == 0x00807a79
  {
    hide WordAt;
    forall k | 0 <= k < 26
      ensures s[k] == 0x61 + k
    {
      assert s[k] == s[..26][k];
    }
    Joined(s, 0, 0x64636261);
    Joined(s, 1, 0x68676665);
    Joined(s, 2, 0x6c6b6a69);
    Joined(s, 3, 0x706f6e6d);
    Joined(s, 4, 0x74737271);
    Joined(s, 5, 0x78777675);
    Joined(s, 6, 0x00807a79);
  }

  lemma Others(s: Bytes)
    requires |s| == 64 && s[56] == 208 && forall k | 28 <= k < 64 && k != 56 :: s[k] == 0
    ensures forall n | 7 <= n < 16 :: WordAt(s, 4 * n) == if n == 14 then 208 else 0
  {
    hide WordAt;
    forall n | 7 <= n < 16
      ensures WordAt(s, 4 * n) == if n == 14 then 208 else 0
    {
      Joined(s, n, if n == 14 then 208 else 0);
    }
  }

  lemma Joined(s: Bytes, n: nat, w: Word)
    requires |s| == 64 && n < 16
    requires w as int == (s[4 * n] as int) + 0x100 * (s[4 * n + 1] as int)
                         + 0x1_0000 * (s[4 * n + 2] as int) + 0x100_0000 * (s[4 * n + 3] as int)
    ensures WordAt(s, 4 * n) == w
  {
    hide WordAt;
    Gathered(s, n, w as int);
    ComesBack(w as int, w);
  }

  lemma Gathered(s: Bytes, n: nat, v: int)
    requires |s| == 64 && n < 16
    requires v == (s[4 * n] as int) + 0x100 * (s[4 * n + 1] as int)
                  + 0x1_0000 * (s[4 * n + 2] as int) + 0x100_0000 * (s[4 * n + 3] as int)
    ensures 0 <= v < 0x1_0000_0000 && WordAt(s, 4 * n) == v as bv32
  {
  }

  lemma ComesBack(v: int, w: Word)
    requires v == w as int
    ensures 0 <= v < 0x1_0000_0000 && v as bv32 == w
  {
  }

  lemma Folded()
    ensures Fold(INIT, Padded(Alphabet())) == Regs(0xd7d3fcc3, 0x00e49261, 0x6c49fb7d, 0x3be167ca)
  {
    hide Ops, Padded, Words, Fold;
    WordsAre();
    FoldBlock(INIT, Padded(Alphabet()));
    var r := Answer56();
  }

  /** c3fcd3d76192e4007dfb496cca67e13b */
  lemma AlphabetDigest()
    ensures Digest(Alphabet()) == [0xc3, 0xfc, 0xd3, 0xd7, 0x61, 0x92, 0xe4, 0x00,
                                   0x7d, 0xfb, 0x49, 0x6c, 0xca, 0x67, 0xe1, 0x3b]
  {
    hide Fold, Padded, LittleEndian;
    Folded();
    Octets(0xd7d3fcc3);
    Octets(0x00e49261);
    Octets(0x6c49fb7d);
    Octets(0x3be167ca);
  }
}
