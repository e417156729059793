/** The MD5 message digest as RFC 1321 defines it, sections 3.1 to 3.5. */
module Md5Spec {
  import opened Wire

  type Word = bv32

  datatype Regs = Regs(a: Word, b: Word, c: Word, d: Word)

  /** Section 3.3 */
  const INIT := Regs(0x67452301, 0xefcdab89, 0x98badcfe, 0x10325476)

  /** Section 3.4: the auxiliary functions */
  function F(x: Word, y: Word, z: Word): Word { (x & y) | (!x & z) }

  function G(x: Word, y: Word, z: Word): Word { (x & z) | (y & !z) }

  function H(x: Word, y: Word, z: Word): Word { x ^ y ^ z }

  function I(x: Word, y: Word, z: Word): Word { y ^ (x | !z) }

  /** The table T of section 3.4, counted from zero: the integer part of 4294967296 times abs(sin(i + 1)). */
  function T(i: nat): Word
    requires i < 64
  {
    if i < 4 then Quad(i, 0xd76aa478, 0xe8c7b756, 0x242070db, 0xc1bdceee)
    else if i < 8 then Quad(i, 0xf57c0faf, 0x4787c62a, 0xa8304613, 0xfd469501)
    else if i < 12 then Quad(i, 0x698098d8, 0x8b44f7af, 0xffff5bb1, 0x895cd7be)
    else if i < 16 then Quad(i, 0x6b901122, 0xfd987193, 0xa679438e, 0x49b40821)
    else if i < 20 then Quad(i, 0xf61e2562, 0xc040b340, 0x265e5a51, 0xe9b6c7aa)
    else if i < 24 then Quad(i, 0xd62f105d, 0x02441453, 0xd8a1e681, 0xe7d3fbc8)
    else if i < 28 then Quad(i, 0x21e1cde6, 0xc33707d6, 0xf4d50d87, 0x455a14ed)
    else if i < 32 then Quad(i, 0xa9e3e905, 0xfcefa3f8, 0x676f02d9, 0x8d2a4c8a)
    else if i < 36 then Quad(i, 0xfffa3942, 0x8771f681, 0x6d9d6122, 0xfde5380c)
    else if i < 40 then Quad(i, 0xa4beea44, 0x4bdecfa9, 0xf6bb4b60, 0xbebfbc70)
    else if i < 44 then Quad(i, 0x289b7ec6, 0xeaa127fa, 0xd4ef3085, 0x04881d05)
    else if i < 48 then Quad(i, 0xd9d4d039, 0xe6db99e5, 0x1fa27cf8, 0xc4ac5665)
    else if i < 52 then Quad(i, 0xf4292244, 0x432aff97, 0xab9423a7, 0xfc93a039)
    else if i < 56 then Quad(i, 0x655b59c3, 0x8f0ccc92, 0xffeff47d, 0x85845dd1)
    else if i < 60 then Quad(i, 0x6fa87e4f, 0xfe2ce6e0, 0xa3014314, 0x4e0811a1)
    else Quad(i, 0xf7537e82, 0xbd3af235, 0x2ad7d2bb, 0xeb86d391)
  }

  function Quad(i: nat, t0: Word, t1: Word, t2: Word, t3: Word): Word
  {
    if i % 4 == 0 then t0 else if i % 4 == 1 then t1 else if i % 4 == 2 then t2 else t3
  }

  /** Which word of the block operation `i` takes. */
  function K(i: nat): (k: nat)
    requires i < 64
    ensures k < 16
  {
    if i < 16 then i else if i < 32 then (5 * i + 1) % 16 else if i < 48 then (3 * i + 5) % 16 else 7 * i % 16
  }

  /** How far operation `i` rotates. */
  function S(i: nat): (s: nat)
    requires i < 64
    ensures 0 < s < 32
  {
    if i < 16 then OneOf(i, 7, 12, 17, 22)
    else if i < 32 then OneOf(i, 5, 9, 14, 20)
    else if i < 48 then OneOf(i, 4, 11, 16, 23)
    else OneOf(i, 6, 10, 15, 21)
  }

  function OneOf(i: nat, s0: nat, s1: nat, s2: nat, s3: nat): nat
  {
    if i % 4 == 0 then s0 else if i % 4 == 1 then s1 else if i % 4 == 2 then s2 else s3
  }

  function Aux(i: nat, x: Word, y: Word, z: Word): Word
  {
    if i < 16 then F(x, y, z) else if i < 32 then G(x, y, z) else if i < 48 then H(x, y, z) else I(x, y, z)
  }

  /** Addition of words, modulo 2^32. */
  function Plus(x: Word, y: Word): Word { x + y }

  function Rotate(x: Word, s: nat): Word
    requires 0 < s < 32
  {
    (x << s) | (x >> (32 - s))
  }

  /** Operation `i`: a = b + ((a + Aux(b, c, d) + X[k] + T[i]) <<< s), after which the registers change places. */
  function Op(r: Regs, i: nat, x: seq<Word>): Regs
    requires i < 64 && |x| == 16
  {
    var sum := Plus(Plus(Plus(r.a, Aux(i, r.b, r.c, r.d)), x[K(i)]), T(i));
    Regs(r.d, Plus(r.b, Rotate(sum, S(i))), r.b, r.c)
  }

  function Ops(r: Regs, x: seq<Word>, n: nat): Regs
    requires n <= 64 && |x| == 16
  {
    if n == 0 then r else Op(Ops(r, x, n - 1), n - 1, x)
  }

  /** Section 2: four octets as a word, low-order octet first. */
  function WordAt(s: Bytes, i: nat): Word
    requires i + 4 <= |s|
  {
    ((s[i] as int) + 0x100 * (s[i + 1] as int) + 0x1_0000 * (s[i + 2] as int) + 0x100_0000 * (s[i + 3] as int)) as bv32
  }

  function Words(block: Bytes): (x: seq<Word>)
    requires |block| == 64
    ensures |x| == 16
  {
    seq(16, n requires 0 <= n < 16 => WordAt(block, 4 * n))
  }

  function Compress(r: Regs, block: Bytes): Regs
    requires |block| == 64
  {
    var q := Ops(r, Words(block), 64);
    Regs(Plus(q.a, r.a), Plus(q.b, r.b), Plus(q.c, r.c), Plus(q.d, r.d))
  }

  /** All complete blocks of `s`, in order. */
  function Fold(r: Regs, s: Bytes): Regs
    decreases |s|
  {
    if |s| < 64 then r else Fold(Compress(r, s[..64]), s[64..])
  }

  /** What remains of `s` behind its complete blocks. */
  function Residue(s: Bytes): (t: Bytes)
    ensures |t| == |s| % 64
    decreases |s|
  {
    if |s| < 64 then s else Residue(s[64..])
  }

  function Zeros(n: nat): (z: Bytes)
    ensures |z| == n
  {
    seq(n, _ => 0)
  }

  /** Low-order octet first. */
  function LittleEndian(n: nat, width: nat): (s: Bytes)
    ensures |s| == width
  {
    if width == 0 then [] else [n % 0x100] + LittleEndian(n / 0x100, width - 1)
  }

  /** Section 3.2: the low 64 bits of the length in bits. */
  function BitLength(n: nat): (s: Bytes)
    ensures |s| == 8
  {
    LittleEndian(8 * n % 0x1_0000_0000_0000_0000, 8)
  }

  /** Sections 3.1 and 3.2 */
  function Padded(message: Bytes): Bytes
  {
    message + [0x80] + Zeros((119 - |message| % 64) % 64) + BitLength(|message|)
  }

  /** Section 3.5 */
  function Output(r: Regs): (s: Bytes)
    ensures |s| == 16
  {
    LittleEndian(r.a as int, 4) + LittleEndian(r.b as int, 4)
    + LittleEndian(r.c as int, 4) + LittleEndian(r.d as int, 4)
  }

  function Digest(message: Bytes): (d: Bytes)
    ensures |d| == 16
  {
    Output(Fold(INIT, Padded(message)))
  }

  lemma {:induction false} FoldSplits(r: Regs, s: Bytes, t: Bytes)
    ensures Fold(r, s + t) == Fold(Fold(r, s), Residue(s) + t)
    ensures Residue(s + t) == Residue(Residue(s) + t)
    decreases |s|
  {
    if |s| >= 64 {
      assert (s + t)[..64] == s[..64] && (s + t)[64..] == s[64..] + t;
      FoldSplits(Compress(r, s[..64]), s[64..], t);
    }
  }
}
