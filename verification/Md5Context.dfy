/** The incremental digest of src/md5.c: a context that takes a message in pieces of any length. */
module Md5Context {
  import opened Wire
  import opened Md5Spec
  import opened Md5

  /** Two lower-case hexadecimal digits for each octet. */
  function HexOf(s: Bytes): (h: Bytes)
    ensures |h| == 2 * |s|
  {
    if s == [] then [] else HexOf(s[..|s| - 1]) + [HexDigit(s[|s| - 1] / 0x10), HexDigit(s[|s| - 1] % 0x10)]
  }

  function HexPair(b: byte): Bytes
  {
    [HexDigit(b / 0x10), HexDigit(b % 0x10)]
  }

  lemma HexOfNothing()
    ensures HexOf([]) == []
  {
  }

  lemma HexOfNext(s: Bytes, i: nat)
    requires i < |s|
    ensures HexOf(s[..i + 1]) == HexOf(s[..i]) + HexPair(s[i])
    ensures s[..0] == []
  {
    assert s[..i + 1][..i] == s[..i];
  }

  lemma EmptyBehind(s: Bytes)
    ensures s + [] == s
  {
  }

  /** The two digits of an octet. */
  method PutHex(result: array<byte>, j: nat, b: byte, end: nat)
    requires j + 2 <= end <= result.Length
    modifies result
    ensures result[..j + 2] == old(result[..j]) + HexPair(b)
    ensures result[end..] == old(result[end..])
  {
    result[j] := HexDigit(b / 0x10 % 0x10);
    result[j + 1] := HexDigit(b % 0x10);
    assert result[..j] == old(result[..j]);
    assert result[..j + 2] == result[..j] + [result[j], result[j + 1]];
  }

  function HexDigit(u: nat): byte
    requires u < 16
  {
    if u < 0xa then u + 0x30 else u - 0xa + 0x61
  }

  lemma {:induction false} HexIsInjective(s: Bytes, t: Bytes)
    requires HexOf(s) == HexOf(t)
    ensures s == t
    decreases |s|
  {
    if s == [] {
      assert |t| == 0;
    } else {
      var n := |s| - 1;
      assert HexOf(s)[..2 * n] == HexOf(s[..n]) && HexOf(t)[..2 * n] == HexOf(t[..n]);
      HexIsInjective(s[..n], t[..n]);
      assert HexOf(s)[2 * n] == HexOf(t)[2 * n] && HexOf(s)[2 * n + 1] == HexOf(t)[2 * n + 1];
      assert s == s[..n] + [s[n]] && t == t[..n] + [t[n]];
    }
  }

  /** What is read there: each octet as two lower-case hexadecimal digits, the high one first. */
  lemma {:induction false} HexDigits(s: Bytes)
    ensures forall k | 0 <= k < |s| ::
              && HexOf(s)[2 * k] as int == "0123456789abcdef"[s[k] / 16] as int
              && HexOf(s)[2 * k + 1] as int == "0123456789abcdef"[s[k] % 16] as int
    decreases |s|
  {
    if s != [] {
      var n := |s| - 1;
      HexDigits(s[..n]);
      forall k | 0 <= k < |s|
        ensures HexOf(s)[2 * k] as int == "0123456789abcdef"[s[k] / 16] as int
        ensures HexOf(s)[2 * k + 1] as int == "0123456789abcdef"[s[k] % 16] as int
      {
        if k < n {
          assert s[..n][k] == s[k];
        } else {
          DigitIs(s[k] / 16);
          DigitIs(s[k] % 16);
        }
      }
    }
  }

  lemma DigitIs(u: nat)
    requires u < 16
    ensures HexDigit(u) as int == "0123456789abcdef"[u] as int
  {
  }

  lemma FoldShort(r: Regs, s: Bytes)
    requires |s| < 64
    ensures Fold(r, s) == r && Residue(s) == s
  {
  }

  lemma FoldBlock(r: Regs, s: Bytes)
    requires |s| == 64
    ensures Fold(r, s) == Compress(r, s) && Residue(s) == []
  {
    assert s[..64] == s && s[64..] == [];
  }

  /** Whole blocks can be folded first. */
  lemma FoldBlocks(r: Regs, s: Bytes, n: nat, t: Bytes)
    requires |s| == 64 * n
    ensures Fold(r, s + t) == Fold(Fold(r, s), t)
    ensures Residue(s + t) == Residue(t)
  {
    hide *;
    FoldSplits(r, s, t);
    Multiple(n);
    assert Residue(s) + t == t;
  }

  lemma Multiple(n: nat)
    ensures 64 * n % 64 == 0
  {
  }

  /** The complete blocks of a stretch of `data`. */
  ghost function FoldOver(r: Regs, data: Bytes, from: nat, to: nat): Regs
    requires from <= to <= |data|
  {
    Fold(r, data[from..to])
  }

  lemma FoldOverBlock(r: Regs, data: Bytes, from: nat, to: nat)
    requires from + 64 <= to <= |data|
    ensures FoldOver(r, data, from, to) == FoldOver(FoldOver(r, data, from, from + 64), data, from + 64, to)
  {
    assert data[from..to] == data[from..from + 64] + data[from + 64..to];
    FoldBlocks(r, data[from..from + 64], 1, data[from + 64..to]);
  }

  lemma FoldOverNothing(r: Regs, data: Bytes, at: nat)
    requires at <= |data|
    ensures FoldOver(r, data, at, at) == r
  {
  }

  lemma UsedIsResidue(lo: nat, hi: nat, message: Bytes)
    requires Counter(lo, hi, |message|)
    ensures lo % 64 == |Residue(message)|
  {
    hide Residue;
    LowBits(|message|);
  }

  lemma LowBits(n: nat)
    ensures n % 0x2000_0000 % 64 == n % 64
  {
    assert n == 64 * (0x80_0000 * (n / 0x2000_0000)) + n % 0x2000_0000;
  }

  method Copy(dst: array<byte>, to: nat, data: Bytes, from: nat, n: nat)
    requires to + n <= dst.Length && from + n <= |data|
    modifies dst
    ensures dst[..] == old(dst[..to]) + data[from..from + n] + old(dst[to + n..])
  {
    for i := 0 to n
      invariant forall k :: 0 <= k < to || to + i <= k < dst.Length ==> dst[k] == old(dst[k])
      invariant forall k :: to <= k < to + i ==> dst[k] == data[from + (k - to)]
    {
      dst[to + i] := data[from + i];
    }
  }

  lemma ZerosSplit(front: Bytes, m: nat, n: nat, field: Bytes)
    ensures front + Zeros(m + n) + field == front + Zeros(m) + (Zeros(n) + field)
  {
  }

  /** The padding goes behind what the buffer holds. */
  lemma PaddedSplits(message: Bytes)
    ensures Fold(INIT, Padded(message))
         == Fold(Fold(INIT, message),
                 Residue(message) + [0x80] + Zeros((119 - |Residue(message)|) % 64) + BitLength(|message|))
  {
    hide Fold, Residue, Zeros, BitLength;
    var zeros := Zeros((119 - |message| % 64) % 64);
    var field := BitLength(|message|);
    var tail := [0x80] + zeros + field;
    assert Padded(message) == message + tail;
    FoldSplits(INIT, message, tail);
    assert Residue(message) + tail == Residue(message) + [0x80] + zeros + field;
  }

  lemma Octets(w: nat)
    ensures LittleEndian(w, 4) == [w % 0x100, w / 0x100 % 0x100, w / 0x1_0000 % 0x100, w / 0x100_0000 % 0x100]
  {
    hide LittleEndian;
    FirstOctet(w, 4);
    FirstOctet(w / 0x100, 3);
    FirstOctet(w / 0x1_0000, 2);
    FirstOctet(w / 0x100_0000, 1);
    assert LittleEndian(w / 0x1_0000_0000, 0) == [];
    Shifts(w);
  }

  lemma Shifts(w: nat)
    ensures w / 0x100 / 0x100 == w / 0x1_0000
    ensures w / 0x1_0000 / 0x100 == w / 0x100_0000
    ensures w / 0x100_0000 / 0x100 == w / 0x1_0000_0000
  {
  }

  /** A word, low-order octet first. */
  method StoreWord(dst: array<byte>, at: nat, w: nat)
    requires at + 4 <= dst.Length
    modifies dst
    ensures dst[..] == old(dst[..at]) + LittleEndian(w, 4) + old(dst[at + 4..])
  {
    hide LittleEndian;
    Octets(w);
    dst[at] := w % 0x100;
    dst[at + 1] := w / 0x100 % 0x100;
    dst[at + 2] := w / 0x1_0000 % 0x100;
    dst[at + 3] := w / 0x100_0000 % 0x100;
  }

  class MD5 {
    var lo: nat
    var hi: nat
    /** `a`, `b`, `c` and `d` */
    var regs: Regs
    const buf: array<byte>

    /** The context after `message`, whatever the pieces it came in. */
    ghost predicate Valid(message: Bytes)
      reads this, buf
    {
      && Counter(lo, hi, |message|)
      && regs == Fold(INIT, message)
      && Holds(Residue(message))
    }

    ghost predicate Holds(residue: Bytes)
      reads buf
    {
      |residue| < buf.Length == 64 && buf[..|residue|] == residue
    }

    constructor ()
      ensures Valid([])
      ensures fresh(this) && fresh(buf)
    {
      buf := new byte[64];
      regs := Regs(0x67452301, 0xefcdab89, 0x98badcfe, 0x10325476);
      lo, hi := 0, 0;
      new;
      assert buf[..0] == [];
    }

    /** One turn of the loop in `body`. */
    method Block(data: Bytes, ptr: nat)
      requires ptr + 64 <= |data|
      modifies this`regs
      ensures regs == FoldOver(old(regs), data, ptr, ptr + 64)
    {
      hide Plus, Ops, Words, Fold;
      var saved := regs;
      var block := data[ptr..ptr + 64];
      var a, b, c, d := Steps56(saved, Words(block));
      regs := Regs(Plus(a, saved.a), Plus(b, saved.b), Plus(c, saved.c), Plus(d, saved.d));
      FoldBlock(saved, block);
    }

    /** `body`, on `size` octets of `data` from `at`, a positive multiple of 64. */
    method Body(data: Bytes, at: nat, size: nat, ghost blocks: nat) returns (ptr: nat)
      requires size > 0 && size == 64 * blocks && at + size <= |data|
      modifies this`regs
      ensures ptr == at + size
      ensures regs == FoldOver(old(regs), data, at, at + size)
    {
      hide *;
      ptr := at;
      var left := size;
      var more := true;
      ghost var end, turns := at + size, blocks;
      ghost var goal := FoldOver(regs, data, at, end);
      while more
        invariant left == 64 * turns && ptr + left == end
        invariant more <==> left > 0
        invariant FoldOver(regs, data, ptr, end) == goal
        decreases left
      {
        FoldOverBlock(regs, data, ptr, end);
        Block(data, ptr);
        turns := turns - 1;
        ptr := ptr + 64;
        left := left - 64;
        more := left != 0;
      }
      FoldOverNothing(regs, data, end);
    }

    /** The byte counter after `size` more octets. */
    method Count(size: nat, ghost total: nat)
      requires Counter(lo, hi, total)
      modifies this`lo, this`hi
      ensures Counter(lo, hi, total + size)
    {
      hide Counter;
      CounterAdds(lo, hi, total, size);
      var savedLo := lo;
      lo := (savedLo + size) % 0x2000_0000;
      if lo < savedLo {
        hi := (hi + 1) % 0x1_0000_0000;
      }
      hi := (hi + size / 0x2000_0000) % 0x1_0000_0000;
    }

    /** `pgr_md5_update` */
    method Update(data: Bytes, ghost message: Bytes)
      requires Valid(message)
      modifies this, buf
      ensures Valid(message + data)
    {
      hide Fold, Residue, Counter, Holds;
      UsedIsResidue(lo, hi, message);
      var used := lo % 64;
      Count(|data|, |message|);
      FoldSplits(INIT, message, data);
      Fill(data, used, Residue(message));
    }

    /** `pgr_md5_update`, once the octets are counted and `used` of the buffer are taken. */
    method Fill(data: Bytes, used: nat, ghost residue: Bytes)
      requires Holds(residue) && used == |residue|
      modifies this`regs, buf
      ensures regs == Fold(old(regs), residue + data)
      ensures Holds(Residue(residue + data))
    {
      hide Fold, Residue;
      ghost var whole := residue + data;
      var at, size := 0, |data|;
      if used > 0 {
        var available := 64 - used;
        if size < available {
          Copy(buf, used, data, 0, size);
          FoldShort(regs, whole);
          assert buf[..used + size] == whole;
          return;
        }
        Copy(buf, used, data, 0, available);
        at, size := available, size - available;
        assert whole == buf[..] + data[at..];
        FoldBlocks(regs, buf[..], 1, data[at..]);
        var _ := Body(buf[..], 0, 64, 1);
        assert buf[..][0..64] == buf[..];
      } else {
        assert whole == data[0..];
      }
      Absorb(data, at, size);
    }

    /** The tail of `pgr_md5_update`, with an empty buffer: the whole blocks of `data` from `at`, the rest kept. */
    method Absorb(data: Bytes, at: nat, size: nat)
      requires buf.Length == 64 && at + size == |data|
      modifies this`regs, buf
      ensures regs == Fold(old(regs), data[at..])
      ensures Holds(Residue(data[at..]))
    {
      hide Fold, Residue;
      var from, left := at, size;
      if left >= 64 {
        from := Body(data, from, left - left % 64, left / 64);
        left := left % 64;
        assert data[at..] == data[at..from] + data[from..];
        FoldBlocks(old(regs), data[at..from], size / 64, data[from..]);
      }
      FoldShort(regs, data[from..]);
      Copy(buf, 0, data, from, left);
      assert buf[..left] == data[from..];
    }

    /** The `0x80` behind the message and the zeros up to the length field. When the field no longer fits
        behind them, a block goes through the compression first. */
    method Pad(used: nat, ghost residue: Bytes, ghost field: Bytes)
      requires Holds(residue) && used == |residue| && |field| == 8
      modifies this`regs, buf
      ensures Fold(old(regs), residue + [0x80] + Zeros((119 - used) % 64) + field) == Fold(regs, buf[..56] + field)
    {
      hide Fold, Zeros;
      var at := used + 1;
      buf[used] := 0x80;
      ghost var front := residue + [0x80];
      assert buf[..at] == front;
      var available := 64 - at;
      if available < 8 {
        FirstPadding(available, front);
        at, available := 0, 64;
        ZerosSplit(front, 63 - used, 56, field);
        FoldBlocks(old(regs), front + Zeros(63 - used), 1, Zeros(56) + field);
      }
      Copy(buf, at, Zeros(available - 8), 0, available - 8);
      assert at == 0 ==> buf[..56] == Zeros(56);
      assert at > 0 ==> buf[..56] == front + Zeros((119 - used) % 64);
    }

    /** With no room for the length field, the block is filled up and goes through the compression. */
    method FirstPadding(available: nat, ghost front: Bytes)
      requires buf.Length == 64 && available < 8 && |front| == 64 - available && buf[..64 - available] == front
      modifies this`regs, buf
      ensures regs == Fold(old(regs), front + Zeros(available))
    {
      hide Fold, Zeros;
      Copy(buf, 64 - available, Zeros(available), 0, available);
      ghost var first := front + Zeros(available);
      assert buf[..] == first && first[0..64] == first;
      var _ := Body(buf[..], 0, 64, 1);
    }

    /** The length field: `lo` becomes a number of bits, then both words go behind the padding. */
    method StoreLength(ghost total: nat)
      requires Counter(lo, hi, total) && buf.Length == 64
      modifies this`lo, buf
      ensures buf[..] == old(buf[..56]) + BitLength(total)
    {
      hide LittleEndian;
      LengthField(total);
      lo := lo * 8 % 0x1_0000_0000;
      StoreWord(buf, 56, lo);
      StoreWord(buf, 60, hi);
    }

    /** The end of the message goes through the compression. */
    method Finish(ghost message: Bytes)
      requires Valid(message)
      modifies this`lo, this`regs, buf
      ensures regs == Fold(INIT, Padded(message))
    {
      hide Fold, Residue, Counter, LittleEndian, Zeros, Padded;
      UsedIsResidue(lo, hi, message);
      PaddedSplits(message);
      Pad(lo % 64, Residue(message), BitLength(|message|));
      StoreLength(|message|);
      var _ := Body(buf[..], 0, 64, 1);
      assert buf[..][0..64] == buf[..];
    }

    method Emit(result: array<byte>)
      requires result.Length == 16
      modifies result
      ensures result[..] == Output(regs)
    {
      hide LittleEndian;
      StoreWord(result, 0, regs.a as int);
      StoreWord(result, 4, regs.b as int);
      StoreWord(result, 8, regs.c as int);
      StoreWord(result, 12, regs.d as int);
    }

    method Clear()
      requires buf.Length == 64
      modifies this, buf
      ensures lo == hi == 0 && regs == Regs(0, 0, 0, 0) && buf[..] == Zeros(64)
    {
      lo, hi := 0, 0;
      regs := Regs(0, 0, 0, 0);
      Copy(buf, 0, Zeros(64), 0, 64);
    }

    /** `pgr_md5_raw`: the digest goes to `result`, and the context is cleared. */
    method Raw(result: array<byte>, ghost message: Bytes)
      requires Valid(message) && result.Length == 16 && result != buf
      modifies this, buf, result
      ensures result[..] == Digest(message)
      ensures lo == hi == 0 && regs == Regs(0, 0, 0, 0) && buf[..] == Zeros(64)
    {
      hide Fold, Output, Zeros, Padded;
      Finish(message);
      Emit(result);
      Clear();
    }

    /** `pgr_md5_hex`: the digest as 32 hexadecimal digits, at `at`. */
    method Hex(result: array<byte>, at: nat, ghost message: Bytes)
      requires Valid(message) && at + 32 <= result.Length && result != buf
      modifies this, buf, result
      ensures result[..] == old(result[..at]) + HexOf(Digest(message)) + old(result[at + 32..])
      ensures forall k | 0 <= k < 16 ::
                && result[at + 2 * k] as int == "0123456789abcdef"[Digest(message)[k] / 16] as int
                && result[at + 2 * k + 1] as int == "0123456789abcdef"[Digest(message)[k] % 16] as int
    {
      hide Digest, MD5.Valid, HexOf;
      HexDigits(Digest(message));
      var raw := new byte[16];
      Raw(raw, message);
      HexOfNothing();
      ghost var front, back := result[..at], result[at + 32..];
      EmptyBehind(front);
      var j := at;
      for i := 0 to 16
        invariant j == at + 2 * i
        invariant raw[..] == Digest(message)
        invariant result[..j] == front + HexOf(raw[..i])
        invariant result[at + 32..] == back
      {
        PutHex(result, j, raw[i], at + 32);
        HexOfNext(raw[..], i);
        Associates(front, HexOf(raw[..i]), HexPair(raw[i]));
        j := j + 2;
      }
      assert result[..] == result[..at + 32] + result[at + 32..];
      assert raw[..16] == raw[..];
      assert result[..][at..at + 32] == HexOf(Digest(message));
    }
  }

  /** However the message is cut into updates, the digest is that of the whole message. */
  method DigestInPieces(pieces: seq<Bytes>) returns (hex: Bytes)
    ensures hex == HexOf(Digest(Flatten(pieces))) && |hex| == 32
    ensures forall k | 0 <= k < 16 ::
              && hex[2 * k] as int == "0123456789abcdef"[Digest(Flatten(pieces))[k] / 16] as int
              && hex[2 * k + 1] as int == "0123456789abcdef"[Digest(Flatten(pieces))[k] % 16] as int
  {
    hide Digest, MD5.Valid, HexOf;
    var context := new MD5();
    for i := 0 to |pieces|
      invariant fresh(context) && fresh(context.buf)
      invariant context.Valid(Flatten(pieces[..i]))
    {
      FlattenAppend(pieces[..i], pieces[i]);
      assert pieces[..i + 1] == pieces[..i] + [pieces[i]];
      context.Update(pieces[i], Flatten(pieces[..i]));
    }
    assert pieces[..|pieces|] == pieces;
    var result := new byte[32];
    context.Hex(result, 0, Flatten(pieces));
    hex := result[..];
  }
}
