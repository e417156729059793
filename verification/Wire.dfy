/** The byte-level reading of PostgreSQL messages done by the macros and the
    accessors of src/msg.c: how long the message at the front of a buffer is,
    and what kind of message it is. All functions take the buffered bytes. */
module Wire {

  type byte = b: int | 0 <= b < 256
  type Bytes = seq<byte>

  datatype Option<+T> = None | Some(value: T)

  const MSG_STARTUP := 1
  const MSG_SSLREQ := 2
  const MSG_CANCEL := 3

  /** The `u32` macro. Its cast to a 16-bit integer binds to the first shifted
      octet only and clears it, so the top octet of the field is lost. */
  function U32(v: Bytes): (r: nat)
    requires |v| >= 4
    ensures r < 0x100_0000
  {
    (v[1] as int) * 0x1_0000 + (v[2] as int) * 0x100 + (v[3] as int)
  }

  function U16(v: Bytes): nat
    requires |v| >= 2
  {
    (v[0] as int) * 0x100 + (v[1] as int)
  }

  /** What the protocol means by a four-octet integer. */
  function BigEndian32(v: Bytes): nat
    requires |v| >= 4
  {
    (v[0] as int) * 0x100_0000 + (v[1] as int) * 0x1_0000 + (v[2] as int) * 0x100 + (v[3] as int)
  }

  /** `htonl`, on a value that fits in 32 bits. */
  function Htonl(n: nat): (v: Bytes)
    requires n < 0x1_0000_0000
    ensures |v| == 4 && BigEndian32(v) == n
  {
    var low24 := n % 0x100_0000;
    var low16 := low24 % 0x1_0000;
    [n / 0x100_0000, low24 / 0x1_0000, low16 / 0x100, low16 % 0x100]
  }

  /** `size`: octets in the message at the front of the buffer, 0 when fewer than five octets are there. */
  function Size(v: Bytes): (r: nat)
    ensures r <= 0x100_0000
  {
    if |v| < 5 then 0
    else if v[0] == 0 then U32(v)
    else U32(v[1..]) + 1
  }

  /** `pgr_mbuf_msglength`: an unsigned 32-bit subtraction, which wraps below four. */
  function MsgLength(v: Bytes): nat
  {
    if |v| < 5 then 0
    else if v[0] == 0 then (U32(v) + 0x1_0000_0000 - 4) % 0x1_0000_0000
    else (U32(v[1..]) + 0x1_0000_0000 - 4) % 0x1_0000_0000
  }

  /** An octet returned as a (signed) `char`. */
  function Char(b: byte): int
  {
    if b < 128 then b else b - 256
  }

  /** `pgr_mbuf_msgtype`. */
  function MsgType(v: Bytes): int
  {
    if |v| == 0 then -1
    else if v[0] == 0 then
      var len := MsgLength(v);
      if len == 4 && |v| >= 8 && U16(v[4..]) == 1234 && U16(v[6..]) == 5679 then MSG_SSLREQ
      else if len == 12 then MSG_CANCEL
      else if len >= 5 then MSG_STARTUP
      else -1
    else Char(v[0])
  }

  /** The number in the length field of an untyped message, as far as it is read. */
  function Field24(v: Bytes): nat
    requires |v| >= 4
  {
    0x1_0000 * (v[1] as int) + 0x100 * (v[2] as int) + (v[3] as int)
  }

  /** What is taken for an SSLRequest: the eight octets of one, the length 8 and the code 80877103, or a message of type
      octet 2. */
  lemma SslRequestIff(v: Bytes)
    ensures MsgType(v) == MSG_SSLREQ <==>
            (|v| >= 8 && v[..8] == [0, 0, 0, 8, 0x04, 0xd2, 0x16, 0x2f]) || (v != [] && v[0] == 2)
  {
  }

  /** What is taken for a CancelRequest: any untyped message of length 16, or one of type octet 3. */
  lemma CancelIff(v: Bytes)
    ensures MsgType(v) == MSG_CANCEL <==> (|v| >= 5 && v[..4] == [0, 0, 0, 16]) || (v != [] && v[0] == 3)
  {
  }

  /** What is taken for a startup message: any other untyped message, of which five octets are there, but for the
      lengths 4 to 8; or one of type octet 1. */
  lemma StartupIff(v: Bytes)
    ensures MsgType(v) == MSG_STARTUP <==>
            || (|v| >= 5 && v[0] == 0 && !(4 <= Field24(v) <= 8) && Field24(v) != 16)
            || (v != [] && v[0] == 1)
  {
  }

  /** The type octet of any other message, as a signed one. */
  lemma TypeOctet(v: Bytes)
    requires v != [] && v[0] != 0
    ensures MsgType(v) == if v[0] < 128 then v[0] as int else v[0] as int - 256
  {
  }

  /** The first `n` octets of a stream, or what there is of them. */
  function Cut(s: Bytes, n: nat): Bytes
  {
    if n <= |s| then s[..n] else s
  }

  /** The part of a byte stream that the next whole-message operation works on. */
  function Front(s: Bytes): Bytes
  {
    Cut(s, Size(s))
  }

  predicate HasFrame(s: Bytes)
  {
    5 <= |s| && Size(s) <= |s|
  }

  /** Messages as the protocol lays them out: the length counts itself and the payload, not the type. */
  function Typed(kind: byte, payload: Bytes): Bytes
    requires kind != 0 && |payload| + 4 < 0x1_0000_0000
  {
    [kind] + Htonl(|payload| + 4) + payload
  }

  function Untyped(payload: Bytes): Bytes
    requires |payload| + 4 < 0x1_0000_0000
  {
    Htonl(|payload| + 4) + payload
  }

  /** `size` looks at the first five octets only. */
  lemma SizeOfPrefix(s: Bytes, k: nat)
    requires 5 <= k <= |s|
    ensures Size(s[..k]) == Size(s)
  {
  }

  /** `size` measures a typed protocol message correctly exactly when its length field fits in 24 bits. */
  lemma TypedSizeExact(kind: byte, payload: Bytes)
    requires kind != 0 && |payload| + 4 < 0x1_0000_0000
    ensures Size(Typed(kind, payload)) == |Typed(kind, payload)| <==> |payload| + 4 < 0x100_0000
  {
  }

  /** The same for untyped messages, except that one whose top length octet is not zero is even taken for a typed
      one. */
  lemma UntypedSizeExact(payload: Bytes)
    requires 0 < |payload| && |payload| + 4 < 0x1_0000_0000
    ensures Size(Untyped(payload)) == |Untyped(payload)| <==> |payload| + 4 < 0x100_0000
  {
  }

  lemma Associates(a: Bytes, b: Bytes, c: Bytes)
    ensures a + b + c == a + (b + c)
  {
  }

  /** One message after the other. */
  function Flatten(frames: seq<Bytes>): Bytes
  {
    if frames == [] then [] else Flatten(frames[..|frames| - 1]) + frames[|frames| - 1]
  }

  lemma FlattenAppend(frames: seq<Bytes>, f: Bytes)
    ensures Flatten(frames + [f]) == Flatten(frames) + f
  {
    assert (frames + [f])[..|frames|] == frames;
  }

  lemma {:induction false} FlattenFront(frames: seq<Bytes>)
    requires frames != []
    ensures Flatten(frames) == frames[0] + Flatten(frames[1..])
  {
    var n := |frames| - 1;
    if n == 0 {
      assert frames[..0] == [] && Flatten([]) == [];
    } else {
      FlattenFront(frames[..n]);
      assert frames[..n][1..] == frames[1..][..n - 1] && frames[..n][0] == frames[0];
      Associates(frames[0], Flatten(frames[1..][..n - 1]), frames[n]);
    }
  }

  /** Two streams, each in its order, woven into one. */
  predicate Woven(h: Bytes, a: Bytes, b: Bytes)
    decreases |h|
  {
    if h == [] then a == [] && b == []
    else
      var n := |h| - 1;
      || (a != [] && a[|a| - 1] == h[n] && Woven(h[..n], a[..|a| - 1], b))
      || (b != [] && b[|b| - 1] == h[n] && Woven(h[..n], a, b[..|b| - 1]))
  }

  lemma {:induction false} MoreOfFirst(h: Bytes, a: Bytes, b: Bytes, more: Bytes)
    requires Woven(h, a, b)
    ensures Woven(h + more, a + more, b)
    decreases |more|
  {
    if more == [] {
      assert h + more == h && a + more == a;
    } else {
      var n := |more| - 1;
      MoreOfFirst(h, a, b, more[..n]);
      assert (h + more)[..|h + more| - 1] == h + more[..n];
      assert (a + more)[..|a + more| - 1] == a + more[..n];
    }
  }

  lemma {:induction false} MoreOfSecond(h: Bytes, a: Bytes, b: Bytes, more: Bytes)
    requires Woven(h, a, b)
    ensures Woven(h + more, a, b + more)
    decreases |more|
  {
    if more == [] {
      assert h + more == h && b + more == b;
    } else {
      var n := |more| - 1;
      MoreOfSecond(h, a, b, more[..n]);
      assert (h + more)[..|h + more| - 1] == h + more[..n];
      assert (b + more)[..|b + more| - 1] == b + more[..n];
    }
  }

  const NUL: byte := 0

  predicate NulFree(s: Bytes)
  {
    forall k :: 0 <= k < |s| ==> s[k] != NUL
  }

  /** A C string ends at its first NUL. */
  function CString(s: Bytes): Bytes
  {
    if s == [] || s[0] == NUL then [] else [s[0]] + CString(s[1..])
  }

  lemma CStringShorter(s: Bytes)
    ensures |CString(s)| <= |s|
  {
  }

  lemma {:induction false} CStringWhole(s: Bytes)
    requires NulFree(s)
    ensures CString(s) == s
  {
    if s != [] {
      CStringWhole(s[1..]);
    }
  }
}
