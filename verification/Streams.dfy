/** File descriptors as byte streams. A read may be short and a write may be
    short; either may fail. `faults` is the number of failures the environment
    still has in store, so "no failure happened" is "faults did not change". */
module Streams {
  import opened Wire

  /** How short the reads are: with `rest` octets still to come, the next read is of at most `1 + pace(rest)`.
      Every sequence of short reads comes from such a function. */
  type Pace = nat -> nat

  /** What a read that does not fail returns, with `room` octets of space. */
  function ReadSize(room: nat, rest: nat, pace: Pace): (n: nat)
    ensures n <= room && n <= rest
    ensures n == 0 <==> room == 0 || rest == 0
  {
    Min(Min(room, rest), 1 + pace(rest))
  }

  function Min(a: nat, b: nat): nat
  {
    if a < b then a else b
  }

  class InFd {
    var unread: Bytes
    var faults: nat
    const pace: Pace

    constructor (bytes: Bytes, errors: nat, pace: Pace)
      ensures unread == bytes && faults == errors && this.pace == pace
    {
      unread, faults := bytes, errors;
      this.pace := pace;
    }

    /** `read(fd, buf + off, cap)`. */
    method Read(buf: array<byte>, off: nat, cap: nat) returns (n: int)
      requires off + cap <= buf.Length
      modifies this, buf
      ensures n < 0 <==> faults < old(faults)
      ensures n < 0 ==> n == -1 && faults == old(faults) - 1
      ensures n >= 0 ==> faults == old(faults) && n == ReadSize(cap, |old(unread)|, pace)
      ensures n <= 0 ==> unread == old(unread) && buf[..] == old(buf[..])
      ensures n > 0 ==> unread == old(unread)[n..] && buf[off..off + n] == old(unread)[..n]
      ensures forall i | 0 <= i < buf.Length && !(off <= i < off + n) :: buf[i] == old(buf[i])
    {
      var fail: bool := *;
      if fail && faults > 0 {
        faults := faults - 1;
        return -1;
      }
      n := ReadSize(cap, |unread|, pace);
      forall i | 0 <= i < n {
        buf[off + i] := unread[i];
      }
      unread := unread[n..];
    }
  }

  class OutFd {
    var written: Bytes
    var faults: nat
    /** How many `writen` calls needed more than one write. */
    ghost var torn: nat

    constructor (errors: nat)
      ensures written == [] && faults == errors && torn == 0
    {
      written, faults, torn := [], errors, 0;
    }

    /** `write(fd, data, |data|)`. */
    method Write(data: Bytes) returns (n: int)
      requires data != []
      modifies this`written, this`faults
      ensures n <= 0 <==> faults < old(faults)
      ensures n <= 0 ==> faults == old(faults) - 1 && written == old(written)
      ensures n > 0 ==> faults == old(faults) && n <= |data| && written == old(written) + data[..n]
    {
      var fail: bool := *;
      if fail && faults > 0 {
        faults := faults - 1;
        n :| -1 <= n <= 0;
        return;
      }
      n :| 1 <= n <= |data|;
      written := written + data[..n];
    }
  }

  /** `pgr_sendn` */
  method SendN(fd: OutFd, data: Bytes) returns (rc: int)
    modifies fd`written, fd`faults
    ensures rc == 0 <==> fd.faults == old(fd.faults)
    ensures fd.faults <= old(fd.faults)
    ensures rc == 0 ==> fd.written == old(fd.written) + data
    ensures old(fd.written) <= fd.written <= old(fd.written) + data
  {
    var p := 0;
    while p < |data|
      invariant 0 <= p <= |data| && fd.faults == old(fd.faults)
      invariant fd.written == old(fd.written) + data[..p]
    {
      var n := fd.Write(data[p..]);
      if n <= 0 {
        return 1;
      }
      assert data[..p] + data[p..][..n] == data[..p + n];
      p := p + n;
    }
    assert data[..p] == data;
    return 0;
  }

  /** What `writen` puts out when its successive writes take `counts` octets:
      it never advances its pointer, so every write starts at the front again. */
  function Echo(data: Bytes, counts: seq<nat>): (out: Bytes)
    requires Sum(counts) <= |data|
    ensures |out| == Sum(counts)
  {
    if counts == [] then []
    else
      SumLast(counts);
      Echo(data, counts[..|counts| - 1]) + data[..counts[|counts| - 1]]
  }

  function Sum(counts: seq<nat>): nat
  {
    if counts == [] then 0 else Sum(counts[..|counts| - 1]) + counts[|counts| - 1]
  }

  lemma SumLast(counts: seq<nat>)
    requires counts != []
    ensures Sum(counts[..|counts| - 1]) <= Sum(counts) && counts[|counts| - 1] <= Sum(counts)
  {
  }

  /** `writen`: returns what the last write returned. */
  method Writen(fd: OutFd, data: Bytes) returns (n: int, ghost counts: seq<nat>)
    requires data != []
    modifies fd
    ensures n > 0 <==> fd.faults == old(fd.faults)
    ensures n <= 0 ==> fd.faults < old(fd.faults)
    ensures Sum(counts) <= |data| && fd.written == old(fd.written) + Echo(data, counts)
    ensures n > 0 <==> Sum(counts) == |data|
    ensures forall i | 0 <= i < |counts| :: counts[i] > 0
    ensures fd.torn == old(fd.torn) + if |counts| > 1 then 1 else 0
    ensures n > 0 && |counts| <= 1 ==> Echo(data, counts) == data
  {
    var len := |data|;
    n, counts := 1, [];
    while len > 0
      invariant 0 <= len <= |data| && n > 0 && fd.faults == old(fd.faults)
      invariant Sum(counts) == |data| - len
      invariant fd.written == old(fd.written) + Echo(data, counts)
      invariant forall i | 0 <= i < |counts| :: counts[i] > 0
      invariant counts == [] ==> len == |data|
      invariant |counts| == 1 && len == 0 ==> Echo(data, counts) == data
      invariant fd.torn == old(fd.torn) + if |counts| > 1 then 1 else 0
    {
      n := fd.Write(data[..len]);
      if n <= 0 {
        return;
      }
      ghost var c: nat := n;
      assert (counts + [c])[..|counts|] == counts;
      assert data[..len][..c] == data[..c];
      assert Echo(data, counts + [c]) == Echo(data, counts) + data[..c];
      if |counts| == 1 {
        fd.torn := fd.torn + 1;
      }
      counts := counts + [c];
      len := len - n;
    }
  }

  /** The pointer that is never advanced matters exactly when a write was short. */
  lemma {:induction false} WritenExactIff(counts: seq<nat>)
    requires forall i | 0 <= i < |counts| :: counts[i] > 0
    ensures (forall data: Bytes | |data| == Sum(counts) :: Echo(data, counts) == data) <==> |counts| <= 1
  {
    if counts == [] {
    } else if |counts| == 1 {
      assert counts[..0] == [];
      forall data: Bytes | |data| == Sum(counts) ensures Echo(data, counts) == data {
        assert Echo(data, []) == [];
        assert data[..counts[0]] == data;
      }
    } else {
      var c := counts[0];
      SumBound(counts);
      var data := seq(Sum(counts), i requires 0 <= i => if i < c then 0 else 1 as byte);
      EchoStart(data, counts);
      assert Echo(data, counts)[c] == data[0];
      assert data[c] != data[0];
    }
  }

  lemma {:induction false} SumBound(counts: seq<nat>)
    requires |counts| >= 2 && forall i | 0 <= i < |counts| :: counts[i] > 0
    ensures Sum(counts) >= counts[0] + 1
  {
    var init := counts[..|counts| - 1];
    assert init[0] == counts[0];
    if |counts| == 2 {
      assert init == [counts[0]] && Sum(init) == Sum(init[..0]) + counts[0];
    } else {
      SumBound(init);
    }
  }

  /** The second write repeats the first octet right behind the first write. */
  lemma {:induction false} EchoStart(data: Bytes, counts: seq<nat>)
    requires |counts| >= 2 && Sum(counts) == |data|
    requires forall i | 0 <= i < |counts| :: counts[i] > 0
    ensures |Echo(data, counts)| > counts[0] && Echo(data, counts)[counts[0]] == data[0]
  {
    EchoStartWithin(data, counts);
  }

  lemma {:induction false} EchoStartWithin(data: Bytes, counts: seq<nat>)
    requires |counts| >= 2 && Sum(counts) <= |data|
    requires forall i | 0 <= i < |counts| :: counts[i] > 0
    ensures |Echo(data, counts)| > counts[0] && Echo(data, counts)[counts[0]] == data[0]
  {
    var init := counts[..|counts| - 1];
    SumLast(counts);
    if |counts| == 2 {
      assert init == [counts[0]] && init[..0] == [];
      assert Echo(data, init) == [] + data[..counts[0]];
    } else {
      EchoStartWithin(data, init);
    }
  }
}
