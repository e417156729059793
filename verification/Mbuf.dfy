/** The message buffer of src/msg.c: a fixed array with two cursors over a byte
    stream, and a temporary file that takes the overflow of the replay log. */
module Mbuf {
  import opened Wire
  import opened Streams
  import opened Buffer
  import opened ErrorScan

  class MBuf {
    const buf: array<byte>
    var start: nat
    var fill: nat
    var infd: InFd
    var outfd: OutFd
    /** The contents of the temporary file, when it is open. Its position is at its end between calls. */
    var cache: Option<Bytes>
    /** Failures of the temporary file (creating, writing, reading it) still to come. */
    var cacheFaults: nat

    ghost predicate Valid()
      reads `start, `fill
    {
      start <= fill <= buf.Length
    }

    /** The octets received and not yet sent. */
    function Buffered(): (held: Bytes)
      reads `start, `fill, buf
      requires Valid()
      ensures |held| == fill - start
    {
      buf[start..fill]
    }

    /** Everything still to come through this buffer. */
    ghost function Logical(): Bytes
      reads `start, `fill, `infd, buf, infd
      requires Valid()
    {
      Buffered() + infd.unread
    }

    ghost function Cached(): Bytes
      reads `cache
    {
      if cache.Some? then cache.value else []
    }

    /** The replay log: what `resend` would send. */
    ghost function Log(): Bytes
      reads `start, `fill, `cache, buf
      requires Valid()
    {
      Cached() + buf[..start]
    }

    /** Once the file is open the log lives in it alone. */
    ghost predicate Settled()
      reads `start, `cache
    {
      cache.Some? ==> start == 0
    }

    /** What the buffer amounts to. */
    ghost function Model(): Buf
      reads `start, `fill, `infd, `cache, buf, infd
      requires Valid()
    {
      Buf(buf.Length, Log(), cache.Some?, Buffered(), infd.unread)
    }

    lemma ModelOk()
      requires Valid() && Settled()
      ensures Model().Ok() && Model().Start() == start && Model().All() == Logical()
      ensures |Model().held| == fill - start
    {
    }

    lemma ModelParts()
      requires Valid()
      ensures Model().All() == Logical() && Model().held == Buffered() && Model().log == Log()
    {
    }

    constructor (len: nat, infd: InFd, outfd: OutFd, cacheFaults: nat)
      ensures Valid() && Settled() && fresh(buf) && buf.Length == len
      ensures this.infd == infd && this.outfd == outfd && this.cacheFaults == cacheFaults
      ensures start == fill == 0 && cache == None && Log() == [] && Buffered() == []
    {
      buf := new byte[len](_ => 0);
      start, fill := 0, 0;
      this.infd, this.outfd := infd, outfd;
      cache, this.cacheFaults := None, cacheFaults;
    }

    /** `pgr_mbuf_setfd` */
    method SetFd(infd: InFd, outfd: OutFd)
      modifies this`infd, this`outfd
      ensures this.infd == infd && this.outfd == outfd
    {
      this.infd, this.outfd := infd, outfd;
    }

    /** `pgr_mbuf_reset`: the log is dropped, and with it whatever was received and not yet sent. */
    method Reset()
      requires Valid()
      modifies this`start, this`fill, this`cache
      ensures Valid() && Settled()
      ensures Log() == [] && Buffered() == [] && cache == None && start == fill == 0
    {
      start, fill := 0, 0;
      cache := None;
    }

    /** `pgr_mbuf_cat` */
    method Cat(data: Bytes) returns (rc: int)
      requires Valid()
      modifies this`fill, buf
      ensures Valid()
      ensures rc == 0 <==> |data| <= buf.Length - old(fill)
      ensures rc == 0 ==> Buffered() == old(Buffered()) + data && fill == old(fill) + |data|
      ensures rc != 0 ==> rc == 1 && fill == old(fill) && buf[..] == old(buf[..])
      ensures buf[..old(fill)] == old(buf[..fill])
      ensures Settled() ==> Model() == Put(old(Model()), data)
    {
      if |data| > buf.Length - fill {
        return 1;
      }
      forall i | 0 <= i < |data| {
        buf[fill + i] := data[i];
      }
      fill := fill + |data|;
      assert buf[..old(fill)] == old(buf[..fill]);
      assert buf[..start] == buf[..old(fill)][..start];
      assert buf[start..fill] == buf[..old(fill)][start..] + buf[old(fill)..fill];
      return 0;
    }

    /** One `read` into the free space behind `fill`. */
    method Refill() returns (n: int)
      requires Valid()
      modifies this`fill, buf, infd
      ensures Valid() && buf[..start] == old(buf[..start])
      ensures n >= 0 ==> infd.faults == old(infd.faults)
                         && n == ReadSize(buf.Length - old(fill), |old(infd.unread)|, infd.pace)
                         && fill == old(fill) + n && |infd.unread| == |old(infd.unread)| - n
                         && Buffered() + infd.unread == old(Buffered()) + old(infd.unread)
      ensures n < 0 ==> n == -1 && infd.faults < old(infd.faults)
                        && fill == old(fill) && Buffered() == old(Buffered()) && infd.unread == old(infd.unread)
      ensures |infd.unread| <= |old(infd.unread)|
    {
      ghost var before, unread := buf[..], infd.unread;
      n := infd.Read(buf, fill, buf.Length - fill);
      if n > 0 {
        Appended(before, buf[..], start, fill, n, unread, infd.unread);
        fill := fill + n;
      } else {
        Appended(before, buf[..], start, fill, 0, unread, infd.unread);
      }
    }

    /** `pgr_mbuf_recv` */
    method Recv() returns (rc: int)
      requires Valid()
      modifies this`fill, buf, infd
      ensures Valid() && Log() == old(Log()) && Logical() == old(Logical()) && EndsIn(old(Logical()), Logical())
      ensures rc > 0 <==> |Buffered()| >= 5
      ensures rc > 0 ==> rc == |Buffered()|
      ensures rc < 0 <==> infd.faults != old(infd.faults)
      ensures infd.faults <= old(infd.faults) && |infd.unread| <= |old(infd.unread)|
      // without a failure, exactly what the pace of the reads makes of it is buffered ...
      ensures infd.faults == old(infd.faults) && Settled() ==> Model() == Hear(old(Model()), infd.pace)
      // ... and a header is there exactly when the stream holds one and there is room for it
      ensures infd.faults == old(infd.faults) ==> (rc > 0 <==> |old(Logical())| >= 5 && start + 5 <= buf.Length)
    {
      hide Hearing, EndsIn;
      EndsInItself(Logical());
      rc := RecvLoop();
    }

    method RecvLoop() returns (rc: int)
      requires Valid()
      modifies this`fill, buf, infd
      ensures Valid() && buf[..start] == old(buf[..start]) && Logical() == old(Logical())
      ensures rc > 0 <==> |Buffered()| >= 5
      ensures rc > 0 ==> rc == |Buffered()|
      ensures rc < 0 <==> infd.faults != old(infd.faults)
      ensures infd.faults <= old(infd.faults) && |infd.unread| <= |old(infd.unread)|
      ensures infd.faults == old(infd.faults) ==>
                Stream(Buffered(), infd.unread)
                == Hearing(old(Buffered()), old(infd.unread), buf.Length - old(fill), infd.pace)
      ensures infd.faults == old(infd.faults) ==> (rc > 0 <==> |old(Logical())| >= 5 && start + 5 <= buf.Length)
    {
      hide Hearing, ReadSize, MBuf.Buffered;
      ghost var goal := Hearing(Buffered(), infd.unread, buf.Length - fill, infd.pace);
      if fill - start >= 5 {
        HearingDone(Buffered(), infd.unread, buf.Length - fill, infd.pace);
        return fill - start;
      }
      while fill - start < 5
        invariant Valid() && infd.faults == old(infd.faults) && buf[..start] == old(buf[..start])
        invariant Buffered() + infd.unread == old(Logical())
        invariant goal == Hearing(Buffered(), infd.unread, buf.Length - fill, infd.pace)
        invariant |infd.unread| <= |old(infd.unread)|
        decreases |infd.unread|
      {
        ghost var held, rest := Buffered(), infd.unread;
        ghost var room := buf.Length - fill;
        var n := Refill();
        if n >= 0 {
          HearingNext(held, rest, room, infd.pace, Buffered(), infd.unread);
        }
        if n <= 0 {
          SameParts(held, rest, Buffered(), infd.unread);
          return n;
        }
      }
      HearingDone(Buffered(), infd.unread, buf.Length - fill, infd.pace);
      return fill - start;
    }

    /** The C library's memmove, within the buffer. */
    method Memmove(dst: nat, src: nat, n: nat)
      requires dst <= src && src + n <= buf.Length
      modifies buf
      ensures buf[dst..dst + n] == old(buf[src..src + n])
      ensures forall i | 0 <= i < buf.Length && !(dst <= i < dst + n) :: buf[i] == old(buf[i])
    {
      forall i | 0 <= i < n {
        buf[dst + i] := buf[src + i];
      }
    }

    /** Takes `len` octets out of the front of the unsent part. */
    method Drop(len: nat)
      requires Valid() && len <= fill - start
      modifies this`fill, buf
      ensures Valid() && buf[..start] == old(buf[..start])
      ensures fill == old(fill) - len && Buffered() == old(Buffered())[len..]
    {
      Memmove(start, start + len, fill - start - len);
      fill := fill - len;
      assert buf[..start] == old(buf[..start]);
    }

    /** A loop of `write` calls that does advance its pointer, over `buf[from..to]`; it does nothing after a failure. */
    method WriteLoop(from: nat, upto: nat, ok: bool) returns (wrOk: bool, off: nat)
      requires from <= upto <= buf.Length
      modifies outfd`written, outfd`faults
      ensures from <= off <= upto
      ensures ok ==> outfd.written == old(outfd.written) + buf[from..off]
      ensures wrOk ==> ok && off == upto
      ensures wrOk <==> ok && outfd.faults == old(outfd.faults)
      ensures outfd.faults <= old(outfd.faults)
      ensures !ok ==> off == from && outfd.written == old(outfd.written) && outfd.faults == old(outfd.faults)
    {
      wrOk, off := ok, from;
      while wrOk && off < upto
        invariant from <= off <= upto && outfd.faults <= old(outfd.faults)
        invariant ok ==> outfd.written == old(outfd.written) + buf[from..off]
        invariant wrOk <==> ok && outfd.faults == old(outfd.faults)
        invariant !ok ==> off == from && outfd.written == old(outfd.written) && outfd.faults == old(outfd.faults)
        decreases upto - off, outfd.faults
      {
        var n := outfd.Write(buf[off..upto]);
        wrOk := n > 0;
        if wrOk {
          assert buf[from..off] + buf[off..upto][..n] == buf[from..off + n];
          off := off + n;
        }
      }
    }

    /** Writes the next `len` unsent octets, unless a write failed before; `piece` is what went out. */
    method PassOn(len: nat, wrOk: bool) returns (ok: bool, ghost piece: Bytes)
      requires Valid() && len <= fill - start
      modifies outfd`written, outfd`faults
      ensures piece <= Buffered()[..len] && outfd.written == old(outfd.written) + piece
      ensures ok ==> piece == Buffered()[..len]
      ensures !wrOk ==> piece == []
      ensures ok <==> wrOk && outfd.faults == old(outfd.faults)
      ensures outfd.faults <= old(outfd.faults)
      ensures !wrOk ==> outfd.faults == old(outfd.faults)
    {
      var off;
      ok, off := WriteLoop(start, start + len, wrOk);
      SubSlice(buf[..], start, fill, 0, len);
      assert buf[start..start + len] == Buffered()[..len];
      piece := if wrOk then buf[start..off] else [];
      SubSlice(buf[..], start, start + len, 0, off - start);
    }

    /** Gives up the whole unsent part and reads on, as every operation does in the middle of a long message. */
    method NextChunk() returns (k: int)
      requires Valid() && start < buf.Length
      modifies this`fill, buf, infd
      ensures Valid() && buf[..start] == old(buf[..start]) && Log() == old(Log()) && EndsIn(old(infd.unread), Logical())
      ensures k >= 0 ==> infd.faults == old(infd.faults)
                         && k == |Buffered()| == ReadSize(buf.Length - start, |old(infd.unread)|, infd.pace)
                         && Buffered() + infd.unread == old(infd.unread)
      ensures k < 0 ==> k == -1 && infd.faults < old(infd.faults)
      ensures |infd.unread| <= |old(infd.unread)|
    {
      fill := start;
      assert buf[start..fill] == [];
      assert [] + infd.unread == infd.unread;
      EndsInItself(infd.unread);
      k := Refill();
    }

    /** `pgr_mbuf_relay`: passes the first message on without logging it. */
    method Relay() returns (rc: int)
      requires Valid()
      modifies this`fill, buf, infd, outfd`written, outfd`faults
      ensures Valid() && Log() == old(Log())
      ensures infd.faults <= old(infd.faults) && outfd.faults <= old(outfd.faults)
      ensures |old(Buffered())| < 5 ==>
                rc == 1 && Model() == old(Model()) && outfd.written == old(outfd.written)
                && infd.faults == old(infd.faults) && outfd.faults == old(outfd.faults)
      ensures rc == 0 <==> HasFrame(old(Logical())) && |old(Buffered())| >= 5
                           && infd.faults == old(infd.faults) && outfd.faults == old(outfd.faults)
      ensures rc == 0 || rc == 1
      // exactly one frame is taken off the input, even when the output fails in the middle of it ...
      ensures infd.faults == old(infd.faults) && Settled() ==> Model() == Take(old(Model()), infd.pace)
      // ... and goes out, or what there is of it before the end of the input
      ensures |old(Buffered())| >= 5 && infd.faults == old(infd.faults) && outfd.faults == old(outfd.faults) ==>
                outfd.written == old(outfd.written) + Front(old(Logical()))
      // whatever happens, what goes out is a prefix of it, and nothing else of the input is lost
      ensures old(outfd.written) <= outfd.written <= old(outfd.written) + Front(old(Logical()))
      ensures EndsIn(old(Logical()), Logical()) && |infd.unread| <= |old(infd.unread)|
    {
      hide Taking, EndsIn, Cut, HasFrame, U32;
      if fill - start < 5 {
        EndsInItself(Logical());
        return 1;
      }
      FrontOf(Model());
      FrameIff(Logical());
      rc := RelayRest(Size(buf[start..fill]), Logical());
    }

    /** The body of `relay`, for a message of `n` octets. */
    method RelayRest(n: nat, ghost L: Bytes) returns (rc: int)
      requires Valid() && L == Logical() && start < buf.Length
      modifies this`fill, buf, infd, outfd`written, outfd`faults
      ensures Valid() && buf[..start] == old(buf[..start])
      ensures infd.faults <= old(infd.faults) && outfd.faults <= old(outfd.faults)
      ensures rc == 0 <==> n <= |L| && infd.faults == old(infd.faults) && outfd.faults == old(outfd.faults)
      ensures rc == 0 || rc == 1
      ensures infd.faults == old(infd.faults) && outfd.faults == old(outfd.faults) ==>
                outfd.written == old(outfd.written) + Cut(L, n)
      ensures infd.faults == old(infd.faults) ==>
                Stream(Buffered(), infd.unread)
                == Taking(old(Buffered()), old(infd.unread), n, buf.Length - start, infd.pace)
      ensures old(outfd.written) <= outfd.written <= old(outfd.written) + Cut(L, n)
      ensures EndsIn(L, Logical()) && |infd.unread| <= |old(infd.unread)|
    {
      hide Taking, Cut, ReadSize, EndsIn, Midway, MBuf.Buffered, MBuf.Logical;
      AllParts();
      ghost var goal := Taking(Buffered(), infd.unread, n, buf.Length - start, infd.pace);
      ghost var w0, w1 := outfd.written, outfd.written + Cut(L, n);
      MidwayStarts(L, n, Buffered(), infd.unread, w0);
      var wrOk, len := true, n;
      while len > fill - start
        invariant Valid() && buf[..start] == old(buf[..start]) && len >= 0
        invariant goal == Taking(Buffered(), infd.unread, len, buf.Length - start, infd.pace)
        invariant Midway(L, n, Buffered(), infd.unread, len, w0, outfd.written, w1, wrOk)
        invariant wrOk <==> outfd.faults == old(outfd.faults)
        invariant outfd.faults <= old(outfd.faults) && infd.faults == old(infd.faults)
        invariant |infd.unread| <= |old(infd.unread)|
        decreases |infd.unread|
      {
        var k;
        len, wrOk, k := RelayChunk(n, len, wrOk, L, w0, w1, goal);
        if k <= 0 {
          return 1;
        }
      }
      wrOk := RelayEnd(n, len, wrOk, L, w0, w1, goal);
      return if wrOk then 0 else 1;
    }

    /** One turn of the loop of `relay`: what is buffered goes out, and the next read begins. */
    method RelayChunk(n: nat, len: nat, ok: bool, ghost L: Bytes, ghost w0: Bytes, ghost w1: Bytes, ghost goal: Stream)
      returns (left: nat, wrOk: bool, k: int)
      requires Valid() && len > fill - start && start < buf.Length
      requires goal == Taking(Buffered(), infd.unread, len, buf.Length - start, infd.pace)
      requires Midway(L, n, Buffered(), infd.unread, len, w0, outfd.written, w1, ok)
      modifies this`fill, buf, infd, outfd`written, outfd`faults
      ensures Valid() && buf[..start] == old(buf[..start]) && left > 0
      ensures outfd.faults <= old(outfd.faults) && (wrOk <==> ok && outfd.faults == old(outfd.faults))
      ensures ok || outfd.faults == old(outfd.faults)
      ensures infd.faults <= old(infd.faults) && (k >= 0 <==> infd.faults == old(infd.faults))
      ensures |infd.unread| <= |old(infd.unread)|
      ensures k > 0 ==>
                && |infd.unread| < |old(infd.unread)|
                && goal == Taking(Buffered(), infd.unread, left, buf.Length - start, infd.pace)
                && Midway(L, n, Buffered(), infd.unread, left, w0, outfd.written, w1, wrOk)
      ensures k <= 0 ==> EndsIn(L, Logical()) && w0 <= outfd.written <= w1
      ensures k == 0 ==> goal == Stream(Buffered(), infd.unread) && n > |L| && (wrOk ==> outfd.written == w1)
    {
      hide Taking, Cut, ReadSize, EndsIn, Midway, MBuf.Buffered, MBuf.Logical;
      ghost var held, rest, w, piece := Buffered(), infd.unread, outfd.written, [];
      wrOk, piece := PassOn(fill - start, ok);
      MidwayOn(L, n, held, rest, len, w0, w, w1, ok, piece, wrOk);
      left := len - (fill - start);
      k := NextChunk();
      if k >= 0 {
        TakingNext(held, rest, len, buf.Length - start, infd.pace, Buffered(), infd.unread);
      }
      if k > 0 {
        MidwayReads(L, n, rest, Buffered(), infd.unread, left, w0, outfd.written, w1, wrOk);
      } else {
        MidwayBreaks(L, n, rest, Logical(), left, w0, outfd.written, w1, wrOk);
      }
    }

    /** The end of the message is buffered. */
    method RelayEnd(n: nat, len: nat, ok: bool, ghost L: Bytes, ghost w0: Bytes, ghost w1: Bytes, ghost goal: Stream)
      returns (wrOk: bool)
      requires Valid() && len <= fill - start && start < buf.Length
      requires goal == Taking(Buffered(), infd.unread, len, buf.Length - start, infd.pace)
      requires Midway(L, n, Buffered(), infd.unread, len, w0, outfd.written, w1, ok)
      modifies this`fill, buf, outfd`written, outfd`faults
      ensures Valid() && buf[..start] == old(buf[..start])
      ensures outfd.faults <= old(outfd.faults) && (wrOk <==> ok && outfd.faults == old(outfd.faults))
      ensures ok || outfd.faults == old(outfd.faults)
      ensures goal == Stream(Buffered(), infd.unread) && n <= |L| && EndsIn(L, Logical())
      ensures w0 <= outfd.written <= w1 && (wrOk ==> outfd.written == w1)
    {
      hide Taking, Cut, ReadSize, EndsIn, Midway, MBuf.Buffered, MBuf.Logical;
      ghost var held, rest, w, piece := Buffered(), infd.unread, outfd.written, [];
      wrOk := ok;
      EmptyFront(held, w);
      if len > 0 {
        wrOk, piece := PassOn(len, ok);
        Drop(len);
      }
      TakingDone(held, rest, len, buf.Length - start, infd.pace, Buffered());
      MidwayEnds(L, n, held, rest, len, w0, w, w1, ok, piece, wrOk);
      AllParts();
    }

    lemma AllParts()
      requires Valid()
      ensures Logical() == Buffered() + infd.unread
    {
    }

    /** `pgr_mbuf_discard`: takes the first message off the stream. The end of the input in the
        middle of it is reported as 0, like success. */
    method Discard() returns (rc: int)
      requires Valid()
      modifies this`fill, buf, infd
      ensures Valid() && Log() == old(Log()) && infd.faults <= old(infd.faults)
      ensures |old(Buffered())| < 5 ==> rc == 1 && Model() == old(Model()) && infd.faults == old(infd.faults)
      ensures infd.faults == old(infd.faults) && Settled() ==> Model() == Take(old(Model()), infd.pace)
      ensures |old(Buffered())| >= 5 ==> rc == if infd.faults == old(infd.faults) then 0 else -1
      ensures EndsIn(old(Logical()), Logical()) && |infd.unread| <= |old(infd.unread)|
    {
      hide Taking, EndsIn, Cut, U32;
      if fill - start < 5 {
        EndsInItself(Logical());
        return 1;
      }
      rc := DiscardRest(Size(buf[start..fill]), Logical());
    }

    /** The body of `discard`, for a message of `n` octets. */
    method DiscardRest(n: nat, ghost L: Bytes) returns (rc: int)
      requires Valid() && L == Logical() && start < buf.Length
      modifies this`fill, buf, infd
      ensures Valid() && buf[..start] == old(buf[..start])
      ensures infd.faults <= old(infd.faults)
      ensures infd.faults == old(infd.faults) ==>
                Stream(Buffered(), infd.unread)
                == Taking(old(Buffered()), old(infd.unread), n, buf.Length - start, infd.pace)
      ensures rc == if infd.faults == old(infd.faults) then 0 else -1
      ensures EndsIn(L, Logical()) && |infd.unread| <= |old(infd.unread)|
    {
      hide Taking, ReadSize, EndsIn, MBuf.Buffered, MBuf.Logical;
      AllParts();
      var len := n;
      ghost var goal := Taking(Buffered(), infd.unread, n, buf.Length - start, infd.pace);
      EndsInItself(L);
      while len > fill - start
        invariant Valid() && buf[..start] == old(buf[..start]) && len >= 0
        invariant EndsIn(L, Buffered() + infd.unread) && infd.faults == old(infd.faults)
        invariant |infd.unread| <= |old(infd.unread)|
        invariant goal == Taking(Buffered(), infd.unread, len, buf.Length - start, infd.pace)
        decreases |infd.unread|
      {
        ghost var held, rest := Buffered(), infd.unread;
        ghost var before := len;
        EndsInRest(L, held, rest, 0);
        len := len - (fill - start);
        var k := NextChunk();
        EndsInTwice(L, rest, Logical());
        if k >= 0 {
          TakingNext(held, rest, before, buf.Length - start, infd.pace, Buffered(), infd.unread);
        }
        if k <= 0 {
          return k;
        }
      }
      ghost var held := Buffered();
      EndsInRest(L, held, infd.unread, len);
      EmptySplit(held);
      if len > 0 {
        Drop(len);
      }
      TakingDone(held, infd.unread, len, buf.Length - start, infd.pace, Buffered());
      AllParts();
      return 0;
    }

    /** `writen` on the temporary file. */
    method CacheAppend(data: Bytes) returns (ok: bool)
      requires cache.Some?
      modifies this`cache, this`cacheFaults
      ensures cache.Some? && cacheFaults <= old(cacheFaults)
      ensures ok <==> cacheFaults == old(cacheFaults)
      ensures ok ==> cache.value == old(cache.value) + data
    {
      var fail: bool := *;
      if fail && cacheFaults > 0 {
        var some: nat :| some <= |data|;
        cache := Some(cache.value + data[..some]);
        cacheFaults := cacheFaults - 1;
        return false;
      }
      cache := Some(cache.value + data);
      return true;
    }

    /** Opens the temporary file, unless it is open, and moves the log kept so far into it. */
    method WarmCache() returns (ok: bool)
      requires Valid() && Settled()
      modifies this`start, this`fill, this`cache, this`cacheFaults, buf
      ensures Valid() && cacheFaults <= old(cacheFaults) && Buffered() == old(Buffered())
      ensures ok <==> cacheFaults == old(cacheFaults)
      ensures ok ==> cache.Some? && start == 0 && Log() == old(Log())
    {
      if cache.Some? {
        return true;
      }
      var fail: bool := *;
      if fail && cacheFaults > 0 {
        cacheFaults := cacheFaults - 1;
        return false;
      }
      cache := Some([]);
      if start > 0 {
        ok := CacheAppend(buf[..start]);
        if !ok {
          return;
        }
        Memmove(0, start, fill - start);
        fill := fill - start;
        start := 0;
      }
      ok := true;
    }

    /** One chunk of `send`: to the output, and to the temporary file if that is open. `out` is what the output took. */
    method SendChunk(len: nat) returns (wrOk: bool, cacheOk: bool, ghost out: Bytes)
      requires Valid() && 0 < len <= fill - start
      modifies this`cache, this`cacheFaults, outfd
      ensures cache.Some? <==> old(cache.Some?)
      ensures cacheFaults <= old(cacheFaults) && (cacheOk <==> cacheFaults == old(cacheFaults))
      ensures cacheOk && cache.Some? ==> cache.value == old(cache.value) + Buffered()[..len]
      ensures outfd.faults <= old(outfd.faults) && (wrOk <==> outfd.faults == old(outfd.faults))
      ensures outfd.written == old(outfd.written) + out && |out| <= len && (wrOk <==> |out| == len)
      ensures old(outfd.torn) <= outfd.torn
      ensures wrOk && outfd.torn == old(outfd.torn) ==> out == Buffered()[..len]
    {
      SubSlice(buf[..], start, fill, 0, len);
      assert buf[start..start + len] == Buffered()[..len];
      var n;
      ghost var counts;
      n, counts := Writen(outfd, buf[start..start + len]);
      out := Echo(buf[start..start + len], counts);
      wrOk := n > 0;
      cacheOk := true;
      if cache.Some? {
        cacheOk := CacheAppend(buf[start..start + len]);
      }
    }

    /** `pgr_mbuf_send`: passes the first message on and appends it to the log. `writes` are the `writen` calls on
        the output, each with its data and what went out of it; only the last one decides the result. */
    method Send() returns (rc: int, ghost writes: seq<Write>)
      requires Valid() && Settled()
      modifies this`start, this`fill, this`cache, this`cacheFaults, buf, infd, outfd
      ensures Valid() && infd.faults <= old(infd.faults) && outfd.faults <= old(outfd.faults)
      ensures cacheFaults <= old(cacheFaults) && EndsIn(old(Logical()), Logical())
      ensures old(outfd.torn) <= outfd.torn
      ensures Wrote(writes, old(outfd.written), outfd.written, outfd.faults == old(outfd.faults),
                    outfd.torn == old(outfd.torn))
      ensures |old(Buffered())| < 5 ==>
                rc == 1 && Model() == old(Model()) && Settled() && writes == [] && outfd.written == old(outfd.written)
                && infd.faults == old(infd.faults) && outfd.faults == old(outfd.faults)
                && cacheFaults == old(cacheFaults)
      // the frame is logged and taken off the stream, whatever the output does
      ensures infd.faults == old(infd.faults) && cacheFaults == old(cacheFaults) ==>
                Settled() && Model() == Buffer.Send(old(Model()), infd.pace)
      // it is what the writes had to put out, and the last of them decides
      ensures |old(Buffered())| >= 5 && infd.faults == old(infd.faults) && cacheFaults == old(cacheFaults) ==>
                Datas(writes) == Front(old(Logical()))
                && (rc == 0 <==> !HasFrame(old(Logical())) || LastWhole(writes))
      ensures infd.faults < old(infd.faults) ==> rc == -1
      ensures cacheFaults < old(cacheFaults) ==> rc == 1
    {
      hide Wrote, Datas, LastWhole, Taking;
      if fill - start < 5 {
        NothingWritten(outfd.written, true);
        return 1, [];
      }
      FrontOf(Model());
      rc, writes := SendRest(Size(buf[start..fill]), Logical());
    }

    /** The body of `send`, for a message of `n` octets. */
    method SendRest(n: nat, ghost L: Bytes) returns (rc: int, ghost writes: seq<Write>)
      requires Valid() && Settled() && L == Logical() && start < fill
      modifies this`start, this`fill, this`cache, this`cacheFaults, buf, infd, outfd
      ensures Valid() && infd.faults <= old(infd.faults) && outfd.faults <= old(outfd.faults)
      ensures cacheFaults <= old(cacheFaults) && EndsIn(L, Logical())
      ensures old(outfd.torn) <= outfd.torn
      ensures Wrote(writes, old(outfd.written), outfd.written, outfd.faults == old(outfd.faults),
                    outfd.torn == old(outfd.torn))
      ensures infd.faults == old(infd.faults) && cacheFaults == old(cacheFaults) ==>
                && Settled() && (cache.Some? <==> old(cache.Some?) || n > |old(Buffered())|)
                && Stream(Buffered(), infd.unread)
                   == Taking(old(Buffered()), old(infd.unread), n, buf.Length, infd.pace)
                && Log() == old(Log()) + Cut(L, n) && Datas(writes) == Cut(L, n)
                && (rc == 0 <==> n > |L| || LastWhole(writes))
      ensures infd.faults < old(infd.faults) ==> rc == -1
      ensures cacheFaults < old(cacheFaults) ==> rc == 1
    {
      hide Taking, Cut, ReadSize, EndsIn, Midway, Wrote, Datas, LastWhole, MBuf.Buffered, MBuf.Logical, MBuf.Log;
      AllParts();
      ghost var goal := Taking(Buffered(), infd.unread, n, buf.Length, infd.pace);
      ghost var w0, log0, all := outfd.written, Log(), Cut(L, n);
      MidwayStarts(L, n, Buffered(), infd.unread, log0);
      MidwayStarts(L, n, Buffered(), infd.unread, []);
      ghost var t0 := outfd.torn;
      NothingWritten(w0, true);
      assert [] + all == all;
      var ok, cacheOk, len := true, true, n;
      writes := [];
      while len > fill - start
        invariant Valid() && Settled() && start < fill && len >= 0
        invariant infd.faults == old(infd.faults) && cacheFaults == old(cacheFaults)
        invariant outfd.faults <= old(outfd.faults)
        invariant Sending(L, n, len, log0, all, writes, goal)
        invariant t0 == old(outfd.torn) <= outfd.torn
        invariant Wrote(writes, w0, outfd.written, outfd.faults == old(outfd.faults), outfd.torn == t0)
        invariant LastWhole(writes) <==> ok
        invariant if writes == [] then len == n && Buffered() == old(Buffered()) && (cache.Some? <==> old(cache.Some?))
                  else 0 < len && n > |old(Buffered())| && cache.Some?
        decreases |infd.unread|
      {
        var k;
        ghost var was := outfd.faults == old(outfd.faults);
        len, ok, cacheOk, k, writes := SendOn(n, len, L, w0, log0, all, goal, writes, was, t0);
        if !cacheOk {
          return 1, writes;
        }
        if k <= 0 {
          return k, writes;
        }
      }
      ghost var was := outfd.faults == old(outfd.faults);
      ok, cacheOk, writes := SendEnd(n, len, ok, L, w0, log0, all, goal, writes, was, t0);
      return if cacheOk && ok then 0 else 1, writes;
    }

    /** In the middle of sending: `len` octets of the message are still to be logged and sent. */
    ghost predicate Sending(L: Bytes, n: nat, len: nat, log0: Bytes, all: Bytes, writes: seq<Write>, goal: Stream)
      reads `start, `fill, `infd, `cache, buf, infd
      requires Valid() && buf.Length > 0
    {
      && goal == Taking(Buffered(), infd.unread, len, buf.Length, infd.pace)
      && Midway(L, n, Buffered(), infd.unread, len, log0, Log(), log0 + all, true)
      && Midway(L, n, Buffered(), infd.unread, len, [], Datas(writes), all, true)
    }

    /** One turn of the loop of `send`: what is buffered is sent and logged, and the next read begins. */
    method SendOn(n: nat, len: nat, ghost L: Bytes, ghost w0: Bytes, ghost log0: Bytes, ghost all: Bytes,
                  ghost goal: Stream, ghost writes: seq<Write>, ghost was: bool, ghost t0: nat)
      returns (left: nat, wrOk: bool, cacheOk: bool, k: int, ghost writes': seq<Write>)
      requires Valid() && Settled() && start < fill && len > fill - start
      requires Sending(L, n, len, log0, all, writes, goal) && t0 <= outfd.torn
      requires Wrote(writes, w0, outfd.written, was, outfd.torn == t0)
      modifies this`start, this`fill, this`cache, this`cacheFaults, buf, infd, outfd
      ensures Valid() && left == len - old(fill - start) > 0
      ensures infd.faults <= old(infd.faults) && outfd.faults <= old(outfd.faults) && cacheFaults <= old(cacheFaults)
      ensures old(outfd.torn) <= outfd.torn
      ensures Wrote(writes', w0, outfd.written, was && outfd.faults == old(outfd.faults), outfd.torn == t0)
      ensures cacheOk <==> cacheFaults == old(cacheFaults)
      ensures EndsIn(L, Logical())
      ensures !cacheOk ==> infd.faults == old(infd.faults)
      ensures cacheOk ==> cache.Some? && Settled() && writes' != [] && (LastWhole(writes') <==> wrOk)
                          && (k < 0 <==> infd.faults < old(infd.faults)) && k >= -1
      ensures cacheOk && k > 0 ==> |infd.unread| < |old(infd.unread)| && start < fill
                                   && Sending(L, n, left, log0, all, writes', goal)
      ensures cacheOk && k == 0 ==> goal == Stream(Buffered(), infd.unread) && n > |L|
                                    && Log() == log0 + all && Datas(writes') == all
    {
      hide Taking, Cut, ReadSize, EndsIn, Wrote, Datas, LastWhole, Midway, MBuf.Buffered, MBuf.Logical, MBuf.Log;
      AllParts();
      ghost var held, rest, log, did := Buffered(), infd.unread, Log(), Datas(writes);
      MidwayInside(L, n, held, rest, len, log0, log, log0 + all, true);
      left, k := len - (fill - start), 0;
      wrOk, cacheOk, writes' := SendAll(w0, writes, was, t0);
      AllParts();
      if cacheOk {
        MidwayOn(L, n, held, rest, len, log0, log, log0 + all, true, held, true);
        MidwayOn(L, n, held, rest, len, [], did, all, true, held, true);
        k := NextChunk();
        if k >= 0 {
          TakingNext(held, rest, len, buf.Length, infd.pace, Buffered(), infd.unread);
        }
        SendReads(L, n, left, rest, log0, all, writes', goal, k);
      }
    }

    /** Sends and logs all that is buffered. */
    method SendAll(ghost w0: Bytes, ghost writes: seq<Write>, ghost was: bool, ghost t0: nat)
      returns (wrOk: bool, cacheOk: bool, ghost writes': seq<Write>)
      requires Valid() && Settled() && start < fill && t0 <= outfd.torn
      requires Wrote(writes, w0, outfd.written, was, outfd.torn == t0)
      modifies this`start, this`fill, this`cache, this`cacheFaults, buf, outfd
      ensures Valid() && Buffered() == old(Buffered())
      ensures outfd.faults <= old(outfd.faults) && cacheFaults <= old(cacheFaults)
      ensures old(outfd.torn) <= outfd.torn
      ensures Wrote(writes', w0, outfd.written, was && outfd.faults == old(outfd.faults), outfd.torn == t0)
      ensures cacheOk <==> cacheFaults == old(cacheFaults)
      ensures cacheOk ==> cache.Some? && Settled() && Log() == old(Log()) + Buffered()
                          && writes' != [] && Datas(writes') == Datas(writes) + Buffered()
                          && (LastWhole(writes') <==> wrOk)
    {
      hide Wrote, Datas, LastWhole;
      wrOk, writes' := true, writes;
      cacheOk := WarmCache();
      if !cacheOk {
        return;
      }
      ghost var w, t1, out := outfd.written, outfd.torn, [];
      assert Buffered()[..fill - start] == Buffered() && buf[..start] == [];
      wrOk, cacheOk, out := SendChunk(fill - start);
      WroteMore(writes, w0, w, was, t1 == t0, Buffered(), out, wrOk, outfd.torn == t0);
      writes' := writes + [Write(Buffered(), out)];
    }

    lemma SendReads(L: Bytes, n: nat, left: nat, rest: Bytes, log0: Bytes, all: Bytes, writes: seq<Write>,
                    goal: Stream, k: int)
      requires Valid() && start < buf.Length && left > 0 && EndsIn(rest, Logical())
      requires Midway(L, n, [], rest, left, log0, Log(), log0 + all, true)
      requires Midway(L, n, [], rest, left, [], Datas(writes), all, true)
      requires k >= 0 ==> k == |Buffered()| == ReadSize(buf.Length, |rest|, infd.pace)
      requires k >= 0 ==> Buffered() + infd.unread == rest
      requires k >= 0 ==>
                 goal == if k == 0 then Stream(Buffered(), infd.unread)
                         else Taking(Buffered(), infd.unread, left, buf.Length, infd.pace)
      ensures EndsIn(L, Logical())
      ensures k > 0 ==> Sending(L, n, left, log0, all, writes, goal)
      ensures k == 0 ==> goal == Stream(Buffered(), infd.unread) && n > |L|
      ensures k == 0 ==> Log() == log0 + all && Datas(writes) == all
    {
      hide Taking, ReadSize, Cut, Midway, Datas, EndsIn, MBuf.Buffered, MBuf.Logical, MBuf.Log;
      if k > 0 {
        MidwayReads(L, n, rest, Buffered(), infd.unread, left, log0, Log(), log0 + all, true);
        MidwayReads(L, n, rest, Buffered(), infd.unread, left, [], Datas(writes), all, true);
      }
      MidwayBreaks(L, n, rest, Logical(), left, log0, Log(), log0 + all, true);
      MidwayBreaks(L, n, rest, Logical(), left, [], Datas(writes), all, true);
      AllParts();
    }

    /** The end of the message is buffered. */
    method SendEnd(n: nat, len: nat, ok: bool, ghost L: Bytes, ghost w0: Bytes, ghost log0: Bytes, ghost all: Bytes,
                   ghost goal: Stream, ghost writes: seq<Write>, ghost was: bool, ghost t0: nat)
      returns (wrOk: bool, cacheOk: bool, ghost writes': seq<Write>)
      requires Valid() && Settled() && start < fill && len <= fill - start && (LastWhole(writes) <==> ok)
      requires Sending(L, n, len, log0, all, writes, goal) && t0 <= outfd.torn
      requires Wrote(writes, w0, outfd.written, was, outfd.torn == t0)
      modifies this`start, this`fill, this`cache, this`cacheFaults, buf, outfd
      ensures Valid() && outfd.faults <= old(outfd.faults) && cacheFaults <= old(cacheFaults)
      ensures old(outfd.torn) <= outfd.torn
      ensures Wrote(writes', w0, outfd.written, was && outfd.faults == old(outfd.faults), outfd.torn == t0)
      ensures (cacheOk <==> cacheFaults == old(cacheFaults)) && (LastWhole(writes') <==> wrOk)
      ensures EndsIn(L, Logical())
      ensures cacheOk ==> Settled() && goal == Stream(Buffered(), infd.unread) && n <= |L|
                          && Log() == log0 + all && Datas(writes') == all && (cache.Some? <==> old(cache.Some?))
    {
      hide Taking, Cut, ReadSize, EndsIn, Midway, Wrote, Datas, LastWhole, MBuf.Buffered, MBuf.Logical, MBuf.Log;
      AllParts();
      wrOk, cacheOk, writes' := ok, true, writes;
      ghost var held, rest, log, did, out := Buffered(), infd.unread, Log(), Datas(writes), [];
      MidwayEnds(L, n, held, rest, len, log0, log, log0 + all, true, held[..len], true);
      MidwayEnds(L, n, held, rest, len, [], did, all, true, held[..len], true);
      EmptyFront(held, log);
      EmptyFront(held, did);
      if len > 0 {
        ghost var w, t1 := outfd.written, outfd.torn;
        wrOk, cacheOk, out := SendTail(len);
        WroteMore(writes, w0, w, was, t1 == t0, held[..len], out, wrOk, outfd.torn == t0);
        writes' := writes + [Write(held[..len], out)];
      }
      if cacheOk {
        TakingDone(held, rest, len, buf.Length, infd.pace, Buffered());
      }
      AllParts();
    }

    /** What `send` does with the end of the message. */
    method SendTail(len: nat) returns (wrOk: bool, cacheOk: bool, ghost out: Bytes)
      requires Valid() && Settled() && 0 < len <= fill - start
      modifies this`start, this`fill, this`cache, this`cacheFaults, buf, outfd
      ensures Valid() && cacheFaults <= old(cacheFaults) && (cacheOk <==> cacheFaults == old(cacheFaults))
      ensures outfd.faults <= old(outfd.faults) && (wrOk <==> outfd.faults == old(outfd.faults))
      ensures outfd.written == old(outfd.written) + out && |out| <= len && (wrOk <==> |out| == len)
      ensures cacheOk ==> Settled() && Log() == old(Log()) + old(Buffered())[..len]
                          && Buffered() == old(Buffered())[len..] && (cache.Some? <==> old(cache.Some?))
      ensures !cacheOk ==> Buffered() == old(Buffered())
      ensures old(outfd.torn) <= outfd.torn
      ensures wrOk && outfd.torn == old(outfd.torn) ==> out == old(Buffered())[..len]
    {
      wrOk, cacheOk, out := SendChunk(len);
      if cacheOk {
        Consume(len);
      }
    }

    /** Takes the end of the message out of the unsent part: into the log kept in the buffer, unless the file has it. */
    method Consume(len: nat)
      requires Valid() && Settled() && len <= fill - start
      modifies this`start, this`fill, buf
      ensures Valid() && Settled() && Buffered() == old(Buffered())[len..]
      ensures cache.Some? ==> start == 0 && buf[..start] == []
      ensures cache.None? ==> Log() == old(Log()) + old(Buffered())[..len]
    {
      if cache.Some? {
        Drop(len);
      } else {
        assert buf[..start + len] == buf[..start] + buf[start..fill][..len];
        start := start + len;
      }
    }

    /** `pgr_mbuf_resend`: sends the whole log again. */
    method Resend() returns (rc: int)
      requires Valid()
      modifies this`start, this`cacheFaults, outfd
      ensures Valid() && outfd.faults <= old(outfd.faults) && cacheFaults <= old(cacheFaults)
      ensures rc == 0 <==> outfd.faults == old(outfd.faults) && cacheFaults == old(cacheFaults)
      ensures rc == 0 || rc == 1
      // the buffer is as it was, so that the log can be sent once more
      ensures rc == 0 ==> start == old(start)
      ensures old(outfd.torn) <= outfd.torn
      ensures rc == 0 && outfd.torn == old(outfd.torn) ==> outfd.written == old(outfd.written) + old(Log())
      ensures cache.None? ==> outfd.torn == old(outfd.torn)
      ensures old(outfd.written) <= outfd.written
    {
      if cache.Some? {
        var ok := ResendCache();
        if !ok {
          return 1;
        }
      }
      var until := start;
      var ok, off := WriteLoop(0, until, true);
      start := off;
      return if ok then 0 else 1;
    }

    /** Sends the temporary file, read in blocks of at most 2048 octets. */
    method ResendCache() returns (ok: bool)
      requires cache.Some?
      modifies this`cacheFaults, outfd
      ensures outfd.faults <= old(outfd.faults) && cacheFaults <= old(cacheFaults)
      ensures ok <==> outfd.faults == old(outfd.faults) && cacheFaults == old(cacheFaults)
      ensures old(outfd.torn) <= outfd.torn
      ensures ok && outfd.torn == old(outfd.torn) ==> outfd.written == old(outfd.written) + cache.value
      ensures old(outfd.written) <= outfd.written
    {
      var offset, pos := |cache.value|, 0;
      while offset > 0
        invariant pos + offset == |cache.value| && 0 <= pos && 0 <= offset && old(outfd.written) <= outfd.written
        invariant outfd.faults == old(outfd.faults) && cacheFaults == old(cacheFaults)
        invariant old(outfd.torn) <= outfd.torn
        invariant outfd.torn == old(outfd.torn) ==> outfd.written == old(outfd.written) + cache.value[..pos]
      {
        var fail: bool := *;
        if fail && cacheFaults > 0 {
          cacheFaults := cacheFaults - 1;
          return false;
        }
        var n: nat :| 1 <= n <= 2048 && n <= offset;
        var block := cache.value[pos..pos + n];
        assert cache.value[..pos] + block == cache.value[..pos + n];
        offset, pos := offset - n, pos + n;
        var wn, _ := Writen(outfd, block);
        if wn <= 0 {
          return false;
        }
      }
      assert cache.value[..pos] == cache.value;
      return true;
    }

    /** `pgr_mbuf_iserror`; no code means any error. */
    method IsError(code: Option<Bytes>) returns (rc: int)
      requires Valid()
      requires code.Some? ==> |code.value| == 5
      ensures rc == 0 <==> MsgType(Buffered()) == 'E' as int && (code.Some? ==> Scan(Buffered(), 5, code.value))
    {
      if MsgType(buf[start..fill]) != 'E' as int {
        return 1;
      }
      if code.None? {
        return 0;
      }
      var found := ScanFields(buf[start..fill], code.value);
      return if found then 0 else 1;
    }

    /** `pgr_mbuf_drain`, watched for at most `rounds` turns of its loop, which need not end: `DrainStopsIff` says when
        it does. 1 means still looping. */
    method Drain(until: int, rounds: nat) returns (rc: int)
      requires Valid() && Settled()
      modifies this`fill, buf, infd
      ensures Valid() && Settled() && Log() == old(Log()) && infd.faults <= old(infd.faults)
      ensures infd.faults == old(infd.faults) ==> (Model(), rc) == Buffer.Drain(old(Model()), until, rounds, infd.pace)
      ensures rc == 0 || rc == 1 || rc == -1
      ensures EndsIn(old(Logical()), Logical())
    {
      hide MsgType, Buffer.Take, Buffer.Hear, EndsIn, MBuf.Logical, MBuf.Buffered;
      var left := rounds;
      ghost var goal, L := Buffer.Drain(Model(), until, rounds, infd.pace), Logical();
      ModelOk();
      EndsInItself(L);
      while left > 0
        invariant Valid() && Settled() && Log() == old(Log()) && infd.faults <= old(infd.faults)
        invariant EndsIn(L, Logical()) && Model().Ok()
        invariant infd.faults == old(infd.faults) ==> goal == Buffer.Drain(Model(), until, left, infd.pace)
      {
        ghost var here := Logical();
        var kind := MsgType(Buffered());
        if kind < 0 {
          return -1;
        }
        var _ := Discard();
        EndsInTwice(L, here, Logical());
        if kind == until {
          return 0;
        }
        var _ := Recv();
        ModelOk();
        left := left - 1;
      }
      return 1;
    }
  }

  /** A read put the first `n` octets of `unread` behind `fill`. */
  lemma Appended(before: Bytes, after: Bytes, start: nat, fill: nat, n: nat, unread: Bytes, unread': Bytes)
    requires start <= fill && fill + n <= |after| == |before| && n <= |unread| && unread' == unread[n..]
    requires forall i | 0 <= i < |after| && !(fill <= i < fill + n) :: after[i] == before[i]
    requires after[fill..fill + n] == unread[..n]
    ensures after[..start] == before[..start]
    ensures after[start..fill + n] + unread' == before[start..fill] + unread
  {
    assert after[start..fill] == before[start..fill];
    assert after[start..fill + n] == after[start..fill] + after[fill..fill + n];
    assert unread == unread[..n] + unread[n..];
  }

  lemma SubSlice(s: Bytes, lo: nat, hi: nat, i: nat, j: nat)
    requires lo <= hi <= |s| && i <= j <= hi - lo
    ensures s[lo..hi][i..j] == s[lo + i..lo + j]
  {
    assert forall k | 0 <= k < j - i :: s[lo..hi][i..j][k] == s[lo + i..lo + j][k];
  }
}
