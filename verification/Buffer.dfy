/** What the operations of the message buffer do when no descriptor fails, as functions on values. */
module Buffer {
  import opened Wire
  import opened Streams

  /** A buffer of `len` octets: the replay log, whether it has overflowed into the temporary file, the octets
      received and not yet sent, and those still to come on the input descriptor. */
  datatype Buf = Buf(len: nat, log: Bytes, cached: bool, held: Bytes, rest: Bytes)
  {
    /** Everything still to come through the buffer. */
    function All(): Bytes { held + rest }

    /** Where the octets received begin: behind the log, unless the file has it. */
    function Start(): nat { if cached then 0 else |log| }

    predicate Ok() { Start() + |held| <= len }
  }

  /** The octets that are held, and those still to come behind them. */
  datatype Stream = Stream(held: Bytes, rest: Bytes)

  /** `recv`, with `room` octets of space behind what is held: what is then held, and what is still to come. */
  function Hearing(held: Bytes, rest: Bytes, room: nat, pace: Pace): (s: Stream)
    ensures s.held + s.rest == held + rest && |held| <= |s.held| <= |held| + room && |s.rest| <= |rest|
    decreases |rest|
  {
    var n := ReadSize(room, |rest|, pace);
    if |held| >= 5 || n == 0 then Stream(held, rest)
    else
      assert (held + rest[..n]) + rest[n..] == held + rest;
      Hearing(held + rest[..n], rest[n..], room - n, pace)
  }

  /** Taking `n` octets off: what is held goes first, and each read that follows has all of `room`. */
  function Taking(held: Bytes, rest: Bytes, n: nat, room: nat, pace: Pace): (s: Stream)
    requires room > 0
    ensures (|s.held| <= |held| || |s.held| <= room) && |s.rest| <= |rest|
    decreases |rest|
  {
    var k := ReadSize(room, |rest|, pace);
    if n <= |held| then Stream(held[n..], rest)
    else if k == 0 then Stream([], rest)
    else Taking(rest[..k], rest[k..], n - |held|, room, pace)
  }

  /** What follows the first `n` octets, if there are so many. */
  function After(s: Bytes, n: nat): Bytes
  {
    if n <= |s| then s[n..] else []
  }

  /** Nothing but those octets is gone. */
  lemma {:induction false} TakingLeaves(held: Bytes, rest: Bytes, n: nat, room: nat, pace: Pace)
    requires room > 0
    ensures var s := Taking(held, rest, n, room, pace); s.held + s.rest == After(held + rest, n)
    decreases |rest|
  {
    var k := ReadSize(room, |rest|, pace);
    if n <= |held| {
      assert held[n..] + rest == (held + rest)[n..];
    } else if k == 0 {
      assert held + rest == held;
    } else {
      TakingLeaves(rest[..k], rest[k..], n - |held|, room, pace);
      assert rest[..k] + rest[k..] == rest;
      assert n <= |held + rest| ==> (held + rest)[n..] == rest[n - |held|..];
    }
  }

  /** The next read of `recv`, told from what is held after it. */
  lemma HearingNext(held: Bytes, rest: Bytes, room: nat, pace: Pace, held': Bytes, rest': Bytes)
    requires |held| < 5 && held' + rest' == held + rest && |held'| == |held| + ReadSize(room, |rest|, pace)
    ensures |held'| <= |held| + room
    ensures Hearing(held, rest, room, pace)
         == if |held'| == |held| then Stream(held, rest) else Hearing(held', rest', room + |held| - |held'|, pace)
  {
    var n := ReadSize(room, |rest|, pace);
    assert held' == (held' + rest')[..|held'|] == held + rest[..n];
    assert rest' == (held' + rest')[|held'|..] == rest[n..];
  }

  lemma HearingDone(held: Bytes, rest: Bytes, room: nat, pace: Pace)
    requires |held| >= 5
    ensures Hearing(held, rest, room, pace) == Stream(held, rest)
  {
  }

  /** The next read in the middle of a message, told from what is held after it. */
  lemma TakingNext(held: Bytes, rest: Bytes, n: nat, room: nat, pace: Pace, held': Bytes, rest': Bytes)
    requires room > 0 && n > |held| && held' + rest' == rest && |held'| == ReadSize(room, |rest|, pace)
    ensures Taking(held, rest, n, room, pace)
         == if held' == [] then Stream(held', rest') else Taking(held', rest', n - |held|, room, pace)
  {
    assert held' == rest[..|held'|] && rest' == rest[|held'|..];
  }

  lemma TakingDone(held: Bytes, rest: Bytes, n: nat, room: nat, pace: Pace, held': Bytes)
    requires room > 0 && n <= |held| && held' == held[n..]
    ensures Taking(held, rest, n, room, pace) == Stream(held', rest)
  {
  }

  /** The first `n` octets come in two parts when only some of them are held. */
  lemma CutStep(held: Bytes, rest: Bytes, n: nat)
    ensures n > |held| ==> Cut(held + rest, n) == held + Cut(rest, n - |held|)
    ensures n <= |held| ==> Cut(held + rest, n) == held[..n] && held[n..] + rest == (held + rest)[n..]
    ensures n <= |held| ==> Cut(held[n..] + rest, 0) == []
  {
  }

  /** `rest` is the end of `all`. */
  predicate EndsIn(all: Bytes, rest: Bytes)
  {
    |rest| <= |all| && all[|all| - |rest|..] == rest
  }

  lemma EndsInRest(all: Bytes, held: Bytes, rest: Bytes, n: nat)
    requires EndsIn(all, held + rest) && n <= |held|
    ensures EndsIn(all, rest) && EndsIn(all, held[n..] + rest)
  {
    assert held[n..] + rest == (held + rest)[n..];
    assert rest == (held + rest)[|held|..];
  }

  lemma EndsInItself(all: Bytes)
    ensures EndsIn(all, all)
  {
  }

  lemma EndsInTwice(a: Bytes, b: Bytes, c: Bytes)
    requires EndsIn(a, b) && EndsIn(b, c)
    ensures EndsIn(a, c)
  {
  }

  lemma SameParts(held: Bytes, rest: Bytes, held': Bytes, rest': Bytes)
    requires held' + rest' == held + rest && |held'| == |held|
    ensures held' == held && rest' == rest
  {
    assert (held' + rest')[..|held|] == held' && (held + rest)[..|held|] == held;
    assert (held' + rest')[|held|..] == rest' && (held + rest)[|held|..] == rest;
  }

  lemma EmptySplit(s: Bytes)
    ensures s[..0] == [] && s[0..] == s
  {
  }

  lemma EmptyFront(s: Bytes, w: Bytes)
    ensures s[..0] == [] && s[0..] == s && w + [] == w && w + s[..0] == w
  {
  }

  /** In the middle of a message of `n` octets at the front of `all`: `len` of them are still to come, and `w`
      has become of `w0` on the way to `w1`; `ok` as long as nothing failed. */
  ghost predicate Midway(all: Bytes, n: nat, held: Bytes, rest: Bytes, len: nat,
                         w0: Bytes, w: Bytes, w1: Bytes, ok: bool)
  {
    && EndsIn(all, held + rest) && (n <= |all| <==> len <= |held| + |rest|)
    && w0 <= w <= w1 && (ok ==> w + Cut(held + rest, len) == w1)
  }

  lemma MidwayStarts(all: Bytes, n: nat, held: Bytes, rest: Bytes, w0: Bytes)
    requires all == held + rest
    ensures Midway(all, n, held, rest, n, w0, w0, w0 + Cut(all, n), true)
  {
  }

  lemma MidwayInside(all: Bytes, n: nat, held: Bytes, rest: Bytes, len: nat, w0: Bytes, w: Bytes, w1: Bytes, ok: bool)
    requires Midway(all, n, held, rest, len, w0, w, w1, ok)
    ensures EndsIn(all, held + rest)
  {
  }

  /** All that is held is passed on. */
  lemma MidwayOn(all: Bytes, n: nat, held: Bytes, rest: Bytes, len: nat, w0: Bytes, w: Bytes, w1: Bytes, ok: bool,
                 piece: Bytes, ok': bool)
    requires Midway(all, n, held, rest, len, w0, w, w1, ok) && len > |held|
    requires piece <= held && (ok' ==> ok && piece == held) && (!ok ==> piece == [])
    ensures Midway(all, n, [], rest, len - |held|, w0, w + piece, w1, ok')
  {
    hide Cut, EndsIn;
    var more := Cut(rest, len - |held|);
    CutStep(held, rest, len);
    EndsInRest(all, held, rest, 0);
    assert [] + rest == rest;
    assert ok ==> w + (held + more) == (w + held) + more;
    assert !ok ==> w + piece == w;
  }

  /** The next read splits the rest anew. */
  lemma MidwayReads(all: Bytes, n: nat, rest: Bytes, held': Bytes, rest': Bytes, len: nat,
                    w0: Bytes, w: Bytes, w1: Bytes, ok: bool)
    requires Midway(all, n, [], rest, len, w0, w, w1, ok) && rest == held' + rest'
    ensures Midway(all, n, held', rest', len, w0, w, w1, ok)
  {
    assert [] + rest == rest;
  }

  /** The input ends first, or fails. */
  lemma MidwayBreaks(all: Bytes, n: nat, rest: Bytes, left: Bytes, len: nat, w0: Bytes, w: Bytes, w1: Bytes, ok: bool)
    requires Midway(all, n, [], rest, len, w0, w, w1, ok) && EndsIn(rest, left) && len > 0
    ensures EndsIn(all, left) && w0 <= w <= w1
    ensures rest == [] ==> n > |all| && (ok ==> w == w1)
  {
    assert [] + rest == rest;
    EndsInTwice(all, rest, left);
    assert rest == [] ==> Cut(rest, len) == [] && w + [] == w;
  }

  /** The rest of the message is held. */
  lemma MidwayEnds(all: Bytes, n: nat, held: Bytes, rest: Bytes, len: nat, w0: Bytes, w: Bytes, w1: Bytes, ok: bool,
                   piece: Bytes, ok': bool)
    requires Midway(all, n, held, rest, len, w0, w, w1, ok) && len <= |held|
    requires piece <= held[..len] && (ok' ==> ok && piece == held[..len]) && (!ok ==> piece == [])
    ensures n <= |all| && EndsIn(all, held[len..] + rest) && EndsIn(all, held + rest)
    ensures w0 <= w + piece <= w1 && (ok' ==> w + piece == w1)
  {
    hide Cut, EndsIn;
    CutStep(held, rest, len);
    EndsInRest(all, held, rest, len);
    assert !ok ==> w + piece == w;
    assert ok ==> w + held[..len] == w1;
  }

  /** `pgr_mbuf_recv` */
  function Hear(b: Buf, pace: Pace): (b': Buf)
    requires b.Ok()
    ensures b'.Ok() && b'.All() == b.All() && b'.Start() == b.Start() && b'.len == b.len && b'.log == b.log
    ensures b'.cached == b.cached
  {
    var s := Hearing(b.held, b.rest, b.len - b.Start() - |b.held|, pace);
    b.(held := s.held, rest := s.rest)
  }

  /** `pgr_mbuf_relay` and `pgr_mbuf_discard`: the first message is gone. */
  function Take(b: Buf, pace: Pace): (b': Buf)
    requires b.Ok()
    ensures b'.Ok() && b'.Start() == b.Start() && b'.len == b.len && b'.log == b.log
  {
    if |b.held| < 5 then b
    else
      var s := Taking(b.held, b.rest, Size(b.held), b.len - b.Start(), pace);
      b.(held := s.held, rest := s.rest)
  }

  /** `pgr_mbuf_send`: the first message is gone and logged. Only a message that is not held completely opens
      the temporary file, which takes the log over and leaves all the buffer to the reads that follow. */
  function Send(b: Buf, pace: Pace): (b': Buf)
    requires b.Ok()
    ensures b'.Ok() && b'.len == b.len
  {
    if |b.held| < 5 then b
    else
      var s := Taking(b.held, b.rest, Size(b.held), b.len, pace);
      b.(held := s.held, rest := s.rest, log := b.log + Front(b.All()), cached := b.cached || Size(b.held) > |b.held|)
  }

  /** What goes out of a buffer with a whole header: its first message, or what there is of it. */
  lemma FrontOf(b: Buf)
    requires |b.held| >= 5
    ensures Size(b.held) == Size(b.All()) && Front(b.All()) == Cut(b.All(), Size(b.held))
  {
    assert b.All()[..|b.held|] == b.held;
    SizeOfPrefix(b.All(), |b.held|);
  }

  lemma FrameIff(s: Bytes)
    requires |s| >= 5
    ensures HasFrame(s) <==> Size(s) <= |s|
  {
  }

  /** Taking and sending take exactly the first message off what is to come. */
  lemma OneMessageGone(b: Buf, pace: Pace)
    requires b.Ok() && |b.held| >= 5
    ensures Take(b, pace).All() == Send(b, pace).All() == After(b.All(), Size(b.All()))
    ensures b.All() == Front(b.All()) + After(b.All(), Size(b.All()))
  {
    hide Taking, U32;
    FrontOf(b);
    TakingLeaves(b.held, b.rest, Size(b.held), b.len - b.Start(), pace);
    TakingLeaves(b.held, b.rest, Size(b.held), b.len, pace);
  }

  lemma TakeEndsIn(b: Buf, pace: Pace)
    requires b.Ok()
    ensures EndsIn(b.All(), Take(b, pace).All())
  {
    hide Taking, Size;
    if |b.held| >= 5 {
      TakingLeaves(b.held, b.rest, Size(b.held), b.len - b.Start(), pace);
    }
  }

  /** `pgr_mbuf_cat` */
  function Put(b: Buf, data: Bytes): (b': Buf)
    requires b.Ok()
    ensures b'.Ok()
  {
    if b.Start() + |b.held| + |data| <= b.len then b.(held := b.held + data) else b
  }

  /** `pgr_mbuf_reset` */
  function Reset(b: Buf): (b': Buf)
    ensures b'.Ok()
  {
    b.(log := [], cached := false, held := [])
  }

  /** `pgr_mbuf_drain`, for at most `rounds` messages, with its result; 1 means that it is still going. */
  function Drain(b: Buf, until: int, rounds: nat, pace: Pace): (r: (Buf, int))
    requires b.Ok()
    ensures r.0.Ok() && r.0.Start() == b.Start()
    decreases rounds
  {
    var kind := MsgType(b.held);
    if rounds == 0 then (b, 1)
    else if kind < 0 then (b, -1)
    else if kind == until then (Take(b, pace), 0)
    else Drain(Hear(Take(b, pace), pace), until, rounds - 1, pace)
  }

  /** How long drain is watched makes no difference once it has stopped. */
  lemma {:induction false} DrainStops(b: Buf, until: int, r1: nat, r2: nat, pace: Pace)
    requires b.Ok() && r1 <= r2 && Drain(b, until, r1, pace).1 != 1
    ensures Drain(b, until, r2, pace) == Drain(b, until, r1, pace)
    decreases r1
  {
    hide Take, Hear, MsgType;
    var kind := MsgType(b.held);
    if kind >= 0 && kind != until {
      DrainStops(Hear(Take(b, pace), pace), until, r1 - 1, r2 - 1, pace);
    }
  }

  // Streams of whole messages.

  /** A complete message from a backend, all of which carry an ASCII type octet. */
  predicate HasReply(s: Bytes)
  {
    HasFrame(s) && 0 < s[0] < 128
  }

  /** One whole message of a backend. */
  predicate Message(f: Bytes)
  {
    HasReply(f) && Size(f) == |f|
  }

  /** The next message of a stream of whole messages. */
  lemma MessageInFront(f: Bytes, rest: Bytes)
    requires Message(f)
    ensures HasReply(f + rest) && Size(f + rest) == |f| && Front(f + rest) == f
    ensures After(f + rest, |f|) == rest && (f + rest)[0] == f[0]
  {
    assert (f + rest)[..|f|] == f;
    SizeOfPrefix(f + rest, |f|);
  }

  /** With a whole header to come and room for it, it is there after `recv`, and its type with it. */
  lemma HearsHeader(b: Buf, pace: Pace)
    requires b.Ok() && b.Start() + 5 <= b.len && |b.All()| >= 5
    ensures |Hear(b, pace).held| >= 5 && Hear(b, pace).held <= b.All()
  {
    hide Hearing;
    HearingEnough(b.held, b.rest, b.len - b.Start() - |b.held|, pace);
  }

  lemma {:induction false} HearingEnough(held: Bytes, rest: Bytes, room: nat, pace: Pace)
    requires |held| + room >= 5 && |held| + |rest| >= 5
    ensures |Hearing(held, rest, room, pace).held| >= 5
    decreases |rest|
  {
    var n := ReadSize(room, |rest|, pace);
    if |held| < 5 && n > 0 {
      HearingEnough(held + rest[..n], rest[n..], room - n, pace);
    }
  }

  /** A whole message at the front of the stream, its header held, is gone after it is taken, and nothing else. */
  lemma MessageTaken(b: Buf, f: Bytes, rest: Bytes, pace: Pace)
    requires b.Ok() && |b.held| >= 5 && Message(f) && b.All() == f + rest
    ensures Take(b, pace).All() == rest && Take(b, pace).len == b.len && b.Start() + 5 <= b.len
    ensures Send(b, pace).All() == rest
    ensures Front(b.All()) == f && b.held[0] == f[0] && MsgType(b.held) == f[0]
  {
    hide Take, Send, Size, HasFrame;
    MessageInFront(f, rest);
    OneMessageGone(b, pace);
    assert b.All()[0] == b.held[0];
  }

  /** Whole messages, of which the last and no other is of type `until`. */
  predicate UpTo(frames: seq<Bytes>, until: int)
  {
    && frames != [] && Message(frames[0])
    && (frames[0][0] == until <==> |frames| == 1)
    && (|frames| > 1 ==> UpTo(frames[1..], until))
  }

  /** On a stream of whole messages, drain stops exactly behind the first one of its type. */
  lemma {:induction false} DrainsThrough(b: Buf, frames: seq<Bytes>, rest: Bytes, until: int, rounds: nat, pace: Pace)
    requires UpTo(frames, until) && |frames| <= rounds
    requires b.Ok() && |b.held| >= 5 && b.All() == Flatten(frames) + rest
    ensures Drain(b, until, rounds, pace).1 == 0 && Drain(b, until, rounds, pace).0.All() == rest
    decreases |frames|
  {
    hide Take, Hear, Flatten, Message, Buf.All, Buf.Start, Buf.Ok, MsgType;
    var f, next := frames[0], frames[1..];
    FlattenFront(frames);
    Associates(f, Flatten(next), rest);
    MessageTaken(b, f, Flatten(next) + rest, pace);
    if next == [] {
      FlattenNothing(rest);
    } else {
      HearsNext(Take(b, pace), next, rest, pace);
      DrainsThrough(Hear(Take(b, pace), pace), next, rest, until, rounds - 1, pace);
    }
  }

  lemma FlattenNothing(rest: Bytes)
    ensures Flatten([]) + rest == rest
  {
  }

  lemma HearsNext(b: Buf, frames: seq<Bytes>, rest: Bytes, pace: Pace)
    requires b.Ok() && b.Start() + 5 <= b.len && frames != [] && Message(frames[0]) && b.All() == Flatten(frames) + rest
    ensures |Hear(b, pace).held| >= 5 && Hear(b, pace).All() == b.All()
  {
    hide Hear, Flatten;
    FlattenFront(frames);
    HearsHeader(b, pace);
  }

  // When a drain stops.

  /** How a drain ends on a stream that is heard from its start, and what it leaves: it walks over messages until there
      is nothing that tells a type, or a message of type `until`, which is the last to go. It has no end where less
      than a header of another message is left, or where an untyped message says that it is nothing. */
  function End(s: Bytes, until: int): (e: Option<(int, Bytes)>)
    ensures e.Some? ==> e.value.0 == 0 || e.value.0 == -1
    decreases |s|
  {
    var kind := MsgType(s);
    if kind < 0 then Some((-1, s))
    else if kind == until then Some((0, if |s| < 5 then s else After(s, Size(s))))
    else if |s| < 5 || Size(s) == 0 then None
    else End(After(s, Size(s)), until)
  }

  /** No message of the walk is an SSLRequest, which only clients send: the one message whose type depends on how much
      of it is buffered. */
  predicate NoSslRequest(s: Bytes)
    decreases |s|
  {
    !IsSslRequest(s) && (|s| >= 5 && Size(s) > 0 ==> NoSslRequest(After(s, Size(s))))
  }

  predicate IsSslRequest(s: Bytes)
  {
    s != [] && s[0] == 0 && MsgType(s) == MSG_SSLREQ
  }

  /** As much of the stream is held as `recv` waits for. */
  predicate Heard(b: Buf)
  {
    b.Ok() && (|b.held| >= 5 || b.rest == [])
  }

  /** The type of a message is told by its header, but for an SSLRequest. */
  lemma TypeIsHeard(b: Buf)
    requires Heard(b) && !IsSslRequest(b.All())
    ensures MsgType(b.held) == MsgType(b.All())
  {
    if |b.held| >= 5 {
      assert b.All()[..|b.held|] == b.held;
      SizeOfPrefix(b.All(), |b.held|);
      assert b.held[..4] == b.All()[..4] && b.held[1..][..4] == b.All()[1..][..4];
    } else {
      assert b.All() == b.held;
    }
  }

  /** What is left after a message is taken is heard again, if there is any. */
  lemma HeardAgain(b: Buf, pace: Pace)
    requires Heard(b) && |b.held| >= 5
    ensures Heard(Hear(Take(b, pace), pace)) && Hear(Take(b, pace), pace).All() == After(b.All(), Size(b.All()))
  {
    hide Taking, Hearing, U32;
    OneMessageGone(b, pace);
    var b' := Take(b, pace);
    HearingAll(b'.held, b'.rest, b'.len - b'.Start() - |b'.held|, pace);
  }

  lemma {:induction false} HearingAll(held: Bytes, rest: Bytes, room: nat, pace: Pace)
    requires |held| + room >= 5
    ensures var s := Hearing(held, rest, room, pace); |s.held| >= 5 || s.rest == []
    decreases |rest|
  {
    var n := ReadSize(room, |rest|, pace);
    if |held| < 5 && n > 0 {
      HearingAll(held + rest[..n], rest[n..], room - n, pace);
    }
  }

  /** The drain stops if and only if its stream has an end, then with that end, however short the reads are; where it
      does, it does within as many messages as there are octets. */
  lemma {:induction false} DrainEnds(b: Buf, until: int, rounds: nat, pace: Pace)
    requires Heard(b) && NoSslRequest(b.All())
    ensures var (b', rc) := Drain(b, until, rounds, pace);
            match End(b.All(), until)
            case None => rc == 1
            case Some((code, left)) => (rounds > |b.All()| ==> rc != 1) && (rc != 1 ==> rc == code && b'.All() == left)
    decreases rounds
  {
    hide Take, Hear, MsgType, Size, Buf.All, IsSslRequest;
    TypeIsHeard(b);
    DrainTurn(b, until, pace);
    if rounds > 0 {
      var kind := MsgType(b.held);
      if kind >= 0 && kind != until {
        if |b.held| >= 5 && Size(b.All()) > 0 {
          HeardAgain(b, pace);
          DrainEnds(Hear(Take(b, pace), pace), until, rounds - 1, pace);
        } else {
          DrainStalls(b, until, rounds, pace);
        }
      }
    }
  }

  /** What one turn of the drain makes of the buffer. */
  lemma DrainTurn(b: Buf, until: int, pace: Pace)
    requires Heard(b) && MsgType(b.held) == MsgType(b.All())
    ensures |b.held| < 5 <==> |b.All()| < 5
    ensures Take(b, pace).All() == if |b.held| < 5 then b.All() else After(b.All(), Size(b.All()))
    ensures |b.All()| >= 5 && Size(b.All()) > 0 ==> |After(b.All(), Size(b.All()))| < |b.All()|
  {
    hide Taking, U32, MsgType;
    if |b.held| >= 5 {
      OneMessageGone(b, pace);
    }
  }

  /** A buffer in which nothing moves any more. */
  lemma {:induction false} DrainStalls(b: Buf, until: int, rounds: nat, pace: Pace)
    requires Heard(b) && MsgType(b.held) >= 0 && MsgType(b.held) != until
    requires |b.held| < 5 || Size(b.All()) == 0
    ensures Drain(b, until, rounds, pace).1 == 1
    decreases rounds
  {
    hide MsgType, Take, Hear;
    if rounds > 0 {
      NothingMoves(b, pace);
      DrainStalls(b, until, rounds - 1, pace);
    }
  }

  lemma NothingMoves(b: Buf, pace: Pace)
    requires Heard(b) && (|b.held| < 5 || Size(b.All()) == 0)
    ensures Hear(Take(b, pace), pace) == b
  {
    hide U32;
    if |b.held| >= 5 {
      FrontOf(b);
      EmptySplit(b.held);
      TakingDone(b.held, b.rest, 0, b.len - b.Start(), pace, b.held);
    }
    assert Take(b, pace) == b;
  }

  /** So the drain stops at all if and only if its stream has an end. */
  lemma DrainStopsIff(b: Buf, until: int, pace: Pace)
    requires Heard(b) && NoSslRequest(b.All())
    ensures (exists rounds: nat :: Drain(b, until, rounds, pace).1 != 1) <==> End(b.All(), until).Some?
  {
    hide Drain, End, NoSslRequest;
    if rounds: nat :| Drain(b, until, rounds, pace).1 != 1 {
      DrainEnds(b, until, rounds, pace);
    }
    DrainEnds(b, until, |b.All()| + 1, pace);
  }

  /** One octet of another message, and the drain never stops. */
  lemma CutHeaderStalls(kind: byte, until: int, pace: Pace)
    requires kind != 0 && Char(kind) >= 0 && Char(kind) != until
    ensures forall rounds :: Drain(Buf(4096, [], false, [kind], []), until, rounds, pace).1 == 1
  {
    forall rounds: nat
      ensures Drain(Buf(4096, [], false, [kind], []), until, rounds, pace).1 == 1
    {
      DrainStalls(Buf(4096, [], false, [kind], []), until, rounds, pace);
    }
  }

  /** A message that is cut behind its header does end the drain: nothing is left that tells a type. */
  lemma CutBodyEnds(s: Bytes, until: int)
    requires |s| >= 5 && 0 < s[0] < 128 && s[0] != until && Size(s) >= |s|
    ensures End(s, until) == Some((-1, []))
  {
    hide U32;
    assert After(s, Size(s)) == [];
  }

  /** One `writen` call of `send`: its data, and what went out of it. */
  datatype Write = Write(data: Bytes, out: Bytes)

  function Datas(writes: seq<Write>): Bytes
  {
    if writes == [] then [] else Datas(writes[..|writes| - 1]) + writes[|writes| - 1].data
  }

  function Outs(writes: seq<Write>): Bytes
  {
    if writes == [] then [] else Outs(writes[..|writes| - 1]) + writes[|writes| - 1].out
  }

  /** As many octets went out as were to go. */
  predicate AllWhole(writes: seq<Write>)
  {
    forall k :: 0 <= k < |writes| ==> |writes[k].out| == |writes[k].data|
  }

  predicate LastWhole(writes: seq<Write>)
  {
    writes == [] || |writes[|writes| - 1].out| == |writes[|writes| - 1].data|
  }

  /** What the writes of one message have done to an output; `ok` is whether none of them failed, `untorn` whether
      none was short. */
  ghost predicate Wrote(writes: seq<Write>, before: Bytes, after: Bytes, ok: bool, untorn: bool)
  {
    && after == before + Outs(writes) && (ok <==> AllWhole(writes))
    && (ok && untorn ==> Outs(writes) == Datas(writes))
  }

  lemma NothingWritten(before: Bytes, untorn: bool)
    ensures Wrote([], before, before, true, untorn) && Datas([]) == [] && Outs([]) == [] && LastWhole([])
  {
  }

  lemma WroteMore(writes: seq<Write>, before: Bytes, after: Bytes, ok: bool, untorn: bool,
                  data: Bytes, out: Bytes, wrOk: bool, still: bool)
    requires Wrote(writes, before, after, ok, untorn)
    requires (wrOk <==> |out| == |data|) && (still ==> untorn && (wrOk ==> out == data))
    ensures Wrote(writes + [Write(data, out)], before, after + out, ok && wrOk, still)
    ensures Datas(writes + [Write(data, out)]) == Datas(writes) + data
    ensures LastWhole(writes + [Write(data, out)]) <==> wrOk
  {
    var more := writes + [Write(data, out)];
    assert more[..|writes|] == writes;
    assert AllWhole(more) <==> AllWhole(writes) && wrOk by {
      assert forall k :: 0 <= k < |writes| ==> more[k] == writes[k];
      assert more[|writes|] == Write(data, out);
    }
    Associates(before, Outs(writes), out);
  }
}
