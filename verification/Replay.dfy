/** The message buffer over any sequence of operations. */
module Replay {
  import opened Wire
  import opened Streams
  import opened Buffer
  import opened Mbuf

  datatype Op =
    | Cat(data: Bytes)
    | Recv
    | Send
    | Relay
    | Discard
    | Drain(until: int, rounds: nat)
    | Resend
    | Reset

  /** What an operation makes of a buffer. */
  function Apply(b: Buf, op: Op, pace: Pace): (b': Buf)
    requires b.Ok()
    ensures b'.Ok()
  {
    match op
    case Cat(data) => Put(b, data)
    case Recv => Hear(b, pace)
    case Send => Buffer.Send(b, pace)
    case Relay | Discard => Take(b, pace)
    case Drain(until, rounds) => Buffer.Drain(b, until, rounds, pace).0
    case Resend => b
    case Reset => Buffer.Reset(b)
  }

  /** ... and what goes out. */
  function Output(b: Buf, op: Op): Bytes
  {
    match op
    case Send | Relay => if |b.held| < 5 then [] else Front(b.All())
    case Resend => b.log
    case _ => []
  }

  function ApplyAll(b: Buf, ops: seq<Op>, pace: Pace): (b': Buf)
    requires b.Ok()
    ensures b'.Ok()
  {
    if ops == [] then b else Apply(ApplyAll(b, ops[..|ops| - 1], pace), ops[|ops| - 1], pace)
  }

  function OutputAll(b: Buf, ops: seq<Op>, pace: Pace): Bytes
    requires b.Ok()
  {
    if ops == [] then []
    else
      var init, last := ops[..|ops| - 1], ops[|ops| - 1];
      OutputAll(b, init, pace) + Output(ApplyAll(b, init, pace), last)
  }

  /** The messages sent since the last reset: each is what stood at the front of the stream when it was sent. */
  function Sent(b: Buf, ops: seq<Op>, pace: Pace): seq<Bytes>
    requires b.Ok()
  {
    if ops == [] then []
    else
      var init, last := ops[..|ops| - 1], ops[|ops| - 1];
      var before := ApplyAll(b, init, pace);
      match last
      case Reset => []
      case Send => if |before.held| < 5 then Sent(b, init, pace) else Sent(b, init, pace) + [Front(before.All())]
      case _ => Sent(b, init, pace)
  }

  lemma DrainKeepsLog(b: Buf, until: int, rounds: nat, pace: Pace)
    requires b.Ok()
    ensures Buffer.Drain(b, until, rounds, pace).0.log == b.log
    decreases rounds
  {
    hide MsgType, Buf.Ok, Size, Taking, Hearing;
    if rounds > 0 && MsgType(b.held) >= 0 && MsgType(b.held) != until {
      DrainKeepsLog(Hear(Take(b, pace), pace), until, rounds - 1, pace);
    }
  }

  /** Whatever is done to a buffer with an empty log, its log is the messages sent since the last reset, in order. */
  lemma {:induction false} LogIsSent(b: Buf, ops: seq<Op>, pace: Pace)
    requires b.Ok() && b.log == []
    ensures ApplyAll(b, ops, pace).log == Flatten(Sent(b, ops, pace))
  {
    if ops != [] {
      var init, last := ops[..|ops| - 1], ops[|ops| - 1];
      LogIsSent(b, init, pace);
      var before := ApplyAll(b, init, pace);
      FlattenAppend(Sent(b, init, pace), Front(before.All()));
      if last.Drain? {
        DrainKeepsLog(before, last.until, last.rounds, pace);
      }
    }
  }

  /** So a resend puts out exactly those messages, and can do so again and again. */
  lemma ResendPutsOutSent(b: Buf, ops: seq<Op>, pace: Pace)
    requires b.Ok() && b.log == []
    ensures Output(ApplyAll(b, ops, pace), Resend) == Flatten(Sent(b, ops, pace))
    ensures ApplyAll(b, ops + [Resend], pace) == ApplyAll(b, ops, pace)
  {
    LogIsSent(b, ops, pace);
    assert (ops + [Resend])[..|ops|] == ops;
  }

  function Faults(m: MBuf): nat
    reads m, m.infd, m.outfd
  {
    m.infd.faults + m.outfd.faults + m.cacheFaults
  }

  /** Any operations, one after the other: as long as no descriptor fails, the buffer is what the functions above
      say, and if no `writen` call was short exactly their output went out. */
  method Perform(m: MBuf, ops: seq<Op>)
    requires m.Valid() && m.Settled()
    modifies m`start, m`fill, m`cache, m`cacheFaults, m.buf, m.infd, m.outfd
    ensures m.Valid() && Faults(m) <= old(Faults(m)) && old(m.outfd.torn) <= m.outfd.torn
    ensures Faults(m) == old(Faults(m)) ==>
              && m.Settled() && old(m.Model()).Ok()
              && m.Model() == ApplyAll(old(m.Model()), ops, m.infd.pace)
              && (m.outfd.torn == old(m.outfd.torn) ==>
                    m.outfd.written == old(m.outfd.written) + OutputAll(old(m.Model()), ops, m.infd.pace))
  {
    hide MBuf.Model;
    m.ModelOk();
    ghost var b, w0 := m.Model(), m.outfd.written;
    ghost var f0, t0 := Faults(m), m.outfd.torn;
    assert w0 + [] == w0 && ops[..0] == [];
    assert ops[..|ops|] == ops;
    for i := 0 to |ops|
      invariant m.Valid() && m.Settled() && m.infd == old(m.infd) && m.outfd == old(m.outfd)
      invariant Faults(m) == f0 && b.Ok()
      invariant m.Model() == ApplyAll(b, ops[..i], m.infd.pace)
      invariant t0 <= m.outfd.torn
      invariant m.outfd.torn == t0 ==> m.outfd.written == w0 + OutputAll(b, ops[..i], m.infd.pace)
    {
      ghost var w, before := m.outfd.written, m.Model();
      var ok := Step(m, ops[i]);
      assert ops[..i + 1][..i] == ops[..i];
      Associates(w0, OutputAll(b, ops[..i], m.infd.pace), Output(before, ops[i]));
      if !ok {
        return;
      }
    }
  }

  /** One operation; `ok` is whether nothing failed. */
  method Step(m: MBuf, op: Op) returns (ok: bool)
    requires m.Valid() && m.Settled()
    modifies m`start, m`fill, m`cache, m`cacheFaults, m.buf, m.infd, m.outfd
    ensures m.Valid() && Faults(m) <= old(Faults(m)) && old(m.outfd.torn) <= m.outfd.torn
    ensures ok <==> Faults(m) == old(Faults(m))
    ensures ok ==>
              && m.Settled() && old(m.Model()).Ok()
              && m.Model() == Apply(old(m.Model()), op, m.infd.pace)
              && (m.outfd.torn == old(m.outfd.torn) ==>
                    m.outfd.written == old(m.outfd.written) + Output(old(m.Model()), op))
  {
    hide Front, Size, Taking, Hearing;
    m.ModelOk();
    ghost var w := m.outfd.written;
    assert w + [] == w;
    var before := Faults(m);
    match op {
      case Cat(data) => var _ := m.Cat(data);
      case Recv => var _ := m.Recv();
      case Send => var _, _ := m.Send();
      case Relay => var _ := m.Relay();
      case Discard => var _ := m.Discard();
      case Drain(until, rounds) => var _ := m.Drain(until, rounds);
      case Resend => var _ := m.Resend();
      case Reset => m.Reset();
    }
    ok := Faults(m) == before;
  }
}
