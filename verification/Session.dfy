/** One client session: `handle_client` of src/worker.c, from the point where both backends are connected. */
module Session {
  import opened Wire
  import opened Streams
  import opened Buffer
  import opened Mbuf
  import opened ErrorScan
  import opened Trace
  import Runs
  import Turns

  /** How a part of the session ended; `Busy` means the observation ended first. */
  datatype Outcome = Done | Shutdown | Busy

  class Session {
    const clientIn: InFd
    const readerIn: InFd
    const writerIn: InFd
    const clientOut: OutFd
    const readerOut: OutFd
    const writerOut: OutFd
    const fe: MBuf
    const be: MBuf
    var befd: Backend
    var inTxn: bool
    /** The run so far, and where it has led. */
    ghost var trace: seq<Event>
    ghost var st: State
    ghost const s0: State
    ghost const faults0: nat
    ghost const torn0: nat

    ghost function Parts(): set<object>
    {
      {clientIn, readerIn, writerIn, clientOut, readerOut, writerOut, fe, be, fe.buf, be.buf}
    }

    function In(b: Backend): InFd
    {
      if b == Reader then readerIn else writerIn
    }

    function Out(b: Backend): OutFd
    {
      if b == Reader then readerOut else writerOut
    }

    ghost function Paces(): World
    {
      World(clientIn.pace, readerIn.pace, writerIn.pace)
    }

    /** Failures still to come, over all descriptors. */
    ghost function Faults(): nat
      reads clientIn, readerIn, writerIn, clientOut, readerOut, writerOut, fe`cacheFaults
    {
      clientIn.faults + readerIn.faults + writerIn.faults + clientOut.faults + readerOut.faults + writerOut.faults
      + fe.cacheFaults
    }

    /** How many `writen` calls to the backends were short; `writen` is how requests and the log are sent. */
    ghost function Torn(): nat
      reads readerOut, writerOut
    {
      readerOut.torn + writerOut.torn
    }

    /** No descriptor failed so far. */
    ghost predicate Unfailing()
      reads clientIn, readerIn, writerIn, clientOut, readerOut, writerOut, fe`cacheFaults
    {
      Faults() == faults0
    }

    /** ... and no `writen` call to a backend was short. */
    ghost predicate Clean()
      reads clientIn, readerIn, writerIn, clientOut, readerOut, writerOut, fe`cacheFaults
    {
      Unfailing() && Torn() == torn0
    }

    /** What only failures and short writes of the client's input, a backend's output or the file can change. */
    twostate lemma Counted(out: OutFd)
      requires out == readerOut || out == writerOut
      requires clientIn != readerIn && clientIn != writerIn && readerOut != writerOut
      requires clientOut != readerOut && clientOut != writerOut
      requires unchanged(readerIn) && unchanged(writerIn) && unchanged(clientOut)
      requires out == readerOut ==> unchanged(writerOut)
      requires out == writerOut ==> unchanged(readerOut)
      requires clientIn.faults <= old(clientIn.faults) && out.faults <= old(out.faults)
      requires fe.cacheFaults <= old(fe.cacheFaults) && old(out.torn) <= out.torn
      ensures Faults() <= old(Faults()) && old(Torn()) <= Torn()
      ensures old(Faults() <= faults0 && torn0 <= Torn()) && Unfailing() ==>
                && old(Unfailing()) && clientIn.faults == old(clientIn.faults) && out.faults == old(out.faults)
                && fe.cacheFaults == old(fe.cacheFaults)
      ensures old(Faults() <= faults0 && torn0 <= Torn()) && Clean() ==>
                old(Clean()) && Unfailing() && out.torn == old(out.torn)
    {
    }

    ghost predicate Wired(source: Backend)
      reads `befd, Parts()
    {
      && fe != be && fe.buf != be.buf
      && clientIn != readerIn && clientIn != writerIn && readerIn != writerIn
      && clientOut != readerOut && clientOut != writerOut && readerOut != writerOut
      && fe.Valid() && be.Valid() && be.start == 0 && be.cache == None
      && fe.infd == clientIn && be.outfd == clientOut && fe.outfd == Out(befd) && be.infd == In(source)
    }

    /** The buffers, variables and descriptors as they are, in the terms of the machine. */
    ghost function Now(phase: Phase, source: Backend): State
      reads `befd, `inTxn, Parts()
      requires Wired(source)
    {
      State(phase, inTxn, befd, source, fe.Model(), be.Model(), In(Opposite(source)).unread,
            readerOut.written, writerOut.written, clientOut.written)
    }

    /** The session stands where `s` says, and can go on unless that is the end. */
    ghost predicate Stands(s: State)
      reads `befd, `inTxn, Parts()
    {
      && Wired(s.source) && s == Now(s.phase, s.source) && (s.phase.Ended? || fe.Settled())
      && Faults() <= faults0 && torn0 <= Torn()
    }

    /** The machine has made the run, and the session stands exactly where it has led; unless something failed, all
        of its acts were done as they should, but for what `writen` puts out when it writes short. */
    ghost predicate Valid()
      reads this, Parts()
    {
      && Run(Paces(), s0, trace) == Some(st) && Stands(st)
      && (Unfailing() ==> Unbroken(trace)) && (Clean() ==> Smooth(trace))
    }

    constructor (clientIn: InFd, readerIn: InFd, writerIn: InFd, clientOut: OutFd, readerOut: OutFd, writerOut: OutFd)
      requires clientIn != readerIn && clientIn != writerIn && readerIn != writerIn
      requires clientOut != readerOut && clientOut != writerOut && readerOut != writerOut
      ensures Valid() && trace == [] && fresh({fe, be, fe.buf, be.buf}) && Clean()
      ensures this.clientIn == clientIn && this.readerIn == readerIn && this.writerIn == writerIn
      ensures this.clientOut == clientOut && this.readerOut == readerOut && this.writerOut == writerOut
      ensures st == s0 == Start(clientIn.unread, readerIn.unread, writerIn.unread,
                                readerOut.written, writerOut.written, clientOut.written)
    {
      this.clientIn, this.readerIn, this.writerIn := clientIn, readerIn, writerIn;
      this.clientOut, this.readerOut, this.writerOut := clientOut, readerOut, writerOut;
      var feFaults: nat := *;
      fe := new MBuf(16384, clientIn, readerOut, feFaults);
      be := new MBuf(4096, readerIn, clientOut, 0);
      befd, inTxn := Reader, false;
      trace := [];
      s0 := Start(clientIn.unread, readerIn.unread, writerIn.unread,
                  readerOut.written, writerOut.written, clientOut.written);
      st := Start(clientIn.unread, readerIn.unread, writerIn.unread,
                  readerOut.written, writerOut.written, clientOut.written);
      torn0 := readerOut.torn + writerOut.torn;
      faults0 := clientIn.faults + readerIn.faults + writerIn.faults
      + clientOut.faults + readerOut.faults + writerOut.faults + feFaults;
    }

    /** The machine takes a step: as it should, if that is where the session now is. */
    ghost method Record(a: Act, now: State)
      requires Run(Paces(), s0, trace) == Some(st) && Stands(now) && Allowed(Paces(), st, a)
      requires now == Trace.Done(Paces(), st, a) || Fails(Paces(), st, a, now)
      requires Unfailing() ==> Unbroken(trace) && Tears(a, Trace.Done(Paces(), st, a), now)
      requires Clean() ==> Smooth(trace) && now == Trace.Done(Paces(), st, a)
      modifies this`trace, this`st
      ensures Valid() && st == now && Added(old(trace), trace, 1, if a.Drain? then Some(a.rounds) else None)
    {
      hide Allowed, Fails, Trace.Done, Run, Session.Stands, Session.Unfailing, Session.Clean, Session.Now,
           Session.Wired, Tears;
      ItIsNoPart();
      var e := Event(a, ResultOf(a, Trace.Done(Paces(), st, a), now));
      ResultIs(Paces(), st, a, now);
      Append(Paces(), s0, trace, e);
      trace, st := trace + [e], now;
    }

    lemma ItIsNoPart()
      ensures this !in Parts()
    {
      assert forall o | o in Parts() :: o is InFd || o is OutFd || o is MBuf || o is array<byte>;
    }

    /** The top of the loop: unless a transaction is open, back to the reader. */
    method StartTurn()
      requires Valid() && st.phase.Top?
      modifies this`befd, this`trace, this`st, fe`infd, fe`outfd, be`infd, be`outfd
      ensures Valid() && st.phase.Await? && Added(old(trace), trace, 1, None)
    {
      hide Run, Smooth, Unbroken, Fails, Buf.All;
      BuffersOk();
      ghost var s := st;
      if !inTxn {
        befd := Reader;
      }
      fe.SetFd(clientIn, Out(befd));
      be.SetFd(In(befd), clientOut);
      Record(Turn, Now(Await, befd));
    }

    /** What the machine asks of its buffers. */
    lemma BuffersOk()
      requires Valid() && !st.phase.Ended?
      ensures st.fe.Ok() && st.be.Ok() && st.be.Start() == 0
      ensures st.fe.All() == fe.Logical() && st.be.All() == be.Logical()
    {
      hide Run, Smooth, Unbroken;
      fe.ModelOk();
      be.ModelOk();
    }

    method RecvFe() returns (rc: int)
      requires Valid() && (st.phase.Await? || st.phase.CopyAwait?)
      modifies fe`fill, fe.buf, clientIn, this`trace, this`st
      ensures Valid() && Added(old(trace), trace, 1, None)
      ensures if rc < 0 then st.phase.Ended? else if old(st.phase.Await?) then st.phase.Look? else st.phase.CopyLook?
    {
      hide Run, Smooth, Unbroken, Hear, EndsIn, Fails;
      BuffersOk();
      ghost var s := st;
      rc := fe.Recv();
      ghost var now := Now(if rc < 0 then Ended else if s.phase.Await? then Look else CopyLook, s.source);
      if rc < 0 {
        HearClientFails(Paces(), s, now);
      }
      Record(HearClient, now);
    }

    method RecvBe() returns (rc: int)
      requires Valid() && st.phase.Listen?
      modifies be`fill, be.buf, be.infd, this`trace, this`st
      ensures Valid() && Added(old(trace), trace, 1, None)
      ensures if rc < 0 then st.phase.Ended? else st.phase.Judge?
    {
      hide Run, Smooth, Unbroken, Hear, EndsIn, Fails;
      BuffersOk();
      ghost var s := st;
      rc := be.Recv();
      ghost var now := Now(if rc < 0 then Ended else Judge, s.source);
      if rc < 0 {
        HearBackendFails(Paces(), s, now);
      }
      Record(HearBackend, now);
    }

    /** A BEGIN pins the session to the writer; a COMMIT ends that after this turn. The reply side is not moved. */
    method Route(begins: bool, commits: bool, ghost s: State) returns (ghost now: State)
      requires Stands(s)
      modifies this`befd, this`inTxn, fe`infd, fe`outfd
      ensures now == Routed(s, begins, commits) && Stands(now)
      ensures Unfailing() == old(Unfailing()) && Clean() == old(Clean()) && fe.Settled() == old(fe.Settled())
    {
      hide Session.Stands, Session.Unfailing, Session.Clean, MBuf.Settled;
      now := s;
      if begins {
        now := Pin(now);
      }
      if commits {
        now := Unpin(now);
      }
    }

    method Pin(ghost s: State) returns (ghost now: State)
      requires Stands(s)
      modifies this`befd, this`inTxn, fe`infd, fe`outfd
      ensures now == s.(inTxn := true, befd := Writer) && Stands(now)
      ensures Unfailing() == old(Unfailing()) && Clean() == old(Clean()) && fe.Settled() == old(fe.Settled())
    {
      hide Session.Faults, Session.Torn, Session.Unfailing, Session.Clean;
      inTxn := true;
      befd := Writer;
      fe.SetFd(clientIn, writerOut);
      now := s.(inTxn := true, befd := Writer);
    }

    method Unpin(ghost s: State) returns (ghost now: State)
      requires Stands(s)
      modifies this`inTxn
      ensures now == s.(inTxn := false) && Stands(now)
      ensures Unfailing() == old(Unfailing()) && Clean() == old(Clean()) && fe.Settled() == old(fe.Settled())
    {
      hide Session.Faults, Session.Torn, Session.Unfailing, Session.Clean;
      inTxn := false;
      now := s.(inTxn := false);
    }

    /** Sends the client's message on and logs it. */
    method SendRequest() returns (rc: int)
      requires Valid() && st.phase.Look?
      modifies this`befd, this`inTxn, this`trace, this`st, fe`infd, fe`outfd, fe`start, fe`fill, fe`cache,
               fe`cacheFaults, fe.buf, clientIn, readerOut, writerOut
      ensures Valid() && Added(old(trace), trace, 1, None)
      ensures rc != 0 ==> st.phase.Ended?
      ensures rc == 0 ==> st.phase == AfterRequest(MsgType(old(fe.Buffered())))
    {
      hide Run, Smooth, Unbroken, Session.Clean, Session.Now, MBuf.Buffered, MBuf.Model;
      var view := fe.Buffered();
      if |view| < 5 {
        rc := SendNothing();
        return;
      }
      rc := SendMessage(view);
    }

    method SendNothing() returns (rc: int)
      requires Valid() && st.phase.Look? && |fe.Buffered()| < 5
      modifies fe`start, fe`fill, fe`cache, fe`cacheFaults, fe.buf, clientIn, Out(befd), this`trace, this`st
      ensures Valid() && Added(old(trace), trace, 1, None) && rc != 0 && st.phase.Ended?
    {
      hide Run, Smooth, Unbroken, Session.Stands, Session.Now, Session.Wired, Session.Unfailing, Session.Clean,
           MBuf.Buffered, MBuf.Model;
      hide Allowed, Trace.Done, Fails;
      Views();
      ghost var s := st;
      rc := SendEmpty(s);
      HangsUp(Paces(), s);
      Record(Hangup, s.(phase := Ended));
    }

    method SendEmpty(ghost s: State) returns (rc: int)
      requires Stands(s) && fe.Settled() && |fe.Buffered()| < 5
      modifies fe`start, fe`fill, fe`cache, fe`cacheFaults, fe.buf, clientIn, Out(befd)
      ensures Stands(s.(phase := Ended)) && rc != 0
      ensures (Unfailing() ==> old(Unfailing())) && (Clean() ==> old(Clean()))
    {
      hide Front, HasFrame, EndsIn, Wrote, Datas, LastWhole, Buffer.Send, MBuf.Log, MBuf.Buffered, MBuf.Logical;
      ghost var none;
      rc, none := fe.Send();
    }

    method SendMessage(view: Bytes) returns (rc: int)
      requires Valid() && st.phase.Look? && view == fe.Buffered() && |view| >= 5
      modifies this`befd, this`inTxn, this`trace, this`st, fe`infd, fe`outfd, fe`start, fe`fill, fe`cache,
               fe`cacheFaults, fe.buf, clientIn, readerOut, writerOut
      ensures Valid() && Added(old(trace), trace, 1, None)
      ensures if rc != 0 then st.phase.Ended? else st.phase == AfterRequest(MsgType(view))
    {
      hide Run, Smooth, Unbroken, Session.Stands, Session.Now, Session.Wired, Session.Unfailing, Session.Clean,
           MBuf.Buffered, MBuf.Model;
      hide Sends, QueryStarts, Allowed, Trace.Done, Fails, AfterRequest, MsgType, Size;
      Views();
      ghost var s, now := st, st;
      var begins, commits := QueryStarts(view, BEGIN), QueryStarts(view, COMMIT);
      now := Route(begins, commits, s);
      rc, now := SendFe(now, AfterRequest(MsgType(view)));
      ghost var a := RequestOf(s);
      RequestFails(Paces(), s, now);
      Record(a, now);
    }

    lemma Views()
      requires Valid() && !st.phase.Ended?
      ensures st.fe.Ok() && st.be.Ok() && st.befd == befd && be.infd == In(st.source) && fe.Settled() && Stands(st)
      ensures fe.Valid() && be.Valid() && st.fe.held == fe.Buffered() && st.be.held == be.Buffered()
    {
      hide Run, Smooth, Unbroken;
      fe.ModelOk();
      be.ModelOk();
    }

    /** Both backends are told that the client has gone. */
    method Goodbye()
      requires Valid() && st.phase.Parting?
      modifies readerOut, writerOut, this`trace, this`st
      ensures Valid() && Added(old(trace), trace, 1, None) && st.phase.Ended?
    {
      hide Run, Smooth, Unbroken, Fails, EndsIn, Buf.Ok;
      Views();
      ghost var s := st;
      var _ := SendN(readerOut, GOODBYE);
      var _ := SendN(writerOut, GOODBYE);
      ghost var now := Now(Ended, s.source);
      ByeFails(Paces(), s, now);
      Record(Bye, now);
    }

    /** Passes a message of the backend that replies are read from on to the client. */
    method RelayReply() returns (rc: int)
      requires Valid() && st.phase.Judge? && !(befd == Reader && Refusal(be.Buffered()))
      modifies be`fill, be.buf, be.infd, clientOut, this`trace, this`st
      ensures Valid() && Added(old(trace), trace, 1, None)
      ensures if rc != 0 then st.phase.Ended? else st.phase == AfterReply(MsgType(old(be.Buffered())))
    {
      hide Run, Smooth, Unbroken, Session.Stands, Session.Now, Session.Wired, Session.Unfailing, Session.Clean,
           MBuf.Buffered, MBuf.Model;
      hide Allowed, Trace.Done, Fails, AfterReply, MsgType, Refusal, Passes, Passed;
      Views();
      ghost var s, now := st, st;
      rc, now := RelayBe(s, AfterReply(MsgType(be.Buffered())));
      if |s.be.held| < 5 {
        HangsUp(Paces(), s);
        Record(Hangup, now);
      } else {
        ReplyFails(Paces(), s, now);
        Record(Reply(Front(s.be.All()), s.source), now);
      }
    }

    /** `relay` on the buffer of replies, from where the session stands. */
    method RelayBe(ghost s: State, ghost next: Phase) returns (rc: int, ghost now: State)
      requires Stands(s) && !s.phase.Ended? && s.be.Ok()
      modifies be`fill, be.buf, be.infd, clientOut
      ensures now.phase == (if rc != 0 then Ended else next) && Stands(now)
      ensures |s.be.held| < 5 ==> now == s.(phase := Ended)
      ensures |s.be.held| >= 5 ==> Passes(s, now)
      ensures Unfailing() ==>
                old(Unfailing()) && (|s.be.held| >= 5 ==> now == Passed(s, next, Paces().Backend(s.source)))
      ensures Clean() ==> old(Clean()) && Unfailing()
    {
      hide Take, Front, HasFrame, EndsIn, Buf.Ok, Buf.Start, MBuf.Log, MBuf.Buffered, MBuf.Logical;
      be.ModelParts();
      rc := be.Relay();
      be.ModelParts();
      be.ModelOk();
      now := Now(if rc != 0 then Ended else next, s.source);
    }

    /** Passes a message of the copy sub-protocol on to the selected backend. */
    method RelayCopy() returns (rc: int)
      requires Valid() && st.phase.CopyLook?
      modifies fe`fill, fe.buf, clientIn, Out(befd), this`trace, this`st
      ensures Valid() && Added(old(trace), trace, 1, None)
      ensures if rc != 0 then st.phase.Ended? else st.phase == AfterCopy(MsgType(old(fe.Buffered())))
    {
      hide Run, Smooth, Unbroken, Session.Stands, Session.Now, Session.Wired, Session.Unfailing, Session.Clean,
           MBuf.Buffered, MBuf.Model;
      hide Allowed, Trace.Done, Fails, AfterCopy, MsgType, Copies, Copied;
      Views();
      ghost var s, now := st, st;
      rc, now := RelayFe(s, AfterCopy(MsgType(s.fe.held)));
      if |s.fe.held| < 5 {
        HangsUp(Paces(), s);
        Record(Hangup, now);
      } else {
        CopyFails(Paces(), s, now);
        Record(CopyData(Front(s.fe.All()), s.befd), now);
      }
    }

    /** `relay` on the client's side, from where the session stands. */
    method RelayFe(ghost s: State, ghost next: Phase) returns (rc: int, ghost now: State)
      requires Stands(s) && !s.phase.Ended? && s.fe.Ok()
      modifies fe`fill, fe.buf, clientIn, Out(befd)
      ensures now.phase == (if rc != 0 then Ended else next) && Stands(now)
      ensures |s.fe.held| < 5 ==> now == s.(phase := Ended)
      ensures |s.fe.held| >= 5 ==> Copies(s, now)
      ensures Unfailing() ==> old(Unfailing()) && (|s.fe.held| >= 5 ==> now == Copied(s, next, clientIn.pace))
      ensures Clean() ==> old(Clean()) && Unfailing()
    {
      hide Take, Front, HasFrame, EndsIn, Buf.Ok, Buf.Start, Buf.All, MBuf.Log, MBuf.Buffered, MBuf.Logical, Copies,
           Copied;
      fe.ModelParts();
      ghost var w := Out(befd).written;
      rc := fe.Relay();
      fe.ModelParts();
      fe.ModelOk();
      now := Now(if rc != 0 then Ended else next, s.source);
      if |s.fe.held| >= 5 {
        CopiesWritten(s, now, w, Out(befd).written, next, clientIn.pace);
      }
    }

    /** Drains the reader's refusal; `busy` is whether it is still going after `rounds` messages. */
    method DrainReader(rounds: nat) returns (busy: bool)
      requires Valid() && st.phase.Judge? && befd == Reader && Refusal(be.Buffered())
      modifies be`fill, be.buf, be.infd, this`trace, this`st
      ensures Valid() && Added(old(trace), trace, 1, Some(rounds)) && st.phase == if busy then Purging else Drained
    {
      hide Run, Smooth, Unbroken, Session.Stands, Session.Now, Session.Wired, Session.Unfailing, Session.Clean,
           MBuf.Buffered, MBuf.Model;
      hide Allowed, Trace.Done, Fails, Refusal, Drains;
      Views();
      ghost var s, now := st, st;
      busy, now := DrainBe(rounds, s);
      DrainFails(Paces(), s, now, rounds);
      Record(Act.Drain(s.be.held, rounds), now);
    }

    method DrainBe(rounds: nat, ghost s: State) returns (busy: bool, ghost now: State)
      requires Stands(s) && !s.phase.Ended? && s.be.Ok()
      modifies be`fill, be.buf, be.infd
      ensures now.phase == (if busy then Purging else Drained) && Stands(now) && Drains(s, now)
      ensures Unfailing() ==> old(Unfailing()) && now == Emptied(s, rounds, Paces().Backend(s.source))
      ensures Clean() ==> old(Clean()) && Unfailing()
    {
      hide Buffer.Drain, EndsIn, Buf.Ok, Buf.Start, MBuf.Log, MBuf.Buffered, MBuf.Logical;
      be.ModelParts();
      var rc := be.Drain('Z' as int, rounds);
      be.ModelParts();
      be.ModelOk();
      busy := rc == 1;
      now := Now(if busy then Purging else Drained, s.source);
    }

    /** Sends the log to the writer and starts it anew; both sides are moved to the writer. */
    method ResendToWriter()
      requires Valid() && st.phase.Drained?
      modifies this`befd, this`trace, this`st, fe`start, fe`fill, fe`cache, fe`cacheFaults, fe`infd, fe`outfd,
               be`infd, be`outfd, writerOut
      ensures Valid() && Added(old(trace), trace, 1, None) && st.phase.Listen?
    {
      hide Run, Smooth, Unbroken, Session.Stands, Session.Now, Session.Wired, Session.Unfailing, Session.Clean,
           MBuf.Buffered, MBuf.Model;
      hide Allowed, Trace.Done, Fails;
      Views();
      ghost var s, now := st, st;
      now := MoveToWriter(s);
      now := Resend(now);
      FailoverFails(Paces(), s, now);
      Record(Failover(s.fe.log, s.fe.held), now);
    }

    /** Both sides are moved to the writer. */
    method MoveToWriter(ghost s: State) returns (ghost now: State)
      requires Stands(s)
      modifies this`befd, fe`infd, fe`outfd, be`infd, be`outfd
      ensures now == Moved(s) && Stands(now) && Unfailing() == old(Unfailing()) && Clean() == old(Clean())
      ensures fe.Settled() == old(fe.Settled()) && fe.infd == old(fe.infd)
    {
      hide MBuf.Log, MBuf.Buffered;
      befd := Writer;
      fe.SetFd(clientIn, writerOut);
      be.SetFd(writerIn, clientOut);
      now := Moved(s);
    }

    method Resend(ghost s: State) returns (ghost now: State)
      requires Stands(s) && s.befd == Writer && fe.Settled()
      modifies fe`start, fe`fill, fe`cache, fe`cacheFaults, writerOut
      ensures now == s.(phase := Listen, fe := Buffer.Reset(s.fe), toWriter := now.toWriter) && Stands(now)
      ensures s.toWriter <= now.toWriter && (Unfailing() ==> old(Unfailing()))
      ensures Clean() ==> old(Clean()) && now.toWriter == s.toWriter + s.fe.log
    {
      hide MBuf.Log, MBuf.Buffered;
      fe.ModelParts();
      var _ := fe.Resend();
      fe.Reset();
      now := s.(phase := Listen, fe := Buffer.Reset(s.fe), toWriter := writerOut.written);
    }

    /** The client's side of the loop: messages go out until one that asks for an answer. */
    method ForwardRequest(rounds: nat) returns (o: Outcome, left: nat)
      requires Valid() && st.phase.Await?
      modifies this, Parts()
      ensures Valid() && left <= rounds && Added(old(trace), trace, rounds - left, None)
      ensures match o case Done => st.phase.Listen? case Shutdown => st.phase.Ended? case Busy => left == 0
    {
      hide Run, Smooth, Unbroken, Session.Stands, Session.Unfailing, Session.Clean, Session.Now, Session.Wired, Added;
      NothingAdded(trace);
      left := rounds;
      while left > 0
        invariant Valid() && st.phase.Await? && left <= rounds && Added(old(trace), trace, rounds - left, None)
      {
        ghost var t0, n := trace, rounds - left;
        left := left - 1;
        var rc := RecvFe();
        AddedMore(old(trace), t0, trace, n, 1, None);
        if rc < 0 {
          return Shutdown, left;
        }
        Views();
        var kind := MsgType(fe.Buffered());
        ghost var t1 := trace;
        rc := SendRequest();
        AddedMore(old(trace), t1, trace, n + 1, 1, None);
        if rc != 0 {
          return Shutdown, left;
        }
        if kind == 'X' as int {
          ghost var t2 := trace;
          Goodbye();
          AddedMore(old(trace), t2, trace, n + 1, 1, None);
          return Shutdown, left;
        }
        if kind == 'Q' as int || kind == 'S' as int {
          return Done, left;
        }
      }
      return Busy, left;
    }

    /** The copy sub-protocol: the client's messages go to the backend until 'c' or 'F'. */
    method CopyIn(rounds: nat) returns (o: Outcome, left: nat)
      requires Valid() && st.phase.CopyAwait?
      modifies this, Parts()
      ensures Valid() && left <= rounds && Added(old(trace), trace, rounds - left, None)
      ensures match o case Done => st.phase.Listen? case Shutdown => st.phase.Ended? case Busy => left == 0
    {
      hide Run, Smooth, Unbroken, Session.Stands, Session.Unfailing, Session.Clean, Session.Now, Session.Wired, Added;
      NothingAdded(trace);
      left := rounds;
      while left > 0
        invariant Valid() && st.phase.CopyAwait? && left <= rounds && Added(old(trace), trace, rounds - left, None)
      {
        ghost var t0, n := trace, rounds - left;
        left := left - 1;
        var rc := RecvFe();
        AddedMore(old(trace), t0, trace, n, 1, None);
        if rc < 0 {
          return Shutdown, left;
        }
        Views();
        var kind := MsgType(fe.Buffered());
        ghost var t1 := trace;
        rc := RelayCopy();
        AddedMore(old(trace), t1, trace, n + 1, 1, None);
        if rc != 0 {
          return Shutdown, left;
        }
        if kind == 'c' as int || kind == 'F' as int {
          return Done, left;
        }
      }
      return Busy, left;
    }

    /** A reply is passed on through its ReadyForQuery; a refusal of the reader's is drained, for at most `watch`
        messages, and the request replayed to the writer. */
    method ReplyLoop(rounds: nat, watch: nat) returns (o: Outcome, left: nat)
      requires Valid() && st.phase.Listen?
      modifies this, Parts()
      ensures Valid() && left <= rounds && Added(old(trace), trace, rounds - left, Some(watch))
      ensures match o
              case Done => st.phase.Top?
              case Shutdown => st.phase.Ended?
              case Busy => left == 0 || st.phase.Purging?
    {
      hide Run, Smooth, Unbroken, Session.Stands, Session.Unfailing, Session.Clean, Session.Now, Session.Wired, Added;
      NothingAdded(trace);
      left := rounds;
      while left > 0
        invariant Valid() && st.phase.Listen? && left <= rounds && Added(old(trace), trace, rounds - left, Some(watch))
      {
        ghost var t0, n := trace, left;
        var more;
        more, o, left := Answer(left, watch);
        AddedMore(old(trace), t0, trace, rounds - n, n - left, Some(watch));
        if !more {
          return;
        }
      }
      return Busy, left;
    }

    /** One turn of that loop; without `more` it was the last. */
    method Answer(rounds: nat, watch: nat) returns (more: bool, o: Outcome, left: nat)
      requires Valid() && st.phase.Listen? && rounds > 0
      modifies this, Parts()
      ensures Valid() && left < rounds && Added(old(trace), trace, rounds - left, Some(watch))
      ensures more ==> st.phase.Listen?
      ensures !more ==>
                match o
                case Done => st.phase.Top?
                case Shutdown => st.phase.Ended?
                case Busy => left == 0 || st.phase.Purging?
    {
      hide Run, Smooth, Unbroken, Session.Stands, Session.Unfailing, Session.Clean, Session.Now, Session.Wired,
           MBuf.Buffered, MBuf.Model, Refusal, Buf.Ok, Buf.Start, Added, MsgType;
      left := rounds - 1;
      NothingAdded(trace);
      Views();
      var rc := RecvBe();
      AddedMore(old(trace), old(trace), trace, 0, 1, Some(watch));
      if rc < 0 {
        return false, Shutdown, left;
      }
      Views();
      var kind, refused := LookAtReply();
      ghost var t1 := trace;
      if refused {
        var busy := Redirect(watch);
        AddedMore(old(trace), t1, trace, 1, 1, Some(watch));
        return !busy, Busy, left;
      }
      rc := RelayReply();
      AddedMore(old(trace), t1, trace, 1, 1, Some(watch));
      if rc != 0 {
        return false, Shutdown, left;
      }
      if kind == 'G' as int {
        ghost var t2 := trace;
        o, left := CopyIn(left);
        AddedMore(old(trace), t2, trace, 1, rounds - 1 - left, Some(watch));
        return o == Done, o, left;
      }
      return kind != 'Z' as int, Done, left;
    }

    method LookAtReply() returns (kind: int, refused: bool)
      requires be.Valid()
      ensures kind == MsgType(be.Buffered()) && (refused <==> befd == Reader && Refusal(be.Buffered()))
    {
      kind := MsgType(be.Buffered());
      var err := be.IsError(Some(READ_ONLY));
      refused := err == 0 && befd == Reader;
    }

    /** The reader refuses: the rest of its reply is dropped, and the request replayed. */
    method Redirect(watch: nat) returns (busy: bool)
      requires Valid() && st.phase.Judge? && befd == Reader && Refusal(be.Buffered())
      modifies this, Parts()
      ensures Valid() && Added(old(trace), trace, 1, Some(watch))
      ensures if busy then st.phase.Purging? else st.phase.Listen?
    {
      hide Run, Smooth, Unbroken, Session.Stands, Session.Unfailing, Session.Clean, Session.Now, Session.Wired,
           MBuf.Buffered, Refusal, Buf.Ok, Added;
      Views();
      busy := DrainReader(watch);
      if !busy {
        ghost var t1 := trace;
        ResendToWriter();
        AddedMore(old(trace), t1, trace, 1, 1, Some(watch));
      }
    }

    /** The session loop, watched for as many messages as asked for. */
    method HandleClient(rounds: nat)
      requires Valid() && st.phase.Top?
      modifies this, Parts()
      // it makes a run of the machine, and every stream, buffer and variable is where that run leads ...
      ensures Valid() && Added(old(trace), trace, 0, Some(rounds)) && Obeys(Paces(), s0, trace)
      ensures At(Paces(), s0, trace) == Now(st.phase, st.source)
      // ... until it ends, or for as long as it is watched
      ensures st.phase.Ended? || st.phase.Purging? || |trace| >= |old(trace)| + rounds
      // unless a descriptor failed, every act of the run is done as it should, but for what `writen` puts out when it
      // writes short
      ensures Unfailing() ==> Unbroken(trace)
      ensures Clean() ==> Smooth(trace)
    {
      hide Run, Smooth, Unbroken, Session.Stands, Session.Unfailing, Session.Clean, Session.Now, Session.Wired, Added;
      var left := rounds;
      NothingAdded(trace);
      while left > 0
        invariant Valid() && st.phase.Top? && left <= rounds && Added(old(trace), trace, rounds - left, Some(rounds))
      {
        var o;
        ghost var t0, n := trace, left;
        o, left := OneTurn(left, rounds);
        AddedMore(old(trace), t0, trace, rounds - n, n - left, Some(rounds));
        if o != Done {
          break;
        }
      }
      LengthAdded(old(trace), trace, rounds - left, Some(rounds));
      ItStands();
    }

    /** One turn of the session loop. */
    method OneTurn(rounds: nat, watch: nat) returns (o: Outcome, left: nat)
      requires Valid() && st.phase.Top? && rounds > 0
      modifies this, Parts()
      ensures Valid() && left < rounds && Added(old(trace), trace, rounds - left, Some(watch))
      ensures match o
              case Done => st.phase.Top?
              case Shutdown => st.phase.Ended?
              case Busy => left == 0 || st.phase.Purging?
    {
      hide Run, Smooth, Unbroken, Session.Stands, Session.Unfailing, Session.Clean, Session.Now, Session.Wired, Added;
      NothingAdded(trace);
      left := rounds - 1;
      StartTurn();
      AddedMore(old(trace), old(trace), trace, 0, 1, Some(watch));
      ghost var t1 := trace;
      o, left := ForwardRequest(left);
      AddedMore(old(trace), t1, trace, 1, rounds - 1 - left, Some(watch));
      if o == Done {
        ghost var t2, n := trace, left;
        o, left := ReplyLoop(left, watch);
        AddedMore(old(trace), t2, trace, rounds - n, n - left, Some(watch));
      }
    }

    lemma ItStands()
      requires Valid()
      ensures Wired(st.source) && At(Paces(), s0, trace) == Now(st.phase, st.source)
      ensures (Unfailing() ==> Unbroken(trace)) && (Clean() ==> Smooth(trace))
    {
      hide Run, Smooth, Unbroken;
    }

    /** `send` on the client's side, from where the session stands. */
    method SendFe(ghost s: State, ghost next: Phase) returns (rc: int, ghost now: State)
      requires Stands(s) && fe.Settled() && |s.fe.held| >= 5 && s.fe.Ok()
      modifies fe`start, fe`fill, fe`cache, fe`cacheFaults, fe.buf, clientIn, Out(befd)
      ensures now.phase == (if rc != 0 then Ended else next) && Stands(now) && Sends(s, now)
      ensures Unfailing() ==> old(Unfailing()) && rc == 0 && SameButSent(now, Sent(s, next, clientIn.pace))
      ensures Clean() ==> old(Clean()) && now == Sent(s, next, clientIn.pace)
    {
      hide Buffer.Send, Front, EndsIn, Buf.Ok, Buf.All, Sends, Sent, SameButSent, Session.Unfailing, Session.Clean,
           Session.Now, Session.Wired;
      BefdIs(s);
      ghost var w := Out(befd).written;
      rc, now := SendOut(s, next);
      SendsWritten(s, now, w, Out(befd).written, clientIn.pace);
    }

    lemma BefdIs(s: State)
      requires Stands(s)
      ensures Out(befd).written == (if s.befd == Reader then s.toReader else s.toWriter) && s.befd == befd
    {
    }

    method SendOut(ghost s: State, ghost next: Phase) returns (rc: int, ghost now: State)
      requires Stands(s) && fe.Settled() && |s.fe.held| >= 5 && s.fe.Ok()
      modifies fe`start, fe`fill, fe`cache, fe`cacheFaults, fe.buf, clientIn, Out(befd)
      ensures var after := Out(befd).written;
              && now == (if s.befd == Reader then s.(phase := now.phase, fe := now.fe, toReader := after)
                         else s.(phase := now.phase, fe := now.fe, toWriter := after))
              && old(Out(befd).written) <= after && EndsIn(s.fe.All(), now.fe.All())
              && now.phase == (if rc != 0 then Ended else next) && (now.phase.Ended? || now.fe.Ok()) && Stands(now)
      ensures Unfailing() ==> old(Unfailing()) && rc == 0 && now.fe == Buffer.Send(s.fe, clientIn.pace)
      ensures Clean() ==>
                old(Clean()) && Unfailing() && Out(befd).written == old(Out(befd).written) + Front(s.fe.All())
    {
      hide Buffer.Send, Front, HasFrame, EndsIn, Buf.Ok, Buf.Start, Buf.All, MBuf.Log, MBuf.Buffered, MBuf.Logical,
           Session.Faults, Session.Torn, Session.Unfailing, Session.Clean;
      fe.ModelParts();
      rc := SendFront(fe);
      Counted(Out(befd));
      fe.ModelParts();
      now := Now(if rc != 0 then Ended else next, s.source);
      if !now.phase.Ended? {
        fe.ModelOk();
      }
    }
  }

  /** What should come of the act has come, but for what a short `writen` call put out to the backends. */
  predicate Tears(a: Act, d: State, now: State)
  {
    now == d || ((a.Request? || a.Failover?) && SameButSent(now, d))
  }

  predicate SameButSent(now: State, d: State)
  {
    now == d.(toReader := now.toReader, toWriter := now.toWriter)
  }

  function ResultOf(a: Act, d: State, now: State): (r: Trace.Result)
    ensures Tears(a, d, now) ==> !r.Failed?
    ensures now == d ==> r.Fine?
  {
    if now == d then Fine else if Tears(a, d, now) then Torn(now.toReader, now.toWriter) else Failed(now)
  }

  lemma ResultIs(w: World, s: State, a: Act, now: State)
    requires Allowed(w, s, a) && (now == Trace.Done(w, s, a) || Fails(w, s, a, now))
    ensures var e := Event(a, ResultOf(a, Trace.Done(w, s, a), now)); Possible(w, s, e) && Next(w, s, e) == now
  {
    hide Allowed, Trace.Done, Fails;
  }

  /** What passing a reply on leaves of a state, whatever comes of it. */
  predicate Passes(s: State, s': State)
  {
    && s' == s.(phase := s'.phase, be := s'.be, toClient := s'.toClient) && s'.be.Ok()
    && s.toClient <= s'.toClient <= s.toClient + Front(s.be.All()) && EndsIn(s.be.All(), s'.be.All())
    && (!s'.phase.Ended? ==> HasFrame(s.be.All()))
  }

  /** ... and when nothing fails. */
  function Passed(s: State, next: Phase, pace: Pace): State
    requires s.be.Ok()
  {
    s.(phase := if HasFrame(s.be.All()) then next else Ended, be := Take(s.be, pace),
       toClient := s.toClient + Front(s.be.All()))
  }

  /** The same for the copy sub-protocol. */
  predicate Copies(s: State, s': State)
  {
    && s' == s.(phase := s'.phase, fe := s'.fe, toReader := s'.toReader, toWriter := s'.toWriter) && s'.fe.Ok()
    && s'.fe.log == s.fe.log && EndsIn(s.fe.All(), s'.fe.All())
    && (if s.befd == Reader then
          s'.toWriter == s.toWriter && s.toReader <= s'.toReader <= s.toReader + Front(s.fe.All())
        else
          s'.toReader == s.toReader && s.toWriter <= s'.toWriter <= s.toWriter + Front(s.fe.All()))
    && (!s'.phase.Ended? ==> HasFrame(s.fe.All()))
  }

  function Copied(s: State, next: Phase, pace: Pace): State
    requires s.fe.Ok()
  {
    var s' := s.(phase := if HasFrame(s.fe.All()) then next else Ended, fe := Take(s.fe, pace));
    Trace.Put(s', Front(s.fe.All()), s.befd)
  }

  lemma CopiesWritten(s: State, s': State, before: Bytes, after: Bytes, next: Phase, pace: Pace)
    requires s' == (if s.befd == Reader then s.(phase := s'.phase, fe := s'.fe, toReader := after)
                    else s.(phase := s'.phase, fe := s'.fe, toWriter := after))
    requires before == (if s.befd == Reader then s.toReader else s.toWriter) <= after <= before + Front(s.fe.All())
    requires EndsIn(s.fe.All(), s'.fe.All()) && s.fe.Ok() && s'.fe.Ok() && s'.fe.log == s.fe.log
    requires !s'.phase.Ended? ==> HasFrame(s.fe.All())
    ensures Copies(s, s')
    ensures s'.fe == Take(s.fe, pace) && after == before + Front(s.fe.All())
            && s'.phase == (if HasFrame(s.fe.All()) then next else Ended) ==>
              s' == Copied(s, next, pace)
  {
    hide Take, Front, EndsIn, Buf.All, HasFrame;
  }

  lemma CopyFails(w: World, s: State, s': State)
    requires s.phase.CopyLook? && s.fe.Ok() && s.be.Ok() && |s.fe.held| >= 5 && Copies(s, s')
    requires s'.phase.Ended? || s'.phase == AfterCopy(MsgType(s.fe.held))
    ensures var a := CopyData(Front(s.fe.All()), s.befd);
            && Allowed(w, s, a) && Fails(w, s, a, s')
            && (s' == Copied(s, AfterCopy(MsgType(s.fe.held)), w.client) ==> s' == Trace.Done(w, s, a))
  {
    hide Take, Front, AfterCopy, MsgType, HasFrame;
    EndsInItself(s.be.All());
  }

  predicate Drains(s: State, s': State)
  {
    s' == s.(phase := s'.phase, be := s'.be) && s'.be.Ok() && EndsIn(s.be.All(), s'.be.All())
  }

  function Emptied(s: State, rounds: nat, pace: Pace): State
    requires s.be.Ok()
  {
    var (be, rc) := Buffer.Drain(s.be, 'Z' as int, rounds, pace);
    s.(phase := if rc == 1 then Purging else Drained, be := be)
  }

  lemma DrainFails(w: World, s: State, s': State, rounds: nat)
    requires s.phase.Judge? && s.fe.Ok() && s.be.Ok() && s.befd == Reader && Refusal(s.be.held) && Drains(s, s')
    requires s'.phase.Purging? || s'.phase.Drained?
    ensures var a := Act.Drain(s.be.held, rounds);
            && Allowed(w, s, a) && Fails(w, s, a, s')
            && (s' == Emptied(s, rounds, w.Backend(s.source)) ==> s' == Trace.Done(w, s, a))
  {
    hide Buffer.Drain, Refusal;
    EndsInItself(s.fe.All());
  }

  /** Both sides stand at the writer. */
  function Moved(s: State): State
  {
    s.(befd := Writer, source := Writer, be := s.be.(rest := Rest(s, Writer)), other := Rest(s, Reader))
  }

  lemma FailoverFails(w: World, s: State, s': State)
    requires s.phase.Drained? && s.fe.Ok() && s.be.Ok()
    requires s' == Moved(s).(phase := Listen, fe := Buffer.Reset(s.fe), toWriter := s'.toWriter)
    requires s.toWriter <= s'.toWriter
    ensures var a := Failover(s.fe.log, s.fe.held);
            && Allowed(w, s, a) && Fails(w, s, a, s')
            && (s'.toWriter == s.toWriter + s.fe.log ==> s' == Trace.Done(w, s, a))
            && SameButSent(s', Trace.Done(w, s, a))
  {
    hide QueryStarts, Refusal, Buffer.Send, Hear, Take, Buffer.Drain, MsgType, Front, HasFrame, EndsIn;
    EndsInItself(s.be.All());
    EndsInItself(s.fe.All());
    EndsInRest(s.fe.All(), s.fe.held, s.fe.rest, 0);
    assert [] + s.fe.rest == s.fe.rest;
  }

  lemma ByeFails(w: World, s: State, s': State)
    requires s.phase.Parting? && s.fe.Ok() && s.be.Ok()
    requires s' == s.(phase := Ended, toReader := s'.toReader, toWriter := s'.toWriter)
    requires s.toReader <= s'.toReader <= s.toReader + GOODBYE && s.toWriter <= s'.toWriter <= s.toWriter + GOODBYE
    ensures Allowed(w, s, Bye) && Fails(w, s, Bye, s')
  {
    EndsInItself(s.fe.All());
    EndsInItself(s.be.All());
  }

  lemma HangsUp(w: World, s: State)
    requires s.fe.Ok() && s.be.Ok()
    requires ((s.phase.Look? || s.phase.CopyLook?) && |s.fe.held| < 5) || (s.phase.Judge? && |s.be.held| < 5)
    ensures Allowed(w, s, Hangup) && Trace.Done(w, s, Hangup) == s.(phase := Ended)
  {
  }

  lemma ReplyFails(w: World, s: State, s': State)
    requires s.phase.Judge? && s.fe.Ok() && s.be.Ok() && |s.be.held| >= 5
    requires !(s.befd == Reader && Refusal(s.be.held)) && Passes(s, s')
    requires s'.phase.Ended? || s'.phase == AfterReply(MsgType(s.be.held))
    ensures var a := Reply(Front(s.be.All()), s.source);
            && Allowed(w, s, a) && Fails(w, s, a, s')
            && (s' == Passed(s, AfterReply(MsgType(s.be.held)), w.Backend(s.source)) ==> s' == Trace.Done(w, s, a))
  {
    hide Take, Refusal, Front, AfterReply, MsgType, HasFrame;
    EndsInItself(s.fe.All());
  }

  function Routed(s: State, begins: bool, commits: bool): State
  {
    s.(inTxn := !commits && (begins || s.inTxn), befd := if begins then Writer else s.befd)
  }

  /** What sending leaves of a state, whatever comes of it. */
  predicate Sends(s: State, s': State)
  {
    && s' == s.(phase := s'.phase, fe := s'.fe, toReader := s'.toReader, toWriter := s'.toWriter)
    && s.toReader <= s'.toReader && s.toWriter <= s'.toWriter && EndsIn(s.fe.All(), s'.fe.All())
    && (if s.befd == Reader then s'.toWriter == s.toWriter else s'.toReader == s.toReader)
    && (s'.phase.Ended? || s'.fe.Ok())
  }

  /** ... and when nothing fails. */
  function Sent(s: State, next: Phase, pace: Pace): State
    requires s.fe.Ok()
  {
    Trace.Put(s.(phase := next, fe := Buffer.Send(s.fe, pace)), Front(s.fe.All()), s.befd)
  }

  /** `send`, with a message buffered. */
  method SendFront(m: MBuf) returns (rc: int)
    requires m.Valid() && m.Settled() && |m.Buffered()| >= 5
    modifies m`start, m`fill, m`cache, m`cacheFaults, m.buf, m.infd, m.outfd
    ensures m.Valid() && (rc == 0 ==> m.Settled())
    ensures m.infd.faults <= old(m.infd.faults) && m.outfd.faults <= old(m.outfd.faults)
    ensures m.cacheFaults <= old(m.cacheFaults) && old(m.outfd.torn) <= m.outfd.torn
    ensures EndsIn(old(m.Logical()), m.Logical()) && old(m.outfd.written) <= m.outfd.written
    ensures m.infd.faults == old(m.infd.faults) && m.outfd.faults == old(m.outfd.faults)
            && m.cacheFaults == old(m.cacheFaults) ==>
              && rc == 0 && old(m.Model()).Ok() && m.Model() == Buffer.Send(old(m.Model()), m.infd.pace)
              && (m.outfd.torn == old(m.outfd.torn) ==>
                    m.outfd.written == old(m.outfd.written) + Front(old(m.Logical())))
  {
    hide Buffer.Send, Front, HasFrame, EndsIn, Wrote, Datas, Outs, LastWhole, AllWhole, MBuf.Buffered, MBuf.Logical,
         MBuf.Log;
    ghost var w, g, torn, writes := m.outfd.written, m.outfd.faults, m.outfd.torn, [];
    m.ModelOk();
    rc, writes := m.Send();
    WroteAll(writes, w, m.outfd.written, m.outfd.faults == g, m.outfd.torn == torn);
  }

  lemma WroteAll(writes: seq<Write>, before: Bytes, after: Bytes, ok: bool, untorn: bool)
    requires Wrote(writes, before, after, ok, untorn)
    ensures before <= after && (ok ==> LastWhole(writes)) && (ok && untorn ==> after == before + Datas(writes))
  {
    hide Outs, Datas;
  }

  /** At least `n` events were added; every drain among them was watched for so many messages. */
  predicate Added(before: seq<Event>, after: seq<Event>, n: nat, watch: Option<nat>)
  {
    && before <= after && |after| >= |before| + n
    && forall k | |before| <= k < |after| && after[k].act.Drain? :: watch == Some(after[k].act.rounds)
  }

  lemma NothingAdded(t: seq<Event>)
    ensures forall watch :: Added(t, t, 0, watch)
  {
  }

  lemma AddedMore(a: seq<Event>, b: seq<Event>, c: seq<Event>, n: nat, m: nat, watch: Option<nat>)
    requires Added(a, b, n, watch) && (Added(b, c, m, watch) || Added(b, c, m, None))
    ensures forall k: nat | k <= n + m :: Added(a, c, k, watch)
  {
    assert forall k | |a| <= k < |b| :: c[k] == b[k];
  }

  lemma LengthAdded(a: seq<Event>, b: seq<Event>, n: nat, watch: Option<nat>)
    requires Added(a, b, n, watch)
    ensures |b| >= |a| + n && Added(a, b, 0, watch)
  {
  }

  lemma SendsWritten(s: State, s': State, before: Bytes, after: Bytes, pace: Pace)
    requires s' == (if s.befd == Reader then s.(phase := s'.phase, fe := s'.fe, toReader := after)
                    else s.(phase := s'.phase, fe := s'.fe, toWriter := after))
    requires before == (if s.befd == Reader then s.toReader else s.toWriter) <= after && EndsIn(s.fe.All(), s'.fe.All())
    requires s'.phase.Ended? || s'.fe.Ok()
    requires s.fe.Ok()
    ensures Sends(s, s')
    ensures s'.fe == Buffer.Send(s.fe, pace) ==> SameButSent(s', Sent(s, s'.phase, pace))
    ensures s'.fe == Buffer.Send(s.fe, pace) && after == before + Front(s.fe.All()) ==> s' == Sent(s, s'.phase, pace)
  {
    hide Buffer.Send, Front, EndsIn, Buf.All;
  }

  /** The request that the buffered message makes. */
  function RequestOf(s: State): (a: Act)
    ensures a.Request?
  {
    var begins := QueryStarts(s.fe.held, BEGIN);
    Request(Front(s.fe.All()), s.fe.held, if begins then Writer else s.befd, begins, QueryStarts(s.fe.held, COMMIT))
  }

  lemma RequestFails(w: World, s: State, s': State)
    requires s.phase.Look? && s.fe.Ok() && s.be.Ok() && |s.fe.held| >= 5
    requires var a := RequestOf(s); Sends(Routed(s, a.begins, a.commits), s')
    requires s'.phase.Ended? || s'.phase == AfterRequest(MsgType(s.fe.held))
    ensures Allowed(w, s, RequestOf(s)) && Fails(w, s, RequestOf(s), s')
    ensures var a := RequestOf(s);
            && Sent(Routed(s, a.begins, a.commits), AfterRequest(MsgType(s.fe.held)), w.client) == Trace.Done(w, s, a)
  {
    hide Buffer.Send, QueryStarts, Front, AfterRequest, MsgType;
    EndsInItself(s.be.All());
  }

  lemma HearClientFails(w: World, s: State, s': State)
    requires Allowed(w, s, HearClient) && s' == s.(phase := Ended, fe := s'.fe)
    requires EndsIn(s.fe.All(), s'.fe.All()) && s'.fe.log == s.fe.log
    ensures Fails(w, s, HearClient, s')
  {
    hide Hear;
    EndsInItself(s.be.All());
  }

  lemma HearBackendFails(w: World, s: State, s': State)
    requires Allowed(w, s, HearBackend) && s' == s.(phase := Ended, be := s'.be)
    requires EndsIn(s.be.All(), s'.be.All())
    ensures Fails(w, s, HearBackend, s')
  {
    hide Hear;
    EndsInItself(s.fe.All());
  }

  /** When no descriptor fails, however short the writes are: the client has got exactly the replies that were passed
      on, the log is exactly what was requested since the last failover, and every octet of the client's is accounted
      for. */
  lemma UnfailingSession(S: Session)
    requires S.Valid() && S.Unfailing() && S.s0.fe.log == []
    ensures S.clientOut.written == S.s0.toClient + Runs.Replied(S.trace, 0, |S.trace|)
    ensures S.fe.Log() == Runs.Logged(S.trace)
    ensures S.s0.fe.All() == Runs.TakenAll(S.trace) + S.fe.Logical()
  {
    hide Run, Smooth, Unbroken, Runs.Replied, Runs.Logged, Runs.TakenAll;
    var w, t := S.Paces(), S.trace;
    assert t[..0] == [] && t[..|t|] == t;
    RunNothing(w, S.s0);
    Runs.ClientGetsReplies(w, S.s0, t, 0, |t|);
    Runs.LogIsRequests(w, S.s0, t);
    Runs.ClientAccount(w, S.s0, t);
    S.fe.ModelParts();
  }

  /** A session in which nothing failed has come from `s` after `k` events, and was watched for `n` more. */
  ghost predicate Observed(S: Session, k: nat, s: State, n: nat)
    reads S, S.Parts()
  {
    && S.Valid() && S.Clean() && k <= |S.trace| && Run(S.Paces(), S.s0, S.trace[..k]) == Some(s)
    && Turns.Watched(S.trace, k, n) && (k + n <= |S.trace| || Turns.Over(S.st))
  }

  /** Where it must have been, by what the machine does; so all of its outputs begin with what they were there. */
  lemma ComesBy(S: Session, k: nat, s: State, n: nat, s': State)
    requires Observed(S, k, s, n) && Turns.Leads(S.Paces(), s, n, s') && !s'.phase.Purging?
    ensures s'.toReader <= S.readerOut.written && s'.toWriter <= S.writerOut.written
    ensures s'.toClient <= S.clientOut.written
    ensures exists m | k <= m <= |S.trace| :: Run(S.Paces(), S.s0, S.trace[..m]) == Some(s')
  {
    hide Run, Smooth, Unbroken, Turns.Leads, Turns.Watched;
    S.ItStands();
    Turns.EveryRunPasses(S.Paces(), S.s0, S.trace, k, n, s');
    var m :| k <= m <= |S.trace| && Obeys(S.Paces(), S.s0, S.trace[..m]) && At(S.Paces(), S.s0, S.trace[..m]) == s';
    Runs.OutputsGrow(S.Paces(), S.s0, S.trace, m);
  }

  /** A request that the reader refuses, from the descriptors' point of view: whatever else the session does, the
      reader has next been sent the request, the writer the log and then the same request, and the client nothing of
      the refusal, but the writer's reply, if nothing had been read behind the refusal when it was drained. */
  lemma RequestReplayed(S: Session, k: nat, s: State, asks: seq<Bytes>, more: Bytes, refusal: seq<Bytes>,
                        later: Bytes, reply: seq<Bytes>, rest: Bytes, n: nat)
    requires n == 4 + 2 * |asks| + |refusal| + 2 * |reply| && Observed(S, k, s, n)
    requires Turns.AboutToAsk(S.Paces(), s, asks, more) && Turns.WillRefuse(S.Paces(), s, refusal, later)
    requires Turns.IsPlain(reply, Writer) && Rest(s, Writer) == Flatten(reply) + rest
    ensures s.toReader + Flatten(asks) <= S.readerOut.written
    ensures s.toWriter + (s.fe.log + Flatten(asks)) <= S.writerOut.written
    ensures s.be.Ok()
    ensures Turns.Stale(S.Paces(), s, refusal) == [] ==> s.toClient + Flatten(reply) <= S.clientOut.written
  {
    hide Observed, Turns.Leads, Turns.Over, Turns.AboutToAsk, Turns.WillRefuse, Turns.Stale, Turns.IsPlain, Flatten;
    var s1, s2 := Turns.ReplayComesTo(S.Paces(), s, asks, more, refusal, later, reply, rest);
    ComesBy(S, k, s, n, s1);
    ComesBy(S, k, s, n, s2);
  }

  /** Watching a session for that long is enough. */
  lemma WatchedFor(before: seq<Event>, after: seq<Event>, rounds: nat, n: nat)
    requires Added(before, after, 0, Some(rounds)) && n <= rounds
    ensures |before| <= |after| && after[..|before|] == before && Turns.Watched(after, |before|, n)
  {
  }

  /** Where the session loop comes by when it is run for so many messages; and if that is an end, where it ends. */
  method HandleUntil(S: Session, rounds: nat, ghost n: nat, ghost s': State)
    requires S.Valid() && S.st.phase.Top?
    requires Turns.Leads(S.Paces(), S.st, n, s') && !s'.phase.Purging? && n <= rounds
    modifies S, S.Parts()
    ensures S.Valid()
    ensures S.Clean() ==> s'.toReader <= S.readerOut.written && s'.toWriter <= S.writerOut.written
    ensures S.Clean() ==> s'.toClient <= S.clientOut.written
    ensures S.Clean() && s'.phase.Ended? ==> S.st == s'
  {
    hide Run, Smooth, Unbroken, Turns.Leads, Turns.Watched, Session.Stands, Session.Unfailing, Session.Clean, Added;
    ghost var s, t := S.st, S.trace;
    S.ItStands();
    S.HandleClient(rounds);
    WatchedFor(t, S.trace, rounds, n);
    if S.Clean() {
      assert Observed(S, |t|, s, n);
      ComesBy(S, |t|, s, n, s');
      if s'.phase.Ended? {
        EndsThere(S, |t|, s');
      }
    }
  }

  lemma EndsThere(S: Session, k: nat, s': State)
    requires S.Valid() && s'.phase.Ended?
    requires exists m | k <= m <= |S.trace| :: Run(S.Paces(), S.s0, S.trace[..m]) == Some(s')
    ensures S.st == s'
  {
    hide Run, Smooth, Unbroken, Session.Stands, Session.Unfailing, Session.Clean;
    var m :| k <= m <= |S.trace| && Run(S.Paces(), S.s0, S.trace[..m]) == Some(s');
    if m < |S.trace| {
      Turns.AllowedAt(S.Paces(), S.s0, S.trace, m);
      Runs.NothingAfterPurging(S.Paces(), s', S.trace[m].act);
    } else {
      assert S.trace[..m] == S.trace;
    }
  }

  /** So it is with a request that the reader refuses ... */
  method HandleRefusal(S: Session, rounds: nat, ghost asks: seq<Bytes>, ghost more: Bytes, ghost refusal: seq<Bytes>,
                       ghost later: Bytes, ghost reply: seq<Bytes>, ghost rest: Bytes)
    requires S.Valid()
    requires Turns.AboutToAsk(S.Paces(), S.st, asks, more) && Turns.WillRefuse(S.Paces(), S.st, refusal, later)
    requires Turns.IsPlain(reply, Writer) && Rest(S.st, Writer) == Flatten(reply) + rest
    requires rounds >= 4 + 2 * |asks| + |refusal| + 2 * |reply|
    modifies S, S.Parts()
    ensures S.Valid()
    ensures S.Clean() ==> old(S.readerOut.written) + Flatten(asks) <= S.readerOut.written
    ensures S.Clean() ==> old(S.writerOut.written) + (old(S.fe.Log()) + Flatten(asks)) <= S.writerOut.written
    ensures S.Clean() && Turns.Stale(S.Paces(), old(S.st), refusal) == [] ==>
              old(S.clientOut.written) + Flatten(reply) <= S.clientOut.written
  {
    hide Run, Smooth, Unbroken, Turns.Watched, Turns.AboutToAsk, Turns.WillRefuse, Turns.Stale, Turns.IsPlain, Flatten,
         Session.Stands, Session.Unfailing, Session.Clean, Added, MBuf.Log;
    ghost var s, t, n := S.st, S.trace, 4 + 2 * |asks| + |refusal| + 2 * |reply|;
    AsksAtTop(S, asks, more);
    S.HandleClient(rounds);
    WatchedFor(t, S.trace, rounds, n);
    if S.Clean() {
      assert Observed(S, |t|, s, n);
      RequestReplayed(S, |t|, s, asks, more, refusal, later, reply, rest, n);
    }
  }

  /** ... with a copy, which a message of type 'G' starts: the backend it begins with is sent the request and the data,
      the client that message and the reply that follows ... */
  method HandleCopy(S: Session, rounds: nat, ghost asks: seq<Bytes>, ghost frames: seq<Bytes>, ghost more: Bytes,
                    ghost response: Bytes, ghost reply: seq<Bytes>, ghost rest: Bytes)
    requires S.Valid()
    requires Turns.AboutToAsk(S.Paces(), S.st, asks, Flatten(frames) + more) && Turns.CopyOf(frames)
    requires S.st.fe.Ok() && Turns.Roomy(Turns.SentAll(S.st.fe, asks, S.Paces().client))
    requires Message(response) && response[0] == 'G' as int && Turns.IsPlain(reply, Turns.Chosen(S.st))
    requires Turns.ToCome(S.st, Turns.Chosen(S.st)) == response + (Flatten(reply) + rest)
    requires rounds >= 3 + 2 * |asks| + 2 * |frames| + 2 * |reply|
    modifies S, S.Parts()
    ensures S.Valid()
    ensures S.Clean() && !old(S.inTxn) ==>
              old(S.readerOut.written) + (Flatten(asks) + Flatten(frames)) <= S.readerOut.written
    ensures S.Clean() && old(S.inTxn) ==>
              old(S.writerOut.written) + (Flatten(asks) + Flatten(frames)) <= S.writerOut.written
    ensures S.Clean() ==> old(S.clientOut.written) + (response + Flatten(reply)) <= S.clientOut.written
  {
    hide Run, Smooth, Unbroken, Message, Turns.Leads, Turns.AboutToAsk, Turns.CopyOf, Turns.SentAll, Turns.Roomy,
         Turns.IsPlain, Flatten, Session.Stands, Session.Unfailing, Session.Clean, MBuf.Log;
    AsksAtTop(S, asks, Flatten(frames) + more);
    ghost var s' := Turns.TurnCopies(S.Paces(), S.st, asks, frames, more, response, reply, rest);
    HandleUntil(S, rounds, 3 + 2 * |asks| + 2 * |frames| + 2 * |reply|, s');
  }

  /** ... and with a copy that the reader refuses: only the writer is sent the data. */
  method HandleRefusedCopy(S: Session, rounds: nat, ghost asks: seq<Bytes>, ghost frames: seq<Bytes>, ghost more: Bytes,
                           ghost refusal: seq<Bytes>, ghost later: Bytes, ghost response: Bytes,
                           ghost reply: seq<Bytes>, ghost rest: Bytes)
    requires S.Valid()
    requires Turns.AboutToAsk(S.Paces(), S.st, asks, Flatten(frames) + more) && Turns.CopyOf(frames)
    requires S.st.fe.Ok() && 5 <= S.st.fe.len && Turns.SentAll(S.st.fe, asks, S.Paces().client).held == []
    requires Turns.WillRefuse(S.Paces(), S.st, refusal, later) && S.st.be.Ok()
    requires Turns.Stale(S.Paces(), S.st, refusal) == []
    requires Message(response) && response[0] == 'G' as int && Turns.IsPlain(reply, Writer)
    requires Rest(S.st, Writer) == response + (Flatten(reply) + rest)
    requires rounds >= 6 + 2 * |asks| + |refusal| + 2 * |frames| + 2 * |reply|
    modifies S, S.Parts()
    ensures S.Valid()
    ensures S.Clean() ==> old(S.readerOut.written) + Flatten(asks) <= S.readerOut.written
    ensures S.Clean() ==>
              old(S.writerOut.written) + (old(S.fe.Log()) + Flatten(asks)) + Flatten(frames) <= S.writerOut.written
    ensures S.Clean() ==> old(S.clientOut.written) + (response + Flatten(reply)) <= S.clientOut.written
  {
    hide Run, Smooth, Unbroken, Message, Turns.Leads, Turns.AboutToAsk, Turns.CopyOf, Turns.SentAll, Turns.WillRefuse,
         Turns.Stale, Turns.IsPlain, Flatten, Session.Stands, Session.Unfailing, Session.Clean, MBuf.Log;
    AsksAtTop(S, asks, Flatten(frames) + more);
    ghost var s' := Turns.TurnCopiesToWriter(S.Paces(), S.st, asks, frames, more, refusal, later, response, reply,
                                             rest);
    HandleUntil(S, rounds, 6 + 2 * |asks| + |refusal| + 2 * |frames| + 2 * |reply|, s');
  }

  lemma AsksAtTop(S: Session, asks: seq<Bytes>, more: Bytes)
    requires S.Valid() && Turns.AboutToAsk(S.Paces(), S.st, asks, more)
    ensures S.st.phase.Top? && Run(S.Paces(), S.s0, S.trace) == Some(S.st) && S.st.inTxn == S.inTxn
    ensures S.st.toReader == S.readerOut.written && S.st.toWriter == S.writerOut.written
    ensures S.st.toClient == S.clientOut.written && S.st.fe.log == S.fe.Log()
  {
    hide Run, Smooth, Unbroken, Turns.FindsRoom, Turns.Asks;
  }

  /** A whole session on fresh descriptors, octet by octet: the client asks an empty query, waits for its answer and
      leaves; the reader refuses the query, and the writer answers it. */
  method Serve(clientIn: InFd, readerIn: InFd, writerIn: InFd, clientOut: OutFd, readerOut: OutFd, writerOut: OutFd,
               rounds: nat)
    returns (S: Session)
    requires clientIn != readerIn && clientIn != writerIn && readerIn != writerIn
    requires clientOut != readerOut && clientOut != writerOut && readerOut != writerOut
    requires clientOut.written == readerOut.written == writerOut.written == []
    requires clientIn.unread == ['Q' as int, 0, 0, 0, 5, 0, 'X' as int, 0, 0, 0, 4] && clientIn.pace(11) == 5
    requires readerIn.unread == ['E' as int, 0, 0, 0, 12, 'C' as int, '2' as int, '5' as int, '0' as int, '0' as int,
                                 '6' as int, 0, 0, 'Z' as int, 0, 0, 0, 5, 'I' as int] && readerIn.pace(19) >= 18
    requires writerIn.unread == ['C' as int, 0, 0, 0, 5, 0, 'Z' as int, 0, 0, 0, 5, 'I' as int]
    requires rounds >= 16
    modifies clientIn, readerIn, writerIn, clientOut, readerOut, writerOut
    ensures S.Valid() && fresh(S) && S.clientOut == clientOut && S.readerOut == readerOut && S.writerOut == writerOut
    ensures S.Clean() ==>
              && S.st.phase.Ended?
              && readerOut.written == ['Q' as int, 0, 0, 0, 5, 0, 'X' as int, 0, 0, 0, 4, 'X' as int, 0, 0, 0, 4]
              && writerOut.written == ['Q' as int, 0, 0, 0, 5, 0, 'X' as int, 0, 0, 0, 4]
              && clientOut.written == ['C' as int, 0, 0, 0, 5, 0, 'Z' as int, 0, 0, 0, 5, 'I' as int]
  {
    hide Session.Valid, Turns.Leads, Start, Session.Unfailing, Session.Clean;
    S := new Session(clientIn, readerIn, writerIn, clientOut, readerOut, writerOut);
    ghost var s' := ItIsSaid(S.Paces(), S.st);
    HandleUntil(S, rounds, 16, s');
    OutputsAre(S);
  }

  lemma ItIsSaid(w: World, s: State) returns (s': State)
    requires w.reader(19) >= 18 && w.client(11) == 5
    requires s == Start(['Q' as int, 0, 0, 0, 5, 0, 'X' as int, 0, 0, 0, 4],
                        ['E' as int, 0, 0, 0, 12, 'C' as int, '2' as int, '5' as int, '0' as int, '0' as int,
                         '6' as int, 0, 0, 'Z' as int, 0, 0, 0, 5, 'I' as int],
                        ['C' as int, 0, 0, 0, 5, 0, 'Z' as int, 0, 0, 0, 5, 'I' as int], [], [], [])
    ensures s.phase.Top? && Turns.Leads(w, s, 16, s') && s'.phase.Ended?
    ensures s'.toReader == ['Q' as int, 0, 0, 0, 5, 0, 'X' as int, 0, 0, 0, 4, 'X' as int, 0, 0, 0, 4]
    ensures s'.toWriter == ['Q' as int, 0, 0, 0, 5, 0, 'X' as int, 0, 0, 0, 4]
    ensures s'.toClient == ['C' as int, 0, 0, 0, 5, 0, 'Z' as int, 0, 0, 0, 5, 'I' as int]
  {
    hide Turns.Leads;
    s' := Turns.WholeSession(w, s);
  }

  lemma OutputsAre(S: Session)
    requires S.Valid()
    ensures S.st.toReader == S.readerOut.written && S.st.toWriter == S.writerOut.written
    ensures S.st.toClient == S.clientOut.written
  {
    hide Run, Smooth, Unbroken;
  }
}
