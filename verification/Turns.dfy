/** What the client and the backends get out of a whole turn of the session, when nothing fails and all of them send
    whole messages. The ways in which the reads are short make a difference only where a condition says so: they decide
    how much of a refusal is seen, how much is held of what the reader sends behind it, and whether a message opens
    the temporary file. */
module Turns {
  import opened Wire
  import opened Streams
  import opened Buffer
  import opened ErrorScan
  import opened Trace
  import opened Runs

  /** How long a run takes: as many steps as it has acts, and one more for each message a drain is watched for. */
  function Length(t: seq<Event>): nat
  {
    if t == [] then 0
    else Length(t[..|t| - 1]) + 1 + (if t[|t| - 1].act.Drain? then t[|t| - 1].act.rounds else 0)
  }

  /** A run in which nothing fails leads from the one state to the other, in at most `n` steps. */
  ghost predicate Leads(w: World, s: State, n: nat, s': State)
  {
    exists t :: Smooth(t) && Length(t) <= n && Run(w, s, t) == Some(s')
  }

  /** The same within one turn. */
  ghost predicate Within(w: World, s: State, n: nat, s': State)
  {
    exists t :: Smooth(t) && SameTurn(t, 0, |t|) && Length(t) <= n && Run(w, s, t) == Some(s')
  }

  lemma {:induction false} LengthTwice(t: seq<Event>, u: seq<Event>)
    ensures Length(t + u) == Length(t) + Length(u)
    decreases |u|
  {
    if u == [] {
      assert t + u == t;
    } else {
      LengthTwice(t, u[..|u| - 1]);
      assert (t + u)[..|t + u| - 1] == t + u[..|u| - 1];
    }
  }

  /** There are no more acts than steps, and no drain is watched for longer. */
  lemma {:induction false} LengthBounds(t: seq<Event>, k: nat)
    requires k < |t|
    ensures |t| <= Length(t) && (t[k].act.Drain? ==> t[k].act.rounds <= Length(t))
    decreases |t|
  {
    var init := t[..|t| - 1];
    if k < |t| - 1 {
      LengthBounds(init, k);
    } else if init != [] {
      LengthBounds(init, 0);
    }
  }

  lemma {:induction false} RunTwice(w: World, s: State, t: seq<Event>, u: seq<Event>)
    requires Run(w, s, t).Some?
    ensures Run(w, s, t + u) == Run(w, Run(w, s, t).value, u)
    decreases |u|
  {
    hide Possible, Next;
    if u == [] {
      assert t + u == t;
    } else {
      var init, e := u[..|u| - 1], u[|u| - 1];
      RunTwice(w, s, t, init);
      assert t + u == (t + init) + [e];
      assert (t + u)[..|t + u| - 1] == t + init;
    }
  }

  lemma LeadsTwice(w: World, a: State, n: nat, b: State, m: nat, c: State)
    requires Leads(w, a, n, b) && Leads(w, b, m, c)
    ensures Leads(w, a, n + m, c)
  {
    hide Run, Length;
    var t :| Smooth(t) && Length(t) <= n && Run(w, a, t) == Some(b);
    var u: seq<Event> :| Smooth(u) && Length(u) <= m && Run(w, b, u) == Some(c);
    RunTwice(w, a, t, u);
    LengthTwice(t, u);
    assert Smooth(t + u);
  }

  lemma LeadsBy(w: World, s: State, a: Act)
    requires Allowed(w, s, a)
    ensures Leads(w, s, if a.Drain? then 1 + a.rounds else 1, Done(w, s, a))
  {
    hide Allowed, Done, Fails;
    var t := [Event(a, Fine)];
    assert t[..0] == [];
    assert Run(w, s, []) == Some(s);
    assert Smooth(t) && Length(t) <= (if a.Drain? then 1 + a.rounds else 1);
    assert Run(w, s, t) == Some(Done(w, s, a));
  }

  lemma WithinTwice(w: World, a: State, n: nat, b: State, m: nat, c: State)
    requires Within(w, a, n, b) && Within(w, b, m, c)
    ensures Within(w, a, n + m, c)
  {
    hide Run, Length;
    var t :| Smooth(t) && SameTurn(t, 0, |t|) && Length(t) <= n && Run(w, a, t) == Some(b);
    var u: seq<Event> :| Smooth(u) && SameTurn(u, 0, |u|) && Length(u) <= m && Run(w, b, u) == Some(c);
    RunTwice(w, a, t, u);
    LengthTwice(t, u);
    assert Smooth(t + u) && SameTurn(t + u, 0, |t + u|);
  }

  lemma WithinBy(w: World, s: State, a: Act)
    requires Allowed(w, s, a) && !a.Turn? && !a.Drain?
    ensures Within(w, s, 1, Done(w, s, a))
  {
    hide Allowed, Done, Fails;
    var t := [Event(a, Fine)];
    assert t[..0] == [];
    assert Run(w, s, []) == Some(s);
    assert Smooth(t) && SameTurn(t, 0, |t|) && Length(t) <= 1;
    assert Run(w, s, t) == Some(Done(w, s, a));
  }

  lemma WithinLeads(w: World, s: State, n: nat, s': State)
    requires Within(w, s, n, s')
    ensures Leads(w, s, n, s')
  {
  }

  /** From `k` on, no drain is watched for less than `n` messages. */
  predicate Watched(t: seq<Event>, k: nat, n: nat)
  {
    forall i | k <= i < |t| && t[i].act.Drain? :: n <= t[i].act.rounds
  }

  /** The session has come to its end, or is still draining. */
  predicate Over(s: State)
  {
    s.phase.Ended? || s.phase.Purging?
  }

  /** Where a run in which nothing fails leads, every such run passes through, if it is watched for so long. */
  lemma EveryRunPasses(w: World, s0: State, t: seq<Event>, k: nat, n: nat, s': State)
    requires Obeys(w, s0, t) && Smooth(t) && k <= |t| && Watched(t, k, n)
    requires k + n <= |t| || Over(At(w, s0, t))
    requires Obeys(w, s0, t[..k]) && Leads(w, At(w, s0, t[..k]), n, s') && !s'.phase.Purging?
    ensures exists m | k <= m <= |t| :: Obeys(w, s0, t[..m]) && At(w, s0, t[..m]) == s'
  {
    hide Run, Allowed, Length, Watched;
    var s, rest := At(w, s0, t[..k]), t[k..];
    var u: seq<Event> :| Smooth(u) && Length(u) <= n && Run(w, s, u) == Some(s');
    assert t == t[..k] + rest;
    RunTwice(w, s0, t[..k], rest);
    LongEnough(w, s, rest, u, t, k, n);
    var m := k + |u|;
    StepAt(w, s, rest, |u|);
    DrainsLonger(t, k, n, u, |u|);
    assert u[..|u|] == u;
    RunFollows(w, s, rest[..|u|], u);
    assert t[..m] == t[..k] + rest[..|u|];
    RunTwice(w, s0, t[..k], rest[..|u|]);
  }

  lemma LongEnough(w: World, s: State, rest: seq<Event>, u: seq<Event>, t: seq<Event>, k: nat, n: nat)
    requires Obeys(w, s, rest) && Obeys(w, s, u) && Smooth(rest) && Smooth(u)
    requires k <= |t| && rest == t[k..] && Watched(t, k, n) && Length(u) <= n
    requires n <= |rest| || Over(At(w, s, rest))
    requires !At(w, s, u).phase.Purging?
    ensures |u| <= |rest|
  {
    hide Run, Allowed, Length, Watched, Possible, Next;
    if u != [] {
      LengthBounds(u, 0);
    }
    if |rest| < |u| {
      var m := |rest|;
      AllowedAt(w, s, u, m);
      NothingAfterPurging(w, At(w, s, u[..m]), u[m].act);
      DrainsLonger(t, k, n, u, m);
      assert rest[..m] == rest;
      RunFollows(w, s, rest, u[..m]);
      assert false;
    }
  }

  lemma DrainsLonger(t: seq<Event>, k: nat, n: nat, u: seq<Event>, m: nat)
    requires k <= |t| && Watched(t, k, n) && Length(u) <= n && m <= |u| && m <= |t| - k
    ensures forall i | 0 <= i < m && u[..m][i].act.Drain? && t[k..][..m][i].act.Drain? ::
              u[..m][i].act.rounds <= t[k..][..m][i].act.rounds
  {
    hide Length;
    forall i | 0 <= i < m && u[..m][i].act.Drain? && t[k..][..m][i].act.Drain?
      ensures u[..m][i].act.rounds <= t[k..][..m][i].act.rounds
    {
      LengthBounds(u, i);
      assert t[k..][..m][i] == t[k + i];
    }
  }

  lemma AllowedAt(w: World, s0: State, t: seq<Event>, n: nat)
    requires Obeys(w, s0, t) && n < |t|
    ensures Obeys(w, s0, t[..n]) && Allowed(w, At(w, s0, t[..n]), t[n].act)
  {
    hide Allowed, Next, Fails;
    StepAt(w, s0, t, n);
  }

  // The client's side.

  /** The client's messages up to one that asks for an answer. */
  predicate Asks(frames: seq<Bytes>)
  {
    && frames != [] && Message(frames[0]) && frames[0][0] != 'X' as int
    && (frames[0][0] == 'Q' as int || frames[0][0] == 'S' as int <==> |frames| == 1)
    && (|frames| > 1 ==> Asks(frames[1..]))
  }

  /** The log leaves room for the header of the next message. */
  predicate Roomy(b: Buf)
  {
    b.Ok() && b.Start() + 5 <= b.len
  }

  /** ... and so it does for each header of some messages that are sent one after the other. */
  predicate FindsRoom(b: Buf, frames: seq<Bytes>, pace: Pace)
    decreases |frames|
  {
    Roomy(b) && (|frames| > 1 ==> FindsRoom(Buffer.Send(Hear(b, pace), pace), frames[1..], pace))
  }

  /** The client's buffer when some messages have been sent. */
  function SentAll(b: Buf, frames: seq<Bytes>, pace: Pace): (b': Buf)
    requires b.Ok()
    ensures b'.Ok()
    decreases |frames|
  {
    if frames == [] then b else SentAll(Buffer.Send(Hear(b, pace), pace), frames[1..], pace)
  }

  /** A message of the client's has gone to the selected backend. */
  predicate Requested(s: State, s': State, f: Bytes, more: Bytes, next: Phase)
  {
    && s' == Trace.Put(s.(phase := next, inTxn := s'.inTxn, fe := s'.fe), f, s.befd)
    && s'.fe.All() == more && s'.fe.log == s.fe.log + f && (s'.inTxn ==> s.inTxn)
    && s'.fe.len == s.fe.len && s'.fe.Ok()
  }

  /** A query that says BEGIN moves the session to the writer, unless it stands there in a transaction. */
  predicate StaysPut(s: State, all: Bytes)
  {
    (s.inTxn && s.befd == Writer) || !QueryStarts(all, BEGIN)
  }

  lemma RequestGoes(w: World, s: State, f: Bytes, more: Bytes) returns (s': State)
    requires s.phase.Await? && s.be.Ok() && Roomy(s.fe) && Message(f) && s.fe.All() == f + more
    requires StaysPut(s, f + more)
    ensures Leads(w, s, 2, s') && Requested(s, s', f, more, AfterRequest(f[0] as int))
    ensures s'.fe == Buffer.Send(Hear(s.fe, w.client), w.client)
    ensures f[0] != 'Q' as int ==> s'.inTxn == s.inTxn
  {
    hide Leads;
    hide Run, Message, Hear, QueryStarts, Roomy, Buffer.Send;
    var s1 := HearsClient(w, s, f, more);
    s' := Says(w, s1, f, more);
    LeadsTwice(w, s, 1, s1, 1, s');
  }

  lemma HearsClient(w: World, s: State, f: Bytes, more: Bytes) returns (s': State)
    requires s.phase.Await? || s.phase.CopyAwait?
    requires s.be.Ok() && Roomy(s.fe) && Message(f) && s.fe.All() == f + more
    ensures Leads(w, s, 1, s')
    ensures s' == s.(phase := if s.phase.Await? then Look else CopyLook, fe := s'.fe)
    ensures s'.fe == Hear(s.fe, w.client)
    ensures s'.fe.All() == s.fe.All() && s'.fe.Start() == s.fe.Start() && s'.fe.log == s.fe.log
    ensures s'.fe.len == s.fe.len && s'.fe.Ok() && |s'.fe.held| >= 5
  {
    hide Run, Hear, QueryStarts;
    LeadsBy(w, s, HearClient);
    s' := Done(w, s, HearClient);
    HearsHeader(s.fe, w.client);
  }

  lemma Says(w: World, s: State, f: Bytes, more: Bytes) returns (s': State)
    requires s.phase.Look? && s.fe.Ok() && s.be.Ok() && |s.fe.held| >= 5 && Message(f) && s.fe.All() == f + more
    requires StaysPut(s, f + more)
    ensures Leads(w, s, 1, s') && Requested(s, s', f, more, AfterRequest(f[0] as int))
    ensures s'.fe == Buffer.Send(s.fe, w.client) && (f[0] != 'Q' as int ==> s'.inTxn == s.inTxn)
  {
    hide Run, QueryStarts, Message, Front, MsgType, Size, Taking;
    MessageTaken(s.fe, f, more, w.client);
    assert s.fe.held <= s.fe.All();
    Unsaid(s, f + more, s.fe.held);
    MessageKind(f);
    OtherKind(s.fe.held, BEGIN);
    OtherKind(s.fe.held, COMMIT);
    var begins := QueryStarts(s.fe.held, BEGIN);
    var a := Request(f, s.fe.held, s.befd, begins, QueryStarts(s.fe.held, COMMIT));
    LeadsBy(w, s, a);
    s' := Done(w, s, a);
  }

  lemma Unsaid(s: State, all: Bytes, view: Bytes)
    requires view <= all && view != [] && StaysPut(s, all)
    ensures QueryStarts(view, BEGIN) ==> s.inTxn && s.befd == Writer
  {
    hide QueryStarts;
    NoticedIff(all, view, BEGIN);
  }

  /** All messages up to one that asks for an answer go to the selected backend. */
  lemma {:induction false} RequestsGo(w: World, s: State, frames: seq<Bytes>, more: Bytes) returns (s': State)
    requires s.phase.Await? && s.be.Ok() && Asks(frames) && FindsRoom(s.fe, frames, w.client)
    requires s.fe.All() == Flatten(frames) + more && StaysPut(s, frames[|frames| - 1] + more)
    ensures Leads(w, s, 2 * |frames|, s') && Requested(s, s', Flatten(frames), more, Listen)
    ensures s.fe.Ok() && s'.fe == SentAll(s.fe, frames, w.client)
    decreases |frames|
  {
    hide Run, Message, QueryStarts, Flatten, Leads, Buf.All, Buf.Ok, Requested, Buffer.Send, Hear, StaysPut;
    var f, next := frames[0], frames[1..];
    FlattenFront(frames);
    Associates(f, Flatten(next), more);
    NotYetBegin(s, f, next, more);
    s' := RequestGoes(w, s, f, Flatten(next) + more);
    if next == [] {
      assert frames == [f];
      FlattenOne(f);
      FlattenNothing(more);
    } else {
      var s1 := s';
      GoesOn(s, s1, f, Flatten(next) + more, next[|next| - 1] + more);
      s' := RequestsGo(w, s1, next, more);
      LeadsTwice(w, s, 2, s1, 2 * |next|, s');
      RequestedTwice(s, s1, s', f, Flatten(next), more);
    }
  }

  lemma FlattenOne(f: Bytes)
    ensures Flatten([f]) == f
  {
    assert [f][..0] == [];
  }

  lemma NotYetBegin(s: State, f: Bytes, next: seq<Bytes>, more: Bytes)
    requires Asks([f] + next) && StaysPut(s, ([f] + next)[|next|] + more)
    ensures StaysPut(s, f + (Flatten(next) + more)) && (next != [] ==> f[0] != 'Q' as int)
  {
    hide QueryStarts, Flatten;
    if next == [] {
      FlattenNothing(more);
    } else {
      MessageInFront(f, Flatten(next) + more);
      OtherKind(f + (Flatten(next) + more), BEGIN);
    }
  }

  lemma MessageKind(f: Bytes)
    requires Message(f)
    ensures |f| >= 5 && 0 < f[0] < 128
  {
  }

  lemma OtherKind(s: Bytes, word: Bytes)
    requires s != [] && 0 < s[0] < 128
    ensures s[0] != 'Q' as int ==> !QueryStarts(s, word)
  {
  }

  lemma GoesOn(s: State, s': State, f: Bytes, rest: Bytes, all: Bytes)
    requires Requested(s, s', f, rest, Await) && s'.inTxn == s.inTxn && StaysPut(s, all)
    ensures s'.fe.All() == rest && s'.be == s.be && s'.phase.Await? && StaysPut(s', all)
  {
  }

  lemma RequestedTwice(s: State, s1: State, s': State, f: Bytes, g: Bytes, more: Bytes)
    requires Requested(s, s1, f, g + more, Await) && Requested(s1, s', g, more, Listen)
    ensures Requested(s, s', f + g, more, Listen)
  {
    hide Buf.All, Buf.Ok;
    Associates(s.fe.log, f, g);
    Associates(s.toReader, f, g);
    Associates(s.toWriter, f, g);
  }

  lemma RoomNow(b: Buf, frames: seq<Bytes>, pace: Pace)
    requires FindsRoom(b, frames, pace)
    ensures Roomy(b)
  {
  }

  /** Messages of any size find room if the log leaves enough for all but the last of them and a header, or if the
      temporary file has the log: what is left of a message that is too long for the buffer is read on the way. */
  lemma {:induction false} RoomSuffices(b: Buf, frames: seq<Bytes>, more: Bytes, pace: Pace)
    requires b.Ok() && Asks(frames) && b.All() == Flatten(frames) + more
    requires 5 <= b.len && (b.cached || b.Start() + |Flatten(frames[..|frames| - 1])| + 5 <= b.len)
    ensures FindsRoom(b, frames, pace)
    decreases |frames|
  {
    hide Message, Flatten, Hear, Buffer.Send, Buf.All;
    var f, next := frames[0], frames[1..];
    if next != [] {
      var b' := Buffer.Send(Hear(b, pace), pace);
      FlattenFront(frames);
      Associates(f, Flatten(next), more);
      SentOn(b, f, Flatten(next) + more, pace);
      FlattenFront(frames[..|frames| - 1]);
      assert frames[..|frames| - 1][1..] == next[..|next| - 1];
      RoomSuffices(b', next, more, pace);
    }
  }

  lemma SentOn(b: Buf, f: Bytes, more: Bytes, pace: Pace)
    requires Roomy(b) && Message(f) && b.All() == f + more
    ensures var b' := Buffer.Send(Hear(b, pace), pace);
            && b'.Ok() && b'.All() == more && b'.len == b.len
            && (b.cached ==> b'.cached) && b'.Start() <= b.Start() + |f|
  {
    hide Hear, Message, Size, Taking, Buf.All;
    MessageInFront(f, more);
    HearsHeader(b, pace);
    MessageTaken(Hear(b, pace), f, more, pace);
    assert Buffer.Send(Hear(b, pace), pace).log == b.log + f;
  }

  /** A session's first message that is read completely before it is sent leaves such room if and only if it has less
      than 16380 octets. */
  lemma LongMessageFillsLog(w: World, s0: State, f: Bytes, more: Bytes, reader: Bytes, writer: Bytes)
    requires s0 == Start(f + more, reader, writer, [], [], []) && Message(f)
    requires |f| <= |Hear(s0.fe, w.client).held|
    ensures Roomy(Buffer.Send(Hear(s0.fe, w.client), w.client)) <==> |f| < 16380
  {
    hide Hearing, Taking, Message, U32;
    var b := Hear(s0.fe, w.client);
    assert [] + (f + more) == f + more;
    MessageKind(f);
    MessageTaken(b, f, more, w.client);
    MessageInFront(f, more);
    FrontOf(b);
  }

  /** When the log leaves no room for a header in the client's buffer, the next read that should hear the client ends
      the session, whatever the client has still to say; and nothing more goes out. */
  lemma FullLogEndsSession(w: World, s: State) returns (s': State)
    requires (s.phase.Await? || s.phase.CopyAwait?) && s.fe.Ok() && s.be.Ok()
    requires s.fe.Start() + 5 > s.fe.len
    ensures Leads(w, s, 2, s') && s'.phase.Ended? && s'.fe.All() == s.fe.All()
    ensures s'.toReader == s.toReader && s'.toWriter == s.toWriter && s'.toClient == s.toClient
  {
    hide Run, Hear, Leads, QueryStarts;
    var s1 := Done(w, s, HearClient);
    assert |s1.fe.held| < 5;
    LeadsBy(w, s, HearClient);
    LeadsBy(w, s1, Hangup);
    s' := Done(w, s1, Hangup);
    LeadsTwice(w, s, 1, s1, 1, s');
  }

  /** So when some header finds no room, the session ends there: what was said before it has gone to the selected
      backend, and nothing of what follows does. */
  lemma {:induction false} RequestsRunOut(w: World, s: State, frames: seq<Bytes>, more: Bytes)
    returns (k: nat, s': State)
    requires s.phase.Await? && s.fe.Ok() && s.be.Ok() && Asks(frames) && !FindsRoom(s.fe, frames, w.client)
    requires s.fe.All() == Flatten(frames) + more && StaysPut(s, frames[|frames| - 1] + more)
    ensures k < |frames| && Leads(w, s, 2 * |frames|, s') && s'.phase.Ended?
    ensures s'.fe.All() == Flatten(frames[k..]) + more && s'.toClient == s.toClient
    ensures var d := Trace.Put(s, Flatten(frames[..k]), s.befd); s'.toReader == d.toReader && s'.toWriter == d.toWriter
    decreases |frames|
  {
    hide Run, Message, QueryStarts, Flatten, Leads, Buf.All, Requested, Buffer.Send, Hear, StaysPut;
    if !Roomy(s.fe) {
      k := 0;
      s' := FullLogEndsSession(w, s);
      assert frames[0..] == frames && frames[..0] == [];
      NoFrames(s);
      LeadsLonger(w, s, 2, 2 * |frames|, s');
    } else {
      var f, next := frames[0], frames[1..];
      FlattenFront(frames);
      Associates(f, Flatten(next), more);
      NotYetBegin(s, f, next, more);
      var s1 := RequestGoes(w, s, f, Flatten(next) + more);
      GoesOn(s, s1, f, Flatten(next) + more, next[|next| - 1] + more);
      k, s' := RequestsRunOut(w, s1, next, more);
      LeadsTwice(w, s, 2, s1, 2 * |next|, s');
      RanOut(s, s1, s', f, frames, k, Flatten(next) + more);
      k := k + 1;
    }
  }

  lemma NoFrames(s: State)
    ensures var d := Trace.Put(s, Flatten([]), s.befd); d.toReader == s.toReader && d.toWriter == s.toWriter
  {
  }

  lemma LeadsLonger(w: World, s: State, n: nat, m: nat, s': State)
    requires Leads(w, s, n, s') && n <= m
    ensures Leads(w, s, m, s')
  {
  }

  lemma RanOut(s: State, s1: State, s': State, f: Bytes, frames: seq<Bytes>, k: nat, rest: Bytes)
    requires frames != [] && f == frames[0] && k < |frames| - 1 && Requested(s, s1, f, rest, Await)
    requires var d := Trace.Put(s1, Flatten(frames[1..][..k]), s1.befd);
             s'.toReader == d.toReader && s'.toWriter == d.toWriter
    ensures frames[1..][k..] == frames[k + 1..] && s1.toClient == s.toClient
    ensures var d := Trace.Put(s, Flatten(frames[..k + 1]), s.befd);
            s'.toReader == d.toReader && s'.toWriter == d.toWriter
  {
    hide Flatten, Buf.All, Buf.Ok;
    FlattenFront(frames[..k + 1]);
    assert frames[..k + 1][1..] == frames[1..][..k];
    Associates(s.toReader, f, Flatten(frames[1..][..k]));
    Associates(s.toWriter, f, Flatten(frames[1..][..k]));
  }

  // The backends' side.

  /** An ErrorResponse with these fields. */
  function ErrorMessage(fields: seq<Field>): Bytes
    requires |Print(fields)| + 4 < 0x100_0000
  {
    Typed('E' as int, Print(fields))
  }

  /** When all of an error is buffered, it is taken for a refusal if and only if its first code starts with 25006;
      what follows it in the buffer makes no difference. */
  lemma RefusalSeenIff(fields: seq<Field>, behind: Bytes, held: Bytes)
    requires Printable(fields) && |Print(fields)| + 4 < 0x100_0000
    requires held == ErrorMessage(fields) + behind
    ensures Refusal(held) <==> FirstCodeIs(fields, READ_ONLY)
  {
    hide Print, Scan, FirstCodeIs, Htonl, Printable;
    var header := ['E' as int] + Htonl(|Print(fields)| + 4);
    assert held == header + Print(fields) + behind;
    ScanFindsFirstCode(header, fields, behind, READ_ONLY);
  }

  /** When only some of it is buffered, it is taken for a refusal if and only if besides that its first code field is
      buffered through the octet behind the code. */
  lemma CutRefusalSeenIff(fields: seq<Field>, held: Bytes)
    requires Printable(fields) && |Print(fields)| + 4 < 0x100_0000
    requires |held| >= 5 && held <= ErrorMessage(fields)
    ensures Refusal(held) <==> FirstCodeIs(fields, READ_ONLY) && CodeAt(fields, 5) + 6 < |held|
  {
    hide Print, Scan, FirstCodeIs, Htonl, ShowsAll, Printable;
    var header := ['E' as int] + Htonl(|Print(fields)| + 4);
    var all := ErrorMessage(fields);
    assert all == header + Print(fields) + [];
    PrintShowsAll(header, fields, []);
    assert held == all[..|held|] && held[0] == 'E' as int;
    ScanCutIff(all, |held|, 5, fields, READ_ONLY);
  }

  /** A message of which the session knows, however little of it is buffered, that it is to be passed on. */
  ghost predicate Passable(f: Bytes, b: Backend)
  {
    && Message(f) && f[0] != 'G' as int
    && (b == Reader && f[0] == 'E' as int ==>
          exists fields :: Printable(fields) && |Print(fields)| + 4 < 0x100_0000 && f == ErrorMessage(fields)
                           && !FirstCodeIs(fields, READ_ONLY))
  }

  /** A reply as whole messages, the last of them the ReadyForQuery, without a CopyInResponse and, from the
      reader, without a refusal. */
  ghost predicate IsPlain(frames: seq<Bytes>, b: Backend)
  {
    && frames != [] && Passable(frames[0], b) && (frames[0][0] == 'Z' as int <==> |frames| == 1)
    && (|frames| > 1 ==> IsPlain(frames[1..], b))
  }

  lemma NoRefusal(f: Bytes, more: Bytes, held: Bytes, b: Backend)
    requires Passable(f, b) && held <= f + more && |held| >= 5
    ensures !(b == Reader && Refusal(held))
  {
    hide Print, Scan, FirstCodeIs, Printable, Message, Size;
    if b == Reader && Refusal(held) {
      RefusedKind(f, more, held);
      var fields :| Printable(fields) && |Print(fields)| + 4 < 0x100_0000 && f == ErrorMessage(fields)
                    && !FirstCodeIs(fields, READ_ONLY);
      ScanPrefix(f + more, |held|, 5, READ_ONLY);
      RefusalSeenIff(fields, more, f + more);
      NotRefused(f, more);
      assert false;
    }
  }

  lemma RefusedKind(f: Bytes, more: Bytes, held: Bytes)
    requires Message(f) && held <= f + more && Refusal(held)
    ensures f[0] == 'E' as int && held == (f + more)[..|held|]
  {
    hide Scan;
    MessageInFront(f, more);
    assert held[0] == (f + more)[0];
  }

  lemma NotRefused(f: Bytes, more: Bytes)
    requires !Refusal(f + more) && Message(f) && f[0] == 'E' as int
    ensures !Scan(f + more, 5, READ_ONLY)
  {
    hide Scan;
    MessageInFront(f, more);
  }

  /** A message has been passed on to the client. */
  predicate Answered(s: State, s': State, f: Bytes, more: Bytes, next: Phase)
  {
    && s' == s.(phase := next, be := s'.be, toClient := s.toClient + f)
    && s'.be.All() == more && s'.be.len == s.be.len && s'.be.Start() == s.be.Start() && s'.be.Ok()
  }

  lemma HearsBackend(w: World, s: State, f: Bytes, more: Bytes) returns (s': State)
    requires s.phase.Listen? && s.fe.Ok() && Roomy(s.be) && Message(f) && s.be.All() == f + more
    ensures Within(w, s, 1, s') && s' == s.(phase := Judge, be := Hear(s.be, w.Backend(s.source)))
    ensures s'.be.All() == s.be.All() && s'.be.Start() == s.be.Start() && s'.be.len == s.be.len && s'.be.Ok()
    ensures |s'.be.held| >= 5
  {
    hide Run, Hear, Refusal;
    WithinBy(w, s, HearBackend);
    s' := Done(w, s, HearBackend);
    HearsHeader(s.be, w.Backend(s.source));
  }

  lemma ReplyGoes(w: World, s: State, f: Bytes, more: Bytes) returns (s': State)
    requires s.phase.Listen? && s.fe.Ok() && Roomy(s.be) && Passable(f, s.befd) && s.be.All() == f + more
    ensures Within(w, s, 2, s') && Answered(s, s', f, more, AfterReply(f[0] as int))
  {
    hide Run, Message, Hear, Refusal, Roomy, Within, FirstCodeIs;
    var s1 := HearsBackend(w, s, f, more);
    NoRefusal(f, more, s1.be.held, s.befd);
    s' := PassesOn(w, s1, f, more);
    WithinTwice(w, s, 1, s1, 1, s');
  }

  lemma PassesOn(w: World, s: State, f: Bytes, more: Bytes) returns (s': State)
    requires s.phase.Judge? && s.fe.Ok() && s.be.Ok() && |s.be.held| >= 5 && Message(f) && s.be.All() == f + more
    requires !(s.befd == Reader && Refusal(s.be.held))
    ensures Within(w, s, 1, s') && Answered(s, s', f, more, AfterReply(f[0] as int))
  {
    hide Run, Refusal, Front, MsgType, Size, Taking;
    MessageTaken(s.be, f, more, w.Backend(s.source));
    MessageInFront(f, more);
    var a := Reply(f, s.source);
    WithinBy(w, s, a);
    s' := Done(w, s, a);
  }

  /** A plain reply reaches the client whole, through its ReadyForQuery, and nothing else does. */
  lemma {:induction false} ReplyPasses(w: World, s: State, frames: seq<Bytes>, more: Bytes) returns (s': State)
    requires s.phase.Listen? && s.fe.Ok() && Roomy(s.be) && IsPlain(frames, s.befd)
    requires s.be.All() == Flatten(frames) + more
    ensures Within(w, s, 2 * |frames|, s') && Answered(s, s', Flatten(frames), more, Top)
    decreases |frames|
  {
    hide Run, Message, Flatten, Within, Buf.All, Passable, Answered;
    var f, next := frames[0], frames[1..];
    FlattenFront(frames);
    Associates(f, Flatten(next), more);
    s' := ReplyGoes(w, s, f, Flatten(next) + more);
    PlainStep(f, s.befd);
    if next == [] {
      assert frames == [f];
      FlattenOne(f);
      FlattenNothing(more);
    } else {
      var s1 := s';
      AnsweredOn(s, s1, f, Flatten(next) + more);
      s' := ReplyPasses(w, s1, next, more);
      WithinTwice(w, s, 2, s1, 2 * |next|, s');
      AnsweredTwice(s, s1, s', f, Flatten(next), more);
    }
  }

  lemma PlainStep(f: Bytes, b: Backend)
    requires Passable(f, b)
    ensures AfterReply(f[0] as int) == if f[0] == 'Z' as int then Top else Listen
  {
  }

  lemma AnsweredOn(s: State, s': State, f: Bytes, more: Bytes)
    requires Answered(s, s', f, more, Listen) && Roomy(s.be)
    ensures s'.phase.Listen? && s'.fe == s.fe && s'.befd == s.befd && Roomy(s'.be) && s'.be.All() == more
  {
  }

  lemma AnsweredTwice(s: State, s1: State, s': State, f: Bytes, g: Bytes, more: Bytes)
    requires Answered(s, s1, f, g + more, Listen) && Answered(s1, s', g, more, Top)
    ensures Answered(s, s', f + g, more, Top)
  {
    hide Buf.All, Buf.Ok;
    Associates(s.toClient, f, g);
  }

  // Whole turns.

  /** The backend that a turn begins with. */
  function Chosen(s: State): Backend
  {
    if s.inTxn then Writer else Reader
  }

  /** Where a turn begins: the client is about to send `asks` and then `more`, and each header of that finds room. */
  predicate AboutToAsk(w: World, s: State, asks: seq<Bytes>, more: Bytes)
  {
    && s.phase.Top? && (s.inTxn ==> s.befd == Writer) && s.be.Ok() && Roomy(s.be)
    && Asks(asks) && s.fe.All() == Flatten(asks) + more && FindsRoom(s.fe, asks, w.client)
    && (s.inTxn || !QueryStarts(asks[|asks| - 1] + more, BEGIN))
  }

  /** What is to come from a backend at the top of a turn, with what is left in the buffer from the turn before. */
  function ToCome(s: State, b: Backend): Bytes
  {
    s.be.held + Rest(s, b)
  }

  /** The session awaits the reply to a request, which has gone to the backend that the turn began with. */
  predicate HasAsked(s: State, s': State, asks: seq<Bytes>, more: Bytes)
  {
    && s'.phase.Listen? && s'.befd == s'.source == Chosen(s) && (s'.inTxn ==> s.inTxn)
    && s' == Trace.Put(s.(phase := Listen, inTxn := s'.inTxn, befd := s'.befd, source := s'.source, fe := s'.fe,
                          be := s.be.(rest := Rest(s, s'.source)), other := Rest(s, Opposite(s'.source))),
                       Flatten(asks), Chosen(s))
    && s'.fe.Ok() && s'.fe.log == s.fe.log + Flatten(asks) && s'.fe.All() == more
  }

  lemma TurnBegins(w: World, s: State, asks: seq<Bytes>, more: Bytes) returns (s': State)
    requires AboutToAsk(w, s, asks, more)
    ensures Leads(w, s, 1 + 2 * |asks|, s') && HasAsked(s, s', asks, more)
    ensures Roomy(s'.be) && s'.be.All() == ToCome(s, Chosen(s))
    ensures s.fe.Ok() && s'.fe == SentAll(s.fe, asks, w.client)
  {
    hide Run, Leads, Asks, QueryStarts, Flatten, FindsRoom, SentAll;
    RoomNow(s.fe, asks, w.client);
    var s1 := ToChosen(w, s);
    s' := RequestsGo(w, s1, asks, more);
    LeadsTwice(w, s, 1, s1, 2 * |asks|, s');
  }

  lemma ToChosen(w: World, s: State) returns (s': State)
    requires s.phase.Top? && (s.inTxn ==> s.befd == Writer) && s.be.Ok() && s.fe.Ok()
    ensures Leads(w, s, 1, s')
    ensures s' == s.(phase := Await, befd := Chosen(s), source := Chosen(s),
                     be := s.be.(rest := Rest(s, Chosen(s))), other := Rest(s, Opposite(Chosen(s))))
  {
    hide Run;
    LeadsBy(w, s, Turn);
    s' := Done(w, s, Turn);
  }

  /** A request that is answered by the backend the turn began with, the reader without a refusal: that backend gets
      exactly the request, the client exactly its reply, and the other backend nothing. */
  lemma TurnAnswered(w: World, s: State, asks: seq<Bytes>, more: Bytes, reply: seq<Bytes>, rest: Bytes)
    returns (s': State)
    requires AboutToAsk(w, s, asks, more) && IsPlain(reply, Chosen(s))
    requires ToCome(s, Chosen(s)) == Flatten(reply) + rest
    ensures Leads(w, s, 1 + 2 * |asks| + 2 * |reply|, s') && s'.phase.Top? && s'.befd == s'.source == Chosen(s)
    ensures s'.inTxn ==> s.inTxn
    ensures s'.toReader == if s.inTxn then s.toReader else s.toReader + Flatten(asks)
    ensures s'.toWriter == if s.inTxn then s.toWriter + Flatten(asks) else s.toWriter
    ensures s'.toClient == s.toClient + Flatten(reply)
    ensures s'.fe.log == s.fe.log + Flatten(asks) && s'.fe.All() == more
    ensures s'.be.All() == rest && s'.other == Rest(s, Opposite(Chosen(s)))
  {
    hide Run, Leads, Asks, IsPlain, QueryStarts, Flatten, FindsRoom, SentAll;
    var s1 := TurnBegins(w, s, asks, more);
    s' := ReplyPasses(w, s1, reply, rest);
    WithinLeads(w, s1, 2 * |reply|, s');
    LeadsTwice(w, s, 1 + 2 * |asks|, s1, 2 * |reply|, s');
  }

  /** The reader sends a refusal whose first message is noticed, and then `later`. */
  predicate WillRefuse(w: World, s: State, refusal: seq<Bytes>, later: Bytes)
  {
    && !s.inTxn && s.be.Ok() && UpTo(refusal, 'Z' as int) && ToCome(s, Reader) == Flatten(refusal) + later
    && Refusal(Hear(s.be.(rest := Rest(s, Reader)), w.reader).held)
  }

  /** What has been read of `later` when the refusal is drained. */
  function Stale(w: World, s: State, refusal: seq<Bytes>): Bytes
    requires s.be.Ok()
  {
    Buffer.Drain(Hear(s.be.(rest := Rest(s, Reader)), w.reader), 'Z' as int, |refusal|, w.reader).0.held
  }

  /** The session awaits the reply of the writer, with `stale` in the buffer for it. */
  predicate HasFailedOver(s: State, s': State, asks: seq<Bytes>, stale: Bytes)
  {
    && s'.phase.Listen? && s'.befd == s'.source == Writer && !s'.inTxn && s'.fe.Ok() && s'.fe.log == []
    && s'.toReader == s.toReader + Flatten(asks) && s'.toClient == s.toClient
    && s'.toWriter == s.toWriter + (s.fe.log + Flatten(asks))
    && Roomy(s'.be) && s'.be.held == stale && s'.be.rest == Rest(s, Writer)
  }

  /** A request that the reader refuses, which the session notices: its whole refusal is dropped, and the writer gets
      exactly what the reader got, behind all that was logged before; so when nothing was logged before, both backends
      got the same octets. What has been read behind the refusal is taken for the front of the writer's reply; what
      has not stays with the reader. */
  lemma TurnFailsOver(w: World, s: State, asks: seq<Bytes>, more: Bytes, refusal: seq<Bytes>, later: Bytes)
    returns (s': State)
    requires AboutToAsk(w, s, asks, more) && WillRefuse(w, s, refusal, later)
    ensures Leads(w, s, 4 + 2 * |asks| + |refusal|, s') && HasFailedOver(s, s', asks, Stale(w, s, refusal))
    ensures Stale(w, s, refusal) + s'.other == later
    ensures s.fe.Ok() && s'.fe == Buffer.Reset(SentAll(s.fe, asks, w.client))
  {
    hide Run, Leads, Asks, QueryStarts, Flatten, Refusal, Hear, UpTo, FindsRoom, SentAll, Buffer.Drain;
    var s1 := TurnBegins(w, s, asks, more);
    s' := FailsOver(w, s1, refusal, later);
    LeadsTwice(w, s, 1 + 2 * |asks|, s1, 3 + |refusal|, s');
  }

  /** ... and the client gets exactly the writer's reply if nothing has been read behind the refusal. */
  lemma TurnReplayed(w: World, s: State, asks: seq<Bytes>, more: Bytes, refusal: seq<Bytes>, later: Bytes,
                     reply: seq<Bytes>, rest: Bytes)
    returns (s': State)
    requires AboutToAsk(w, s, asks, more) && WillRefuse(w, s, refusal, later)
    requires IsPlain(reply, Writer) && Rest(s, Writer) == Flatten(reply) + rest
    requires Stale(w, s, refusal) == []
    ensures Leads(w, s, 4 + 2 * |asks| + |refusal| + 2 * |reply|, s') && s'.phase.Top? && !s'.inTxn && s'.befd == Writer
    ensures s'.toReader == s.toReader + Flatten(asks)
    ensures s'.toWriter == s.toWriter + (s.fe.log + Flatten(asks))
    ensures s'.toClient == s.toClient + Flatten(reply)
    ensures s'.be.All() == rest && s'.other == later && s'.be.Ok()
    ensures s.fe.Ok() && s'.fe == Buffer.Reset(SentAll(s.fe, asks, w.client)) && s'.fe.log == []
  {
    hide Run, Leads, Asks, IsPlain, QueryStarts, Flatten, Refusal, UpTo, WillRefuse, AboutToAsk, Stale, SentAll;
    var s2 := TurnFailsOver(w, s, asks, more, refusal, later);
    ItIsOk(w, s, refusal, later);
    assert [] + s2.be.rest == s2.be.rest && [] + s2.other == s2.other;
    s' := ReplyPasses(w, s2, reply, rest);
    WithinLeads(w, s2, 2 * |reply|, s');
    LeadsTwice(w, s, 4 + 2 * |asks| + |refusal|, s2, 2 * |reply|, s');
  }

  /** The states that such a turn comes to: where the session has failed over, and where the client has its answer. */
  lemma ReplayComesTo(w: World, s: State, asks: seq<Bytes>, more: Bytes, refusal: seq<Bytes>, later: Bytes,
                      reply: seq<Bytes>, rest: Bytes)
    returns (s1: State, s2: State)
    requires AboutToAsk(w, s, asks, more) && WillRefuse(w, s, refusal, later)
    requires IsPlain(reply, Writer) && Rest(s, Writer) == Flatten(reply) + rest
    ensures var n := 4 + 2 * |asks| + |refusal| + 2 * |reply|;
            Leads(w, s, n, s1) && !s1.phase.Purging? && Leads(w, s, n, s2) && !s2.phase.Purging?
    ensures s1.toReader == s.toReader + Flatten(asks) && s1.toWriter == s.toWriter + (s.fe.log + Flatten(asks))
    ensures s.be.Ok() && (Stale(w, s, refusal) == [] ==> s2.toClient == s.toClient + Flatten(reply))
  {
    hide Leads, AboutToAsk, WillRefuse, Stale, IsPlain, Flatten;
    ItIsOk(w, s, refusal, later);
    s1 := TurnFailsOver(w, s, asks, more, refusal, later);
    LeadsLonger(w, s, 4 + 2 * |asks| + |refusal|, 4 + 2 * |asks| + |refusal| + 2 * |reply|, s1);
    s2 := s1;
    if Stale(w, s, refusal) == [] {
      s2 := TurnReplayed(w, s, asks, more, refusal, later, reply, rest);
    }
  }

  lemma ItIsOk(w: World, s: State, refusal: seq<Bytes>, later: Bytes)
    requires WillRefuse(w, s, refusal, later)
    ensures s.be.Ok() && !s.inTxn
  {
  }

  /** Within the turn the client gets exactly `reply` out of a session that awaits it, and `rest` is still to come. */
  ghost predicate Delivers(w: World, s: State, reply: Bytes, rest: Bytes)
  {
    exists t :: Obeys(w, s, t) && Smooth(t) && SameTurn(t, 0, |t|)
                && At(w, s, t).toClient == s.toClient + reply && At(w, s, t).be.All() == rest
  }

  /** Otherwise it does not: the client gets exactly the writer's reply if and only if nothing has been read behind
      the refusal when it is drained. */
  lemma ReplayedExactlyIff(w: World, s: State, asks: seq<Bytes>, more: Bytes, refusal: seq<Bytes>, later: Bytes,
                           reply: seq<Bytes>, rest: Bytes)
    returns (s': State)
    requires AboutToAsk(w, s, asks, more) && WillRefuse(w, s, refusal, later)
    requires IsPlain(reply, Writer) && Rest(s, Writer) == Flatten(reply) + rest
    ensures Leads(w, s, 4 + 2 * |asks| + |refusal|, s') && s.be.Ok()
    ensures HasFailedOver(s, s', asks, Stale(w, s, refusal))
    ensures Delivers(w, s', Flatten(reply), rest) <==> Stale(w, s, refusal) == []
  {
    hide Run, Leads, Asks, IsPlain, QueryStarts, Flatten, Refusal, UpTo, WillRefuse, AboutToAsk, Stale, Delivers;
    ItIsOk(w, s, refusal, later);
    s' := TurnFailsOver(w, s, asks, more, refusal, later);
    if Stale(w, s, refusal) == [] {
      assert [] + s'.be.rest == s'.be.rest;
      ReplyDelivered(w, s', reply, rest);
    } else if Delivers(w, s', Flatten(reply), rest) {
      StaleDelivered(w, s', Flatten(reply), rest);
      assert false;
    }
  }

  lemma ReplyDelivered(w: World, s: State, reply: seq<Bytes>, rest: Bytes)
    requires s.phase.Listen? && s.fe.Ok() && Roomy(s.be) && IsPlain(reply, s.befd)
    requires s.be.All() == Flatten(reply) + rest
    ensures Delivers(w, s, Flatten(reply), rest)
  {
    hide Run, IsPlain, Flatten, Length;
    var s' := ReplyPasses(w, s, reply, rest);
    var t :| Smooth(t) && SameTurn(t, 0, |t|) && Length(t) <= 2 * |reply| && Run(w, s, t) == Some(s');
  }

  /** What is in the buffer goes to the client before anything that is still to come. */
  lemma StaleDelivered(w: World, s: State, reply: Bytes, rest: Bytes)
    requires Delivers(w, s, reply, rest) && s.phase.Listen? && s.befd == Writer && s.be.rest == reply + rest
    ensures s.be.held == []
  {
    hide Run, Replied;
    var t :| Obeys(w, s, t) && Smooth(t) && SameTurn(t, 0, |t|)
             && At(w, s, t).toClient == s.toClient + reply && At(w, s, t).be.All() == rest;
    assert t[..|t|] == t && t[..0] == [];
    RunNothing(w, s);
    ClientGetsReplies(w, s, t, 0, |t|);
    assert |reply| == |Replied(t, 0, |t|)|;
    WriterPassesAll(w, s, t, |t|);
    assert |s.be.All()| == |reply| + |rest|;
  }

  /** In a turn that stands at the writer nothing is drained: all that is taken off is passed on. */
  lemma {:induction false} WriterPassesAll(w: World, s: State, t: seq<Event>, k: nat)
    requires Obeys(w, s, t) && Smooth(t) && SameTurn(t, 0, |t|) && k <= |t|
    requires s.phase.Listen? && s.befd == Writer
    ensures Obeys(w, s, t[..k]) && At(w, s, t[..k]).befd == Writer && !At(w, s, t[..k]).phase.Drained?
    ensures s.be.All() == Replied(t, 0, k) + At(w, s, t[..k]).be.All()
    decreases k
  {
    hide Possible, Next, Buf.All, Run;
    StepAt(w, s, t, k);
    if k == 0 {
      RunNothing(w, s);
      assert t[..0] == [] && [] + s.be.All() == s.be.All();
    } else {
      WriterPassesAll(w, s, t, k - 1);
      StepAt(w, s, t, k - 1);
      var s1, e := At(w, s, t[..k - 1]), t[k - 1];
      RoutingStep(w, s1, e);
      DrainsReader(w, s1, e);
      PassesOne(w, s1, e);
      Associates(Replied(t, 0, k - 1), if e.act.Reply? then e.act.frame else [], At(w, s, t[..k]).be.All());
    }
  }

  lemma PassesOne(w: World, s: State, e: Event)
    requires Possible(w, s, e) && e.result.Fine? && !e.act.Turn? && !e.act.Failover? && !e.act.Drain?
    ensures s.be.All() == (if e.act.Reply? then e.act.frame else []) + Next(w, s, e).be.All()
  {
    hide Allowed, Done, Buf.All;
    ReplyStep(w, s, e.act);
  }

  /** From a refusal to the point where the writer's reply is awaited. */
  lemma FailsOver(w: World, s: State, refusal: seq<Bytes>, later: Bytes) returns (s': State)
    requires s.phase.Listen? && s.befd == s.source == Reader && s.fe.Ok() && Roomy(s.be)
    requires UpTo(refusal, 'Z' as int) && s.be.All() == Flatten(refusal) + later && Refusal(Hear(s.be, w.reader).held)
    ensures Leads(w, s, 3 + |refusal|, s') && s'.phase.Listen? && s'.befd == s'.source == Writer && s'.inTxn == s.inTxn
    ensures s'.fe == Buffer.Reset(s.fe) && s'.toWriter == s.toWriter + s.fe.log
    ensures s'.toReader == s.toReader && s'.toClient == s.toClient
    ensures s'.be.held == Buffer.Drain(Hear(s.be, w.reader), 'Z' as int, |refusal|, w.reader).0.held
    ensures s'.be.rest == s.other && s'.be.held + s'.other == later && Roomy(s'.be)
  {
    hide Run, Leads, Flatten, Refusal, Hear, UpTo, Message, Buffer.Drain;
    FrontRefuses(refusal);
    Associates(refusal[0], Flatten(refusal[1..]), later);
    var s1 := HearsBackend(w, s, refusal[0], Flatten(refusal[1..]) + later);
    WithinLeads(w, s, 1, s1);
    var s2 := DrainsRefusal(w, s1, refusal, later);
    LeadsTwice(w, s, 1, s1, 1 + |refusal|, s2);
    s' := GoesToWriter(w, s2);
    LeadsTwice(w, s, 2 + |refusal|, s2, 1, s');
  }

  lemma FrontRefuses(refusal: seq<Bytes>)
    requires UpTo(refusal, 'Z' as int)
    ensures refusal != [] && Message(refusal[0]) && Flatten(refusal) == refusal[0] + Flatten(refusal[1..])
  {
    hide Message, Flatten;
    FlattenFront(refusal);
  }

  lemma DrainsRefusal(w: World, s: State, refusal: seq<Bytes>, later: Bytes) returns (s': State)
    requires s.phase.Judge? && s.befd == s.source == Reader && s.fe.Ok() && s.be.Ok() && |s.be.held| >= 5
    requires UpTo(refusal, 'Z' as int) && s.be.All() == Flatten(refusal) + later && Refusal(s.be.held)
    ensures Leads(w, s, 1 + |refusal|, s')
    ensures s' == s.(phase := Drained, be := Buffer.Drain(s.be, 'Z' as int, |refusal|, w.reader).0)
    ensures s'.be.All() == later && s'.be.len == s.be.len && s'.be.Start() == s.be.Start()
  {
    hide Run, Flatten, Refusal, UpTo, Buffer.Drain;
    var a := Act.Drain(s.be.held, |refusal|);
    DrainsThrough(s.be, refusal, later, 'Z' as int, |refusal|, w.reader);
    DrainKeepsLength(s.be, 'Z' as int, |refusal|, w.reader);
    LeadsBy(w, s, a);
    s' := Done(w, s, a);
  }

  lemma {:induction false} DrainKeepsLength(b: Buf, until: int, rounds: nat, pace: Pace)
    requires b.Ok()
    ensures Buffer.Drain(b, until, rounds, pace).0.len == b.len
    decreases rounds
  {
    hide Take, Hear, MsgType, Buf.Ok;
    if rounds > 0 && MsgType(b.held) >= 0 && MsgType(b.held) != until {
      DrainKeepsLength(Hear(Take(b, pace), pace), until, rounds - 1, pace);
    }
  }

  lemma GoesToWriter(w: World, s: State) returns (s': State)
    requires s.phase.Drained? && s.source == Reader && s.fe.Ok() && s.be.Ok()
    ensures Leads(w, s, 1, s') && s'.phase.Listen? && s'.befd == s'.source == Writer && s'.inTxn == s.inTxn
    ensures s'.fe == Buffer.Reset(s.fe) && s'.toWriter == s.toWriter + s.fe.log
    ensures s'.toReader == s.toReader && s'.toClient == s.toClient
    ensures s'.be == s.be.(rest := s.other) && s'.other == s.be.rest
  {
    hide Run;
    var a := Failover(s.fe.log, s.fe.held);
    LeadsBy(w, s, a);
    s' := Done(w, s, a);
  }

  // The copy sub-protocol.

  predicate EndsCopy(f: Bytes)
    requires f != []
  {
    f[0] == 'c' as int || f[0] == 'F' as int
  }

  /** Whole messages of the client's, of which at most the last ends the copy. */
  predicate Copying(frames: seq<Bytes>)
  {
    && frames != [] && Message(frames[0]) && (|frames| > 1 ==> !EndsCopy(frames[0]) && Copying(frames[1..]))
  }

  /** Data of the copy sub-protocol has gone to the selected backend and was not logged. */
  predicate CopiedTo(s: State, s': State, data: Bytes, more: Bytes, next: Phase)
  {
    && s' == Trace.Put(s.(phase := next, fe := s'.fe), data, s.befd)
    && s'.fe.All() == more && s'.fe.log == s.fe.log
    && s'.fe.len == s.fe.len && s'.fe.Start() == s.fe.Start() && s'.fe.Ok()
  }

  lemma CopyGoes(w: World, s: State, f: Bytes, more: Bytes) returns (s': State)
    requires s.phase.CopyAwait? && s.be.Ok() && Roomy(s.fe) && Message(f) && s.fe.All() == f + more
    ensures Leads(w, s, 2, s') && CopiedTo(s, s', f, more, AfterCopy(f[0] as int))
  {
    hide Leads;
    hide Run, Message, Hear, QueryStarts, Roomy;
    var s1 := HearsClient(w, s, f, more);
    s' := CopiesOn(w, s1, f, more);
    LeadsTwice(w, s, 1, s1, 1, s');
  }

  lemma CopiesOn(w: World, s: State, f: Bytes, more: Bytes) returns (s': State)
    requires s.phase.CopyLook? && s.fe.Ok() && s.be.Ok() && |s.fe.held| >= 5 && Message(f) && s.fe.All() == f + more
    ensures Leads(w, s, 1, s') && CopiedTo(s, s', f, more, AfterCopy(f[0] as int))
  {
    hide Run, Front, MsgType, Size, Taking;
    MessageTaken(s.fe, f, more, w.client);
    MessageInFront(f, more);
    var a := CopyData(f, s.befd);
    LeadsBy(w, s, a);
    s' := Done(w, s, a);
  }

  /** Exactly the client's messages through the first of type 'c' or 'F' go to the backend, and the copy ends behind
      that one; as long as there was none, it goes on. */
  lemma {:induction false} CopyPasses(w: World, s: State, frames: seq<Bytes>, more: Bytes) returns (s': State)
    requires s.phase.CopyAwait? && s.be.Ok() && Roomy(s.fe) && Copying(frames)
    requires s.fe.All() == Flatten(frames) + more
    ensures Leads(w, s, 2 * |frames|, s') && frames[|frames| - 1] != []
    ensures CopiedTo(s, s', Flatten(frames), more, if EndsCopy(frames[|frames| - 1]) then Listen else CopyAwait)
    decreases |frames|
  {
    hide Run, Message, Flatten, Leads, Buf.All, CopiedTo;
    var f, next := frames[0], frames[1..];
    FlattenFront(frames);
    Associates(f, Flatten(next), more);
    CopyStep(f);
    s' := CopyGoes(w, s, f, Flatten(next) + more);
    if next == [] {
      assert frames == [f];
      FlattenOne(f);
      FlattenNothing(more);
    } else {
      var s1 := s';
      CopiedOn(s, s1, f, Flatten(next) + more);
      s' := CopyPasses(w, s1, next, more);
      LeadsTwice(w, s, 2, s1, 2 * |next|, s');
      assert next[|next| - 1] == frames[|frames| - 1];
      CopiedTwice(s, s1, s', f, Flatten(next), more, if EndsCopy(frames[|frames| - 1]) then Listen else CopyAwait);
    }
  }

  lemma CopyStep(f: Bytes)
    requires Message(f)
    ensures f != [] && AfterCopy(f[0] as int) == if EndsCopy(f) then Listen else CopyAwait
  {
  }

  lemma CopiedOn(s: State, s': State, f: Bytes, more: Bytes)
    requires CopiedTo(s, s', f, more, CopyAwait) && Roomy(s.fe)
    ensures s'.phase.CopyAwait? && s'.be == s.be && Roomy(s'.fe) && s'.fe.All() == more
  {
  }

  lemma CopiedTwice(s: State, s1: State, s': State, f: Bytes, g: Bytes, more: Bytes, next: Phase)
    requires CopiedTo(s, s1, f, g + more, CopyAwait) && CopiedTo(s1, s', g, more, next)
    ensures CopiedTo(s, s', f + g, more, next)
  {
    hide Buf.All, Buf.Ok;
    Associates(s.toReader, f, g);
    Associates(s.toWriter, f, g);
  }

  /** CopyFail is of type 'f': after it the session takes the client's next request for data of the copy, too. It
      goes to the backend without being logged, and no reply is read. */
  lemma CopyFailGoesOn(w: World, s: State, fail: Bytes, query: Bytes, more: Bytes) returns (s': State)
    requires s.phase.CopyAwait? && s.be.Ok() && Roomy(s.fe) && s.fe.All() == fail + query + more
    requires Message(fail) && fail[0] == 'f' as int && Message(query) && query[0] == 'Q' as int
    ensures Leads(w, s, 4, s') && CopiedTo(s, s', fail + query, more, CopyAwait)
  {
    hide Run, Message, Leads, Flatten, Buf.All, CopiedTo;
    assert [fail, query][1..] == [query];
    FlattenOne(query);
    FlattenFront([fail, query]);
    s' := CopyPasses(w, s, [fail, query], more);
  }

  /** The log leaves room for the copy's first header if it leaves room for the request and a header, or if the
      temporary file has the log. */
  lemma {:induction false} CopyFindsRoom(b: Buf, frames: seq<Bytes>, more: Bytes, pace: Pace)
    requires b.Ok() && Asks(frames) && b.All() == Flatten(frames) + more
    requires 5 <= b.len && (b.cached || b.Start() + |Flatten(frames)| + 5 <= b.len)
    ensures Roomy(SentAll(b, frames, pace))
    decreases |frames|
  {
    hide Message, Flatten, Hear, Buffer.Send, Buf.All;
    var f, next := frames[0], frames[1..];
    var b' := Buffer.Send(Hear(b, pace), pace);
    FlattenFront(frames);
    Associates(f, Flatten(next), more);
    SentOn(b, f, Flatten(next) + more, pace);
    if next != [] {
      CopyFindsRoom(b', next, more, pace);
    } else {
      NoMore(b', next, pace);
      assert |Flatten(frames)| >= |f|;
    }
  }

  lemma NoMore(b: Buf, frames: seq<Bytes>, pace: Pace)
    requires b.Ok() && frames == []
    ensures SentAll(b, frames, pace) == b
  {
  }

  // A copy, from the CopyInResponse on.

  /** What the client has to say to a copy: messages of which the last, and no other, is of type 'c' or 'F'. */
  predicate CopyOf(frames: seq<Bytes>)
  {
    && frames != [] && Message(frames[0])
    && (|frames| == 1 <==> frames[0][0] == 'c' as int || frames[0][0] == 'F' as int)
    && (|frames| > 1 ==> CopyOf(frames[1..]))
  }

  lemma {:induction false} CopyOfIsCopying(frames: seq<Bytes>)
    requires CopyOf(frames)
    ensures Copying(frames) && frames[|frames| - 1] != [] && EndsCopy(frames[|frames| - 1])
    decreases |frames|
  {
    hide Message;
    MessageKind(frames[0]);
    if |frames| > 1 {
      CopyOfIsCopying(frames[1..]);
      assert frames[1..][|frames| - 2] == frames[|frames| - 1];
    }
  }

  /** A copy has been made: the client has been sent the CopyInResponse, the selected backend the data, which is not
      logged, and the rest of the reply is awaited. */
  predicate CopiedIn(s: State, s': State, response: Bytes, data: Bytes, more: Bytes, rest: Bytes)
  {
    && s' == Trace.Put(s.(fe := s'.fe, be := s'.be, toClient := s.toClient + response), data, s.befd)
    && s'.fe.All() == more && s'.fe.log == s.fe.log && s'.fe.Ok()
    && s'.be.All() == rest && Roomy(s'.be)
  }

  /** A message of type 'G' starts the copy sub-protocol: it goes to the client, and then the client's messages through
      the first of type 'c' or 'F' go to the backend, whatever else they are; behind that the reply goes on. */
  lemma CopyStarts(w: World, s: State, response: Bytes, rest: Bytes, frames: seq<Bytes>, more: Bytes)
    returns (s': State)
    requires s.phase.Listen? && Roomy(s.fe) && Roomy(s.be)
    requires Message(response) && response[0] == 'G' as int && s.be.All() == response + rest
    requires CopyOf(frames) && s.fe.All() == Flatten(frames) + more
    ensures Leads(w, s, 2 + 2 * |frames|, s') && CopiedIn(s, s', response, Flatten(frames), more, rest)
  {
    hide Run, Leads, Within, Message, Hear, Refusal, CopyOf, Flatten;
    var s1 := HearsBackend(w, s, response, rest);
    NoRefusalIn(response, rest, s1.be.held);
    var s2 := PassesOn(w, s1, response, rest);
    WithinTwice(w, s, 1, s1, 1, s2);
    WithinLeads(w, s, 2, s2);
    CopyOfIsCopying(frames);
    s' := CopyPasses(w, s2, frames, more);
    LeadsTwice(w, s, 2, s2, 2 * |frames|, s');
  }

  lemma NoRefusalIn(f: Bytes, more: Bytes, held: Bytes)
    requires Message(f) && f[0] == 'G' as int && held <= f + more
    ensures !Refusal(held)
  {
    hide Scan;
    MessageInFront(f, more);
    assert held != [] ==> held[0] == (f + more)[0];
  }

  /** ... through its ReadyForQuery. */
  lemma CopyAnswered(w: World, s: State, response: Bytes, reply: seq<Bytes>, rest: Bytes, frames: seq<Bytes>,
                     more: Bytes)
    returns (s': State)
    requires s.phase.Listen? && Roomy(s.fe) && Roomy(s.be)
    requires Message(response) && response[0] == 'G' as int && IsPlain(reply, s.befd)
    requires s.be.All() == response + (Flatten(reply) + rest)
    requires CopyOf(frames) && s.fe.All() == Flatten(frames) + more
    ensures Leads(w, s, 2 + 2 * |frames| + 2 * |reply|, s')
    ensures s' == Trace.Put(s.(phase := Top, fe := s'.fe, be := s'.be,
                               toClient := s.toClient + (response + Flatten(reply))), Flatten(frames), s.befd)
    ensures s'.fe.All() == more && s'.fe.log == s.fe.log && s'.be.All() == rest
  {
    hide Run, Leads, IsPlain, Flatten, CopyOf, Message, Buf.All;
    var s1 := CopyStarts(w, s, response, Flatten(reply) + rest, frames, more);
    s' := ReplyPasses(w, s1, reply, rest);
    WithinLeads(w, s1, 2 * |reply|, s');
    LeadsTwice(w, s, 2 + 2 * |frames|, s1, 2 * |reply|, s');
    Associates(s.toClient, response, Flatten(reply));
  }

  /** ... and a whole turn with a copy: the backend it begins with gets exactly the request and the data, the client
      exactly the CopyInResponse and the reply that follows, and the other backend nothing. */
  lemma TurnCopies(w: World, s: State, asks: seq<Bytes>, frames: seq<Bytes>, more: Bytes,
                   response: Bytes, reply: seq<Bytes>, rest: Bytes)
    returns (s': State)
    requires AboutToAsk(w, s, asks, Flatten(frames) + more) && CopyOf(frames)
    requires s.fe.Ok() && Roomy(SentAll(s.fe, asks, w.client))
    requires Message(response) && response[0] == 'G' as int && IsPlain(reply, Chosen(s))
    requires ToCome(s, Chosen(s)) == response + (Flatten(reply) + rest)
    ensures Leads(w, s, 3 + 2 * |asks| + 2 * |frames| + 2 * |reply|, s')
    ensures s'.phase.Top? && s'.befd == s'.source == Chosen(s)
    ensures var sent := Flatten(asks) + Flatten(frames);
            && s'.toReader == (if s.inTxn then s.toReader else s.toReader + sent)
            && s'.toWriter == (if s.inTxn then s.toWriter + sent else s.toWriter)
    ensures s'.toClient == s.toClient + (response + Flatten(reply))
    ensures s'.fe.log == s.fe.log + Flatten(asks) && s'.fe.All() == more && s'.be.All() == rest
  {
    hide Run, Leads, Asks, IsPlain, QueryStarts, Flatten, FindsRoom, SentAll, CopyOf, Message;
    var s1 := TurnBegins(w, s, asks, Flatten(frames) + more);
    s' := CopyAnswered(w, s1, response, reply, rest, frames, more);
    LeadsTwice(w, s, 1 + 2 * |asks|, s1, 2 + 2 * |frames| + 2 * |reply|, s');
    Associates(s.toReader, Flatten(asks), Flatten(frames));
    Associates(s.toWriter, Flatten(asks), Flatten(frames));
  }

  /** A copy that the reader refuses, by a client that waits for the CopyInResponse before it sends its data: both
      backends get the request, and only the writer the data. */
  lemma TurnCopiesToWriter(w: World, s: State, asks: seq<Bytes>, frames: seq<Bytes>, more: Bytes, refusal: seq<Bytes>,
                           later: Bytes, response: Bytes, reply: seq<Bytes>, rest: Bytes)
    returns (s': State)
    requires AboutToAsk(w, s, asks, Flatten(frames) + more) && CopyOf(frames) && 5 <= s.fe.len
    requires s.fe.Ok() && SentAll(s.fe, asks, w.client).held == []
    requires WillRefuse(w, s, refusal, later) && Stale(w, s, refusal) == []
    requires Message(response) && response[0] == 'G' as int && IsPlain(reply, Writer)
    requires Rest(s, Writer) == response + (Flatten(reply) + rest)
    ensures Leads(w, s, 6 + 2 * |asks| + |refusal| + 2 * |frames| + 2 * |reply|, s')
    ensures s'.phase.Top? && s'.befd == s'.source == Writer
    ensures s'.toReader == s.toReader + Flatten(asks)
    ensures s'.toWriter == s.toWriter + (s.fe.log + Flatten(asks)) + Flatten(frames)
    ensures s'.toClient == s.toClient + (response + Flatten(reply))
    ensures s'.fe.log == [] && s'.fe.All() == more && s'.be.All() == rest && s'.other == later
  {
    hide Run, Leads, Asks, IsPlain, QueryStarts, Flatten, Refusal, WillRefuse, AboutToAsk, Stale, SentAll, CopyOf,
         Message;
    var s1 := TurnFailsOver(w, s, asks, Flatten(frames) + more, refusal, later);
    SentAllLeaves(w, s, asks, Flatten(frames) + more);
    assert [] + s1.be.rest == s1.be.rest && [] + s1.other == s1.other && [] + s1.fe.rest == s1.fe.rest;
    s' := CopyAnswered(w, s1, response, reply, rest, frames, more);
    LeadsTwice(w, s, 4 + 2 * |asks| + |refusal|, s1, 2 + 2 * |frames| + 2 * |reply|, s');
  }

  lemma SentAllLeaves(w: World, s: State, asks: seq<Bytes>, more: Bytes)
    requires AboutToAsk(w, s, asks, more)
    ensures s.fe.Ok() && SentAll(s.fe, asks, w.client).All() == more && SentAll(s.fe, asks, w.client).len == s.fe.len
  {
    hide Run, Leads, Asks, QueryStarts, Flatten, FindsRoom, SentAll;
    var s1 := TurnBegins(w, s, asks, more);
    SentLength(s.fe, asks, w.client);
  }

  lemma {:induction false} SentLength(b: Buf, frames: seq<Bytes>, pace: Pace)
    requires b.Ok()
    ensures SentAll(b, frames, pace).len == b.len
    decreases |frames|
  {
    hide Hear, Buffer.Send;
    if frames != [] {
      SentLength(Buffer.Send(Hear(b, pace), pace), frames[1..], pace);
    }
  }

  // The client's farewell.

  /** A message of type 'X' goes to the selected backend like any other; then both are told goodbye, and the session
      ends. */
  lemma ClientLeaves(w: World, s: State, f: Bytes, more: Bytes) returns (s': State)
    requires s.phase.Await? && s.be.Ok() && Roomy(s.fe) && Message(f) && f[0] == 'X' as int && s.fe.All() == f + more
    ensures Leads(w, s, 3, s') && s'.phase.Ended? && s'.toClient == s.toClient
    ensures s'.toReader == s.toReader + (if s.befd == Reader then f else []) + ['X' as int, 0, 0, 0, 4]
    ensures s'.toWriter == s.toWriter + (if s.befd == Writer then f else []) + ['X' as int, 0, 0, 0, 4]
  {
    hide Run, Leads, Message, QueryStarts, Hear, Roomy, Buffer.Send;
    MessageInFront(f, more);
    MessageKind(f);
    OtherKind(f + more, BEGIN);
    assert s.toReader + [] == s.toReader && s.toWriter + [] == s.toWriter;
    var s1 := RequestGoes(w, s, f, more);
    LeadsBy(w, s1, Bye);
    s' := Done(w, s1, Bye);
    LeadsTwice(w, s, 2, s1, 1, s');
  }

  // A session in which all this comes about.

  const QUERY: Bytes := ['Q' as int, 0, 0, 0, 5, 0]
  const REFUSAL: Bytes := ['E' as int, 0, 0, 0, 12, 'C' as int, 50, 53, 48, 48, 54, 0, 0]
  const READY: Bytes := ['Z' as int, 0, 0, 0, 5, 'I' as int]
  const COMPLETE: Bytes := ['C' as int, 0, 0, 0, 5, 0]

  /** When the whole refusal is held already, what is held behind it stays. */
  lemma {:induction false} HeldRefusal(b: Buf, frames: seq<Bytes>, behind: Bytes, pace: Pace)
    requires b.Ok() && UpTo(frames, 'Z' as int) && b.held == Flatten(frames) + behind
    ensures Buffer.Drain(b, 'Z' as int, |frames|, pace).0 == b.(held := behind)
    decreases |frames|
  {
    hide Take, Hear, Flatten, Message, MsgType, Buf.Ok;
    var f, next := frames[0], frames[1..];
    FlattenFront(frames);
    Associates(f, Flatten(next), behind);
    HeldTaken(b, f, Flatten(next) + behind, pace);
    if next == [] {
      FlattenNothing(behind);
    } else {
      FlattenFront(next);
      Associates(next[0], Flatten(next[1..]), behind);
      HeldEnough(Take(b, pace), next[0], Flatten(next[1..]) + behind, pace);
      HeldRefusal(Take(b, pace), next, behind, pace);
    }
  }

  lemma HeldTaken(b: Buf, f: Bytes, behind: Bytes, pace: Pace)
    requires b.Ok() && Message(f) && b.held == f + behind
    ensures Take(b, pace) == b.(held := behind) && MsgType(b.held) == f[0] >= 0 && b.(held := behind).Ok()
  {
    hide U32;
    MessageInFront(f, behind);
    TakingDone(b.held, b.rest, |f|, b.len - b.Start(), pace, behind);
  }

  lemma HeldEnough(b: Buf, f: Bytes, behind: Bytes, pace: Pace)
    requires b.Ok() && Message(f) && b.held == f + behind
    ensures Hear(b, pace) == b
  {
  }

  /** A client that asks one query, a reader that refuses it and goes on, and a writer that answers it. What comes of
      the reader's other octets with the first read is taken for the front of the writer's reply. */
  lemma RefusedSession(w: World, s: State, more: Bytes, later: Bytes)
    requires w.reader(19 + |later|) >= 18
    requires s == Start(QUERY + more, REFUSAL + READY + later, COMPLETE + READY, [], [], [])
    ensures AboutToAsk(w, s, [QUERY], more) && WillRefuse(w, s, [REFUSAL, READY], later)
    ensures IsPlain([COMPLETE, READY], Writer) && Rest(s, Writer) == Flatten([COMPLETE, READY]) + []
    ensures Stale(w, s, [REFUSAL, READY]) == later[..ReadSize(4096, 19 + |later|, w.reader) - 19]
  {
    hide Asks, IsPlain, UpTo, Flatten, QueryStarts, Refusal, Hear, Buffer.Drain, ReadSize;
    OneQuery(more);
    TwoAnswers(COMPLETE, READY);
    TwoAnswers(REFUSAL, READY);
    assert Flatten([REFUSAL, READY]) == REFUSAL + READY;
    assert [] + s.be.rest == s.be.rest && [] + s.fe.rest == s.fe.rest;
    ReadBehind(REFUSAL + READY, later, w.reader);
    var k := ReadSize(4096, 19 + |later|, w.reader) - 19;
    RefusalRefuses(later[..k]);
    HeldRefusal(Hear(s.be, w.reader), [REFUSAL, READY], later[..k], w.reader);
  }

  /** The whole session of a client that asks one query, waits for the answer and leaves. */
  lemma WholeSession(w: World, s: State) returns (s': State)
    requires w.reader(19) >= 18 && w.client(11) == 5
    requires s == Start(QUERY + ['X' as int, 0, 0, 0, 4], REFUSAL + READY, COMPLETE + READY, [], [], [])
    ensures Leads(w, s, 16, s') && s'.phase.Ended?
    ensures s'.toReader == ['Q' as int, 0, 0, 0, 5, 0, 'X' as int, 0, 0, 0, 4, 'X' as int, 0, 0, 0, 4]
    ensures s'.toWriter == ['Q' as int, 0, 0, 0, 5, 0, 'X' as int, 0, 0, 0, 4]
    ensures s'.toClient == ['C' as int, 0, 0, 0, 5, 0, 'Z' as int, 0, 0, 0, 5, 'I' as int]
  {
    hide Leads, AboutToAsk, WillRefuse, IsPlain, UpTo, Flatten, Stale, SentAll;
    var bye := ['X' as int, 0, 0, 0, 4];
    assert REFUSAL + READY + [] == REFUSAL + READY;
    RefusedSession(w, s, bye, []);
    OneQuery(bye);
    TwoAnswers(COMPLETE, READY);
    var s1 := TurnReplayed(w, s, [QUERY], bye, [REFUSAL, READY], [], [COMPLETE, READY], []);
    QueryReadAlone(s.fe, bye, w.client);
    s' := LeavesAtTop(w, s1, bye);
    LeadsTwice(w, s, 12, s1, 4, s');
  }

  lemma QueryReadAlone(b: Buf, bye: Bytes, pace: Pace)
    requires b == Buf(16384, [], false, [], QUERY + bye) && |bye| == 5 && pace(11) == 5
    ensures b.Ok() && SentAll(b, [QUERY], pace) == Buf(16384, QUERY, false, [], bye)
  {
    hide SentAll, Message;
    OneQuery(bye);
    SentAlone(b, QUERY, bye, pace);
  }

  lemma SentAlone(b: Buf, f: Bytes, rest: Bytes, pace: Pace)
    requires b == Buf(16384, [], false, [], f + rest) && Message(f) && ReadSize(16384, |f + rest|, pace) == |f|
    ensures b.Ok() && SentAll(b, [f], pace) == Buf(16384, f, false, [], rest)
  {
    hide Hear, Buffer.Send, Message, ReadSize;
    MessageKind(f);
    FirstRead(16384, f + rest, f, pace);
    SentWhole(Hear(b, pace), f, pace);
    assert [] + f == f;
  }

  lemma SentWhole(b: Buf, f: Bytes, pace: Pace)
    requires b.Ok() && Message(f) && b.held == f && 0 < b.len
    ensures Buffer.Send(b, pace) == b.(held := [], log := b.log + f)
  {
    hide U32;
    MessageInFront(f, b.rest);
    TakingDone(f, b.rest, |f|, b.len, pace, []);
  }

  lemma LeavesAtTop(w: World, s: State, bye: Bytes) returns (s': State)
    requires s.phase.Top? && !s.inTxn && s.be.Ok() && s.fe == Buf(16384, [], false, [], bye)
    requires bye == ['X' as int, 0, 0, 0, 4]
    ensures Leads(w, s, 4, s') && s'.phase.Ended? && s'.toClient == s.toClient
    ensures s'.toReader == s.toReader + bye + bye && s'.toWriter == s.toWriter + bye
  {
    hide Run, Leads, QueryStarts;
    var s1 := ToChosen(w, s);
    assert bye[1..][..4] == [0, 0, 0, 4] && [] + bye == bye && bye + [] == bye;
    s' := ClientLeaves(w, s1, bye, []);
    LeadsTwice(w, s, 1, s1, 3, s');
    assert s.toWriter + [] == s.toWriter;
  }

  /** So when anything comes with it, the client does not get what the writer answers, and no more. */
  lemma NoticeComesFirst(w: World, s: State, notice: Bytes) returns (s': State)
    requires notice != [] && w.reader(19 + |notice|) > 18
    requires s == Start(QUERY + [], REFUSAL + READY + notice, COMPLETE + READY, [], [], [])
    ensures Leads(w, s, 8, s') && HasFailedOver(s, s', [QUERY], s'.be.held) && s'.be.held != []
    ensures !Delivers(w, s', COMPLETE + READY, [])
  {
    hide Leads, AboutToAsk, WillRefuse, IsPlain, Flatten, Delivers, HasFailedOver, Stale;
    RefusedSession(w, s, [], notice);
    s' := ReplayedExactlyIff(w, s, [QUERY], [], [REFUSAL, READY], notice, [COMPLETE, READY], []);
    TwoAnswers(COMPLETE, READY);
    HasHeld(s, s', [QUERY], Stale(w, s, [REFUSAL, READY]));
  }

  lemma HasHeld(s: State, s': State, asks: seq<Bytes>, stale: Bytes)
    requires HasFailedOver(s, s', asks, stale)
    ensures s'.be.held == stale
  {
  }

  lemma ReadBehind(all: Bytes, later: Bytes, pace: Pace)
    requires |all| == 19 && pace(19 + |later|) >= 18
    ensures ReadSize(4096, 19 + |later|, pace) >= 19
    ensures Hear(Buf(4096, [], false, [], all + later), pace).held
         == all + later[..ReadSize(4096, 19 + |later|, pace) - 19]
  {
    hide Hear;
    var n := ReadSize(4096, 19 + |later|, pace);
    assert (all + later)[..n] == all + later[..n - 19];
    FirstRead(4096, all + later, all + later[..n - 19], pace);
  }

  lemma OneQuery(more: Bytes)
    ensures Asks([QUERY]) && Flatten([QUERY]) == QUERY && !QueryStarts(QUERY + more, BEGIN)
  {
    FlattenOne(QUERY);
    assert QUERY[1..][..4] == [0, 0, 0, 5];
    assert (QUERY + more)[5] == 0;
    BeginIs(QUERY + more);
  }

  lemma TwoAnswers(first: Bytes, last: Bytes)
    requires first == COMPLETE || first == REFUSAL
    requires last == READY
    ensures Flatten([first, last]) + [] == first + last == Flatten([first, last])
    ensures UpTo([first, last], 'Z' as int) && (first == COMPLETE ==> IsPlain([first, last], Writer))
  {
    FlattenFront([first, last]);
    FlattenOne(last);
    assert [first, last][1..] == [last];
    assert REFUSAL[1..][..4] == [0, 0, 0, 12] && READY[1..][..4] == [0, 0, 0, 5] && COMPLETE[1..][..4] == [0, 0, 0, 5];
    assert Message(first) && Message(last);
  }

  lemma RefusalRefuses(behind: Bytes)
    ensures Refusal(REFUSAL + READY + behind)
  {
    var all := REFUSAL + READY + behind;
    assert all[0] == 'E' as int && all[5] == CODE && all[6..11] == READ_ONLY;
  }
}
