/** What one client session does: the loop of `handle_client` in src/worker.c as a machine that takes one step for
    each message. As long as no descriptor fails, its run is determined by what the client and the two backends
    send and by the pace at which that can be read. */
module Trace {
  import opened Wire
  import opened Streams
  import opened Buffer
  import opened ErrorScan

  datatype Backend = Reader | Writer

  const READ_ONLY: Bytes := [50, 53, 48, 48, 54] // "25006"
  const BEGIN: Bytes := ['b' as int, 'e' as int, 'g' as int, 'i' as int, 'n' as int]
  const COMMIT: Bytes := ['c' as int, 'o' as int, 'm' as int, 'm' as int, 'i' as int, 't' as int]
  const GOODBYE: Bytes := ['X' as int, 0, 0, 0, 4]

  function Lower(b: byte): byte
  {
    if 'A' as int <= b <= 'Z' as int then b + 32 else b
  }

  /** `pgr_mbuf_data` and `strncasecmp`: the query text that is buffered starts with `word`. */
  predicate QueryStarts(buffered: Bytes, word: Bytes): (r: bool)
    ensures r ==> |buffered| >= 5 + |word|
  {
    MsgType(buffered) == 'Q' as int && |buffered| >= 5 + |word|
    && forall i | 0 <= i < |word| :: Lower(buffered[5 + i]) == word[i]
  }

  /** What is buffered of a reply shows that the backend refuses to write. */
  predicate Refusal(buffered: Bytes)
  {
    |buffered| >= 5 && MsgType(buffered) == 'E' as int && Scan(buffered, 5, READ_ONLY)
  }

  /** Where the session stands: at the top of its loop; before and after `recv` from the client; when the client
      has said goodbye; before and after `recv` from a backend; the same two points of the copy sub-protocol;
      while a refusal is drained, and when it is; at the end. */
  datatype Phase =
    Top | Await | Look | Parting | Listen | Judge | CopyAwait | CopyLook | Purging | Drained | Ended

  /** The variables of the loop, its two buffers, what is still to come from the backend that `be` does not read
      from, and what went out on each side. */
  datatype State = State(phase: Phase, inTxn: bool, befd: Backend, source: Backend, fe: Buf, be: Buf, other: Bytes,
                         toReader: Bytes, toWriter: Bytes, toClient: Bytes)

  /** How short the reads from each side are. */
  datatype World = World(client: Pace, reader: Pace, writer: Pace)
  {
    function Backend(b: Backend): Pace
    {
      if b == Reader then reader else writer
    }
  }

  datatype Act =
    /** The top of the session loop. */
    | Turn
    | HearClient
    /** A message from the client, of which `view` was buffered, is sent to a backend and logged. */
    | Request(frame: Bytes, view: Bytes, to: Backend, begins: bool, commits: bool)
    /** Both backends are told that the client has gone. */
    | Bye
    | HearBackend
    /** A message from a backend is passed to the client. */
    | Reply(frame: Bytes, from: Backend)
    /** A message of the copy sub-protocol is passed to a backend and not logged. */
    | CopyData(frame: Bytes, to: Backend)
    /** The reader refuses, and its reply is drained, for at most so many messages. */
    | Drain(view: Bytes, rounds: nat)
    /** The log goes to the writer; what is buffered of the client's octets is dropped. */
    | Failover(log: Bytes, dropped: Bytes)
    | Hangup

  /** What came of an act: all that should; or all but what the backends got, because `writen` wrote short; or that
      state, because a descriptor failed. */
  datatype Result = Fine | Torn(toReader: Bytes, toWriter: Bytes) | Failed(state: State)

  datatype Event = Event(act: Act, result: Result)

  function Opposite(b: Backend): Backend
  {
    if b == Reader then Writer else Reader
  }

  /** What is still to come from a backend. */
  function Rest(s: State, b: Backend): Bytes
  {
    if b == s.source then s.be.rest else s.other
  }

  function Turned(s: State, b: Backend): State
  {
    if b == s.source then s else s.(source := b, be := s.be.(rest := s.other), other := s.be.rest)
  }

  function Put(s: State, frame: Bytes, to: Backend): State
  {
    if to == Reader then s.(toReader := s.toReader + frame) else s.(toWriter := s.toWriter + frame)
  }

  /** The act is the one the code comes to in this state. */
  predicate Allowed(w: World, s: State, a: Act)
  {
    s.fe.Ok() && s.be.Ok() &&
    match a
    case Turn => s.phase.Top?
    case HearClient => s.phase.Await? || s.phase.CopyAwait?
    case Request(frame, view, to, begins, commits) =>
      && s.phase.Look? && |view| >= 5 && view == s.fe.held && frame == Front(s.fe.All())
      && begins == QueryStarts(view, BEGIN) && commits == QueryStarts(view, COMMIT)
      && to == if begins then Writer else s.befd
    case Bye => s.phase.Parting?
    case HearBackend => s.phase.Listen?
    case Reply(frame, from) =>
      && s.phase.Judge? && |s.be.held| >= 5 && !(s.befd == Reader && Refusal(s.be.held))
      && frame == Front(s.be.All()) && from == s.source
    case CopyData(frame, to) =>
      s.phase.CopyLook? && |s.fe.held| >= 5 && frame == Front(s.fe.All()) && to == s.befd
    case Drain(view, _) => s.phase.Judge? && s.befd == Reader && view == s.be.held && Refusal(view)
    case Failover(log, dropped) => s.phase.Drained? && log == s.fe.log && dropped == s.fe.held
    case Hangup =>
      || ((s.phase.Look? || s.phase.CopyLook?) && |s.fe.held| < 5)
      || (s.phase.Judge? && |s.be.held| < 5)
  }

  function AfterRequest(kind: int): Phase
  {
    if kind == 'X' as int then Parting else if kind == 'Q' as int || kind == 'S' as int then Listen else Await
  }

  function AfterReply(kind: int): Phase
  {
    if kind == 'G' as int then CopyAwait else if kind == 'Z' as int then Top else Listen
  }

  function AfterCopy(kind: int): Phase
  {
    if kind == 'c' as int || kind == 'F' as int then Listen else CopyAwait
  }

  /** What an act does when nothing fails. */
  function Done(w: World, s: State, a: Act): State
    requires Allowed(w, s, a)
  {
    match a
    case Turn =>
      var befd := if s.inTxn then s.befd else Reader;
      Turned(s.(phase := Await, befd := befd), befd)
    case HearClient =>
      s.(phase := if s.phase.Await? then Look else CopyLook, fe := Hear(s.fe, w.client))
    case Request(frame, view, to, begins, commits) =>
      Put(s.(phase := AfterRequest(MsgType(view)), inTxn := !commits && (begins || s.inTxn),
             befd := if begins then Writer else s.befd, fe := Buffer.Send(s.fe, w.client)), frame, to)
    case Bye =>
      s.(phase := Ended, toReader := s.toReader + GOODBYE, toWriter := s.toWriter + GOODBYE)
    case HearBackend =>
      s.(phase := Judge, be := Hear(s.be, w.Backend(s.source)))
    case Reply(frame, _) =>
      s.(phase := if HasFrame(s.be.All()) then AfterReply(MsgType(s.be.held)) else Ended,
         be := Take(s.be, w.Backend(s.source)), toClient := s.toClient + frame)
    case CopyData(frame, to) =>
      Put(s.(phase := if HasFrame(s.fe.All()) then AfterCopy(MsgType(s.fe.held)) else Ended,
             fe := Take(s.fe, w.client)), frame, to)
    case Drain(_, rounds) =>
      var (be, rc) := Buffer.Drain(s.be, 'Z' as int, rounds, w.Backend(s.source));
      s.(phase := if rc == 1 then Purging else Drained, be := be)
    case Failover(log, _) =>
      Turned(s.(phase := Listen, befd := Writer, fe := Buffer.Reset(s.fe), toWriter := s.toWriter + log), Writer)
    case Hangup =>
      s.(phase := Ended)
  }

  /** The acts that reach a backend. */
  predicate Reaches(a: Act, b: Backend)
  {
    match a
    case Request(_, _, to, _, _) => to == b
    case CopyData(_, to) => to == b
    case Failover(_, _) => b == Writer
    case Bye => true
    case _ => false
  }

  /** The acts that are done on the client's buffer. */
  predicate OnClient(a: Act)
  {
    a.HearClient? || a.Request? || a.CopyData? || a.Failover?
  }

  /** The acts that are done on the buffer of replies. */
  predicate OnBackend(a: Act)
  {
    a.HearBackend? || a.Reply? || a.Drain?
  }

  /** What may come of an act when a descriptor fails or writes short: the routing is the same; nothing goes out
      where nothing was to go out, and nothing that went out is taken back; octets may be lost from the front of a
      stream, but none are made up. Only what `writen` puts out may differ from what was to go out. */
  predicate Fails(w: World, s: State, a: Act, s': State)
    requires Allowed(w, s, a)
  {
    var d := Done(w, s, a);
    && s'.inTxn == d.inTxn && s'.befd == d.befd && s'.source == d.source && Faltered(s, a, d, s')
    && (s'.phase.Ended? || s'.phase == d.phase || (a.Drain? && (s'.phase.Purging? || s'.phase.Drained?)))
  }

  /** Of `d`, what was to come of the act, `s'` came. */
  predicate Faltered(s: State, a: Act, d: State, s': State)
  {
    && s.toReader <= s'.toReader && s.toWriter <= s'.toWriter && s.toClient <= s'.toClient <= d.toClient
    && (Reaches(a, Reader) || s'.toReader == s.toReader) && (Reaches(a, Writer) || s'.toWriter == s.toWriter)
    && (a.Request? || s'.toReader <= d.toReader) && (a.Request? || a.Failover? || s'.toWriter <= d.toWriter)
    && EndsIn(s.fe.All(), s'.fe.All()) && (OnClient(a) || s'.fe == s.fe) && (a.Request? || s'.fe.log == d.fe.log)
    && EndsIn(s.be.All(), s'.be.held + Rest(s', s.source)) && Rest(s', Opposite(s.source)) == s.other
    && (OnBackend(a) || s'.be.held == d.be.held)
    && (!s'.phase.Ended? ==> s'.fe.Ok() && s'.be.Ok())
  }

  function Next(w: World, s: State, e: Event): State
    requires Allowed(w, s, e.act)
  {
    match e.result
    case Fine => Done(w, s, e.act)
    case Torn(toReader, toWriter) => Done(w, s, e.act).(toReader := toReader, toWriter := toWriter)
    case Failed(s') => s'
  }

  predicate Possible(w: World, s: State, e: Event)
  {
    && Allowed(w, s, e.act) && (e.result.Fine? || Fails(w, s, e.act, Next(w, s, e)))
    && (e.result.Torn? ==> e.act.Request? || e.act.Failover?)
  }

  /** Where a run of the machine from `s0` leads, if every step of it is one the code comes to. */
  function Run(w: World, s0: State, t: seq<Event>): Option<State>
  {
    if t == [] then Some(s0)
    else
      match Run(w, s0, t[..|t| - 1])
      case None => None
      case Some(s) => if Possible(w, s, t[|t| - 1]) then Some(Next(w, s, t[|t| - 1])) else None
  }

  predicate Obeys(w: World, s0: State, t: seq<Event>)
  {
    Run(w, s0, t).Some?
  }

  function At(w: World, s0: State, t: seq<Event>): State
    requires Obeys(w, s0, t)
  {
    Run(w, s0, t).value
  }

  /** Nothing failed, and no `writen` call was short. */
  predicate Smooth(t: seq<Event>)
  {
    forall k :: 0 <= k < |t| ==> t[k].result.Fine?
  }

  /** Nothing failed. */
  predicate Unbroken(t: seq<Event>)
  {
    forall k :: 0 <= k < |t| ==> !t[k].result.Failed?
  }

  lemma RunNothing(w: World, s: State)
    ensures Run(w, s, []) == Some(s)
  {
  }

  lemma Append(w: World, s0: State, t: seq<Event>, e: Event)
    requires Obeys(w, s0, t)
    ensures Obeys(w, s0, t + [e]) <==> Possible(w, At(w, s0, t), e)
    ensures Obeys(w, s0, t + [e]) ==> At(w, s0, t + [e]) == Next(w, At(w, s0, t), e)
  {
    hide Possible, Next;
    assert (t + [e])[..|t + [e]| - 1] == t;
  }

  /** At the start of a session the buffers are empty and the reader is selected. */
  function Start(client: Bytes, reader: Bytes, writer: Bytes, toReader: Bytes, toWriter: Bytes, toClient: Bytes): State
  {
    State(Top, false, Reader, Reader, Buf(16384, [], false, [], client), Buf(4096, [], false, [], reader), writer,
          toReader, toWriter, toClient)
  }

  predicate Starts(s: State)
  {
    s.phase.Top? && !s.inTxn && s.befd == s.source == Reader
  }

  /** Every step of a run is one the code comes to. */
  lemma {:induction false} StepAt(w: World, s0: State, t: seq<Event>, k: nat)
    requires Obeys(w, s0, t) && k <= |t|
    ensures Obeys(w, s0, t[..k])
    ensures k < |t| ==> Possible(w, At(w, s0, t[..k]), t[k]) && Obeys(w, s0, t[..k + 1])
    ensures k < |t| ==> At(w, s0, t[..k + 1]) == Next(w, At(w, s0, t[..k]), t[k])
    decreases |t|
  {
    hide Possible, Next;
    if k < |t| {
      StepAt(w, s0, t[..|t| - 1], k);
      assert t[..|t| - 1][..k] == t[..k];
      if k == |t| - 1 {
        assert t[..k + 1] == t;
      } else {
        assert t[..|t| - 1][..k + 1] == t[..k + 1];
      }
    } else {
      assert t[..k] == t;
    }
  }

  // Routing. What follows holds of every run, whatever fails.

  /** Routing is the same whether an act succeeds or fails. */
  lemma RoutingStep(w: World, s: State, e: Event)
    requires Possible(w, s, e)
    ensures var s' := Next(w, s, e);
            && s'.inTxn == (if e.act.Request? then !e.act.commits && (e.act.begins || s.inTxn) else s.inTxn)
            && s'.befd == (match e.act
                           case Turn => if s.inTxn then s.befd else Reader
                           case Request(_, _, _, begins, _) => if begins then Writer else s.befd
                           case Failover(_, _) => Writer
                           case _ => s.befd)
            && s'.source == (if e.act.Turn? || e.act.Failover? then s'.befd else s.source)
            && (s'.phase.Purging? || s'.phase.Drained? ==> e.act.Drain?)
  {
    hide QueryStarts, Refusal, Buffer.Send, Hear, Take, Buffer.Drain, Faltered, Front, HasFrame;
  }

  predicate Opens(a: Act) { a.Request? && a.begins && !a.commits }

  predicate Closes(a: Act) { a.Request? && a.commits }

  /** A request opened a transaction, and none has committed since. */
  predicate Open(t: seq<Event>)
  {
    exists j | 0 <= j < |t| :: Opens(t[j].act) && forall i | j < i < |t| :: !Closes(t[i].act)
  }

  lemma OpenStep(t: seq<Event>)
    requires t != []
    ensures var a := t[|t| - 1].act; Open(t) <==> Opens(a) || (Open(t[..|t| - 1]) && !Closes(a))
  {
    var n := |t| - 1;
    if Open(t[..n]) && !Closes(t[n].act) {
      var j :| 0 <= j < n && Opens(t[..n][j].act) && forall i | j < i < n :: !Closes(t[..n][i].act);
      assert forall i | j < i < n :: t[i] == t[..n][i];
      assert t[j] == t[..n][j];
    }
    if Open(t) {
      var j :| 0 <= j < |t| && Opens(t[j].act) && forall i | j < i < |t| :: !Closes(t[i].act);
      assert j < n ==> t[..n][j] == t[j];
      assert forall i | j < i < n :: t[..n][i] == t[i];
    }
  }

  /** The flag kept by the session loop means that a transaction is open; then the writer is selected. While a
      refusal is dealt with the reader is, and it is the reader that replies are read from whenever it is selected. */
  lemma {:induction false} InTxnIffOpen(w: World, s0: State, t: seq<Event>)
    requires Obeys(w, s0, t) && Starts(s0)
    ensures var s := At(w, s0, t);
            && (s.inTxn <==> Open(t)) && (s.inTxn ==> s.befd == Writer)
            && (s.befd == Reader ==> s.source == Reader)
            && (s.phase.Purging? || s.phase.Drained? ==> s.befd == Reader)
    decreases |t|
  {
    hide Open, Opens, Closes, Possible, Next, Allowed;
    if t == [] {
      NothingOpen();
    } else {
      var n := |t| - 1;
      StepAt(w, s0, t, n);
      assert t[..n + 1] == t;
      InTxnIffOpen(w, s0, t[..n]);
      OpenStep(t);
      RoutingStep(w, At(w, s0, t[..n]), t[n]);
      DrainsReader(w, At(w, s0, t[..n]), t[n]);
      Flags(t[n].act);
    }
  }

  lemma NothingOpen()
    ensures !Open([])
  {
  }

  lemma DrainsReader(w: World, s: State, e: Event)
    requires Possible(w, s, e)
    ensures e.act.Drain? ==> s.befd == Reader
    ensures e.act.Failover? ==> s.phase.Drained?
  {
    hide QueryStarts, Refusal, Front;
  }

  lemma Flags(a: Act)
    ensures Opens(a) <==> a.Request? && a.begins && !a.commits
    ensures Closes(a) <==> a.Request? && a.commits
  {
  }

  /** Where a message goes: to the writer if it was noticed to begin a transaction, else where the session stands. */
  lemma Destination(w: World, s: State, e: Event)
    requires Possible(w, s, e)
    ensures e.act.Request? ==> e.act.to == if e.act.begins then Writer else s.befd
    ensures e.act.CopyData? ==> e.act.to == s.befd
  {
    hide QueryStarts, Refusal, Front;
  }

  // What the client says, and what is noticed of it.

  /** A word is noticed if and only if it is said and buffered to its end. */
  lemma NoticedIff(all: Bytes, view: Bytes, word: Bytes)
    requires view <= all && view != []
    ensures QueryStarts(view, word) <==> QueryStarts(all, word) && |view| >= 5 + |word|
  {
    assert view == all[..|view|];
  }

  /** A query text that ends with its NUL says a word if and only if its own message does. */
  lemma SaidInMessage(all: Bytes, word: Bytes, k: nat)
    requires HasFrame(all) && 5 <= k < Size(all) && all[k] == NUL && NulFree(word)
    ensures QueryStarts(all, word) <==> QueryStarts(Front(all), word)
  {
    hide QueryStarts;
    if QueryStarts(all, word) && k < 5 + |word| {
      SaidAt(all, word, k - 5);
      assert false;
    }
    FrontSays(all, word);
  }

  lemma SaidAt(all: Bytes, word: Bytes, i: nat)
    requires QueryStarts(all, word) && i < |word|
    ensures Lower(all[5 + i]) == word[i]
  {
  }

  lemma FrontSays(all: Bytes, word: Bytes)
    requires HasFrame(all) && 5 <= Size(all)
    ensures QueryStarts(Front(all), word) <==> QueryStarts(all, word) && Size(all) >= 5 + |word|
  {
    assert Front(all) == all[..Size(all)];
  }

  /** At step `k` of a run the client sends a query that starts with `word`. */
  predicate Says(w: World, s0: State, t: seq<Event>, k: nat, word: Bytes)
    requires Obeys(w, s0, t) && k < |t|
  {
    StepAt(w, s0, t, k);
    t[k].act.Request? && QueryStarts(At(w, s0, t[..k]).fe.All(), word)
  }

  /** A BEGIN is noticed if and only if ten octets of its message were buffered when it was looked at, a COMMIT
      if and only if eleven were. */
  lemma RequestNoticesIff(w: World, s0: State, t: seq<Event>, k: nat)
    requires Obeys(w, s0, t) && k < |t| && t[k].act.Request?
    ensures t[k].act.begins <==> Says(w, s0, t, k, BEGIN) && |t[k].act.view| >= 10
    ensures t[k].act.commits <==> Says(w, s0, t, k, COMMIT) && |t[k].act.view| >= 11
  {
    hide QueryStarts, Next;
    StepAt(w, s0, t, k);
    var s := At(w, s0, t[..k]);
    assert s.fe.held <= s.fe.All();
    NoticedIff(s.fe.All(), s.fe.held, BEGIN);
    NoticedIff(s.fe.All(), s.fe.held, COMMIT);
  }

  /** When the request is a whole message and its text ends within it, as a query's does, only that message counts. */
  lemma MessageNoticesIff(w: World, s0: State, t: seq<Event>, k: nat, i: nat)
    requires Obeys(w, s0, t) && k < |t| && t[k].act.Request?
    requires HasFrame(t[k].act.frame) && 5 <= i < |t[k].act.frame| && t[k].act.frame[i] == NUL
    ensures t[k].act.begins <==> QueryStarts(t[k].act.frame, BEGIN) && |t[k].act.view| >= 10
    ensures t[k].act.commits <==> QueryStarts(t[k].act.frame, COMMIT) && |t[k].act.view| >= 11
  {
    hide QueryStarts, Next, Size;
    RequestNoticesIff(w, s0, t, k);
    StepAt(w, s0, t, k);
    var all := At(w, s0, t[..k]).fe.All();
    FrameOf(all, t[k].act.frame);
    SaidInMessage(all, BEGIN, i);
    SaidInMessage(all, COMMIT, i);
  }

  lemma FrameOf(all: Bytes, frame: Bytes)
    requires frame == Front(all) && HasFrame(frame)
    ensures HasFrame(all) && Size(all) == |frame| && forall i | 0 <= i < |frame| :: all[i] == frame[i]
  {
    hide U32;
    if |frame| < |all| {
      SizeOfPrefix(all, |frame|);
    }
  }

  /** What it means to say BEGIN: a query of at least these octets, in letters of either case. */
  lemma BeginIs(v: Bytes)
    ensures QueryStarts(v, BEGIN) <==>
            && |v| >= 10 && v[0] == 'Q' as int
            && (v[5] == 'B' as int || v[5] == 'b' as int) && (v[6] == 'E' as int || v[6] == 'e' as int)
            && (v[7] == 'G' as int || v[7] == 'g' as int) && (v[8] == 'I' as int || v[8] == 'i' as int)
            && (v[9] == 'N' as int || v[9] == 'n' as int)
  {
    hide MsgLength;
    if |v| >= 10 {
      EitherCase(v[5], BEGIN[0]);
      EitherCase(v[6], BEGIN[1]);
      EitherCase(v[7], BEGIN[2]);
      EitherCase(v[8], BEGIN[3]);
      EitherCase(v[9], BEGIN[4]);
      EveryLetter(v, BEGIN, 5);
    }
  }

  lemma CommitIs(v: Bytes)
    ensures QueryStarts(v, COMMIT) <==>
            && |v| >= 11 && v[0] == 'Q' as int
            && (v[5] == 'C' as int || v[5] == 'c' as int) && (v[6] == 'O' as int || v[6] == 'o' as int)
            && (v[7] == 'M' as int || v[7] == 'm' as int) && (v[8] == 'M' as int || v[8] == 'm' as int)
            && (v[9] == 'I' as int || v[9] == 'i' as int) && (v[10] == 'T' as int || v[10] == 't' as int)
  {
    hide MsgLength;
    if |v| >= 11 {
      EitherCase(v[5], COMMIT[0]);
      EitherCase(v[6], COMMIT[1]);
      EitherCase(v[7], COMMIT[2]);
      EitherCase(v[8], COMMIT[3]);
      EitherCase(v[9], COMMIT[4]);
      EitherCase(v[10], COMMIT[5]);
      EveryLetter(v, COMMIT, 6);
    }
  }

  lemma EitherCase(b: byte, letter: byte)
    requires 'a' as int <= letter <= 'z' as int
    ensures Lower(b) == letter <==> b == letter || b + 32 == letter
  {
  }

  lemma EveryLetter(v: Bytes, word: Bytes, n: nat)
    requires 5 <= n <= 6 && |word| == n && |v| >= 5 + n
    ensures (forall i | 0 <= i < |word| :: Lower(v[5 + i]) == word[i]) <==>
            && Lower(v[5]) == word[0] && Lower(v[6]) == word[1] && Lower(v[7]) == word[2] && Lower(v[8]) == word[3]
            && Lower(v[9]) == word[4] && (n == 6 ==> Lower(v[10]) == word[5])
  {
    hide Lower;
  }

  lemma NotBoth(all: Bytes)
    ensures !(QueryStarts(all, BEGIN) && QueryStarts(all, COMMIT))
  {
    hide QueryStarts;
    if QueryStarts(all, BEGIN) && QueryStarts(all, COMMIT) {
      SaidAt(all, BEGIN, 0);
      SaidAt(all, COMMIT, 0);
      assert false;
    }
  }

  /** A BEGIN goes to the writer if and only if it was buffered to its word or the writer was selected anyway. */
  lemma BeginGoesToWriterIff(w: World, s0: State, t: seq<Event>, k: nat)
    requires Obeys(w, s0, t) && k < |t| && Says(w, s0, t, k, BEGIN)
    ensures Obeys(w, s0, t[..k])
    ensures t[k].act.to == Writer <==> |t[k].act.view| >= 10 || At(w, s0, t[..k]).befd == Writer
  {
    hide QueryStarts, Next, Possible;
    StepAt(w, s0, t, k);
    RequestNoticesIff(w, s0, t, k);
    Destination(w, At(w, s0, t[..k]), t[k]);
  }

  /** From a BEGIN that is noticed on, through the first request that says COMMIT, everything goes to the writer,
      and there is no failover. */
  lemma {:induction false} TransactionsGoToWriter(w: World, s0: State, t: seq<Event>, j: nat, k: nat)
    requires Obeys(w, s0, t) && Starts(s0) && j < k < |t|
    requires Says(w, s0, t, j, BEGIN) && |t[j].act.view| >= 10
    requires forall i | j < i < k :: !Says(w, s0, t, i, COMMIT)
    ensures t[k].act.Request? || t[k].act.CopyData? ==> t[k].act.to == Writer
    ensures !t[k].act.Drain? && !t[k].act.Failover?
  {
    hide QueryStarts, Next, Possible;
    StepAt(w, s0, t, k);
    RequestNoticesIff(w, s0, t, j);
    StepAt(w, s0, t, j);
    NotBoth(At(w, s0, t[..j]).fe.All());
    forall i | j < i < k
      ensures !Closes(t[..k][i].act)
    {
      if t[i].act.Request? {
        RequestNoticesIff(w, s0, t, i);
      }
    }
    assert Opens(t[..k][j].act);
    assert Open(t[..k]);
    InTxnIffOpen(w, s0, t[..k]);
    Destination(w, At(w, s0, t[..k]), t[k]);
    DrainsReader(w, At(w, s0, t[..k]), t[k]);
  }
}
