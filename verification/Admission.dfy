/** How a client is let in: the loop of `pgr_conn_accept` in src/conn.c as a machine that takes one step for each
    operation on the buffer. */
module Admission {
  import opened Wire
  import opened Streams
  import opened Buffer
  import opened Md5Spec
  import opened Md5Context
  import opened Startup
  import AuthText
  import Authdb

  function UserKey(): Bytes { [0x75, 0x73, 0x65, 0x72] }

  function DatabaseKey(): Bytes { [0x64, 0x61, 0x74, 0x61, 0x62, 0x61, 0x73, 0x65] }

  const AUTH_OK: Bytes := [0x52, 0, 0, 0, 8, 0, 0, 0, 0]

  const READY: Bytes := [0x5a, 0, 0, 0, 5, 0x49]

  const NO: Bytes := [0x4e]

  function AuthMd5(salt: Bytes): (m: Bytes)
    ensures |m| == 9 + |salt|
  {
    [0x52, 0, 0, 0, 0x0c, 0, 0, 0, 5] + salt
  }

  /** A text as the octets it has in ASCII. */
  function Text(s: string): (v: Bytes)
    ensures |v| == |s|
  {
    seq(|s|, i requires 0 <= i < |s| => s[i] as int % 0x80)
  }

  function Reason(user: Bytes): Bytes
  {
    Text("password authentication failed for user \"") + user + Text("\"")
  }

  /** The length that `error_response` gives for that reason: it counts all the message, its type included. */
  function ErrorLength(user: Bytes): (v: Bytes)
    ensures |v| == 4
  {
    Htonl((22 + |Reason(user)|) % 0x1_0000_0000)
  }

  /** The ErrorResponse that is meant. */
  function ErrorResponse(user: Bytes): Bytes
  {
    [0x45] + ErrorLength(user) + [0x53] + (Text("ERROR") + [NUL]) + [0x43] + (Text("28P01") + [NUL])
    + [0x4d] + (Reason(user) + [NUL]) + [NUL]
  }

  /** `error_response` puts it together in the buffer; what does not fit is left out. */
  function Complained(b: Buf, user: Bytes): (b': Buf)
    requires b.Ok()
    ensures b'.Ok()
  {
    var b1 := Put(Put(b, [0x45]), ErrorLength(user));
    var b2 := Put(Put(b1, [0x53]), Text("ERROR") + [NUL]);
    var b3 := Put(Put(b2, [0x43]), Text("28P01") + [NUL]);
    var b4 := Put(Put(b3, [0x4d]), Reason(user) + [NUL]);
    Put(b4, [NUL])
  }

  /** What `relay` puts out: nothing when not even a header is buffered. */
  function Relayed(b: Buf): Bytes
  {
    if |b.held| < 5 then [] else Front(b.All())
  }

  /** The last parameter called `key`, or what there was before. */
  function LastNamed(params: seq<Param>, key: Bytes, was: Option<Bytes>): Option<Bytes>
  {
    if params == [] then was
    else if params[|params| - 1].name == key then Some(params[|params| - 1].value)
    else LastNamed(params[..|params| - 1], key, was)
  }

  /** The parameters that count for the connection: without the last one when it lacks its value. */
  function Counted(found: (seq<Param>, bool)): seq<Param>
  {
    if found.1 || found.0 == [] then found.0 else found.0[..|found.0| - 1]
  }

  /** What the memory from four octets behind the header of the first message on holds, when `stale` is what lies
      behind the octets that are buffered; nothing when even those four are not there. */
  function Memory(held: Bytes, stale: Bytes): Bytes
  {
    var at := 4 + (if held != [] && held[0] == NUL then 0 else 1) + 4;
    if |held| < at then [] else (held + stale)[at..]
  }

  /** What does not change: the users, the salt, and how short the reads are. */
  datatype Door = Door(authdb: seq<AuthText.Entry>, salt: Bytes, pace: Pace)
  {
    predicate Valid() { |salt| == 4 }

    /** The password hash that the client has to know. */
    function Hash(username: Option<Bytes>): Option<Bytes>
    {
      if username.Some? then Authdb.Lookup(authdb, username.value) else None
    }
  }

  /** Before and after `recv`; when the parameters were read, before and after the message is dropped; when an
      SSLRequest was dropped; when a password was found right or wrong; when it was dropped, in either case; when the
      client was told that it is in; at the two ends. */
  datatype Phase = Await | Look | Named | Greet | Declining | Right | Wrong | Admit | Sorry | Ready | In | Out

  datatype State = State(phase: Phase, b: Buf, params: seq<Param>, username: Option<Bytes>, database: Option<Bytes>,
                         toClient: Bytes)

  datatype Act =
    | Receive
    /** `extract_params`, with that memory behind what is buffered. */
    | Name(stale: Bytes)
    /** `check_auth`, on what is buffered. */
    | Check(view: Bytes)
    /** `discard` */
    | Drop
    /** The answer to an SSLRequest. */
    | Decline
    /** `cat` and `relay`: a message of the router's own goes through the same buffer. */
    | Answer(data: Bytes)
    /** `error_response` and `relay`: the client is told that the password is wrong; `user` is what is printed for the
        user it named, which is arbitrary if it named none. */
    | Complain(user: Bytes)
    /** Any other message ends the conversation. */
    | GiveUp

  /** An act, and what came of it if a descriptor failed. */
  datatype Event = Event(act: Act, failed: Option<State>)

  predicate Allowed(d: Door, s: State, a: Act)
  {
    d.Valid() && s.b.Ok() &&
    var kind := MsgType(s.b.held);
    match a
    case Receive => s.phase.Await?
    case Name(stale) => s.phase.Look? && kind == MSG_STARTUP && |stale| == s.b.len - s.b.Start() - |s.b.held|
    case Check(view) => s.phase.Look? && kind == PASSWORD && view == s.b.held
    case Drop => s.phase.Named? || s.phase.Right? || s.phase.Wrong?
                 || (s.phase.Look? && (kind == MSG_SSLREQ || kind == MSG_CANCEL))
    case Decline => s.phase.Declining?
    case Answer(data) =>
      || (s.phase.Greet? && data == AuthMd5(d.salt)) || (s.phase.Admit? && data == AUTH_OK)
      || (s.phase.Ready? && data == READY)
    case Complain(user) => s.phase.Sorry? && (s.username.Some? ==> user == s.username.value)
    case GiveUp => s.phase.Look? && kind !in {MSG_SSLREQ, MSG_CANCEL, MSG_STARTUP, PASSWORD}
  }

  function AfterDrop(s: State): Phase
  {
    match s.phase
    case Named => Greet
    case Right => Admit
    case Wrong => Sorry
    case Look => if MsgType(s.b.held) == MSG_SSLREQ then Declining else Await
    case _ => Out
  }

  function AfterAnswer(phase: Phase): Phase
  {
    match phase
    case Greet => Await
    case Admit => Ready
    case _ => In
  }

  predicate Fits(b: Buf, data: Bytes)
  {
    b.Start() + |b.held| + |data| <= b.len
  }

  /** What an act does when nothing fails. An answer is put behind what the client has sent already, and the first
      message in the buffer goes out. */
  function Done(d: Door, s: State, a: Act): State
    requires Allowed(d, s, a)
  {
    match a
    case Receive => s.(phase := Look, b := Hear(s.b, d.pace))
    case Name(stale) =>
      var found := Extract(Memory(s.b.held, stale));
      s.(phase := if found.1 then Named else Out, params := s.params + found.0,
         username := LastNamed(Counted(found), UserKey(), s.username),
         database := LastNamed(Counted(found), DatabaseKey(), s.database))
    case Check(view) =>
      s.(phase := if Accepts(view, d.Hash(s.username), d.salt) then Right else Wrong)
    case Drop => s.(phase := AfterDrop(s), b := Take(s.b, d.pace))
    case Decline => s.(phase := Await, toClient := s.toClient + NO)
    case Answer(data) =>
      if !Fits(s.b, data) then s.(phase := Out)
      else
        var b := Put(s.b, data);
        s.(phase := if HasFrame(b.All()) then AfterAnswer(s.phase) else Out, b := Take(b, d.pace),
           toClient := s.toClient + Front(b.All()))
    case Complain(user) =>
      var b := Complained(s.b, user);
      s.(phase := Out, b := Take(b, d.pace), toClient := s.toClient + Relayed(b))
    case GiveUp => s.(phase := Out)
  }

  /** `b'` is what reading, and dropping octets from the front, may make of `b`. */
  predicate Came(b: Buf, b': Buf)
  {
    && b'.Ok() && b'.len == b.len && b'.Start() == b.Start()
    && EndsIn(b.All(), b'.All()) && |b'.rest| <= |b.rest|
  }

  /** What may come of an act when a descriptor fails: a failed `discard` goes unnoticed, anything else ends the
      conversation. */
  predicate Fails(d: Door, s: State, a: Act, s': State)
    requires Allowed(d, s, a)
  {
    match a
    case Receive => s' == s.(phase := Out, b := s'.b) && Came(s.b, s'.b)
    case Drop => s' == s.(phase := AfterDrop(s), b := s'.b) && Came(s.b, s'.b)
    case Decline => s' == s.(phase := Out)
    case Answer(data) =>
      && Fits(s.b, data) && s' == s.(phase := Out, b := s'.b, toClient := s'.toClient) && Came(Put(s.b, data), s'.b)
      && s.toClient <= s'.toClient <= s.toClient + Front(Put(s.b, data).All())
    case Complain(user) =>
      && s' == s.(phase := Out, b := s'.b, toClient := s'.toClient) && Came(Complained(s.b, user), s'.b)
      && s.toClient <= s'.toClient <= s.toClient + Relayed(Complained(s.b, user))
    case _ => false
  }

  predicate Possible(d: Door, s: State, e: Event)
  {
    Allowed(d, s, e.act) && (e.failed.Some? ==> Fails(d, s, e.act, e.failed.value))
  }

  function Next(d: Door, s: State, e: Event): State
    requires Allowed(d, s, e.act)
  {
    if e.failed.Some? then e.failed.value else Done(d, s, e.act)
  }

  function Run(d: Door, s0: State, t: seq<Event>): Option<State>
  {
    if t == [] then Some(s0)
    else
      match Run(d, s0, t[..|t| - 1])
      case None => None
      case Some(s) => if Possible(d, s, t[|t| - 1]) then Some(Next(d, s, t[|t| - 1])) else None
  }

  predicate Obeys(d: Door, s0: State, t: seq<Event>)
  {
    Run(d, s0, t).Some?
  }

  function At(d: Door, s0: State, t: seq<Event>): State
    requires Obeys(d, s0, t)
  {
    Run(d, s0, t).value
  }

  /** Nothing failed. */
  predicate Smooth(t: seq<Event>)
  {
    forall k :: 0 <= k < |t| ==> t[k].failed.None?
  }

  lemma Append(d: Door, s0: State, t: seq<Event>, e: Event)
    requires Obeys(d, s0, t)
    ensures Obeys(d, s0, t + [e]) <==> Possible(d, At(d, s0, t), e)
    ensures Obeys(d, s0, t + [e]) ==> At(d, s0, t + [e]) == Next(d, At(d, s0, t), e)
  {
    hide Possible, Next;
    assert (t + [e])[..|t + [e]| - 1] == t;
  }

  /** Every step of a run is one the code comes to. */
  lemma {:induction false} StepAt(d: Door, s0: State, t: seq<Event>, k: nat)
    requires Obeys(d, s0, t) && k <= |t|
    ensures Obeys(d, s0, t[..k])
    ensures k < |t| ==> Possible(d, At(d, s0, t[..k]), t[k]) && Obeys(d, s0, t[..k + 1])
    ensures k < |t| ==> At(d, s0, t[..k + 1]) == Next(d, At(d, s0, t[..k]), t[k])
    decreases |t|
  {
    hide Possible, Next;
    if k < |t| {
      StepAt(d, s0, t[..|t| - 1], k);
      assert t[..|t| - 1][..k] == t[..k];
      if k == |t| - 1 {
        assert t[..k + 1] == t;
      } else {
        assert t[..|t| - 1][..k + 1] == t[..k + 1];
      }
    } else {
      assert t[..k] == t;
    }
  }

  /** A client that has just connected. */
  predicate Starts(s: State)
  {
    s.phase.Await? && s.b.held == [] && s.b.Ok() && s.params == [] && s.username == None
  }

  // Who is let in.

  /** A password message was shown whose 32 digits are the digest of the hash of the user named last and the salt. */
  predicate Proves(d: Door, s: State, e: Event)
  {
    && e.act.Check? && e.act.view == s.b.held && s.username.Some?
    && var hash := Authdb.Lookup(d.authdb, s.username.value);
       hash.Some? && |e.act.view| >= 40 && e.act.view[0] == PASSWORD && e.act.view[8..40] == Token(hash.value, d.salt)
  }

  predicate Welcome(p: Phase)
  {
    p.Right? || p.Admit? || p.Ready? || p.In?
  }

  /** At the step before `k` the client proved that it knows the password of the user it named, and nothing that
      happened since changed who it is. */
  predicate ProvedAt(d: Door, s0: State, t: seq<Event>, k: nat)
    requires Obeys(d, s0, t) && k < |t|
  {
    StepAt(d, s0, t, k);
    && Proves(d, At(d, s0, t[..k]), t[k]) && At(d, s0, t).username == At(d, s0, t[..k]).username
    && forall j | k < j < |t| :: t[j].act.Drop? || t[j].act.Answer?
  }

  /** Whatever the client sends and whatever fails, only a client that has proved it is let in. */
  lemma {:induction false} OnlyThePasswordLetsIn(d: Door, s0: State, t: seq<Event>)
    requires Obeys(d, s0, t) && !Welcome(s0.phase) && Welcome(At(d, s0, t).phase)
    ensures exists k | 0 <= k < |t| :: ProvedAt(d, s0, t, k)
    decreases |t|
  {
    hide Allowed, Done, Fails, Proves;
    if t != [] {
      var n := |t| - 1;
      StepAt(d, s0, t, n);
      assert t[..n + 1] == t;
      var s := At(d, s0, t[..n]);
      WelcomeStep(d, s, t[n]);
      if t[n].act.Check? {
        assert ProvedAt(d, s0, t, n);
      } else {
        OnlyThePasswordLetsIn(d, s0, t[..n]);
        var k :| 0 <= k < n && ProvedAt(d, s0, t[..n], k);
        StillProved(d, s0, t, k);
      }
    }
  }

  lemma WelcomeStep(d: Door, s: State, e: Event)
    requires Possible(d, s, e) && Welcome(Next(d, s, e).phase)
    ensures e.act.Check? ==> Proves(d, s, e) && Next(d, s, e).username == s.username
    ensures !e.act.Check? ==> Welcome(s.phase) && (e.act.Drop? || e.act.Answer?) && Next(d, s, e).username == s.username
  {
    hide Extract, Token, Hear, Take, Came, Size;
  }

  lemma StillProved(d: Door, s0: State, t: seq<Event>, k: nat)
    requires Obeys(d, s0, t) && k < |t| - 1 && Obeys(d, s0, t[..|t| - 1]) && ProvedAt(d, s0, t[..|t| - 1], k)
    requires t[|t| - 1].act.Drop? || t[|t| - 1].act.Answer?
    requires At(d, s0, t).username == At(d, s0, t[..|t| - 1]).username
    ensures ProvedAt(d, s0, t, k)
  {
    hide Possible, Next, Proves, Run;
    StepAt(d, s0, t, k);
    StepAt(d, s0, t[..|t| - 1], k);
    assert t[..|t| - 1][..k] == t[..k] && t[..|t| - 1][k] == t[k];
    forall j | k < j < |t|
      ensures t[j].act.Drop? || t[j].act.Answer?
    {
      assert j < |t| - 1 ==> t[..|t| - 1][j] == t[j];
    }
  }

  lemma {:induction false} LastNamedTwice(p: seq<Param>, q: seq<Param>, key: Bytes, was: Option<Bytes>)
    ensures LastNamed(p + q, key, was) == LastNamed(q, key, LastNamed(p, key, was))
    decreases |q|
  {
    if q == [] {
      assert p + q == p;
    } else {
      assert (p + q)[..|p + q| - 1] == p + q[..|q| - 1];
      LastNamedTwice(p, q[..|q| - 1], key, was);
    }
  }

  /** The user is the last one the client named. */
  lemma {:induction false} UserIsLastNamed(d: Door, s0: State, t: seq<Event>)
    requires Obeys(d, s0, t) && Starts(s0) && !At(d, s0, t).phase.Out?
    ensures At(d, s0, t).username
         == LastNamed(At(d, s0, t).params, ['u' as int, 's' as int, 'e' as int, 'r' as int], None)
    decreases |t|
  {
    hide Allowed, Done, Fails, LastNamed;
    if t == [] {
      NobodyNamed();
    } else {
      var n := |t| - 1;
      StepAt(d, s0, t, n);
      assert t[..n + 1] == t;
      var s := At(d, s0, t[..n]);
      NameStep(d, s, t[n]);
      UserIsLastNamed(d, s0, t[..n]);
    }
  }

  lemma NobodyNamed()
    ensures LastNamed([], UserKey(), None) == None
  {
  }

  lemma NameStep(d: Door, s: State, e: Event)
    requires Possible(d, s, e)
    ensures !s.phase.Out?
    ensures s.username == LastNamed(s.params, UserKey(), None) && !Next(d, s, e).phase.Out? ==>
              Next(d, s, e).username == LastNamed(Next(d, s, e).params, UserKey(), None)
  {
    hide Extract, LastNamed, Memory, Hear, Take, Came, Size, UserKey, DatabaseKey, Accepts;
    if e.act.Name? {
      LastNamedTwice(s.params, Extract(Memory(s.b.held, e.act.stale)).0, UserKey(), None);
    }
  }

  /** A startup message that has been read to the middle of the user's name into a buffer that is otherwise still
      zero: it is the front of that name whose password is asked for. */
  lemma CutNameIsLookedUp(d: Door, s: State, name: Bytes, k: nat, stale: Bytes)
    requires Allowed(d, s, Name(stale)) && AllZero(stale) && NulFree(name) && 0 < k < |name|
    requires |StartupPayload([Param(UserKey(), name)])| + 4 < 0x100_0000
    requires s.b.held == Untyped(StartupPayload([Param(UserKey(), name)]))[..13 + k]
    ensures var s' := Done(d, s, Name(stale));
            && s'.phase.Named? && s'.username == Some(name[..k])
            && d.Hash(s'.username) == Authdb.Lookup(d.authdb, name[..k])
  {
    hide Extract, MsgType, Htonl, Authdb.Lookup;
    var params := [Param(UserKey(), name)];
    HeaderOf(StartupPayload(params), s.b.held);
    assert Memory(s.b.held, stale) == Pairs(params)[..5 + k] + stale by {
      assert Untyped(StartupPayload(params))[8..] == Pairs(params) + [NUL];
      assert s.b.held[8..] == Untyped(StartupPayload(params))[8..][..5 + k];
    }
    NameCutShort(UserKey(), name, k, stale);
    assert [Param(UserKey(), name[..k])][..0] == [];
  }

  lemma HeaderOf(payload: Bytes, held: Bytes)
    requires |payload| + 4 < 0x100_0000 && held != [] && held <= Untyped(payload)
    ensures held[0] == NUL
  {
  }

  // Where the octets that are looked at come from.

  /** What is held is the end of all that was put into the buffer: of the client's octets up to those still to come,
      and of the answers, each in their order. */
  ghost predicate Known(client: Bytes, answers: Bytes, b: Buf)
  {
    exists gone, taken :: taken + b.rest == client && Woven(gone + b.held, taken, answers)
  }

  lemma KnownCame(client: Bytes, answers: Bytes, b: Buf, b': Buf)
    requires Known(client, answers, b) && Came(b, b')
    ensures Known(client, answers, b')
  {
    hide Woven;
    var gone, taken :| taken + b.rest == client && Woven(gone + b.held, taken, answers);
    var x := RestCame(b.held, b.rest, b'.held, b'.rest);
    var read := b.rest[..|b.rest| - |b'.rest|];
    assert b.rest == read + b'.rest;
    MoreOfFirst(gone + b.held, taken, answers, read);
    Associates(taken, read, b'.rest);
    SameEnd(gone, x, b.held, read, b'.held, b'.rest);
    assert (taken + read) + b'.rest == client && Woven((gone + x) + b'.held, taken + read, answers);
  }

  /** `x` is what is gone. */
  lemma RestCame(held: Bytes, rest: Bytes, held': Bytes, rest': Bytes) returns (x: Bytes)
    requires EndsIn(held + rest, held' + rest') && |rest'| <= |rest|
    ensures held + rest == x + (held' + rest') && rest == rest[..|rest| - |rest'|] + rest'
  {
    var all, all' := held + rest, held' + rest';
    x := all[..|all| - |all'|];
    assert all == x + all';
    assert rest' == all'[|held'|..] == all[|all| - |rest'|..];
    assert rest[|rest| - |rest'|..] == all[|all| - |rest'|..];
  }

  lemma SameEnd(gone: Bytes, x: Bytes, held: Bytes, read: Bytes, held': Bytes, rest': Bytes)
    requires held + (read + rest') == x + (held' + rest')
    ensures (gone + held) + read == (gone + x) + held'
  {
    Associates(held, read, rest');
    Associates(x, held', rest');
    var n := |held + read|;
    assert |held + read| == |x + held'|;
    assert (held + read + rest')[..n] == held + read;
    assert (x + held' + rest')[..n] == x + held';
    Associates(gone, held, read);
    Associates(gone, x, held');
  }

  lemma KnownPut(client: Bytes, answers: Bytes, b: Buf, data: Bytes)
    requires Known(client, answers, b) && b.Ok() && Fits(b, data)
    ensures Known(client, answers + data, Put(b, data))
  {
    hide Woven;
    var gone, taken :| taken + b.rest == client && Woven(gone + b.held, taken, answers);
    MoreOfSecond(gone + b.held, taken, answers, data);
    Associates(gone, b.held, data);
    assert taken + Put(b, data).rest == client && Woven(gone + Put(b, data).held, taken, answers + data);
  }

  function Answers(t: seq<Event>): Bytes
  {
    if t == [] then [] else Answers(t[..|t| - 1]) + (if t[|t| - 1].act.Answer? then t[|t| - 1].act.data else [])
  }

  /** What an act does to the buffer. */
  lemma BufferStep(d: Door, s: State, e: Event)
    requires Possible(d, s, e) && !Next(d, s, e).phase.Out?
    ensures !s.phase.Out? && s.b.Ok()
    ensures !e.act.Answer? ==> Came(s.b, Next(d, s, e).b)
    ensures e.act.Answer? ==> Fits(s.b, e.act.data) && Came(Put(s.b, e.act.data), Next(d, s, e).b)
  {
    hide Extract, LastNamed, Memory, Hear, Take, Came, Size, Accepts, MsgType, Front, HasFrame;
    if e.act.Receive? {
      HearCame(s.b, d.pace);
    } else if e.act.Answer? {
      if Fits(s.b, e.act.data) {
        TakeCame(Put(s.b, e.act.data), d.pace);
      }
    } else {
      TakeCame(s.b, d.pace);
      SameCame(s.b);
    }
  }

  lemma HearCame(b: Buf, pace: Pace)
    requires b.Ok()
    ensures Came(b, Hear(b, pace))
  {
    hide Hearing;
    EndsInItself(b.All());
  }

  lemma TakeCame(b: Buf, pace: Pace)
    requires b.Ok()
    ensures Came(b, Take(b, pace))
  {
    hide Taking, Size;
    TakeEndsIn(b, pace);
  }

  lemma SameCame(b: Buf)
    requires b.Ok()
    ensures Came(b, b)
  {
    EndsInItself(b.All());
  }

  /** Whatever fails, what is looked at is woven from what the client sent and what it was answered: nothing is made
      up, and nothing is out of order. */
  lemma {:induction false} NothingMadeUp(d: Door, s0: State, t: seq<Event>)
    requires Obeys(d, s0, t) && Starts(s0) && !At(d, s0, t).phase.Out?
    ensures Known(s0.b.All(), Answers(t), At(d, s0, t).b)
    decreases |t|
  {
    hide Allowed, Done, Fails, Known, Came, Fits;
    if t == [] {
      NothingKnown(s0.b);
    } else {
      var n := |t| - 1;
      StepAt(d, s0, t, n);
      assert t[..n + 1] == t;
      var s, s' := At(d, s0, t[..n]), At(d, s0, t);
      BufferStep(d, s, t[n]);
      NothingMadeUp(d, s0, t[..n]);
      var r, client := Answers(t[..n]), s0.b.All();
      if t[n].act.Answer? {
        KnownPut(client, r, s.b, t[n].act.data);
        KnownCame(client, r + t[n].act.data, Put(s.b, t[n].act.data), s'.b);
      } else {
        assert r + [] == r;
        KnownCame(client, r, s.b, s'.b);
      }
    }
  }

  lemma NothingKnown(b: Buf)
    requires b.held == []
    ensures Known(b.All(), [], b)
  {
    assert [] + b.rest == b.All() && Woven([] + b.held, [], []);
  }

  /** A client that waits for each answer before it goes on: nothing more of it is buffered when it is answered. */
  predicate Waits(d: Door, s0: State, t: seq<Event>)
    requires Obeys(d, s0, t)
  {
    forall k | 0 <= k < |t| && t[k].act.Answer? :: AtAnswer(d, s0, t, k).b.held == []
  }

  function AtAnswer(d: Door, s0: State, t: seq<Event>, k: nat): State
    requires Obeys(d, s0, t) && k < |t|
  {
    StepAt(d, s0, t, k);
    At(d, s0, t[..k])
  }

  /** What the router has said, as it was meant. */
  function Said(t: seq<Event>): Bytes
  {
    if t == [] then []
    else
      Said(t[..|t| - 1]) + match t[|t| - 1].act
                           case Answer(data) => data
                           case Decline => NO
                           case _ => []
  }

  /** For such a client what is looked at is always a piece of what it sent, and it receives exactly the answers. */
  lemma {:induction false} WaitingClient(d: Door, s0: State, t: seq<Event>)
    requires Obeys(d, s0, t) && !At(d, s0, t).phase.Out? && Waits(d, s0, t)
    ensures EndsIn(s0.b.All(), At(d, s0, t).b.All())
    ensures At(d, s0, t).toClient == s0.toClient + Said(t)
    decreases |t|
  {
    hide Allowed, Done, Fails, EndsIn, Came;
    EndsInItself(s0.b.All());
    if t == [] {
      assert s0.toClient + [] == s0.toClient;
    } else {
      var n := |t| - 1;
      StepAt(d, s0, t, n);
      assert t[..n + 1] == t;
      var s, s' := At(d, s0, t[..n]), At(d, s0, t);
      BufferStep(d, s, t[n]);
      StillWaits(d, s0, t);
      WaitingClient(d, s0, t[..n]);
      WaitingStep(d, s, t[n]);
      EndsInTwice(s0.b.All(), s.b.All(), s'.b.All());
      Associates(s0.toClient, Said(t[..n]), match t[n].act case Answer(data) => data case Decline => NO case _ => []);
    }
  }

  lemma StillWaits(d: Door, s0: State, t: seq<Event>)
    requires Obeys(d, s0, t) && t != [] && Waits(d, s0, t)
    ensures Obeys(d, s0, t[..|t| - 1]) && Waits(d, s0, t[..|t| - 1])
    ensures t[|t| - 1].act.Answer? ==> At(d, s0, t[..|t| - 1]).b.held == []
  {
    hide Possible, Next, Run;
    var n := |t| - 1;
    StepAt(d, s0, t, n);
    forall k | 0 <= k < n && t[..n][k].act.Answer?
      ensures AtAnswer(d, s0, t[..n], k).b.held == []
    {
      StepAt(d, s0, t, k);
      assert t[..n][..k] == t[..k];
      assert AtAnswer(d, s0, t, k).b.held == [];
    }
    assert t[n].act.Answer? ==> AtAnswer(d, s0, t, n).b.held == [];
  }

  lemma WaitingStep(d: Door, s: State, e: Event)
    requires Possible(d, s, e) && !Next(d, s, e).phase.Out? && (e.act.Answer? ==> s.b.held == [])
    ensures EndsIn(s.b.All(), Next(d, s, e).b.All())
    ensures Next(d, s, e).toClient == s.toClient + match e.act
                                                   case Answer(data) => data
                                                   case Decline => NO
                                                   case _ => []
  {
    hide Extract, LastNamed, Memory, Hear, Take, Size, Accepts, MsgType, Front, HasFrame, EndsIn;
    EndsInItself(s.b.All());
    BufferStep(d, s, e);
    assert s.toClient + [] == s.toClient;
    if e.act.Answer? {
      AnswersFrame(d, s.phase, e.act.data);
      AnsweredAlone(s.b, e.act.data, d.pace);
    }
  }

  /** With nothing else buffered, an answer goes out as it is, and nothing of what is to come is touched. */
  lemma AnsweredAlone(b: Buf, data: Bytes, pace: Pace)
    requires b.Ok() && b.held == [] && Fits(b, data) && HasFrame(data) && Size(data) == |data|
    ensures Front(Put(b, data).All()) == data && HasFrame(Put(b, data).All())
    ensures Take(Put(b, data), pace) == b
  {
    assert Put(b, data).held == data;
    assert (data + b.rest)[..|data|] == data;
    SizeOfPrefix(data + b.rest, |data|);
    TakingDone(data, b.rest, |data|, b.len - b.Start(), pace, []);
  }

  /** An answer that is put behind octets that do not begin like it goes out as it is if and only if there are none:
      otherwise what goes out begins with them. */
  lemma AnswerGoesOutIff(b: Buf, data: Bytes)
    requires b.Ok() && Fits(b, data) && HasFrame(data) && Size(data) == |data|
    requires b.held == [] || b.held[0] != data[0]
    ensures Front(Put(b, data).All()) == data <==> b.held == []
  {
    var all := Put(b, data).All();
    assert all == b.held + (data + b.rest);
    if b.held == [] {
      assert (data + b.rest)[..|data|] == data;
      SizeOfPrefix(data + b.rest, |data|);
    } else {
      assert Front(all) != [] ==> Front(all)[0] == all[0] == b.held[0];
    }
  }

  /** In any case it does if and only if the stream begins like that anyway. */
  lemma AnswerIsFrontIff(b: Buf, data: Bytes)
    requires b.Ok() && Fits(b, data) && HasFrame(data) && Size(data) == |data|
    ensures Front(Put(b, data).All()) == data <==> data <= b.held + data + b.rest
  {
    var all := Put(b, data).All();
    assert all == b.held + data + b.rest;
    if data <= all {
      assert all[..|data|] == data;
      SizeOfPrefix(all, |data|);
    }
  }

  /** When the client has sent a whole message more already, that one is sent back to it instead of the answer. */
  lemma AnswerBouncesMessage(b: Buf, data: Bytes)
    requires b.Ok() && Fits(b, data) && HasFrame(b.held)
    ensures Front(Put(b, data).All()) == Front(b.held)
  {
    var all := Put(b, data).All();
    assert all[..|b.held|] == b.held;
    SizeOfPrefix(all, |b.held|);
    assert all[..Size(all)] == b.held[..Size(all)];
  }

  /** After a wrong password: with nothing else buffered, all of the ErrorResponse goes out when it fits, and behind it
      the next octet of the client's own, if it has sent one: its length field counts one octet too many. */
  lemma WrongPasswordIsTold(d: Door, s: State, user: Bytes)
    requires Allowed(d, s, Complain(user)) && s.b.held == [] && Fits(s.b, ErrorResponse(user))
    requires |ErrorResponse(user)| < 0x100_0000
    ensures Done(d, s, Complain(user)).toClient == s.toClient + (ErrorResponse(user) + Cut(s.b.rest, 1))
    ensures BigEndian32(ErrorResponse(user)[1..]) == |ErrorResponse(user)|
  {
    hide Complained, ErrorResponse, Take, Size, U32;
    PutTogether(s.b, user);
    ErrorIsLong(user, s.b.rest);
    assert [] + ErrorResponse(user) == ErrorResponse(user);
  }

  lemma PutTwice(b: Buf, x: Bytes, y: Bytes)
    requires b.Ok() && Fits(b, x + y)
    ensures Put(Put(b, x), y) == Put(b, x + y) && Fits(b, x)
  {
    Associates(b.held, x, y);
  }

  lemma PutTogether(b: Buf, user: Bytes)
    requires b.Ok() && Fits(b, ErrorResponse(user))
    ensures Complained(b, user) == Put(b, ErrorResponse(user))
  {
    hide Put, Fits, Text, Reason, ErrorLength;
    var s1 := [0x45] + ErrorLength(user);
    var s2 := s1 + [0x53] + (Text("ERROR") + [NUL]);
    var s3 := s2 + [0x43] + (Text("28P01") + [NUL]);
    var s4 := s3 + [0x4d] + (Reason(user) + [NUL]);
    PutTwice(b, s4, [NUL]);
    PutTwice(b, s3 + [0x4d], Reason(user) + [NUL]);
    PutTwice(b, s3, [0x4d]);
    PutTwice(b, s2 + [0x43], Text("28P01") + [NUL]);
    PutTwice(b, s2, [0x43]);
    PutTwice(b, s1 + [0x53], Text("ERROR") + [NUL]);
    PutTwice(b, s1, [0x53]);
    PutTwice(b, [0x45], ErrorLength(user));
  }

  lemma ErrorIsLong(user: Bytes, rest: Bytes)
    requires |ErrorResponse(user)| < 0x100_0000
    ensures var m := ErrorResponse(user);
            |m| >= 5 && BigEndian32(m[1..]) == |m| && Front(m + rest) == m + Cut(rest, 1)
  {
    hide Text, Reason;
    var m, v := ErrorResponse(user), ErrorLength(user);
    assert |m| == 22 + |Reason(user)|;
    assert m[1..][..4] == v && (m + rest)[1..][..4] == v;
    assert (m + rest)[0] == 0x45 && Size(m + rest) == |m| + 1;
    assert rest != [] ==> (m + rest)[..|m| + 1] == m + rest[..1];
  }

  /** What it says, field by field. */
  lemma ErrorShows(user: Bytes)
    ensures var m := ErrorResponse(user);
            && |m| == 64 + |user| && m[0] == 'E' as int
            && m[5..12] == ['S' as int, 'E' as int, 'R' as int, 'R' as int, 'O' as int, 'R' as int, 0]
            && m[12..20] == ['C' as int, '2' as int, '8' as int, 'P' as int, '0' as int, '1' as int, 0, 'M' as int]
            && (forall k | 0 <= k < 41 :: m[20 + k] as int == "password authentication failed for user \""[k] as int)
            && m[61..] == user + ['"' as int, 0, 0]
  {
    hide ErrorLength, Text;
    SeverityIs();
    assert ErrorResponse(user)[5..12] == [0x53] + (Text("ERROR") + [NUL]);
    assert ErrorResponse(user)[12..20] == [0x43] + (Text("28P01") + [NUL]) + [0x4d];
    TextIs("password authentication failed for user \"");
    TextIs("\"");
    assert Text("\"") == ['"' as int];
    assert |Reason(user)| == 42 + |user|;
  }

  lemma TextIs(s: string)
    requires forall k | 0 <= k < |s| :: s[k] as int < 0x80
    ensures forall k | 0 <= k < |s| :: Text(s)[k] as int == s[k] as int
  {
  }

  lemma SeverityIs()
    ensures Text("ERROR") == ['E' as int, 'R' as int, 'R' as int, 'O' as int, 'R' as int]
    ensures Text("28P01") == ['2' as int, '8' as int, 'P' as int, '0' as int, '1' as int]
  {
  }

  /** The router's own messages are whole frames. */
  lemma AnswersFrame(d: Door, phase: Phase, data: Bytes)
    requires d.Valid() && (data == AuthMd5(d.salt) || data == AUTH_OK || data == READY)
    ensures HasFrame(data) && Size(data) == |data|
  {
    if data == AUTH_OK {
      assert AUTH_OK[1..][..4] == [0, 0, 0, 8];
    } else if data == READY {
      assert READY[1..][..4] == [0, 0, 0, 5];
    } else {
      assert AuthMd5(d.salt)[1..][..4] == [0, 0, 0, 0x0c];
    }
  }

  // The client that knows its password.

  /** Two lower-case hexadecimal digits for each octet, the high one first. */
  function Digits(s: Bytes): (h: Bytes)
    ensures |h| == 2 * |s|
  {
    seq(2 * |s|, k requires 0 <= k < 2 * |s| =>
          "0123456789abcdef"[if k % 2 == 0 then s[k / 2] / 16 else s[k / 2] % 16] as int)
  }

  /** What such a client has to say: whether it asks for SSL first, its parameters, the hash of its password and what it
      will ask for when it is in. */
  datatype Client = Client(ssl: bool, params: seq<Param>, hash: Bytes, more: Bytes)
  {
    predicate Short() { |Pairs(params)| + 9 <= 512 && |hash| == 32 }

    /** An SSLRequest, as section "Message Formats" of the protocol has it. */
    function Asks(): Bytes
    {
      if ssl then [0, 0, 0, 8, 0x04, 0xd2, 0x16, 0x2f] else []
    }

    /** Protocol version 3.0, its parameters and a NUL. */
    function Hello(): Bytes
      requires Short()
    {
      Htonl(|Pairs(params)| + 9) + [0, 3, 0, 0] + Pairs(params) + [0]
    }

    /** The digest of the hash and the salt, behind "md5". */
    function Proof(salt: Bytes): Bytes
      requires Short()
    {
      [0x70, 0, 0, 0, 40, 0x6d, 0x64, 0x35] + Digits(Digest(hash + salt)) + [0]
    }

    function Start(salt: Bytes): Bytes
      requires Short()
    {
      Hello() + (Proof(salt) + more)
    }
  }

  lemma HelloIs(c: Client)
    requires c.Short()
    ensures |StartupPayload(c.params)| == |Pairs(c.params)| + 5 && c.Hello() == Untyped(StartupPayload(c.params))
  {
    hide Pairs, Htonl;
    Associates(Htonl(|Pairs(c.params)| + 9), [0, 3, 0, 0], Pairs(c.params));
    assert c.Hello() == Untyped(StartupPayload(c.params));
  }

  lemma TokenDigits(hash: Bytes, salt: Bytes)
    ensures Token(hash, salt) == Digits(Digest(hash + salt))
  {
    hide Digest, HexOf;
    var d := Digest(hash + salt);
    HexDigits(d);
    forall k | 0 <= k < 2 * |d|
      ensures Digits(d)[k] == HexOf(d)[k]
    {
      assert k == 2 * (k / 2) || k == 2 * (k / 2) + 1;
    }
  }

  lemma ProofIs(c: Client, salt: Bytes)
    requires c.Short()
    ensures c.Proof(salt) == PasswordMessage(c.hash, salt)
  {
    hide Digest, Digits, Token;
    TokenDigits(c.hash, salt);
    assert c.hash[..32] == c.hash;
  }

  /** It is known, its startup message fits into the buffer and is not taken for a CancelRequest, and all of its
      parameters, of which the last one called "user" counts, have a name and a value. */
  predicate Honest(d: Door, c: Client, user: Bytes)
  {
    && d.Valid() && Strings(c.params) && AllNamed(c.params) && c.Short() && |Pairs(c.params)| + 9 != 16
    && LastNamed(c.params, ['u' as int, 's' as int, 'e' as int, 'r' as int], None) == Some(user)
    && Authdb.Lookup(d.authdb, user) == Some(c.hash)
  }

  /** It waits for the answers: each of its messages is read alone. */
  predicate ReadsAlone(d: Door, c: Client)
    requires c.Short()
  {
    var proof := c.Proof(d.salt);
    && (c.ssl ==> Hearing([], c.Asks() + c.Start(d.salt), 512, d.pace) == Stream(c.Asks(), c.Start(d.salt)))
    && Hearing([], c.Start(d.salt), 512, d.pace) == Stream(c.Hello(), proof + c.more)
    && Hearing([], proof + c.more, 512, d.pace) == Stream(proof, c.more)
  }

  /** Where the conversation with such a client stands `k` acts after it has been told that there is no SSL. */
  function Standing(d: Door, c: Client, s0: State, k: nat): State
    requires c.Short()
  {
    var proof := c.Proof(d.salt);
    var named := s0.(params := c.params, username := LastNamed(c.params, UserKey(), None),
                     database := LastNamed(c.params, DatabaseKey(), s0.database));
    var b := s0.b;
    var greeted := s0.toClient + AuthMd5(d.salt);
    if k == 0 then s0
    else if k == 1 then s0.(phase := Look, b := b.(held := c.Hello(), rest := proof + c.more))
    else if k == 2 then named.(phase := Named, b := b.(held := c.Hello(), rest := proof + c.more))
    else if k == 3 then named.(phase := Greet, b := b.(held := [], rest := proof + c.more))
    else if k == 4 then named.(phase := Await, b := b.(held := [], rest := proof + c.more), toClient := greeted)
    else if k == 5 then named.(phase := Look, b := b.(held := proof, rest := c.more), toClient := greeted)
    else if k == 6 then named.(phase := Right, b := b.(held := proof, rest := c.more), toClient := greeted)
    else if k == 7 then named.(phase := Admit, b := b.(held := [], rest := c.more), toClient := greeted)
    else if k == 8 then named.(phase := Ready, b := b.(held := [], rest := c.more), toClient := greeted + AUTH_OK)
    else named.(phase := In, b := b.(held := [], rest := c.more), toClient := greeted + AUTH_OK + READY)
  }

  /** ... and with what comes before that. */
  function Stage(d: Door, c: Client, s0: State, k: nat): State
    requires c.Short()
  {
    if !c.ssl then Standing(d, c, s0, k)
    else
      if k < 3 then SslStage(s0, c.Start(d.salt), k)
      else Standing(d, c, SslStage(s0, c.Start(d.salt), 3), k - 3)
  }

  /** The start of a conversation with it. */
  predicate Connects(d: Door, c: Client, s0: State)
    requires c.Short()
  {
    s0.phase.Await? && s0.params == [] && s0.username == None
    && s0.b == Buf(512, [], false, [], c.Asks() + c.Start(d.salt))
  }

  /** How many acts it takes. */
  function Acts(c: Client): nat
  {
    if c.ssl then 12 else 9
  }

  /** A client that is known, knows its password and waits for the answers, whether it asks for SSL first or not, is let
      in, whatever stale octets lie in the buffer and whatever it will say next; and it is told so. */
  lemma {:induction false} HonestClientGetsIn(d: Door, c: Client, user: Bytes, s0: State, t: seq<Event>)
    requires Honest(d, c, user) && ReadsAlone(d, c) && Connects(d, c, s0)
    requires Obeys(d, s0, t) && Smooth(t)
    ensures |t| <= Acts(c) && At(d, s0, t) == Stage(d, c, s0, |t|)
    ensures !At(d, s0, t).phase.Out? && (At(d, s0, t).phase.In? ==> |t| == Acts(c))
    ensures |t| == Acts(c) ==>
              var s := At(d, s0, t);
              && s.phase.In? && s.b.held == [] && s.b.rest == c.more && s.username == Some(user)
              && s.database == LastNamed(c.params, ['d' as int, 'a' as int, 't' as int, 'a' as int, 'b' as int,
                                                    'a' as int, 's' as int, 'e' as int], s0.database)
              && s.toClient == s0.toClient + (if c.ssl then ['N' as int] else [])
                               + (['R' as int, 0, 0, 0, 12, 0, 0, 0, 5] + d.salt)
                               + ['R' as int, 0, 0, 0, 8, 0, 0, 0, 0] + ['Z' as int, 0, 0, 0, 5, 'I' as int]
    decreases |t|
  {
    hide Possible, Next, ReadsAlone, Connects, Stage, Strings, AllNamed, LastNamed;
    BeginsAwaiting(d, c, s0);
    if t == [] {
      Begins(d, c, user, s0);
    } else {
      var n := |t| - 1;
      StepAt(d, s0, t, n);
      assert t[..n + 1] == t;
      HonestClientGetsIn(d, c, user, s0, t[..n]);
      NextStage(d, c, user, s0, n, t[n]);
    }
    IsToldSo(d, c, user, s0);
    NotYetIn(d, c, user, s0, |t|);
  }

  lemma NotYetIn(d: Door, c: Client, user: Bytes, s0: State, k: nat)
    requires Honest(d, c, user) && s0.phase.Await? && k <= Acts(c)
    ensures !Stage(d, c, s0, k).phase.Out? && (Stage(d, c, s0, k).phase.In? ==> k == Acts(c))
  {
    hide LastNamed, Client.Start, Client.Hello, Client.Proof, Strings, AllNamed;
  }

  lemma Begins(d: Door, c: Client, user: Bytes, s0: State)
    requires Honest(d, c, user)
    ensures Stage(d, c, s0, 0) == s0
  {
    hide LastNamed, Client.Start;
  }

  lemma BeginsAwaiting(d: Door, c: Client, s0: State)
    requires c.Short() && Connects(d, c, s0)
    ensures s0.phase.Await?
  {
  }

  lemma IsToldSo(d: Door, c: Client, user: Bytes, s0: State)
    requires Honest(d, c, user) && Connects(d, c, s0)
    ensures var s := Stage(d, c, s0, Acts(c));
            && s.phase.In? && s.b.held == [] && s.b.rest == c.more && s.username == Some(user)
            && s.database == LastNamed(c.params, ['d' as int, 'a' as int, 't' as int, 'a' as int, 'b' as int,
                                                  'a' as int, 's' as int, 'e' as int], s0.database)
            && s.toClient == s0.toClient + (if c.ssl then ['N' as int] else [])
                             + (['R' as int, 0, 0, 0, 12, 0, 0, 0, 5] + d.salt)
                             + ['R' as int, 0, 0, 0, 8, 0, 0, 0, 0] + ['Z' as int, 0, 0, 0, 5, 'I' as int]
  {
    hide LastNamed, Client.Start, UserKey, DatabaseKey;
    KeysAre();
    assert s0.toClient + [] == s0.toClient;
  }

  lemma KeysAre()
    ensures UserKey() == ['u' as int, 's' as int, 'e' as int, 'r' as int]
    ensures DatabaseKey() == ['d' as int, 'a' as int, 't' as int, 'a' as int,
                              'b' as int, 'a' as int, 's' as int, 'e' as int]
  {
  }

  lemma NextStage(d: Door, c: Client, user: Bytes, s0: State, k: nat, e: Event)
    requires Honest(d, c, user) && ReadsAlone(d, c) && Connects(d, c, s0) && k <= Acts(c)
    requires Possible(d, Stage(d, c, s0, k), e) && e.failed.None?
    ensures k < Acts(c) && Next(d, Stage(d, c, s0, k), e) == Stage(d, c, s0, k + 1)
  {
    hide Possible, Next, Standing, Connects, ReadsAlone, SslStage, Strings, AllNamed, LastNamed, Client.Start;
    var start := c.Start(d.salt);
    Starting(d, c, s0);
    if !c.ssl {
      StandingNext(d, c, user, s0, k, e);
    } else if k >= 3 {
      StandingNext(d, c, user, SslStage(s0, start, 3), k - 3, e);
    } else {
      SslStep(d, s0, start, k, e);
      StandsFirst(d, c, SslStage(s0, start, 3));
    }
  }

  lemma Starting(d: Door, c: Client, s0: State)
    requires c.Short() && ReadsAlone(d, c) && Connects(d, c, s0)
    ensures var s := if c.ssl then SslStage(s0, c.Start(d.salt), 3) else s0;
            && s.phase.Await? && s.params == [] && s.username == None
            && s.b == Buf(512, [], false, [], c.Start(d.salt))
    ensures c.ssl ==> AsksForSsl(d, s0, c.Start(d.salt))
  {
    hide Hearing, Client.Start;
    assert [] + c.Start(d.salt) == c.Start(d.salt);
  }

  lemma StandsFirst(d: Door, c: Client, s0: State)
    requires c.Short()
    ensures Standing(d, c, s0, 0) == s0
  {
  }

  lemma StandingNext(d: Door, c: Client, user: Bytes, s0: State, k: nat, e: Event)
    requires Honest(d, c, user) && ReadsAlone(d, c) && k <= 9
    requires s0.phase.Await? && s0.params == [] && s0.username == None
    requires s0.b == Buf(512, [], false, [], c.Start(d.salt))
    requires Possible(d, Standing(d, c, s0, k), e) && e.failed.None?
    ensures k < 9 && Next(d, Standing(d, c, s0, k), e) == Standing(d, c, s0, k + 1)
  {
    hide Client.Hello, Client.Proof, Pairs, Extract, Hearing, Taking, Size, MsgType, Memory, AllNamed,
         Strings, UserKey, DatabaseKey, LastNamed, Accepts, AuthMd5, HasFrame, Front, Fails;
    var s := Standing(d, c, s0, k);
    if k == 0 || k == 4 {
    } else if k == 1 {
      HelloIsHeard(d, c, user, e);
    } else if k == 2 || k == 6 {
      HelloIsHeard(d, c, user, e);
      ProofIsHeard(d, c, user);
      WholeTaken(s.b, d.pace);
    } else if k == 5 {
      ProofIsHeard(d, c, user);
      KeysAre();
    } else if k == 3 || k == 7 || k == 8 {
      AnswersFrame(d, s.phase, if k == 3 then AuthMd5(d.salt) else if k == 7 then AUTH_OK else READY);
      AnsweredAlone(s.b, if k == 3 then AuthMd5(d.salt) else if k == 7 then AUTH_OK else READY, d.pace);
    }
  }

  lemma WholeTaken(b: Buf, pace: Pace)
    requires b.Ok() && |b.held| >= 5 && Size(b.held) == |b.held| && b.Start() < b.len
    ensures Take(b, pace) == b.(held := [])
  {
    TakingDone(b.held, b.rest, |b.held|, b.len - b.Start(), pace, []);
  }

  lemma HelloIsHeard(d: Door, c: Client, user: Bytes, e: Event)
    requires Honest(d, c, user)
    ensures MsgType(c.Hello()) == MSG_STARTUP && Size(c.Hello()) == |c.Hello()| >= 5
    ensures e.act.Name? ==> Extract(Memory(c.Hello(), e.act.stale)) == (c.params, true)
  {
    hide Pairs, Htonl, Extract, AllNamed, Strings, LastNamed, Client.Hello;
    HelloIs(c);
    ClassifiedIff(c.params, []);
    assert c.Hello() + [] == c.Hello();
    UntypedSizeExact(StartupPayload(c.params));
    LengthField(StartupPayload(c.params), []);
    if e.act.Name? {
      StartupRoundTripIff(c.params, e.act.stale);
    }
  }

  lemma ProofIsHeard(d: Door, c: Client, user: Bytes)
    requires Honest(d, c, user)
    ensures var proof := c.Proof(d.salt);
            && MsgType(proof) == PASSWORD && Size(proof) == |proof| == 41
            && Accepts(proof, Some(c.hash), d.salt)
  {
    hide AllNamed, Strings, LastNamed, Accepts, MsgType, Size, Pairs, Client.Proof;
    ProofIs(c, d.salt);
    var proof := c.Proof(d.salt);
    PasswordFrames(c.hash, d.salt, []);
    PasswordAcceptedIff(c.hash, d.salt, c.hash, d.salt, []);
    assert proof + [] == proof;
  }

  /** Such a client can be: its messages are read alone when each read ends where a message does. */
  lemma WaitingIsPossible(d: Door, c: Client) returns (pace: Pace)
    requires c.Short()
    ensures ReadsAlone(d.(pace := pace), c)
  {
    hide Hearing, ReadSize, Client.Hello, Client.Proof;
    Lengths(c, d.salt);
    var hello, proof := c.Hello(), c.Proof(d.salt);
    var total := |c.Start(d.salt)|;
    pace := (rest: nat) => if rest == total then |hello| - 1 else if rest == total + 8 then 7 else 40;
    ReadsOf(hello, proof + c.more, pace);
    ReadsOf(proof, c.more, pace);
    if c.ssl {
      ReadsOf(c.Asks(), c.Start(d.salt), pace);
    }
  }

  lemma Lengths(c: Client, salt: Bytes)
    requires c.Short()
    ensures 5 <= |c.Hello()| <= 512 && |c.Proof(salt)| == 41
  {
    hide Pairs, Htonl, Digits;
  }

  lemma ReadsOf(message: Bytes, more: Bytes, pace: Pace)
    requires 5 <= |message| <= 512 && pace(|message + more|) == |message| - 1
    ensures Hearing([], message + more, 512, pace) == Stream(message, more)
  {
    hide Hearing;
    HearsAlone(message, more, 512, pace);
  }

  // An SSLRequest.

  /** Where the conversation stands after `k` acts on an SSLRequest that is read alone. */
  function SslStage(s0: State, rest: Bytes, k: nat): State
  {
    var b := s0.b.(held := [], rest := rest);
    if k == 0 then s0
    else if k == 1 then s0.(phase := Look, b := b.(held := [0, 0, 0, 8, 0x04, 0xd2, 0x16, 0x2f]))
    else if k == 2 then s0.(phase := Declining, b := b)
    else s0.(b := b, toClient := s0.toClient + ['N' as int])
  }

  /** The next message of the client's is an SSLRequest, and it is read alone. */
  predicate AsksForSsl(d: Door, s: State, rest: Bytes)
  {
    && s.phase.Await? && s.b == Buf(512, [], false, [], [0, 0, 0, 8, 0x04, 0xd2, 0x16, 0x2f] + rest)
    && Hearing([], [0, 0, 0, 8, 0x04, 0xd2, 0x16, 0x2f] + rest, 512, d.pace)
       == Stream([0, 0, 0, 8, 0x04, 0xd2, 0x16, 0x2f], rest)
  }

  lemma SslStep(d: Door, s0: State, rest: Bytes, k: nat, e: Event)
    requires AsksForSsl(d, s0, rest) && k < 3 && Possible(d, SslStage(s0, rest, k), e) && e.failed.None?
    ensures Next(d, SslStage(s0, rest, k), e) == SslStage(s0, rest, k + 1)
  {
    hide Extract, Hearing, Taking, Size, MsgType, Memory, LastNamed, Accepts, HasFrame, Front, Fails;
    var request := [0, 0, 0, 8, 0x04, 0xd2, 0x16, 0x2f];
    SslRequestIs(request);
    WholeTaken(SslStage(s0, rest, 1).b, d.pace);
  }

  lemma SslRequestIs(v: Bytes)
    requires v == [0, 0, 0, 8, 0x04, 0xd2, 0x16, 0x2f]
    ensures MsgType(v) == MSG_SSLREQ && Size(v) == |v| == 8
  {
    SslRequestIff(v);
  }

  /** Such a client gets exactly an N; its message is gone, and the conversation awaits the next one. */
  lemma SslIsDeclined(d: Door, s0: State, rest: Bytes, t: seq<Event>)
    requires AsksForSsl(d, s0, rest) && Obeys(d, s0, t) && Smooth(t) && |t| == 3
    ensures At(d, s0, t) == s0.(b := Buf(512, [], false, [], rest), toClient := s0.toClient + ['N' as int])
  {
    hide Possible, Next, AsksForSsl;
    SslRun(d, s0, rest, t);
    ItsBuffer(d, s0, rest);
  }

  /** A CancelRequest that is read alone is dropped, and nothing else happens. */
  lemma CancelIsIgnored(d: Door, s0: State, secret: Bytes, rest: Bytes, t: seq<Event>)
    requires |secret| == 12 && s0.phase.Await? && s0.b == Buf(512, [], false, [], [0, 0, 0, 16] + secret + rest)
    requires Hearing([], [0, 0, 0, 16] + secret + rest, 512, d.pace) == Stream([0, 0, 0, 16] + secret, rest)
    requires Obeys(d, s0, t) && Smooth(t) && |t| == 2
    ensures At(d, s0, t) == s0.(b := Buf(512, [], false, [], rest))
  {
    hide Possible, Next;
    var s1 := s0.(phase := Look, b := Buf(512, [], false, [0, 0, 0, 16] + secret, rest));
    StepAt(d, s0, t, 0);
    StepAt(d, s0, t, 1);
    assert t[..2] == t && t[..0] == [];
    IsHeard(d, s0, s1, t[0]);
    IsIgnored(d, s1, secret, t[1]);
  }

  lemma IsHeard(d: Door, s: State, s': State, e: Event)
    requires s.phase.Await? && Possible(d, s, e) && e.failed.None?
    requires s.b.Ok() && s' == s.(phase := Look, b := s'.b) && s'.b == Hear(s.b, d.pace)
    ensures Next(d, s, e) == s'
  {
    hide Hear, Extract, MsgType;
  }

  lemma IsIgnored(d: Door, s: State, secret: Bytes, e: Event)
    requires |secret| == 12 && s.phase.Look? && s.b == Buf(512, [], false, [0, 0, 0, 16] + secret, s.b.rest)
    requires Possible(d, s, e) && e.failed.None?
    ensures Next(d, s, e) == s.(phase := Await, b := s.b.(held := []))
  {
    hide Extract, Taking, Size, MsgType, Memory, LastNamed, Accepts, Fails;
    CancelIs([0, 0, 0, 16] + secret);
    WholeTaken(s.b, d.pace);
  }

  lemma CancelIs(v: Bytes)
    requires |v| == 16 && v[..4] == [0, 0, 0, 16]
    ensures MsgType(v) == MSG_CANCEL && Size(v) == 16
  {
    CancelIff(v);
    assert v[0] == v[..4][0] && v[1] == v[..4][1] && v[2] == v[..4][2] && v[3] == v[..4][3];
  }

  // Those who are turned away.

  /** A message of any other type ends the conversation, and nothing is sent. */
  lemma OtherMessageEnds(d: Door, s0: State, t: seq<Event>)
    requires s0.phase.Look? && s0.b.Ok() && s0.b.held != [] && 3 < s0.b.held[0] && s0.b.held[0] != 'p' as int
    requires Obeys(d, s0, t) && Smooth(t) && |t| == 1
    ensures At(d, s0, t).phase.Out? && At(d, s0, t).toClient == s0.toClient
  {
    hide Extract, MsgType, Take, LastNamed, Accepts, Memory;
    StepAt(d, s0, t, 0);
    assert t[..1] == t && t[..0] == [];
    TypeOctet(s0.b.held);
  }

  /** The password message of a client that does not know the password, or whose user is not known. */
  predicate Guesses(d: Door, s: State, user: Bytes, guess: Bytes)
  {
    && d.Valid() && s.phase.Look? && s.username == Some(user) && |guess| == 32 && |user| <= 448
    && s.b == Buf(512, [], false, [0x70, 0, 0, 0, 40, 0x6d, 0x64, 0x35] + guess + [0], s.b.rest)
    && (Authdb.Lookup(d.authdb, user).Some? ==>
          guess != Digits(Digest(Authdb.Lookup(d.authdb, user).value + d.salt)))
  }

  /** It ends the conversation, and the client is told why. */
  lemma WrongPasswordEnds(d: Door, s0: State, user: Bytes, guess: Bytes, t: seq<Event>)
    requires Guesses(d, s0, user, guess) && Obeys(d, s0, t) && Smooth(t) && |t| == 3
    ensures At(d, s0, t).phase.Out?
    ensures At(d, s0, t).toClient == s0.toClient + (ErrorResponse(user) + Cut(s0.b.rest, 1))
  {
    hide Possible, Next, Guesses, ErrorResponse;
    StepAt(d, s0, t, 0);
    StepAt(d, s0, t, 1);
    StepAt(d, s0, t, 2);
    assert t[..3] == t && t[..0] == [];
    IsWrong(d, s0, user, guess, t[0]);
    WrongIsDropped(d, s0, user, guess, t[1]);
    IsTold(d, s0, user, guess, t[2]);
  }

  lemma IsWrong(d: Door, s: State, user: Bytes, guess: Bytes, e: Event)
    requires Guesses(d, s, user, guess) && Possible(d, s, e) && e.failed.None?
    ensures Next(d, s, e) == s.(phase := Wrong)
  {
    hide Extract, MsgType, Take, LastNamed, Accepts, Memory, Authdb.Lookup, Digest, Digits;
    var hash := Authdb.Lookup(d.authdb, user);
    GuessIs(s.b.held, guess, hash, d.salt);
  }

  lemma GuessIs(v: Bytes, guess: Bytes, hash: Option<Bytes>, salt: Bytes)
    requires |guess| == 32 && v == [0x70, 0, 0, 0, 40, 0x6d, 0x64, 0x35] + guess + [0]
    requires hash.Some? ==> guess != Digits(Digest(hash.value + salt))
    ensures MsgType(v) == PASSWORD && Size(v) == |v| == 41 && !Accepts(v, hash, salt)
  {
    hide Digest, Digits, Token;
    TypeOctet(v);
    assert v[1..][..4] == [0, 0, 0, 40] && v[8..40] == guess;
    if hash.Some? {
      TokenDigits(hash.value, salt);
    }
  }

  lemma WrongIsDropped(d: Door, s: State, user: Bytes, guess: Bytes, e: Event)
    requires Guesses(d, s, user, guess) && Possible(d, s.(phase := Wrong), e) && e.failed.None?
    ensures Next(d, s.(phase := Wrong), e) == s.(phase := Sorry, b := s.b.(held := []))
  {
    hide Extract, MsgType, Taking, Size, LastNamed, Accepts, Memory, Authdb.Lookup, Digest, Digits, Fails;
    GuessIs(s.b.held, guess, Authdb.Lookup(d.authdb, user), d.salt);
    WholeTaken(s.b, d.pace);
  }

  lemma IsTold(d: Door, s: State, user: Bytes, guess: Bytes, e: Event)
    requires Guesses(d, s, user, guess) && e.failed.None?
    requires Possible(d, s.(phase := Sorry, b := s.b.(held := [])), e)
    ensures var s' := Next(d, s.(phase := Sorry, b := s.b.(held := [])), e);
            s'.phase.Out? && s'.toClient == s.toClient + (ErrorResponse(user) + Cut(s.b.rest, 1))
  {
    hide Extract, MsgType, Take, LastNamed, Accepts, Memory, Authdb.Lookup, Digest, Digits, Complained, ErrorResponse,
         Relayed;
    ErrorShows(user);
    WrongPasswordIsTold(d, s.(phase := Sorry, b := s.b.(held := [])), user);
  }

  lemma ItsBuffer(d: Door, s0: State, rest: Bytes)
    requires AsksForSsl(d, s0, rest)
    ensures s0.b.(held := [], rest := rest) == Buf(512, [], false, [], rest)
  {
  }

  lemma {:induction false} SslRun(d: Door, s0: State, rest: Bytes, t: seq<Event>)
    requires AsksForSsl(d, s0, rest) && Obeys(d, s0, t) && Smooth(t) && |t| <= 3
    ensures At(d, s0, t) == SslStage(s0, rest, |t|)
    decreases |t|
  {
    hide Possible, Next, AsksForSsl;
    if t != [] {
      var n := |t| - 1;
      StepAt(d, s0, t, n);
      assert t[..n + 1] == t;
      SslRun(d, s0, rest, t[..n]);
      SslStep(d, s0, rest, n, t[n]);
    }
  }

  lemma HearsAlone(message: Bytes, more: Bytes, room: nat, pace: Pace)
    requires |message| >= 5 && |message| == ReadSize(room, |message + more|, pace)
    ensures Hearing([], message + more, room, pace) == Stream(message, more)
  {
    hide Hearing, ReadSize;
    assert [] + (message + more) == message + more;
    HearingNext([], message + more, room, pace, message, more);
    HearingDone(message, more, room - |message|, pace);
  }
}
