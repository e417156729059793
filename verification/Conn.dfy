/** The two ends of a connection in src/conn.c: what the router says to a backend, and how it lets a client in. */
module Conn {
  import opened Wire
  import opened Streams
  import opened Buffer
  import opened Mbuf
  import opened Startup
  import opened Admission
  import opened Md5Spec
  import opened Md5Context
  import AuthText
  import Authdb

  class Connection {
    /** The entries that `pgr_auth_find` looks through. */
    const authdb: seq<AuthText.Entry>
    const salt: Bytes
    var params: seq<Param>
    var username: Option<Bytes>
    var database: Option<Bytes>
    var pwhash: Option<Bytes>

    constructor (authdb: seq<AuthText.Entry>, salt: Bytes)
      requires |salt| == 4
      ensures Valid() && this.authdb == authdb && this.salt == salt
      ensures params == [] && username == None && database == None && pwhash == None
    {
      this.authdb, this.salt := authdb, salt;
      params, username, database, pwhash := [], None, None, None;
    }

    /** A password hash is only ever that of the user who was named. */
    ghost predicate Valid()
      reads `username, `pwhash
    {
      |salt| == 4 && (username.Some? ==> pwhash == Authdb.Lookup(authdb, username.value))
      && (username.None? ==> pwhash.None?)
    }

    /** What is in the buffer after pieces that make up `done`: all of them if and only if they fit. */
    static ghost predicate Took(m: MBuf, base: Bytes, done: Bytes)
      requires m.Valid()
      reads m, m.buf
    {
      && |m.Buffered()| <= |base| + |done|
      && (m.Buffered() == base + done <==> m.start + |base| + |done| <= m.buf.Length)
    }

    /** One of the pieces of `startup_message`, whose result it ignores. */
    static method Piece(m: MBuf, data: Bytes, ghost base: Bytes, ghost done: Bytes)
      requires m.Valid() && Took(m, base, done)
      modifies m`fill, m.buf
      ensures m.Valid() && Took(m, base, done + data)
    {
      var _ := m.Cat(data);
      assert base + (done + data) == base + done + data;
    }

    method StartupLength() returns (len: nat)
      ensures len == |StartupPayload(params)| + 4
    {
      len := 4 + 4 + 1;
      for p := 0 to |params|
        invariant len == 9 + |Pairs(params[..p])|
      {
        PairsOneMore(params, p);
        len := len + |params[p].name| + 1 + |params[p].value| + 1;
      }
      assert params[..|params|] == params;
    }

    /** `startup_message` puts the whole message into the buffer if and only if there is room for it; it
        reports success in any case. */
    method StartupMessage(m: MBuf) returns (rc: int)
      requires m.Valid() && |StartupPayload(params)| + 4 < 0x1_0000_0000
      modifies m`fill, m.buf
      ensures m.Valid() && rc == 0
      ensures m.Buffered() == old(m.Buffered()) + Untyped(StartupPayload(params))
         <==> |Untyped(StartupPayload(params))| <= m.buf.Length - old(m.fill)
    {
      hide Took, Pairs, Htonl, StartupPayload, Untyped;
      ghost var base, front := m.Buffered(), Htonl(|StartupPayload(params)| + 4) + [0, 3, 0, 0];
      ghost var done: Bytes := [];
      NothingTook(m);
      PayloadIs(params);
      var len := StartupLength();
      Piece(m, Htonl(len), base, done);
      done := done + Htonl(len);
      Piece(m, [0, 3, 0, 0], base, done);
      done := done + [0, 3, 0, 0];
      for p := 0 to |params|
        invariant m.Valid() && Took(m, base, done) && done == front + Pairs(params[..p])
      {
        PairsOneMore(params, p);
        Piece(m, params[p].name + [NUL], base, done);
        done := done + (params[p].name + [NUL]);
        Piece(m, params[p].value + [NUL], base, done);
        done := done + (params[p].value + [NUL]);
        Regroup4(front, Pairs(params[..p]), params[p].name + [NUL], params[p].value + [NUL]);
      }
      Piece(m, [NUL], base, done);
      assert done + [NUL] == Untyped(StartupPayload(params));
      AllTook(m, base, Untyped(StartupPayload(params)));
      return 0;
    }

    static lemma NothingTook(m: MBuf)
      requires m.Valid()
      ensures Took(m, m.Buffered(), [])
    {
      assert m.Buffered() + [] == m.Buffered();
    }

    static lemma AllTook(m: MBuf, base: Bytes, done: Bytes)
      requires m.Valid() && Took(m, base, done)
      ensures m.Buffered() == base + done <==> m.start + |base| + |done| <= m.buf.Length
    {
    }

    /** `password_message` */
    method PasswordMessage(m: MBuf) returns (rc: int)
      requires m.Valid() && pwhash.Some? && |pwhash.value| >= 32
      modifies m`fill, m.buf
      ensures m.Valid()
      ensures rc == 0 <==> 41 <= m.buf.Length - old(m.fill)
      ensures rc == 0 ==> m.Buffered() == old(m.Buffered()) + Startup.PasswordMessage(pwhash.value, salt)
    {
      hide Startup.PasswordMessage;
      var message := PasswordText(pwhash.value, salt);
      rc := m.Cat(message);
    }

    /** The `user` and `database` parameters. */
    method Note(p: Param)
      requires Valid()
      modifies this`username, this`database, this`pwhash
      ensures Valid()
      ensures username == if p.name == UserKey() then Some(p.value) else old(username)
      ensures database == if p.name == DatabaseKey() then Some(p.value) else old(database)
    {
      if p.name == UserKey() {
        username := Some(p.value);
        pwhash := Authdb.Lookup(authdb, p.value);
        KeysDiffer();
      } else if p.name == DatabaseKey() {
        database := Some(p.value);
      }
    }

    /** `extract_params`: what the memory behind the message header holds is appended to the parameters. */
    method ExtractParams(m: MBuf) returns (rc: int)
      requires Valid() && m.Valid()
      modifies this`params, this`username, this`database, this`pwhash
      ensures Valid() && Has(Extract(Memory(m.Buffered(), m.buf[m.fill..])), old(params), old(username), old(database))
      ensures rc == if Extract(Memory(m.Buffered(), m.buf[m.fill..])).1 then 0 else -1
    {
      rc := ExtractFrom(Memory(m.Buffered(), m.buf[m.fill..]));
    }

    /** The connection has got these parameters since it had those. */
    ghost predicate Has(found: (seq<Param>, bool), params0: seq<Param>, username0: Option<Bytes>,
                        database0: Option<Bytes>)
      reads `params, `username, `database
    {
      && params == params0 + found.0
      && username == LastNamed(Counted(found), UserKey(), username0)
      && database == LastNamed(Counted(found), DatabaseKey(), database0)
    }

    /** The loop over names and values. */
    method ExtractFrom(memory: Bytes) returns (rc: int)
      requires Valid()
      modifies this`params, this`username, this`database, this`pwhash
      ensures Valid() && Has(Extract(memory), old(params), old(username), old(database))
      ensures rc == if Extract(memory).1 then 0 else -1
    {
      hide CString, Valid, Extract, Startup.Behind, Connection.Has, Prepend;
      var mem := memory;
      ghost var before: seq<Param>, all := [], Extract(mem);
      NothingExtracted(all);
      while mem != [] && mem[0] != NUL
        invariant Valid() && Has((before, true), old(params), old(username), old(database))
        invariant all == Prepend(before, Extract(mem))
        decreases |mem|
      {
        ExtractStep(mem, before);
        var name := CString(mem);
        var rest := Startup.Behind(mem, |name|);
        if rest == [] || rest[0] == NUL {
          Lack(name, before, old(params), old(username), old(database));
          return -1;
        }
        var p := Param(name, CString(rest));
        Keep(p, before, old(params), old(username), old(database));
        mem := Startup.Behind(rest, |p.value|);
        before := before + [p];
      }
      ExtractEnds(mem, before);
      return 0;
    }

    lemma NothingExtracted(all: (seq<Param>, bool))
      ensures all == Prepend([], all) && Has(([], true), params, username, database)
    {
      assert [] + all.0 == all.0 && params + [] == params;
    }

    /** A name without a value is kept, but does not count. */
    method Lack(name: Bytes, ghost before: seq<Param>, ghost params0: seq<Param>, ghost username0: Option<Bytes>,
                ghost database0: Option<Bytes>)
      requires Valid() && Has((before, true), params0, username0, database0)
      modifies this`params
      ensures Valid() && Has((before + [Param(name, [])], false), params0, username0, database0)
    {
      hide UserKey, DatabaseKey, LastNamed;
      params := params + [Param(name, [])];
      assert (before + [Param(name, [])])[..|before|] == before;
      assert params == params0 + (before + [Param(name, [])]);
    }

    method Keep(p: Param, ghost before: seq<Param>, ghost params0: seq<Param>, ghost username0: Option<Bytes>,
                ghost database0: Option<Bytes>)
      requires Valid() && Has((before, true), params0, username0, database0)
      modifies this`params, this`username, this`database, this`pwhash
      ensures Valid() && Has((before + [p], true), params0, username0, database0)
    {
      hide UserKey, DatabaseKey, LastNamed, Valid;
      params := params + [p];
      assert params == params0 + (before + [p]);
      Note(p);
      OneMoreNamed(before, p, UserKey(), username0);
      OneMoreNamed(before, p, DatabaseKey(), database0);
    }

    /** `check_auth` */
    method CheckAuth(m: MBuf) returns (rc: int)
      requires m.Valid() && |m.Buffered()| >= 1
      ensures rc == 0 <==> Accepts(m.Buffered(), pwhash, salt)
    {
      if pwhash.None? {
        return 1;
      }
      var hashed := Hashed(pwhash.value, salt);
      var v := m.Buffered();
      var at := 3 + (if v[0] == 0 then 0 else 1) + 4;
      if |v| < at + 32 {
        return 1;
      }
      return if v[at..at + 32] == hashed then 0 else 1;
    }

    // Letting a client in.

    ghost function Faults(m: MBuf): nat
      reads m`infd, m`outfd, m.infd, m.outfd
    {
      m.infd.faults + m.outfd.faults
    }

    /** The conversation stands where `s` says. */
    ghost predicate Stands(m: MBuf, s: State)
      reads `params, `username, `database, `pwhash, m`start, m`fill, m`cache, m`infd, m`outfd, m.buf, m.infd, m.outfd
    {
      && Valid() && m.Valid() && m.start == 0 && m.cache == None
      && s.b == m.Model() && s.params == params && s.username == username && s.database == database
      && s.toClient == m.outfd.written
    }

    ghost function Entrance(m: MBuf): Door
      reads m`infd
    {
      Door(authdb, salt, m.infd.pace)
    }

    lemma BufferIs(m: MBuf, s: State)
      requires Stands(m, s)
      ensures m.Valid() && s.b.Ok() && s.b.Start() == 0 && s.b.held == m.Buffered() && s.b.len == m.buf.Length
      ensures Entrance(m).Valid() && Entrance(m).Hash(username) == pwhash && s.username == username
      ensures |m.buf[m.fill..]| == s.b.len - |s.b.held|
    {
      m.ModelOk();
    }

    method Receive(m: MBuf, ghost s: State) returns (rc: int, ghost s': State)
      requires Stands(m, s) && s.phase.Await?
      modifies m`fill, m.buf, m.infd
      ensures Stands(m, s') && Faults(m) <= old(Faults(m))
      ensures StepsTo(Entrance(m), s, Act.Receive, s', Faults(m) == old(Faults(m)))
      ensures if rc < 0 then s'.phase.Out? else s'.phase.Look?
    {
      hide Hear, EndsIn, Valid, MBuf.Buffered, MBuf.Log, MBuf.Logical, Allowed, Done, Fails;
      BufferIs(m, s);
      m.ModelParts();
      rc := m.Recv();
      m.ModelOk();
      m.ModelParts();
      s' := s.(phase := if rc < 0 then Out else Look, b := m.Model());
      Received(Entrance(m), s, s');
    }

    /** `pgr_mbuf_discard`, where its result is ignored. */
    method DropFirst(m: MBuf, ghost s: State) returns (ghost s': State)
      requires Stands(m, s) && Allowed(Entrance(m), s, Act.Drop)
      modifies m`fill, m.buf, m.infd
      ensures Stands(m, s') && Faults(m) <= old(Faults(m))
      ensures StepsTo(Entrance(m), s, Act.Drop, s', Faults(m) == old(Faults(m))) && s'.phase == AfterDrop(s)
    {
      hide Take, EndsIn, Valid, MBuf.Buffered, MBuf.Log, MBuf.Logical, MsgType, AfterDrop, Allowed, Done, Fails;
      m.ModelParts();
      m.ModelOk();
      var _ := m.Discard();
      m.ModelOk();
      m.ModelParts();
      s' := s.(phase := AfterDrop(s), b := m.Model());
      Dropped(Entrance(m), s, s');
    }

    /** The answer to an SSLRequest. */
    method SayNo(m: MBuf, ghost s: State) returns (n: int, ghost s': State)
      requires Stands(m, s) && s.phase.Declining?
      modifies m.outfd
      ensures Stands(m, s') && Faults(m) <= old(Faults(m))
      ensures StepsTo(Entrance(m), s, Decline, s', Faults(m) == old(Faults(m)))
      ensures s'.phase == if n == 1 then Await else Out
    {
      hide Valid, MBuf.Buffered, MBuf.Log, MBuf.Logical;
      BufferIs(m, s);
      n := m.outfd.Write([0x4e]);
      assert n > 0 ==> NO[..n] == NO;
      s' := s.(phase := if n == 1 then Await else Out, toClient := m.outfd.written);
    }

    /** A message of the router's own goes through the same buffer: it is put behind what the client has sent
        already, and the first message in the buffer is passed on. */
    method Reply(m: MBuf, data: Bytes, ghost s: State) returns (rc: int, ghost s': State)
      requires Stands(m, s) && Allowed(Entrance(m), s, Answer(data)) && |data| >= 5
      modifies m`fill, m.buf, m.infd, m.outfd
      ensures Stands(m, s') && Faults(m) <= old(Faults(m))
      ensures StepsTo(Entrance(m), s, Answer(data), s', Faults(m) == old(Faults(m)))
      ensures s'.phase == if rc == 0 then AfterAnswer(s.phase) else Out
    {
      hide Take, EndsIn, Valid, MBuf.Log, MBuf.Logical, Front, HasFrame, AfterAnswer, Allowed, Done, Fails;
      m.ModelParts();
      m.ModelOk();
      rc := m.Cat(data);
      if rc == 0 {
        m.ModelParts();
        rc := m.Relay();
        m.ModelOk();
        m.ModelParts();
      }
      s' := s.(phase := if rc == 0 then AfterAnswer(s.phase) else Out, b := m.Model(), toClient := m.outfd.written);
      Answered(Entrance(m), s, data, s');
    }

    /** The parameters of a startup message. */
    method NameThem(m: MBuf, ghost s: State) returns (rc: int, ghost s': State, ghost a: Act)
      requires Stands(m, s) && s.phase.Look? && MsgType(s.b.held) == MSG_STARTUP
      modifies this`params, this`username, this`database, this`pwhash
      ensures Stands(m, s') && StepsTo(Entrance(m), s, a, s', true) && s'.b == s.b
      ensures s'.phase == if rc == 0 then Named else Out
    {
      hide Valid, MBuf.Buffered, MBuf.Model, MsgType, Extract, LastNamed, Counted, Memory;
      BufferIs(m, s);
      a := Name(m.buf[m.fill..]);
      rc := ExtractParams(m);
      s' := s.(phase := if rc == 0 then Named else Out, params := params, username := username, database := database);
    }

    method CheckIt(m: MBuf, ghost s: State) returns (rc: int, ghost s': State)
      requires Stands(m, s) && s.phase.Look? && MsgType(s.b.held) == PASSWORD && s.b.held != []
      ensures Stands(m, s') && StepsTo(Entrance(m), s, Check(s.b.held), s', true) && s'.b == s.b
      ensures s'.phase == if rc == 0 then Right else Wrong
    {
      hide Valid, MBuf.Model, Accepts, MsgType;
      BufferIs(m, s);
      rc := CheckAuth(m);
      s' := s.(phase := if rc == 0 then Right else Wrong);
    }

    /** An SSLRequest is declined. `f` is how many failures were to come at the start. */
    method AcceptSsl(m: MBuf, ghost f: nat, ghost s0: State, ghost t: seq<Event>, ghost s: State)
      returns (rc: Option<int>, ghost t': seq<Event>, ghost s': State)
      requires Stands(m, s) && s.phase.Look? && MsgType(s.b.held) == MSG_SSLREQ
      requires Trails(Entrance(m), s0, t, s, Faults(m) == f) && Faults(m) <= f
      modifies m`fill, m.buf, m.infd, m.outfd
      ensures Stands(m, s') && Trails(Entrance(m), s0, t', s', Faults(m) == f) && Faults(m) <= f
      ensures |t'| > |t| && Tells(rc, s'.phase)
    {
      hide Connection.Stands, MsgType, StepsTo, Trails;
      BufferIs(m, s);
      ghost var d, f0 := Entrance(m), Faults(m);
      s' := DropFirst(m, s);
      t' := Follow(d, s0, t, s, f0 == f, Act.Drop, s', Faults(m) == f0, Faults(m) == f);
      ghost var s1, f1 := s', Faults(m);
      var n;
      n, s' := SayNo(m, s1);
      t' := Follow(d, s0, t', s1, f1 == f, Decline, s', Faults(m) == f1, Faults(m) == f);
      rc := if n == 1 then None else Some(-1);
    }

    /** A CancelRequest is ignored. */
    method AcceptCancel(m: MBuf, ghost f: nat, ghost s0: State, ghost t: seq<Event>, ghost s: State)
      returns (ghost t': seq<Event>, ghost s': State)
      requires Stands(m, s) && s.phase.Look? && MsgType(s.b.held) == MSG_CANCEL
      requires Trails(Entrance(m), s0, t, s, Faults(m) == f) && Faults(m) <= f
      modifies m`fill, m.buf, m.infd
      ensures Stands(m, s') && Trails(Entrance(m), s0, t', s', Faults(m) == f) && Faults(m) <= f
      ensures |t'| > |t| && s'.phase.Await?
    {
      hide Connection.Stands, MsgType, StepsTo, Trails;
      BufferIs(m, s);
      ghost var d, f0 := Entrance(m), Faults(m);
      s' := DropFirst(m, s);
      t' := Follow(d, s0, t, s, f0 == f, Act.Drop, s', Faults(m) == f0, Faults(m) == f);
    }

    /** A startup message names the user and is answered with the salt. */
    method AcceptStartup(m: MBuf, ghost f: nat, ghost s0: State, ghost t: seq<Event>, ghost s: State)
      returns (rc: Option<int>, ghost t': seq<Event>, ghost s': State)
      requires Stands(m, s) && s.phase.Look? && MsgType(s.b.held) == MSG_STARTUP
      requires Trails(Entrance(m), s0, t, s, Faults(m) == f) && Faults(m) <= f
      modifies this`params, this`username, this`database, this`pwhash, m`fill, m.buf, m.infd, m.outfd
      ensures Stands(m, s') && Trails(Entrance(m), s0, t', s', Faults(m) == f) && Faults(m) <= f
      ensures |t'| > |t| && Tells(rc, s'.phase)
    {
      hide Connection.Stands, MsgType, StepsTo, Trails, AuthMd5, MBuf.Buffered, Valid;
      BufferIs(m, s);
      ghost var d, f0, a := Entrance(m), Faults(m), Act.Receive;
      var r;
      r, s', a := NameThem(m, s);
      t' := Follow(d, s0, t, s, f0 == f, a, s', true, Faults(m) == f);
      if r != 0 {
        return Some(r), t', s';
      }
      ghost var s1 := s';
      s' := DropFirst(m, s1);
      t' := Follow(d, s0, t', s1, f0 == f, Act.Drop, s', Faults(m) == f0, Faults(m) == f);
      ghost var s2, f1 := s', Faults(m);
      BufferIs(m, s2);
      r, s' := Reply(m, AuthMd5(salt), s2);
      t' := Follow(d, s0, t', s2, f1 == f, Answer(AuthMd5(salt)), s', Faults(m) == f1, Faults(m) == f);
      rc := if r != 0 then Some(r) else None;
    }

    /** A password lets the client in, or ends the conversation. */
    method AcceptPassword(m: MBuf, ghost f: nat, ghost s0: State, ghost t: seq<Event>, ghost s: State)
      returns (rc: int, ghost t': seq<Event>, ghost s': State)
      requires Stands(m, s) && s.phase.Look? && MsgType(s.b.held) == PASSWORD && s.b.held != []
      requires Trails(Entrance(m), s0, t, s, Faults(m) == f) && Faults(m) <= f
      modifies m`fill, m.buf, m.infd, m.outfd
      ensures Stands(m, s') && Trails(Entrance(m), s0, t', s', Faults(m) == f) && Faults(m) <= f
      ensures |t'| > |t| && s'.phase == if rc == 0 then In else Out
    {
      hide Connection.Stands, MsgType, StepsTo, Trails;
      BufferIs(m, s);
      ghost var d, f0 := Entrance(m), Faults(m);
      rc, s' := CheckIt(m, s);
      t' := Follow(d, s0, t, s, f0 == f, Check(s.b.held), s', true, Faults(m) == f);
      ghost var s1 := s';
      BufferIs(m, s1);
      s' := DropFirst(m, s1);
      t' := Follow(d, s0, t', s1, f0 == f, Act.Drop, s', Faults(m) == f0, Faults(m) == f);
      ghost var t2, s2 := t', s';
      if rc == 0 {
        rc, t', s' := LetIn(m, f, s0, t2, s2);
      } else {
        t', s' := TurnAway(m, f, s0, t2, s2);
        rc := 1;
      }
    }

    /** The end of `pgr_conn_accept`, for a client whose password was wrong. */
    method TurnAway(m: MBuf, ghost f: nat, ghost s0: State, ghost t: seq<Event>, ghost s: State)
      returns (ghost t': seq<Event>, ghost s': State)
      requires Stands(m, s) && s.phase.Sorry?
      requires Trails(Entrance(m), s0, t, s, Faults(m) == f) && Faults(m) <= f
      modifies m`fill, m.buf, m.infd, m.outfd
      ensures Stands(m, s') && Trails(Entrance(m), s0, t', s', Faults(m) == f) && Faults(m) <= f
      ensures |t'| > |t| && s'.phase.Out?
    {
      hide Connection.Stands, MsgType, StepsTo, Trails;
      BufferIs(m, s);
      ghost var d, f0 := Entrance(m), Faults(m);
      var user: Bytes := *;
      if username.Some? {
        user := username.value;
      }
      s' := Complain(m, user, s);
      t' := Follow(d, s0, t, s, f0 == f, Act.Complain(user), s', Faults(m) == f0, Faults(m) == f);
    }

    /** `error_response`, whose parts are put behind each other as far as they fit, and `pgr_mbuf_relay`. */
    method Complain(m: MBuf, user: Bytes, ghost s: State) returns (ghost s': State)
      requires Stands(m, s) && Allowed(Entrance(m), s, Act.Complain(user))
      modifies m`fill, m.buf, m.infd, m.outfd
      ensures Stands(m, s') && Faults(m) <= old(Faults(m))
      ensures StepsTo(Entrance(m), s, Act.Complain(user), s', Faults(m) == old(Faults(m))) && s'.phase.Out?
    {
      hide Take, EndsIn, Valid, MBuf.Log, MBuf.Logical, Front, HasFrame, Allowed, Done, Fails, Complained;
      m.ModelOk();
      ErrorIn(m, user);
      m.ModelOk();
      m.ModelParts();
      var _ := m.Relay();
      m.ModelOk();
      m.ModelParts();
      s' := s.(phase := Out, b := m.Model(), toClient := m.outfd.written);
      Complains(Entrance(m), s, user, s');
    }

    /** `error_response` */
    method ErrorIn(m: MBuf, user: Bytes)
      requires m.Valid() && m.Settled()
      modifies m`fill, m.buf
      ensures m.Valid() && m.Settled() && old(m.Model()).Ok() && m.Model() == Complained(old(m.Model()), user)
    {
      hide Put, MBuf.Model, Buf.Ok, Text, Reason, ErrorLength;
      m.ModelOk();
      Add(m, [0x45]);
      Add(m, ErrorLength(user));
      Add(m, [0x53]);
      Add(m, Text("ERROR") + [NUL]);
      Add(m, [0x43]);
      Add(m, Text("28P01") + [NUL]);
      Add(m, [0x4d]);
      Add(m, Reason(user) + [NUL]);
      Add(m, [NUL]);
    }

    /** `pgr_mbuf_cat`, where its result is ignored. */
    method Add(m: MBuf, data: Bytes)
      requires m.Valid() && m.Settled()
      modifies m`fill, m.buf
      ensures m.Valid() && m.Settled()
      ensures old(m.Model()).Ok() && m.Model().Ok() && m.Model() == Put(old(m.Model()), data)
    {
      m.ModelOk();
      var _ := m.Cat(data);
      m.ModelOk();
    }

    /** The end of `pgr_conn_accept`, for a client whose password was right. */
    method LetIn(m: MBuf, ghost f: nat, ghost s0: State, ghost t: seq<Event>, ghost s: State)
      returns (rc: int, ghost t': seq<Event>, ghost s': State)
      requires Stands(m, s) && s.phase.Admit?
      requires Trails(Entrance(m), s0, t, s, Faults(m) == f) && Faults(m) <= f
      modifies m`fill, m.buf, m.infd, m.outfd
      ensures Stands(m, s') && Trails(Entrance(m), s0, t', s', Faults(m) == f) && Faults(m) <= f
      ensures |t'| > |t| && s'.phase == if rc == 0 then In else Out
    {
      hide Connection.Stands, MsgType, StepsTo, Trails;
      BufferIs(m, s);
      ghost var d, f0 := Entrance(m), Faults(m);
      rc, s' := Reply(m, AUTH_OK, s);
      t' := Follow(d, s0, t, s, f0 == f, Answer(AUTH_OK), s', Faults(m) == f0, Faults(m) == f);
      if rc != 0 {
        return;
      }
      ghost var s1, f1 := s', Faults(m);
      BufferIs(m, s1);
      rc, s' := Reply(m, READY, s1);
      t' := Follow(d, s0, t', s1, f1 == f, Answer(READY), s', Faults(m) == f1, Faults(m) == f);
    }

    /** One message from a client, in `pgr_conn_accept`, and what to return if it is the last. */
    method AcceptOne(m: MBuf, ghost f: nat, ghost s0: State, ghost t: seq<Event>, ghost s: State)
      returns (rc: Option<int>, ghost t': seq<Event>, ghost s': State)
      requires Stands(m, s) && s.phase.Await?
      requires Trails(Entrance(m), s0, t, s, Faults(m) == f) && Faults(m) <= f
      modifies this`params, this`username, this`database, this`pwhash, m`fill, m.buf, m.infd, m.outfd
      ensures Stands(m, s') && Trails(Entrance(m), s0, t', s', Faults(m) == f) && Faults(m) <= f
      ensures |t'| > |t| && Tells(rc, s'.phase)
    {
      hide Connection.Stands, MsgType, StepsTo, Trails;
      BufferIs(m, s);
      ghost var d, f0 := Entrance(m), Faults(m);
      var n;
      n, s' := Receive(m, s);
      t' := Follow(d, s0, t, s, f0 == f, Act.Receive, s', Faults(m) == f0, Faults(m) == f);
      if n < 0 {
        return Some(-1), t', s';
      }
      ghost var t1, s1 := t', s';
      BufferIs(m, s1);
      KindOf(s1.b.held);
      var kind := MsgType(m.Buffered());
      if kind == MSG_SSLREQ {
        rc, t', s' := AcceptSsl(m, f, s0, t1, s1);
      } else if kind == MSG_CANCEL {
        t', s' := AcceptCancel(m, f, s0, t1, s1);
        rc := None;
      } else if kind == MSG_STARTUP {
        rc, t', s' := AcceptStartup(m, f, s0, t1, s1);
      } else if kind == PASSWORD {
        var r;
        r, t', s' := AcceptPassword(m, f, s0, t1, s1);
        rc := Some(r);
      } else {
        s' := s1.(phase := Out);
        StillStands(m, s1, s');
        t' := Follow(d, s0, t1, s1, Faults(m) == f, GiveUp, s', true, Faults(m) == f);
        rc := Some(-1);
      }
    }

    lemma StillStands(m: MBuf, s: State, s': State)
      requires Stands(m, s) && s.phase.Look? && s' == s.(phase := Out)
      requires MsgType(s.b.held) !in {MSG_SSLREQ, MSG_CANCEL, MSG_STARTUP, PASSWORD}
      ensures Stands(m, s') && StepsTo(Entrance(m), s, GiveUp, s', true)
    {
      hide MsgType;
      BufferIs(m, s);
    }

    /** `pgr_conn_accept`, for at most `rounds` messages; without a result when they are not enough. The conversation
        is the run `t` of the machine, and the connection and the descriptors are where it leads; 0 is returned
        exactly when the machine lets the client in. */
    method Accept(infd: InFd, outfd: OutFd, rounds: nat) returns (rc: Option<int>, ghost t: seq<Event>, ghost s: State)
      requires Valid()
      modifies this`params, this`username, this`database, this`pwhash, infd, outfd
      ensures Valid() && Run(Door(authdb, salt, infd.pace), old(Met(infd, outfd)), t) == Some(s)
      ensures s.params == params && s.username == username && s.database == database
      ensures s.toClient == outfd.written && s.b.rest == infd.unread
      ensures Tells(rc, s.phase) && (rc.None? ==> |t| >= rounds)
      ensures infd.faults == old(infd.faults) && outfd.faults == old(outfd.faults) ==> Smooth(t)
      // only a client that shows the right password is let in
      ensures rc == Some(0) ==> pwhash.Some? && exists k | 0 <= k < |t| ::
                ProvedAt(Door(authdb, salt, infd.pace), old(Met(infd, outfd)), t, k)
    {
      hide Connection.Stands, Trails, ProvedAt;
      ghost var s0 := Met(infd, outfd);
      var m := new MBuf(512, infd, outfd, 0);
      ghost var f := Faults(m);
      t, s := [], s0;
      Begins(m, s0);
      for i := 0 to rounds
        invariant m.infd == infd && m.outfd == outfd
        invariant Stands(m, s) && s.phase.Await? && Trails(Entrance(m), s0, t, s, Faults(m) == f) && Faults(m) <= f
        invariant |t| >= i
      {
        ghost var t0, s1 := t, s;
        rc, t, s := AcceptOne(m, f, s0, t0, s1);
        if rc.Some? {
          Comes(m, f, s0, t, s);
          return;
        }
      }
      Comes(m, f, s0, t, s);
      return None, t, s;
    }

    /** A conversation with a client begins. */
    ghost function Met(infd: InFd, outfd: OutFd): State
      reads `params, `username, `database, infd, outfd
    {
      State(Await, Buf(512, [], false, [], infd.unread), params, username, database, outfd.written)
    }

    lemma Begins(m: MBuf, s0: State)
      requires Valid() && m.Valid() && m.start == m.fill == 0 && m.cache == None && m.buf.Length == 512
      requires s0 == Met(m.infd, m.outfd)
      ensures Stands(m, s0) && Trails(Entrance(m), s0, [], s0, true)
    {
    }

    lemma Comes(m: MBuf, f: nat, s0: State, t: seq<Event>, s: State)
      requires Stands(m, s) && Trails(Entrance(m), s0, t, s, Faults(m) == f) && s0.phase.Await?
      ensures Valid() && Run(Entrance(m), s0, t) == Some(s) && (Faults(m) == f ==> Smooth(t))
      ensures s.params == params && s.username == username && s.database == database
      ensures s.toClient == m.outfd.written && s.b.rest == m.infd.unread
      ensures s.phase.In? ==> pwhash.Some? && exists k | 0 <= k < |t| :: ProvedAt(Entrance(m), s0, t, k)
    {
      hide Run, MBuf.Log, MBuf.Buffered, Smooth, Proves;
      if s.phase.In? {
        OnlyThePasswordLetsIn(Entrance(m), s0, t);
        ItIsKnown(Entrance(m), s0, t);
      }
    }
  }

  lemma Received(d: Door, s: State, s': State)
    requires d.Valid() && s.b.Ok() && s.phase.Await? && Came(s.b, s'.b)
    requires s' == s.(phase := s'.phase, b := s'.b)
    ensures Allowed(d, s, Act.Receive) && (s'.phase.Out? ==> Fails(d, s, Act.Receive, s'))
    ensures s'.b == Hear(s.b, d.pace) && s'.phase.Look? ==> s' == Done(d, s, Act.Receive)
  {
    hide Hear, Came;
  }

  lemma Dropped(d: Door, s: State, s': State)
    requires Allowed(d, s, Act.Drop) && Came(s.b, s'.b) && s' == s.(phase := AfterDrop(s), b := s'.b)
    ensures Fails(d, s, Act.Drop, s') && (s'.b == Take(s.b, d.pace) ==> s' == Done(d, s, Act.Drop))
  {
    hide Take, Came, AfterDrop, MsgType;
  }

  lemma Answered(d: Door, s: State, data: Bytes, s': State)
    requires Allowed(d, s, Answer(data)) && s' == s.(phase := s'.phase, b := s'.b, toClient := s'.toClient)
    ensures !Fits(s.b, data) && s' == s.(phase := Out) ==> s' == Done(d, s, Answer(data))
    ensures Fits(s.b, data) && s'.phase.Out? && Came(Put(s.b, data), s'.b)
            && s.toClient <= s'.toClient <= s.toClient + Front(Put(s.b, data).All()) ==>
              Fails(d, s, Answer(data), s')
    ensures Fits(s.b, data) && s'.phase == (if HasFrame(Put(s.b, data).All()) then AfterAnswer(s.phase) else Out)
            && s'.b == Take(Put(s.b, data), d.pace) && s'.toClient == s.toClient + Front(Put(s.b, data).All()) ==>
              s' == Done(d, s, Answer(data))
  {
    hide Take, Came, AfterAnswer, MsgType, Front, HasFrame;
  }

  lemma Complains(d: Door, s: State, user: Bytes, s': State)
    requires Allowed(d, s, Complain(user)) && s' == s.(phase := Out, b := s'.b, toClient := s'.toClient)
    requires Came(Complained(s.b, user), s'.b)
    requires s.toClient <= s'.toClient <= s.toClient + Relayed(Complained(s.b, user))
    ensures Fails(d, s, Complain(user), s')
    ensures s'.b == Take(Complained(s.b, user), d.pace)
            && s'.toClient == s.toClient + Relayed(Complained(s.b, user)) ==>
              s' == Done(d, s, Complain(user))
  {
    hide Take, Came, MsgType, Front, HasFrame, Complained;
  }

  /** What `Accept` promises of a client that is known, knows its password and waits for the answers, when nothing
      fails and the conversation is watched long enough: 0 is returned, and the client is told so. */
  lemma KnownClientIsAccepted(d: Door, c: Client, user: Bytes, s0: State, t: seq<Event>, s: State, rc: Option<int>,
                              rounds: nat)
    requires Honest(d, c, user) && ReadsAlone(d, c) && Connects(d, c, s0)
    requires Run(d, s0, t) == Some(s) && Smooth(t)
    requires Tells(rc, s.phase) && (rc.None? ==> |t| >= rounds) && rounds >= 13
    ensures rc == Some(0) && s.username == Some(user) && s.b.rest == c.more
    ensures s.toClient == s0.toClient + (if c.ssl then ['N' as int] else [])
                          + (['R' as int, 0, 0, 0, 12, 0, 0, 0, 5] + d.salt)
                          + ['R' as int, 0, 0, 0, 8, 0, 0, 0, 0] + ['Z' as int, 0, 0, 0, 5, 'I' as int]
  {
    hide Run, Smooth, ReadsAlone, Honest, Connects, Stage, LastNamed;
    HonestClientGetsIn(d, c, user, s0, t);
  }

  /** A client on fresh descriptors that is in the authdb, knows its password and waits for the answers: it is let in,
      and is sent exactly the answers; what it will say next is still to come. */
  method AcceptKnown(conn: Connection, infd: InFd, outfd: OutFd, rounds: nat, ghost c: Client, ghost user: Bytes)
    returns (rc: Option<int>)
    requires conn.Valid() && conn.params == [] && conn.username == None && conn.pwhash == None
    requires Honest(Door(conn.authdb, conn.salt, infd.pace), c, user)
    requires ReadsAlone(Door(conn.authdb, conn.salt, infd.pace), c)
    requires infd.unread == c.Asks() + (c.Hello() + (c.Proof(conn.salt) + c.more)) && rounds >= 13
    modifies conn`params, conn`username, conn`database, conn`pwhash, infd, outfd
    ensures infd.faults == old(infd.faults) && outfd.faults == old(outfd.faults) ==>
              && rc == Some(0) && conn.username == Some(user) && infd.unread == c.more
              && outfd.written == old(outfd.written) + (if c.ssl then ['N' as int] else [])
                                  + (['R' as int, 0, 0, 0, 12, 0, 0, 0, 5] + conn.salt)
                                  + ['R' as int, 0, 0, 0, 8, 0, 0, 0, 0] + ['Z' as int, 0, 0, 0, 5, 'I' as int]
  {
    hide Run, Smooth, ReadsAlone, Honest, ProvedAt, Client.Hello, Client.Proof;
    ghost var s0 := conn.Met(infd, outfd);
    ghost var t, s;
    ItConnects(conn, infd, outfd, c, user);
    rc, t, s := conn.Accept(infd, outfd, rounds);
    if Smooth(t) {
      KnownClientIsAccepted(Door(conn.authdb, conn.salt, infd.pace), c, user, s0, t, s, rc, rounds);
    }
  }

  lemma ItConnects(conn: Connection, infd: InFd, outfd: OutFd, c: Client, user: Bytes)
    requires conn.params == [] && conn.username == None
    requires Honest(Door(conn.authdb, conn.salt, infd.pace), c, user)
    requires infd.unread == c.Asks() + (c.Hello() + (c.Proof(conn.salt) + c.more))
    ensures Connects(Door(conn.authdb, conn.salt, infd.pace), c, conn.Met(infd, outfd))
    ensures conn.Met(infd, outfd).toClient == outfd.written
  {
    hide Strings, AllNamed, LastNamed, Client.Hello, Client.Proof;
  }

  /** The machine has come from `s0` to `s`; if `smooth`, without a failure. */
  ghost predicate Trails(d: Door, s0: State, t: seq<Event>, s: State, smooth: bool)
  {
    Run(d, s0, t) == Some(s) && (smooth ==> Smooth(t))
  }

  /** What is returned tells how the conversation stands. */
  predicate Tells(rc: Option<int>, phase: Phase)
  {
    if rc.None? then phase.Await? else if rc.value == 0 then phase.In? else phase.Out?
  }

  lemma Follow(d: Door, s0: State, t: seq<Event>, s: State, was: bool, a: Act, s': State, ok: bool, now: bool)
    returns (t': seq<Event>)
    requires Trails(d, s0, t, s, was) && StepsTo(d, s, a, s', ok) && (now ==> was && ok)
    ensures Trails(d, s0, t', s', now) && |t'| == |t| + 1
  {
    hide Allowed, Done, Fails;
    var e := Event(a, if s' == Done(d, s, a) then None else Some(s'));
    Append(d, s0, t, e);
    t' := t + [e];
  }

  lemma ItIsKnown(d: Door, s0: State, t: seq<Event>)
    requires Obeys(d, s0, t) && exists k | 0 <= k < |t| :: ProvedAt(d, s0, t, k)
    ensures d.Hash(At(d, s0, t).username).Some?
  {
    hide Run, Token;
  }

  /** The classes that are acted upon have something buffered. */
  lemma KindOf(v: Bytes)
    ensures MsgType(v) in {MSG_SSLREQ, MSG_CANCEL, MSG_STARTUP, PASSWORD} ==> v != []
  {
  }

  /** One end builds a startup message that fits, the other reads it out of the same buffer: all parameters
      arrive, behind those it had, if and only if none of them is empty. */
  method Introduce(c: Connection, d: Connection, m: MBuf) returns (rc: int)
    requires c != d && d.Valid() && m.Valid() && m.Buffered() == []
    requires Strings(c.params) && |StartupPayload(c.params)| + 4 < 0x100_0000
    requires |StartupPayload(c.params)| + 4 <= m.buf.Length - m.fill
    modifies d`params, d`username, d`database, d`pwhash, m`fill, m.buf
    ensures m.Valid()
    ensures rc == 0 && d.params == old(d.params) + c.params <==> AllNamed(c.params)
  {
    hide Untyped, Extract, StartupPayload, AllNamed, Strings, Memory, LastNamed;
    ghost var params, had := c.params, d.params;
    TextIs(params);
    var _ := c.StartupMessage(m);
    ghost var behind := m.buf[m.fill..];
    MemoryOf(params, behind);
    StartupRoundTripIff(params, behind);
    rc := d.ExtractParams(m);
    SameBehind(had, Extract(Memory(m.Buffered(), behind)).0, params);
  }

  lemma TextIs(params: seq<Param>)
    requires |StartupPayload(params)| + 4 < 0x100_0000
    ensures [] + Untyped(StartupPayload(params)) == Untyped(StartupPayload(params))
    ensures |Untyped(StartupPayload(params))| == |StartupPayload(params)| + 4
  {
    hide StartupPayload;
  }

  lemma MemoryOf(params: seq<Param>, behind: Bytes)
    requires |StartupPayload(params)| + 4 < 0x100_0000
    ensures |Untyped(StartupPayload(params))| >= 8
    ensures Memory(Untyped(StartupPayload(params)), behind) == (Untyped(StartupPayload(params)) + behind)[8..]
  {
    hide Pairs;
    LengthField(StartupPayload(params), []);
    assert Untyped(StartupPayload(params)) + [] == Untyped(StartupPayload(params));
  }

  lemma SameBehind(had: seq<Param>, found: seq<Param>, params: seq<Param>)
    ensures had + found == had + params <==> found == params
  {
    assert (had + found)[|had|..] == found && (had + params)[|had|..] == params;
  }

  /** The machine makes this of the act, or, unless `ok`, its failure. */
  ghost predicate StepsTo(d: Door, s: State, a: Act, s': State, ok: bool)
  {
    Allowed(d, s, a) && (s' == Done(d, s, a) || Fails(d, s, a, s')) && (ok ==> s' == Done(d, s, a))
  }

  function Prepend(before: seq<Param>, found: (seq<Param>, bool)): (seq<Param>, bool)
  {
    (before + found.0, found.1)
  }

  lemma ExtractStep(mem: Bytes, before: seq<Param>)
    requires mem != [] && mem[0] != NUL
    ensures var name := CString(mem);
            var rest := Startup.Behind(mem, |name|);
            Prepend(before, Extract(mem))
            == if rest == [] || rest[0] == NUL then (before + [Param(name, [])], false)
               else var p := Param(name, CString(rest));
                    Prepend(before + [p], Extract(Startup.Behind(rest, |p.value|)))
    ensures var rest := Startup.Behind(mem, |CString(mem)|);
            rest != [] ==> |Startup.Behind(rest, |CString(rest)|)| < |mem|
  {
    hide CString, Startup.Behind;
    var name := CString(mem);
    var rest := Startup.Behind(mem, |name|);
    if rest != [] && rest[0] != NUL {
      var p := Param(name, CString(rest));
      var more := Extract(Startup.Behind(rest, |p.value|)).0;
      assert before + ([p] + more) == before + [p] + more;
    }
  }

  lemma ExtractEnds(mem: Bytes, before: seq<Param>)
    requires mem == [] || mem[0] == NUL
    ensures Prepend(before, Extract(mem)) == (before, true)
  {
    assert before + [] == before;
  }

  lemma OneMoreNamed(before: seq<Param>, p: Param, key: Bytes, was: Option<Bytes>)
    ensures LastNamed(before + [p], key, was)
         == if p.name == key then Some(p.value) else LastNamed(before, key, was)
  {
    assert (before + [p])[..|before|] == before;
  }

  lemma KeysDiffer()
    ensures UserKey() != DatabaseKey()
  {
    assert |UserKey()| != |DatabaseKey()|;
  }

  /** The `buf` of `password_message`. */
  method PasswordText(pwhash: Bytes, salt: Bytes) returns (text: Bytes)
    requires |pwhash| >= 32
    ensures text == Startup.PasswordMessage(pwhash, salt)
  {
    hide Token, PasswordHeader;
    var token := Hashed(pwhash[..32], salt);
    var buf := new byte[41];
    buf[40] := NUL;
    Copy(buf, 0, PasswordHeader(), 0, 8);
    assert buf[..8] == PasswordHeader();
    Copy(buf, 8, token, 0, 32);
    assert buf[..40] == PasswordHeader() + token;
    text := buf[..];
    assert text == buf[..40] + [buf[40]];
  }

  /** Both ends feed the hash and then the salt to the digest. */
  method Hashed(pwhash: Bytes, salt: Bytes) returns (token: Bytes)
    ensures token == Token(pwhash, salt)
  {
    hide HexOf, Digest;
    token := DigestInPieces([pwhash, salt]);
    FlattenTwo(pwhash, salt);
  }

  lemma FlattenTwo(s: Bytes, t: Bytes)
    ensures Flatten([s, t]) == s + t
  {
    assert [s, t][..1] == [s] && [s][..0] == [];
    assert Flatten([s]) == [] + s == s;
  }

  lemma Regroup4(a: Bytes, b: Bytes, c: Bytes, d: Bytes)
    ensures a + b + c + d == a + (b + c + d)
  {
  }

  lemma PayloadIs(params: seq<Param>)
    requires |StartupPayload(params)| + 4 < 0x1_0000_0000
    ensures params[..|params|] == params && Pairs(params[..0]) == []
    ensures Untyped(StartupPayload(params))
         == Htonl(|StartupPayload(params)| + 4) + [0, 3, 0, 0] + Pairs(params) + [NUL]
    ensures [] + Htonl(|StartupPayload(params)| + 4) + [0, 3, 0, 0]
         == Htonl(|StartupPayload(params)| + 4) + [0, 3, 0, 0]
    ensures var front := Htonl(|StartupPayload(params)| + 4) + [0, 3, 0, 0]; front + [] == front
  {
    hide Htonl, Pairs;
    NoPairs();
    assert params[..0] == [];
  }

  lemma NoPairs()
    ensures Pairs([]) == []
  {
  }

  lemma PairsOneMore(params: seq<Param>, p: nat)
    requires p < |params|
    ensures Pairs(params[..p + 1]) == Pairs(params[..p]) + (params[p].name + [NUL]) + (params[p].value + [NUL])
  {
    if p > 0 {
      PairsOneMore(params[1..], p - 1);
      assert params[..p + 1][1..] == params[1..][..p] && params[..p][1..] == params[1..][..p - 1];
    }
  }
}
