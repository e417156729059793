/** The lexer, the parser, the lookup and the printer of src/authdb.c, as they run. */
module Authdb {
  import opened Wire
  import opened AuthText

  /** The lexer function to run next. */
  datatype LexerFn = LexAny | LexBareword | LexQString | LexComment | LexNone

  /** A token, or T_RESTART where there is none yet. */
  datatype Result = Restart | Token(token: AuthText.Token)

  lemma CommentStep(src: Bytes, p: nat)
    requires p <= |src|
    ensures AfterComment(src[p..])
         == if p == |src| then src[p..]
            else if src[p] == NUL || src[p] == NEWLINE then src[p + 1..]
            else AfterComment(src[p + 1..])
  {
    assert p < |src| ==> src[p..][1..] == src[p + 1..];
  }

  lemma LexesString(text: Bytes)
    requires text != [] && (text[0] == QUOTE || text[0] == TICK)
    ensures Lex(text) == match QuoteEnd(text, 1, text[0])
                         case None => (AuthText.Token.Error, [])
                         case Some(n) => (QString(text[..n]), text[n..])
  {
    hide QuoteEnd;
  }

  lemma QuoteStep(s: Bytes, k: nat, q: byte)
    requires k <= |s|
    ensures QuoteEnd(s, k, q)
         == if k == |s| || s[k] == NUL then None
            else if s[k] == q then Some(k + 1)
            else QuoteEnd(s, if s[k] == BACKSLASH && k + 1 < |s| then k + 2 else k + 1, q)
  {
  }

  class Lexer {
    const src: Bytes
    var pos: nat
    var start: nat
    var f: LexerFn

    constructor (src: Bytes)
      ensures this.src == src && pos == start == 0 && f == LexAny
    {
      this.src := src;
      pos, start := 0, 0;
      f := LexAny;
    }

    ghost predicate Valid()
      reads this
    {
      start <= pos <= |src|
    }

    /** Between two tokens. */
    ghost predicate Ready()
      reads this
    {
      Valid() && start == pos && f == LexAny
    }

    ghost function Rest(): Bytes
      requires Valid()
      reads this
    {
      src[pos..]
    }

    method Next() returns (c: byte)
      requires Valid()
      modifies this`pos
      ensures old(pos) == |src| ==> c == NUL && pos == old(pos)
      ensures old(pos) < |src| ==> c == src[old(pos)] && pos == old(pos) + 1
    {
      if pos >= |src| {
        return NUL;
      }
      c := src[pos];
      pos := pos + 1;
    }

    method Backup()
      requires pos > 0
      modifies this`pos
      ensures pos == old(pos) - 1
    {
      pos := pos - 1;
    }

    method Ignore()
      modifies this`start
      ensures start == pos
    {
      start := pos;
    }

    /** `token`, with the lexer given: the text from `start`. */
    method Value() returns (v: Bytes)
      requires Valid()
      modifies this`start
      ensures v == src[old(start)..pos] && start == pos
    {
      v := src[start..pos];
      Ignore();
    }

    /** `lex_any` */
    method Any() returns (r: Result)
      requires Ready()
      modifies this
      ensures Valid()
      ensures r.Token? ==> (r.token, Rest()) == Lex(old(Rest()))
      ensures r.Token? ==> (r.token.Newline? && Ready()) || r.token.Eos?
      ensures r.Restart? ==> pos > old(pos) && src[pos - 1] != NUL
      ensures r.Restart? ==>
                match f
                case LexComment => start == pos && Lex(old(Rest())) == Lex(AfterComment(Rest()))
                case LexQString => start == pos - 1 && Lex(old(Rest())) == Lex(src[start..])
                                && (src[start] == QUOTE || src[start] == TICK)
                case LexBareword => start == pos - 1 && Lex(old(Rest())) == Lex(src[start..])
                                && !EndsWord(src[start]) && src[start] != HASH
                                && src[start] != QUOTE && src[start] != TICK
                case _ => false
    {
      while true
        invariant Ready() && old(pos) <= pos
        invariant Lex(old(Rest())) == Lex(Rest())
        decreases |src| - pos
      {
        ghost var before := Rest();
        var c := Next();
        assert pos > start ==> before[0] == c && before[1..] == Rest() && src[start..] == before;
        if c == NUL {
          f := LexNone;
          return Token(Eos);
        }
        if c == NEWLINE {
          Ignore();
          return Token(Newline);
        }
        if IsSpace(c) {
          Ignore();
          continue;
        }
        if c == HASH {
          f := LexComment;
          Ignore();
          return Restart;
        }
        if c == TICK || c == QUOTE {
          f := LexQString;
          return Restart;
        }
        f := LexBareword;
        return Restart;
      }
    }

    /** The loop of `lex_bareword`: the end of the word, with the step back at the end of the file. */
    method ToWordEnd()
      requires Valid() && start == pos - 1
      modifies this`pos
      ensures Valid() && pos == start + WordEnd(src[start..], 1)
    {
      ghost var text := src[start..];
      while true
        invariant Valid() && start < pos
        invariant WordEnd(text, 1) == WordEnd(text, pos - start)
        decreases |src| - pos
      {
        assert pos < |src| ==> text[pos - start] == src[pos];
        var c := Next();
        if c == NUL || IsSpace(c) {
          Backup();
          break;
        }
      }
    }

    /** `lex_bareword` */
    method Bareword() returns (t: AuthText.Token)
      requires Valid() && start == pos - 1 && !EndsWord(src[start])
      requires src[start] != HASH && src[start] != QUOTE && src[start] != TICK
      modifies this
      ensures Ready()
      ensures (t, Rest()) == Lex(old(src[start..]))
    {
      hide WordEnd;
      f := LexAny;
      ghost var text := src[start..];
      ToWordEnd();
      ghost var n := WordEnd(text, 1);
      assert src[start..pos] == text[..n] && src[pos..] == text[n..];
      var v := Value();
      t := Word(v);
    }

    /** `lex_qstring` */
    method QuotedString() returns (t: AuthText.Token)
      requires Valid() && start == pos - 1 && (src[start] == QUOTE || src[start] == TICK)
      modifies this
      ensures Valid() && f == LexAny
      ensures t == Lex(old(src[start..])).0
      ensures t.QString? ==> Ready() && Rest() == Lex(old(src[start..])).1
      ensures t.Error? || t.QString?
    {
      hide Lex, QuoteEnd;
      f := LexAny;
      ghost var text := src[start..];
      LexesString(text);
      Backup();
      var q := Next();
      var closed := ToQuote(q, text);
      if !closed {
        return AuthText.Token.Error;
      }
      assert src[start..pos] == text[..pos - start] && src[pos..] == text[pos - start..];
      var v := Value();
      t := QString(v);
    }

    /** The loop of that: on to the closing quote, past escaped octets. */
    method ToQuote(q: byte, ghost text: Bytes) returns (closed: bool)
      requires Valid() && start == pos - 1 && text == src[start..]
      modifies this`pos
      ensures Valid() && (closed ==> start < pos)
      ensures QuoteEnd(text, 1, q) == if closed then Some(pos - start) else None
    {
      hide QuoteEnd;
      while true
        invariant Valid() && start < pos
        invariant QuoteEnd(text, 1, q) == QuoteEnd(text, pos - start, q)
        decreases |src| - pos
      {
        assert pos < |src| ==> text[pos - start] == src[pos];
        QuoteStep(text, pos - start, q);
        var c := Next();
        if c == NUL {
          return false;
        }
        if c == q {
          return true;
        }
        if c == BACKSLASH {
          c := Next();
        }
      }
    }

    /** `lex_comment` */
    method Comment()
      requires Valid() && start == pos
      modifies this
      ensures Ready() && Rest() == AfterComment(old(Rest())) && pos >= old(pos)
    {
      hide AfterComment;
      ghost var goal := AfterComment(Rest());
      CommentStep(src, pos);
      var c := Next();
      while c != NUL && c != NEWLINE
        invariant Valid() && start == old(pos) <= pos
        invariant goal == if c == NUL || c == NEWLINE then Rest() else AfterComment(Rest())
        decreases |src| - pos, c != NUL && c != NEWLINE
      {
        CommentStep(src, pos);
        c := Next();
      }
      Ignore();
      f := LexAny;
    }

    /** `emit` */
    method Emit() returns (t: AuthText.Token)
      requires Ready()
      modifies this
      ensures Valid()
      ensures t == Lex(old(Rest())).0
      ensures !t.Error? && !t.Eos? ==> Ready() && Rest() == Lex(old(Rest())).1
    {
      while true
        invariant Ready() && Lex(old(Rest())) == Lex(Rest())
        decreases |src| - pos
      {
        var r := Any();
        if r.Token? {
          return r.token;
        }
        match f
        case LexBareword =>
          t := Bareword();
          return;
        case LexQString =>
          t := QuotedString();
          return;
        case LexComment => Comment();
      }
    }
  }

  function Reversed(s: seq<Entry>): (r: seq<Entry>)
    ensures |r| == |s|
  {
    if s == [] then [] else Reversed(s[1..]) + [s[0]]
  }

  lemma {:induction false} ReversedAt(s: seq<Entry>, k: nat)
    requires k < |s|
    ensures Reversed(s)[|s| - 1 - k] == s[k]
  {
    if k > 0 {
      ReversedAt(s[1..], k - 1);
    }
  }

  lemma WordNotEmpty(t: AuthText.Token)
    requires t.Word? && AsString(t) == Md5Type()
    ensures |t.value| > 0
  {
    CStringShorter(t.value);
  }

  class Parser {
    /** The list of `_auth_entry`: `new_entry` puts each in front. */
    var entries: seq<Entry>
    var count: nat
    const lexer: Lexer
    /** Whether `f` is set. */
    var running: bool

    constructor (lexer: Lexer)
      ensures this.lexer == lexer && entries == [] && count == 0 && running
    {
      this.lexer := lexer;
      entries, count, running := [], 0, true;
    }

    ghost predicate Valid()
      reads this, lexer
    {
      count == |entries| && lexer.Valid() && (running ==> lexer.Ready())
    }

    /** What the parser has in the order of the text, with all that is still to come. */
    ghost function Outcome(): seq<Entry>
      requires lexer.Valid()
      reads this, lexer
    {
      Reversed(entries) + if running then Parse(lexer.Rest()) else []
    }

    /** `new_entry` */
    method NewEntry(user: Bytes, hash: Bytes)
      requires count == |entries|
      modifies this`entries, this`count
      ensures count == |entries|
      ensures Reversed(entries) == Reversed(old(entries)) + [Entry(user, hash)]
    {
      entries := [Entry(user, hash)] + entries;
      count := count + 1;
    }

    /** `parse_top` */
    method ParseTop() returns (rc: nat)
      requires Valid() && running
      modifies this, lexer
      ensures Valid() && Outcome() == old(Outcome())
      ensures rc != 0 ==> !running
      ensures running ==> |lexer.Rest()| < |old(lexer.Rest())|
    {
      hide Lex, Reversed, AsString, Md5Type;
      ghost var text := lexer.Rest();
      var t1 := lexer.Emit();
      match t1 {
        case Newline =>
          return 0;
        case Word(_) | QString(_) =>
          rc := ParseAccount(AsString(t1), text);
        case Error =>
          running := false;
          return 1;
        case Eos =>
          running := false;
          return 0;
      }
    }

    /** `parse_top`, behind the name of a user. */
    method ParseAccount(user: Bytes, ghost text: Bytes) returns (rc: nat)
      requires Valid() && running && lexer.Rest() == Lex(text).1
      requires (Lex(text).0.Word? || Lex(text).0.QString?) && user == AsString(Lex(text).0)
      modifies this, lexer
      ensures Valid() && Outcome() == Reversed(old(entries)) + Parse(text)
      ensures rc != 0 ==> !running
      ensures running ==> |lexer.Rest()| < |text|
    {
      hide Lex, Reversed, AsString, Md5Type;
      ghost var s1 := lexer.Rest();
      var t2 := lexer.Emit();
      match t2 {
        case Newline =>
          running := false;
          return 1;
        case Word(_) =>
          if AsString(t2) != Md5Type() {
            running := false;
            return 1;
          }
          WordNotEmpty(t2);
          rc := ParseHash(user, lexer.Rest());
        case QString(_) =>
          return 0;
        case Error =>
          running := false;
          return 1;
        case Eos =>
          running := false;
          return 0;
      }
    }

    /** `parse_top`, behind the account type. */
    method ParseHash(user: Bytes, ghost text: Bytes) returns (rc: nat)
      requires Valid() && running && lexer.Rest() == text
      modifies this, lexer
      ensures Valid()
      ensures var (t3, s3) := Lex(text);
              Outcome() == Reversed(old(entries))
                           + if t3.Word? || t3.QString? then [Entry(user, AsString(t3))] + Parse(s3) else []
      ensures rc != 0 ==> !running
      ensures running ==> |lexer.Rest()| <= |text|
    {
      hide Lex, Parse, Reversed, AsString;
      var t3 := lexer.Emit();
      match t3 {
        case Word(_) | QString(_) =>
          NewEntry(user, AsString(t3));
          return 0;
        case _ =>
          running := false;
          return 1;
      }
    }

    /** `parse`, which never reports a failure. */
    method ParseAll() returns (rc: nat)
      requires Valid() && running
      modifies this, lexer
      ensures Valid() && rc == 0 && Reversed(entries) == old(Outcome())
    {
      while running
        invariant Valid() && Outcome() == old(Outcome())
        decreases if running then |lexer.Rest()| + 1 else 0
      {
        var failed := ParseTop();
        if failed != 0 {
          break;
        }
      }
      return 0;
    }
  }

  /** The list, newest entry first, goes into the arrays from their ends. */
  method CopyBack(list: seq<Entry>, count: nat) returns (usernames: array<Bytes>, md5hashes: array<Bytes>)
    requires count == |list|
    ensures fresh(usernames) && fresh(md5hashes)
    ensures usernames.Length == md5hashes.Length == count
    ensures forall k :: 0 <= k < count ==> Entry(usernames[k], md5hashes[k]) == Reversed(list)[k]
  {
    usernames := new Bytes[count](_ => []);
    md5hashes := new Bytes[count](_ => []);
    var i, at := count - 1, 0;
    while i >= 0 && at < |list|
      invariant -1 <= i < count && at == count - 1 - i
      invariant forall k :: i < k < count ==> Entry(usernames[k], md5hashes[k]) == Reversed(list)[k]
    {
      ReversedAt(list, at);
      usernames[i] := list[at].user;
      md5hashes[i] := list[at].hash;
      i, at := i - 1, at + 1;
    }
  }

  /** `c->authdb` */
  class Table {
    var usernames: array<Bytes>
    var md5hashes: array<Bytes>

    constructor ()
      ensures Entries() == []
    {
      usernames, md5hashes := new Bytes[0], new Bytes[0];
    }

    ghost predicate Valid()
      reads this
    {
      usernames.Length == md5hashes.Length
    }

    ghost function Entries(): (db: seq<Entry>)
      reads this, usernames, md5hashes
      ensures Valid() ==> |db| == usernames.Length
    {
      if usernames.Length != md5hashes.Length then []
      else
        seq(usernames.Length,
            k reads this, usernames, md5hashes requires 0 <= k < usernames.Length == md5hashes.Length =>
              Entry(usernames[k], md5hashes[k]))
    }

    /** `pgr_authdb`, on the contents of the file. */
    method Load(text: Bytes)
      modifies this
      ensures Valid() && fresh(usernames) && fresh(md5hashes)
      ensures Entries() == Parse(text)
    {
      hide Parse, Reversed;
      var lexer := new Lexer(text);
      var parser := new Parser(lexer);
      assert text[0..] == text;
      var _ := parser.ParseAll();
      usernames, md5hashes := CopyBack(parser.entries, parser.count);
    }

    /** `pgr_auth_find`: the hash of the first entry with the name, and none if and only if there is no such entry. */
    method Find(username: Bytes) returns (md5: Option<Bytes>)
      requires Valid()
      ensures md5 == Lookup(Entries(), username)
    {
      for i := 0 to usernames.Length
        invariant Lookup(Entries(), username) == Lookup(Entries()[i..], username)
      {
        assert Entries()[i..][0] == Entries()[i] && Entries()[i..][1..] == Entries()[i + 1..];
        if usernames[i] == username {
          return Some(md5hashes[i]);
        }
      }
      return None;
    }
  }

  function Lookup(db: seq<Entry>, username: Bytes): Option<Bytes>
  {
    if db == [] then None else if db[0].user == username then Some(db[0].hash) else Lookup(db[1..], username)
  }

  lemma {:induction false} LookupIsFirst(db: seq<Entry>, username: Bytes)
    ensures match Lookup(db, username)
            case None => forall k :: 0 <= k < |db| ==> db[k].user != username
            case Some(hash) =>
              exists k :: 0 <= k < |db| && db[k] == Entry(username, hash)
                          && forall j :: 0 <= j < k ==> db[j].user != username
  {
    if db != [] && db[0].user != username {
      LookupIsFirst(db[1..], username);
      if Lookup(db, username).Some? {
        var hash := Lookup(db, username).value;
        var k :| 0 <= k < |db| - 1 && db[1..][k] == Entry(username, hash)
                 && forall j :: 0 <= j < k ==> db[1..][j].user != username;
        assert db[k + 1] == Entry(username, hash);
        forall j | 0 <= j < k + 1
          ensures db[j].user != username
        {
          assert j > 0 ==> db[1..][j - 1] == db[j];
        }
      } else {
        forall k | 0 <= k < |db|
          ensures db[k].user != username
        {
          assert k > 0 ==> db[1..][k - 1] == db[k];
        }
      }
    }
  }

  // The printer.

  lemma QuotedSplits(s: Bytes, t: Bytes)
    ensures Quoted(s + t) == Quoted(s) + Quoted(t)
  {
    if s == [] {
      assert s + t == t;
    } else {
      assert (s + t)[1..] == s[1..] + t;
      QuotedSplits(s[1..], t);
    }
  }

  /** `quote`: first the length, then the string. */
  method Quote(s: Bytes) returns (qq: Bytes)
    ensures qq == Quoted(s)
  {
    var len := 0;
    for p := 0 to |s|
      invariant len == |Quoted(s[..p])|
    {
      QuotedSplits(s[..p], [s[p]]);
      assert s[..p + 1] == s[..p] + [s[p]];
      if s[p] == QUOTE {
        len := len + 1;
      }
      len := len + 1;
    }
    assert s[..|s|] == s;
    var buf := new byte[len];
    var q := 0;
    for p := 0 to |s|
      invariant q == |Quoted(s[..p])| && q <= len
      invariant buf[..q] == Quoted(s[..p])
    {
      QuotedSplits(s[..p], [s[p]]);
      assert s[..p + 1] == s[..p] + [s[p]];
      QuotedSplits(s[..p + 1], s[p + 1..]);
      assert s == s[..p + 1] + s[p + 1..];
      if s[p] == QUOTE {
        buf[q] := BACKSLASH;
        q := q + 1;
      }
      buf[q] := s[p];
      q := q + 1;
    }
    qq := buf[..];
  }

  lemma LinesOneMore(entries: seq<Entry>, i: nat)
    requires i < |entries|
    ensures Lines(entries[..i + 1]) == Lines(entries[..i]) + Line(entries[i])
  {
    hide Line;
    if i > 0 {
      LinesOneMore(entries[1..], i - 1);
      assert entries[..i + 1][1..] == entries[1..][..i] && entries[..i][1..] == entries[1..][..i - 1];
    }
  }

  method AnySpace(hash: Bytes) returns (ws: bool)
    ensures ws <==> HasSpace(hash)
  {
    for k := 0 to |hash|
      invariant forall j :: 0 <= j < k ==> !IsSpace(hash[j])
    {
      if IsSpace(hash[k]) {
        return true;
      }
    }
    return false;
  }

  method PrintLine(e: Entry) returns (line: Bytes)
    ensures line == Line(e)
  {
    hide Quoted, HasSpace, Md5Type;
    var ws := AnySpace(e.hash);
    line := e.user + [SPACE] + Md5Type() + [SPACE];
    if ws {
      var quoted := Quote(e.hash);
      line := line + ([QUOTE] + quoted + [QUOTE]) + [NEWLINE];
    } else {
      line := line + e.hash + [NEWLINE];
    }
  }

  lemma DumpIs(entries: seq<Entry>)
    ensures Dump(entries) == [HASH] + Title() + [NEWLINE] + Lines(entries)
    ensures entries[..0] == [] && entries[..|entries|] == entries && Lines([]) == []
    ensures [HASH] + Title() + [NEWLINE] + [] == [HASH] + Title() + [NEWLINE]
  {
  }

  /** The loop that prints an authdb. */
  method Print(entries: seq<Entry>) returns (text: Bytes)
    ensures text == Dump(entries)
  {
    hide Line, Lines, Dump, Title;
    text := [HASH] + Title() + [NEWLINE];
    ghost var header := text;
    DumpIs(entries);
    for i := 0 to |entries|
      invariant text == header + Lines(entries[..i])
    {
      LinesOneMore(entries, i);
      var line := PrintLine(entries[i]);
      text := text + line;
    }
  }

  /** Print, load and look up: with plain names and hashes the printer can show, the hash found is that of the
      first entry of that name in the list that was printed. */
  method PrintLoadFind(entries: seq<Entry>, username: Bytes) returns (md5: Option<Bytes>)
    requires Printable(entries)
    ensures (forall k :: 0 <= k < |entries| ==> GoodHash(entries[k].hash)) ==> md5 == Lookup(entries, username)
  {
    var text := Print(entries);
    var table := new Table();
    table.Load(text);
    md5 := table.Find(username);
    DumpParsesIff(entries);
  }

  /** A file that was written by hand, loaded and looked up: the hash found is that of the first line for the user. */
  method LoadFind(lines: seq<HandLine>, username: Bytes) returns (md5: Option<Bytes>)
    requires forall k :: 0 <= k < |lines| ==> lines[k].Good()
    ensures var db := FileEntries(lines);
            match md5
            case None => forall k :: 0 <= k < |db| ==> db[k].user != username
            case Some(hash) =>
              exists k :: 0 <= k < |db| && db[k] == Entry(username, hash)
                          && forall j :: 0 <= j < k ==> db[j].user != username
  {
    var table := new Table();
    table.Load(FileText(lines));
    FileParses(lines);
    md5 := table.Find(username);
    LookupIsFirst(FileEntries(lines), username);
  }
}
