/** The authdb file format of src/authdb.c: what its lexer and parser make of a text, what its printer
    writes, and when the one undoes the other. */
module AuthText {
  import opened Wire

  const NEWLINE: byte := 0x0a
  const SPACE: byte := 0x20
  const QUOTE: byte := 0x22
  const HASH: byte := 0x23
  const TICK: byte := 0x27
  const BACKSLASH: byte := 0x5c

  /** `"md5"` */
  function Md5Type(): Bytes { [0x6d, 0x64, 0x35] }

  datatype Token = Error | Eos | Word(value: Bytes) | QString(value: Bytes) | Newline

  datatype Entry = Entry(user: Bytes, hash: Bytes)

  /** `isspace`, in the C locale */
  predicate IsSpace(c: byte) { c == SPACE || 9 <= c <= 13 }

  predicate EndsWord(c: byte) { c == NUL || IsSpace(c) }

  // The lexer, on the text that is left.

  /** Where a bareword ends, looking from `k`. At the end of the text it ends one octet too early. */
  function WordEnd(s: Bytes, k: nat): (n: nat)
    requires 1 <= k <= |s|
    ensures k - 1 <= n < |s|
    decreases |s| - k
  {
    if k == |s| then |s| - 1 else if EndsWord(s[k]) then k else WordEnd(s, k + 1)
  }

  /** Where a string quoted by `q` ends, looking from `k`: behind its closing quote, unless it is not closed. */
  function QuoteEnd(s: Bytes, k: nat, q: byte): (n: Option<nat>)
    requires k <= |s|
    ensures n.Some? ==> k < n.value <= |s|
    decreases |s| - k
  {
    if k == |s| || s[k] == NUL then None
    else if s[k] == q then Some(k + 1)
    else if s[k] == BACKSLASH && k + 1 < |s| then QuoteEnd(s, k + 2, q)
    else QuoteEnd(s, k + 1, q)
  }

  function AfterComment(s: Bytes): (t: Bytes)
    ensures |t| <= |s|
  {
    if s == [] then [] else if s[0] == NUL || s[0] == NEWLINE then s[1..] else AfterComment(s[1..])
  }

  /** `emit`: the next token, and the text behind it. */
  function Lex(s: Bytes): (r: (Token, Bytes))
    ensures |r.1| <= |s|
    ensures r.0.Newline? ==> |r.1| < |s|
    ensures r.0.Word? ==> |r.0.value| + |r.1| <= |s|
    ensures r.0.QString? ==> |r.0.value| >= 2 && |r.0.value| + |r.1| <= |s|
    decreases |s|
  {
    if s == [] then (Eos, [])
    else if s[0] == NUL then (Eos, s[1..])
    else if s[0] == NEWLINE then (Newline, s[1..])
    else if IsSpace(s[0]) then Lex(s[1..])
    else if s[0] == HASH then Lex(AfterComment(s[1..]))
    else if s[0] == QUOTE || s[0] == TICK then
      match QuoteEnd(s, 1, s[0])
      case None => (Error, [])
      case Some(n) => (QString(s[..n]), s[n..])
    else
      var n := WordEnd(s, 1);
      (Word(s[..n]), s[n..])
  }

  /** What `as_string` puts for a backslash and `c`. */
  function Escaped(c: byte): byte
  {
    if c == 0x74 then 0x09 else if c == 0x72 then 0x0d else if c == 0x6e then NEWLINE else c
  }

  function Unescape(s: Bytes): (t: Bytes)
    ensures |t| <= |s|
  {
    if s == [] then []
    else if s[0] == BACKSLASH && |s| > 1 then [Escaped(s[1])] + Unescape(s[2..])
    else [s[0]] + Unescape(s[1..])
  }

  /** `as_string` of a word or a quoted string, as a C string. */
  function AsString(t: Token): Bytes
    requires t.Word? || (t.QString? && |t.value| >= 2)
  {
    if t.Word? then CString(t.value) else CString(Unescape(t.value[1..|t.value| - 1]))
  }

  /** `parse`: the entries a text gives, in its order. A text that stops making sense gives what came before;
      a quoted account type makes the parser start over behind it. */
  function Parse(s: Bytes): seq<Entry>
    decreases |s|
  {
    var (t1, s1) := Lex(s);
    match t1
    case Error => []
    case Eos => []
    case Newline => Parse(s1)
    case _ =>
      var (t2, s2) := Lex(s1);
      match t2
      case QString(_) => Parse(s2)
      case Word(_) =>
        if AsString(t2) != Md5Type() then []
        else
          var (t3, s3) := Lex(s2);
          if t3.Word? || t3.QString? then
            CStringShorter(t2.value);
            [Entry(AsString(t1), AsString(t3))] + Parse(s3)
          else []
      case _ => []
  }

  // The printer.

  predicate HasSpace(s: Bytes)
  {
    exists k :: 0 <= k < |s| && IsSpace(s[k])
  }

  /** `quote`: only double quotes are escaped. */
  function Quoted(s: Bytes): Bytes
  {
    if s == [] then []
    else if s[0] == QUOTE then [BACKSLASH, QUOTE] + Quoted(s[1..])
    else [s[0]] + Quoted(s[1..])
  }

  function Shown(hash: Bytes): Bytes
  {
    if HasSpace(hash) then [QUOTE] + Quoted(hash) + [QUOTE] else hash
  }

  function Line(e: Entry): Bytes
  {
    e.user + [SPACE] + Md5Type() + [SPACE] + Shown(e.hash) + [NEWLINE]
  }

  function Lines(entries: seq<Entry>): Bytes
  {
    if entries == [] then [] else Line(entries[0]) + Lines(entries[1..])
  }

  /** `" pgrouter authdb"` */
  function Title(): Bytes
  {
    [0x20, 0x70, 0x67, 0x72, 0x6f, 0x75, 0x74, 0x65, 0x72, 0x20, 0x61, 0x75, 0x74, 0x68, 0x64, 0x62]
  }

  function Dump(entries: seq<Entry>): Bytes
  {
    [HASH] + Title() + [NEWLINE] + Lines(entries)
  }

  // When parsing undoes printing.

  /** A word that lexes as itself. */
  predicate Plain(s: Bytes)
  {
    s != [] && NulFree(s) && !HasSpace(s) && s[0] != HASH && s[0] != QUOTE && s[0] != TICK
  }

  predicate GoodHash(h: Bytes)
  {
    if HasSpace(h) then BACKSLASH !in h else Plain(h)
  }

  predicate Printable(entries: seq<Entry>)
  {
    forall k :: 0 <= k < |entries| ==> Plain(entries[k].user) && NulFree(entries[k].hash)
  }

  lemma {:induction false} WordEndsAt(w: Bytes, c: byte, rest: Bytes, k: nat)
    requires Plain(w) && EndsWord(c) && 1 <= k <= |w|
    ensures WordEnd(w + [c] + rest, k) == |w|
    decreases |w| - k
  {
    if k < |w| {
      assert (w + [c] + rest)[k] == w[k];
      WordEndsAt(w, c, rest, k + 1);
    }
  }

  lemma LexPlain(w: Bytes, c: byte, rest: Bytes)
    requires Plain(w) && EndsWord(c)
    ensures Lex(w + [c] + rest) == (Word(w), [c] + rest)
  {
    var s := w + [c] + rest;
    WordEndsAt(w, c, rest, 1);
    assert s[0] == w[0] && !IsSpace(w[0]);
    assert s[..|w|] == w && s[|w|..] == [c] + rest;
  }

  lemma LexSpace(rest: Bytes)
    ensures Lex([SPACE] + rest) == Lex(rest)
  {
    assert ([SPACE] + rest)[1..] == rest;
  }

  lemma Md5TypeIsPlain()
    ensures Plain(Md5Type()) && AsString(Word(Md5Type())) == Md5Type()
  {
    CStringWhole(Md5Type());
  }

  /** The user and the account type of a line. */
  lemma LexUser(user: Bytes, rest: Bytes)
    requires Plain(user)
    ensures var (t1, s1) := Lex(user + [SPACE] + Md5Type() + [SPACE] + rest);
            && t1 == Word(user) && Lex(s1) == (Word(Md5Type()), [SPACE] + rest)
  {
    hide Lex, Plain, Md5Type;
    LexPlain(user, SPACE, Md5Type() + [SPACE] + rest);
    assert user + [SPACE] + Md5Type() + [SPACE] + rest == user + [SPACE] + (Md5Type() + [SPACE] + rest);
    LexSpace(Md5Type() + [SPACE] + rest);
    Md5TypeIsPlain();
    LexPlain(Md5Type(), SPACE, rest);
  }

  lemma WordIsString(word: Bytes)
    requires Plain(word)
    ensures AsString(Word(word)) == word
  {
    CStringWhole(word);
  }

  /** A line up to its hash: the parser takes the next token for the hash. */
  lemma ParseUser(user: Bytes, rest: Bytes)
    requires Plain(user)
    ensures var (t, s) := Lex(rest);
            Parse(user + [SPACE] + Md5Type() + [SPACE] + rest)
            == if t.Word? || t.QString? then [Entry(user, AsString(t))] + Parse(s) else []
  {
    hide Lex, CString, Plain, Unescape, AsString, Md5Type;
    LexUser(user, rest);
    LexSpace(rest);
    WordIsString(user);
    Md5TypeIsPlain();
  }

  /** What a quoted string that is closed stands for, and the text behind it: scanning and unescaping at once. */
  function Unquote(s: Bytes, q: byte): Option<(Bytes, Bytes)>
  {
    if s == [] || s[0] == NUL then None
    else if s[0] == q then Some(([], s[1..]))
    else if s[0] == BACKSLASH && |s| > 1 then
      match Unquote(s[2..], q)
      case None => None
      case Some((v, rest)) => Some(([Escaped(s[1])] + v, rest))
    else
      match Unquote(s[1..], q)
      case None => None
      case Some((v, rest)) => Some(([s[0]] + v, rest))
  }

  lemma {:induction false} UnquoteIsUnescape(s: Bytes, k: nat, q: byte)
    requires k <= |s| && (q == QUOTE || q == TICK)
    ensures QuoteEnd(s, k, q).None? <==> Unquote(s[k..], q).None?
    ensures QuoteEnd(s, k, q).Some? ==>
              var n := QuoteEnd(s, k, q).value;
              Unquote(s[k..], q) == Some((Unescape(s[k..n - 1]), s[n..]))
    decreases |s| - k
  {
    if k < |s| && s[k] != NUL && s[k] != q {
      if s[k] == BACKSLASH && k + 1 < |s| {
        UnquoteIsUnescape(s, k + 2, q);
        assert s[k..][2..] == s[k + 2..];
        if QuoteEnd(s, k + 2, q).Some? {
          var n := QuoteEnd(s, k + 2, q).value;
          assert s[k..n - 1][2..] == s[k + 2..n - 1];
        }
      } else {
        UnquoteIsUnescape(s, k + 1, q);
        assert s[k..][1..] == s[k + 1..];
        if QuoteEnd(s, k + 1, q).Some? {
          var n := QuoteEnd(s, k + 1, q).value;
          assert s[k..n - 1][1..] == s[k + 1..n - 1];
        }
      }
    }
  }

  lemma LexQuoted(s: Bytes, q: byte)
    requires q == QUOTE || q == TICK
    ensures var (t, rest) := Lex([q] + s);
            match Unquote(s, q)
            case None => t.Error?
            case Some((v, rest')) => t.QString? && AsString(t) == CString(v) && rest == rest'
  {
    hide Unescape, Unquote, QuoteEnd, CString;
    UnquoteIsUnescape([q] + s, 1, q);
    assert ([q] + s)[1..] == s;
    if QuoteEnd([q] + s, 1, q).Some? {
      var n := QuoteEnd([q] + s, 1, q).value;
      assert ([q] + s)[..n][1..n - 1] == ([q] + s)[1..n - 1];
    }
  }

  // A hash that prints and parses well.

  lemma {:induction false} UnquoteQuoted(h: Bytes, rest: Bytes)
    requires NulFree(h) && BACKSLASH !in h
    ensures Unquote(Quoted(h) + [QUOTE] + rest, QUOTE) == Some((h, rest))
  {
    var s := Quoted(h) + [QUOTE] + rest;
    if h != [] {
      UnquoteQuoted(h[1..], rest);
      var k := if h[0] == QUOTE then 2 else 1;
      assert s[k..] == Quoted(h[1..]) + [QUOTE] + rest;
      assert s[k - 1] == h[0] && (k == 2 ==> s[0] == BACKSLASH);
      assert h == [h[0]] + h[1..];
    } else {
      assert s[1..] == rest;
    }
  }

  lemma LexGoodQuoted(h: Bytes, rest: Bytes)
    requires NulFree(h) && BACKSLASH !in h
    ensures var (t, s) := Lex([QUOTE] + Quoted(h) + [QUOTE] + rest);
            t.QString? && AsString(t) == h && s == rest
  {
    hide *;
    CStringWhole(h);
    UnquoteQuoted(h, rest);
    assert [QUOTE] + Quoted(h) + [QUOTE] + rest == [QUOTE] + (Quoted(h) + [QUOTE] + rest);
    LexQuoted(Quoted(h) + [QUOTE] + rest, QUOTE);
  }

  lemma LexGoodHash(h: Bytes, rest: Bytes)
    requires NulFree(h) && GoodHash(h)
    ensures var (t, s) := Lex(Shown(h) + [NEWLINE] + rest);
            (t.Word? || t.QString?) && AsString(t) == h && s == [NEWLINE] + rest
  {
    if HasSpace(h) {
      LexGoodQuoted(h, [NEWLINE] + rest);
      hide Lex, AsString, Quoted;
      assert Shown(h) + [NEWLINE] + rest == [QUOTE] + Quoted(h) + [QUOTE] + ([NEWLINE] + rest);
    } else {
      LexPlain(h, NEWLINE, rest);
      CStringWhole(h);
      hide Lex, CString;
    }
  }

  // A hash that does not.

  lemma QuotedFront(s: Bytes, tail: Bytes)
    requires s != []
    ensures Quoted(s) + tail == (if s[0] == QUOTE then [BACKSLASH, QUOTE] else [s[0]]) + (Quoted(s[1..]) + tail)
  {
  }

  lemma NothingQuoted(tail: Bytes)
    ensures Quoted([]) + tail == tail
  {
  }

  lemma UnquoteEnds(rest: Bytes)
    ensures Unquote([QUOTE] + rest, QUOTE) == Some(([], rest))
  {
  }

  /** What a backslash and the octet behind it come back as. */
  lemma UnquotePair(x: byte, s: Bytes)
    ensures Unquote([BACKSLASH, x] + s, QUOTE)
         == match Unquote(s, QUOTE)
            case None => None
            case Some((v, rest)) => Some(([Escaped(x)] + v, rest))
    ensures x != BACKSLASH ==> Escaped(x) != BACKSLASH
    ensures Escaped(BACKSLASH) == BACKSLASH
  {
    var t := [BACKSLASH, x] + s;
    assert t[2..] == s && t[0] == BACKSLASH && t[1] == x;
  }

  /** An octet other than a backslash, as it is printed, does not come back as a backslash. */
  lemma UnquoteOther(c: byte, s: Bytes)
    requires c != BACKSLASH
    ensures match Unquote((if c == QUOTE then [BACKSLASH, QUOTE] else [c]) + s, QUOTE)
            case None => true
            case Some((v, _)) => v == [] || v[0] != BACKSLASH
  {
    if c == QUOTE {
      UnquotePair(QUOTE, s);
    } else {
      assert ([c] + s)[1..] == s && ([c] + s)[0] == c;
    }
  }

  /** A backslash that is followed by another octet, as that is printed. */
  lemma AfterBackslash(c: byte, s: Bytes)
    ensures var t := [BACKSLASH] + ((if c == QUOTE then [BACKSLASH, QUOTE] else [c]) + s);
            match Unquote(t, QUOTE)
            case None => true
            case Some((v, _)) =>
              && v != []
              && (c == BACKSLASH ==> Unquote(s, QUOTE).Some? && v == [BACKSLASH] + Unquote(s, QUOTE).value.0)
              && (c == QUOTE ==> v == [BACKSLASH])
              && (c != BACKSLASH && c != QUOTE ==> v[0] != BACKSLASH)
  {
    hide Unquote;
    if c == QUOTE {
      assert [BACKSLASH] + ([BACKSLASH, QUOTE] + s) == [BACKSLASH, BACKSLASH] + ([QUOTE] + s);
      UnquotePair(BACKSLASH, [QUOTE] + s);
      UnquoteEnds(s);
    } else {
      assert [BACKSLASH] + ([c] + s) == [BACKSLASH, c] + s;
      UnquotePair(c, s);
    }
  }

  /** Once unquoting has fallen behind a run of backslashes, it cannot catch up: behind `h[..b]` in the text
      and `h[..a]` in the value, with nothing but backslashes between. */
  lemma {:induction false} RunOfBackslashes(h: Bytes, a: nat, b: nat, rest: Bytes)
    requires a <= b <= |h| && (a < b || (b < |h| && h[b] == BACKSLASH))
    requires forall j :: a <= j < b ==> h[j] == BACKSLASH
    ensures match Unquote(Quoted(h[b..]) + [QUOTE] + rest, QUOTE)
            case None => true
            case Some((v, _)) => v != h[a..]
    decreases |h| - b
  {
    hide Quoted, Unquote;
    var tail := [QUOTE] + rest;
    Associates(Quoted(h[b..]), [QUOTE], rest);
    assert h[a..][0] == h[a] == BACKSLASH;
    if b == |h| {
      assert h[b..] == [];
      NothingQuoted(tail);
      UnquoteEnds(rest);
    } else {
      var more := Quoted(h[b + 1..]) + tail;
      assert h[b..][0] == h[b] && h[b..][1..] == h[b + 1..];
      QuotedFront(h[b..], tail);
      if h[b] != BACKSLASH {
        UnquoteOther(h[b], more);
      } else if b + 1 == |h| {
        NothingQuoted(tail);
        UnquotePair(QUOTE, rest);
        assert [BACKSLASH] + tail == [BACKSLASH, QUOTE] + rest;
      } else {
        assert h[b + 1..][0] == h[b + 1] && h[b + 1..][1..] == h[b + 2..];
        QuotedFront(h[b + 1..], tail);
        AfterBackslash(h[b + 1], Quoted(h[b + 2..]) + tail);
        if h[b + 1] == BACKSLASH {
          Associates(Quoted(h[b + 2..]), [QUOTE], rest);
          RunOfBackslashes(h, a + 1, b + 2, rest);
          assert h[a..] == [BACKSLASH] + h[a + 1..];
        }
      }
    }
  }

  lemma {:induction false} BackslashIsLost(h: Bytes, rest: Bytes)
    requires NulFree(h) && BACKSLASH in h
    ensures match Unquote(Quoted(h) + [QUOTE] + rest, QUOTE)
            case None => true
            case Some((v, _)) => v != h
  {
    var s := Quoted(h) + [QUOTE] + rest;
    assert h[0..] == h;
    if h[0] == BACKSLASH {
      RunOfBackslashes(h, 0, 0, rest);
    } else {
      BackslashIsLost(h[1..], rest);
      var k := if h[0] == QUOTE then 2 else 1;
      assert s[k..] == Quoted(h[1..]) + [QUOTE] + rest;
    }
  }

  /** A quote at the front of an unquoted hash: the string closes inside it or takes in the end of the line. */
  lemma {:induction false} QuoteInFront(x: Bytes, rest: Bytes, q: byte)
    requires q == QUOTE || q == TICK
    ensures match Unquote(x + [NEWLINE] + rest, q)
            case None => true
            case Some((v, _)) => |v| <= |x| || NEWLINE in v
  {
    var s := x + [NEWLINE] + rest;
    if x != [] {
      if x[0] == BACKSLASH && |x| > 1 {
        assert s[2..] == x[2..] + [NEWLINE] + rest;
        QuoteInFront(x[2..], rest, q);
      } else {
        assert s[1..] == x[1..] + [NEWLINE] + rest;
        QuoteInFront(x[1..], rest, q);
      }
    }
  }

  lemma {:induction false} CommentEndsLine(x: Bytes, rest: Bytes)
    requires NulFree(x) && NEWLINE !in x
    ensures AfterComment(x + [NEWLINE] + rest) == rest
  {
    var s := x + [NEWLINE] + rest;
    if x != [] {
      assert s[1..] == x[1..] + [NEWLINE] + rest;
      CommentEndsLine(x[1..], rest);
    } else {
      assert s[1..] == rest;
    }
  }

  lemma {:induction false} UnquoteNulFree(s: Bytes, q: byte)
    requires NulFree(s)
    ensures match Unquote(s, q)
            case None => true
            case Some((v, _)) => NulFree(v)
  {
    if s != [] && s[0] != q {
      if s[0] == BACKSLASH && |s| > 1 {
        UnquoteNulFree(s[2..], q);
      } else {
        UnquoteNulFree(s[1..], q);
      }
    }
  }

  lemma BadString(s: Bytes, q: byte, h: Bytes)
    requires NulFree(s) && (q == QUOTE || q == TICK)
    requires match Unquote(s, q) case None => true case Some((v, _)) => v != h
    ensures var (t, _) := Lex([q] + s); !t.Word? && (t.QString? ==> AsString(t) != h)
  {
    hide Lex, Unquote, CString, AsString;
    LexQuoted(s, q);
    UnquoteNulFree(s, q);
    match Unquote(s, q)
    case None =>
    case Some((v, _)) => CStringWhole(v);
  }

  lemma {:induction false} QuotedNulFree(h: Bytes)
    requires NulFree(h)
    ensures NulFree(Quoted(h))
  {
    if h != [] {
      QuotedNulFree(h[1..]);
    }
  }

  lemma {:induction false} LinesNulFree(entries: seq<Entry>)
    requires Printable(entries)
    ensures NulFree(Lines(entries))
  {
    hide Quoted, HasSpace;
    if entries != [] {
      QuotedNulFree(entries[0].hash);
      LinesNulFree(entries[1..]);
      assert NulFree(Line(entries[0]));
    }
  }

  lemma LexLines(entries: seq<Entry>)
    requires Printable(entries)
    ensures Lex(Lines(entries)).0 == if entries == [] then Eos else Word(entries[0].user)
  {
    if entries != [] {
      var e := entries[0];
      var rest := Shown(e.hash) + [NEWLINE] + Lines(entries[1..]);
      assert Lines(entries) == e.user + [SPACE] + Md5Type() + [SPACE] + rest;
      LexUser(e.user, rest);
      hide Lex, Shown, Md5Type;
    }
  }

  lemma LexNewline(s: Bytes)
    ensures Lex([NEWLINE] + s) == (Newline, s)
  {
    assert ([NEWLINE] + s)[1..] == s;
  }

  lemma LexComment(s: Bytes)
    ensures Lex([HASH] + s) == Lex(AfterComment(s))
  {
    assert ([HASH] + s)[1..] == s;
  }

  lemma StillNulFree(s: Bytes, rest: Bytes)
    requires NulFree(s) && NulFree(rest)
    ensures NulFree(s + [QUOTE] + rest)
  {
  }

  lemma LexBadQuoted(h: Bytes, rest: Bytes)
    requires NulFree(h) && BACKSLASH in h && NulFree(rest)
    ensures var (t, _) := Lex([QUOTE] + Quoted(h) + [QUOTE] + rest);
            t.Word? || t.QString? ==> AsString(t) != h
  {
    hide *;
    QuotedNulFree(h);
    BackslashIsLost(h, rest);
    StillNulFree(Quoted(h), rest);
    BadString(Quoted(h) + [QUOTE] + rest, QUOTE, h);
    assert [QUOTE] + Quoted(h) + [QUOTE] + rest == [QUOTE] + (Quoted(h) + [QUOTE] + rest);
  }

  lemma LexBadWord(h: Bytes, next: seq<Entry>)
    requires h != [] && NulFree(h) && !HasSpace(h) && !Plain(h) && Printable(next)
    ensures var (t, _) := Lex(h + [NEWLINE] + Lines(next));
            t.Word? || t.QString? ==> AsString(t) != h
  {
    hide Lex, Lines, Unquote, CString, Unescape;
    var rest := Lines(next);
    var s := h[1..] + [NEWLINE] + rest;
    assert h + [NEWLINE] + rest == [h[0]] + s;
    assert NEWLINE !in h;
    LinesNulFree(next);
    if h[0] == HASH {
      CommentEndsLine(h[1..], rest);
      LexComment(s);
      LexLines(next);
      if next != [] {
        CStringWhole(next[0].user);
      }
    } else {
      QuoteInFront(h[1..], rest, h[0]);
      BadString(s, h[0], h);
    }
  }

  lemma LexBadShown(h: Bytes, rest: Bytes)
    requires NulFree(h) && HasSpace(h) && BACKSLASH in h && NulFree(rest)
    ensures var (t, _) := Lex(Shown(h) + [NEWLINE] + rest);
            t.Word? || t.QString? ==> AsString(t) != h
  {
    LexBadQuoted(h, [NEWLINE] + rest);
    assert Shown(h) == [QUOTE] + Quoted(h) + [QUOTE];
    hide *;
    Associates(Shown(h), [NEWLINE], rest);
  }

  lemma LexBadHash(h: Bytes, next: seq<Entry>)
    requires NulFree(h) && !GoodHash(h) && Printable(next)
    ensures var (t, _) := Lex(Shown(h) + [NEWLINE] + Lines(next));
            t.Word? || t.QString? ==> AsString(t) != h
  {
    hide Lex, Lines, AsString, Quoted;
    LinesNulFree(next);
    if HasSpace(h) {
      LexBadShown(h, Lines(next));
    } else if h == [] {
      LexNewline(Lines(next));
      assert Shown(h) + [NEWLINE] + Lines(next) == [NEWLINE] + Lines(next);
    } else {
      LexBadWord(h, next);
    }
  }

  /** Entries with plain names come back, in their order, if and only if every hash is one that the printer
      can show: without a backslash when it is quoted, a plain word when it is not. */
  lemma {:induction false} LinesParseIff(entries: seq<Entry>)
    requires Printable(entries)
    ensures Parse(Lines(entries)) == entries <==> forall k :: 0 <= k < |entries| ==> GoodHash(entries[k].hash)
  {
    hide Lex, Shown, GoodHash, AsString, Plain, NulFree;
    if entries == [] {
      LexNothing();
    } else {
      var e, next := entries[0], entries[1..];
      var rest := Shown(e.hash) + [NEWLINE] + Lines(next);
      assert Lines(entries) == e.user + [SPACE] + Md5Type() + [SPACE] + rest;
      ParseUser(e.user, rest);
      if GoodHash(e.hash) {
        LexGoodHash(e.hash, Lines(next));
        ParseNewline(Lines(next));
        LinesParseIff(next);
        assert entries == [e] + next;
        assert (forall k :: 0 <= k < |entries| ==> GoodHash(entries[k].hash))
          <==> (forall k :: 0 <= k < |next| ==> GoodHash(next[k].hash)) by {
          assert forall k :: 0 <= k < |next| ==> next[k] == entries[k + 1];
        }
      } else {
        LexBadHash(e.hash, next);
      }
    }
  }

  lemma LexNothing()
    ensures Lex([]) == (Eos, [])
  {
  }

  lemma ParseNewline(rest: Bytes)
    ensures Parse([NEWLINE] + rest) == Parse(rest)
  {
    hide Lex;
    LexNewline(rest);
  }

  lemma ParseComment(title: Bytes, rest: Bytes)
    requires NulFree(title) && NEWLINE !in title
    ensures Parse([HASH] + title + [NEWLINE] + rest) == Parse(rest)
  {
    hide Lex;
    CommentEndsLine(title, rest);
    LexComment(title + [NEWLINE] + rest);
    assert [HASH] + title + [NEWLINE] + rest == [HASH] + (title + [NEWLINE] + rest);
  }

  lemma TitleIsComment()
    ensures NulFree(Title()) && NEWLINE !in Title()
  {
  }

  lemma DumpParsesIff(entries: seq<Entry>)
    requires Printable(entries)
    ensures Parse(Dump(entries)) == entries <==> forall k :: 0 <= k < |entries| ==> GoodHash(entries[k].hash)
  {
    hide Parse, Lines, GoodHash, Title, NulFree;
    LinesParseIff(entries);
    TitleIsComment();
    ParseComment(Title(), Lines(entries));
  }

  // What the printer writes, octet by octet.

  /** A backslash goes in front of every `"`, and nothing else changes. */
  lemma {:induction false} QuotedIs(x: Bytes, y: Bytes)
    requires 0x22 !in x
    ensures Quoted(x + [0x22] + y) == x + [0x5c, 0x22] + Quoted(y)
    ensures Quoted(x) == x
    decreases |x|
  {
    hide Quoted;
    QuotedHead(x + [0x22] + y);
    QuotedHead(x);
    if x == [] {
      assert (x + [0x22] + y)[1..] == y;
    } else {
      QuotedIs(x[1..], y);
      assert (x + [0x22] + y)[1..] == x[1..] + [0x22] + y;
      Associates([x[0]], x[1..], [0x5c, 0x22] + Quoted(y));
      assert x == [x[0]] + x[1..];
      assert x + [0x5c, 0x22] + Quoted(y) == [x[0]] + (x[1..] + [0x5c, 0x22] + Quoted(y));
    }
  }

  lemma QuotedHead(s: Bytes)
    ensures Quoted(s) == if s == [] then [] else (if s[0] == 0x22 then [0x5c, 0x22] else [s[0]]) + Quoted(s[1..])
  {
  }

  /** The fields of a line stand one space apart; the hash is in `"` if and only if it holds a space or anything from
      tab to carriage return. */
  lemma LineShows(e: Entry)
    ensures Line(e) == e.user + [0x20, 0x6d, 0x64, 0x35, 0x20]
                       + (if exists k :: 0 <= k < |e.hash| && (e.hash[k] == 0x20 || 0x09 <= e.hash[k] <= 0x0d)
                          then [0x22] + Quoted(e.hash) + [0x22] else e.hash) + [0x0a]
  {
    hide Quoted;
    assert HasSpace(e.hash) <==>
           exists k :: 0 <= k < |e.hash| && (e.hash[k] == 0x20 || 0x09 <= e.hash[k] <= 0x0d);
    assert [SPACE] + Md5Type() + [SPACE] == [0x20, 0x6d, 0x64, 0x35, 0x20];
    assert e.user + [SPACE] + Md5Type() + [SPACE] == e.user + [0x20, 0x6d, 0x64, 0x35, 0x20];
  }

  lemma DumpShows(entries: seq<Entry>)
    ensures |Dump(entries)| >= 18 && Dump(entries)[18..] == Lines(entries)
    ensures forall k | 0 <= k < 18 :: Dump(entries)[k] as int == "# pgrouter authdb\n"[k] as int
  {
    hide Lines;
  }

  // Lines that the printer did not write.

  /** Space, tab, vertical tab, form feed and carriage return. */
  predicate Blanks(s: Bytes)
  {
    forall k :: 0 <= k < |s| ==> s[k] == 0x20 || s[k] == 0x09 || s[k] == 0x0b || s[k] == 0x0c || s[k] == 0x0d
  }

  /** A word that needs no quotes: it holds no NUL, no space and nothing from tab to carriage return, and begins with
      none of `"`, `#` and `'`. */
  predicate Bare(w: Bytes)
  {
    && w != [] && w[0] != 0x22 && w[0] != 0x23 && w[0] != 0x27
    && forall k :: 0 <= k < |w| ==> w[k] != 0 && w[k] != 0x20 && !(0x09 <= w[k] <= 0x0d)
  }

  /** In quotes: an octet that stands for itself, or a backslash and another one. */
  datatype Piece = Straight(c: byte) | Escape(c: byte)
  {
    predicate Good(q: byte) { c != 0 && (Straight? ==> c != q && c != 0x5c) }

    function Text(): Bytes { if Straight? then [c] else [0x5c, c] }

    /** `\t`, `\r` and `\n` are a tab, a carriage return and a newline. */
    function Value(): byte
    {
      if Straight? then c
      else if c == 't' as int then 0x09
      else if c == 'r' as int then 0x0d
      else if c == 'n' as int then 0x0a
      else c
    }
  }

  function Texts(pieces: seq<Piece>): Bytes
  {
    if pieces == [] then [] else pieces[0].Text() + Texts(pieces[1..])
  }

  function Values(pieces: seq<Piece>): Bytes
  {
    if pieces == [] then [] else [pieces[0].Value()] + Values(pieces[1..])
  }

  /** A field of a line, as it can be written. */
  datatype Field = Bareword(w: Bytes) | Str(q: byte, pieces: seq<Piece>)
  {
    predicate Good()
    {
      if Bareword? then Bare(w)
      else (q == 0x22 || q == 0x27) && forall k :: 0 <= k < |pieces| ==> pieces[k].Good(q)
    }

    function Text(): Bytes
    {
      if Bareword? then w else [q] + Texts(pieces) + [q]
    }

    function Value(): Bytes
    {
      if Bareword? then w else Values(pieces)
    }
  }

  lemma {:induction false} LexBlanks(sep: Bytes, rest: Bytes)
    requires Blanks(sep)
    ensures Lex(sep + rest) == Lex(rest)
  {
    if sep == [] {
      assert sep + rest == rest;
    } else {
      LexBlanks(sep[1..], rest);
      assert (sep + rest)[1..] == sep[1..] + rest;
    }
  }

  /** Such a word, before a blank or the end of the line. */
  lemma LexBare(w: Bytes, behind: Bytes)
    requires Bare(w) && behind != [] && (Blanks(behind[..1]) || behind[0] == 0x0a)
    ensures Lex(w + behind) == (Word(w), behind) && AsString(Word(w)) == w
  {
    hide Lex, CString;
    assert Blanks(behind[..1]) ==> behind[..1][0] == behind[0];
    LexPlain(w, behind[0], behind[1..]);
    assert w + behind == w + [behind[0]] + behind[1..] && behind == [behind[0]] + behind[1..];
    CStringWhole(w);
  }

  lemma PieceIs(p: Piece, q: byte, s: Bytes)
    requires (q == 0x22 || q == 0x27) && p.Good(q) && s != []
    ensures Unquote(p.Text() + s, q) == match Unquote(s, q)
                                        case None => None
                                        case Some((v, rest)) => Some(([p.Value()] + v, rest))
  {
    var t := p.Text() + s;
    assert t[|p.Text()|..] == s && t[0] == p.Text()[0] && (p.Escape? ==> t[1] == p.c);
  }

  lemma {:induction false} StringIs(pieces: seq<Piece>, q: byte, behind: Bytes)
    requires (q == 0x22 || q == 0x27) && forall k :: 0 <= k < |pieces| ==> pieces[k].Good(q)
    ensures Unquote(Texts(pieces) + [q] + behind, q) == Some((Values(pieces), behind)) && NulFree(Values(pieces))
  {
    hide Unquote, Piece.Text;
    if pieces == [] {
      assert Texts([]) + [q] + behind == [q] + behind;
      StringEnds(q, behind);
    } else {
      var p, next := pieces[0], Texts(pieces[1..]) + [q] + behind;
      StringIs(pieces[1..], q, behind);
      assert Texts(pieces) + [q] + behind == p.Text() + next;
      PieceIs(p, q, next);
    }
  }

  lemma StringEnds(q: byte, behind: Bytes)
    requires q == 0x22 || q == 0x27
    ensures Unquote([q] + behind, q) == Some(([], behind))
  {
  }

  /** Before a blank, a newline or, behind a string, anything else. */
  predicate Apart(f: Field, behind: Bytes)
  {
    f.Str? || (behind != [] && (Blanks(behind[..1]) || behind[0] == 0x0a))
  }

  predicate Yields(r: (Token, Bytes), value: Bytes, behind: Bytes)
  {
    (r.0.Word? || r.0.QString?) && (r.0.QString? ==> |r.0.value| >= 2) && AsString(r.0) == value && r.1 == behind
  }

  lemma LexField(sep: Bytes, f: Field, behind: Bytes)
    requires Blanks(sep) && f.Good() && Apart(f, behind)
    ensures Yields(Lex(sep + f.Text() + behind), f.Value(), behind)
    ensures f.Bareword? ==> Lex(sep + f.Text() + behind).0.Word?
  {
    hide Lex, CString, Bare, Texts, Values, Unquote, Unescape;
    LexBlanks(sep, f.Text() + behind);
    Associates(sep, f.Text(), behind);
    if f.Bareword? {
      LexBare(f.w, behind);
    } else {
      StringIs(f.pieces, f.q, behind);
      LexQuoted(Texts(f.pieces) + [f.q] + behind, f.q);
      CStringWhole(Values(f.pieces));
      assert f.Text() + behind == [f.q] + (Texts(f.pieces) + [f.q] + behind);
    }
  }

  /** A comment that goes to the end of its line, or none. */
  predicate Comment(s: Bytes)
  {
    (s != [] ==> s[0] == 0x23) && forall k :: 0 <= k < |s| ==> s[k] != 0 && s[k] != 0x0a
  }

  /** The end of a line, and all of a line that is blank or a comment. */
  lemma LineEnds(trail: Bytes, comment: Bytes, rest: Bytes)
    requires Blanks(trail) && Comment(comment)
    ensures Parse(trail + (comment + ([0x0a] + rest))) == Parse(rest)
  {
    hide Lex, AfterComment, Blanks;
    LexBlanks(trail, comment + ([0x0a] + rest));
    if comment == [] {
      assert comment + ([0x0a] + rest) == [0x0a] + rest;
      LexNewline(rest);
    } else {
      var text := comment[1..];
      assert comment + ([0x0a] + rest) == [0x23] + (text + [0x0a] + rest);
      LexComment(text + [0x0a] + rest);
      CommentEndsLine(text, rest);
    }
  }

  /** A line of three fields. */
  lemma LineOf(indent: Bytes, user: Field, sep1: Bytes, sep2: Bytes, hash: Field, behind: Bytes)
    requires Blanks(indent) && Blanks(sep1) && Blanks(sep2) && (user.Str? || sep1 != []) && sep2 != []
    requires user.Good() && hash.Good() && Apart(hash, behind)
    ensures Parse(indent + user.Text() + (sep1 + [0x6d, 0x64, 0x35] + (sep2 + hash.Text() + behind)))
         == [Entry(user.Value(), hash.Value())] + Parse(behind)
  {
    hide Lex, AsString, Field.Good, Field.Text, Field.Value;
    var third := sep2 + hash.Text() + behind;
    var second := sep1 + [0x6d, 0x64, 0x35] + third;
    assert sep1 != [] ==> second[..1] == sep1[..1];
    assert third[..1] == sep2[..1];
    LexField(indent, user, second);
    TypeIs();
    LexField(sep1, Bareword([0x6d, 0x64, 0x35]), third);
    LexField(sep2, hash, behind);
  }

  lemma TypeIs()
    ensures var f := Bareword([0x6d, 0x64, 0x35]); f.Good() && f.Text() == f.Value() == [0x6d, 0x64, 0x35]
  {
  }

  /** Any line of a user, the word md5 and a hash, however they are spaced and quoted, gives the entry of that user. */
  lemma LineParses(indent: Bytes, user: Field, sep1: Bytes, sep2: Bytes, hash: Field, trail: Bytes, comment: Bytes,
                   rest: Bytes)
    requires Blanks(indent) && Blanks(sep1) && Blanks(sep2) && Blanks(trail) && Comment(comment)
    requires user.Good() && hash.Good()
    requires (user.Str? || sep1 != []) && sep2 != [] && (hash.Str? || trail != [] || comment == [])
    ensures Parse(indent + user.Text() + sep1 + [0x6d, 0x64, 0x35] + sep2 + hash.Text() + trail + comment
                  + [0x0a] + rest)
         == [Entry(user.Value(), hash.Value())] + Parse(rest)
  {
    hide Parse, Field.Good, Field.Text, Field.Value;
    var behind := trail + (comment + ([0x0a] + rest));
    assert trail != [] ==> behind[..1] == trail[..1];
    LineOf(indent, user, sep1, sep2, hash, behind);
    LineEnds(trail, comment, rest);
    Regroup(indent + user.Text(), sep1, [0x6d, 0x64, 0x35], sep2, hash.Text(), trail, comment, [0x0a], rest);
  }

  lemma Regroup(a: Bytes, b: Bytes, c: Bytes, d: Bytes, e: Bytes, f: Bytes, g: Bytes, h: Bytes, i: Bytes)
    ensures a + b + c + d + e + f + g + h + i == a + (b + c + (d + e + (f + (g + (h + i)))))
  {
    Associates(a + b + c + d + e + f + g, h, i);
    Associates(a + b + c + d + e + f, g, h + i);
    Associates(a + b + c + d + e, f, g + (h + i));
    Associates(a + b + c + d, e, f + (g + (h + i)));
    Associates(a + b + c, d, e + (f + (g + (h + i))));
    Associates(d, e, f + (g + (h + i)));
    Associates(a + b, c, d + e + (f + (g + (h + i))));
    Associates(a, b, c + (d + e + (f + (g + (h + i)))));
    Associates(b, c, d + e + (f + (g + (h + i))));
  }

  /** A line of such a file: an account, or nothing but blanks and a comment. */
  datatype HandLine =
    | Nothing(trail: Bytes, comment: Bytes)
    | Account(indent: Bytes, user: Field, sep1: Bytes, sep2: Bytes, hash: Field, trail: Bytes, comment: Bytes)
  {
    predicate Good()
    {
      && Blanks(trail) && Comment(comment)
      && (Account? ==>
            && Blanks(indent) && Blanks(sep1) && Blanks(sep2) && user.Good() && hash.Good()
            && (user.Str? || sep1 != []) && sep2 != [] && (hash.Str? || trail != [] || comment == []))
    }

    function Text(): Bytes
    {
      (if Nothing? then [] else indent + user.Text() + sep1 + [0x6d, 0x64, 0x35] + sep2 + hash.Text())
      + trail + comment + [0x0a]
    }

    function Found(): seq<Entry>
    {
      if Nothing? then [] else [Entry(user.Value(), hash.Value())]
    }
  }

  function FileText(lines: seq<HandLine>): Bytes
  {
    if lines == [] then [] else lines[0].Text() + FileText(lines[1..])
  }

  function FileEntries(lines: seq<HandLine>): seq<Entry>
  {
    if lines == [] then [] else lines[0].Found() + FileEntries(lines[1..])
  }

  /** So a whole file gives exactly the entries of its lines, in their order. */
  lemma {:induction false} FileParses(lines: seq<HandLine>)
    requires forall k :: 0 <= k < |lines| ==> lines[k].Good()
    ensures Parse(FileText(lines)) == FileEntries(lines)
  {
    hide Parse, HandLine.Good, HandLine.Text, HandLine.Found;
    if lines == [] {
      NothingParses();
    } else {
      FileParses(lines[1..]);
      HandLineParses(lines[0], FileText(lines[1..]));
    }
  }

  lemma NothingParses()
    ensures Parse([]) == []
  {
    LexNothing();
  }

  lemma HandLineParses(line: HandLine, rest: Bytes)
    requires line.Good()
    ensures Parse(line.Text() + rest) == line.Found() + Parse(rest)
  {
    hide Parse, Blanks, Comment, Field.Good, Field.Text, Field.Value;
    if line.Nothing? {
      LineEnds(line.trail, line.comment, rest);
      assert line.Text() + rest == line.trail + (line.comment + ([0x0a] + rest));
    } else {
      LineParses(line.indent, line.user, line.sep1, line.sep2, line.hash, line.trail, line.comment, rest);
    }
  }

  lemma {:induction false} WordEndsEarly(w: Bytes, k: nat)
    requires Bare(w) && 1 <= k <= |w|
    ensures WordEnd(w, k) == |w| - 1
    decreases |w| - k
  {
    if k < |w| {
      WordEndsEarly(w, k + 1);
    }
  }

  lemma LexLast(w: Bytes)
    requires Bare(w)
    ensures Lex(w) == (Word(w[..|w| - 1]), w[|w| - 1..]) && AsString(Word(w[..|w| - 1])) == w[..|w| - 1]
  {
    hide WordEnd, CString;
    WordEndsEarly(w, 1);
    CStringWhole(w[..|w| - 1]);
  }

  /** The octet that is left over gives nothing. */
  lemma LastOctetIsLost(c: byte)
    requires c != 0 && c != 0x20 && !(0x09 <= c <= 0x0d)
    ensures Parse([c]) == []
  {
    if c == 0x23 {
      assert [c][1..] == [];
    } else if c != 0x22 && c != 0x27 {
      hide Lex, CString;
      LexLast([c]);
      assert [c][..0] == [] && [c][0..] == [c];
    }
  }

  /** When the last line lacks its newline, its hash loses its last octet: the lexer steps back at the end of the
      file. */
  lemma LastWordCutShort(user: Field, sep1: Bytes, sep2: Bytes, hash: Bytes)
    requires Blanks(sep1) && Blanks(sep2) && user.Good() && Bare(hash) && (user.Str? || sep1 != []) && sep2 != []
    ensures Parse(user.Text() + (sep1 + [0x6d, 0x64, 0x35] + (sep2 + hash)))
         == [Entry(user.Value(), hash[..|hash| - 1])]
  {
    hide Lex, AsString, Field.Good, Field.Text, Field.Value, Bare;
    var third := sep2 + hash;
    var second := sep1 + [0x6d, 0x64, 0x35] + third;
    assert sep1 != [] ==> second[..1] == sep1[..1];
    assert third[..1] == sep2[..1];
    assert [] + user.Text() == user.Text();
    LexField([], user, second);
    TypeIs();
    LexField(sep1, Bareword([0x6d, 0x64, 0x35]), third);
    LexBlanks(sep2, hash);
    LastLexed(hash);
  }

  lemma LastLexed(hash: Bytes)
    requires Bare(hash)
    ensures Yields(Lex(hash), hash[..|hash| - 1], Lex(hash).1) && Parse(Lex(hash).1) == []
  {
    hide Lex, AsString, Parse;
    LexLast(hash);
    assert hash[|hash| - 1..] == [hash[|hash| - 1]];
    LastOctetIsLost(hash[|hash| - 1]);
  }
}
