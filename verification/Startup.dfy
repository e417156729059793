/** The StartupMessage and the md5 PasswordMessage of src/conn.c: building them and reading them back. */
module Startup {
  import opened Wire
  import opened Md5Spec
  import opened Md5Context

  datatype Param = Param(name: Bytes, value: Bytes)

  /** Names and values are C strings. */
  predicate Strings(params: seq<Param>)
  {
    forall k :: 0 <= k < |params| ==> NulFree(params[k].name) && NulFree(params[k].value)
  }

  function Pair(p: Param): Bytes
  {
    p.name + [NUL] + p.value + [NUL]
  }

  function Pairs(params: seq<Param>): Bytes
  {
    if params == [] then [] else Pair(params[0]) + Pairs(params[1..])
  }

  /** Protocol version 3.0, the parameters and the final NUL. */
  function StartupPayload(params: seq<Param>): Bytes
  {
    [0, 3, 0, 0] + Pairs(params) + [NUL]
  }

  /** What `extract_params` finds in the memory behind the version: the parameters, and whether it got to
      the end of them. The memory behind the buffer is taken to start with a NUL. */
  function Extract(mem: Bytes): (seq<Param>, bool)
    decreases |mem|
  {
    if mem == [] || mem[0] == NUL then ([], true)
    else
      var name := CString(mem);
      var rest := Behind(mem, |name|);
      if rest == [] || rest[0] == NUL then ([Param(name, [])], false)
      else
        var value := CString(rest);
        var (more, ok) := Extract(Behind(rest, |value|));
        ([Param(name, value)] + more, ok)
  }

  /** What follows a string of `n` octets and its NUL. */
  function Behind(mem: Bytes, n: nat): (t: Bytes)
    ensures mem != [] ==> |t| < |mem|
  {
    if n + 1 <= |mem| then mem[n + 1..] else []
  }

  lemma {:induction false} StringInFront(s: Bytes, rest: Bytes)
    requires NulFree(s)
    ensures CString(s + [NUL] + rest) == s
    ensures Behind(s + [NUL] + rest, |s|) == rest
  {
    if s == [] {
    } else {
      StringInFront(s[1..], rest);
      assert (s + [NUL] + rest)[1..] == s[1..] + [NUL] + rest;
    }
    assert (s + [NUL] + rest)[|s| + 1..] == rest;
  }

  predicate AllNamed(params: seq<Param>)
  {
    forall k :: 0 <= k < |params| ==> params[k].name != [] && params[k].value != []
  }

  lemma ExtractPair(p: Param, rest: Bytes)
    requires NulFree(p.name) && NulFree(p.value)
    ensures Extract(Pair(p) + rest)
         == if p.name == [] then ([], true)
            else if p.value == [] then ([p], false)
            else var (more, ok) := Extract(rest); ([p] + more, ok)
  {
    hide CString, Behind;
    var s := p.value + [NUL] + rest;
    assert Pair(p) + rest == p.name + [NUL] + s;
    StringInFront(p.name, s);
    StringInFront(p.value, rest);
    assert p.name != [] ==> (p.name + [NUL] + s)[0] == p.name[0];
    assert p.value != [] ==> s[0] == p.value[0];
    assert p.value == [] ==> s[0] == NUL;
  }

  /** Whatever lies behind the message, the parameters come back, in their order, if and only if all names
      and values are there. */
  lemma {:induction false} ExtractsIff(params: seq<Param>, behind: Bytes)
    requires Strings(params)
    ensures Extract(Pairs(params) + [NUL] + behind) == (params, true) <==> AllNamed(params)
  {
    hide Pairs, Pair, Extract, CString, Behind, AllNamed, NulFree;
    if params == [] {
      ExtractsNothing(behind);
    } else {
      var p, next := params[0], params[1..];
      AllNamedSplits(params);
      PairsSplit(params, behind);
      ExtractPair(p, Pairs(next) + [NUL] + behind);
      ExtractsIff(next, behind);
      assert params == [p] + next;
    }
  }

  lemma ExtractsNothing(behind: Bytes)
    ensures Extract(Pairs([]) + [NUL] + behind) == ([], true) && AllNamed([])
  {
    assert (Pairs([]) + [NUL] + behind)[0] == NUL;
  }

  lemma AllNamedSplits(params: seq<Param>)
    requires params != []
    ensures AllNamed(params) <==> params[0].name != [] && params[0].value != [] && AllNamed(params[1..])
  {
    assert forall k :: 0 <= k < |params| - 1 ==> params[1..][k] == params[k + 1];
  }

  lemma PairsSplit(params: seq<Param>, behind: Bytes)
    requires params != []
    ensures Pairs(params) + [NUL] + behind == Pair(params[0]) + (Pairs(params[1..]) + [NUL] + behind)
  {
  }

  /** The same of the whole message, read from where `extract_params` starts. */
  lemma StartupRoundTripIff(params: seq<Param>, behind: Bytes)
    requires Strings(params) && |StartupPayload(params)| + 4 < 0x1_0000_0000
    ensures Extract((Untyped(StartupPayload(params)) + behind)[8..]) == (params, true) <==> AllNamed(params)
  {
    hide Extract, Pairs, Htonl;
    ExtractsIff(params, behind);
    assert (Untyped(StartupPayload(params)) + behind)[8..] == Pairs(params) + [NUL] + behind;
  }

  // A message that has not arrived completely.

  /** A C string stands in front of what it is read from, with its NUL, or with the one behind the memory. */
  lemma CStringInFront(mem: Bytes)
    ensures NulFree(CString(mem)) && CString(mem) <= mem
    ensures |CString(mem)| < |mem| ==> mem == CString(mem) + [NUL] + Behind(mem, |CString(mem)|)
    ensures mem != [] && mem[0] != NUL ==> CString(mem) != []
  {
    hide CString;
    CStringEnds(mem);
    var n := |CString(mem)|;
    if n < |mem| {
      assert mem == mem[..n] + [mem[n]] + mem[n + 1..];
    }
  }

  lemma {:induction false} CStringEnds(mem: Bytes)
    ensures NulFree(CString(mem)) && CString(mem) <= mem
    ensures |CString(mem)| < |mem| ==> mem[|CString(mem)|] == NUL
    ensures mem != [] && mem[0] != NUL ==> CString(mem) != []
    decreases |mem|
  {
    if mem != [] && mem[0] != NUL {
      CStringEnds(mem[1..]);
      assert mem == [mem[0]] + mem[1..];
    }
  }

  /** What is found stands there, with NULs behind the memory. */
  lemma {:induction false} FoundInFront(mem: Bytes)
    requires Extract(mem).1
    ensures var params := Extract(mem).0;
            Strings(params) && AllNamed(params) && Pairs(params) + [NUL] <= mem + [NUL, NUL]
    decreases |mem|
  {
    hide CString, NulFree, Pairs, Strings, AllNamed;
    NothingFound(mem);
    if mem != [] && mem[0] != NUL {
      var name := CString(mem);
      var rest := Behind(mem, |name|);
      CStringInFront(mem);
      var value := CString(rest);
      CStringInFront(rest);
      var tail := Behind(rest, |value|);
      FoundInFront(tail);
      FoundBehind(mem, rest, tail, Param(name, value), Extract(tail).0);
    }
  }

  lemma NothingFound(mem: Bytes)
    ensures Strings([]) && AllNamed([])
    ensures mem == [] || mem[0] == NUL ==> Pairs([]) + [NUL] <= mem + [NUL, NUL]
  {
  }

  lemma FoundBehind(mem: Bytes, rest: Bytes, tail: Bytes, p: Param, more: seq<Param>)
    requires rest != [] && mem == p.name + [NUL] + rest
    requires if |p.value| < |rest| then rest == p.value + [NUL] + tail else rest == p.value && more == []
    requires NulFree(p.name) && NulFree(p.value) && p.name != [] && p.value != [] && Strings(more) && AllNamed(more)
    requires Pairs(more) + [NUL] <= tail + [NUL, NUL]
    ensures Pairs([p] + more) + [NUL] <= mem + [NUL, NUL] && Strings([p] + more) && AllNamed([p] + more)
  {
    hide NulFree;
    assert ([p] + more)[1..] == more;
    assert Pairs([p] + more) + [NUL] == Pair(p) + (Pairs(more) + [NUL]);
    if |p.value| < |rest| {
      assert mem + [NUL, NUL] == Pair(p) + (tail + [NUL, NUL]);
    } else {
      assert mem + [NUL, NUL] == Pair(p) + [NUL];
    }
  }

  /** The memory behind the buffer is taken to start with a NUL: one more there makes no difference. */
  lemma {:induction false} NulsBehind(mem: Bytes)
    ensures Extract(mem + [NUL, NUL]) == Extract(mem)
    decreases |mem|
  {
    if mem != [] && mem[0] != NUL {
      var name := CString(mem);
      var rest := Behind(mem, |name|);
      SameString(mem);
      if rest != [] && rest[0] != NUL {
        SameString(rest);
        NulsBehind(Behind(rest, |CString(rest)|));
      }
    }
  }

  lemma {:induction false} SameString(mem: Bytes)
    ensures CString(mem + [NUL, NUL]) == CString(mem)
    ensures var n := |CString(mem)|;
            Behind(mem + [NUL, NUL], n) == if n < |mem| then Behind(mem, n) + [NUL, NUL] else [NUL]
    decreases |mem|
  {
    if mem != [] && mem[0] != NUL {
      SameString(mem[1..]);
      assert (mem + [NUL, NUL])[1..] == mem[1..] + [NUL, NUL];
    }
    CStringShorter(mem);
  }

  /** Whatever is in the memory, exactly these parameters are found, and the end of them, if and only if they have names
      and values, and stand in it but for NULs that are missing at its end. */
  lemma FoundIff(mem: Bytes, params: seq<Param>)
    requires Strings(params)
    ensures Extract(mem) == (params, true) <==> AllNamed(params) && Pairs(params) + [NUL] <= mem + [NUL, NUL]
  {
    hide Extract, Pairs, AllNamed, Strings;
    if Extract(mem) == (params, true) {
      FoundInFront(mem);
    } else if Pairs(params) + [NUL] <= mem + [NUL, NUL] {
      NulsBehind(mem);
      var behind := (mem + [NUL, NUL])[|Pairs(params)| + 1..];
      assert mem + [NUL, NUL] == Pairs(params) + [NUL] + behind;
      ExtractsIff(params, behind);
    }
  }

  predicate AllZero(s: Bytes)
  {
    forall k :: 0 <= k < |s| ==> s[k] == NUL
  }

  /** So when the first octets of the parameters have arrived in a buffer that is otherwise still zero, they are found
      if and only if at most the last two octets of the message are missing. */
  lemma CutFoundIff(params: seq<Param>, k: nat, zeros: Bytes)
    requires Strings(params) && AllNamed(params) && params != [] && k <= |Pairs(params)| && AllZero(zeros)
    ensures Extract(Pairs(params)[..k] + zeros) == (params, true) <==> k + 1 >= |Pairs(params)|
  {
    hide Extract, Pairs;
    var all, n := Pairs(params), |Pairs(params)|;
    var mem := all[..k] + zeros;
    PairsEnd(params);
    FoundIff(mem, params);
    if k + 1 >= n {
      forall i | 0 <= i < n + 1
        ensures (all + [NUL])[i] == (mem + [NUL, NUL])[i]
      {
      }
    } else {
      assert (all + [NUL])[n - 2] != NUL && (n < |mem| + 4 ==> (mem + [NUL, NUL])[n - 2] == NUL);
    }
  }

  lemma {:induction false} PairsEnd(params: seq<Param>)
    requires Strings(params) && AllNamed(params) && params != []
    ensures var s := Pairs(params); |s| >= 4 && s[|s| - 1] == NUL && s[|s| - 2] != NUL
    decreases |params|
  {
    var p, next := params[0], params[1..];
    if next == [] {
      assert Pairs(params) == Pair(p);
    } else {
      PairsEnd(next);
    }
  }

  /** A message that breaks off in the middle of a name is that of another user. */
  lemma NameCutShort(key: Bytes, name: Bytes, k: nat, zeros: Bytes)
    requires NulFree(key) && NulFree(name) && key != [] && 0 < k < |name| && AllZero(zeros)
    ensures Extract(Pairs([Param(key, name)])[..|key| + 1 + k] + zeros) == ([Param(key, name[..k])], true)
  {
    hide Extract;
    var arrived := key + [NUL] + name[..k];
    assert Pairs([Param(key, name)])[..|key| + 1 + k] == arrived;
    assert Pairs([Param(key, name[..k])]) == arrived + [NUL];
    FoundIff(arrived + zeros, [Param(key, name[..k])]);
    assert arrived + [NUL] + [NUL] <= arrived + zeros + [NUL, NUL] by {
      assert forall i | 0 <= i < |zeros| + 2 :: (zeros + [NUL, NUL])[i] == NUL;
      assert arrived + zeros + [NUL, NUL] == arrived + (zeros + [NUL, NUL]);
    }
  }

  /** A startup message is taken for one if and only if it is not 16 octets long, the length of a CancelRequest. */
  lemma ClassifiedIff(params: seq<Param>, behind: Bytes)
    requires |StartupPayload(params)| + 4 < 0x100_0000
    ensures MsgType(Untyped(StartupPayload(params)) + behind) == MSG_STARTUP <==> |StartupPayload(params)| != 12
    ensures |StartupPayload(params)| == 12 ==> MsgType(Untyped(StartupPayload(params)) + behind) == MSG_CANCEL
  {
    var payload := StartupPayload(params);
    LengthField(payload, behind);
    hide StartupPayload, Htonl;
  }

  lemma LengthField(payload: Bytes, behind: Bytes)
    requires |payload| + 4 < 0x100_0000
    ensures var s := Untyped(payload) + behind;
            |s| >= 4 && s[0] == 0 && U32(s) == |payload| + 4 && s[4..] == payload + behind
  {
    var v := Htonl(|payload| + 4);
    assert v[0] == 0 && U32(v) == |payload| + 4;
    var s := Untyped(payload) + behind;
    assert s[0] == v[0] && s[1] == v[1] && s[2] == v[2] && s[3] == v[3];
    assert s[4..] == payload + behind;
  }

  /** A user whose name is one letter, and nothing else to say: this message is taken for a CancelRequest. */
  lemma ShortStartupIsCancel(letter: byte)
    requires letter != NUL
    ensures var params := [Param([0x75, 0x73, 0x65, 0x72], [letter])];
            && Strings(params) && AllNamed(params) && |StartupPayload(params)| == 12
            && MsgType(Untyped(StartupPayload(params))) == MSG_CANCEL
  {
    var params := [Param([0x75, 0x73, 0x65, 0x72], [letter])];
    assert Pairs(params) == Pair(params[0]);
    ClassifiedIff(params, []);
    assert Untyped(StartupPayload(params)) + [] == Untyped(StartupPayload(params));
  }

  // The password.

  /** The type, the length and `"md5"`. */
  function PasswordHeader(): (h: Bytes)
    ensures |h| == 8
  {
    [PASSWORD, 0, 0, 0, 0x28, 0x6d, 0x64, 0x35]
  }

  /** What `password_message` and `check_auth` compute from the password hash and the salt. */
  function Token(pwhash: Bytes, salt: Bytes): (t: Bytes)
    ensures |t| == 32
  {
    HexOf(Digest(pwhash + salt))
  }

  const PASSWORD: byte := 0x70

  function PasswordMessage(pwhash: Bytes, salt: Bytes): (m: Bytes)
    requires |pwhash| >= 32
    ensures |m| == 41
  {
    PasswordHeader() + Token(pwhash[..32], salt) + [NUL]
  }

  /** `check_auth`, on the buffered octets: 32 of them behind the three of the prefix. A message with fewer is
      not accepted. */
  predicate Accepts(v: Bytes, pwhash: Option<Bytes>, salt: Bytes)
  {
    pwhash.Some? && v != [] &&
    var at := 3 + (if v[0] == 0 then 0 else 1) + 4;
    |v| >= at + 32 && v[at..at + 32] == Token(pwhash.value, salt)
  }

  lemma TokenIs(pwhash: Bytes, salt: Bytes)
    ensures Token(pwhash, salt) == HexOf(Digest(pwhash + salt))
  {
  }

  /** The message built from one hash of 32 characters and one salt is accepted for another hash and salt if
      and only if both have the same digest, so in particular for its own. */
  lemma PasswordAcceptedIff(pwhash: Bytes, salt: Bytes, pwhash': Bytes, salt': Bytes, behind: Bytes)
    requires |pwhash| == 32
    ensures Accepts(PasswordMessage(pwhash, salt) + behind, Some(pwhash'), salt')
       <==> Digest(pwhash + salt) == Digest(pwhash' + salt')
  {
    hide Token, HexOf, Digest;
    var m := PasswordMessage(pwhash, salt);
    assert pwhash[..32] == pwhash;
    assert m[8..40] == Token(pwhash, salt);
    assert (m + behind)[8..40] == m[8..40] && (m + behind)[0] == PASSWORD;
    TokenIs(pwhash, salt);
    TokenIs(pwhash', salt');
    if Token(pwhash, salt) == Token(pwhash', salt') {
      HexIsInjective(Digest(pwhash + salt), Digest(pwhash' + salt'));
    }
  }

  /** It is one message, of 41 octets. */
  lemma PasswordFrames(pwhash: Bytes, salt: Bytes, behind: Bytes)
    requires |pwhash| >= 32
    ensures HasFrame(PasswordMessage(pwhash, salt) + behind) && Size(PasswordMessage(pwhash, salt) + behind) == 41
    ensures MsgType(PasswordMessage(pwhash, salt) + behind) == PASSWORD
  {
    hide Token;
    var m := PasswordMessage(pwhash, salt);
    assert (m + behind)[..5] == [PASSWORD, 0, 0, 0, 0x28];
    assert (m + behind)[1..][..4] == [0, 0, 0, 0x28];
  }
}
