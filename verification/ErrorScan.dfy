/** What `pgr_mbuf_iserror` looks for in an ErrorResponse message. */
module ErrorScan {
  import opened Wire

  const CODE: byte := 67 // 'C'

  /** Where the octets from `i` on first hold a NUL, or the end. */
  function EndOf(v: Bytes, i: nat): (e: nat)
    requires i <= |v|
    ensures i <= e <= |v|
    ensures forall j | i <= j < e :: v[j] != 0
    ensures e < |v| ==> v[e] == 0
    decreases |v| - i
  {
    if i < |v| && v[i] != 0 then EndOf(v, i + 1) else i
  }

  /** The walk over the fields, from offset `n` of the buffered octets. */
  function Scan(v: Bytes, n: nat, code: Bytes): bool
    decreases |v| - n
  {
    if n >= |v| || v[n] == 0 then false
    else if v[n] == CODE && n + 6 < |v| then v[n + 1..n + 6] == code
    else Scan(v, EndOf(v, n + 1) + 1, code)
  }

  /** The loops of `pgr_mbuf_iserror`, on the buffered octets. */
  method ScanFields(v: Bytes, code: Bytes) returns (found: bool)
    requires |code| == 5
    ensures found == Scan(v, 5, code)
  {
    var n := 5;
    while n < |v|
      invariant 5 <= n && Scan(v, 5, code) == Scan(v, n, code)
      decreases |v| - n
    {
      if v[n] == 0 {
        return false;
      }
      if v[n] == CODE && n + 6 < |v| {
        return v[n + 1..n + 6] == code;
      }
      ghost var from := n + 1;
      n := n + 1;
      while n < |v| && v[n] != 0
        invariant from <= n <= |v| && EndOf(v, from) == EndOf(v, n)
      {
        n := n + 1;
      }
      n := n + 1;
    }
    return false;
  }

  datatype Field = Field(kind: byte, value: Bytes)

  function Print(fields: seq<Field>): Bytes
  {
    if fields == [] then [0] else [fields[0].kind] + fields[0].value + [0] + Print(fields[1..])
  }

  predicate Printable(fields: seq<Field>)
  {
    forall f | f in fields :: f.kind != 0 && NulFree(f.value)
  }

  /** The first code field starts with `code`. */
  predicate FirstCodeIs(fields: seq<Field>, code: Bytes)
  {
    exists i | 0 <= i < |fields| ::
      && fields[i].kind == CODE && code <= fields[i].value
      && forall j | 0 <= j < i :: fields[j].kind != CODE
  }

  lemma {:induction false} NoRoomForCode(v: Bytes, n: nat, code: Bytes)
    requires n + 6 >= |v|
    ensures !Scan(v, n, code)
    decreases |v| - n
  {
    if n < |v| && v[n] != 0 {
      NoRoomForCode(v, EndOf(v, n + 1) + 1, code);
    }
  }

  /** What is found in the part of a message that is buffered is there in the whole message. */
  lemma {:induction false} ScanPrefix(v: Bytes, m: nat, n: nat, code: Bytes)
    requires m <= |v| && Scan(v[..m], n, code)
    ensures Scan(v, n, code)
    decreases m - n
  {
    var p := v[..m];
    if n + 6 >= m {
      NoRoomForCode(p, n, code);
    } else if p[n] == CODE {
      assert p[n + 1..n + 6] == v[n + 1..n + 6];
    } else {
      EndOfPrefix(v, m, n + 1);
      ScanPrefix(v, m, EndOf(p, n + 1) + 1, code);
    }
  }

  lemma EndOfPrefix(v: Bytes, m: nat, i: nat)
    requires i <= m <= |v|
    ensures EndOf(v[..m], i) < m ==> EndOf(v, i) == EndOf(v[..m], i)
    decreases m - i
  {
  }

  lemma FirstCodeStep(fields: seq<Field>, code: Bytes)
    requires fields != []
    ensures fields[0].kind == CODE ==> (FirstCodeIs(fields, code) <==> code <= fields[0].value)
    ensures fields[0].kind != CODE ==> (FirstCodeIs(fields, code) <==> FirstCodeIs(fields[1..], code))
  {
    var rest := fields[1..];
    if fields[0].kind != CODE {
      if FirstCodeIs(fields, code) {
        var i :| 0 <= i < |fields| && fields[i].kind == CODE && code <= fields[i].value
          && forall j | 0 <= j < i :: fields[j].kind != CODE;
        assert rest[i - 1] == fields[i];
        assert forall j | 0 <= j < i - 1 :: rest[j] == fields[j + 1];
      }
      if FirstCodeIs(rest, code) {
        var i :| 0 <= i < |rest| && rest[i].kind == CODE && code <= rest[i].value
          && forall j | 0 <= j < i :: rest[j].kind != CODE;
        assert fields[i + 1] == rest[i];
        assert forall j | 0 < j < i + 1 :: fields[j] == rest[j - 1];
      }
    } else if code <= fields[0].value {
      assert fields[0].kind == CODE;
    }
  }

  /** `v` shows the field at offset `n`. */
  predicate Shows(v: Bytes, n: nat, f: Field)
  {
    n + |f.value| + 2 <= |v| && v[n] == f.kind && v[n + 1..n + 1 + |f.value|] == f.value && v[n + 1 + |f.value|] == 0
  }

  /** The walk over one printed field, at offset `n`. */
  lemma FieldAt(v: Bytes, n: nat, f: Field, code: Bytes)
    requires |code| == 5 && NulFree(code) && f.kind != 0 && NulFree(f.value)
    requires Shows(v, n, f)
    ensures EndOf(v, n + 1) == n + 1 + |f.value|
    ensures n + 6 < |v| ==> (v[n + 1..n + 6] == code <==> code <= f.value)
    ensures n + 6 >= |v| ==> !(code <= f.value)
  {
    var m := n + 1 + |f.value|;
    assert forall j | n + 1 <= j < m :: v[j] == v[n + 1..m][j - n - 1] && v[j] in f.value;
    if n + 6 < |v| {
      if |f.value| >= 5 {
        assert v[n + 1..n + 6] == v[n + 1..m][..5];
      } else {
        assert code[|f.value|] in code;
        assert v[n + 1..n + 6][|f.value|] == 0;
      }
    }
  }

  lemma ScanStep(v: Bytes, n: nat, f: Field, code: Bytes)
    requires |code| == 5 && NulFree(code) && f.kind != 0 && NulFree(f.value)
    requires Shows(v, n, f)
    ensures Scan(v, n, code) <==> if f.kind == CODE then code <= f.value else Scan(v, n + |f.value| + 2, code)
  {
    FieldAt(v, n, f, code);
    if f.kind == CODE && n + 6 >= |v| {
      NoRoomForCode(v, n, code);
    }
  }

  /** `v` shows the fields from offset `n` on, and the NUL that ends them. */
  predicate ShowsAll(v: Bytes, n: nat, fields: seq<Field>)
    decreases |fields|
  {
    if fields == [] then n < |v| && v[n] == 0
    else Shows(v, n, fields[0]) && ShowsAll(v, n + |fields[0].value| + 2, fields[1..])
  }

  lemma {:induction false} PrintShowsAll(before: Bytes, fields: seq<Field>, after: Bytes)
    ensures ShowsAll(before + Print(fields) + after, |before|, fields)
    decreases |fields|
  {
    if fields == [] {
      assert (before + Print(fields) + after)[|before|] == 0;
    } else {
      var f := fields[0];
      var item := [f.kind] + f.value + [0];
      var more := Print(fields[1..]);
      assert Print(fields) == item + more;
      Regroup(before, item, more, after);
      hide Shows, Print;
      PrintShowsAll(before + item, fields[1..], after);
      ShowsItem(before, f, more + after);
    }
  }

  lemma Regroup(a: Bytes, b: Bytes, c: Bytes, d: Bytes)
    ensures a + (b + c) + d == (a + b) + c + d == a + b + (c + d)
  {
  }

  lemma ShowsItem(before: Bytes, f: Field, after: Bytes)
    ensures Shows(before + ([f.kind] + f.value + [0]) + after, |before|, f)
  {
  }

  lemma {:induction false} ScanShown(v: Bytes, n: nat, fields: seq<Field>, code: Bytes)
    requires ShowsAll(v, n, fields)
    requires Printable(fields) && |code| == 5 && NulFree(code)
    ensures Scan(v, n, code) <==> FirstCodeIs(fields, code)
    decreases |fields|
  {
    if fields != [] {
      var f, more := fields[0], fields[1..];
      assert f in fields && Printable(more);
      ScanStep(v, n, f, code);
      FirstCodeStep(fields, code);
      if f.kind != CODE {
        ScanShown(v, n + |f.value| + 2, more, code);
      }
    }
  }

  /** On any printed list of fields, whatever follows it in the buffer, the walk finds `code` exactly
      when the first code field starts with it; shorter codes and further code fields do not confuse it. */
  lemma ScanFindsFirstCode(before: Bytes, fields: seq<Field>, after: Bytes, code: Bytes)
    requires Printable(fields) && |code| == 5 && NulFree(code)
    ensures Scan(before + Print(fields) + after, |before|, code) <==> FirstCodeIs(fields, code)
  {
    PrintShowsAll(before, fields, after);
    ScanShown(before + Print(fields) + after, |before|, fields, code);
  }

  /** Where the first code field stands, when the fields start at offset `n`; behind them all when there is none. */
  function CodeAt(fields: seq<Field>, n: nat): (k: nat)
    ensures k >= n
  {
    if fields == [] || fields[0].kind == CODE then n else CodeAt(fields[1..], n + |fields[0].value| + 2)
  }

  /** When only the first `m` octets are buffered, the walk finds `code` exactly when it does in all of them and the
      first code field is buffered through the octet behind its code. */
  lemma {:induction false} ScanCutIff(v: Bytes, m: nat, n: nat, fields: seq<Field>, code: Bytes)
    requires ShowsAll(v, n, fields) && m <= |v|
    requires Printable(fields) && |code| == 5 && NulFree(code)
    ensures Scan(v[..m], n, code) <==> FirstCodeIs(fields, code) && CodeAt(fields, n) + 6 < m
    decreases |fields|
  {
    hide Shows, FirstCodeIs;
    if n >= m || fields == [] {
      if fields != [] {
        NothingBehind(v, m, n, code);
      } else {
        NoCode(v, m, n, code);
      }
    } else {
      var f, more := fields[0], fields[1..];
      assert f in fields && Printable(more);
      FirstCodeStep(fields, code);
      FieldCut(v, m, n, f, code);
      if f.kind != CODE {
        ScanCutIff(v, m, n + |f.value| + 2, more, code);
      }
    }
  }

  lemma NothingBehind(v: Bytes, m: nat, n: nat, code: Bytes)
    requires m <= |v| && n >= m
    ensures !Scan(v[..m], n, code)
  {
  }

  lemma NoCode(v: Bytes, m: nat, n: nat, code: Bytes)
    requires m <= |v| && n < |v| && v[n] == 0
    ensures !Scan(v[..m], n, code) && !FirstCodeIs([], code)
  {
  }

  /** The walk over one field of which the end may be missing. */
  lemma FieldCut(v: Bytes, m: nat, n: nat, f: Field, code: Bytes)
    requires |code| == 5 && NulFree(code) && f.kind != 0 && NulFree(f.value) && Shows(v, n, f) && n < m <= |v|
    ensures f.kind == CODE ==> (Scan(v[..m], n, code) <==> code <= f.value && n + 6 < m)
    ensures f.kind != CODE ==> (Scan(v[..m], n, code) <==> Scan(v[..m], n + |f.value| + 2, code))
  {
    var p := v[..m];
    FieldAt(v, n, f, code);
    if n + 6 >= m {
      NoRoomForCode(p, n, code);
      NoRoomForCode(p, n + |f.value| + 2, code);
    } else if f.kind == CODE {
      assert p[n + 1..n + 6] == v[n + 1..n + 6];
    } else {
      EndOfCut(v, m, n + 1);
      if n + 1 + |f.value| >= m {
        NoRoomForCode(p, EndOf(p, n + 1) + 1, code);
        NoRoomForCode(p, n + |f.value| + 2, code);
      }
    }
  }

  lemma {:induction false} EndOfCut(v: Bytes, m: nat, i: nat)
    requires i <= m <= |v|
    ensures EndOf(v[..m], i) == if EndOf(v, i) < m then EndOf(v, i) else m
    decreases m - i
  {
    if i < m && v[i] != 0 {
      EndOfCut(v, m, i + 1);
    }
  }
}
