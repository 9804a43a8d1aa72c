/** What the keys of the replay engine depend on: over all digest functions, exactly the name and the
    arguments up to the order of keys; and therefore which operations a recording answers. */
module ReplayKeys {
  import opened Common
  import opened Canonical
  import opened FixturePaths
  import opened Replay
  import opened ReplayCorrect
  import Sql = SqlNormalize
  import SqlText

  // ------------------------------------------------------------------ digests

  function Uniform(c: char): Hex
    requires HexDigit(c)
  {
    seq(64, _ => c)
  }

  /** A digest function that tells `text` from every other text. */
  function Telling(text: string): Sha {
    (s: string) => if s == text then Uniform('f') else Uniform('0')
  }

  /** Two texts have the same digest prefix, whatever the digest function, only if they are equal. */
  lemma TextsTold(a: string, b: string, n: nat)
    requires 0 < n <= 64
    ensures (forall sha: Sha :: sha(a)[..n] == sha(b)[..n]) <==> a == b
  {
    if forall sha: Sha :: sha(a)[..n] == sha(b)[..n] {
      var sha := Telling(a);
      assert sha(a)[..n][0] == sha(b)[..n][0];
    }
  }

  lemma WholeDigest(a: string, b: string)
    ensures (forall sha: Sha :: sha(a) == sha(b)) <==> a == b
  {
    if forall sha: Sha :: sha(a) == sha(b) {
      forall sha: Sha ensures sha(a)[..64] == sha(b)[..64] {
        assert sha(a) == sha(b);
      }
      TextsTold(a, b, 64);
    }
  }

  // ------------------------------------------------------------------ fingerprints

  lemma InputFields(q: string, x: Json)
    ensures var fs := TraceInput(q, x).fields;
            && "qualname" != "args" && Keys(fs.rest) == {"args"} && Keys(fs) == {"qualname", "args"}
            && Get(fs, "qualname") == Str(q) && Get(fs, "args") == x
            && (WellFormed(x) ==> WellFormed(TraceInput(q, x)))
  {
    var fs := TraceInput(q, x).fields;
    assert "qualname"[0] != "args"[0];
    assert Keys(fs.rest.rest) == {};
    assert Keys(fs.rest) == {"args"};
    assert Get(fs.rest, "args") == x;
    assert FieldsWellFormed(NoFields) && WellFormed(Str(q));
    assert WellFormed(x) ==> FieldsWellFormed(fs.rest);
  }

  lemma FirstField(k: string, a: Json, rest: Fields, gs: Fields)
    ensures FieldsEquiv(Field(k, a, rest), gs) <==> k in Keys(gs) && Equiv(a, Get(gs, k)) && FieldsEquiv(rest, gs)
  {
  }

  lemma TraceInputsEquiv(q: string, x: Json, r: string, y: Json)
    ensures Equiv(TraceInput(q, x), TraceInput(r, y)) <==> q == r && Equiv(x, y)
  {
    var gs := TraceInput(r, y).fields;
    InputFields(q, x);
    InputFields(r, y);
    FirstField("args", x, NoFields, gs);
    FirstField("qualname", Str(q), Field("args", x, NoFields), gs);
    assert Equiv(Str(q), Str(r)) <==> q == r;
  }

  /** The fingerprint of a traced call depends on its name and on its arguments up to the order of
      keys, and on nothing less. */
  lemma {:induction false} TraceFpIff(q: string, x: Json, r: string, y: Json)
    requires WellFormed(x) && WellFormed(y)
    ensures (forall sha: Sha :: TraceFp(q, x, sha) == TraceFp(r, y, sha)) <==> q == r && Equiv(x, y)
    ensures (forall sha: Sha :: TraceFp(q, x, sha)[..16] == TraceFp(r, y, sha)[..16]) <==> q == r && Equiv(x, y)
  {
    var a, b := Canonicalize(TraceInput(q, x)), Canonicalize(TraceInput(r, y));
    InputFields(q, x);
    InputFields(r, y);
    TraceInputsEquiv(q, x, r, y);
    CanonicalIffEquiv(TraceInput(q, x), TraceInput(r, y));
    assert forall sha: Sha :: TraceFp(q, x, sha) == sha(a) && TraceFp(r, y, sha) == sha(b);
    WholeDigest(a, b);
    TextsTold(a, b, 16);
  }

  /** That of a query depends on its text as far as the normaliser tells texts apart. */
  lemma SqlFpIff(s: string, t: string)
    ensures (forall sha: Sha :: SqlFp(s, sha) == SqlFp(t, sha)) <==> Sql.Normalized(s) == Sql.Normalized(t)
    ensures (forall sha: Sha :: SqlFp(s, sha)[..16] == SqlFp(t, sha)[..16]) <==> Sql.Normalized(s) == Sql.Normalized(t)
  {
    var a, b := Str(Sql.Normalized(s)), Str(Sql.Normalized(t));
    CanonicalIffEquiv(a, b);
    assert forall sha: Sha :: SqlFp(s, sha) == sha(Canonicalize(a)) && SqlFp(t, sha) == sha(Canonicalize(b));
    WholeDigest(Canonicalize(a), Canonicalize(b));
    TextsTold(Canonicalize(a), Canonicalize(b), 16);
  }

  lemma {:induction false} ParamsFpIff(p: Option<Json>, q: Option<Json>)
    requires WellFormed(ParamsValue(p)) && WellFormed(ParamsValue(q))
    ensures (forall sha: Sha :: ParamsFp(p, sha) == ParamsFp(q, sha)) <==> Equiv(ParamsValue(p), ParamsValue(q))
    ensures (forall sha: Sha :: ParamsFp(p, sha)[..16] == ParamsFp(q, sha)[..16]) <==>
            Equiv(ParamsValue(p), ParamsValue(q))
  {
    var a, b := ParamsValue(p), ParamsValue(q);
    CanonicalIffEquiv(a, b);
    assert forall sha: Sha :: ParamsFp(p, sha) == sha(Canonicalize(a)) && ParamsFp(q, sha) == sha(Canonicalize(b));
    WholeDigest(Canonicalize(a), Canonicalize(b));
    TextsTold(Canonicalize(a), Canonicalize(b), 16);
  }

  // ------------------------------------------------------------------ keys

  predicate WellFormedOp(op: Op) {
    match op
    case TraceOp(_, args) => WellFormed(args)
    case CaptureOp(_) => true
    case QueryOp(_, _, params) => WellFormed(ParamsValue(params))
  }

  /** Two operations that no digest function tells apart. */
  ghost predicate SameOp(a: Op, b: Op) {
    match (a, b)
    case (TraceOp(q, x), TraceOp(r, y)) => q == r && Equiv(x, y)
    case (CaptureOp(l), CaptureOp(k)) => l == k
    case (QueryOp(l, s, p), QueryOp(k, t, q)) =>
      l == k && Sql.Normalized(s) == Sql.Normalized(t) && Equiv(ParamsValue(p), ParamsValue(q))
    case _ => false
  }

  lemma Third(a: string, b: string)
    requires |a| >= 3
    ensures |a + b| >= 3 && (a + b)[2] == a[2]
  {
  }

  lemma QueryKeyKind(name: string, s: string, p: string)
    ensures var k := "db:" + name + ":" + s + ":" + p; |k| >= 3 && k[2] == ':'
  {
    Third("db:", name);
    Third("db:" + name, ":");
    Third("db:" + name + ":", s);
    Third("db:" + name + ":" + s, ":");
    Third("db:" + name + ":" + s + ":", p);
  }

  /** The third character of a key tells what kind of operation it belongs to. */
  lemma KeyKind(op: Op, sha: Sha)
    ensures |Key(op, sha)| >= 3
    ensures op.TraceOp? ==> HexDigit(Key(op, sha)[2])
    ensures op.CaptureOp? ==> Key(op, sha)[2] == 'p'
    ensures op.QueryOp? ==> Key(op, sha)[2] == ':'
  {
    match op
    case TraceOp(q, args) => assert TraceFp(q, args, sha)[2] in TraceFp(q, args, sha);
    case CaptureOp(tag) => Third("capture:", tag);
    case QueryOp(name, sql, params) => QueryKeyKind(name, SqlFp(sql, sha)[..16], ParamsFp(params, sha)[..16]);
  }

  lemma SameEnds(a: string, b: string, c: string, d: string)
    requires |b| == |d|
    ensures a + b == c + d <==> a == c && b == d
  {
    if a + b == c + d {
      assert (a + b)[..|a|] == a && (c + d)[..|a|] == c;
      assert (a + b)[|a|..] == b && (c + d)[|a|..] == d;
    }
  }

  /** A query's key determines its name and both digest prefixes. */
  lemma QueryKeyDecodes(l: string, s: string, p: Option<Json>, k: string, t: string, q: Option<Json>, sha: Sha)
    ensures Key(QueryOp(l, s, p), sha) == Key(QueryOp(k, t, q), sha) <==>
            l == k && SqlFp(s, sha)[..16] == SqlFp(t, sha)[..16] && ParamsFp(p, sha)[..16] == ParamsFp(q, sha)[..16]
  {
    var s16, t16, p16, q16 := SqlFp(s, sha)[..16], SqlFp(t, sha)[..16], ParamsFp(p, sha)[..16], ParamsFp(q, sha)[..16];
    SameEnds("db:" + l + ":" + s16 + ":", p16, "db:" + k + ":" + t16 + ":", q16);
    SameEnds("db:" + l + ":" + s16, ":", "db:" + k + ":" + t16, ":");
    SameEnds("db:" + l + ":", s16, "db:" + k + ":", t16);
    SameEnds("db:" + l, ":", "db:" + k, ":");
    PrefixCancels("db:", l, k);
  }

  lemma {:induction false} QueryKeysIff(l: string, s: string, p: Option<Json>, k: string, t: string, q: Option<Json>)
    requires WellFormed(ParamsValue(p)) && WellFormed(ParamsValue(q))
    ensures (forall sha: Sha :: Key(QueryOp(l, s, p), sha) == Key(QueryOp(k, t, q), sha)) <==>
            SameOp(QueryOp(l, s, p), QueryOp(k, t, q))
  {
    SqlFpIff(s, t);
    ParamsFpIff(p, q);
    forall sha: Sha
      ensures Key(QueryOp(l, s, p), sha) == Key(QueryOp(k, t, q), sha) <==>
              l == k && SqlFp(s, sha)[..16] == SqlFp(t, sha)[..16] && ParamsFp(p, sha)[..16] == ParamsFp(q, sha)[..16]
    {
      QueryKeyDecodes(l, s, p, k, t, q, sha);
    }
    if forall sha: Sha :: Key(QueryOp(l, s, p), sha) == Key(QueryOp(k, t, q), sha) {
      var sha := Telling("");
      assert Key(QueryOp(l, s, p), sha) == Key(QueryOp(k, t, q), sha);
    }
  }

  /** Ordinals are counted together exactly for operations with the same name and the same arguments:
      up to the order of keys, and for queries up to normalisation. */
  lemma {:induction false} KeysIff(a: Op, b: Op)
    requires WellFormedOp(a) && WellFormedOp(b)
    ensures (forall sha: Sha :: Key(a, sha) == Key(b, sha)) <==> SameOp(a, b)
  {
    if a.TraceOp? && b.TraceOp? {
      TraceFpIff(a.qualname, a.args, b.qualname, b.args);
      assert forall sha: Sha :: Key(a, sha) == TraceFp(a.qualname, a.args, sha);
      assert forall sha: Sha :: Key(b, sha) == TraceFp(b.qualname, b.args, sha);
    } else if a.CaptureOp? && b.CaptureOp? {
      PrefixCancels("capture:", a.tag, b.tag);
      assert Key(a, Telling("")) == Key(b, Telling("")) <==> a.tag == b.tag;
    } else if a.QueryOp? && b.QueryOp? {
      QueryKeysIff(a.name, a.sql, a.params, b.name, b.sql, b.params);
    } else {
      KeyKind(a, Telling(""));
      KeyKind(b, Telling(""));
      assert Key(a, Telling("")) != Key(b, Telling(""));
    }
  }

  // ------------------------------------------------------------------ hits and misses

  /** A call of the run left a fixture where `op` looks for its own at `ordinal`. */
  ghost predicate Leads(slots: seq<Slot>, op: Op, ordinal: nat, sha: Sha) {
    exists s :: s in slots && Leaves(s.call) && s.ordinal == ordinal && Meet(op, OpOf(s.call), sha)
  }

  /** What replay gives to an operation, `led` telling whether a fixture waits on its path. */
  predicate Gives(r: Replayed, op: Op, led: bool) {
    if op.QueryOp? && IsWriteStatement(op.sql) then r == WriteBlocked
    else if led then r.Answer? else r == StubMiss
  }

  /** A recording answers an operation exactly if a call of the run with the same path left a fixture,
      and otherwise the operation misses. */
  lemma {:induction false} AnsweredIff(cs: Calls, op: Op, ordinal: nat, sha: Sha)
    ensures Gives(ReplayAt(op, ordinal, Recording(cs, sha), sha), op, Leads(RunSlots(cs, sha), op, ordinal, sha))
  {
    var log, slots, path := EventsAll(cs, map[], sha), RunSlots(cs, sha), Path(op, ordinal, sha);
    RunMatches(cs, map[], sha);
    StoreHolds(log, path, sha);
    if Leads(slots, op, ordinal, sha) {
      var s :| s in slots && Leaves(s.call) && s.ordinal == ordinal && Meet(op, OpOf(s.call), sha);
      assert Kept(s, log);
      PathsMeet(op, ordinal, OpOf(s.call), s.ordinal, sha);
    } else {
      forall e | e in log ensures Path(e.op, e.ordinal, sha) != path {
        assert Logged(e, slots);
        PathsMeet(op, ordinal, e.op, e.ordinal, sha);
      }
    }
  }

  /** The recording of one traced call that returned `v`. */
  function OneTrace(q: string, x: Json, v: Json): Calls {
    Then(Trace(q, x, Done, Returned(v)), Done)
  }

  /** What a fresh replay of it gives to a call of the same function. */
  function SecondCall(q: string, x: Json, v: Json, y: Json, sha: Sha): Replayed {
    ReplayOp(TraceOp(q, y), map[], Recording(OneTrace(q, x, v), sha), sha)
  }

  lemma OneTraceLog(q: string, x: Json, v: Json, sha: Sha)
    ensures EventsAll(OneTrace(q, x, v), map[], sha) == [Event(TraceOp(q, x), 0, v, None, [])]
  {
    var c := Trace(q, x, Done, Returned(v));
    assert OwnEvent(c, map[], sha) == [Event(TraceOp(q, x), 0, v, None, [])];
    assert Events(c, map[], sha) == [] + OwnEvent(c, map[], sha);
    assert EventsAll(Done, After(c, map[], sha), sha) == [];
  }

  lemma OneTraceStore(q: string, x: Json, v: Json, sha: Sha)
    ensures Recording(OneTrace(q, x, v), sha) == map[Path(TraceOp(q, x), 0, sha) := v]
  {
    OneTraceLog(q, x, v, sha);
    assert Store([], sha) == map[];
    assert [Event(TraceOp(q, x), 0, v, None, [])][..0] == [];
  }

  lemma FromOneFixture(q: string, x: Json, v: Json, y: Json, sha: Sha)
    ensures ReplayOp(TraceOp(q, y), map[], map[Path(TraceOp(q, x), 0, sha) := v], sha) ==
            if TraceFp(q, x, sha)[..16] == TraceFp(q, y, sha)[..16] then Answer(v) else StubMiss
  {
    PathsMeet(TraceOp(q, x), 0, TraceOp(q, y), 0, sha);
  }

  lemma SecondCallIs(q: string, x: Json, v: Json, y: Json, sha: Sha)
    ensures SecondCall(q, x, v, y, sha) ==
            if TraceFp(q, x, sha)[..16] == TraceFp(q, y, sha)[..16] then Answer(v) else StubMiss
  {
    OneTraceStore(q, x, v, sha);
    FromOneFixture(q, x, v, y, sha);
  }

  /** A call is answered by the fixture of a call with other arguments only if their digests collide:
      over all digest functions the answer comes exactly for the same arguments, up to key order. */
  lemma {:induction false} AnsweredForSameArguments(q: string, x: Json, v: Json, y: Json)
    requires WellFormed(x) && WellFormed(y)
    ensures (forall sha: Sha :: SecondCall(q, x, v, y, sha) == Answer(v)) <==> Equiv(x, y)
    ensures (exists sha: Sha :: SecondCall(q, x, v, y, sha) == StubMiss) <==> !Equiv(x, y)
  {
    TraceFpIff(q, x, q, y);
    forall sha: Sha
      ensures SecondCall(q, x, v, y, sha) ==
              if TraceFp(q, x, sha)[..16] == TraceFp(q, y, sha)[..16] then Answer(v) else StubMiss
    {
      SecondCallIs(q, x, v, y, sha);
    }
  }

  // ------------------------------------------------------------------ names in paths

  function Replaced(c: char, op: char, sub: string): string {
    if c == op then sub else [c]
  }

  lemma ReplaceFirst(c: char, s: string, op: char, sub: string)
    ensures Sql.Replace([c] + s, [op], sub) == Replaced(c, op, sub) + Sql.Replace(s, [op], sub)
  {
    assert [op] <= [c] + s <==> c == op;
    assert ([c] + s)[1..] == s;
  }

  /** The name in a trace path is that of the source's chain of `replace`. */
  lemma {:induction false} SafeQualnameIs(s: string)
    ensures SafeQualname(s) == Sql.Replace(Sql.Replace(Sql.Replace(s, ".", "_"), "<", ""), ">", "")
  {
    if s != [] {
      SafeQualnameIs(s[1..]);
      assert s == [s[0]] + s[1..];
      var dots := Sql.Replace(s[1..], ".", "_");
      ReplaceFirst(s[0], s[1..], '.', "_");
      var c := Replaced(s[0], '.', "_")[0];
      var bare := Sql.Replace(dots, "<", "");
      ReplaceFirst(c, dots, '<', "");
      ReplaceFirst(c, bare, '>', "");
      if c == '<' {
        assert Sql.Replace([c] + dots, "<", "") == bare;
      } else {
        assert Sql.Replace([c] + dots, "<", "") == [c] + bare;
      }
      assert c == '>' ==> Sql.Replace([c] + bare, ">", "") == Sql.Replace(bare, ">", "");
    }
  }

  // ------------------------------------------------------------------ writes

  /** The text starts with `w`, in any case. */
  predicate Begins(s: string, w: string) {
    |w| <= |s| && SqlText.Spells(s[..|w|], w)
  }

  predicate Occurs(s: string, w: string) {
    exists k :: 0 <= k <= |s| && Begins(s[k..], w)
  }

  lemma {:induction false} TrimIsPrefix(s: string)
    ensures var t := Sql.TrimRight(s); t <= s && forall k :: |t| <= k < |s| ==> Sql.IsSpace(s[k])
  {
    if s != [] && Sql.IsSpace(s[|s| - 1]) {
      TrimIsPrefix(s[..|s| - 1]);
    }
  }

  lemma {:induction false} DropLeading(ws: string, body: string)
    requires (forall k :: 0 <= k < |ws| ==> SqlText.AsciiSpace(ws[k])) && (body != [] ==> !SqlText.AsciiSpace(body[0]))
    ensures Sql.DropSpaces(ws + body) == body
  {
    if ws == [] {
      assert ws + body == body;
    } else {
      assert (ws + body)[1..] == ws[1..] + body;
      DropLeading(ws[1..], body);
    }
  }

  lemma TrimmedBegins(body: string, k: nat, w: Sql.Keyword)
    requires k <= |body|
    ensures var t := Sql.TrimRight(body);
            Begins(body[k..], w) <==> k <= |t| && w <= Sql.Upper(t)[k..]
  {
    var t := Sql.TrimRight(body);
    var x := body[k..];
    TrimIsPrefix(body);
    if Begins(x, w) {
      SqlText.SpellsIffUpper(x[..|w|], w);
      assert body[k + |w| - 1] == x[..|w|][|w| - 1] && Sql.IsWord(x[..|w|][|w| - 1]);
      assert k + |w| <= |t|;
      assert Sql.Upper(t)[k..][..|w|] == Sql.Upper(x[..|w|]);
    }
    if k <= |t| && w <= Sql.Upper(t)[k..] {
      assert Sql.Upper(x[..|w|]) == Sql.Upper(t)[k..][..|w|] == w;
      SqlText.SpellsIffUpper(x[..|w|], w);
    }
  }

  /** The six words, in capitals. */
  lemma WritePrefixesAre(s: string)
    ensures (exists w :: w in WRITE_PREFIXES && w <= s) <==>
              "INSERT" <= s || "UPDATE" <= s || "DELETE" <= s || "DROP" <= s || "ALTER" <= s || "TRUNCATE" <= s
    ensures (exists w :: w in WRITE_PREFIXES && Contains(s, w)) <==>
              Contains(s, "INSERT") || Contains(s, "UPDATE") || Contains(s, "DELETE")
              || Contains(s, "DROP") || Contains(s, "ALTER") || Contains(s, "TRUNCATE")
  {
    var ws := WRITE_PREFIXES;
    assert ws[0] in ws && ws[1] in ws && ws[2] in ws && ws[3] in ws && ws[4] in ws && ws[5] in ws;
  }

  lemma EachWord(body: string, w: Sql.Keyword)
    ensures var s := Sql.Upper(Sql.TrimRight(body));
            (w <= s <==> Begins(body, w)) && (Contains(s, w) <==> Occurs(body, w))
  {
    var s := Sql.Upper(Sql.TrimRight(body));
    TrimIsPrefix(body);
    forall k | 0 <= k <= |body| ensures Begins(body[k..], w) <==> k <= |s| && w <= s[k..] {
      TrimmedBegins(body, k, w);
    }
    assert s[0..] == s && body[0..] == body;
  }

  /** Replay refuses a statement by its first word, and one that begins with WITH if one of the six
      words occurs anywhere in it. */
  lemma WriteStatementIff(ws: string, body: string)
    requires (forall k :: 0 <= k < |ws| ==> SqlText.AsciiSpace(ws[k])) && (body != [] ==> !SqlText.AsciiSpace(body[0]))
    ensures IsWriteStatement(ws + body) <==>
              if Begins(body, "WITH")
              then Occurs(body, "INSERT") || Occurs(body, "UPDATE") || Occurs(body, "DELETE")
                   || Occurs(body, "DROP") || Occurs(body, "ALTER") || Occurs(body, "TRUNCATE")
              else Begins(body, "INSERT") || Begins(body, "UPDATE") || Begins(body, "DELETE")
                   || Begins(body, "DROP") || Begins(body, "ALTER") || Begins(body, "TRUNCATE")
  {
    DropLeading(ws, body);
    EachWord(body, "WITH");
    WritePrefixesAre(Sql.Upper(Sql.TrimRight(body)));
    EachWord(body, "INSERT");
    EachWord(body, "UPDATE");
    EachWord(body, "DELETE");
    EachWord(body, "DROP");
    EachWord(body, "ALTER");
    EachWord(body, "TRUNCATE");
  }
}
