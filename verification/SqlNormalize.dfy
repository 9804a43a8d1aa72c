/** The fallback SQL normaliser (`_normalize_sql_basic` in sim_sdk/sim_sdk/canonical.py) on ASCII text
    from which comments were already removed. */
module SqlNormalize {
  import opened Common

  // ------------------------------------------------------------------ the regular expressions

  /** `\s` on ASCII text. */
  predicate IsSpace(c: char) {
    c == ' ' || 9 as char <= c <= 13 as char || 28 as char <= c <= 31 as char
  }

  predicate IsOp(c: char) {
    c == '=' || c == '<' || c == '>'
  }

  /** `\w` on ASCII text. */
  predicate IsWord(c: char) {
    'a' <= c <= 'z' || 'A' <= c <= 'Z' || '0' <= c <= '9' || c == '_'
  }

  function DropSpaces(s: string): (r: string)
    ensures |r| <= |s| && (r != [] ==> !IsSpace(r[0]))
  {
    if s != [] && IsSpace(s[0]) then DropSpaces(s[1..]) else s
  }

  /** `re.sub(r'\s+', ' ', s)` */
  function Collapse(s: string): string
    decreases |s|
  {
    if s == [] then []
    else if IsSpace(s[0]) then [' '] + Collapse(DropSpaces(s[1..]))
    else [s[0]] + Collapse(s[1..])
  }

  /** `re.sub(r'\s*' + re.escape(op) + r'\s*', op, s)` */
  function Tighten(s: string, op: string): string
    requires op != []
    decreases |s|
  {
    if s == [] then []
    else
      var t := DropSpaces(s);
      if op <= t then op + Tighten(DropSpaces(t[|op|..]), op) else [s[0]] + Tighten(s[1..], op)
  }

  /** `s.replace(op, sub)` */
  function Replace(s: string, op: string, sub: string): string
    requires op != []
    decreases |s|
  {
    if s == [] then []
    else if op <= s then sub + Replace(s[|op|..], op, sub)
    else [s[0]] + Replace(s[1..], op, sub)
  }

  function UpperChar(c: char): char {
    if 'a' <= c <= 'z' then (c as int - 32) as char else c
  }

  function Upper(s: string): (r: string)
    ensures |r| == |s| && forall k :: 0 <= k < |s| ==> r[k] == UpperChar(s[k])
  {
    seq(|s|, k requires 0 <= k < |s| => UpperChar(s[k]))
  }

  /** `\bkw\b` matches, ignoring case, at the start of `s`; `prev` says whether a word character
      precedes `s`. */
  predicate KeywordAt(s: string, prev: bool, kw: string) {
    && !prev
    && |kw| <= |s| && Upper(s[..|kw|]) == kw
    && (|s| == |kw| || !IsWord(s[|kw|]))
  }

  /** `re.sub(r'\bkw\b', kw, s, flags=re.IGNORECASE)` */
  function SubKeyword(s: string, prev: bool, kw: string): string
    requires kw != []
    decreases |s|
  {
    if s == [] then []
    else if KeywordAt(s, prev, kw) then kw + SubKeyword(s[|kw|..], true, kw)
    else [s[0]] + SubKeyword(s[1..], IsWord(s[0]), kw)
  }

  function TrimRight(s: string): string {
    if s != [] && IsSpace(s[|s| - 1]) then TrimRight(s[..|s| - 1]) else s
  }

  /** `s.strip()` */
  function Strip(s: string): string {
    TrimRight(DropSpaces(s))
  }

  const OPERATORS: seq<string> := ["=", "!=", "<=", ">=", "<", ">"]

  predicate Capitals(s: string) {
    s != [] && forall k :: 0 <= k < |s| ==> 'A' <= s[k] <= 'Z'
  }

  type Keyword = s: string | Capitals(s) witness "A"

  function K(s: string): Keyword
    requires Capitals(s)
  {
    s
  }

  const QUERY_WORDS: seq<Keyword> := [K("SELECT"), K("FROM"), K("WHERE"), K("AND"), K("OR"), K("NOT"), K("IN"), K("LIKE")]
  const WRITE_WORDS: seq<Keyword> := [K("INSERT"), K("INTO"), K("VALUES"), K("UPDATE"), K("SET"), K("DELETE")]
  const JOIN_WORDS: seq<Keyword> := [K("JOIN"), K("LEFT"), K("RIGHT"), K("INNER"), K("OUTER"), K("ON"), K("AS")]
  const ORDER_WORDS: seq<Keyword> := [K("ORDER"), K("BY"), K("GROUP"), K("HAVING"), K("LIMIT"), K("OFFSET")]
  const SCHEMA_WORDS: seq<Keyword> := [K("CREATE"), K("TABLE"), K("DROP"), K("ALTER"), K("ADD"), K("COLUMN")]
  const KEY_WORDS: seq<Keyword> := [K("PRIMARY"), K("KEY"), K("FOREIGN"), K("REFERENCES"), K("INDEX")]
  const AGGREGATE_WORDS: seq<Keyword> := [K("DISTINCT"), K("COUNT"), K("SUM"), K("AVG"), K("MAX"), K("MIN")]
  const CASE_WORDS: seq<Keyword> := [K("CASE"), K("WHEN"), K("THEN"), K("ELSE"), K("END"), K("NULL"), K("IS")]
  const KEYWORDS: seq<Keyword> :=
    QUERY_WORDS + WRITE_WORDS + JOIN_WORDS + ORDER_WORDS + SCHEMA_WORDS + KEY_WORDS + AGGREGATE_WORDS + CASE_WORDS

  // ------------------------------------------------------------------ reference: one pass

  function Flush(cur: string): seq<string> {
    if cur == [] then [] else [cur]
  }

  /** Whitespace ends a token; `=`, `<` and `>` are tokens of their own.  `cur` is the token so far. */
  function Tokens(s: string, cur: string): seq<string>
    decreases |s|
  {
    if s == [] then Flush(cur)
    else if IsSpace(s[0]) then Flush(cur) + Tokens(s[1..], [])
    else if IsOp(s[0]) then Flush(cur) + [[s[0]]] + Tokens(s[1..], [])
    else Tokens(s[1..], cur + [s[0]])
  }

  function Join(ts: seq<string>): string {
    if ts == [] then []
    else if |ts| == 1 then ts[0]
    else ts[0] + " " + Join(ts[1..])
  }

  /** Length of the longest word that starts `s`. */
  function WordLen(s: string): (n: nat)
    ensures n <= |s| && (forall k :: 0 <= k < n ==> IsWord(s[k])) && (n < |s| ==> !IsWord(s[n]))
  {
    if s != [] && IsWord(s[0]) then 1 + WordLen(s[1..]) else 0
  }

  /** Upper-cases every whole word that is one of `kws` when upper-cased. */
  function UpWords(s: string, kws: seq<string>): string
    decreases |s|
  {
    if s == [] then []
    else
      var n := WordLen(s);
      if n == 0 then [s[0]] + UpWords(s[1..], kws)
      else (if Upper(s[..n]) in kws then Upper(s[..n]) else s[..n]) + UpWords(s[n..], kws)
  }

  /** What the passes amount to. */
  function Normalized(s: string): string {
    UpWords(Join(Tokens(s, [])), KEYWORDS)
  }

  // ------------------------------------------------------------------ whitespace passes

  /** Collapsing with a flag: whether the text before `s` ended in a space. */
  function Col(s: string, after: bool): string
    decreases |s|
  {
    if s == [] then []
    else if IsSpace(s[0]) then (if after then [] else [' ']) + Col(s[1..], true)
    else [s[0]] + Col(s[1..], false)
  }

  lemma {:induction false} ColDrops(s: string)
    ensures Col(s, true) == Col(DropSpaces(s), false) == Col(DropSpaces(s), true)
    decreases |s|
  {
    if s != [] && IsSpace(s[0]) {
      ColDrops(s[1..]);
    }
  }

  lemma {:induction false} CollapseIsCol(s: string)
    ensures Collapse(s) == Col(s, false)
    decreases |s|
  {
    if s != [] {
      if IsSpace(s[0]) {
        ColDrops(s[1..]);
        CollapseIsCol(DropSpaces(s[1..]));
      } else {
        CollapseIsCol(s[1..]);
      }
    }
  }

  /** Every operator of `ops` between spaces. */
  function Expand(s: string, ops: string): string
    decreases |s|
  {
    if s == [] then []
    else (if s[0] in ops then [' ', s[0], ' '] else [s[0]]) + Expand(s[1..], ops)
  }

  /** The two rewrites of one operator, as one scan. */
  function Pass(s: string, op: string): string
    requires op != []
  {
    Replace(Tighten(s, op), op, " " + op + " ")
  }

  lemma PassStep(s: string, c: char)
    requires s != [] && !IsSpace(c)
    ensures var t := DropSpaces(s);
            Pass(s, [c]) == if t != [] && t[0] == c then [' ', c, ' '] + Pass(DropSpaces(t[1..]), [c])
                            else [s[0]] + Pass(s[1..], [c])
  {
    var t, op := DropSpaces(s), [c];
    if t != [] && t[0] == c {
      assert op <= t && t[|op|..] == t[1..];
      var rest := Tighten(DropSpaces(t[1..]), op);
      assert Tighten(s, op) == op + rest && (op + rest)[1..] == rest;
      assert " " + op + " " == [' ', c, ' '];
    } else {
      var rest := Tighten(s[1..], op);
      var u := [s[0]] + rest;
      assert Tighten(s, op) == u && u[1..] == rest;
    }
  }

  lemma ColCons(c: char, s: string, after: bool)
    ensures Col([c] + s, after) ==
            if IsSpace(c) then (if after then [] else [' ']) + Col(s, true) else [c] + Col(s, false)
  {
    assert ([c] + s)[1..] == s;
  }

  lemma ColOp(c: char, s: string, after: bool)
    requires !IsSpace(c)
    ensures Col([' ', c, ' '] + s, after) == (if after then [] else [' ']) + [c, ' '] + Col(s, true)
  {
    var t := [' '] + s;
    assert [' ', c, ' '] + s == [' '] + ([c] + t);
    ColCons(' ', s, false);
    ColCons(c, t, true);
    ColCons(' ', [c] + t, after);
    var rest := Col(s, true);
    assert Col([c] + t, true) == [c, ' '] + rest;
    Assoc(if after then [] else [' '], [c, ' '], rest);
  }

  /** Collapsing an expanded text, one character at a time. */
  lemma ColExpandStep(s: string, ops: string, after: bool)
    requires s != [] && (forall c :: c in ops ==> !IsSpace(c))
    ensures Col(Expand(s, ops), after) ==
            if IsSpace(s[0]) then (if after then [] else [' ']) + Col(Expand(s[1..], ops), true)
            else if s[0] in ops then (if after then [] else [' ']) + [s[0], ' '] + Col(Expand(s[1..], ops), true)
            else [s[0]] + Col(Expand(s[1..], ops), false)
  {
    var rest := Expand(s[1..], ops);
    if s[0] in ops {
      ColOp(s[0], rest, after);
    } else {
      ColCons(s[0], rest, after);
    }
  }

  lemma {:induction false} ColExpandDrops(s: string, ops: string)
    requires forall c :: c in ops ==> !IsSpace(c)
    ensures Col(Expand(s, ops), true) == Col(Expand(DropSpaces(s), ops), true)
    decreases |s|
  {
    if s != [] && IsSpace(s[0]) {
      ColExpandStep(s, ops, true);
      ColExpandDrops(s[1..], ops);
      var x := Col(Expand(s[1..], ops), true);
      assert [] + x == x && DropSpaces(s) == DropSpaces(s[1..]);
    }
  }

  /** After collapsing, the two rewrites of an operator are nothing but spaces around it. */
  lemma {:induction false} PassIsExpand(s: string, c: char, after: bool)
    requires !IsSpace(c)
    ensures Col(Pass(s, [c]), after) == Col(Expand(s, [c]), after)
    decreases |s|
  {
    if s != [] {
      PassStep(s, c);
      var t := DropSpaces(s);
      if t != [] && t[0] == c {
        ColOp(c, Pass(DropSpaces(t[1..]), [c]), after);
        PassIsExpand(DropSpaces(t[1..]), c, true);
        ColExpandDrops(t[1..], [c]);
        SpacesThenOp(s, c, after);
      } else {
        ColCons(s[0], Pass(s[1..], [c]), after);
        PassIsExpand(s[1..], c, IsSpace(s[0]));
        ColExpandStep(s, [c], after);
      }
    }
  }

  lemma {:induction false} SpacesThenOp(s: string, c: char, after: bool)
    requires !IsSpace(c)
    requires DropSpaces(s) != [] && DropSpaces(s)[0] == c
    ensures Col(Expand(s, [c]), after) ==
            (if after then [] else [' ']) + [c, ' '] + Col(Expand(DropSpaces(s)[1..], [c]), true)
    decreases |s|
  {
    ColExpandStep(s, [c], after);
    if IsSpace(s[0]) {
      SpacesThenOp(s[1..], c, true);
    }
  }

  /** Collapsing first changes nothing. */
  lemma {:induction false} ExpandAfterCol(s: string, ops: string, after: bool)
    requires forall c :: c in ops ==> !IsSpace(c)
    ensures Col(Expand(Col(s, after), ops), after) == Col(Expand(s, ops), after)
    decreases |s|
  {
    if s != [] {
      ColExpandStep(s, ops, after);
      if IsSpace(s[0]) {
        ExpandAfterCol(s[1..], ops, true);
        if !after {
          assert Col(s, after)[1..] == Col(s[1..], true);
          ColExpandStep(Col(s, after), ops, after);
        } else {
          assert Col(s, after) == Col(s[1..], true);
        }
      } else {
        var rest := Col(s[1..], false);
        assert Col(s, after)[1..] == rest;
        ColExpandStep(Col(s, after), ops, after);
        if s[0] in ops {
          ExpandAfterCol(s[1..], ops, true);
          ColExpandDrops(rest, ops);
          ColDrops(s[1..]);
          DropOfCol(s[1..]);
        } else {
          ExpandAfterCol(s[1..], ops, false);
        }
      }
    }
  }

  lemma DropOfCol(s: string)
    ensures DropSpaces(Col(s, false)) == Col(s, true) == DropSpaces(Col(s, true))
  {
    ColDrops(s);
    var t := Col(s, true);
    if s != [] && IsSpace(s[0]) {
      ColDrops(s[1..]);
      assert Col(s, false) == [' '] + t && Col(s, false)[1..] == t;
    }
  }

  lemma ExpandCons(a: char, s: string, ops: string)
    ensures Expand([a] + s, ops) == (if a in ops then [' ', a, ' '] else [a]) + Expand(s, ops)
  {
    assert ([a] + s)[1..] == s;
  }

  lemma {:induction false} ExpandTwice(s: string, ops: string, c: char)
    requires c !in ops && c != ' '
    ensures Expand(Expand(s, ops), [c]) == Expand(s, ops + [c])
    decreases |s|
  {
    if s != [] {
      ExpandTwice(s[1..], ops, c);
      var rest := Expand(s[1..], ops);
      if s[0] in ops {
        assert [' ', s[0], ' '] + rest == [' '] + ([s[0]] + ([' '] + rest));
        ExpandCons(' ', [s[0]] + ([' '] + rest), [c]);
        ExpandCons(s[0], [' '] + rest, [c]);
        ExpandCons(' ', rest, [c]);
        var e := Expand(rest, [c]);
        assert [' '] + ([s[0]] + ([' '] + e)) == [' ', s[0], ' '] + e;
      } else {
        ExpandCons(s[0], rest, [c]);
      }
    }
  }

  // ------------------------------------------------------------------ the operator loop

  /** Every `=` follows a space, as it does after the first pass. */
  predicate Guarded(s: string) {
    forall k :: 0 <= k < |s| && s[k] == '=' ==> k > 0 && s[k - 1] == ' '
  }

  lemma {:induction false} FirstPassGuards(s: string)
    ensures Guarded(Pass(s, "="))
    decreases |s|
  {
    if s != [] {
      PassStep(s, '=');
      var t := DropSpaces(s);
      if t != [] && t[0] == '=' {
        FirstPassGuards(DropSpaces(t[1..]));
      } else {
        assert s[0] == '=' ==> t == s;
        FirstPassGuards(s[1..]);
      }
    }
  }

  /** Hence the passes of `!=`, `<=` and `>=` find nothing. */
  lemma {:induction false} PairAbsent(s: string, c: char)
    requires forall k :: 0 <= k < |s| - 1 && s[k + 1] == '=' ==> s[k] == ' '
    requires c != ' ' && !IsSpace(c)
    ensures Tighten(s, [c, '=']) == s && Replace(s, [c, '='], " " + [c, '='] + " ") == s
    decreases |s|
  {
    if s != [] {
      var t := DropSpaces(s);
      DropIsSuffix(s);
      var k := |s| - |t|;
      assert t == s[k..] && (|t| > 1 ==> t[0] == s[k] && t[1] == s[k + 1]);
      assert [c, '='][0] == c && [c, '='][1] == '=';
      PairAbsent(s[1..], c);
      assert [s[0]] + s[1..] == s;
    }
  }

  lemma {:induction false} DropIsSuffix(s: string)
    ensures DropSpaces(s) == s[|s| - |DropSpaces(s)|..]
    decreases |s|
  {
    if s != [] && IsSpace(s[0]) {
      DropIsSuffix(s[1..]);
    }
  }

  /** What the text is worth once collapsed: `q` with the operators of `ops` set apart. */
  ghost predicate Apart(t: string, q: string, ops: string) {
    Col(t, false) == Col(Expand(q, ops), false)
  }

  lemma PassSetsApart(t: string, q: string, ops: string, c: char)
    requires Apart(t, q, ops) && c !in ops && !IsSpace(c) && (forall d :: d in ops ==> !IsSpace(d))
    ensures Apart(Pass(t, [c]), q, ops + [c])
  {
    PassIsExpand(t, c, false);
    ExpandAfterCol(t, [c], false);
    ExpandAfterCol(Expand(q, ops), [c], false);
    ExpandTwice(q, ops, c);
  }

  // ------------------------------------------------------------------ tokens

  lemma {:induction false} TrimAppend(a: string, x: string)
    ensures TrimRight(a + x) == if TrimRight(x) == [] then TrimRight(a) else a + TrimRight(x)
    decreases |x|
  {
    if x == [] {
      assert a + x == a;
    } else {
      var y := x[..|x| - 1];
      assert (a + x)[..|a + x| - 1] == a + y;
      if IsSpace(x[|x| - 1]) {
        TrimAppend(a, y);
      }
    }
  }

  /** Characters that end up inside tokens. */
  predicate Plain(s: string) {
    forall k :: 0 <= k < |s| ==> !IsSpace(s[k]) && !IsOp(s[k])
  }

  predicate Token(t: string) {
    t != [] && (Plain(t) || (|t| == 1 && IsOp(t[0])))
  }

  lemma {:induction false} TokensAreTokens(s: string, cur: string)
    requires Plain(cur)
    ensures forall t :: t in Tokens(s, cur) ==> Token(t)
    decreases |s|
  {
    if s != [] {
      TokensAreTokens(s[1..], if IsSpace(s[0]) || IsOp(s[0]) then [] else cur + [s[0]]);
    }
  }

  lemma JoinCons(t: string, ts: seq<string>)
    requires t != [] && (forall u :: u in ts ==> u != [])
    ensures Join([t] + ts) == if Join(ts) == [] then t else t + " " + Join(ts)
  {
    assert ([t] + ts)[1..] == ts;
    if ts != [] {
      assert ts[0] in ts && Join(ts) != [];
    }
  }

  /** A token in front of collapsed text. */
  lemma Glue(t: string, ts: seq<string>, x: string)
    requires t != [] && TrimRight(t) == t && (forall u :: u in ts ==> u != [])
    requires Join(ts) == TrimRight(x)
    ensures Join([t] + ts) == TrimRight(t + ([' '] + x))
  {
    JoinCons(t, ts);
    Assoc(t, [' '], x);
    TrimAppend(t + [' '], x);
    TrimAppend(t, " ");
  }

  /** The token `cur`, if any, in front of collapsed text. */
  lemma GlueFlush(cur: string, ts: seq<string>, x: string)
    requires Plain(cur) && (forall u :: u in ts ==> u != []) && Join(ts) == TrimRight(x)
    ensures Join(Flush(cur) + ts) == TrimRight(cur + ((if cur == [] then [] else [' ']) + x))
  {
    if cur == [] {
      assert Flush(cur) + ts == ts && cur + ([] + x) == x;
    } else {
      Glue(cur, ts, x);
    }
  }

  lemma GlueOp(cur: string, c: char, ts: seq<string>, x: string)
    requires Plain(cur) && IsOp(c) && (forall u :: u in ts ==> u != []) && Join(ts) == TrimRight(x)
    ensures Join(Flush(cur) + [[c]] + ts) == TrimRight(cur + ((if cur == [] then [] else [' ']) + [c, ' '] + x))
  {
    Glue([c], ts, x);
    GlueFlush(cur, [[c]] + ts, [c] + ([' '] + x));
    var sp: string := if cur == [] then [] else [' '];
    Assoc(Flush(cur), [[c]], ts);
    Assoc(sp, [c, ' '], x);
    Assoc([c], [' '], x);
    assert [c] + [' '] == [c, ' '];
  }

  /** One-pass tokens joined by spaces are the collapsed text without its outer spaces. */
  lemma {:induction false} TokensAreCollapsed(s: string, cur: string)
    requires Plain(cur)
    ensures Join(Tokens(s, cur)) == TrimRight(cur + Col(Expand(s, "=<>"), cur == []))
    decreases |s|
  {
    if s == [] {
      assert cur + [] == cur;
    } else {
      ColExpandStep(s, "=<>", cur == []);
      if IsSpace(s[0]) || IsOp(s[0]) {
        var x := Col(Expand(s[1..], "=<>"), true);
        TokensAreCollapsed(s[1..], []);
        TokensAreTokens(s[1..], []);
        assert [] + x == x;
        if IsSpace(s[0]) {
          GlueFlush(cur, Tokens(s[1..], []), x);
        } else {
          GlueOp(cur, s[0], Tokens(s[1..], []), x);
        }
      } else {
        TokensAreCollapsed(s[1..], cur + [s[0]]);
        var x := Col(Expand(s[1..], "=<>"), false);
        Assoc(cur, [s[0]], x);
      }
    }
  }

  // ------------------------------------------------------------------ words

  predicate AllWord(s: string) {
    forall k :: 0 <= k < |s| ==> IsWord(s[k])
  }

  predicate NoWordFirst(s: string) {
    s == [] || !IsWord(s[0])
  }

  lemma {:induction false} WordLenIs(w: string, r: string)
    requires AllWord(w) && NoWordFirst(r)
    ensures WordLen(w + r) == |w|
  {
    if w == [] {
      assert w + r == r;
    } else {
      assert (w + r)[1..] == w[1..] + r;
      WordLenIs(w[1..], r);
    }
  }

  function UpWord(w: string, kws: seq<string>): (r: string)
    ensures |r| == |w| && (forall k :: 0 <= k < |w| ==> r[k] == w[k] || r[k] == UpperChar(w[k]))
    ensures Upper(r) == Upper(w) && (AllWord(w) ==> AllWord(r))
  {
    if Upper(w) in kws then Upper(w) else w
  }

  lemma UpWordsWord(w: string, r: string, kws: seq<string>)
    requires w != [] && AllWord(w) && NoWordFirst(r)
    ensures UpWords(w + r, kws) == UpWord(w, kws) + UpWords(r, kws)
  {
    WordLenIs(w, r);
    assert (w + r)[..|w|] == w && (w + r)[|w|..] == r;
  }

  lemma UpWordsOther(c: char, r: string, kws: seq<string>)
    requires !IsWord(c)
    ensures UpWords([c] + r, kws) == [c] + UpWords(r, kws)
  {
    assert ([c] + r)[1..] == r;
  }

  /** Upper-casing keeps the length and the kind of every character. */
  lemma {:induction false} UpWordsKinds(s: string, kws: seq<string>)
    ensures var r := UpWords(s, kws);
            |r| == |s| && forall k :: 0 <= k < |s| ==> r[k] == s[k] || (IsWord(s[k]) && r[k] == UpperChar(s[k]))
    decreases |s|
  {
    if s != [] {
      var n := WordLen(s);
      if n == 0 {
        UpWordsKinds(s[1..], kws);
      } else {
        UpWordsKinds(s[n..], kws);
        assert s == s[..n] + s[n..];
        UpWordsWord(s[..n], s[n..], kws);
      }
    }
  }

  /** Words do not reach across a break. */
  lemma {:induction false} UpWordsBreak(a: string, b: string, kws: seq<string>)
    requires NoWordFirst(b) || a == [] || !IsWord(a[|a| - 1])
    ensures UpWords(a + b, kws) == UpWords(a, kws) + UpWords(b, kws)
    decreases |a|
  {
    if a == [] {
      assert a + b == b;
    } else {
      var n := WordLen(a);
      if n == 0 {
        assert a + b == [a[0]] + (a[1..] + b);
        UpWordsOther(a[0], a[1..] + b, kws);
        UpWordsBreak(a[1..], b, kws);
      } else {
        var w, r := a[..n], a[n..];
        assert a == w + r && r + b == a[n..] + b;
        Assoc(w, r, b);
        UpWordsWord(w, r + b, kws);
        UpWordsWord(w, r, kws);
        UpWordsBreak(r, b, kws);
        Assoc(UpWord(w, kws), UpWords(r, kws), UpWords(b, kws));
      }
    }
  }

  lemma {:induction false} UpWordsNone(s: string)
    ensures UpWords(s, []) == s
    decreases |s|
  {
    if s != [] {
      var n := WordLen(s);
      if n == 0 {
        assert s == [s[0]] + s[1..];
        UpWordsOther(s[0], s[1..], []);
        UpWordsNone(s[1..]);
      } else {
        var w, r := s[..n], s[n..];
        assert s == w + r;
        UpWordsWord(w, r, []);
        UpWordsNone(r);
      }
    }
  }

  /** Two rounds of keywords are one round of all of them. */
  lemma {:induction false} UpWordsTwice(s: string, ks: seq<string>, js: seq<string>)
    ensures UpWords(UpWords(s, ks), js) == UpWords(s, ks + js)
    decreases |s|
  {
    if s != [] {
      var n := WordLen(s);
      if n == 0 {
        UpWordsTwice(s[1..], ks, js);
        UpWordsOther(s[0], UpWords(s[1..], ks), js);
      } else {
        var w, r := s[..n], s[n..];
        assert s == w + r;
        UpWordsTwice(r, ks, js);
        UpWordsWord(w, r, ks);
        UpWordsWord(w, r, ks + js);
        UpWordsKinds(r, ks);
        UpWordsWord(UpWord(w, ks), UpWords(r, ks), js);
      }
    }
  }

  lemma {:induction false} RestOfWord(w: string, r: string, kw: Keyword)
    requires AllWord(w) && NoWordFirst(r)
    ensures SubKeyword(w + r, true, kw) == w + SubKeyword(r, false, kw)
  {
    if w == [] {
      assert w + r == r;
      if r != [] {
        NotAtNonWord(r, kw);
      }
    } else {
      assert (w + r)[1..] == w[1..] + r && w == [w[0]] + w[1..];
      RestOfWord(w[1..], r, kw);
      Assoc([w[0]], w[1..], SubKeyword(r, false, kw));
    }
  }

  lemma NotAtNonWord(s: string, kw: Keyword)
    requires s != [] && !IsWord(s[0])
    ensures !KeywordAt(s, false, kw)
  {
    assert |kw| <= |s| ==> Upper(s[..|kw|])[0] == UpperChar(s[0]);
  }

  /** At the start of a word, a keyword matches exactly the whole word. */
  lemma KeywordAtWord(w: string, r: string, kw: Keyword)
    requires w != [] && AllWord(w) && NoWordFirst(r)
    ensures KeywordAt(w + r, false, kw) <==> Upper(w) == kw
  {
    var s := w + r;
    assert s[..|w|] == w;
    if KeywordAt(s, false, kw) {
      var m := s[..|kw|];
      assert forall k :: 0 <= k < |kw| ==> UpperChar(m[k]) == kw[k];
      assert AllWord(m) && s == m + s[|kw|..];
      WordLenIs(m, s[|kw|..]);
      WordLenIs(w, r);
    }
  }

  /** One keyword substitution upper-cases exactly the whole words that spell it. */
  lemma {:induction false} SubKeywordIsUpWords(s: string, kw: Keyword)
    ensures SubKeyword(s, false, kw) == UpWords(s, [kw])
    decreases |s|
  {
    if s != [] {
      var n := WordLen(s);
      if n == 0 {
        NotAtNonWord(s, kw);
        SubKeywordIsUpWords(s[1..], kw);
      } else {
        var w, r := s[..n], s[n..];
        assert s == w + r;
        KeywordAtWord(w, r, kw);
        SubKeywordIsUpWords(r, kw);
        UpWordsWord(w, r, [kw]);
        if Upper(w) == kw {
          RestOfWord([], r, kw);
          assert [] + r == r && [] + SubKeyword(r, false, kw) == SubKeyword(r, false, kw);
        } else {
          var w' := w[1..];
          assert s[1..] == w' + r && [w[0]] + w' == w;
          RestOfWord(w', r, kw);
          Assoc([w[0]], w', SubKeyword(r, false, kw));
        }
      }
    }
  }

  // ------------------------------------------------------------------ the whole normaliser

  /** Outer spaces are no part of any word. */
  lemma {:induction false} StripUpWords(s: string, kws: seq<string>)
    ensures Strip(UpWords(s, kws)) == UpWords(Strip(s), kws)
    decreases |s|
  {
    if s != [] && IsSpace(s[0]) {
      UpWordsOther(s[0], s[1..], kws);
      assert [s[0]] + s[1..] == s && UpWords(s, kws)[1..] == UpWords(s[1..], kws);
      StripUpWords(s[1..], kws);
    } else {
      UpWordsKinds(s, kws);
      TrimUpWords(s, kws);
    }
  }

  lemma {:induction false} TrimUpWords(s: string, kws: seq<string>)
    ensures TrimRight(UpWords(s, kws)) == UpWords(TrimRight(s), kws)
    decreases |s|
  {
    UpWordsKinds(s, kws);
    if s != [] && IsSpace(s[|s| - 1]) {
      var p, c := s[..|s| - 1], s[|s| - 1];
      assert s == p + [c];
      UpWordsBreak(p, [c], kws);
      UpWordsOther(c, [], kws);
      assert [c] + [] == [c] && UpWords([], kws) == [];
      assert UpWords(s, kws)[..|s| - 1] == UpWords(p, kws);
      TrimUpWords(p, kws);
    }
  }

  lemma StripCollapsed(q: string)
    ensures Strip(Col(Expand(q, "=<>"), false)) == Join(Tokens(q, []))
  {
    DropOfCol(Expand(q, "=<>"));
    TokensAreCollapsed(q, []);
    var x := Col(Expand(q, "=<>"), true);
    assert [] + x == x;
  }

  /** The operators set apart after `n` rounds of the loop. */
  function SetApart(n: nat): string {
    if n == 0 then "" else if n <= 4 then "=" else if n == 5 then "=<" else "=<>"
  }

  lemma OperatorRound(t: string, q: string, n: nat)
    requires n < 6 && Apart(t, q, SetApart(n)) && (1 <= n < 4 ==> Guarded(t))
    ensures Apart(Pass(t, OPERATORS[n]), q, SetApart(n + 1))
    ensures n < 4 ==> Guarded(Pass(t, OPERATORS[n]))
  {
    if n == 0 {
      PassSetsApart(t, q, "", '=');
      assert "" + ['='] == "=";
      FirstPassGuards(t);
    } else if n < 4 {
      PairAbsent(t, OPERATORS[n][0]);
      assert OPERATORS[n] == [OPERATORS[n][0], '='];
    } else if n == 4 {
      PassSetsApart(t, q, "=", '<');
      assert "=" + ['<'] == "=<";
    } else {
      PassSetsApart(t, q, "=<", '>');
      assert "=<" + ['>'] == "=<>";
    }
  }

  lemma KeywordRound(q: string, kws: seq<Keyword>, k: nat)
    requires k < |kws|
    ensures SubKeyword(UpWords(q, kws[..k]), false, kws[k]) == UpWords(q, kws[..k + 1])
  {
    SubKeywordIsUpWords(UpWords(q, kws[..k]), kws[k]);
    UpWordsTwice(q, kws[..k], [kws[k]]);
    assert kws[..k] + [kws[k]] == kws[..k + 1];
  }

  lemma LastStrip(text: string, collapsed: string)
    requires collapsed == Col(Expand(text, "=<>"), false)
    ensures KEYWORDS[..|KEYWORDS|] == KEYWORDS && Strip(UpWords(collapsed, KEYWORDS)) == Normalized(text)
  {
    StripUpWords(collapsed, KEYWORDS);
    StripCollapsed(text);
  }

  /** The passes of the source, one after the other, compute the one-pass reference. */
  method NormalizeSqlBasic(text: string) returns (query: string)
    ensures query == Normalized(text)
  {
    query := Collapse(text);
    CollapseIsCol(text);
    ExpandNothing(text);
    ExpandAfterCol(text, "", false);
    ExpandNothing(query);
    for i := 0 to |OPERATORS|
      invariant Apart(query, text, SetApart(i))
      invariant 1 <= i <= 4 ==> Guarded(query)
    {
      var op := OPERATORS[i];
      OperatorRound(query, text, i);
      query := Tighten(query, op);
      query := Replace(query, op, " " + op + " ");
    }
    CollapseIsCol(query);
    query := Collapse(query);
    ghost var collapsed := query;
    UpWordsNone(query);
    for k := 0 to |KEYWORDS|
      invariant query == UpWords(collapsed, KEYWORDS[..k])
    {
      KeywordRound(collapsed, KEYWORDS, k);
      query := SubKeyword(query, false, KEYWORDS[k]);
    }
    LastStrip(text, collapsed);
    query := Strip(query);
  }

  lemma {:induction false} ExpandNothing(s: string)
    ensures Expand(s, "") == s
    decreases |s|
  {
    if s != [] {
      ExpandNothing(s[1..]);
    }
  }

  // ------------------------------------------------------------------ what callers may rely on

  predicate Breaks(c: char) {
    IsSpace(c) || IsOp(c)
  }

  ghost function MapUp(ts: seq<string>, kws: seq<string>): seq<string> {
    if ts == [] then [] else [UpWords(ts[0], kws)] + MapUp(ts[1..], kws)
  }

  lemma {:induction false} MapUpAppend(ts: seq<string>, us: seq<string>, kws: seq<string>)
    ensures MapUp(ts + us, kws) == MapUp(ts, kws) + MapUp(us, kws)
  {
    if ts == [] {
      assert ts + us == us;
    } else {
      assert (ts + us)[1..] == ts[1..] + us;
      MapUpAppend(ts[1..], us, kws);
    }
  }

  lemma {:induction false} JoinMapUp(ts: seq<string>, kws: seq<string>)
    ensures Join(MapUp(ts, kws)) == UpWords(Join(ts), kws) && |MapUp(ts, kws)| == |ts|
  {
    if |ts| == 1 {
      assert ts[1..] == [];
    } else if ts != [] {
      JoinMapUp(ts[1..], kws);
      var rest := Join(ts[1..]);
      UpWordsOther(' ', rest, kws);
      Assoc(ts[0], " ", rest);
      UpWordsBreak(ts[0], " " + rest, kws);
      Assoc(UpWords(ts[0], kws), " ", UpWords(rest, kws));
      assert MapUp(ts, kws)[1..] == MapUp(ts[1..], kws);
    }
  }

  lemma {:induction false} TokensPlain(w: string, r: string, cur: string)
    requires Plain(w)
    ensures Tokens(w + r, cur) == Tokens(r, cur + w)
    decreases |w|
  {
    if w == [] {
      assert w + r == r && cur + w == cur;
    } else {
      assert (w + r)[1..] == w[1..] + r && (cur + [w[0]]) + w[1..] == cur + w;
      TokensPlain(w[1..], r, cur + [w[0]]);
    }
  }

  lemma UpWordsChar(c: char, kws: seq<string>)
    requires !IsWord(c)
    ensures UpWords([c], kws) == [c] && MapUp([[c]], kws) == [[c]]
  {
    UpWordsOther(c, [], kws);
    assert [c] + [] == [c] && [[c]][1..] == [];
  }

  lemma MapUpFlush(cur: string, ts: seq<string>, kws: seq<string>)
    ensures MapUp(Flush(cur) + ts, kws) == Flush(UpWords(cur, kws)) + MapUp(ts, kws)
  {
    UpWordsKinds(cur, kws);
    assert Flush(cur) + ts == if cur == [] then ts else [cur] + ts;
    if cur != [] {
      assert ([cur] + ts)[1..] == ts;
    }
  }

  lemma TokensUpBreak(c: char, r: string, cur: string, kws: seq<string>)
    requires Breaks(c) && Tokens(UpWords(r, kws), []) == MapUp(Tokens(r, []), kws)
    ensures Tokens([c] + UpWords(r, kws), UpWords(cur, kws)) == MapUp(Tokens([c] + r, cur), kws)
  {
    var ts := Tokens(r, []);
    assert ([c] + r)[1..] == r && ([c] + UpWords(r, kws))[1..] == UpWords(r, kws);
    if IsSpace(c) {
      MapUpFlush(cur, ts, kws);
    } else {
      UpWordsChar(c, kws);
      Assoc(Flush(cur), [[c]], ts);
      MapUpFlush(cur, [[c]] + ts, kws);
      MapUpAppend([[c]], ts, kws);
      Assoc(Flush(UpWords(cur, kws)), [[c]], MapUp(ts, kws));
    }
  }

  lemma TokensUpChar(c: char, r: string, cur: string, kws: seq<string>)
    requires !Breaks(c) && !IsWord(c)
    requires Tokens(UpWords(r, kws), UpWords(cur + [c], kws)) == MapUp(Tokens(r, cur + [c]), kws)
    ensures Tokens([c] + UpWords(r, kws), UpWords(cur, kws)) == MapUp(Tokens([c] + r, cur), kws)
  {
    UpWordsChar(c, kws);
    UpWordsBreak(cur, [c], kws);
    assert ([c] + r)[1..] == r && ([c] + UpWords(r, kws))[1..] == UpWords(r, kws);
  }

  /** A word at the end of the current token. */
  lemma UpWordsLast(cur: string, w: string, kws: seq<string>)
    requires AllWord(w) && w != [] && (cur == [] || !IsWord(cur[|cur| - 1]))
    ensures UpWords(cur + w, kws) == UpWords(cur, kws) + UpWord(w, kws)
  {
    UpWordsBreak(cur, w, kws);
    UpWordsWord(w, [], kws);
    assert w + [] == w && UpWord(w, kws) + [] == UpWord(w, kws);
  }

  lemma TokensUpWord(w: string, r: string, cur: string, kws: seq<string>)
    requires AllWord(w) && w != [] && NoWordFirst(r) && (cur == [] || !IsWord(cur[|cur| - 1]))
    ensures Tokens(w + r, cur) == Tokens(r, cur + w)
    ensures Tokens(UpWords(w + r, kws), UpWords(cur, kws)) == Tokens(UpWords(r, kws), UpWords(cur + w, kws))
  {
    UpWordsWord(w, r, kws);
    UpWordsLast(cur, w, kws);
    TokensPlain(w, r, cur);
    TokensPlain(UpWord(w, kws), UpWords(r, kws), UpWords(cur, kws));
  }

  lemma TokensUpWordThen(w: string, r: string, cur: string, kws: seq<string>)
    requires AllWord(w) && w != [] && NoWordFirst(r) && (cur == [] || !IsWord(cur[|cur| - 1]))
    requires Tokens(UpWords(r, kws), UpWords(cur + w, kws)) == MapUp(Tokens(r, cur + w), kws)
    ensures Tokens(UpWords(w + r, kws), UpWords(cur, kws)) == MapUp(Tokens(w + r, cur), kws)
  {
    TokensUpWord(w, r, cur, kws);
  }

  lemma TokensUpEnd(cur: string, kws: seq<string>)
    ensures Flush(UpWords(cur, kws)) == MapUp(Flush(cur), kws)
  {
    MapUpFlush(cur, [], kws);
    assert Flush(cur) + [] == Flush(cur) && Flush(UpWords(cur, kws)) + [] == Flush(UpWords(cur, kws));
  }

  /** Keyword case and tokens do not interfere. */
  lemma {:induction false} TokensUpWords(s: string, cur: string, kws: seq<string>)
    requires Plain(cur) && (NoWordFirst(s) || cur == [] || !IsWord(cur[|cur| - 1]))
    ensures Tokens(UpWords(s, kws), UpWords(cur, kws)) == MapUp(Tokens(s, cur), kws)
    decreases |s|
  {
    if s == [] {
      TokensUpEnd(cur, kws);
    } else {
      var n := WordLen(s);
      if n > 0 {
        var w, r := s[..n], s[n..];
        assert s == w + r;
        TokensUpWords(r, cur + w, kws);
        TokensUpWordThen(w, r, cur, kws);
      } else {
        var c, r := s[0], s[1..];
        assert s == [c] + r;
        UpWordsOther(c, r, kws);
        if Breaks(c) {
          TokensUpWords(r, [], kws);
          TokensUpBreak(c, r, cur, kws);
        } else {
          TokensUpWords(r, cur + [c], kws);
          TokensUpChar(c, r, cur, kws);
        }
      }
    }
  }

  lemma NormalizedOfUpWords(s: string)
    ensures Join(Tokens(UpWords(s, KEYWORDS), [])) == Normalized(s)
  {
    TokensUpWords(s, [], KEYWORDS);
    JoinMapUp(Tokens(s, []), KEYWORDS);
  }

  lemma TokenThen(t: string, x: string)
    requires Token(t) && (x != [] ==> IsSpace(x[0]))
    ensures Tokens(t + x, []) == [t] + Tokens(x, [])
  {
    if IsOp(t[0]) {
      assert t == [t[0]] && (t + x)[1..] == x;
    } else {
      assert [] + t == t;
      TokensPlain(t, x, []);
    }
  }

  lemma {:induction false} TokensOfJoin(ts: seq<string>)
    requires forall t :: t in ts ==> Token(t)
    ensures Tokens(Join(ts), []) == ts
    decreases |ts|
  {
    if ts != [] {
      var t, us := ts[0], ts[1..];
      assert ts == [t] + us && t in ts;
      TokensOfJoin(us);
      if us == [] {
        TokenThen(t, []);
        assert t + [] == t;
      } else {
        TokenThen(t, " " + Join(us));
        Assoc(t, " ", Join(us));
        assert (" " + Join(us))[1..] == Join(us);
      }
    }
  }

  lemma {:induction false} SameKeywords(s: string, ks: seq<string>, js: seq<string>)
    requires forall k :: k in ks <==> k in js
    ensures UpWords(s, ks) == UpWords(s, js)
    decreases |s|
  {
    if s != [] {
      var n := WordLen(s);
      SameKeywords(s[if n == 0 then 1 else n..], ks, js);
    }
  }

  lemma NormalizedIdempotent(s: string)
    ensures Normalized(Normalized(s)) == Normalized(s)
  {
    var ts := Tokens(s, []);
    var j := Join(ts);
    TokensAreTokens(s, []);
    TokensOfJoin(ts);
    TokensUpWords(j, [], KEYWORDS);
    JoinMapUp(ts, KEYWORDS);
    UpWordsTwice(j, KEYWORDS, KEYWORDS);
    SameKeywords(j, KEYWORDS + KEYWORDS, KEYWORDS);
  }

  /** The case of a whole keyword does not matter. */
  lemma KeywordCaseIrrelevant(a: string, v: string, w: string, b: string)
    requires AllWord(v) && v != [] && Upper(v) == Upper(w) && Upper(v) in KEYWORDS
    requires NoWordFirst(b) && (a == [] || !IsWord(a[|a| - 1]))
    ensures Normalized(a + (v + b)) == Normalized(a + (w + b))
  {
    assert forall k :: 0 <= k < |w| ==> UpperChar(v[k]) == UpperChar(w[k]) by {
      assert forall k :: 0 <= k < |w| ==> Upper(v)[k] == Upper(w)[k];
    }
    UpWordsBreak(a, v + b, KEYWORDS);
    UpWordsBreak(a, w + b, KEYWORDS);
    UpWordsWord(v, b, KEYWORDS);
    UpWordsWord(w, b, KEYWORDS);
    NormalizedOfUpWords(a + (v + b));
    NormalizedOfUpWords(a + (w + b));
  }

  lemma {:induction false} TokensSplit(a: string, b: string, cur: string)
    requires (b != [] && Breaks(b[0])) || (a != [] && Breaks(a[|a| - 1])) || (a == [] && cur == [])
    ensures Tokens(a + b, cur) == Tokens(a, cur) + Tokens(b, [])
    decreases |a|
  {
    if a == [] {
      assert a + b == b;
    } else {
      assert (a + b)[1..] == a[1..] + b;
      TokensSplit(a[1..], b, if Breaks(a[0]) then [] else cur + [a[0]]);
      Assoc(Flush(cur), Tokens(a[1..], []), Tokens(b, []));
      Assoc(Flush(cur) + [[a[0]]], Tokens(a[1..], []), Tokens(b, []));
    }
  }

  lemma {:induction false} SpacesAreNoTokens(w: string, b: string)
    requires forall k :: 0 <= k < |w| ==> IsSpace(w[k])
    ensures Tokens(w + b, []) == Tokens(b, [])
    decreases |w|
  {
    if w == [] {
      assert w + b == b;
    } else {
      assert (w + b)[1..] == w[1..] + b;
      SpacesAreNoTokens(w[1..], b);
    }
  }

  /** Any run of whitespace is as good as any other. */
  lemma WhitespaceRunIrrelevant(a: string, v: string, w: string, b: string)
    requires v != [] && w != []
    requires (forall k :: 0 <= k < |v| ==> IsSpace(v[k])) && (forall k :: 0 <= k < |w| ==> IsSpace(w[k]))
    ensures Normalized(a + (v + b)) == Normalized(a + (w + b))
  {
    TokensSplit(a, v + b, []);
    TokensSplit(a, w + b, []);
    SpacesAreNoTokens(v, b);
    SpacesAreNoTokens(w, b);
  }

  /** Room taken by tokens and the spaces between them. */
  ghost function Width(ts: seq<string>): nat {
    if ts == [] then 0 else |ts[0]| + 1 + Width(ts[1..])
  }

  lemma {:induction false} JoinWidth(ts: seq<string>)
    ensures ts != [] ==> |Join(ts)| == Width(ts) - 1
  {
    if |ts| > 1 {
      JoinWidth(ts[1..]);
    }
  }

  lemma {:induction false} WidthAppend(ts: seq<string>, us: seq<string>)
    ensures Width(ts + us) == Width(ts) + Width(us)
  {
    if ts == [] {
      assert ts + us == us;
    } else {
      assert (ts + us)[1..] == ts[1..] + us;
      WidthAppend(ts[1..], us);
    }
  }

  lemma {:induction false} LongerToken(b: string, cur: string)
    requires b != [] && !Breaks(b[0])
    ensures Width(Tokens(b, cur)) == |cur| + Width(Tokens(b, [])) && Tokens(b, cur) != []
  {
    var w := PlainPrefix(b);
    var r := b[|w|..];
    assert b == w + r;
    TokensPlain(w, r, cur);
    TokensPlain(w, r, []);
    assert [] + w == w;
    WidthOfFirst(cur + w, r);
    WidthOfFirst(w, r);
  }

  function PlainPrefix(s: string): (w: string)
    ensures w <= s && Plain(w) && (|w| < |s| ==> Breaks(s[|w|]))
    ensures s != [] && !Breaks(s[0]) ==> w != []
  {
    if s == [] || Breaks(s[0]) then []
    else
      var rest := PlainPrefix(s[1..]);
      assert forall k :: 0 < k <= |rest| ==> s[k] == s[1..][k - 1];
      [s[0]] + rest
  }

  lemma WidthOfFirst(cur: string, r: string)
    requires cur != [] && (r != [] ==> Breaks(r[0]))
    ensures Width(Tokens(r, cur)) == |cur| + 1 + Width(Tokens(r, [])) && Tokens(r, cur) != []
  {
    assert Width([cur]) == |cur| + 1;
    assert Tokens(r, cur) == [cur] + Tokens(r, []);
    WidthAppend([cur], Tokens(r, []));
  }

  lemma {:induction false} SplitWidth(a: string, b: string, cur: string)
    requires b != [] && !Breaks(b[0])
    requires if a == [] then cur != [] else !Breaks(a[|a| - 1])
    ensures Width(Tokens(a + (" " + b), cur)) == Width(Tokens(a + b, cur)) + 1
    ensures Tokens(a + b, cur) != [] && Tokens(a + (" " + b), cur) != []
    decreases |a|
  {
    if a == [] {
      assert a + b == b && a + (" " + b) == " " + b && (" " + b)[1..] == b;
      LongerToken(b, cur);
      WidthOfFirst(cur, " " + b);
      assert Tokens(" " + b, []) == Tokens(b, []);
    } else {
      assert (a + b)[1..] == a[1..] + b && (a + (" " + b))[1..] == a[1..] + (" " + b);
      if Breaks(a[0]) {
        SplitWidth(a[1..], b, []);
        var f := Flush(cur) + if IsSpace(a[0]) then [] else [[a[0]]];
        assert Flush(cur) + [] == Flush(cur);
        WidthAppend(f, Tokens(a[1..] + b, []));
        WidthAppend(f, Tokens(a[1..] + (" " + b), []));
      } else {
        SplitWidth(a[1..], b, cur + [a[0]]);
      }
    }
  }

  /** Formatting matters exactly inside a token: a space put between two characters changes the
      result unless one of them is whitespace or one of `=`, `<`, `>`. */
  lemma InsertedSpaceIrrelevantIff(a: string, b: string)
    requires a != [] && b != []
    ensures Normalized(a + (" " + b)) == Normalized(a + b) <==> Breaks(a[|a| - 1]) || Breaks(b[0])
  {
    if Breaks(a[|a| - 1]) || Breaks(b[0]) {
      TokensSplit(a, " " + b, []);
      SpacesAreNoTokens(" ", b);
      TokensSplit(a, b, []);
    } else {
      SplitWidth(a, b, []);
      JoinWidth(Tokens(a + b, []));
      JoinWidth(Tokens(a + (" " + b), []));
      UpWordsKinds(Join(Tokens(a + b, [])), KEYWORDS);
      UpWordsKinds(Join(Tokens(a + (" " + b), [])), KEYWORDS);
    }
  }

  /** The `!=` entry of the operator list is dead: a space in front of `!=` changes the result
      wherever something other than whitespace or an operator precedes it. */
  lemma NotEqualIsNotNormalised(a: string, b: string)
    requires a != [] && !Breaks(a[|a| - 1])
    ensures Normalized(a + (" " + ("!=" + b))) != Normalized(a + ("!=" + b))
  {
    InsertedSpaceIrrelevantIff(a, "!=" + b);
  }
}
