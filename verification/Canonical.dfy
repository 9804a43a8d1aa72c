/** Canonical JSON text (`canonicalize_json` in sim_sdk/sim_sdk/canonical.py) for trees with string
    keys and integer numbers, and the reader that inverts it (RFC 8259, sections 2 and 7). */
module Canonical {
  import opened Common
  import opened FixturePaths

  datatype Json = Null | Bool(b: bool) | Int(n: int) | Str(s: string) | Arr(items: Items) | Obj(fields: Fields)

  datatype Items = NoItems | Item(head: Json, tail: Items)

  /** The items of a Python dict, in insertion order. */
  datatype Fields = NoFields | Field(key: string, val: Json, rest: Fields)

  function Keys(fs: Fields): set<string> {
    if fs.NoFields? then {} else {fs.key} + Keys(fs.rest)
  }

  function Get(fs: Fields, k: string): Json
    requires k in Keys(fs)
  {
    if fs.key == k then fs.val else Get(fs.rest, k)
  }

  /** A dict never holds a key twice. */
  predicate WellFormed(v: Json) {
    match v
    case Arr(items) => ItemsWellFormed(items)
    case Obj(fields) => FieldsWellFormed(fields)
    case _ => true
  }

  predicate ItemsWellFormed(xs: Items) {
    xs.Item? ==> WellFormed(xs.head) && ItemsWellFormed(xs.tail)
  }

  predicate FieldsWellFormed(fs: Fields) {
    fs.Field? ==> fs.key !in Keys(fs.rest) && WellFormed(fs.val) && FieldsWellFormed(fs.rest)
  }

  /** Equality up to the order of object keys, at every depth. */
  ghost predicate Equiv(a: Json, b: Json) {
    match a
    case Arr(xs) => b.Arr? && ItemsEquiv(xs, b.items)
    case Obj(fs) => b.Obj? && Keys(fs) == Keys(b.fields) && FieldsEquiv(fs, b.fields)
    case _ => a == b
  }

  ghost predicate ItemsEquiv(xs: Items, ys: Items) {
    if xs.NoItems? then ys.NoItems?
    else ys.Item? && Equiv(xs.head, ys.head) && ItemsEquiv(xs.tail, ys.tail)
  }

  /** Every field of `fs` has an equivalent value under the same key of `gs`. */
  ghost predicate FieldsEquiv(fs: Fields, gs: Fields) {
    fs.Field? ==> fs.key in Keys(gs) && Equiv(fs.val, Get(gs, fs.key)) && FieldsEquiv(fs.rest, gs)
  }

  // ------------------------------------------------------------------ sorting keys

  /** Python compares strings by code point. */
  predicate Less(a: string, b: string) {
    if b == [] then false
    else if a == [] then true
    else a[0] < b[0] || (a[0] == b[0] && Less(a[1..], b[1..]))
  }

  lemma {:induction false} LessTotal(a: string, b: string)
    ensures (a == b && !Less(a, b) && !Less(b, a)) || (a != b && (Less(a, b) <==> !Less(b, a)))
  {
    if a != [] && b != [] {
      LessTotal(a[1..], b[1..]);
      if a[0] == b[0] && a[1..] == b[1..] {
        assert a == [a[0]] + a[1..] && b == [b[0]] + b[1..];
      }
    }
  }

  lemma {:induction false} LessTransitive(a: string, b: string, c: string)
    requires Less(a, b) && Less(b, c)
    ensures Less(a, c)
  {
    if a != [] && a[0] == b[0] == c[0] {
      LessTransitive(a[1..], b[1..], c[1..]);
    }
  }

  function Insert(k: string, v: Json, fs: Fields): Fields {
    if fs.NoFields? || Less(k, fs.key) then Field(k, v, fs)
    else Field(fs.key, fs.val, Insert(k, v, fs.rest))
  }

  /** `sort_keys=True` at every depth. */
  function Sorted(v: Json): Json {
    match v
    case Arr(xs) => Arr(SortedItems(xs))
    case Obj(fs) => Obj(SortedFields(fs))
    case _ => v
  }

  function SortedItems(xs: Items): Items {
    if xs.NoItems? then xs else Item(Sorted(xs.head), SortedItems(xs.tail))
  }

  function SortedFields(fs: Fields): Fields {
    if fs.NoFields? then fs else Insert(fs.key, Sorted(fs.val), SortedFields(fs.rest))
  }

  /** Keys strictly increase. */
  predicate Increasing(fs: Fields) {
    fs.Field? && fs.rest.Field? ==> Less(fs.key, fs.rest.key) && Increasing(fs.rest)
  }

  lemma {:induction false} InsertCorrect(k: string, v: Json, fs: Fields)
    requires k !in Keys(fs) && Increasing(fs)
    ensures var r := Insert(k, v, fs);
            && Keys(r) == Keys(fs) + {k} && Increasing(r)
            && Get(r, k) == v && forall j :: j in Keys(fs) ==> Get(r, j) == Get(fs, j)
  {
    if fs.Field? {
      LessTotal(k, fs.key);
      if !Less(k, fs.key) {
        InsertCorrect(k, v, fs.rest);
      }
    }
  }

  lemma {:induction false} SortedFieldsCorrect(fs: Fields)
    requires FieldsWellFormed(fs)
    ensures var r := SortedFields(fs);
            && Keys(r) == Keys(fs) && Increasing(r)
            && forall j :: j in Keys(fs) ==> Get(r, j) == Sorted(Get(fs, j))
  {
    if fs.Field? {
      SortedFieldsCorrect(fs.rest);
      InsertCorrect(fs.key, Sorted(fs.val), SortedFields(fs.rest));
    }
  }

  lemma {:induction false} HeadIsLeast(fs: Fields, k: string)
    requires Increasing(fs) && fs.Field? && k in Keys(fs.rest)
    ensures Less(fs.key, k)
  {
    if k != fs.rest.key {
      HeadIsLeast(fs.rest, k);
      LessTransitive(fs.key, fs.rest.key, k);
    }
  }

  /** Sorted fields are determined by their keys and values. */
  lemma {:induction false} IncreasingUnique(fs: Fields, gs: Fields)
    requires Increasing(fs) && Increasing(gs) && Keys(fs) == Keys(gs)
    requires forall k :: k in Keys(fs) ==> Get(fs, k) == Get(gs, k)
    ensures fs == gs
  {
    if fs.NoFields? {
    } else {
      assert fs.key in Keys(gs) && gs.key in Keys(fs);
      LessTotal(fs.key, gs.key);
      if fs.key != gs.key {
        HeadIsLeast(fs, gs.key);
        HeadIsLeast(gs, fs.key);
      } else {
        TailKeys(fs);
        TailKeys(gs);
        forall k | k in Keys(fs.rest) ensures Get(fs.rest, k) == Get(gs.rest, k) {
          assert Get(fs, k) == Get(gs, k);
        }
        IncreasingUnique(fs.rest, gs.rest);
      }
    }
  }

  lemma TailKeys(fs: Fields)
    requires Increasing(fs) && fs.Field?
    ensures fs.key !in Keys(fs.rest) && Keys(fs.rest) == Keys(fs) - {fs.key}
  {
    LessTotal(fs.key, fs.key);
    if fs.key in Keys(fs.rest) {
      HeadIsLeast(fs, fs.key);
    }
  }

  /** Sorting keys forgets exactly their order. */
  lemma {:induction false} SortedIffEquiv(a: Json, b: Json)
    requires WellFormed(a) && WellFormed(b)
    ensures Sorted(a) == Sorted(b) <==> Equiv(a, b)
  {
    if a.Arr? && b.Arr? {
      SortedItemsIffEquiv(a.items, b.items);
    } else if a.Obj? && b.Obj? {
      SortedFieldsCorrect(a.fields);
      SortedFieldsCorrect(b.fields);
      if Keys(a.fields) == Keys(b.fields) {
        SortedFieldsIffEquiv(a.fields, b.fields);
        if Equiv(a, b) {
          IncreasingUnique(SortedFields(a.fields), SortedFields(b.fields));
        }
      }
    }
  }

  lemma {:induction false} SortedItemsIffEquiv(xs: Items, ys: Items)
    requires ItemsWellFormed(xs) && ItemsWellFormed(ys)
    ensures SortedItems(xs) == SortedItems(ys) <==> ItemsEquiv(xs, ys)
  {
    if xs.Item? && ys.Item? {
      SortedIffEquiv(xs.head, ys.head);
      SortedItemsIffEquiv(xs.tail, ys.tail);
    }
  }

  lemma {:induction false} SortedFieldsIffEquiv(fs: Fields, gs: Fields)
    requires FieldsWellFormed(fs) && FieldsWellFormed(gs) && Keys(fs) <= Keys(gs)
    ensures FieldsEquiv(fs, gs) <==> forall k :: k in Keys(fs) ==> Sorted(Get(fs, k)) == Sorted(Get(gs, k))
  {
    if fs.Field? {
      GetWellFormed(gs, fs.key);
      SortedIffEquiv(fs.val, Get(gs, fs.key));
      SortedFieldsIffEquiv(fs.rest, gs);
      assert forall k :: k in Keys(fs.rest) ==> Get(fs, k) == Get(fs.rest, k);
      assert Get(fs, fs.key) == fs.val;
    }
  }

  lemma {:induction false} GetWellFormed(fs: Fields, k: string)
    requires FieldsWellFormed(fs) && k in Keys(fs)
    ensures WellFormed(Get(fs, k))
  {
    if fs.key != k {
      GetWellFormed(fs.rest, k);
    }
  }

  // ------------------------------------------------------------------ printing

  function HexChar(d: nat): char
    requires d < 16
  {
    if d < 10 then '0' + d as char else 'a' + (d - 10) as char
  }

  /** Escapes of `json.dumps` with `ensure_ascii=False`. */
  function EscapeChar(c: char): string {
    if c == '\"' then "\\\""
    else if c == '\\' then "\\\\"
    else if c == '\n' then "\\n"
    else if c == '\r' then "\\r"
    else if c == '\t' then "\\t"
    else if c == 8 as char then "\\b"
    else if c == 12 as char then "\\f"
    else if c < ' ' then "\\u00" + [HexChar(c as int / 16), HexChar(c as int % 16)]
    else [c]
  }

  /** The printers write a value in front of the text `r` that follows it. */
  function Quoted(s: string, r: string): string {
    "\"" + Escaped(s, r)
  }

  function Escaped(s: string, r: string): string {
    if s == [] then "\"" + r else EscapeChar(s[0]) + Escaped(s[1..], r)
  }

  function IntText(n: int, r: string): string {
    if n < 0 then "-" + (Decimal(-n) + r) else Decimal(n) + r
  }

  function Text(v: Json, r: string): string {
    match v
    case Null => "null" + r
    case Bool(b) => (if b then "true" else "false") + r
    case Int(n) => IntText(n, r)
    case Str(s) => Quoted(s, r)
    case Arr(xs) => "[" + ItemsText(xs, "]" + r)
    case Obj(fs) => "{" + FieldsText(fs, "}" + r)
  }

  function ItemsText(xs: Items, r: string): string {
    if xs.NoItems? then r
    else Text(xs.head, if xs.tail.NoItems? then r else "," + ItemsText(xs.tail, r))
  }

  function FieldsText(fs: Fields, r: string): string {
    if fs.NoFields? then r
    else Quoted(fs.key, ":" + Text(fs.val, if fs.rest.NoFields? then r else "," + FieldsText(fs.rest, r)))
  }

  /** `canonicalize_json` on the trees of this model. */
  function Canonicalize(v: Json): string {
    Text(Sorted(v), "")
  }

  // ------------------------------------------------------------------ reading

  predicate IsDigit(c: char) {
    '0' <= c <= '9'
  }

  function HexValue(c: char): Option<nat> {
    if IsDigit(c) then Some(c as int - '0' as int)
    else if 'a' <= c <= 'f' then Some(c as int - 'a' as int + 10)
    else if 'A' <= c <= 'F' then Some(c as int - 'A' as int + 10)
    else None
  }

  /** A four-digit escape; halves of surrogate pairs are rejected. */
  function Unescape(s: string): Option<char>
    requires |s| == 4
  {
    var a, b, c, d := HexValue(s[0]), HexValue(s[1]), HexValue(s[2]), HexValue(s[3]);
    if a == None || b == None || c == None || d == None then None
    else
      var n := 0x1000 * a.value + 0x100 * b.value + 0x10 * c.value + d.value;
      if n < 0xD800 || (0xE000 <= n < 0x1_0000) then Some(n as char) else None
  }

  function Prepend(c: char, r: Option<(string, string)>): Option<(string, string)> {
    if r == None then None else Some(([c] + r.value.0, r.value.1))
  }

  /** Reads a string up to its closing quote. */
  function ReadChars(t: string): (r: Option<(string, string)>)
    ensures r.Some? ==> |r.value.1| < |t|
    decreases |t|
  {
    if t == [] then None
    else if t[0] == '\"' then Some(([], t[1..]))
    else if t[0] < ' ' then None
    else if t[0] != '\\' then Prepend(t[0], ReadChars(t[1..]))
    else if |t| < 2 then None
    else
      match t[1]
      case '\"' => Prepend('\"', ReadChars(t[2..]))
      case '\\' => Prepend('\\', ReadChars(t[2..]))
      case '/' => Prepend('/', ReadChars(t[2..]))
      case 'n' => Prepend('\n', ReadChars(t[2..]))
      case 'r' => Prepend('\r', ReadChars(t[2..]))
      case 't' => Prepend('\t', ReadChars(t[2..]))
      case 'b' => Prepend(8 as char, ReadChars(t[2..]))
      case 'f' => Prepend(12 as char, ReadChars(t[2..]))
      case 'u' =>
        if |t| < 6 || Unescape(t[2..6]) == None then None
        else Prepend(Unescape(t[2..6]).value, ReadChars(t[6..]))
      case _ => None
  }

  /** Reads digits onto the number read so far. */
  function ReadDigits(t: string, n: nat): (r: (nat, string))
    ensures |r.1| <= |t|
    decreases |t|
  {
    if t == [] || !IsDigit(t[0]) then (n, t)
    else ReadDigits(t[1..], 10 * n + (t[0] as int - '0' as int))
  }

  /** No superfluous leading zero. */
  function ReadNat(t: string): (r: Option<(nat, string)>)
    ensures r.Some? ==> |r.value.1| < |t|
  {
    if t == [] || !IsDigit(t[0]) then None
    else if t[0] == '0' then Some((0, t[1..]))
    else Some(ReadDigits(t[1..], t[0] as int - '0' as int))
  }

  function Skip(t: string, word: string, v: Json): (r: Option<(Json, string)>)
    requires word != []
    ensures r.Some? ==> |r.value.1| < |t|
  {
    if word <= t then Some((v, t[|word|..])) else None
  }

  function ReadScalar(t: string): (r: Option<(Json, string)>)
    requires t != []
    ensures r.Some? ==> |r.value.1| < |t|
  {
    if t[0] == 'n' then Skip(t, "null", Null)
    else if t[0] == 't' then Skip(t, "true", Bool(true))
    else if t[0] == 'f' then Skip(t, "false", Bool(false))
    else if t[0] == '\"' then
      var s := ReadChars(t[1..]);
      if s == None then None else Some((Str(s.value.0), s.value.1))
    else if t[0] == '-' then
      var n := ReadNat(t[1..]);
      if n == None then None else Some((Int(0 - n.value.0), n.value.1))
    else
      var n := ReadNat(t);
      if n == None then None else Some((Int(n.value.0), n.value.1))
  }

  /** Reads one value and returns the text after it. */
  function Read(t: string): (r: Option<(Json, string)>)
    ensures r.Some? ==> |r.value.1| < |t|
    decreases |t|, 0
  {
    if t == [] then None
    else if t[0] == '[' then
      if |t| > 1 && t[1] == ']' then Some((Arr(NoItems), t[2..]))
      else
        var xs := ReadItems(t[1..]);
        if xs == None then None else Some((Arr(xs.value.0), xs.value.1))
    else if t[0] == '{' then
      if |t| > 1 && t[1] == '}' then Some((Obj(NoFields), t[2..]))
      else
        var fs := ReadFields(t[1..]);
        if fs == None then None else Some((Obj(fs.value.0), fs.value.1))
    else ReadScalar(t)
  }

  /** One or more items, then the closing bracket. */
  function ReadItems(t: string): (r: Option<(Items, string)>)
    ensures r.Some? ==> |r.value.1| < |t|
    decreases |t|, 1
  {
    var v := Read(t);
    if v == None || v.value.1 == [] then None
    else
      var t' := v.value.1;
      if t'[0] == ']' then Some((Item(v.value.0, NoItems), t'[1..]))
      else if t'[0] != ',' then None
      else
        var xs := ReadItems(t'[1..]);
        if xs == None then None else Some((Item(v.value.0, xs.value.0), xs.value.1))
  }

  /** One or more members, then the closing brace. */
  function ReadFields(t: string): (r: Option<(Fields, string)>)
    ensures r.Some? ==> |r.value.1| < |t|
    decreases |t|, 1
  {
    if t == [] || t[0] != '\"' then None
    else
      var k := ReadChars(t[1..]);
      if k == None || k.value.1 == [] || k.value.1[0] != ':' then None
      else
        var v := Read(k.value.1[1..]);
        if v == None || v.value.1 == [] then None
        else
          var t' := v.value.1;
          if t'[0] == '}' then Some((Field(k.value.0, v.value.0, NoFields), t'[1..]))
          else if t'[0] != ',' then None
          else
            var fs := ReadFields(t'[1..]);
            if fs == None then None else Some((Field(k.value.0, v.value.0, fs.value.0), fs.value.1))
  }

  // ------------------------------------------------------------------ the reader inverts the printer

  lemma HexCharReads(d: nat)
    requires d < 16
    ensures HexValue(HexChar(d)) == Some(d) && HexDigit(HexChar(d))
  {
  }

  /** The six characters of a control character's escape. */
  lemma HexReads(c: char, e: string, r: string)
    requires c < ' ' && e == "\\u00" + [HexChar(c as int / 16), HexChar(c as int % 16)]
    ensures ReadChars(e + r) == Prepend(c, ReadChars(r))
  {
    var high, low := c as int / 16, c as int % 16;
    HexCharReads(high);
    HexCharReads(low);
    var t := e + r;
    assert t[2..6] == ['0', '0', HexChar(high), HexChar(low)] && t[6..] == r;
    assert Unescape(t[2..6]) == Some(c);
  }

  lemma PairReads(x: char, r: string)
    ensures var t := ['\\', x] + r; |t| >= 2 && t[0] == '\\' && t[1] == x && t[2..] == r
  {
  }

  lemma EscapeReads(c: char, r: string)
    ensures ReadChars(EscapeChar(c) + r) == Prepend(c, ReadChars(r))
  {
    var e := EscapeChar(c);
    if |e| == 6 {
      HexReads(c, e, r);
    } else if |e| == 2 {
      assert e == ['\\', e[1]];
      PairReads(e[1], r);
    } else {
      assert (e + r)[1..] == r;
    }
  }

  lemma {:induction false} CharsRoundTrip(s: string, r: string)
    ensures ReadChars(Escaped(s, r)) == Some((s, r))
  {
    if s == [] {
      assert Escaped(s, r)[1..] == r;
    } else {
      EscapeReads(s[0], Escaped(s[1..], r));
      CharsRoundTrip(s[1..], r);
      assert [s[0]] + s[1..] == s;
    }
  }

  /** A number must not be followed by another digit. */
  predicate Ends(r: string) {
    r == [] || !IsDigit(r[0])
  }

  predicate AllDigits(s: string) {
    forall k :: 0 <= k < |s| ==> IsDigit(s[k])
  }

  /** The value of a numeral, read from the left onto `n`. */
  function Onto(n: nat, digits: string): nat
    requires AllDigits(digits)
    decreases |digits|
  {
    if digits == [] then n else Onto(10 * n + (digits[0] as int - '0' as int), digits[1..])
  }

  lemma {:induction false} ReadDigitsOnto(n: nat, digits: string, r: string)
    requires AllDigits(digits) && Ends(r)
    ensures ReadDigits(digits + r, n) == (Onto(n, digits), r)
    decreases |digits|
  {
    if digits == [] {
      assert digits + r == r;
    } else {
      assert (digits + r)[1..] == digits[1..] + r;
      ReadDigitsOnto(10 * n + (digits[0] as int - '0' as int), digits[1..], r);
    }
  }

  lemma {:induction false} OntoSnoc(n: nat, digits: string, c: char)
    requires AllDigits(digits) && IsDigit(c)
    ensures Onto(n, digits + [c]) == 10 * Onto(n, digits) + (c as int - '0' as int)
    decreases |digits|
  {
    if digits == [] {
      assert digits + [c] == [c] && [c][1..] == [];
    } else {
      assert (digits + [c])[1..] == digits[1..] + [c];
      OntoSnoc(10 * n + (digits[0] as int - '0' as int), digits[1..], c);
    }
  }

  lemma {:induction false} DecimalValue(n: nat)
    ensures AllDigits(Decimal(n)) && Onto(0, Decimal(n)) == n && (n > 0 ==> Decimal(n)[0] != '0')
  {
    if n < 10 {
      assert Decimal(n)[1..] == [];
    } else {
      DecimalValue(n / 10);
      OntoSnoc(0, Decimal(n / 10), Digit(n % 10));
    }
  }

  lemma ReadDecimal(n: nat, r: string)
    requires Ends(r)
    ensures ReadNat(Decimal(n) + r) == Some((n, r))
  {
    var d := Decimal(n);
    DecimalValue(n);
    assert (d + r)[0] == d[0] && (d + r)[1..] == d[1..] + r;
    if n == 0 {
      assert d[1..] + r == r;
    } else {
      ReadDigitsOnto(d[0] as int - '0' as int, d[1..], r);
    }
  }

  lemma ReadInt(n: int, r: string)
    requires Ends(r)
    ensures Read(IntText(n, r)) == Some((Int(n), r))
  {
    if n < 0 {
      ReadDecimal(-n, r);
      assert IntText(n, r)[1..] == Decimal(-n) + r;
    } else {
      ReadDecimal(n, r);
      assert IsDigit(IntText(n, r)[0]);
    }
  }

  lemma NoBracketFirst(v: Json, r: string)
    ensures Text(v, r) != [] && Text(v, r)[0] != ']'
  {
    if v.Int? && v.n >= 0 {
      assert IntText(v.n, r)[0] == Decimal(v.n)[0];
      DecimalValue(v.n);
    }
  }

  lemma ReadLiteral(v: Json, r: string)
    requires v.Null? || v.Bool?
    ensures Read(Text(v, r)) == Some((v, r))
  {
    var word := if v.Null? then "null" else if v.b then "true" else "false";
    assert (word + r)[|word|..] == r && word <= word + r;
  }

  lemma ReadStr(s: string, r: string)
    ensures Read(Text(Str(s), r)) == Some((Str(s), r))
  {
    CharsRoundTrip(s, r);
    assert Text(Str(s), r)[1..] == Escaped(s, r);
  }

  lemma ReadEmpty(r: string)
    ensures Read(Text(Arr(NoItems), r)) == Some((Arr(NoItems), r))
    ensures Read(Text(Obj(NoFields), r)) == Some((Obj(NoFields), r))
  {
    assert "[" + ("]" + r) == "[]" + r && "{" + ("}" + r) == "{}" + r;
    assert ("[]" + r)[2..] == r && ("{}" + r)[2..] == r;
  }

  lemma ReadBracket(body: string, xs: Items, r: string)
    requires body != [] && body[0] != ']' && ReadItems(body) == Some((xs, r))
    ensures Read("[" + body) == Some((Arr(xs), r))
  {
    var t := "[" + body;
    assert t[0] == '[' && t[1..] == body;
  }

  lemma ReadBrace(body: string, fs: Fields, r: string)
    requires body != [] && body[0] != '}' && ReadFields(body) == Some((fs, r))
    ensures Read("{" + body) == Some((Obj(fs), r))
  {
    var t := "{" + body;
    assert t[0] == '{' && t[1..] == body;
  }

  /** Reading the printed text of any tree gives the tree back and leaves the rest. */
  lemma {:induction false} RoundTrip(v: Json, r: string)
    requires Ends(r)
    ensures Read(Text(v, r)) == Some((v, r))
    decreases v, 0
  {
    if v.Null? || v.Bool? {
      ReadLiteral(v, r);
    } else if v.Int? {
      ReadInt(v.n, r);
    } else if v.Str? {
      ReadStr(v.s, r);
    } else if v == Arr(NoItems) || v == Obj(NoFields) {
      ReadEmpty(r);
    } else if v.Arr? {
      var xs, r' := v.items, "]" + r;
      ItemsRoundTrip(xs, r);
      NoBracketFirst(xs.head, if xs.tail.NoItems? then r' else "," + ItemsText(xs.tail, r'));
      ReadBracket(ItemsText(xs, r'), xs, r);
    } else {
      FieldsRoundTrip(v.fields, r);
      ReadBrace(FieldsText(v.fields, "}" + r), v.fields, r);
    }
  }

  lemma {:induction false} ItemsRoundTrip(xs: Items, r: string)
    requires xs.Item?
    ensures ReadItems(ItemsText(xs, "]" + r)) == Some((xs, r))
    decreases xs, 1
  {
    var r' := "]" + r;
    if xs.tail.NoItems? {
      RoundTrip(xs.head, r');
      assert r'[1..] == r;
    } else {
      var more := "," + ItemsText(xs.tail, r');
      RoundTrip(xs.head, more);
      assert more[1..] == ItemsText(xs.tail, r');
      ItemsRoundTrip(xs.tail, r);
    }
  }

  lemma {:induction false} FieldsRoundTrip(fs: Fields, r: string)
    requires fs.Field?
    ensures ReadFields(FieldsText(fs, "}" + r)) == Some((fs, r))
    decreases fs, 1
  {
    var r' := "}" + r;
    var after := if fs.rest.NoFields? then r' else "," + FieldsText(fs.rest, r');
    var body := ":" + Text(fs.val, after);
    var t := FieldsText(fs, r');
    assert t == Quoted(fs.key, body) && t[1..] == Escaped(fs.key, body);
    CharsRoundTrip(fs.key, body);
    assert body[1..] == Text(fs.val, after);
    RoundTrip(fs.val, after);
    if fs.rest.NoFields? {
      assert r'[1..] == r;
    } else {
      assert after[1..] == FieldsText(fs.rest, r');
      FieldsRoundTrip(fs.rest, r);
    }
  }

  /** Two values have the same canonical text exactly when they are equal up to key order. */
  lemma CanonicalIffEquiv(a: Json, b: Json)
    requires WellFormed(a) && WellFormed(b)
    ensures Canonicalize(a) == Canonicalize(b) <==> Equiv(a, b)
  {
    RoundTrip(Sorted(a), "");
    RoundTrip(Sorted(b), "");
    SortedIffEquiv(a, b);
  }

  // ------------------------------------------------------------------ order and escapes, spelled out

  /** The texts agree up to `k`; there `a` ends or has the smaller code. */
  predicate SmallerAt(a: string, b: string, k: nat) {
    k <= |a| && k < |b| && a[..k] == b[..k] && (k < |a| ==> a[k] as int < b[k] as int)
  }

  lemma {:induction false} LessDiffers(a: string, b: string) returns (k: nat)
    requires Less(a, b)
    ensures SmallerAt(a, b, k)
  {
    if a == [] || a[0] != b[0] {
      k := 0;
    } else {
      k := LessDiffers(a[1..], b[1..]);
      assert a[..k + 1] == [a[0]] + a[1..][..k] && b[..k + 1] == [b[0]] + b[1..][..k];
      k := k + 1;
    }
  }

  lemma {:induction false} SmallerIsLess(a: string, b: string, k: nat)
    requires SmallerAt(a, b, k)
    ensures Less(a, b)
  {
    if k > 0 {
      assert a[..k][0] == b[..k][0];
      assert a[1..][..k - 1] == a[..k][1..] && b[1..][..k - 1] == b[..k][1..];
      SmallerIsLess(a[1..], b[1..], k - 1);
    }
  }

  /** `a` comes before `b` in the order of code points. */
  ghost predicate Precedes(a: string, b: string) {
    exists k :: SmallerAt(a, b, k)
  }

  lemma LessIffPrecedes(a: string, b: string)
    ensures Less(a, b) <==> Precedes(a, b)
  {
    if Less(a, b) {
      var k := LessDiffers(a, b);
    } else if Precedes(a, b) {
      var k :| SmallerAt(a, b, k);
      SmallerIsLess(a, b, k);
    }
  }

  /** Keys in the order in which they are printed. */
  function KeyNames(fs: Fields): seq<string> {
    if fs.NoFields? then [] else [fs.key] + KeyNames(fs.rest)
  }

  lemma {:induction false} IncreasingNames(fs: Fields)
    requires Increasing(fs)
    ensures Elems(KeyNames(fs)) == Keys(fs)
    ensures forall i, j :: 0 <= i < j < |KeyNames(fs)| ==> Less(KeyNames(fs)[i], KeyNames(fs)[j])
  {
    if fs.Field? {
      var names := KeyNames(fs.rest);
      IncreasingNames(fs.rest);
      assert KeyNames(fs) == [fs.key] + names;
      forall j | 0 <= j < |names| ensures Less(fs.key, names[j]) {
        assert names[j] in Elems(names);
        HeadIsLeast(fs, names[j]);
      }
    }
  }

  /** The keys of an object are printed in the order of their code points, at every depth. */
  lemma PrintedKeysInOrder(fs: Fields)
    requires FieldsWellFormed(fs)
    ensures var names := KeyNames(SortedFields(fs));
            Elems(names) == Keys(fs) && forall i, j :: 0 <= i < j < |names| ==> Precedes(names[i], names[j])
  {
    var names := KeyNames(SortedFields(fs));
    SortedFieldsCorrect(fs);
    IncreasingNames(SortedFields(fs));
    forall i, j | 0 <= i < j < |names| ensures Precedes(names[i], names[j]) {
      LessIffPrecedes(names[i], names[j]);
    }
  }

  /** All characters but the double quote, the backslash and the controls below the space. */
  predicate PrintedAsIs(c: char) {
    c as int >= 32 && c as int != 34 && c as int != 92
  }

  /** Two characters for the quote, the backslash, backspace, tab, line feed, form feed and carriage
      return; six for the other controls. */
  lemma EscapeLengths(c: char)
    ensures EscapeChar(c) == [c] <==> PrintedAsIs(c)
    ensures |EscapeChar(c)| == if PrintedAsIs(c) then 1 else if c as int in {8, 9, 10, 12, 13, 34, 92} then 2 else 6
  {
  }

  lemma {:induction false} EscapedPlain(s: string, r: string)
    ensures |Escaped(s, r)| >= |s| + 1 + |r|
    ensures |Escaped(s, r)| == |s| + 1 + |r| <==> forall k :: 0 <= k < |s| ==> PrintedAsIs(s[k])
    ensures (forall k :: 0 <= k < |s| ==> PrintedAsIs(s[k])) ==> Escaped(s, r) == s + ("\"" + r)
  {
    if s != [] {
      EscapedPlain(s[1..], r);
      EscapeLengths(s[0]);
      assert s == [s[0]] + s[1..];
      assert (forall k :: 0 <= k < |s| ==> PrintedAsIs(s[k])) <==>
             PrintedAsIs(s[0]) && forall k :: 0 <= k < |s[1..]| ==> PrintedAsIs(s[1..][k]) by {
        assert forall k :: 0 < k < |s| ==> s[k] == s[1..][k - 1];
      }
    }
  }

  /** A text is printed unchanged between quotes exactly if none of its characters needs an escape. */
  lemma PrintedAsIsIff(s: string)
    ensures Canonicalize(Str(s)) == "\"" + (s + "\"") <==> forall k :: 0 <= k < |s| ==> PrintedAsIs(s[k])
  {
    EscapedPlain(s, "");
    assert "\"" + "" == "\"";
    assert |Canonicalize(Str(s))| == 1 + |Escaped(s, "")|;
  }
}
