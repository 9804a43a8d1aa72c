/** Relative paths of recorded fixtures (`_fixture_key`, `_capture_key`, `_db_fixture_key`). */
module FixturePaths {

  function Digit(d: nat): char
    requires d < 10
  {
    '0' + d as char
  }

  /** Decimal numeral of `n`, as Python formats a non-negative int. */
  function Decimal(n: nat): (s: string)
    ensures s != [] && forall c :: c in s ==> '0' <= c <= '9'
    ensures |s| == 1 <==> n < 10
  {
    if n < 10 then [Digit(n)] else Decimal(n / 10) + [Digit(n % 10)]
  }

  lemma {:induction false} DecimalInjective(m: nat, n: nat)
    requires Decimal(m) == Decimal(n)
    ensures m == n
  {
    var a, b := Decimal(m), Decimal(n);
    assert a[|a| - 1] == b[|b| - 1] && a[..|a| - 1] == b[..|b| - 1];
    if m >= 10 && n >= 10 {
      assert a[..|a| - 1] == Decimal(m / 10) && b[..|b| - 1] == Decimal(n / 10);
      DecimalInjective(m / 10, n / 10);
    }
  }

  predicate HexDigit(c: char) {
    '0' <= c <= '9' || 'a' <= c <= 'f'
  }

  /** A SHA-256 digest in hexadecimal. */
  type Hex = s: string | |s| == 64 && forall c :: c in s ==> HexDigit(c)
    witness seq(64, _ => '0')

  /** `.`, `/` and space become `_`. */
  function SafeName(name: string): (s: string)
    ensures |s| == |name|
    ensures forall k :: 0 <= k < |s| ==>
              s[k] == if name[k] == '.' || name[k] == '/' || name[k] == ' ' then '_' else name[k]
  {
    if name == [] then []
    else
      var c := name[0];
      [if c == '.' || c == '/' || c == ' ' then '_' else c] + SafeName(name[1..])
  }

  /** `.` becomes `_`; `<` and `>` disappear. */
  function SafeQualname(name: string): string {
    if name == [] then []
    else
      var rest := SafeQualname(name[1..]);
      if name[0] == '.' then ['_'] + rest
      else if name[0] == '<' || name[0] == '>' then rest
      else [name[0]] + rest
  }

  function Numbered(stem: string, ordinal: nat): string {
    stem + "_" + Decimal(ordinal) + ".json"
  }

  function TracePath(qualname: string, fp: Hex, ordinal: nat): string {
    SafeQualname(qualname) + "/" + Numbered(fp[..16], ordinal)
  }

  function CapturePath(tag: string, ordinal: nat): string {
    "__capture__/" + Numbered(SafeName(tag), ordinal)
  }

  function DbStem(name: string, sqlFp: Hex, paramsFp: Hex): string {
    SafeName(name) + "_" + sqlFp[..8] + "_" + paramsFp[..8]
  }

  function DbPath(name: string, sqlFp: Hex, paramsFp: Hex, ordinal: nat): string {
    "__db__/" + Numbered(DbStem(name, sqlFp, paramsFp), ordinal)
  }

  // ------------------------------------------------------------------ decoding

  /** A string splits in one way only at the last occurrence of a separator. */
  lemma SplitLast(a: string, b: string, c: string, d: string, sep: char)
    requires a + [sep] + b == c + [sep] + d
    requires sep !in b && sep !in d
    ensures a == c && b == d
  {
    var s := a + [sep] + b;
    assert s[|a|] == sep && s[|c|] == sep;
    assert forall k :: |a| < k < |s| ==> s[k] == b[k - |a| - 1];
    assert forall k :: |c| < k < |s| ==> s[k] == d[k - |c| - 1];
    assert b == s[|a| + 1..] && d == s[|c| + 1..];
    assert a == s[..|a|] && c == s[..|c|];
  }

  lemma NumberedDecodes(s: string, m: nat, t: string, n: nat)
    ensures Numbered(s, m) == Numbered(t, n) <==> s == t && m == n
  {
    if Numbered(s, m) == Numbered(t, n) {
      var x, y := Numbered(s, m), Numbered(t, n);
      var k := |x| - 5;
      assert x[..k] == s + "_" + Decimal(m) && y[..k] == t + "_" + Decimal(n);
      SplitLast(s, Decimal(m), t, Decimal(n), '_');
      DecimalInjective(m, n);
    }
  }

  lemma PrefixCancels(p: string, a: string, b: string)
    ensures p + a == p + b <==> a == b
  {
    assert (p + a)[|p|..] == a && (p + b)[|p|..] == b;
  }

  lemma CapturePathDecodes(l: string, m: nat, k: string, n: nat)
    ensures CapturePath(l, m) == CapturePath(k, n) <==> SafeName(l) == SafeName(k) && m == n
  {
    PrefixCancels("__capture__/", Numbered(SafeName(l), m), Numbered(SafeName(k), n));
    NumberedDecodes(SafeName(l), m, SafeName(k), n);
  }

  lemma DbStemDecodes(l: string, s: Hex, p: Hex, k: string, t: Hex, q: Hex)
    ensures DbStem(l, s, p) == DbStem(k, t, q) <==>
              SafeName(l) == SafeName(k) && s[..8] == t[..8] && p[..8] == q[..8]
  {
    if DbStem(l, s, p) == DbStem(k, t, q) {
      SplitLast(SafeName(l) + "_" + s[..8], p[..8], SafeName(k) + "_" + t[..8], q[..8], '_');
      SplitLast(SafeName(l), s[..8], SafeName(k), t[..8], '_');
    }
  }

  lemma DbPathDecodes(l: string, s: Hex, p: Hex, m: nat, k: string, t: Hex, q: Hex, n: nat)
    ensures DbPath(l, s, p, m) == DbPath(k, t, q, n) <==>
              SafeName(l) == SafeName(k) && s[..8] == t[..8] && p[..8] == q[..8] && m == n
  {
    PrefixCancels("__db__/", Numbered(DbStem(l, s, p), m), Numbered(DbStem(k, t, q), n));
    NumberedDecodes(DbStem(l, s, p), m, DbStem(k, t, q), n);
    DbStemDecodes(l, s, p, k, t, q);
  }

  lemma TracePathDecodes(q: string, f: Hex, m: nat, r: string, g: Hex, n: nat)
    ensures TracePath(q, f, m) == TracePath(r, g, n) <==>
              SafeQualname(q) == SafeQualname(r) && f[..16] == g[..16] && m == n
  {
    if TracePath(q, f, m) == TracePath(r, g, n) {
      SplitLast(SafeQualname(q), Numbered(f[..16], m), SafeQualname(r), Numbered(g[..16], n), '/');
      NumberedDecodes(f[..16], m, g[..16], n);
    }
  }

  lemma CaptureIsNotDb(l: string, m: nat, k: string, s: Hex, p: Hex, n: nat)
    ensures CapturePath(l, m) != DbPath(k, s, p, n)
  {
    assert CapturePath(l, m)[2] == 'c' && DbPath(k, s, p, n)[2] == 'd';
  }

  /** A traced function named `__capture__` shares its directory with captures: the paths meet
      exactly when the label is spelled like the fingerprint. */
  lemma TraceMeetsCapture(q: string, f: Hex, m: nat, l: string, n: nat)
    ensures TracePath(q, f, m) == CapturePath(l, n) <==>
              SafeQualname(q) == "__capture__" && SafeName(l) == f[..16] && m == n
  {
    assert CapturePath(l, n) == "__capture__" + "/" + Numbered(SafeName(l), n);
    NumberedDecodes(f[..16], m, SafeName(l), n);
    if TracePath(q, f, m) == CapturePath(l, n) {
      SplitLast(SafeQualname(q), Numbered(f[..16], m), "__capture__", Numbered(SafeName(l), n), '/');
    }
  }

  /** A trace path never meets a query path: the latter has more underscores after the slash. */
  lemma TraceIsNotDb(q: string, f: Hex, m: nat, k: string, s: Hex, p: Hex, n: nat)
    ensures TracePath(q, f, m) != DbPath(k, s, p, n)
  {
    var stem := DbStem(k, s, p);
    assert stem[|SafeName(k)|] == '_' && '_' !in f[..16];
    assert DbPath(k, s, p, n) == "__db__" + "/" + Numbered(stem, n);
    if TracePath(q, f, m) == DbPath(k, s, p, n) {
      SplitLast(SafeQualname(q), Numbered(f[..16], m), "__db__", Numbered(stem, n), '/');
      NumberedDecodes(f[..16], m, stem, n);
    }
  }
}
