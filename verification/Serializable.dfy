/** `_make_serializable` (sim_sdk/sim_sdk/trace.py) on a model of Python values. */
module Serializable {
  import C = Canonical
  import opened Common

  /** `PyFloat` and `PyOpaque` carry an identity only: what the code reads of a foreign object is
      its `isoformat`, its `float` or its `str`. */
  datatype Py =
    | PyNone
    | PyBool(b: bool)
    | PyInt(n: int)
    | PyFloat(f: int)
    | PyStr(s: string)
    | PyBytes(bytes: seq<byte>)
    | PyDict(entries: Entries)
    | PyList(elems: Elems)
    | PyTuple(elems: Elems)
    | PyOpaque(id: int, isoformat: Option<string>, float: Option<int>, text: string)

  datatype Entries = NoEntries | Entry(key: Py, val: Py, rest: Entries)

  datatype Elems = NoElems | Elem(head: Py, tail: Elems)

  function HexText(bytes: seq<byte>): string {
    if bytes == [] then []
    else [C.HexChar(bytes[0] as int / 16), C.HexChar(bytes[0] as int % 16)] + HexText(bytes[1..])
  }

  /** `d[k] = v`: an existing key keeps its place and takes the new value. */
  function Put(es: Entries, k: Py, v: Py): Entries {
    if es.NoEntries? then Entry(k, v, NoEntries)
    else if es.key == k then Entry(k, v, es.rest)
    else Entry(es.key, es.val, Put(es.rest, k, v))
  }

  /** `str` is Python's rendering of a key. */
  function MakeSerializable(v: Py, str: Py -> string): Py
    decreases v
  {
    match v
    case PyBytes(bytes) => PyStr(HexText(bytes))
    case PyDict(es) => PyDict(Entered(NoEntries, es, str))
    case PyList(xs) => PyList(Listed(xs, str))
    case PyTuple(xs) => PyList(Listed(xs, str))
    case PyOpaque(_, iso, f, text) =>
      if iso.Some? then PyStr(iso.value) else if f.Some? then PyFloat(f.value) else PyStr(text)
    case _ => v
  }

  /** The dict comprehension: `es` entered one by one after `done`. */
  function Entered(done: Entries, es: Entries, str: Py -> string): Entries
    decreases es
  {
    if es.NoEntries? then done
    else Entered(Put(done, PyStr(str(es.key)), MakeSerializable(es.val, str)), es.rest, str)
  }

  function Listed(xs: Elems, str: Py -> string): Elems
    decreases xs
  {
    if xs.NoElems? then xs else Elem(MakeSerializable(xs.head, str), Listed(xs.tail, str))
  }

  /** JSON-ready: only None, bool, int, float, str, lists and dicts with distinct string keys. */
  predicate Ready(v: Py) {
    match v
    case PyBytes(_) => false
    case PyTuple(_) => false
    case PyOpaque(_, _, _, _) => false
    case PyDict(es) => EntriesReady(es)
    case PyList(xs) => ElemsReady(xs)
    case _ => true
  }

  predicate HasKey(es: Entries, k: Py) {
    es.Entry? && (es.key == k || HasKey(es.rest, k))
  }

  predicate EntriesReady(es: Entries) {
    es.Entry? ==> es.key.PyStr? && !HasKey(es.rest, es.key) && Ready(es.val) && EntriesReady(es.rest)
  }

  predicate ElemsReady(xs: Elems) {
    xs.Elem? ==> Ready(xs.head) && ElemsReady(xs.tail)
  }

  lemma {:induction false} PutReady(es: Entries, k: Py, v: Py)
    requires EntriesReady(es) && k.PyStr? && Ready(v)
    ensures EntriesReady(Put(es, k, v))
    ensures forall j :: HasKey(Put(es, k, v), j) <==> HasKey(es, j) || j == k
  {
    if es.Entry? && es.key != k {
      PutReady(es.rest, k, v);
    }
  }

  /** The result is always JSON-ready. */
  lemma {:induction false} ResultReady(v: Py, str: Py -> string)
    ensures Ready(MakeSerializable(v, str))
    decreases v
  {
    if v.PyDict? {
      EnteredReady(NoEntries, v.entries, str);
    } else if v.PyList? || v.PyTuple? {
      ListedReady(v.elems, str);
    }
  }

  lemma {:induction false} EnteredReady(done: Entries, es: Entries, str: Py -> string)
    requires EntriesReady(done)
    ensures EntriesReady(Entered(done, es, str))
    decreases es
  {
    if es.Entry? {
      ResultReady(es.val, str);
      PutReady(done, PyStr(str(es.key)), MakeSerializable(es.val, str));
      EnteredReady(Put(done, PyStr(str(es.key)), MakeSerializable(es.val, str)), es.rest, str);
    }
  }

  lemma {:induction false} ListedReady(xs: Elems, str: Py -> string)
    ensures ElemsReady(Listed(xs, str))
    decreases xs
  {
    if xs.Elem? {
      ResultReady(xs.head, str);
      ListedReady(xs.tail, str);
    }
  }

  function Append(es: Entries, fs: Entries): Entries {
    if es.NoEntries? then fs else Entry(es.key, es.val, Append(es.rest, fs))
  }

  lemma {:induction false} PutNew(es: Entries, k: Py, v: Py, fs: Entries)
    requires !HasKey(es, k)
    ensures Append(Put(es, k, v), fs) == Append(es, Entry(k, v, fs))
    ensures forall j :: HasKey(Put(es, k, v), j) <==> HasKey(es, j) || j == k
  {
    if es.Entry? {
      PutNew(es.rest, k, v, fs);
    }
  }

  /** JSON-ready values are left alone, given that Python's `str` leaves strings alone. */
  lemma {:induction false} ReadyFixed(v: Py, str: Py -> string)
    requires Ready(v) && (forall s :: str(PyStr(s)) == s)
    ensures MakeSerializable(v, str) == v
    decreases v
  {
    if v.PyDict? {
      EntriesFixed(NoEntries, v.entries, str);
    } else if v.PyList? {
      ElemsFixed(v.elems, str);
    }
  }

  lemma {:induction false} EntriesFixed(done: Entries, es: Entries, str: Py -> string)
    requires EntriesReady(es) && (forall s :: str(PyStr(s)) == s)
    requires forall k :: HasKey(es, k) ==> !HasKey(done, k)
    ensures Entered(done, es, str) == Append(done, es)
    decreases es
  {
    if es.Entry? {
      ReadyFixed(es.val, str);
      assert HasKey(es, es.key);
      PutNew(done, es.key, es.val, es.rest);
      assert forall k :: HasKey(es.rest, k) ==> HasKey(es, k);
      EntriesFixed(Put(done, es.key, es.val), es.rest, str);
    } else {
      AppendNothing(done);
    }
  }

  lemma {:induction false} AppendNothing(es: Entries)
    ensures Append(es, NoEntries) == es
  {
    if es.Entry? {
      AppendNothing(es.rest);
    }
  }

  lemma {:induction false} ElemsFixed(xs: Elems, str: Py -> string)
    requires ElemsReady(xs) && (forall s :: str(PyStr(s)) == s)
    ensures Listed(xs, str) == xs
    decreases xs
  {
    if xs.Elem? {
      ReadyFixed(xs.head, str);
      ElemsFixed(xs.tail, str);
    }
  }

  /** Serialising twice is serialising once. */
  lemma SerializableIdempotent(v: Py, str: Py -> string)
    requires forall s :: str(PyStr(s)) == s
    ensures MakeSerializable(MakeSerializable(v, str), str) == MakeSerializable(v, str)
  {
    ResultReady(v, str);
    ReadyFixed(MakeSerializable(v, str), str);
  }

  // ------------------------------------------------------------------ the trees of Canonical

  function Embed(v: C.Json): Py {
    match v
    case Null => PyNone
    case Bool(b) => PyBool(b)
    case Int(n) => PyInt(n)
    case Str(s) => PyStr(s)
    case Arr(xs) => PyList(EmbedItems(xs))
    case Obj(fs) => PyDict(EmbedFields(fs))
  }

  function EmbedItems(xs: C.Items): Elems {
    if xs.NoItems? then NoElems else Elem(Embed(xs.head), EmbedItems(xs.tail))
  }

  function EmbedFields(fs: C.Fields): Entries {
    if fs.NoFields? then NoEntries else Entry(PyStr(fs.key), Embed(fs.val), EmbedFields(fs.rest))
  }

  lemma {:induction false} EmbedReady(v: C.Json)
    requires C.WellFormed(v)
    ensures Ready(Embed(v))
  {
    if v.Arr? {
      EmbedItemsReady(v.items);
    } else if v.Obj? {
      EmbedFieldsReady(v.fields);
    }
  }

  lemma {:induction false} EmbedItemsReady(xs: C.Items)
    requires C.ItemsWellFormed(xs)
    ensures ElemsReady(EmbedItems(xs))
  {
    if xs.Item? {
      EmbedReady(xs.head);
      EmbedItemsReady(xs.tail);
    }
  }

  lemma {:induction false} EmbedFieldsReady(fs: C.Fields)
    requires C.FieldsWellFormed(fs)
    ensures EntriesReady(EmbedFields(fs))
    ensures forall k :: HasKey(EmbedFields(fs), PyStr(k)) <==> k in C.Keys(fs)
  {
    if fs.Field? {
      EmbedReady(fs.val);
      EmbedFieldsReady(fs.rest);
    }
  }

  /** The trees with canonical text are fixed points. */
  lemma JsonTreesFixed(v: C.Json, str: Py -> string)
    requires C.WellFormed(v) && (forall s :: str(PyStr(s)) == s)
    ensures MakeSerializable(Embed(v), str) == Embed(v)
  {
    EmbedReady(v);
    ReadyFixed(Embed(v), str);
  }

  // ------------------------------------------------------------------ what becomes of each kind of value

  /** Two hexadecimal digits make a byte. */
  function ReadHex(s: string): Option<seq<byte>> {
    if s == [] then Some([])
    else if |s| == 1 then None
    else
      var a, b, rest := C.HexValue(s[0]), C.HexValue(s[1]), ReadHex(s[2..]);
      if a == None || b == None || rest == None then None
      else Some([(16 * a.value + b.value) as byte] + rest.value)
  }

  lemma {:induction false} HexReadsBack(bytes: seq<byte>)
    ensures ReadHex(HexText(bytes)) == Some(bytes) && |HexText(bytes)| == 2 * |bytes|
  {
    if bytes != [] {
      var n, t := bytes[0] as int, HexText(bytes);
      HexReadsBack(bytes[1..]);
      C.HexCharReads(n / 16);
      C.HexCharReads(n % 16);
      assert t[2..] == HexText(bytes[1..]);
      assert (16 * (n / 16) + n % 16) as byte == bytes[0];
      assert [bytes[0]] + bytes[1..] == bytes;
    }
  }

  /** Bytes become their hexadecimal text, from which they can be read back. */
  lemma BytesReadBack(bytes: seq<byte>, str: Py -> string)
    ensures var r := MakeSerializable(PyBytes(bytes), str);
            r.PyStr? && |r.s| == 2 * |bytes| && ReadHex(r.s) == Some(bytes)
  {
    HexReadsBack(bytes);
  }

  /** Of a foreign object the text of its time is kept, else its number, else its plain text. */
  lemma ForeignObjects(id: int, time: string, number: int, text: string, str: Py -> string)
    ensures forall f :: MakeSerializable(PyOpaque(id, Some(time), f, text), str) == PyStr(time)
    ensures MakeSerializable(PyOpaque(id, None, Some(number), text), str) == PyFloat(number)
    ensures MakeSerializable(PyOpaque(id, None, None, text), str) == PyStr(text)
  {
  }

  function Items(xs: Elems): seq<Py> {
    if xs.NoElems? then [] else [xs.head] + Items(xs.tail)
  }

  lemma {:induction false} ListedItems(xs: Elems, str: Py -> string)
    ensures |Items(Listed(xs, str))| == |Items(xs)|
    ensures forall k :: 0 <= k < |Items(xs)| ==> Items(Listed(xs, str))[k] == MakeSerializable(Items(xs)[k], str)
  {
    if xs.Elem? {
      ListedItems(xs.tail, str);
    }
  }

  /** Lists and tuples become lists of the same length, element by element. */
  lemma SequencesBecomeLists(xs: Elems, str: Py -> string)
    ensures MakeSerializable(PyTuple(xs), str) == MakeSerializable(PyList(xs), str)
    ensures var r := MakeSerializable(PyTuple(xs), str);
            && r.PyList? && |Items(r.elems)| == |Items(xs)|
            && forall k :: 0 <= k < |Items(xs)| ==> Items(r.elems)[k] == MakeSerializable(Items(xs)[k], str)
  {
    ListedItems(xs, str);
  }

  function Lookup(es: Entries, s: string): Option<Py> {
    if es.NoEntries? then None else if es.key == PyStr(s) then Some(es.val) else Lookup(es.rest, s)
  }

  function KeyList(es: Entries): seq<Py> {
    if es.NoEntries? then [] else [es.key] + KeyList(es.rest)
  }

  /** The value of the last entry whose key is written `s`. */
  function LastValue(es: Entries, s: string, str: Py -> string): Option<Py> {
    if es.NoEntries? then None
    else
      var later := LastValue(es.rest, s, str);
      if later.Some? then later else if str(es.key) == s then Some(es.val) else None
  }

  /** The written keys in the order of their first occurrence, after those in `seen`. */
  function FirstKeys(seen: seq<Py>, es: Entries, str: Py -> string): seq<Py>
    decreases es
  {
    if es.NoEntries? then seen
    else
      var k := PyStr(str(es.key));
      FirstKeys(if k in seen then seen else seen + [k], es.rest, str)
  }

  lemma {:induction false} PutLookup(es: Entries, k: string, v: Py, j: string)
    ensures Lookup(Put(es, PyStr(k), v), j) == if j == k then Some(v) else Lookup(es, j)
  {
    if es.Entry? && es.key != PyStr(k) {
      PutLookup(es.rest, k, v, j);
    }
  }

  lemma {:induction false} PutKeys(es: Entries, k: Py, v: Py)
    ensures KeyList(Put(es, k, v)) == if k in KeyList(es) then KeyList(es) else KeyList(es) + [k]
  {
    if es.Entry? && es.key != k {
      PutKeys(es.rest, k, v);
    }
  }

  lemma {:induction false} EnteredHolds(done: Entries, es: Entries, s: string, str: Py -> string)
    ensures var last := LastValue(es, s, str);
            Lookup(Entered(done, es, str), s) ==
            if last.Some? then Some(MakeSerializable(last.value, str)) else Lookup(done, s)
    decreases es
  {
    if es.Entry? {
      var k, v := PyStr(str(es.key)), MakeSerializable(es.val, str);
      EnteredHolds(Put(done, k, v), es.rest, s, str);
      PutLookup(done, str(es.key), v, s);
    }
  }

  lemma {:induction false} EnteredKeys(done: Entries, es: Entries, str: Py -> string)
    ensures KeyList(Entered(done, es, str)) == FirstKeys(KeyList(done), es, str)
    decreases es
  {
    if es.Entry? {
      var k, v := PyStr(str(es.key)), MakeSerializable(es.val, str);
      EnteredKeys(Put(done, k, v), es.rest, str);
      PutKeys(done, k, v);
    }
  }

  /** A dict keeps one entry for each written key: at the place of its first occurrence, with the value
      of its last. */
  lemma DictsByWrittenKey(es: Entries, str: Py -> string)
    ensures var r := MakeSerializable(PyDict(es), str);
            && r.PyDict? && KeyList(r.entries) == FirstKeys([], es, str)
            && forall s: string ::
                 var last := LastValue(es, s, str);
                 Lookup(r.entries, s) == if last.Some? then Some(MakeSerializable(last.value, str)) else None
  {
    EnteredKeys(NoEntries, es, str);
    forall s: string
      ensures var last := LastValue(es, s, str);
              Lookup(Entered(NoEntries, es, str), s) ==
              if last.Some? then Some(MakeSerializable(last.value, str)) else None
    {
      EnteredHolds(NoEntries, es, s, str);
    }
  }
}
