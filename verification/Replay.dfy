/** The record/replay engine: `SimContext`, `@sim_trace`, `sim_capture` and `sim_db`.

    A run of an application is given as the tree of engine calls it made.  Recording keeps one
    shared stub list, cut back to a snapshot by every traced call, and one counter per key; the
    reference functions below read stubs, events and ordinals off the tree instead. */
module Replay {
  import opened Common
  import opened Canonical
  import opened FixturePaths
  import Sql = SqlNormalize

  // ------------------------------------------------------------------ calls

  datatype Outcome = Returned(v: Json) | Raised(error: string)

  /** Values are in serialised form.  A capture is guarded when its block does its work only if
      `cap.replaying` is false; a block that never calls `set_result` has result `Null`; `raised` is
      the exception the block lets through. */
  datatype Call =
    | Trace(qualname: string, args: Json, body: Calls, outcome: Outcome)
    | Capture(tag: string, guarded: bool, body: Calls, result: Json, raised: Option<string>)
    | Query(name: string, sql: string, params: Option<Json>, outcome: Outcome)

  datatype Calls = Done | Then(first: Call, rest: Calls)

  /** What the application asks for; the rest of a call is what happened. */
  datatype Op =
    | TraceOp(qualname: string, args: Json)
    | CaptureOp(tag: string)
    | QueryOp(name: string, sql: string, params: Option<Json>)

  function OpOf(c: Call): Op {
    match c
    case Trace(q, args, _, _) => TraceOp(q, args)
    case Capture(tag, _, _, _, _) => CaptureOp(tag)
    case Query(name, sql, params, _) => QueryOp(name, sql, params)
  }

  function OutcomeOf(c: Call): Outcome {
    match c
    case Capture(_, _, _, result, raised) => if raised.Some? then Raised(raised.value) else Returned(result)
    case Trace(_, _, _, outcome) => outcome
    case Query(_, _, _, outcome) => outcome
  }

  /** What is stored for a call: a traced call that raised stores None. */
  function StoredValue(c: Call): Json {
    match c
    case Capture(_, _, _, result, _) => result
    case Trace(_, _, _, outcome) => if outcome.Returned? then outcome.v else Null
    case Query(_, _, _, outcome) => if outcome.Returned? then outcome.v else Null
  }

  // ------------------------------------------------------------------ keys and paths

  /** SHA-256 as an unknown function of the text. */
  type Sha = string -> Hex

  function Fingerprint(v: Json, sha: Sha): Hex {
    sha(Canonicalize(v))
  }

  function TraceInput(qualname: string, args: Json): Json {
    Obj(Field("qualname", Str(qualname), Field("args", args, NoFields)))
  }

  function TraceFp(qualname: string, args: Json, sha: Sha): Hex {
    Fingerprint(TraceInput(qualname, args), sha)
  }

  function SqlFp(sql: string, sha: Sha): Hex {
    Fingerprint(Str(Sql.Normalized(sql)), sha)
  }

  /** No parameters count as the empty string. */
  function ParamsValue(params: Option<Json>): Json {
    if params.Some? then params.value else Str("")
  }

  function ParamsFp(params: Option<Json>, sha: Sha): Hex {
    Fingerprint(ParamsValue(params), sha)
  }

  /** The string under which ordinals are counted. */
  function Key(op: Op, sha: Sha): string {
    match op
    case TraceOp(q, args) => TraceFp(q, args, sha)
    case CaptureOp(tag) => "capture:" + tag
    case QueryOp(name, sql, params) =>
      "db:" + name + ":" + SqlFp(sql, sha)[..16] + ":" + ParamsFp(params, sha)[..16]
  }

  function Path(op: Op, ordinal: nat, sha: Sha): string {
    match op
    case TraceOp(q, args) => TracePath(q, TraceFp(q, args, sha), ordinal)
    case CaptureOp(tag) => CapturePath(tag, ordinal)
    case QueryOp(name, sql, params) => DbPath(name, SqlFp(sql, sha), ParamsFp(params, sha), ordinal)
  }

  type Ordinals = map<string, nat>

  function Next(ords: Ordinals, key: string): nat {
    if key in ords then ords[key] else 0
  }

  function Bump(ords: Ordinals, key: string): Ordinals {
    ords[key := Next(ords, key) + 1]
  }

  // ------------------------------------------------------------------ reference: recording

  datatype Stub =
    | TraceStub(qualname: string, args: Json, output: Json, replayed: bool)
    | CaptureStub(tag: string, ordinal: nat, result: Json, replayed: bool)
    | QueryStub(name: string, sql: string, ordinal: nat, result: Json, replayed: bool)

  datatype Event = Event(op: Op, ordinal: nat, output: Json, error: Option<string>, stubs: seq<Stub>)

  function CallKey(c: Call, sha: Sha): string {
    Key(OpOf(c), sha)
  }

  /** Counters after a call: its own ordinal is taken before its body runs. */
  function After(c: Call, ords: Ordinals, sha: Sha): Ordinals {
    var ords' := Bump(ords, CallKey(c, sha));
    if c.Query? then ords' else AfterAll(c.body, ords', sha)
  }

  function AfterAll(cs: Calls, ords: Ordinals, sha: Sha): Ordinals {
    match cs
    case Done => ords
    case Then(c, rest) => AfterAll(rest, After(c, ords, sha), sha)
  }

  function StubFor(op: Op, ordinal: nat, v: Json, replayed: bool): Stub {
    match op
    case TraceOp(q, args) => TraceStub(q, args, v, replayed)
    case CaptureOp(tag) => CaptureStub(tag, ordinal, v, replayed)
    case QueryOp(name, sql, _) => QueryStub(name, sql, ordinal, v, replayed)
  }

  /** A query that raised leaves no stub and no event. */
  predicate Leaves(c: Call) {
    c.Query? ==> c.outcome.Returned?
  }

  /** The stub a call leaves for the traced call around it. */
  function OwnStub(c: Call, ordinal: nat): seq<Stub> {
    if Leaves(c) then [StubFor(OpOf(c), ordinal, StoredValue(c), false)] else []
  }

  /** Stubs of a call in completion order.  The body of a capture belongs to the enclosing traced
      call, the body of a traced call does not; outside any traced call traces leave no stub. */
  function StubsOf(c: Call, ords: Ordinals, nested: bool, sha: Sha): seq<Stub> {
    var key := CallKey(c, sha);
    (if c.Capture? then Children(c.body, Bump(ords, key), nested, sha) else []) +
    (if c.Trace? && !nested then [] else OwnStub(c, Next(ords, key)))
  }

  function Children(cs: Calls, ords: Ordinals, nested: bool, sha: Sha): seq<Stub> {
    match cs
    case Done => []
    case Then(c, rest) => StubsOf(c, ords, nested, sha) + Children(rest, After(c, ords, sha), nested, sha)
  }

  function OwnEvent(c: Call, ords: Ordinals, sha: Sha): seq<Event> {
    var key := CallKey(c, sha);
    if Leaves(c) then
      [Event(OpOf(c), Next(ords, key), StoredValue(c),
             if c.Trace? && c.outcome.Raised? then Some(c.outcome.error) else None,
             if c.Trace? then Children(c.body, Bump(ords, key), true, sha) else [])]
    else []
  }

  /** Emitted events in post-order. */
  function Events(c: Call, ords: Ordinals, sha: Sha): seq<Event> {
    (if c.Query? then [] else EventsAll(c.body, Bump(ords, CallKey(c, sha)), sha)) + OwnEvent(c, ords, sha)
  }

  function EventsAll(cs: Calls, ords: Ordinals, sha: Sha): seq<Event> {
    match cs
    case Done => []
    case Then(c, rest) => Events(c, ords, sha) + EventsAll(rest, After(c, ords, sha), sha)
  }

  /** The keyed store that a sink builds from the events: later writes replace earlier ones. */
  function Store(log: seq<Event>, sha: Sha): map<string, Json> {
    if log == [] then map[]
    else
      var e := log[|log| - 1];
      Store(log[..|log| - 1], sha)[Path(e.op, e.ordinal, sha) := e.output]
  }

  // ------------------------------------------------------------------ reference: replay

  const WRITE_PREFIXES: seq<string> := ["INSERT", "UPDATE", "DELETE", "DROP", "ALTER", "TRUNCATE"]

  predicate Contains(s: string, w: string) {
    exists k :: 0 <= k <= |s| && w <= s[k..]
  }

  function IsWriteStatement(sql: string): bool {
    var s := Sql.Upper(Sql.Strip(sql));
    if "WITH" <= s then exists w :: w in WRITE_PREFIXES && Contains(s, w)
    else exists w :: w in WRITE_PREFIXES && w <= s
  }

  /** What the application gets back from a call in replay mode. */
  datatype Replayed = Answer(v: Json) | StubMiss | WriteBlocked

  /** The store's answer to an operation at an ordinal. */
  function ReplayAt(op: Op, ordinal: nat, store: map<string, Json>, sha: Sha): Replayed {
    if op.QueryOp? && IsWriteStatement(op.sql) then WriteBlocked
    else
      var path := Path(op, ordinal, sha);
      if path in store then Answer(store[path]) else StubMiss
  }

  /** No body and no database is consulted: only the counters and the store. */
  function ReplayOp(op: Op, ords: Ordinals, store: map<string, Json>, sha: Sha): Replayed {
    ReplayAt(op, Next(ords, Key(op, sha)), store, sha)
  }

  // ------------------------------------------------------------------ the context object

  lemma CutBack<T>(a: seq<T>, b: seq<T>)
    ensures (a + b)[|a|..] == b && (a + b)[..|a|] == a
  {
  }

  class SimContext {
    const sha: Sha
    var ordinals: Ordinals
    var stubs: seq<Stub>
    var depth: nat
    /** What the sink received. */
    var emitted: seq<Event>

    constructor (sha: Sha)
      ensures this.sha == sha && ordinals == map[] && stubs == [] && depth == 0 && emitted == []
    {
      this.sha := sha;
      ordinals, stubs, depth, emitted := map[], [], 0, [];
    }

    /** Ordinals of a key count up from 0 since the last reset. */
    method NextOrdinal(key: string) returns (current: nat)
      modifies this`ordinals
      ensures current == Next(old(ordinals), key) && ordinals == Bump(old(ordinals), key)
    {
      current := if key in ordinals then ordinals[key] else 0;
      ordinals := ordinals[key := current + 1];
    }

    method Reset()
      modifies this`ordinals, this`stubs, this`depth
      ensures ordinals == map[] && stubs == [] && depth == 0
    {
      ordinals, stubs, depth := map[], [], 0;
    }

    method EmitRecord(c: Call, ordinal: nat, inner: seq<Stub>)
      requires c.Trace?
      modifies this`emitted, this`stubs
      ensures emitted == old(emitted) +
                [Event(OpOf(c), ordinal, StoredValue(c), if c.outcome.Raised? then Some(c.outcome.error) else None, inner)]
      ensures stubs == old(stubs) + if depth > 0 then OwnStub(c, ordinal) else []
    {
      var output := if c.outcome.Returned? then c.outcome.v else Null;
      var error := if c.outcome.Raised? then Some(c.outcome.error) else None;
      emitted := emitted + [Event(OpOf(c), ordinal, output, error, inner)];
      if depth > 0 {
        stubs := stubs + [TraceStub(c.qualname, c.args, output, false)];
      }
    }

    /** `sync_wrapper` in record mode: whatever the body does to the shared list and the depth is
        undone, and the stubs it left are exactly its direct children. */
    method RecordTrace(c: Call)
      requires c.Trace?
      modifies this
      ensures depth == old(depth)
      ensures ordinals == After(c, old(ordinals), sha)
      ensures stubs == old(stubs) + StubsOf(c, old(ordinals), old(depth) > 0, sha)
      ensures emitted == old(emitted) + Events(c, old(ordinals), sha)
      decreases c, 0
    {
      var ordinal := NextOrdinal(CallKey(c, sha));
      depth := depth + 1;
      var snapshot := |stubs|;
      RecordBody(c.body);
      depth := depth - 1;
      CutBack(old(stubs), Children(c.body, Bump(old(ordinals), CallKey(c, sha)), true, sha));
      var inner := stubs[snapshot..];
      stubs := stubs[..snapshot];
      EmitRecord(c, ordinal, inner);
      Assoc(old(emitted), EventsAll(c.body, Bump(old(ordinals), CallKey(c, sha)), sha), OwnEvent(c, old(ordinals), sha));
    }

    /** `with sim_capture(tag)`: set-up, block, tear-down. */
    method RecordCapture(c: Call)
      requires c.Capture?
      modifies this
      ensures depth == old(depth)
      ensures ordinals == After(c, old(ordinals), sha)
      ensures stubs == old(stubs) + StubsOf(c, old(ordinals), old(depth) > 0, sha)
      ensures emitted == old(emitted) + Events(c, old(ordinals), sha)
      decreases c, 0
    {
      var ordinal := NextOrdinal("capture:" + c.tag);
      RecordBody(c.body);
      stubs := stubs + [CaptureStub(c.tag, ordinal, c.result, false)];
      emitted := emitted + [Event(CaptureOp(c.tag), ordinal, c.result, None, [])];
      ghost var ords := Bump(old(ordinals), CallKey(c, sha));
      Assoc(old(emitted), EventsAll(c.body, ords, sha), OwnEvent(c, old(ordinals), sha));
      Assoc(old(stubs), Children(c.body, ords, depth > 0, sha), OwnStub(c, ordinal));
    }

    /** `_record_call`: a query that raises leaves nothing but its used ordinal. */
    method RecordQuery(c: Call)
      requires c.Query?
      modifies this
      ensures depth == old(depth)
      ensures ordinals == After(c, old(ordinals), sha)
      ensures stubs == old(stubs) + StubsOf(c, old(ordinals), old(depth) > 0, sha)
      ensures emitted == old(emitted) + Events(c, old(ordinals), sha)
    {
      var ordinal := NextOrdinal(Key(QueryOp(c.name, c.sql, c.params), sha));
      if c.outcome.Returned? {
        emitted := emitted + [Event(QueryOp(c.name, c.sql, c.params), ordinal, c.outcome.v, None, [])];
        stubs := stubs + [QueryStub(c.name, c.sql, ordinal, c.outcome.v, false)];
      }
      assert [] + OwnEvent(c, old(ordinals), sha) == OwnEvent(c, old(ordinals), sha);
      assert [] + OwnStub(c, ordinal) == OwnStub(c, ordinal);
    }

    method RecordBody(cs: Calls)
      modifies this
      ensures depth == old(depth)
      ensures ordinals == AfterAll(cs, old(ordinals), sha)
      ensures stubs == old(stubs) + Children(cs, old(ordinals), old(depth) > 0, sha)
      ensures emitted == old(emitted) + EventsAll(cs, old(ordinals), sha)
      decreases cs, 1
    {
      if cs.Then? {
        var c := cs.first;
        match c {
          case Trace(_, _, _, _) => RecordTrace(c);
          case Capture(_, _, _, _, _) => RecordCapture(c);
          case Query(_, _, _, _) => RecordQuery(c);
        }
        ghost var ords := ordinals;
        RecordBody(cs.rest);
        Assoc(old(stubs), StubsOf(c, old(ordinals), depth > 0, sha), Children(cs.rest, ords, depth > 0, sha));
        Assoc(old(emitted), Events(c, old(ordinals), sha), EventsAll(cs.rest, ords, sha));
      }
    }

    /** A traced call or a query in replay mode. */
    method ReplayCall(op: Op, store: map<string, Json>) returns (r: Replayed)
      requires !op.CaptureOp?
      modifies this`ordinals, this`stubs
      ensures r == ReplayOp(op, old(ordinals), store, sha)
      ensures ordinals == Bump(old(ordinals), Key(op, sha))
      ensures stubs == old(stubs) + if r.Answer? && (op.TraceOp? ==> depth > 0)
                                    then [StubFor(op, Next(old(ordinals), Key(op, sha)), r.v, true)] else []
    {
      var ordinal := NextOrdinal(Key(op, sha));
      if op.QueryOp? && IsWriteStatement(op.sql) {
        return WriteBlocked;
      }
      var path := Path(op, ordinal, sha);
      if path !in store {
        return StubMiss;
      }
      r := Answer(store[path]);
      match op {
        case TraceOp(q, args) =>
          if depth > 0 {
            stubs := stubs + [TraceStub(q, args, store[path], true)];
          }
        case QueryOp(name, sql, _) => stubs := stubs + [QueryStub(name, sql, ordinal, store[path], true)];
      }
    }

    /** `sim_capture._setup` in replay mode: a miss raises, and the block is not entered. */
    method EnterCapture(tag: string, store: map<string, Json>) returns (ordinal: nat, r: Replayed)
      modifies this`ordinals
      ensures ordinal == Next(old(ordinals), Key(CaptureOp(tag), sha))
      ensures r == ReplayOp(CaptureOp(tag), old(ordinals), store, sha)
      ensures ordinals == Bump(old(ordinals), Key(CaptureOp(tag), sha))
    {
      ordinal := NextOrdinal("capture:" + tag);
      var path := CapturePath(tag, ordinal);
      r := if path in store then Answer(store[path]) else StubMiss;
    }

    /** `sim_capture._teardown` in replay mode: the stub follows those of an unguarded block. */
    method ExitCapture(tag: string, ordinal: nat, loaded: Json)
      modifies this`stubs
      ensures stubs == old(stubs) + [StubFor(CaptureOp(tag), ordinal, loaded, true)]
    {
      stubs := stubs + [CaptureStub(tag, ordinal, loaded, true)];
    }
  }
}
