/** Replaying a recorded run: which ordinals replay asks for, which fixtures it finds there, and what
    an application that reacts to the answers gets to see. */
module ReplayCorrect {
  import opened Common
  import opened Canonical
  import opened FixturePaths
  import opened Replay

  /** A call and the ordinal it was given. */
  datatype Slot = Slot(call: Call, ordinal: nat)

  function SlotKey(s: Slot, sha: Sha): string {
    CallKey(s.call, sha)
  }

  function SlotPath(s: Slot, sha: Sha): string {
    Path(OpOf(s.call), s.ordinal, sha)
  }

  /** Every call of a run with its recorded ordinal, in post-order. */
  function Slots(c: Call, ords: Ordinals, sha: Sha): seq<Slot> {
    var key := CallKey(c, sha);
    (if c.Query? then [] else SlotsAll(c.body, Bump(ords, key), sha)) + [Slot(c, Next(ords, key))]
  }

  function SlotsAll(cs: Calls, ords: Ordinals, sha: Sha): seq<Slot> {
    match cs
    case Done => []
    case Then(c, rest) => Slots(c, ords, sha) + SlotsAll(rest, After(c, ords, sha), sha)
  }

  /** The calls of a whole run, recorded from a fresh context. */
  function RunSlots(cs: Calls, sha: Sha): seq<Slot> {
    SlotsAll(cs, map[], sha)
  }

  /** The store that recording leaves. */
  function Recording(cs: Calls, sha: Sha): map<string, Json> {
    Store(EventsAll(cs, map[], sha), sha)
  }

  // ------------------------------------------------------------------ numbering

  ghost predicate Within(slots: seq<Slot>, lo: Ordinals, hi: Ordinals, sha: Sha) {
    forall s :: s in slots ==> Next(lo, SlotKey(s, sha)) <= s.ordinal < Next(hi, SlotKey(s, sha))
  }

  ghost predicate Numbered(slots: seq<Slot>, lo: Ordinals, hi: Ordinals, sha: Sha) {
    && (forall key :: Next(lo, key) <= Next(hi, key))
    && Within(slots, lo, hi, sha)
    && forall i, j :: 0 <= i < j < |slots| && SlotKey(slots[i], sha) == SlotKey(slots[j], sha) ==>
                        slots[i].ordinal != slots[j].ordinal
  }

  lemma NumberedAppend(a: seq<Slot>, b: seq<Slot>, lo: Ordinals, mid: Ordinals, hi: Ordinals, sha: Sha)
    requires Numbered(a, lo, mid, sha) && Numbered(b, mid, hi, sha)
    ensures Numbered(a + b, lo, hi, sha)
  {
    forall i, j | 0 <= i < j < |a + b| && SlotKey((a + b)[i], sha) == SlotKey((a + b)[j], sha)
      ensures (a + b)[i].ordinal != (a + b)[j].ordinal
    {
      assert i < |a| ==> a[i] in a;
      assert j >= |a| ==> b[j - |a|] in b;
    }
  }

  /** A call's own ordinal is below all those its body is given. */
  lemma OwnNumbered(inner: seq<Slot>, c: Call, ords: Ordinals, hi: Ordinals, sha: Sha)
    requires Numbered(inner, Bump(ords, CallKey(c, sha)), hi, sha)
    ensures Numbered(inner + [Slot(c, Next(ords, CallKey(c, sha)))], ords, hi, sha)
  {
    var own := Slot(c, Next(ords, CallKey(c, sha)));
    var all := inner + [own];
    forall key ensures Next(ords, key) <= Next(hi, key) {
      assert Next(ords, key) <= Next(Bump(ords, CallKey(c, sha)), key) <= Next(hi, key);
    }
    forall s | s in all ensures Next(ords, SlotKey(s, sha)) <= s.ordinal < Next(hi, SlotKey(s, sha)) {
      assert s in inner || s == own;
    }
    forall i, j | 0 <= i < j < |all| && SlotKey(all[i], sha) == SlotKey(all[j], sha)
      ensures all[i].ordinal != all[j].ordinal
    {
      assert all[i] == inner[i] && inner[i] in inner;
    }
  }

  lemma {:induction false} CallNumbered(c: Call, ords: Ordinals, sha: Sha)
    ensures Numbered(Slots(c, ords, sha), ords, After(c, ords, sha), sha)
    decreases c, 0
  {
    var ords' := Bump(ords, CallKey(c, sha));
    if c.Query? {
      OwnNumbered([], c, ords, ords', sha);
    } else {
      SlotsNumbered(c.body, ords', sha);
      OwnNumbered(SlotsAll(c.body, ords', sha), c, ords, AfterAll(c.body, ords', sha), sha);
    }
  }

  /** No two calls of a run share key and ordinal. */
  lemma {:induction false} SlotsNumbered(cs: Calls, ords: Ordinals, sha: Sha)
    ensures Numbered(SlotsAll(cs, ords, sha), ords, AfterAll(cs, ords, sha), sha)
    decreases cs, 1
  {
    if cs.Then? {
      var mid := After(cs.first, ords, sha);
      CallNumbered(cs.first, ords, sha);
      SlotsNumbered(cs.rest, mid, sha);
      NumberedAppend(Slots(cs.first, ords, sha), SlotsAll(cs.rest, mid, sha), ords, mid, AfterAll(cs, ords, sha), sha);
    }
  }

  // ------------------------------------------------------------------ distinct paths

  /** Two operations whose fixtures land in the same file whenever their ordinals agree. */
  predicate Meet(a: Op, b: Op, sha: Sha) {
    match (a, b)
    case (TraceOp(q, x), TraceOp(r, y)) =>
      SafeQualname(q) == SafeQualname(r) && TraceFp(q, x, sha)[..16] == TraceFp(r, y, sha)[..16]
    case (CaptureOp(l), CaptureOp(k)) => SafeName(l) == SafeName(k)
    case (QueryOp(l, s, p), QueryOp(k, t, q)) =>
      && SafeName(l) == SafeName(k)
      && SqlFp(s, sha)[..8] == SqlFp(t, sha)[..8] && ParamsFp(p, sha)[..8] == ParamsFp(q, sha)[..8]
    case (TraceOp(q, x), CaptureOp(l)) => SafeQualname(q) == "__capture__" && SafeName(l) == TraceFp(q, x, sha)[..16]
    case (CaptureOp(l), TraceOp(q, x)) => SafeQualname(q) == "__capture__" && SafeName(l) == TraceFp(q, x, sha)[..16]
    case (QueryOp(_, _, _), _) => false
    case (_, QueryOp(_, _, _)) => false
  }

  lemma TracePathMeets(q: string, x: Json, m: nat, b: Op, n: nat, sha: Sha)
    ensures Path(TraceOp(q, x), m, sha) == Path(b, n, sha) <==> m == n && Meet(TraceOp(q, x), b, sha)
  {
    var fp := TraceFp(q, x, sha);
    match b
    case TraceOp(r, y) => TracePathDecodes(q, fp, m, r, TraceFp(r, y, sha), n);
    case CaptureOp(l) => TraceMeetsCapture(q, fp, m, l, n);
    case QueryOp(k, t, p) => TraceIsNotDb(q, fp, m, k, SqlFp(t, sha), ParamsFp(p, sha), n);
  }

  lemma CapturePathMeets(l: string, m: nat, b: Op, n: nat, sha: Sha)
    ensures Path(CaptureOp(l), m, sha) == Path(b, n, sha) <==> m == n && Meet(CaptureOp(l), b, sha)
  {
    match b
    case TraceOp(q, x) => TraceMeetsCapture(q, TraceFp(q, x, sha), n, l, m);
    case CaptureOp(k) => CapturePathDecodes(l, m, k, n);
    case QueryOp(k, t, p) => CaptureIsNotDb(l, m, k, SqlFp(t, sha), ParamsFp(p, sha), n);
  }

  lemma QueryPathMeets(l: string, s: string, p: Option<Json>, m: nat, b: Op, n: nat, sha: Sha)
    ensures Path(QueryOp(l, s, p), m, sha) == Path(b, n, sha) <==> m == n && Meet(QueryOp(l, s, p), b, sha)
  {
    var sf, pf := SqlFp(s, sha), ParamsFp(p, sha);
    match b
    case TraceOp(q, x) => TraceIsNotDb(q, TraceFp(q, x, sha), n, l, sf, pf, m);
    case CaptureOp(k) => CaptureIsNotDb(k, n, l, sf, pf, m);
    case QueryOp(k, t, q) => DbPathDecodes(l, sf, pf, m, k, SqlFp(t, sha), ParamsFp(q, sha), n);
  }

  lemma PathsMeet(a: Op, m: nat, b: Op, n: nat, sha: Sha)
    ensures Path(a, m, sha) == Path(b, n, sha) <==> m == n && Meet(a, b, sha)
  {
    match a
    case TraceOp(q, x) => TracePathMeets(q, x, m, b, n, sha);
    case CaptureOp(l) => CapturePathMeets(l, m, b, n, sha);
    case QueryOp(l, s, p) => QueryPathMeets(l, s, p, m, b, n, sha);
  }

  /** The hypothesis on names and fingerprint prefixes: calls with different keys never meet. */
  ghost predicate Separate(slots: seq<Slot>, sha: Sha) {
    forall s, t :: s in slots && t in slots && SlotKey(s, sha) != SlotKey(t, sha) ==>
                     !Meet(OpOf(s.call), OpOf(t.call), sha)
  }

  /** No fixture of a run overwrites another one. */
  lemma NoOverwrite(cs: Calls, sha: Sha)
    requires Separate(RunSlots(cs, sha), sha)
    ensures var slots := RunSlots(cs, sha);
            forall i, j :: 0 <= i < j < |slots| ==> SlotPath(slots[i], sha) != SlotPath(slots[j], sha)
  {
    var slots := RunSlots(cs, sha);
    SlotsNumbered(cs, map[], sha);
    forall i, j | 0 <= i < j < |slots| ensures SlotPath(slots[i], sha) != SlotPath(slots[j], sha) {
      PathsMeet(OpOf(slots[i].call), slots[i].ordinal, OpOf(slots[j].call), slots[j].ordinal, sha);
      assert slots[i] in slots && slots[j] in slots;
    }
  }

  // ------------------------------------------------------------------ what the store answers

  /** Replay's view of a recorded call. */
  function View(c: Call): Replayed {
    if c.Query? && IsWriteStatement(c.sql) then WriteBlocked
    else if Leaves(c) then Answer(StoredValue(c))
    else StubMiss
  }

  /** An event is the trace of a slot. */
  predicate Logs(e: Event, s: Slot) {
    Leaves(s.call) && e.op == OpOf(s.call) && e.ordinal == s.ordinal && e.output == StoredValue(s.call)
  }

  ghost predicate Logged(e: Event, slots: seq<Slot>) {
    exists s :: s in slots && Logs(e, s)
  }

  ghost predicate Kept(s: Slot, log: seq<Event>) {
    exists e :: e in log && Logs(e, s)
  }

  ghost predicate Matching(log: seq<Event>, slots: seq<Slot>) {
    && (forall e :: e in log ==> Logged(e, slots))
    && (forall s :: s in slots && Leaves(s.call) ==> Kept(s, log))
  }

  lemma MatchingAppend(l: seq<Event>, a: seq<Slot>, m: seq<Event>, b: seq<Slot>)
    requires Matching(l, a) && Matching(m, b)
    ensures Matching(l + m, a + b)
  {
    forall e | e in l + m ensures Logged(e, a + b) {
    }
    forall s | s in a + b && Leaves(s.call) ensures Kept(s, l + m) {
    }
  }

  lemma {:induction false} CallMatches(c: Call, ords: Ordinals, sha: Sha)
    ensures Matching(Events(c, ords, sha), Slots(c, ords, sha))
    decreases c, 0
  {
    var key := CallKey(c, sha);
    var own := [Slot(c, Next(ords, key))];
    assert Matching(OwnEvent(c, ords, sha), own) by {
      if Leaves(c) {
        assert OwnEvent(c, ords, sha)[0] in OwnEvent(c, ords, sha) && own[0] in own;
        assert Logs(OwnEvent(c, ords, sha)[0], own[0]);
      }
    }
    if c.Query? {
      assert Matching([], []);
      MatchingAppend([], [], OwnEvent(c, ords, sha), own);
    } else {
      RunMatches(c.body, Bump(ords, key), sha);
      MatchingAppend(EventsAll(c.body, Bump(ords, key), sha), SlotsAll(c.body, Bump(ords, key), sha),
                     OwnEvent(c, ords, sha), own);
    }
  }

  lemma {:induction false} RunMatches(cs: Calls, ords: Ordinals, sha: Sha)
    ensures Matching(EventsAll(cs, ords, sha), SlotsAll(cs, ords, sha))
    decreases cs, 1
  {
    if cs.Then? {
      var mid := After(cs.first, ords, sha);
      CallMatches(cs.first, ords, sha);
      RunMatches(cs.rest, mid, sha);
      MatchingAppend(Events(cs.first, ords, sha), Slots(cs.first, ords, sha),
                     EventsAll(cs.rest, mid, sha), SlotsAll(cs.rest, mid, sha));
    }
  }

  /** A path is in the store exactly if an event went there, and holds the output of one. */
  lemma {:induction false} StoreHolds(log: seq<Event>, path: string, sha: Sha)
    ensures path in Store(log, sha) <==> exists e :: e in log && Path(e.op, e.ordinal, sha) == path
    ensures path in Store(log, sha) ==>
              exists e :: e in log && Path(e.op, e.ordinal, sha) == path && e.output == Store(log, sha)[path]
  {
    if log != [] {
      var n := |log| - 1;
      StoreHolds(log[..n], path, sha);
      assert log == log[..n] + [log[n]];
      assert log[n] in log;
    }
  }

  /** Only the event of a slot goes to its path. */
  lemma OneSlotPerPath(slots: seq<Slot>, s: Slot, e: Event, sha: Sha)
    requires forall i, j :: 0 <= i < j < |slots| ==> SlotPath(slots[i], sha) != SlotPath(slots[j], sha)
    requires s in slots && Logged(e, slots) && Path(e.op, e.ordinal, sha) == SlotPath(s, sha)
    ensures Logs(e, s)
  {
    var t :| t in slots && Logs(e, t);
    assert SlotPath(t, sha) == SlotPath(s, sha);
  }

  lemma AnsweredFrom(log: seq<Event>, s: Slot, sha: Sha)
    requires forall e :: e in log && Path(e.op, e.ordinal, sha) == SlotPath(s, sha) ==> Logs(e, s)
    requires Leaves(s.call) ==> Kept(s, log)
    ensures ReplayAt(OpOf(s.call), s.ordinal, Store(log, sha), sha) == View(s.call)
  {
    StoreHolds(log, SlotPath(s, sha), sha);
  }

  lemma SlotsAnswered(slots: seq<Slot>, log: seq<Event>, s: Slot, sha: Sha)
    requires forall i, j :: 0 <= i < j < |slots| ==> SlotPath(slots[i], sha) != SlotPath(slots[j], sha)
    requires Matching(log, slots) && s in slots
    ensures ReplayAt(OpOf(s.call), s.ordinal, Store(log, sha), sha) == View(s.call)
  {
    forall e | e in log && Path(e.op, e.ordinal, sha) == SlotPath(s, sha) ensures Logs(e, s) {
      OneSlotPerPath(slots, s, e, sha);
    }
    AnsweredFrom(log, s, sha);
  }

  /** At its recorded ordinal every call of a run, at any depth, is answered by its own fixture. */
  lemma {:induction false} StoreAnswers(cs: Calls, s: Slot, sha: Sha)
    requires Separate(RunSlots(cs, sha), sha) && s in RunSlots(cs, sha)
    ensures ReplayAt(OpOf(s.call), s.ordinal, Recording(cs, sha), sha) == View(s.call)
  {
    var slots, log := RunSlots(cs, sha), EventsAll(cs, map[], sha);
    NoOverwrite(cs, sha);
    RunMatches(cs, map[], sha);
    SlotsAnswered(slots, log, s, sha);
  }

  // ------------------------------------------------------------------ which ordinals replay asks for

  /** A traced body and the block of a guarded capture are skipped in replay. */
  predicate Exposed(c: Call) {
    c.Capture? && !c.guarded
  }

  /** The calls whose operations replay performs, in order. */
  function Asked(c: Call): seq<Call> {
    [c] + if Exposed(c) then AskedAll(c.body) else []
  }

  function AskedAll(cs: Calls): seq<Call> {
    match cs
    case Done => []
    case Then(c, rest) => Asked(c) + AskedAll(rest)
  }

  /** The same calls with the ordinals they had while recording. */
  function Recorded(c: Call, ords: Ordinals, sha: Sha): seq<Slot> {
    var key := CallKey(c, sha);
    [Slot(c, Next(ords, key))] + if Exposed(c) then RecordedAll(c.body, Bump(ords, key), sha) else []
  }

  function RecordedAll(cs: Calls, ords: Ordinals, sha: Sha): seq<Slot> {
    match cs
    case Done => []
    case Then(c, rest) => Recorded(c, ords, sha) + RecordedAll(rest, After(c, ords, sha), sha)
  }

  function BumpAll(calls: seq<Call>, r: Ordinals, sha: Sha): Ordinals {
    if calls == [] then r else BumpAll(calls[1..], Bump(r, CallKey(calls[0], sha)), sha)
  }

  /** The ordinals that replay gives to a list of operations. */
  function Renumbered(calls: seq<Call>, r: Ordinals, sha: Sha): seq<Slot> {
    if calls == [] then []
    else
      var key := CallKey(calls[0], sha);
      [Slot(calls[0], Next(r, key))] + Renumbered(calls[1..], Bump(r, key), sha)
  }

  lemma {:induction false} RenumberedAppend(a: seq<Call>, b: seq<Call>, r: Ordinals, sha: Sha)
    ensures BumpAll(a + b, r, sha) == BumpAll(b, BumpAll(a, r, sha), sha)
    ensures Renumbered(a + b, r, sha) == Renumbered(a, r, sha) + Renumbered(b, BumpAll(a, r, sha), sha)
  {
    if a == [] {
      assert a + b == b;
    } else {
      var r' := Bump(r, CallKey(a[0], sha));
      assert (a + b)[0] == a[0] && (a + b)[1..] == a[1..] + b;
      RenumberedAppend(a[1..], b, r', sha);
      var own, tail := [Slot(a[0], Next(r, CallKey(a[0], sha)))], Renumbered(a[1..], r', sha);
      var more := Renumbered(b, BumpAll(a, r, sha), sha);
      assert Renumbered(a + b, r, sha) == own + (tail + more);
      Assoc(own, tail, more);
    }
  }

  /** Keys used anywhere in a call or run. */
  function Used(c: Call, sha: Sha): set<string> {
    {CallKey(c, sha)} + if c.Query? then {} else UsedAll(c.body, sha)
  }

  function UsedAll(cs: Calls, sha: Sha): set<string> {
    match cs
    case Done => {}
    case Then(c, rest) => Used(c, sha) + UsedAll(rest, sha)
  }

  /** Keys used in the bodies that replay skips. */
  function Hidden(c: Call, sha: Sha): set<string> {
    if c.Query? then {} else if Exposed(c) then HiddenAll(c.body, sha) else UsedAll(c.body, sha)
  }

  function HiddenAll(cs: Calls, sha: Sha): set<string> {
    match cs
    case Done => {}
    case Then(c, rest) => Hidden(c, sha) + HiddenAll(rest, sha)
  }

  /** No operation of replay uses a key that a skipped body before it has used. */
  predicate Aligned(c: Call, hidden: set<string>, sha: Sha) {
    CallKey(c, sha) !in hidden && (Exposed(c) ==> AlignedAll(c.body, hidden, sha))
  }

  predicate AlignedAll(cs: Calls, hidden: set<string>, sha: Sha) {
    match cs
    case Done => true
    case Then(c, rest) => Aligned(c, hidden, sha) && AlignedAll(rest, hidden + Hidden(c, sha), sha)
  }

  lemma {:induction false} CallCounts(c: Call, ords: Ordinals, key: string, sha: Sha)
    ensures Next(After(c, ords, sha), key) >= Next(ords, key)
    ensures Next(After(c, ords, sha), key) > Next(ords, key) <==> key in Used(c, sha)
    decreases c, 0
  {
    if !c.Query? {
      RunCounts(c.body, Bump(ords, CallKey(c, sha)), key, sha);
    }
  }

  /** A counter moves exactly if its key is used. */
  lemma {:induction false} RunCounts(cs: Calls, ords: Ordinals, key: string, sha: Sha)
    ensures Next(AfterAll(cs, ords, sha), key) >= Next(ords, key)
    ensures Next(AfterAll(cs, ords, sha), key) > Next(ords, key) <==> key in UsedAll(cs, sha)
    decreases cs, 1
  {
    if cs.Then? {
      CallCounts(cs.first, ords, key, sha);
      RunCounts(cs.rest, After(cs.first, ords, sha), key, sha);
    }
  }

  /** Replay's counters lag behind exactly on the keys of skipped bodies. */
  ghost predicate Lags(r: Ordinals, ords: Ordinals, hidden: set<string>) {
    forall key :: if key in hidden then Next(r, key) < Next(ords, key) else Next(r, key) == Next(ords, key)
  }

  lemma LagsSkipped(r: Ordinals, ords: Ordinals, hidden: set<string>, body: Calls, sha: Sha)
    requires Lags(r, ords, hidden)
    ensures Lags(r, AfterAll(body, ords, sha), hidden + UsedAll(body, sha))
  {
    forall key
      ensures var o := AfterAll(body, ords, sha);
              if key in hidden + UsedAll(body, sha) then Next(r, key) < Next(o, key) else Next(r, key) == Next(o, key)
    {
      RunCounts(body, ords, key, sha);
    }
  }

  lemma {:induction false} CallAligned(c: Call, ords: Ordinals, r: Ordinals, hidden: set<string>, sha: Sha)
    requires Lags(r, ords, hidden)
    ensures Lags(BumpAll(Asked(c), r, sha), After(c, ords, sha), hidden + Hidden(c, sha))
    ensures |Recorded(c, ords, sha)| == |Renumbered(Asked(c), r, sha)|
    ensures Recorded(c, ords, sha) == Renumbered(Asked(c), r, sha) <==> Aligned(c, hidden, sha)
    decreases c, 0
  {
    var key := CallKey(c, sha);
    var ords', r' := Bump(ords, key), Bump(r, key);
    assert Lags(r', ords', hidden);
    assert Asked(c)[1..] == if Exposed(c) then AskedAll(c.body) else [];
    if Exposed(c) {
      RunAligned(c.body, ords', r', hidden, sha);
    } else if !c.Query? {
      LagsSkipped(r', ords', hidden, c.body, sha);
    } else {
      assert hidden + {} == hidden;
    }
    var own, own' := [Slot(c, Next(ords, key))], [Slot(c, Next(r, key))];
    assert own == own' <==> own[0] == own'[0];
    SameParts(own, if Exposed(c) then RecordedAll(c.body, ords', sha) else [],
              own', if Exposed(c) then Renumbered(AskedAll(c.body), r', sha) else []);
  }

  /** Replay asks for the recorded ordinals exactly if no operation uses a key that an earlier
      skipped body used. */
  lemma {:induction false} RunAligned(cs: Calls, ords: Ordinals, r: Ordinals, hidden: set<string>, sha: Sha)
    requires Lags(r, ords, hidden)
    ensures Lags(BumpAll(AskedAll(cs), r, sha), AfterAll(cs, ords, sha), hidden + HiddenAll(cs, sha))
    ensures |RecordedAll(cs, ords, sha)| == |Renumbered(AskedAll(cs), r, sha)|
    ensures RecordedAll(cs, ords, sha) == Renumbered(AskedAll(cs), r, sha) <==> AlignedAll(cs, hidden, sha)
    decreases cs, 1
  {
    match cs
    case Done => assert hidden + {} == hidden;
    case Then(c, rest) =>
      var hidden' := hidden + Hidden(c, sha);
      var ords', r' := After(c, ords, sha), BumpAll(Asked(c), r, sha);
      CallAligned(c, ords, r, hidden, sha);
      RunAligned(rest, ords', r', hidden', sha);
      RenumberedAppend(Asked(c), AskedAll(rest), r, sha);
      assert hidden' + HiddenAll(rest, sha) == hidden + HiddenAll(cs, sha);
      SameParts(Recorded(c, ords, sha), RecordedAll(rest, ords', sha),
                Renumbered(Asked(c), r, sha), Renumbered(AskedAll(rest), r', sha));
  }

  lemma SameParts<T>(a: seq<T>, b: seq<T>, c: seq<T>, d: seq<T>)
    requires |a| == |c|
    ensures a + b == c + d <==> a == c && b == d
  {
    if a + b == c + d {
      assert (a + b)[..|a|] == a && (c + d)[..|a|] == c;
      assert (a + b)[|a|..] == b && (c + d)[|a|..] == d;
    }
  }

  // ------------------------------------------------------------------ the replay theorem

  /** What replay returns for a list of operations. */
  function Answers(ops: seq<Op>, r: Ordinals, store: map<string, Json>, sha: Sha): seq<Replayed> {
    if ops == [] then []
    else [ReplayOp(ops[0], r, store, sha)] + Answers(ops[1..], Bump(r, Key(ops[0], sha)), store, sha)
  }

  function Ops(calls: seq<Call>): (ops: seq<Op>)
    ensures |ops| == |calls| && forall i :: 0 <= i < |ops| ==> ops[i] == OpOf(calls[i])
  {
    seq(|calls|, i requires 0 <= i < |calls| => OpOf(calls[i]))
  }

  lemma {:induction false} AnswersRenumbered(calls: seq<Call>, r: Ordinals, store: map<string, Json>, sha: Sha)
    ensures var out, slots := Answers(Ops(calls), r, store, sha), Renumbered(calls, r, sha);
            && |out| == |slots| == |calls|
            && forall i :: 0 <= i < |out| ==>
                 slots[i].call == calls[i] && out[i] == ReplayAt(OpOf(calls[i]), slots[i].ordinal, store, sha)
  {
    if calls != [] {
      assert Ops(calls)[1..] == Ops(calls[1..]);
      AnswersRenumbered(calls[1..], Bump(r, CallKey(calls[0], sha)), store, sha);
    }
  }

  lemma {:induction false} RecordedAreSlots(c: Call, ords: Ordinals, sha: Sha)
    ensures forall s :: s in Recorded(c, ords, sha) ==> s in Slots(c, ords, sha)
    decreases c, 0
  {
    if Exposed(c) {
      AllRecordedAreSlots(c.body, Bump(ords, CallKey(c, sha)), sha);
    }
  }

  lemma {:induction false} AllRecordedAreSlots(cs: Calls, ords: Ordinals, sha: Sha)
    ensures forall s :: s in RecordedAll(cs, ords, sha) ==> s in SlotsAll(cs, ords, sha)
    decreases cs, 1
  {
    if cs.Then? {
      RecordedAreSlots(cs.first, ords, sha);
      AllRecordedAreSlots(cs.rest, After(cs.first, ords, sha), sha);
    }
  }

  /** What replay returns for the operations of a recorded run, from a fresh context. */
  function Playback(cs: Calls, sha: Sha): seq<Replayed> {
    Answers(Ops(AskedAll(cs)), map[], Recording(cs, sha), sha)
  }

  function Views(calls: seq<Call>): seq<Replayed> {
    seq(|calls|, i requires 0 <= i < |calls| => View(calls[i]))
  }

  /** The replay theorem.  Record a run into a keyed store and replay its operations from a fresh
      context: if different keys never share a path and no operation uses a key that an earlier
      skipped body used, every operation is answered with what its own call recorded. */
  lemma {:induction false} ReplayTheorem(cs: Calls, sha: Sha)
    requires Separate(RunSlots(cs, sha), sha) && AlignedAll(cs, {}, sha)
    ensures Playback(cs, sha) == Views(AskedAll(cs))
  {
    var calls, store := AskedAll(cs), Recording(cs, sha);
    var out, slots := Playback(cs, sha), Renumbered(calls, map[], sha);
    AnswersRenumbered(calls, map[], store, sha);
    RunAligned(cs, map[], map[], {}, sha);
    AllRecordedAreSlots(cs, map[], sha);
    forall i | 0 <= i < |out| ensures out[i] == View(calls[i]) {
      assert slots[i] in slots;
      StoreAnswers(cs, slots[i], sha);
    }
  }

  /** What an application saw, told apart from what the engine raises itself. */
  predicate Same(o: Outcome, r: Replayed) {
    o.Returned? && r == Answer(o.v)
  }

  predicate Repeatable(c: Call) {
    OutcomeOf(c).Returned? && !(c.Query? && IsWriteStatement(c.sql))
  }

  ghost predicate AllRepeatable(calls: seq<Call>) {
    forall c :: c in calls ==> Repeatable(c)
  }

  ghost predicate Faithful(calls: seq<Call>, out: seq<Replayed>) {
    |out| == |calls| && forall i :: 0 <= i < |calls| ==> Same(OutcomeOf(calls[i]), out[i])
  }

  lemma ViewsFaithfulIff(calls: seq<Call>)
    ensures Faithful(calls, Views(calls)) <==> AllRepeatable(calls)
  {
    var out := Views(calls);
    forall c ensures Same(OutcomeOf(c), View(c)) <==> Repeatable(c) {
    }
    if Faithful(calls, out) {
      forall c | c in calls ensures Repeatable(c) {
        var i :| 0 <= i < |calls| && calls[i] == c;
        assert Same(OutcomeOf(calls[i]), out[i]);
      }
    }
  }

  /** Replay gives back what every operation returned exactly if all of them returned normally and
      none was a write. */
  lemma {:induction false} ReplayFaithfulIff(cs: Calls, sha: Sha)
    requires Separate(RunSlots(cs, sha), sha) && AlignedAll(cs, {}, sha)
    ensures Faithful(AskedAll(cs), Playback(cs, sha)) <==> AllRepeatable(AskedAll(cs))
  {
    ReplayTheorem(cs, sha);
    ViewsFaithfulIff(AskedAll(cs));
  }

  // ------------------------------------------------------------------ applications

  /** A deterministic application: from the values it was given so far to its next operation. */
  type Application = seq<Json> -> Option<Op>

  /** What the application was given by a call that returned. */
  function Value(c: Call): Json {
    if OutcomeOf(c).Returned? then OutcomeOf(c).v else Null
  }

  function Values(calls: seq<Call>): seq<Json> {
    seq(|calls|, i requires 0 <= i < |calls| => Value(calls[i]))
  }

  /** Run live, the application made exactly these calls, and each returned. */
  ghost predicate Made(app: Application, past: seq<Json>, calls: seq<Call>)
    decreases |calls|
  {
    if calls == [] then app(past) == None
    else
      && app(past) == Some(OpOf(calls[0])) && Repeatable(calls[0])
      && Made(app, past + [Value(calls[0])], calls[1..])
  }

  /** In replay the application is given exactly the values `seen` and then ends. */
  ghost predicate Sees(app: Application, past: seq<Json>, r: Ordinals, store: map<string, Json>, sha: Sha,
                       seen: seq<Json>)
    decreases |seen|
  {
    var op := app(past);
    if seen == [] then op == None
    else
      && op.Some? && ReplayOp(op.value, r, store, sha) == Answer(seen[0])
      && Sees(app, past + [seen[0]], Bump(r, Key(op.value, sha)), store, sha, seen[1..])
  }

  lemma {:induction false} MadeRepeatable(app: Application, past: seq<Json>, calls: seq<Call>)
    requires Made(app, past, calls)
    ensures AllRepeatable(calls)
    decreases |calls|
  {
    if calls != [] {
      MadeRepeatable(app, past + [Value(calls[0])], calls[1..]);
    }
  }

  lemma FaithfulTail(calls: seq<Call>, r: Ordinals, store: map<string, Json>, sha: Sha)
    requires calls != [] && Faithful(calls, Answers(Ops(calls), r, store, sha))
    ensures ReplayOp(OpOf(calls[0]), r, store, sha) == Answer(Value(calls[0]))
    ensures Faithful(calls[1..], Answers(Ops(calls[1..]), Bump(r, CallKey(calls[0], sha)), store, sha))
  {
    var out := Answers(Ops(calls), r, store, sha);
    var rest := Answers(Ops(calls[1..]), Bump(r, CallKey(calls[0], sha)), store, sha);
    assert Ops(calls)[1..] == Ops(calls[1..]);
    assert rest == out[1..];
    assert Same(OutcomeOf(calls[0]), out[0]);
    forall i | 0 <= i < |calls[1..]| ensures Same(OutcomeOf(calls[1..][i]), rest[i]) {
      assert Same(OutcomeOf(calls[i + 1]), out[i + 1]);
    }
  }

  lemma {:induction false} MadeIsSeen(app: Application, past: seq<Json>, calls: seq<Call>, r: Ordinals,
                                      store: map<string, Json>, sha: Sha)
    requires Made(app, past, calls) && Faithful(calls, Answers(Ops(calls), r, store, sha))
    ensures Sees(app, past, r, store, sha, Values(calls))
    decreases |calls|
  {
    if calls != [] {
      FaithfulTail(calls, r, store, sha);
      MadeIsSeen(app, past + [Value(calls[0])], calls[1..], Bump(r, CallKey(calls[0], sha)), store, sha);
      assert Values(calls)[1..] == Values(calls[1..]) && Values(calls)[0] == Value(calls[0]);
    }
  }

  lemma {:induction false} SeesOnce(app: Application, past: seq<Json>, r: Ordinals, store: map<string, Json>, sha: Sha,
                                    a: seq<Json>, b: seq<Json>)
    requires Sees(app, past, r, store, sha, a) && Sees(app, past, r, store, sha, b)
    ensures a == b
    decreases |a|
  {
    if a != [] && b != [] {
      assert a[0] == b[0];
      SeesOnce(app, past + [a[0]], Bump(r, Key(app(past).value, sha)), store, sha, a[1..], b[1..]);
    }
  }

  /** Replaying the application: it makes the same operations as when it was recorded and is given
      the same values, and there is no other way it could go. */
  lemma {:induction false} ApplicationReplays(app: Application, cs: Calls, sha: Sha)
    requires Made(app, [], AskedAll(cs)) && forall c :: c in AskedAll(cs) ==> !Exposed(c)
    requires Separate(RunSlots(cs, sha), sha) && AlignedAll(cs, {}, sha)
    ensures forall seen :: Sees(app, [], map[], Recording(cs, sha), sha, seen) <==>
                           seen == Values(AskedAll(cs))
  {
    var store := Recording(cs, sha);
    MadeRepeatable(app, [], AskedAll(cs));
    ReplayFaithfulIff(cs, sha);
    MadeIsSeen(app, [], AskedAll(cs), map[], store, sha);
    forall seen | Sees(app, [], map[], store, sha, seen) ensures seen == Values(AskedAll(cs)) {
      SeesOnce(app, [], map[], store, sha, seen, Values(AskedAll(cs)));
    }
  }

  // ------------------------------------------------------------------ where replay differs

  /** A traced call that raised is answered with None. */
  lemma {:induction false} RaisedTraceIsAnsweredNull(cs: Calls, i: nat, sha: Sha)
    requires Separate(RunSlots(cs, sha), sha) && AlignedAll(cs, {}, sha)
    requires i < |AskedAll(cs)| && AskedAll(cs)[i].Trace? && AskedAll(cs)[i].outcome.Raised?
    ensures |Playback(cs, sha)| == |AskedAll(cs)| && Playback(cs, sha)[i] == Answer(Null)
  {
    ReplayTheorem(cs, sha);
  }

  lemma OneCall(c: Call, ords: Ordinals, sha: Sha)
    ensures SlotsAll(Then(c, Done), ords, sha) == Slots(c, ords, sha)
    ensures AfterAll(Then(c, Done), ords, sha) == After(c, ords, sha)
  {
    assert SlotsAll(Done, After(c, ords, sha), sha) == [];
  }

  lemma OneQueryTraced(traced: Call, inner: Call, sha: Sha)
    requires traced.Trace? && inner.Query? && traced.body == Then(inner, Done)
    ensures var t, k := CallKey(traced, sha), CallKey(inner, sha);
            && t != k && After(traced, map[], sha) == Bump(Bump(map[], t), k)
            && Slots(traced, map[], sha) == [Slot(inner, 0), Slot(traced, 0)]
  {
    var t, k := CallKey(traced, sha), CallKey(inner, sha);
    assert k[2] == ':' && t[2] != ':';
    OneCall(inner, Bump(map[], t), sha);
  }

  lemma ShiftedSlots(traced: Call, inner: Call, outer: Call, sha: Sha)
    requires traced.Trace? && inner.Query? && traced.body == Then(inner, Done)
    requires outer.Query? && OpOf(inner) == OpOf(outer)
    ensures SlotsAll(Then(traced, Then(outer, Done)), map[], sha) == [Slot(inner, 0), Slot(traced, 0), Slot(outer, 1)]
  {
    OneQueryTraced(traced, inner, sha);
    OneCall(outer, After(traced, map[], sha), sha);
    assert Slots(outer, After(traced, map[], sha), sha) == [Slot(outer, 1)];
  }

  lemma ShiftedSeparate(traced: Call, inner: Call, outer: Call, sha: Sha)
    requires traced.Trace? && inner.Query? && outer.Query? && OpOf(inner) == OpOf(outer)
    ensures Separate([Slot(inner, 0), Slot(traced, 0), Slot(outer, 1)], sha)
  {
    var slots := [Slot(inner, 0), Slot(traced, 0), Slot(outer, 1)];
    forall s, t | s in slots && t in slots && SlotKey(s, sha) != SlotKey(t, sha)
      ensures !Meet(OpOf(s.call), OpOf(t.call), sha)
    {
      assert s.call == traced || OpOf(s.call) == OpOf(inner);
      assert t.call == traced || OpOf(t.call) == OpOf(inner);
      assert OpOf(traced).TraceOp? && OpOf(inner).QueryOp?;
    }
  }

  /** A query inside a traced body and the same query again after it: replay answers the second with
      what the first one returned. */
  lemma ShiftedKey(traced: Call, inner: Call, outer: Call, sha: Sha)
    requires traced.Trace? && inner.Query? && traced.body == Then(inner, Done)
    requires outer.Query? && OpOf(inner) == OpOf(outer) && Repeatable(inner)
    ensures var cs := Then(traced, Then(outer, Done));
            && Separate(RunSlots(cs, sha), sha)
            && ReplayOp(OpOf(outer), Bump(map[], CallKey(traced, sha)), Recording(cs, sha), sha) ==
               Answer(inner.outcome.v)
  {
    ShiftedSlots(traced, inner, outer, sha);
    ShiftedSeparate(traced, inner, outer, sha);
    OneQueryTraced(traced, inner, sha);
    var slots := [Slot(inner, 0), Slot(traced, 0), Slot(outer, 1)];
    assert slots[0] in slots;
    StoreAnswers(Then(traced, Then(outer, Done)), slots[0], sha);
  }
}
