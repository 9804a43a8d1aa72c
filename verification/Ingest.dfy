/** The ingest queue and its batch accounting (agent/internal/ingest). */
module Ingest {
  import opened Common
  import opened Wire

  // ------------------------------------------------------------------ validator.go

  const MAX_TIMESTAMP_DRIFT_MS := 5 * 60 * 1000
  const MAX_ID_LEN := 128

  datatype ValidatorConfig = ValidatorConfig(maxEventBytes: int, supportedSchemas: set<int>)

  datatype IdProblem = Empty | TooLong(len: nat) | BadCharacters(id: string)

  /** Each constructor is one message format of the source; their texts start differently. */
  datatype Reason =
    | UnsupportedSchema(version: int)
    | UnknownEventType(spelling: string)
    | InvalidFixtureId(problem: IdProblem)
    | InvalidSessionId(problem: IdProblem)
    | TimestampNotPositive
    | TimestampDrift(ms: int)
    | EmptyPayload
    | PayloadTooLarge(size: nat)
    | QueueFull

  predicate IdChar(c: char) {
    'a' <= c <= 'z' || 'A' <= c <= 'Z' || '0' <= c <= '9' || c == '_' || c == '-'
  }

  function IdError(id: string): Option<IdProblem> {
    if id == "" then Some(Empty)
    else if |id| > MAX_ID_LEN then Some(TooLong(|id|))
    else if exists k :: 0 <= k < |id| && !IdChar(id[k]) then Some(BadCharacters(id))
    else None
  }

  predicate ValidId(id: string) {
    0 < |id| <= MAX_ID_LEN && forall c :: c in id ==> IdChar(c)
  }

  /** What the service asks of an event. */
  predicate Acceptable(cfg: ValidatorConfig, e: Envelope, nowMs: int) {
    && e.schemaVersion in cfg.supportedSchemas && !e.eventType.Other?
    && ValidId(e.fixtureId) && ValidId(e.sessionId)
    && e.timestampMs > 0
    && nowMs - MAX_TIMESTAMP_DRIFT_MS <= e.timestampMs <= nowMs + MAX_TIMESTAMP_DRIFT_MS
    && e.payload != [] && (cfg.maxEventBytes > 0 ==> |e.payload| <= cfg.maxEventBytes)
  }

  lemma IdErrorIff(id: string)
    ensures IdError(id) == None <==> ValidId(id)
  {
  }

  /** `None` accepts the event; otherwise the first rule it breaks. */
  function Validate(cfg: ValidatorConfig, e: Envelope, nowMs: int): (r: Option<Reason>)
    ensures r == None <==> Acceptable(cfg, e, nowMs)
    ensures r != Some(QueueFull)
  {
    IdErrorIff(e.fixtureId);
    IdErrorIff(e.sessionId);
    var drift := if e.timestampMs < nowMs then nowMs - e.timestampMs else e.timestampMs - nowMs;
    if e.schemaVersion !in cfg.supportedSchemas then Some(UnsupportedSchema(e.schemaVersion))
    else if e.eventType.Other? then Some(UnknownEventType(e.eventType.spelling))
    else if IdError(e.fixtureId).Some? then Some(InvalidFixtureId(IdError(e.fixtureId).value))
    else if IdError(e.sessionId).Some? then Some(InvalidSessionId(IdError(e.sessionId).value))
    else if e.timestampMs <= 0 then Some(TimestampNotPositive)
    else if drift > MAX_TIMESTAMP_DRIFT_MS then Some(TimestampDrift(drift))
    else if e.payload == [] then Some(EmptyPayload)
    else if cfg.maxEventBytes > 0 && |e.payload| > cfg.maxEventBytes then Some(PayloadTooLarge(|e.payload|))
    else None
  }

  /** The eight rules in the order in which they are checked. */
  predicate Rule(cfg: ValidatorConfig, e: Envelope, nowMs: int, k: nat) {
    match k
    case 0 => e.schemaVersion in cfg.supportedSchemas
    case 1 => !e.eventType.Other?
    case 2 => ValidId(e.fixtureId)
    case 3 => ValidId(e.sessionId)
    case 4 => e.timestampMs > 0
    case 5 => nowMs - 300_000 <= e.timestampMs <= nowMs + 300_000
    case 6 => e.payload != []
    case _ => cfg.maxEventBytes > 0 ==> |e.payload| <= cfg.maxEventBytes
  }

  function RuleOf(r: Reason): nat
    requires r != QueueFull
  {
    match r
    case UnsupportedSchema(_) => 0
    case UnknownEventType(_) => 1
    case InvalidFixtureId(_) => 2
    case InvalidSessionId(_) => 3
    case TimestampNotPositive => 4
    case TimestampDrift(_) => 5
    case EmptyPayload => 6
    case PayloadTooLarge(_) => 7
  }

  predicate Describes(p: IdProblem, id: string) {
    match p
    case Empty => id == ""
    case TooLong(len) => len == |id| > 128
    case BadCharacters(text) => text == id && 0 < |id| <= 128 && exists c :: c in id && !IdChar(c)
  }

  /** What a reason says about the event. */
  predicate Tells(r: Reason, e: Envelope, nowMs: int) {
    match r
    case UnsupportedSchema(version) => version == e.schemaVersion
    case UnknownEventType(spelling) => e.eventType == Other(spelling)
    case InvalidFixtureId(problem) => Describes(problem, e.fixtureId)
    case InvalidSessionId(problem) => Describes(problem, e.sessionId)
    case TimestampDrift(ms) => ms > 300_000 && (nowMs == e.timestampMs + ms || nowMs == e.timestampMs - ms)
    case PayloadTooLarge(size) => size == |e.payload|
    case _ => true
  }

  /** The reason names the first rule that the event breaks: all earlier ones hold. */
  lemma FirstBrokenRule(cfg: ValidatorConfig, e: Envelope, nowMs: int)
    ensures var r := Validate(cfg, e, nowMs);
            && (r == None <==> forall k :: 0 <= k < 8 ==> Rule(cfg, e, nowMs, k))
            && (r.Some? ==>
                  && r.value != QueueFull && Tells(r.value, e, nowMs)
                  && !Rule(cfg, e, nowMs, RuleOf(r.value))
                  && forall k :: 0 <= k < RuleOf(r.value) ==> Rule(cfg, e, nowMs, k))
  {
    IdErrorIff(e.fixtureId);
    IdErrorIff(e.sessionId);
    if forall k :: 0 <= k < 8 ==> Rule(cfg, e, nowMs, k) {
      assert Rule(cfg, e, nowMs, 0) && Rule(cfg, e, nowMs, 1) && Rule(cfg, e, nowMs, 2) && Rule(cfg, e, nowMs, 3);
      assert Rule(cfg, e, nowMs, 4) && Rule(cfg, e, nowMs, 5) && Rule(cfg, e, nowMs, 6) && Rule(cfg, e, nowMs, 7);
    }
  }

  // ------------------------------------------------------------------ queue.go

  class Queue {
    /** Contents of the buffered channel, oldest first. */
    var ch: seq<Envelope>
    var depth: int
    const capacity: nat

    ghost predicate Valid()
      reads this
    {
      |ch| <= capacity
    }

    constructor (capacity: nat)
      ensures Valid() && this.capacity == capacity && ch == [] && depth == 0
    {
      this.capacity := capacity;
      ch, depth := [], 0;
    }

    method TryEnqueue(e: Envelope) returns (ok: bool)
      requires Valid()
      modifies this
      ensures Valid() && ok == (|old(ch)| < capacity)
      ensures ch == old(ch) + (if ok then [e] else [])
      ensures depth - |ch| == old(depth) - |old(ch)|
    {
      ok := |ch| < capacity;
      if ok {
        ch := ch + [e];
        depth := depth + 1;
      }
    }

    /** `None` when the context was cancelled first. */
    method Dequeue(cancelled: bool) returns (e: Option<Envelope>)
      requires Valid() && (ch == [] ==> cancelled)
      modifies this
      ensures Valid() && (e == None ==> cancelled)
      ensures e == None ==> ch == old(ch)
      ensures e.Some? ==> [e.value] + ch == old(ch)
      ensures depth - |ch| == old(depth) - |old(ch)|
    {
      if ch == [] {
        return None;
      }
      if cancelled {
        // Go picks either ready branch of the select.
        if * { return None; }
      }
      e := Some(ch[0]);
      ch := ch[1..];
      depth := depth - 1;
    }

    /** Receiving from the bare channel leaves the gauge to `MarkDequeued`. */
    method Receive() returns (e: Envelope)
      requires Valid() && ch != []
      modifies this`ch
      ensures Valid() && [e] + ch == old(ch)
    {
      e := ch[0];
      ch := ch[1..];
    }

    method MarkDequeued()
      modifies this`depth
      ensures depth == old(depth) - 1
    {
      depth := depth - 1;
    }
  }

  // ------------------------------------------------------------------ ingest.go

  datatype Verdict = Accepted | Rejected(reason: Reason)

  /** How many of the first `n` events are accepted when the channel already holds `held`. */
  ghost function Admitted(cfg: ValidatorConfig, batch: seq<Envelope>, n: nat, nowMs: int, held: nat, capacity: nat): nat
    requires n <= |batch|
  {
    if n == 0 then 0
    else
      var before := Admitted(cfg, batch, n - 1, nowMs, held, capacity);
      before + if Validate(cfg, batch[n - 1], nowMs) == None && held + before < capacity then 1 else 0
  }

  /** What must become of each event of a batch. */
  ghost function Verdicts(cfg: ValidatorConfig, batch: seq<Envelope>, nowMs: int, held: nat, capacity: nat): seq<Verdict> {
    seq(|batch|, k requires 0 <= k < |batch| =>
      var r := Validate(cfg, batch[k], nowMs);
      if r.Some? then Rejected(r.value)
      else if held + Admitted(cfg, batch, k, nowMs, held, capacity) < capacity then Accepted
      else Rejected(QueueFull))
  }

  /** Occurrences of `v` among the first `n` verdicts. */
  ghost function Count(vs: seq<Verdict>, v: Verdict, n: nat): nat
    requires n <= |vs|
  {
    if n == 0 then 0 else Count(vs, v, n - 1) + if vs[n - 1] == v then 1 else 0
  }

  /** The accepted events among the first `n`, in batch order. */
  ghost function Kept(batch: seq<Envelope>, vs: seq<Verdict>, n: nat): seq<Envelope>
    requires n <= |vs| == |batch|
  {
    if n == 0 then []
    else Kept(batch, vs, n - 1) + if vs[n - 1] == Accepted then [batch[n - 1]] else []
  }

  /** What a batch adds to a channel that holds `held` events. */
  ghost function Admits(cfg: ValidatorConfig, batch: seq<Envelope>, nowMs: int, held: nat, capacity: nat)
    : seq<Envelope>
  {
    if batch == [] then []
    else
      var n := |batch| - 1;
      var before := Admits(cfg, batch[..n], nowMs, held, capacity);
      before + if Validate(cfg, batch[n], nowMs) == None && held + |before| < capacity then [batch[n]] else []
  }

  /** These are the events that get the verdict. */
  lemma {:induction false} AdmitsAccepted(cfg: ValidatorConfig, batch: seq<Envelope>, n: nat, nowMs: int,
                                          held: nat, capacity: nat)
    requires n <= |batch|
    ensures var vs, r := Verdicts(cfg, batch, nowMs, held, capacity), Admits(cfg, batch[..n], nowMs, held, capacity);
            r == Kept(batch, vs, n) && |r| == Count(vs, Accepted, n) == Admitted(cfg, batch, n, nowMs, held, capacity)
  {
    if n > 0 {
      assert batch[..n][..n - 1] == batch[..n - 1];
      AdmitsAccepted(cfg, batch, n - 1, nowMs, held, capacity);
    }
  }

  /** It makes no difference how a batch is cut: two requests leave in the channel what one would. */
  lemma {:induction false} AdmitsConcat(cfg: ValidatorConfig, a: seq<Envelope>, b: seq<Envelope>, nowMs: int,
                                        held: nat, capacity: nat)
    ensures var first := Admits(cfg, a, nowMs, held, capacity);
            Admits(cfg, a + b, nowMs, held, capacity) == first + Admits(cfg, b, nowMs, held + |first|, capacity)
  {
    if b == [] {
      assert a + b == a;
    } else {
      var n := |b| - 1;
      assert (a + b)[..|a + b| - 1] == a + b[..n];
      AdmitsConcat(cfg, a, b[..n], nowMs, held, capacity);
    }
  }

  function Bump(m: map<Reason, nat>, k: Reason): map<Reason, nat> {
    m[k := (if k in m then m[k] else 0) + 1]
  }

  lemma BumpSum(m: map<Reason, nat>, k: Reason)
    ensures Sum(Bump(m, k)) == Sum(m) + 1
  {
    SumPut(m, k, if k in m then m[k] + 1 else 1);
  }

  datatype IngestResponse = IngestResponse(accepted: nat, dropped: nat, droppedByReason: map<Reason, nat>, invalid: nat)

  /** The response reports each of the first `n` verdicts once. */
  ghost predicate Reports(resp: IngestResponse, vs: seq<Verdict>, n: nat)
    requires n <= |vs|
  {
    && resp.accepted + resp.dropped == n
    && resp.accepted == Count(vs, Accepted, n)
    && Sum(resp.droppedByReason) == resp.dropped
    && (forall r :: (if r in resp.droppedByReason then resp.droppedByReason[r] else 0) == Count(vs, Rejected(r), n))
    && Count(vs, Rejected(QueueFull), n) == resp.dropped - resp.invalid
  }

  /** The response the loop builds, one verdict at a time. */
  ghost function Counted(resp: IngestResponse, v: Verdict): IngestResponse {
    match v
    case Accepted => resp.(accepted := resp.accepted + 1)
    case Rejected(r) =>
      resp.(dropped := resp.dropped + 1, droppedByReason := Bump(resp.droppedByReason, r),
            invalid := resp.invalid + if r == QueueFull then 0 else 1)
  }

  ghost function Response(vs: seq<Verdict>, n: nat): IngestResponse
    requires n <= |vs|
  {
    if n == 0 then IngestResponse(0, 0, map[], 0) else Counted(Response(vs, n - 1), vs[n - 1])
  }

  lemma {:induction false} ResponseReports(vs: seq<Verdict>, n: nat)
    requires n <= |vs|
    ensures Reports(Response(vs, n), vs, n)
  {
    if n > 0 {
      ResponseReports(vs, n - 1);
      if vs[n - 1] != Accepted {
        BumpSum(Response(vs, n - 1).droppedByReason, vs[n - 1].reason);
      }
    }
  }

  /** One turn of the loop. */
  method IngestOne(cfg: ValidatorConfig, q: Queue, e: Envelope, nowMs: int, resp: IngestResponse)
    returns (resp': IngestResponse, ghost v: Verdict)
    requires q.Valid()
    modifies q
    ensures q.Valid() && resp' == Counted(resp, v)
    ensures var r := Validate(cfg, e, nowMs);
            v == if r.Some? then Rejected(r.value)
                 else if |old(q.ch)| < q.capacity then Accepted
                 else Rejected(QueueFull)
    ensures q.ch == old(q.ch) + if v == Accepted then [e] else []
    ensures q.depth - |q.ch| == old(q.depth) - |old(q.ch)|
  {
    var result := Validate(cfg, e, nowMs);
    if result.Some? {
      v := Rejected(result.value);
      return resp.(invalid := resp.invalid + 1, dropped := resp.dropped + 1,
                   droppedByReason := Bump(resp.droppedByReason, result.value)), v;
    }
    var ok := q.TryEnqueue(e);
    v := if ok then Accepted else Rejected(QueueFull);
    if !ok {
      return resp.(dropped := resp.dropped + 1, droppedByReason := Bump(resp.droppedByReason, QueueFull)), v;
    }
    resp' := resp.(accepted := resp.accepted + 1);
  }

  /** The verdict on one event, and what it adds to the accepted ones. */
  lemma VerdictAt(cfg: ValidatorConfig, batch: seq<Envelope>, i: nat, nowMs: int, held: nat, capacity: nat)
    requires i < |batch|
    ensures var vs, before := Verdicts(cfg, batch, nowMs, held, capacity), Admitted(cfg, batch, i, nowMs, held, capacity);
            var r := Validate(cfg, batch[i], nowMs);
            && vs[i] == (if r.Some? then Rejected(r.value)
                         else if held + before < capacity then Accepted else Rejected(QueueFull))
            && Admitted(cfg, batch, i + 1, nowMs, held, capacity) == before + (if vs[i] == Accepted then 1 else 0)
            && Kept(batch, vs, i + 1) == Kept(batch, vs, i) + (if vs[i] == Accepted then [batch[i]] else [])
            && Response(vs, i + 1) == Counted(Response(vs, i), vs[i])
  {
  }

  /** The first `i` events of a batch have been ingested into a channel that held `before`. */
  ghost predicate Ingested(cfg: ValidatorConfig, batch: seq<Envelope>, i: nat, nowMs: int, capacity: nat,
                           before: seq<Envelope>, ch: seq<Envelope>, resp: IngestResponse)
    requires i <= |batch|
  {
    var vs := Verdicts(cfg, batch, nowMs, |before|, capacity);
    && resp == Response(vs, i) && ch == before + Kept(batch, vs, i)
    && |ch| == |before| + Admitted(cfg, batch, i, nowMs, |before|, capacity)
  }

  lemma IngestedOneMore(cfg: ValidatorConfig, batch: seq<Envelope>, i: nat, nowMs: int, capacity: nat,
                        before: seq<Envelope>, ch: seq<Envelope>, resp: IngestResponse, v: Verdict)
    requires i < |batch| && Ingested(cfg, batch, i, nowMs, capacity, before, ch, resp)
    requires var r := Validate(cfg, batch[i], nowMs);
             v == if r.Some? then Rejected(r.value) else if |ch| < capacity then Accepted else Rejected(QueueFull)
    ensures Ingested(cfg, batch, i + 1, nowMs, capacity, before,
                     ch + (if v == Accepted then [batch[i]] else []), Counted(resp, v))
  {
    VerdictAt(cfg, batch, i, nowMs, |before|, capacity);
    var vs := Verdicts(cfg, batch, nowMs, |before|, capacity);
    Assoc(before, Kept(batch, vs, i), if v == Accepted then [batch[i]] else []);
  }

  /** Every event gets its verdict, the response reports the verdicts, and the channel grows by
      exactly the accepted events in order. */
  method IngestBatch(cfg: ValidatorConfig, q: Queue, batch: seq<Envelope>, nowMs: int) returns (resp: IngestResponse)
    requires q.Valid()
    modifies q
    ensures q.Valid()
    ensures var vs := Verdicts(cfg, batch, nowMs, |old(q.ch)|, q.capacity);
            Reports(resp, vs, |vs|) && q.ch == old(q.ch) + Kept(batch, vs, |vs|)
    ensures q.depth - |q.ch| == old(q.depth) - |old(q.ch)|
  {
    resp := IngestResponse(0, 0, map[], 0);
    var i := 0;
    while i < |batch|
      invariant 0 <= i <= |batch| && q.Valid()
      invariant Ingested(cfg, batch, i, nowMs, q.capacity, old(q.ch), q.ch, resp)
      invariant q.depth - |q.ch| == old(q.depth) - |old(q.ch)|
    {
      ghost var ch, counted := q.ch, resp;
      ghost var v;
      resp, v := IngestOne(cfg, q, batch[i], nowMs, resp);
      IngestedOneMore(cfg, batch, i, nowMs, q.capacity, old(q.ch), ch, counted, v);
      i := i + 1;
    }
    ResponseReports(Verdicts(cfg, batch, nowMs, |old(q.ch)|, q.capacity), i);
  }

  // ------------------------------------------------------------------ the gauge under concurrency

  /** The channel and the gauge are separate: between a send and its increment, and between a
      receive and its decrement, other goroutines run.  `accepted` counts sends, `unpaired` counts
      receives after which nothing will ever decrement. */
  datatype Gauge = Gauge(queued: nat, depth: int, pendingAdds: nat, pendingSubs: nat, unpaired: nat, accepted: nat)

  ghost predicate GaugeNext(s: Gauge, t: Gauge, capacity: nat) {
    || (s.queued < capacity &&
        t == s.(queued := s.queued + 1, pendingAdds := s.pendingAdds + 1, accepted := s.accepted + 1))
    || (s.pendingAdds > 0 && t == s.(pendingAdds := s.pendingAdds - 1, depth := s.depth + 1))
    || (s.queued > 0 && t == s.(queued := s.queued - 1, pendingSubs := s.pendingSubs + 1))
    || (s.pendingSubs > 0 && t == s.(pendingSubs := s.pendingSubs - 1, depth := s.depth - 1))
    || (s.queued > 0 && t == s.(queued := s.queued - 1, unpaired := s.unpaired + 1))
  }

  ghost predicate GaugeRun(run: seq<Gauge>, capacity: nat) {
    && |run| > 0 && run[0] == Gauge(0, 0, 0, 0, 0, 0)
    && forall k :: 0 < k < |run| ==> GaugeNext(run[k - 1], run[k], capacity)
  }

  /** In every interleaving the gauge is off by exactly the pending updates and the receives that
      never decrement; with none of either it is the backlog. */
  lemma {:induction false} GaugeExact(run: seq<Gauge>, capacity: nat)
    requires GaugeRun(run, capacity)
    ensures var s := run[|run| - 1];
            s.depth + s.pendingAdds - s.pendingSubs - s.unpaired == s.queued <= capacity
  {
    if |run| > 1 {
      GaugeExact(run[..|run| - 1], capacity);
      assert GaugeNext(run[|run| - 2], run[|run| - 1], capacity);
    }
  }

  /** `Manager.Run` pairs no receive with a decrement: its gauge is the number of events ever accepted,
      and not the backlog. */
  lemma {:induction false} GaugeOfManagerRun(run: seq<Gauge>, capacity: nat)
    requires GaugeRun(run, capacity) && forall k :: 0 <= k < |run| ==> run[k].pendingSubs == 0
    ensures var s := run[|run| - 1]; s.depth + s.pendingAdds == s.accepted
  {
    if |run| > 1 {
      GaugeOfManagerRun(run[..|run| - 1], capacity);
      assert GaugeNext(run[|run| - 2], run[|run| - 1], capacity);
      assert run[|run| - 1].pendingSubs == 0;
    }
  }
}
