/** The session manager (agent/internal/session/session.go).

    `Manager` folds an interleaved event stream into per-session state and offers bundles to the
    spool.  Its specification knows nothing of that state: it is stated over `history`, the list of
    events accepted or refused and of forced cuts.  From a history the functions below derive the
    segments every session was cut into and the bundle each segment must produce. */
module Session {
  import opened Common
  import opened Wire

  /** Times and durations are integers in nanoseconds. */
  datatype Config = Config(maxActiveSessions: int, maxSessionBytes: int, maxSessionAge: int)

  /** `None` is Go's nil payload; an empty list is left out of the encoded bundle. */
  datatype FixtureBundle = FixtureBundle(
    schemaVersion: int,
    fixtureId: string,
    sessionId: string,
    createdAt: int,
    service: string,
    input: Option<Payload>,
    stubs: seq<Payload>,
    goldenOutput: Option<Payload>,
    metadata: seq<Payload>)

  datatype SessionState = SessionState(
    sessionId: string,
    fixtureId: string,
    schemaVersion: int,
    service: string,
    input: Option<Payload>,
    goldenOutput: Option<Payload>,
    stubs: seq<Payload>,
    metadata: seq<Payload>,
    totalBytes: int,
    createdAt: int,
    lastEventAt: int)

  // ------------------------------------------------------------------ reference: histories

  datatype Taken = Taken(e: Envelope, at: int)

  datatype Why = OutputReceived | SizeOverflow | Expired | ShutdownFlush

  datatype Item =
    | Accept(e: Envelope, at: int)
    | Refuse(e: Envelope, at: int)
    | Cut(id: string, why: Why, at: int)

  /** What happened so far, oldest first. */
  datatype History = Start | Then(past: History, last: Item)

  datatype Segment = Segment(id: string, events: seq<Taken>, why: Why, closedAt: int)

  function Bytes(evs: seq<Taken>): nat {
    if evs == [] then 0 else Bytes(evs[..|evs| - 1]) + |evs[|evs| - 1].e.payload|
  }

  /** The payloads of the events of one type, in arrival order. */
  function PayloadsOf(evs: seq<Taken>, t: EventType): seq<Payload> {
    if evs == [] then []
    else
      var rest := PayloadsOf(evs[..|evs| - 1], t);
      var last := evs[|evs| - 1].e;
      if last.eventType == t then rest + [last.payload] else rest
  }

  function LastPayload(evs: seq<Taken>, t: EventType): Option<Payload> {
    var ps := PayloadsOf(evs, t);
    if ps == [] then None else Some(ps[|ps| - 1])
  }

  /** Whether the last event of `evs` ends its segment, and why. */
  function ClosedBy(evs: seq<Taken>, maxBytes: int): Option<Why> {
    if evs == [] then None
    else if evs[|evs| - 1].e.eventType == Output then Some(OutputReceived)
    else if Bytes(evs) > maxBytes then Some(SizeOverflow)
    else None
  }

  /** Effect of one item on the open events `o` of session `id`. */
  function OpenStep(o: seq<Taken>, x: Item, id: string, maxBytes: int): seq<Taken> {
    match x
    case Accept(e, at) =>
      if e.sessionId != id then o
      else if ClosedBy(o + [Taken(e, at)], maxBytes).Some? then []
      else o + [Taken(e, at)]
    case Refuse(_, _) => o
    case Cut(cid, _, _) => if cid == id then [] else o
  }

  /** The events of session `id` accepted since its last segment ended. */
  function Open(h: History, id: string, maxBytes: int): seq<Taken> {
    match h
    case Start => []
    case Then(past, x) => OpenStep(Open(past, id, maxBytes), x, id, maxBytes)
  }

  /** The segment that item `x` ends when it follows `h`. */
  function Ended(h: History, x: Item, maxBytes: int): seq<Segment> {
    match x
    case Accept(e, at) =>
      var evs := Open(h, e.sessionId, maxBytes) + [Taken(e, at)];
      var why := ClosedBy(evs, maxBytes);
      if why.Some? then [Segment(e.sessionId, evs, why.value, at)] else []
    case Refuse(_, _) => []
    case Cut(id, why, at) => [Segment(id, Open(h, id, maxBytes), why, at)]
  }

  /** All segments of a history, in the order in which they ended. */
  function Closings(h: History, maxBytes: int): seq<Segment> {
    match h
    case Start => []
    case Then(past, x) => Closings(past, maxBytes) + Ended(past, x, maxBytes)
  }

  /** Only a session with open events is ever cut, and only by a sweep or the shutdown flush. */
  ghost predicate Legal(h: History, maxBytes: int) {
    match h
    case Start => true
    case Then(past, x) =>
      && Legal(past, maxBytes)
      && (x.Cut? ==> Open(past, x.id, maxBytes) != [] && (x.why == Expired || x.why == ShutdownFlush))
  }

  function AcceptedOf(h: History, id: string): seq<Taken> {
    match h
    case Start => []
    case Then(past, x) =>
      AcceptedOf(past, id) + if x.Accept? && x.e.sessionId == id then [Taken(x.e, x.at)] else []
  }

  function SegmentsOf(segs: seq<Segment>, id: string): seq<seq<Taken>> {
    if segs == [] then []
    else
      var rest := SegmentsOf(segs[..|segs| - 1], id);
      var s := segs[|segs| - 1];
      if s.id == id then rest + [s.events] else rest
  }

  /** A segment as the manager promises to cut it: one session, no Output and no overflow before
      its last event, and a last event that agrees with the reason it ended. */
  ghost predicate WellCut(s: Segment, maxBytes: int) {
    && s.events != []
    && (forall k :: 0 <= k < |s.events| ==> s.events[k].e.sessionId == s.id)
    && (forall k :: 0 < k < |s.events| ==>
          s.events[k - 1].e.eventType != Output && Bytes(s.events[..k]) <= maxBytes)
    && var last := s.events[|s.events| - 1].e.eventType;
       && (s.why == OutputReceived <==> last == Output)
       && (s.why == SizeOverflow <==> last != Output && Bytes(s.events) > maxBytes)
  }

  /** The bundle a segment must produce: identifiers of its first event, last Input, all stubs and
      metadata in order. */
  ghost function BundleOf(evs: seq<Taken>): FixtureBundle
    requires evs != []
  {
    var first := evs[0].e;
    FixtureBundle(first.schemaVersion, first.fixtureId, first.sessionId, evs[0].at, first.service,
                  LastPayload(evs, Input), PayloadsOf(evs, Stub), LastPayload(evs, Output),
                  PayloadsOf(evs, Metadata))
  }

  // ------------------------------------------------------------------ facts about histories

  /** Open events belong to their session, hold no Output and stay within the byte limit. */
  ghost predicate OpenOk(o: seq<Taken>, id: string, maxBytes: int) {
    && (forall k :: 0 <= k < |o| ==> o[k].e.sessionId == id && o[k].e.eventType != Output)
    && (forall k :: 0 < k <= |o| ==> Bytes(o[..k]) <= maxBytes)
  }

  lemma OpenStepOk(o: seq<Taken>, x: Item, id: string, maxBytes: int)
    requires OpenOk(o, id, maxBytes)
    ensures OpenOk(OpenStep(o, x, id, maxBytes), id, maxBytes)
  {
    var o' := OpenStep(o, x, id, maxBytes);
    if |o'| > |o| {
      var t := Taken(x.e, x.at);
      assert o' == o + [t];
      assert forall k :: 0 <= k <= |o| ==> o'[..k] == o[..k];
      assert o'[..|o'|] == o';
    }
  }

  lemma {:induction false} OpenShape(h: History, id: string, maxBytes: int)
    ensures OpenOk(Open(h, id, maxBytes), id, maxBytes)
  {
    if h.Then? {
      OpenShape(h.past, id, maxBytes);
      OpenStepOk(Open(h.past, id, maxBytes), h.last, id, maxBytes);
    }
  }

  lemma ForcedIsWellCut(o: seq<Taken>, id: string, why: Why, at: int, maxBytes: int)
    requires OpenOk(o, id, maxBytes) && o != [] && (why == Expired || why == ShutdownFlush)
    ensures WellCut(Segment(id, o, why, at), maxBytes)
  {
    assert o[..|o|] == o;
  }

  lemma ClosedIsWellCut(o: seq<Taken>, t: Taken, why: Why, maxBytes: int)
    requires OpenOk(o, t.e.sessionId, maxBytes) && ClosedBy(o + [t], maxBytes) == Some(why)
    ensures WellCut(Segment(t.e.sessionId, o + [t], why, t.at), maxBytes)
  {
    var evs := o + [t];
    forall k | 0 < k < |evs| ensures evs[k - 1].e.eventType != Output && Bytes(evs[..k]) <= maxBytes {
      assert evs[..k] == o[..k] && evs[k - 1] == o[k - 1];
    }
  }

  lemma EndedWellCut(h: History, x: Item, maxBytes: int)
    requires x.Cut? ==> Open(h, x.id, maxBytes) != [] && (x.why == Expired || x.why == ShutdownFlush)
    ensures forall s :: s in Ended(h, x, maxBytes) ==> WellCut(s, maxBytes)
  {
    match x
    case Refuse(_, _) =>
    case Cut(id, why, at) =>
      OpenShape(h, id, maxBytes);
      ForcedIsWellCut(Open(h, id, maxBytes), id, why, at, maxBytes);
    case Accept(e, at) =>
      var o := Open(h, e.sessionId, maxBytes);
      OpenShape(h, e.sessionId, maxBytes);
      var why := ClosedBy(o + [Taken(e, at)], maxBytes);
      if why.Some? {
        ClosedIsWellCut(o, Taken(e, at), why.value, maxBytes);
      }
  }

  /** Every segment of a legal history is cut exactly where the manager promises. */
  lemma {:induction false} SegmentsWellCut(h: History, maxBytes: int)
    requires Legal(h, maxBytes)
    ensures forall s :: s in Closings(h, maxBytes) ==> WellCut(s, maxBytes)
  {
    if h.Then? {
      SegmentsWellCut(h.past, maxBytes);
      EndedWellCut(h.past, h.last, maxBytes);
    }
  }

  lemma SegmentsOfSnoc(segs: seq<Segment>, s: Segment, id: string)
    ensures Flatten(SegmentsOf(segs + [s], id)) ==
            Flatten(SegmentsOf(segs, id)) + if s.id == id then s.events else []
  {
    assert (segs + [s])[..|segs|] == segs;
    FlattenSnoc(SegmentsOf(segs, id), s.events);
  }

  function Grown(x: Item, id: string): seq<Taken> {
    if x.Accept? && x.e.sessionId == id then [Taken(x.e, x.at)] else []
  }

  /** An item ends at most one segment, and moves nothing but that segment's events. */
  lemma EndedOrOpen(h: History, x: Item, id: string, maxBytes: int)
    ensures var o, o', ended := Open(h, id, maxBytes), Open(Then(h, x), id, maxBytes), Ended(h, x, maxBytes);
            && |ended| <= 1
            && if ended != [] && ended[0].id == id then ended[0].events == o + Grown(x, id) && o' == []
               else o' == o + Grown(x, id)
  {
    var o := Open(h, id, maxBytes);
    assert Open(Then(h, x), id, maxBytes) == OpenStep(o, x, id, maxBytes);
    assert o + [] == o;
  }

  lemma SegmentsOfEnded(segs: seq<Segment>, ended: seq<Segment>, id: string)
    requires |ended| <= 1
    ensures Flatten(SegmentsOf(segs + ended, id)) ==
            Flatten(SegmentsOf(segs, id)) + if ended != [] && ended[0].id == id then ended[0].events else []
  {
    if ended == [] {
      assert segs + ended == segs;
    } else {
      assert ended == [ended[0]];
      SegmentsOfSnoc(segs, ended[0], id);
    }
  }

  lemma Regroup<T>(cut: seq<T>, open: seq<T>, more: seq<T>, moved: seq<T>, open': seq<T>)
    requires (moved == open + more && open' == []) || (moved == [] && open' == open + more)
    ensures (cut + moved) + open' == cut + open + more
  {
    Assoc(cut, open, more);
  }

  /** Everything session `id` has had accepted, segment by segment. */
  function Parts(h: History, id: string, maxBytes: int): seq<Taken> {
    Flatten(SegmentsOf(Closings(h, maxBytes), id)) + Open(h, id, maxBytes)
  }

  lemma PartitionStep(h: History, x: Item, id: string, maxBytes: int)
    ensures Parts(Then(h, x), id, maxBytes) == Parts(h, id, maxBytes) + Grown(x, id)
  {
    var ended := Ended(h, x, maxBytes);
    var moved := if ended != [] && ended[0].id == id then ended[0].events else [];
    EndedOrOpen(h, x, id, maxBytes);
    SegmentsOfEnded(Closings(h, maxBytes), ended, id);
    Regroup(Flatten(SegmentsOf(Closings(h, maxBytes), id)), Open(h, id, maxBytes), Grown(x, id),
            moved, Open(Then(h, x), id, maxBytes));
  }

  /** The segments of a session, then its open events, are its accepted events in arrival order. */
  lemma {:induction false} SegmentsPartitionAccepted(h: History, id: string, maxBytes: int)
    ensures Flatten(SegmentsOf(Closings(h, maxBytes), id)) + Open(h, id, maxBytes) == AcceptedOf(h, id)
  {
    if h.Then? {
      SegmentsPartitionAccepted(h.past, id, maxBytes);
      PartitionStep(h.past, h.last, id, maxBytes);
    }
  }

  /** Every accepted event is in exactly one segment. */
  ghost predicate NothingOpen(h: History, maxBytes: int) {
    forall id :: Flatten(SegmentsOf(Closings(h, maxBytes), id)) == AcceptedOf(h, id)
  }

  lemma AllAcceptedOffered(h: History, maxBytes: int)
    requires Folds(h, maxBytes) == map[]
    ensures NothingOpen(h, maxBytes)
  {
    forall id ensures Flatten(SegmentsOf(Closings(h, maxBytes), id)) == AcceptedOf(h, id) {
      FoldsAreOpen(h, id, maxBytes);
      SegmentsPartitionAccepted(h, id, maxBytes);
    }
  }

  /** A committed segment is at most one event larger than the limit. */
  lemma SegmentBytes(s: Segment, maxBytes: int)
    requires WellCut(s, maxBytes)
    ensures Bytes(s.events) <= (if maxBytes < 0 then 0 else maxBytes) + |s.events[|s.events| - 1].e.payload|
  {
    var n := |s.events|;
    if n > 1 {
      assert Bytes(s.events[..n - 1]) <= maxBytes;
    }
  }

  // ------------------------------------------------------------------ the state the code keeps

  /** The session state reached by folding open events. */
  ghost function StateOf(evs: seq<Taken>): SessionState
    requires evs != []
  {
    var first := evs[0].e;
    SessionState(first.sessionId, first.fixtureId, first.schemaVersion, first.service,
                 LastPayload(evs, Input), LastPayload(evs, Output),
                 PayloadsOf(evs, Stub), PayloadsOf(evs, Metadata),
                 Bytes(evs), evs[0].at, evs[|evs| - 1].at)
  }

  function BuildBundle(s: SessionState): (b: FixtureBundle)
    ensures forall evs: seq<Taken> :: evs != [] && s == StateOf(evs) ==> b == BundleOf(evs)
  {
    FixtureBundle(s.schemaVersion, s.fixtureId, s.sessionId, s.createdAt, s.service,
                  s.input, s.stubs, s.goldenOutput, s.metadata)
  }

  /** What one more event does to the folded state. */
  lemma StateOfSnoc(evs: seq<Taken>, t: Taken)
    ensures var all := evs + [t];
            && Bytes(all) == Bytes(evs) + |t.e.payload|
            && (forall ty :: PayloadsOf(all, ty) ==
                  if t.e.eventType == ty then PayloadsOf(evs, ty) + [t.e.payload] else PayloadsOf(evs, ty))
            && (forall ty :: LastPayload(all, ty) ==
                  if t.e.eventType == ty then Some(t.e.payload) else LastPayload(evs, ty))
  {
    assert (evs + [t])[..|evs|] == evs;
  }

  /** The folds of the open segments of `h`, by session. */
  ghost function Folds(h: History, maxBytes: int): map<string, SessionState> {
    match h
    case Start => map[]
    case Then(past, x) =>
      if x.Refuse? then Folds(past, maxBytes)
      else
        var id := if x.Cut? then x.id else x.e.sessionId;
        var o := OpenStep(Open(past, id, maxBytes), x, id, maxBytes);
        if o == [] then Folds(past, maxBytes) - {id} else Folds(past, maxBytes)[id := StateOf(o)]
  }

  /** Every item had its reason: an event is refused exactly if its session is new while the manager is
      full, and a session is cut because it is old or the manager shuts down. */
  ghost predicate Justified(h: History, cfg: Config) {
    match h
    case Start => true
    case Then(past, x) => Justified(past, cfg) && JustifiedItem(Folds(past, cfg.maxSessionBytes), x, cfg)
  }

  predicate JustifiedItem(active: map<string, SessionState>, x: Item, cfg: Config) {
    match x
    case Accept(e, _) => e.sessionId in active || |active| < cfg.maxActiveSessions
    case Refuse(e, _) => e.sessionId !in active && |active| >= cfg.maxActiveSessions
    case Cut(id, why, at) =>
      id in active && (why == ShutdownFlush || (why == Expired && at - active[id].createdAt >= cfg.maxSessionAge))
  }

  /** A session is active exactly while it has open events, and its state is their fold. */
  lemma {:induction false} FoldsAreOpen(h: History, id: string, maxBytes: int)
    ensures id in Folds(h, maxBytes) <==> Open(h, id, maxBytes) != []
    ensures id in Folds(h, maxBytes) ==> Folds(h, maxBytes)[id] == StateOf(Open(h, id, maxBytes))
  {
    if h.Then? {
      FoldsAreOpen(h.past, id, maxBytes);
    }
  }

  /** A retained session never holds more than the byte limit. */
  lemma RetainedBytes(h: History, id: string, maxBytes: int)
    requires id in Folds(h, maxBytes)
    ensures Folds(h, maxBytes)[id].totalBytes <= maxBytes
  {
    FoldsAreOpen(h, id, maxBytes);
    OpenShape(h, id, maxBytes);
    var o := Open(h, id, maxBytes);
    assert o[..|o|] == o;
  }

  /** The bundles that a history must have offered to the spool, in order. */
  ghost function Offers(h: History, maxBytes: int): seq<FixtureBundle> {
    match h
    case Start => []
    case Then(past, x) =>
      var ended := Ended(past, x, maxBytes);
      if ended != [] && ended[0].events != [] then Offers(past, maxBytes) + [BundleOf(ended[0].events)]
      else Offers(past, maxBytes)
  }

  /** One bundle for each segment, in the order in which the segments ended. */
  lemma {:induction false} OffersAreSegments(h: History, maxBytes: int)
    requires Legal(h, maxBytes)
    ensures var c := Closings(h, maxBytes);
            && |Offers(h, maxBytes)| == |c|
            && forall k :: 0 <= k < |c| ==> c[k].events != [] && Offers(h, maxBytes)[k] == BundleOf(c[k].events)
  {
    if h.Then? {
      OffersAreSegments(h.past, maxBytes);
    }
  }

  /** The fields after one more event, as the code sets them one by one. */
  ghost function Folded(s: SessionState, e: Envelope, now: int): SessionState {
    s.(lastEventAt := now,
       totalBytes := s.totalBytes + |e.payload|,
       input := if e.eventType == Input then Some(e.payload) else s.input,
       goldenOutput := if e.eventType == Output then Some(e.payload) else s.goldenOutput,
       stubs := if e.eventType == Stub then s.stubs + [e.payload] else s.stubs,
       metadata := if e.eventType == Metadata then s.metadata + [e.payload] else s.metadata)
  }

  function Fresh(e: Envelope, now: int): SessionState {
    SessionState(e.sessionId, e.fixtureId, e.schemaVersion, e.service, None, None, [], [], 0, now, now)
  }

  lemma FoldedIsStateOf(o: seq<Taken>, e: Envelope, now: int)
    ensures StateOf(o + [Taken(e, now)]) == Folded(if o == [] then Fresh(e, now) else StateOf(o), e, now)
  {
    StateOfSnoc(o, Taken(e, now));
  }

  /** An accepted event closes its session exactly on Output or overflow. */
  lemma AcceptCloses(h: History, e: Envelope, now: int, maxBytes: int)
    ensures var evs := Open(h, e.sessionId, maxBytes) + [Taken(e, now)];
            ClosedBy(evs, maxBytes).Some? <==> e.eventType == Output || StateOf(evs).totalBytes > maxBytes
  {
  }

  /** What an accepted event does to the folds and the offers. */
  lemma AcceptFolds(h: History, e: Envelope, now: int, maxBytes: int)
    ensures var id, h', evs := e.sessionId, Then(h, Accept(e, now)), Open(h, e.sessionId, maxBytes) + [Taken(e, now)];
            if ClosedBy(evs, maxBytes).Some? then
              && Folds(h', maxBytes) == Folds(h, maxBytes) - {id}
              && Offers(h', maxBytes) == Offers(h, maxBytes) + [BundleOf(evs)]
            else
              && Folds(h', maxBytes) == Folds(h, maxBytes)[id := StateOf(evs)]
              && Offers(h', maxBytes) == Offers(h, maxBytes)
  {
    var id, x, o := e.sessionId, Accept(e, now), Open(h, e.sessionId, maxBytes);
    var evs := o + [Taken(e, now)];
    assert evs != [];
    assert OpenStep(o, x, id, maxBytes) == if ClosedBy(evs, maxBytes).Some? then [] else evs;
  }

  /** What accepting an event must leave behind: either the session stays open with the new fold,
      or it is gone and its bundle was offered. */
  lemma AcceptStep(active: map<string, SessionState>, offered: seq<FixtureBundle>, h: History,
                   e: Envelope, now: int, maxBytes: int)
    requires Legal(h, maxBytes) && active == Folds(h, maxBytes) && offered == Offers(h, maxBytes)
    ensures var x, id := Accept(e, now), e.sessionId;
            var s := Folded(if id in active then active[id] else Fresh(e, now), e, now);
            && Legal(Then(h, x), maxBytes)
            && if e.eventType == Output || s.totalBytes > maxBytes then
                 && active - {id} == Folds(Then(h, x), maxBytes)
                 && offered + [BuildBundle(s)] == Offers(Then(h, x), maxBytes)
               else
                 && active[id := s] == Folds(Then(h, x), maxBytes)
                 && offered == Offers(Then(h, x), maxBytes)
  {
    var o := Open(h, e.sessionId, maxBytes);
    FoldsAreOpen(h, e.sessionId, maxBytes);
    FoldedIsStateOf(o, e, now);
    AcceptCloses(h, e, now, maxBytes);
    AcceptFolds(h, e, now, maxBytes);
  }

  lemma RefuseStep(active: map<string, SessionState>, offered: seq<FixtureBundle>, h: History,
                   e: Envelope, now: int, maxBytes: int)
    requires Legal(h, maxBytes) && active == Folds(h, maxBytes) && offered == Offers(h, maxBytes)
    ensures var h' := Then(h, Refuse(e, now));
            Legal(h', maxBytes) && active == Folds(h', maxBytes) && offered == Offers(h', maxBytes)
  {
    var x := Refuse(e, now);
  }

  lemma CutStep(active: map<string, SessionState>, offered: seq<FixtureBundle>, h: History,
                id: string, why: Why, now: int, maxBytes: int)
    requires Legal(h, maxBytes) && active == Folds(h, maxBytes) && offered == Offers(h, maxBytes)
    requires id in active && (why == Expired || why == ShutdownFlush)
    ensures var h' := Then(h, Cut(id, why, now));
            && Legal(h', maxBytes) && active - {id} == Folds(h', maxBytes)
            && offered + [BuildBundle(active[id])] == Offers(h', maxBytes)
  {
    var x := Cut(id, why, now);
    FoldsAreOpen(h, id, maxBytes);
  }

  // ------------------------------------------------------------------ ages

  /** Open sessions are younger than `maxAge` was at the last tick. */
  ghost predicate Young(h: History, tick: int, maxAge: int, maxBytes: int) {
    forall id :: Open(h, id, maxBytes) != [] ==> Open(h, id, maxBytes)[0].at > tick - maxAge
  }

  /** Every segment ended less than `bound` after its first event. */
  ghost predicate Spans(h: History, bound: int, maxBytes: int) {
    forall s :: s in Closings(h, maxBytes) && s.events != [] ==> s.closedAt - s.events[0].at < bound
  }

  ghost predicate Aged(h: History, tick: int, maxAge: int, maxBytes: int) {
    Young(h, tick, maxAge, maxBytes) && Spans(h, maxAge + maxAge / 2, maxBytes)
  }

  lemma AgeStep(h: History, x: Item, tick: int, maxAge: int, maxBytes: int)
    requires maxAge >= 2
    ensures Aged(h, tick, maxAge, maxBytes) && tick <= x.at <= tick + maxAge / 2 ==>
              Aged(Then(h, x), tick, maxAge, maxBytes)
  {
  }

  lemma {:induction false} AgeCuts(h: History, ids: seq<string>, why: Why, now: int,
                                   tick: int, maxAge: int, maxBytes: int)
    requires maxAge >= 2
    ensures Aged(h, tick, maxAge, maxBytes) && tick <= now <= tick + maxAge / 2 ==>
              Aged(CutAll(h, ids, why, now), tick, maxAge, maxBytes)
  {
    if ids != [] {
      var n := |ids| - 1;
      AgeCuts(h, ids[..n], why, now, tick, maxAge, maxBytes);
      AgeStep(CutAll(h, ids[..n], why, now), Cut(ids[n], why, now), tick, maxAge, maxBytes);
    }
  }

  /** One branch taken by the select loop. */
  datatype Selected = Arrive(e: Envelope, at: int) | TickerFires(at: int)

  function LastTick(script: seq<Selected>, start: int): int {
    if script == [] then start
    else
      var x := script[|script| - 1];
      if x.TickerFires? then x.at else LastTick(script[..|script| - 1], start)
  }

  /** Ticks are undelayed: nothing happens later than half of `maxAge` after the last one. */
  ghost predicate OnTime(script: seq<Selected>, start: int, stopAt: int, maxAge: int) {
    && (forall k :: 0 <= k < |script| ==>
          LastTick(script[..k], start) <= script[k].at <= LastTick(script[..k], start) + maxAge / 2)
    && LastTick(script, start) <= stopAt <= LastTick(script, start) + maxAge / 2
  }

  function ArrivalsIn(script: seq<Selected>): seq<Taken> {
    if script == [] then []
    else
      var rest, x := ArrivalsIn(script[..|script| - 1]), script[|script| - 1];
      if x.Arrive? then rest + [Taken(x.e, x.at)] else rest
  }

  function ArrivalsOf(h: History): seq<Taken> {
    match h
    case Start => []
    case Then(past, x) => ArrivalsOf(past) + if x.Cut? then [] else [Taken(x.e, x.at)]
  }

  ghost function ExpiredIn(active: map<string, SessionState>, now: int, maxAge: int): set<string> {
    set id | id in active && now - active[id].createdAt >= maxAge
  }

  /** A sweep over `all` that has still to look at `pending` and has cut `cut`. */
  ghost predicate Sweeping(all: map<string, SessionState>, active: map<string, SessionState>,
                           pending: set<string>, cut: seq<string>, expired: set<string>)
  {
    pending <= active.Keys && NoDup(cut) && Elems(cut) == expired - pending && active == all - Elems(cut)
  }

  lemma SweepBegins(all: map<string, SessionState>, now: int, maxAge: int)
    ensures Sweeping(all, all, all.Keys, [], ExpiredIn(all, now, maxAge))
  {
    assert all - Elems([]) == all;
  }

  lemma SweepLooks(all: map<string, SessionState>, active: map<string, SessionState>,
                   pending: set<string>, cut: seq<string>, id: string, now: int, maxAge: int)
    requires Sweeping(all, active, pending, cut, ExpiredIn(all, now, maxAge)) && id in pending
    ensures id in active && (id in ExpiredIn(all, now, maxAge) <==> now - active[id].createdAt >= maxAge)
  {
    assert active[id] == all[id];
  }

  lemma SweepCuts(all: map<string, SessionState>, active: map<string, SessionState>,
                  pending: set<string>, cut: seq<string>, expired: set<string>, id: string)
    requires Sweeping(all, active, pending, cut, expired) && id in pending && id in expired
    ensures Sweeping(all, active - {id}, pending - {id}, cut + [id], expired)
  {
    ElemsSnoc(cut, id);
    assert all - (Elems(cut) + {id}) == (all - Elems(cut)) - {id};
  }

  lemma SweepKeeps(all: map<string, SessionState>, active: map<string, SessionState>,
                   pending: set<string>, cut: seq<string>, expired: set<string>, id: string)
    requires Sweeping(all, active, pending, cut, expired) && id in pending && id !in expired
    ensures Sweeping(all, active, pending - {id}, cut, expired)
  {
  }

  /** `h` followed by a cut of each of `ids`. */
  function CutAll(h: History, ids: seq<string>, why: Why, now: int): History {
    if ids == [] then h
    else Then(CutAll(h, ids[..|ids| - 1], why, now), Cut(ids[|ids| - 1], why, now))
  }

  lemma CutAllSnoc(h: History, ids: seq<string>, id: string, why: Why, now: int)
    ensures CutAll(h, ids + [id], why, now) == Then(CutAll(h, ids, why, now), Cut(id, why, now))
  {
    assert (ids + [id])[..|ids|] == ids;
  }

  lemma {:induction false} CutsAreNoArrivals(h: History, ids: seq<string>, why: Why, now: int)
    ensures ArrivalsOf(CutAll(h, ids, why, now)) == ArrivalsOf(h)
  {
    if ids != [] {
      CutsAreNoArrivals(h, ids[..|ids| - 1], why, now);
    }
  }

  /** What a sweep at time `now` leaves behind is younger than the age limit. */
  lemma SweptAreYoung(active: map<string, SessionState>, h: History, now: int, maxAge: int, maxBytes: int)
    requires active - ExpiredIn(active, now, maxAge) == Folds(h, maxBytes)
    ensures Young(h, now, maxAge, maxBytes)
  {
    forall id | Open(h, id, maxBytes) != [] ensures Open(h, id, maxBytes)[0].at > now - maxAge {
      FoldsAreOpen(h, id, maxBytes);
    }
  }

  /** The select loop has taken the branches `done` and reached `h`. */
  ghost predicate Reached(h: History, done: seq<Selected>, start: int, onTime: bool, cfg: Config) {
    && ArrivalsOf(h) == ArrivalsIn(done)
    && (onTime ==> Aged(h, LastTick(done, start), cfg.maxSessionAge, cfg.maxSessionBytes))
  }

  lemma ReachedStep(h: History, h': History, script: seq<Selected>, k: nat, start: int, stopAt: int, cfg: Config)
    requires k < |script| && Reached(h, script[..k], start, OnTime(script, start, stopAt, cfg.maxSessionAge), cfg)
    requires var x := script[k];
             ArrivalsOf(h') == ArrivalsOf(h) + if x.Arrive? then [Taken(x.e, x.at)] else []
    requires var x, tick := script[k], LastTick(script[..k], start);
             var maxAge, maxBytes := cfg.maxSessionAge, cfg.maxSessionBytes;
             Aged(h, tick, maxAge, maxBytes) && tick <= x.at <= tick + maxAge / 2 ==>
               Aged(h', if x.Arrive? then tick else x.at, maxAge, maxBytes)
    ensures Reached(h', script[..k + 1], start, OnTime(script, start, stopAt, cfg.maxSessionAge), cfg)
  {
    assert script[..k + 1][..k] == script[..k];
  }

  /** What the shutdown flush makes of a run. */
  lemma ReachedEnd(h: History, cut: seq<string>, script: seq<Selected>, start: int, stopAt: int, cfg: Config)
    requires Reached(h, script, start, OnTime(script, start, stopAt, cfg.maxSessionAge), cfg)
    requires Folds(CutAll(h, cut, ShutdownFlush, stopAt), cfg.maxSessionBytes) == map[] && cfg.maxSessionAge >= 2
    ensures var h', maxBytes := CutAll(h, cut, ShutdownFlush, stopAt), cfg.maxSessionBytes;
            && ArrivalsOf(h') == ArrivalsIn(script)
            && NothingOpen(h', maxBytes)
            && (OnTime(script, start, stopAt, cfg.maxSessionAge) ==>
                  Spans(h', cfg.maxSessionAge + cfg.maxSessionAge / 2, maxBytes))
  {
    CutsAreNoArrivals(h, cut, ShutdownFlush, stopAt);
    AgeCuts(h, cut, ShutdownFlush, stopAt, LastTick(script, start), cfg.maxSessionAge, cfg.maxSessionBytes);
    AllAcceptedOffered(CutAll(h, cut, ShutdownFlush, stopAt), cfg.maxSessionBytes);
  }

  // ------------------------------------------------------------------ the loop, branch by branch

  /** What becomes of an arriving event. */
  function Arrived(active: map<string, SessionState>, e: Envelope, at: int, cfg: Config): Item {
    if e.sessionId !in active && |active| >= cfg.maxActiveSessions then Refuse(e, at) else Accept(e, at)
  }

  /** One branch leads from `h` to `h'`: an arrival is accepted or refused, a tick cuts exactly the
      expired sessions, in some order. */
  ghost predicate Takes(h: History, x: Selected, cut: seq<string>, h': History, cfg: Config) {
    var active := Folds(h, cfg.maxSessionBytes);
    match x
    case Arrive(e, at) => cut == [] && h' == Then(h, Arrived(active, e, at, cfg))
    case TickerFires(at) =>
      && NoDup(cut) && Elems(cut) == ExpiredIn(active, at, cfg.maxSessionAge)
      && h' == CutAll(h, cut, Expired, at)
  }

  ghost predicate TakesAt(hs: seq<History>, script: seq<Selected>, cuts: seq<seq<string>>, cfg: Config, k: nat)
    requires |hs| == |script| + 1 && |cuts| == |script| && k < |script|
  {
    Takes(hs[k], script[k], cuts[k], hs[k + 1], cfg)
  }

  /** The loop took the branches of `script` and went through the histories `hs`. */
  ghost predicate Loops(hs: seq<History>, script: seq<Selected>, cuts: seq<seq<string>>, cfg: Config) {
    && |hs| == |script| + 1 && |cuts| == |script| && hs[0] == Start
    && forall k :: 0 <= k < |script| ==> TakesAt(hs, script, cuts, cfg, k)
  }

  /** The shutdown cuts every session that is still active. */
  ghost predicate Flushes(h: History, cut: seq<string>, stopAt: int, h': History, cfg: Config) {
    && NoDup(cut) && Elems(cut) == Folds(h, cfg.maxSessionBytes).Keys
    && h' == CutAll(h, cut, ShutdownFlush, stopAt)
  }

  lemma LoopsOnce(hs: seq<History>, script: seq<Selected>, cuts: seq<seq<string>>, cfg: Config,
                  k: nat, cut: seq<string>, h: History)
    requires k < |script| && Loops(hs, script[..k], cuts, cfg) && Takes(hs[k], script[k], cut, h, cfg)
    ensures Loops(hs + [h], script[..k + 1], cuts + [cut], cfg)
  {
    var hs', done, cuts' := hs + [h], script[..k + 1], cuts + [cut];
    forall j | 0 <= j < k + 1 ensures TakesAt(hs', done, cuts', cfg, j) {
      if j < k {
        assert TakesAt(hs, script[..k], cuts, cfg, j);
      }
    }
  }

  /** What a run of cuts closes: the open events of each session in it. */
  lemma {:induction false} CutAllCloses(h: History, ids: seq<string>, why: Why, now: int, maxBytes: int, s: Segment)
    requires NoDup(ids) && s in Closings(CutAll(h, ids, why, now), maxBytes) && s !in Closings(h, maxBytes)
    ensures s.id in Elems(ids) && s == Segment(s.id, Open(h, s.id, maxBytes), why, now)
  {
    var n := |ids| - 1;
    var before := CutAll(h, ids[..n], why, now);
    if s in Closings(before, maxBytes) {
      CutAllCloses(h, ids[..n], why, now, maxBytes, s);
      assert s.id in ids[..n];
    } else {
      assert s in Ended(before, Cut(ids[n], why, now), maxBytes);
      CutAllKeeps(h, ids[..n], why, now, ids[n], maxBytes);
    }
  }

  lemma {:induction false} CutAllKeeps(h: History, ids: seq<string>, why: Why, now: int, id: string, maxBytes: int)
    requires id !in ids
    ensures Open(CutAll(h, ids, why, now), id, maxBytes) == Open(h, id, maxBytes)
  {
    if ids != [] {
      CutAllKeeps(h, ids[..|ids| - 1], why, now, id, maxBytes);
    }
  }

  /** Branch `x` ended the segment: an Output or an overflow closes it when its last event arrives, a
      tick closes it at the full age. */
  ghost predicate EndedBy(s: Segment, x: Selected, cfg: Config) {
    && s.events != [] && s.closedAt == x.at
    && match x
       case Arrive(e, at) =>
         (s.why == OutputReceived || s.why == SizeOverflow) && s.events[|s.events| - 1] == Taken(e, at)
       case TickerFires(at) => s.why == Expired && at - s.events[0].at >= cfg.maxSessionAge
  }

  ghost predicate EndedInLoop(s: Segment, script: seq<Selected>, cfg: Config) {
    exists x :: x in script && EndedBy(s, x, cfg)
  }

  /** The reason of a segment, in terms of the branches taken; only the shutdown flushes. */
  ghost predicate Explained(s: Segment, script: seq<Selected>, stopAt: int, cfg: Config) {
    if s.why == ShutdownFlush then s.events != [] && s.closedAt == stopAt else EndedInLoop(s, script, cfg)
  }

  /** Arrivals are kept in order, and a timely tick renews the age bound of all open sessions. */
  lemma TakesAges(h: History, x: Selected, cut: seq<string>, h': History, tick: int, cfg: Config)
    requires Takes(h, x, cut, h', cfg) && cfg.maxSessionAge >= 2
    ensures ArrivalsOf(h') == ArrivalsOf(h) + if x.Arrive? then [Taken(x.e, x.at)] else []
    ensures var maxAge, maxBytes := cfg.maxSessionAge, cfg.maxSessionBytes;
            Aged(h, tick, maxAge, maxBytes) && tick <= x.at <= tick + maxAge / 2 ==>
              Aged(h', if x.Arrive? then tick else x.at, maxAge, maxBytes)
  {
    var maxAge, maxBytes := cfg.maxSessionAge, cfg.maxSessionBytes;
    if x.Arrive? {
      AgeStep(h, h'.last, tick, maxAge, maxBytes);
    } else {
      CutsAreNoArrivals(h, cut, Expired, x.at);
      AgeCuts(h, cut, Expired, x.at, tick, maxAge, maxBytes);
      CutAllFolds(h, cut, Expired, x.at, maxBytes);
      SweptAreYoung(Folds(h, maxBytes), h', x.at, maxAge, maxBytes);
    }
  }

  /** Cuts remove the sessions they name. */
  lemma {:induction false} CutAllFolds(h: History, ids: seq<string>, why: Why, now: int, maxBytes: int)
    ensures Folds(CutAll(h, ids, why, now), maxBytes) == Folds(h, maxBytes) - Elems(ids)
  {
    if ids == [] {
      assert Folds(h, maxBytes) - Elems(ids) == Folds(h, maxBytes);
    } else {
      var n := |ids| - 1;
      CutAllFolds(h, ids[..n], why, now, maxBytes);
      assert ids[..n] + [ids[n]] == ids;
      ElemsSnoc(ids[..n], ids[n]);
      assert Folds(h, maxBytes) - Elems(ids[..n]) - {ids[n]} == Folds(h, maxBytes) - Elems(ids);
    }
  }

  lemma TakesExplains(h: History, x: Selected, cut: seq<string>, h': History, cfg: Config, s: Segment)
    requires Takes(h, x, cut, h', cfg)
    requires s in Closings(h', cfg.maxSessionBytes) && s !in Closings(h, cfg.maxSessionBytes)
    ensures EndedBy(s, x, cfg)
  {
    if x.TickerFires? {
      CutAllCloses(h, cut, Expired, x.at, cfg.maxSessionBytes, s);
      FoldsAreOpen(h, s.id, cfg.maxSessionBytes);
    } else {
      assert s in Ended(h, h'.last, cfg.maxSessionBytes);
    }
  }

  /** No segment of the loop ends without one of its reasons. */
  lemma {:induction false} LoopExplains(hs: seq<History>, script: seq<Selected>, cuts: seq<seq<string>>, cfg: Config,
                                        k: nat, s: Segment)
    requires Loops(hs, script, cuts, cfg) && k <= |script| && s in Closings(hs[k], cfg.maxSessionBytes)
    ensures EndedInLoop(s, script, cfg)
  {
    if k > 0 {
      assert TakesAt(hs, script, cuts, cfg, k - 1);
      if s in Closings(hs[k - 1], cfg.maxSessionBytes) {
        LoopExplains(hs, script, cuts, cfg, k - 1, s);
      } else {
        TakesExplains(hs[k - 1], script[k - 1], cuts[k - 1], hs[k], cfg, s);
      }
    }
  }

  /** Every segment of a run is explained by the branches taken; only the shutdown flushes. */
  lemma RunExplains(hs: seq<History>, script: seq<Selected>, cuts: seq<seq<string>>, last: seq<string>, stopAt: int,
                    h: History, cfg: Config)
    requires Loops(hs, script, cuts, cfg) && Flushes(hs[|script|], last, stopAt, h, cfg)
    ensures forall s :: s in Closings(h, cfg.maxSessionBytes) ==> Explained(s, script, stopAt, cfg)
    ensures forall s :: s in Closings(h, cfg.maxSessionBytes) && s.why == ShutdownFlush ==>
                          s.id in last && s.events == Open(hs[|script|], s.id, cfg.maxSessionBytes)
  {
    var before := hs[|script|];
    forall s | s in Closings(h, cfg.maxSessionBytes)
      ensures Explained(s, script, stopAt, cfg)
      ensures s.why == ShutdownFlush ==> s.id in last && s.events == Open(before, s.id, cfg.maxSessionBytes)
    {
      if s in Closings(before, cfg.maxSessionBytes) {
        LoopExplains(hs, script, cuts, cfg, |script|, s);
      } else {
        CutAllCloses(before, last, ShutdownFlush, stopAt, cfg.maxSessionBytes, s);
        FoldsAreOpen(before, s.id, cfg.maxSessionBytes);
      }
    }
  }

  class Manager {
    const cfg: Config
    var active: map<string, SessionState>
    var activeSessions: int
    /** The bundles handed to `Commit`; its result only reaches the log. */
    var offered: seq<FixtureBundle>
    ghost var history: History

    ghost predicate Valid()
      reads this
    {
      && activeSessions == |active| <= (if cfg.maxActiveSessions < 0 then 0 else cfg.maxActiveSessions)
      && Legal(history, cfg.maxSessionBytes) && Justified(history, cfg)
      && active == Folds(history, cfg.maxSessionBytes)
      && offered == Offers(history, cfg.maxSessionBytes)
    }

    constructor (cfg: Config)
      ensures Valid() && this.cfg == cfg
      ensures active == map[] && offered == [] && history == Start
    {
      this.cfg := cfg;
      active, activeSessions, offered, history := map[], 0, [], Start;
    }

    method CommitAndDelete(id: string, s: SessionState)
      requires id in active
      modifies this`active, this`activeSessions, this`offered
      ensures active == old(active) - {id} && activeSessions == old(activeSessions) - 1
      ensures offered == old(offered) + [BuildBundle(s)]
    {
      offered := offered + [BuildBundle(s)];
      active := active - {id};
      activeSessions := activeSessions - 1;
    }

    /** The switch on the event type: one field per type, and the running byte count.  (The source
        counts the bytes of an Output inside its branch, which then commits.) */
    method TakePayload(id: string, e: Envelope, now: int)
      requires id in active
      modifies this`active
      ensures active == old(active)[id := Folded(old(active)[id], e, now)]
    {
      var s := active[id].(lastEventAt := now);
      match e.eventType {
        case Input => s := s.(input := Some(e.payload));
        case Stub => s := s.(stubs := s.stubs + [e.payload]);
        case Output => s := s.(goldenOutput := Some(e.payload));
        case Metadata => s := s.(metadata := s.metadata + [e.payload]);
        case Other(_) =>
      }
      s := s.(totalBytes := s.totalBytes + |e.payload|);
      active := active[id := s];
    }

    /** The part of `handleEvent` below the capacity check. */
    method Absorb(e: Envelope, now: int)
      requires activeSessions == |active|
      modifies this`active, this`activeSessions, this`offered
      ensures activeSessions == |active|
      ensures var id := e.sessionId;
              var s := Folded(if id in old(active) then old(active)[id] else Fresh(e, now), e, now);
              if e.eventType == Output || s.totalBytes > cfg.maxSessionBytes
              then active == old(active) - {id} && offered == old(offered) + [BuildBundle(s)]
              else active == old(active)[id := s] && offered == old(offered)
    {
      var id := e.sessionId;
      if id !in active {
        active := active[id := Fresh(e, now)];
        activeSessions := activeSessions + 1;
      }
      TakePayload(id, e, now);
      if e.eventType == Output || active[id].totalBytes > cfg.maxSessionBytes {
        CommitAndDelete(id, active[id]);
      }
    }

    /** The event joins its session unless that session is new and the manager is full. */
    method HandleEvent(e: Envelope, now: int)
      requires Valid()
      modifies this
      ensures Valid()
      ensures history == Then(old(history), Arrived(old(active), e, now, cfg))
    {
      if e.sessionId !in active && activeSessions >= cfg.maxActiveSessions {
        RefuseStep(active, offered, history, e, now, cfg.maxSessionBytes);
        history := Then(history, Refuse(e, now));
        return;
      }
      AcceptStep(active, offered, history, e, now, cfg.maxSessionBytes);
      Absorb(e, now);
      history := Then(history, Accept(e, now));
    }

    /** One forced commit, as both sweeps perform it. */
    method CutOne(id: string, why: Why, now: int)
      requires Valid() && id in active
      requires why == ShutdownFlush || (why == Expired && now - active[id].createdAt >= cfg.maxSessionAge)
      modifies this
      ensures Valid() && active == old(active) - {id}
      ensures history == Then(old(history), Cut(id, why, now))
    {
      CutStep(active, offered, history, id, why, now, cfg.maxSessionBytes);
      CommitAndDelete(id, active[id]);
      history := Then(history, Cut(id, why, now));
    }

    /** Exactly the expired sessions are cut, each once; Go's map order is any order. */
    method SweepExpired(now: int) returns (ghost cut: seq<string>)
      requires Valid()
      modifies this
      ensures Valid()
      ensures NoDup(cut) && Elems(cut) == ExpiredIn(old(active), now, cfg.maxSessionAge)
      ensures active == old(active) - Elems(cut)
      ensures history == CutAll(old(history), cut, Expired, now)
    {
      ghost var expired := ExpiredIn(active, now, cfg.maxSessionAge);
      var pending := active.Keys;
      cut := [];
      SweepBegins(active, now, cfg.maxSessionAge);
      while pending != {}
        invariant Valid() && Sweeping(old(active), active, pending, cut, expired)
        invariant history == CutAll(old(history), cut, Expired, now)
        decreases |pending|
      {
        var id :| id in pending;
        SweepLooks(old(active), active, pending, cut, id, now, cfg.maxSessionAge);
        cut := SweepOne(id, now, old(active), pending, cut, expired, old(history));
        pending := pending - {id};
      }
    }

    method SweepOne(id: string, now: int, ghost all: map<string, SessionState>, ghost pending: set<string>,
                    ghost cut: seq<string>, ghost expired: set<string>, ghost h: History)
      returns (ghost cut': seq<string>)
      requires Valid() && Sweeping(all, active, pending, cut, expired) && id in pending && id in active
      requires id in expired <==> now - active[id].createdAt >= cfg.maxSessionAge
      requires history == CutAll(h, cut, Expired, now)
      modifies this
      ensures Valid() && Sweeping(all, active, pending - {id}, cut', expired)
      ensures history == CutAll(h, cut', Expired, now)
    {
      cut' := cut;
      if now - active[id].createdAt >= cfg.maxSessionAge {
        SweepCuts(all, active, pending, cut, expired, id);
        CutOne(id, Expired, now);
        CutAllSnoc(h, cut, id, Expired, now);
        cut' := cut + [id];
      } else {
        SweepKeeps(all, active, pending, cut, expired, id);
      }
    }

    method FlushAll(now: int) returns (ghost cut: seq<string>)
      requires Valid()
      modifies this
      ensures Valid() && active == map[]
      ensures NoDup(cut) && Elems(cut) == old(active).Keys
      ensures history == CutAll(old(history), cut, ShutdownFlush, now)
    {
      var pending := active.Keys;
      cut := [];
      while pending != {}
        invariant Valid() && pending == active.Keys && Sweeping(old(active), active, pending, cut, old(active).Keys)
        invariant history == CutAll(old(history), cut, ShutdownFlush, now)
        decreases |pending|
      {
        var id :| id in pending;
        SweepCuts(old(active), active, pending, cut, old(active).Keys, id);
        pending := pending - {id};
        CutOne(id, ShutdownFlush, now);
        CutAllSnoc(old(history), cut, id, ShutdownFlush, now);
        cut := cut + [id];
      }
    }

    /** One turn of the select loop. */
    method Select(x: Selected, ghost tick: int) returns (ghost cut: seq<string>)
      requires Valid() && cfg.maxSessionAge >= 2
      modifies this
      ensures Valid() && Takes(old(history), x, cut, history, cfg)
      ensures ArrivalsOf(history) == ArrivalsOf(old(history)) + if x.Arrive? then [Taken(x.e, x.at)] else []
      ensures var maxAge, maxBytes := cfg.maxSessionAge, cfg.maxSessionBytes;
              Aged(old(history), tick, maxAge, maxBytes) && tick <= x.at <= tick + maxAge / 2 ==>
                Aged(history, if x.Arrive? then tick else x.at, maxAge, maxBytes)
    {
      match x {
        case Arrive(e, at) =>
          HandleEvent(e, at);
          cut := [];
        case TickerFires(at) =>
          cut := SweepExpired(at);
      }
      TakesAges(old(history), x, cut, history, tick, cfg);
    }

    /** The select loop, given the branches it took until the context was cancelled or the channel
        closed.  Each branch does what it should, and the shutdown cuts what is left: no session stays
        active, every accepted event is in exactly one offered bundle, and with undelayed ticks no
        session outlived one and a half times its age limit. */
    method Run(script: seq<Selected>, ghost start: int, stopAt: int)
      returns (ghost hs: seq<History>, ghost cuts: seq<seq<string>>, ghost last: seq<string>)
      requires Valid() && active == map[] && history == Start && cfg.maxSessionAge >= 2
      modifies this
      ensures Valid() && active == map[] && activeSessions == 0
      ensures Loops(hs, script, cuts, cfg) && Flushes(hs[|script|], last, stopAt, history, cfg)
      ensures forall s :: s in Closings(history, cfg.maxSessionBytes) ==> Explained(s, script, stopAt, cfg)
      ensures ArrivalsOf(history) == ArrivalsIn(script)
      ensures NothingOpen(history, cfg.maxSessionBytes)
      ensures OnTime(script, start, stopAt, cfg.maxSessionAge) ==>
                Spans(history, cfg.maxSessionAge + cfg.maxSessionAge / 2, cfg.maxSessionBytes)
    {
      var k := 0;
      hs, cuts := [history], [];
      while k < |script|
        invariant 0 <= k <= |script| && Valid()
        invariant Loops(hs, script[..k], cuts, cfg) && hs[k] == history
        invariant Reached(history, script[..k], start, OnTime(script, start, stopAt, cfg.maxSessionAge), cfg)
      {
        ghost var before := history;
        ghost var cut := Select(script[k], LastTick(script[..k], start));
        ReachedStep(before, history, script, k, start, stopAt, cfg);
        LoopsOnce(hs, script, cuts, cfg, k, cut, history);
        hs, cuts := hs + [history], cuts + [cut];
        k := k + 1;
      }
      assert script[..k] == script;
      ghost var before := history;
      last := FlushAll(stopAt);
      ReachedEnd(before, last, script, start, stopAt, cfg);
      RunExplains(hs, script, cuts, last, stopAt, history, cfg);
    }
  }
}
