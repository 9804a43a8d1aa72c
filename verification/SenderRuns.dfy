/** Emitting threads, flushing threads and the sender thread, step by step.

    Events are numbered in the order in which they were emitted, flush requests in the order in which
    they were registered. */
module SenderRuns {
  import opened Common
  import Sender

  datatype Config = Config(policy: Sender.DropPolicy, maxBatch: nat, maxRetries: nat)

  /** `Sending`: `chunk` is being posted, `rest` is the batch after it.  `Releasing`: the waiters taken
      from the list and not yet set. */
  datatype Pc =
    | Top
    | Waiting
    | Woken
    | Draining
    | Sending(chunk: seq<nat>, rest: seq<nat>, attempt: nat)
    | Signalling
    | Releasing(taken: seq<nat>)
    | Stopped

  /** `last`: the worker saw the stop flag and is in its final round.
      Kept for the theorems: what was resolved (sent or dropped) and evicted, in order; which events
      each waiter found buffered and whether it came too late for the round under way; which events
      were buffered at some wake-up; which waiters have woken the worker; and how many waiters there
      were when the final round took the list. */
  datatype State = State(
    pc: Pc, last: bool, wake: bool, stop: bool,
    emitted: nat, buffer: seq<nat>, waiters: seq<nat>,
    sent: nat, dropped: nat,
    resolved: seq<nat>, evicted: seq<nat>, released: seq<nat>,
    need: seq<set<nat>>, late: set<nat>, noticed: set<nat>, woken: set<nat>, signalled: nat)

  function Start(): State {
    State(Top, false, false, false, 0, [], [], 0, 0, [], [], [], [], {}, {}, {}, 0)
  }

  // ------------------------------------------------------------------ steps

  /** Steps of emitting threads, flushing threads and the stopping thread. */
  datatype OuterStep = Append | AppendOver(k: nat) | Notify | Register | WakeFor(w: nat) | SetStop

  /** Steps of the sender thread. */
  datatype WorkerStep =
    | Check | WaitReturns(timeout: bool) | Clear | Drain
    | NextChunk | Acked(accepted: nat, refused: nat) | Retry | GiveUp | BatchDone
    | TakeWaiters | Release | RoundEnds

  datatype Step = Outer(o: OuterStep) | Worker(k: WorkerStep)

  function Without(s: seq<nat>, k: nat): seq<nat>
    requires k < |s|
  {
    s[..k] + s[k + 1..]
  }

  /** Which position the policy may evict. */
  predicate MayEvict(policy: Sender.DropPolicy, n: nat, k: nat) {
    match policy
    case DropOldest => k == 0
    case DropNewest => k == n - 1
    case DropRandom => true
    case DropNone => false
  }

  ghost function Wakes(s: State): State {
    s.(wake := true, noticed := s.noticed + Elems(s.buffer))
  }

  ghost predicate Outside(c: Config, s: State, a: OuterStep, s': State) {
    match a
    case Append => s' == s.(buffer := s.buffer + [s.emitted], emitted := s.emitted + 1)
    case AppendOver(k) =>
      && k < |s.buffer| && MayEvict(c.policy, |s.buffer|, k)
      && s' == s.(buffer := Without(s.buffer, k) + [s.emitted], emitted := s.emitted + 1,
                  evicted := s.evicted + [s.buffer[k]])
    case Notify => s' == Wakes(s)
    case Register =>
      s' == s.(waiters := s.waiters + [|s.need|], need := s.need + [Elems(s.buffer)],
               late := if s.pc.Sending? || s.pc.Signalling? then s.late + {|s.need|} else s.late)
    case WakeFor(w) => w < |s.need| && s' == Wakes(s).(woken := s.woken + {w})
    case SetStop => s' == s.(stop := true)
  }

  ghost predicate Inside(c: Config, s: State, a: WorkerStep, s': State) {
    match a
    case Check => s.pc == Top && s' == if s.stop then s.(last := true, pc := Draining) else s.(pc := Waiting)
    case WaitReturns(timeout) => s.pc == Waiting && (s.wake || timeout) && s' == s.(pc := Woken)
    case Clear => s.pc == Woken && s' == s.(wake := false, pc := Draining)
    case Drain =>
      s.pc == Draining && s' == s.(buffer := [], pc := if s.buffer == [] then Signalling else Sending([], s.buffer, 0))
    case NextChunk =>
      && s.pc.Sending? && s.pc.chunk == [] && s.pc.rest != []
      && var n := if c.maxBatch <= |s.pc.rest| then c.maxBatch else |s.pc.rest|;
         s' == s.(pc := Sending(s.pc.rest[..n], s.pc.rest[n..], 0))
    case Acked(accepted, refused) =>
      && s.pc.Sending? && s.pc.chunk != [] && accepted + refused == |s.pc.chunk|
      && s' == s.(pc := Sending([], s.pc.rest, 0), resolved := s.resolved + s.pc.chunk,
                  sent := s.sent + accepted, dropped := s.dropped + refused)
    case Retry =>
      && s.pc.Sending? && s.pc.chunk != [] && s.pc.attempt < c.maxRetries
      && s' == s.(pc := s.pc.(attempt := s.pc.attempt + 1))
    case GiveUp =>
      && s.pc.Sending? && s.pc.chunk != [] && s.pc.attempt >= c.maxRetries
      && s' == s.(pc := Sending([], s.pc.rest, 0), resolved := s.resolved + s.pc.chunk,
                  dropped := s.dropped + |s.pc.chunk|)
    case BatchDone => s.pc.Sending? && s.pc.chunk == [] && s.pc.rest == [] && s' == s.(pc := Signalling)
    case TakeWaiters =>
      && s.pc == Signalling
      && s' == s.(pc := Releasing(s.waiters), waiters := [], signalled := if s.last then |s.need| else s.signalled)
    case Release =>
      && s.pc.Releasing? && s.pc.taken != []
      && s' == s.(pc := Releasing(s.pc.taken[1..]), released := s.released + [s.pc.taken[0]])
    case RoundEnds => s.pc == Releasing([]) && s' == s.(pc := if s.last then Stopped else Top)
  }

  ghost predicate Does(c: Config, s: State, a: Step, s': State) {
    match a
    case Outer(o) => Outside(c, s, o, s')
    case Worker(k) => Inside(c, s, k, s')
  }

  ghost predicate Next(c: Config, s: State, s': State) {
    exists a :: Does(c, s, a, s')
  }

  ghost predicate Leads(c: Config, run: seq<State>, i: nat)
    requires 0 < i < |run|
  {
    Next(c, run[i - 1], run[i])
  }

  ghost predicate Run(c: Config, run: seq<State>) {
    run != [] && run[0] == Start() && forall i :: 0 < i < |run| ==> Leads(c, run, i)
  }

  // ------------------------------------------------------------------ conservation

  function InFlight(pc: Pc): seq<nat> {
    if pc.Sending? then pc.chunk + pc.rest else []
  }

  function Taken(pc: Pc): seq<nat> {
    if pc.Releasing? then pc.taken else []
  }

  /** All events that were not evicted, from the agent back to the buffer. */
  function Line(s: State): seq<nat> {
    s.resolved + InFlight(s.pc) + s.buffer
  }

  ghost predicate Increasing(line: seq<nat>, bound: nat) {
    && (forall i, j :: 0 <= i < j < |line| ==> line[i] < line[j])
    && (forall i :: 0 <= i < |line| ==> line[i] < bound)
  }

  /** Every event is in one place, and events never overtake each other. */
  ghost predicate Conserved(s: State) {
    && Increasing(Line(s), s.emitted)
    && |Line(s)| + |s.evicted| == s.emitted
    && (forall e :: 0 <= e < s.emitted ==> e in Line(s) || e in s.evicted)
    && |s.resolved| == s.sent + s.dropped
  }

  lemma EvictLine(line: seq<nat>, i: nat, n: nat)
    requires Increasing(line, n) && i < |line|
    ensures Increasing(Without(line, i), n)
    ensures forall e :: e in line ==> e in Without(line, i) || e == line[i]
  {
    var w := Without(line, i);
    forall j, k | 0 <= j < k < |w| ensures w[j] < w[k] {
      assert w[j] == line[if j < i then j else j + 1] && w[k] == line[if k < i then k else k + 1];
    }
    forall e | e in line ensures e in w || e == line[i] {
      var k :| 0 <= k < |line| && line[k] == e;
      if k < i {
        assert w[k] == e;
      } else if k > i {
        assert w[k - 1] == e;
      }
    }
  }

  /** Emitting over the limit: the line loses one event and gains the new one. */
  lemma EvictThenAppend(head: seq<nat>, buffer: seq<nat>, k: nat, n: nat)
    requires Increasing(head + buffer, n) && k < |buffer|
    ensures var line' := head + (Without(buffer, k) + [n]);
            && Increasing(line', n + 1) && |line'| == |head + buffer|
            && (forall e :: e in head + buffer ==> e in line' || e == buffer[k]) && n in line'
  {
    var i := |head| + k;
    assert head + (Without(buffer, k) + [n]) == Without(head + buffer, i) + [n];
    EvictLine(head + buffer, i, n);
  }

  lemma AppendOverConserved(c: Config, s: State, k: nat, s': State)
    requires Conserved(s) && Outside(c, s, AppendOver(k), s')
    ensures Conserved(s')
  {
    EvictThenAppend(s.resolved + InFlight(s.pc), s.buffer, k, s.emitted);
    assert s'.evicted[|s.evicted|] == s.buffer[k];
    forall e | 0 <= e < s'.emitted ensures e in Line(s') || e in s'.evicted {
      assert e < s.emitted ==> e in Line(s) || e in s.evicted;
    }
  }

  lemma OutsideConserved(c: Config, s: State, a: OuterStep, s': State)
    requires Conserved(s) && Outside(c, s, a, s')
    ensures Conserved(s')
  {
    match a
    case Append =>
      assert Line(s') == Line(s) + [s.emitted];
    case AppendOver(k) => AppendOverConserved(c, s, k, s');
    case _ => assert Line(s') == Line(s);
  }

  /** The worker moves events along the line and changes nothing in it. */
  lemma LineMoves(c: Config, s: State, a: WorkerStep, s': State)
    requires Inside(c, s, a, s')
    ensures Line(s') == Line(s)
    ensures |s'.resolved| - s'.sent - s'.dropped == |s.resolved| - s.sent - s.dropped
  {
    match a
    case Drain =>
      assert s.resolved + [] + s.buffer == s.resolved + ([] + s.buffer) + [];
      assert s.buffer == [] ==> s.resolved + [] + [] == s.resolved + [] + s.buffer;
    case BatchDone => assert s.pc.chunk + s.pc.rest == [];
    case _ =>
  }

  lemma InsideConserved(c: Config, s: State, a: WorkerStep, s': State)
    requires Conserved(s) && Inside(c, s, a, s')
    ensures Conserved(s')
  {
    LineMoves(c, s, a, s');
  }

  lemma ConservedStep(c: Config, s: State, s': State)
    requires Conserved(s) && Next(c, s, s')
    ensures Conserved(s')
  {
    var a :| Does(c, s, a, s');
    match a
    case Outer(o) => OutsideConserved(c, s, o, s');
    case Worker(k) => InsideConserved(c, s, k, s');
  }

  // ------------------------------------------------------------------ waiters

  /** All waiters, from those already released back to the newest. */
  function Waiters(s: State): seq<nat> {
    s.released + Taken(s.pc) + s.waiters
  }

  ghost predicate Counting(line: seq<nat>, n: nat) {
    |line| == n && forall i :: 0 <= i < n ==> line[i] == i
  }

  /** Waiters are released in the order in which they registered, each once. */
  ghost predicate Queued(s: State) {
    && Counting(Waiters(s), |s.need|)
    && (s.last && (s.pc.Releasing? || s.pc.Stopped?) ==> |s.released| + |Taken(s.pc)| == s.signalled)
    && (s.pc.Stopped? ==> s.last)
  }

  lemma OutsideQueued(c: Config, s: State, a: OuterStep, s': State)
    requires Queued(s) && Outside(c, s, a, s')
    ensures Queued(s')
  {
    if a.Register? {
      assert Waiters(s') == Waiters(s) + [|s.need|];
    } else {
      assert Waiters(s') == Waiters(s);
    }
  }

  lemma InsideQueued(c: Config, s: State, a: WorkerStep, s': State)
    requires Queued(s) && Inside(c, s, a, s')
    ensures Queued(s')
  {
    assert Waiters(s') == Waiters(s);
  }

  lemma QueuedStep(c: Config, s: State, s': State)
    requires Queued(s) && Next(c, s, s')
    ensures Queued(s')
  {
    var a :| Does(c, s, a, s');
    match a
    case Outer(o) => OutsideQueued(c, s, o, s');
    case Worker(k) => InsideQueued(c, s, k, s');
  }

  // ------------------------------------------------------------------ the flush barrier

  /** Every event that waiter `w` found buffered was resolved or evicted, or is in `more`; or the
      waiter came too late. */
  ghost predicate Settled(s: State, w: nat, more: seq<nat>) {
    w in s.late || (w < |s.need| && forall e :: e in s.need[w] ==> e in s.resolved || e in s.evicted || e in more)
  }

  /** Where the events of waiting flushers can still be, seen from the worker's place. */
  function Ahead(s: State): seq<nat> {
    match s.pc
    case Sending(chunk, rest, _) => chunk + rest
    case Signalling => []
    case _ => s.buffer
  }

  ghost predicate Barrier(s: State) {
    && (forall w :: w in s.released || w in Taken(s.pc) ==> Settled(s, w, []))
    && (forall w :: w in s.waiters ==> Settled(s, w, Ahead(s)))
  }

  ghost predicate Follows(s: State, s': State, more: seq<nat>, more': seq<nat>) {
    && s.late <= s'.late && s.need <= s'.need
    && forall e :: e in s.resolved || e in s.evicted || e in more ==> e in s'.resolved || e in s'.evicted || e in more'
  }

  lemma SettledFollows(s: State, w: nat, more: seq<nat>, s': State, more': seq<nat>)
    requires Settled(s, w, more) && Follows(s, s', more, more')
    ensures Settled(s', w, more')
  {
  }

  lemma OutsideBarrier(c: Config, s: State, a: OuterStep, s': State)
    requires Barrier(s) && Outside(c, s, a, s')
    ensures Barrier(s')
  {
    assert Follows(s, s', [], []);
    assert Follows(s, s', Ahead(s), Ahead(s')) by {
      if a.AppendOver? {
        forall e | e in s.buffer ensures e in Without(s.buffer, a.k) || e == s.buffer[a.k] {
          assert s.buffer == s.buffer[..a.k] + [s.buffer[a.k]] + s.buffer[a.k + 1..];
        }
        assert s.buffer[a.k] in s'.evicted;
      }
    }
    forall w | w in s'.released || w in Taken(s'.pc) ensures Settled(s', w, []) {
      SettledFollows(s, w, [], s', []);
    }
    forall w | w in s'.waiters ensures Settled(s', w, Ahead(s')) {
      if w in s.waiters {
        SettledFollows(s, w, Ahead(s), s', Ahead(s'));
      }
    }
  }

  /** The worker loses sight of no event that somebody may wait for. */
  lemma AheadFollows(c: Config, s: State, a: WorkerStep, s': State)
    requires Inside(c, s, a, s')
    ensures Follows(s, s', [], []) && (!a.TakeWaiters? ==> Follows(s, s', Ahead(s), Ahead(s')))
    ensures a.TakeWaiters? ==> Follows(s, s', Ahead(s), []) && s'.waiters == []
    ensures forall w :: w in s'.waiters ==> w in s.waiters
    ensures forall w :: w in s'.released || w in Taken(s'.pc) ==>
                          w in s.released || w in Taken(s.pc) || (a.TakeWaiters? && w in s.waiters)
  {
    if a.NextChunk? {
      var n := |s'.pc.chunk|;
      assert s.pc.rest == s.pc.rest[..n] + s.pc.rest[n..];
    }
  }

  lemma InsideBarrier(c: Config, s: State, a: WorkerStep, s': State)
    requires Barrier(s) && Inside(c, s, a, s')
    ensures Barrier(s')
  {
    AheadFollows(c, s, a, s');
    forall w | w in s'.released || w in Taken(s'.pc) ensures Settled(s', w, []) {
      if a.TakeWaiters? && w in s.waiters {
        SettledFollows(s, w, Ahead(s), s', []);
      } else {
        SettledFollows(s, w, [], s', []);
      }
    }
    forall w | w in s'.waiters ensures Settled(s', w, Ahead(s')) {
      SettledFollows(s, w, Ahead(s), s', Ahead(s'));
    }
  }

  lemma BarrierStep(c: Config, s: State, s': State)
    requires Barrier(s) && Next(c, s, s')
    ensures Barrier(s')
  {
    var a :| Does(c, s, a, s');
    match a
    case Outer(o) => OutsideBarrier(c, s, o, s');
    case Worker(k) => InsideBarrier(c, s, k, s');
  }

  ghost predicate Behind(s: State, w: nat) {
    && (s.pc.Sending? || s.pc == Signalling) && w < |s.need|
    && forall e :: e in s.need[w] ==> e in s.buffer || e in s.evicted
  }

  /** A waiter that came too late is taken by the very next signal, while its events are still
      buffered unless they were evicted. */
  ghost predicate LateBehind(s: State) {
    && (forall w :: w in s.late ==> w < |s.need|)
    && (forall w :: w in s.waiters && w in s.late ==> Behind(s, w))
  }

  lemma OutsideBehind(c: Config, s: State, a: OuterStep, s': State)
    requires LateBehind(s) && Outside(c, s, a, s')
    ensures LateBehind(s')
  {
    if a.AppendOver? {
      forall e | e in s.buffer ensures e in s'.buffer || e in s'.evicted {
        assert s.buffer == s.buffer[..a.k] + [s.buffer[a.k]] + s.buffer[a.k + 1..];
      }
    }
    forall w | w in s'.waiters && w in s'.late ensures Behind(s', w) {
      if w < |s.need| {
        assert Behind(s, w) && s'.need[w] == s.need[w];
      }
    }
  }

  lemma InsideBehind(c: Config, s: State, a: WorkerStep, s': State)
    requires LateBehind(s) && Inside(c, s, a, s')
    ensures LateBehind(s')
  {
    forall w | w in s'.waiters && w in s'.late ensures Behind(s', w) {
      assert Behind(s, w);
    }
  }

  lemma BehindStep(c: Config, s: State, s': State)
    requires LateBehind(s) && Next(c, s, s')
    ensures LateBehind(s')
  {
    var a :| Does(c, s, a, s');
    match a
    case Outer(o) => OutsideBehind(c, s, o, s');
    case Worker(k) => InsideBehind(c, s, k, s');
  }

  /** When a round signals, the events of a waiter are settled exactly if the waiter was not late or
      all of its events were evicted. */
  lemma SettledIffNotLate(s: State, w: nat)
    requires Conserved(s) && Barrier(s) && LateBehind(s) && s.pc == Signalling && w in s.waiters && w < |s.need|
    ensures (forall e :: e in s.need[w] ==> e in s.resolved || e in s.evicted) <==>
            w !in s.late || forall e :: e in s.need[w] ==> e in s.evicted
  {
    assert Settled(s, w, []);
    forall e | e in s.buffer ensures e !in s.resolved {
      assert Line(s) == s.resolved + s.buffer;
      var j :| 0 <= j < |s.buffer| && s.buffer[j] == e;
      assert Line(s)[|s.resolved| + j] == e;
      forall i | 0 <= i < |s.resolved| ensures s.resolved[i] != e {
        assert Line(s)[i] == s.resolved[i];
      }
    }
  }

  // ------------------------------------------------------------------ wake-ups

  /** A wake-up is never lost: while an event that was buffered at some wake-up is still buffered, the
      flag is set or the worker is between its wait and its drain; while a flusher that has woken the
      worker still waits, the flag is set or a round that will signal is under way. */
  ghost predicate Awake(s: State) {
    && (forall e :: e in s.noticed ==> e < s.emitted)
    && (forall w :: w in s.woken ==> w < |s.need|)
    && (forall e :: e in s.noticed && e in s.buffer ==> s.wake || s.pc == Woken || s.pc == Draining)
    && (forall w :: w in s.woken && w in s.waiters ==>
          s.wake || s.pc == Woken || s.pc == Draining || s.pc.Sending? || s.pc == Signalling)
  }

  lemma OutsideAwake(c: Config, s: State, a: OuterStep, s': State)
    requires Awake(s) && Conserved(s) && Outside(c, s, a, s')
    ensures Awake(s')
  {
    forall e | e in s.buffer ensures e < s.emitted {
      assert e in Line(s);
    }
    forall e | e in s'.buffer && e != s.emitted ensures e in s.buffer {
    }
  }

  lemma InsideAwake(c: Config, s: State, a: WorkerStep, s': State)
    requires Awake(s) && Inside(c, s, a, s')
    ensures Awake(s')
  {
  }

  lemma AwakeStep(c: Config, s: State, s': State)
    requires Awake(s) && Conserved(s) && Next(c, s, s')
    ensures Awake(s')
  {
    var a :| Does(c, s, a, s');
    match a
    case Outer(o) => OutsideAwake(c, s, o, s');
    case Worker(k) => InsideAwake(c, s, k, s');
  }

  // ------------------------------------------------------------------ all runs

  ghost predicate Inv(s: State) {
    && Conserved(s) && Queued(s) && Barrier(s) && Awake(s)
    && LateBehind(s)
  }

  lemma NothingConserved(s: State)
    requires s.resolved == s.buffer == s.evicted == [] && s.pc == Top && s.emitted == s.sent == s.dropped == 0
    ensures Conserved(s)
  {
    assert Line(s) == [];
  }

  lemma NobodyWaits(s: State)
    requires s.released == s.waiters == [] && s.need == [] && s.late == {} && s.pc == Top
    ensures Queued(s) && Barrier(s) && LateBehind(s)
  {
    assert Waiters(s) == [];
  }

  lemma NobodyWakes(s: State)
    requires s.noticed == {} && s.woken == {}
    ensures Awake(s)
  {
  }

  lemma StartInv(s: State)
    requires s == Start()
    ensures Inv(s)
  {
    NothingConserved(s);
    NobodyWaits(s);
    NobodyWakes(s);
  }

  lemma NextInv(c: Config, s: State, s': State)
    requires Inv(s) && Next(c, s, s')
    ensures Inv(s')
  {
    ConservedStep(c, s, s');
    QueuedStep(c, s, s');
    BarrierStep(c, s, s');
    BehindStep(c, s, s');
    AwakeStep(c, s, s');
  }

  lemma {:induction false} RunInv(c: Config, run: seq<State>, i: nat)
    requires Run(c, run) && i < |run|
    ensures Inv(run[i])
  {
    if i == 0 {
      StartInv(run[0]);
    } else {
      RunInv(c, run, i - 1);
      assert Leads(c, run, i);
      NextInv(c, run[i - 1], run[i]);
    }
  }

  /** Conservation over all runs. */
  lemma EmittedIsAccountedFor(c: Config, run: seq<State>, i: nat)
    requires Run(c, run) && i < |run|
    ensures var s := run[i];
            && s.emitted == s.sent + s.dropped + |InFlight(s.pc)| + |s.buffer| + |s.evicted|
            && Increasing(s.resolved + InFlight(s.pc) + s.buffer, s.emitted)
  {
    RunInv(c, run, i);
  }

  /** The flush barrier over all runs: when a waiter that registered before the drain of its round is
      released, every event it found buffered was resolved or evicted. */
  lemma FlushBarrier(c: Config, run: seq<State>, i: nat, w: nat)
    requires Run(c, run) && i < |run| && w in run[i].released && w !in run[i].late
    ensures w < |run[i].need|
    ensures forall e :: e in run[i].need[w] ==> e in run[i].resolved || e in run[i].evicted
  {
    RunInv(c, run, i);
    assert Settled(run[i], w, []);
  }

  /** A flusher gets what it was promised exactly if it was not late or lost everything to eviction. */
  lemma FlushKeptIffNotLate(c: Config, run: seq<State>, i: nat, w: nat)
    requires Run(c, run) && i < |run| && run[i].pc == Signalling && w in run[i].waiters
    ensures w < |run[i].need|
    ensures (forall e :: e in run[i].need[w] ==> e in run[i].resolved || e in run[i].evicted) <==>
            w !in run[i].late || forall e :: e in run[i].need[w] ==> e in run[i].evicted
  {
    RunInv(c, run, i);
    var k :| 0 <= k < |run[i].waiters| && run[i].waiters[k] == w;
    assert Waiters(run[i])[|run[i].released| + k] == w;
    SettledIffNotLate(run[i], w);
  }

  /** Waiters are released in order and once; when the worker has stopped, exactly those that were
      registered when the final round took the list have been released. */
  lemma ReleasedOnce(c: Config, run: seq<State>, i: nat)
    requires Run(c, run) && i < |run|
    ensures Counting(run[i].released, |run[i].released|)
    ensures run[i].pc == Stopped ==> |run[i].released| == run[i].signalled
  {
    RunInv(c, run, i);
    assert forall k :: 0 <= k < |run[i].released| ==> Waiters(run[i])[k] == run[i].released[k];
  }

  lemma NoLostWakeUp(c: Config, run: seq<State>, i: nat, e: nat)
    requires Run(c, run) && i < |run| && e in run[i].noticed && e in run[i].buffer
    ensures run[i].wake || run[i].pc == Woken || run[i].pc == Draining
  {
    RunInv(c, run, i);
  }

  /** A flusher that has woken the worker and still waits will be served: the flag is set, or a round
      that signals it is under way. */
  lemma WakerIsServed(c: Config, run: seq<State>, i: nat, w: nat)
    requires Run(c, run) && i < |run| && w in run[i].woken && w in run[i].waiters
    ensures var pc := run[i].pc;
            run[i].wake || pc == Woken || pc == Draining || pc.Sending? || pc == Signalling
  {
    RunInv(c, run, i);
  }

  // ------------------------------------------------------------------ bounds

  ghost predicate Bounded(c: Config, pc: Pc) {
    pc.Sending? ==> |pc.chunk| <= c.maxBatch && pc.attempt <= c.maxRetries
  }

  lemma OutsideBounded(c: Config, s: State, a: OuterStep, s': State)
    requires Outside(c, s, a, s')
    ensures s'.pc == s.pc
  {
  }

  lemma InsideBounded(c: Config, s: State, a: WorkerStep, s': State)
    requires Bounded(c, s.pc) && Inside(c, s, a, s')
    ensures Bounded(c, s'.pc)
  {
  }

  lemma BoundedStep(c: Config, s: State, s': State)
    requires Bounded(c, s.pc) && Next(c, s, s')
    ensures Bounded(c, s'.pc)
  {
    var a :| Does(c, s, a, s');
    match a
    case Outer(o) => OutsideBounded(c, s, o, s');
    case Worker(k) => InsideBounded(c, s, k, s');
  }

  /** Chunks have at most the configured size and are tried at most once more than `max_retries`. */
  lemma {:induction false} ChunksAreBounded(c: Config, run: seq<State>, i: nat)
    requires Run(c, run) && i < |run|
    ensures Bounded(c, run[i].pc)
  {
    if i > 0 {
      ChunksAreBounded(c, run, i - 1);
      assert Leads(c, run, i);
      BoundedStep(c, run[i - 1], run[i]);
    }
  }

  // ------------------------------------------------------------------ a waiter that came too late

  ghost predicate Ends(c: Config, run: seq<State>, s: State) {
    Run(c, run) && run[|run| - 1] == s
  }

  ghost predicate Reaches(c: Config, s: State) {
    exists run :: Ends(c, run, s)
  }

  lemma Go(c: Config, s: State, a: Step, t: State) returns (now: State)
    requires Reaches(c, s) && Does(c, s, a, t)
    ensures Reaches(c, t) && now == t
  {
    var run :| Ends(c, run, s);
    var longer := run + [t];
    forall i | 0 < i < |longer| ensures Leads(c, longer, i) {
      if i < |run| {
        assert Leads(c, run, i);
      }
    }
    assert Ends(c, longer, t);
    now := t;
  }

  /** The worker is sending event 0; event 1 has been emitted and a flusher has registered for it. */
  ghost function Sent0(): State {
    Start().(pc := Sending([], [0], 0), emitted := 2, buffer := [1],
             waiters := [0], need := [Elems<nat>([1])], late := {0})
  }

  lemma ReachSent0(c: Config)
    ensures Reaches(c, Sent0())
  {
    var s := Start();
    assert Ends(c, [s], s);
    s := Go(c, s, Outer(Append), s.(buffer := [0], emitted := 1));
    s := Go(c, s, Worker(Check), s.(pc := Waiting));
    s := Go(c, s, Worker(WaitReturns(true)), s.(pc := Woken));
    s := Go(c, s, Worker(Clear), s.(pc := Draining));
    s := Go(c, s, Worker(Drain), s.(pc := Sending([], [0], 0), buffer := []));
    s := Go(c, s, Outer(Append), s.(buffer := [1], emitted := 2));
    s := Go(c, s, Outer(Register), s.(waiters := [0], need := s.need + [Elems(s.buffer)], late := s.late + {0}));
    assert s.need == [Elems<nat>([1])] && s.late == {0};
  }

  /** It is released while event 1 is still buffered. */
  lemma LateWaiterReleasedEarly(c: Config) returns (s: State)
    requires c.maxBatch > 0
    ensures Reaches(c, s) && s.released == [0] && s.need == [Elems<nat>([1])]
    ensures s.buffer == [1] && s.resolved == [0] && s.evicted == []
  {
    ReachSent0(c);
    s := Sent0();
    assert [0][..1] == [0] && [0][1..] == [];
    s := Go(c, s, Worker(NextChunk), s.(pc := Sending([0], [], 0)));
    s := Go(c, s, Worker(Acked(1, 0)), s.(pc := Sending([], [], 0), resolved := [0], sent := 1));
    s := Go(c, s, Worker(BatchDone), s.(pc := Signalling));
    s := Go(c, s, Worker(TakeWaiters), s.(pc := Releasing([0]), waiters := []));
    s := Go(c, s, Worker(Release), s.(pc := Releasing([]), released := [0]));
  }
}
