/** Why fixtures are evicted: over all runs an eviction takes the oldest fixture that its listing has
    left, only while the new bytes do not fit, and a bundle is refused only when nothing is left. */
module PipelineEvictions {
  import opened Common
  import opened FileSystem
  import opened Pipeline
  import S = Spool

  predicate InEviction(pc: WriterPc) {
    pc.Evicting? || pc.Measured? || pc.Unlinking? || pc.Removed?
  }

  /** Between the measurement of a fixture and the deduction of its bytes there is too little room. */
  predicate Needed(c: Config, s: State) {
    s.spool.pc.Measured? || s.spool.pc.Unlinking? || s.spool.pc.Removed? ==> !Fits(c, s, s.spool.pc.job)
  }

  /** Fixtures only disappear, and those that stay are untouched. */
  ghost predicate Shrinks(disk: Disk, disk': Disk) {
    forall name :: IsFixture(disk', name) ==> IsFixture(disk, name) && disk'[name] == disk[name]
  }

  /** The eviction that began with the listing `infos` has dealt with its first `k` entries. */
  ghost predicate Ongoing(s: State, infos: seq<S.Info>, k: nat) {
    && InEviction(s.spool.pc) && k <= |infos| && s.spool.pc.order == Ids(infos)[k..]
    && (forall m :: 0 <= m < k ==> !IsFixture(s.disk, infos[m].id))
    && (s.spool.pc.Unlinking? || s.spool.pc.Removed? ==> k < |infos| && !IsFixture(s.disk, infos[k].id))
  }

  // ------------------------------------------------------------------ steps

  lemma WorkShrinks(c: Config, s: State, i: nat, a: WorkStep, s': State)
    requires Works(c, s, i, a, s')
    ensures Shrinks(s.disk, s'.disk) && s'.spool == s.spool && s'.ledger.evicted == s.ledger.evicted
  {
  }

  lemma ScanShrinks(c: Config, s: State, a: ScanStep, s': State)
    requires Scans(c, s, a, s')
    ensures Shrinks(s.disk, s'.disk) && s'.spool == s.spool && s'.ledger == s.ledger
  {
  }

  lemma EvictNeeded(c: Config, s: State, a: EvictStep, s': State)
    requires Needed(c, s) && Evicts(c, s, a, s')
    ensures Needed(c, s')
  {
  }

  lemma NeededStep(c: Config, s: State, a: Step, s': State)
    requires Needed(c, s) && Does(c, s, a, s')
    ensures Needed(c, s')
  {
    match a
    case Eviction(e) => EvictNeeded(c, s, e, s');
    case Worker(i, w) => WorkShrinks(c, s, i, w, s');
    case Scanner(n) => ScanShrinks(c, s, n, s');
    case _ =>
  }

  /** An eviction goes through its listing entry by entry. */
  lemma EvictGoesOn(c: Config, s: State, a: EvictStep, s': State, infos: seq<S.Info>, k: nat)
    requires Ongoing(s, infos, k) && Evicts(c, s, a, s') && InEviction(s'.spool.pc)
    ensures Shrinks(s.disk, s'.disk) && s'.spool.pc.job == s.spool.pc.job
    ensures Ongoing(s', infos, if a.Deduct? then k + 1 else k)
  {
    var ids := Ids(infos);
    if k < |infos| {
      assert ids[k..][0] == infos[k].id && ids[k..][1..] == ids[k + 1..];
    }
  }

  lemma GoesOn(c: Config, s: State, a: Step, s': State, infos: seq<S.Info>, k: nat)
    requires Ongoing(s, infos, k) && Does(c, s, a, s') && InEviction(s'.spool.pc)
    ensures Shrinks(s.disk, s'.disk) && s'.spool.pc.job == s.spool.pc.job
    ensures Ongoing(s', infos, if a.Eviction? && a.e.Deduct? then k + 1 else k)
  {
    match a
    case Eviction(e) => EvictGoesOn(c, s, e, s', infos, k);
    case Worker(i, w) => WorkShrinks(c, s, i, w, s');
    case Scanner(n) => ScanShrinks(c, s, n, s');
    case _ =>
  }

  /** Only a listing begins an eviction. */
  lemma BeginsWithListing(c: Config, s: State, a: Step, s': State)
    requires Does(c, s, a, s') && InEviction(s'.spool.pc) && !InEviction(s.spool.pc)
    ensures a.Eviction? && a.e.ListOldest? && Ongoing(s', a.e.infos, 0) && s'.disk == s.disk
    ensures S.Listing(s'.disk, a.e.infos) && S.OldestFirst(a.e.infos)
  {
  }

  // ------------------------------------------------------------------ all runs

  /** The eviction under way in state `i` began in step `j` with the listing `infos`. */
  ghost predicate BegunBy(c: Config, run: seq<State>, i: nat, j: nat, infos: seq<S.Info>, k: nat)
    requires 0 < j <= i < |run|
  {
    && Evicts(c, run[j - 1], ListOldest(infos), run[j])
    && S.Listing(run[j].disk, infos) && S.OldestFirst(infos)
    && Shrinks(run[j].disk, run[i].disk) && Ongoing(run[i], infos, k)
    && run[j].spool.pc.job == run[i].spool.pc.job
  }

  /** Every eviction has a listing, taken oldest first, and has left nothing of what it dealt with. */
  lemma {:induction false} EvictionOf(c: Config, run: seq<State>, i: nat) returns (j: nat, infos: seq<S.Info>, k: nat)
    requires Run(c, run) && i < |run| && InEviction(run[i].spool.pc)
    ensures 0 < j <= i && BegunBy(c, run, i, j, infos, k)
  {
    assert Leads(c, run, i);
    var a :| Does(c, run[i - 1], a, run[i]);
    if InEviction(run[i - 1].spool.pc) {
      j, infos, k := EvictionOf(c, run, i - 1);
      GoesOn(c, run[i - 1], a, run[i], infos, k);
      k := if a.Eviction? && a.e.Deduct? then k + 1 else k;
    } else {
      BeginsWithListing(c, run[i - 1], a, run[i]);
      j, infos, k := i, a.e.infos, 0;
    }
  }

  lemma {:induction false} NeededHolds(c: Config, run: seq<State>, i: nat)
    requires Run(c, run) && i < |run|
    ensures Needed(c, run[i])
  {
    if i > 0 {
      NeededHolds(c, run, i - 1);
      assert Leads(c, run, i);
      var a :| Does(c, run[i - 1], a, run[i]);
      NeededStep(c, run[i - 1], a, run[i]);
    }
  }

  /** Only the writer's unlink books an eviction: that of the first entry it has left. */
  lemma OnlyUnlinkEvicts(c: Config, s: State, a: Step, s': State)
    requires Does(c, s, a, s') && s'.ledger.evicted != s.ledger.evicted
    ensures s.spool.pc.Measured? && s.spool.pc.order != []
    ensures var id := s.spool.pc.order[0];
            && IsFixture(s.disk, id) && id in s.ledger.owner && s'.disk == Unlinked(s.disk, id)
            && s'.ledger.evicted == s.ledger.evicted + {s.ledger.owner[id]}
  {
  }

  /** What is evicted from state `s` is commit `n`, in directory `id`, and there was too little room. */
  predicate MakesRoom(c: Config, s: State, id: string, n: nat) {
    && s.spool.pc.Measured? && s.spool.counter + Need(s.spool.pc.job) > c.maxBytes
    && IsFixture(s.disk, id) && id in s.ledger.owner && s.ledger.owner[id] == n
  }

  /** No entry of the listing that is still there is older than `id`; with a complete listing, no
      fixture at all. */
  ghost predicate OldestLeft(disk: Disk, begun: Disk, infos: seq<S.Info>, id: string)
    requires IsFixture(disk, id)
  {
    && (forall x :: x in infos && IsFixture(disk, x.id) ==> disk[id].mtime <= disk[x.id].mtime)
    && (S.Complete(begun, infos) ==> forall name :: IsFixture(disk, name) ==> disk[id].mtime <= disk[name].mtime)
  }

  lemma FirstLeftIsOldest(s: State, begun: Disk, infos: seq<S.Info>, k: nat)
    requires Ongoing(s, infos, k) && k < |infos| && IsFixture(s.disk, infos[k].id)
    requires S.Listing(begun, infos) && S.OldestFirst(infos) && Shrinks(begun, s.disk)
    ensures OldestLeft(s.disk, begun, infos, infos[k].id)
  {
    assert infos[k] in infos;
    forall x | x in infos && IsFixture(s.disk, x.id) ensures s.disk[infos[k].id].mtime <= s.disk[x.id].mtime {
      var m :| 0 <= m < |infos| && infos[m] == x;
      assert m >= k;
    }
  }

  /** Whenever something is evicted there is too little room for the bytes at hand, and it is one
      fixture: the oldest that the listing has left. */
  lemma EvictionsAreNeeded(c: Config, run: seq<State>, i: nat)
    returns (id: string, n: nat, j: nat, infos: seq<S.Info>, k: nat)
    requires Run(c, run) && 0 < i < |run| && run[i].ledger.evicted != run[i - 1].ledger.evicted
    ensures MakesRoom(c, run[i - 1], id, n)
    ensures run[i].ledger.evicted == run[i - 1].ledger.evicted + {n} && run[i].disk == Unlinked(run[i - 1].disk, id)
    ensures 0 < j < i && BegunBy(c, run, i - 1, j, infos, k) && k < |infos| && infos[k].id == id
    ensures OldestLeft(run[i - 1].disk, run[j].disk, infos, id)
  {
    assert Leads(c, run, i);
    var a :| Does(c, run[i - 1], a, run[i]);
    OnlyUnlinkEvicts(c, run[i - 1], a, run[i]);
    NeededHolds(c, run, i - 1);
    j, infos, k := EvictionOf(c, run, i - 1);
    assert Ids(infos)[k..][0] == infos[k].id;
    id := infos[k].id;
    n := run[i - 1].ledger.owner[id];
    FirstLeftIsOldest(run[i - 1], run[j].disk, infos, k);
  }

  /** From `s` to `s'` commit `n` is evicted for want of room. */
  ghost predicate EvictedFrom(c: Config, s: State, s': State, n: nat) {
    n !in s.ledger.evicted && n in s'.ledger.evicted && exists id :: MakesRoom(c, s, id, n)
  }

  ghost predicate EvictedInStep(c: Config, run: seq<State>, j: nat, n: nat)
    requires 0 < j < |run|
  {
    EvictedFrom(c, run[j - 1], run[j], n)
  }

  /** Everything booked as evicted was evicted in one step of the run, for want of room. */
  lemma {:induction false} EvictedForRoom(c: Config, run: seq<State>, i: nat, n: nat) returns (j: nat)
    requires Run(c, run) && i < |run| && n in run[i].ledger.evicted
    ensures 0 < j <= i && EvictedInStep(c, run, j, n)
  {
    if n in run[i - 1].ledger.evicted {
      j := EvictedForRoom(c, run, i - 1, n);
    } else {
      j := i;
      var id, m, b, infos, k := EvictionsAreNeeded(c, run, i);
    }
  }

  /** An eviction that ends without room has nothing left of its listing, and after a complete listing
      no fixture is left at all. */
  lemma RefusedWhenNothingIsLeft(c: Config, run: seq<State>, i: nat) returns (j: nat, infos: seq<S.Info>, k: nat)
    requires Run(c, run) && 0 < i < |run| && Evicts(c, run[i - 1], EvictionEnds, run[i])
    requires !Fits(c, run[i - 1], run[i - 1].spool.pc.job)
    ensures 0 < j < i && BegunBy(c, run, i - 1, j, infos, k)
    ensures forall x :: x in infos ==> !IsFixture(run[i].disk, x.id)
    ensures S.Complete(run[j].disk, infos) ==> forall name :: !IsFixture(run[i].disk, name)
  {
    j, infos, k := EvictionOf(c, run, i - 1);
    assert |Ids(infos)[k..]| == |infos| - k;
    forall x | x in infos ensures !IsFixture(run[i].disk, x.id) {
      var m :| 0 <= m < |infos| && infos[m] == x;
    }
  }
}
