/** What every run of the pipeline keeps. */
module PipelineSafety {
  import opened Common
  import opened FileSystem
  import opened Pipeline
  import S = Spool

  // ------------------------------------------------------------------ exclusivity

  function One(id: string, other: string): nat {
    if id == other then 1 else 0
  }

  function HeldBy(w: WorkerPc, id: string): nat {
    if w.Free? || w.Exited? then 0 else One(w.id, id)
  }

  function Held(ws: seq<WorkerPc>, id: string): nat {
    if ws == [] then 0 else HeldBy(ws[0], id) + Held(ws[1..], id)
  }

  function Queued(jobs: seq<string>, id: string): nat {
    multiset(jobs)[id]
  }

  function Pending(sc: ScannerPc, id: string): nat {
    if sc.Marked? then One(sc.id, id) else 0
  }

  /** In how many places an identifier is queued, marked or being processed. */
  function Places(u: Uploader, id: string): nat {
    Queued(u.jobs, id) + Held(u.workers, id) + Pending(u.scanner, id)
  }

  lemma {:induction false} HeldUpdate(ws: seq<WorkerPc>, i: nat, w: WorkerPc, id: string)
    requires i < |ws|
    ensures Held(ws[i := w], id) + HeldBy(ws[i], id) == Held(ws, id) + HeldBy(w, id)
  {
    var ws' := ws[i := w];
    if i > 0 {
      assert ws'[1..] == ws[1..][i - 1 := w];
      HeldUpdate(ws[1..], i - 1, w, id);
    } else {
      assert ws'[1..] == ws[1..];
    }
  }

  lemma {:induction false} HeldIn(ws: seq<WorkerPc>, i: nat, id: string)
    requires i < |ws|
    ensures HeldBy(ws[i], id) <= Held(ws, id)
  {
    if i > 0 {
      HeldIn(ws[1..], i - 1, id);
    }
  }

  lemma {:induction false} NoneHeld(ws: seq<WorkerPc>, id: string)
    requires forall w :: w in ws ==> w.Free? || w.Exited?
    ensures Held(ws, id) == 0
  {
    if ws != [] {
      NoneHeld(ws[1..], id);
    }
  }

  lemma QueuedTail(jobs: seq<string>, id: string)
    requires jobs != []
    ensures Queued(jobs, id) == One(jobs[0], id) + Queued(jobs[1..], id)
  {
    assert jobs == [jobs[0]] + jobs[1..];
  }

  /** Every in-flight identifier has exactly one place, every other one none. */
  ghost predicate OnePlace(u: Uploader) {
    forall id :: Places(u, id) == if id in u.inFlight then 1 else 0
  }

  ghost predicate Exclusive(c: Config, u: Uploader) {
    && |u.workers| == c.workers && |u.jobs| <= 2 * c.workers && OnePlace(u)
    && (u.scanner.Checked? ==> u.scanner.id !in u.inFlight)
    && (Exited in u.workers ==> (u.scanner == Closed || u.scanner == Finished) && u.jobs == [])
    && (u.scanner == Finished ==> forall w :: w in u.workers ==> w == Exited)
  }

  lemma FreshExclusive(c: Config)
    ensures Exclusive(c, FreshUploader(c))
  {
    forall id ensures Places(FreshUploader(c), id) == 0 {
      NoneHeld(FreshUploader(c).workers, id);
    }
  }

  lemma ScansExclusive(c: Config, s: State, a: ScanStep, s': State)
    requires Exclusive(c, s.up) && Scans(c, s, a, s')
    ensures Exclusive(c, s'.up)
  {
    forall id ensures Places(s'.up, id) == if id in s'.up.inFlight then 1 else 0 {
      assert Places(s.up, id) == if id in s.up.inFlight then 1 else 0;
    }
  }

  lemma WorksExclusive(c: Config, s: State, i: nat, a: WorkStep, s': State)
    requires Exclusive(c, s.up) && Works(c, s, i, a, s')
    ensures Exclusive(c, s'.up)
  {
    var u, u' := s.up, s'.up;
    assert u'.workers == u.workers[i := u'.workers[i]] && u.workers[i] in u.workers;
    forall x | x in u'.workers && x != u'.workers[i] ensures x in u.workers {
    }
    forall id ensures Places(u', id) == if id in u'.inFlight then 1 else 0 {
      assert Places(u, id) == if id in u.inFlight then 1 else 0;
      HeldUpdate(u.workers, i, u'.workers[i], id);
      HeldIn(u.workers, i, id);
      if a.Take? {
        QueuedTail(u.jobs, id);
      }
    }
  }

  /** After the jobs channel was closed and all workers returned nothing is in flight. */
  lemma DrainedAtExit(c: Config, u: Uploader)
    requires Exclusive(c, u) && u.scanner == Finished && c.workers > 0
    ensures u.inFlight == {} && u.jobs == []
  {
    assert u.workers[0] in u.workers;
    forall id ensures id !in u.inFlight {
      NoneHeld(u.workers, id);
      assert Places(u, id) == 0;
    }
  }

  // ------------------------------------------------------------------ accounting

  predicate Undotted(job: Option<Bundle>) {
    job.Some? ==> '.' !in job.value.id
  }

  predicate Committable(order: seq<string>) {
    forall id :: id in order ==> !IsTemp(id)
  }

  /** Staging and fixture names are told apart. */
  predicate Named(pc: WriterPc) {
    match pc
    case Boot => true
    case Recovering(_) => true
    case Discarding(_) => true
    case Counting => true
    case Idle => true
    case Check(job) => Undotted(job)
    case Evicting(job, order) => Undotted(job) && Committable(order)
    case Measured(job, order, _) => Undotted(job) && Committable(order)
    case Unlinking(job, order, _, _) => Undotted(job) && Committable(order)
    case Removed(job, order, _, _) => Undotted(job) && Committable(order)
    case Mkdir(b) => '.' !in b.id
    case Create(b) => '.' !in b.id
    case Writing(b) => '.' !in b.id
    case Renaming(b) => '.' !in b.id
    case Accounting(b) => '.' !in b.id
    case Cleaning(tmp) => IsTemp(tmp)
  }

  /** A bundle that is committed and not yet counted. */
  function Uncounted(pc: WriterPc): nat {
    if pc.Accounting? then |pc.b.data| else 0
  }

  /** What the writer has still to add to its counter. */
  function Owed(pc: WriterPc): int {
    if pc.Accounting? then Uncounted(pc)
    else if (pc.Unlinking? || pc.Removed?) && pc.mine then 0 - pc.size
    else 0
  }

  /** What it will deduct although a worker freed it. */
  function Overlap(pc: WriterPc): nat {
    if (pc.Unlinking? || pc.Removed?) && !pc.mine then pc.size else 0
  }

  /** The counter against the directory, to the byte. */
  ghost predicate Equation(s: State) {
    s.spool.counter + Owed(s.spool.pc) + s.spool.missed + s.books.doubled ==
    Total(s.disk) + s.books.freed + s.books.leaked
  }

  /** Nothing is deducted twice that a worker did not free. */
  ghost predicate Covered(s: State) {
    && s.books.doubled + Overlap(s.spool.pc) <= s.books.freed
    && (s.spool.pc.Measured? && s.spool.pc.order != [] ==>
          var id := s.spool.pc.order[0];
          if IsFixture(s.disk, id) then SizeAt(s.disk, id) == s.spool.pc.size
          else s.books.doubled + s.spool.pc.size <= s.books.freed)
  }

  ghost predicate Balanced(s: State) {
    Named(s.spool.pc) && Covered(s) && (!Starting(s.spool.pc) ==> Equation(s))
  }

  /** The counter after a start-up scan: exact but for what the listing left out, and exact if it left
      out nothing. */
  lemma ScanIsExact(s: State, infos: seq<S.Info>, s': State)
    requires Boots(s, Scan(infos), s')
    ensures s'.spool.counter + Overlooked(s'.disk, infos) == Total(s'.disk)
    ensures S.Complete(s'.disk, infos) ==> s'.spool.missed == 0 && s'.spool.counter == Total(s'.disk)
  {
    S.WithoutTotal(s.disk, infos, |infos|);
    if S.Complete(s.disk, infos) {
      S.NothingLeft(s.disk, infos);
    }
  }

  lemma BootsBalanced(s: State, a: BootStep, s': State)
    requires Balanced(s) && Boots(s, a, s') && s.books == Books(0, 0, 0)
    ensures Balanced(s')
  {
    if a.Scan? {
      ScanIsExact(s, a.infos, s');
    }
  }

  lemma ListingCommittable(disk: Disk, infos: seq<S.Info>)
    requires S.Listing(disk, infos)
    ensures Committable(Ids(infos))
  {
    forall id | id in Ids(infos) ensures !IsTemp(id) {
      var i :| 0 <= i < |infos| && Ids(infos)[i] == id;
      assert infos[i] in infos;
    }
  }

  lemma EvictsBalanced(c: Config, s: State, a: EvictStep, s': State)
    requires Balanced(s) && Evicts(c, s, a, s')
    ensures Balanced(s')
  {
    var pc := s.spool.pc;
    match a
    case ListOldest(infos) => ListingCommittable(s.disk, infos);
    case Measure => assert pc.order[0] in pc.order;
    case EvictUnlink => UnlinkFrees(s.disk, pc.order[0]);
    case EvictRmdir => RemoveDirKeeps(s.disk, pc.order[0]);
    case _ =>
  }

  lemma StagingKeeps(disk: Disk, tmp: string, e: Entry)
    requires IsTemp(tmp)
    ensures Total(disk[tmp := e]) == Total(disk)
    ensures forall name :: IsFixture(disk[tmp := e], name) == IsFixture(disk, name)
  {
    TotalPut(disk, tmp, e);
  }

  /** Before the rename the staging directory holds the whole bundle. */
  predicate ReadyToCommit(s: State) {
    s.spool.pc.Renaming? ==>
      HasStaging(s, s.spool.pc.b) && s.disk[TempName(s.spool.pc.b.id)].file == Some(s.spool.pc.b.data)
  }

  lemma StagesBalanced(c: Config, s: State, a: StageStep, s': State)
    requires Balanced(s) && ReadyToCommit(s) && Stages(c, s, a, s')
    ensures Balanced(s') && ReadyToCommit(s')
  {
    var pc := s.spool.pc;
    if pc.Cleaning? {
      UnlinkFrees(s.disk, pc.tmp);
      RemoveDirKeeps(s.disk, pc.tmp);
    } else if !pc.Accounting? {
      NamesDisjoint(pc.b.id, pc.b.id);
      var tmp := TempName(pc.b.id);
      match a
      case MkdirDone(mtime) => StagingKeeps(s.disk, tmp, Dir(mtime, None));
      case Truncate(mtime) => StagingKeeps(s.disk, tmp, Dir(mtime, Some([])));
      case WritePart(mtime, k) => StagingKeeps(s.disk, tmp, Dir(mtime, Some(pc.b.data[..k])));
      case WriteAll(mtime) => StagingKeeps(s.disk, tmp, Dir(mtime, Some(pc.b.data)));
      case Commit => RenameCommits(s.disk, tmp, pc.b.id);
      case _ =>
    }
  }

  lemma WorksBalanced(c: Config, s: State, i: nat, a: WorkStep, s': State)
    requires Balanced(s) && Works(c, s, i, a, s')
    ensures Balanced(s')
  {
    var w := s.up.workers[i];
    match a
    case DeleteUnlink => UnlinkFrees(s.disk, w.id);
    case DeleteRmdir => RemoveDirKeeps(s.disk, w.id);
    case _ =>
  }

  lemma WorksReady(c: Config, s: State, i: nat, a: WorkStep, s': State)
    requires ReadyToCommit(s) && Works(c, s, i, a, s')
    requires s.up.workers[i].Deleting? || s.up.workers[i].Rmdir? ==> !IsTemp(s.up.workers[i].id)
    ensures ReadyToCommit(s')
  {
    if s.spool.pc.Renaming? {
      NamesDisjoint("", s.spool.pc.b.id);
    }
  }

  /** The committed bytes never exceed the counter, but for the bundle just renamed and what the
      start-up scan overlooked. */
  lemma CounterCoversDisk(s: State)
    requires Balanced(s) && !Starting(s.spool.pc)
    ensures Total(s.disk) <= s.spool.counter + s.spool.missed + Uncounted(s.spool.pc)
    ensures s.spool.pc == Idle ==>
              s.spool.counter + s.spool.missed - Total(s.disk) == s.books.freed - s.books.doubled + s.books.leaked
  {
  }

  // ------------------------------------------------------------------ the quota

  /** Bytes the capacity check has promised to the write under way. */
  function Reserved(pc: WriterPc): nat {
    if pc.Mkdir? || pc.Create? || pc.Writing? || pc.Renaming? || pc.Accounting? then |pc.b.data| else 0
  }

  /** The counter with the promised bytes, or until the scan has ended the directory. */
  ghost predicate WithinQuota(c: Config, s: State) {
    if Starting(s.spool.pc) then Total(s.disk) <= c.maxBytes
    else s.spool.counter + Reserved(s.spool.pc) <= c.maxBytes
  }

  lemma BootsWithinQuota(c: Config, s: State, a: BootStep, s': State)
    requires WithinQuota(c, s) && Boots(s, a, s')
    ensures WithinQuota(c, s')
  {
    match a
    case UnlinkEntry => UnlinkFrees(s.disk, s.spool.pc.todo[0]);
    case RmdirEntry => RemoveDirKeeps(s.disk, s.spool.pc.todo[0]);
    case Scan(infos) => ScanIsExact(s, infos, s');
    case _ =>
  }

  lemma EvictsWithinQuota(c: Config, s: State, a: EvictStep, s': State)
    requires WithinQuota(c, s) && Evicts(c, s, a, s')
    ensures WithinQuota(c, s')
  {
  }

  lemma StagesWithinQuota(c: Config, s: State, a: StageStep, s': State)
    requires WithinQuota(c, s) && Stages(c, s, a, s')
    ensures WithinQuota(c, s')
  {
  }

  lemma WorksWithinQuota(c: Config, s: State, i: nat, a: WorkStep, s': State)
    requires WithinQuota(c, s) && Works(c, s, i, a, s')
    ensures WithinQuota(c, s')
  {
    match a
    case DeleteUnlink => UnlinkFrees(s.disk, s.up.workers[i].id);
    case DeleteRmdir => RemoveDirKeeps(s.disk, s.up.workers[i].id);
    case _ =>
  }

  /** Every step but a crash keeps a process within the quota, whatever its start-up scan overlooked. */
  lemma StaysWithinQuota(c: Config, s: State, a: Step, s': State)
    requires WithinQuota(c, s) && Does(c, s, a, s') && !a.Crash?
    ensures WithinQuota(c, s')
  {
    match a
    case Booting(b) => BootsWithinQuota(c, s, b, s');
    case Eviction(e) => EvictsWithinQuota(c, s, e, s');
    case Staging(g) => StagesWithinQuota(c, s, g, s');
    case Worker(i, k) => WorksWithinQuota(c, s, i, k, s');
    case Scanner(_) =>
  }

  /** A crash leaves the directory within the quota exactly if the bytes that the counter stood for,
      and those it never knew of, are. */
  lemma CrashWithinQuotaIff(c: Config, s: State, s': State)
    requires Balanced(s) && !Starting(s.spool.pc) && Crashes(c, s, s')
    ensures var uncounted := Owed(s.spool.pc) + s.books.doubled - s.books.freed - s.books.leaked;
            WithinQuota(c, s') <==> s.spool.counter + uncounted + s.spool.missed <= c.maxBytes
    ensures WithinQuota(c, s) && s.spool.missed == 0 ==> WithinQuota(c, s')
  {
    CounterCoversDisk(s);
  }

  // ------------------------------------------------------------------ no loss

  /** Acknowledged by the object store, evicted, or still on disk. */
  predicate Safe(disk: Disk, l: Ledger, n: nat)
    requires n < |l.commits|
  {
    n in l.puts || n in l.evicted || OnDisk(disk, l, n)
  }

  /** No commit is lost, given at least one attempt per upload and no commit of an identifier whose
      job is in flight. */
  ghost predicate Lossless(c: Config, disk: Disk, l: Ledger) {
    c.maxRetries >= 1 && !l.recommitted ==> forall n :: 0 <= n < |l.commits| ==> Safe(disk, l, n)
  }

  /** Unless the identifier was committed again, a worker's fixture is the one it read. */
  predicate Current(disk: Disk, l: Ledger, id: string, n: nat) {
    !l.recommitted && IsFixture(disk, id) ==> id in l.owner && l.owner[id] == n
  }

  predicate IsCommit(l: Ledger, n: nat, b: Bundle) {
    n < |l.commits| && l.commits[n] == b
  }

  predicate WorkerOk(c: Config, disk: Disk, l: Ledger, w: WorkerPc) {
    match w
    case Free => true
    case Exited => true
    case Reading(id) => !IsTemp(id)
    case Uploading(id, data, n, _) => !IsTemp(id) && IsCommit(l, n, Bundle(id, data)) && Current(disk, l, id, n)
    case Deleting(id, n) => !IsTemp(id) && (c.maxRetries >= 1 ==> n in l.puts) && Current(disk, l, id, n)
    case Rmdir(id) => !IsTemp(id)
    case Clearing(id) => !IsTemp(id)
  }

  ghost predicate WorkersOk(c: Config, disk: Disk, l: Ledger, ws: seq<WorkerPc>) {
    forall i :: 0 <= i < |ws| ==> WorkerOk(c, disk, l, ws[i])
  }

  /** Only fixtures are ever listed, queued or processed. */
  predicate ScannerOk(sc: ScannerPc) {
    match sc
    case Scanning(todo) => Committable(todo)
    case Checked(id, todo) => !IsTemp(id) && Committable(todo)
    case Marked(id, todo) => !IsTemp(id) && Committable(todo)
    case _ => true
  }

  ghost predicate Traceable(c: Config, disk: Disk, l: Ledger, u: Uploader) {
    && Whole(disk, l) && ScannerOk(u.scanner) && Committable(u.jobs)
    && WorkersOk(c, disk, l, u.workers)
  }

  ghost predicate NoMoreFixtures(disk: Disk, disk': Disk) {
    forall name :: IsFixture(disk', name) ==> IsFixture(disk, name) && disk'[name] == disk[name]
  }

  lemma FewerTraceable(c: Config, disk: Disk, disk': Disk, l: Ledger, u: Uploader, evicted: set<nat>)
    requires Traceable(c, disk, l, u) && NoMoreFixtures(disk, disk')
    ensures Traceable(c, disk', l.(evicted := evicted), u)
  {
    var l' := l.(evicted := evicted);
    forall i | 0 <= i < |u.workers| ensures WorkerOk(c, disk', l', u.workers[i]) {
      assert WorkerOk(c, disk, l, u.workers[i]);
    }
  }

  lemma SameLossless(c: Config, disk: Disk, disk': Disk, l: Ledger)
    requires Lossless(c, disk, l) && NoMoreFixtures(disk', disk)
    ensures Lossless(c, disk', l)
  {
    forall n | 0 <= n < |l.commits| && Safe(disk, l, n) ensures Safe(disk', l, n) {
    }
  }

  lemma BootsSafe(c: Config, s: State, a: BootStep, s': State)
    requires Traceable(c, s.disk, s.ledger, s.up) && Lossless(c, s.disk, s.ledger) && Boots(s, a, s')
    ensures Traceable(c, s'.disk, s'.ledger, s'.up) && Lossless(c, s'.disk, s'.ledger)
  {
    FewerTraceable(c, s.disk, s'.disk, s.ledger, s.up, s.ledger.evicted);
    SameLossless(c, s.disk, s'.disk, s.ledger);
  }

  lemma EvictsSafe(c: Config, s: State, a: EvictStep, s': State)
    requires Traceable(c, s.disk, s.ledger, s.up) && Lossless(c, s.disk, s.ledger) && Evicts(c, s, a, s')
    ensures Traceable(c, s'.disk, s'.ledger, s'.up) && Lossless(c, s'.disk, s'.ledger)
  {
    var l, l' := s.ledger, s'.ledger;
    FewerTraceable(c, s.disk, s'.disk, l, s.up, l'.evicted);
    forall n | 0 <= n < |l'.commits| && Safe(s.disk, l, n) ensures Safe(s'.disk, l', n) {
      if a.EvictUnlink? && OnDisk(s.disk, l, n) && l.commits[n].id == s.spool.pc.order[0] {
        assert n in l'.evicted;
      }
    }
  }

  lemma StagingSafe(c: Config, s: State, a: StageStep, s': State)
    requires Traceable(c, s.disk, s.ledger, s.up) && Lossless(c, s.disk, s.ledger)
    requires Named(s.spool.pc) && Stages(c, s, a, s') && !a.Commit?
    ensures Traceable(c, s'.disk, s'.ledger, s'.up) && Lossless(c, s'.disk, s'.ledger)
  {
    if !s.spool.pc.Cleaning? {
      NamesDisjoint("", s.spool.pc.b.id);
    }
    FewerTraceable(c, s.disk, s'.disk, s.ledger, s.up, s.ledger.evicted);
    SameLossless(c, s.disk, s'.disk, s.ledger);
  }

  lemma WorkerInFlight(c: Config, u: Uploader, i: nat)
    requires Exclusive(c, u) && i < |u.workers| && !u.workers[i].Free? && !u.workers[i].Exited?
    ensures u.workers[i].id in u.inFlight
  {
    HeldIn(u.workers, i, u.workers[i].id);
    assert Places(u, u.workers[i].id) >= 1;
  }

  lemma CommitKeepsWorkers(c: Config, s: State, s': State)
    requires Exclusive(c, s.up) && Named(s.spool.pc) && Stages(c, s, Commit, s')
    requires WorkersOk(c, s.disk, s.ledger, s.up.workers)
    ensures WorkersOk(c, s'.disk, s'.ledger, s'.up.workers)
  {
    var b, ws := s.spool.pc.b, s.up.workers;
    NamesDisjoint(b.id, b.id);
    forall i | 0 <= i < |ws| ensures WorkerOk(c, s'.disk, s'.ledger, ws[i]) {
      assert WorkerOk(c, s.disk, s.ledger, ws[i]);
      if !ws[i].Free? && !ws[i].Exited? {
        WorkerInFlight(c, s.up, i);
        assert ws[i].id != b.id ==> IsFixture(s'.disk, ws[i].id) == IsFixture(s.disk, ws[i].id);
      }
    }
  }

  lemma CommitSafe(c: Config, s: State, s': State)
    requires Traceable(c, s.disk, s.ledger, s.up) && Lossless(c, s.disk, s.ledger) && Exclusive(c, s.up)
    requires Named(s.spool.pc) && ReadyToCommit(s) && Stages(c, s, Commit, s')
    ensures Traceable(c, s'.disk, s'.ledger, s'.up) && Lossless(c, s'.disk, s'.ledger)
  {
    var b, l, l' := s.spool.pc.b, s.ledger, s'.ledger;
    NamesDisjoint(b.id, b.id);
    CommitKeepsWorkers(c, s, s');
    forall n | 0 <= n < |l.commits| && Safe(s.disk, l, n) ensures Safe(s'.disk, l', n) {
      assert l'.commits[n] == l.commits[n];
    }
    assert OnDisk(s'.disk, l', |l.commits|);
  }

  lemma ScansSafe(c: Config, s: State, a: ScanStep, s': State)
    requires Traceable(c, s.disk, s.ledger, s.up) && Scans(c, s, a, s')
    ensures Traceable(c, s'.disk, s'.ledger, s'.up)
  {
    match a
    case ListSpool(infos) => ListingCommittable(s.disk, infos);
    case _ =>
  }

  /** Workers only add to what was stored and acknowledged. */
  predicate SendsOnly(l: Ledger, l': Ledger) {
    && l' == l.(stored := l'.stored, puts := l'.puts, objects := l'.objects, source := l'.source)
    && l.puts <= l'.puts && l.stored <= l'.stored
  }

  /** The worker making a step, and every other one. */
  lemma OneWorkerMoves(c: Config, disk: Disk, l: Ledger, disk': Disk, l': Ledger,
                       ws: seq<WorkerPc>, i: nat, w: WorkerPc)
    requires i < |ws| && WorkersOk(c, disk, l, ws)
    requires NoMoreFixtures(disk, disk') && SendsOnly(l, l')
    requires WorkerOk(c, disk', l', w)
    ensures WorkersOk(c, disk', l', ws[i := w])
  {
    var ws' := ws[i := w];
    forall j | 0 <= j < |ws'| ensures WorkerOk(c, disk', l', ws'[j]) {
      assert WorkerOk(c, disk, l, ws[j]);
    }
  }

  lemma WorksSafe(c: Config, s: State, i: nat, a: WorkStep, s': State)
    requires Traceable(c, s.disk, s.ledger, s.up) && Lossless(c, s.disk, s.ledger) && Works(c, s, i, a, s')
    ensures Traceable(c, s'.disk, s'.ledger, s'.up) && Lossless(c, s'.disk, s'.ledger)
  {
    var w, w', l, l' := s.up.workers[i], s'.up.workers[i], s.ledger, s'.ledger;
    assert WorkerOk(c, s.disk, l, w);
    OneWorkerMoves(c, s.disk, l, s'.disk, l', s.up.workers, i, w');
    if c.maxRetries >= 1 && !l.recommitted {
      forall n | 0 <= n < |l.commits| ensures Safe(s'.disk, l', n) {
        assert Safe(s.disk, l, n);
      }
    }
  }

  // ------------------------------------------------------------------ start-up

  /** The staging directories that recovery has still to remove. */
  ghost predicate Recovers(s: State) {
    var pc := s.spool.pc;
    && (pc.Recovering? || pc.Discarding? ==> forall name :: IsStaging(s.disk, name) ==> name in pc.todo)
    && (pc.Discarding? ==> pc.todo != [] && IsStaging(s.disk, pc.todo[0]) && s.disk[pc.todo[0]].file == None)
    && (pc.Counting? ==> forall name :: !IsStaging(s.disk, name))
  }

  lemma BootsRecovers(s: State, a: BootStep, s': State)
    requires Recovers(s) && Boots(s, a, s')
    ensures Recovers(s')
    ensures a.Scan? ==> forall name :: !IsStaging(s'.disk, name)
  {
    if a.SkipEntry? || a.RmdirEntry? {
      var todo := s.spool.pc.todo;
      forall name | name in todo && name != todo[0] ensures name in todo[1..] {
      }
    }
  }

  lemma BootsKeepsFinals(s: State, a: BootStep, s': State)
    requires Recovers(s) && Boots(s, a, s')
    ensures Finals(s'.disk) == Finals(s.disk)
  {
  }

  // ------------------------------------------------------------------ all runs

  /** The invariant of every run. */
  ghost predicate Inv(c: Config, s: State) {
    && c.workers > 0
    && Exclusive(c, s.up)
    && (Starting(s.spool.pc) ==> s.up.scanner == Off && s.books == Books(0, 0, 0))
    && (s.up.scanner == Off ==> s.up == FreshUploader(c) && s.books.freed == 0)
    && Recovers(s) && Balanced(s) && ReadyToCommit(s)
    && Traceable(c, s.disk, s.ledger, s.up) && Lossless(c, s.disk, s.ledger)
  }

  lemma InitInv(c: Config, s: State)
    requires Init(c, s)
    ensures Inv(c, s)
  {
    FreshExclusive(c);
  }

  lemma CrashInv(c: Config, s: State, s': State)
    requires Inv(c, s) && Crashes(c, s, s')
    ensures Inv(c, s')
  {
    FreshExclusive(c);
  }

  lemma BootInv(c: Config, s: State, a: BootStep, s': State)
    requires Inv(c, s) && Boots(s, a, s')
    ensures Inv(c, s')
  {
    BootsBalanced(s, a, s');
    BootsRecovers(s, a, s');
    BootsSafe(c, s, a, s');
  }

  lemma EvictInv(c: Config, s: State, a: EvictStep, s': State)
    requires Inv(c, s) && Evicts(c, s, a, s')
    ensures Inv(c, s')
  {
    EvictsBalanced(c, s, a, s');
    EvictsSafe(c, s, a, s');
  }

  lemma StageInv(c: Config, s: State, a: StageStep, s': State)
    requires Inv(c, s) && Stages(c, s, a, s')
    ensures Inv(c, s')
  {
    StagesBalanced(c, s, a, s');
    if a.Commit? {
      CommitSafe(c, s, s');
    } else {
      StagingSafe(c, s, a, s');
    }
  }

  lemma ScannerInv(c: Config, s: State, a: ScanStep, s': State)
    requires Inv(c, s) && Scans(c, s, a, s')
    ensures Inv(c, s')
  {
    ScansExclusive(c, s, a, s');
    ScansSafe(c, s, a, s');
  }

  /** Before the scanner has started no worker can move. */
  lemma WorkersWait(c: Config, s: State, i: nat, a: WorkStep, s': State)
    requires s.up.scanner == Off ==> s.up == FreshUploader(c)
    requires Works(c, s, i, a, s')
    ensures s.up.scanner != Off
  {
    forall k | 0 <= k < |FreshUploader(c).workers| ensures FreshUploader(c).workers[k] == Free {
    }
  }

  lemma WorkerInv(c: Config, s: State, i: nat, a: WorkStep, s': State)
    requires Inv(c, s) && Works(c, s, i, a, s')
    ensures Inv(c, s')
  {
    WorkersWait(c, s, i, a, s');
    assert WorkerOk(c, s.disk, s.ledger, s.up.workers[i]);
    WorksExclusive(c, s, i, a, s');
    WorksBalanced(c, s, i, a, s');
    WorksReady(c, s, i, a, s');
    WorksSafe(c, s, i, a, s');
  }

  lemma NextInv(c: Config, s: State, s': State)
    requires Inv(c, s) && Next(c, s, s')
    ensures Inv(c, s')
  {
    var a :| Does(c, s, a, s');
    match a
    case Booting(b) => BootInv(c, s, b, s');
    case Eviction(e) => EvictInv(c, s, e, s');
    case Staging(g) => StageInv(c, s, g, s');
    case Scanner(n) => ScannerInv(c, s, n, s');
    case Worker(i, k) => WorkerInv(c, s, i, k, s');
    case Crash => CrashInv(c, s, s');
  }

  lemma {:induction false} RunInv(c: Config, run: seq<State>, i: nat)
    requires Run(c, run) && i < |run|
    ensures Inv(c, run[i])
  {
    if i == 0 {
      InitInv(c, run[0]);
    } else {
      RunInv(c, run, i - 1);
      assert Leads(c, run, i);
      NextInv(c, run[i - 1], run[i]);
    }
  }

  // ------------------------------------------------------------------ theorems: accounting

  /** The process that is up in state `i` was started by the scan in step `j`, which listed `infos`. */
  ghost predicate StartedBy(run: seq<State>, i: nat, j: nat, infos: seq<S.Info>)
    requires 0 < j <= i < |run|
  {
    && Boots(run[j - 1], Scan(infos), run[j])
    && forall k :: j <= k <= i ==> !Starting(run[k].spool.pc)
  }

  /** Only a scan ends the start-up, and nothing later changes what it overlooked. */
  lemma UpAfterScan(c: Config, s: State, a: Step, s': State)
    requires Does(c, s, a, s') && !Starting(s'.spool.pc)
    ensures Starting(s.spool.pc) ==> a.Booting? && a.b.Scan?
    ensures !Starting(s.spool.pc) ==> s'.spool.missed == s.spool.missed
  {
  }

  /** Every process that is up was started by a scan. */
  lemma {:induction false} StartOf(c: Config, run: seq<State>, i: nat) returns (j: nat, infos: seq<S.Info>)
    requires Run(c, run) && i < |run| && !Starting(run[i].spool.pc)
    ensures 0 < j <= i && StartedBy(run, i, j, infos)
  {
    assert Leads(c, run, i);
    var a :| Does(c, run[i - 1], a, run[i]);
    UpAfterScan(c, run[i - 1], a, run[i]);
    if Starting(run[i - 1].spool.pc) {
      j, infos := i, a.b.infos;
    } else {
      j, infos := StartOf(c, run, i - 1);
    }
  }

  lemma {:induction false} MissedIsOverlooked(c: Config, run: seq<State>, i: nat, j: nat, infos: seq<S.Info>)
    requires Run(c, run) && 0 < j <= i < |run| && StartedBy(run, i, j, infos)
    ensures run[i].spool.missed == Overlooked(run[j].disk, infos)
  {
    if j < i {
      MissedIsOverlooked(c, run, i - 1, j, infos);
      assert Leads(c, run, i);
      var a :| Does(c, run[i - 1], a, run[i]);
      UpAfterScan(c, run[i - 1], a, run[i]);
    }
  }

  /** Accounting over all runs: the counter covers the committed bytes but for a bundle not yet counted
      and the fixtures that the start-up scan could not examine; between two operations of the writer
      the gap is what workers freed and was not deducted again, plus leaks. */
  lemma AccountingHolds(c: Config, run: seq<State>, i: nat, j: nat, infos: seq<S.Info>)
    requires Run(c, run) && 0 < j <= i < |run| && StartedBy(run, i, j, infos)
    ensures var s, overlooked := run[i], Overlooked(run[j].disk, infos);
            && Total(s.disk) <= s.spool.counter + overlooked + Uncounted(s.spool.pc)
            && (s.spool.pc == Idle ==> s.spool.counter + overlooked - Total(s.disk) ==
                                       s.books.freed - s.books.doubled + s.books.leaked)
    ensures S.Complete(run[j].disk, infos) ==>
              Total(run[i].disk) <= run[i].spool.counter + Uncounted(run[i].spool.pc)
  {
    RunInv(c, run, i);
    CounterCoversDisk(run[i]);
    MissedIsOverlooked(c, run, i, j, infos);
    if S.Complete(run[j].disk, infos) {
      S.NothingLeft(run[j].disk, infos);
    }
  }

  /** No removal by the writer stops half-way. */
  predicate WholeRemoval(run: seq<State>, i: nat)
    requires 0 < i < |run|
  {
    run[i - 1].spool.pc.Unlinking? ==> run[i].spool.pc != Idle
  }

  ghost predicate WholeRemovals(run: seq<State>) {
    forall i :: 0 < i < |run| ==> WholeRemoval(run, i)
  }

  /** While the writer has measured a fixture nobody else touches the directory. */
  predicate Undisturbed(run: seq<State>, i: nat)
    requires 0 < i < |run|
  {
    run[i - 1].spool.pc.Measured? && run[i].spool.pc.Measured? ==> run[i].disk == run[i - 1].disk
  }

  ghost predicate UndisturbedEvictions(run: seq<State>) {
    forall i :: 0 < i < |run| ==> Undisturbed(run, i)
  }

  lemma {:induction false} NoLeaks(c: Config, run: seq<State>, i: nat)
    requires Run(c, run) && WholeRemovals(run) && i < |run|
    ensures run[i].books.leaked == 0
  {
    if i > 0 {
      NoLeaks(c, run, i - 1);
      assert Leads(c, run, i) && WholeRemoval(run, i);
    }
  }

  ghost predicate Undoubled(s: State) {
    && s.books.doubled == 0 && Overlap(s.spool.pc) == 0
    && (s.spool.pc.Measured? && s.spool.pc.order != [] && !IsFixture(s.disk, s.spool.pc.order[0]) ==>
          s.spool.pc.size == 0)
  }

  lemma UndoubledEvicts(c: Config, s: State, a: EvictStep, s': State)
    requires Undoubled(s) && Named(s.spool.pc) && Evicts(c, s, a, s')
    ensures Undoubled(s')
  {
    if a.Measure? {
      assert s.spool.pc.order[0] in s.spool.pc.order;
    }
  }

  lemma UndoubledStep(c: Config, s: State, s': State)
    requires Undoubled(s) && Named(s.spool.pc) && Next(c, s, s')
    requires s.spool.pc.Measured? && s'.spool.pc.Measured? ==> s'.disk == s.disk
    ensures Undoubled(s')
  {
    var a :| Does(c, s, a, s');
    if a.Eviction? {
      UndoubledEvicts(c, s, a.e, s');
    }
  }

  lemma {:induction false} UndoubledRun(c: Config, run: seq<State>, i: nat)
    requires Run(c, run) && UndisturbedEvictions(run) && i < |run|
    ensures Undoubled(run[i])
  {
    if i > 0 {
      UndoubledRun(c, run, i - 1);
      RunInv(c, run, i - 1);
      assert Leads(c, run, i) && Undisturbed(run, i);
      UndoubledStep(c, run[i - 1], run[i]);
    }
  }

  /** With atomic evictions the gap is exactly what the workers removed. */
  lemma GapIsWhatWorkersFreed(c: Config, run: seq<State>, i: nat, j: nat, infos: seq<S.Info>)
    requires Run(c, run) && UndisturbedEvictions(run) && WholeRemovals(run)
    requires 0 < j <= i < |run| && StartedBy(run, i, j, infos) && run[i].spool.pc == Idle
    ensures run[i].spool.counter + Overlooked(run[j].disk, infos) == Total(run[i].disk) + run[i].books.freed
  {
    AccountingHolds(c, run, i, j, infos);
    UndoubledRun(c, run, i);
    NoLeaks(c, run, i);
  }

  /** While the uploader has not started, and with all-or-nothing removal, there is no gap. */
  lemma NoUploaderNoGap(c: Config, run: seq<State>, i: nat, j: nat, infos: seq<S.Info>)
    requires Run(c, run) && WholeRemovals(run)
    requires 0 < j <= i < |run| && StartedBy(run, i, j, infos) && run[i].spool.pc == Idle && run[i].up.scanner == Off
    ensures run[i].spool.counter + Overlooked(run[j].disk, infos) == Total(run[i].disk)
    ensures S.Complete(run[j].disk, infos) ==> run[i].spool.counter == Total(run[i].disk)
  {
    RunInv(c, run, i);
    AccountingHolds(c, run, i, j, infos);
    NoLeaks(c, run, i);
    if S.Complete(run[j].disk, infos) {
      S.NothingLeft(run[j].disk, infos);
    }
  }

  // ------------------------------------------------------------------ theorems: the quota

  /** The process that dies in step `k` had overlooked nothing when it started. */
  predicate CrashAfterFullScan(run: seq<State>, k: nat)
    requires 0 < k < |run|
  {
    !Starting(run[k - 1].spool.pc) && Starting(run[k].spool.pc) ==> run[k - 1].spool.missed == 0
  }

  lemma QuotaStep(c: Config, s: State, s': State)
    requires Inv(c, s) && Next(c, s, s') && WithinQuota(c, s)
    requires !Starting(s.spool.pc) && Starting(s'.spool.pc) ==> s.spool.missed == 0
    ensures WithinQuota(c, s')
  {
    var a :| Does(c, s, a, s');
    if !a.Crash? {
      StaysWithinQuota(c, s, a, s');
    } else if !Starting(s.spool.pc) {
      CrashWithinQuotaIff(c, s, s');
    }
  }

  /** The quota over all runs: once within, always within, through everything that happens in one
      process, and through the crash of a process whose start-up scan overlooked nothing. */
  lemma {:induction false} QuotaHolds(c: Config, run: seq<State>, i: nat, j: nat)
    requires Run(c, run) && i <= j < |run| && WithinQuota(c, run[i])
    requires forall k :: i < k <= j ==> CrashAfterFullScan(run, k)
    ensures WithinQuota(c, run[j])
  {
    if i < j {
      QuotaHolds(c, run, i, j - 1);
      RunInv(c, run, j - 1);
      assert Leads(c, run, j) && CrashAfterFullScan(run, j);
      QuotaStep(c, run[j - 1], run[j]);
    }
  }

  // ------------------------------------------------------------------ theorems: exclusivity

  /** Upload exclusivity over all runs. */
  lemma ExclusivityHolds(c: Config, run: seq<State>, i: nat)
    requires Run(c, run) && i < |run|
    ensures var u := run[i].up;
            && |u.jobs| <= 2 * c.workers && OnePlace(u)
            && (u.scanner == Finished ==> u.inFlight == {} && u.jobs == [])
  {
    RunInv(c, run, i);
    if run[i].up.scanner == Finished {
      DrainedAtExit(c, run[i].up);
    }
  }

  ghost predicate AttemptsOk(c: Config, ws: seq<WorkerPc>) {
    forall i :: 0 <= i < |ws| && ws[i].Uploading? ==> ws[i].attempt == 0 || ws[i].attempt < c.maxRetries
  }

  lemma WorkAttempts(c: Config, s: State, i: nat, a: WorkStep, s': State)
    requires AttemptsOk(c, s.up.workers) && Works(c, s, i, a, s')
    ensures AttemptsOk(c, s'.up.workers)
  {
  }

  lemma AttemptsStep(c: Config, s: State, a: Step, s': State)
    requires AttemptsOk(c, s.up.workers) && Does(c, s, a, s')
    ensures AttemptsOk(c, s'.up.workers)
  {
    match a
    case Worker(i, k) => WorkAttempts(c, s, i, k, s');
    case _ =>
  }

  /** No worker tries an upload more often than configured. */
  lemma {:induction false} AttemptsBounded(c: Config, run: seq<State>, i: nat)
    requires Run(c, run) && i < |run|
    ensures AttemptsOk(c, run[i].up.workers)
  {
    if i > 0 {
      AttemptsBounded(c, run, i - 1);
      assert Leads(c, run, i);
      var a :| Does(c, run[i - 1], a, run[i]);
      AttemptsStep(c, run[i - 1], a, run[i]);
    }
  }

  // ------------------------------------------------------------------ theorems: recovery

  /** Only crashes lead back to the start-up. */
  lemma OnlyCrashesRestart(c: Config, s: State, a: Step, s': State)
    requires !Starting(s.spool.pc) && Starting(s'.spool.pc) && Does(c, s, a, s')
    ensures s'.disk == s.disk && s'.ledger == s.ledger
  {
  }

  lemma StartingKeepsFinals(c: Config, s: State, s': State)
    requires Inv(c, s) && Starting(s.spool.pc) && Next(c, s, s')
    ensures Finals(s'.disk) == Finals(s.disk)
  {
    var a :| Does(c, s, a, s');
    match a
    case Booting(b) => BootsKeepsFinals(s, b, s');
    case Worker(i, k) => WorkersWait(c, s, i, k, s');
    case _ =>
  }

  lemma {:induction false} BootingKeepsFinals(c: Config, run: seq<State>, i: nat, j: nat)
    requires Run(c, run) && i <= j < |run|
    requires forall k :: i <= k <= j ==> Starting(run[k].spool.pc)
    ensures Finals(run[j].disk) == Finals(run[i].disk)
  {
    if i < j {
      BootingKeepsFinals(c, run, i, j - 1);
      RunInv(c, run, j - 1);
      assert Leads(c, run, j);
      StartingKeepsFinals(c, run[j - 1], run[j]);
    }
  }

  /** Crash recovery.  Whatever step the process died after, and however often its start failed, when
      a start-up scan has ended the fixtures are those of the moment of the crash, each the complete
      bundle of one commit, no staging directory is left, and the counter is the exact total but for
      the fixtures that could not be examined. */
  lemma RecoveryIsExact(c: Config, run: seq<State>, i: nat, j: nat, infos: seq<S.Info>)
    requires Run(c, run) && 0 < i < j < |run| && !Starting(run[i - 1].spool.pc)
    requires forall k :: i <= k < j ==> Starting(run[k].spool.pc)
    requires Boots(run[j - 1], Scan(infos), run[j])
    ensures Finals(run[j].disk) == Finals(run[i - 1].disk) && Whole(run[j].disk, run[j].ledger)
    ensures forall name :: !IsStaging(run[j].disk, name)
    ensures run[j].spool.counter + Overlooked(run[j].disk, infos) == Total(run[j].disk)
    ensures S.Complete(run[j].disk, infos) ==> run[j].spool.counter == Total(run[j].disk)
  {
    assert Leads(c, run, i);
    var a :| Does(c, run[i - 1], a, run[i]);
    OnlyCrashesRestart(c, run[i - 1], a, run[i]);
    BootingKeepsFinals(c, run, i, j - 1);
    RunInv(c, run, j - 1);
    BootsRecovers(run[j - 1], Scan(infos), run[j]);
    ScanIsExact(run[j - 1], infos, run[j]);
  }
}
