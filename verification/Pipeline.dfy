/** Spool writer and uploader over one directory, step by step, with crashes.

    The writer (under its mutex), the scanner and the workers interleave between any two system
    calls; the process may die between any two of them and start again.  A state is what the process
    holds plus the directory, and three ledgers kept only for the theorems. */
module Pipeline {
  import opened Common
  import opened FileSystem
  import S = Spool

  datatype Config = Config(maxBytes: int, workers: nat, maxRetries: int)

  datatype Bundle = Bundle(id: string, data: Data)

  // ------------------------------------------------------------------ states

  /** Where the writer stands.  At start-up `todo` are the directory entries still to look at; in
      `Discarding` the first of them has lost its file and not yet its directory.  `order` are the
      fixtures still to evict, oldest first; `mine` tells whether the writer itself unlinked the file
      of the fixture it is removing. */
  datatype WriterPc =
    | Boot
    | Recovering(todo: seq<string>)
    | Discarding(todo: seq<string>)
    | Counting
    | Idle
    | Check(job: Option<Bundle>)
    | Evicting(job: Option<Bundle>, order: seq<string>)
    | Measured(job: Option<Bundle>, order: seq<string>, size: nat)
    | Unlinking(job: Option<Bundle>, order: seq<string>, size: nat, mine: bool)
    | Removed(job: Option<Bundle>, order: seq<string>, size: nat, mine: bool)
    | Mkdir(b: Bundle)
    | Create(b: Bundle)
    | Writing(b: Bundle)
    | Renaming(b: Bundle)
    | Accounting(b: Bundle)
    | Cleaning(tmp: string)

  /** `missed`: bytes of the fixtures that the start-up scan could not examine. */
  datatype Spool = Spool(pc: WriterPc, counter: int, missed: nat)

  datatype ScannerPc =
    | Off
    | Resting
    | Scanning(todo: seq<string>)
    | Checked(id: string, todo: seq<string>)
    | Marked(id: string, todo: seq<string>)
    | Closed
    | Finished

  /** `n` is the commit whose bytes a worker read. */
  datatype WorkerPc =
    | Free
    | Reading(id: string)
    | Uploading(id: string, data: Data, n: nat, attempt: nat)
    | Deleting(id: string, n: nat)
    | Rmdir(id: string)
    | Clearing(id: string)
    | Exited

  datatype Uploader = Uploader(scanner: ScannerPc, jobs: seq<string>, inFlight: set<string>, workers: seq<WorkerPc>)

  /** Every commit ever made; whose file each directory holds; which commits were evicted, were ever
      stored in the object store, and were acknowledged by it; what the object store holds by fixture,
      and of which commit that is.  `recommitted` records that an identifier was committed while its
      job was in flight. */
  datatype Ledger = Ledger(commits: seq<Bundle>, owner: map<string, nat>, evicted: set<nat>,
                           stored: set<nat>, puts: set<nat>,
                           objects: map<string, Data>, source: map<string, nat>, recommitted: bool)

  /** Since the last start: bytes unlinked by workers, bytes the writer deducted although a worker had
      unlinked them, and bytes the writer unlinked without deducting them. */
  datatype Books = Books(freed: nat, doubled: nat, leaked: nat)

  datatype State = State(disk: Disk, spool: Spool, up: Uploader, ledger: Ledger, books: Books)

  // ------------------------------------------------------------------ steps of the writer

  /** The writer moves on without touching anything but its own place. */
  function At(s: State, pc: WriterPc): State {
    s.(spool := s.spool.(pc := pc))
  }

  datatype BootStep =
    | ReadNames(names: seq<string>) | SkipEntry | UnlinkEntry | RmdirEntry | NamesDone
    | Scan(infos: seq<S.Info>) | StartFails

  predicate Starting(pc: WriterPc) {
    pc.Boot? || pc.Recovering? || pc.Discarding? || pc.Counting?
  }

  predicate IsStaging(disk: Disk, name: string) {
    name in disk && disk[name].Dir? && IsTemp(name)
  }

  /** Bytes of the fixtures that a listing leaves out. */
  ghost function Overlooked(disk: Disk, infos: seq<S.Info>): nat {
    Total(S.Without(disk, infos, |infos|))
  }

  /** The directory is read once and its entries are handled one by one; then the fixtures are counted.
      Any failure ends the process, which starts again. */
  ghost predicate Boots(s: State, a: BootStep, s': State) {
    var pc := s.spool.pc;
    match a
    case ReadNames(names) =>
      pc == Boot && (forall name :: name in names <==> name in s.disk) && s' == At(s, Recovering(names))
    case SkipEntry =>
      pc.Recovering? && pc.todo != [] && !IsStaging(s.disk, pc.todo[0]) && s' == At(s, Recovering(pc.todo[1..]))
    case UnlinkEntry =>
      && pc.Recovering? && pc.todo != [] && IsStaging(s.disk, pc.todo[0])
      && s' == At(s, Discarding(pc.todo)).(disk := Unlinked(s.disk, pc.todo[0]))
    case RmdirEntry =>
      && pc.Discarding? && pc.todo != []
      && s' == At(s, Recovering(pc.todo[1..])).(disk := RemovedDir(s.disk, pc.todo[0]))
    case NamesDone => pc == Recovering([]) && s' == At(s, Counting)
    case Scan(infos) =>
      && pc == Counting && S.Listing(s.disk, infos)
      && s' == s.(spool := Spool(Idle, S.PrefixBytes(infos, |infos|), Overlooked(s.disk, infos)))
    case StartFails => Starting(pc) && s' == s.(spool := Spool(Boot, 0, 0))
  }

  function Need(job: Option<Bundle>): nat {
    if job.Some? then |job.value.data| else 0
  }

  predicate Fits(c: Config, s: State, job: Option<Bundle>) {
    s.spool.counter + Need(job) <= c.maxBytes
  }

  function Ids(infos: seq<S.Info>): (ids: seq<string>)
    ensures |ids| == |infos| && forall i :: 0 <= i < |ids| ==> ids[i] == infos[i].id
  {
    seq(|infos|, i requires 0 <= i < |infos| => infos[i].id)
  }

  /** After the capacity check: on to the write, or back. */
  function Onward(job: Option<Bundle>): WriterPc {
    if job.Some? then Mkdir(job.value) else Idle
  }

  datatype EvictStep =
    | BeginWrite(b: Bundle) | BeginCleanup
    | EnoughRoom | ListOldest(infos: seq<S.Info>) | ListFails
    | EvictionEnds | Measure | MeasureFails
    | EvictUnlink | EvictRmdir | EvictFails | Deduct

  ghost predicate Evicts(c: Config, s: State, a: EvictStep, s': State) {
    var pc := s.spool.pc;
    match a
    case BeginWrite(b) => pc == Idle && '.' !in b.id && s' == At(s, Check(Some(b)))
    case BeginCleanup => pc == Idle && s' == At(s, Check(None))
    case EnoughRoom => pc.Check? && Fits(c, s, pc.job) && s' == At(s, Onward(pc.job))
    case ListOldest(infos) =>
      && pc.Check? && !Fits(c, s, pc.job)
      && S.Listing(s.disk, infos) && S.OldestFirst(infos)
      && s' == At(s, Evicting(pc.job, Ids(infos)))
    case ListFails => pc.Check? && !Fits(c, s, pc.job) && s' == At(s, Idle)
    case EvictionEnds =>
      && pc.Evicting? && (Fits(c, s, pc.job) || pc.order == [])
      && s' == At(s, if Fits(c, s, pc.job) then Onward(pc.job) else Idle)
    case Measure =>
      && pc.Evicting? && !Fits(c, s, pc.job) && pc.order != []
      && var id := pc.order[0];
         && id in s.disk && s.disk[id].Dir?
         && s' == At(s, Measured(pc.job, pc.order, if s.disk[id].file.Some? then |s.disk[id].file.value| else 0))
    case MeasureFails => pc.Evicting? && !Fits(c, s, pc.job) && pc.order != [] && s' == At(s, Idle)
    case EvictUnlink =>
      && pc.Measured? && pc.order != []
      && var id := pc.order[0];
         var mine := IsFixture(s.disk, id);
         && s' == At(s, Unlinking(pc.job, pc.order, pc.size, mine)).(
                    disk := Unlinked(s.disk, id),
                    ledger := if mine && id in s.ledger.owner
                              then s.ledger.(evicted := s.ledger.evicted + {s.ledger.owner[id]}) else s.ledger)
    case EvictRmdir =>
      && pc.Unlinking? && pc.order != []
      && s' == At(s, Removed(pc.job, pc.order, pc.size, pc.mine)).(disk := RemovedDir(s.disk, pc.order[0]))
    case EvictFails =>
      && (pc.Measured? || pc.Unlinking?)
      && s' == At(s, Idle).(books := if pc.Unlinking? && pc.mine
                                     then s.books.(leaked := s.books.leaked + pc.size) else s.books)
    case Deduct =>
      && pc.Removed? && pc.order != []
      && s' == At(s, Evicting(pc.job, pc.order[1..])).(
                 spool := Spool(Evicting(pc.job, pc.order[1..]), s.spool.counter - pc.size, s.spool.missed),
                 books := if pc.mine then s.books else s.books.(doubled := s.books.doubled + pc.size))
  }

  datatype StageStep =
    | MkdirDone(mtime: int) | MkdirFails
    | Truncate(mtime: int) | CreateFails
    | WritePart(mtime: int, k: nat) | WriteAll(mtime: int) | WriteFails
    | Commit | RenameFails | AddBytes
    | CleanUnlink | CleanRmdir | CleanGivesUp

  predicate HasStaging(s: State, b: Bundle) {
    TempName(b.id) in s.disk && s.disk[TempName(b.id)].Dir?
  }

  function Staged(s: State, b: Bundle, mtime: int, content: Data): Disk {
    s.disk[TempName(b.id) := Dir(mtime, Some(content))]
  }

  ghost predicate Stages(c: Config, s: State, a: StageStep, s': State) {
    var pc := s.spool.pc;
    match a
    case MkdirDone(mtime) =>
      && pc.Mkdir? && (TempName(pc.b.id) in s.disk ==> HasStaging(s, pc.b))
      && s' == At(s, Create(pc.b)).(
                 disk := if HasStaging(s, pc.b) then s.disk else s.disk[TempName(pc.b.id) := Dir(mtime, None)])
    case MkdirFails => pc.Mkdir? && s' == At(s, Idle)
    case Truncate(mtime) =>
      && pc.Create? && HasStaging(s, pc.b)
      && s' == At(s, Writing(pc.b)).(disk := Staged(s, pc.b, mtime, []))
    case CreateFails => pc.Create? && s' == At(s, Cleaning(TempName(pc.b.id)))
    case WritePart(mtime, k) =>
      && pc.Writing? && HasStaging(s, pc.b) && k <= |pc.b.data|
      && s' == s.(disk := Staged(s, pc.b, mtime, pc.b.data[..k]))
    case WriteAll(mtime) =>
      && pc.Writing? && HasStaging(s, pc.b)
      && s' == At(s, Renaming(pc.b)).(disk := Staged(s, pc.b, mtime, pc.b.data))
    case WriteFails => pc.Writing? && s' == At(s, Cleaning(TempName(pc.b.id)))
    case Commit =>
      && pc.Renaming? && CanRename(s.disk, TempName(pc.b.id), pc.b.id)
      && s' == At(s, Accounting(pc.b)).(
                 disk := Renamed(s.disk, TempName(pc.b.id), pc.b.id),
                 ledger := s.ledger.(commits := s.ledger.commits + [pc.b],
                                     owner := s.ledger.owner[pc.b.id := |s.ledger.commits|],
                                     recommitted := s.ledger.recommitted || pc.b.id in s.up.inFlight))
    case RenameFails => pc.Renaming? && s' == At(s, Cleaning(TempName(pc.b.id)))
    case AddBytes =>
      && pc.Accounting?
      && s' == s.(spool := Spool(Idle, s.spool.counter + |pc.b.data|, s.spool.missed))
    case CleanUnlink => pc.Cleaning? && s' == s.(disk := Unlinked(s.disk, pc.tmp))
    case CleanRmdir => pc.Cleaning? && s' == At(s, Idle).(disk := RemovedDir(s.disk, pc.tmp))
    case CleanGivesUp => pc.Cleaning? && s' == At(s, Idle)
  }

  // ------------------------------------------------------------------ steps of the uploader

  datatype ScanStep =
    | StartUp | ListSpool(infos: seq<S.Info>) | Skip | Look | Mark | Push | ChannelFull
    | ScanEnds | CloseJobs | WaitDone

  ghost predicate Scans(c: Config, s: State, a: ScanStep, s': State) {
    var u := s.up;
    var sc := u.scanner;
    match a
    case StartUp => sc == Off && !Starting(s.spool.pc) && s' == s.(up := u.(scanner := Resting))
    // `List` takes the writer's mutex.
    case ListSpool(infos) =>
      && sc == Resting && s.spool.pc == Idle && S.Listing(s.disk, infos)
      && s' == s.(up := u.(scanner := Scanning(Ids(infos))))
    case Skip =>
      && sc.Scanning? && sc.todo != [] && sc.todo[0] in u.inFlight
      && s' == s.(up := u.(scanner := Scanning(sc.todo[1..])))
    case Look =>
      && sc.Scanning? && sc.todo != [] && sc.todo[0] !in u.inFlight
      && s' == s.(up := u.(scanner := Checked(sc.todo[0], sc.todo[1..])))
    case Mark =>
      && sc.Checked?
      && s' == s.(up := u.(scanner := Marked(sc.id, sc.todo), inFlight := u.inFlight + {sc.id}))
    case Push =>
      && sc.Marked? && |u.jobs| < 2 * c.workers
      && s' == s.(up := u.(scanner := Scanning(sc.todo), jobs := u.jobs + [sc.id]))
    case ChannelFull =>
      && sc.Marked? && |u.jobs| >= 2 * c.workers
      && s' == s.(up := u.(scanner := Scanning(sc.todo), inFlight := u.inFlight - {sc.id}))
    // The list is done or the context was cancelled.
    case ScanEnds => sc.Scanning? && s' == s.(up := u.(scanner := Resting))
    case CloseJobs => sc == Resting && s' == s.(up := u.(scanner := Closed))
    case WaitDone =>
      && sc == Closed && (forall w :: w in u.workers ==> w == Exited)
      && s' == s.(up := u.(scanner := Finished))
  }

  datatype WorkStep =
    | Take | Exit | Read | ReadFails
    | PutSucceeds | PutFails(stored: bool) | NoAttempt | Cancelled
    | DeleteUnlink | DeleteRmdir | DeleteFails | Clear

  function WorkerAt(s: State, i: nat, w: WorkerPc): State
    requires i < |s.up.workers|
  {
    s.(up := s.up.(workers := s.up.workers[i := w]))
  }

  /** After a failed attempt: another one, or give up. */
  function AfterFailure(c: Config, w: WorkerPc): WorkerPc
    requires w.Uploading?
  {
    if w.attempt + 1 < c.maxRetries then w.(attempt := w.attempt + 1) else Clearing(w.id)
  }

  /** The object store has taken what a worker sent. */
  function Stored(l: Ledger, w: WorkerPc): Ledger
    requires w.Uploading?
  {
    l.(stored := l.stored + {w.n}, objects := l.objects[w.id := w.data], source := l.source[w.id := w.n])
  }

  ghost predicate Works(c: Config, s: State, i: nat, a: WorkStep, s': State) {
    && i < |s.up.workers|
    && var u := s.up;
       var w := u.workers[i];
       match a
       case Take =>
         && w == Free && u.scanner != Off && u.jobs != []
         && s' == s.(up := u.(jobs := u.jobs[1..], workers := u.workers[i := Reading(u.jobs[0])]))
       case Exit => w == Free && u.jobs == [] && u.scanner == Closed && s' == WorkerAt(s, i, Exited)
       case Read =>
         && w.Reading? && IsFixture(s.disk, w.id) && w.id in s.ledger.owner
         && s' == WorkerAt(s, i, Uploading(w.id, s.disk[w.id].file.value, s.ledger.owner[w.id], 0))
       case ReadFails => w.Reading? && s' == WorkerAt(s, i, Clearing(w.id))
       case PutSucceeds =>
         && w.Uploading? && w.attempt < c.maxRetries
         && s' == WorkerAt(s, i, Deleting(w.id, w.n)).(
                    ledger := Stored(s.ledger, w).(puts := s.ledger.puts + {w.n}))
       // A failed call may still have stored the object.
       case PutFails(stored) =>
         && w.Uploading? && w.attempt < c.maxRetries
         && s' == WorkerAt(s, i, AfterFailure(c, w)).(
                    ledger := if stored then Stored(s.ledger, w) else s.ledger)
       // Without retries the loop body never runs and its nil error reads as success.
       case NoAttempt => w.Uploading? && c.maxRetries <= 0 && s' == WorkerAt(s, i, Deleting(w.id, w.n))
       case Cancelled => w.Uploading? && s' == WorkerAt(s, i, Clearing(w.id))
       case DeleteUnlink =>
         && w.Deleting?
         && s' == WorkerAt(s, i, Rmdir(w.id)).(
                    disk := Unlinked(s.disk, w.id), books := s.books.(freed := s.books.freed + SizeAt(s.disk, w.id)))
       case DeleteRmdir => w.Rmdir? && s' == WorkerAt(s, i, Clearing(w.id)).(disk := RemovedDir(s.disk, w.id))
       case DeleteFails => (w.Deleting? || w.Rmdir?) && s' == WorkerAt(s, i, Clearing(w.id))
       case Clear =>
         && w.Clearing?
         && s' == s.(up := u.(inFlight := u.inFlight - {w.id}, workers := u.workers[i := Free]))
  }

  // ------------------------------------------------------------------ runs

  function FreshUploader(c: Config): Uploader {
    Uploader(Off, [], {}, seq(c.workers, _ => Free))
  }

  /** The process dies and starts again: only the directory and the object store survive. */
  predicate Crashes(c: Config, s: State, s': State) {
    s' == State(s.disk, Spool(Boot, 0, 0), FreshUploader(c), s.ledger, Books(0, 0, 0))
  }

  datatype Step =
    | Booting(b: BootStep) | Eviction(e: EvictStep) | Staging(g: StageStep)
    | Scanner(n: ScanStep) | Worker(i: nat, k: WorkStep) | Crash

  ghost predicate Does(c: Config, s: State, a: Step, s': State) {
    match a
    case Booting(b) => Boots(s, b, s')
    case Eviction(e) => Evicts(c, s, e, s')
    case Staging(g) => Stages(c, s, g, s')
    case Scanner(n) => Scans(c, s, n, s')
    case Worker(i, k) => Works(c, s, i, k, s')
    case Crash => Crashes(c, s, s')
  }

  /** What each directory holds is the complete data of the commit that owns it. */
  ghost predicate Whole(disk: Disk, l: Ledger) {
    forall id :: IsFixture(disk, id) ==>
                   && id in l.owner && l.owner[id] < |l.commits|
                   && l.commits[l.owner[id]] == Bundle(id, disk[id].file.value)
  }

  predicate OnDisk(disk: Disk, l: Ledger, n: nat)
    requires n < |l.commits|
  {
    var id := l.commits[n].id;
    IsFixture(disk, id) && id in l.owner && l.owner[id] == n
  }

  /** The agent starts over a directory in which all fixtures committed before are whole. */
  ghost predicate Init(c: Config, s: State) {
    && c.workers > 0
    && s.spool == Spool(Boot, 0, 0) && s.up == FreshUploader(c) && s.books == Books(0, 0, 0)
    && Whole(s.disk, s.ledger)
    && s.ledger.evicted == {} && s.ledger.stored == {} && s.ledger.puts == {}
    && s.ledger.objects == map[] && s.ledger.source == map[] && !s.ledger.recommitted
    && forall n :: 0 <= n < |s.ledger.commits| ==> OnDisk(s.disk, s.ledger, n)
  }

  ghost predicate Next(c: Config, s: State, s': State) {
    exists a :: Does(c, s, a, s')
  }

  ghost predicate Leads(c: Config, run: seq<State>, i: nat)
    requires 0 < i < |run|
  {
    Next(c, run[i - 1], run[i])
  }

  ghost predicate Run(c: Config, run: seq<State>) {
    run != [] && Init(c, run[0]) && forall i :: 0 < i < |run| ==> Leads(c, run, i)
  }
}
