/** Runs of the pipeline that lose a commit, an object or the quota: each shows that a hypothesis of a
    theorem about all runs is needed. */
module PipelineLosses {
  import opened Common
  import opened FileSystem
  import opened Pipeline
  import opened PipelineObjects
  import opened PipelineSafety
  import S = Spool

  const ID := "x"
  const OLD: Data := [0, 0]
  const NEW: Data := [1]

  ghost predicate Ends(c: Config, before: seq<State>, run: seq<State>, s: State) {
    before <= run && Run(c, run) && run[|run| - 1] == s
  }

  /** Some run that begins with `before` ends in `s`. */
  ghost predicate Reaches(c: Config, before: seq<State>, s: State) {
    exists run :: Ends(c, before, run, s)
  }

  /** One step more. */
  lemma Go(c: Config, before: seq<State>, s: State, a: Step, t: State) returns (now: State)
    requires Reaches(c, before, s) && Does(c, s, a, t)
    ensures Reaches(c, before, t) && now == t
  {
    var run :| Ends(c, before, run, s);
    var longer := run + [t];
    forall i | 0 < i < |longer| ensures Leads(c, longer, i) {
      if i < |run| {
        assert Leads(c, run, i);
      }
    }
    assert Ends(c, before, longer, t);
    now := t;
  }

  function Full(data: Data): Disk {
    map[ID := Dir(0, Some(data))]
  }

  function Listing(data: Data): seq<S.Info> {
    [S.Info(ID, 0, |data|)]
  }

  lemma OneFixture(data: Data)
    ensures S.Listing(Full(data), Listing(data)) && S.OldestFirst(Listing(data)) && Ids(Listing(data)) == [ID]
    ensures Total(Full(data)) == |data| == S.PrefixBytes(Listing(data), 1) && Overlooked(Full(data), Listing(data)) == 0
    ensures !IsTemp(ID) && IsTemp(TempName(ID))
  {
    NamesDisjoint(ID, ID);
    var none: Disk := Full(data) - {ID};
    TotalRemove(Full(data), ID);
    assert Sizes(none) == map[];
    assert S.PrefixBytes(Listing(data), 0) == 0;
    S.WithoutTotal(Full(data), Listing(data), 1);
  }

  // ------------------------------------------------------------------ what the agent does

  function Start(): State {
    State(Full(OLD), Spool(Boot, 0, 0), Uploader(Off, [], {}, [Free]),
          Ledger([Bundle(ID, OLD)], map[ID := 0], {}, {}, {}, map[], map[], false), Books(0, 0, 0))
  }

  /** Reading the directory of an agent that starts. */
  lemma Recover(c: Config, before: seq<State>, s: State)
    requires Reaches(c, before, s) && s.spool.pc == Boot && s.disk == Full(OLD)
    ensures Reaches(c, before, At(s, Counting))
  {
    NamesDisjoint(ID, ID);
    var now := Go(c, before, s, Booting(ReadNames([ID])), At(s, Recovering([ID])));
    assert [ID][1..] == [];
    now := Go(c, before, now, Booting(SkipEntry), At(s, Recovering([])));
    now := Go(c, before, now, Booting(NamesDone), At(s, Counting));
  }

  lemma Started(c: Config)
    requires c.workers == 1
    ensures Reaches(c, [], At(Start(), Counting))
  {
    OneFixture(OLD);
    assert seq(1, _ => Free) == [Free];
    assert Ends(c, [], [Start()], Start());
    Recover(c, [], Start());
  }

  /** The scanner lists the one fixture and marks it. */
  lemma MarkOne(c: Config, s: State, data: Data)
    requires Reaches(c, [], s) && s.spool.pc == Idle && s.disk == Full(data)
    requires s.up == Uploader(Resting, [], {}, [Free])
    ensures Reaches(c, [], s.(up := Uploader(Marked(ID, []), [], {ID}, [Free])))
  {
    OneFixture(data);
    assert [ID][1..] == [] && {} + {ID} == {ID};
    var now := Go(c, [], s, Scanner(ListSpool(Listing(data))), s.(up := Uploader(Scanning([ID]), [], {}, [Free])));
    now := Go(c, [], now, Scanner(Look), s.(up := Uploader(Checked(ID, []), [], {}, [Free])));
    now := Go(c, [], now, Scanner(Mark), s.(up := Uploader(Marked(ID, []), [], {ID}, [Free])));
  }

  /** And a worker reads it. */
  lemma ReadOne(c: Config, s: State, data: Data, n: nat)
    requires c.workers == 1 && Reaches(c, [], s) && s.spool.pc == Idle && s.disk == Full(data)
    requires s.up == Uploader(Resting, [], {}, [Free]) && ID in s.ledger.owner && s.ledger.owner[ID] == n
    ensures Reaches(c, [], s.(up := Uploader(Scanning([]), [], {ID}, [Uploading(ID, data, n, 0)])))
  {
    MarkOne(c, s, data);
    var now := s.(up := Uploader(Marked(ID, []), [], {ID}, [Free]));
    now := Go(c, [], now, Scanner(Push), s.(up := Uploader(Scanning([]), [ID], {ID}, [Free])));
    assert [ID][1..] == [] && [Free][0 := Reading(ID)] == [Reading(ID)];
    now := Go(c, [], now, Worker(0, Take), s.(up := Uploader(Scanning([]), [], {ID}, [Reading(ID)])));
    NamesDisjoint(ID, ID);
    now := Go(c, [], now, Worker(0, Read), s.(up := Uploader(Scanning([]), [], {ID}, [Uploading(ID, data, n, 0)])));
  }

  /** The writer accepts a bundle that fits. */
  lemma AdmitOne(c: Config, s: State, b: Bundle)
    requires Reaches(c, [], s) && s.spool.pc == Idle && '.' !in b.id && s.spool.counter + |b.data| <= c.maxBytes
    ensures Reaches(c, [], At(s, Mkdir(b)))
  {
    var now := Go(c, [], s, Eviction(BeginWrite(b)), At(s, Check(Some(b))));
    now := Go(c, [], now, Eviction(EnoughRoom), At(s, Mkdir(b)));
  }

  /** And fills its staging directory. */
  lemma StageOne(c: Config, s: State, b: Bundle)
    requires Reaches(c, [], s) && s.spool.pc == Idle && s.disk == map[] && '.' !in b.id
    requires s.spool.counter + |b.data| <= c.maxBytes
    ensures Reaches(c, [], At(s, Renaming(b)).(disk := map[TempName(b.id) := Dir(0, Some(b.data))]))
  {
    var tmp := TempName(b.id);
    AdmitOne(c, s, b);
    var now := Go(c, [], At(s, Mkdir(b)), Staging(MkdirDone(0)), At(s, Create(b)).(disk := map[tmp := Dir(0, None)]));
    now := Go(c, [], now, Staging(Truncate(0)), At(s, Writing(b)).(disk := map[tmp := Dir(0, Some([]))]));
    now := Go(c, [], now, Staging(WriteAll(0)), At(s, Renaming(b)).(disk := map[tmp := Dir(0, Some(b.data))]));
  }

  function Wrote(s: State, b: Bundle): State {
    At(s, Accounting(b)).(
    disk := map[b.id := Dir(0, Some(b.data))],
    ledger := s.ledger.(commits := s.ledger.commits + [b], owner := s.ledger.owner[b.id := |s.ledger.commits|],
                        recommitted := s.ledger.recommitted || b.id in s.up.inFlight))
  }

  /** And renames it. */
  lemma WriteOne(c: Config, s: State, b: Bundle)
    requires Reaches(c, [], s) && s.spool.pc == Idle && s.disk == map[] && '.' !in b.id
    requires s.spool.counter + |b.data| <= c.maxBytes
    ensures Reaches(c, [], Wrote(s, b))
  {
    StageOne(c, s, b);
    NamesDisjoint(b.id, b.id);
    var now := At(s, Renaming(b)).(disk := map[TempName(b.id) := Dir(0, Some(b.data))]);
    now := Go(c, [], now, Staging(Commit), Wrote(s, b));
  }

  /** The agent has started over one fixture and a worker has read it. */
  function HasRead(): State {
    Start().(spool := Spool(Idle, 2, 0), up := Uploader(Scanning([]), [], {ID}, [Uploading(ID, OLD, 0, 0)]))
  }

  lemma ReachReading(c: Config)
    requires c.workers == 1
    ensures Reaches(c, [], HasRead())
  {
    OneFixture(OLD);
    Started(c);
    var s := Start().(spool := Spool(Idle, 2, 0));
    var now := Go(c, [], At(Start(), Counting), Booting(Scan(Listing(OLD))), s);
    now := Go(c, [], now, Scanner(StartUp), s.(up := Uploader(Resting, [], {}, [Free])));
    ReadOne(c, now, OLD, 0);
  }

  // ------------------------------------------------------------------ no attempt

  /** With no attempt allowed the nil error of an empty retry loop passes for success: the fixture is
      deleted without having been sent. */
  lemma LossWithoutAttempts() returns (s: State)
    ensures Reaches(Config(1, 1, 0), [], s)
    ensures s.disk == map[ID := Dir(0, None)]
    ensures s.ledger == Start().ledger && s.ledger.commits == [Bundle(ID, OLD)] && s.ledger.objects == map[]
  {
    var c := Config(1, 1, 0);
    ReachReading(c);
    s := HasRead();
    s := Go(c, [], s, Worker(0, NoAttempt), s.(up := s.up.(workers := [Deleting(ID, 0)])));
    NamesDisjoint(ID, ID);
    s := Go(c, [], s, Worker(0, DeleteUnlink),
            s.(up := s.up.(workers := [Rmdir(ID)]), disk := map[ID := Dir(0, None)], books := Books(2, 0, 0)));
  }

  // ------------------------------------------------------------------ committed again while in flight

  /** The ledger after the one commit was sent and acknowledged. */
  function Sent(): Ledger {
    Start().ledger.(stored := {0}, puts := {0}, objects := map[ID := OLD], source := map[ID := 0])
  }

  function Uploaded(): State {
    HasRead().(up := Uploader(Scanning([]), [], {ID}, [Deleting(ID, 0)]), ledger := Sent())
  }

  lemma ReachUploaded(c: Config)
    requires c.workers == 1 && c.maxRetries == 1
    ensures Reaches(c, [], Uploaded())
  {
    ReachReading(c);
    var now := Go(c, [], HasRead(), Worker(0, PutSucceeds), Uploaded());
  }

  /** Between the upload and the deletion the fixture is evicted. */
  function Evicted(): State {
    Uploaded().(disk := map[], spool := Spool(Idle, 0, 0), ledger := Sent().(evicted := {0}))
  }

  function ToEvict(): State {
    At(Uploaded(), Evicting(None, [ID]))
  }

  lemma ReachEviction()
    ensures Reaches(Config(1, 1, 1), [], ToEvict())
  {
    var c := Config(1, 1, 1);
    OneFixture(OLD);
    ReachUploaded(c);
    var now := Go(c, [], Uploaded(), Eviction(BeginCleanup), At(Uploaded(), Check(None)));
    now := Go(c, [], now, Eviction(ListOldest(Listing(OLD))), ToEvict());
  }

  function Unlinked0(): State {
    At(ToEvict(), Unlinking(None, [ID], 2, true)).(disk := map[ID := Dir(0, None)], ledger := Evicted().ledger)
  }

  lemma ReachUnlinked()
    ensures Reaches(Config(1, 1, 1), [], Unlinked0())
  {
    var c := Config(1, 1, 1);
    ReachEviction();
    NamesDisjoint(ID, ID);
    var now := Go(c, [], ToEvict(), Eviction(Measure), At(ToEvict(), Measured(None, [ID], 2)));
    now := Go(c, [], now, Eviction(EvictUnlink), Unlinked0());
  }

  lemma ReachEvicted()
    ensures Reaches(Config(1, 1, 1), [], Evicted())
  {
    var c := Config(1, 1, 1);
    ReachUnlinked();
    var now := Go(c, [], Unlinked0(), Eviction(EvictRmdir),
                  At(Unlinked0(), Removed(None, [ID], 2, true)).(disk := map[]));
    assert [ID][1..] == [];
    now := Go(c, [], now, Eviction(Deduct), now.(spool := Spool(Evicting(None, []), 0, 0)));
    now := Go(c, [], now, Eviction(EvictionEnds), Evicted());
  }

  /** Its identifier is committed again, and the worker deletes the second bundle, which was never
      sent. */
  lemma LossByRecommit() returns (s: State)
    ensures Reaches(Config(1, 1, 1), [], s)
    ensures s.disk == map[ID := Dir(0, None)] && s.ledger.commits == [Bundle(ID, OLD), Bundle(ID, NEW)]
    ensures s.ledger.stored == {0} && s.ledger.evicted == {0} && s.ledger.objects == map[ID := OLD]
  {
    var c := Config(1, 1, 1);
    ReachEvicted();
    WriteOne(c, Evicted(), Bundle(ID, NEW));
    s := Wrote(Evicted(), Bundle(ID, NEW));
    NamesDisjoint(ID, ID);
    s := Go(c, [], s, Worker(0, DeleteUnlink),
            s.(up := s.up.(workers := [Rmdir(ID)]), disk := map[ID := Dir(0, None)], books := Books(1, 0, 0)));
  }

  // ------------------------------------------------------------------ one object for two commits

  /** The first bundle was sent and deleted, and its job is over. */
  function Over(): State {
    Uploaded().(disk := map[], up := Uploader(Resting, [], {}, [Free]), books := Books(2, 0, 0))
  }

  function Removing(): State {
    Over().(up := Uploader(Scanning([]), [], {ID}, [Clearing(ID)]))
  }

  lemma ReachRemoving(c: Config)
    requires c.workers == 1 && c.maxRetries == 1
    ensures Reaches(c, [], Removing())
  {
    ReachUploaded(c);
    NamesDisjoint(ID, ID);
    var now := Go(c, [], Uploaded(), Worker(0, DeleteUnlink),
                  Removing().(disk := map[ID := Dir(0, None)], up := Uploader(Scanning([]), [], {ID}, [Rmdir(ID)])));
    now := Go(c, [], now, Worker(0, DeleteRmdir), Removing());
  }

  lemma ReachOver(c: Config)
    requires c.workers == 1 && c.maxRetries == 1
    ensures Reaches(c, [], Over())
  {
    ReachRemoving(c);
    assert {ID} - {ID} == {};
    var now := Go(c, [], Removing(), Worker(0, Clear), Over().(up := Uploader(Scanning([]), [], {}, [Free])));
    now := Go(c, [], now, Scanner(ScanEnds), Over());
  }

  /** The second bundle of the session is committed. */
  function Again(): State {
    Wrote(Over(), Bundle(ID, NEW)).(spool := Spool(Idle, 3, 0))
  }

  lemma ReachAgain(c: Config)
    requires c.workers == 1 && c.maxRetries == 1 && c.maxBytes >= 3
    ensures Reaches(c, [], Again())
  {
    ReachOver(c);
    WriteOne(c, Over(), Bundle(ID, NEW));
    var now := Go(c, [], Wrote(Over(), Bundle(ID, NEW)), Staging(AddBytes), Again());
  }

  /** A session that was cut and went on is committed and sent a second time: the object of its
      identifier is replaced, and the acknowledged first bundle is neither on disk nor stored. */
  lemma LossByOverwrite() returns (s: State)
    ensures Reaches(Config(9, 1, 1), [], s)
    ensures !s.ledger.recommitted && s.ledger.evicted == {} && 0 in s.ledger.puts
    ensures s.ledger.commits == [Bundle(ID, OLD), Bundle(ID, NEW)]
    ensures s.disk == map[ID := Dir(0, Some(NEW))] && s.ledger.objects == map[ID := NEW]
    ensures !InStore(s.ledger, 0) && Overwrites(s.ledger, 1, 0)
  {
    var c := Config(9, 1, 1);
    ReachAgain(c);
    s := Again();
    ReadOne(c, s, NEW, 1);
    var w := Uploading(ID, NEW, 1, 0);
    s := Go(c, [], s.(up := Uploader(Scanning([]), [], {ID}, [w])), Worker(0, PutSucceeds),
            s.(up := Uploader(Scanning([]), [], {ID}, [Deleting(ID, 1)]),
               ledger := Stored(s.ledger, w).(puts := {0, 1})));
  }

  // ------------------------------------------------------------------ a scan that overlooks

  /** The counter after a scan that could not examine the one fixture. */
  function Blind(): State {
    Start().(spool := Spool(Idle, 0, 2))
  }

  lemma ReachBlind(c: Config)
    requires c.workers == 1
    ensures Reaches(c, [], Blind())
  {
    OneFixture(OLD);
    Started(c);
    assert S.Without(Full(OLD), [], 0) == Full(OLD);
    var now := Go(c, [], At(Start(), Counting), Booting(Scan([])), Blind());
  }

  /** The counter of the next process, whose scan sees the fixture. */
  function Recounted(): State {
    Start().(spool := Spool(Idle, 2, 0))
  }

  lemma Restart(c: Config, before: seq<State>)
    requires c.workers == 1 && Reaches(c, before, Blind())
    ensures Reaches(c, before, Recounted())
  {
    OneFixture(OLD);
    assert seq(1, _ => Free) == [Free];
    var now := Go(c, before, Blind(), Crash, Start());
    Recover(c, before, Start());
    now := Go(c, before, At(Start(), Counting), Booting(Scan(Listing(OLD))), Recounted());
  }

  /** When that process crashes, the next one is over the quota that the first one kept. */
  lemma QuotaLostByOverlooking() returns (run: seq<State>, up: nat)
    ensures var c := Config(1, 1, 1);
            && Run(c, run) && up < |run| && !Starting(run[up].spool.pc) && WithinQuota(c, run[up])
            && run[|run| - 1] == Recounted() && !WithinQuota(c, Recounted())
  {
    var c := Config(1, 1, 1);
    ReachBlind(c);
    var first :| Ends(c, [], first, Blind());
    up := |first| - 1;
    assert Ends(c, first, first, Blind());
    Restart(c, first);
    run :| Ends(c, first, run, Recounted());
    assert run[up] == first[up];
  }
}
