/** What the object store holds, and the no-loss theorem.

    A session that is cut and goes on sends the same identifier again, so several commits share one
    object.  Uploads of one identifier never overlap, hence the object is always the newest commit that
    was ever stored under it. */
module PipelineObjects {
  import opened Common
  import opened FileSystem
  import opened Pipeline
  import opened PipelineEvictions
  import opened PipelineSafety

  /** The object of an identifier has the exact bytes of the newest commit stored under it. */
  ghost predicate Sourced(l: Ledger) {
    && (forall id :: id in l.objects <==> id in l.source)
    && (forall id :: id in l.source ==>
          l.source[id] in l.stored && IsCommit(l, l.source[id], Bundle(id, l.objects[id])))
    && (forall m :: m in l.stored ==>
          m < |l.commits| && l.commits[m].id in l.source && m <= l.source[l.commits[m].id])
    && l.puts <= l.stored
  }

  /** A directory is owned by the newest commit of its identifier. */
  ghost predicate OwnersNewest(l: Ledger) {
    forall m :: 0 <= m < |l.commits| ==> l.commits[m].id in l.owner && m <= l.owner[l.commits[m].id]
  }

  /** Nothing newer than `n` has been stored under `id`. */
  ghost predicate NoneNewer(l: Ledger, id: string, n: nat) {
    forall m :: m in l.stored && m < |l.commits| && l.commits[m].id == id ==> m <= n
  }

  ghost predicate UploadsNewest(l: Ledger, ws: seq<WorkerPc>) {
    forall i :: 0 <= i < |ws| && ws[i].Uploading? ==> NoneNewer(l, ws[i].id, ws[i].n)
  }

  ghost predicate Ordered(s: State) {
    Sourced(s.ledger) && OwnersNewest(s.ledger) && UploadsNewest(s.ledger, s.up.workers)
  }

  // ------------------------------------------------------------------ steps

  /** Two workers never hold the same identifier. */
  lemma WorkersApart(c: Config, u: Uploader, i: nat, j: nat)
    requires Exclusive(c, u) && i < |u.workers| && j < |u.workers| && i != j
    requires u.workers[i].Uploading? && u.workers[j].Uploading?
    ensures u.workers[i].id != u.workers[j].id
  {
    var id := u.workers[i].id;
    HeldUpdate(u.workers, i, Free, id);
    HeldIn(u.workers[i := Free], j, id);
    assert Places(u, id) <= 1;
  }

  /** Evictions and nothing else happened to the ledger. */
  predicate SameStore(l: Ledger, l': Ledger) {
    l' == l.(evicted := l'.evicted)
  }

  lemma SameStoreOrdered(s: State, s': State)
    requires Ordered(s) && SameStore(s.ledger, s'.ledger)
    requires forall i :: 0 <= i < |s'.up.workers| && s'.up.workers[i].Uploading? ==>
                           i < |s.up.workers| && s.up.workers[i].Uploading?
                           && s.up.workers[i].id == s'.up.workers[i].id && s.up.workers[i].n == s'.up.workers[i].n
    ensures Ordered(s')
  {
    forall i | 0 <= i < |s'.up.workers| && s'.up.workers[i].Uploading?
      ensures NoneNewer(s'.ledger, s'.up.workers[i].id, s'.up.workers[i].n)
    {
      assert NoneNewer(s.ledger, s.up.workers[i].id, s.up.workers[i].n);
    }
  }

  lemma CommitOrdered(c: Config, s: State, s': State)
    requires Ordered(s) && Stages(c, s, Commit, s')
    ensures Ordered(s')
  {
    var l, l', ws := s.ledger, s'.ledger, s.up.workers;
    forall i | 0 <= i < |ws| && ws[i].Uploading? ensures NoneNewer(l', ws[i].id, ws[i].n) {
      assert NoneNewer(l, ws[i].id, ws[i].n);
    }
  }

  lemma StoreSourced(l: Ledger, w: WorkerPc, puts: set<nat>)
    requires Sourced(l) && w.Uploading? && IsCommit(l, w.n, Bundle(w.id, w.data)) && NoneNewer(l, w.id, w.n)
    requires puts <= l.puts + {w.n}
    ensures Sourced(Stored(l, w).(puts := puts))
  {
    var l' := Stored(l, w).(puts := puts);
    forall m | m in l'.stored
      ensures m < |l.commits| && l.commits[m].id in l'.source && m <= l'.source[l.commits[m].id]
    {
      assert m != w.n ==> m in l.stored;
    }
    forall id | id in l'.source
      ensures l'.source[id] in l'.stored && IsCommit(l', l'.source[id], Bundle(id, l'.objects[id]))
    {
      if id != w.id {
        assert IsCommit(l, l.source[id], Bundle(id, l.objects[id]));
      }
    }
  }

  /** What one worker stores is not newer than what another one is sending. */
  lemma StoreKeepsOthers(c: Config, s: State, i: nat, l': Ledger)
    requires Exclusive(c, s.up) && UploadsNewest(s.ledger, s.up.workers)
    requires i < |s.up.workers| && s.up.workers[i].Uploading?
    requires var w := s.up.workers[i];
             IsCommit(s.ledger, w.n, Bundle(w.id, w.data))
             && l'.commits == s.ledger.commits && l'.stored == s.ledger.stored + {w.n}
    ensures UploadsNewest(l', s.up.workers)
  {
    var ws := s.up.workers;
    forall j | 0 <= j < |ws| && ws[j].Uploading? ensures NoneNewer(l', ws[j].id, ws[j].n) {
      assert NoneNewer(s.ledger, ws[j].id, ws[j].n);
      if j != i {
        WorkersApart(c, s.up, i, j);
      }
    }
  }

  lemma StoreOrdered(c: Config, s: State, i: nat, puts: set<nat>, w': WorkerPc, s': State)
    requires Ordered(s) && Exclusive(c, s.up) && i < |s.up.workers| && s.up.workers[i].Uploading?
    requires var w := s.up.workers[i];
             && IsCommit(s.ledger, w.n, Bundle(w.id, w.data))
             && s'.ledger == Stored(s.ledger, w).(puts := puts) && puts <= s.ledger.puts + {w.n}
             && (w'.Uploading? ==> w'.id == w.id && w'.n == w.n)
    requires s'.up.workers == s.up.workers[i := w']
    ensures Ordered(s')
  {
    var w, ws, ws' := s.up.workers[i], s.up.workers, s'.up.workers;
    assert NoneNewer(s.ledger, w.id, w.n);
    StoreSourced(s.ledger, w, puts);
    StoreKeepsOthers(c, s, i, s'.ledger);
    forall j | 0 <= j < |ws'| && ws'[j].Uploading? ensures NoneNewer(s'.ledger, ws'[j].id, ws'[j].n) {
      assert NoneNewer(s'.ledger, ws[j].id, ws[j].n);
    }
  }

  /** A worker reads the newest commit of its identifier. */
  lemma ReadOrdered(c: Config, s: State, i: nat, s': State)
    requires Ordered(s) && Works(c, s, i, Read, s')
    ensures Ordered(s')
  {
    var ws, ws' := s.up.workers, s'.up.workers;
    forall j | 0 <= j < |ws'| && ws'[j].Uploading? ensures NoneNewer(s'.ledger, ws'[j].id, ws'[j].n) {
      if j != i {
        assert ws'[j] == ws[j] && NoneNewer(s.ledger, ws[j].id, ws[j].n);
      }
    }
  }

  lemma WorksOrdered(c: Config, s: State, i: nat, a: WorkStep, s': State)
    requires Ordered(s) && Exclusive(c, s.up) && WorkersOk(c, s.disk, s.ledger, s.up.workers)
    requires Works(c, s, i, a, s')
    ensures Ordered(s')
  {
    var w := s.up.workers[i];
    assert WorkerOk(c, s.disk, s.ledger, w);
    if a.Read? {
      ReadOrdered(c, s, i, s');
    } else if a.PutSucceeds? {
      StoreOrdered(c, s, i, s.ledger.puts + {w.n}, Deleting(w.id, w.n), s');
    } else if a.PutFails? && a.stored {
      StoreOrdered(c, s, i, s.ledger.puts, AfterFailure(c, w), s');
    } else {
      SameStoreOrdered(s, s');
    }
  }

  lemma EvictsOrdered(c: Config, s: State, a: EvictStep, s': State)
    requires Ordered(s) && Evicts(c, s, a, s')
    ensures Ordered(s')
  {
    SameStoreOrdered(s, s');
  }

  lemma StagesOrdered(c: Config, s: State, a: StageStep, s': State)
    requires Ordered(s) && Stages(c, s, a, s')
    ensures Ordered(s')
  {
    if a.Commit? {
      CommitOrdered(c, s, s');
    } else {
      SameStoreOrdered(s, s');
    }
  }

  lemma OthersOrdered(c: Config, s: State, a: Step, s': State)
    requires Ordered(s) && Does(c, s, a, s') && (a.Booting? || a.Scanner? || a.Crash?)
    ensures Ordered(s')
  {
    SameStoreOrdered(s, s');
  }

  lemma NextOrdered(c: Config, s: State, s': State)
    requires Inv(c, s) && Ordered(s) && Next(c, s, s')
    ensures Ordered(s')
  {
    var a :| Does(c, s, a, s');
    match a
    case Worker(i, k) => WorksOrdered(c, s, i, k, s');
    case Staging(g) => StagesOrdered(c, s, g, s');
    case Eviction(e) => EvictsOrdered(c, s, e, s');
    case _ => OthersOrdered(c, s, a, s');
  }

  lemma InitOrdered(c: Config, s: State)
    requires Init(c, s)
    ensures Ordered(s)
  {
    forall m | 0 <= m < |s.ledger.commits|
      ensures s.ledger.commits[m].id in s.ledger.owner && m <= s.ledger.owner[s.ledger.commits[m].id]
    {
      assert OnDisk(s.disk, s.ledger, m);
    }
  }

  lemma {:induction false} RunOrdered(c: Config, run: seq<State>, i: nat)
    requires Run(c, run) && i < |run|
    ensures Ordered(run[i])
  {
    if i == 0 {
      InitOrdered(c, run[0]);
    } else {
      RunOrdered(c, run, i - 1);
      RunInv(c, run, i - 1);
      assert Leads(c, run, i);
      NextOrdered(c, run[i - 1], run[i]);
    }
  }

  // ------------------------------------------------------------------ theorems

  /** The object store holds the bytes of commit `n` under its identifier. */
  predicate InStore(l: Ledger, n: nat)
    requires n < |l.commits|
  {
    var b := l.commits[n];
    b.id in l.objects && l.objects[b.id] == b.data
  }

  /** Commit `m` was stored over commit `n`, with other bytes. */
  predicate Overwrites(l: Ledger, m: nat, n: nat)
    requires n < |l.commits|
  {
    n < m < |l.commits| && m in l.stored && l.commits[m].id == l.commits[n].id && l.commits[m].data != l.commits[n].data
  }

  /** Commit `m` put the bytes of commit `n` back. */
  predicate Restores(l: Ledger, m: nat, n: nat)
    requires n < |l.commits|
  {
    m < |l.commits| && m in l.stored && l.commits[m] == l.commits[n]
  }

  /** Every identifier ever stored has the exact bytes of its newest stored commit. */
  lemma StoreHoldsNewest(c: Config, run: seq<State>, i: nat, n: nat)
    requires Run(c, run) && i < |run| && n in run[i].ledger.stored
    ensures var l := run[i].ledger;
            && n < |l.commits| && l.commits[n].id in l.source
            && var m := l.source[l.commits[n].id];
               && n <= m < |l.commits| && m in l.stored && InStore(l, m)
               && l.commits[m].id == l.commits[n].id && NoneNewer(l, l.commits[n].id, m)
  {
    RunOrdered(c, run, i);
  }

  /** A commit whose upload was acknowledged is still stored exactly if every later commit that was
      stored over it with other bytes was itself followed by one with its bytes. */
  lemma ObjectsAreExact(c: Config, run: seq<State>, i: nat, n: nat)
    requires Run(c, run) && i < |run| && n in run[i].ledger.puts
    ensures var l := run[i].ledger;
            && n < |l.commits|
            && (InStore(l, n) <==> forall m :: Overwrites(l, m, n) ==> exists k :: m < k && Restores(l, k, n))
  {
    RunOrdered(c, run, i);
    StoreHoldsNewest(c, run, i, n);
    var l := run[i].ledger;
    var newest := l.source[l.commits[n].id];
    if InStore(l, n) {
      forall m | Overwrites(l, m, n) ensures exists k :: m < k && Restores(l, k, n) {
        assert m < newest && Restores(l, newest, n);
      }
    } else {
      assert Overwrites(l, newest, n);
      forall k | newest < k ensures !Restores(l, k, n) {
      }
    }
  }

  /** In particular the newest commit of an identifier stays. */
  lemma NewestStays(c: Config, run: seq<State>, i: nat, n: nat)
    requires Run(c, run) && i < |run| && n in run[i].ledger.puts
    requires forall m :: n < m < |run[i].ledger.commits| ==>
                           run[i].ledger.commits[m].id != run[i].ledger.commits[n].id
    ensures n < |run[i].ledger.commits| && InStore(run[i].ledger, n)
  {
    ObjectsAreExact(c, run, i, n);
  }

  /** No commit is lost.  Given at least one attempt per upload and no commit of an identifier whose
      job is in flight, the exact bytes of every commit are on disk or in the object store, unless a
      step of the run evicted it while there was too little room, or a later commit of its identifier
      with other bytes was stored in its place. */
  lemma NothingIsLost(c: Config, run: seq<State>, i: nat, n: nat)
    requires Run(c, run) && i < |run| && n < |run[i].ledger.commits|
    requires c.maxRetries >= 1 && !run[i].ledger.recommitted
    ensures var l, disk := run[i].ledger, run[i].disk;
            var b := l.commits[n];
            || (IsFixture(disk, b.id) && disk[b.id].file == Some(b.data))
            || InStore(l, n)
            || (exists j :: 0 < j <= i && EvictedInStep(c, run, j, n))
            || (n in l.puts && exists m :: Overwrites(l, m, n))
  {
    if n in run[i].ledger.evicted {
      var j := EvictedForRoom(c, run, i, n);
    }
    RunInv(c, run, i);
    assert Safe(run[i].disk, run[i].ledger, n);
    if n in run[i].ledger.puts {
      ObjectsAreExact(c, run, i, n);
    }
  }
}
