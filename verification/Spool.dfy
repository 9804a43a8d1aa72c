/** The spool writer (agent/internal/spool): quota with oldest-first eviction, atomic commits and
    start-up recovery.

    Any system call may fail.  `Writer` is used under its mutex; what other goroutines and crashes
    do to the directory in between is the subject of module `Pipeline`. */
module Spool {
  import opened Common
  import opened FileSystem
  import Ingest
  import Session

  datatype Info = Info(id: string, mtime: int, size: nat)

  // ------------------------------------------------------------------ eviction order

  ghost predicate DistinctIds(infos: seq<Info>) {
    forall i, j :: 0 <= i < j < |infos| ==> infos[i].id != infos[j].id
  }

  /** What a listing says about the directory; failed `stat` calls may leave entries out. */
  ghost predicate Listing(disk: Disk, infos: seq<Info>) {
    && DistinctIds(infos)
    && (forall x :: x in infos ==> IsFixture(disk, x.id) && x.mtime == disk[x.id].mtime && x.size == SizeAt(disk, x.id))
  }

  ghost predicate Complete(disk: Disk, infos: seq<Info>) {
    forall name :: IsFixture(disk, name) ==> exists x :: x in infos && x.id == name
  }

  ghost predicate OldestFirst(infos: seq<Info>) {
    forall i, j :: 0 <= i < j < |infos| ==> infos[i].mtime <= infos[j].mtime
  }

  function PrefixBytes(infos: seq<Info>, k: nat): nat
    requires k <= |infos|
  {
    if k == 0 then 0 else PrefixBytes(infos, k - 1) + infos[k - 1].size
  }

  /** `k` is the length of the shortest prefix that frees `excess` bytes, or everything. */
  ghost predicate Shortest(infos: seq<Info>, k: nat, excess: int) {
    && k <= |infos|
    && (forall j :: 0 <= j < k ==> PrefixBytes(infos, j) < excess)
    && (k < |infos| ==> PrefixBytes(infos, k) >= excess)
  }

  /** The directory after the first `k` entries of a listing were removed. */
  function Without(disk: Disk, infos: seq<Info>, k: nat): Disk
    requires k <= |infos|
  {
    if k == 0 then disk else Without(disk, infos, k - 1) - {infos[k - 1].id}
  }

  lemma {:induction false} WithoutEntries(disk: Disk, infos: seq<Info>, k: nat)
    requires k <= |infos|
    ensures forall name :: name in Without(disk, infos, k) <==>
                           name in disk && forall j :: 0 <= j < k ==> infos[j].id != name
    ensures forall name :: name in Without(disk, infos, k) ==> Without(disk, infos, k)[name] == disk[name]
  {
    if k > 0 {
      WithoutEntries(disk, infos, k - 1);
    }
  }

  lemma StillThere(disk: Disk, infos: seq<Info>, k: nat)
    requires Listing(disk, infos) && k < |infos|
    ensures var left, x := Without(disk, infos, k), infos[k];
            IsFixture(left, x.id) && SizeAt(left, x.id) == x.size
  {
    var x := infos[k];
    WithoutEntries(disk, infos, k);
    assert x in infos;
  }

  lemma {:induction false} WithoutTotal(disk: Disk, infos: seq<Info>, k: nat)
    requires Listing(disk, infos) && k <= |infos|
    ensures Total(Without(disk, infos, k)) + PrefixBytes(infos, k) == Total(disk)
  {
    if k > 0 {
      WithoutTotal(disk, infos, k - 1);
      StillThere(disk, infos, k - 1);
      TotalRemove(Without(disk, infos, k - 1), infos[k - 1].id);
    }
  }

  /** Evicting all of a complete listing leaves nothing. */
  lemma NothingLeft(disk: Disk, infos: seq<Info>)
    requires Complete(disk, infos)
    ensures var none := Without(disk, infos, |infos|); Total(none) == 0 && forall name :: !IsFixture(none, name)
  {
    var none := Without(disk, infos, |infos|);
    WithoutEntries(disk, infos, |infos|);
    forall name | IsFixture(disk, name) ensures !IsFixture(none, name) {
      var x :| x in infos && x.id == name;
    }
    assert Sizes(none) == map[];
  }

  /** With an exact counter and a complete listing the new bytes are refused exactly if they alone
      exceed the quota, and then everything has been evicted for nothing. */
  lemma RefusedIffTooLarge(disk: Disk, infos: seq<Info>, k: nat, counter: int, need: nat, max: nat)
    requires Listing(disk, infos) && Complete(disk, infos) && counter == Total(disk)
    requires Shortest(infos, k, counter + need - max)
    ensures var left := Without(disk, infos, k);
            && (Total(left) + need > max <==> need > max)
            && (need > max ==> (forall name :: !IsFixture(left, name)) && Total(left) == 0)
  {
    WithoutTotal(disk, infos, k);
    NothingLeft(disk, infos);
  }

  lemma DropsIffTooLarge(disk: Disk, infos: seq<Info>, k: nat, counter: int, need: nat, max: nat)
    requires Listing(disk, infos) && Complete(disk, infos) && counter == Total(disk)
    requires Shortest(infos, k, counter + need - max)
    ensures counter - PrefixBytes(infos, k) + need > max <==> need > max
    ensures need > max ==> Total(Without(disk, infos, k)) == 0
  {
    RefusedIffTooLarge(disk, infos, k, counter, need, max);
    WithoutTotal(disk, infos, k);
  }

  // ------------------------------------------------------------------ sorting

  lemma InsertOrdered(a: seq<Info>, x: Info, b: seq<Info>)
    requires OldestFirst(a) && OldestFirst(b) && (b != [] ==> x.mtime < b[0].mtime)
    requires forall i :: 0 <= i < |a| ==> a[i].mtime <= x.mtime
    ensures OldestFirst(a + [x] + b)
  {
    var r := a + [x] + b;
    forall i | 0 <= i < |r|
      ensures if i <= |a| then r[i].mtime <= x.mtime else r[i] == b[i - |a| - 1] && r[i].mtime > x.mtime
    {
    }
    forall i, j | 0 <= i < j < |r| ensures r[i].mtime <= r[j].mtime {
      if j < |a| {
        assert r[i] == a[i] && r[j] == a[j];
      }
    }
  }

  method InsertByAge(sorted: seq<Info>, x: Info) returns (r: seq<Info>)
    requires OldestFirst(sorted)
    ensures multiset(r) == multiset(sorted) + multiset{x} && OldestFirst(r)
  {
    var k := 0;
    while k < |sorted| && sorted[k].mtime <= x.mtime
      invariant 0 <= k <= |sorted|
      invariant forall j :: 0 <= j < k ==> sorted[j].mtime <= x.mtime
    {
      k := k + 1;
    }
    InsertOrdered(sorted[..k], x, sorted[k..]);
    r := sorted[..k] + [x] + sorted[k..];
    assert multiset(sorted) == multiset(sorted[..k]) + multiset(sorted[k..]) by {
      assert sorted == sorted[..k] + sorted[k..];
    }
  }

  /** `sort.Slice` by modification time: some ordered permutation. */
  method SortByAge(infos: seq<Info>) returns (sorted: seq<Info>)
    ensures multiset(sorted) == multiset(infos) && OldestFirst(sorted)
  {
    sorted := [];
    for i := 0 to |infos|
      invariant multiset(sorted) == multiset(infos[..i]) && OldestFirst(sorted)
    {
      assert infos[..i + 1] == infos[..i] + [infos[i]];
      sorted := InsertByAge(sorted, infos[i]);
    }
    assert infos[..|infos|] == infos;
  }

  /** Reordering a listing leaves a listing. */
  lemma ListingPermuted(disk: Disk, a: seq<Info>, b: seq<Info>)
    requires Listing(disk, a) && multiset(a) == multiset(b)
    ensures Listing(disk, b) && (Complete(disk, a) ==> Complete(disk, b))
  {
    forall x ensures x in a <==> x in b {
      assert x in a <==> x in multiset(a);
      assert x in b <==> x in multiset(b);
    }
    forall i, j | 0 <= i < j < |b| ensures b[i].id != b[j].id {
      if b[i].id == b[j].id {
        SameIdOnce(a, b[i], b[j]);
        TwiceIn(b, i, j);
        OnceIn(a, b[i]);
      }
    }
  }

  lemma SameIdOnce(a: seq<Info>, x: Info, y: Info)
    requires DistinctIds(a) && x in a && y in a && x.id == y.id
    ensures x == y
  {
  }

  lemma TwiceIn(b: seq<Info>, i: nat, j: nat)
    requires i < j < |b| && b[i] == b[j]
    ensures multiset(b)[b[i]] >= 2
  {
    assert b == b[..i] + [b[i]] + b[i + 1..j] + [b[j]] + b[j + 1..];
  }

  lemma OnceIn(a: seq<Info>, x: Info)
    requires DistinctIds(a) && x in a
    ensures multiset(a)[x] == 1
  {
    var i :| 0 <= i < |a| && a[i] == x;
    assert a == a[..i] + [x] + a[i + 1..];
    assert x !in a[..i] && x !in a[i + 1..];
  }

  // ------------------------------------------------------------------ the writer

  datatype Stage = BadBundle | EvictStage | MkdirStage | WriteStage | RenameStage

  datatype WriteResult = Committed(bytes: nat) | Dropped | Failed(stage: Stage)

  /** `ValidateBasic`; times are in nanoseconds. */
  predicate ValidBundle(b: Session.FixtureBundle) {
    && b.schemaVersion > 0 && Ingest.IdError(b.fixtureId) == None && Ingest.IdError(b.sessionId) == None
    && b.createdAt / 1_000_000 > 0
  }

  lemma ValidIdHasNoDot(id: string)
    requires Ingest.IdError(id) == None
    ensures '.' !in id
  {
    forall k | 0 <= k < |id| ensures id[k] != '.' {
      assert Ingest.IdChar(id[k]);
    }
  }

  /** A rename onto this name must fail: it is a file or a directory with a bundle in it. */
  predicate NameTaken(disk: Disk, id: string) {
    id in disk && (disk[id].Stray? || disk[id].file.Some?)
  }

  /** Eviction stopped by a failed removal: the entry is whole or has lost its file. */
  ghost predicate Interrupted(disk: Disk, disk': Disk, infos: seq<Info>, k: nat)
    requires k <= |infos|
  {
    || disk' == Without(disk, infos, k)
    || (k < |infos| && disk' == Unlinked(Without(disk, infos, k), infos[k].id))
  }

  /** `counter` against the directory: `missed` bytes were overlooked by the start-up scan, `leaked`
      bytes were unlinked by a removal that then failed; `faults` counts the system calls that failed for
      no reason to be seen in the directory. */
  class Writer {
    const max: int
    /** No system call fails for want of space, permission or a sound device. */
    const reliable: bool
    var disk: Disk
    var counter: int
    var writable: bool
    ghost var leaked: nat
    ghost var missed: nat
    ghost var faults: nat

    ghost predicate Valid()
      reads this
    {
      max > 0 && counter + missed == Total(disk) + leaked
    }

    /** `NewWriter` over an existing directory: nothing is counted before the start-up scan. */
    constructor (max: int, disk: Disk, reliable: bool)
      requires max > 0
      ensures Valid() && this.max == max && this.disk == disk && this.reliable == reliable
      ensures counter == 0 && writable
    {
      this.max, this.disk, this.reliable, counter, writable := max, disk, reliable, 0, true;
      leaked, missed, faults := 0, Total(disk), 0;
    }

    // ---------------------------------------------------------------- system calls

    method Fault() returns (b: bool)
      modifies this`faults
      ensures faults == old(faults) + (if b then 1 else 0) && (reliable ==> !b)
    {
      b := false;
      if !reliable {
        b := *;
      }
      faults := faults + if b then 1 else 0;
    }

    method MkdirAll(name: string) returns (ok: bool)
      requires IsTemp(name)
      modifies this`faults, this`disk
      ensures Finals(disk) == Finals(old(disk))
      ensures ok ==> name in disk && disk[name].Dir?
      ensures reliable ==> (ok <==> name in old(disk) ==> old(disk)[name].Dir?)
      ensures ok ==> faults == old(faults)
      ensures faults >= old(faults)
    {
      var fault := Fault();
      if fault { return false; }
      if name in disk { return disk[name].Dir?; }
      var mtime: int := *;
      disk := disk[name := Dir(mtime, None)];
      assert Finals(disk) == Finals(old(disk));
      ok := true;
    }

    /** A failed write may leave a part of the file. */
    method WriteFile(dir: string, data: Data) returns (ok: bool)
      requires IsTemp(dir) && dir in disk && disk[dir].Dir?
      modifies this`faults, this`disk
      ensures Finals(disk) == Finals(old(disk))
      ensures dir in disk && disk[dir].Dir? && (ok ==> disk[dir].file == Some(data)) && (reliable ==> ok)
      ensures faults == old(faults) + if ok then 0 else 1
    {
      var fault := Fault();
      if fault { return false; }
      var mtime: int, written: nat := *, *;
      fault := Fault();
      ok := !fault;
      disk := disk[dir := Dir(mtime, Some(if ok then data else data[..if written <= |data| then written else |data|]))];
      assert Finals(disk) == Finals(old(disk));
    }

    method Rename(from: string, to: string) returns (ok: bool)
      modifies this`faults, this`disk
      ensures ok ==> CanRename(old(disk), from, to) && disk == Renamed(old(disk), from, to)
      ensures !ok ==> disk == old(disk)
      ensures faults == old(faults) ==> (ok <==> CanRename(old(disk), from, to))
      ensures old(faults) <= faults <= old(faults) + (if ok then 0 else 1) && (reliable ==> faults == old(faults))
    {
      var fault := Fault();
      if fault { return false; }
      ok := from in disk && disk[from].Dir? && (to in disk ==> disk[to].Dir? && disk[to].file == None);
      if ok {
        disk := (disk - {from})[to := disk[from]];
      }
    }

    method RemoveAll(name: string) returns (ok: bool)
      modifies this`faults, this`disk
      ensures ok ==> disk == old(disk) - {name}
      ensures !ok ==> disk == old(disk) || disk == Unlinked(old(disk), name)
      ensures faults == old(faults) + (if ok then 0 else 1) && (reliable ==> ok)
    {
      var fault := Fault();
      if fault { return false; }
      if name in disk && disk[name].Dir? {
        disk := disk[name := disk[name].(file := None)];
      }
      fault := Fault();
      if fault { return false; }
      disk := disk - {name};
      assert disk == old(disk) - {name};
      ok := true;
    }

    /** `listCommittedFixtures`: `None` if the directory cannot be read. */
    method List() returns (infos: Option<seq<Info>>)
      modifies this`faults
      ensures infos.Some? ==> Listing(disk, infos.value)
      ensures reliable ==> infos.Some? && Complete(disk, infos.value)
    {
      var fault := Fault();
      if fault { return None; }
      var pending, out := disk.Keys, [];
      while pending != {}
        invariant pending <= disk.Keys && Listing(disk, out)
        invariant forall x :: x in out ==> x.id !in pending
        invariant reliable ==>
                    forall name :: IsFixture(disk, name) ==> name in pending || exists x :: x in out && x.id == name
        decreases |pending|
      {
        var name :| name in pending;
        pending := pending - {name};
        if IsFixture(disk, name) {
          fault := Fault();
          if !fault {
            ghost var before := out;
            out := out + [Info(name, disk[name].mtime, |disk[name].file.value|)];
            assert out[|before|].id == name;
            assert forall x :: x in before ==> x in out;
          }
        }
      }
      infos := Some(out);
    }

    // ---------------------------------------------------------------- eviction

    /** `deleteFixtureDir`, with the accounting of its caller. */
    method Evict(x: Info) returns (failed: bool)
      requires Valid() && IsFixture(disk, x.id) && x.size == SizeAt(disk, x.id)
      modifies this`faults, this`disk, this`counter, this`leaked
      ensures Valid()
      ensures !failed ==> disk == old(disk) - {x.id} && counter == old(counter) - x.size && leaked == old(leaked)
      ensures failed ==> (disk == old(disk) || disk == Unlinked(old(disk), x.id)) && counter == old(counter)
      ensures failed && disk == old(disk) ==> leaked == old(leaked)
      ensures reliable ==> !failed
    {
      var fault := Fault();
      if fault { return true; } // the directory cannot be measured
      var size := |disk[x.id].file.value|;
      TotalRemove(disk, x.id);
      UnlinkFrees(disk, x.id);
      var ok := RemoveAll(x.id);
      if !ok {
        leaked := leaked + (Total(old(disk)) - Total(disk));
        return true;
      }
      counter := counter - size;
      failed := false;
    }

    /** The loop of `ensureCapacity` over the fixtures in age order. */
    method EvictOldest(fixtures: seq<Info>, need: nat) returns (freed: nat, failed: bool, k: nat)
      requires Valid() && Listing(disk, fixtures)
      modifies this`faults, this`disk, this`counter, this`leaked
      ensures Valid() && k <= |fixtures|
      ensures freed == PrefixBytes(fixtures, k) && counter == old(counter) - freed
      ensures forall j :: 0 <= j < k ==> old(counter) - PrefixBytes(fixtures, j) + need > max
      ensures !failed ==> disk == Without(old(disk), fixtures, k)
      ensures disk == Without(old(disk), fixtures, k) ==> leaked == old(leaked)
      ensures !failed ==> k == |fixtures| || counter + need <= max
      ensures failed ==> Interrupted(old(disk), disk, fixtures, k)
      ensures reliable ==> !failed
    {
      freed, failed, k := 0, false, 0;
      while k < |fixtures| && counter + need > max
        invariant 0 <= k <= |fixtures| && Valid()
        invariant freed == PrefixBytes(fixtures, k) && counter == old(counter) - freed
        invariant disk == Without(old(disk), fixtures, k) && leaked == old(leaked)
        invariant forall j :: 0 <= j < k ==> old(counter) - PrefixBytes(fixtures, j) + need > max
      {
        StillThere(old(disk), fixtures, k);
        failed := Evict(fixtures[k]);
        if failed {
          return;
        }
        freed := freed + fixtures[k].size;
        k := k + 1;
      }
    }

    /** The shortest sufficient prefix of the age order is evicted, or everything. */
    method EnsureCapacity(need: nat) returns (freed: nat, ok: bool, failed: bool, ghost order: seq<Info>, ghost k: nat,
                                              ghost complete: bool)
      requires Valid()
      modifies this`faults, this`disk, this`counter, this`leaked
      ensures Valid() && Listing(old(disk), order) && OldestFirst(order) && k <= |order|
      ensures freed == PrefixBytes(order, k) && counter == old(counter) - freed
      ensures forall j :: 0 <= j < k ==> old(counter) - PrefixBytes(order, j) + need > max
      ensures old(counter) + need <= max ==> ok && k == 0
      ensures !failed ==> disk == Without(old(disk), order, k)
      ensures disk == Without(old(disk), order, k) ==> leaked == old(leaked)
      ensures !failed ==> ok == (counter + need <= max)
      ensures !failed && old(counter) + need > max ==>
                Shortest(order, k, old(counter) + need - max) && (complete ==> Complete(old(disk), order))
      ensures failed ==> !ok && Interrupted(old(disk), disk, order, k)
      ensures reliable ==> !failed && (old(counter) + need > max ==> complete)
    {
      freed, order, k, complete := 0, [], 0, false;
      if counter + need <= max {
        return freed, true, false, order, k, complete;
      }
      var listed: Option<seq<Info>>;
      listed := List();
      complete := listed.Some? && Complete(disk, listed.value);
      if listed == None {
        return freed, false, true, order, k, complete;
      }
      var fixtures := SortByAge(listed.value);
      ListingPermuted(disk, listed.value, fixtures);
      order := fixtures;
      freed, failed, k := EvictOldest(fixtures, need);
      ok := !failed && counter + need <= max;
    }

    method CleanupIfNeeded() returns (freed: nat, failed: bool, ghost order: seq<Info>, ghost k: nat)
      requires Valid()
      modifies this`faults, this`disk, this`counter, this`leaked
      ensures Valid() && Listing(old(disk), order) && OldestFirst(order) && k <= |order|
      ensures freed == PrefixBytes(order, k) && counter == old(counter) - freed
      ensures !failed && old(counter) > max ==>
                Shortest(order, k, old(counter) - max) && disk == Without(old(disk), order, k)
      ensures failed ==> Interrupted(old(disk), disk, order, k)
      ensures reliable ==> !failed
      ensures old(counter) <= max ==> !failed && disk == old(disk) && freed == 0
    {
      var ok;
      ghost var complete;
      freed, ok, failed, order, k, complete := EnsureCapacity(0);
    }

    // ---------------------------------------------------------------- writing

    /** Staging directory and file; `None` if both are in place. */
    method Fill(tmp: string, data: Data) returns (failed: Option<Stage>)
      requires Valid() && IsTemp(tmp)
      modifies this`faults, this`disk, this`writable
      ensures Valid() && Finals(disk) == Finals(old(disk))
      ensures failed == None ==> tmp in disk && disk[tmp].Dir? && disk[tmp].file == Some(data)
      ensures failed.Some? ==> !writable && (failed.value == MkdirStage || failed.value == WriteStage)
      ensures reliable && failed.Some? ==> failed.value == MkdirStage && tmp in old(disk) && old(disk)[tmp].Stray?
      ensures failed == Some(WriteStage) ==> faults > old(faults) && (faults == old(faults) + 1 ==> tmp !in disk)
      ensures failed == None ==> faults == old(faults)
    {
      var ok := MkdirAll(tmp);
      SameFinals(old(disk), disk);
      if !ok {
        writable := false;
        return Some(MkdirStage);
      }
      ok := WriteFile(tmp, data);
      SameFinals(old(disk), disk);
      if !ok {
        RemoveStaging(tmp);
        return Some(WriteStage);
      }
      failed := None;
    }

    /** Staging, rename, accounting. */
    method Stage(id: string, data: Data) returns (r: WriteResult)
      requires Valid() && '.' !in id
      modifies this`faults, this`disk, this`counter, this`writable
      ensures Valid() && !r.Dropped? && writable == r.Committed?
      ensures r.Failed? ==> r.stage != BadBundle && r.stage != EvictStage
      ensures r.Failed? ==> Finals(disk) == Finals(old(disk)) && counter == old(counter)
      ensures reliable && r.Failed? ==>
                (r.stage == MkdirStage && TempName(id) in old(disk) && old(disk)[TempName(id)].Stray?)
                || (r.stage == RenameStage && NameTaken(old(disk), id))
      ensures r.Committed? ==> r.bytes == |data| && counter == old(counter) + |data|
      ensures r.Committed? ==> !IsFixture(old(disk), id) && IsFixture(disk, id) && disk[id].file == Some(data)
      ensures r.Committed? ==> TempName(id) !in disk && Finals(disk) - {id} == Finals(old(disk)) - {id}
      ensures r == Failed(WriteStage) || r == Failed(RenameStage) ==>
                var cause := if r == Failed(RenameStage) && NameTaken(old(disk), id) then 0 else 1;
                faults >= old(faults) + cause && (faults == old(faults) + cause ==> TempName(id) !in disk)
      ensures reliable && r == Failed(RenameStage) ==> TempName(id) !in disk
    {
      NamesDisjoint(id, id);
      var tmp := TempName(id);
      var failed := Fill(tmp, data);
      if failed.Some? {
        return Failed(failed.value);
      }
      ghost var staged := disk;
      SameEntry(old(disk), staged, id);
      var ok := Rename(tmp, id);
      if !ok {
        RemoveStaging(tmp);
        return Failed(RenameStage);
      }
      RenameCommits(staged, tmp, id);
      assert Finals(disk) - {id} == Finals(staged) - {id};
      counter := counter + |data|;
      writable := true;
      r := Committed(|data|);
    }

    method RemoveStaging(tmp: string)
      requires Valid() && IsTemp(tmp)
      modifies this`faults, this`disk, this`writable
      ensures Valid() && !writable && Finals(disk) == Finals(old(disk))
      ensures faults >= old(faults) && (faults == old(faults) ==> tmp !in disk)
      ensures reliable ==> tmp !in disk
    {
      var ok := RemoveAll(tmp);
      assert Finals(disk) == Finals(old(disk));
      SameFinals(old(disk), disk);
      writable := false;
    }

    /** `WriteFixture`, given the encoded bundle. */
    method WriteFixture(b: Session.FixtureBundle, data: Data)
      returns (r: WriteResult, ghost order: seq<Info>, ghost k: nat, ghost complete: bool)
      requires Valid()
      modifies this`faults, this`disk, this`counter, this`writable, this`leaked
      ensures Valid() && (old(counter) <= max ==> counter <= max)
      ensures r == Failed(BadBundle) <==> !ValidBundle(b)
      ensures r == Failed(BadBundle) ==> disk == old(disk) && counter == old(counter) && writable == old(writable)
      ensures Listing(old(disk), order) && OldestFirst(order) && k <= |order|
      ensures old(counter) + |data| > max && r != Failed(BadBundle) && r != Failed(EvictStage) ==>
                Shortest(order, k, old(counter) + |data| - max)
      ensures old(counter) + |data| <= max ==> k == 0 && !r.Dropped? && r != Failed(EvictStage)
      ensures r == Failed(EvictStage) ==> Interrupted(old(disk), disk, order, k) && !writable
      ensures leaked != old(leaked) ==> r == Failed(EvictStage) && disk != Without(old(disk), order, k)
      ensures r.Dropped? ==> disk == Without(old(disk), order, k) && writable == old(writable)
      ensures r.Failed? && r.stage != BadBundle && r.stage != EvictStage ==>
                Finals(disk) == Finals(Without(old(disk), order, k)) && !writable
      ensures reliable && r.Failed? && r.stage != BadBundle ==>
                var left := Without(old(disk), order, k);
                (r.stage == MkdirStage && TempName(b.fixtureId) in left && left[TempName(b.fixtureId)].Stray?)
                || (r.stage == RenameStage && NameTaken(left, b.fixtureId) && TempName(b.fixtureId) !in disk)
      ensures r.Committed? ==> writable && r.bytes == |data| && counter == old(counter) - PrefixBytes(order, k) + |data|
      ensures r.Committed? ==> IsFixture(disk, b.fixtureId) && disk[b.fixtureId].file == Some(data)
      ensures r.Committed? ==> !IsFixture(Without(old(disk), order, k), b.fixtureId) && TempName(b.fixtureId) !in disk
      ensures r.Committed? ==> Finals(disk) - {b.fixtureId} == Finals(Without(old(disk), order, k)) - {b.fixtureId}
      ensures complete && old(counter) == Total(old(disk)) && !r.Failed? ==>
                (r.Dropped? <==> |data| > max) && (r.Dropped? ==> Total(disk) == 0)
    {
      order, k, complete := [], 0, false;
      if !ValidBundle(b) {
        return Failed(BadBundle), order, k, complete;
      }
      ValidIdHasNoDot(b.fixtureId);
      var freed, ok, failed;
      freed, ok, failed, order, k, complete := EnsureCapacity(|data|);
      if failed {
        writable := false;
        return Failed(EvictStage), order, k, complete;
      }
      if complete && old(counter) == Total(old(disk)) && old(counter) + |data| > max {
        DropsIffTooLarge(old(disk), order, k, old(counter), |data|, max);
      }
      if !ok {
        return Dropped, order, k, complete;
      }
      r := Stage(b.fixtureId, data);
    }

    // ---------------------------------------------------------------- start-up

    /** `RecoverTempDirs`. */
    method RecoverTempDirs() returns (ok: bool)
      modifies this`faults, this`disk
      ensures Finals(disk) == Finals(old(disk))
      ensures ok ==> forall name :: name in disk && IsTemp(name) ==> !disk[name].Dir?
      ensures reliable ==> ok
    {
      var fault := Fault();
      if fault { return false; }
      var pending := disk.Keys;
      while pending != {}
        invariant Finals(disk) == Finals(old(disk))
        invariant forall name :: name in disk && IsTemp(name) && disk[name].Dir? ==> name in pending
        decreases |pending|
      {
        var name :| name in pending;
        pending := pending - {name};
        if name in disk && disk[name].Dir? && IsTemp(name) {
          ghost var before := disk;
          ok := RemoveAll(name);
          assert Finals(disk) == Finals(before);
          if !ok { return; }
        }
      }
      ok := true;
    }

    /** `InitScan`: staging directories go, committed fixtures stay, and the counter becomes the
        exact total unless the scan overlooked fixtures. */
    method InitScan() returns (ok: bool, ghost complete: bool)
      requires max > 0
      modifies this
      ensures Finals(disk) == Finals(old(disk)) && writable == ok
      ensures ok ==> Valid() && leaked == 0 && (forall name :: name in disk && IsTemp(name) ==> !disk[name].Dir?)
      ensures ok && complete ==> counter == Total(disk)
      ensures !ok ==> counter == old(counter)
      ensures reliable ==> ok && complete
    {
      complete := false;
      ok := RecoverTempDirs();
      if !ok {
        writable := false;
        return;
      }
      var listed: Option<seq<Info>>;
      listed := List();
      complete := listed.Some? && Complete(disk, listed.value);
      if listed == None {
        writable := false;
        return false, complete;
      }
      var infos, total := listed.value, 0;
      for i := 0 to |infos|
        invariant total == PrefixBytes(infos, i)
      {
        total := total + infos[i].size;
      }
      WithoutTotal(disk, infos, |infos|);
      if complete {
        NothingLeft(disk, infos);
      }
      counter, leaked, missed := total, 0, Total(Without(disk, infos, |infos|));
      writable := true;
    }
  }
}
