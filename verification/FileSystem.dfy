/** The spool directory (agent/internal/spool/layout.go) and the system calls made on it.

    Only the process may crash, not the machine: every completed call is kept. */
module FileSystem {
  import opened Common

  type Data = seq<byte>

  /** A directory holds at most `fixture.json`; `Stray` is an entry that is no directory. */
  datatype Entry = Dir(mtime: int, file: Option<Data>) | Stray

  type Disk = map<string, Entry>

  const TMP_SUFFIX := ".tmp"

  function TempName(id: string): string {
    id + TMP_SUFFIX
  }

  predicate IsTemp(name: string) {
    |name| >= 4 && name[|name| - 4..] == TMP_SUFFIX
  }

  /** Names without a dot cannot be taken for staging directories. */
  lemma NamesDisjoint(id: string, other: string)
    requires '.' !in id
    ensures !IsTemp(id) && IsTemp(TempName(other)) && id != TempName(other)
  {
    assert |id| >= 4 ==> id[|id| - 4..][0] == id[|id| - 4] && id[|id| - 4] in id;
    assert TempName(other)[|other|] == '.';
  }

  /** A committed fixture. */
  predicate IsFixture(disk: Disk, name: string) {
    name in disk && disk[name].Dir? && disk[name].file.Some? && !IsTemp(name)
  }

  function SizeAt(disk: Disk, name: string): nat {
    if IsFixture(disk, name) then |disk[name].file.value| else 0
  }

  function Sizes(disk: Disk): map<string, nat> {
    map name | name in disk && IsFixture(disk, name) :: SizeAt(disk, name)
  }

  /** Bytes of all committed fixtures. */
  ghost function Total(disk: Disk): nat {
    Sum(Sizes(disk))
  }

  /** The directory without staging entries. */
  function Finals(disk: Disk): Disk {
    map name | name in disk && !IsTemp(name) :: disk[name]
  }

  lemma SameEntry(disk: Disk, disk': Disk, name: string)
    requires Finals(disk) == Finals(disk') && !IsTemp(name)
    ensures name in disk <==> name in disk'
    ensures name in disk ==> disk[name] == disk'[name]
  {
    assert name in disk <==> name in Finals(disk);
    assert name in disk' <==> name in Finals(disk');
    assert name in disk ==> Finals(disk)[name] == disk[name];
  }

  lemma SameFinals(disk: Disk, disk': Disk)
    requires Finals(disk) == Finals(disk')
    ensures Total(disk) == Total(disk')
    ensures forall name :: IsFixture(disk, name) == IsFixture(disk', name) && SizeAt(disk, name) == SizeAt(disk', name)
  {
    forall name
      ensures IsFixture(disk, name) == IsFixture(disk', name) && SizeAt(disk, name) == SizeAt(disk', name)
    {
      if !IsTemp(name) {
        assert name in disk <==> name in Finals(disk);
        assert name in disk' <==> name in Finals(disk');
      }
    }
    assert Sizes(disk) == Sizes(disk');
  }

  lemma TotalPut(disk: Disk, name: string, e: Entry)
    ensures Total(disk[name := e]) + SizeAt(disk, name) == Total(disk) + SizeAt(disk[name := e], name)
  {
    var disk' := disk[name := e];
    assert Sizes(disk') - {name} == Sizes(disk) - {name};
    Part(disk, name);
    Part(disk', name);
  }

  lemma TotalRemove(disk: Disk, name: string)
    ensures Total(disk - {name}) + SizeAt(disk, name) == Total(disk)
  {
    assert Sizes(disk - {name}) == Sizes(disk) - {name};
    Part(disk, name);
  }

  lemma Part(disk: Disk, name: string)
    ensures Total(disk) == Sum(Sizes(disk) - {name}) + SizeAt(disk, name)
  {
    SumPut(Sizes(disk), name, 0);
  }

  // ------------------------------------------------------------------ system calls

  /** `rename` of a directory: onto nothing or an empty directory it moves, otherwise it fails
      (rename(), IEEE Std 1003.1). */
  predicate CanRename(disk: Disk, from: string, to: string) {
    from in disk && disk[from].Dir? && (to in disk ==> disk[to].Dir? && disk[to].file == None)
  }

  function Renamed(disk: Disk, from: string, to: string): Disk
    requires CanRename(disk, from, to)
  {
    (disk - {from})[to := disk[from]]
  }

  /** `RemoveAll` first unlinks the file. */
  function Unlinked(disk: Disk, name: string): Disk {
    if name in disk && disk[name].Dir? then disk[name := disk[name].(file := None)] else disk
  }

  /** Then it removes what is left; a directory filled meanwhile stays. */
  function RemovedDir(disk: Disk, name: string): Disk {
    if name in disk && disk[name].Dir? && disk[name].file.Some? then disk else disk - {name}
  }

  lemma RenameCommits(disk: Disk, from: string, to: string)
    requires CanRename(disk, from, to) && IsTemp(from) && !IsTemp(to)
    ensures Total(Renamed(disk, from, to)) == Total(disk) + SizeAt(Renamed(disk, from, to), to)
    ensures forall name :: name != to ==> IsFixture(Renamed(disk, from, to), name) == IsFixture(disk, name)
  {
    TotalRemove(disk, from);
    TotalPut(disk - {from}, to, disk[from]);
  }

  lemma UnlinkFrees(disk: Disk, name: string)
    ensures Total(Unlinked(disk, name)) + SizeAt(disk, name) == Total(disk)
    ensures !IsFixture(Unlinked(disk, name), name)
    ensures forall other :: other != name ==> IsFixture(Unlinked(disk, name), other) == IsFixture(disk, other)
  {
    if name in disk && disk[name].Dir? {
      TotalPut(disk, name, disk[name].(file := None));
    }
  }

  lemma RemoveDirKeeps(disk: Disk, name: string)
    ensures Total(RemovedDir(disk, name)) == Total(disk)
    ensures forall other :: IsFixture(RemovedDir(disk, name), other) == IsFixture(disk, other)
  {
    TotalRemove(disk, name);
  }
}
