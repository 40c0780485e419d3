/** The file system the publication works on: three directories, each with one
    published name, staged siblings, and the values a crash may leave behind. */
module Volumes {
  import opened Basics
  import opened PublicationRecords

  datatype Content = Raw(data: Bytes) | Encoded(record: Record)

  /** `durable` says that the bytes survive a crash wherever the inode is named. */
  datatype File = File(
    inode: nat, mode: nat, size: nat, mtime: nat, ctime: nat, content: Content, durable: bool)

  function Stat(file: File): Identity {
    Identity(file.inode, file.mode, file.size, file.mtime, file.ctime)
  }

  const PRIVATE_MODE := 384

  datatype Place = Active | Journal | Factory

  /** `log` holds every value the published name has had since the directory was
      last synced, oldest first; the last one is what a reader sees now. A crash
      leaves any one of them. A staged sibling is named by its inode number;
      `residue` holds the sibling names a crash may leave behind. */
  datatype Dir = Dir(
    log: seq<Option<File>>, siblings: map<nat, File>, residue: set<nat>, version: nat)
  {
    predicate Valid() {
      && log != []
      && siblings.Keys <= residue
      && (forall n | n in siblings :: siblings[n].inode == n)
      && (Entry().Some? ==> Entry().value.inode !in siblings)
    }

    function Entry(): Option<File>
      requires log != []
    {
      log[|log| - 1]
    }

    function Staged(file: File): Dir {
      Dir(log, siblings[file.inode := file], residue + {file.inode}, version + 1)
    }

    function Rewritten(file: File): Dir {
      this.(siblings := siblings[file.inode := file])
    }

    function Dropped(name: nat): Dir {
      this.(siblings := siblings - {name}, version := version + 1)
    }

    function Renamed(name: nat, ctime: nat): Dir
      requires name in siblings
    {
      Dir(log + [Some(siblings[name].(ctime := ctime))], siblings - {name}, residue, version + 1)
    }

    function Entered(file: File): Dir {
      this.(log := log + [Some(file)], version := version + 1)
    }

    function Unlinked(): Dir {
      this.(log := log + [None], version := version + 1)
    }

    /** The published file's bytes are flushed. */
    function Flushed(): Dir
      requires log != [] && Entry().Some?
    {
      this.(log := log[|log| - 1 := Some(Entry().value.(durable := true))])
    }

    function Synced(): Dir
      requires log != []
    {
      this.(log := [Entry()], residue := siblings.Keys)
    }
  }

  datatype Disk = Disk(active: Dir, journal: Dir, factory: Dir) {
    predicate Valid() {
      active.Valid() && journal.Valid() && factory.Valid()
    }

    function At(place: Place): Dir {
      match place
      case Active => active
      case Journal => journal
      case Factory => factory
    }

    function With(place: Place, dir: Dir): Disk {
      match place
      case Active => this.(active := dir)
      case Journal => this.(journal := dir)
      case Factory => this.(factory := dir)
    }
  }

  lemma RewrittenAgain(disk: Disk, place: Place, a: File, b: File)
    requires a.inode == b.inode && a.inode in disk.At(place).siblings
    ensures var once := disk.With(place, disk.At(place).Rewritten(a));
      && once.At(place).siblings.Keys == disk.At(place).siblings.Keys
      && once.With(place, once.At(place).Rewritten(b)) == disk.With(place, disk.At(place).Rewritten(b))
      && SameLogs(once, disk)
  {
    var m: map<nat, File> := disk.At(place).siblings;
    assert m[a.inode := a][b.inode := b] == m[b.inode := b];
  }

  /** A named file after a crash: unsynced bytes are lost, metadata is kept. */
  predicate SurvivesAs(before: Option<File>, after: Option<File>) {
    || before == after
    || (before.Some? && after.Some? && !before.value.durable && Stat(before.value) == Stat(after.value))
  }

  predicate DirAfterCrash(before: Dir, after: Dir) {
    && |after.log| == 1
    && (exists e | e in before.log :: SurvivesAs(e, after.log[0]))
    && after.siblings.Keys == after.residue <= before.residue
  }

  /** `after` is a disk that losing power in `before` may leave. */
  predicate AfterCrash(before: Disk, after: Disk) {
    && after.Valid()
    && DirAfterCrash(before.active, after.active)
    && DirAfterCrash(before.journal, after.journal)
    && DirAfterCrash(before.factory, after.factory)
  }

  /** The published names of the two disks have the same possible values. */
  ghost predicate SameLogs(a: Disk, b: Disk) {
    a.active.log == b.active.log && a.journal.log == b.journal.log && a.factory.log == b.factory.log
  }

  /** Every inode and sibling name in the directory has been handed out. */
  ghost predicate Below(dir: Dir, bound: nat) {
    && (forall e | e in dir.log && e.Some? :: e.value.inode < bound)
    && (forall n | n in dir.residue :: n < bound)
  }

  lemma CrashBelow(before: Dir, after: Dir, bound: nat)
    requires DirAfterCrash(before, after) && Below(before, bound)
    ensures Below(after, bound)
  {
  }

  lemma SyncedSurvives(dir: Dir)
    requires dir.Valid()
    ensures dir.Synced().Valid() && DirAfterCrash(dir, dir.Synced())
  {
    assert SurvivesAs(dir.Entry(), dir.Synced().log[0]);
  }

  datatype Status = Ok | Operational | Conflict

  /** Directory operations. Each may fail; a rename may also report a failure
      after it happened. `visited` records every disk there has been, so that a
      contract can speak of every crash point inside a call. */
  class Volume {
    var disk: Disk
    var faults: nat

    /** The process has been killed: nothing it still attempts has an effect. */
    var halted: bool
    var next: nat
    ghost var visited: set<Disk>

    ghost predicate Valid()
      reads this`disk, this`next, this`visited
    {
      Together(
        && disk.Valid()
        && disk in visited
        && next > 0
        && Below(disk.active, next) && Below(disk.journal, next) && Below(disk.factory, next))
    }

    constructor (initial: Disk, bound: nat)
      requires initial.Valid() && bound > 0
      requires Below(initial.active, bound) && Below(initial.journal, bound) && Below(initial.factory, bound)
      ensures Valid() && disk == initial && visited == {initial} && faults == 0 && next == bound && !halted
    {
      disk, faults, halted, next := initial, 0, false, bound;
      visited := {initial};
    }

    /** Crash points are counted from here. */
    ghost method Restart()
      requires Valid()
      modifies this`visited
      ensures Valid() && visited == {disk}
    {
      visited := {disk};
    }

    /** Power is lost: any of the disks this one may leave comes back. */
    method PowerLoss()
      requires Valid()
      modifies this`disk, this`visited
      ensures Valid() && AfterCrash(old(disk), disk) && visited == old(visited) + {disk}
    {
      var after: Disk := *;
      if !AfterCrash(disk, after) {
        after := Disk(disk.active.Synced(), disk.journal.Synced(), disk.factory.Synced());
        SyncedSurvives(disk.active);
        SyncedSurvives(disk.journal);
        SyncedSurvives(disk.factory);
      }
      CrashBelow(disk.active, after.active, next);
      CrashBelow(disk.journal, after.journal, next);
      CrashBelow(disk.factory, after.factory, next);
      disk := after;
      visited := visited + {disk};
    }

    /** One native operation fails or does not. The process may be killed here; then this
        and every later operation of it fails without having done anything. */
    method Fails() returns (failed: bool)
      modifies this`faults, this`halted
      ensures faults == old(faults) + (if failed then 1 else 0)
      ensures (old(halted) ==> halted) && (halted ==> failed)
    {
      var killed: bool := *;
      halted := halted || killed;
      failed := *;
      failed := failed || halted;
      if failed { faults := faults + 1; }
    }

    /** Another process starts. */
    method Revive()
      modifies this`halted
      ensures !halted
    {
      halted := false;
    }

    method Put(place: Place, dir: Dir)
      requires Valid() && dir.Valid() && Below(dir, next)
      modifies this`disk, this`visited
      ensures Valid() && disk == old(disk).With(place, dir)
      ensures visited == old(visited) + {disk}
    {
      disk := disk.With(place, dir);
      visited := visited + {disk};
    }

    /** Exclusively creates the published name: an empty private file. */
    method CreatePublished(place: Place) returns (created: Option<File>)
      requires Valid()
      modifies this
      ensures Valid() && faults >= old(faults)
      ensures created.None? ==> disk == old(disk) && visited == old(visited) && next == old(next)
      ensures created.None? <==> faults > old(faults) || old(disk).At(place).Entry().Some?
      ensures created.Some? ==>
        && var file := created.value;
        && file.inode >= old(next) && file.content == Raw([]) && file.durable
        && file.mode == PRIVATE_MODE && file.size == 0
        && next > file.inode
        && disk == old(disk).With(place, old(disk).At(place).Entered(file))
        && visited == old(visited) + {disk}
    {
      var failed := Fails();
      if failed || disk.At(place).Entry().Some? { return None; }
      var mtime: nat, ctime: nat := *, *;
      var file := File(next, PRIVATE_MODE, 0, mtime, ctime, Raw([]), true);
      next := next + 1;
      Put(place, disk.At(place).Entered(file));
      created := Some(file);
    }

    /** Exclusively creates a staged sibling under a name nobody has used. */
    method CreateSibling(place: Place) returns (created: Option<File>)
      requires Valid()
      modifies this
      ensures Valid() && faults >= old(faults) && next >= old(next)
      ensures created.None? <==> faults > old(faults)
      ensures created.None? ==> disk == old(disk) && visited == old(visited)
      ensures created.Some? ==>
        && var file := created.value;
        && old(next) <= file.inode < next
        && disk == old(disk).With(place, old(disk).At(place).Staged(file))
        && visited == old(visited) + {disk}
    {
      var failed := Fails();
      if failed { return None; }
      var mtime: nat, ctime: nat := *, *;
      var file := File(next, PRIVATE_MODE, 0, mtime, ctime, Raw([]), true);
      next := next + 1;
      Put(place, disk.At(place).Staged(file));
      created := Some(file);
    }

    /** Changes a sibling's bytes or metadata in place, keeping its inode. */
    method Rewrite(place: Place, file: File)
      requires Valid() && file.inode in disk.At(place).siblings
      modifies this`disk, this`visited
      ensures Valid() && disk == old(disk).With(place, old(disk).At(place).Rewritten(file))
      ensures visited == old(visited) + {disk}
    {
      Put(place, disk.At(place).Rewritten(file));
    }

    /** Unlinks a sibling when its name still denotes the given inode. */
    method RemoveSibling(place: Place, name: nat) returns (ok: bool)
      requires Valid()
      modifies this`disk, this`visited, this`faults, this`halted
      ensures Valid() && faults >= old(faults)
      ensures ok ==> faults == old(faults)
      ensures !ok ==> faults > old(faults) && disk == old(disk) && visited == old(visited)
      ensures ok && name in old(disk).At(place).siblings ==>
        && disk == old(disk).With(place, old(disk).At(place).Dropped(name))
        && visited == old(visited) + {disk}
      ensures ok && name !in old(disk).At(place).siblings ==> disk == old(disk) && visited == old(visited)
    {
      var failed := Fails();
      if failed { return false; }
      if name in disk.At(place).siblings {
        Put(place, disk.At(place).Dropped(name));
      }
      ok := true;
    }

    /** Renames a sibling over the published name. Only the change time of the
        inode may differ afterwards. `moved` says whether it really happened. */
    method Rename(place: Place, name: nat) returns (ok: bool, ghost moved: bool, ghost ctime: nat)
      requires Valid()
      modifies this`disk, this`visited, this`faults, this`halted
      ensures Valid() && faults >= old(faults)
      ensures ok ==> moved
      ensures !ok ==> faults > old(faults) || name !in old(disk).At(place).siblings
      ensures !moved ==> disk == old(disk) && visited == old(visited)
      ensures moved ==>
        && name in old(disk).At(place).siblings
        && disk == old(disk).With(place, old(disk).At(place).Renamed(name, ctime))
        && visited == old(visited) + {disk}
    {
      ok, moved, ctime := false, false, 0;
      var before := Fails();
      if before || name !in disk.At(place).siblings { return; }
      var stamp: nat := *;
      Put(place, disk.At(place).Renamed(name, stamp));
      moved, ctime := true, stamp;
      var after := Fails();
      ok := !after;
    }

    method UnlinkPublished(place: Place) returns (ok: bool, ghost moved: bool)
      requires Valid()
      modifies this`disk, this`visited, this`faults, this`halted
      ensures Valid() && faults >= old(faults)
      ensures ok ==> moved
      ensures !ok ==> faults > old(faults) || old(disk).At(place).Entry().None?
      ensures !moved ==> disk == old(disk) && visited == old(visited)
      ensures moved ==>
        && disk == old(disk).With(place, old(disk).At(place).Unlinked())
        && visited == old(visited) + {disk}
    {
      ok, moved := false, false;
      var before := Fails();
      if before || disk.At(place).Entry().None? { return; }
      Put(place, disk.At(place).Unlinked());
      moved := true;
      var after := Fails();
      ok := !after;
    }

    method SyncPublished(place: Place) returns (ok: bool)
      requires Valid() && disk.At(place).Entry().Some?
      modifies this`disk, this`visited, this`faults, this`halted
      ensures Valid() && faults >= old(faults)
      ensures !ok ==> faults > old(faults) && disk == old(disk) && visited == old(visited)
      ensures ok ==>
        && disk == old(disk).With(place, old(disk).At(place).Flushed())
        && visited == old(visited) + {disk}
    {
      var failed := Fails();
      if failed { return false; }
      Put(place, disk.At(place).Flushed());
      ok := true;
    }

    /** A directory sync makes the current names the only possible ones. */
    method SyncDirectory(place: Place) returns (ok: bool)
      requires Valid()
      modifies this`disk, this`visited, this`faults, this`halted
      ensures Valid() && faults >= old(faults)
      ensures !ok ==> faults > old(faults) && disk == old(disk) && visited == old(visited)
      ensures ok ==>
        && disk == old(disk).With(place, old(disk).At(place).Synced())
        && visited == old(visited) + {disk}
    {
      var failed := Fails();
      if failed { return false; }
      Put(place, disk.At(place).Synced());
      ok := true;
    }
  }
}
