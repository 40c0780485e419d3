/** Exclusive staged siblings: created, written, flushed and verified before any
    caller can rename them. */
module Staging {
  import opened Basics
  import opened Volumes

  /** `later` continues `earlier`, and every disk in between kept the published
      names of `base`. */
  ghost predicate Quiet(earlier: set<Disk>, later: set<Disk>, base: Disk) {
    && earlier <= later
    && forall d | d in later && d !in earlier :: d.Valid() && SameLogs(d, base)
  }

  /** Only the siblings of one directory differ, and the old ones are kept. */
  ghost predicate OnlyAdds(before: Disk, after: Disk, place: Place) {
    && after == before.With(place, after.At(place))
    && after.At(place).log == before.At(place).log
    && before.At(place).residue <= after.At(place).residue
    && (forall n | n in before.At(place).siblings ::
          n in after.At(place).siblings && after.At(place).siblings[n] == before.At(place).siblings[n])
  }

  predicate Written(file: File, content: Content, mode: nat) {
    && file.content == content && file.mode == mode && file.durable
    && (content.Raw? ==> file.size == |content.data|)
  }

  /** The stage's bytes are flushed and read back before its inode is exposed;
      a failed preparation removes its own sibling when it can. */
  method Prepare(v: Volume, place: Place, content: Content, mode: nat) returns (stage: Option<File>)
    requires v.Valid()
    modifies v
    ensures v.Valid() && v.faults >= old(v.faults) && v.next >= old(v.next)
    ensures stage.None? <==> v.faults > old(v.faults)
    ensures Quiet(old(v.visited), v.visited, old(v.disk))
    ensures OnlyAdds(old(v.disk), v.disk, place)
    ensures stage.Some? ==>
      && Written(stage.value, content, mode)
      && old(v.next) <= stage.value.inode < v.next
      && stage.value.inode in v.disk.At(place).siblings
      && v.disk.At(place).siblings[stage.value.inode] == stage.value
      && v.disk.At(place).residue == old(v.disk).At(place).residue + {stage.value.inode}
      && v.disk.At(place).siblings == old(v.disk).At(place).siblings[stage.value.inode := stage.value]
  {
    stage := None;
    var created := v.CreateSibling(place);
    if created.None? { return; }
    var file := created.value;
    var ok, sealed := Fill(v, place, file, content, mode);
    if ok { return Some(sealed); }
    var _ := v.RemoveSibling(place, file.inode);
  }

  /** One change of the sibling in place. */
  method Revise(v: Volume, place: Place, file: File, changed: File, ghost base: Disk, ghost earlier: set<Disk>)
    requires v.Valid() && base.Valid() && file.inode in base.At(place).siblings && changed.inode == file.inode
    requires v.disk == base.With(place, base.At(place).Rewritten(file)) && Quiet(earlier, v.visited, base)
    modifies v`disk, v`visited
    ensures v.Valid() && Quiet(earlier, v.visited, base)
    ensures v.disk == base.With(place, base.At(place).Rewritten(changed))
  {
    RewrittenAgain(base, place, file, changed);
    v.Rewrite(place, changed);
  }

  /** Write, chmod, flush, read back. A failed write leaves any bytes. */
  method Fill(v: Volume, place: Place, file: File, content: Content, mode: nat)
    returns (ok: bool, sealed: File)
    requires v.Valid() && file.inode in v.disk.At(place).siblings
    requires v.disk.At(place).siblings[file.inode] == file
    modifies v`disk, v`visited, v`faults, v`halted
    ensures v.Valid() && v.faults >= old(v.faults)
    ensures ok <==> v.faults == old(v.faults)
    ensures Quiet(old(v.visited), v.visited, old(v.disk))
    ensures sealed.inode == file.inode
    ensures v.disk == old(v.disk).With(place, old(v.disk).At(place).Rewritten(sealed))
    ensures ok ==> Written(sealed, content, mode)
  {
    hide Quiet, Dir.Rewritten, Below, SameLogs;
    ghost var base, earlier := v.disk, v.visited;
    sealed := file;
    Unwritten(base, place, file);
    QuietSame(earlier, base);
    var failed := v.Fails();
    if failed { return false, file; }
    failed := v.Fails();
    var torn: Content, mtime: nat, ctime: nat, size: nat := *, *, *, *;
    var changed := file.(content := if failed then torn else content, mtime := mtime, durable := false,
                         size := if content.Raw? && !failed then |content.data| else size);
    Revise(v, place, file, changed, base, earlier);
    sealed := changed;
    if failed { return false, sealed; }
    failed := v.Fails();
    if failed { return false, sealed; }
    changed := sealed.(mode := mode, ctime := ctime);
    Revise(v, place, sealed, changed, base, earlier);
    sealed := changed;
    failed := v.Fails();
    if failed { return false, sealed; }
    changed := sealed.(durable := true);
    Revise(v, place, sealed, changed, base, earlier);
    sealed := changed;
    failed := v.Fails();
    ok := !failed && sealed.content == content;
  }

  lemma Unwritten(disk: Disk, place: Place, file: File)
    requires disk.Valid() && file.inode in disk.At(place).siblings && disk.At(place).siblings[file.inode] == file
    ensures disk == disk.With(place, disk.At(place).Rewritten(file))
  {
    assert disk.At(place).Rewritten(file).siblings == disk.At(place).siblings;
  }

  lemma QuietSame(visited: set<Disk>, base: Disk)
    requires base.Valid()
    ensures Quiet(visited, visited, base)
  {
  }
}
