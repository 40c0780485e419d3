/** What each step of publishing one image keeps: the write-ahead record, the
    rename, its reconciliation and its confirmation. */
module ImagePublication {
  import opened Basics
  import opened PublicationRecords
  import opened Volumes
  import opened Staging
  import opened Transactions
  import opened Custody
  import opened Handles
  import opened PublicationSteps
  import opened StageRetention
  import opened RecordWrites

  function ImageData(restoring: bool, tx: Transaction): Bytes {
    if restoring then tx.original else tx.replacement
  }

  ghost predicate Publishable(restoring: bool, h: Handle, disk: Disk, strict: bool)
    requires disk.Valid()
  {
    Together(
      if restoring then
        h.direction == Some(Reverse) && h.Forwarded() && (strict ==> ReverseReady(h, disk))
      else
        h.direction.None? && h.applyUsed && h.written.phase == Prepared)
  }

  /** The write-ahead record is durable and names the retained staged sibling. */
  ghost predicate ImageReady(restoring: bool, h: Handle, disk: Disk, pin: Pin, tx: Transaction)
    requires disk.Valid()
  {
    Together(
      && Settled(h, disk)
      && Retained(h.pins, pin) && pin.place == Active && pin.name == Sibling(pin.stat.inode)
      && pin.stat.inode != h.active.pin.stat.inode && pin.stat.inode != 0
      && StagedAs(disk.active, pin, Raw(ImageData(restoring, tx)), tx.mode)
      && disk.journal.log == [disk.journal.Entry()]
      && h.record.expected == Encoded(h.written)
      && h.written.candidate == Some(pin.stat)
      && (if restoring
          then h.written.phase == ReversePrepared && h.Forwarded()
          else h.written.phase == ForwardPrepared && h.written.forward == Some(pin.stat) && !h.afterPublished
               && h.direction.None?))
  }

  ghost predicate ImageDurable(restoring: bool, h: Handle, disk: Disk)
    requires disk.Valid()
  {
    && disk.active.log == [disk.active.Entry()]
    && (if restoring then h.undoPublished
        else h.Forwarded() && h.written.phase == ForwardPublished && ReverseReady(h, disk))
  }

  lemma StagedCourse(restoring: bool, h: Handle, h': Handle, disk: Disk, disk': Disk, strict: bool)
    requires OnlyRetains(h, h')
    ensures SameCourse(h, h')
  {
  }

  lemma JournalledCourse(h0: Handle, h: Handle, h': Handle, disk: Disk, disk': Disk)
    requires SameCourse(h0, h) && Journalled(h, h', disk, disk')
    ensures SameCourse(h0, h')
  {
  }

  lemma ImageWritable(restoring: bool, h0: Handle, h: Handle, pin: Pin, disk0: Disk, disk: Disk, bound: nat, next: nat,
                      tx: Transaction, strict: bool)
    requires disk0.Valid() && Kept(h0, disk0, bound, tx) && Publishable(restoring, h0, disk0, strict)
    requires OnlyRetains(h0, h) && OnlyAdds(disk0, disk, Active)
    requires Kept(h, disk, next, tx) && Consistent(disk, tx, strict) && Settled(h, disk)
    requires RetainsStaged(h, disk, pin, Active, Raw(ImageData(restoring, tx)), tx.mode, bound) && bound > 0
    ensures
      var r := if restoring then ReversePreparedRecord(h, pin.stat) else ForwardPreparedRecord(h, pin.stat);
      Writable(r, h, disk, tx, strict)
  {
    hide Kept, Intact, Writable, Agree;
    if restoring {
      ReversePreparedWritable(h, pin.stat, disk, next, tx, strict);
    } else {
      ForwardPreparedWritable(h, pin.stat, disk, next, tx, strict);
    }
  }

  lemma ImageReadied(restoring: bool, h0: Handle, h1: Handle, h: Handle, pin: Pin, disk0: Disk, disk1: Disk, disk: Disk,
                     bound: nat, tx: Transaction, strict: bool)
    requires disk0.Valid() && Kept(h0, disk0, bound, tx) && Publishable(restoring, h0, disk0, strict)
    requires OnlyRetains(h0, h1)
    requires RetainsStaged(h1, disk1, pin, Active, Raw(ImageData(restoring, tx)), tx.mode, bound) && bound > 0
    requires disk.Valid() && Journalled(h1, h, disk1, disk) && Settled(h, disk)
    requires RecordDurable(
      if restoring then ReversePreparedRecord(h1, pin.stat) else ForwardPreparedRecord(h1, pin.stat), h, disk)
    ensures ImageReady(restoring, h, disk, pin, tx)
  {
    hide Kept, Intact;
    RecordInode(h0, disk0, bound, tx);
    PreparedUnpublished(h0, disk0, bound, tx);
  }

  lemma PreparedUnpublished(h: Handle, disk: Disk, next: nat, tx: Transaction)
    requires Kept(h, disk, next, tx)
    ensures h.written.phase == Prepared ==> !h.afterPublished
  {
  }

  function Imaging(restoring: bool, h: Handle, pin: Pin, tx: Transaction): Handle {
    h.(candidate := Some(Candidate(pin, Raw(ImageData(restoring, tx)), restoring)))
  }

  lemma ImagingKept(restoring: bool, h0: Handle, h: Handle, disk: Disk, pin: Pin, next: nat, tx: Transaction)
    requires disk.Valid() && Kept(h, disk, next, tx) && ImageReady(restoring, h, disk, pin, tx)
    requires SameCourse(h0, h)
    ensures Kept(Imaging(restoring, h, pin, tx), disk, next, tx)
    ensures SameCourse(h0, Imaging(restoring, h, pin, tx))
    ensures pin.stat.inode in disk.active.siblings
  {
    hide Custodied, ValidRecord, Belongs, Intact, Fits;
    FitsImaging(restoring, h, pin, tx);
  }

  lemma FitsImaging(restoring: bool, h: Handle, pin: Pin, tx: Transaction)
    requires Fits(h.written, h, tx)
    ensures Fits(h.written, Imaging(restoring, h, pin, tx), tx)
  {
    hide ValidRecord, Belongs;
  }

  /** The rename of a prepared image has been attempted. */
  ghost predicate ImageAttempted(restoring: bool, h: Handle, disk: Disk, moved: bool) {
    Together(
      && disk.Valid()
      && h.candidate.Some? && h.candidate.value.restoring == restoring
      && Reconcilable(h, disk, h.candidate.value, h.active.pin)
      && (restoring || h.direction.None?) && (!restoring ==> h.written.phase == ForwardPrepared)
      && (moved ==> !Unrenamed(disk.active, h.candidate.value.pin, h.active.pin)))
  }

  predicate ImagePublished(restoring: bool, h: Handle) {
    if restoring then h.undoPublished
    else h.Forwarded() && h.direction.None? && h.written.phase == ForwardPrepared
  }

  lemma ImageRenamed(
    restoring: bool, h: Handle, pin: Pin, before: Disk, after: Disk, moved: bool, ctime: nat, next: nat,
                     tx: Transaction, strict: bool)
    requires Consistent(before, tx, strict) && Kept(h, before, next, tx) && after.Valid()
    requires Kept(Imaging(restoring, h, pin, tx), before, next, tx)
    requires ImageReady(restoring, h, before, pin, tx) && pin.stat.inode in before.active.siblings
    requires after == if moved
      then before.With(Active, before.active.Renamed(pin.stat.inode, ctime)) else before
    ensures Kept(Imaging(restoring, h, pin, tx), after, next, tx) && Consistent(after, tx, strict)
    ensures ImageAttempted(restoring, Imaging(restoring, h, pin, tx), after, moved)
  {
    hide Kept, Reconcilable, Unrenamed;
    DiskKept(Imaging(restoring, h, pin, tx), before, after, next, next, tx);
    ImageReconcilable(restoring, h, pin, before, after, moved, ctime, next, tx);
    if moved { ImageConsistent(restoring, h, pin, before, after, ctime, next, tx, strict); }
  }

  lemma ImageReconcilable(
    restoring: bool, h: Handle, pin: Pin, before: Disk, after: Disk, moved: bool, ctime: nat, next: nat,
                          tx: Transaction)
    requires before.Valid() && Kept(h, before, next, tx) && after.Valid()
    requires ImageReady(restoring, h, before, pin, tx) && pin.stat.inode in before.active.siblings
    requires after == if moved
      then before.With(Active, before.active.Renamed(pin.stat.inode, ctime)) else before
    ensures
      var h' := Imaging(restoring, h, pin, tx);
      && Reconcilable(h', after, h'.candidate.value, h'.active.pin)
      && (moved ==> !Unrenamed(after.active, pin, h'.active.pin))
  {
    hide Custodied, ValidRecord, Belongs, Reconcilable, Located, Fits;
    var h' := Imaging(restoring, h, pin, tx);
    assert Holds(before, Held(pin, h'.candidate.value.content));
    RenameReconcilable(h', before, after, next, h'.candidate.value, h'.active.pin, ctime);
  }

  lemma ImageConsistent(restoring: bool, h: Handle, pin: Pin, before: Disk, after: Disk, ctime: nat, next: nat,
                        tx: Transaction, strict: bool)
    requires Consistent(before, tx, strict) && Kept(h, before, next, tx) && after.Valid()
    requires ImageReady(restoring, h, before, pin, tx) && pin.stat.inode in before.active.siblings
    requires after == before.With(Active, before.active.Renamed(pin.stat.inode, ctime))
    ensures Consistent(after, tx, strict)
  {
    var staged := before.active.siblings[pin.stat.inode];
    var file := staged.(ctime := ctime);
    SettledEntries(h, before, next, tx, strict);
    assert AllowedRecord(h.written, Some(file), tx, strict) by {
      if restoring { ReverseRenameAllowed(staged, file, h.written, before, tx, strict); }
      else { ForwardRenameAllowed(staged, file, h.written, before, tx, strict); }
    }
    hide AllowedRecord, Kept, Settled;
    assert Allowed(before.journal.Entry(), before.active.Entry(), tx, strict);
    ConsistentActive(before, after, Some(file), tx, strict);
  }

  lemma ImageUncertain(restoring: bool, h: Handle, disk: Disk, moved: bool)
    requires ImageAttempted(restoring, h, disk, moved)
    ensures h.candidate.Some? && Reconcilable(h, disk, h.candidate.value, h.active.pin)
  {
  }

  lemma ImageDecided(restoring: bool, h0: Handle, h: Handle, h': Handle, disk: Disk, moved: bool,
                     published: bool, s: Status, next: nat, tx: Transaction)
    requires ImageAttempted(restoring, h, disk, moved) && Kept(h, disk, next, tx) && SameCourse(h0, h)
    requires CandidateOutcome(h, h', disk, published, s)
    ensures SameCourse(h0, h') && h'.direction == h.direction
    ensures published ==> ImagePublished(restoring, h') && s == Ok
    ensures moved && s == Ok ==> published
  {
    hide Kept, Renamed, Unrenamed, Reconcilable;
    CandidateFacts(h, disk, next, tx);
  }

  lemma MarkedCourse(h0: Handle, h: Handle, name: nat, disk: Disk, next: nat, tx: Transaction)
    requires disk.Valid() && SameCourse(h0, h) && Kept(h, disk, next, tx)
    ensures
      var h' := h.(stages := Marked(h.stages, name));
      SameCourse(h0, h') && Kept(h', disk, next, tx) && (Settled(h, disk) ==> Settled(h', disk))
  {
    hide Kept;
    StagedKept(h, Marked(h.stages, name), disk, disk, next, tx);
  }

  lemma MarkedPublished(restoring: bool, h: Handle, name: nat)
    ensures ImagePublished(restoring, h.(stages := Marked(h.stages, name))) == ImagePublished(restoring, h)
  {
  }

  lemma ForwardDurable(h: Handle, h': Handle, disk: Disk, disk': Disk)
    requires disk.Valid() && disk'.Valid() && Settled(h, disk) && Settled(h', disk')
    requires Journalled(h, h', disk, disk') && ImagePublished(false, h)
    requires disk.active.log == [disk.active.Entry()]
    requires RecordDurable(ForwardPublishedRecord(h), h', disk')
    ensures ImageDurable(false, h', disk')
  {
    hide Intact;
  }
}
