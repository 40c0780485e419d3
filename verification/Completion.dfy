/** What completing a publication keeps: the terminal record, then the removal of
    the pending marker, then the release of every descriptor. */
module Completion {
  import opened Basics
  import opened PublicationRecords
  import opened Volumes
  import opened Staging
  import opened Transactions
  import opened Custody
  import opened Handles
  import opened PublicationSteps
  import opened RecordWrites
  import opened ImagePublication

  /** The terminal record is in place, so the marker may go. */
  ghost predicate Removable(h: Handle, disk: Disk)
    requires disk.Valid()
  {
    Together(
      && h.candidate.None? && h.offer.None?
      && Terminal(h.written.phase) && h.record.expected == Encoded(h.written)
      && disk.journal.log == [disk.journal.Entry()])
  }

  /** Of the handle, only the marker's fields and the directory's view change. */
  ghost predicate Unmarked(h: Handle, h': Handle, disk: Disk, disk': Disk) {
    Together(
      && h' == h.(pins := h'.pins, released := h'.released, seen := h'.seen,
                  pendingClosed := h'.pendingClosed, pendingRemoved := h'.pendingRemoved)
      && disk'.active == disk.active && disk'.journal == disk.journal)
  }

  function MarkerClosed(h: Handle): Handle {
    h.(pendingClosed := true, pins := h.pins - {h.pending.descriptor}, released := h.released + [h.pending.descriptor])
  }

  lemma MarkerClosedKept(h0: Handle, h: Handle, disk0: Disk, disk: Disk, next: nat, tx: Transaction)
    requires disk.Valid() && Kept(h, disk, next, tx) && Settled(h, disk) && !h.pendingClosed
    requires Removable(h, disk) && Unmarked(h0, h, disk0, disk)
    ensures
      var h' := MarkerClosed(h);
      && Kept(h', disk, next, tx) && Settled(h', disk) && Removable(h', disk) && Unmarked(h0, h', disk0, disk)
      && h'.Watch() == Some(h.pending)
  {
    hide Custodied, ValidRecord, Belongs, Fits, Holds;
    CustodyMoved(h.pins.Keys, h.detached, h.released, h.issued, h.pending.descriptor);
    assert MarkerClosed(h).pins.Keys == h.pins.Keys - {h.pending.descriptor};
    FitsMarked(h, tx);
    assert Located(disk, h.pins[h.pending.descriptor]);
  }

  lemma FitsMarked(h: Handle, tx: Transaction)
    requires Fits(h.written, h, tx)
    ensures Fits(h.written, MarkerClosed(h), tx)
    ensures Fits(h.written, h.(pendingRemoved := true), tx)
  {
    hide ValidRecord, Belongs;
  }

  ghost function UnlinkedAt(disk: Disk): Disk {
    disk.With(Factory, disk.factory.Unlinked())
  }

  function MarkerRemoved(h: Handle, version: nat): Handle {
    h.(pendingRemoved := true, seen := h.seen.With(Factory, version))
  }

  /** The unlink happened. */
  lemma UnlinkedConsistent(h: Handle, disk: Disk, next: nat, tx: Transaction, strict: bool)
    requires Consistent(disk, tx, strict) && Kept(h, disk, next, tx) && Settled(h, disk) && Removable(h, disk)
    requires UnlinkedAt(disk).Valid()
    ensures Consistent(UnlinkedAt(disk), tx, strict)
  {
    SettledEntries(h, disk, next, tx, strict);
    hide Allowed, Settled, Custodied, Fits;
  }

  lemma UnlinkedKept(h0: Handle, h: Handle, disk0: Disk, disk: Disk, next: nat, tx: Transaction)
    requires disk.Valid() && UnlinkedAt(disk).Valid() && Kept(h, disk, next, tx) && h.pendingClosed
    requires Removable(h, disk) && Unmarked(h0, h, disk0, disk)
    ensures
      var h' := h.(pendingRemoved := true);
      && Kept(h, UnlinkedAt(disk), next, tx) && Kept(h', UnlinkedAt(disk), next, tx)
      && Unmarked(h0, h, disk0, UnlinkedAt(disk)) && Unmarked(h0, h', disk0, UnlinkedAt(disk))
  {
    hide Custodied, ValidRecord, Belongs, Fits;
    FitsMarked(h, tx);
  }

  /** The unlink, whether it is reported or not, keeps what every step keeps. */
  lemma UnlinkedSafe(
    h0: Handle, h: Handle, disk0: Disk, disk: Disk, visited: set<Disk>, next: nat, tx: Transaction, strict: bool)
    requires Safe(visited, tx, strict) && disk in visited && UnlinkedAt(disk).Valid()
    requires Kept(h, disk, next, tx) && Settled(h, disk) && h.pendingClosed
    requires Removable(h, disk) && Unmarked(h0, h, disk0, disk)
    ensures Safe(visited + {UnlinkedAt(disk)}, tx, strict)
    ensures
      var h' := h.(pendingRemoved := true);
      && Kept(h, UnlinkedAt(disk), next, tx) && Kept(h', UnlinkedAt(disk), next, tx)
      && Unmarked(h0, h, disk0, UnlinkedAt(disk)) && Unmarked(h0, h', disk0, UnlinkedAt(disk))
  {
    hide Safe, Consistent, Kept, Settled, Removable, Unmarked, UnlinkedAt;
    SafeAt(visited, disk, tx, strict);
    UnlinkedConsistent(h, disk, next, tx, strict);
    SafeAdded(visited, UnlinkedAt(disk), tx, strict);
    UnlinkedKept(h0, h, disk0, disk, next, tx);
  }

  /** Once the factory directory is refreshed, the next check succeeds again. */
  lemma UnlinkedSettled(h0: Handle, h: Handle, disk0: Disk, disk: Disk, next: nat, tx: Transaction)
    requires disk.Valid() && UnlinkedAt(disk).Valid()
    requires Kept(h, disk, next, tx) && Settled(h, disk) && h.pendingClosed
    requires Kept(h.(pendingRemoved := true), UnlinkedAt(disk), next, tx)
    requires Unmarked(h0, h.(pendingRemoved := true), disk0, UnlinkedAt(disk))
    ensures
      var h' := MarkerRemoved(h, UnlinkedAt(disk).factory.version);
      && Kept(h', UnlinkedAt(disk), next, tx) && Unmarked(h0, h', disk0, UnlinkedAt(disk))
      && Settled(h', UnlinkedAt(disk))
  {
    hide Custodied, ValidRecord, Belongs, Fits, Holds;
    UnlinkedHolds(h.active, disk);
    UnlinkedHolds(h.record, disk);
    forall d | d in h.pins ensures Located(UnlinkedAt(disk), h.pins[d]) {
      assert Located(disk, h.pins[d]);
    }
    OtherKept(
      h.(pendingRemoved := true), MarkerRemoved(h, UnlinkedAt(disk).factory.version), UnlinkedAt(disk), next, tx);
  }

  lemma UnlinkedHolds(held: Held, disk: Disk)
    requires disk.Valid() && UnlinkedAt(disk).Valid() && Holds(disk, held) && held.pin.place != Factory
    ensures Holds(UnlinkedAt(disk), held)
  {
  }

  lemma RemovableFacts(h: Handle, disk: Disk)
    requires disk.Valid() && Removable(h, disk)
    ensures h.candidate.None? && h.offer.None?
    ensures Unmarked(h, h, disk, disk)
  {
  }

  lemma MarkerPresent(h: Handle, disk: Disk, next: nat, tx: Transaction)
    requires disk.Valid() && Kept(h, disk, next, tx) && Settled(h, disk) && h.pendingClosed && !h.pendingRemoved
    ensures disk.factory.Entry().Some?
  {
  }

  lemma SyncedUnmarked(h0: Handle, h: Handle, disk0: Disk, before: Disk, after: Disk)
    requires Unmarked(h0, h, disk0, before) && before.Valid()
    requires after == before || after == SyncedAt(before, Factory)
    ensures Unmarked(h0, h, disk0, after)
  {
  }

  lemma MarkerGone(h: Handle, disk: Disk, next: nat, tx: Transaction)
    requires disk.Valid() && Kept(h, disk, next, tx) && h.pendingRemoved
    ensures SyncedAt(disk, Factory).factory.log == [None]
  {
  }

  // ----- the public operations -----

  predicate Appliable(h: Handle) {
    !h.closed && !h.finished && !h.applyUsed && h.direction.None?
  }

  predicate Restorable(h: Handle) {
    !h.closed && !h.finished && h.direction != Some(Forward)
  }

  predicate Finishable(h: Handle) {
    !h.closed && !h.finished && h.direction != Some(Reverse)
  }

  /** Every descriptor that was ever opened has been closed exactly once. */
  ghost predicate Released(h: Handle) {
    h.pins == map[] && h.detached == [] && Custodied({}, [], h.released, h.issued)
  }

  /** The only state a crash can leave is the terminal record beside its image,
      with the marker gone. */
  ghost predicate Concluded(h: Handle, disk: Disk, tx: Transaction)
    requires disk.Valid()
  {
    Together(
      && Terminal(h.written.phase)
      && (h.written.phase == ForwardCompleted <==> h.direction == Some(Forward))
      && disk.journal.log == [disk.journal.Entry()]
      && disk.journal.Entry().Some? && disk.journal.Entry().value.content == Encoded(h.written)
      && disk.active.log == [disk.active.Entry()]
      && disk.factory.log == [None])
  }

  lemma AppliedKept(h: Handle, disk: Disk, next: nat, tx: Transaction, strict: bool)
    requires disk.Valid() && Kept(h, disk, next, tx) && Settled(h, disk) && h.record.expected.Encoded?
    requires !h.applyUsed && h.direction.None?
    ensures
      var h' := h.(applyUsed := true);
      Kept(h', disk, next, tx) && Settled(h', disk) && Publishable(false, h', disk, strict)
  {
    hide Custodied, ValidRecord, Belongs, Intact;
  }

  /** A handle past its first apply works from a record in the journal. */
  lemma CommittedEncoded(h: Handle, disk: Disk, next: nat, tx: Transaction)
    requires Kept(h, disk, next, tx) && (h.applyUsed || h.direction.Some?)
    ensures h.record.expected.Encoded?
  {
  }

  lemma DirectedKept(
    h: Handle, direction: Direction, handed: seq<Record>, disk: Disk, next: nat, tx: Transaction, strict: bool)
    requires disk.Valid() && Kept(h, disk, next, tx) && Settled(h, disk) && h.record.expected.Encoded?
    requires h.direction.None? || h.direction == Some(direction)
    requires direction == Forward ==> h.Forwarded()
    requires Handed(handed, h.direction, tx)
    ensures
      var h' := h.(direction := Some(direction));
      && Kept(h', disk, next, tx) && Settled(h', disk) && Handed(handed, h'.direction, tx)
      && ReverseReady(h', disk) == ReverseReady(h, disk)
      && (direction == Reverse && h.Forwarded() && (strict ==> ReverseReady(h, disk)) ==>
            Publishable(true, h', disk, strict))
  {
    hide Custodied, ValidRecord, Belongs, Intact;
  }

  lemma Undirected(h: Handle, direction: Direction)
    ensures h.direction.None? || h.direction == Some(direction)
         || h.direction == Some(if direction == Forward then Reverse else Forward)
  {
    if h.direction.Some? {
      match h.direction.value {
        case Forward =>
        case Reverse =>
      }
    }
  }

  /** A handle with a terminal record has nothing uncertain, and nothing to undo. */
  lemma TerminalCertain(h: Handle, disk: Disk, next: nat, tx: Transaction)
    requires Kept(h, disk, next, tx)
    ensures Terminal(h.written.phase) ==>
      h.candidate.None? && h.offer.None? && (h.direction == Some(Forward) || !h.Forwarded())
  {
  }

  lemma CheckedAbsorbing(h: Handle, h': Handle, disk: Disk)
    requires disk.Valid() && (Terminal(h.written.phase) ==> h'.written == h.written && h'.record == h.record)
    ensures Absorbing(h, h', disk, disk)
  {
  }

  lemma UndoneAbsorbing(h: Handle, h1: Handle, h2: Handle, disk: Disk, disk': Disk)
    requires disk.Valid() && (Terminal(h.written.phase) ==> h1.written == h.written && h1.record == h.record)
    requires Terminal(h.written.phase) ==> !h1.Forwarded()
    requires !h1.Forwarded() ==> h2 == h1 && disk' == disk
    ensures Absorbing(h, h2, disk, disk')
  {
  }

  /** Only the report of the last call differs. */
  predicate Reported(h: Handle, h': Handle) {
    h' == h.(finished := h'.finished, lastError := h'.lastError)
  }

  lemma ReportedAbsorbing(h: Handle, h': Handle, disk: Disk)
    requires Reported(h, h')
    ensures Absorbing(h, h', disk, disk)
  {
  }

  lemma ReadyNow(h: Handle, disk: Disk)
    requires disk.Valid()
    ensures Settled(h, disk) || ReverseReady(h, disk) ==> h.candidate.None? && h.offer.None?
  {
  }

  lemma CompletedWritable(direction: Direction, h: Handle, disk: Disk, next: nat, tx: Transaction, strict: bool)
    requires Kept(h, disk, next, tx) && Consistent(disk, tx, strict) && Settled(h, disk)
    requires h.direction == Some(direction) && h.Forwarded() == (direction == Forward)
    requires disk.active.log == [disk.active.Entry()]
    ensures Writable(
      if direction == Forward then ForwardCompletedRecord(h) else ReverseCompletedRecord(h), h, disk, tx, strict)
  {
    hide Kept, Consistent, Settled, Writable;
    if direction == Forward { ForwardCompletedWritable(h, disk, next, tx, strict); }
    else { ReverseCompletedWritable(h, disk, next, tx, strict); }
  }

  /** The terminal record of the committed direction is durable beside its image. */
  ghost predicate Decided(h: Handle, disk: Disk)
    requires disk.Valid()
  {
    Together(
      && Removable(h, disk)
      && (h.written.phase == ForwardCompleted <==> h.direction == Some(Forward))
      && disk.active.log == [disk.active.Entry()])
  }

  lemma DecidedNow(direction: Direction, h: Handle, h': Handle, disk: Disk, disk': Disk)
    requires disk.Valid() && disk'.Valid() && Journalled(h, h', disk, disk')
    requires RecordDurable(
      if direction == Forward then ForwardCompletedRecord(h) else ReverseCompletedRecord(h), h', disk')
    requires Settled(h', disk') && h.direction == Some(direction) && disk.active.log == [disk.active.Entry()]
    ensures Decided(h', disk')
  {
    hide Intact;
  }

  lemma DecidedRemovable(h: Handle, disk: Disk)
    requires disk.Valid() && Decided(h, disk)
    ensures Removable(h, disk)
  {
  }

  lemma UnmarkedCourse(h0: Handle, h: Handle, h': Handle, disk: Disk, disk': Disk)
    requires SameCourse(h0, h) && Unmarked(h, h', disk, disk')
    ensures SameCourse(h0, h') && Absorbing(h, h', disk, disk')
  {
  }

  lemma ConcludedNow(h: Handle, h': Handle, disk: Disk, disk': Disk, next: nat, tx: Transaction)
    requires disk.Valid() && disk'.Valid() && Decided(h, disk) && Unmarked(h, h', disk, disk')
    requires Kept(h', disk', next, tx) && Settled(h', disk') && disk'.factory.log == [None]
    ensures Concluded(h', disk', tx)
  {
    hide Kept, Settled;
    EntryHeld(h', disk', next, tx);
  }

  lemma EntryHeld(h: Handle, disk: Disk, next: nat, tx: Transaction)
    requires disk.Valid() && Kept(h, disk, next, tx) && Settled(h, disk)
    ensures disk.journal.Entry().Some? && disk.journal.Entry().value.content == h.record.expected
  {
    assert Located(disk, h.pins[h.record.pin.descriptor]);
  }

  /** The durable outcome of a completed direction, as any crash will show it. */
  lemma ConcludedImage(h: Handle, disk: Disk, after: Disk, tx: Transaction, strict: bool)
    requires Consistent(disk, tx, strict) && Concluded(h, disk, tx) && AfterCrash(disk, after)
    ensures after.factory.Entry().None?
    ensures after.journal.Entry() == disk.journal.Entry() && after.active.Entry() == disk.active.Entry()
    ensures Observed(after.active.Entry().value)
         == if h.direction == Some(Forward) then tx.After() else tx.Before()
  {
    assert Allowed(disk.journal.Entry(), disk.active.Entry(), tx, strict);
  }

  // ----- closing -----

  /** An unpublished stage's name is gone. */
  predicate Swept(stages: seq<Stage>, disk: Disk) {
    forall s | s in stages && !s.published :: s.inode !in disk.At(s.place).siblings
  }

  lemma SweptNone(disk: Disk)
    ensures Swept([], disk)
  {
  }

  lemma SweptOn(stages: seq<Stage>, stage: Stage, before: Disk, after: Disk)
    requires forall p: Place :: after.At(p).siblings.Keys <= before.At(p).siblings.Keys
    ensures Swept(stages, before) && (stage.published || stage.inode !in after.At(stage.place).siblings)
      ==> Swept(stages + [stage], after)
  {
    if Swept(stages, before) {
      forall s | s in stages && !s.published ensures s.inode !in after.At(s.place).siblings {
        assert after.At(s.place).siblings.Keys <= before.At(s.place).siblings.Keys;
      }
    }
  }

  /** Removes the siblings of the stages that were never published. */
  method Sweep(v: Volume, stages: seq<Stage>) returns (clean: bool)
    requires v.Valid()
    modifies v`disk, v`visited, v`faults, v`halted
    ensures v.Valid() && v.faults >= old(v.faults)
    ensures Quiet(old(v.visited), v.visited, old(v.disk)) && SameLogs(v.disk, old(v.disk))
    ensures clean <==> v.faults == old(v.faults)
    ensures clean ==> Swept(stages, v.disk)
    ensures forall p: Place :: v.disk.At(p).siblings.Keys <= old(v.disk).At(p).siblings.Keys
  {
    hide Swept;
    clean := true;
    assert Swept([], v.disk) by { SweptNone(v.disk); }
    for i := 0 to |stages|
      invariant v.Valid() && v.faults >= old(v.faults)
      invariant Quiet(old(v.visited), v.visited, old(v.disk)) && SameLogs(v.disk, old(v.disk))
      invariant clean <==> v.faults == old(v.faults)
      invariant clean ==> Swept(stages[..i], v.disk)
      invariant forall p: Place :: v.disk.At(p).siblings.Keys <= old(v.disk).At(p).siblings.Keys
    {
      ghost var before := v.disk;
      if !stages[i].published {
        var ok := v.RemoveSibling(stages[i].place, stages[i].inode);
        clean := clean && ok;
        assert ok ==> stages[i].inode !in v.disk.At(stages[i].place).siblings;
      }
      assert forall p: Place :: v.disk.At(p).siblings.Keys <= before.At(p).siblings.Keys;
      assert stages[..i + 1] == stages[..i] + [stages[i]];
      SweptOn(stages[..i], stages[i], before, v.disk);
    }
    assert stages[..|stages|] == stages;
  }

  /** Closes the detached descriptors, then the retained ones; a failed close still
      gives the descriptor up. */
  method Release(v: Volume, pinned: set<nat>, detached: seq<nat>, released: seq<nat>, ghost issued: nat)
    returns (all: seq<nat>, clean: bool)
    requires Custodied(pinned, detached, released, issued)
    modifies v`faults, v`halted
    ensures v.faults >= old(v.faults) && (clean <==> v.faults == old(v.faults))
    ensures Custodied({}, [], all, issued)
  {
    hide Custodied;
    all, clean := released, true;
    var rest := detached;
    while rest != []
      invariant v.faults >= old(v.faults) && (clean <==> v.faults == old(v.faults))
      invariant Custodied(pinned, rest, all, issued)
      decreases |rest|
    {
      CustodyReleased(pinned, rest, all, issued);
      rest, all := rest[1..], all + [rest[0]];
      var failed := v.Fails();
      clean := clean && !failed;
    }
    var left := pinned;
    while left != {}
      invariant v.faults >= old(v.faults) && (clean <==> v.faults == old(v.faults))
      invariant Custodied(left, [], all, issued)
      decreases |left|
    {
      var d :| d in left;
      CustodyMoved(left, [], all, issued, d);
      left, all := left - {d}, all + [d];
      var failed := v.Fails();
      clean := clean && !failed;
    }
  }

  lemma CustodyReleased(pinned: set<nat>, detached: seq<nat>, released: seq<nat>, issued: nat)
    requires Custodied(pinned, detached, released, issued) && detached != []
    ensures Custodied(pinned, detached[1..], released + [detached[0]], issued)
  {
    assert detached == [detached[0]] + detached[1..];
    assert multiset(detached) == multiset{detached[0]} + multiset(detached[1..]);
    assert multiset(released + [detached[0]]) == multiset(released) + multiset{detached[0]};
    assert multiset(pinned) + multiset(detached[1..]) + multiset(released + [detached[0]])
        == multiset(pinned) + multiset(detached) + multiset(released);
  }

  lemma KeptCustody(h: Handle, disk: Disk, next: nat, tx: Transaction)
    requires Kept(h, disk, next, tx)
    ensures Custodied(h.pins.Keys, h.detached, h.released, h.issued)
  {
  }

  /** The handle once everything it owned has been given up. */
  function Shut(h: Handle, released: seq<nat>): Handle {
    h.(pins := map[], detached := [], released := released, closed := true)
  }
}
