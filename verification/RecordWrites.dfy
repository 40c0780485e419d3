/** What each step of one journal record write keeps. */
module RecordWrites {
  import opened Basics
  import opened PublicationRecords
  import opened Volumes
  import opened Staging
  import opened Transactions
  import opened Custody
  import opened Handles
  import opened PublicationSteps
  import opened StageRetention

  /** Every record handed over is valid, and a terminal one agrees with the
      direction the handle is committed to. */
  predicate Handed(handed: seq<Record>, direction: Option<Direction>, tx: Transaction) {
    forall r | r in handed ::
      && ValidRecord(r, tx.Before())
      && (r.phase == ForwardCompleted ==> direction == Some(Forward))
      && (r.phase == Restored || r.phase == Aborted ==> direction == Some(Reverse))
  }

  /** What no inner step changes: the course the handle is committed to. */
  predicate SameCourse(h: Handle, h': Handle) {
    h'.direction == h.direction && h'.applyUsed == h.applyUsed && h'.finished == h.finished && h'.closed == h.closed
  }

  /** What reconciling an attempted active rename decides: published exactly when
      the active name denotes the staged inode, unpublished exactly when it still
      denotes the prior one, and undecided with the handle untouched otherwise. */
  ghost predicate CandidateOutcome(h: Handle, h': Handle, disk: Disk, published: bool, s: Status)
    requires disk.Valid() && h.candidate.Some?
  {
    Together(
      && (published ==> s == Ok)
      && (s != Ok ==> h' == h)
      && (s == Ok && !published ==>
            h' == h.(candidate := None) && Unrenamed(disk.active, h.candidate.value.pin, h.active.pin))
      && (published ==>
            && h.candidate.value.pin.place == Active && Renamed(disk.active, h.candidate.value.pin)
            && h' == h.Adopting(Promoted(disk, h.candidate.value.pin), disk.active.version)))
  }

  /** The same for an attempted record rename. */
  ghost predicate OfferOutcome(h: Handle, h': Handle, disk: Disk, published: bool, s: Status)
    requires disk.Valid() && h.offer.Some?
  {
    Together(
      && (published ==> s == Ok)
      && (s != Ok ==> h' == h)
      && (s == Ok && !published ==>
            h' == h.(offer := None) && Unrenamed(disk.journal, h.offer.value.pin, h.record.pin))
      && (published ==>
            && h.offer.value.pin.place == Journal && Renamed(disk.journal, h.offer.value.pin)
            && h' == h.Accepting(Promoted(disk, h.offer.value.pin), disk.journal.version)))
  }

  /** What settling an uncertain rename leaves of the handle's course. */
  predicate CheckedCourse(h: Handle, h': Handle) {
    SameCourse(h, h') && (h.record.expected.Encoded? ==> h'.record.expected.Encoded?)
  }

  lemma OfferCourse(h: Handle, h': Handle, disk: Disk, published: bool, s: Status, next: nat, tx: Transaction)
    requires disk.Valid() && Kept(h, disk, next, tx) && h.offer.Some? && OfferOutcome(h, h', disk, published, s)
    ensures CheckedCourse(h, h') && h'.candidate == h.candidate
  {
    hide Kept, Renamed, Unrenamed;
    OfferFacts(h, disk, next, tx);
  }

  lemma CandidateCourse(h: Handle, h': Handle, disk: Disk, published: bool, s: Status)
    requires disk.Valid() && h.candidate.Some? && CandidateOutcome(h, h', disk, published, s)
    ensures CheckedCourse(h, h')
  {
    hide Renamed, Unrenamed;
  }

  lemma SettledNow(h: Handle, disk: Disk)
    requires disk.Valid() && Settled(h, disk)
    ensures h.candidate.None? && h.offer.None?
  {
  }

  lemma FlushedFile(disk: Disk, h: Handle, place: Place, next: nat, tx: Transaction, strict: bool)
    requires Consistent(disk, tx, strict) && Agree(disk, h.pins, h.seen) && place != Factory
    requires Kept(h, disk, next, tx)
    ensures disk.At(place).Entry().Some?
    ensures disk.With(place, disk.At(place).Flushed()) == disk
  {
    assert Located(disk, h.pins[h.record.pin.descriptor]);
    assert Allowed(disk.journal.Entry(), disk.active.Entry(), tx, strict);
    FlushedAlready(disk.active);
    FlushedAlready(disk.journal);
  }

  ghost function SyncedAt(disk: Disk, place: Place): Disk
    requires disk.Valid()
  {
    disk.With(place, disk.At(place).Synced())
  }

  lemma SyncedFacts(disk: Disk, h: Handle, place: Place, next: nat, tx: Transaction, strict: bool)
    requires Consistent(disk, tx, strict) && Kept(h, disk, next, tx)
    ensures SyncedAt(disk, place).Valid()
    ensures Consistent(SyncedAt(disk, place), tx, strict)
    ensures Kept(h, SyncedAt(disk, place), next, tx)
    ensures Settled(h, disk) ==> Settled(h, SyncedAt(disk, place)) && Agree(SyncedAt(disk, place), h.pins, h.seen)
  {
    ConsistentKept(disk, SyncedAt(disk, place), tx, strict);
    DiskKept(h, disk, SyncedAt(disk, place), next, next, tx);
    hide ValidRecord, Belongs, Custodied;
    if Settled(h, disk) { SyncedSettled(h, place, disk, next); }
  }

  /** A record write leaves the active directory and the marker alone, and of the
      handle only the record's own fields, the retained files and the stages change. */
  ghost predicate Journalled(h: Handle, h': Handle, disk: Disk, disk': Disk) {
    Together(
      && h' == h.(pins := h'.pins, detached := h'.detached, released := h'.released, issued := h'.issued,
                  seen := h'.seen, stages := h'.stages, record := h'.record, written := h'.written,
                  offer := h'.offer, offered := h'.offered)
      && (forall d | d in h.pins && h.pins[d].place != Journal :: d in h'.pins && h'.pins[d] == h.pins[d])
      && disk'.active == disk.active && disk'.factory == disk.factory)
  }

  function Offering(h: Handle, pin: Pin, r: Record): Handle {
    h.(offer := Some(Candidate(pin, Encoded(r), false)), offered := r)
  }

  /** The stage of the renamed inode gives its name up; the others keep theirs. */
  function Marked(stages: seq<Stage>, inode: nat): (r: seq<Stage>)
    ensures |r| == |stages|
    ensures forall i | 0 <= i < |r| :: r[i].inode == stages[i].inode && r[i].place == stages[i].place
    ensures forall i | 0 <= i < |r| :: r[i].published <==> stages[i].published || stages[i].inode == inode
  {
    seq(|stages|, i requires 0 <= i < |stages| =>
      if stages[i].inode == inode then stages[i].(published := true) else stages[i])
  }

  /** A record is staged and offered, and nothing is uncertain yet. */
  ghost predicate OfferReady(r: Record, h0: Handle, h: Handle, disk0: Disk, disk: Disk, tx: Transaction, strict: bool)
  {
    Together(
      && disk.Valid()
      && h.offer.Some? && h.offered == r
      && Settled(h.(offer := None), disk)
      && StagedAs(disk.journal, h.offer.value.pin, Encoded(r), PRIVATE_MODE)
      && None !in disk.factory.log
      && (forall f | f in disk.active.log :: AllowedRecord(r, f, tx, strict))
      && Journalled(h0, h, disk0, disk))
  }

  lemma StagedJournalled(h0: Handle, h: Handle, disk0: Disk, disk: Disk)
    requires OnlyRetains(h0, h) && OnlyAdds(disk0, disk, Journal)
    ensures Journalled(h0, h, disk0, disk)
    ensures h.candidate == h0.candidate && h.offer == h0.offer && h.direction == h0.direction
  {
  }

  lemma OfferingKept(h0: Handle, h: Handle, pin: Pin, r: Record, disk0: Disk, disk: Disk, bound: nat, next: nat,
                     tx: Transaction, strict: bool)
    requires Kept(h0, disk0, bound, tx) && Writable(r, h0, disk0, tx, strict) && h0.record.expected != Encoded(r)
    requires OnlyRetains(h0, h) && Journalled(h0, h, disk0, disk)
    requires disk.Valid() && Kept(h, disk, next, tx) && Settled(h, disk)
    requires RetainsStaged(h, disk, pin, Journal, Encoded(r), PRIVATE_MODE, bound)
    ensures Kept(Offering(h, pin, r), disk, next, tx)
    ensures OfferReady(r, h0, Offering(h, pin, r), disk0, disk, tx, strict)
  {
    hide Kept, AllowedRecord, Fits, Journalled, Agree, Holds;
    RecordInode(h0, disk0, bound, tx);
    FitsRetained(r, h0, h, tx);
    OfferedJournalled(h0, h, pin, r, disk0, disk);
    OfferedKept(h, pin, r, disk, next, tx);
    assert Offering(h, pin, r).(offer := None) == h.(offered := r);
  }

  lemma OfferedJournalled(h0: Handle, h: Handle, pin: Pin, r: Record, disk0: Disk, disk: Disk)
    requires Journalled(h0, h, disk0, disk)
    ensures Journalled(h0, Offering(h, pin, r), disk0, disk)
    ensures disk.active == disk0.active && disk.factory == disk0.factory
  {
  }

  lemma FitsRetained(r: Record, h: Handle, h': Handle, tx: Transaction)
    requires OnlyRetains(h, h') && Fits(r, h, tx)
    ensures Fits(r, h', tx)
  {
    hide ValidRecord, Belongs;
  }

  lemma RecordInode(h: Handle, disk: Disk, next: nat, tx: Transaction)
    requires Kept(h, disk, next, tx)
    ensures h.record.pin.stat.inode < next && h.active.pin.stat.inode < next
  {
  }

  lemma OfferedKept(h: Handle, pin: Pin, r: Record, disk: Disk, next: nat, tx: Transaction)
    requires Kept(h, disk, next, tx) && h.candidate.None? && h.offer.None?
    requires Fits(r, h, tx) && None !in disk.factory.log
    requires h.record.expected != Encoded(r) && (Terminal(h.written.phase) ==> r == h.written)
    requires Retained(h.pins, pin) && pin.place == Journal && pin.name.Sibling?
    requires pin.stat.inode != h.record.pin.stat.inode
    ensures Kept(Offering(h, pin, r), disk, next, tx)
  {
    hide Custodied, ValidRecord, Belongs;
  }

  lemma OfferIsStaged(r: Record, h0: Handle, h: Handle, disk0: Disk, disk: Disk, tx: Transaction, strict: bool)
    requires OfferReady(r, h0, h, disk0, disk, tx, strict)
    ensures h.offer.Some? && h.offer.value.pin.stat.inode in disk.journal.siblings
  {
  }

  /** The rename of an offered record has been attempted. */
  ghost predicate OfferRenamed(r: Record, h0: Handle, h: Handle, disk0: Disk, disk: Disk, moved: bool) {
    Together(
      && disk.Valid()
      && h.offer.Some? && h.offered == r
      && Journalled(h0, h, disk0, disk)
      && Reconcilable(h, disk, h.offer.value, h.record.pin)
      && (moved ==> !Unrenamed(disk.journal, h.offer.value.pin, h.record.pin)))
  }

  lemma RecordRenamed(r: Record, h0: Handle, h: Handle, disk0: Disk, before: Disk, after: Disk, moved: bool, ctime: nat,
                      next: nat, tx: Transaction, strict: bool)
    requires Consistent(before, tx, strict) && Kept(h, before, next, tx) && after.Valid()
    requires OfferReady(r, h0, h, disk0, before, tx, strict)
    requires h.offer.value.pin.stat.inode in before.journal.siblings
    requires after == if moved
      then before.With(Journal, before.journal.Renamed(h.offer.value.pin.stat.inode, ctime)) else before
    ensures Kept(h, after, next, tx) && Consistent(after, tx, strict)
    ensures OfferRenamed(r, h0, h, disk0, after, moved)
  {
    hide Custodied, ValidRecord, Belongs, AllowedRecord;
    DiskKept(h, before, after, next, next, tx);
    OfferFacts(h, before, next, tx);
    OfferReconcilable(h, before, after, next, tx, ctime);
    if moved {
      var entry := after.journal.Entry();
      assert entry.value == before.journal.siblings[h.offer.value.pin.stat.inode].(ctime := ctime);
      forall f | f in before.active.log ensures Allowed(entry, f, tx, strict) {
        assert Allowed(before.journal.Entry(), f, tx, strict);
        assert AllowedRecord(r, f, tx, strict);
      }
      ConsistentRecord(before, after, entry, tx, strict);
    }
  }

  lemma OfferReconcilable(h: Handle, before: Disk, after: Disk, next: nat, tx: Transaction, ctime: nat)
    requires before.Valid() && after.Valid() && Kept(h, before, next, tx)
    requires h.offer.Some? && Settled(h.(offer := None), before)
    requires StagedAs(before.journal, h.offer.value.pin, h.offer.value.content, PRIVATE_MODE)
    requires
      || after == before
      || after == before.With(Journal, before.journal.Renamed(h.offer.value.pin.stat.inode, ctime))
    ensures Reconcilable(h, after, h.offer.value, h.record.pin)
  {
    hide Custodied, ValidRecord, Belongs, Reconcilable, Located;
    OfferFacts(h, before, next, tx);
    RenameReconcilable(h, before, after, next, h.offer.value, h.record.pin, ctime);
  }

  /** A stage is marked as published once its rename has returned. */
  lemma MarkedJournalled(h0: Handle, h: Handle, name: nat, disk0: Disk, disk: Disk, next: nat, tx: Transaction)
    requires disk.Valid() && Journalled(h0, h, disk0, disk) && Kept(h, disk, next, tx)
    ensures
      var h' := h.(stages := Marked(h.stages, name));
      Journalled(h0, h', disk0, disk) && Kept(h', disk, next, tx) && (Settled(h, disk) ==> Settled(h', disk))
  {
    hide Kept;
    StagedKept(h, Marked(h.stages, name), disk, disk, next, tx);
  }

  lemma OfferAttempted(r: Record, h0: Handle, h: Handle, disk0: Disk, disk: Disk, moved: bool)
    requires OfferRenamed(r, h0, h, disk0, disk, moved)
    ensures h.offer.Some? && Reconcilable(h, disk, h.offer.value, h.record.pin)
  {
  }

  lemma OfferDecided(r: Record, h0: Handle, h: Handle, h': Handle, disk0: Disk, disk: Disk, moved: bool,
                     published: bool, s: Status, next: nat, tx: Transaction)
    requires OfferRenamed(r, h0, h, disk0, disk, moved) && Kept(h, disk, next, tx)
    requires OfferOutcome(h, h', disk, published, s)
    ensures Journalled(h0, h', disk0, disk) && h'.direction == h.direction
    ensures published ==> h'.written == r && h'.record.expected == Encoded(r)
    ensures published ==> s == Ok
    ensures moved && s == Ok ==> published
  {
    hide Kept, Renamed, Unrenamed, Reconcilable, Journalled;
    OfferFacts(h, disk, next, tx);
    if published {
      AcceptedJournalled(h0, h, Promoted(disk, h.offer.value.pin), disk.journal.version, disk0, disk);
    } else {
      DroppedJournalled(h0, h, disk0, disk);
    }
  }

  lemma DroppedJournalled(h0: Handle, h: Handle, disk0: Disk, disk: Disk)
    requires Journalled(h0, h, disk0, disk)
    ensures Journalled(h0, h.(offer := None), disk0, disk)
  {
  }

  lemma AcceptedJournalled(h0: Handle, h: Handle, promoted: Pin, version: nat, disk0: Disk, disk: Disk)
    requires Journalled(h0, h, disk0, disk) && h.offer.Some?
    requires Retained(h.pins, h.offer.value.pin) && h.offer.value.pin.place == Journal
    requires Retained(h.pins, h.record.pin) && h.record.pin.place == Journal
    requires promoted.descriptor == h.offer.value.pin.descriptor
    ensures Journalled(h0, h.Accepting(promoted, version), disk0, disk)
  {
  }

  /** The record is in place and is the only one a crash can leave. */
  ghost predicate RecordDurable(r: Record, h: Handle, disk: Disk)
    requires disk.Valid()
  {
    h.written == r && h.record.expected == Encoded(r) && disk.journal.log == [disk.journal.Entry()]
  }

  /** A terminal record is never replaced: at most it is flushed again. */
  ghost predicate Absorbing(h: Handle, h': Handle, disk: Disk, disk': Disk) {
    Together(
      Terminal(h.written.phase) && disk.journal.log != [] ==>
        && h'.written == h.written && h'.record == h.record
        && (disk'.journal.log == disk.journal.log || disk'.journal.log == [disk.journal.Entry()]))
  }

  lemma AbsorbingTwice(h0: Handle, h1: Handle, h2: Handle, disk0: Disk, disk1: Disk, disk2: Disk)
    requires Absorbing(h0, h1, disk0, disk1) && Absorbing(h1, h2, disk1, disk2)
    ensures Absorbing(h0, h2, disk0, disk2)
  {
  }

  lemma AbsorbingSame(h: Handle, h': Handle, before: Disk, after: Disk, place: Place)
    requires h'.written == h.written && h'.record == h.record && before.Valid()
    requires after == before || after == SyncedAt(before, place)
    ensures Absorbing(h, h', before, after)
  {
  }

  lemma NotTerminal(h: Handle, h': Handle, before: Disk, after: Disk)
    requires !Terminal(h.written.phase)
    ensures Absorbing(h, h', before, after)
  {
  }

  lemma TerminalHeld(r: Record, h: Handle, disk: Disk, next: nat, tx: Transaction, strict: bool)
    requires Kept(h, disk, next, tx) && Writable(r, h, disk, tx, strict)
    ensures Terminal(h.written.phase) ==> h.record.expected == Encoded(r)
  {
    hide Fits, Custodied, Belongs;
  }

  lemma HandedNext(handed: seq<Record>, r: Record, h: Handle, disk: Disk, tx: Transaction, strict: bool)
    requires Handed(handed, h.direction, tx) && Writable(r, h, disk, tx, strict)
    ensures Handed(handed + [r], h.direction, tx)
    ensures h.record.expected == Encoded(r) ==> h.written == r
  {
    hide ValidRecord, Belongs;
  }

  lemma SameJournalled(h: Handle, disk: Disk)
    ensures Journalled(h, h, disk, disk)
  {
  }

  lemma SyncedJournalled(h0: Handle, h: Handle, disk0: Disk, before: Disk, after: Disk)
    requires Journalled(h0, h, disk0, before) && before.Valid()
    requires after == before || after == SyncedAt(before, Journal)
    ensures Journalled(h0, h, disk0, after)
  {
  }
}
