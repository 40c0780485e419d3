/** Why each record write and each rename of a publication keeps every possible
    crash within the table. */
module PublicationSteps {
  import opened Basics
  import opened PublicationRecords
  import opened Volumes
  import opened Staging
  import opened Transactions
  import opened Custody
  import opened Handles

  // ----- the records a handle writes -----

  function ForwardPreparedRecord(h: Handle, staged: Identity): Record {
    h.written.(phase := ForwardPrepared, forward := Some(staged), candidate := Some(staged))
  }

  function ForwardPublishedRecord(h: Handle): Record {
    h.written.(phase := ForwardPublished, forward := Some(h.active.pin.stat), candidate := None)
  }

  function ForwardCompletedRecord(h: Handle): Record {
    h.written.(direction := Forward, phase := ForwardCompleted, outcome := Completed(ForwardCompleted),
               forward := Some(h.active.pin.stat), candidate := None, restored := None)
  }

  function ReversePreparedRecord(h: Handle, staged: Identity): Record {
    h.written.(direction := Reverse, phase := ReversePrepared, candidate := Some(staged))
  }

  function ReverseCompletedRecord(h: Handle): Record {
    if h.undoPublished
    then h.written.(direction := Reverse, phase := Restored, outcome := Completed(Restored), candidate := None,
                    restored := Some(h.active.pin.stat))
    else h.written.(direction := Reverse, phase := Aborted, outcome := Completed(Aborted), candidate := None)
  }

  /** The record may be written now: it fits the handle, it fits every possible
      active file, and it does not overwrite anything once the marker may be gone. */
  ghost predicate Writable(record: Record, h: Handle, disk: Disk, tx: Transaction, strict: bool) {
    && Fits(record, h, tx)
    && (forall f | f in disk.active.log :: AllowedRecord(record, f, tx, strict))
    && (None in disk.factory.log ==> h.record.expected == Encoded(record))
    && (h.record.expected == Encoded(record) ==> h.written == record)
    && (Terminal(h.written.phase) ==> record == h.written)
  }

  /** The current entry and active file, as a whole check leaves them known. */
  lemma SettledEntries(h: Handle, disk: Disk, next: nat, tx: Transaction, strict: bool)
    requires Kept(h, disk, next, tx) && Consistent(disk, tx, strict) && Settled(h, disk)
    ensures disk.active.Entry().Some? && Stat(disk.active.Entry().value) == h.active.pin.stat
    ensures disk.active.Entry().value.content == h.active.expected
    ensures disk.journal.Entry().Some? && disk.journal.Entry().value.content == h.record.expected
    ensures Observed(disk.active.Entry().value) == if h.Forwarded() then tx.After() else tx.Before()
    ensures forall f | f in disk.active.log ::
      Allowed(disk.journal.Entry(), f, tx, strict)
  {
  }

  lemma ForwardPreparedWritable(h: Handle, staged: Identity, disk: Disk, next: nat, tx: Transaction, strict: bool)
    requires Kept(h, disk, next, tx) && Consistent(disk, tx, strict) && Settled(h, disk)
    requires h.written.phase == Prepared && h.direction.None? && h.applyUsed
    requires IsImage(staged, tx.replacement, tx)
    ensures Writable(ForwardPreparedRecord(h, staged), h, disk, tx, strict)
  {
    SettledEntries(h, disk, next, tx, strict);
    var record := ForwardPreparedRecord(h, staged);
    forall f | f in disk.active.log ensures AllowedRecord(record, f, tx, strict) {
      assert Allowed(disk.journal.Entry(), f, tx, strict);
    }
  }

  lemma ForwardPublishedWritable(h: Handle, disk: Disk, next: nat, tx: Transaction, strict: bool)
    requires Kept(h, disk, next, tx) && Consistent(disk, tx, strict) && Settled(h, disk)
    requires h.written.phase == ForwardPrepared && h.direction.None? && h.Forwarded()
    requires disk.active.log == [disk.active.Entry()]
    ensures Writable(ForwardPublishedRecord(h), h, disk, tx, strict)
  {
    SettledEntries(h, disk, next, tx, strict);
  }

  lemma ForwardCompletedWritable(h: Handle, disk: Disk, next: nat, tx: Transaction, strict: bool)
    requires Kept(h, disk, next, tx) && Consistent(disk, tx, strict) && Settled(h, disk)
    requires h.direction == Some(Forward) && h.Forwarded()
    requires disk.active.log == [disk.active.Entry()]
    ensures Writable(ForwardCompletedRecord(h), h, disk, tx, strict)
  {
    SettledEntries(h, disk, next, tx, strict);
  }

  lemma ReversePreparedWritable(h: Handle, staged: Identity, disk: Disk, next: nat, tx: Transaction, strict: bool)
    requires Kept(h, disk, next, tx) && Consistent(disk, tx, strict) && Settled(h, disk)
    requires h.direction == Some(Reverse) && h.Forwarded()
    requires IsImage(staged, tx.original, tx)
    requires strict ==> ReverseReady(h, disk)
    ensures Writable(ReversePreparedRecord(h, staged), h, disk, tx, strict)
  {
    SettledEntries(h, disk, next, tx, strict);
    var record := ReversePreparedRecord(h, staged);
    forall f | f in disk.active.log ensures AllowedRecord(record, f, tx, strict) {
      assert Allowed(disk.journal.Entry(), f, tx, strict);
    }
  }

  lemma ReverseCompletedWritable(h: Handle, disk: Disk, next: nat, tx: Transaction, strict: bool)
    requires Kept(h, disk, next, tx) && Consistent(disk, tx, strict) && Settled(h, disk)
    requires h.direction == Some(Reverse) && !h.Forwarded()
    requires disk.active.log == [disk.active.Entry()]
    ensures Writable(ReverseCompletedRecord(h), h, disk, tx, strict)
  {
    SettledEntries(h, disk, next, tx, strict);
  }

  // ----- exactly when a reverse record can be resolved -----

  /** The directories once a record is durable and nothing is staged beside it. */
  ghost function Recorded(disk: Disk, entry: File): Disk {
    disk.(journal := Dir([Some(entry)], map[], {}, disk.journal.version))
  }

  /** Some direction resolves a durable reverse record at every crash exactly when
      every active file a crash could bring back is the recorded forward file. A
      staged inode that was never linked before cannot be confused with either. */
  lemma {:induction false} ReverseWindowExact(
    h: Handle, staged: Identity, entry: File, disk: Disk, next: nat, tx: Transaction)
    requires Kept(h, disk, next, tx) && Consistent(disk, tx, false) && Settled(h, disk)
    requires h.direction == Some(Reverse) && h.Forwarded() && tx.Before() != tx.After() && None !in disk.factory.log
    requires IsImage(staged, tx.original, tx)
    requires forall f: Option<File> | f in disk.active.log && f.Some? :: f.value.inode != staged.inode
    requires entry.content == Encoded(ReversePreparedRecord(h, staged)) && entry.durable
    ensures ReverseReady(h, disk) <==>
      forall c | AfterCrash(Recorded(disk, entry), c) :: Resolvable(c, tx)
  {
    SettledEntries(h, disk, next, tx, false);
    var record := ReversePreparedRecord(h, staged);
    ReversePreparedWritable(h, staged, disk, next, tx, false);
    if ReverseReady(h, disk) {
      forall c | AfterCrash(Recorded(disk, entry), c) ensures Resolvable(c, tx) {
        ReadyResolves(h, record, entry, disk, c, next, tx);
      }
    } else {
      var f := UnreadyFile(h, staged, disk, next, tx);
      var c := Disk(
        Dir([f], map[], {}, 0), Dir([Some(entry)], map[], {}, 0), Dir([disk.factory.Entry()], map[], {}, 0));
      assert SurvivesAs(f, c.active.log[0]) && SurvivesAs(Some(entry), c.journal.log[0]);
      assert SurvivesAs(disk.factory.Entry(), c.factory.log[0]);
      assert AfterCrash(Recorded(disk, entry), c);
      assert !Resolvable(c, tx);
    }
  }

  lemma ReadyResolves(h: Handle, record: Record, entry: File, disk: Disk, c: Disk, next: nat, tx: Transaction)
    requires Kept(h, disk, next, tx) && Consistent(disk, tx, false) && Settled(h, disk) && ReverseReady(h, disk)
    requires h.Forwarded() && None !in disk.factory.log
    requires entry.durable && entry.content == Encoded(record) && AfterCrash(Recorded(disk, entry), c)
    requires Belongs(record, tx) && ValidRecord(record, tx.Before()) && record.phase == ReversePrepared
    requires record.forward == h.written.forward && tx.Before() != tx.After()
    ensures Resolvable(c, tx)
  {
    SettledEntries(h, disk, next, tx, false);
    var a :| a in disk.active.log && SurvivesAs(a, c.active.log[0]);
    var j :| j in Recorded(disk, entry).journal.log && SurvivesAs(j, c.journal.log[0]);
    var p :| p in disk.factory.log && SurvivesAs(p, c.factory.log[0]);
    assert Allowed(disk.journal.Entry(), a, tx, false);
    assert ObserveInterrupted(c, RequestFor(tx, Reverse), tx.Before()).Some?;
  }

  lemma UnreadyFile(h: Handle, staged: Identity, disk: Disk, next: nat, tx: Transaction) returns (f: Option<File>)
    requires Kept(h, disk, next, tx) && Consistent(disk, tx, false) && Settled(h, disk) && !ReverseReady(h, disk)
    requires h.direction == Some(Reverse) && h.Forwarded() && tx.Before() != tx.After()
    requires forall f: Option<File> | f in disk.active.log && f.Some? :: f.value.inode != staged.inode
    ensures f in disk.active.log && f.Some?
    ensures !Eligible(ReversePreparedRecord(h, staged), Stat(f.value), Observed(f.value))
  {
    SettledEntries(h, disk, next, tx, false);
    f := disk.active.Entry();
    if h.written.forward == Some(h.active.pin.stat) {
      f :| f in disk.active.log && f != disk.active.Entry();
      assert Allowed(disk.journal.Entry(), f, tx, false);
      assert Allowed(disk.journal.Entry(), disk.active.Entry(), tx, false);
    }
  }

  // ----- the files it publishes -----

  /** A staged file under its published name, whatever its change time became. */
  predicate PublishedAs(file: File, staged: File) {
    file == staged.(ctime := file.ctime)
  }

  lemma ForwardRenameAllowed(staged: File, file: File, record: Record, disk: Disk, tx: Transaction, strict: bool)
    requires PublishedAs(file, staged) && staged.durable
    requires staged.content == Raw(tx.replacement) && IsImage(Stat(staged), tx.replacement, tx)
    requires record.phase == ForwardPrepared && Belongs(record, tx) && ValidRecord(record, tx.Before())
    requires record.forward == Some(Stat(staged)) && record.candidate == Some(Stat(staged))
    ensures AllowedRecord(record, Some(file), tx, strict)
  {
  }

  lemma ReverseRenameAllowed(staged: File, file: File, record: Record, disk: Disk, tx: Transaction, strict: bool)
    requires PublishedAs(file, staged) && staged.durable
    requires staged.content == Raw(tx.original) && IsImage(Stat(staged), tx.original, tx)
    requires record.phase == ReversePrepared && Belongs(record, tx) && ValidRecord(record, tx.Before())
    requires record.candidate == Some(Stat(staged))
    ensures AllowedRecord(record, Some(file), tx, strict)
  {
  }

  // ----- reconciling without faults -----

  /** Right after a rename, or after none, reconciliation can only fail with an
      operation: every other pin still agrees with the directory. */
  lemma RenameReconcilable(h: Handle, before: Disk, after: Disk, next: nat, c: Candidate, prior: Pin, ctime: nat)
    requires before.Valid() && after.Valid() && PinsKept(h, next)
    requires Intact(before, h.pins, h.seen, h.active, h.record, h.Watch())
    requires Retained(h.pins, c.pin) && c.pin.name == Sibling(c.pin.stat.inode)
    requires Holds(before, Held(c.pin, c.content))
    requires (c.pin.place == Active && prior == h.active.pin) || (c.pin.place == Journal && prior == h.record.pin)
    requires
      || after == before
      || after == before.With(c.pin.place, before.At(c.pin.place).Renamed(c.pin.stat.inode, ctime))
    ensures Reconcilable(h, after, c, prior)
  {
    if after != before { RenamePromotes(h, before, after, next, c, prior, ctime); }
  }

  lemma RenamePromotes(h: Handle, before: Disk, after: Disk, next: nat, c: Candidate, prior: Pin, ctime: nat)
    requires before.Valid() && after.Valid() && PinsKept(h, next)
    requires Intact(before, h.pins, h.seen, h.active, h.record, h.Watch())
    requires Retained(h.pins, c.pin) && c.pin.name == Sibling(c.pin.stat.inode)
    requires Holds(before, Held(c.pin, c.content))
    requires (c.pin.place == Active && prior == h.active.pin) || (c.pin.place == Journal && prior == h.record.pin)
    requires Located(before, c.pin)
    requires after == before.With(c.pin.place, before.At(c.pin.place).Renamed(c.pin.stat.inode, ctime))
    ensures Renamed(after.At(c.pin.place), c.pin) && PromotedIntact(h, after, c, prior)
  {
    RenamedEntry(before, after, c, ctime);
    hide Renamed, Inode, Stat;
    var promoted := Promoted(after, c.pin);
    var h' := h.Promoting(prior, promoted, after.At(c.pin.place).version);
    forall d | d in h'.pins ensures Located(after, h'.pins[d]) {
      if d == promoted.descriptor {
      } else {
        assert Located(before, h.pins[d]);
        LocatedElsewhere(before, after, c.pin, ctime, h.pins[d]);
      }
    }
    if h.Watch().Some? { LocatedElsewhere(before, after, c.pin, ctime, h.Watch().value); }
    if c.pin.place == Active { HoldsElsewhere(before, after, c.pin, ctime, h.record); }
    else { HoldsElsewhere(before, after, c.pin, ctime, h.active); }
  }

  lemma RenamedEntry(before: Disk, after: Disk, c: Candidate, ctime: nat)
    requires before.Valid() && after.Valid()
    requires c.pin.name == Sibling(c.pin.stat.inode) && Located(before, c.pin)
    requires Holds(before, Held(c.pin, c.content))
    requires after == before.With(c.pin.place, before.At(c.pin.place).Renamed(c.pin.stat.inode, ctime))
    ensures Renamed(after.At(c.pin.place), c.pin)
    ensures Located(after, Promoted(after, c.pin)) && Holds(after, Held(Promoted(after, c.pin), c.content))
  {
  }

  lemma LocatedElsewhere(before: Disk, after: Disk, staged: Pin, ctime: nat, pin: Pin)
    requires before.Valid() && after.Valid() && Located(before, pin)
    requires staged.stat.inode in before.At(staged.place).siblings
    requires pin.place != staged.place || (pin.name.Sibling? && pin.name.inode != staged.stat.inode)
    requires after == before.With(staged.place, before.At(staged.place).Renamed(staged.stat.inode, ctime))
    ensures Located(after, pin)
  {
  }

  lemma HoldsElsewhere(before: Disk, after: Disk, staged: Pin, ctime: nat, held: Held)
    requires before.Valid() && after.Valid() && Holds(before, held)
    requires staged.stat.inode in before.At(staged.place).siblings
    requires held.pin.place != staged.place
    requires after == before.With(staged.place, before.At(staged.place).Renamed(staged.stat.inode, ctime))
    ensures Holds(after, held)
  {
  }

  /** The published name denotes the candidate. */
  ghost function Promoted(disk: Disk, candidate: Pin): Pin
    requires disk.Valid() && Renamed(disk.At(candidate.place), candidate)
  {
    candidate.(name := Published, stat := Stat(disk.At(candidate.place).Entry().value))
  }

  /** A reconciliation that only a failing operation can stop. */
  ghost predicate Reconcilable(h: Handle, disk: Disk, c: Candidate, prior: Pin)
    requires disk.Valid()
  {
    var dir := disk.At(c.pin.place);
    || (&& Unrenamed(dir, c.pin, prior)
        && Intact(disk, h.pins, h.seen, h.active, h.record, h.Watch())
        && Holds(disk, Held(c.pin, c.content)))
    || (&& Renamed(dir, c.pin)
        && PromotedIntact(h, disk, c, prior))
  }

  /** The whole check, through the view in which the candidate is published. */
  ghost predicate PromotedIntact(h: Handle, disk: Disk, c: Candidate, prior: Pin)
    requires disk.Valid() && Renamed(disk.At(c.pin.place), c.pin)
  {
    var promoted := Promoted(disk, c.pin);
    var h' := h.Promoting(prior, promoted, disk.At(c.pin.place).version);
    Intact(disk, h'.pins, h'.seen, h.Selected(c.pin.place, Held(promoted, c.content)),
           h.Entered(c.pin.place, Held(promoted, c.content)), h.Watch())
  }

  // ----- staging and syncing without faults -----

  /** Readers see the same names and siblings, and perhaps more siblings. */
  ghost predicate Extends(before: Dir, after: Dir)
    requires before.log != [] && after.log != []
  {
    && after.Entry() == before.Entry()
    && forall n | n in before.siblings :: n in after.siblings && after.siblings[n] == before.siblings[n]
  }

  lemma IntactExtended(h: Handle, seen: Seen, before: Disk, after: Disk)
    requires before.Valid() && after.Valid()
    requires forall p: Place :: Extends(before.At(p), after.At(p))
    requires Intact(before, h.pins, h.seen, h.active, h.record, h.Watch())
    requires Agree(before, h.pins, h.seen) && Current(after, seen)
    requires h.active.pin.descriptor in h.pins && h.pins[h.active.pin.descriptor] == h.active.pin
    requires h.record.pin.descriptor in h.pins && h.pins[h.record.pin.descriptor] == h.record.pin
    ensures Intact(after, h.pins, seen, h.active, h.record, h.Watch())
  {
    forall d | d in h.pins ensures Located(after, h.pins[d]) {
      LocatedExtended(before, after, h.pins[d]);
    }
    if h.Watch().Some? { LocatedExtended(before, after, h.Watch().value); }
    HoldsExtended(before, after, h.active);
    HoldsExtended(before, after, h.record);
  }

  lemma LocatedExtended(before: Disk, after: Disk, pin: Pin)
    requires before.Valid() && after.Valid() && Located(before, pin)
    requires Extends(before.At(pin.place), after.At(pin.place))
    ensures Located(after, pin)
  {
  }

  lemma HoldsExtended(before: Disk, after: Disk, held: Held)
    requires before.Valid() && after.Valid() && Holds(before, held)
    requires Extends(before.At(held.pin.place), after.At(held.pin.place))
    ensures Holds(after, held)
  {
  }

  lemma PreparedSettled(h: Handle, pin: Pin, before: Disk, after: Disk, next: nat)
    requires before.Valid() && after.Valid() && PinsKept(h, next) && Settled(h, before)
    requires after == before.With(pin.place, after.At(pin.place))
    requires Extends(before.At(pin.place), after.At(pin.place))
    requires Located(after, pin) && pin.descriptor == h.issued && h.issued !in h.pins
    ensures Settled(h.Retaining(pin).(seen := h.seen.With(pin.place, after.At(pin.place).version)), after)
  {
    var seen := h.seen.With(pin.place, after.At(pin.place).version);
    assert Current(after, seen);
    IntactExtended(h, seen, before, after);
    hide Located, Holds;
  }

  lemma RetainedSettled(h: Handle, pin: Pin, before: Disk, after: Disk, next: nat, tx: Transaction)
    requires before.Valid() && after.Valid() && Kept(h, after, next, tx) && Settled(h, before)
    requires OnlyAdds(before, after, pin.place)
    requires Located(after, pin) && pin.descriptor == h.issued
    ensures
      var h' := h.(seen := h.seen.With(pin.place, after.At(pin.place).version)).Retaining(pin);
      Settled(h', after) && Agree(after, h'.pins, h'.seen)
  {
    hide Custodied, ValidRecord, Belongs, Fits, RolesKept, RecordKept, FinalKept, CandidateKept, OfferKept, Located,
         Holds;
    CustodyIssued(h.pins.Keys, h.detached, h.released, h.issued);
    PreparedSettled(h, pin, before, after, next);
  }

  /** Syncing a directory changes nothing a reader can see. */
  lemma SyncedSettled(h: Handle, place: Place, disk: Disk, next: nat)
    requires disk.Valid() && disk.With(place, disk.At(place).Synced()).Valid()
    requires PinsKept(h, next) && Settled(h, disk)
    ensures Settled(h, disk.With(place, disk.At(place).Synced()))
  {
    IntactExtended(h, h.seen, disk, disk.With(place, disk.At(place).Synced()));
  }

  lemma FlushedAlready(dir: Dir)
    requires dir.Valid() && dir.Entry().Some? && dir.Entry().value.durable
    ensures dir.Flushed() == dir
  {
    assert dir.log[|dir.log| - 1 := dir.Entry()] == dir.log;
  }
}
