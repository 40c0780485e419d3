/** The live durable publication: apply, finish, restore and close, with every
    journal write, rename and sync between them. */
module Publications {
  import opened Basics
  import opened PublicationRecords
  import opened Volumes
  import opened Staging
  import opened Transactions
  import opened Custody
  import opened Handles
  import opened PublicationSteps
  import opened StageRetention
  import opened RecordWrites
  import opened ImagePublication
  import opened Completion
  import opened Outcomes

  class Publication {
    const volume: Volume
    const tx: Transaction
    var h: Handle

    /** Every record handed to a record write, in order. */
    ghost var handed: seq<Record>

    constructor Open(volume: Volume, tx: Transaction, h: Handle)
      ensures this.volume == volume && this.tx == tx && this.h == h && handed == []
    {
      this.volume, this.tx, this.h, handed := volume, tx, h, [];
    }

    ghost predicate Valid()
      reads this, volume`disk, volume`next, volume`visited
    {
      volume.Valid() && volume.disk.Valid() && Kept(h, volume.disk, volume.next, tx)
    }

    ghost predicate Calm()
      reads this, volume`disk
    {
      volume.disk.Valid() && Settled(h, volume.disk)
    }

    /** `Valid`, and every disk there has been is consistent. */
    ghost predicate Sound(strict: bool)
      reads this, volume`disk, volume`next, volume`visited
    {
      Valid() && Safe(volume.visited, tx, strict) && Handed(handed, h.direction, tx)
    }

    method CheckState(view: Handle, selected: Held, entry: Held) returns (s: Status)
      requires volume.Valid()
      modifies volume`faults, volume`halted
      ensures volume.faults >= old(volume.faults)
      ensures s == Ok ==> Intact(volume.disk, view.pins, view.seen, selected, entry, view.Watch())
      ensures s == Ok || volume.faults > old(volume.faults)
           || !Intact(volume.disk, view.pins, view.seen, selected, entry, view.Watch())
    {
      hide Intact, Volume.Valid;
      s := CheckImages(volume, view.pins, view.seen, selected, entry, view.Watch());
    }

    /** Decides an attempted rename from the directory alone. The promotion itself
        follows only after a whole check through the promoted view. */
    method ReconcileImage(c: Candidate, prior: Pin) returns (published: bool, promoted: Pin, s: Status)
      requires volume.Valid()
      requires c.pin.stat.inode != prior.stat.inode && c.pin.place == prior.place
      modifies volume`faults, volume`halted
      ensures volume.faults >= old(volume.faults)
      ensures s == Ok && !published ==>
        && Unrenamed(volume.disk.At(c.pin.place), c.pin, prior)
        && Intact(volume.disk, h.pins, h.seen, h.active, h.record, h.Watch())
      ensures published ==>
        && s == Ok
        && Renamed(volume.disk.At(c.pin.place), c.pin)
        && promoted == Promoted(volume.disk, c.pin)
        && PromotedIntact(h, volume.disk, c, prior)
      ensures Reconcilable(h, volume.disk, c, prior) && volume.faults == old(volume.faults) ==> s == Ok
    {
      hide Intact, Holds;
      var stat;
      published, stat, s := Locate(volume, c.pin, prior);
      promoted := c.pin.(name := Published, stat := stat);
      if s != Ok { published := false; return; }
      if !published {
        // An unrenamed attempt may abort only with both old and staging pins intact.
        s := CheckState(h, h.active, h.record);
        if s != Ok { return; }
        s := CheckBytes(volume, Held(c.pin, c.content));
        return;
      }
      published := false;
      var failed := volume.Fails();
      if failed { s := Operational; return; }
      var view := h.Promoting(prior, promoted, volume.disk.At(c.pin.place).version);
      s := CheckState(view, h.Selected(c.pin.place, Held(promoted, c.content)),
                      h.Entered(c.pin.place, Held(promoted, c.content)));
      published := s == Ok;
    }

    /** Promotes the active candidate exactly when the active name denotes it. */
    method Reconcile() returns (published: bool, s: Status)
      requires Valid() && h.candidate.Some?
      modifies this`h, volume`faults, volume`halted
      ensures Valid() && volume.faults >= old(volume.faults)
      ensures s == Ok ==> Calm()
      ensures CandidateOutcome(old(h), h, volume.disk, published, s)
      ensures volume.faults == old(volume.faults) ==>
        Reconcilable(old(h), volume.disk, old(h).candidate.value, old(h).active.pin) ==> s == Ok
    {
      hide Kept, Intact, Unrenamed, Volume.Valid;
      CandidateFacts(h, volume.disk, volume.next, tx);
      var c := h.candidate.value;
      var promoted;
      published, promoted, s := ReconcileImage(c, h.active.pin);
      if s != Ok { return; }
      if published {
        AdoptKept(h, promoted, volume.disk.active.version, volume.disk, volume.next, tx);
        h := h.Adopting(promoted, volume.disk.active.version);
      } else {
        h := h.(candidate := None);
      }
    }

    /** Promotes the offered record exactly when the record name denotes it. */
    method ReconcileJournal() returns (published: bool, s: Status)
      requires Valid() && h.offer.Some?
      modifies this`h, volume`faults, volume`halted
      ensures Valid() && volume.faults >= old(volume.faults)
      ensures s == Ok ==> Calm()
      ensures OfferOutcome(old(h), h, volume.disk, published, s)
      ensures volume.faults == old(volume.faults) ==>
        Reconcilable(old(h), volume.disk, old(h).offer.value, old(h).record.pin) ==> s == Ok
    {
      hide Kept, Intact, Unrenamed, Volume.Valid;
      OfferFacts(h, volume.disk, volume.next, tx);
      var c := h.offer.value;
      var promoted;
      published, promoted, s := ReconcileImage(c, h.record.pin);
      if s != Ok { return; }
      if published {
        AcceptKept(h, promoted, volume.disk.journal.version, volume.disk, volume.next, tx);
        h := h.Accepting(promoted, volume.disk.journal.version);
      } else {
        h := h.(offer := None);
      }
    }

    /** Settles anything uncertain, then checks every pin and owned byte. */
    method Check() returns (s: Status)
      requires Valid()
      modifies this`h, volume`faults, volume`halted
      ensures Valid() && volume.faults >= old(volume.faults)
      ensures s == Ok ==> Calm()
      ensures CheckedCourse(old(h), h)
      ensures old(h).candidate.None? && old(h).offer.None? ==> h == old(h)
      ensures old(Calm()) && volume.faults == old(volume.faults) ==> s == Ok
    {
      hide Kept, Intact, Volume.Valid, OfferOutcome, CandidateOutcome;
      if h.offer.Some? {
        OfferFacts(h, volume.disk, volume.next, tx);
        ghost var h0 := h;
        var published, journalled := ReconcileJournal();
        OfferCourse(h0, h, volume.disk, published, journalled, volume.next, tx);
        if journalled != Ok { return journalled; }
      }
      if h.candidate.Some? {
        ghost var h0 := h;
        var published, placed := Reconcile();
        CandidateCourse(h0, h, volume.disk, published, placed);
        if placed != Ok { return placed; }
      }
      s := CheckState(h, h.active, h.record);
    }

    /** Flushes a published file; under consistency its bytes are durable already. */
    method SyncFile(place: Place, ghost strict: bool) returns (s: Status)
      requires Sound(strict) && place != Factory
      modifies volume`disk, volume`visited, volume`faults, volume`halted
      ensures Sound(strict) && volume.faults >= old(volume.faults)
      ensures volume.disk == old(volume.disk) && volume.visited == old(volume.visited)
      ensures old(Calm()) && volume.faults == old(volume.faults) ==> s == Ok
    {
      hide Kept, Agree, Consistent, Below;
      s := CheckPins(volume, h.pins, h.seen);
      if s != Ok { return; }
      FlushedFile(volume.disk, h, place, volume.next, tx, strict);
      var ok := volume.SyncPublished(place);
      if !ok { return Operational; }
      s := CheckPins(volume, h.pins, h.seen);
    }

    /** Flushes a directory: its current names become the only possible ones. */
    method SyncParent(place: Place, ghost strict: bool) returns (s: Status)
      requires Sound(strict)
      modifies volume`disk, volume`visited, volume`faults, volume`halted
      ensures Sound(strict) && volume.faults >= old(volume.faults)
      ensures volume.disk == old(volume.disk) || volume.disk == SyncedAt(old(volume.disk), place)
      ensures s == Ok ==> volume.disk == SyncedAt(old(volume.disk), place)
      ensures old(Calm()) ==> Calm()
      ensures old(Calm()) && volume.faults == old(volume.faults) ==> s == Ok
    {
      hide Kept, Agree, Consistent;
      s := CheckPins(volume, h.pins, h.seen);
      if s != Ok { return; }
      SyncedFacts(volume.disk, h, place, volume.next, tx, strict);
      var ok := volume.SyncDirectory(place);
      if !ok { return Operational; }
      s := CheckPins(volume, h.pins, h.seen);
    }

    // ----- the public operations -----

    /** What holds between any two calls, whatever has failed. A closed handle owns
        no descriptor any more. */
    ghost predicate Live(strict: bool)
      reads this, volume`disk, volume`next, volume`visited
    {
      && volume.Valid() && volume.disk.Valid()
      && Safe(volume.visited, tx, strict) && Handed(handed, h.direction, tx)
      && (if h.closed then Released(h) else Kept(h, volume.disk, volume.next, tx) && h.record.expected.Encoded?)
    }

    method Failed(s: Status)
      requires Valid() && volume.disk.Valid()
      modifies this`h
      ensures Valid() && Reported(old(h), h) && h.lastError == s && h.finished == old(h).finished
      ensures old(Calm()) ==> Calm()
    {
      hide Kept, Intact;
      OtherKept(h, h.(lastError := s), volume.disk, volume.next, tx);
      h := h.(lastError := s);
    }

    /** Publishes once; an error never triggers an implicit reversal. */
    method Apply(ghost strict: bool) returns (s: Status)
      requires Live(strict)
      modifies this, volume
      ensures Live(strict) && volume.faults >= old(volume.faults)
      ensures h.direction == old(h).direction && h.closed == old(h).closed && h.finished == old(h).finished
      ensures !Appliable(old(h)) ==> s == Conflict && h == old(h) && volume.disk == old(volume.disk)
      ensures s == Ok ==> Calm() && ImageDurable(false, h, volume.disk)
      ensures old(Calm()) && Appliable(old(h)) && volume.faults == old(volume.faults) ==> s == Ok
      ensures Lasting(old(volume.disk), volume.disk)
    {
      hide Kept, Settled, Safe, Handed, Publishable, Released, ImageDurable, FinalRecord;
      if h.closed || h.finished || h.applyUsed || h.direction.Some? { return Conflict; }
      s := Check();
      if s == Ok {
        OutcomeKnown(h, volume.disk, volume.next, tx);
        AppliedKept(h, volume.disk, volume.next, tx, strict);
        h := h.(applyUsed := true);
        s := Publish(false, strict);
        CommittedEncoded(h, volume.disk, volume.next, tx);
      }
      if s != Ok { Failed(s); }
    }

    /** Completes in the reverse direction, undoing an owned forward image first. */
    method Restore(ghost strict: bool) returns (s: Status)
      requires Live(strict) && (strict && Restorable(h) ==> ReverseReady(h, volume.disk))
      modifies this, volume
      ensures Live(strict) && volume.faults >= old(volume.faults)
      ensures h.closed == old(h).closed && (old(h).direction.Some? ==> h.direction == old(h).direction)
      ensures !Restorable(old(h)) ==> s == Conflict && h == old(h) && volume.disk == old(volume.disk)
      ensures Absorbing(old(h), h, old(volume.disk), volume.disk) && Lasting(old(volume.disk), volume.disk)
      ensures s == Ok ==> Calm() && h.direction == Some(Reverse) && Concluded(h, volume.disk, tx)
      ensures old(Calm()) && Restorable(old(h)) && volume.faults == old(volume.faults) ==> s == Ok
    {
      hide Kept, Settled, Safe, Handed, Released, Concluded, ReverseReady, Absorbing, FinalRecord;
      ghost var h0, disk0 := h, volume.disk;
      AbsorbingSame(h0, h0, disk0, disk0, Active);
      if h.closed || h.finished || h.direction == Some(Forward) { return Conflict; }
      s := Reversing(strict);
      ghost var h1, disk1 := h, volume.disk;
      Report(s, true, strict);
      AbsorbingTwice(h0, h1, h, disk0, disk1, disk1);
    }

    /** Checks what is retained, then decides for the reverse direction. */
    method LatchReverse(ghost strict: bool) returns (s: Status)
      requires Sound(strict) && Restorable(h) && h.record.expected.Encoded?
      requires strict ==> ReverseReady(h, volume.disk)
      modifies this, volume
      ensures Sound(strict) && h.record.expected.Encoded? && volume.faults >= old(volume.faults)
      ensures volume.disk == old(volume.disk)
      ensures h.closed == old(h).closed && (old(h).direction.Some? ==> h.direction == old(h).direction)
      ensures Terminal(old(h).written.phase) ==> h.written == old(h).written && h.record == old(h).record
      ensures s == Ok ==> Calm() && h.direction == Some(Reverse)
      ensures s == Ok && h.Forwarded() ==> Publishable(true, h, volume.disk, strict)
      ensures s == Ok && (Terminal(old(h).written.phase) || FinalRecord(volume.disk).Some?) ==> !h.Forwarded()
      ensures old(Calm()) && volume.faults == old(volume.faults) ==> s == Ok
    {
      hide Kept, Settled, Safe, Handed, Publishable, ReverseReady, Below, FinalRecord;
      ghost var disk0 := volume.disk;
      ReadyNow(h, disk0);
      TerminalCertain(h, disk0, volume.next, tx);
      s := Check();
      if s != Ok { return; }
      ReverseLatched(h, handed, disk0, volume.next, tx, strict);
      h := h.(direction := Some(Reverse));
    }

    method Reversing(ghost strict: bool) returns (s: Status)
      requires Sound(strict) && Restorable(h) && h.record.expected.Encoded?
      requires strict ==> ReverseReady(h, volume.disk)
      modifies this, volume
      ensures Sound(strict) && h.record.expected.Encoded? && volume.faults >= old(volume.faults)
      ensures h.closed == old(h).closed && (old(h).direction.Some? ==> h.direction == old(h).direction)
      ensures Absorbing(old(h), h, old(volume.disk), volume.disk) && Lasting(old(volume.disk), volume.disk)
      ensures s == Ok ==> Calm() && h.direction == Some(Reverse) && Concluded(h, volume.disk, tx)
      ensures old(Calm()) && volume.faults == old(volume.faults) ==> s == Ok
    {
      hide Kept, Settled, Safe, Handed, Publishable, Concluded, ReverseReady, Absorbing, Below, FinalRecord;
      ghost var h0, disk0 := h, volume.disk;
      s := LatchReverse(strict);
      CheckedAbsorbing(h0, h, disk0);
      if s != Ok { return; }
      ghost var h1 := h;
      s := UndoImage(strict);
      UndoneAbsorbing(h0, h1, h, disk0, volume.disk);
      UndoneLasts(h1, h, disk0, volume.disk);
      CommittedEncoded(h, volume.disk, volume.next, tx);
      if s != Ok { return; }
      ghost var h2, disk2 := h, volume.disk;
      OutcomeKnown(h2, disk2, volume.next, tx);
      s := Conclude(Reverse, strict);
      AbsorbingTwice(h0, h2, h, disk0, disk2, volume.disk);
      AbsorbingLasts(h2, h, disk2, volume.disk);
      LastingOn(disk0, disk2, volume.disk);
      CommittedEncoded(h, volume.disk, volume.next, tx);
    }

    /** Puts the original back unless it is there already. */
    method UndoImage(ghost strict: bool) returns (s: Status)
      requires Sound(strict) && Calm() && h.direction == Some(Reverse)
      requires h.Forwarded() ==> Publishable(true, h, volume.disk, strict)
      modifies this, volume
      ensures Sound(strict) && volume.faults >= old(volume.faults)
      ensures SameCourse(old(h), h)
      ensures !old(h).Forwarded() ==> h == old(h) && volume.disk == old(volume.disk)
      ensures s == Ok ==> Calm() && !h.Forwarded()
      ensures volume.faults == old(volume.faults) ==> s == Ok
    {
      hide Kept, Settled, Safe, Handed, Publishable;
      s := Ok;
      SettledNow(h, volume.disk);
      if h.Forwarded() { s := Publish(true, strict); }
      if s == Ok {
        SettledNow(h, volume.disk);
        s := Check();
      }
    }

    /** Completes the owned forward image. An invalid call latches no direction. */
    method Finish(ghost strict: bool) returns (s: Status)
      requires Live(strict)
      modifies this, volume
      ensures Live(strict) && volume.faults >= old(volume.faults)
      ensures h.closed == old(h).closed && (old(h).direction.Some? ==> h.direction == old(h).direction)
      ensures !Finishable(old(h)) ==> s == Conflict && h == old(h) && volume.disk == old(volume.disk)
      ensures Absorbing(old(h), h, old(volume.disk), volume.disk) && Lasting(old(volume.disk), volume.disk)
      ensures s == Ok ==> Calm() && h.direction == Some(Forward) && Concluded(h, volume.disk, tx)
      ensures old(Calm()) && Finishable(old(h)) && volume.faults == old(volume.faults) ==>
        (s == Ok <==> old(h).Forwarded())
      ensures old(Calm()) && !old(h).Forwarded() ==> h.direction == old(h).direction && volume.disk == old(volume.disk)
      ensures old(Calm()) && !old(h).Forwarded() && volume.faults == old(volume.faults) ==> h == old(h)
    {
      hide Kept, Settled, Safe, Handed, Released, Concluded, Absorbing, FinalRecord;
      ghost var h0, disk0 := h, volume.disk;
      AbsorbingSame(h0, h0, disk0, disk0, Active);
      if h.closed || h.finished || h.direction == Some(Reverse) { return Conflict; }
      var owned;
      s, owned := Finishing(strict);
      ghost var h1, disk1 := h, volume.disk;
      Report(s, owned, strict);
      AbsorbingTwice(h0, h1, h, disk0, disk1, disk1);
    }

    /** Keeps the result of a completion; one that latched nothing leaves no trace. */
    method Report(s: Status, owned: bool, ghost strict: bool)
      requires Sound(strict) && (s == Ok ==> Calm() && Concluded(h, volume.disk, tx))
      modifies this`h
      ensures Sound(strict) && Reported(old(h), h)
      ensures Absorbing(old(h), h, volume.disk, volume.disk)
      ensures s == Ok ==> Calm() && Concluded(h, volume.disk, tx)
      ensures s != Ok && !owned ==> h == old(h)
    {
      hide Kept, Settled, Safe, Handed, Concluded, Absorbing;
      ghost var h0 := h;
      if s == Ok { Finished(); } else if owned { Failed(s); }
      ReportedAbsorbing(h0, h, volume.disk);
    }

    method Finishing(ghost strict: bool) returns (s: Status, owned: bool)
      requires Sound(strict) && Finishable(h) && h.record.expected.Encoded?
      modifies this, volume
      ensures Sound(strict) && h.record.expected.Encoded? && volume.faults >= old(volume.faults)
      ensures h.closed == old(h).closed && (old(h).direction.Some? ==> h.direction == old(h).direction)
      ensures Absorbing(old(h), h, old(volume.disk), volume.disk)
      ensures s == Ok ==> Calm() && h.direction == Some(Forward) && Concluded(h, volume.disk, tx)
      ensures old(Calm()) && volume.faults == old(volume.faults) ==> (s == Ok <==> old(h).Forwarded())
      ensures old(Calm()) && !old(h).Forwarded() ==> h == old(h) && volume.disk == old(volume.disk)
      ensures old(Calm()) && !old(h).Forwarded() && volume.faults == old(volume.faults) ==> !owned
      ensures Lasting(old(volume.disk), volume.disk)
    {
      hide Kept, Settled, Safe, Handed, Concluded, ReverseReady, Publishable, Absorbing, Below, FinalRecord;
      ghost var h0, disk0 := h, volume.disk;
      owned := true;
      ReadyNow(h, disk0);
      TerminalCertain(h, disk0, volume.next, tx);
      s := Check();
      CheckedAbsorbing(h0, h, disk0);
      if s != Ok { return; }
      if !h.Forwarded() { return Conflict, false; }
      Undirected(h, Forward);
      DirectedKept(h, Forward, handed, disk0, volume.next, tx, strict);
      h := h.(direction := Some(Forward));
      ghost var h1 := h;
      CheckedAbsorbing(h0, h1, disk0);
      OutcomeKnown(h1, disk0, volume.next, tx);
      s := Conclude(Forward, strict);
      AbsorbingTwice(h0, h1, h, disk0, disk0, volume.disk);
      AbsorbingLasts(h1, h, disk0, volume.disk);
      CommittedEncoded(h, volume.disk, volume.next, tx);
    }

    /** Gives every resource up without restoring or clearing unresolved evidence. */
    method Close(ghost strict: bool) returns (s: Status)
      requires Live(strict)
      modifies this, volume
      ensures Live(strict) && h.closed && volume.faults >= old(volume.faults)
      ensures old(h).closed ==> s == Conflict && h == old(h) && volume.disk == old(volume.disk)
      ensures SameLogs(volume.disk, old(volume.disk)) && handed == old(handed)
      ensures h.direction == old(h).direction && h.finished == old(h).finished
      ensures !old(h).closed ==> (s == Ok <==> volume.faults == old(volume.faults) && h.finished)
      ensures !old(h).closed && volume.faults == old(volume.faults) ==> Swept(old(h).stages, volume.disk)
    {
      hide Kept, Safe, Handed, Released, Swept;
      if h.closed { return Conflict; }
      s := Surrender(strict);
    }

    method Surrender(ghost strict: bool) returns (s: Status)
      requires Sound(strict) && !h.closed
      modifies this`h, volume`disk, volume`visited, volume`faults, volume`halted
      ensures Live(strict) && h.closed && volume.faults >= old(volume.faults)
      ensures SameLogs(volume.disk, old(volume.disk))
      ensures h.direction == old(h).direction && h.finished == old(h).finished
      ensures s == Ok <==> volume.faults == old(volume.faults) && h.finished
      ensures volume.faults == old(volume.faults) ==> Swept(old(h).stages, volume.disk)
    {
      hide Kept, Safe, Handed, Quiet, Swept, Custodied;
      ghost var earlier, before, h0 := volume.visited, volume.disk, h;
      KeptCustody(h, volume.disk, volume.next, tx);
      var swept := Sweep(volume, h.stages);
      SafeQuiet(earlier, volume.visited, before, tx, strict);
      var all, released := Release(volume, h.pins.Keys, h.detached, h.released, h.issued);
      h := Shut(h, all);
      s := if swept && released && h.finished then Ok else Operational;
    }

    method Finished()
      requires Valid() && Calm() && Concluded(h, volume.disk, tx)
      modifies this`h
      ensures Valid() && Calm() && Concluded(h, volume.disk, tx)
      ensures Reported(old(h), h) && h.finished && h.lastError == Ok
    {
      hide Kept, Intact;
      OtherKept(h, h.(finished := true, lastError := Ok), volume.disk, volume.next, tx);
      h := h.(finished := true, lastError := Ok);
    }

    /** The image, then its terminal record, then the marker's removal. */
    method Conclude(direction: Direction, ghost strict: bool) returns (s: Status)
      requires Sound(strict) && Calm() && h.direction == Some(direction) && h.Forwarded() == (direction == Forward)
      modifies this, volume
      ensures Sound(strict) && volume.faults >= old(volume.faults)
      ensures SameCourse(old(h), h)
      ensures Absorbing(old(h), h, old(volume.disk), volume.disk)
      ensures s == Ok ==> Calm() && Concluded(h, volume.disk, tx)
      ensures volume.faults == old(volume.faults) ==> s == Ok
    {
      hide Kept, Settled, Safe, Handed, Concluded, Decided, Removable, Unmarked, Absorbing;
      ghost var h0, disk0 := h, volume.disk;
      s := RecordOutcome(direction, strict);
      if s != Ok { return; }
      ghost var h1, disk1 := h, volume.disk;
      DecidedRemovable(h1, disk1);
      s := RemovePending(strict);
      UnmarkedCourse(h0, h1, h, disk1, volume.disk);
      AbsorbingTwice(h0, h1, h, disk0, disk1, volume.disk);
      if s == Ok { ConcludedNow(h1, h, disk1, volume.disk, volume.next, tx); }
    }

    method RecordOutcome(direction: Direction, ghost strict: bool) returns (s: Status)
      requires Sound(strict) && Calm() && h.direction == Some(direction) && h.Forwarded() == (direction == Forward)
      modifies this, volume
      ensures Sound(strict) && volume.faults >= old(volume.faults)
      ensures SameCourse(old(h), h)
      ensures Absorbing(old(h), h, old(volume.disk), volume.disk)
      ensures s == Ok ==> Calm() && Decided(h, volume.disk)
      ensures volume.faults == old(volume.faults) ==> s == Ok
    {
      hide Kept, Settled, Safe, Handed, Decided, Writable, Journalled, Absorbing;
      s := SyncImage(strict);
      if s != Ok { return; }
      var r := if direction == Forward then ForwardCompletedRecord(h) else ReverseCompletedRecord(h);
      SettledNow(h, volume.disk);
      SafeAt(volume.visited, volume.disk, tx, strict);
      CompletedWritable(direction, h, volume.disk, volume.next, tx, strict);
      ghost var h0, h1, disk0, disk1 := old(h), h, old(volume.disk), volume.disk;
      s := WriteRecord(r, strict);
      JournalledCourse(h0, h1, h, disk1, volume.disk);
      AbsorbingTwice(h0, h1, h, disk0, disk1, volume.disk);
      if s == Ok { DecidedNow(direction, h1, h, disk1, volume.disk); }
    }

    /** Flushes the active file and its directory. */
    method SyncImage(ghost strict: bool) returns (s: Status)
      requires Sound(strict) && Calm()
      modifies volume`disk, volume`visited, volume`faults, volume`halted
      ensures Sound(strict) && Calm() && volume.faults >= old(volume.faults)
      ensures Absorbing(h, h, old(volume.disk), volume.disk)
      ensures s == Ok ==> volume.disk.active.log == [volume.disk.active.Entry()]
      ensures volume.faults == old(volume.faults) ==> s == Ok
    {
      hide Kept, Settled, Safe, Handed, Absorbing, Dir.Valid;
      ghost var before := volume.disk;
      AbsorbingSame(h, h, before, before, Active);
      s := SyncFile(Active, strict);
      if s != Ok { return; }
      s := SyncParent(Active, strict);
      AbsorbingSame(h, h, before, volume.disk, Active);
    }

    /** Closes and unlinks the marker; only the terminal record can be beside it then. */
    method RemovePending(ghost strict: bool) returns (s: Status)
      requires Sound(strict) && Removable(h, volume.disk)
      modifies this`h, volume`disk, volume`visited, volume`faults, volume`halted
      ensures Sound(strict) && volume.faults >= old(volume.faults)
      ensures Unmarked(old(h), h, old(volume.disk), volume.disk)
      ensures s == Ok ==> Calm() && h.pendingRemoved && volume.disk.factory.log == [None]
      ensures old(Calm()) && volume.faults == old(volume.faults) ==> s == Ok
    {
      hide Kept, Settled, Safe, Handed, Removable, Unmarked;
      ghost var h0, disk0 := h, volume.disk;
      RemovableFacts(h, disk0);
      s := Check();
      if s != Ok { return; }
      if !h.pendingClosed {
        MarkerClosedKept(h, h, disk0, volume.disk, volume.next, tx);
        h := MarkerClosed(h);
        var failed := volume.Fails();
        if failed { return Operational; }
      }
      if !h.pendingRemoved {
        s := UnlinkPending(h0, disk0, strict);
        if s != Ok { return; }
      }
      ghost var before := volume.disk;
      s := SyncParent(Factory, strict);
      SyncedUnmarked(h0, h, disk0, before, volume.disk);
      MarkerGone(h, before, volume.next, tx);
    }

    method UnlinkPending(ghost h0: Handle, ghost disk0: Disk, ghost strict: bool) returns (s: Status)
      requires Sound(strict) && Calm() && Removable(h, volume.disk)
      requires h.pendingClosed && !h.pendingRemoved && Unmarked(h0, h, disk0, volume.disk)
      modifies this`h, volume`disk, volume`visited, volume`faults, volume`halted
      ensures Sound(strict) && volume.faults >= old(volume.faults)
      ensures Unmarked(h0, h, disk0, volume.disk)
      ensures s == Ok ==> Calm() && h.pendingRemoved
      ensures volume.faults == old(volume.faults) ==> s == Ok
    {
      hide Kept, Settled, Safe, Handed, Removable, Unmarked, Below, Dir.Valid, Consistent, PinsKept;
      ghost var disk1, earlier, h1 := volume.disk, volume.visited, h;
      RemovableFacts(h, disk1);
      MarkerPresent(h, disk1, volume.next, tx);
      s := Check();
      if s != Ok { return; }
      var ok, moved := volume.UnlinkPublished(Factory);
      if moved {
        UnlinkedSafe(h0, h, disk0, disk1, earlier, volume.next, tx, strict);
      }
      if !ok { return Operational; }
      h := h.(pendingRemoved := true);
      var failed := volume.Fails();
      if failed { return Operational; }
      UnlinkedSettled(h0, h1, disk0, disk1, volume.next, tx);
      h := MarkerRemoved(h, volume.disk.factory.version);
    }

    /** Makes a record durable. The same record is never written twice, but it is
        flushed again. */
    method WriteRecord(r: Record, ghost strict: bool) returns (s: Status)
      requires Sound(strict) && h.candidate.None? && h.offer.None?
      requires Writable(r, h, volume.disk, tx, strict)
      modifies this, volume
      ensures Sound(strict) && volume.faults >= old(volume.faults)
      ensures Journalled(old(h), h, old(volume.disk), volume.disk)
      ensures Absorbing(old(h), h, old(volume.disk), volume.disk)
      ensures handed == old(handed) + [r]
      ensures s == Ok ==> Calm() && RecordDurable(r, h, volume.disk)
      ensures old(Calm()) && volume.faults == old(volume.faults) ==> s == Ok
    {
      hide Kept, Settled, Writable, Safe, Handed, Journalled, Absorbing;
      ghost var h0, disk0 := h, volume.disk;
      HandedNext(handed, r, h, disk0, tx, strict);
      TerminalHeld(r, h, disk0, volume.next, tx, strict);
      handed := handed + [r];
      SameJournalled(h0, disk0);
      AbsorbingSame(h0, h0, disk0, disk0, Journal);
      s := Check();
      if s != Ok { return; }
      if h.record.expected != Encoded(r) {
        s := OfferRecord(r, strict);
        NotTerminal(h0, h, disk0, volume.disk);
        if s != Ok { return; }
      }
      SettledNow(h, volume.disk);
      s := Check();
      if s != Ok { return; }
      ghost var h1, disk1 := h, volume.disk;
      s := FlushRecord(r, h0, disk0, strict);
      AbsorbingSame(h1, h, disk1, volume.disk, Journal);
      AbsorbingTwice(h0, h1, h, disk0, disk1, volume.disk);
    }

    method FlushRecord(r: Record, ghost h0: Handle, ghost disk0: Disk, ghost strict: bool) returns (s: Status)
      requires Sound(strict) && Calm()
      requires Journalled(h0, h, disk0, volume.disk)
      modifies volume`disk, volume`visited, volume`faults, volume`halted
      ensures Sound(strict) && Calm() && volume.faults >= old(volume.faults)
      ensures volume.disk == old(volume.disk) || volume.disk == SyncedAt(old(volume.disk), Journal)
      ensures Journalled(h0, h, disk0, volume.disk)
      ensures s == Ok ==> volume.disk.journal.log == [volume.disk.journal.Entry()]
      ensures volume.faults == old(volume.faults) ==> s == Ok
    {
      hide Kept, Settled, Safe, Handed, Journalled, Dir.Valid;
      ghost var before := volume.disk;
      s := SyncFile(Journal, strict);
      if s != Ok { return; }
      s := SyncParent(Journal, strict);
      SyncedJournalled(h0, h, disk0, before, volume.disk);
    }

    /** Replaces the record by a staged sibling, and learns from the directory
        whether that happened. */
    method OfferRecord(r: Record, ghost strict: bool) returns (s: Status)
      requires Sound(strict) && Calm() && Writable(r, h, volume.disk, tx, strict)
      requires h.record.expected != Encoded(r)
      modifies this`h, volume
      ensures Sound(strict) && volume.faults >= old(volume.faults)
      ensures Journalled(old(h), h, old(volume.disk), volume.disk)
      ensures s == Ok ==> Calm() && h.written == r && h.record.expected == Encoded(r)
      ensures volume.faults == old(volume.faults) ==> s == Ok
    {
      hide Kept, Settled, RetainsStaged, Writable, Safe, Handed, OnlyAdds, OnlyRetains, Journalled, Volume.Valid;
      ghost var h0, disk0, bound := h, volume.disk, volume.next;
      SettledNow(h, disk0);
      var pin := StageImage(Journal, Encoded(r), PRIVATE_MODE, strict);
      StagedJournalled(h0, h, disk0, volume.disk);
      if pin.None? { return Operational; }
      s := OfferStaged(r, pin.value, h0, disk0, bound, strict);
    }

    method OfferStaged(r: Record, pin: Pin, ghost h0: Handle, ghost disk0: Disk, ghost bound: nat, ghost strict: bool)
      returns (s: Status)
      requires Sound(strict) && h.candidate.None? && h.offer.None?
      requires Kept(h0, disk0, bound, tx) && Writable(r, h0, disk0, tx, strict) && h0.record.expected != Encoded(r)
      requires OnlyRetains(h0, h) && Journalled(h0, h, disk0, volume.disk)
      requires RetainsStaged(h, volume.disk, pin, Journal, Encoded(r), PRIVATE_MODE, bound)
      modifies this`h, volume`disk, volume`visited, volume`faults, volume`halted
      ensures Sound(strict) && volume.faults >= old(volume.faults)
      ensures Journalled(h0, h, disk0, volume.disk)
      ensures s == Ok ==> Calm() && h.written == r && h.record.expected == Encoded(r)
      ensures old(Calm()) && volume.faults == old(volume.faults) ==> s == Ok
    {
      hide Kept, Settled, RetainsStaged, Writable, Safe, Handed, OnlyRetains, Journalled, OfferReady, Volume.Valid;
      s := Check();
      if s != Ok { return; }
      OfferingKept(h0, h, pin, r, disk0, volume.disk, bound, volume.next, tx, strict);
      h := Offering(h, pin, r);
      s := RenameRecord(r, h0, disk0, strict);
    }

    method RenameRecord(r: Record, ghost h0: Handle, ghost disk0: Disk, ghost strict: bool) returns (s: Status)
      requires Sound(strict) && OfferReady(r, h0, h, disk0, volume.disk, tx, strict)
      modifies this`h, volume`disk, volume`visited, volume`faults, volume`halted
      ensures Sound(strict) && volume.faults >= old(volume.faults)
      ensures Journalled(h0, h, disk0, volume.disk)
      ensures s == Ok ==> Calm() && h.written == r && h.record.expected == Encoded(r)
      ensures volume.faults == old(volume.faults) ==> s == Ok
    {
      hide Kept, Consistent, Safe, Handed, OfferReady, OfferRenamed, Settled, Journalled;
      ghost var before, earlier := volume.disk, volume.visited;
      SafeAt(earlier, before, tx, strict);
      OfferIsStaged(r, h0, h, disk0, before, tx, strict);
      var name := h.offer.value.pin.stat.inode;
      var ok, moved, ctime := volume.Rename(Journal, name);
      RecordRenamed(r, h0, h, disk0, before, volume.disk, moved, ctime, volume.next, tx, strict);
      SafeAdded(earlier, volume.disk, tx, strict);
      var published := AcceptRecord(r, h0, disk0, moved, strict);
      if ok {
        MarkedJournalled(h0, h, name, disk0, volume.disk, volume.next, tx);
        h := h.(stages := Marked(h.stages, name));
      }
      s := if ok && published then Ok else Operational;
    }

    /** Takes the record over exactly when the record name denotes it. */
    method AcceptRecord(r: Record, ghost h0: Handle, ghost disk0: Disk, ghost moved: bool, ghost strict: bool)
      returns (published: bool)
      requires Sound(strict) && OfferRenamed(r, h0, h, disk0, volume.disk, moved)
      modifies this`h, volume`faults, volume`halted
      ensures Sound(strict) && volume.faults >= old(volume.faults)
      ensures Journalled(h0, h, disk0, volume.disk)
      ensures published ==> Calm() && h.written == r && h.record.expected == Encoded(r)
      ensures volume.faults == old(volume.faults) && moved ==> published
    {
      hide Kept, Safe, Handed, Settled, Journalled, OfferRenamed, OfferOutcome, Reconcilable;
      ghost var h1 := h;
      OfferAttempted(r, h0, h, disk0, volume.disk, moved);
      var s;
      published, s := ReconcileJournal();
      OfferDecided(r, h0, h1, h, disk0, volume.disk, moved, published, s, volume.next, tx);
    }

    /** Stages one image, records what is about to happen, renames, and syncs. */
    method Publish(restoring: bool, ghost strict: bool) returns (s: Status)
      requires Sound(strict) && Calm() && Publishable(restoring, h, volume.disk, strict)
      modifies this, volume
      ensures Sound(strict) && volume.faults >= old(volume.faults)
      ensures SameCourse(old(h), h)
      ensures s == Ok ==> Calm() && ImageDurable(restoring, h, volume.disk)
      ensures volume.faults == old(volume.faults) ==> s == Ok
    {
      hide Kept, Settled, Safe, Handed, Publishable, ImageReady, SameCourse;
      ghost var h0, disk0 := h, volume.disk;
      var pin;
      pin, s := RecordImage(restoring, strict);
      if s != Ok { return; }
      s := RenameImage(restoring, pin.value, h0, strict);
      if s != Ok { return; }
      s := ConfirmImage(restoring, h0, strict);
    }

    /** The write-ahead half: the sibling and the record that names it. */
    method RecordImage(restoring: bool, ghost strict: bool) returns (pin: Option<Pin>, s: Status)
      requires Sound(strict) && Calm() && Publishable(restoring, h, volume.disk, strict)
      modifies this, volume
      ensures Sound(strict) && volume.faults >= old(volume.faults)
      ensures SameCourse(old(h), h)
      ensures s == Ok ==> pin.Some? && ImageReady(restoring, h, volume.disk, pin.value, tx)
      ensures volume.faults == old(volume.faults) ==> s == Ok
    {
      hide Kept, Settled, Safe, Handed, Publishable, RetainsStaged, Writable, Journalled, ImageReady, SameCourse;
      ghost var h0, disk0, bound := h, volume.disk, volume.next;
      s := Operational;
      pin := StageImage(Active, Raw(ImageData(restoring, tx)), tx.mode, strict);
      StagedCourse(restoring, h0, h, disk0, volume.disk, strict);
      if pin.None? { return; }
      SettledNow(h0, disk0);
      s := Check();
      if s != Ok { return; }
      var r := if restoring then ReversePreparedRecord(h, pin.value.stat) else ForwardPreparedRecord(h, pin.value.stat);
      SafeAt(volume.visited, volume.disk, tx, strict);
      ImageWritable(restoring, h0, h, pin.value, disk0, volume.disk, bound, volume.next, tx, strict);
      ghost var h1, disk1 := h, volume.disk;
      s := WriteRecord(r, strict);
      JournalledCourse(h0, h1, h, disk1, volume.disk);
      if s == Ok {
        ImageReadied(restoring, h0, h1, h, pin.value, disk0, disk1, volume.disk, bound, tx, strict);
      }
    }

    /** The attempted rename, and what the directory says of it. */
    method RenameImage(restoring: bool, pin: Pin, ghost h0: Handle, ghost strict: bool) returns (s: Status)
      requires Sound(strict) && ImageReady(restoring, h, volume.disk, pin, tx) && SameCourse(h0, h)
      modifies this`h, volume`disk, volume`visited, volume`faults, volume`halted
      ensures Sound(strict) && volume.faults >= old(volume.faults)
      ensures SameCourse(h0, h)
      ensures s == Ok ==> Calm() && ImagePublished(restoring, h)
      ensures volume.faults == old(volume.faults) ==> s == Ok
    {
      hide Kept, Consistent, Safe, Handed, ImageReady, ImageAttempted, Settled, SameCourse, ImagePublished;
      ghost var before, earlier, h1 := volume.disk, volume.visited, h;
      SafeAt(earlier, before, tx, strict);
      ImagingKept(restoring, h0, h, before, pin, volume.next, tx);
      h := Imaging(restoring, h, pin, tx);
      var ok, moved, ctime := volume.Rename(Active, pin.stat.inode);
      ImageRenamed(restoring, h1, pin, before, volume.disk, moved, ctime, volume.next, tx, strict);
      SafeAdded(earlier, volume.disk, tx, strict);
      var published := AcceptImage(restoring, h0, moved, strict);
      if ok {
        MarkedCourse(h0, h, pin.stat.inode, volume.disk, volume.next, tx);
        MarkedPublished(restoring, h, pin.stat.inode);
        h := h.(stages := Marked(h.stages, pin.stat.inode));
      }
      s := if ok && published then Ok else Operational;
    }

    /** Takes the image over exactly when the active name denotes it. */
    method AcceptImage(restoring: bool, ghost h0: Handle, ghost moved: bool, ghost strict: bool)
      returns (published: bool)
      requires Sound(strict) && ImageAttempted(restoring, h, volume.disk, moved) && SameCourse(h0, h)
      modifies this`h, volume`faults, volume`halted
      ensures Sound(strict) && volume.faults >= old(volume.faults)
      ensures SameCourse(h0, h)
      ensures published ==> Calm() && ImagePublished(restoring, h)
      ensures volume.faults == old(volume.faults) && moved ==> published
    {
      hide Kept, Safe, Handed, Settled, ImageAttempted, CandidateOutcome, Reconcilable, SameCourse, ImagePublished;
      ghost var h1 := h;
      ImageUncertain(restoring, h, volume.disk, moved);
      var s;
      published, s := Reconcile();
      ImageDecided(restoring, h0, h1, h, volume.disk, moved, published, s, volume.next, tx);
    }

    /** Syncs the parent, and records a forward image as published. */
    method ConfirmImage(restoring: bool, ghost h0: Handle, ghost strict: bool) returns (s: Status)
      requires Sound(strict) && Calm() && ImagePublished(restoring, h) && SameCourse(h0, h)
      modifies this, volume
      ensures Sound(strict) && volume.faults >= old(volume.faults)
      ensures SameCourse(h0, h)
      ensures s == Ok ==> Calm() && ImageDurable(restoring, h, volume.disk)
      ensures volume.faults == old(volume.faults) ==> s == Ok
    {
      hide Kept, Settled, Safe, Handed, SameCourse, Writable, Journalled, Dir.Valid;
      SettledNow(h, volume.disk);
      s := Check();
      if s != Ok { return; }
      s := SyncParent(Active, strict);
      if s != Ok || restoring { return; }
      SafeAt(volume.visited, volume.disk, tx, strict);
      ForwardPublishedWritable(h, volume.disk, volume.next, tx, strict);
      ghost var h1, disk1 := h, volume.disk;
      s := WriteRecord(ForwardPublishedRecord(h), strict);
      JournalledCourse(h0, h1, h, disk1, volume.disk);
      if s == Ok { ForwardDurable(h1, h, disk1, volume.disk); }
    }

    /** Staging keeps every crash point consistent: the published names stay. */
    method StageImage(place: Place, content: Content, mode: nat, ghost strict: bool) returns (pin: Option<Pin>)
      requires Sound(strict) && place != Factory
      modifies this`h, volume
      ensures Sound(strict) && volume.faults >= old(volume.faults) && volume.next >= old(volume.next)
      ensures OnlyAdds(old(volume.disk), volume.disk, place)
      ensures OnlyRetains(old(h), h)
      ensures pin.Some? ==> RetainsStaged(h, volume.disk, pin.value, place, content, mode, old(volume.next))
      ensures old(Calm()) && volume.faults == old(volume.faults) ==> pin.Some? && Calm()
    {
      hide Kept, Settled, OnlyAdds, RetainsStaged, Quiet, Safe;
      ghost var earlier, before := volume.visited, volume.disk;
      pin := PrepareImage(place, content, mode);
      SafeQuiet(earlier, volume.visited, before, tx, strict);
    }

    /** Stages a sibling, retains its descriptor and reads it back. */
    method PrepareImage(place: Place, content: Content, mode: nat) returns (pin: Option<Pin>)
      requires Valid() && place != Factory
      modifies this`h, volume
      ensures Valid() && volume.faults >= old(volume.faults) && volume.next >= old(volume.next)
      ensures Quiet(old(volume.visited), volume.visited, old(volume.disk))
      ensures OnlyAdds(old(volume.disk), volume.disk, place)
      ensures OnlyRetains(old(h), h)
      ensures pin.Some? ==> RetainsStaged(h, volume.disk, pin.value, place, content, mode, old(volume.next))
      ensures old(Calm()) && volume.faults == old(volume.faults) ==> pin.Some? && Calm()
    {
      hide Kept, Settled, Written, RetainsStaged, Quiet;
      ghost var before, bound := volume.disk, volume.next;
      var stage := Prepare(volume, place, content, mode);
      var view := if stage.Some? then h.(stages := h.stages + [Stage(place, stage.value.inode, false)]) else h;
      StagedKept(h, view.stages, before, volume.disk, bound, tx);
      h, pin := RetainStage(volume, view, place, stage, content, mode, before, volume.disk, bound, volume.next, tx);
    }
  }
}
