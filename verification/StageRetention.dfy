/** Retaining a staged sibling: its parent is refreshed, its descriptor opened,
    qualified and kept, and its bytes read back. */
module StageRetention {
  import opened Basics
  import opened PublicationRecords
  import opened Volumes
  import opened Staging
  import opened Transactions
  import opened Custody
  import opened Handles
  import opened PublicationSteps

  predicate StagedAs(dir: Dir, pin: Pin, content: Content, mode: nat) {
    && pin.stat.inode in dir.siblings
    && Stat(dir.siblings[pin.stat.inode]) == pin.stat
    && Written(dir.siblings[pin.stat.inode], content, mode)
  }

  /** A stage was prepared, and perhaps its descriptor retained. */
  predicate OnlyRetains(h: Handle, h': Handle) {
    && h' == h.(pins := h'.pins, released := h'.released, issued := h'.issued, seen := h'.seen, stages := h'.stages)
    && forall d | d in h.pins :: d in h'.pins && h'.pins[d] == h.pins[d]
  }

  /** The handle retains a freshly staged sibling that holds the content. */
  ghost predicate RetainsStaged(
    h: Handle, disk: Disk, pin: Pin, place: Place, content: Content, mode: nat, bound: nat)
  {
    && Retained(h.pins, pin) && pin.place == place
    && pin.name == Sibling(pin.stat.inode) && pin.stat.inode >= bound
    && StagedAs(disk.At(place), pin, content, mode)
  }

  /** A staged file that the volume holds, with the bytes it was prepared from. */
  ghost predicate FreshStage(file: File, dir: Dir, content: Content, mode: nat, bound: nat, next: nat) {
    && bound <= file.inode < next && Written(file, content, mode)
    && file.inode in dir.siblings && dir.siblings[file.inode] == file
  }

  /** The handle after an attempt to retain a stage. */
  ghost predicate Retains(h: Handle, h': Handle, disk: Disk, next: nat, pin: Option<Pin>, place: Place,
                          content: Content, mode: nat, bound: nat, tx: Transaction) {
    Together(
      && Kept(h', disk, next, tx)
      && OnlyRetains(h, h') && h'.stages == h.stages
      && (pin.Some? ==> RetainsStaged(h', disk, pin.value, place, content, mode, bound)))
  }

  function Opened(h: Handle, pin: Pin, disk: Disk): Handle {
    h.(seen := h.seen.With(pin.place, disk.At(pin.place).version)).Retaining(pin)
  }

  lemma StagedKept(h: Handle, stages: seq<Stage>, before: Disk, after: Disk, next: nat, tx: Transaction)
    requires Kept(h, before, next, tx) && before.Valid()
    requires after.factory.log == before.factory.log
    ensures Kept(h.(stages := stages), after, next, tx)
    ensures Settled(h, before) ==> Settled(h.(stages := stages), before)
  {
    hide Custodied, ValidRecord, Belongs;
    DiskKept(h, before, after, next, next, tx);
    OtherKept(h, h.(stages := stages), after, next, tx);
  }

  lemma FreshDescriptor(h: Handle, disk: Disk, next: nat, tx: Transaction)
    requires Kept(h, disk, next, tx)
    ensures h.issued !in h.pins
  {
    hide Custodied;
    CustodyIssued(h.pins.Keys, h.detached, h.released, h.issued);
  }

  lemma RefreshedKept(h: Handle, h': Handle, disk: Disk, bound: nat, next: nat, tx: Transaction)
    requires Kept(h, disk, bound, tx) && bound <= next && h' == h.(seen := h'.seen)
    ensures Kept(h', disk, next, tx)
  {
    hide Kept;
    OtherKept(h, h', disk, bound, tx);
    LaterKept(h', disk, bound, next, tx);
  }

  /** What opening a staged sibling establishes, once its parent is refreshed. */
  lemma OpenedFacts(h: Handle, pin: Pin, file: File, content: Content, mode: nat, before: Disk, disk: Disk,
                    bound: nat, next: nat, tx: Transaction)
    requires Unretained(h, pin.place, before, disk, bound, next, tx)
    requires FreshStage(file, disk.At(pin.place), content, mode, bound, next)
    requires pin == Pin(h.issued, pin.place, Sibling(file.inode), Stat(file))
    ensures
      var h' := Opened(h, pin, disk);
      && Retains(h, h', disk, next, None, pin.place, content, mode, bound, tx)
      && Retains(h, h', disk, next, Some(pin), pin.place, content, mode, bound, tx)
      && (Settled(h, before) ==>
            Settled(h', disk) && Agree(disk, h'.pins, h'.seen) && Holds(disk, Held(pin, content)))
  {
    hide Kept, Settled, OnlyAdds;
    var seen := h.seen.With(pin.place, disk.At(pin.place).version);
    OtherKept(h, h.(seen := seen), disk, bound, tx);
    RetainKept(h.(seen := seen), pin, disk, bound, next, tx);
    if Settled(h, before) { RetainedSettled(h, pin, before, disk, bound, tx); }
    FreshDescriptor(h, disk, bound, tx);
  }

  /** What holds between preparing a stage and retaining it. */
  ghost predicate Unretained(
    h: Handle, place: Place, before: Disk, disk: Disk, bound: nat, next: nat, tx: Transaction)
  {
    Together(
      && disk.Valid() && Kept(h, disk, bound, tx) && bound <= next && place != Factory
      && before.Valid() && OnlyAdds(before, disk, place))
  }

  /** The stage was not opened, or its descriptor was closed at once. */
  lemma RefusedFacts(h: Handle, place: Place, content: Content, mode: nat, before: Disk, disk: Disk,
                     bound: nat, next: nat, tx: Transaction)
    requires Unretained(h, place, before, disk, bound, next, tx)
    ensures
      var h' := h.(seen := h.seen.With(place, disk.At(place).version));
      && Retains(h, h, disk, next, None, place, content, mode, bound, tx)
      && Retains(h, h', disk, next, None, place, content, mode, bound, tx)
      && Retains(h, h'.(released := h'.released + [h'.issued], issued := h'.issued + 1), disk, next, None, place,
                 content, mode, bound, tx)
  {
    hide Kept, RetainsStaged, OnlyAdds;
    var h' := h.(seen := h.seen.With(place, disk.At(place).version));
    RefreshedKept(h, h, disk, bound, next, tx);
    RefreshedKept(h, h', disk, bound, next, tx);
    UnsafeKept(h', disk, next, tx);
  }

  /** Opens the stage and keeps its descriptor. */
  method OpenStage(v: Volume, h: Handle, place: Place, file: File, content: Content, mode: nat,
                   ghost before: Disk, ghost disk: Disk, ghost bound: nat, ghost next: nat, ghost tx: Transaction)
    returns (h': Handle, pin: Option<Pin>)
    requires v.Valid() && v.disk == disk && Unretained(h, place, before, disk, bound, next, tx)
    requires FreshStage(file, disk.At(place), content, mode, bound, next)
    modifies v`faults, v`halted
    ensures v.faults >= old(v.faults)
    ensures Retains(h, h', disk, next, pin, place, content, mode, bound, tx)
    ensures v.faults == old(v.faults) && Settled(h, before) ==> pin.Some? && Settled(h', disk)
  {
    hide Unretained, Retains, FreshStage, Settled, OnlyAdds, Volume.Valid, Holds, Agree;
    RefusedFacts(h, place, content, mode, before, disk, bound, next, tx);
    pin := None;
    h' := h.(seen := h.seen.With(place, v.disk.At(place).version));
    var failed := v.Fails();
    if failed { return; }
    failed := v.Fails();
    if failed {
      // The descriptor was opened but cannot be qualified.
      h' := h'.(released := h'.released + [h'.issued], issued := h'.issued + 1);
      return;
    }
    var retained := Pin(h.issued, place, Sibling(file.inode), Stat(file));
    OpenedFacts(h, retained, file, content, mode, before, disk, bound, next, tx);
    h' := Opened(h, retained, v.disk);
    var s := CheckPins(v, h'.pins, h'.seen);
    if s != Ok { return; }
    s := CheckBytes(v, Held(retained, content));
    if s == Ok { pin := Some(retained); }
  }

  /** Refreshes the parent's identity before anything is opened. */
  method RetainStage(v: Volume, h: Handle, place: Place, stage: Option<File>, content: Content, mode: nat,
                     ghost before: Disk, ghost disk: Disk, ghost bound: nat, ghost next: nat, ghost tx: Transaction)
    returns (h': Handle, pin: Option<Pin>)
    requires v.Valid() && v.disk == disk && Unretained(h, place, before, disk, bound, next, tx)
    requires stage.Some? ==> FreshStage(stage.value, disk.At(place), content, mode, bound, next)
    modifies v`faults, v`halted
    ensures v.faults >= old(v.faults)
    ensures Retains(h, h', disk, next, pin, place, content, mode, bound, tx)
    ensures v.faults == old(v.faults) && Settled(h, before) && stage.Some? ==> pin.Some? && Settled(h', disk)
  {
    hide Unretained, Retains, FreshStage, Settled, Volume.Valid;
    RefusedFacts(h, place, content, mode, before, disk, bound, next, tx);
    h', pin := h, None;
    var stale := v.Fails();
    if stale { return; }
    if stage.Some? {
      h', pin := OpenStage(v, h, place, stage.value, content, mode, before, disk, bound, next, tx);
    } else {
      h' := h.(seen := h.seen.With(place, v.disk.At(place).version));
    }
  }
}
