/** The state of one live publication handle, and what every step keeps of it. */
module Handles {
  import opened Basics
  import opened PublicationRecords
  import opened Volumes
  import opened Transactions
  import opened Custody

  datatype Stage = Stage(place: Place, inode: nat, published: bool)

  /** `pins` are retained by descriptor. `candidate` and `offer` are the active
      file and the record whose rename has been attempted and not yet reconciled;
      `written` is the record the handle works from, `offered` the offer's one.
      `issued` counts the descriptors opened so far. */
  datatype Handle = Handle(
    pins: map<nat, Pin>, detached: seq<nat>, released: seq<nat>, issued: nat, seen: Seen,
    stages: seq<Stage>, active: Held, record: Held,
    candidate: Option<Candidate>, offer: Option<Candidate>,
    written: Record, offered: Record, direction: Option<Direction>,
    applyUsed: bool, afterPublished: bool, undoPublished: bool,
    pending: Pin, pendingClosed: bool, pendingRemoved: bool,
    finished: bool, closed: bool, lastError: Status)
  {
    function Watch(): Option<Pin> {
      if pendingClosed && !pendingRemoved then Some(pending) else None
    }

    /** The after-image is in place and has not been undone. */
    predicate Forwarded() {
      afterPublished && !undoPublished
    }

    function Selected(place: Place, promoted: Held): Held {
      if place == Active then promoted else active
    }

    function Entered(place: Place, promoted: Held): Held {
      if place == Journal then promoted else record
    }

    /** A rename took the candidate's pin over from the prior target's. */
    function Promoting(prior: Pin, promoted: Pin, version: nat): Handle {
      this.(pins := (pins - {prior.descriptor})[promoted.descriptor := promoted],
            detached := detached + [prior.descriptor],
            seen := seen.With(promoted.place, version))
    }

    function Adopting(promoted: Pin, version: nat): Handle
      requires candidate.Some?
    {
      Promoting(active.pin, promoted, version).(
        active := Held(promoted, candidate.value.content), candidate := None,
        afterPublished := true, undoPublished := candidate.value.restoring)
    }

    function Accepting(promoted: Pin, version: nat): Handle
      requires offer.Some?
    {
      Promoting(record.pin, promoted, version).(
        record := Held(promoted, offer.value.content), written := offered, offer := None)
    }

    function Retaining(pin: Pin): Handle {
      this.(pins := pins[pin.descriptor := pin], issued := issued + 1)
    }
  }

  // ----- what a handle keeps -----

  /** Each descriptor opened so far is in exactly one place: still pinned, detached
      by a rename, or already closed. */
  ghost predicate Custodied(pinned: set<nat>, detached: seq<nat>, released: seq<nat>, issued: nat) {
    forall k: nat ::
      (multiset(pinned) + multiset(detached) + multiset(released))[k] == if k < issued then 1 else 0
  }

  predicate Retained(pins: map<nat, Pin>, pin: Pin) {
    pin.descriptor in pins && pins[pin.descriptor] == pin
  }

  /** No two pins share a name, and a sibling is named by its inode. */
  ghost predicate NamesKept(pins: map<nat, Pin>, next: nat) {
    && (forall d | d in pins :: pins[d].descriptor == d && pins[d].stat.inode < next)
    && (forall d, e | d in pins && e in pins && d != e ::
          pins[d].place != pins[e].place || pins[d].name != pins[e].name)
    && (forall d | d in pins && pins[d].name.Sibling? :: pins[d].name.inode == pins[d].stat.inode)
  }

  /** A published name is pinned only by its owner. */
  ghost predicate PinsKept(h: Handle, next: nat) {
    && NamesKept(h.pins, next)
    && Retained(h.pins, h.active.pin) && h.active.pin.place == Active && h.active.pin.name == Published
    && Retained(h.pins, h.record.pin) && h.record.pin.place == Journal && h.record.pin.name == Published
    && h.pending.place == Factory && h.pending.name == Published
    && (!h.pendingClosed ==> Retained(h.pins, h.pending))
    && (forall d | d in h.pins && h.pins[d].place == Factory :: !h.pendingClosed && h.pins[d] == h.pending)
  }

  /** A record this handle may hold in its current state. */
  predicate Fits(record: Record, h: Handle, tx: Transaction) {
    && Belongs(record, tx) && ValidRecord(record, tx.Before())
    && (h.afterPublished ==> record.forward.Some?)
    && (!h.undoPublished ==> record.restored.None?)
    && (record.phase == Prepared || record.phase == Aborted ==> !h.afterPublished)
    && (record.phase == ForwardPublished || record.phase == ForwardCompleted ==> h.Forwarded())
    && (record.phase == ReversePrepared ==> h.afterPublished)
    && (record.phase == Restored ==> h.undoPublished && record.restored == Some(h.active.pin.stat))
    && (record.phase == ForwardCompleted ==> record.forward == Some(h.active.pin.stat))
    && (h.applyUsed || h.direction.Some? || (record.phase == Prepared && !h.afterPublished))
    && match h.direction {
         case None => record.phase in {Prepared, ForwardPrepared, ForwardPublished}
         case Some(Forward) => record.phase in {ForwardPrepared, ForwardPublished, ForwardCompleted}
         case Some(Reverse) => record.phase != ForwardCompleted
       }
  }

  predicate IsImage(stat: Identity, data: Bytes, tx: Transaction) {
    stat.inode != 0 && stat.mode == tx.mode && stat.bytes == |data|
  }

  /** The flags say which image the retained active file is. */
  predicate RolesKept(h: Handle, tx: Transaction) {
    && (h.undoPublished ==> h.afterPublished)
    && (if h.Forwarded()
        then h.active.expected == Raw(tx.replacement) && IsImage(h.active.pin.stat, tx.replacement, tx)
        else h.active.expected == Raw(tx.original) && IsImage(h.active.pin.stat, tx.original, tx))
    && (!h.afterPublished ==> h.active.pin.stat == tx.identity)
  }

  predicate CandidateKept(h: Handle, tx: Transaction) {
    h.candidate.Some? ==>
      var c := h.candidate.value;
      && h.offer.None?
      && Retained(h.pins, c.pin) && c.pin.place == Active && c.pin.name.Sibling?
      && c.pin.stat.inode != h.active.pin.stat.inode
      && (if c.restoring
          then && h.Forwarded() && h.written.phase == ReversePrepared
               && c.content == Raw(tx.original) && IsImage(c.pin.stat, tx.original, tx)
          else && !h.afterPublished && h.written.phase == ForwardPrepared
               && c.content == Raw(tx.replacement) && IsImage(c.pin.stat, tx.replacement, tx))
  }

  predicate OfferKept(h: Handle, tx: Transaction) {
    h.offer.Some? ==>
      var c := h.offer.value;
      && h.candidate.None? && !Terminal(h.written.phase)
      && Retained(h.pins, c.pin) && c.pin.place == Journal && c.pin.name.Sibling?
      && c.pin.stat.inode != h.record.pin.stat.inode
      && c.content == Encoded(h.offered)
      && Fits(h.offered, h, tx)
  }

  /** The bytes behind the retained record are the record the handle works from;
      recovery may only have refreshed the forward identity. */
  predicate RecordKept(h: Handle) {
    match h.record.expected
    case Encoded(record) =>
      record == h.written.(forward := record.forward) && (Terminal(record.phase) ==> record == h.written)
    case Raw(data) => data == [] && h.written.phase == Prepared && !h.applyUsed && h.direction.None?
  }

  /** Once the marker may be gone, only the terminal record already in place can
      be written again; once its removal was seen, it stays away. */
  ghost predicate FinalKept(h: Handle, disk: Disk) {
    && (None in disk.factory.log ==>
          && h.candidate.None? && h.offer.None?
          && Terminal(h.written.phase) && h.record.expected == Encoded(h.written))
    && (h.pendingRemoved ==> h.pendingClosed && disk.factory.log != [] && disk.factory.Entry().None?)
  }

  /** Holds between any two steps of any run, whatever has failed so far. */
  ghost predicate Kept(h: Handle, disk: Disk, next: nat, tx: Transaction) {
    Together(
      && PinsKept(h, next)
      && Custodied(h.pins.Keys, h.detached, h.released, h.issued)
      && Fits(h.written, h, tx)
      && RolesKept(h, tx)
      && CandidateKept(h, tx)
      && OfferKept(h, tx)
      && RecordKept(h)
      && FinalKept(h, disk)
      && |tx.replacement| <= ASSET_LIMIT)
  }

  /** Nothing is uncertain and the next check succeeds unless an operation fails. */
  ghost predicate Settled(h: Handle, disk: Disk)
    requires disk.Valid()
  {
    && h.candidate.None? && h.offer.None?
    && Intact(disk, h.pins, h.seen, h.active, h.record, h.Watch())
  }

  /** What makes the window opened by a reverse record resolvable: every possible
      active file is the current one, and the record names it exactly. */
  ghost predicate ReverseReady(h: Handle, disk: Disk)
    requires disk.Valid()
  {
    && h.candidate.None? && h.offer.None?
    && (h.Forwarded() ==>
          && (forall f | f in disk.active.log :: f == disk.active.Entry())
          && h.written.forward == Some(h.active.pin.stat))
  }

  // ----- steps that keep it -----

  /** One descriptor moves from the pins to the detached ones, or is closed. */
  lemma CustodyMoved(pinned: set<nat>, detached: seq<nat>, released: seq<nat>, issued: nat, d: nat)
    requires Custodied(pinned, detached, released, issued) && d in pinned
    ensures Custodied(pinned - {d}, detached + [d], released, issued)
    ensures Custodied(pinned - {d}, detached, released + [d], issued)
  {
    assert multiset(pinned) == multiset(pinned - {d}) + multiset{d};
    assert multiset(detached + [d]) == multiset(detached) + multiset{d};
    assert multiset(released + [d]) == multiset(released) + multiset{d};
    assert multiset(pinned - {d}) + multiset(detached + [d]) + multiset(released)
        == multiset(pinned) + multiset(detached) + multiset(released)
        == multiset(pinned - {d}) + multiset(detached) + multiset(released + [d]);
  }

  /** A new descriptor is pinned, or closed at once. */
  lemma CustodyIssued(pinned: set<nat>, detached: seq<nat>, released: seq<nat>, issued: nat)
    requires Custodied(pinned, detached, released, issued)
    ensures issued !in pinned
    ensures Custodied(pinned + {issued}, detached, released, issued + 1)
    ensures Custodied(pinned, detached, released + [issued], issued + 1)
  {
    var all := multiset(pinned) + multiset(detached) + multiset(released);
    assert all[issued] == 0;
    assert issued !in multiset(pinned);
    assert multiset(pinned + {issued}) == multiset(pinned) + multiset{issued};
    assert multiset(released + [issued]) == multiset(released) + multiset{issued};
    assert multiset(pinned + {issued}) + multiset(detached) + multiset(released) == all + multiset{issued};
    assert multiset(pinned) + multiset(detached) + multiset(released + [issued]) == all + multiset{issued};
  }

  lemma CandidateFacts(h: Handle, disk: Disk, next: nat, tx: Transaction)
    requires Kept(h, disk, next, tx) && h.candidate.Some?
    ensures var c := h.candidate.value.pin;
      && h.offer.None?
      && c.place == h.active.pin.place == Active
      && Retained(h.pins, c) && Retained(h.pins, h.active.pin)
      && c.descriptor != h.active.pin.descriptor && c.stat.inode != h.active.pin.stat.inode
    ensures Kept(h.(candidate := None), disk, next, tx)
  {
  }

  lemma OfferFacts(h: Handle, disk: Disk, next: nat, tx: Transaction)
    requires Kept(h, disk, next, tx) && h.offer.Some?
    ensures var c := h.offer.value;
      && h.candidate.None?
      && c.content == Encoded(h.offered)
      && c.pin.place == h.record.pin.place == Journal
      && Retained(h.pins, c.pin) && Retained(h.pins, h.record.pin)
      && c.pin.descriptor != h.record.pin.descriptor && c.pin.stat.inode != h.record.pin.stat.inode
    ensures Kept(h.(offer := None), disk, next, tx)
  {
  }

  /** The renamed file's pin takes over the name of the prior target's. */
  lemma NamesPromoted(pins: map<nat, Pin>, prior: Pin, staged: Pin, promoted: Pin, next: nat)
    requires NamesKept(pins, next) && Retained(pins, prior) && Retained(pins, staged)
    requires prior.name == Published && staged.name.Sibling? && prior.place == staged.place
    requires promoted == staged.(name := Published, stat := promoted.stat)
    requires promoted.stat == staged.stat.(ctime := promoted.stat.ctime)
    ensures NamesKept((pins - {prior.descriptor})[promoted.descriptor := promoted], next)
  {
  }

  /** A reconciled active candidate. */
  lemma AdoptKept(h: Handle, promoted: Pin, version: nat, disk: Disk, next: nat, tx: Transaction)
    requires Kept(h, disk, next, tx) && h.candidate.Some?
    requires promoted == h.candidate.value.pin.(name := Published, stat := promoted.stat)
    requires promoted.stat == h.candidate.value.pin.stat.(ctime := promoted.stat.ctime)
    ensures Kept(h.Adopting(promoted, version), disk, next, tx)
  {
    hide PinsKept, Custodied, Belongs;
    AdoptPins(h, promoted, version, disk, next, tx);
    CustodyMoved(h.pins.Keys, h.detached, h.released, h.issued, h.active.pin.descriptor);
  }

  lemma AdoptPins(h: Handle, promoted: Pin, version: nat, disk: Disk, next: nat, tx: Transaction)
    requires Kept(h, disk, next, tx) && h.candidate.Some?
    requires promoted == h.candidate.value.pin.(name := Published, stat := promoted.stat)
    requires promoted.stat == h.candidate.value.pin.stat.(ctime := promoted.stat.ctime)
    ensures PinsKept(h.Adopting(promoted, version), next) && h.active.pin.descriptor in h.pins
    ensures h.Adopting(promoted, version).pins.Keys == h.pins.Keys - {h.active.pin.descriptor}
  {
    hide Custodied, Fits, RolesKept, OfferKept, RecordKept, FinalKept, IsImage;
    NamesPromoted(h.pins, h.active.pin, h.candidate.value.pin, promoted, next);
  }

  /** A reconciled journal offer. */
  lemma AcceptKept(h: Handle, promoted: Pin, version: nat, disk: Disk, next: nat, tx: Transaction)
    requires Kept(h, disk, next, tx) && h.offer.Some?
    requires promoted == h.offer.value.pin.(name := Published, stat := promoted.stat)
    requires promoted.stat == h.offer.value.pin.stat.(ctime := promoted.stat.ctime)
    ensures Kept(h.Accepting(promoted, version), disk, next, tx)
  {
    hide PinsKept, Custodied, ValidRecord, Belongs;
    AcceptPins(h, promoted, version, disk, next, tx);
    CustodyMoved(h.pins.Keys, h.detached, h.released, h.issued, h.record.pin.descriptor);
  }

  lemma AcceptPins(h: Handle, promoted: Pin, version: nat, disk: Disk, next: nat, tx: Transaction)
    requires Kept(h, disk, next, tx) && h.offer.Some?
    requires promoted == h.offer.value.pin.(name := Published, stat := promoted.stat)
    requires promoted.stat == h.offer.value.pin.stat.(ctime := promoted.stat.ctime)
    ensures PinsKept(h.Accepting(promoted, version), next) && h.record.pin.descriptor in h.pins
    ensures h.Accepting(promoted, version).pins.Keys == h.pins.Keys - {h.record.pin.descriptor}
  {
    hide Custodied, Fits, RolesKept, CandidateKept, RecordKept, FinalKept;
    NamesPromoted(h.pins, h.record.pin, h.offer.value.pin, promoted, next);
  }

  /** A newly retained sibling pin, under a name no other pin has. */
  lemma RetainKept(h: Handle, pin: Pin, disk: Disk, next: nat, next': nat, tx: Transaction)
    requires Kept(h, disk, next, tx)
    requires pin.descriptor == h.issued && pin.name == Sibling(pin.stat.inode) && pin.place != Factory
    requires next <= pin.stat.inode < next'
    ensures Kept(h.Retaining(pin), disk, next', tx)
  {
    hide PinsKept, Custodied, ValidRecord, Belongs;
    CustodyIssued(h.pins.Keys, h.detached, h.released, h.issued);
    RetainPins(h, pin, disk, next, next', tx);
    assert h.Retaining(pin).pins.Keys == h.pins.Keys + {h.issued};
  }

  lemma RetainPins(h: Handle, pin: Pin, disk: Disk, next: nat, next': nat, tx: Transaction)
    requires Kept(h, disk, next, tx) && h.issued !in h.pins
    requires pin.descriptor == h.issued && pin.name == Sibling(pin.stat.inode) && pin.place != Factory
    requires next <= pin.stat.inode < next'
    ensures PinsKept(h.Retaining(pin), next')
  {
    hide Custodied, Fits, RolesKept, CandidateKept, OfferKept, RecordKept, FinalKept;
  }

  /** The disk changes, and the marker's possible values do not grow. */
  lemma DiskKept(h: Handle, disk: Disk, disk': Disk, next: nat, next': nat, tx: Transaction)
    requires Kept(h, disk, next, tx) && next <= next'
    requires disk.factory.log != []
    requires disk'.factory.log == disk.factory.log || disk'.factory.log == [disk.factory.Entry()]
    ensures Kept(h, disk', next', tx)
  {
  }

  /** Only the inode bound grows. */
  lemma LaterKept(h: Handle, disk: Disk, next: nat, next': nat, tx: Transaction)
    requires Kept(h, disk, next, tx) && next <= next'
    ensures Kept(h, disk, next', tx)
  {
    hide Custodied, Fits;
  }

  /** Fields no invariant speaks of. */
  lemma OtherKept(h: Handle, h': Handle, disk: Disk, next: nat, tx: Transaction)
    requires Kept(h, disk, next, tx)
    requires h' == h.(seen := h'.seen, stages := h'.stages,
                      finished := h'.finished, closed := h'.closed, lastError := h'.lastError)
    ensures Kept(h', disk, next, tx)
  {
  }

  /** A descriptor that was opened, found unsafe and closed at once. */
  lemma UnsafeKept(h: Handle, disk: Disk, next: nat, tx: Transaction)
    requires Kept(h, disk, next, tx)
    ensures Kept(h.(released := h.released + [h.issued], issued := h.issued + 1), disk, next, tx)
  {
    hide Custodied, ValidRecord, Belongs;
    CustodyIssued(h.pins.Keys, h.detached, h.released, h.issued);
  }
}
