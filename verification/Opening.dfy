/** The states in which a publication handle comes into being: reserved by a fresh
    begin, or rebuilt from durable evidence by an interrupted recovery. */
module Opening {
  import opened Basics
  import opened PublicationRecords
  import opened Volumes
  import opened Transactions
  import opened Custody
  import opened Handles
  import opened PublicationSteps

  /** Three published files are retained: the active one, the record, the marker. */
  function Opened(file: File, entry: File, marker: File, seen: Seen, expected: Content, record: Content,
                  written: Record, direction: Option<Direction>, applyUsed: bool,
                  afterPublished: bool, undoPublished: bool): Handle
  {
    var active := Pin(0, Active, Published, Stat(file));
    var slot := Pin(1, Journal, Published, Stat(entry));
    var pending := Pin(2, Factory, Published, Stat(marker));
    Handle(map[0 := active, 1 := slot, 2 := pending], [], [], 3, seen, [],
           Held(active, expected), Held(slot, record), None, None, written, written, direction,
           applyUsed, afterPublished, undoPublished, pending, false, false, false, false, Ok)
  }

  function SeenNow(disk: Disk): Seen {
    Seen(disk.active.version, disk.journal.version, disk.factory.version)
  }

  /** The handle's retained files are exactly what the directories show. */
  lemma OpenedSettled(disk: Disk, h: Handle, file: File, entry: File, marker: File)
    requires disk.Valid()
    requires disk.active.Entry() == Some(file) && disk.journal.Entry() == Some(entry)
    requires disk.factory.Entry() == Some(marker)
    requires h == Opened(file, entry, marker, SeenNow(disk), file.content, entry.content, h.written, h.direction,
                         h.applyUsed, h.afterPublished, h.undoPublished)
    ensures Settled(h, disk)
  {
  }

  lemma OpenedCustody()
    ensures Custodied({0, 1, 2}, [], [], 3)
  {
    assert multiset({0, 1, 2}) == multiset{0, 1, 2};
  }

  lemma OpenedPins(file: File, entry: File, marker: File, h: Handle, next: nat)
    requires file.inode < next && entry.inode < next && marker.inode < next
    requires h == Opened(file, entry, marker, h.seen, h.active.expected, h.record.expected, h.written, h.direction,
                         h.applyUsed, h.afterPublished, h.undoPublished)
    ensures PinsKept(h, next) && Custodied(h.pins.Keys, h.detached, h.released, h.issued)
    ensures h.active.pin.stat == Stat(file) && h.candidate.None? && h.offer.None? && !h.pendingRemoved
  {
    OpenedCustody();
    assert h.pins.Keys == {0, 1, 2};
  }

  // ----- a fresh begin -----

  function PreparedRecord(tx: Transaction): Record {
    Record(tx.migration, tx.operation, tx.path, tx.Before(), tx.After(), tx.identity, None, None, None,
           Forward, Prepared, Pending)
  }

  /** The active file is the transaction's original, and a crash leaves no other. */
  ghost predicate AtRest(disk: Disk, tx: Transaction) {
    Together(
      && disk.Valid()
      && disk.active.log == [disk.active.Entry()] && ActiveFile(disk.active.Entry())
      && IsOriginal(disk.active.Entry().value, tx) && tx.identity.inode != 0
      && tx.identity.bytes == |tx.original|
      && |tx.replacement| <= ASSET_LIMIT)
  }

  /** No record yet, or an empty slot that has just been created. */
  ghost predicate Unrecorded(disk: Disk) {
    forall e | e in disk.journal.log :: e.None? || (e.value.durable && e.value.content == Raw([]))
  }

  lemma BeginConsistent(disk: Disk, tx: Transaction, strict: bool)
    requires AtRest(disk, tx) && Unrecorded(disk)
    requires None in disk.factory.log ==> forall e | e in disk.journal.log :: e.None?
    ensures Consistent(disk, tx, strict)
  {
  }

  lemma BeginKept(disk: Disk, tx: Transaction, entry: File, marker: File, next: nat, strict: bool)
    requires AtRest(disk, tx) && Below(disk.active, next) && Below(disk.journal, next) && Below(disk.factory, next)
    requires Unrecorded(disk) && None !in disk.factory.log
    requires disk.journal.Entry() == Some(entry) && disk.factory.Entry() == Some(marker)
    ensures
      var h := Opened(disk.active.Entry().value, entry, marker, SeenNow(disk), Raw(tx.original), Raw([]),
                      PreparedRecord(tx), None, false, false, false);
      Kept(h, disk, next, tx) && Settled(h, disk) && Writable(PreparedRecord(tx), h, disk, tx, strict)
  {
    var file := disk.active.Entry().value;
    var h := Opened(
      file, entry, marker, SeenNow(disk), Raw(tx.original), Raw([]), PreparedRecord(tx), None, false, false, false);
    OpenedPins(file, entry, marker, h, next);
    OpenedSettled(disk, h, file, entry, marker);
    hide Custodied, PinsKept, Settled, Opened;
  }

  // ----- an interrupted recovery -----

  /** What a granted recovery starts from. Only a forward image refreshes the
      recorded forward identity: its staging change time is not the current one. */
  function RecoveredHandle(disk: Disk, image: Image, record: Record, direction: Direction): Handle
    requires disk.active.log != [] && disk.journal.log != [] && disk.factory.log != []
    requires disk.active.Entry().Some? && disk.journal.Entry().Some? && disk.factory.Entry().Some?
  {
    var file := disk.active.Entry().value;
    var undone := image == Before && record.phase in {ReversePrepared, Restored};
    Opened(file, disk.journal.Entry().value, disk.factory.Entry().value, SeenNow(disk), Raw(BytesOf(file.content)),
           Encoded(record), if image == After then record.(forward := Some(Stat(file))) else record,
           Some(direction), true, image == After || undone, undone)
  }

  /** What the accepted evidence says about the rebuilt handle. */
  lemma RecoveryFits(disk: Disk, request: Request, image: Image, record: Record, tx: Transaction, strict: bool)
    requires Consistent(disk, tx, strict)
    requires ObserveInterrupted(disk, request, tx.Before()) == Some((image, record))
    ensures
      var h := RecoveredHandle(disk, image, record, request.direction);
      && Belongs(record, tx) && request.replacement == tx.replacement && |tx.replacement| <= ASSET_LIMIT
      && Fits(h.written, h, tx) && RolesKept(h, tx) && RecordKept(h)
      && (Terminal(record.phase) ==> h.written == record)
      && (request.direction == Forward ==> h.Forwarded())
      && Raw(BytesOf(disk.active.Entry().value.content)) == disk.active.Entry().value.content
  {
    assert Allowed(disk.journal.Entry(), disk.active.Entry(), tx, strict);
  }

  lemma RecoveryKept(
    disk: Disk, request: Request, image: Image, record: Record, tx: Transaction, next: nat, strict: bool)
    requires Consistent(disk, tx, strict)
    requires Below(disk.active, next) && Below(disk.journal, next) && Below(disk.factory, next)
    requires ObserveInterrupted(disk, request, tx.Before()) == Some((image, record))
    ensures
      var h := RecoveredHandle(disk, image, record, request.direction);
      && Belongs(record, tx) && request.replacement == tx.replacement
      && Kept(h, disk, next, tx) && Settled(h, disk) && h.record.expected.Encoded?
      && (request.direction == Forward ==> h.Forwarded())
      && (|disk.active.log| == 1 ==> ReverseReady(h, disk))
  {
    hide Custodied, PinsKept, Settled, Fits, RolesKept, RecordKept, Belongs, ValidRecord, AllowedRecord,
         Eligible, Shows;
    var h := RecoveredHandle(disk, image, record, request.direction);
    var file, entry, marker := disk.active.Entry().value, disk.journal.Entry().value, disk.factory.Entry().value;
    RecoveryFits(disk, request, image, record, tx, strict);
    OpenedPins(file, entry, marker, h, next);
    OpenedSettled(disk, h, file, entry, marker);
  }
}
