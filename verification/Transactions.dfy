/** What the durable record and the active file may say together at a crash, and
    which of those pairs a fresh recovery can resolve. */
module Transactions {
  import opened Basics
  import opened PublicationRecords
  import opened Volumes
  import opened Staging

  /** The facts one publication fixes when it begins. */
  datatype Transaction = Transaction(
    migration: nat, operation: nat, path: nat,
    mode: nat, original: Bytes, replacement: Bytes, identity: Identity)
  {
    function Before(): Observation {
      Observe(original, mode)
    }

    function After(): Observation {
      Observe(replacement, mode)
    }
  }

  predicate Belongs(record: Record, tx: Transaction) {
    && record.migration == tx.migration && record.operation == tx.operation && record.path == tx.path
    && record.before == tx.Before() && record.after == tx.After() && record.original == tx.identity
  }

  function BytesOf(content: Content): Bytes {
    match content
    case Raw(data) => data
    case Encoded(_) => []
  }

  function Observed(file: File): Observation {
    Observe(BytesOf(file.content), file.mode)
  }

  predicate IsOriginal(file: File, tx: Transaction) {
    Stat(file) == tx.identity && Observed(file) == tx.Before()
  }

  /** The images a durable phase may stand beside. */
  predicate Shows(phase: Phase, observed: Observation, tx: Transaction) {
    match phase
    case Prepared => observed == tx.Before()
    case Aborted => observed == tx.Before()
    case Restored => observed == tx.Before()
    case ForwardPublished => observed == tx.After()
    case ForwardCompleted => observed == tx.After()
    case ForwardPrepared => observed == tx.Before() || observed == tx.After()
    case ReversePrepared => observed == tx.Before() || observed == tx.After()
  }

  predicate ActiveFile(file: Option<File>) {
    file.Some? && file.value.durable && file.value.content.Raw?
  }

  /** One record beside one possible active file. A strict pair can always be
      resolved; otherwise a reverse_prepared record may be stranded. */
  ghost predicate AllowedRecord(record: Record, file: Option<File>, tx: Transaction, strict: bool) {
    && ActiveFile(file)
    && Belongs(record, tx) && ValidRecord(record, tx.Before())
    && Shows(record.phase, Observed(file.value), tx)
    && ((strict || record.phase != ReversePrepared) && tx.Before() != tx.After() ==>
          Eligible(record, Stat(file.value), Observed(file.value)))
  }

  /** One possible record slot beside one possible active file. */
  ghost predicate Allowed(entry: Option<File>, file: Option<File>, tx: Transaction, strict: bool) {
    && ActiveFile(file)
    && match entry {
         case None => IsOriginal(file.value, tx)
         case Some(slot) =>
           && slot.durable
           && match slot.content {
                case Raw(data) => data == [] && IsOriginal(file.value, tx)
                case Encoded(record) => AllowedRecord(record, file, tx, strict)
              }
       }
  }

  predicate IsTerminal(entry: Option<File>) {
    entry.Some? && entry.value.content.Encoded? && Terminal(entry.value.content.record.phase)
  }

  /** A possibly absent pending marker means that nothing has begun yet or that
      every possible record is terminal. */
  ghost predicate PendingRule(disk: Disk) {
    None in disk.factory.log ==>
      || (forall e | e in disk.journal.log :: e.None?)
      || (forall e | e in disk.journal.log :: IsTerminal(e))
  }

  ghost predicate Consistent(disk: Disk, tx: Transaction, strict: bool) {
    && disk.Valid()
    && (forall e, f | e in disk.journal.log && f in disk.active.log :: Allowed(e, f, tx, strict))
    && PendingRule(disk)
  }

  /** Every disk there has been is consistent. */
  ghost predicate Safe(visited: set<Disk>, tx: Transaction, strict: bool) {
    forall d | d in visited :: Consistent(d, tx, strict)
  }

  /** The same disk with other siblings or a shorter list of possible values. */
  lemma ConsistentKept(before: Disk, after: Disk, tx: Transaction, strict: bool)
    requires Consistent(before, tx, strict) && after.Valid()
    requires forall e | e in after.active.log :: e in before.active.log
    requires forall e | e in after.journal.log :: e in before.journal.log
    requires forall e | e in after.factory.log :: e in before.factory.log
    ensures Consistent(after, tx, strict)
  {
  }

  lemma ConsistentQuiet(before: Disk, after: Disk, tx: Transaction, strict: bool)
    requires Consistent(before, tx, strict) && after.Valid() && SameLogs(before, after)
    ensures Consistent(after, tx, strict)
  {
    ConsistentKept(before, after, tx, strict);
  }

  /** Appending one possible record. */
  lemma ConsistentRecord(before: Disk, after: Disk, entry: Option<File>, tx: Transaction, strict: bool)
    requires Consistent(before, tx, strict) && after.Valid()
    requires after.active.log == before.active.log && after.factory.log == before.factory.log
    requires after.journal.log == before.journal.log + [entry]
    requires forall f | f in before.active.log :: Allowed(entry, f, tx, strict)
    requires None !in before.factory.log
    ensures Consistent(after, tx, strict)
  {
    forall e, f | e in after.journal.log && f in after.active.log
      ensures Allowed(e, f, tx, strict)
    {
      if e !in before.journal.log { assert e == entry; }
    }
  }

  /** Appending one possible active file. */
  lemma ConsistentActive(before: Disk, after: Disk, file: Option<File>, tx: Transaction, strict: bool)
    requires Consistent(before, tx, strict) && after.Valid()
    requires after.journal.log == before.journal.log && after.factory.log == before.factory.log
    requires after.active.log == before.active.log + [file]
    requires forall e | e in before.journal.log :: Allowed(e, file, tx, strict)
    ensures Consistent(after, tx, strict)
  {
    forall e, f | e in after.journal.log && f in after.active.log
      ensures Allowed(e, f, tx, strict)
    {
      if f !in before.active.log { assert f == file; }
    }
  }

  lemma SafeQuiet(earlier: set<Disk>, later: set<Disk>, base: Disk, tx: Transaction, strict: bool)
    requires Safe(earlier, tx, strict) && base in earlier
    requires Quiet(earlier, later, base)
    ensures Safe(later, tx, strict)
  {
    forall d | d in later && d !in earlier ensures Consistent(d, tx, strict) {
      ConsistentQuiet(base, d, tx, strict);
    }
  }

  lemma SafeAt(visited: set<Disk>, disk: Disk, tx: Transaction, strict: bool)
    requires Safe(visited, tx, strict) && disk in visited
    ensures Consistent(disk, tx, strict) && disk.Valid()
  {
  }

  lemma SafeAdded(visited: set<Disk>, disk: Disk, tx: Transaction, strict: bool)
    requires Safe(visited, tx, strict) && Consistent(disk, tx, strict)
    ensures Safe(visited + {disk}, tx, strict)
  {
  }

  // ----- what a crash leaves -----

  /** The image of the active file a crash leaves beside the durable record is
      the one its phase names, and a missing pending marker means a terminal
      record or none at all. */
  ghost predicate PhaseTable(disk: Disk, tx: Transaction)
    requires disk.Valid()
  {
    var entry, file := disk.journal.Entry(), disk.active.Entry();
    && file.Some?
    && (entry.Some? && entry.value.content.Encoded? ==>
          && Belongs(entry.value.content.record, tx)
          && ValidRecord(entry.value.content.record, tx.Before())
          && Shows(entry.value.content.record.phase, Observed(file.value), tx))
    && (!(entry.Some? && entry.value.content.Encoded?) ==> Observed(file.value) == tx.Before())
    && (disk.factory.Entry().None? ==> entry.None? || IsTerminal(entry))
  }

  lemma CrashKeepsConsistent(before: Disk, after: Disk, tx: Transaction, strict: bool)
    requires Consistent(before, tx, strict) && AfterCrash(before, after)
    ensures Consistent(after, tx, strict)
    ensures PhaseTable(after, tx)
  {
    hide Allowed, SurvivesAs, PhaseTable, IsTerminal;
    CrashSelects(before, after, tx, strict);
    var a, j := after.active.log[0], after.journal.log[0];
    forall e, f | e in after.journal.log && f in after.active.log
      ensures Allowed(e, f, tx, strict)
    {
      assert e == j && f == a;
    }
    ConsistentPhases(after, tx, strict);
  }

  /** A crash selects among the possible records and images; both are flushed. */
  lemma CrashSelects(before: Disk, after: Disk, tx: Transaction, strict: bool)
    requires Consistent(before, tx, strict) && AfterCrash(before, after)
    ensures after.active.log[0] in before.active.log && after.journal.log[0] in before.journal.log
    ensures None in after.factory.log ==> None in before.factory.log
  {
    hide AllowedRecord, IsOriginal, PendingRule;
    var a0 :| a0 in before.active.log && SurvivesAs(a0, after.active.log[0]);
    var j0 :| j0 in before.journal.log && SurvivesAs(j0, after.journal.log[0]);
    var p0 :| p0 in before.factory.log && SurvivesAs(p0, after.factory.log[0]);
    assert Allowed(j0, a0, tx, strict);
  }

  lemma ConsistentPhases(disk: Disk, tx: Transaction, strict: bool)
    requires Consistent(disk, tx, strict) && |disk.active.log| == |disk.journal.log| == |disk.factory.log| == 1
    ensures PhaseTable(disk, tx)
  {
    hide ValidRecord, Eligible;
    assert Allowed(disk.journal.log[0], disk.active.log[0], tx, strict);
  }

  // ----- what recovery accepts -----

  datatype Request = Request(
    migration: nat, operation: nat, path: nat, direction: Direction,
    replacement: Bytes, after: Observation)

  /** The read-only observation of interrupted evidence: pending marker, whole
      record namespace, selected record and current image. The record directory
      may hold nothing but records, so a leftover sibling refuses. */
  function ObserveInterrupted(disk: Disk, request: Request, reference: Observation)
    : (result: Option<(Image, Record)>)
    requires disk.active.log != [] && disk.journal.log != [] && disk.factory.log != []
  {
    var entry, file := disk.journal.Entry(), disk.active.Entry();
    if !ValidRequest(request.replacement, request.after, reference) then None
    else if disk.factory.Entry().None? || disk.journal.siblings != map[] then None
    else if entry.None? || entry.value.content.Raw? then None
    else
      var record := entry.value.content.record;
      if !ValidRecord(record, reference) || record.migration != request.migration
         || record.operation != request.operation || record.path != request.path
         || record.after != request.after then None
      else if file.None? then None
      else
        var image := InterruptedImage(record, Stat(file.value), Observed(file.value), request.direction);
        if image.None? then None else Some((image.value, record))
  }

  function RequestFor(tx: Transaction, direction: Direction): Request {
    Request(tx.migration, tx.operation, tx.path, direction, tx.replacement, tx.After())
  }

  ghost predicate Resolvable(disk: Disk, tx: Transaction)
    requires disk.Valid()
  {
    || ObserveInterrupted(disk, RequestFor(tx, Forward), tx.Before()).Some?
    || ObserveInterrupted(disk, RequestFor(tx, Reverse), tx.Before()).Some?
  }

  predicate Began(disk: Disk)
    requires disk.journal.log != []
  {
    disk.journal.Entry().Some? && disk.journal.Entry().value.content.Encoded?
  }

  /** Whenever the evidence after a crash is strict, some direction resolves it
      exactly when the crash left no staged record beside the records and the
      replacement differs from the original. */
  lemma StrictCrashResolvable(before: Disk, after: Disk, tx: Transaction)
    requires Consistent(before, tx, true) && AfterCrash(before, after)
    requires Began(after) && after.factory.Entry().Some?
    requires |tx.replacement| <= ASSET_LIMIT
    ensures Resolvable(after, tx) <==> after.journal.siblings == map[] && tx.Before() != tx.After()
  {
    CrashKeepsConsistent(before, after, tx, true);
    assert Allowed(after.journal.Entry(), after.active.Entry(), tx, true);
  }

  /** Which direction strict evidence lets a request take. Forward needs the replacement in
      place and a forward record; reverse takes everything but a completed forward record. */
  predicate Open(phase: Phase, observed: Observation, tx: Transaction, direction: Direction) {
    match direction
    case Forward =>
      observed == tx.After() && (phase == ForwardPrepared || phase == ForwardPublished || phase == ForwardCompleted)
    case Reverse =>
      || observed == tx.Before()
      || (observed == tx.After()
          && (phase == ForwardPrepared || phase == ForwardPublished || phase == ReversePrepared))
  }

  /** After a crash of strict evidence a request gets exactly that, with the record it reads
      and the image that is there. */
  lemma StrictCrashDirections(before: Disk, after: Disk, tx: Transaction, direction: Direction)
    requires Consistent(before, tx, true) && AfterCrash(before, after)
    requires Began(after) && after.factory.Entry().Some? && after.journal.siblings == map[]
    requires |tx.replacement| <= ASSET_LIMIT && tx.Before() != tx.After()
    ensures after.active.Entry().Some?
    ensures
      var record, observed := after.journal.Entry().value.content.record, Observed(after.active.Entry().value);
      ObserveInterrupted(after, RequestFor(tx, direction), tx.Before())
        == if !Open(record.phase, observed, tx, direction) then None
           else Some((if observed == tx.Before() then Before else After, record))
  {
    CrashKeepsConsistent(before, after, tx, true);
    assert Allowed(after.journal.Entry(), after.active.Entry(), tx, true);
  }

  /** The record identifies the file as this image and lets the direction take it: the original,
      the published replacement or the restored copy as they were recorded, or a staged file up
      to the change time that naming it may have set. */
  predicate Identified(record: Record, current: Identity, direction: Direction, image: Image) {
    match image
    case Before =>
      && direction == Reverse
      && match record.phase {
           case Prepared => current == record.original
           case ForwardPrepared => current == record.original
           case Aborted => current == record.original
           case ReversePrepared => record.candidate.Some? && current == record.candidate.value.(ctime := current.ctime)
           case Restored => record.restored == Some(current)
           case ForwardPublished => false
           case ForwardCompleted => false
         }
    case After =>
      match record.phase {
        case ForwardPrepared =>
          && record.forward.Some? && current == record.forward.value.(ctime := current.ctime)
          && record.candidate.Some? && current == record.candidate.value.(ctime := current.ctime)
        case ForwardPublished => record.forward == Some(current)
        case ForwardCompleted => direction == Forward && record.forward == Some(current)
        case ReversePrepared => direction == Reverse && record.forward == Some(current)
        case Prepared => false
        case Restored => false
        case Aborted => false
      }
  }

  /** Whatever the evidence, a request is granted exactly over a file that the record identifies. */
  lemma GrantedExactly(disk: Disk, request: Request, reference: Observation, image: Image, record: Record)
    requires disk.active.log != [] && disk.journal.log != [] && disk.factory.log != []
    ensures
      var slot, active := disk.journal.Entry(), disk.active.Entry();
      ObserveInterrupted(disk, request, reference) == Some((image, record)) <==>
        (&& ValidRequest(request.replacement, request.after, reference)
         && disk.factory.Entry().Some? && disk.journal.siblings == map[] && active.Some?
         && slot.Some? && slot.value.content == Encoded(record) && ValidRecord(record, reference)
         && (record.migration, record.operation, record.path, record.after)
            == (request.migration, request.operation, request.path, request.after)
         && Observed(active.value) == (if image == Before then reference else request.after)
         && Identified(record, Stat(active.value), request.direction, image))
  {
  }

  /** In any run at all, the only evidence a crash can strand is a reverse record
      beside an active file that is neither the recorded forward file nor the
      recorded candidate. */
  lemma OnlyReverseStrands(before: Disk, after: Disk, tx: Transaction)
    requires Consistent(before, tx, false) && AfterCrash(before, after)
    requires Began(after) && after.factory.Entry().Some?
    requires |tx.replacement| <= ASSET_LIMIT
    requires after.journal.siblings == map[] && tx.Before() != tx.After()
    ensures
      var record, file := after.journal.Entry().value.content.record, after.active.Entry();
      && file.Some?
      && (Resolvable(after, tx) <==>
            (record.phase == ReversePrepared ==>
               || (Observed(file.value) == tx.After() && EqualFully(Stat(file.value), record.forward))
               || (Observed(file.value) == tx.Before() && EqualUpToCtime(Stat(file.value), record.candidate))))
  {
    CrashKeepsConsistent(before, after, tx, false);
    assert Allowed(after.journal.Entry(), after.active.Entry(), tx, false);
  }
}
