/** Whole lives of a publication: a durable begin, calls on its handle, crashes,
    and interrupted recoveries, in any order. */
module Lifecycles {
  import opened Basics
  import opened PublicationRecords
  import opened Volumes
  import opened Transactions
  import opened Custody
  import opened Handles
  import opened PublicationSteps
  import opened RecordWrites
  import opened ImagePublication
  import opened Completion
  import opened Outcomes
  import opened Publications
  import opened Opening

  /** What a begin finds around it: every active file a crash could bring back is
      flushed, and records are never unlinked. */
  ghost predicate Undisturbed(disk: Disk) {
    Together(
      && disk.Valid()
      && (forall f: Option<File> | f in disk.active.log && f.Some? ::
            f.value.durable && f.value.inode != 0 && f.value.content.Raw? && f.value.size == |f.value.content.data|)
      && (disk.journal.Entry().None? ==> forall e | e in disk.journal.log :: e.None?))
  }

  /** The marker is durable before anything else is. */
  method ReserveMarker(v: Volume, ghost tx: Transaction) returns (marker: Option<File>)
    requires v.Valid() && Safe(v.visited, tx, true) && AtRest(v.disk, tx)
    requires forall e | e in v.disk.journal.log :: e.None?
    modifies v
    ensures v.Valid() && v.faults >= old(v.faults) && Safe(v.visited, tx, true) && AtRest(v.disk, tx)
    ensures v.disk.journal == old(v.disk).journal && v.disk.active == old(v.disk).active
    ensures marker.Some? ==> v.disk.factory.log == [marker]
    ensures marker.Some? ==> old(v.disk).factory.Entry().None?
    ensures marker.None? ==> v.faults > old(v.faults) || old(v.disk).factory.Entry().Some?
  {
    hide Safe;
    ghost var visited := v.visited;
    var created := v.CreatePublished(Factory);
    if created.None? { return None; }
    BeginConsistent(v.disk, tx, true);
    SafeAdded(visited, v.disk, tx, true);
    FlushedAlready(v.disk.factory);
    visited := v.visited;
    var ok := v.SyncPublished(Factory);
    if !ok { return None; }
    assert v.visited == visited;
    ok := v.SyncDirectory(Factory);
    if !ok { return None; }
    BeginConsistent(v.disk, tx, true);
    SafeAdded(visited, v.disk, tx, true);
    marker := created;
  }

  /** An empty record slot, once the marker is durable and the slot is ignored. */
  method ReserveRecord(v: Volume, ghost tx: Transaction) returns (entry: Option<File>)
    requires v.Valid() && Safe(v.visited, tx, true) && AtRest(v.disk, tx)
    requires (forall e | e in v.disk.journal.log :: e.None?) && None !in v.disk.factory.log
    modifies v
    ensures v.Valid() && v.faults >= old(v.faults) && Safe(v.visited, tx, true) && AtRest(v.disk, tx)
    ensures v.disk.factory == old(v.disk).factory && v.disk.active == old(v.disk).active
    ensures entry.Some? ==> v.disk.journal.Entry() == entry && Unrecorded(v.disk) && entry.value.content == Raw([])
    ensures entry.None? ==> v.faults > old(v.faults)
  {
    hide Safe;
    var refused := v.Fails();
    if refused { return None; }
    ghost var visited := v.visited;
    var ok := v.SyncDirectory(Journal);
    if !ok { return None; }
    BeginConsistent(v.disk, tx, true);
    SafeAdded(visited, v.disk, tx, true);
    visited := v.visited;
    assert v.disk.journal.Entry().None?;
    entry := v.CreatePublished(Journal);
    if entry.None? { return; }
    BeginConsistent(v.disk, tx, true);
    SafeAdded(visited, v.disk, tx, true);
  }

  /** The request fits what the directories show. */
  predicate Begins(disk: Disk, replacement: Bytes, reference: Observation)
    requires disk.active.log != [] && disk.journal.log != [] && disk.factory.log != []
  {
    && |replacement| <= ASSET_LIMIT
    && disk.active.Entry().Some? && Observed(disk.active.Entry().value) == reference
    && disk.journal.Entry().None? && disk.factory.Entry().None?
  }

  /** Checks the request against the active file and the record slot, and makes the
      directories it found durable. Nothing is reserved yet. */
  method Qualify(v: Volume, migration: nat, operation: nat, path: nat, replacement: Bytes, reference: Observation)
    returns (tx: Option<Transaction>)
    requires v.Valid() && Undisturbed(v.disk)
    modifies v`disk, v`visited, v`faults, v`halted
    ensures v.Valid() && v.faults >= old(v.faults)
    ensures v.disk.active.Entry() == old(v.disk).active.Entry() && v.disk.journal == old(v.disk).journal
    ensures v.disk.factory.Entry() == old(v.disk).factory.Entry()
    ensures tx.Some? ==>
      && AtRest(v.disk, tx.value) && v.disk.journal.Entry().None? && (forall e | e in v.disk.journal.log :: e.None?)
      && tx.value.Before() == reference && tx.value.replacement == replacement
      && |replacement| <= ASSET_LIMIT && v.disk.active.Entry().Some?
      && Observed(v.disk.active.Entry().value) == reference
    ensures tx.None? && v.faults == old(v.faults) ==> !Begins(old(v.disk), replacement, reference)
  {
    tx := None;
    if |replacement| > ASSET_LIMIT { return; }
    var failed := v.Fails();
    var current := v.disk.active.Entry();
    if failed || current.None? || Observed(current.value) != reference { return; }
    var ok := v.SyncDirectory(Active);
    if !ok { return; }
    ok := v.SyncDirectory(Factory);
    if !ok || v.disk.journal.Entry().Some? { return; }
    tx := Some(Transaction(migration, operation, path, current.value.mode, BytesOf(current.value.content), replacement,
                           Stat(current.value)));
  }

  /** Reserves the marker and the slot, then writes the prepared record. Every crash
      from the reservation on is consistent, and a granted handle has its record
      durable. */
  method BeginDurable(v: Volume, migration: nat, operation: nat, path: nat, replacement: Bytes, reference: Observation)
    returns (p: Publication?, tx: Option<Transaction>)
    requires v.Valid() && Undisturbed(v.disk)
    modifies v
    ensures v.Valid() && v.faults >= old(v.faults)
    ensures tx.Some? ==>
      && Safe(v.visited, tx.value, true) && |replacement| <= ASSET_LIMIT
      && Requested(tx.value, replacement, reference, v.disk)
    ensures tx.None? ==> p == null && SameEntries(old(v.disk), v.disk)
    ensures p != null ==>
      fresh(p) && tx == Some(p.tx) && p.volume == v && p.Live(true) && Begun(p.h, p.handed, v.disk, p.tx)
    ensures p != null ==> Begins(old(v.disk), replacement, reference)
    ensures v.faults == old(v.faults) && Begins(old(v.disk), replacement, reference) ==> p != null
  {
    hide Safe, AtRest, Undisturbed, Begun, Kept, Handed;
    p := null;
    var qualified := Qualify(v, migration, operation, path, replacement, reference);
    tx := qualified;
    if qualified.None? { return; }
    v.Restart();
    ReservedSafe(v.disk, qualified.value);
    p := Reserve(v, qualified.value);
  }

  ghost predicate SameEntries(before: Disk, after: Disk)
    requires before.Valid()
  {
    && after.Valid()
    && after.active.Entry() == before.active.Entry() && after.journal == before.journal
    && after.factory.Entry() == before.factory.Entry()
  }

  predicate Requested(tx: Transaction, replacement: Bytes, reference: Observation, disk: Disk) {
    |disk.active.log| == 1 && tx.Before() == reference && tx.replacement == replacement
  }

  /** A granted handle: nothing uncertain, the prepared record durable. */
  ghost predicate Begun(h: Handle, handed: seq<Record>, disk: Disk, tx: Transaction) {
    Together(
      && disk.Valid() && Settled(h, disk) && Appliable(h)
      && handed == [PreparedRecord(tx)] && RecordDurable(PreparedRecord(tx), h, disk))
  }

  /** The marker, the slot and the first record, in this order. */
  method Reserve(v: Volume, tx: Transaction) returns (p: Publication?)
    requires v.Valid() && Safe(v.visited, tx, true) && AtRest(v.disk, tx)
    requires forall e | e in v.disk.journal.log :: e.None?
    modifies v
    ensures v.Valid() && v.faults >= old(v.faults)
    ensures Safe(v.visited, tx, true) && v.disk.active.log == old(v.disk).active.log
    ensures p != null ==> fresh(p) && tx == p.tx && p.volume == v && p.Live(true) && Begun(p.h, p.handed, v.disk, tx)
    ensures p != null ==> old(v.disk).factory.Entry().None?
    ensures p == null ==> v.faults > old(v.faults) || old(v.disk).factory.Entry().Some?
  {
    hide Safe, AtRest, Begun, Kept, Handed;
    p := null;
    var marker := ReserveMarker(v, tx);
    if marker.None? { return; }
    var entry := ReserveRecord(v, tx);
    if entry.None? { return; }
    p := WriteFirst(v, tx, entry.value, marker.value);
  }

  lemma ReservedSafe(disk: Disk, tx: Transaction)
    requires AtRest(disk, tx) && forall e | e in disk.journal.log :: e.None?
    ensures Safe({disk}, tx, true) && |disk.active.log| == 1
  {
    BeginConsistent(disk, tx, true);
  }

  method WriteFirst(v: Volume, tx: Transaction, entry: File, marker: File) returns (p: Publication?)
    requires v.Valid() && Safe(v.visited, tx, true) && AtRest(v.disk, tx) && Unrecorded(v.disk)
    requires v.disk.journal.Entry() == Some(entry) && entry.content == Raw([]) && v.disk.factory.log == [Some(marker)]
    modifies v
    ensures v.Valid() && v.faults >= old(v.faults)
    ensures Safe(v.visited, tx, true) && v.disk.active.log == old(v.disk).active.log
    ensures p != null ==>
      && fresh(p) && p.tx == tx && p.volume == v && p.Live(true) && Begun(p.h, p.handed, v.disk, tx)
    ensures p == null ==> v.faults > old(v.faults)
  {
    hide Kept, Settled, Safe, Writable, AtRest, Journalled, Intact;
    ghost var disk0 := v.disk;
    FirstKept(v.disk, tx, entry, marker, v.next);
    var h := FirstHandle(v.disk, entry, marker, tx);
    var q := new Publication.Open(v, tx, h);
    var s := q.WriteRecord(PreparedRecord(tx), true);
    FirstCourse(h, q.h, disk0, v.disk);
    if s == Ok { return q; }
    var _ := q.Surrender(true);
    p := null;
  }

  function FirstHandle(disk: Disk, entry: File, marker: File, tx: Transaction): Handle
    requires disk.active.log != [] && disk.active.Entry().Some?
  {
    Opened(disk.active.Entry().value, entry, marker, SeenNow(disk), Raw(tx.original), Raw([]),
           PreparedRecord(tx), None, false, false, false)
  }

  lemma FirstKept(disk: Disk, tx: Transaction, entry: File, marker: File, next: nat)
    requires AtRest(disk, tx) && Below(disk.active, next) && Below(disk.journal, next) && Below(disk.factory, next)
    requires Unrecorded(disk) && disk.factory.log == [Some(marker)] && disk.journal.Entry() == Some(entry)
    requires entry.content == Raw([])
    ensures disk.active.log != [] && disk.active.Entry().Some?
    ensures
      var h := FirstHandle(disk, entry, marker, tx);
      && Kept(h, disk, next, tx) && Settled(h, disk) && Writable(PreparedRecord(tx), h, disk, tx, true)
      && h.candidate.None? && h.offer.None? && h.direction.None? && Handed([], h.direction, tx)
  {
    BeginKept(disk, tx, entry, marker, next, true);
  }

  lemma FirstCourse(h: Handle, h': Handle, disk: Disk, disk': Disk)
    requires Journalled(h, h', disk, disk')
    ensures SameCourse(h, h') && disk'.active == disk.active
  {
  }

  // ----- interrupted recovery -----

  /** Grants fresh authority over interrupted evidence when the observation accepts
      it and the existing barrier can be made durable again. */
  method BeginRecovery(
    v: Volume, request: Request, reference: Observation, saved: Bytes, ghost tx: Transaction, ghost strict: bool)
    returns (p: Publication?)
    requires v.Valid() && Safe(v.visited, tx, strict) && reference == tx.Before()
    modifies v
    ensures v.Valid() && v.faults >= old(v.faults)
    ensures Safe(v.visited, tx, strict) && v.disk.active.log == old(v.disk).active.log
    ensures v.disk.journal.log == old(v.disk).journal.log
    ensures p != null ==> fresh(p) && p.tx == tx && p.volume == v && p.Live(strict)
    ensures p != null ==> p.Calm() && Granted(p.h, request.direction, v.disk)
    ensures p != null ==>
      ObserveInterrupted(old(v.disk), request, reference).Some? && Observe(saved, reference.mode) == reference
    ensures v.faults == old(v.faults) && ObserveInterrupted(old(v.disk), request, reference).Some? ==>
      Observe(saved, reference.mode) == reference ==> p != null
  {
    hide Safe, Kept, Settled, Handed, ObserveInterrupted, Granted, Below, Released, Consistent;
    p := null;
    SafeAt(v.visited, v.disk, tx, strict);
    var failed := v.Fails();
    if failed || Observe(saved, reference.mode) != reference { return; }
    var observed := ObserveInterrupted(v.disk, request, reference);
    if observed.None? { return; }
    var (image, record) := observed.value;
    var own := Transaction(
      request.migration, request.operation, request.path, reference.mode, saved, request.replacement, record.original);
    RecoveryGranted(v.disk, request, saved, image, record, own, tx, v.next, strict);
    var h := RecoveredHandle(v.disk, image, record, request.direction);
    var q := new Publication.Open(v, own, h);
    var s := Requalify(q, request.direction, strict);
    if s == Ok { return q; }
    var _ := q.Surrender(strict);
  }

  /** Makes the existing marker durable again before any authority is used. */
  method Requalify(q: Publication, direction: Direction, ghost strict: bool) returns (s: Status)
    requires q.Sound(strict) && q.Calm() && Granted(q.h, direction, q.volume.disk)
    modifies q`h, q.volume`disk, q.volume`visited, q.volume`faults, q.volume`halted
    ensures q.Sound(strict) && q.volume.faults >= old(q.volume.faults)
    ensures q.h == old(q.h) && q.volume.disk.active == old(q.volume.disk).active
    ensures q.volume.disk.journal == old(q.volume.disk).journal
    ensures s == Ok ==> q.Calm() && Granted(q.h, direction, q.volume.disk)
    ensures q.volume.faults == old(q.volume.faults) ==> s == Ok
  {
    hide Safe, Kept, Settled, Handed, Granted, Consistent, Below, Released;
    ghost var disk0, visited := q.volume.disk, q.volume.visited;
    SettledNow(q.h, disk0);
    s := q.Check();
    if s != Ok { return; }
    SafeAt(visited, disk0, q.tx, strict);
    MarkerFlushed(q.h, direction, disk0, q.volume.next, q.tx, strict);
    var ok := q.volume.SyncPublished(Factory);
    if !ok { return Operational; }
    SafeAdded(visited, q.volume.disk, q.tx, strict);
    ghost var flushed := q.volume.disk;
    s := q.SyncParent(Factory, strict);
    GrantedStays(q.h, direction, flushed, q.volume.disk);
    if s != Ok { return; }
    var refused := q.volume.Fails();
    if refused { return Conflict; }
    s := q.Check();
  }

  ghost function FlushedAt(disk: Disk): Disk
    requires disk.Valid() && disk.factory.Entry().Some?
  {
    disk.With(Factory, disk.factory.Flushed())
  }

  lemma MarkerFlushed(h: Handle, direction: Direction, disk: Disk, next: nat, tx: Transaction, strict: bool)
    requires Consistent(disk, tx, strict) && Kept(h, disk, next, tx) && Settled(h, disk) && Granted(h, direction, disk)
    ensures disk.factory.Entry().Some? && FlushedAt(disk).Valid()
    ensures Consistent(FlushedAt(disk), tx, strict) && Kept(h, FlushedAt(disk), next, tx)
    ensures Settled(h, FlushedAt(disk)) && Granted(h, direction, FlushedAt(disk))
  {
    hide Custodied, Fits, ValidRecord, Belongs, Allowed;
    assert Located(disk, h.pins[h.pending.descriptor]);
    var log, log' := disk.factory.log, FlushedAt(disk).factory.log;
    assert None in log' ==> None in log by {
      if None in log' {
        var i :| 0 <= i < |log'| && log'[i] == None;
        assert log[i] == None;
      }
    }
    assert FlushedAt(disk).Valid();
    FlushedSettled(h, disk, next);
  }

  lemma FlushedSettled(h: Handle, disk: Disk, next: nat)
    requires disk.Valid() && PinsKept(h, next) && Settled(h, disk)
    requires disk.factory.Entry().Some? && FlushedAt(disk).Valid()
    ensures Settled(h, FlushedAt(disk))
  {
    forall d | d in h.pins ensures Located(FlushedAt(disk), h.pins[d]) {
      assert Located(disk, h.pins[d]);
    }
  }

  lemma GrantedStays(h: Handle, direction: Direction, before: Disk, after: Disk)
    requires before.Valid() && after.Valid() && Granted(h, direction, before) && after.active == before.active
    ensures Granted(h, direction, after)
  {
  }

  /** A fresh recovery handle: committed to the granted direction, and ready to
      reverse whenever a crash could leave no other active file. */
  ghost predicate Granted(h: Handle, direction: Direction, disk: Disk)
    requires disk.Valid()
  {
    Together(
      && !h.closed && !h.finished && h.direction == Some(direction) && h.record.expected.Encoded?
      && !h.pendingClosed && !h.pendingRemoved
      && h.applyUsed && (direction == Forward ==> h.Forwarded())
      && (|disk.active.log| == 1 ==> ReverseReady(h, disk)))
  }

  lemma RecoveryGranted(disk: Disk, request: Request, saved: Bytes, image: Image, record: Record, own: Transaction,
                        tx: Transaction, next: nat, strict: bool)
    requires Consistent(disk, tx, strict)
    requires Below(disk.active, next) && Below(disk.journal, next) && Below(disk.factory, next)
    requires ObserveInterrupted(disk, request, tx.Before()) == Some((image, record))
    requires Observe(saved, tx.mode) == tx.Before()
    requires own == Transaction(request.migration, request.operation, request.path, tx.mode, saved, request.replacement,
                                record.original)
    ensures own == tx
    ensures disk.active.Entry().Some? && disk.journal.Entry().Some? && disk.factory.Entry().Some?
    ensures
      var h := RecoveredHandle(disk, image, record, request.direction);
      && Kept(h, disk, next, tx) && Settled(h, disk) && Granted(h, request.direction, disk)
      && Handed([], h.direction, tx)
  {
    RecoveryKept(disk, request, image, record, tx, next, strict);
    hide Kept, Settled, Consistent, Below;
  }

  /** Resolves the granted direction through the shared publication. */
  method Complete(p: Publication, ghost strict: bool) returns (s: Status)
    requires p.Live(strict) && p.h.direction.Some?
    requires strict && Restorable(p.h) ==> ReverseReady(p.h, p.volume.disk)
    modifies p, p.volume
    ensures p.Live(strict) && p.volume.faults >= old(p.volume.faults)
    ensures Absorbing(old(p.h), p.h, old(p.volume.disk), p.volume.disk)
    ensures s == Ok ==> p.Calm() && Concluded(p.h, p.volume.disk, p.tx) && p.h.direction == old(p.h).direction
    ensures
      old(p.Calm() && Granted(p.h, p.h.direction.value, p.volume.disk)) && p.volume.faults == old(p.volume.faults)
      ==> s == Ok
  {
    hide Kept, Settled, Safe, Handed, Released, Concluded, Absorbing, ReverseReady;
    if p.h.direction.value == Forward { s := p.Finish(strict); } else { s := p.Restore(strict); }
  }

  /** A whole interrupted recovery. Accepted evidence reaches its terminal record
      whenever no operation fails. */
  method Resolve(
    v: Volume, request: Request, reference: Observation, saved: Bytes, ghost tx: Transaction, ghost strict: bool)
    returns (p: Publication?, s: Status)
    requires v.Valid() && Safe(v.visited, tx, strict) && reference == tx.Before()
    requires strict ==> |v.disk.active.log| == 1
    modifies v
    ensures v.Valid() && v.faults >= old(v.faults) && Safe(v.visited, tx, strict)
    ensures Lasting(old(v.disk), v.disk)
    ensures s == Ok ==>
      p != null && p.tx == tx && p.volume == v && Concluded(p.h, v.disk, tx) && p.h.direction == Some(request.direction)
    ensures v.faults == old(v.faults) && ObserveInterrupted(old(v.disk), request, reference).Some? ==>
      Observe(saved, reference.mode) == reference ==> s == Ok
  {
    hide Kept, Settled, Safe, Handed, Released, Concluded, ObserveInterrupted, Granted, ReverseReady, Absorbing,
         FinalRecord;
    s := Conflict;
    ghost var disk0 := v.disk;
    p := BeginRecovery(v, request, reference, saved, tx, strict);
    ghost var disk1 := v.disk;
    LastingLogs(disk0, disk1);
    if p == null { return; }
    ghost var h := p.h;
    GrantedReady(h, request.direction, disk1);
    OutcomeKnown(h, disk1, v.next, tx);
    s := Complete(p, strict);
    AbsorbingLasts(h, p.h, disk1, v.disk);
    LastingOn(disk0, disk1, v.disk);
  }

  lemma GrantedReady(h: Handle, direction: Direction, disk: Disk)
    requires disk.Valid() && Granted(h, direction, disk)
    ensures h.direction == Some(direction) && !h.closed && (|disk.active.log| == 1 ==> ReverseReady(h, disk))
  {
  }

  // ----- any run -----

  /** A step of a run. A process may be killed at any operation of a call, and between two. */
  datatype Step =
    | Applying | Restoring | Finishing | Closing | Killing | Crashing | Flushing
    | Recovering(request: Request, saved: Bytes)

  ghost predicate Owned(p: Publication?, v: Volume, tx: Transaction, careful: bool)
    reads p, v`disk, v`next, v`visited
  {
    && v.Valid() && Safe(v.visited, tx, careful)
    && (p != null ==> p.volume == v && p.tx == tx && p.Live(careful))
  }

  /** In a careful run a live handle is certain, and ready if it may still reverse. */
  ghost predicate Careful(p: Publication?, v: Volume)
    reads p, v`disk
  {
    p != null ==> v.disk.Valid() && Settled(p.h, v.disk) && (Restorable(p.h) ==> ReverseReady(p.h, v.disk))
  }

  lemma ConcludedReady(h: Handle, disk: Disk, next: nat, tx: Transaction)
    requires disk.Valid() && Kept(h, disk, next, tx) && Settled(h, disk) && Concluded(h, disk, tx)
    ensures |disk.active.log| == 1 && ReverseReady(h, disk)
  {
    EntryHeld(h, disk, next, tx);
  }

  lemma SurvivedSafe(visited: set<Disk>, before: Disk, after: Disk, tx: Transaction, strict: bool)
    requires Safe(visited, tx, strict) && before in visited && AfterCrash(before, after)
    ensures Safe(visited + {after}, tx, strict) && |after.active.log| == 1 && Lasting(before, after)
  {
    CrashKeepsConsistent(before, after, tx, strict);
    CrashLasts(before, after, tx, strict);
  }

  method Crash(v: Volume, ghost tx: Transaction, ghost strict: bool)
    requires v.Valid() && Safe(v.visited, tx, strict)
    modifies v
    ensures v.Valid() && Safe(v.visited, tx, strict) && |v.disk.active.log| == 1
    ensures Lasting(old(v.disk), v.disk)
  {
    hide Safe, AfterCrash, Lasting;
    ghost var visited, before := v.visited, v.disk;
    v.PowerLoss();
    SurvivedSafe(visited, before, v.disk, tx, strict);
  }

  /** One call on the handle. A careful run gives the handle up, closed or not, once an
      operation has failed; whatever comes next may come in the same uptime. */
  method Call(step: Step, p: Publication, v: Volume, tx: Transaction, careful: bool) returns (p': Publication?)
    requires step.Applying? || step.Restoring? || step.Finishing?
    requires Owned(p, v, tx, careful) && (careful ==> Careful(p, v))
    modifies v, p
    ensures Owned(p', v, tx, careful) && (careful ==> Careful(p', v)) && Lasting(old(v.disk), v.disk)
    ensures p' == null || p' == p
  {
    hide Kept, Settled, Safe, Handed, Released, Concluded, ReverseReady, ImageDurable, Absorbing, FinalRecord;
    var s;
    var faults := v.faults;
    ghost var disk := v.disk;
    match step {
      case Applying =>
        s := p.Apply(careful);
        AppliedReady(p.h, v.disk);
      case Restoring =>
        s := p.Restore(careful);
      case Finishing =>
        s := p.Finish(careful);
    }
    p' := p;
    if s == Ok {
      CalledReady(p.h, v.disk, v.next, tx);
    } else if careful && v.faults > faults {
      ghost var disk1 := v.disk;
      var closes: bool := *;
      if closes { var _ := p.Close(careful); }
      LastingLogs(disk1, v.disk);
      LastingOn(disk, disk1, v.disk);
      p' := null;
    }
  }

  lemma AppliedReady(h: Handle, disk: Disk)
    requires disk.Valid()
    ensures ImageDurable(false, h, disk) ==> |disk.active.log| == 1 && ReverseReady(h, disk)
  {
  }

  lemma CalledReady(h: Handle, disk: Disk, next: nat, tx: Transaction)
    requires disk.Valid() && Settled(h, disk) && Kept(h, disk, next, tx)
    ensures Concluded(h, disk, tx) ==> |disk.active.log| == 1 && ReverseReady(h, disk)
  {
    if Concluded(h, disk, tx) { ConcludedReady(h, disk, next, tx); }
  }

  /** The caller's own flush of the directory that holds the active file. */
  method FlushActive(v: Volume, ghost tx: Transaction, ghost strict: bool)
    requires v.Valid() && Safe(v.visited, tx, strict)
    modifies v`disk, v`visited, v`faults, v`halted
    ensures v.Valid() && Safe(v.visited, tx, strict) && v.disk.journal == old(v.disk).journal
    ensures v.faults == old(v.faults) ==> |v.disk.active.log| == 1
  {
    hide Safe;
    ghost var visited := v.visited;
    FlushedActiveSafe(visited, v.disk, tx, strict);
    var _ := v.SyncDirectory(Active);
  }

  lemma FlushedActiveSafe(visited: set<Disk>, disk: Disk, tx: Transaction, strict: bool)
    requires Safe(visited, tx, strict) && disk in visited && disk.Valid()
    ensures Safe(visited + {disk.With(Active, disk.active.Synced())}, tx, strict)
  {
    hide Allowed;
    var flushed := disk.With(Active, disk.active.Synced());
    assert Consistent(disk, tx, strict);
    ConsistentKept(disk, flushed, tx, strict);
  }

  method Take(step: Step, p: Publication?, v: Volume, tx: Transaction, careful: bool) returns (p': Publication?)
    requires Owned(p, v, tx, careful) && (careful ==> Careful(p, v))
    modifies v, p
    ensures Owned(p', v, tx, careful) && (careful ==> Careful(p', v)) && Lasting(old(v.disk), v.disk)
    ensures p' == null || p' == p || fresh(p')
  {
    hide Kept, Settled, Safe, Handed, Released, ReverseReady, Granted, ObserveInterrupted, FinalRecord;
    p' := p;
    ghost var disk := v.disk;
    match step {
      case Closing =>
        if p != null {
          var _ := p.Close(careful);
          LastingLogs(disk, v.disk);
        }
        if careful { p' := null; }
      case Killing =>
        p' := null;
      case Crashing =>
        Crash(v, tx, careful);
        p' := null;
      case Flushing =>
        if p == null {
          FlushActive(v, tx, careful);
          LastingLogs(disk, v.disk);
        }
      case Recovering(request, saved) =>
        // The exclusive guard admits one live handle.
        var ready := !careful || request.direction == Forward || |v.disk.active.log| == 1;
        if p == null && ready {
          p' := BeginRecovery(v, request, tx.Before(), saved, tx, careful);
          LastingLogs(disk, v.disk);
          if p' != null { GrantedReady(p'.h, request.direction, v.disk); }
        }
      case _ =>
        if p != null { p' := Call(step, p, v, tx, careful); }
    }
    if v.halted { p' := null; }
    v.Revive();
  }

  /** An outcome, once durable, is the outcome from then on. */
  predicate Stable(ends: seq<Disk>) {
    forall i, j :: 0 <= i <= j < |ends| ==> Lasting(ends[i], ends[j])
  }

  lemma StableOne(disk: Disk)
    ensures Stable([disk])
  {
  }

  lemma StableMore(ends: seq<Disk>, disk: Disk)
    requires Stable(ends) && ends != [] && Lasting(ends[|ends| - 1], disk)
    ensures Stable(ends + [disk])
  {
    hide FinalRecord;
    var more := ends + [disk];
    forall i, j | 0 <= i <= j < |more| ensures Lasting(more[i], more[j]) {
      if j == |ends| && i < |ends| { assert Lasting(ends[i], ends[|ends| - 1]); }
    }
  }

  /** Any run: a durable begin, then any calls, kills, crashes and recoveries. A crash at any
      moment leaves the recorded phase beside one of its images, and an outcome that is durable
      after one step is the outcome after every later one. In a careful run a handle is given up
      once an operation has failed, and a recovery reverses only when the active directory is
      flushed; then a crash leaves evidence that some direction resolves, unless it caught a
      record still staged. `Witnesses` shows that neither care can be dropped. */
  method Run(v: Volume, migration: nat, operation: nat, path: nat, replacement: Bytes, reference: Observation,
             script: seq<Step>, careful: bool)
    returns (tx: Option<Transaction>, ghost ends: seq<Disk>)
    requires v.Valid() && Undisturbed(v.disk)
    modifies v
    ensures tx.Some? ==> tx.value.Before() == reference && tx.value.replacement == replacement
    ensures tx.Some? ==>
      forall d, c | d in v.visited && AfterCrash(d, c) :: c.Valid() && PhaseTable(c, tx.value)
    ensures tx.Some? && careful ==>
      forall d, c | d in v.visited && AfterCrash(d, c) && c.Valid() && Began(c) && c.factory.Entry().Some? ::
        Resolvable(c, tx.value) <==> c.journal.siblings == map[] && tx.value.Before() != tx.value.After()
    ensures tx.Some? ==> |ends| == |script| + 1 && ends[|script|] == v.disk && Stable(ends)
  {
    hide Safe, Undisturbed, Begun, AfterCrash, Owned, Careful, Lasting, Stable;
    var p;
    ends := [];
    p, tx := BeginDurable(v, migration, operation, path, replacement, reference);
    if tx.None? { return; }
    BegunOwned(p, v, tx.value, careful);
    if v.halted { p := null; }
    v.Revive();
    ends := [v.disk];
    StableOne(v.disk);
    for i := 0 to |script|
      invariant Owned(p, v, tx.value, careful) && (careful ==> Careful(p, v))
      invariant p == null || fresh(p)
      invariant |ends| == i + 1 && ends[i] == v.disk && Stable(ends)
    {
      p := Take(script[i], p, v, tx.value, careful);
      StableMore(ends, v.disk);
      ends := ends + [v.disk];
    }
    EveryCrash(p, v, tx.value, careful);
  }

  /** What safety says of every crash. */
  lemma EveryCrash(p: Publication?, v: Volume, tx: Transaction, careful: bool)
    requires Owned(p, v, tx, careful) && |tx.replacement| <= ASSET_LIMIT
    ensures forall d, c | d in v.visited && AfterCrash(d, c) :: c.Valid() && PhaseTable(c, tx)
    ensures careful ==>
      forall d, c | d in v.visited && AfterCrash(d, c) && c.Valid() && Began(c) && c.factory.Entry().Some? ::
        Resolvable(c, tx) <==> c.journal.siblings == map[] && tx.Before() != tx.After()
  {
    forall d, c | d in v.visited && AfterCrash(d, c) ensures c.Valid() && PhaseTable(c, tx) {
      CrashKeepsConsistent(d, c, tx, careful);
    }
    if careful {
      forall d, c | d in v.visited && AfterCrash(d, c) && c.Valid() && Began(c) && c.factory.Entry().Some?
        ensures Resolvable(c, tx) <==> c.journal.siblings == map[] && tx.Before() != tx.After()
      {
        StrictCrashResolvable(d, c, tx);
      }
    }
  }

  lemma BegunOwned(p: Publication?, v: Volume, tx: Transaction, careful: bool)
    requires v.Valid() && Safe(v.visited, tx, true) && |v.disk.active.log| == 1
    requires p != null ==> p.volume == v && p.tx == tx && p.Live(true) && Begun(p.h, p.handed, v.disk, tx)
    ensures Owned(p, v, tx, careful) && (careful ==> Careful(p, v))
    ensures Owned(null, v, tx, careful) && Careful(null, v)
  {
    hide Kept;
    SafeWeaker(v.visited, tx);
    if p != null { BegunReady(p.h, p.handed, v.disk, v.next, tx); }
  }

  lemma BegunReady(h: Handle, handed: seq<Record>, disk: Disk, next: nat, tx: Transaction)
    requires Begun(h, handed, disk, tx) && Kept(h, disk, next, tx)
    ensures Settled(h, disk) && ReverseReady(h, disk)
  {
  }

  lemma SafeWeaker(visited: set<Disk>, tx: Transaction)
    requires Safe(visited, tx, true)
    ensures Safe(visited, tx, false)
  {
    forall d | d in visited ensures Consistent(d, tx, false) {
      forall e, f | e in d.journal.log && f in d.active.log ensures Allowed(e, f, tx, false) {
        assert Allowed(e, f, tx, true);
      }
    }
  }
}
