/** Concrete states from which a reverse record is stranded by a crash, one for each way that
    leads there, and the two states that every recovery request refuses. */
module Witnesses {
  import opened Basics
  import opened PublicationRecords
  import opened Volumes
  import opened Transactions
  import opened Handles
  import opened PublicationSteps
  import opened Opening

  const MODE := 420
  const EXAMPLE := Transaction(1, 2, 3, MODE, [0], [1], Identity(10, MODE, 1, 5, 6))
  const ORIGINAL := File(10, MODE, 1, 5, 6, Raw([0]), true)
  const MARKER := File(12, PRIVATE_MODE, 0, 1, 1, Raw([]), true)

  /** What the staged replacement was when its name was still a staging name. */
  const STAGED := Identity(11, MODE, 1, 7, 8)

  /** The published replacement; naming it may have changed its change time. */
  function Replacement(ctime: nat): File { File(11, MODE, 1, 7, ctime, Raw([1]), true) }

  /** The forward intent, written before the rename. */
  const INTENT :=
    Record(1, 2, 3, EXAMPLE.Before(), EXAMPLE.After(), EXAMPLE.identity, Some(STAGED), Some(STAGED), None,
           Forward, ForwardPrepared, Pending)

  function Slot(record: Record): File { File(13, PRIVATE_MODE, 2, 1, 1, Encoded(record), true) }

  function Single(file: File): Dir { Dir([Some(file)], map[], {}, 1) }

  function Beside(active: Dir): Disk { Disk(active, Single(Slot(INTENT)), Single(MARKER)) }

  /** The forward intent is durable and its staged file waits beside the original. */
  const INTENDED := Beside(Single(ORIGINAL).Staged(File(11, MODE, 1, 7, STAGED.ctime, Raw([1]), true)))

  /** The disk right after the rename: a crash may still bring the original back. */
  function Named(ctime: nat): Disk { INTENDED.With(Active, INTENDED.active.Renamed(STAGED.inode, ctime)) }

  /** The same once the directory has been flushed. */
  function Flushed(ctime: nat): Disk { Named(ctime).With(Active, Named(ctime).active.Synced()) }

  lemma NamedLog(ctime: nat)
    ensures Named(ctime).Valid() && Flushed(ctime).Valid()
    ensures Named(ctime).active.log == [Some(ORIGINAL), Some(Replacement(ctime))]
    ensures Flushed(ctime).active.log == [Some(Replacement(ctime))]
  {
  }

  /** The inode that the reverse direction stages its copy of the original in. */
  const UNDO := Identity(14, MODE, 1, 20, 20)

  /** The record that a handle writes before its reverse rename strands a crash. */
  ghost predicate Strands(h: Handle, disk: Disk, c: Disk) {
    && disk.Valid() && Consistent(disk, EXAMPLE, false)
    && Kept(h, disk, 15, EXAMPLE) && Settled(h, disk) && h.direction == Some(Reverse) && h.Forwarded()
    && AfterCrash(Recorded(disk, Slot(ReversePreparedRecord(h, UNDO))), c) && !Resolvable(c, EXAMPLE)
  }

  /** A handle that is not ready to reverse strands some crash of its reverse record. */
  lemma UnreadyStrands(h: Handle, disk: Disk) returns (c: Disk)
    requires Consistent(disk, EXAMPLE, false) && Kept(h, disk, 15, EXAMPLE) && Settled(h, disk)
    requires h.direction == Some(Reverse) && h.Forwarded() && !ReverseReady(h, disk)
    requires None !in disk.factory.log
    requires forall f: Option<File> | f in disk.active.log && f.Some? :: f.value.inode != UNDO.inode
    ensures Strands(h, disk, c)
  {
    hide Kept, Settled, ReverseReady, Resolvable, Allowed, PendingRule, DirAfterCrash;
    var entry := Slot(ReversePreparedRecord(h, UNDO));
    ReverseWindowExact(h, UNDO, entry, disk, 15, EXAMPLE);
    c :| AfterCrash(Recorded(disk, entry), c) && !Resolvable(c, EXAMPLE);
  }

  lemma BesideConsistent(active: Dir, strict: bool)
    requires active.Valid()
    requires forall f | f in active.log :: f == Some(ORIGINAL) || exists n: nat :: f == Some(Replacement(n))
    ensures Beside(active).Valid() && Consistent(Beside(active), EXAMPLE, strict)
  {
    var disk := Beside(active);
    forall e, f | e in disk.journal.log && f in disk.active.log ensures Allowed(e, f, EXAMPLE, strict) {
      assert EXAMPLE.Before() != EXAMPLE.After();
    }
  }

  /** A process is killed after the forward rename and before the directory is flushed: no
      operation failed and every crash so far can be resolved. A reverse recovery is granted
      in the same uptime, writes its record, and a power loss brings the original back. */
  lemma KilledBeforeFlush() returns (h: Handle, c: Disk)
    ensures
      var disk := Named(9);
      && Consistent(disk, EXAMPLE, true)
      && ObserveInterrupted(disk, RequestFor(EXAMPLE, Reverse), EXAMPLE.Before()) == Some((After, INTENT))
      && h == RecoveredHandle(disk, After, INTENT, Reverse)
      && Strands(h, disk, c)
  {
    hide Kept, Settled, Consistent, Strands;
    var disk := Named(9);
    NamedLog(9);
    BesideConsistent(disk.active, true);
    BesideConsistent(disk.active, false);
    var request := RequestFor(EXAMPLE, Reverse);
    RecoveryKept(disk, request, After, INTENT, EXAMPLE, 15, true);
    h := RecoveredHandle(disk, After, INTENT, Reverse);
    assert Some(ORIGINAL) in disk.active.log && Some(ORIGINAL) != disk.active.Entry();
    c := UnreadyStrands(h, disk);
  }

  /** The handle of a forward publication that stopped after its rename, once it has turned
      to the reverse direction: the record it works from is still the forward intent. */
  function Turned(current: File, disk: Disk): Handle {
    Opened(current, Slot(INTENT), MARKER, SeenNow(disk), Raw([1]), Encoded(INTENT), INTENT, Some(Reverse),
           true, true, false)
  }

  lemma TurnedKept(active: Dir, ctime: nat)
    requires active.Valid() && active.Entry() == Some(Replacement(ctime))
    ensures Beside(active).Valid()
    ensures
      var disk, h := Beside(active), Turned(Replacement(ctime), Beside(active));
      Kept(h, disk, 15, EXAMPLE) && Settled(h, disk)
  {
    var disk, h := Beside(active), Turned(Replacement(ctime), Beside(active));
    assert disk.active.Entry() == Some(Replacement(ctime)) && EXAMPLE.Before() != EXAMPLE.After();
    OpenedPins(Replacement(ctime), Slot(INTENT), MARKER, h, 15);
    OpenedSettled(disk, h, Replacement(ctime), Slot(INTENT), MARKER);
    TurnedFits(h);
  }

  lemma TurnedFits(h: Handle)
    requires exists disk, ctime :: h == Turned(Replacement(ctime), disk)
    ensures Fits(h.written, h, EXAMPLE) && RolesKept(h, EXAMPLE) && RecordKept(h)
  {
    assert EXAMPLE.Before() != EXAMPLE.After();
  }

  /** The rename is flushed, the forward_published write then fails, and the same handle
      restores: its record still names the staging change time. */
  lemma FailedPublishedWrite() returns (h: Handle, c: Disk)
    ensures
      var disk := Flushed(9);
      h == Turned(Replacement(9), disk) && |disk.active.log| == 1 && Strands(h, disk, c)
  {
    hide Kept, Settled, Consistent, Strands;
    var disk := Flushed(9);
    NamedLog(9);
    BesideConsistent(disk.active, false);
    TurnedKept(disk.active, 9);
    h := Turned(Replacement(9), disk);
    c := UnreadyStrands(h, disk);
  }

  /** The flush after the rename fails and the same handle restores. The rename happened to keep
      the change time, so the recorded identity is right and only the directory is in doubt. */
  lemma FailedFlush() returns (h: Handle, c: Disk)
    ensures
      var disk := Named(8);
      && h == Turned(Replacement(8), disk) && h.written.forward == Some(h.active.pin.stat)
      && Strands(h, disk, c)
  {
    hide Kept, Settled, Consistent, Strands;
    var disk := Named(8);
    NamedLog(8);
    BesideConsistent(disk.active, false);
    TurnedKept(disk.active, 8);
    h := Turned(Replacement(8), disk);
    assert Some(ORIGINAL) in disk.active.log && Some(ORIGINAL) != disk.active.Entry();
    c := UnreadyStrands(h, disk);
  }

  /** A crash that leaves a record still staged beside the records: the evidence is sound, the
      marker and a record are there, and every recovery request is refused. */
  lemma LeftoverRecord() returns (before: Disk, after: Disk)
    ensures Consistent(before, EXAMPLE, true) && AfterCrash(before, after)
    ensures Began(after) && after.factory.Entry().Some? && EXAMPLE.Before() != EXAMPLE.After()
    ensures !Resolvable(after, EXAMPLE)
  {
    hide Consistent, AfterCrash;
    BesideConsistent(Single(ORIGINAL), true);
    var quiet := Beside(Single(ORIGINAL));
    var left := File(15, PRIVATE_MODE, 2, 1, 1, Encoded(INTENT), true);
    before := quiet.(journal := quiet.journal.Staged(left));
    StagedConsistent(quiet, left);
    after := before;
  }

  lemma StagedConsistent(disk: Disk, file: File)
    requires disk == Beside(Single(ORIGINAL)) && file.inode == 15
    requires Consistent(disk, EXAMPLE, true)
    ensures
      var staged := disk.(journal := disk.journal.Staged(file));
      Consistent(staged, EXAMPLE, true) && AfterCrash(staged, staged)
  {
    var staged := disk.(journal := disk.journal.Staged(file));
    assert disk.active.log == [Some(ORIGINAL)];
    assert staged.journal.siblings.Keys == {15} == staged.journal.residue;
    assert SurvivesAs(staged.active.log[0], staged.active.log[0]);
    assert SurvivesAs(staged.journal.log[0], staged.journal.log[0]);
    assert SurvivesAs(staged.factory.log[0], staged.factory.log[0]);
  }
}
