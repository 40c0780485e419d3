/** A durable terminal record, and why nothing that follows replaces it. */
module Outcomes {
  import opened Basics
  import opened PublicationRecords
  import opened Volumes
  import opened Transactions
  import opened Handles
  import opened RecordWrites
  import opened ImagePublication
  import opened Completion

  /** The terminal record, once it is the only one a crash can show. */
  function FinalRecord(disk: Disk): Option<Record> {
    if |disk.journal.log| == 1 && IsTerminal(disk.journal.log[0])
    then Some(disk.journal.log[0].value.content.record)
    else None
  }

  predicate Lasting(before: Disk, after: Disk) {
    FinalRecord(before).Some? ==> FinalRecord(after) == FinalRecord(before)
  }

  lemma LastingOn(a: Disk, b: Disk, c: Disk)
    requires Lasting(a, b) && Lasting(b, c)
    ensures Lasting(a, c)
  {
  }

  lemma LastingLogs(before: Disk, after: Disk)
    requires after.journal.log == before.journal.log
    ensures Lasting(before, after)
  {
  }

  /** A handle that passes a whole check knows the outcome and has chosen its direction. */
  lemma OutcomeKnown(h: Handle, disk: Disk, next: nat, tx: Transaction)
    requires disk.Valid() && Kept(h, disk, next, tx) && Settled(h, disk)
    ensures FinalRecord(disk).Some? ==> Terminal(h.written.phase) && h.direction.Some?
  {
    hide Custodied, NamesKept, RolesKept, ValidRecord, Belongs;
  }

  /** Turning a checked handle to the reverse direction keeps it, and with a durable outcome
      leaves it nothing to undo. */
  lemma ReverseLatched(h: Handle, handed: seq<Record>, disk: Disk, next: nat, tx: Transaction, strict: bool)
    requires disk.Valid() && Kept(h, disk, next, tx) && Settled(h, disk) && h.record.expected.Encoded?
    requires h.direction != Some(Forward) && Handed(handed, h.direction, tx)
    ensures
      var h' := h.(direction := Some(Reverse));
      && Kept(h', disk, next, tx) && Settled(h', disk) && Handed(handed, h'.direction, tx)
      && (h.Forwarded() && (strict ==> ReverseReady(h, disk)) ==> Publishable(true, h', disk, strict))
    ensures h.direction.Some? ==> h.direction == Some(Reverse)
    ensures Terminal(h.written.phase) || FinalRecord(disk).Some? ==> !h.Forwarded()
  {
    hide Kept, Settled, Handed, ReverseReady, Publishable, FinalRecord;
    Undirected(h, Reverse);
    DirectedKept(h, Reverse, handed, disk, next, tx, strict);
    OutcomeKnown(h, disk, next, tx);
    TerminalCertain(h, disk, next, tx);
  }

  lemma AbsorbingLasts(h: Handle, h': Handle, disk: Disk, disk': Disk)
    requires disk.Valid() && Absorbing(h, h', disk, disk')
    requires FinalRecord(disk).Some? ==> Terminal(h.written.phase)
    ensures Lasting(disk, disk')
  {
  }

  /** A known outcome leaves nothing to undo, and then nothing is written. */
  lemma UndoneLasts(h: Handle, h': Handle, disk: Disk, disk': Disk)
    requires FinalRecord(disk).Some? ==> !h.Forwarded()
    requires !h.Forwarded() ==> h' == h && disk' == disk
    ensures Lasting(disk, disk')
  {
  }

  lemma CrashLasts(before: Disk, after: Disk, tx: Transaction, strict: bool)
    requires Consistent(before, tx, strict) && AfterCrash(before, after)
    ensures Lasting(before, after)
  {
    hide Allowed, SurvivesAs;
    CrashSelects(before, after, tx, strict);
  }
}
