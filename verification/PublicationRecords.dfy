/** Journal records of one durable publication: the closed record shape, its
    validity, and the decision an interrupted recovery takes from it.
    SHA-256 is an injective constructor; JSON text is the record itself. */
module PublicationRecords {
  import opened Basics

  const ASSET_LIMIT := 1048576

  datatype Digest = Sha256(preimage: Bytes)
  datatype Observation = Observation(digest: Digest, mode: nat, bytes: nat)
  datatype Identity = Identity(inode: nat, mode: nat, bytes: nat, mtime: nat, ctime: nat)

  datatype Direction = Forward | Reverse
  datatype Phase =
    | Prepared | ForwardPrepared | ForwardPublished | ForwardCompleted
    | ReversePrepared | Restored | Aborted
  datatype Outcome = Pending | Completed(phase: Phase)

  datatype Record = Record(
    migration: nat, operation: nat, path: nat,
    before: Observation, after: Observation,
    original: Identity,
    forward: Option<Identity>, candidate: Option<Identity>, restored: Option<Identity>,
    direction: Direction, phase: Phase, outcome: Outcome)

  function Observe(data: Bytes, mode: nat): Observation {
    Observation(Sha256(data), mode, |data|)
  }

  predicate Terminal(phase: Phase) {
    phase == Restored || phase == Aborted || phase == ForwardCompleted
  }

  predicate ValidIdentity(identity: Identity, observation: Observation) {
    && identity.inode != 0
    && identity.mode == observation.mode
    && identity.bytes == observation.bytes
  }

  predicate NoneOrValid(identity: Option<Identity>, observation: Observation) {
    identity.Some? ==> ValidIdentity(identity.value, observation)
  }

  predicate SomeValid(identity: Option<Identity>, observation: Observation) {
    identity.Some? && ValidIdentity(identity.value, observation)
  }

  /** The record parser's and the record encoder's shared acceptance test.
      `reference` is the compiled catalog's observation of the selected path. */
  predicate ValidRecord(record: Record, reference: Observation) {
    && record.before == reference
    && record.after.bytes <= ASSET_LIMIT
    && record.after.mode == record.before.mode
    && ValidIdentity(record.original, record.before)
    && NoneOrValid(record.forward, record.after)
    && NoneOrValid(record.restored, record.before)
    && (if Terminal(record.phase)
        then record.outcome == Completed(record.phase) && record.candidate.None?
        else record.outcome == Pending)
    && match record.phase {
         case Prepared =>
           record.direction == Forward && record.forward.None? && record.candidate.None? && record.restored.None?
         case ForwardPrepared =>
           && record.direction == Forward && record.forward.Some?
           && SomeValid(record.candidate, record.after) && record.restored.None?
         case ForwardPublished =>
           record.direction == Forward && record.forward.Some? && record.candidate.None? && record.restored.None?
         case ForwardCompleted =>
           record.direction == Forward && record.forward.Some? && record.candidate.None? && record.restored.None?
         case ReversePrepared =>
           && record.direction == Reverse && record.forward.Some?
           && SomeValid(record.candidate, record.before) && record.restored.None?
         case Restored =>
           record.direction == Reverse && record.forward.Some? && record.restored.Some?
         case Aborted =>
           record.direction == Reverse && record.restored.None?
       }
  }

  datatype Image = Before | After

  predicate EqualUpToCtime(current: Identity, known: Option<Identity>) {
    known.Some? && current.(ctime := known.value.ctime) == known.value
  }

  predicate EqualFully(current: Identity, known: Option<Identity>) {
    known.Some? && current == known.value
  }

  /** Which image the current file is, when the record lets it be resolved in
      the requested direction. */
  function InterruptedImage(record: Record, current: Identity, observed: Observation, direction: Direction)
    : (image: Option<Image>)
  {
    if observed == record.before && direction != Reverse then None
    else if observed == record.before && record.phase in {Prepared, ForwardPrepared, Aborted} then
      if current == record.original then Some(Before) else None
    else if observed == record.before && record.phase == ReversePrepared then
      if EqualUpToCtime(current, record.candidate) then Some(Before) else None
    else if observed == record.before && record.phase == Restored then
      if EqualFully(current, record.restored) then Some(Before) else None
    else if observed == record.after then
      match record.phase
      case ForwardPrepared =>
        if EqualUpToCtime(current, record.forward) && EqualUpToCtime(current, record.candidate)
        then Some(After) else None
      case ForwardPublished => if EqualFully(current, record.forward) then Some(After) else None
      case ReversePrepared =>
        if direction == Reverse && EqualFully(current, record.forward) then Some(After) else None
      case ForwardCompleted =>
        if direction == Forward && EqualFully(current, record.forward) then Some(After) else None
      case _ => None
    else None
  }

  /** Some direction resolves the record against this image. */
  predicate Eligible(record: Record, current: Identity, observed: Observation) {
    || InterruptedImage(record, current, observed, Forward).Some?
    || InterruptedImage(record, current, observed, Reverse).Some?
  }

  /** The recovery request's own checks: the caller's replacement is the known
      after-image, and it differs from the original. */
  predicate ValidRequest(replacement: Bytes, after: Observation, reference: Observation) {
    && |replacement| <= ASSET_LIMIT
    && after != reference
    && Observe(replacement, reference.mode) == after
  }
}
