/** The installation planner: it classifies every reviewed row from durable evidence alone. */
module TransitionPlans {
  import opened Basics

  type Path = string

  const VERSION_MARKER := ".factory-version"

  /** A regular file of permission 0600. */
  const PRIVATE_MODE := 0x8180

  /** Every image is of a regular file. `settled` stands for device, owner, mode, links, size and modification time. */
  datatype Identity = Identity(inode: nat, settled: nat, changed: nat)
  datatype Image = Image(mode: nat, digest: nat, bytes: nat, identity: Option<Identity>)

  datatype Verb = Create | Replace | Retire | Retain
  datatype Stage = Prepared | Applied | ReversePrepared | Reversed
  datatype Phase = Preparing | Applying | Checking | MetadataPrepared | Committed
  datatype Entry = Entry(
    action: Verb, stage: Stage, before: Option<Image>, expected: Option<Image>,
    observed: Option<Image>, prepared: Option<Image>)

  /** One row as a record lists it. */
  datatype Recorded = Recorded(path: Path, entry: Entry)
  datatype Journal = Journal(reverse: bool, phase: Phase, entries: map<Path, Entry>)

  /** A reviewed row of the fixed table; a retired one has no image in the new installation. */
  datatype Role = Role(path: Path, retired: bool, required: bool)

  /** The qualified predecessor; `markers` are the historical spellings of its version marker. */
  datatype Baseline = Baseline(expected: map<Path, Option<Image>>, markers: seq<Image>)

  datatype Purpose = Repeat | Rollback | Recovery(backward: bool)

  datatype Evidence = Evidence(
    record: Journal, originals: map<Path, Entry>, recipe: seq<Role>, targets: map<Path, Image>,
    baseline: Baseline, backups: map<Path, Image>, files: map<Path, Image>, purpose: Purpose)

  /** The saved or generated bytes that a publication writes. */
  datatype Blob = Blob(digest: nat, bytes: nat)
  datatype Move = Move(path: Path, verb: Verb, before: Option<Image>, after: Option<Image>, payload: Option<Blob>)
  datatype Planned = Planned(move: Move, blocked: bool)

  function Lookup<V>(m: map<Path, V>, path: Path): Option<V> {
    if path in m then Some(m[path]) else None
  }

  predicate SameImage(a: Option<Image>, b: Option<Image>, identities: bool) {
    if a.None? || b.None? then a == b
    else
      && a.value.(identity := None) == b.value.(identity := None)
      && (identities ==> a.value.identity.Some? && a.value.identity == b.value.identity)
  }

  /** Naming a staged file may change its change time, and nothing else. */
  predicate SamePrepared(actual: Option<Image>, prepared: Option<Image>) {
    && actual.Some? && prepared.Some? && SameImage(actual, prepared, false)
    && actual.value.identity.Some? && prepared.value.identity.Some?
    && actual.value.identity.value.(changed := prepared.value.identity.value.changed) == prepared.value.identity.value
  }

  function Target(targets: map<Path, Image>, role: Role): Option<Image> {
    if role.retired then None else Lookup(targets, role.path)
  }

  predicate Backward(p: Purpose) { p.Rollback? || (p.Recovery? && p.backward) }

  /** A recovery of a finished installation only removes the pending marker. */
  predicate Cleanup(ev: Evidence) { ev.purpose.Recovery? && ev.record.phase == Committed }

  /** Repetition and rollback need a finished forward installation; cleanup keeps its direction. */
  predicate PurposeAllowed(ev: Evidence) {
    match ev.purpose
    case Repeat => ev.record.phase == Committed && !ev.record.reverse
    case Rollback => ev.record.phase == Committed && !ev.record.reverse
    case Recovery(backward) => ev.record.phase == Committed ==> backward == ev.record.reverse
  }

  // ----- what a record proves about a file -----

  predicate Done(stage: Stage) { stage == Applied || stage == Reversed }

  predicate Untouched(e: Entry, current: Option<Image>) { SameImage(current, e.before, true) }

  predicate Observed(e: Entry, current: Option<Image>) { e.observed.Some? && SameImage(current, e.observed, true) }

  predicate Staged(backward: bool, e: Entry, target: Option<Image>, current: Option<Image>) {
    && SamePrepared(current, e.prepared)
    && SameImage(current, if backward && e.stage == ReversePrepared then e.before else target, false)
  }

  /** The row's file is the original, the last one observed, or the one staged for it. */
  predicate Trusted(backward: bool, e: Entry, target: Option<Image>, current: Option<Image>) {
    if Done(e.stage) then SameImage(current, e.observed, true)
    else Untouched(e, current) || Observed(e, current) || Staged(backward, e, target, current)
  }

  predicate AtEither(e: Entry, target: Option<Image>, current: Option<Image>) {
    SameImage(current, e.before, false) || SameImage(current, target, false)
  }

  predicate Proven(e: Entry, current: Option<Image>) {
    Observed(e, current) || (!Done(e.stage) && Untouched(e, current))
  }

  /** The row may be moved in either direction: this record accounts for its file. */
  predicate Accountable(r: Journal, e: Entry, target: Option<Image>, current: Option<Image>) {
    && Trusted(r.reverse, e, target, current) && AtEither(e, target, current)
    && (r.phase == Committed && !r.reverse ==>
          SameImage(current, target, false) && (target.Some? ==> Proven(e, current)))
    && (r.phase == Committed && r.reverse ==>
          SameImage(current, e.before, false) && (current.Some? ==> Proven(e, current)))
  }

  /** Every managed row is accounted for. */
  predicate Resumable(r: Journal, recipe: seq<Role>, targets: map<Path, Image>, files: map<Path, Image>) {
    forall role | role in recipe && role.path in r.entries && r.entries[role.path].action != Retain ::
      Accountable(r, r.entries[role.path], Target(targets, role), Lookup(files, role.path))
  }

  // ----- qualification -----

  predicate Duplicated(rows: seq<Recorded>) {
    exists i, j :: 0 <= i < j < |rows| && rows[i].path == rows[j].path
  }

  predicate Foreign(rows: seq<Recorded>, selected: set<Path>) {
    exists i :: 0 <= i < |rows| && rows[i].path !in selected
  }

  /** Reads the rows of a journal or of a before-image manifest. */
  method Index(rows: seq<Recorded>, selected: set<Path>) returns (index: Option<map<Path, Entry>>)
    ensures index.None? <==> Duplicated(rows) || Foreign(rows, selected)
    ensures index.Some? ==>
      && |index.value| == |rows|
      && forall i | 0 <= i < |rows| :: rows[i].path in index.value && index.value[rows[i].path] == rows[i].entry
  {
    var m: map<Path, Entry> := map[];
    ghost var at: map<Path, nat> := map[];
    for i := 0 to |rows|
      invariant |m| == i
      invariant forall p | p in m :: p in at && at[p] < i && rows[at[p]].path == p
      invariant forall j | 0 <= j < i ::
        rows[j].path in m && rows[j].path in selected && m[rows[j].path] == rows[j].entry
      invariant forall j | 0 <= j < i :: rows[j].path in at && at[rows[j].path] == j
    {
      if rows[i].path in m || rows[i].path !in selected { return None; }
      m, at := m[rows[i].path := rows[i].entry], at[rows[i].path := i];
    }
    index := Some(m);
  }

  predicate Matches(b: Baseline, path: Path, image: Image) {
    && path in b.expected
    && (|| SameImage(Some(image), b.expected[path], false)
        || (path == VERSION_MARKER && exists m :: m in b.markers && SameImage(Some(image), Some(m), false)))
  }

  method Matching(b: Baseline, path: Path, image: Image) returns (projected: Option<Image>)
    ensures projected.Some? <==> Matches(b, path, image)
    ensures projected.Some? ==> SameImage(Some(image), projected, false)
  {
    if path !in b.expected { return None; }
    if SameImage(Some(image), b.expected[path], false) { return b.expected[path]; }
    if path != VERSION_MARKER { return None; }
    for i := 0 to |b.markers|
      invariant forall j | 0 <= j < i :: !SameImage(Some(image), Some(b.markers[j]), false)
    {
      if SameImage(Some(image), Some(b.markers[i]), false) { return Some(b.markers[i]); }
    }
    projected := None;
  }

  /** The private copy of a before-image is intact. */
  predicate SavedIntact(ev: Evidence, path: Path, image: Image) {
    && path in ev.backups && ev.backups[path].mode == PRIVATE_MODE
    && ev.backups[path].digest == image.digest && ev.backups[path].bytes == image.bytes
  }

  predicate OptionalRetirement(role: Role, original: Entry) {
    role.retired && !role.required && original.action == Retain
  }

  predicate RowQualified(ev: Evidence, role: Role) {
    && role.path in ev.originals && role.path in ev.record.entries
    && var o, e := ev.originals[role.path], ev.record.entries[role.path];
    && e.action == o.action && SameImage(e.before, o.before, true) && SameImage(e.expected, o.expected, false)
    && (OptionalRetirement(role, o) ==> SameImage(o.before, o.expected, false))
    && (o.action != Retain ==>
          && SameImage(Target(ev.targets, role), o.expected, false)
          && (o.before.Some? ==>
                Matches(ev.baseline, role.path, o.before.value) && SavedIntact(ev, role.path, o.before.value)))
  }

  /** The evidence is complete and agrees with freshly qualified images. */
  predicate Qualified(ev: Evidence) {
    && PurposeAllowed(ev) && |ev.originals| == |ev.record.entries| == |ev.recipe|
    && forall role | role in ev.recipe :: RowQualified(ev, role)
  }

  // ----- the plan -----

  function Requested(ev: Evidence, role: Role): Option<Image>
    requires role.path in ev.originals
  {
    if Backward(ev.purpose) then ev.originals[role.path].before else Target(ev.targets, role)
  }

  /** The image a purpose is for: a rollback and a backward recovery restore the original, a
      repetition and a forward recovery reach the target. */
  function Due(purpose: Purpose, original: Option<Image>, target: Option<Image>): Option<Image> {
    match purpose
    case Repeat => target
    case Rollback => original
    case Recovery(backward) => if backward then original else target
  }

  /** A managed row that is neither blocked nor left to cleanup is moved to that image. */
  predicate Directed(ev: Evidence, role: Role, row: Planned)
    requires role.path in ev.originals
  {
    ev.originals[role.path].action != Retain && !row.blocked
    && !(ev.purpose.Recovery? && ev.record.phase == Committed) ==>
      row.move.after == Due(ev.purpose, ev.originals[role.path].before, Target(ev.targets, role))
  }

  predicate Carries(payload: Option<Blob>, image: Image) {
    payload == Some(Blob(image.digest, image.bytes))
  }

  /** The move brings the current file to the requested image, and says how. */
  predicate MoveFits(m: Move, current: Option<Image>, requested: Option<Image>) {
    && m.before == current && m.after == requested
    && (m.verb == Retain <==> SameImage(current, requested, false))
    && (m.verb == Retire ==> requested.None? && current.Some?)
    && (m.verb == Create ==> requested.Some? && current.None?)
    && (m.verb == Replace ==> requested.Some? && current.Some?)
    && (requested.Some? ==> Carries(m.payload, requested.value))
  }

  /** A row is blocked exactly when its file is not accounted for; then it is left alone. */
  predicate RowPlanned(ev: Evidence, role: Role, row: Planned)
    requires role.path in ev.originals && role.path in ev.record.entries
  {
    var e, current := ev.record.entries[role.path], Lookup(ev.files, role.path);
    && row.move.path == role.path
    && (row.blocked <==> e.action != Retain && !Accountable(ev.record, e, Target(ev.targets, role), current))
    && (e.action == Retain ==> row.move.verb == Retain)
    && (e.action != Retain && (row.blocked || Cleanup(ev)) ==>
          row.move.verb == Retain && row.move.before == row.move.after == current)
    && (e.action != Retain && !row.blocked && !Cleanup(ev) ==> MoveFits(row.move, current, Requested(ev, role)))
  }

  predicate AllPlanned(ev: Evidence, rows: seq<Planned>) {
    && |rows| == |ev.recipe|
    && forall i | 0 <= i < |rows| :: RowQualified(ev, ev.recipe[i]) && RowPlanned(ev, ev.recipe[i], rows[i])
  }

  function VerbFor(current: Option<Image>, requested: Option<Image>): Verb {
    if SameImage(current, requested, false) then Retain
    else if requested.None? then Retire
    else if current.None? then Create
    else Replace
  }

  function BlobOf(image: Option<Image>): Option<Blob> {
    if image.None? then None else Some(Blob(image.value.digest, image.value.bytes))
  }

  lemma SameIdentity(a: Option<Image>, b: Option<Image>)
    requires SameImage(a, b, true)
    ensures a == b
  {
  }

  /** The first four cases: the file is preserved because nothing accounts for it. */
  method Preserved(ev: Evidence, role: Role) returns (blocked: bool)
    requires PurposeAllowed(ev) && RowQualified(ev, role)
    ensures blocked <==>
      !Accountable(ev.record, ev.record.entries[role.path], Target(ev.targets, role), Lookup(ev.files, role.path))
  {
    hide Matches, SavedIntact, SamePrepared;
    var original, progress := ev.originals[role.path], ev.record.entries[role.path];
    SameIdentity(progress.before, original.before);
    var current, expected := Lookup(ev.files, role.path), Target(ev.targets, role);
    var atBefore, atAfter := SameImage(current, original.before, false), SameImage(current, expected, false);
    var observedPhase := progress.stage == Applied || progress.stage == Reversed;
    var knownObserved := progress.observed.Some? && SameImage(current, progress.observed, true);
    var knownOriginal := !observedPhase && SameImage(current, original.before, true);
    var knownPrepared := SamePrepared(current, progress.prepared) && atAfter;
    if ev.record.reverse && progress.stage == ReversePrepared {
      knownPrepared := SamePrepared(current, progress.prepared) && atBefore;
    }
    var unconfirmedIntent := (progress.stage == Prepared || progress.stage == ReversePrepared)
      && !SameImage(current, original.before, true) && !knownObserved && !knownPrepared;
    var changedObserved := observedPhase && !SameImage(current, progress.observed, true);
    if changedObserved || unconfirmedIntent {
      blocked := true;
    } else if Cleanup(ev) && ev.record.reverse {
      blocked := !atBefore || (current.Some? && !knownObserved && !knownOriginal);
      blocked := blocked || (!atBefore && !atAfter);
    } else if ev.record.phase == Committed && !ev.record.reverse {
      blocked := !atAfter || (expected.Some? && !knownObserved && !knownOriginal);
      blocked := blocked || (!atBefore && !atAfter);
    } else {
      blocked := !atBefore && !atAfter;
    }
  }

  /** Decides one managed row; its record and images are already qualified. */
  method Classify(ev: Evidence, role: Role, saved: Option<Blob>) returns (row: Planned)
    requires PurposeAllowed(ev) && RowQualified(ev, role) && ev.originals[role.path].action != Retain
    requires saved == BlobOf(ev.originals[role.path].before)
    ensures RowPlanned(ev, role, row) && Directed(ev, role, row)
  {
    hide Accountable, Matches, SavedIntact;
    var blocked := Preserved(ev, role);
    var original, current := ev.originals[role.path], Lookup(ev.files, role.path);
    var expected := Target(ev.targets, role);
    if blocked || Cleanup(ev) {
      row := Planned(Move(role.path, Retain, current, current, None), blocked);
    } else if Backward(ev.purpose) {
      row := Planned(
        Move(role.path, VerbFor(current, original.before), current, original.before, saved), false);
    } else {
      row := Planned(
        Move(role.path, VerbFor(current, expected), current, expected, BlobOf(expected)), false);
    }
  }

  method Qualify(ev: Evidence, role: Role) returns (ok: bool, saved: Option<Blob>)
    requires role.path in ev.originals && ev.originals[role.path].action != Retain
    ensures ok <==>
      && SameImage(Target(ev.targets, role), ev.originals[role.path].expected, false)
      && (ev.originals[role.path].before.Some? ==>
            && Matches(ev.baseline, role.path, ev.originals[role.path].before.value)
            && SavedIntact(ev, role.path, ev.originals[role.path].before.value))
    ensures ok ==> saved == BlobOf(ev.originals[role.path].before)
  {
    var original := ev.originals[role.path];
    ok, saved := false, None;
    if !SameImage(Target(ev.targets, role), original.expected, false) { return; }
    if original.before.Some? {
      var projected := Matching(ev.baseline, role.path, original.before.value);
      if projected.None? || role.path !in ev.backups { return; }
      var copy := ev.backups[role.path];
      if copy.mode != PRIVATE_MODE || copy.digest != projected.value.digest || copy.bytes != projected.value.bytes {
        return;
      }
      saved := Some(Blob(copy.digest, copy.bytes));
    }
    ok := true;
  }

  /** Refuses, keeps or classifies one row. An optional retirement stays outside the plan unless
      a reversal finds it known to the predecessor. */
  method PlanRow(ev: Evidence, role: Role) returns (row: Option<Planned>)
    requires PurposeAllowed(ev)
    ensures row.None? <==> !RowQualified(ev, role)
    ensures row.Some? ==> RowPlanned(ev, role, row.value) && Directed(ev, role, row.value)
  {
    if role.path !in ev.originals || role.path !in ev.record.entries { return None; }
    var original, progress := ev.originals[role.path], ev.record.entries[role.path];
    if progress.action != original.action || !SameImage(progress.before, original.before, true)
       || !SameImage(progress.expected, original.expected, false) { return None; }
    if OptionalRetirement(role, original) {
      if !SameImage(original.before, original.expected, false) { return None; }
      var known := Backward(ev.purpose) && role.path in ev.baseline.expected;
      if !known { return Some(Planned(Move(role.path, Retain, None, None, None), false)); }
    }
    var current := Lookup(ev.files, role.path);
    if original.action == Retain { return Some(Planned(Move(role.path, Retain, current, current, None), false)); }
    var ok, saved := Qualify(ev, role);
    if !ok { return None; }
    var classified := Classify(ev, role, saved);
    row := Some(classified);
  }

  /** Refuses incomplete evidence; otherwise plans every row, and blocks none exactly when
      the record accounts for every managed file. */
  method BuildPlan(ev: Evidence) returns (plan: Option<seq<Planned>>)
    ensures plan.None? <==> !Qualified(ev)
    ensures plan.Some? ==>
      && AllPlanned(ev, plan.value)
      && ((forall i | 0 <= i < |plan.value| :: !plan.value[i].blocked)
          <==> Resumable(ev.record, ev.recipe, ev.targets, ev.files))
    ensures plan.Some? ==> forall i | 0 <= i < |plan.value| :: Directed(ev, ev.recipe[i], plan.value[i])
  {
    if !PurposeAllowed(ev) || |ev.originals| != |ev.record.entries| || |ev.record.entries| != |ev.recipe| {
      return None;
    }
    var rows: seq<Planned> := [];
    for i := 0 to |ev.recipe|
      invariant |rows| == i
      invariant forall j | 0 <= j < i ::
        RowQualified(ev, ev.recipe[j]) && RowPlanned(ev, ev.recipe[j], rows[j]) && Directed(ev, ev.recipe[j], rows[j])
    {
      var row := PlanRow(ev, ev.recipe[i]);
      if row.None? { return None; }
      rows := rows + [row.value];
    }
    UnblockedResumable(ev, rows);
    plan := Some(rows);
  }

  lemma UnblockedResumable(ev: Evidence, rows: seq<Planned>)
    requires AllPlanned(ev, rows)
    ensures (forall i | 0 <= i < |rows| :: !rows[i].blocked)
      <==> Resumable(ev.record, ev.recipe, ev.targets, ev.files)
  {
    hide Accountable, MoveFits, Matches, SavedIntact, SameImage;
    forall i | 0 <= i < |rows|
      ensures rows[i].blocked ==> !Resumable(ev.record, ev.recipe, ev.targets, ev.files)
    {
      assert RowQualified(ev, ev.recipe[i]) && RowPlanned(ev, ev.recipe[i], rows[i]) && ev.recipe[i] in ev.recipe;
    }
  }

  /** The same inode with the same content; only the change time may differ. */
  predicate Renamed(prepared: Option<Image>, current: Option<Image>) {
    && prepared.Some? && current.Some?
    && prepared.value.identity.Some? && current.value.identity.Some?
    && prepared.value.identity.value.inode == current.value.identity.value.inode
    && prepared.value.identity.value.settled == current.value.identity.value.settled
    && (prepared.value.mode, prepared.value.digest, prepared.value.bytes)
       == (current.value.mode, current.value.digest, current.value.bytes)
  }

  /** A finished forward installation may be repeated, rolled back or cleaned up forward, a
      finished reversal only cleaned up; an unfinished one is recovered, in either direction. */
  lemma PurposesByRecord(ev: Evidence)
    ensures PurposeAllowed(ev) <==>
      if ev.record.phase != Committed then ev.purpose.Recovery?
      else if ev.record.reverse then ev.purpose == Recovery(true)
      else ev.purpose != Recovery(true)
  {
  }

  /** A row that the plan moves denotes the recorded original, the last image observed for
      it, or the file staged for it, whatever the stage of the record. */
  lemma OnlyOwnedMoved(ev: Evidence, role: Role, row: Planned)
    requires RowQualified(ev, role) && RowPlanned(ev, role, row) && row.move.verb != Retain
    ensures
      var e, current := ev.record.entries[role.path], Lookup(ev.files, role.path);
      && e.action != Retain && !row.blocked && !Cleanup(ev)
      && (|| current == ev.originals[role.path].before || current == e.observed
          || Renamed(e.prepared, current))
      && !SameImage(current, row.move.after, false)
  {
    SameIdentity(ev.record.entries[role.path].before, ev.originals[role.path].before);
  }

  /** Which rows are blocked does not depend on the direction asked for. */
  lemma DirectionFree(ev: Evidence, other: Purpose, role: Role, row: Planned, opposite: Planned)
    requires RowQualified(ev, role) && RowPlanned(ev, role, row)
    requires RowPlanned(ev.(purpose := other), role, opposite)
    ensures row.blocked == opposite.blocked
  {
  }
}
