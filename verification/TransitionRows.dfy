/** What an installation run may leave on disk, row by row, and which of it a new plan can
    resume. A name that was changed but not flushed may still denote what it denoted before. */
module TransitionRows {
  import opened Basics
  import opened TransitionPlans
  import RetentionRows

  /** What a power loss leaves: the record and the files. */
  datatype Crash = Crash(record: Journal, files: map<Path, Image>)

  /** A record, the files a reader sees, and what else a power loss may bring back. */
  datatype State = State(record: Journal, files: map<Path, Image>, doubt: map<Path, set<Option<Image>>>)

  function Possible(s: State, path: Path): set<Option<Image>> {
    {Lookup(s.files, path)} + if path in s.doubt then s.doubt[path] else {}
  }

  ghost predicate Shows(s: State, c: Crash) {
    c.record == s.record && forall p: Path :: Lookup(c.files, p) in Possible(s, p)
  }

  predicate CanResume(c: Crash, recipe: seq<Role>, targets: map<Path, Image>) {
    Resumable(c.record, recipe, targets, c.files)
  }

  /** The record accounts for everything a managed row may denote. */
  ghost predicate AllResume(s: State, recipe: seq<Role>, targets: map<Path, Image>) {
    forall role | role in recipe && role.path in s.record.entries && s.record.entries[role.path].action != Retain ::
      forall a | a in Possible(s, role.path) ::
        Accountable(s.record, s.record.entries[role.path], Target(targets, role), a)
  }

  /** That is, every power loss can be planned again. */
  lemma EveryCrashResumes(s: State, recipe: seq<Role>, targets: map<Path, Image>)
    ensures AllResume(s, recipe, targets) <==> forall c | Shows(s, c) :: CanResume(c, recipe, targets)
  {
    hide Accountable;
    if forall c | Shows(s, c) :: CanResume(c, recipe, targets) {
      forall role, a | role in recipe && role.path in s.record.entries
        && s.record.entries[role.path].action != Retain && a in Possible(s, role.path)
        ensures Accountable(s.record, s.record.entries[role.path], Target(targets, role), a)
      {
        var c := Crash(s.record, if a.Some? then s.files[role.path := a.value] else s.files - {role.path});
        assert Lookup(c.files, role.path) == a;
        assert Shows(s, c) && CanResume(c, recipe, targets);
      }
    }
  }

  // ----- steps of the disk -----

  function SavedAt(s: State, r: Journal): State { s.(record := r) }

  function NamedAt(s: State, path: Path, image: Image): State {
    State(s.record, s.files[path := image], s.doubt[path := Possible(s, path)])
  }

  function UnlinkedAt(s: State, path: Path): State {
    State(s.record, s.files - {path}, s.doubt[path := Possible(s, path)])
  }

  /** Flushing a directory settles every name in it. */
  function SyncedAt(s: State, directory: Path): State {
    s.(doubt := map p | p in s.doubt && RetentionRows.Parent(p) != directory :: s.doubt[p])
  }

  predicate Beside(a: Path, b: Path) { RetentionRows.Parent(a) == RetentionRows.Parent(b) }

  lemma SyncedPossible(s: State, path: Path)
    ensures forall p: Path ::
      Possible(SyncedAt(s, RetentionRows.Parent(path)), p)
        == (if Beside(p, path) then {Lookup(s.files, p)} else Possible(s, p))
  {
  }

  lemma NamedPossible(s: State, path: Path, image: Image)
    ensures Possible(NamedAt(s, path, image), path) == Possible(s, path) + {Some(image)}
    ensures forall p: Path | p != path :: Possible(NamedAt(s, path, image), p) == Possible(s, p)
  {
  }

  lemma UnlinkedPossible(s: State, path: Path)
    ensures Possible(UnlinkedAt(s, path), path) == Possible(s, path) + {None}
    ensures forall p: Path | p != path :: Possible(UnlinkedAt(s, path), p) == Possible(s, p)
  {
  }

  ghost predicate Genuine(s: State) {
    forall p: Path, a | a in Possible(s, p) && a.Some? :: a.value.identity.Some?
  }

  // ----- what a run starts from -----

  function Intent(backward: bool): Stage { if backward then ReversePrepared else Prepared }

  function Finish(backward: bool): Stage { if backward then Reversed else Applied }

  function Wanted(backward: bool, e: Entry, target: Option<Image>): Option<Image> {
    if backward then e.before else target
  }

  predicate Distinct(recipe: seq<Role>) {
    forall i, j :: 0 <= i < j < |recipe| ==> recipe[i].path != recipe[j].path
  }

  /** The unblocked part of a plan, seen from one row. */
  predicate RowReady(s: State, target: Option<Image>, m: Move, backward: bool) {
    && m.path in s.record.entries
    && var e := s.record.entries[m.path];
    && (e.action == Retain ==> m.verb == Retain)
    && (e.action != Retain ==>
          && MoveFits(m, Lookup(s.files, m.path), Wanted(backward, e, target))
          && Accountable(s.record, e, target, Lookup(s.files, m.path)))
  }

  /** An unblocked plan for this record and the files a reader sees. */
  predicate Ready(s: State, recipe: seq<Role>, targets: map<Path, Image>, moves: seq<Move>, backward: bool) {
    && |moves| == |recipe| && Distinct(recipe)
    && forall i | 0 <= i < |moves| ::
         moves[i].path == recipe[i].path && RowReady(s, Target(targets, recipe[i]), moves[i], backward)
  }

  lemma ReadyRow(
    start: State, recipe: seq<Role>, targets: map<Path, Image>, moves: seq<Move>, backward: bool, i: nat)
    requires Ready(start, recipe, targets, moves, backward) && i < |moves|
    ensures i < |recipe| && moves[i].path == recipe[i].path && moves[i].path in start.record.entries
    ensures RowReady(start, Target(targets, recipe[i]), moves[i], backward)
  {
    hide Accountable, MoveFits, Distinct;
  }

  // ----- which rows a power loss can strand -----

  /** The original or the last observed image, and one of the two the row may have. */
  predicate Known(e: Entry, target: Option<Image>, a: Option<Image>) {
    AtEither(e, target, a) && (Untouched(e, a) || Observed(e, a))
  }

  /** A move strands its row when it removes a recorded file, or when the row may denote what is
      neither the original nor an observed file: a file known only as a staged one, or the
      absence that a removal left. */
  predicate Strands(e: Entry, target: Option<Image>, m: Move, shown: set<Option<Image>>) {
    && m.verb != Retain
    && ((m.after.None? && e.before.Some?) || exists a | a in shown :: !Known(e, target, a))
  }

  /** Some moved row lies in the same directory, so that its flush settles this one too. */
  predicate Shared(moves: seq<Move>, path: Path) {
    exists m | m in moves :: m.verb != Retain && Beside(path, m.path)
  }

  /** A retained row lingers when a power loss may still bring something else back and nothing
      flushes its directory, or when the turned record does not account for it. */
  predicate Lingers(
    e: Entry, target: Option<Image>, m: Move, shown: set<Option<Image>>, current: Option<Image>, shared: bool,
    backward: bool)
  {
    && m.verb == Retain && e.action != Retain
    && ((!shared && shown != {current})
        || exists a | a in shown :: !(Trusted(backward, e, target, a) && AtEither(e, target, a)))
  }

  predicate RowSecure(start: State, target: Option<Image>, m: Move, shared: bool, backward: bool) {
    m.path in start.record.entries ==>
      var e, shown := start.record.entries[m.path], Possible(start, m.path);
      && !Strands(e, target, m, shown)
      && !Lingers(e, target, m, shown, Lookup(start.files, m.path), shared, backward)
  }

  /** No row of the plan strands or lingers. */
  predicate Secure(start: State, recipe: seq<Role>, targets: map<Path, Image>, moves: seq<Move>, backward: bool) {
    forall i | 0 <= i < |moves| && i < |recipe| ::
      RowSecure(start, Target(targets, recipe[i]), moves[i], Shared(moves, moves[i].path), backward)
  }

  /** Nothing that a power loss could bring back to a moved row is known only by its staged
      identity. One flush of the directory sees to it. */
  predicate RowDefinite(start: State, m: Move) {
    m.verb != Retain && m.path in start.record.entries ==>
      var e := start.record.entries[m.path];
      forall a | a in Possible(start, m.path) ::
        a == Lookup(start.files, m.path) || Untouched(e, a) || Observed(e, a) || !SamePrepared(a, e.prepared)
  }

  predicate Definite(start: State, moves: seq<Move>) {
    forall m | m in moves :: RowDefinite(start, m)
  }

  // ----- where a row can be during a run -----

  /** What a run never rewrites in a row. */
  predicate SameSelection(e: Entry, f: Entry) {
    f.action == e.action && f.before == e.before && f.expected == e.expected
  }

  /** Where a moved row can be between its recorded intent and its recorded result. */
  predicate RowPosition(
    e: Entry, f: Entry, m: Move, backward: bool, shown: set<Option<Image>>, a: Option<Image>)
  {
    && SameSelection(e, f)
    && (|| (f.stage == Intent(backward) && f.observed == e.observed && a in shown)
        || (f.stage == Intent(backward) && f.observed == e.observed && SameImage(a, m.after, false)
            && (m.after.Some? ==> SamePrepared(a, f.prepared)))
        || (f.stage == Finish(backward) && SameImage(a, m.after, false) && SameImage(a, f.observed, true)))
  }

  predicate RowLegal(start: State, s: State, m: Move, shared: bool, backward: bool) {
    && m.path in start.record.entries && m.path in s.record.entries
    && var e, f := start.record.entries[m.path], s.record.entries[m.path];
       var shown, now := Possible(start, m.path), Possible(s, m.path);
    if m.verb == Retain then
      && f == e && Lookup(s.files, m.path) == Lookup(start.files, m.path)
      && (now == shown || (shared && now == {Lookup(s.files, m.path)}))
    else forall a | a in now :: RowPosition(e, f, m, backward, shown, a)
  }

  /** No file outside the moved rows differs, and nothing else came into doubt. */
  ghost predicate Outside(start: State, s: State, moves: seq<Move>) {
    forall p: Path ::
      || (Lookup(s.files, p) == Lookup(start.files, p) && Possible(s, p) <= Possible(start, p))
      || exists m :: m in moves && m.path == p && m.verb != Retain
  }

  /** A state within a run that started at `start`. */
  ghost predicate Legal(start: State, s: State, moves: seq<Move>, backward: bool) {
    && s.record.reverse == backward && s.record.phase != Committed && Genuine(s)
    && s.record.entries.Keys == start.record.entries.Keys && Outside(start, s, moves)
    && forall i | 0 <= i < |moves| :: RowLegal(start, s, moves[i], Shared(moves, moves[i].path), backward)
  }

  predicate RowFinal(start: State, s: State, m: Move, shared: bool, backward: bool) {
    && m.path in start.record.entries && m.path in s.record.entries
    && var e, f := start.record.entries[m.path], s.record.entries[m.path];
       var current, now := Lookup(s.files, m.path), Possible(s, m.path);
    && SameSelection(e, f)
    && (if m.verb != Retain || shared then now == {current} else now == Possible(start, m.path))
    && (m.verb == Retain ==> current == Lookup(start.files, m.path))
    && (e.action != Retain || m.verb != Retain ==>
          f.stage == Finish(backward) && SameImage(current, m.after, false) && SameImage(current, f.observed, true))
  }

  /** The run is complete: every managed row is at the image that the plan asked for. */
  ghost predicate Final(start: State, s: State, moves: seq<Move>, backward: bool) {
    && s.record.reverse == backward && s.record.phase == Committed
    && s.record.entries.Keys == start.record.entries.Keys && Outside(start, s, moves)
    && forall i | 0 <= i < |moves| :: RowFinal(start, s, moves[i], Shared(moves, moves[i].path), backward)
  }

  // ----- what the run keeps, whatever strands -----

  /** The selection is kept, and each name denotes what it could denote at the start, or what
      the plan asked for. */
  ghost predicate CrashSafe(start: State, s: State, moves: seq<Move>) {
    && s.record.entries.Keys == start.record.entries.Keys
    && (forall m | m in moves && m.path in s.record.entries && m.path in start.record.entries ::
          SameSelection(start.record.entries[m.path], s.record.entries[m.path]))
    && forall p: Path, a | a in Possible(s, p) ::
         a in Possible(start, p)
         || exists m :: m in moves && m.path == p && m.verb != Retain && SameImage(a, m.after, false)
  }

  lemma LegalSafe(start: State, s: State, moves: seq<Move>, backward: bool)
    requires Legal(start, s, moves, backward) || Final(start, s, moves, backward)
    ensures CrashSafe(start, s, moves)
  {
    hide SameImage, SamePrepared, Shared;
    forall m | m in moves && m.path in s.record.entries && m.path in start.record.entries
      ensures SameSelection(start.record.entries[m.path], s.record.entries[m.path])
    {
      LegalSelection(start, s, moves, backward, m);
    }
    forall p: Path, a | a in Possible(s, p)
      ensures a in Possible(start, p)
        || exists m :: m in moves && m.path == p && m.verb != Retain && SameImage(a, m.after, false)
    {
      if !(Possible(s, p) <= Possible(start, p)) {
        var m :| m in moves && m.path == p && m.verb != Retain;
        LegalPlaced(start, s, moves, backward, m, a);
      }
    }
  }

  lemma LegalSelection(start: State, s: State, moves: seq<Move>, backward: bool, m: Move)
    requires Legal(start, s, moves, backward) || Final(start, s, moves, backward)
    requires m in moves
    ensures m.path in s.record.entries && m.path in start.record.entries
    ensures SameSelection(start.record.entries[m.path], s.record.entries[m.path])
  {
    hide SameImage, SamePrepared, Shared, Outside, Genuine;
    var i :| 0 <= i < |moves| && moves[i] == m;
    if Legal(start, s, moves, backward) {
      assert RowLegal(start, s, moves[i], Shared(moves, moves[i].path), backward);
      assert Lookup(s.files, m.path) in Possible(s, m.path);
    } else {
      assert RowFinal(start, s, moves[i], Shared(moves, moves[i].path), backward);
    }
  }

  lemma LegalPlaced(start: State, s: State, moves: seq<Move>, backward: bool, m: Move, a: Option<Image>)
    requires Legal(start, s, moves, backward) || Final(start, s, moves, backward)
    requires m in moves && m.verb != Retain && a in Possible(s, m.path)
    ensures a in Possible(start, m.path) || SameImage(a, m.after, false)
  {
    hide SameImage, SamePrepared, Shared, Outside, Genuine;
    var i :| 0 <= i < |moves| && moves[i] == m;
    if Legal(start, s, moves, backward) {
      assert RowLegal(start, s, moves[i], Shared(moves, moves[i].path), backward);
    } else {
      assert RowFinal(start, s, moves[i], Shared(moves, moves[i].path), backward);
    }
  }

  // ----- which states can be planned again -----

  lemma PositionTrusted(
    start: State, r: Journal, target: Option<Image>, m: Move, f: Entry, shown: set<Option<Image>>, a: Option<Image>)
    requires RowReady(start, target, m, r.reverse) && m.verb != Retain && r.phase != Committed
    requires RowPosition(start.record.entries[m.path], f, m, r.reverse, shown, a)
    requires !Strands(start.record.entries[m.path], target, m, shown)
    ensures Accountable(r, f, target, a)
  {
    var e := start.record.entries[m.path];
    assert m.after == Wanted(r.reverse, e, target);
  }

  /** What a reader sees of a retained row stays accounted for when the record turns. */
  lemma RetainedTurned(start: State, r: Journal, target: Option<Image>, m: Move)
    requires RowReady(start, target, m, r.reverse) && m.verb == Retain && r.phase != Committed
    requires start.record.entries[m.path].action != Retain
    ensures Accountable(r, start.record.entries[m.path], target, Lookup(start.files, m.path))
  {
  }

  lemma LegalRow(start: State, s: State, target: Option<Image>, m: Move, shared: bool, backward: bool)
    requires RowReady(start, target, m, backward) && RowLegal(start, s, m, shared, backward)
    requires s.record.reverse == backward && s.record.phase != Committed
    requires RowSecure(start, target, m, shared, backward) && s.record.entries[m.path].action != Retain
    ensures forall a | a in Possible(s, m.path) :: Accountable(s.record, s.record.entries[m.path], target, a)
  {
    hide Trusted, AtEither, SameImage, RowReady, Known;
    var e, f, shown := start.record.entries[m.path], s.record.entries[m.path], Possible(start, m.path);
    forall a | a in Possible(s, m.path) ensures Accountable(s.record, f, target, a) {
      if m.verb != Retain {
        PositionTrusted(start, s.record, target, m, f, shown, a);
      } else {
        assert a in shown;
      }
    }
  }

  lemma FinalRow(start: State, s: State, target: Option<Image>, m: Move, shared: bool, backward: bool)
    requires RowReady(start, target, m, backward) && RowFinal(start, s, m, shared, backward)
    requires s.record.reverse == backward && s.record.phase == Committed
    requires RowSecure(start, target, m, shared, backward) && s.record.entries[m.path].action != Retain
    ensures forall a | a in Possible(s, m.path) :: Accountable(s.record, s.record.entries[m.path], target, a)
  {
    var e, current := start.record.entries[m.path], Lookup(s.files, m.path);
    assert m.after == Wanted(backward, e, target);
    assert Possible(s, m.path) == {current};
    assert Accountable(s.record, s.record.entries[m.path], target, current);
  }

  /** Each state within a run can be planned again after every power loss, and so can the
      completed one, when no row strands or lingers. */
  lemma LegalResumes(
    start: State, s: State, recipe: seq<Role>, targets: map<Path, Image>, moves: seq<Move>, backward: bool)
    requires Ready(start, recipe, targets, moves, backward) && Secure(start, recipe, targets, moves, backward)
    requires Legal(start, s, moves, backward) || Final(start, s, moves, backward)
    ensures AllResume(s, recipe, targets)
  {
    hide RowReady, RowLegal, RowFinal, RowSecure, Accountable, Outside, Distinct, Shared, Genuine, Possible;
    forall i: nat | i < |recipe| && recipe[i].path in s.record.entries
      && s.record.entries[recipe[i].path].action != Retain
      ensures forall a | a in Possible(s, recipe[i].path) ::
        Accountable(s.record, s.record.entries[recipe[i].path], Target(targets, recipe[i]), a)
    {
      ReadyRow(start, recipe, targets, moves, backward, i);
      var shared := Shared(moves, moves[i].path);
      if Legal(start, s, moves, backward) {
        LegalRow(start, s, Target(targets, recipe[i]), moves[i], shared, backward);
      } else {
        FinalRow(start, s, Target(targets, recipe[i]), moves[i], shared, backward);
      }
    }
  }

  // ----- and which cannot -----

  lemma Unresumable(s: State, recipe: seq<Role>, targets: map<Path, Image>, i: nat, a: Option<Image>)
    requires i < |recipe| && recipe[i].path in s.record.entries && a in Possible(s, recipe[i].path)
    requires s.record.entries[recipe[i].path].action != Retain
    requires !Accountable(s.record, s.record.entries[recipe[i].path], Target(targets, recipe[i]), a)
    ensures !AllResume(s, recipe, targets)
  {
    assert recipe[i] in recipe;
  }

  /** Between the removal of a recorded file and the record of it, nothing accounts for the
      absence; and a recorded intent forgets why a staged file or an absence was trusted. */
  lemma StrandedBlocked(start: State, r: Journal, target: Option<Image>, m: Move, a: Option<Image>)
    requires RowReady(start, target, m, r.reverse) && m.verb != Retain && RowDefinite(start, m)
    requires m.path in r.entries
    requires r.entries[m.path] == start.record.entries[m.path].(stage := Intent(r.reverse))
    requires
      var e := start.record.entries[m.path];
      || (m.after.None? && e.before.Some? && a == None)
      || (a in Possible(start, m.path) && !Known(e, target, a))
    ensures !Accountable(r, r.entries[m.path], target, a)
  {
    assert m.after == Wanted(r.reverse, start.record.entries[m.path], target);
  }

  lemma TurnedBlocked(start: State, r: Journal, target: Option<Image>, m: Move, a: Option<Image>)
    requires m.path in r.entries && m.path in start.record.entries && r.entries[m.path] == start.record.entries[m.path]
    requires !(Trusted(r.reverse, start.record.entries[m.path], target, a)
               && AtEither(start.record.entries[m.path], target, a))
    ensures !Accountable(r, r.entries[m.path], target, a)
  {
  }

  /** A committed record accounts for nothing but the image it observed. */
  lemma CommittedBlocked(
    start: State, s: State, target: Option<Image>, m: Move, shared: bool, backward: bool, a: Option<Image>)
    requires RowFinal(start, s, m, shared, backward) && start.record.entries[m.path].action != Retain
    requires a != Lookup(s.files, m.path)
    ensures !Accountable(s.record, s.record.entries[m.path], target, a)
  {
  }
}
