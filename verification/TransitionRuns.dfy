/** Carrying out an installation plan: every state it passes through, and exactly when each of
    them can be planned again. */
module TransitionRuns {
  import opened Basics
  import opened TransitionPlans
  import opened TransitionRows
  import RetentionRows

  // ----- one row of a run -----

  /** Nothing but one row has changed, except that its directory may have been flushed. */
  ghost predicate OnlyAt(a: State, b: State, path: Path) {
    && a.record == b.record.(entries := a.record.entries) && a.record.entries.Keys == b.record.entries.Keys
    && (forall p | p in a.record.entries && p != path :: a.record.entries[p] == b.record.entries[p])
    && (forall p: Path | p != path :: Lookup(a.files, p) == Lookup(b.files, p))
    && (forall p: Path | p != path ::
          Possible(b, p) == Possible(a, p) || (Beside(p, path) && Possible(b, p) == {Lookup(b.files, p)}))
  }

  /** A state of the row's own steps. */
  ghost predicate Within(from: State, s: State, e: Entry, m: Move, backward: bool, shown: set<Option<Image>>) {
    Together(
      && OnlyAt(from, s, m.path) && Genuine(s) && m.path in s.record.entries
      && forall a | a in Possible(s, m.path) :: RowPosition(e, s.record.entries[m.path], m, backward, shown, a))
  }

  ghost predicate Covered(
    visited: set<State>, base: set<State>, from: State, e: Entry, m: Move, backward: bool, shown: set<Option<Image>>)
  {
    base <= visited && forall s | s in visited :: s in base || Within(from, s, e, m, backward, shown)
  }

  predicate Pending(s: State, e: Entry, m: Move, backward: bool, shown: set<Option<Image>>) {
    && s.record.reverse == backward && m.path in s.record.entries
    && s.record.entries[m.path] == e.(stage := Intent(backward))
    && Lookup(s.files, m.path) == m.before && Possible(s, m.path) <= shown
  }

  /** Nothing in the row's directory is in doubt. */
  ghost predicate Flushed(s: State, path: Path) {
    forall p: Path | Beside(p, path) :: Possible(s, p) == {Lookup(s.files, p)}
  }

  ghost predicate Settled(s: State, m: Move, backward: bool) {
    && m.path in s.record.entries && s.record.entries[m.path].stage == Finish(backward)
    && SameImage(Lookup(s.files, m.path), m.after, false)
    && SameImage(Lookup(s.files, m.path), s.record.entries[m.path].observed, true)
    && Flushed(s, m.path)
  }

  /** The recorded file is gone and the record still announces its removal. */
  predicate Gap(s: State, e: Entry, m: Move, backward: bool) {
    && s.record.reverse == backward && m.path in s.record.entries
    && s.record.entries[m.path] == e.(stage := Intent(backward)) && None in Possible(s, m.path)
  }

  // ----- the rows together -----

  ghost predicate Apart(moves: seq<Move>) {
    forall i, j :: 0 <= i < j < |moves| ==> moves[i].path != moves[j].path
  }

  lemma OnlyAtRow(
    start: State, a: State, b: State, moves: seq<Move>, i: nat, j: nat, backward: bool)
    requires j < |moves| && RowLegal(start, a, moves[j], Shared(moves, moves[j].path), backward)
    requires i < |moves| && moves[i].verb != Retain && moves[j].path != moves[i].path
    requires OnlyAt(a, b, moves[i].path)
    ensures RowLegal(start, b, moves[j], Shared(moves, moves[j].path), backward)
  {
    hide RowPosition;
    var p := moves[j].path;
    assert Beside(p, moves[i].path) ==> Shared(moves, p) by {
      if Beside(p, moves[i].path) { assert moves[i] in moves; }
    }
    assert Lookup(a.files, p) in Possible(a, p);
  }

  lemma OnlyAtLegal(start: State, a: State, b: State, moves: seq<Move>, i: nat, backward: bool)
    requires Legal(start, a, moves, backward) && Apart(moves) && i < |moves| && moves[i].verb != Retain
    requires moves[i].path in start.record.entries
    requires Within(a, b, start.record.entries[moves[i].path], moves[i], backward, Possible(start, moves[i].path))
    ensures Legal(start, b, moves, backward)
  {
    hide RowPosition, Shared, Genuine, Possible;
    forall j: nat | j < |moves| ensures RowLegal(start, b, moves[j], Shared(moves, moves[j].path), backward) {
      assert RowLegal(start, a, moves[j], Shared(moves, moves[j].path), backward);
      if j != i { OnlyAtRow(start, a, b, moves, i, j, backward); }
    }
    OnlyAtOutside(start, a, b, moves, i);
  }

  lemma OnlyAtOutside(start: State, a: State, b: State, moves: seq<Move>, i: nat)
    requires Outside(start, a, moves) && i < |moves| && moves[i].verb != Retain && OnlyAt(a, b, moves[i].path)
    ensures Outside(start, b, moves)
  {
    assert moves[i] in moves;
    forall p: Path
      ensures (Lookup(b.files, p) == Lookup(start.files, p) && Possible(b, p) <= Possible(start, p))
        || exists m :: m in moves && m.path == p && m.verb != Retain
    {
      if p != moves[i].path { assert Lookup(a.files, p) in Possible(a, p); }
    }
  }

  /** Every moved row is either waiting for its turn or settled. */
  ghost predicate Progress(start: State, s: State, moves: seq<Move>, backward: bool, done: set<nat>) {
    forall j: nat | j < |moves| && moves[j].verb != Retain :: moves[j].path in start.record.entries
      && (if j in done then Settled(s, moves[j], backward)
          else Pending(s, start.record.entries[moves[j].path], moves[j], backward, Possible(start, moves[j].path)))
  }

  lemma OnlyAtProgress(start: State, a: State, b: State, moves: seq<Move>, i: nat, backward: bool, done: set<nat>)
    requires Progress(start, a, moves, backward, done) && Apart(moves) && i < |moves|
    requires OnlyAt(a, b, moves[i].path) && Settled(b, moves[i], backward) && a.record.reverse == b.record.reverse
    ensures Progress(start, b, moves, backward, done + {i})
  {
    hide SameImage, Possible, Flushed;
    forall j: nat | j < |moves| && moves[j].verb != Retain
      ensures
        if j in done + {i} then Settled(b, moves[j], backward)
        else Pending(b, start.record.entries[moves[j].path], moves[j], backward, Possible(start, moves[j].path))
    {
      if j != i {
        assert moves[j].path != moves[i].path;
        if j in done {
          StillFlushed(a, b, moves[i].path, moves[j].path);
        } else {
          StillPossible(a, b, moves[i].path, moves[j].path);
        }
      }
    }
  }

  lemma StillPossible(a: State, b: State, path: Path, other: Path)
    requires OnlyAt(a, b, path) && other != path
    ensures Possible(b, other) <= Possible(a, other)
  {
    assert Lookup(a.files, other) in Possible(a, other);
  }

  lemma StillFlushed(a: State, b: State, path: Path, other: Path)
    requires OnlyAt(a, b, path) && Flushed(a, other) && Flushed(b, path)
    ensures Flushed(b, other)
  {
    forall p: Path | Beside(p, other) ensures Possible(b, p) == {Lookup(b.files, p)} {
      if p == path { assert Beside(path, path); }
    }
  }

  /** The states that a run has passed through; `first` are those the disk could show before. */
  ghost predicate Course(start: State, first: set<State>, visited: set<State>, moves: seq<Move>, backward: bool) {
    forall s | s in visited :: s in first || Legal(start, s, moves, backward)
  }

  /** Every finished removal has passed through its gap. */
  ghost predicate Gapped(start: State, visited: set<State>, moves: seq<Move>, backward: bool, done: set<nat>) {
    forall j: nat | j < |moves| && j in done && moves[j].verb == Retire :: moves[j].path in start.record.entries
      && exists s :: s in visited && Gap(s, start.record.entries[moves[j].path], moves[j], backward)
  }

  lemma CourseGrows(
    start: State, first: set<State>, from: State, base: set<State>, visited: set<State>, moves: seq<Move>, i: nat,
    backward: bool)
    requires Course(start, first, base, moves, backward) && Legal(start, from, moves, backward) && Apart(moves)
    requires i < |moves| && moves[i].verb != Retain && moves[i].path in start.record.entries
    requires Covered(visited, base, from, start.record.entries[moves[i].path], moves[i], backward,
                     Possible(start, moves[i].path))
    ensures Course(start, first, visited, moves, backward)
  {
    hide Legal, Within, Apart, Possible;
    forall s | s in visited && s !in base ensures Legal(start, s, moves, backward) {
      OnlyAtLegal(start, from, s, moves, i, backward);
    }
  }

  /** All intents are recorded and no file has changed. */
  ghost predicate Announced(start: State, s: State, moves: seq<Move>, backward: bool) {
    && s.record.reverse == backward && s.record.phase != Committed && s.files == start.files
    && s.doubt == start.doubt && s.record.entries.Keys == start.record.entries.Keys
    && forall i | 0 <= i < |moves| ::
         && moves[i].path in start.record.entries && moves[i].path in s.record.entries
         && var e := start.record.entries[moves[i].path];
         s.record.entries[moves[i].path] == if moves[i].verb == Retain then e else e.(stage := Intent(backward))
  }

  lemma AnnouncedLegal(
    start: State, s: State, recipe: seq<Role>, targets: map<Path, Image>, moves: seq<Move>, backward: bool)
    requires Ready(start, recipe, targets, moves, backward) && Genuine(start)
    requires Announced(start, s, moves, backward)
    ensures Legal(start, s, moves, backward) && Progress(start, s, moves, backward, {})
  {
    hide Accountable, SameImage, Distinct, Shared, SamePrepared;
    assert forall p: Path :: Possible(s, p) == Possible(start, p);
    forall i: nat | i < |moves|
      ensures RowLegal(start, s, moves[i], Shared(moves, moves[i].path), backward)
      ensures moves[i].verb != Retain ==>
        Pending(s, start.record.entries[moves[i].path], moves[i], backward, Possible(start, moves[i].path))
    {
      ReadyRow(start, recipe, targets, moves, backward, i);
    }
  }

  lemma ReadyMoves(start: State, recipe: seq<Role>, targets: map<Path, Image>, moves: seq<Move>, backward: bool)
    requires Ready(start, recipe, targets, moves, backward)
    ensures Apart(moves)
    ensures forall m | m in moves && m.verb != Retain :: MoveFits(m, m.before, m.after)
    ensures forall m | m in moves :: m.path in start.record.entries
  {
    hide Accountable, MoveFits;
    forall m | m in moves
      ensures m.path in start.record.entries && (m.verb != Retain ==> MoveFits(m, m.before, m.after))
    {
      var i: nat :| i < |moves| && moves[i] == m;
      ReadyRow(start, recipe, targets, moves, backward, i);
      var wanted := Wanted(backward, start.record.entries[m.path], Target(targets, recipe[i]));
      FitsItself(m, Lookup(start.files, m.path), wanted);
    }
  }

  lemma FitsItself(m: Move, current: Option<Image>, requested: Option<Image>)
    ensures MoveFits(m, current, requested) ==> MoveFits(m, m.before, m.after)
  {
  }

  predicate ObservedRow(e: Entry, f: Entry, m: Move, backward: bool, current: Option<Image>) {
    if m.verb == Retain && e.action != Retain then
      f == e.(observed := current, stage := Finish(backward)) && SameImage(current, m.after, false)
    else f == e
  }

  /** A retained managed row still has the image of the plan, which is the requested one. */
  predicate Unmoved(s: State, m: Move) {
    m.verb == Retain && m.path in s.record.entries && s.record.entries[m.path].action != Retain ==>
      && SameImage(Lookup(s.files, m.path), m.before, true)
      && SameImage(Lookup(s.files, m.path), m.after, false)
  }

  predicate AllUnmoved(s: State, moves: seq<Move>) { forall i | 0 <= i < |moves| :: Unmoved(s, moves[i]) }

  lemma LegalUnmoved(
    start: State, s: State, recipe: seq<Role>, targets: map<Path, Image>, moves: seq<Move>, backward: bool)
    requires Ready(start, recipe, targets, moves, backward) && Legal(start, s, moves, backward)
    ensures AllUnmoved(s, moves)
  {
    hide Distinct, Accountable, Outside, RowPosition;
    forall i: nat | i < |moves| ensures Unmoved(s, moves[i]) {
      ReadyRow(start, recipe, targets, moves, backward, i);
      assert RowLegal(start, s, moves[i], Shared(moves, moves[i].path), backward);
      SelfImage(s, moves[i].path);
    }
  }

  predicate AllObserved(a: State, b: State, moves: seq<Move>, backward: bool) {
    && a.files == b.files && a.doubt == b.doubt && a.record.entries.Keys == b.record.entries.Keys
    && forall i | 0 <= i < |moves| ::
         && moves[i].path in a.record.entries && moves[i].path in b.record.entries
         && ObservedRow(a.record.entries[moves[i].path], b.record.entries[moves[i].path], moves[i], backward,
                        Lookup(b.files, moves[i].path))
  }

  lemma ObservedFinal(
    start: State, a: State, b: State, recipe: seq<Role>, targets: map<Path, Image>, moves: seq<Move>,
    backward: bool, done: set<nat>)
    requires Ready(start, recipe, targets, moves, backward) && Legal(start, a, moves, backward)
    requires Progress(start, a, moves, backward, done)
    requires forall i: nat | i < |moves| && moves[i].verb != Retain :: i in done
    requires AllObserved(a, b, moves, backward) && b.record.reverse == backward && b.record.phase == Committed
    ensures Final(start, b, moves, backward)
  {
    hide Distinct, Accountable, SameImage, RowPosition;
    assert forall p: Path :: Possible(a, p) == Possible(b, p);
    forall i: nat | i < |moves|
      ensures RowFinal(start, b, moves[i], Shared(moves, moves[i].path), backward)
    {
      ReadyRow(start, recipe, targets, moves, backward, i);
      assert RowLegal(start, a, moves[i], Shared(moves, moves[i].path), backward);
      SharedFlushed(start, a, moves, i, backward, done);
      ObservedRowFinal(
        start, a, b, Target(targets, recipe[i]), moves[i], Shared(moves, moves[i].path), backward);
    }
  }

  /** A row that shares its directory with a moved one has been flushed with it. */
  lemma SharedFlushed(start: State, s: State, moves: seq<Move>, i: nat, backward: bool, done: set<nat>)
    requires Progress(start, s, moves, backward, done) && i < |moves|
    requires forall j: nat | j < |moves| && moves[j].verb != Retain :: j in done
    ensures Shared(moves, moves[i].path) ==> Possible(s, moves[i].path) == {Lookup(s.files, moves[i].path)}
  {
    hide SameImage, Possible;
    if Shared(moves, moves[i].path) {
      var m :| m in moves && m.verb != Retain && Beside(moves[i].path, m.path);
      var j: nat :| j < |moves| && moves[j] == m;
      assert Settled(s, moves[j], backward);
    }
  }

  lemma ObservedRowFinal(
    start: State, a: State, b: State, target: Option<Image>, m: Move, shared: bool, backward: bool)
    requires RowReady(start, target, m, backward) && RowLegal(start, a, m, shared, backward) && Genuine(a)
    requires m.verb != Retain ==> Settled(a, m, backward)
    requires shared ==> Possible(a, m.path) == {Lookup(a.files, m.path)}
    requires a.files == b.files && a.doubt == b.doubt && m.path in b.record.entries
    requires ObservedRow(
      a.record.entries[m.path], b.record.entries[m.path], m, backward, Lookup(b.files, m.path))
    ensures RowFinal(start, b, m, shared, backward)
  {
    hide Accountable;
    assert Lookup(a.files, m.path) in Possible(a, m.path) && Possible(a, m.path) == Possible(b, m.path);
    assert Beside(m.path, m.path);
  }

  /** Every state that the run has passed through. */
  ghost predicate Visited(start: State, first: set<State>, visited: set<State>, moves: seq<Move>, backward: bool) {
    forall s | s in visited :: s in first || Legal(start, s, moves, backward) || Final(start, s, moves, backward)
  }

  lemma VisitedSafe(
    start: State, first: set<State>, visited: set<State>, recipe: seq<Role>, targets: map<Path, Image>,
    moves: seq<Move>, backward: bool)
    requires Ready(start, recipe, targets, moves, backward) && Visited(start, first, visited, moves, backward)
    ensures forall s | s in visited && s !in first :: CrashSafe(start, s, moves)
    ensures Secure(start, recipe, targets, moves, backward) ==>
      forall s | s in visited && s !in first :: AllResume(s, recipe, targets)
  {
    hide Ready, Legal, Final, AllResume, Secure, CrashSafe;
    forall s | s in visited && s !in first
      ensures CrashSafe(start, s, moves)
      ensures Secure(start, recipe, targets, moves, backward) ==> AllResume(s, recipe, targets)
    {
      LegalSafe(start, s, moves, backward);
      if Secure(start, recipe, targets, moves, backward) {
        LegalResumes(start, s, recipe, targets, moves, backward);
      }
    }
  }

  /** The states that a completed run has certainly passed through. */
  ghost predicate Passed(
    start: State, announced: State, final: State, visited: set<State>, moves: seq<Move>, backward: bool)
  {
    && announced in visited && Announced(start, announced, moves, backward)
    && final in visited && Final(start, final, moves, backward)
    && forall j: nat | j < |moves| && moves[j].verb == Retire :: moves[j].path in start.record.entries
         && exists s :: s in visited && Gap(s, start.record.entries[moves[j].path], moves[j], backward)
  }

  /** A row that strands or lingers has shown a file that no new plan accounts for. */
  lemma InsecureVisited(
    start: State, announced: State, final: State, visited: set<State>, recipe: seq<Role>,
    targets: map<Path, Image>, moves: seq<Move>, i: nat, backward: bool)
    requires Ready(start, recipe, targets, moves, backward) && Definite(start, moves)
    requires Passed(start, announced, final, visited, moves, backward) && i < |moves| && i < |recipe|
    requires !RowSecure(start, Target(targets, recipe[i]), moves[i], Shared(moves, moves[i].path), backward)
    ensures exists s :: s in visited && !AllResume(s, recipe, targets)
  {
    hide Accountable, Distinct, Shared, AllResume, MoveFits, Known, Trusted, AtEither, SamePrepared;
    ReadyRow(start, recipe, targets, moves, backward, i);
    var m, target := moves[i], Target(targets, recipe[i]);
    var e, shown := start.record.entries[m.path], Possible(start, m.path);
    assert Possible(announced, m.path) == shown && m in moves && RowDefinite(start, m);
    if Strands(e, target, m, shown) {
      StrandedVisited(start, announced, final, visited, recipe, targets, moves, i, backward);
    } else if a :| a in shown && !(Trusted(backward, e, target, a) && AtEither(e, target, a)) {
      TurnedBlocked(start, announced.record, target, m, a);
      Unresumable(announced, recipe, targets, i, a);
    } else {
      LingeringVisited(start, announced, final, visited, recipe, targets, moves, i, backward);
    }
  }

  lemma LingeringVisited(
    start: State, announced: State, final: State, visited: set<State>, recipe: seq<Role>,
    targets: map<Path, Image>, moves: seq<Move>, i: nat, backward: bool)
    requires Ready(start, recipe, targets, moves, backward)
    requires Passed(start, announced, final, visited, moves, backward) && i < |moves| && i < |recipe|
    requires moves[i].path in start.record.entries && start.record.entries[moves[i].path].action != Retain
    requires moves[i].verb == Retain && !Shared(moves, moves[i].path)
    requires Possible(start, moves[i].path) != {Lookup(start.files, moves[i].path)}
    ensures exists s :: s in visited && !AllResume(s, recipe, targets)
  {
    hide Accountable, Distinct, Shared, AllResume, MoveFits, SameImage;
    ReadyRow(start, recipe, targets, moves, backward, i);
    var m := moves[i];
    assert RowFinal(start, final, m, Shared(moves, m.path), backward);
    var a :| a in Possible(start, m.path) && a != Lookup(start.files, m.path);
    CommittedBlocked(start, final, Target(targets, recipe[i]), m, false, backward, a);
    Unresumable(final, recipe, targets, i, a);
  }

  lemma StrandedRetires(start: State, target: Option<Image>, m: Move, backward: bool)
    requires RowReady(start, target, m, backward) && m.verb != Retain
    ensures start.record.entries[m.path].action != Retain && (m.after.None? ==> m.verb == Retire)
  {
  }

  lemma AnnouncedPossible(start: State, s: State, moves: seq<Move>, backward: bool, path: Path)
    requires Announced(start, s, moves, backward)
    ensures Possible(s, path) == Possible(start, path)
  {
  }

  lemma StrandedVisited(
    start: State, announced: State, final: State, visited: set<State>, recipe: seq<Role>,
    targets: map<Path, Image>, moves: seq<Move>, i: nat, backward: bool)
    requires Ready(start, recipe, targets, moves, backward) && Definite(start, moves)
    requires Passed(start, announced, final, visited, moves, backward) && i < |moves| && i < |recipe|
    requires moves[i].path in start.record.entries
    requires Strands(
      start.record.entries[moves[i].path], Target(targets, recipe[i]), moves[i], Possible(start, moves[i].path))
    ensures exists s :: s in visited && !AllResume(s, recipe, targets)
  {
    hide Accountable, Ready, RowReady, RowDefinite, AllResume, Known, Final, Possible;
    ReadyRow(start, recipe, targets, moves, backward, i);
    var m, target := moves[i], Target(targets, recipe[i]);
    var e := start.record.entries[m.path];
    assert m in moves && RowDefinite(start, m);
    StrandedRetires(start, target, m, backward);
    if m.after.None? && e.before.Some? {
      var s :| s in visited && Gap(s, e, m, backward);
      StrandedBlocked(start, s.record, target, m, None);
      Unresumable(s, recipe, targets, i, None);
    } else {
      var a :| a in Possible(start, m.path) && !Known(e, target, a);
      AnnouncedPossible(start, announced, moves, backward, m.path);
      StrandedBlocked(start, announced.record, target, m, a);
      Unresumable(announced, recipe, targets, i, a);
    }
  }

  class Installation {
    var record: Journal

    /** The record on disk. */
    var saved: Journal
    var files: map<Path, Image>

    /** What else a power loss may bring back: names that were changed and not yet flushed. */
    ghost var doubt: map<Path, set<Option<Image>>>

    /** Every state the disk has been in. */
    ghost var visited: set<State>

    /** How many operations and health checks have failed. */
    ghost var faults: nat

    /** What a process that reads this record and these files starts from; `first` are the states
        that the disk may be in, of which the one that is read need not be durable. */
    constructor (
      journal: Journal, observed: map<Path, Image>, ghost unflushed: map<Path, set<Option<Image>>>,
      ghost first: set<State>)
      ensures record == saved == journal && files == observed && doubt == unflushed && visited == first
      ensures faults == 0
    {
      record, saved, files, doubt, visited, faults := journal, journal, observed, unflushed, first, 0;
    }

    ghost function Now(): State
      reads `record, `files, `doubt
    {
      State(record, files, doubt)
    }

    /** The record is replaced as a whole and flushed; a failure leaves the old or the new one. */
    method Save() returns (ok: bool)
      modifies `saved, `visited, `faults
      ensures visited == old(visited) + {Now()}
      ensures ok ==> saved == record
      ensures ok <==> faults == old(faults)
    {
      visited := visited + {Now()};
      var written: bool := *;
      if written { saved := record; }
      ok := *;
      ok := ok && written;
      if !ok { faults := faults + 1; }
    }

    /** Removes the name; the removal is not durable yet. */
    method Unlink(path: Path) returns (ok: bool)
      requires saved == record
      modifies `files, `doubt, `visited, `faults
      ensures visited == old(visited) + {UnlinkedAt(old(Now()), path)}
      ensures ok ==> Now() == UnlinkedAt(old(Now()), path)
      ensures ok <==> faults == old(faults)
    {
      ghost var after := UnlinkedAt(Now(), path);
      visited := visited + {after};
      var gone: bool := *;
      if gone { files, doubt := files - {path}, after.doubt; }
      ok := *;
      ok := ok && gone;
      if !ok { faults := faults + 1; }
    }

    /** Naming the staged file changes at most its change time; the name is not durable yet. */
    method Rename(path: Path, staged: Image) returns (ok: bool, ghost named: Image)
      requires saved == record && staged.identity.Some?
      modifies `files, `doubt, `visited, `faults
      ensures named.identity.Some? && SamePrepared(Some(named), Some(staged))
      ensures visited == old(visited) + {NamedAt(old(Now()), path, named)}
      ensures ok ==> Now() == NamedAt(old(Now()), path, named)
      ensures ok <==> faults == old(faults)
    {
      var now: int := *;
      var image := staged.(identity := Some(staged.identity.value.(changed := if now < 0 then 0 else now)));
      named := image;
      ghost var after := NamedAt(Now(), path, image);
      visited := visited + {after};
      var moved: bool := *;
      if moved { files, doubt := files[path := image], after.doubt; }
      ok := *;
      ok := ok && moved;
      if !ok { faults := faults + 1; }
    }

    /** Flushes a directory, or fails with or without having done so. */
    method Sync(directory: Path) returns (ok: bool)
      requires saved == record
      modifies `doubt, `visited, `faults
      ensures visited == old(visited) + {SyncedAt(old(Now()), directory)}
      ensures ok ==> Now() == SyncedAt(old(Now()), directory)
      ensures ok <==> faults == old(faults)
    {
      ghost var after := SyncedAt(Now(), directory);
      visited := visited + {after};
      var flushed: bool := *;
      if flushed { doubt := after.doubt; }
      ok := *;
      ok := ok && flushed;
      if !ok { faults := faults + 1; }
    }

    /** Removes the row's file and flushes its directory. */
    method Remove(m: Move, backward: bool, ghost e: Entry, ghost shown: set<Option<Image>>) returns (ok: bool)
      requires record == saved && Pending(Now(), e, m, backward, shown) && Genuine(Now())
      requires m.after.None? && m.before.Some?
      modifies `files, `doubt, `visited, `faults
      ensures Covered(visited, old(visited), old(Now()), e, m, backward, shown)
      ensures ok ==> Within(old(Now()), Now(), e, m, backward, shown) && Flushed(Now(), m.path)
      ensures ok ==> SameImage(Lookup(files, m.path), m.after, false)
      ensures ok ==> exists s :: s in visited && Gap(s, e, m, backward)
      ensures ok <==> faults == old(faults)
    {
      hide Covered, Within, Pending, Genuine, Gap, Flushed, Possible, UnlinkedAt, SyncedAt;
      ghost var from := Now();
      UnlinkedWithin(from, e, m, backward, shown);
      SyncedWithin(from, UnlinkedAt(from, m.path), e, m, backward, shown);
      UnlinkedNone(from, m.path);
      ok := Unlink(m.path);
      CoveredMore(old(visited), old(visited), from, UnlinkedAt(from, m.path), e, m, backward, shown);
      if !ok { return; }
      ghost var seen := visited;
      ok := Sync(RetentionRows.Parent(m.path));
      CoveredMore(
        seen, old(visited), from, SyncedAt(UnlinkedAt(from, m.path), RetentionRows.Parent(m.path)), e, m, backward,
        shown);
      assert UnlinkedAt(from, m.path) in visited;
    }

    /** Writes and flushes a sibling file with the payload. */
    method Stage(m: Move) returns (staged: Option<Image>)
      requires m.after.Some? && Carries(m.payload, m.after.value)
      modifies `faults
      ensures staged.Some? <==> faults == old(faults)
      ensures staged.Some? ==> staged.value.identity.Some? && SameImage(staged, m.after, false)
    {
      var inode, settled, changed: int := *, *, *;
      if inode < 0 || settled < 0 || changed < 0 {
        faults := faults + 1;
        return None;
      }
      staged := Some(Image(
        m.after.value.mode, m.payload.value.digest, m.payload.value.bytes, Some(Identity(inode, settled, changed))));
    }

    /** Stages the payload, records its identity, names it, and flushes its directory. */
    method Publish(m: Move, backward: bool, ghost e: Entry, ghost shown: set<Option<Image>>) returns (ok: bool)
      requires record == saved && Pending(Now(), e, m, backward, shown) && Genuine(Now())
      requires m.after.Some? && Carries(m.payload, m.after.value)
      modifies this
      ensures Covered(visited, old(visited), old(Now()), e, m, backward, shown)
      ensures ok ==> record == saved && Within(old(Now()), Now(), e, m, backward, shown) && Flushed(Now(), m.path)
      ensures ok ==> SameImage(Lookup(files, m.path), m.after, false)
      ensures ok <==> faults == old(faults)
    {
      hide Covered, Within, Genuine, Flushed, Possible, NamedAt, SyncedAt, SamePrepared;
      ghost var from, base := Now(), visited;
      CoveredNone(base, from, e, m, backward, shown);
      SelfImage(from, m.path);
      var staging := Stage(m);
      if staging.None? { return false; }
      var staged := staging.value;
      record := WithStaged(record, m.path, staged);
      ghost var prepared := Now();
      PreparedWithin(from, staged, e, m, backward, shown);
      ok := Save();
      CoveredMore(base, base, from, prepared, e, m, backward, shown);
      if !ok { return; }
      if !SameImage(Lookup(files, m.path), m.before, true) { return false; }
      ghost var named, seen := staged, visited;
      ok, named := Rename(m.path, staged);
      NamedWithin(from, staged, named, e, m, backward, shown);
      CoveredMore(seen, base, from, NamedAt(prepared, m.path, named), e, m, backward, shown);
      if !ok { return; }
      seen := visited;
      SyncedWithin(from, NamedAt(prepared, m.path, named), e, m, backward, shown);
      ok := Sync(RetentionRows.Parent(m.path));
      CoveredMore(
        seen, base, from, SyncedAt(NamedAt(prepared, m.path, named), RetentionRows.Parent(m.path)), e, m, backward,
        shown);
      NamedSame(prepared, m.path, staged, named, m.after);
    }

    /** Carries out one planned row: the file, then the record of what was observed. */
    method ApplyRow(m: Move, backward: bool, ghost e: Entry, ghost shown: set<Option<Image>>) returns (ok: bool)
      requires record == saved && Pending(Now(), e, m, backward, shown) && Genuine(Now())
      requires m.verb != Retain && MoveFits(m, m.before, m.after)
      modifies this
      ensures Covered(visited, old(visited), old(Now()), e, m, backward, shown)
      ensures ok ==> record == saved && Within(old(Now()), Now(), e, m, backward, shown) && Settled(Now(), m, backward)
      ensures ok && m.verb == Retire ==> exists s :: s in visited && Gap(s, e, m, backward)
      ensures ok <==> faults == old(faults)
    {
      hide Covered, Within, Genuine, Flushed, Possible, SameImage, Gap;
      ghost var from, base := Now(), visited;
      SelfImage(from, m.path);
      CoveredNone(base, from, e, m, backward, shown);
      FitsMove(m);
      if m.path !in record.entries || record.entries[m.path].stage != Intent(backward) { return false; }
      if !SameImage(Lookup(files, m.path), m.before, true) { return false; }
      if m.after.None? {
        ok := Remove(m, backward, e, shown);
      } else {
        ok := Publish(m, backward, e, shown);
      }
      if !ok { return; }
      var actual := Lookup(files, m.path);
      if !SameImage(actual, m.after, false) { return false; }
      WithinEntry(from, Now(), e, m, backward, shown);
      ok := RecordRow(m, backward, from, base, e, shown);
    }

    method RecordRow(
      m: Move, backward: bool, ghost from: State, ghost base: set<State>, ghost e: Entry,
      ghost shown: set<Option<Image>>)
      returns (ok: bool)
      requires record == saved && Within(from, Now(), e, m, backward, shown) && Flushed(Now(), m.path)
      requires Covered(visited, base, from, e, m, backward, shown) && m.path in record.entries
      requires SameImage(Lookup(files, m.path), m.after, false)
      modifies `record, `saved, `visited, `faults
      ensures Covered(visited, base, from, e, m, backward, shown) && old(visited) <= visited
      ensures ok ==> record == saved && Within(from, Now(), e, m, backward, shown) && Settled(Now(), m, backward)
      ensures ok <==> faults == old(faults)
    {
      hide Covered, Within, Possible, SameImage, Settled;
      RecordedWithin(from, Now(), e, m, backward, shown);
      ghost var seen := visited;
      var observed := record.entries[m.path].(observed := Lookup(files, m.path), stage := Finish(backward));
      record := record.(entries := record.entries[m.path := observed]);
      CoveredMore(seen, base, from, Now(), e, m, backward, shown);
      ok := Save();
    }

    /** Applies the rows of one phase: all but the version marker, or the version marker. */
    method ApplyRows(
      moves: seq<Move>, backward: bool, marker: bool, ghost start: State, ghost first: set<State>,
      ghost before: set<nat>)
      returns (ok: bool, ghost done: set<nat>)
      requires record == saved && Legal(start, Now(), moves, backward) && Apart(moves)
      requires Course(start, first, visited, moves, backward) && Progress(start, Now(), moves, backward, before)
      requires Gapped(start, visited, moves, backward, before)
      requires forall i: nat | i < |moves| && (moves[i].path == VERSION_MARKER) == marker :: i !in before
      requires forall m | m in moves && m.verb != Retain :: MoveFits(m, m.before, m.after)
      modifies this
      ensures Course(start, first, visited, moves, backward) && old(visited) <= visited
      ensures ok ==>
        && record == saved && Legal(start, Now(), moves, backward) && before <= done
        && Progress(start, Now(), moves, backward, done) && Gapped(start, visited, moves, backward, done)
        && (forall i: nat | i < |moves| && (moves[i].path == VERSION_MARKER) == marker && moves[i].verb != Retain ::
              i in done)
        && (forall i | i in done - before :: i < |moves| && (moves[i].path == VERSION_MARKER) == marker)
      ensures ok <==> faults == old(faults)
    {
      hide Legal, Apart, MoveFits, Progress, Gapped, Course, Within;
      done := before;
      for i := 0 to |moves|
        invariant record == saved && Legal(start, Now(), moves, backward) && before <= done
        invariant faults == old(faults)
        invariant Course(start, first, visited, moves, backward) && old(visited) <= visited
        invariant Progress(start, Now(), moves, backward, done) && Gapped(start, visited, moves, backward, done)
        invariant forall j: nat | j < i && (moves[j].path == VERSION_MARKER) == marker && moves[j].verb != Retain ::
          j in done
        invariant forall j | j in done - before :: j < i && (moves[j].path == VERSION_MARKER) == marker
      {
        if moves[i].verb != Retain && (moves[i].path == VERSION_MARKER) == marker {
          ok := ApplyMove(moves, i, backward, start, first, done);
          if !ok { return; }
          done := done + {i};
        }
      }
      ok := true;
    }

    method ApplyMove(
      moves: seq<Move>, i: nat, backward: bool, ghost start: State, ghost first: set<State>, ghost done: set<nat>)
      returns (ok: bool)
      requires record == saved && Legal(start, Now(), moves, backward) && Apart(moves)
      requires i < |moves| && i !in done && moves[i].verb != Retain
      requires MoveFits(moves[i], moves[i].before, moves[i].after)
      requires Course(start, first, visited, moves, backward) && Progress(start, Now(), moves, backward, done)
      requires Gapped(start, visited, moves, backward, done)
      modifies this
      ensures Course(start, first, visited, moves, backward) && old(visited) <= visited
      ensures ok ==>
        && record == saved && Legal(start, Now(), moves, backward)
        && Progress(start, Now(), moves, backward, done + {i})
        && Gapped(start, visited, moves, backward, done + {i})
      ensures ok <==> faults == old(faults)
    {
      hide RowLegal, Apart, RowPosition, Pending, Settled, Genuine, Gap, MoveFits, OnlyAt, Outside, Possible, Shared;
      ghost var from, base := Now(), visited;
      ghost var e, shown := start.record.entries[moves[i].path], Possible(start, moves[i].path);
      ok := ApplyRow(moves[i], backward, e, shown);
      CourseGrows(start, first, from, base, visited, moves, i, backward);
      if ok {
        OnlyAtLegal(start, from, Now(), moves, i, backward);
        OnlyAtProgress(start, from, Now(), moves, i, backward, done);
      }
    }

    /** Every intent is part of one record, written before any file changes. */
    method Announce(moves: seq<Move>, backward: bool, ghost start: State) returns (ok: bool)
      requires start == Now() && Apart(moves) && saved == record
      requires forall m | m in moves :: m.path in record.entries
      modifies `record, `saved, `visited, `faults
      ensures Announced(start, Now(), moves, backward)
      ensures visited == old(visited) + {Now()}
      ensures ok ==> saved == record
      ensures ok <==> faults == old(faults)
    {
      var entries := record.entries;
      for i := 0 to |moves|
        invariant entries.Keys == record.entries.Keys
        invariant forall j | i <= j < |moves| :: entries[moves[j].path] == record.entries[moves[j].path]
        invariant forall j | 0 <= j < i ::
          var e := record.entries[moves[j].path];
          entries[moves[j].path] == if moves[j].verb == Retain then e else e.(stage := Intent(backward))
      {
        if moves[i].verb != Retain {
          entries := entries[moves[i].path := entries[moves[i].path].(stage := Intent(backward))];
        }
      }
      record := Journal(backward, Applying, entries);
      ok := Save();
    }

    /** Saves a later phase of the same run. */
    method Advance(
      phase: Phase, moves: seq<Move>, backward: bool, ghost start: State, ghost first: set<State>,
      ghost done: set<nat>)
      returns (ok: bool)
      requires record == saved && phase != Committed && Legal(start, Now(), moves, backward)
      requires Course(start, first, visited, moves, backward) && Progress(start, Now(), moves, backward, done)
      requires Gapped(start, visited, moves, backward, done)
      modifies `record, `saved, `visited, `faults
      ensures Legal(start, Now(), moves, backward) && Progress(start, Now(), moves, backward, done)
      ensures Course(start, first, visited, moves, backward) && old(visited) <= visited
      ensures Gapped(start, visited, moves, backward, done)
      ensures ok ==> saved == record
      ensures ok <==> faults == old(faults)
    {
      hide Legal, Progress, Gap;
      PhaseLegal(start, Now(), phase, moves, backward, done);
      record := record.(phase := phase);
      ok := Save();
    }

    /** Retained managed rows are observed again; the committed record keeps what was seen. */
    method ObserveRetained(moves: seq<Move>, backward: bool) returns (ok: bool)
      requires Apart(moves) && forall m | m in moves :: m.path in record.entries
      modifies `record
      ensures record.reverse == old(record).reverse && record.phase == old(record).phase
      ensures ok ==> AllObserved(old(Now()), Now(), moves, backward)
      ensures ok <==> AllUnmoved(old(Now()), moves)
    {
      hide SameImage;
      ghost var first := record;
      for i := 0 to |moves|
        invariant files == old(files)
        invariant record.reverse == first.reverse && record.phase == first.phase
        invariant record.entries.Keys == first.entries.Keys
        invariant forall j | i <= j < |moves| :: record.entries[moves[j].path] == first.entries[moves[j].path]
        invariant forall j | 0 <= j < i ::
          ObservedRow(first.entries[moves[j].path], record.entries[moves[j].path], moves[j], backward,
                      Lookup(files, moves[j].path))
        invariant forall j | 0 <= j < i :: Unmoved(old(Now()), moves[j])
      {
        var m := moves[i];
        if m.verb == Retain && record.entries[m.path].action != Retain {
          var current := Lookup(files, m.path);
          assert Unmoved(old(Now()), m) <==> SameImage(current, m.before, true) && SameImage(current, m.after, false);
          if !SameImage(current, m.before, true) || !SameImage(current, m.after, false) { return false; }
          var entry := record.entries[m.path].(observed := current, stage := Finish(backward));
          record := record.(entries := record.entries[m.path := entry]);
        }
      }
      ok := true;
    }

    /** The forward or reverse part of a completion, up to the committed record. */
    method Execute(
      moves: seq<Move>, backward: bool, ghost start: State, ghost first: set<State>, ghost recipe: seq<Role>,
      ghost targets: map<Path, Image>)
      returns (ok: bool)
      requires Ready(start, recipe, targets, moves, backward) && Apart(moves)
      requires record == saved && Announced(start, Now(), moves, backward) && Genuine(start)
      requires forall m | m in moves && m.verb != Retain :: MoveFits(m, m.before, m.after)
      requires Course(start, first, visited, moves, backward) && Now() in visited
      modifies this
      ensures Visited(start, first, visited, moves, backward) && old(visited) <= visited
      ensures ok ==> saved == record && Passed(start, old(Now()), Now(), visited, moves, backward)
      ensures ok <==> faults == old(faults)
    {
      hide Ready, Announced, Legal, Final, Apart, MoveFits, Genuine, Progress, Gapped, Gap;
      ghost var announced := Now();
      AnnouncedLegal(start, announced, recipe, targets, moves, backward);
      NoneGapped(start, visited, moves, backward);
      ghost var done;
      ok, done := ApplyRows(moves, backward, false, start, first, {});
      if !ok { return; }
      ok := Advance(Checking, moves, backward, start, first, done);
      if !ok { return; }
      var healthy: bool := *;
      if !healthy {
        faults := faults + 1;
        return false;
      }
      ok := Advance(MetadataPrepared, moves, backward, start, first, done);
      if !ok { return; }
      ok, done := ApplyRows(moves, backward, true, start, first, done);
      if !ok { return; }
      ok := Commit(moves, backward, start, first, recipe, targets, done);
      if ok { NowPassed(start, announced, Now(), visited, moves, backward, done); }
    }

    method Commit(
      moves: seq<Move>, backward: bool, ghost start: State, ghost first: set<State>, ghost recipe: seq<Role>,
      ghost targets: map<Path, Image>, ghost done: set<nat>)
      returns (ok: bool)
      requires Ready(start, recipe, targets, moves, backward) && Apart(moves)
      requires record == saved && Legal(start, Now(), moves, backward)
      requires Course(start, first, visited, moves, backward) && Progress(start, Now(), moves, backward, done)
      requires forall i: nat | i < |moves| && moves[i].verb != Retain :: i in done
      requires Gapped(start, visited, moves, backward, done)
      modifies this
      ensures Visited(start, first, visited, moves, backward) && old(visited) <= visited
      ensures Gapped(start, visited, moves, backward, done)
      ensures ok ==> saved == record && Final(start, Now(), moves, backward) && Now() in visited
      ensures ok <==> faults == old(faults)
    {
      hide Ready, Final, Apart, Progress, Outside, RowPosition, ObservedRow, Possible, Gap, Shared, Genuine;
      ghost var before := Now();
      assert forall m | m in moves :: m.path in record.entries by {
        forall m | m in moves ensures m.path in record.entries {
          var i :| 0 <= i < |moves| && moves[i] == m;
          assert RowLegal(start, before, moves[i], Shared(moves, moves[i].path), backward);
        }
      }
      LegalUnmoved(start, before, recipe, targets, moves, backward);
      ok := ObserveRetained(moves, backward);
      if !ok { return; }
      record := record.(phase := Committed);
      ObservedFinal(start, before, Now(), recipe, targets, moves, backward, done);
      ok := Save();
    }

    /** A whole transition, forward or reverse, from any names in doubt. Every state it passes
        through is safe; every power loss in it can be planned again unless a row strands or
        lingers; and when one does, a completed run has met a power loss that cannot. The run
        completes exactly when no operation and no health check fails. */
    method Complete(
      moves: seq<Move>, backward: bool, ghost start: State, ghost first: set<State>, ghost recipe: seq<Role>,
      ghost targets: map<Path, Image>)
      returns (ok: bool)
      requires start == Now() && saved == record && visited == first && Genuine(start)
      requires Ready(start, recipe, targets, moves, backward)
      modifies this
      ensures first <= visited && forall s | s in visited && s !in first :: CrashSafe(start, s, moves)
      ensures Secure(start, recipe, targets, moves, backward) ==>
        forall s | s in visited && s !in first :: AllResume(s, recipe, targets)
      ensures ok && Definite(start, moves) ==>
        ((forall s | s in visited :: AllResume(s, recipe, targets))
         <==> (forall s | s in first :: AllResume(s, recipe, targets))
              && Secure(start, recipe, targets, moves, backward))
      ensures ok ==> saved == record && Final(start, Now(), moves, backward)
      ensures ok <==> faults == old(faults)
    {
      hide Ready, Announced, Legal, Final, Apart, MoveFits, AllResume, RowSecure, CrashSafe, Progress, Definite;
      ReadyMoves(start, recipe, targets, moves, backward);
      ok := Announce(moves, backward, start);
      AnnouncedLegal(start, Now(), recipe, targets, moves, backward);
      ghost var announced := Now();
      if ok { ok := Execute(moves, backward, start, first, recipe, targets); }
      VisitedSafe(start, first, visited, recipe, targets, moves, backward);
      if ok && Definite(start, moves) && !Secure(start, recipe, targets, moves, backward) {
        ghost var i: nat :| i < |moves| && i < |recipe|
          && !RowSecure(start, Target(targets, recipe[i]), moves[i], Shared(moves, moves[i].path), backward);
        InsecureVisited(start, announced, Now(), visited, recipe, targets, moves, i, backward);
      }
    }
  }

  lemma SelfImage(s: State, path: Path)
    requires Genuine(s)
    ensures SameImage(Lookup(s.files, path), Lookup(s.files, path), true)
  {
    assert Lookup(s.files, path) in Possible(s, path);
  }

  lemma PhaseLegal(
    start: State, s: State, phase: Phase, moves: seq<Move>, backward: bool, done: set<nat>)
    requires Legal(start, s, moves, backward) && Progress(start, s, moves, backward, done) && phase != Committed
    ensures
      var later := SavedAt(s, s.record.(phase := phase));
      Legal(start, later, moves, backward) && Progress(start, later, moves, backward, done)
  {
    hide RowPosition, SameImage, Shared;
    PreparedPossible(s, s.record.(phase := phase));
  }

  lemma NoneGapped(start: State, visited: set<State>, moves: seq<Move>, backward: bool)
    ensures Gapped(start, visited, moves, backward, {})
  {
  }

  lemma NowPassed(
    start: State, announced: State, final: State, visited: set<State>, moves: seq<Move>, backward: bool,
    done: set<nat>)
    requires announced in visited && Announced(start, announced, moves, backward)
    requires final in visited && Final(start, final, moves, backward)
    requires Gapped(start, visited, moves, backward, done)
    requires forall i: nat | i < |moves| && moves[i].verb != Retain :: i in done
    ensures Passed(start, announced, final, visited, moves, backward)
  {
    hide Announced, Final, Gap;
  }

  function WithStaged(r: Journal, path: Path, staged: Image): Journal
    requires path in r.entries
  {
    r.(entries := r.entries[path := r.entries[path].(prepared := Some(staged))])
  }

  lemma PreparedWithin(
    from: State, staged: Image, e: Entry, m: Move, backward: bool, shown: set<Option<Image>>)
    requires Pending(from, e, m, backward, shown) && Genuine(from)
    ensures Within(from, SavedAt(from, WithStaged(from.record, m.path, staged)), e, m, backward, shown)
  {
    hide SamePrepared;
    assert forall p: Path ::
      Possible(SavedAt(from, WithStaged(from.record, m.path, staged)), p) == Possible(from, p);
  }

  lemma NamedWithin(
    from: State, staged: Image, named: Image, e: Entry, m: Move, backward: bool, shown: set<Option<Image>>)
    requires Pending(from, e, m, backward, shown) && Genuine(from)
    requires named.identity.Some? && SamePrepared(Some(named), Some(staged))
    requires SameImage(Some(staged), m.after, false)
    ensures
      var prepared := SavedAt(from, WithStaged(from.record, m.path, staged));
      Within(from, NamedAt(prepared, m.path, named), e, m, backward, shown)
  {
    hide Possible;
    var prepared := SavedAt(from, WithStaged(from.record, m.path, staged));
    PreparedPossible(from, prepared.record);
    NamedPossible(prepared, m.path, named);
  }

  lemma PreparedPossible(s: State, r: Journal)
    ensures forall p: Path :: Possible(SavedAt(s, r), p) == Possible(s, p)
  {
  }

  lemma NamedSame(s: State, path: Path, staged: Image, named: Image, after: Option<Image>)
    requires SamePrepared(Some(named), Some(staged)) && SameImage(Some(staged), after, false)
    ensures SameImage(
      Lookup(SyncedAt(NamedAt(s, path, named), RetentionRows.Parent(path)).files, path), after, false)
  {
  }

  lemma FitsMove(m: Move)
    requires MoveFits(m, m.before, m.after) && m.verb != Retain
    ensures m.after.None? ==> m.before.Some?
    ensures m.verb == Retire ==> m.after.None?
    ensures m.after.Some? ==> Carries(m.payload, m.after.value)
  {
  }

  /** The observed result, recorded: the row is settled. */
  lemma RecordedWithin(from: State, s: State, e: Entry, m: Move, backward: bool, shown: set<Option<Image>>)
    requires Within(from, s, e, m, backward, shown) && Flushed(s, m.path) && m.path in s.record.entries
    requires SameImage(Lookup(s.files, m.path), m.after, false)
    ensures
      var f := s.record.entries[m.path].(observed := Lookup(s.files, m.path), stage := Finish(backward));
      var done := SavedAt(s, s.record.(entries := s.record.entries[m.path := f]));
      Within(from, done, e, m, backward, shown) && Settled(done, m, backward)
  {
    hide SamePrepared;
    var f := s.record.entries[m.path].(observed := Lookup(s.files, m.path), stage := Finish(backward));
    var done := SavedAt(s, s.record.(entries := s.record.entries[m.path := f]));
    PreparedPossible(s, done.record);
    assert Beside(m.path, m.path) && Lookup(s.files, m.path) in Possible(s, m.path);
  }

  lemma WithinEntry(from: State, s: State, e: Entry, m: Move, backward: bool, shown: set<Option<Image>>)
    requires Within(from, s, e, m, backward, shown)
    ensures m.path in s.record.entries
  {
  }

  lemma CoveredNone(
    visited: set<State>, from: State, e: Entry, m: Move, backward: bool, shown: set<Option<Image>>)
    ensures Covered(visited, visited, from, e, m, backward, shown)
  {
  }

  lemma UnlinkedNone(s: State, path: Path)
    ensures Lookup(SyncedAt(UnlinkedAt(s, path), RetentionRows.Parent(path)).files, path) == None
  {
  }

  lemma CoveredMore(
    visited: set<State>, base: set<State>, from: State, s: State, e: Entry, m: Move, backward: bool,
    shown: set<Option<Image>>)
    requires Within(from, s, e, m, backward, shown)
    requires visited == base || Covered(visited, base, from, e, m, backward, shown)
    ensures Covered(visited + {s}, base, from, e, m, backward, shown)
  {
    hide Within;
  }

  lemma UnlinkedWithin(from: State, e: Entry, m: Move, backward: bool, shown: set<Option<Image>>)
    requires Pending(from, e, m, backward, shown) && Genuine(from) && m.after.None?
    ensures Within(from, UnlinkedAt(from, m.path), e, m, backward, shown)
    ensures Gap(UnlinkedAt(from, m.path), e, m, backward)
  {
    hide Possible, SamePrepared;
    UnlinkedPossible(from, m.path);
  }

  /** Flushing the row's directory leaves nothing in it in doubt. */
  lemma SyncedWithin(from: State, s: State, e: Entry, m: Move, backward: bool, shown: set<Option<Image>>)
    requires Within(from, s, e, m, backward, shown)
    ensures
      var synced := SyncedAt(s, RetentionRows.Parent(m.path));
      Within(from, synced, e, m, backward, shown) && Flushed(synced, m.path)
  {
    hide Possible, RowPosition;
    var synced := SyncedAt(s, RetentionRows.Parent(m.path));
    SyncedPossible(s, m.path);
    CurrentPossible(s);
    assert Beside(m.path, m.path);
  }

  lemma CurrentPossible(s: State)
    ensures forall p: Path :: Lookup(s.files, p) in Possible(s, p)
  {
  }
}
