/** From a plan to its run and from a crash to the next plan. */
module TransitionResume {
  import opened Basics
  import opened TransitionPlans
  import opened TransitionRows
  import opened TransitionRuns

  function Moves(rows: seq<Planned>): (moves: seq<Move>)
    ensures |moves| == |rows| && forall i | 0 <= i < |rows| :: moves[i] == rows[i].move
  {
    seq(|rows|, i requires 0 <= i < |rows| => rows[i].move)
  }

  /** What a process reads, with what else a power loss may bring back. */
  function Read(ev: Evidence, doubt: map<Path, set<Option<Image>>>): State { State(ev.record, ev.files, doubt) }

  /** A plan without blocked rows is what a run may start from. */
  lemma PlanReady(ev: Evidence, doubt: map<Path, set<Option<Image>>>, rows: seq<Planned>)
    requires AllPlanned(ev, rows) && Distinct(ev.recipe) && !Cleanup(ev)
    requires forall i | 0 <= i < |rows| :: !rows[i].blocked
    ensures Ready(Read(ev, doubt), ev.recipe, ev.targets, Moves(rows), Backward(ev.purpose))
  {
    hide Accountable, MoveFits, Matches, SavedIntact, Distinct, SameImage;
    forall i: nat | i < |rows|
      ensures rows[i].move.path == ev.recipe[i].path
      ensures RowReady(Read(ev, doubt), Target(ev.targets, ev.recipe[i]), rows[i].move, Backward(ev.purpose))
    {
      PlannedReady(ev, doubt, ev.recipe[i], rows[i]);
    }
  }

  lemma PlannedReady(ev: Evidence, doubt: map<Path, set<Option<Image>>>, role: Role, row: Planned)
    requires RowQualified(ev, role) && RowPlanned(ev, role, row) && !row.blocked && !Cleanup(ev)
    ensures row.move.path == role.path
    ensures RowReady(Read(ev, doubt), Target(ev.targets, role), row.move, Backward(ev.purpose))
  {
    hide Accountable, MoveFits, Matches, SavedIntact;
    SameIdentity(ev.record.entries[role.path].before, ev.originals[role.path].before);
  }

  /** The evidence a later process reads: only the record and the files have moved on. */
  function After(ev: Evidence, c: Crash, purpose: Purpose): Evidence {
    ev.(record := c.record, files := c.files, purpose := purpose)
  }

  /** The moves of a plan are those of the recipe's rows. */
  predicate Along(recipe: seq<Role>, moves: seq<Move>) {
    |moves| == |recipe| && forall i | 0 <= i < |moves| :: moves[i].path == recipe[i].path
  }

  /** No crash of a run costs the qualification of its evidence, in any allowed direction. */
  lemma StillQualified(ev: Evidence, start: State, s: State, moves: seq<Move>, c: Crash, purpose: Purpose)
    requires Qualified(ev) && start.record == ev.record && Along(ev.recipe, moves)
    requires CrashSafe(start, s, moves) && Shows(s, c) && PurposeAllowed(After(ev, c, purpose))
    ensures Qualified(After(ev, c, purpose))
  {
    hide Matches, SameImage, SavedIntact, Possible;
    assert |ev.record.entries.Keys| == |c.record.entries.Keys|;
    forall role | role in ev.recipe ensures RowQualified(After(ev, c, purpose), role) {
      var i :| 0 <= i < |ev.recipe| && ev.recipe[i] == role;
      assert moves[i] in moves && moves[i].path == role.path && role.path in c.record.entries;
      RowStillQualified(ev, c, purpose, role);
    }
  }

  lemma RowStillQualified(ev: Evidence, c: Crash, purpose: Purpose, role: Role)
    requires RowQualified(ev, role) && role.path in c.record.entries
    requires SameSelection(ev.record.entries[role.path], c.record.entries[role.path])
    ensures RowQualified(After(ev, c, purpose), role)
  {
  }

  /** What a second plan finds after a crash: it is never refused, and it blocks no row unless
      a row of the first one strands or lingers. */
  ghost predicate PlansAgain(ev: Evidence, start: State, moves: seq<Move>, c: Crash) {
    && (forall again | PurposeAllowed(After(ev, c, again)) :: Qualified(After(ev, c, again)))
    && (Secure(start, ev.recipe, ev.targets, moves, Backward(ev.purpose)) ==> CanResume(c, ev.recipe, ev.targets))
  }

  lemma SafePlansAgain(ev: Evidence, start: State, s: State, moves: seq<Move>, c: Crash)
    requires Qualified(ev) && start.record == ev.record && Along(ev.recipe, moves)
    requires CrashSafe(start, s, moves) && Shows(s, c)
    requires Secure(start, ev.recipe, ev.targets, moves, Backward(ev.purpose)) ==>
      AllResume(s, ev.recipe, ev.targets)
    ensures PlansAgain(ev, start, moves, c)
  {
    hide Qualified, CrashSafe, Secure, CanResume, PurposeAllowed, Shows, AllResume, Along;
    EveryCrashResumes(s, ev.recipe, ev.targets);
    forall again | PurposeAllowed(After(ev, c, again)) ensures Qualified(After(ev, c, again)) {
      StillQualified(ev, start, s, moves, c, again);
    }
  }

  /** A new plan is possible after a power loss in any of these states. */
  ghost predicate CrashesResume(states: set<State>, recipe: seq<Role>, targets: map<Path, Image>) {
    forall s, c | s in states && Shows(s, c) :: CanResume(c, recipe, targets)
  }

  lemma StatesResume(states: set<State>, recipe: seq<Role>, targets: map<Path, Image>)
    ensures CrashesResume(states, recipe, targets) <==> forall s | s in states :: AllResume(s, recipe, targets)
  {
    hide AllResume, CanResume, Shows;
    forall s | s in states
      ensures AllResume(s, recipe, targets) <==> forall c | Shows(s, c) :: CanResume(c, recipe, targets)
    {
      EveryCrashResumes(s, recipe, targets);
    }
  }

  /** Every managed file is at the image its purpose is for, under a committed record of that
      direction. */
  predicate Served(ev: Evidence, last: State) {
    && last.record.phase == Committed
    && (last.record.reverse <==> ev.purpose == Rollback || ev.purpose == Recovery(true))
    && forall role | role in ev.recipe && role.path in ev.originals && ev.originals[role.path].action != Retain ::
         SameImage(Lookup(last.files, role.path),
                   Due(ev.purpose, ev.originals[role.path].before, Target(ev.targets, role)), false)
  }

  lemma FinalServed(ev: Evidence, doubt: map<Path, set<Option<Image>>>, moves: seq<Move>, last: State)
    requires Qualified(ev) && Ready(Read(ev, doubt), ev.recipe, ev.targets, moves, Backward(ev.purpose))
    requires Final(Read(ev, doubt), last, moves, Backward(ev.purpose))
    ensures Served(ev, last)
  {
    hide Accountable, Distinct, Outside, SameImage, Matches, SavedIntact, Shared;
    forall role | role in ev.recipe && role.path in ev.originals && ev.originals[role.path].action != Retain
      ensures SameImage(
        Lookup(last.files, role.path),
        Due(ev.purpose, ev.originals[role.path].before, Target(ev.targets, role)), false)
    {
      var i: nat :| i < |ev.recipe| && ev.recipe[i] == role;
      ReadyRow(Read(ev, doubt), ev.recipe, ev.targets, moves, Backward(ev.purpose), i);
      assert RowQualified(ev, role);
      assert RowFinal(Read(ev, doubt), last, moves[i], Shared(moves, moves[i].path), Backward(ev.purpose));
      SameIdentity(ev.record.entries[role.path].before, ev.originals[role.path].before);
    }
  }

  /** Plans and carries out one transition from any record and files that a process may read,
      durable or not; `first` are the states the disk may be in at that time. A run that started
      completes exactly when no operation and no health check fails, and a completed one
      can be planned again from every crash exactly when it could at the start and no row
      strands or lingers. */
  method Transition(ev: Evidence, ghost doubt: map<Path, set<Option<Image>>>, ghost first: set<State>)
    returns (
      started: bool, ok: bool, ghost moves: seq<Move>, ghost visited: set<State>, ghost last: State,
      ghost faults: nat)
    requires Distinct(ev.recipe) && Genuine(Read(ev, doubt))
    ensures started <==>
      Qualified(ev) && !Cleanup(ev) && CanResume(Crash(ev.record, ev.files), ev.recipe, ev.targets)
    ensures ok <==> started && faults == 0
    ensures forall s | s in visited && s !in first :: CrashSafe(Read(ev, doubt), s, moves)
    ensures forall s, c | s in visited && s !in first && Shows(s, c) :: PlansAgain(ev, Read(ev, doubt), moves, c)
    ensures ok ==> Final(Read(ev, doubt), last, moves, Backward(ev.purpose)) && Served(ev, last)
    ensures ok && Definite(Read(ev, doubt), moves) ==>
      (CrashesResume(visited, ev.recipe, ev.targets)
       <==> CrashesResume(first, ev.recipe, ev.targets)
            && Secure(Read(ev, doubt), ev.recipe, ev.targets, moves, Backward(ev.purpose)))
  {
    hide AllPlanned, Ready, CrashSafe, Secure, Qualified, Final, PlansAgain, Resumable, AllResume, Shows,
         Definite, CrashesResume, Genuine, Served;
    ghost var start := Read(ev, doubt);
    started, ok, moves, visited, last, faults := false, false, [], first, start, 0;
    var plan := BuildPlan(ev);
    if plan.None? || Cleanup(ev) { return; }
    for i := 0 to |plan.value|
      invariant forall j | 0 <= j < i :: !plan.value[j].blocked
    {
      if plan.value[i].blocked { return; }
    }
    started := true;
    PlanReady(ev, doubt, plan.value);
    moves := Moves(plan.value);
    var installation := new Installation(ev.record, ev.files, doubt, first);
    ok := installation.Complete(Moves(plan.value), Backward(ev.purpose), start, first, ev.recipe, ev.targets);
    visited, last, faults := installation.visited, installation.Now(), installation.faults;
    if ok { FinalServed(ev, doubt, moves, last); }
    MovesAlong(start, ev.recipe, ev.targets, moves, Backward(ev.purpose));
    forall s, c | s in visited && s !in first && Shows(s, c) ensures PlansAgain(ev, start, moves, c) {
      SafePlansAgain(ev, start, s, moves, c);
    }
    StatesResume(visited, ev.recipe, ev.targets);
    StatesResume(first, ev.recipe, ev.targets);
  }

  lemma MovesAlong(start: State, recipe: seq<Role>, targets: map<Path, Image>, moves: seq<Move>, backward: bool)
    requires Ready(start, recipe, targets, moves, backward)
    ensures Along(recipe, moves)
  {
  }

  // ----- what a caller can do about it -----

  /** Only one file is possible at the row's path: its directory has been flushed. */
  predicate Certain(s: State, path: Path) { Possible(s, path) == {Lookup(s.files, path)} }

  /** From flushed directories no row lingers and nothing is indefinite: only moves that strand
      what a reader sees are left. One flush per directory before the plan sees to it. */
  lemma FlushedSecure(start: State, recipe: seq<Role>, targets: map<Path, Image>, moves: seq<Move>, backward: bool)
    requires Ready(start, recipe, targets, moves, backward)
    requires forall m | m in moves :: Certain(start, m.path)
    ensures Definite(start, moves)
    ensures Secure(start, recipe, targets, moves, backward) <==>
      forall i | 0 <= i < |moves| && i < |recipe| && moves[i].path in start.record.entries ::
        !Strands(start.record.entries[moves[i].path], Target(targets, recipe[i]), moves[i],
                 {Lookup(start.files, moves[i].path)})
  {
    hide Accountable, RowReady, Strands, Lingers, Distinct, Possible, Shared;
    forall i: nat | i < |moves|
      ensures moves[i].path in start.record.entries && RowDefinite(start, moves[i])
      ensures !Lingers(start.record.entries[moves[i].path], Target(targets, recipe[i]), moves[i],
                       Possible(start, moves[i].path), Lookup(start.files, moves[i].path),
                       Shared(moves, moves[i].path), backward)
    {
      ReadyRow(start, recipe, targets, moves, backward, i);
      assert moves[i] in moves;
      FlushedRow(start, Target(targets, recipe[i]), moves[i], Shared(moves, moves[i].path), backward);
    }
  }

  lemma FlushedRow(start: State, target: Option<Image>, m: Move, shared: bool, backward: bool)
    requires RowReady(start, target, m, backward) && Certain(start, m.path)
    ensures RowDefinite(start, m)
    ensures !Lingers(start.record.entries[m.path], target, m, Possible(start, m.path), Lookup(start.files, m.path),
                     shared, backward)
  {
    if m.verb == Retain && start.record.entries[m.path].action != Retain {
      RetainedTurned(start, Journal(backward, Applying, start.record.entries), target, m);
    }
  }

  /** A row that stopped between its rename and the flush lingers when it is carried on, unless
      some moved row in the same directory has it flushed. */
  lemma UnflushedLingers(s: State, target: Option<Image>, m: Move, shared: bool)
    requires RowReady(s, target, m, false) && !s.record.reverse && s.record.phase != Committed && Genuine(s)
    requires m.verb == Retain
    requires
      var e, current := s.record.entries[m.path], Lookup(s.files, m.path);
      && e.action != Retain && e.stage == Prepared && current != e.before
      && Possible(s, m.path) == {current, e.before}
    ensures Lingers(s.record.entries[m.path], target, m, Possible(s, m.path), Lookup(s.files, m.path), shared, false)
      <==> !shared
  {
    var e, current := s.record.entries[m.path], Lookup(s.files, m.path);
    assert e.before in Possible(s, m.path);
    assert Untouched(e, e.before) && AtEither(e, target, e.before);
    assert Trusted(false, e, target, current) && AtEither(e, target, current);
  }

  // ----- the first run -----

  /** The record that a fresh installation writes for its proposed rows. */
  function FreshEntry(m: Move): Entry { Entry(m.verb, Prepared, m.before, m.after, None, None) }

  /** A fresh installation may start, and from flushed directories only its removals can
      strand a row. Its record is not on disk before the first save, so no state precedes it. */
  lemma FreshReady(s: State, recipe: seq<Role>, targets: map<Path, Image>, moves: seq<Move>)
    requires |moves| == |recipe| && Distinct(recipe) && Genuine(s)
    requires !s.record.reverse && s.record.phase == Preparing
    requires forall i | 0 <= i < |moves| ::
      && moves[i].path == recipe[i].path
      && MoveFits(moves[i], Lookup(s.files, moves[i].path), Target(targets, recipe[i]))
      && moves[i].path in s.record.entries && s.record.entries[moves[i].path] == FreshEntry(moves[i])
    ensures Ready(s, recipe, targets, moves, false)
    ensures (forall m | m in moves :: Certain(s, m.path)) ==>
      (Secure(s, recipe, targets, moves, false) <==> forall m | m in moves :: m.verb != Retire)
  {
    hide Distinct, Certain, Secure, Strands, MoveFits, Accountable;
    forall i: nat | i < |moves|
      ensures RowReady(s, Target(targets, recipe[i]), moves[i], false)
      ensures moves[i].verb == Retire <==>
        Strands(s.record.entries[moves[i].path], Target(targets, recipe[i]), moves[i],
                {Lookup(s.files, moves[i].path)})
    {
      FreshRow(s, Target(targets, recipe[i]), moves[i]);
    }
    if forall m | m in moves :: Certain(s, m.path) { FlushedSecure(s, recipe, targets, moves, false); }
  }

  lemma FreshRow(s: State, target: Option<Image>, m: Move)
    requires Genuine(s) && !s.record.reverse && s.record.phase == Preparing
    requires MoveFits(m, Lookup(s.files, m.path), target)
    requires m.path in s.record.entries && s.record.entries[m.path] == FreshEntry(m)
    ensures RowReady(s, target, m, false)
    ensures Strands(FreshEntry(m), target, m, {Lookup(s.files, m.path)}) <==> m.verb == Retire
  {
    assert Lookup(s.files, m.path) in Possible(s, m.path);
  }

  /** Turning back after a completed forward run strands exactly the rows whose old file the
      forward run removed. */
  lemma RollbackStrands(
    start: State, s: State, target: Option<Image>, forward: Move, back: Move, shared: bool)
    requires RowReady(start, target, forward, false) && RowFinal(start, s, forward, shared, false)
    requires forward.verb == Retain ==> Certain(start, forward.path)
    requires s.record.phase == Committed && !s.record.reverse && Genuine(s)
    requires back.path == forward.path && RowReady(s, target, back, true) && back.verb != Retain
    ensures Strands(s.record.entries[back.path], target, back, Possible(s, back.path)) <==> back.verb == Create
  {
    assert Possible(s, back.path) == {Lookup(s.files, back.path)};
  }

  /** A run that stopped between naming a staged file and recording it strands that row when
      it is then turned back, and not when it is carried on. */
  lemma UnrecordedStrands(s: State, target: Option<Image>, m: Move, backward: bool)
    requires RowReady(s, target, m, backward) && !s.record.reverse
    requires
      var e, current := s.record.entries[m.path], Lookup(s.files, m.path);
      && e.action != Retain && e.stage == Prepared && e.observed.None? && !Untouched(e, current)
    ensures m.verb == Retain || (backward && Strands(s.record.entries[m.path], target, m, Possible(s, m.path)))
  {
    assert Lookup(s.files, m.path) in Possible(s, m.path);
  }
}
