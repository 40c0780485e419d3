/** The ledger under its lock: admission, process publication and finalization, and
    what any interleaving of them keeps. */
module BudgetLedger {
  import opened Basics
  import opened BudgetRecords
  import opened BudgetPlans

  datatype Completion = Completion(
    outcome: Outcome, exit: Option<int>, elapsed: real, pid: Option<int>, exitConfirmed: bool, unconfirmed: bool,
    tokens: Option<map<Text, int>>, cost: Option<real>, complete: bool, failed: bool, source: Text)

  predicate ValidPID(pid: int) {
    0 < pid <= PID_LIMIT
  }

  predicate ValidCompletion(c: Completion) {
    && c.outcome != Running && c.elapsed >= 0.0
    && (c.exitConfirmed ==> c.exit.Some?)
    && (c.tokens.Some? ==> forall k | k in c.tokens.value :: c.tokens.value[k] >= 0)
    && (c.cost.Some? ==> c.cost.value >= 0.0)
  }

  // ----- one step on the rows -----

  /** An admission appends one running row that carries the next attempt number and
      reserves no more than the session has left. */
  ghost predicate Admits(before: seq<Row>, row: Row, r: Request, c: Config, alive: map<int, Liveness>) {
    && Admissible(r, c, before, alive)
    && row.session == r.session && row.task == r.task && row.status == Active && row.outcome == Running
    && row.harness == r.harness && row.role == r.role && row.model == r.model
    && row.attempt == CountTask(before, r.session, r.task) + 1
    && row.reserved <= c.sessionSeconds - Charge(before, r.session) && row.reserved <= c.timeoutSeconds
    && row.ended.None? && row.elapsed == 0.0 && row.exit.None? && !row.complete
    && row.pid.None? && row.tokens.None? && row.cost.None?
  }

  /** A patch touches one active row of the calling process, and never replaces its
      process identity. */
  ghost predicate Owns(before: Row, after: Row, owner: int) {
    && before.status == Active && before.owner == owner && Patches(before, after)
    && (before.pid.Some? ==> after.pid == before.pid)
  }

  ghost predicate Patched(before: seq<Row>, after: seq<Row>, owner: int) {
    exists i, row :: 0 <= i < |before| && after == before[i := row] && Owns(before[i], row, owner)
  }

  /** No row is lost, completed rows never change, and a process identity is written
      once. */
  ghost predicate Extends(before: seq<Row>, after: seq<Row>) {
    && |before| <= |after|
    && forall i | 0 <= i < |before| ::
         && Patches(before[i], after[i])
         && (before[i].status == Completed ==> after[i] == before[i])
         && (before[i].pid.Some? ==> after[i].pid == before[i].pid)
  }

  lemma ExtendsMore(a: seq<Row>, b: seq<Row>, c: seq<Row>)
    requires Extends(a, b) && Extends(b, c)
    ensures Extends(a, c)
  {
    forall i | 0 <= i < |a|
      ensures Patches(a[i], c[i]) && (a[i].status == Completed ==> c[i] == a[i])
      ensures a[i].pid.Some? ==> c[i].pid == a[i].pid
    {
      assert Patches(a[i], b[i]) && Patches(b[i], c[i]);
    }
  }

  /** Whose row it is, and that it reserves the least of the timeout and what the session has left. */
  predicate Stamped(row: Row, id: Text, owner: int, now: Text, timeout: real, left: real) {
    && row.id == id && row.owner == owner && row.started == now
    && 0.0 < row.reserved <= timeout && row.reserved <= left && (row.reserved == timeout || row.reserved == left)
  }

  // ----- what is granted when no write fails -----

  predicate FreshID(rows: seq<Row>, id: Text) { forall q | q in rows :: q.id != id }

  /** The request is admissible now, and was at the unlocked check if there was one. */
  predicate Granted(
    r: Request, c: Config, seen: Option<seq<Row>>, alive: map<int, Liveness>, rows: seq<Row>,
    alive': map<int, Liveness>, tightened: Option<Option<real>>, id: Text)
  {
    && ValidRequest(r) && ValidConfig(c) && tightened != Some(None) && FreshID(rows, id)
    && (seen.Some? ==> ValidHistory(seen.value) && Admissible(r, c, seen.value, alive))
    && Admissible(r, c, rows, alive')
  }

  /** The row is active and the caller's. */
  predicate Held(row: Row, id: Text, owner: int) { row.id == id && row.owner == owner && row.status == Active }

  /** A completion can be taken for this row: it agrees on the process, and a run without a
      process claims nothing but a failed launch. */
  predicate Concludes(row: Row, done: Completion) {
    && (done.pid.Some? ==> ValidPID(done.pid.value) && (row.pid.Some? ==> row.pid == done.pid))
    && (row.pid.None? && done.pid.None? ==>
          done.exit.None? && !done.exitConfirmed && !done.unconfirmed && done.outcome == LaunchError)
  }

  /** Some other running row has an owner that cannot be observed. */
  predicate OthersUnobservable(rows: seq<Row>, id: Text, alive: map<int, Liveness>) {
    exists q :: q in rows && q.id != id && q.status == Active && q.outcome == Running
      && Owner(alive, q.owner) == Unknown
  }

  class Ledger {
    var rows: seq<Row>

    /** How many writes have failed. */
    ghost var faults: nat

    /** Every ledger grown from an empty one. */
    ghost predicate Valid()
      reads this
    {
      Ledgered(rows)
    }

    constructor ()
      ensures Valid() && rows == []
    {
      rows, faults := [], 0;
    }

    /** Publishes the edited rows. A reported failure may still have committed. */
    method Write(next: seq<Row>) returns (ok: bool)
      modifies this
      ensures rows == next || rows == old(rows)
      ensures ok <==> ValidHistory(next) && faults == old(faults)
      ensures ok ==> rows == next
      ensures !ValidHistory(next) ==> rows == old(rows)
    {
      if !ValidHistory(next) { return false; }
      var committed: bool := *;
      if committed { rows := next; }
      ok := *;
      ok := ok && committed;
      if !ok { faults := faults + 1; }
    }

    /** Admits one run: always when the request is granted and no write fails. `seen` is the
        ledger at the unlocked check, `tightened` the controller's policy: nothing, a refusal,
        or a shorter timeout. */
    method Admit(r: Request, c: Config, seen: Option<seq<Row>>, alive: map<int, Liveness>, alive': map<int, Liveness>,
                 tightened: Option<Option<real>>, id: Text, owner: int, now: Text)
      returns (record: Option<Row>)
      requires Valid() && ValidPID(owner) && ValidID(id)
      requires tightened.Some? && tightened.value.Some? ==> 0.0 < tightened.value.value <= c.timeoutSeconds
      modifies this
      ensures Valid()
      ensures rows == old(rows) ||
        (|rows| == |old(rows)| + 1 && rows[..|old(rows)|] == old(rows)
         && Admits(old(rows), rows[|old(rows)|], r, c, alive')
         && Stamped(rows[|old(rows)|], id, owner, now,
                    if tightened.Some? && tightened.value.Some? then tightened.value.value else c.timeoutSeconds,
                    c.sessionSeconds - Charge(old(rows), r.session)))
      ensures record.Some? ==> rows == old(rows) + [record.value]
      ensures record.Some? <==>
        Granted(r, c, seen, alive, old(rows), alive', tightened, id) && faults == old(faults)
    {
      hide Ledgered, Admissible, Planned, FreshID, ValidHistory, CountTask, CountSession, CountActive, Charge;
      record := None;
      if !ValidRequest(r) || !ValidConfig(c) { return; }
      if seen.Some? {
        var initial := MakePlan(r, c, seen.value, alive);
        PlanDecides(initial, r, c, seen.value, alive);
        if initial.None? || initial.value.blockers != [] { return; }
      }
      var p := MakePlan(r, c, rows, alive');
      PlanDecides(p, r, c, rows, alive');
      LedgeredHistory(rows);
      if p.None? || p.value.blockers != [] { return; }
      var timeout := c.timeoutSeconds;
      if tightened.Some? {
        if tightened.value.None? { return; }
        timeout := tightened.value.value;
      }
      var attempt := c.maxAttempts - p.value.remainingAttempts + 1;
      var reserved := if timeout < p.value.remainingSeconds then timeout else p.value.remainingSeconds;
      var row := Row(id, r.session, r.task, r.harness, r.role, r.model, now, None, 0.0, reserved, attempt, owner,
                     None, Active, Running, None, None, None, false, "not yet reported", p.value.warnings);
      ghost var before := rows;
      var ok := Write(rows + [row]);
      AdmittedLedger(before, row, r, c, alive', p.value, timeout);
      if ok { record := Some(row); }
    }

    /** The active row of the calling process, if it is there. */
    method Own(id: Text, owner: int) returns (i: Option<nat>)
      requires Valid()
      ensures i.Some? ==> i.value < |rows| && Held(rows[i.value], id, owner)
      ensures i.Some? ==> forall row | row in rows && row.id == id :: row == rows[i.value]
      ensures i.None? ==> forall row | row in rows :: !Held(row, id, owner)
    {
      hide Numbered, ValidID;
      for j := 0 to |rows|
        invariant forall k | 0 <= k < j :: rows[k].id != id
      {
        if rows[j].id == id {
          assert forall k | 0 <= k < |rows| && rows[k].id == id :: k == j;
          return if rows[j].owner == owner && rows[j].status == Active then Some(j) else None;
        }
      }
      i := None;
    }

    /** Records the process of a run, once. */
    method PublishPID(id: Text, pid: int, owner: int) returns (record: Option<Row>)
      requires Valid()
      modifies this
      ensures Valid()
      ensures rows == old(rows) || Patched(old(rows), rows, owner)
      ensures record.Some? ==> record.value in rows && record.value.id == id && record.value.pid == Some(pid)
      ensures record.Some? <==>
        && ValidPID(pid) && faults == old(faults)
        && exists row :: row in old(rows) && Held(row, id, owner) && (row.pid.Some? ==> row.pid == Some(pid))
    {
      hide Ledgered;
      record := None;
      LedgeredHistory(rows);
      if !ValidID(id) || !ValidPID(pid) { return; }
      var i := Own(id, owner);
      if i.None? { return; }
      var row := rows[i.value];
      if row.pid.Some? {
        // A different identity conflicts; the same one is already published.
        return if row.pid.value == pid then Some(row) else None;
      }
      var patched := row.(pid := Some(pid));
      PublishedLedger(rows, i.value, pid);
      assert Owns(row, patched, owner);
      ghost var before := rows;
      var ok := Write(rows[i.value := patched]);
      assert Patched(before, before[i.value := patched], owner);
      if ok {
        assert rows[i.value] == patched;
        record := Some(patched);
      }
    }

    /** Finishes a run, or retains its reservation when the process may still be there. */
    method Finalize(id: Text, done: Completion, c: Config, owner: int, now: Text, alive: map<int, Liveness>)
      returns (record: Option<Row>)
      requires Valid()
      modifies this
      ensures Valid()
      ensures rows == old(rows) || Patched(old(rows), rows, owner)
      ensures record.Some? ==> record.value in rows && record.value.id == id
      ensures record.Some? ==> forall row | row in old(rows) && row.id == id :: Finishes(row, record.value, done, now)
      ensures record.Some? ==> CostWarned(record.value, c, rows)
      ensures record.Some? <==>
        && ValidConfig(c) && ValidCompletion(done) && faults == old(faults)
        && (exists row :: row in old(rows) && Held(row, id, owner) && Concludes(row, done))
        && (c.estimatedUSD.Some? ==> !OthersUnobservable(old(rows), id, alive))
    {
      hide Ledgered, Planned, Finishes;
      record := None;
      LedgeredHistory(rows);
      if !ValidID(id) || !ValidConfig(c) || !ValidCompletion(done) { return; }
      var i := Own(id, owner);
      if i.None? { return; }
      var row := rows[i.value];
      if done.pid.Some? && !ValidPID(done.pid.value) { return; }
      if row.pid.Some? && done.pid.Some? && done.pid.value != row.pid.value { return; }
      var pid := if row.pid.Some? then row.pid else done.pid;
      if pid.None? && (done.exit.Some? || done.exitConfirmed) { return; }
      var uncertain := Uncertain(done, pid);
      if pid.None? && (uncertain || done.outcome != LaunchError) { return; }
      record := Record(i.value, row, done, pid, c, owner, now, alive);
    }

    /** Writes the finished row, with the cost warnings of a plan made after it. */
    method Record(
      i: nat, row: Row, done: Completion, pid: Option<int>, c: Config, owner: int, now: Text, alive: map<int, Liveness>)
      returns (record: Option<Row>)
      requires Valid() && i < |rows| && rows[i] == row && Finalizable(row, done, pid) && row.owner == owner
      requires ValidConfig(c) && pid == (if row.pid.Some? then row.pid else done.pid)
      modifies this
      ensures Valid()
      ensures rows == old(rows) || Patched(old(rows), rows, owner)
      ensures record.Some? ==> record.value in rows && record.value.id == row.id
      ensures record.Some? ==> Finishes(row, record.value, done, now) && CostWarned(record.value, c, rows)
      ensures record.Some? <==>
        faults == old(faults) && (c.estimatedUSD.Some? ==> !OthersUnobservable(old(rows), row.id, alive))
    {
      hide Ledgered, Planned, Finishes, Finalized, Finalizable, Owns, ValidHistory, Unobservable, OthersUnobservable,
           ValidRequest;
      record := None;
      var patched := Finalized(row, done, pid, now);
      FinalizedLedger(rows, i, done, pid, now);
      FinalizedPlan(rows, i, done, pid, now, alive);
      var more: seq<Concern> := [];
      if c.estimatedUSD.Some? {
        var post := MakePlan(RequestOf(row), c, rows[i := patched], alive);
        if post.None? { return; }
        more := post.value.warnings + CostStops(post.value.blockers);
        PlanConcerns(post.value, RequestOf(row), c, rows[i := patched], alive);
      }
      WarnedConcerns(rows, i, row, done, pid, now, more, c);
      WarnedLedger(rows, i, patched, more);
      LedgeredHistory(rows[i := patched.(warnings := patched.warnings + more)]);
      patched := patched.(warnings := patched.warnings + more);
      FinalizedOwns(row, patched, done, pid, now, owner);
      ghost var before := rows;
      var ok := Write(rows[i := patched]);
      assert Patched(before, before[i := patched], owner);
      if ok {
        assert rows[i] == patched;
        record := Some(patched);
      }
    }
  }

  // ----- admission -----

  lemma LedgeredHistory(rows: seq<Row>)
    requires Ledgered(rows)
    ensures ValidHistory(rows)
    ensures forall q | q in rows :: ValidID(q.id)
  {
  }

  lemma PlanDecides(p: Option<Plan>, r: Request, c: Config, rows: seq<Row>, alive: map<int, Liveness>)
    requires ValidRequest(r) && ValidConfig(c)
    requires p.None? <==> !ValidHistory(rows) || Unobservable(rows, alive)
    requires p.Some? ==> Planned(p.value, r, c, rows, alive)
    ensures p.Some? && p.value.blockers == [] <==> ValidHistory(rows) && Admissible(r, c, rows, alive)
  {
    hide ValidHistory, CountTask, CountSession, CountActive, Charge, Concerns;
  }

  lemma AdmittedLedger(
    rows: seq<Row>, row: Row, r: Request, c: Config, alive: map<int, Liveness>, p: Plan, timeout: real)
    requires Ledgered(rows) && ValidRequest(r) && ValidConfig(c) && Planned(p, r, c, rows, alive) && p.blockers == []
    requires 0.0 < timeout <= c.timeoutSeconds && ValidID(row.id) && row.owner > 0
    requires row == Row(row.id, r.session, r.task, r.harness, r.role, r.model, row.started, None, 0.0,
      if timeout < p.remainingSeconds then timeout else p.remainingSeconds, c.maxAttempts - p.remainingAttempts + 1,
      row.owner, None, Active, Running, None, None, None, false, row.source, row.warnings)
    ensures Admits(rows, row, r, c, alive)
    ensures Stamped(row, row.id, row.owner, row.started, timeout, c.sessionSeconds - Charge(rows, r.session))
    ensures ValidHistory(rows + [row]) ==> Ledgered(rows + [row])
    ensures ValidHistory(rows + [row]) <==> FreshID(rows, row.id)
  {
    hide CountTask, CountSession, CountActive, Charge, Numbered;
    if ValidHistory(rows + [row]) {
      var rows' := rows + [row];
      forall q | q in rows ensures q.id != row.id {
        var j :| 0 <= j < |rows| && rows[j] == q;
        assert rows'[j].id != rows'[|rows|].id;
      }
      AppendedLedger(rows, row);
    }
  }

  // ----- patches -----

  lemma PublishedLedger(rows: seq<Row>, i: nat, pid: int)
    requires Ledgered(rows) && i < |rows| && rows[i].status == Active && rows[i].pid.None? && ValidPID(pid)
    ensures Ledgered(rows[i := rows[i].(pid := Some(pid))])
  {
    hide Numbered, CountTask, ValidID, Alphanumeric;
    assert rows[i] in rows && Accounted(rows[i]);
    PatchedLedger(rows, i, rows[i].(pid := Some(pid)));
  }

  /** The process may still be there. */
  predicate Uncertain(done: Completion, pid: Option<int>) {
    done.unconfirmed || (pid.Some? && (!done.exitConfirmed || done.exit.None?))
  }

  /** Outcomes of which no usage may be claimed. */
  predicate Unusable(outcome: Outcome) {
    outcome == Timeout || outcome == Interrupted || outcome == OutputLimit || outcome == LaunchError
  }

  /** The row a completion leaves, before the post-run cost warnings. */
  function Finalized(row: Row, done: Completion, pid: Option<int>, now: Text): Row {
    var uncertain := Uncertain(done, pid);
    var outcome := if done.outcome == Succeeded && (done.failed || !done.complete) then Errored else done.outcome;
    var dropped := Unusable(outcome) || !done.complete || uncertain;
    var cost := if dropped then None else done.cost;
    var warnings := row.warnings
      + (if outcome == LaunchError then [InvocationFailed] else if cost.None? then [CostUnknown] else []);
    row.(pid := if pid.Some? then pid else row.pid,
         outcome := if uncertain && outcome != Timeout then LaunchError else outcome,
         elapsed := done.elapsed, complete := done.complete && !dropped, source := done.source,
         exit := if uncertain then None else done.exit,
         tokens := if dropped then None else done.tokens, cost := cost,
         status := if uncertain then Active else Completed,
         ended := if uncertain then None else Some(now),
         warnings := warnings + (if uncertain then [ExitUnconfirmed] else []))
  }

  /** The process may still be there, seen from the row that was recorded. */
  predicate Unconfirmed(row: Row, done: Completion) {
    done.unconfirmed || (row.pid.Some? && !(done.exitConfirmed && done.exit.Some?))
  }

  /** What a recorded completion means. The reservation is kept exactly while the process may
      still be there. The reported usage is taken whole from a complete report of a run that
      ended by itself with its exit confirmed, and from nothing else; success is recorded of
      such a run alone. */
  predicate Finishes(before: Row, row: Row, done: Completion, now: Text) {
    && row == before.(pid := row.pid, elapsed := done.elapsed, source := done.source, status := row.status,
                      outcome := row.outcome, exit := row.exit, ended := row.ended, complete := row.complete,
                      tokens := row.tokens, cost := row.cost, warnings := row.warnings)
    && row.pid == (if before.pid.Some? then before.pid else done.pid)
    && (if Unconfirmed(row, done) then
          && row.status == Active && row.ended.None? && row.exit.None?
          && row.outcome == (if done.outcome == Timeout then Timeout else LaunchError)
        else
          && row.status == Completed && row.ended == Some(now) && row.exit == done.exit
          && (row.outcome == Succeeded <==> done.outcome == Succeeded && done.complete && !done.failed)
          && (done.outcome != Succeeded ==> row.outcome == done.outcome)
          && (done.outcome == Succeeded && row.outcome != Succeeded ==> row.outcome == Errored))
    && (if done.complete && (done.outcome == Succeeded || done.outcome == Errored) && !Unconfirmed(row, done) then
          row.complete && row.tokens == done.tokens && row.cost == done.cost
        else
          !row.complete && row.tokens.None? && row.cost.None?)
    && before.warnings <= row.warnings
    && (done.outcome == LaunchError ==> InvocationFailed in row.warnings)
    && (done.outcome != LaunchError && row.cost.None? ==> CostUnknown in row.warnings)
    && (row.status == Active ==> ExitUnconfirmed in row.warnings)
  }

  predicate Finalizable(row: Row, done: Completion, pid: Option<int>) {
    && row.status == Active && ValidCompletion(done)
    && (row.pid.Some? ==> pid == row.pid) && (row.pid.None? && pid.Some? ==> pid.value > 0)
    && (pid.None? ==> done.exit.None? && !Uncertain(done, pid) && done.outcome == LaunchError)
  }

  lemma FinalizedLedger(rows: seq<Row>, i: nat, done: Completion, pid: Option<int>, now: Text)
    requires Ledgered(rows) && i < |rows| && Finalizable(rows[i], done, pid)
    ensures Ledgered(rows[i := Finalized(rows[i], done, pid, now)])
  {
    hide Numbered, CountTask, ValidID, Alphanumeric;
    assert rows[i] in rows && Accounted(rows[i]);
    PatchedLedger(rows, i, Finalized(rows[i], done, pid, now));
  }

  /** The request that a plan made after the run stands for. */
  function RequestOf(row: Row): Request {
    Request(row.session, row.task, row.harness, row.role, row.model, false)
  }

  /** The finished row carries every concern about the costs of its session. */
  ghost predicate CostWarned(row: Row, c: Config, rows: seq<Row>) {
    forall x | x in Concerns(RequestOf(row), c, rows) :: x in row.warnings
  }

  lemma {:induction false} CostStopsHold(blockers: seq<Blocker>)
    ensures forall x :: x in CostStops(blockers) <==> CostStop(x) in blockers
  {
    if blockers != [] {
      CostStopsHold(blockers[1..]);
      assert blockers == [blockers[0]] + blockers[1..];
    }
  }

  lemma PlanConcerns(p: Plan, r: Request, c: Config, rows: seq<Row>, alive: map<int, Liveness>)
    requires Planned(p, r, c, rows, alive) && Explained(p.blockers, r, c, rows, alive)
    ensures forall x | x in Concerns(r, c, rows) :: x in p.warnings + CostStops(p.blockers)
  {
    hide Concerns, Admissible, CountTask, CountSession, CountActive, Charge;
    CostStopsHold(p.blockers);
    forall x | x in Concerns(r, c, rows) ensures x in p.warnings + CostStops(p.blockers) {
      if c.action == Stop { assert CostStop(x) in p.blockers; }
    }
  }

  lemma {:induction false} WarnedCost(rows: seq<Row>, i: nat, warnings: seq<Concern>, session: Text)
    requires i < |rows|
    ensures KnownCost(rows[i := rows[i].(warnings := warnings)], session) == KnownCost(rows, session)
    decreases |rows|
  {
    var k := |rows| - 1;
    if i < k {
      assert rows[i := rows[i].(warnings := warnings)][..k] == rows[..k][i := rows[i].(warnings := warnings)];
      WarnedCost(rows[..k], i, warnings, session);
    } else {
      assert rows[i := rows[i].(warnings := warnings)][..k] == rows[..k];
    }
  }

  /** The warnings of a row are no concern of any plan. */
  lemma ConcernsWarned(rows: seq<Row>, i: nat, warnings: seq<Concern>, r: Request, c: Config)
    requires i < |rows|
    ensures Concerns(r, c, rows[i := rows[i].(warnings := warnings)]) == Concerns(r, c, rows)
  {
    hide KnownCost;
    var after := rows[i := rows[i].(warnings := warnings)];
    WarnedCost(rows, i, warnings, r.session);
    assert UnreportedIn(after, r.session) == UnreportedIn(rows, r.session)
      && UnknownIn(after, r.session) == UnknownIn(rows, r.session) by {
      forall q | q in after ensures exists p :: p in rows && p == q.(warnings := p.warnings) {
        var j :| 0 <= j < |after| && after[j] == q;
        assert rows[j] in rows;
      }
      forall q | q in rows ensures exists p :: p in after && p == q.(warnings := p.warnings) {
        var j :| 0 <= j < |rows| && rows[j] == q;
        assert after[j] in after;
      }
    }
  }

  lemma WarnedConcerns(
    rows: seq<Row>, i: nat, row: Row, done: Completion, pid: Option<int>, now: Text, more: seq<Concern>, c: Config)
    requires i < |rows| && rows[i] == row
    requires
      var patched := Finalized(row, done, pid, now);
      forall x | x in Concerns(RequestOf(row), c, rows[i := patched]) :: x in more
    ensures
      var patched := Finalized(row, done, pid, now);
      var warned := patched.(warnings := patched.warnings + more);
      CostWarned(warned, c, rows[i := warned])
  {
    hide Concerns;
    var patched := Finalized(row, done, pid, now);
    var warned := patched.(warnings := patched.warnings + more);
    var after := rows[i := patched];
    ConcernsWarned(after, i, patched.warnings + more, RequestOf(row), c);
    assert after[i := after[i].(warnings := patched.warnings + more)] == rows[i := warned];
    assert RequestOf(warned) == RequestOf(row);
  }

  /** The plan made after a run asks only whether the other owners can be observed. */
  lemma FinalizedPlan(
    rows: seq<Row>, i: nat, done: Completion, pid: Option<int>, now: Text, alive: map<int, Liveness>)
    requires Ledgered(rows) && i < |rows| && Finalizable(rows[i], done, pid)
    requires Ledgered(rows[i := Finalized(rows[i], done, pid, now)])
    ensures ValidHistory(rows[i := Finalized(rows[i], done, pid, now)])
    ensures ValidRequest(RequestOf(rows[i]))
    ensures Unobservable(rows[i := Finalized(rows[i], done, pid, now)], alive)
      <==> OthersUnobservable(rows, rows[i].id, alive)
  {
    hide Numbered, CountTask, ValidID, Owner;
    var patched := Finalized(rows[i], done, pid, now);
    var after := rows[i := patched];
    assert rows[i] in rows && patched.outcome != Running && patched.id == rows[i].id;
    forall q | q in after && q != patched ensures q in rows && q.id != rows[i].id {
      var j :| 0 <= j < |after| && after[j] == q;
      assert j != i ==> after[j].id != after[i].id;
    }
    forall q | q in rows && q.id != rows[i].id ensures q in after {
      var j :| 0 <= j < |rows| && rows[j] == q;
      assert after[j] == q;
    }
  }

  lemma WarnedLedger(rows: seq<Row>, i: nat, patched: Row, more: seq<Concern>)
    requires i < |rows| && Ledgered(rows[i := patched])
    ensures Ledgered(rows[i := patched.(warnings := patched.warnings + more)])
  {
    hide Numbered, CountTask, ValidID, Alphanumeric;
    var rows' := rows[i := patched];
    assert rows'[i] in rows' && Accounted(rows'[i]);
    PatchedLedger(rows', i, patched.(warnings := patched.warnings + more));
    var warned := patched.(warnings := patched.warnings + more);
    assert rows'[i := warned] == rows[i := warned];
  }

  function CostStops(blockers: seq<Blocker>): seq<Concern> {
    if blockers == [] then []
    else (if blockers[0].CostStop? then [blockers[0].concern] else []) + CostStops(blockers[1..])
  }

  lemma FinalizedOwns(row: Row, patched: Row, done: Completion, pid: Option<int>, now: Text, owner: int)
    requires Finalizable(row, done, pid) && row.owner == owner && pid == (if row.pid.Some? then row.pid else done.pid)
    requires patched == Finalized(row, done, pid, now).(warnings := patched.warnings)
    requires Finalized(row, done, pid, now).warnings <= patched.warnings
    ensures Owns(row, patched, owner) && Finishes(row, patched, done, now) && patched.id == row.id
  {
    var made := Finalized(row, done, pid, now).warnings;
    PrefixMembers(made, patched.warnings);
    if done.outcome == LaunchError { assert InvocationFailed == made[|row.warnings|]; }
    if done.outcome != LaunchError && patched.cost.None? { assert CostUnknown == made[|row.warnings|]; }
    if patched.status == Active { assert ExitUnconfirmed == made[|made| - 1]; }
  }

  lemma PrefixMembers(a: seq<Concern>, b: seq<Concern>)
    requires a <= b
    ensures forall x | x in a :: x in b
  {
    assert b[..|a|] == a;
  }

  // ----- any interleaving -----

  /** Everything one configuration limits. */
  ghost predicate WithinLimits(rows: seq<Row>, c: Config) {
    && (forall session, task :: CountTask(rows, session, task) <= c.maxAttempts)
    && (forall session :: CountSession(rows, session) <= c.maxSessionRuns)
    && CountActive(rows) <= c.maxConcurrent
  }

  /** Reserved and spent seconds never exceed the session's limit by more than what
      finished runs took beyond their reservation. */
  ghost predicate TimeConserved(rows: seq<Row>, c: Config) {
    forall session :: Charge(rows, session) <= c.sessionSeconds + Overruns(rows, session)
  }

  lemma AdmitKeeps(rows: seq<Row>, row: Row, r: Request, c: Config, alive: map<int, Liveness>)
    requires Admits(rows, row, r, c, alive)
    ensures Extends(rows, rows + [row])
    ensures WithinLimits(rows, c) ==> WithinLimits(rows + [row], c)
    ensures TimeConserved(rows, c) ==> TimeConserved(rows + [row], c)
  {
    hide CountTask, CountSession, CountActive, Charge, Overruns;
    AppendedTotals(rows, row, row.session, row.task);
    if WithinLimits(rows, c) {
      forall session, task ensures CountTask(rows + [row], session, task) <= c.maxAttempts {
        AppendedTotals(rows, row, session, task);
      }
      forall session ensures CountSession(rows + [row], session) <= c.maxSessionRuns {
        AppendedTotals(rows, row, session, row.task);
      }
    }
    if TimeConserved(rows, c) {
      forall session ensures Charge(rows + [row], session) <= c.sessionSeconds + Overruns(rows + [row], session) {
        AppendedTotals(rows, row, session, row.task);
        OverrunsPositive(rows, session);
      }
    }
  }

  lemma {:induction false} OverrunsPositive(rows: seq<Row>, session: Text)
    ensures Overruns(rows, session) >= 0.0
  {
    if rows != [] { OverrunsPositive(rows[..|rows| - 1], session); }
  }

  lemma PatchKeeps(rows: seq<Row>, rows': seq<Row>, owner: int, c: Config)
    requires Patched(rows, rows', owner)
    ensures Extends(rows, rows')
    ensures WithinLimits(rows, c) ==> WithinLimits(rows', c)
    ensures TimeConserved(rows, c) ==> TimeConserved(rows', c)
  {
    hide CountTask, CountSession, CountActive, Charge, Overruns;
    var i, row :| 0 <= i < |rows| && rows' == rows[i := row] && Owns(rows[i], row, owner);
    PatchedTotals(rows, i, row, row.session, row.task);
    if WithinLimits(rows, c) {
      forall session, task ensures CountTask(rows', session, task) <= c.maxAttempts {
        PatchedTotals(rows, i, row, session, task);
      }
      forall session ensures CountSession(rows', session) <= c.maxSessionRuns {
        PatchedTotals(rows, i, row, session, row.task);
      }
    }
    if TimeConserved(rows, c) {
      forall session ensures Charge(rows', session) <= c.sessionSeconds + Overruns(rows', session) {
        PatchedTotals(rows, i, row, session, row.task);
      }
    }
  }

  /** Every step carries the configuration that its process has read. */
  datatype Step =
    | Admitting(request: Request, config: Config, seen: Option<seq<Row>>, before: map<int, Liveness>,
                alive: map<int, Liveness>, tightened: Option<Option<real>>, id: Text, owner: int, now: Text)
    | Publishing(id: Text, pid: int, owner: int)
    | Finalizing(id: Text, config: Config, done: Completion, owner: int, now: Text, alive: map<int, Liveness>)

  predicate ValidStep(s: Step) {
    s.Admitting? ==>
      && ValidPID(s.owner) && ValidID(s.id)
      && (s.tightened.Some? && s.tightened.value.Some? ==> 0.0 < s.tightened.value.value <= s.config.timeoutSeconds)
  }

  /** All admissions were made under this configuration. */
  predicate Agree(steps: seq<Step>, c: Config) {
    forall s | s in steps && s.Admitting? :: s.config == c
  }

  /** Any interleaving of locked steps, with any earlier ledger at each unlocked check and any
      configuration at each step, loses and rewrites nothing and numbers the attempts of each
      task in order. When the admissions agree on a configuration, it stays within its limits
      and conserves session time. */
  method Serve(ledger: Ledger, steps: seq<Step>, ghost c: Config)
    requires ledger.Valid() && forall s | s in steps :: ValidStep(s)
    modifies ledger
    ensures ledger.Valid() && Numbered(ledger.rows) && Extends(old(ledger.rows), ledger.rows)
    ensures Agree(steps, c) && WithinLimits(old(ledger.rows), c) ==> WithinLimits(ledger.rows, c)
    ensures Agree(steps, c) && TimeConserved(old(ledger.rows), c) ==> TimeConserved(ledger.rows, c)
  {
    hide Ledgered, WithinLimits, TimeConserved, Extends, Admits, Patched, Numbered;
    ExtendsSame(ledger.rows);
    for i := 0 to |steps|
      invariant ledger.Valid() && Extends(old(ledger.rows), ledger.rows)
      invariant Agree(steps, c) && WithinLimits(old(ledger.rows), c) ==> WithinLimits(ledger.rows, c)
      invariant Agree(steps, c) && TimeConserved(old(ledger.rows), c) ==> TimeConserved(ledger.rows, c)
    {
      assert ValidStep(steps[i]);
      ghost var rows := ledger.rows;
      TakeStep(ledger, steps[i], c);
      ExtendsMore(old(ledger.rows), rows, ledger.rows);
    }
    LedgeredNumbered(ledger.rows);
  }

  method TakeStep(ledger: Ledger, step: Step, ghost c: Config)
    requires ledger.Valid() && ValidStep(step)
    modifies ledger
    ensures ledger.Valid() && Extends(old(ledger.rows), ledger.rows)
    ensures (step.Admitting? ==> step.config == c) && WithinLimits(old(ledger.rows), c) ==> WithinLimits(ledger.rows, c)
    ensures (step.Admitting? ==> step.config == c) && TimeConserved(old(ledger.rows), c) ==>
      TimeConserved(ledger.rows, c)
  {
    hide Ledgered, WithinLimits, TimeConserved, Extends, Admits, Patched;
    ghost var rows := ledger.rows;
    ExtendsSame(rows);
    match step {
      case Admitting(request, config, seen, before, alive, tightened, id, owner, now) =>
        var _ := ledger.Admit(request, config, seen, before, alive, tightened, id, owner, now);
        if ledger.rows != rows {
          assert ledger.rows == rows + [ledger.rows[|rows|]];
          AdmitKeeps(rows, ledger.rows[|rows|], request, config, alive);
        }
      case Publishing(id, pid, owner) =>
        var _ := ledger.PublishPID(id, pid, owner);
        if ledger.rows != rows { PatchKeeps(rows, ledger.rows, owner, c); }
      case Finalizing(id, config, done, owner, now, alive) =>
        var _ := ledger.Finalize(id, done, config, owner, now, alive);
        if ledger.rows != rows { PatchKeeps(rows, ledger.rows, owner, c); }
    }
  }

  lemma LedgeredNumbered(rows: seq<Row>)
    requires Ledgered(rows)
    ensures Numbered(rows)
  {
  }

  lemma ExtendsSame(rows: seq<Row>)
    ensures Extends(rows, rows)
  {
  }

  /** With no overrun the session limit itself holds. */
  lemma NoOverrunWithin(rows: seq<Row>, c: Config, session: Text)
    requires TimeConserved(rows, c)
    requires forall r | r in rows && r.session == session && r.status == Completed :: r.elapsed <= r.reserved
    ensures Charge(rows, session) <= c.sessionSeconds
  {
    NoOverruns(rows, session);
  }

  lemma {:induction false} NoOverruns(rows: seq<Row>, session: Text)
    requires forall r | r in rows && r.session == session && r.status == Completed :: r.elapsed <= r.reserved
    ensures Overruns(rows, session) == 0.0
  {
    if rows != [] { NoOverruns(rows[..|rows| - 1], session); }
  }
}
