/** Rows of the budget ledger, the shape a reader accepts, and the totals that
    admission is decided on. Seconds and cost are reals. */
module BudgetRecords {
  import opened Basics

  type Text = seq<char>

  datatype Status = Active | Completed
  datatype Outcome = Running | Succeeded | Errored | Timeout | Interrupted | OutputLimit | LaunchError

  datatype Concern =
    | UnusableEstimate | UnreportedCost | UnknownCost | ThresholdReached
    | InvocationFailed | CostUnknown | ExitUnconfirmed

  datatype Row = Row(
    id: Text, session: Text, task: Text, harness: Text, role: Text, model: Text,
    started: Text, ended: Option<Text>, elapsed: real, reserved: real, attempt: int, owner: int,
    pid: Option<int>, status: Status, outcome: Outcome, exit: Option<int>,
    tokens: Option<map<Text, int>>, cost: Option<real>, complete: bool, source: Text, warnings: seq<Concern>)

  const PID_LIMIT := 2147483647

  predicate Alphanumeric(c: char) {
    'a' <= c <= 'z' || 'A' <= c <= 'Z' || '0' <= c <= '9'
  }

  predicate ValidID(s: Text) {
    && 1 <= |s| <= 64 && Alphanumeric(s[0])
    && forall i | 0 <= i < |s| :: Alphanumeric(s[i]) || s[i] == '_' || s[i] == '-'
  }

  /** An identifier is one short word: it names no other directory and looks like no option. */
  lemma IdentifierShape(s: Text)
    requires ValidID(s)
    ensures 0 < |s| <= 64 && s[0] != '-' && s[0] != '_'
    ensures forall c | c in s :: c == '_' || c == '-' || 'a' <= c <= 'z' || 'A' <= c <= 'Z' || '0' <= c <= '9'
    ensures '/' !in s && '.' !in s && ' ' !in s
  {
  }

  /** Sixteen octets in hexadecimal digits are one. */
  lemma GeneratedValid(s: Text)
    requires |s| == 32 && forall i | 0 <= i < |s| :: '0' <= s[i] <= '9' || 'a' <= s[i] <= 'f'
    ensures ValidID(s)
  {
  }

  predicate Harness(h: Text) {
    h == "codex" || h == "claude" || h == "opencode"
  }

  predicate Role(r: Text) {
    r == "spec-writer" || r == "implementer" || r == "refactorer" || r == "reviewer" || r == "wiki-maintainer"
  }

  /** The row validation shared by the reader and the writer. */
  predicate ValidRow(r: Row) {
    && ValidID(r.id) && ValidID(r.session) && ValidID(r.task) && Harness(r.harness) && Role(r.role)
    && r.elapsed >= 0.0 && r.reserved >= 0.0 && r.attempt > 0 && r.owner > 0
    && (r.cost.Some? ==> r.cost.value >= 0.0)
    && (r.tokens.Some? ==> forall k | k in r.tokens.value :: r.tokens.value[k] >= 0)
    && (r.pid.Some? ==> r.pid.value > 0)
    && match r.status {
         case Active =>
           && (r.outcome == Running || r.outcome == Timeout || r.outcome == LaunchError) && r.ended.None?
           && (r.outcome != Running ==>
                 r.pid.Some? && r.exit.None? && !r.complete && r.cost.None? && r.tokens.None?)
         case Completed => r.ended.Some? && r.outcome != Running
       }
  }

  predicate ValidHistory(rows: seq<Row>) {
    && (forall r | r in rows :: ValidRow(r))
    && forall i, j | 0 <= i < j < |rows| :: rows[i].id != rows[j].id
  }

  // ----- totals -----

  function CountTask(rows: seq<Row>, session: Text, task: Text): nat {
    if rows == [] then 0 else
    var last := rows[|rows| - 1];
    CountTask(rows[..|rows| - 1], session, task) + (if last.session == session && last.task == task then 1 else 0)
  }

  function CountSession(rows: seq<Row>, session: Text): nat {
    if rows == [] then 0 else
    var last := rows[|rows| - 1];
    CountSession(rows[..|rows| - 1], session) + (if last.session == session then 1 else 0)
  }

  function CountActive(rows: seq<Row>): nat {
    if rows == [] then 0 else
    var last := rows[|rows| - 1];
    CountActive(rows[..|rows| - 1]) + (if last.status == Active then 1 else 0)
  }

  /** What a row counts against its session: its reservation while active, the time
      it took once completed. */
  function Charged(r: Row): real {
    if r.status == Active then r.reserved else r.elapsed
  }

  function Overrun(r: Row): real {
    if r.status == Completed && r.elapsed > r.reserved then r.elapsed - r.reserved else 0.0
  }

  function Charge(rows: seq<Row>, session: Text): real {
    if rows == [] then 0.0 else
    var last := rows[|rows| - 1];
    Charge(rows[..|rows| - 1], session) + (if last.session == session then Charged(last) else 0.0)
  }

  function Overruns(rows: seq<Row>, session: Text): real {
    if rows == [] then 0.0 else
    var last := rows[|rows| - 1];
    Overruns(rows[..|rows| - 1], session) + (if last.session == session then Overrun(last) else 0.0)
  }

  function KnownCost(rows: seq<Row>, session: Text): real {
    if rows == [] then 0.0 else
    var last := rows[|rows| - 1];
    KnownCost(rows[..|rows| - 1], session)
    + (if last.session == session && last.cost.Some? then last.cost.value else 0.0)
  }

  /** A patch of one row leaves who and which attempt it was. */
  predicate Patches(before: Row, after: Row) {
    && after.id == before.id && after.session == before.session && after.task == before.task
    && after.attempt == before.attempt && after.reserved == before.reserved && after.owner == before.owner
  }

  /** The totals after one row was patched, from the two rows alone. */
  lemma {:induction false} PatchedTotals(rows: seq<Row>, i: nat, r: Row, session: Text, task: Text)
    requires i < |rows| && Patches(rows[i], r)
    ensures CountTask(rows[i := r], session, task) == CountTask(rows, session, task)
    ensures CountSession(rows[i := r], session) == CountSession(rows, session)
    ensures CountActive(rows[i := r])
         == CountActive(rows) - (if rows[i].status == Active then 1 else 0) + (if r.status == Active then 1 else 0)
    ensures Charge(rows[i := r], session)
         == Charge(rows, session) + (if r.session == session then Charged(r) - Charged(rows[i]) else 0.0)
    ensures Overruns(rows[i := r], session)
         == Overruns(rows, session) + (if r.session == session then Overrun(r) - Overrun(rows[i]) else 0.0)
    decreases |rows|
  {
    var k := |rows| - 1;
    if i < k {
      assert rows[i := r][..k] == rows[..k][i := r];
      PatchedTotals(rows[..k], i, r, session, task);
    } else {
      assert rows[i := r][..k] == rows[..k];
    }
  }

  lemma AppendedTotals(rows: seq<Row>, r: Row, session: Text, task: Text)
    ensures CountTask(rows + [r], session, task)
         == CountTask(rows, session, task) + (if r.session == session && r.task == task then 1 else 0)
    ensures CountSession(rows + [r], session) == CountSession(rows, session) + (if r.session == session then 1 else 0)
    ensures CountActive(rows + [r]) == CountActive(rows) + (if r.status == Active then 1 else 0)
    ensures Charge(rows + [r], session) == Charge(rows, session) + (if r.session == session then Charged(r) else 0.0)
    ensures Overruns(rows + [r], session)
         == Overruns(rows, session) + (if r.session == session then Overrun(r) else 0.0)
  {
    assert (rows + [r])[..|rows|] == rows;
  }

  /** Nothing an accepted history counts is negative. */
  lemma {:induction false} TotalsPositive(rows: seq<Row>, session: Text)
    requires ValidHistory(rows)
    ensures Charge(rows, session) >= 0.0 && KnownCost(rows, session) >= 0.0
    ensures forall r | r in rows :: r.attempt > 0 && r.owner > 0 && (r.pid.Some? ==> r.pid.value > 0)
  {
    if rows != [] {
      var rest := rows[..|rows| - 1];
      assert forall r | r in rest :: r in rows;
      TotalsPositive(rest, session);
      assert ValidRow(rows[|rows| - 1]);
    }
  }

  // ----- what a history says -----

  method HasActive(rows: seq<Row>) returns (found: bool)
    ensures found <==> exists r :: r in rows && r.status == Active
  {
    for i := 0 to |rows|
      invariant forall j | 0 <= j < i :: rows[j].status != Active
    {
      if rows[i].status == Active { return true; }
    }
    found := false;
  }

  predicate Unresolved(r: Row) {
    r.status == Active || (r.pid.Some? && r.exit.None?)
  }

  method HasUnresolved(rows: seq<Row>) returns (found: bool)
    ensures found <==> exists r :: r in rows && Unresolved(r)
  {
    for i := 0 to |rows|
      invariant forall j | 0 <= j < i :: !Unresolved(rows[j])
    {
      if Unresolved(rows[i]) { return true; }
    }
    found := false;
  }

  // ----- what every ledger built here keeps -----

  /** The n-th row of a session's task carries attempt number n. */
  predicate Numbered(rows: seq<Row>) {
    forall i | 0 <= i < |rows| :: rows[i].attempt == CountTask(rows[..i], rows[i].session, rows[i].task) + 1
  }

  /** Usage is only ever claimed by a completed run, and a completed run with a
      process has its exit code. */
  predicate Accounted(r: Row) {
    && (r.tokens.Some? || r.cost.Some? ==> r.complete && (r.outcome == Succeeded || r.outcome == Errored))
    && (r.status == Completed && r.pid.Some? ==> r.exit.Some?)
  }

  predicate Ledgered(rows: seq<Row>) {
    ValidHistory(rows) && Numbered(rows) && forall r | r in rows :: Accounted(r)
  }

  /** On such a ledger the two questions have the same answer. */
  lemma UnresolvedActive(rows: seq<Row>)
    requires Ledgered(rows)
    ensures (exists r :: r in rows && Unresolved(r)) <==> (exists r :: r in rows && r.status == Active)
  {
    forall r | r in rows && Unresolved(r) ensures r.status == Active {
      assert Accounted(r);
    }
  }

  lemma PatchedLedger(rows: seq<Row>, i: nat, r: Row)
    requires Ledgered(rows) && i < |rows| && Patches(rows[i], r) && ValidRow(r) && Accounted(r)
    ensures Ledgered(rows[i := r])
  {
    var rows' := rows[i := r];
    forall j | 0 <= j < |rows'|
      ensures rows'[j].attempt == CountTask(rows'[..j], rows'[j].session, rows'[j].task) + 1
    {
      if i < j {
        assert rows'[..j] == rows[..j][i := r];
        PatchedTotals(rows[..j], i, r, rows[j].session, rows[j].task);
      } else {
        assert rows'[..j] == rows[..j];
      }
    }
    forall q | q in rows' ensures ValidRow(q) && Accounted(q) {
      var j :| 0 <= j < |rows'| && rows'[j] == q;
      assert j != i ==> rows[j] in rows;
    }
  }

  lemma AppendedLedger(rows: seq<Row>, r: Row)
    requires Ledgered(rows) && ValidRow(r) && Accounted(r) && r.attempt == CountTask(rows, r.session, r.task) + 1
    requires forall q | q in rows :: q.id != r.id
    ensures Ledgered(rows + [r])
  {
    var rows' := rows + [r];
    forall j | 0 <= j < |rows'|
      ensures rows'[j].attempt == CountTask(rows'[..j], rows'[j].session, rows'[j].task) + 1
    {
      assert rows'[..j] == rows[..j];
    }
  }
}
