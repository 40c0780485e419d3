/** The read-only decision whether one more run may start. */
module BudgetPlans {
  import opened Basics
  import opened BudgetRecords

  datatype Action = Stop | Warn
  datatype Config = Config(
    enabled: bool, action: Action, maxAttempts: int, maxSessionRuns: int, maxConcurrent: int,
    timeoutSeconds: real, sessionSeconds: real, estimatedUSD: Option<real>)

  /** `ceiling` says that the caller asked for a strict cost ceiling. */
  datatype Request = Request(session: Text, task: Text, harness: Text, role: Text, model: Text, ceiling: bool)

  datatype Blocker =
    | Disabled | StrictCeiling | UnconfirmedExit(id: Text) | StaleRun(id: Text)
    | AttemptLimit | RunLimit | TimeLimit | ConcurrencyLimit | CostStop(concern: Concern)

  datatype Plan = Plan(
    config: Config, remainingAttempts: nat, remainingRuns: nat, remainingSeconds: real, active: nat,
    blockers: seq<Blocker>, warnings: seq<Concern>)

  predicate ValidConfig(c: Config) {
    && c.maxAttempts > 0 && c.maxSessionRuns > 0 && c.maxConcurrent > 0
    && c.timeoutSeconds > 0.0 && c.sessionSeconds > 0.0
    && (c.estimatedUSD.Some? ==> c.estimatedUSD.value > 0.0)
  }

  predicate ValidRequest(r: Request) {
    ValidID(r.session) && ValidID(r.task) && Harness(r.harness) && Role(r.role)
  }

  /** What the operating system says of an owning process. */
  datatype Liveness = Alive | Dead | Unknown

  function Owner(alive: map<int, Liveness>, pid: int): Liveness {
    if pid in alive && 0 < pid <= PID_LIMIT then alive[pid] else Unknown
  }

  function Remaining(limit: int, count: int): (r: nat)
    ensures r == 0 <==> limit <= count
    ensures r > 0 ==> r == limit - count
  {
    if limit < count then 0 else limit - count
  }

  predicate UnreportedIn(rows: seq<Row>, session: Text) {
    exists r :: r in rows && r.session == session && r.status == Active
  }

  predicate UnknownIn(rows: seq<Row>, session: Text) {
    exists r :: r in rows && r.session == session && r.status != Active && r.cost.None?
  }

  function Concerns(r: Request, c: Config, rows: seq<Row>): seq<Concern> {
    CostConcerns(r, c, KnownCost(rows, r.session), UnreportedIn(rows, r.session), UnknownIn(rows, r.session))
  }

  /** No configured estimate, or one that the session's reports, all of them there, stay below. */
  predicate CostsClear(r: Request, c: Config, rows: seq<Row>) {
    c.estimatedUSD.Some? ==>
      && r.harness != "codex"
      && (forall q | q in rows && q.session == r.session :: q.status == Completed && q.cost.Some?)
      && KnownCost(rows, r.session) < c.estimatedUSD.value
  }

  /** What each concern about costs is raised by. */
  lemma ConcernsExact(r: Request, c: Config, rows: seq<Row>, x: Concern)
    ensures x in Concerns(r, c, rows) <==>
      (c.estimatedUSD.Some? &&
       match x {
         case UnusableEstimate => r.harness == "codex"
         case UnreportedCost => exists q :: q in rows && q.session == r.session && q.status == Active
         case UnknownCost => exists q :: q in rows && q.session == r.session && q.status == Completed && q.cost.None?
         case ThresholdReached => KnownCost(rows, r.session) >= c.estimatedUSD.value
         case InvocationFailed => false
         case CostUnknown => false
         case ExitUnconfirmed => false
       })
  {
    hide KnownCost;
    assert UnknownIn(rows, r.session)
      <==> exists q :: q in rows && q.session == r.session && q.status == Completed && q.cost.None?;
  }

  lemma ConcernsClear(r: Request, c: Config, rows: seq<Row>)
    ensures Concerns(r, c, rows) == [] <==> CostsClear(r, c, rows)
  {
    hide KnownCost;
  }

  /** Nothing stands against one more run. */
  predicate Admissible(r: Request, c: Config, rows: seq<Row>, alive: map<int, Liveness>) {
    && c.enabled && !r.ceiling
    && (forall q | q in rows && q.status == Active :: q.outcome == Running && Owner(alive, q.owner) == Alive)
    && CountTask(rows, r.session, r.task) < c.maxAttempts
    && CountSession(rows, r.session) < c.maxSessionRuns
    && Charge(rows, r.session) < c.sessionSeconds
    && CountActive(rows) < c.maxConcurrent
    && (c.action == Stop ==> CostsClear(r, c, rows))
  }

  /** Every blocker is there for its reason, and for each reason. */
  ghost predicate Explained(
    blockers: seq<Blocker>, r: Request, c: Config, rows: seq<Row>, alive: map<int, Liveness>)
  {
    forall b: Blocker :: b in blockers <==>
      match b {
        case Disabled => !c.enabled
        case StrictCeiling => r.ceiling
        case UnconfirmedExit(id) => exists q :: q in rows && q.id == id && q.status == Active && q.outcome != Running
        case StaleRun(id) =>
          exists q :: q in rows && q.id == id && q.status == Active && q.outcome == Running
            && Owner(alive, q.owner) == Dead
        case AttemptLimit => CountTask(rows, r.session, r.task) >= c.maxAttempts
        case RunLimit => CountSession(rows, r.session) >= c.maxSessionRuns
        case TimeLimit => Charge(rows, r.session) >= c.sessionSeconds
        case ConcurrencyLimit => CountActive(rows) >= c.maxConcurrent
        case CostStop(x) => c.action == Stop && x in Concerns(r, c, rows)
      }
  }

  /** A valid configuration that is switched on admits a first run. */
  lemma FirstRun(r: Request, c: Config, alive: map<int, Liveness>)
    requires ValidConfig(c) && c.enabled && !r.ceiling
    requires c.action == Stop && c.estimatedUSD.Some? ==> r.harness != "codex"
    ensures Admissible(r, c, [], alive)
  {
  }

  predicate Unobservable(rows: seq<Row>, alive: map<int, Liveness>) {
    exists q :: q in rows && q.status == Active && q.outcome == Running && Owner(alive, q.owner) == Unknown
  }

  /** A row that blocks every admission. */
  predicate Blocking(q: Row, alive: map<int, Liveness>) {
    q.status == Active && (q.outcome != Running || Owner(alive, q.owner) == Dead)
  }

  /** The blockers that rows raise by themselves. */
  ghost predicate Standing(blockers: seq<Blocker>, rows: seq<Row>, alive: map<int, Liveness>) {
    && (forall b | b in blockers :: b.UnconfirmedExit? || b.StaleRun?)
    && (forall id :: UnconfirmedExit(id) in blockers <==>
          exists q :: q in rows && q.id == id && q.status == Active && q.outcome != Running)
    && (forall id :: StaleRun(id) in blockers <==>
          exists q :: q in rows && q.id == id && q.status == Active && q.outcome == Running
            && Owner(alive, q.owner) == Dead)
  }

  lemma StandingOn(blockers: seq<Blocker>, rows: seq<Row>, i: nat, alive: map<int, Liveness>)
    requires i < |rows| && Standing(blockers, rows[..i], alive)
    ensures
      var q := rows[i];
      Standing(
        if q.status != Active then blockers
        else if q.outcome != Running then blockers + [UnconfirmedExit(q.id)]
        else if Owner(alive, q.owner) == Dead then blockers + [StaleRun(q.id)] else blockers,
        rows[..i + 1], alive)
  {
    hide Owner;
    assert rows[..i + 1] == rows[..i] + [rows[i]];
    assert forall q :: q in rows[..i + 1] <==> q in rows[..i] || q == rows[i];
  }

  method ActiveBlockers(rows: seq<Row>, alive: map<int, Liveness>) returns (blockers: Option<seq<Blocker>>)
    ensures blockers.None? <==> Unobservable(rows, alive)
    ensures blockers.Some? ==>
      (blockers.value == [] <==> forall q | q in rows :: !Blocking(q, alive))
    ensures blockers.Some? ==> Standing(blockers.value, rows, alive)
  {
    var found: seq<Blocker> := [];
    for i := 0 to |rows|
      invariant forall j | 0 <= j < i ::
        !(rows[j].status == Active && rows[j].outcome == Running && Owner(alive, rows[j].owner) == Unknown)
      invariant found == [] <==> forall j | 0 <= j < i :: !Blocking(rows[j], alive)
      invariant Standing(found, rows[..i], alive)
    {
      StandingOn(found, rows, i, alive);
      var q := rows[i];
      if q.status == Active {
        if q.outcome != Running {
          found := found + [UnconfirmedExit(q.id)];
        } else {
          var owner := Owner(alive, q.owner);
          if owner == Unknown { return None; }
          if owner == Dead { found := found + [StaleRun(q.id)]; }
        }
      }
    }
    assert rows[..|rows|] == rows;
    blockers := Some(found);
  }

  /** One pass over the ledger. */
  method Tally(r: Request, rows: seq<Row>)
    returns (session: nat, task: nat, active: nat, charge: real, cost: real, unreported: bool, unknown: bool)
    ensures session == CountSession(rows, r.session) && task == CountTask(rows, r.session, r.task)
    ensures active == CountActive(rows) && charge == Charge(rows, r.session) && cost == KnownCost(rows, r.session)
    ensures unreported <==> UnreportedIn(rows, r.session)
    ensures unknown <==> UnknownIn(rows, r.session)
  {
    session, task, active, charge, cost, unreported, unknown := 0, 0, 0, 0.0, 0.0, false, false;
    for i := 0 to |rows|
      invariant session == CountSession(rows[..i], r.session) && task == CountTask(rows[..i], r.session, r.task)
      invariant active == CountActive(rows[..i])
      invariant charge == Charge(rows[..i], r.session) && cost == KnownCost(rows[..i], r.session)
      invariant unreported <==> exists j :: 0 <= j < i && rows[j].session == r.session && rows[j].status == Active
      invariant unknown <==>
        exists j :: 0 <= j < i && rows[j].session == r.session && rows[j].status != Active && rows[j].cost.None?
    {
      var q := rows[i];
      assert rows[..i + 1][..i] == rows[..i];
      if q.status == Active { active := active + 1; }
      if q.session == r.session {
        session := session + 1;
        if q.task == r.task { task := task + 1; }
        charge := charge + (if q.status == Active then q.reserved else q.elapsed);
        if q.cost.Some? { cost := cost + q.cost.value; }
        if q.status == Active { unreported := true; }
        else if q.cost.None? { unknown := true; }
      }
    }
    assert rows[..|rows|] == rows;
  }

  /** The plan has no blocker exactly when the run is admissible, and its remainders
      are the configured limits less what the ledger holds. */
  method MakePlan(r: Request, c: Config, rows: seq<Row>, alive: map<int, Liveness>) returns (p: Option<Plan>)
    ensures p.None? <==> !ValidRequest(r) || !ValidConfig(c) || !ValidHistory(rows) || Unobservable(rows, alive)
    ensures p.Some? ==> Planned(p.value, r, c, rows, alive) && Explained(p.value.blockers, r, c, rows, alive)
  {
    hide Unobservable, ValidHistory, UnreportedIn, UnknownIn, Planned, Admissible, Owner, ValidRequest, ValidConfig,
         Explained, Standing;
    if !ValidRequest(r) || !ValidConfig(c) || !ValidHistory(rows) { return None; }
    var session, task, active, charge, cost, unreported, unknown := Tally(r, rows);
    var standing := ActiveBlockers(rows, alive);
    if standing.None? { return None; }
    var attempts, runs := Remaining(c.maxAttempts, task), Remaining(c.maxSessionRuns, session);
    var seconds := if charge < c.sessionSeconds then c.sessionSeconds - charge else 0.0;
    var concerns := CostConcerns(r, c, cost, unreported, unknown);
    var blockers := SwitchBlockers(r, c) + standing.value + LimitBlockers(attempts, runs, seconds, active, c)
      + CostBlockers(c, concerns);
    PlannedFrom(r, c, rows, alive, standing.value);
    ExplainedFrom(r, c, rows, alive, standing.value);
    p := Some(Plan(c, attempts, runs, seconds, active, blockers, if c.action == Warn then concerns else []));
  }

  function CostConcerns(r: Request, c: Config, cost: real, unreported: bool, unknown: bool): seq<Concern> {
    if c.estimatedUSD.None? then []
    else
      (if r.harness == "codex" then [UnusableEstimate] else [])
      + (if unreported then [UnreportedCost] else [])
      + (if unknown then [UnknownCost] else [])
      + (if cost >= c.estimatedUSD.value then [ThresholdReached] else [])
  }

  lemma PlannedFrom(r: Request, c: Config, rows: seq<Row>, alive: map<int, Liveness>, standing: seq<Blocker>)
    requires !Unobservable(rows, alive) && (standing == [] <==> forall q | q in rows :: !Blocking(q, alive))
    ensures
      var attempts := Remaining(c.maxAttempts, CountTask(rows, r.session, r.task));
      var runs := Remaining(c.maxSessionRuns, CountSession(rows, r.session));
      var charge := Charge(rows, r.session);
      var seconds := if charge < c.sessionSeconds then c.sessionSeconds - charge else 0.0;
      var concerns := Concerns(r, c, rows);
      var blockers := SwitchBlockers(r, c) + standing + LimitBlockers(attempts, runs, seconds, CountActive(rows), c)
        + CostBlockers(c, concerns);
      Planned(Plan(c, attempts, runs, seconds, CountActive(rows), blockers, if c.action == Warn then concerns else []),
              r, c, rows, alive)
  {
    hide Concerns, Unobservable, Owner, SwitchBlockers, LimitBlockers, CostBlockers, CostsClear;
    NoneBlocking(rows, alive);
    ConcernsClear(r, c, rows);
    match c.action {
      case Stop =>
      case Warn =>
    }
  }

  lemma ExplainedFrom(r: Request, c: Config, rows: seq<Row>, alive: map<int, Liveness>, standing: seq<Blocker>)
    requires Standing(standing, rows, alive)
    ensures
      var attempts := Remaining(c.maxAttempts, CountTask(rows, r.session, r.task));
      var runs := Remaining(c.maxSessionRuns, CountSession(rows, r.session));
      var charge := Charge(rows, r.session);
      var seconds := if charge < c.sessionSeconds then c.sessionSeconds - charge else 0.0;
      Explained(
        SwitchBlockers(r, c) + standing + LimitBlockers(attempts, runs, seconds, CountActive(rows), c)
        + CostBlockers(c, Concerns(r, c, rows)), r, c, rows, alive)
  {
    hide Concerns, Owner, CountTask, CountSession, CountActive, Charge, SwitchBlockers, LimitBlockers, CostBlockers,
         Remaining;
    var attempts := Remaining(c.maxAttempts, CountTask(rows, r.session, r.task));
    var runs := Remaining(c.maxSessionRuns, CountSession(rows, r.session));
    var charge := Charge(rows, r.session);
    var seconds := if charge < c.sessionSeconds then c.sessionSeconds - charge else 0.0;
    SwitchBlockersHold(r, c);
    LimitBlockersHold(attempts, runs, seconds, CountActive(rows), c);
    CostBlockersHold(c, Concerns(r, c, rows));
  }

  lemma SwitchBlockersHold(r: Request, c: Config)
    ensures forall b :: b in SwitchBlockers(r, c) <==>
      (b == Disabled && !c.enabled) || (b == StrictCeiling && r.ceiling)
  {
  }

  lemma LimitBlockersHold(attempts: nat, runs: nat, seconds: real, active: nat, c: Config)
    ensures forall b :: b in LimitBlockers(attempts, runs, seconds, active, c) <==>
      || (b == AttemptLimit && attempts == 0) || (b == RunLimit && runs == 0)
      || (b == TimeLimit && seconds <= 0.0) || (b == ConcurrencyLimit && active >= c.maxConcurrent)
  {
  }

  lemma CostBlockersHold(c: Config, concerns: seq<Concern>)
    ensures forall b | b in CostBlockers(c, concerns) :: b.CostStop?
    ensures forall x :: CostStop(x) in CostBlockers(c, concerns) <==> c.action == Stop && x in concerns
  {
    if c.action == Stop {
      forall x | x in concerns ensures CostStop(x) in CostBlockers(c, concerns) {
        var i :| 0 <= i < |concerns| && concerns[i] == x;
        assert CostBlockers(c, concerns)[i] == CostStop(x);
      }
    }
  }

  function SwitchBlockers(r: Request, c: Config): (b: seq<Blocker>)
    ensures b == [] <==> c.enabled && !r.ceiling
  {
    (if c.enabled then [] else [Disabled]) + (if r.ceiling then [StrictCeiling] else [])
  }

  function LimitBlockers(attempts: nat, runs: nat, seconds: real, active: nat, c: Config): (b: seq<Blocker>)
    ensures b == [] <==> attempts != 0 && runs != 0 && seconds > 0.0 && active < c.maxConcurrent
  {
    (if attempts == 0 then [AttemptLimit] else []) + (if runs == 0 then [RunLimit] else [])
    + (if seconds <= 0.0 then [TimeLimit] else []) + (if active >= c.maxConcurrent then [ConcurrencyLimit] else [])
  }

  function CostBlockers(c: Config, concerns: seq<Concern>): (b: seq<Blocker>)
    ensures b == [] <==> c.action == Warn || concerns == []
  {
    if c.action == Warn then [] else seq(|concerns|, i requires 0 <= i < |concerns| => CostStop(concerns[i]))
  }

  predicate Planned(p: Plan, r: Request, c: Config, rows: seq<Row>, alive: map<int, Liveness>) {
    && p.config == c && p.active == CountActive(rows)
    && p.remainingAttempts == Remaining(c.maxAttempts, CountTask(rows, r.session, r.task))
    && p.remainingRuns == Remaining(c.maxSessionRuns, CountSession(rows, r.session))
    && p.remainingSeconds
       == (if Charge(rows, r.session) < c.sessionSeconds then c.sessionSeconds - Charge(rows, r.session) else 0.0)
    && p.warnings == (if c.action == Warn then Concerns(r, c, rows) else [])
    && (p.blockers == [] <==> Admissible(r, c, rows, alive))
  }

  lemma NoneBlocking(rows: seq<Row>, alive: map<int, Liveness>)
    requires !Unobservable(rows, alive)
    ensures (forall q | q in rows :: !Blocking(q, alive)) <==>
      forall q | q in rows && q.status == Active :: q.outcome == Running && Owner(alive, q.owner) == Alive
  {
    forall q | q in rows && q.status == Active
      ensures !Blocking(q, alive) <==> q.outcome == Running && Owner(alive, q.owner) == Alive
    {
      assert q.outcome != Running || Owner(alive, q.owner) != Unknown;
      match Owner(alive, q.owner) {
        case Alive =>
        case Dead =>
        case Unknown =>
      }
    }
  }
}
