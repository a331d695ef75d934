// How much work a run can ever cause, however often it fails, is recovered or is resumed.

module Budget {
  import opened Wrappers
  import opened RunTables
  import opened Settlement
  import opened Transactions
  import opened RunInvariant
  import opened Histories
  import opened QueueTheorems
  import opened StageGraph

  // ---- adding up a reading over the task table ----

  ghost function Sum(m: map<TaskId, int>): int {
    if m == map[] then 0
    else
      var t :| t in m;
      m[t] + Sum(m - {t})
  }

  lemma {:induction false} SumTakes(m: map<TaskId, int>, t: TaskId)
    requires t in m
    ensures Sum(m) == m[t] + Sum(m - {t})
    decreases |m|
  {
    var u :| u in m && Sum(m) == m[u] + Sum(m - {u});
    if u != t {
      assert |m - {u}| < |m| by { assert (m - {u}).Keys == m.Keys - {u}; }
      assert |m - {t}| < |m| by { assert (m - {t}).Keys == m.Keys - {t}; }
      SumTakes(m - {u}, t);
      SumTakes(m - {t}, u);
      assert m - {u} - {t} == m - {t} - {u};
    }
  }

  lemma SumSet(m: map<TaskId, int>, t: TaskId, v: int)
    ensures Sum(m[t := v]) == Sum(m - {t}) + v
    ensures t in m ==> Sum(m[t := v]) == Sum(m) - m[t] + v
    ensures t !in m ==> Sum(m[t := v]) == Sum(m) + v
  {
    SumTakes(m[t := v], t);
    assert m[t := v] - {t} == m - {t};
    if t in m { SumTakes(m, t); } else { assert m - {t} == m; }
  }

  // A bound that holds row by row holds of the sums.
  lemma {:induction false} SumBound(m: map<TaskId, int>, n: map<TaskId, int>, p: map<TaskId, int>, k: int)
    requires m.Keys == n.Keys == p.Keys
    requires forall t :: t in m ==> m[t] <= n[t] + k * p[t]
    ensures Sum(m) <= Sum(n) + k * Sum(p)
    decreases |m|
  {
    if m != map[] {
      var t :| t in m;
      assert |m - {t}| < |m| by { assert (m - {t}).Keys == m.Keys - {t}; }
      SumBound(m - {t}, n - {t}, p - {t}, k);
      SumTakes(m, t);
      SumTakes(n, t);
      SumTakes(p, t);
      assert k * (p[t] + Sum(p - {t})) == k * p[t] + k * Sum(p - {t});
    } else {
      assert n == map[] && p == map[];
    }
  }

  // What is read off a row. A run's own businesses either pay for themselves as they are fanned
  // out, or are paid for in advance up to a cap.
  datatype Scheme = PerBusiness | Capped(cap: nat)

  datatype Gauge = Rows | Attempts | Businesses | Potential(scheme: Scheme)

  const TASKS_PER_BUSINESS: nat := 7

  function Future(t: Task, scheme: Scheme): int {
    if Terminal(t.status) then 1
    else if t.stage == RunPlanning then 2 + (if scheme.Capped? then TASKS_PER_BUSINESS * scheme.cap else 0)
    else if FansOut(t.stage) then 1 + (if scheme.Capped? then TASKS_PER_BUSINESS * scheme.cap else 0)
    else Rank(t.stage, t.input)
  }

  function Read(g: Gauge, t: Task): int {
    match g
    case Rows => 1
    case Attempts => t.attempts
    case Businesses => if t.stage == CorroborateBusiness then 1 else 0
    case Potential(scheme) =>
      Future(t, scheme) - (if scheme.PerBusiness? && t.stage == CorroborateBusiness then TASKS_PER_BUSINESS else 0)
  }

  predicate InScope(scope: Option<RunId>, r: RunId) {
    scope == None || scope == Some(r)
  }

  ghost function Readings(tasks: map<TaskId, Task>, scope: Option<RunId>, g: Gauge): map<TaskId, int> {
    map t | t in tasks :: if InScope(scope, tasks[t].runId) then Read(g, tasks[t]) else 0
  }

  // The gauge summed over one run's rows, or over all rows.
  ghost function Total(tasks: map<TaskId, Task>, scope: Option<RunId>, g: Gauge): int {
    Sum(Readings(tasks, scope, g))
  }

  lemma TotalSet(tasks: map<TaskId, Task>, scope: Option<RunId>, g: Gauge, t: TaskId, row: Task)
    requires t in tasks ==> tasks[t].runId == row.runId
    ensures var read := if InScope(scope, row.runId) then Read(g, row) else 0;
            && (t !in tasks ==> Total(tasks[t := row], scope, g) == Total(tasks, scope, g) + read)
            && (t in tasks && InScope(scope, row.runId) ==>
                  Total(tasks[t := row], scope, g) == Total(tasks, scope, g) - Read(g, tasks[t]) + Read(g, row))
            && (t in tasks && !InScope(scope, row.runId) ==> Total(tasks[t := row], scope, g) == Total(tasks, scope, g))
  {
    var read := if InScope(scope, row.runId) then Read(g, row) else 0;
    SumSet(Readings(tasks, scope, g), t, read);
    assert Readings(tasks[t := row], scope, g) == Readings(tasks, scope, g)[t := read];
  }

  ghost function NewTotal(next: seq<NewTask>, r: RunId, g: Gauge, now: Instant): int {
    if next == [] then 0
    else NewTotal(next[..|next| - 1], r, g, now) + Read(g, FreshTask(r, next[|next| - 1], now))
  }

  lemma {:induction false} TotalInserted(tasks: map<TaskId, Task>, scope: Option<RunId>, g: Gauge,
                                         r: RunId, next: seq<NewTask>, ids: seq<TaskId>, now: Instant)
    requires |ids| == |next| && FreshIds(tasks, ids)
    ensures Total(Inserted(tasks, r, next, ids, now), scope, g)
            == Total(tasks, scope, g) + (if InScope(scope, r) then NewTotal(next, r, g, now) else 0)
  {
    if next != [] {
      hide Readings, Sum;
      var last := |next| - 1;
      TotalInserted(tasks, scope, g, r, next[..last], ids[..last], now);
      InsertedRows(tasks, r, next[..last], ids[..last], now);
      assert ids[last] !in ids[..last];
      TotalSet(Inserted(tasks, r, next[..last], ids[..last], now), scope, g, ids[last], FreshTask(r, next[last], now));
    }
  }

  // ---- one step ----

  // Stages hand back what the graph says, fanning out to no more businesses than the scheme paid for.
  ghost predicate FollowsGraph(a: Action, scheme: Scheme) {
    a.Complete? ==>
      && (exists found :: Execute(a.task, found) == Returned(a.cp))
      && (scheme.Capped? && FansOut(a.task.stage) ==> |a.cp.next| <= scheme.cap)
  }

  // Only the runs being counted need to.
  ghost predicate FollowsIn(a: Action, scope: Option<RunId>, scheme: Scheme) {
    a.Complete? && InScope(scope, a.task.runId) ==> FollowsGraph(a, scheme)
  }

  lemma {:induction false} FanOutTotal(next: seq<NewTask>, r: RunId, scheme: Scheme, now: Instant)
    requires forall n :: n in next ==> n.stage == CorroborateBusiness
    ensures NewTotal(next, r, Potential(scheme), now)
            == if scheme.PerBusiness? then 0 else TASKS_PER_BUSINESS * |next|
  {
    if next != [] {
      FanOutTotal(next[..|next| - 1], r, scheme, now);
    }
  }

  // A commit replaces a row's remaining work by no more than that: its own one task and what its
  // successors can still need.
  lemma CommitSpends(t: Task, task: RunTask, cp: Checkpoint, scheme: Scheme, r: RunId, now: Instant)
    requires t.status == Leased && t.stage == task.stage && t.input == task.input
    requires exists found :: Execute(task, found) == Returned(cp)
    requires scheme.Capped? && FansOut(task.stage) ==> |cp.next| <= scheme.cap
    ensures Read(Potential(scheme), CommittedTask(t)) + NewTotal(cp.next, r, Potential(scheme), now)
            <= Read(Potential(scheme), t)
    ensures Read(Potential(scheme), CommittedTask(t)) <= Read(Potential(scheme), t)
  {
    var found :| Execute(task, found) == Returned(cp);
    SuccessorRank(task, found);
    if FansOut(task.stage) {
      FanOutTotal(cp.next, r, scheme, now);
    } else if |cp.next| == 1 {
      assert cp.next[..0] == [];
      assert cp.next[0] in cp.next;
    }
  }

  lemma TotalUnmoved(db: Tables, a: Action, scope: Option<RunId>, scheme: Scheme)
    requires Apply(db, a).tasks.Keys == db.tasks.Keys
    ensures Total(Apply(db, a).tasks, scope, Potential(scheme)) <= Total(db.tasks, scope, Potential(scheme))
  {
    hide Apply, Sum;
    var before := Readings(db.tasks, scope, Potential(scheme));
    var after := Readings(Apply(db, a).tasks, scope, Potential(scheme));
    forall t | t in db.tasks
      ensures after[t] <= before[t] + 0 * before[t]
    {
      StepRow(db, a, t);
      RowSpends(t, db.tasks[t], Apply(db, a).tasks[t], a, scheme);
    }
    SumBound(after, before, before, 0);
  }

  // No transaction makes a row's remaining work grow.
  lemma RowSpends(t: TaskId, before: Task, after: Task, a: Action, scheme: Scheme)
    requires RowMoves(t, before, after, a) && SameColumns(before, after)
    ensures Read(Potential(scheme), after) <= Read(Potential(scheme), before)
  {
  }

  lemma PotentialAfterCommit(db: Tables, a: Action, scope: Option<RunId>, scheme: Scheme)
    requires Fits(db, a) && a.Complete? && FollowsIn(a, scope, scheme) && Holds(db, a.task.id, a.owner)
    ensures Total(Apply(db, a).tasks, scope, Potential(scheme)) <= Total(db.tasks, scope, Potential(scheme))
  {
    hide Total, TallyOf, Settle, Execute;
    var t := db.tasks[a.task.id];
    var done := db.tasks[a.task.id := CommittedTask(t)];
    TotalSet(db.tasks, scope, Potential(scheme), a.task.id, CommittedTask(t));
    TotalInserted(done, scope, Potential(scheme), a.task.runId, a.cp.next, a.ids, a.now);
    if InScope(scope, a.task.runId) { CommitSpends(t, a.task, a.cp, scheme, a.task.runId, a.now); }
  }

  // The work still ahead, of one run or of all, never grows except by creating a run.
  lemma PotentialNeverRises(db: Tables, a: Action, scope: Option<RunId>, scheme: Scheme)
    requires Invariant(db) && FollowsIn(a, scope, scheme)
    requires a.Create? ==> !InScope(scope, a.r)
    ensures Total(Apply(db, a).tasks, scope, Potential(scheme)) <= Total(db.tasks, scope, Potential(scheme))
  {
    hide Total, TallyOf, Recovered, FollowsIn, Invariant;
    if Fits(db, a) && a.Complete? && Holds(db, a.task.id, a.owner) {
      PotentialAfterCommit(db, a, scope, scheme);
    } else if Fits(db, a) && a.Create? {
      TotalSet(db.tasks, scope, Potential(scheme), a.root, FreshTask(a.r, RootTask, a.now));
    } else {
      NoBirth(db, a);
      TotalUnmoved(db, a, scope, scheme);
    }
  }

  lemma NoBirth(db: Tables, a: Action)
    requires a.Create? ==> !Fits(db, a)
    requires a.Complete? ==> !Fits(db, a) || !Holds(db, a.task.id, a.owner)
    ensures Apply(db, a).tasks.Keys == db.tasks.Keys
  {
    hide Apply, Fits, TallyOf;
    forall t
      ensures t in Apply(db, a).tasks <==> t in db.tasks
    {
      if t in db.tasks {
        StepRow(db, a, t);
      } else if t in Apply(db, a).tasks {
        StepBirth(db, a, t);
        assert false;
      }
    }
  }

  predicate ClaimsWithin(db: Tables, a: Action, scope: Option<RunId>) {
    a.Claim? && a.picked.Some? && a.picked.value in db.tasks && InScope(scope, db.tasks[a.picked.value].runId)
  }

  lemma {:induction false} NewAttempts(next: seq<NewTask>, r: RunId, now: Instant)
    ensures NewTotal(next, r, Attempts, now) == 0
  {
    if next != [] { NewAttempts(next[..|next| - 1], r, now); }
  }

  // The attempt counters add up one for one with the claims.
  lemma AttemptsStep(db: Tables, a: Action, scope: Option<RunId>)
    requires Fits(db, a)
    ensures Total(Apply(db, a).tasks, scope, Attempts)
            == Total(db.tasks, scope, Attempts) + (if ClaimsWithin(db, a, scope) then 1 else 0)
  {
    hide Total, TallyOf, Recovered;
    if a.Complete? && Holds(db, a.task.id, a.owner) {
      var done := db.tasks[a.task.id := CommittedTask(db.tasks[a.task.id])];
      TotalSet(db.tasks, scope, Attempts, a.task.id, CommittedTask(db.tasks[a.task.id]));
      TotalInserted(done, scope, Attempts, a.task.runId, a.cp.next, a.ids, a.now);
      NewAttempts(a.cp.next, a.task.runId, a.now);
    } else if a.Create? {
      TotalSet(db.tasks, scope, Attempts, a.root, FreshTask(a.r, RootTask, a.now));
    } else if a.Claim? && a.picked.Some? {
      var t := a.picked.value;
      TotalSet(db.tasks, scope, Attempts, t, LeasedTo(db.tasks[t], a.owner, a.now + a.lease));
    } else {
      NoBirth(db, a);
      AttemptsUnmoved(db, a, scope);
    }
  }

  lemma AttemptsUnmoved(db: Tables, a: Action, scope: Option<RunId>)
    requires Apply(db, a).tasks.Keys == db.tasks.Keys && !(a.Claim? && a.picked.Some?)
    ensures Total(Apply(db, a).tasks, scope, Attempts) == Total(db.tasks, scope, Attempts)
  {
    hide Apply, Fits;
    forall t | t in db.tasks
      ensures Apply(db, a).tasks[t].attempts == db.tasks[t].attempts
      ensures Apply(db, a).tasks[t].runId == db.tasks[t].runId
    {
      StepAttempts(db, a, t);
      StepRow(db, a, t);
    }
    assert Readings(Apply(db, a).tasks, scope, Attempts) == Readings(db.tasks, scope, Attempts);
  }

  // ---- bounds on a table state ----

  lemma RowsBounded(tasks: map<TaskId, Task>, scope: Option<RunId>)
    ensures Total(tasks, scope, Rows)
            <= Total(tasks, scope, Potential(PerBusiness)) + TASKS_PER_BUSINESS * Total(tasks, scope, Businesses)
  {
    SumBound(Readings(tasks, scope, Rows), Readings(tasks, scope, Potential(PerBusiness)),
             Readings(tasks, scope, Businesses), TASKS_PER_BUSINESS);
  }

  lemma AttemptsBounded(db: Tables, scope: Option<RunId>, g: Gauge)
    requires Invariant(db) && (g == Rows || (g.Potential? && g.scheme.Capped?))
    ensures Total(db.tasks, scope, Attempts) <= 3 * Total(db.tasks, scope, g)
  {
    hide TallyOf, RunAgrees, Sum;
    var nothing: map<TaskId, int> := map t | t in db.tasks :: 0;
    SumZero(db.tasks);
    var attempts, read := Readings(db.tasks, scope, Attempts), Readings(db.tasks, scope, g);
    forall t | t in db.tasks
      ensures attempts[t] <= nothing[t] + 3 * read[t]
    {
      AttemptsOfRow(db.tasks[t], g);
    }
    SumBound(attempts, nothing, read, 3);
  }

  lemma AttemptsOfRow(t: Task, g: Gauge)
    requires TaskAgrees(t) && (g == Rows || (g.Potential? && g.scheme.Capped?))
    ensures 0 <= Read(Attempts, t) <= 3 * Read(g, t)
  {
  }

  lemma SumZero(tasks: map<TaskId, Task>)
    ensures Sum(map t | t in tasks :: 0) == 0
  {
    var nothing: map<TaskId, int> := map t | t in tasks :: 0;
    SumBound(nothing, nothing, nothing, -2);
    SumBound(nothing, nothing, nothing, 2);
  }

  ghost function Ones(m: map<TaskId, int>): set<TaskId> {
    set t | t in m && m[t] == 1
  }

  lemma {:induction false} SumOfOnes(m: map<TaskId, int>)
    requires forall t :: t in m ==> m[t] == 0 || m[t] == 1
    ensures Sum(m) == |Ones(m)|
    decreases |m|
  {
    if m != map[] {
      var t :| t in m;
      assert |m - {t}| < |m| by { assert (m - {t}).Keys == m.Keys - {t}; }
      SumOfOnes(m - {t});
      SumTakes(m, t);
      assert Ones(m - {t}) == Ones(m) - {t};
    } else {
      assert Ones(m) == {};
    }
  }

  // ---- over every history ----

  function TasksOf(db: Tables, r: RunId): set<TaskId> {
    set t | t in db.tasks && db.tasks[t].runId == r
  }

  function BusinessesOf(db: Tables, r: RunId): set<TaskId> {
    set t | t in db.tasks && db.tasks[t].runId == r && db.tasks[t].stage == CorroborateBusiness
  }

  lemma CountsAreTotals(db: Tables, r: RunId)
    ensures |TasksOf(db, r)| == Total(db.tasks, Some(r), Rows)
    ensures |BusinessesOf(db, r)| == Total(db.tasks, Some(r), Businesses)
  {
    var rows := Readings(db.tasks, Some(r), Rows);
    var businesses := Readings(db.tasks, Some(r), Businesses);
    SumOfOnes(rows);
    SumOfOnes(businesses);
    assert TasksOf(db, r) == Ones(rows);
    assert BusinessesOf(db, r) == Ones(businesses);
  }

  ghost function ClaimsOfRun(h: History, r: RunId): nat {
    if h == [] then 0
    else
      var before := h[..|h| - 1];
      ClaimsOfRun(before, r) + (if ClaimsFrom(Exec(before), h[|h| - 1], r) then 1 else 0)
  }

  lemma NoRows(db: Tables, r: RunId, g: Gauge)
    requires WellFormed(db) && r !in db.runs
    ensures Total(db.tasks, Some(r), g) == 0
  {
    SumZero(db.tasks);
    assert Readings(db.tasks, Some(r), g) == map t | t in db.tasks :: 0;
  }

  // What a run is given when it is created.
  function Allowance(scheme: Scheme): nat { 2 + (if scheme.Capped? then TASKS_PER_BUSINESS * scheme.cap else 0) }

  lemma {:induction false} RunPotential(h: History, r: RunId, scheme: Scheme)
    requires Valid(h) && forall i :: 0 <= i < |h| ==> FollowsIn(h[i], Some(r), scheme)
    ensures Total(Exec(h).tasks, Some(r), Potential(scheme)) <= Allowance(scheme)
    ensures ClaimsOfRun(h, r) == Total(Exec(h).tasks, Some(r), Attempts)
  {
    hide Apply, Enabled, Total, FollowsIn, Invariant;
    if h == [] {
      NothingWellFormed();
      NoRows(Tables(map[], map[]), r, Potential(scheme));
      NoRows(Tables(map[], map[]), r, Attempts);
    } else {
      var before := h[..|h| - 1];
      var a := h[|h| - 1];
      RunPotential(before, r, scheme);
      Reachable(before);
      EnabledFits(before, a);
      AttemptsStep(Exec(before), a, Some(r));
      if a.Create? && a.r == r {
        CreatedPotential(Exec(before), a, scheme);
      } else {
        PotentialNeverRises(Exec(before), a, Some(r), scheme);
      }
    }
  }

  lemma NothingWellFormed()
    ensures WellFormed(Tables(map[], map[]))
  {
  }

  lemma CreatedPotential(db: Tables, a: Action, scheme: Scheme)
    requires a.Create? && Fits(db, a)
    ensures Total(Apply(db, a).tasks, Some(a.r), Potential(scheme)) == Allowance(scheme)
  {
    hide Total;
    NoRows(db, a.r, Potential(scheme));
    TotalSet(db.tasks, Some(a.r), Potential(scheme), a.root, FreshTask(a.r, RootTask, a.now));
  }

  // A run that fanned out to N businesses never has more than 2 + 7N tasks, nor more than three
  // claims for each of those, under any failures, recoveries, pauses and resumes.
  lemma RunIsBounded(h: History, r: RunId)
    requires Valid(h) && forall i :: 0 <= i < |h| ==> FollowsIn(h[i], Some(r), PerBusiness)
    ensures |TasksOf(Exec(h), r)| <= 2 + 7 * |BusinessesOf(Exec(h), r)|
    ensures ClaimsOfRun(h, r) <= 3 * (2 + 7 * |BusinessesOf(Exec(h), r)|)
  {
    hide Total, FollowsIn, Exec, Valid;
    RunPotential(h, r, PerBusiness);
    Reachable(h);
    RowsBounded(Exec(h).tasks, Some(r));
    AttemptsBounded(Exec(h), Some(r), Rows);
    CountsAreTotals(Exec(h), r);
  }

  // Where the run fans out to no more than a cap, the bound is known before it starts.
  lemma RunIsBoundedByCap(h: History, r: RunId, cap: nat)
    requires Valid(h) && forall i :: 0 <= i < |h| ==> FollowsIn(h[i], Some(r), Capped(cap))
    ensures |TasksOf(Exec(h), r)| <= 2 + 7 * cap
    ensures ClaimsOfRun(h, r) <= 3 * (2 + 7 * cap)
  {
    hide Total, FollowsIn, Exec, Valid, Invariant;
    RunPotential(h, r, Capped(cap));
    Reachable(h);
    RowsPaidFor(Exec(h), Some(r), cap);
    AttemptsBounded(Exec(h), Some(r), Potential(Capped(cap)));
    CountsAreTotals(Exec(h), r);
  }

  lemma RowsPaidFor(db: Tables, scope: Option<RunId>, cap: nat)
    ensures Total(db.tasks, scope, Rows) <= Total(db.tasks, scope, Potential(Capped(cap)))
  {
    hide Sum;
    var nothing: map<TaskId, int> := map t | t in db.tasks :: 0;
    SumZero(db.tasks);
    SumBound(Readings(db.tasks, scope, Rows), nothing, Readings(db.tasks, scope, Potential(Capped(cap))), 1);
  }

  // ---- the claims still to come ----

  // How many claims can still succeed, whatever the workers do, while no run is created.
  ghost function ClaimsLeft(db: Tables, cap: nat): int {
    3 * Total(db.tasks, None, Potential(Capped(cap))) - Total(db.tasks, None, Attempts)
  }

  predicate IsClaim(a: Action) { a.Claim? && a.picked.Some? }

  lemma ClaimsLeftStep(db: Tables, a: Action, cap: nat)
    requires Invariant(db) && Fits(db, a) && FollowsGraph(a, Capped(cap)) && !a.Create?
    ensures 0 <= ClaimsLeft(Apply(db, a), cap) <= ClaimsLeft(db, cap) - (if IsClaim(a) then 1 else 0)
  {
    hide Total, FollowsGraph, Apply, Invariant;
    StepKeeps(db, a);
    AttemptsBounded(Apply(db, a), None, Potential(Capped(cap)));
    PotentialNeverRises(db, a, None, Capped(cap));
    AttemptsStep(db, a, None);
    if IsClaim(a) { assert a.picked.value in db.tasks; }
  }

  ghost function ClaimCount(h: History): nat {
    if h == [] then 0 else ClaimCount(h[..|h| - 1]) + (if IsClaim(h[|h| - 1]) then 1 else 0)
  }

  // However the slots of any number of workers interleave, they make no more claims than were left:
  // every worker cycle comes to a claim that returns nothing.
  lemma {:induction false} ClaimsRunOut(h: History, later: History, cap: nat)
    requires Valid(h + later)
    requires forall i :: 0 <= i < |later| ==> FollowsGraph(later[i], Capped(cap)) && !later[i].Create?
    ensures ClaimCount(later) <= ClaimsLeft(Exec(h), cap) - ClaimsLeft(Exec(h + later), cap)
    ensures 0 <= ClaimsLeft(Exec(h + later), cap)
    decreases |later|
  {
    hide Exec, HandedOut, Valid, Apply, Enabled, ClaimsLeft, FollowsGraph, Invariant;
    if later == [] {
      assert h + later == h;
      Reachable(h);
      ClaimsLeftPositive(Exec(h), cap);
    } else {
      var before := later[..|later| - 1];
      var a := later[|later| - 1];
      LastStep(h, later);
      ClaimsRunOut(h, before, cap);
      Reachable(h + before);
      EnabledFits(h + before, a);
      ClaimsLeftStep(Exec(h + before), a, cap);
    }
  }

  lemma ClaimsLeftPositive(db: Tables, cap: nat)
    requires Invariant(db)
    ensures 0 <= ClaimsLeft(db, cap)
  {
    hide Total, Invariant;
    AttemptsBounded(db, None, Potential(Capped(cap)));
  }
}
