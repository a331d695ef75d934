// Every transaction of the queue and of run control, as a function from tables to tables. A
// transaction that throws is rolled back, so it is the identity.

module Transactions {
  import opened Wrappers
  import opened RunTables
  import opened Settlement

  // ---- creating a run: the run row, and the root task the insert trigger adds ----

  function NewRun(targetCount: int, reassessment: bool): Run {
    Run(NotStarted, None, None, NoControl, targetCount, reassessment, 0, targetCount)
  }

  function FreshTask(r: RunId, task: NewTask, now: Instant): Task {
    Task(r, task.business, task.stage, task.input, Pending, 0, MAX_ATTEMPTS, None, None, now, None, now)
  }

  const RootTask := NewTask(RunPlanning, None, TaskInput(false))

  function Created(db: Tables, r: RunId, root: TaskId, targetCount: int, reassessment: bool, now: Instant): Tables {
    Tables(db.runs[r := NewRun(targetCount, reassessment)], db.tasks[root := FreshTask(r, RootTask, now)])
  }

  // ---- claim ----

  predicate Claimable(db: Tables, t: TaskId, now: Instant)
    requires WellFormed(db)
  {
    && t in db.tasks
    && var row := db.tasks[t];
       && row.status == Pending
       && row.attempts < row.maxAttempts
       && row.availableAt <= now
       && db.runs[row.runId].control == NoControl
       && !Settled(db.runs[row.runId].state)
  }

  predicate ClaimedBefore(db: Tables, a: TaskId, b: TaskId)
    requires a in db.tasks && b in db.tasks
  {
    || db.tasks[a].createdAt < db.tasks[b].createdAt
    || (db.tasks[a].createdAt == db.tasks[b].createdAt && a <= b)
  }

  // The first row of the claim query: oldest, then by identifier.
  ghost predicate NextClaim(db: Tables, now: Instant, t: TaskId)
    requires WellFormed(db)
  {
    && Claimable(db, t, now)
    && forall u :: Claimable(db, u, now) ==> ClaimedBefore(db, t, u)
  }

  function LeasedTo(t: Task, owner: Owner, expiry: Instant): Task {
    t.(status := Leased, attempts := t.attempts + 1, owner := Some(owner), leaseExpiresAt := Some(expiry))
  }

  function Claimed(db: Tables, t: TaskId, owner: Owner, now: Instant, lease: int): Tables
    requires WellFormed(db) && t in db.tasks
  {
    var row := db.tasks[t];
    var run := db.runs[row.runId];
    Tables(
      db.runs[row.runId := run.(state := Running, stage := Some(row.stage))],
      db.tasks[t := LeasedTo(row, owner, now + lease)])
  }

  // ---- the lease fence ----

  predicate Holds(db: Tables, t: TaskId, owner: Owner) {
    t in db.tasks && db.tasks[t].status == Leased && db.tasks[t].owner == Some(owner)
  }

  function Renewed(db: Tables, task: RunTask, owner: Owner, now: Instant, lease: int): Tables {
    if !Holds(db, task.id, owner) then db
    else db.(tasks := db.tasks[task.id := db.tasks[task.id].(leaseExpiresAt := Some(now + lease))])
  }

  // ---- complete ----

  function Inserted(tasks: map<TaskId, Task>, r: RunId, next: seq<NewTask>, ids: seq<TaskId>, now: Instant): map<TaskId, Task>
    requires |ids| == |next|
  {
    if next == [] then tasks
    else
      var last := |next| - 1;
      Inserted(tasks, r, next[..last], ids[..last], now)[ids[last] := FreshTask(r, next[last], now)]
  }

  function CommittedTask(t: Task): Task {
    t.(status := Completed, failure := None, owner := None, leaseExpiresAt := None)
  }

  function TasksAfterCommit(db: Tables, task: RunTask, cp: Checkpoint, ids: seq<TaskId>, now: Instant): map<TaskId, Task>
    requires SnapshotAgrees(db, task) && task.runId in db.runs && |ids| == |cp.next|
  {
    var done := db.tasks[task.id := CommittedTask(db.tasks[task.id])];
    if db.runs[task.runId].control == CancelControl then done
    else Inserted(done, task.runId, cp.next, ids, now)
  }

  function RunAfterCommit(run: Run, k: Tally, cp: Checkpoint, stage: Stage): Run {
    // A search that came up empty ends the run itself, unless other tasks of it are open.
    if run.control != CancelControl && cp.searchExhausted && cp.next == [] && !k.Active() then
      run.(state := Finished, completion := Some(SearchExhausted), stage := Some(stage), control := NoControl)
    else
      Settle(run, k, stage)
  }

  function Committed(db: Tables, task: RunTask, owner: Owner, cp: Checkpoint, ids: seq<TaskId>, now: Instant): Tables
    requires WellFormed(db) && SnapshotAgrees(db, task) && |ids| == |cp.next|
  {
    if !Holds(db, task.id, owner) then db
    else
      var tasks := TasksAfterCommit(db, task, cp, ids, now);
      var run := RunAfterCommit(db.runs[task.runId], TallyOf(tasks, task.runId), cp, task.stage);
      Tables(db.runs[task.runId := run], tasks)
  }

  // ---- fail ----

  predicate Retries(task: RunTask, failure: Classification) {
    failure == Transient && task.attempts < task.maxAttempts
  }

  function StatusAfterFailure(task: RunTask, failure: Classification): TaskStatus {
    if Retries(task, failure) then Pending
    else if failure == RuntimeBlocked then Blocked
    else if failure == Withdrawn then Cancelled
    else FailedPermanent
  }

  function FailedTask(t: Task, task: RunTask, failure: Classification, now: Instant): Task {
    t.(status := StatusAfterFailure(task, failure), failure := Some(failure), owner := None,
       leaseExpiresAt := None, availableAt := if Retries(task, failure) then now + RETRY_DELAY else now)
  }

  function Failed(db: Tables, task: RunTask, owner: Owner, failure: Classification, now: Instant): Tables
    requires WellFormed(db) && SnapshotAgrees(db, task)
  {
    if !Holds(db, task.id, owner) then db
    else
      var tasks := db.tasks[task.id := FailedTask(db.tasks[task.id], task, failure, now)];
      Tables(db.runs[task.runId := Settle(db.runs[task.runId], TallyOf(tasks, task.runId), task.stage)], tasks)
  }

  // ---- recover ----

  predicate Abandoned(t: Task, now: Instant) {
    || (t.status == Leased && t.leaseExpiresAt.Some? && t.leaseExpiresAt.value <= now)
    || (t.status == Pending && t.attempts >= t.maxAttempts)
  }

  function AbandonedTasks(tasks: map<TaskId, Task>, now: Instant): set<TaskId> {
    set t | t in tasks && Abandoned(tasks[t], now)
  }

  predicate Exhausts(t: Task, now: Instant) {
    Abandoned(t, now) && t.attempts >= t.maxAttempts
  }

  function RecoveredTask(t: Task, now: Instant): Task {
    if Exhausts(t, now) then
      t.(status := FailedPermanent, failure := Some(Infrastructure), owner := None, leaseExpiresAt := None)
    else if Abandoned(t, now) then
      t.(status := Pending, owner := None, leaseExpiresAt := None, availableAt := now)
    else t
  }

  function RecoveredTasks(tasks: map<TaskId, Task>, now: Instant): map<TaskId, Task> {
    map t | t in tasks :: RecoveredTask(tasks[t], now)
  }

  predicate HasExhausted(tasks: map<TaskId, Task>, r: RunId, now: Instant) {
    exists t :: t in tasks && tasks[t].runId == r && Exhausts(tasks[t], now)
  }

  // The map recover builds from each run with an exhausted task to the stage of one such task.
  ghost predicate ExhaustedStages(tasks: map<TaskId, Task>, now: Instant, stages: map<RunId, Stage>) {
    && (forall r :: r in stages <==> HasExhausted(tasks, r, now))
    && (forall r :: r in stages ==>
          exists t :: t in tasks && tasks[t].runId == r && Exhausts(tasks[t], now) && tasks[t].stage == stages[r])
  }

  // A target reported as reached while the metrics say some of it remains.
  function Corrected(run: Run): Run {
    if run.state == Finished && run.completion == Some(TargetReached) && run.targetRemaining > 0
    then run.(completion := Some(SearchExhausted)) else run
  }

  function AfterExhaustion(run: Run, k: Tally, exhausted: Option<Stage>): Run {
    match exhausted
    case Some(stage) => Settle(Corrected(run), k, stage)
    case None => Corrected(run)
  }

  predicate Stranded(run: Run, k: Tally) {
    (run.state == Cancelling || run.state == Pausing) && !k.leased
  }

  function WithOpenCancelled(k: Tally): Tally {
    k.(pending := false, blocked := false, cancelled := k.cancelled || k.pending || k.blocked)
  }

  function TallyAfterStranding(run: Run, k: Tally): Tally {
    if Stranded(run, k) && run.state == Cancelling then WithOpenCancelled(k) else k
  }

  function AfterStranding(run: Run, k: Tally): Run {
    if Stranded(run, k)
    then Settle(run, TallyAfterStranding(run, k), run.stage.GetOr(RunPlanning))
    else run
  }

  function Reopened(run: Run, k: Tally): Run {
    if run.state == Finished && k.Active() then run.(state := Running, completion := None) else run
  }

  // The whole effect of recover on one run, given what its tasks look like once leases are recovered.
  function RecoveredRun(run: Run, k: Tally, exhausted: Option<Stage>): Run {
    var settled := AfterExhaustion(run, k, exhausted);
    Reopened(AfterStranding(settled, k), TallyAfterStranding(settled, k))
  }

  function CancelOpen(t: Task): Task {
    if t.status == Pending || t.status == Blocked then t.(status := Cancelled) else t
  }

  function StageOf(stages: map<RunId, Stage>, r: RunId): Option<Stage> {
    if r in stages then Some(stages[r]) else None
  }

  predicate CancelsStranded(db: Tables, now: Instant, stages: map<RunId, Stage>, r: RunId)
    requires r in db.runs
  {
    var k := TallyOf(RecoveredTasks(db.tasks, now), r);
    var run := AfterExhaustion(db.runs[r], k, StageOf(stages, r));
    Stranded(run, k) && run.state == Cancelling
  }

  function Recovered(db: Tables, now: Instant, stages: map<RunId, Stage>): Tables
    requires WellFormed(db)
  {
    var tasks := RecoveredTasks(db.tasks, now);
    Tables(
      map r | r in db.runs :: RecoveredRun(db.runs[r], TallyOf(tasks, r), StageOf(stages, r)),
      map t | t in db.tasks ::
        if CancelsStranded(db, now, stages, db.tasks[t].runId) then CancelOpen(tasks[t]) else tasks[t])
  }

  // ---- run control ----

  datatype Request = Pause | Resume | Cancel

  function PausedRun(run: Run, k: Tally): Run {
    run.(control := PauseControl, state := if k.leased then Pausing else Paused,
         completion := if k.leased then None else Some(PausedOnRequest))
  }

  function UnblockedTask(t: Task, r: RunId, now: Instant): Task {
    if t.runId == r && t.status == Blocked then t.(status := Pending, availableAt := now, failure := None) else t
  }

  function UnblockedTasks(tasks: map<TaskId, Task>, r: RunId, now: Instant): map<TaskId, Task> {
    map t | t in tasks :: UnblockedTask(tasks[t], r, now)
  }

  function ResumedRun(run: Run, k: Tally): Run {
    if !k.Active() then
      Settle(run.(control := NoControl), k, run.stage.GetOr(RunPlanning))
    else
      run.(control := NoControl, state := if k.leased then Running else NotStarted, completion := None)
  }

  function WithdrawnTasks(tasks: map<TaskId, Task>, r: RunId): map<TaskId, Task> {
    map t | t in tasks :: if tasks[t].runId == r then CancelOpen(tasks[t]) else tasks[t]
  }

  function CancelledOnRequest(run: Run, k: Tally): Run {
    run.(control := CancelControl, state := if k.leased then Cancelling else CancelledRun,
         completion := if k.leased then None else Some(CancelledWithPartialResults))
  }

  function Requested(db: Tables, r: RunId, request: Request, now: Instant): Tables {
    if r !in db.runs || Settled(db.runs[r].state) then db
    else
      var run := db.runs[r];
      match request
      case Pause =>
        db.(runs := db.runs[r := PausedRun(run, TallyOf(db.tasks, r))])
      case Resume =>
        var tasks := UnblockedTasks(db.tasks, r, now);
        Tables(db.runs[r := ResumedRun(run, TallyOf(tasks, r))], tasks)
      case Cancel =>
        var tasks := WithdrawnTasks(db.tasks, r);
        Tables(db.runs[r := CancelledOnRequest(run, TallyOf(tasks, r))], tasks)
  }

  // ---- scoring: the one stage that rewrites the numbers settlement reads ----

  function Scored(db: Tables, r: RunId, qualified: int): Tables {
    if r !in db.runs then db
    else
      var run := db.runs[r].(qualified := qualified);
      db.(runs := db.runs[r := run.(targetRemaining := Remaining(run))])
  }

  // ---- what the row rewrites do ----

  // Identifiers a transaction may insert under.
  predicate FreshIds(tasks: map<TaskId, Task>, ids: seq<TaskId>) {
    && (forall i :: 0 <= i < |ids| ==> ids[i] !in tasks)
    && (forall i, j :: 0 <= i < j < |ids| ==> ids[i] != ids[j])
  }

  lemma {:induction false} InsertedRows(tasks: map<TaskId, Task>, r: RunId, next: seq<NewTask>, ids: seq<TaskId>, now: Instant)
    requires |ids| == |next|
    requires forall i, j :: 0 <= i < j < |ids| ==> ids[i] != ids[j]
    ensures var after := Inserted(tasks, r, next, ids, now);
            && (forall t :: t in tasks && t !in ids ==> t in after && after[t] == tasks[t])
            && (forall t :: t in after ==> t in tasks || t in ids)
            && (forall i :: 0 <= i < |ids| ==> ids[i] in after && after[ids[i]] == FreshTask(r, next[i], now))
  {
    if next != [] {
      var last := |next| - 1;
      var before := Inserted(tasks, r, next[..last], ids[..last], now);
      InsertedRows(tasks, r, next[..last], ids[..last], now);
      assert Inserted(tasks, r, next, ids, now) == before[ids[last] := FreshTask(r, next[last], now)];
      assert forall t :: t in ids <==> t in ids[..last] || t == ids[last];
      forall i | 0 <= i < last
        ensures ids[i] in before && before[ids[i]] == FreshTask(r, next[i], now)
      {
        assert ids[..last][i] == ids[i];
      }
    }
  }

  lemma WithdrawnTally(tasks: map<TaskId, Task>, r: RunId)
    ensures TallyOf(WithdrawnTasks(tasks, r), r) == WithOpenCancelled(TallyOf(tasks, r))
  {
    var after := WithdrawnTasks(tasks, r);
    forall s: TaskStatus
      ensures Has(after, r, s) == match s
                                  case Pending => false
                                  case Blocked => false
                                  case Cancelled => Has(tasks, r, Pending) || Has(tasks, r, Blocked) || Has(tasks, r, Cancelled)
                                  case _ => Has(tasks, r, s)
    {
      if Has(tasks, r, s) {
        var t :| t in tasks && tasks[t].runId == r && tasks[t].status == s;
        assert after[t] == CancelOpen(tasks[t]);
      }
      if s == Cancelled && Has(tasks, r, Pending) {
        var t :| t in tasks && tasks[t].runId == r && tasks[t].status == Pending;
        assert after[t] == CancelOpen(tasks[t]);
      }
      if s == Cancelled && Has(tasks, r, Blocked) {
        var t :| t in tasks && tasks[t].runId == r && tasks[t].status == Blocked;
        assert after[t] == CancelOpen(tasks[t]);
      }
    }
    SameRows(tasks, after, r);
  }

  lemma SameRows(tasks: map<TaskId, Task>, after: map<TaskId, Task>, r: RunId)
    requires after == WithdrawnTasks(tasks, r)
    ensures TallyOf(tasks, r).any == TallyOf(after, r).any
    ensures TallyOf(tasks, r).infrastructure == TallyOf(after, r).infrastructure
  {
    if TallyOf(tasks, r).any {
      var t :| t in tasks && tasks[t].runId == r;
      assert t in after && after[t].runId == r;
    }
    if TallyOf(tasks, r).infrastructure {
      var t :| t in tasks && tasks[t].runId == r && RunLevelInfrastructureFailure(tasks[t]);
      assert t in after && after[t].runId == r && RunLevelInfrastructureFailure(after[t]);
    }
  }

  lemma SameRun(t: Task, now: Instant)
    ensures RecoveredTask(t, now).runId == t.runId
  {
  }

  lemma RecoveredKeys(db: Tables, now: Instant, stages: map<RunId, Stage>)
    requires WellFormed(db)
    ensures Recovered(db, now, stages).runs.Keys == db.runs.Keys
    ensures Recovered(db, now, stages).tasks.Keys == db.tasks.Keys
  {
    hide TallyOf, RecoveredTask, RecoveredRun;
  }

  lemma RecoveredRow(db: Tables, now: Instant, stages: map<RunId, Stage>, t: TaskId)
    requires WellFormed(db) && t in db.tasks
    ensures t in Recovered(db, now, stages).tasks
    ensures Recovered(db, now, stages).tasks[t]
            == if CancelsStranded(db, now, stages, db.tasks[t].runId)
               then CancelOpen(RecoveredTask(db.tasks[t], now)) else RecoveredTask(db.tasks[t], now)
    ensures Recovered(db, now, stages).tasks[t].runId == db.tasks[t].runId
  {
    hide TallyOf, CancelsStranded;
  }

  // What a run's tasks look like after recover.
  lemma RecoveredTally(db: Tables, now: Instant, stages: map<RunId, Stage>, r: RunId)
    requires WellFormed(db) && r in db.runs
    ensures var k := TallyOf(RecoveredTasks(db.tasks, now), r);
            TallyOf(Recovered(db, now, stages).tasks, r)
            == TallyAfterStranding(AfterExhaustion(db.runs[r], k, StageOf(stages, r)), k)
  {
    hide TallyOf, Recovered, RecoveredTask, AfterExhaustion, CancelOpen;
    var tasks := RecoveredTasks(db.tasks, now);
    var after := Recovered(db, now, stages).tasks;
    RecoveredKeys(db, now, stages);
    forall t | t in db.tasks
      ensures t in after && after[t].runId == db.tasks[t].runId == tasks[t].runId
      ensures after[t] == if CancelsStranded(db, now, stages, db.tasks[t].runId) then CancelOpen(tasks[t]) else tasks[t]
    {
      RecoveredRow(db, now, stages, t);
      SameRun(db.tasks[t], now);
    }
    WithdrawnTally(tasks, r);
    if CancelsStranded(db, now, stages, r) {
      TallyFrame(WithdrawnTasks(tasks, r), after, r);
    } else {
      TallyFrame(tasks, after, r);
    }
  }
}
