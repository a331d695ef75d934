// What each transaction does, said on the columns of the rows before and after it, and what a run
// reports when its last work is done, said on its rows.

module QueueLaws {
  import opened Wrappers
  import opened RunTables
  import opened Settlement
  import opened Transactions
  import opened RunInvariant
  import opened Histories
  import opened QueueTheorems
  import opened CancelledRuns

  // ---- what stays as it was ----

  predicate OtherTasksStay(db: Tables, after: Tables, moved: set<TaskId>) {
    forall t :: t in db.tasks && t !in moved ==> t in after.tasks && after.tasks[t] == db.tasks[t]
  }

  predicate OtherRunsStay(db: Tables, after: Tables, r: RunId) {
    after.runs.Keys == db.runs.Keys && forall s :: s in db.runs && s != r ==> after.runs[s] == db.runs[s]
  }

  // A task as it is inserted.
  predicate New(row: Task, r: RunId, stage: Stage, business: Option<BusinessId>, input: TaskInput, now: Instant) {
    && row.runId == r && row.stage == stage && row.business == business && row.input == input
    && row.status == Pending && row.attempts == 0 && row.maxAttempts == 3
    && row.owner == None && row.leaseExpiresAt == None && row.failure == None
    && row.availableAt == now && row.createdAt == now
  }

  predicate Released(row: Task) { row.owner == None && row.leaseExpiresAt == None }

  // What no transaction but the claim may change besides the status, the lease and the failure.
  predicate SameWork(before: Task, after: Task) { SameColumns(before, after) && after.attempts == before.attempts }

  // ---- one law for each transaction ----

  lemma CreateLaw(db: Tables, a: Action)
    requires a.Create? && Fits(db, a)
    ensures var after := Apply(db, a);
            && after.tasks.Keys == db.tasks.Keys + {a.root} && OtherTasksStay(db, after, {})
            && New(after.tasks[a.root], a.r, RunPlanning, None, TaskInput(false), a.now)
            && after.runs.Keys == db.runs.Keys + {a.r} && (forall s :: s in db.runs ==> after.runs[s] == db.runs[s])
            && after.runs[a.r] == Run(NotStarted, None, None, NoControl, a.targetCount, a.reassessment, 0, a.targetCount)
  {
  }

  // Pending, due, with attempts to spare, in a run nobody asked to stop and that is not over.
  predicate Due(db: Tables, t: TaskId, now: Instant)
    requires WellFormed(db)
  {
    && t in db.tasks && db.tasks[t].status == Pending
    && db.tasks[t].attempts < db.tasks[t].maxAttempts && db.tasks[t].availableAt <= now
    && db.runs[db.tasks[t].runId].control == NoControl
    && db.runs[db.tasks[t].runId].state != Finished && db.runs[db.tasks[t].runId].state != CancelledRun
  }

  lemma ClaimLaw(db: Tables, a: Action)
    requires a.Claim? && Fits(db, a)
    ensures a.picked.None? <==> forall t :: !Due(db, t, a.now)
    ensures a.picked.None? ==> Apply(db, a) == db
    ensures a.picked.Some? ==>
              var t, after := a.picked.value, Apply(db, a);
              && Due(db, t, a.now)
              && (forall u :: Due(db, u, a.now) ==>
                    db.tasks[t].createdAt < db.tasks[u].createdAt || (db.tasks[t].createdAt == db.tasks[u].createdAt && t <= u))
              && after.tasks.Keys == db.tasks.Keys && OtherTasksStay(db, after, {t})
              && SameColumns(db.tasks[t], after.tasks[t]) && after.tasks[t].attempts == db.tasks[t].attempts + 1
              && after.tasks[t].status == Leased && after.tasks[t].owner == Some(a.owner)
              && after.tasks[t].leaseExpiresAt == Some(a.now + a.lease)
              && after.tasks[t].availableAt == db.tasks[t].availableAt && after.tasks[t].failure == db.tasks[t].failure
              && var r := db.tasks[t].runId;
                 OtherRunsStay(db, after, r)
                 && after.runs[r] == db.runs[r].(state := Running, stage := Some(db.tasks[t].stage))
  {
    assert forall t, now :: Due(db, t, now) == Claimable(db, t, now);
  }

  lemma RenewLaw(db: Tables, a: Action)
    requires a.Renew? && Fits(db, a)
    ensures var after := Apply(db, a);
            if Holds(db, a.task.id, a.owner) then
              && after.runs == db.runs && after.tasks.Keys == db.tasks.Keys && OtherTasksStay(db, after, {a.task.id})
              && after.tasks[a.task.id] == db.tasks[a.task.id].(leaseExpiresAt := Some(a.now + a.lease))
            else after == db
  {
  }

  lemma CompleteLaw(db: Tables, a: Action)
    requires a.Complete? && Fits(db, a) && Holds(db, a.task.id, a.owner)
    ensures var t, r, after := a.task.id, a.task.runId, Apply(db, a);
            && OtherTasksStay(db, after, {t}) && OtherRunsStay(db, after, r)
            && t in after.tasks && SameWork(db.tasks[t], after.tasks[t]) && Released(after.tasks[t])
            && after.tasks[t].status == Completed && after.tasks[t].failure == None
            && (if db.runs[r].control == CancelControl then after.tasks.Keys == db.tasks.Keys
                else after.tasks.Keys == db.tasks.Keys + (set id | id in a.ids)
                     && forall i :: 0 <= i < |a.ids| ==>
                          New(after.tasks[a.ids[i]], r, a.cp.next[i].stage, a.cp.next[i].business, a.cp.next[i].input, a.now))
  {
    hide TallyOf, Settle, Inserted;
    CommitInserts(db, a);
  }

  lemma CommitInserts(db: Tables, a: Action)
    requires a.Complete? && Fits(db, a) && Holds(db, a.task.id, a.owner)
    ensures var done := db.tasks[a.task.id := CommittedTask(db.tasks[a.task.id])];
            var tasks := Inserted(done, a.task.runId, a.cp.next, a.ids, a.now);
            && tasks.Keys == db.tasks.Keys + (set id | id in a.ids)
            && (forall t :: t in done ==> tasks[t] == done[t])
            && (forall i :: 0 <= i < |a.ids| ==> tasks[a.ids[i]] == FreshTask(a.task.runId, a.cp.next[i], a.now))
  {
    var done := db.tasks[a.task.id := CommittedTask(db.tasks[a.task.id])];
    InsertedRows(done, a.task.runId, a.cp.next, a.ids, a.now);
  }

  // A failure is retried a quarter of a second later while it is transient and the worker counted an
  // attempt to spare; otherwise it decides the task.
  lemma FailLaw(db: Tables, a: Action)
    requires a.Fail? && Fits(db, a) && Holds(db, a.task.id, a.owner)
    ensures var t, after := a.task.id, Apply(db, a);
            && after.tasks.Keys == db.tasks.Keys && OtherTasksStay(db, after, {t}) && OtherRunsStay(db, after, a.task.runId)
            && SameWork(db.tasks[t], after.tasks[t]) && Released(after.tasks[t]) && after.tasks[t].failure == Some(a.failure)
            && (after.tasks[t].status == Pending <==> a.failure == Transient && a.task.attempts < a.task.maxAttempts)
            && (after.tasks[t].status == Blocked <==> a.failure == RuntimeBlocked)
            && (after.tasks[t].status == Cancelled <==> a.failure == Withdrawn)
            && (after.tasks[t].status == FailedPermanent
                <==> a.failure == Permanent || a.failure == Infrastructure
                     || (a.failure == Transient && a.task.attempts >= a.task.maxAttempts))
            && after.tasks[t].availableAt == a.now + (if after.tasks[t].status == Pending then 250 else 0)
  {
    hide TallyOf, Settle;
  }

  // A worker that lost its lease changes nothing.
  lemma StaleLaw(db: Tables, a: Action)
    requires (a.Complete? || a.Fail?) && Fits(db, a)
    requires !(db.tasks[a.task.id].status == Leased && db.tasks[a.task.id].owner == Some(a.owner))
    ensures Apply(db, a) == db
  {
    hide TallyOf, Settle, TasksAfterCommit;
  }

  // A lease that ran out, or a task waiting with no attempt left.
  predicate GivenUp(row: Task, now: Instant) {
    || (row.status == Leased && row.leaseExpiresAt.Some? && row.leaseExpiresAt.value <= now)
    || (row.status == Pending && row.attempts >= row.maxAttempts)
  }

  predicate Open(row: Task) { row.status == Pending || row.status == Leased }

  // A row after recover: failed for good where its attempts are used up, withdrawn where a cancelled
  // run lost its last leases that way, else waiting again; and any other row as it was.
  lemma RecoverRowLaw(db: Tables, a: Action, t: TaskId)
    requires Invariant(db) && a.Recover? && Fits(db, a) && t in db.tasks
    ensures var before, after := db.tasks[t], Apply(db, a);
            && after.tasks.Keys == db.tasks.Keys && SameWork(before, after.tasks[t])
            && var row := after.tasks[t];
               var swept := UnderCancel(db, before.runId) && Sweeps(db, before.runId, a.now);
               if GivenUp(before, a.now) then
                 && Released(row)
                 && (row.status == FailedPermanent <==> before.attempts >= before.maxAttempts)
                 && (row.status == Cancelled <==> before.attempts < before.maxAttempts && swept)
                 && (row.status == Pending <==> before.attempts < before.maxAttempts && !swept)
                 && row.failure == (if row.status == FailedPermanent then Some(Infrastructure) else before.failure)
                 && row.availableAt == (if row.status == FailedPermanent then before.availableAt else a.now)
               else if swept && (before.status == Pending || before.status == Blocked) then
                 row == before.(status := Cancelled)
               else row == before
  {
    hide TallyOf, Recovered, RunAgrees, CancelsStranded, Sweeps, TaskAgrees;
    RecoveredKeys(db, a.now, a.stages);
    RecoveredRow(db, a.now, a.stages, t);
    var r := db.tasks[t].runId;
    if UnderCancel(db, r) {
      SweptByRecover(db, a.now, a.stages, r);
    } else {
      NotSwept(db, a.now, a.stages, r);
    }
    assert TaskAgrees(db.tasks[t]);
    GivenUpReleases(db.tasks[t], a.now);
  }

  lemma GivenUpReleases(row: Task, now: Instant)
    requires TaskAgrees(row)
    ensures row.status == Pending ==> Released(row)
    ensures GivenUp(row, now) == Abandoned(row, now)
  {
  }

  lemma NotSwept(db: Tables, now: Instant, stages: map<RunId, Stage>, r: RunId)
    requires Invariant(db) && ExhaustedStages(db.tasks, now, stages) && r in db.runs && !UnderCancel(db, r)
    ensures !CancelsStranded(db, now, stages, r)
  {
    hide TallyOf, TaskAgrees, RecoveredTask, HasExhausted;
    RecoveredTasksTally(db.tasks, r, now);
    assert RunAgrees(db.runs[r], TallyOf(db.tasks, r));
  }

  lemma ControlLaw(db: Tables, a: Action)
    requires a.Control? && Fits(db, a)
    ensures a.r !in db.runs || db.runs[a.r].state == Finished || db.runs[a.r].state == CancelledRun ==> Apply(db, a) == db
    ensures a.r in db.runs && db.runs[a.r].state != Finished && db.runs[a.r].state != CancelledRun ==>
              var before, after := db.runs[a.r], Apply(db, a);
              && after.tasks.Keys == db.tasks.Keys && OtherRunsStay(db, after, a.r)
              && (forall t :: t in db.tasks ==>
                    after.tasks[t] == if a.request == Pause || db.tasks[t].runId != a.r then db.tasks[t]
                                      else if a.request == Resume && db.tasks[t].status == Blocked then
                                        db.tasks[t].(status := Pending, availableAt := a.now, failure := None)
                                      else if a.request == Cancel
                                              && (db.tasks[t].status == Pending || db.tasks[t].status == Blocked) then
                                        db.tasks[t].(status := Cancelled)
                                      else db.tasks[t])
              && var leased := Has(db.tasks, a.r, Leased);
                 match a.request
                 case Pause =>
                   after.runs[a.r] == before.(control := PauseControl, state := if leased then Pausing else Paused,
                                              completion := if leased then None else Some(PausedOnRequest))
                 case Cancel =>
                   after.runs[a.r] == before.(control := CancelControl, state := if leased then Cancelling else CancelledRun,
                                              completion := if leased then None else Some(CancelledWithPartialResults))
                 case Resume =>
                   Has(db.tasks, a.r, Pending) || leased || Has(db.tasks, a.r, Blocked) ==>
                     after.runs[a.r] == before.(control := NoControl, completion := None,
                                                state := if leased then Running else NotStarted)
  {
    hide Settle;
    if a.r in db.runs && !Settled(db.runs[a.r].state) {
      ControlTallies(db, a);
    }
  }

  lemma ControlTallies(db: Tables, a: Action)
    requires a.Control? && a.r in db.runs
    ensures TallyOf(db.tasks, a.r).leased == Has(db.tasks, a.r, Leased)
    ensures TallyOf(WithdrawnTasks(db.tasks, a.r), a.r).leased == Has(db.tasks, a.r, Leased)
    ensures TallyOf(UnblockedTasks(db.tasks, a.r, a.now), a.r).leased == Has(db.tasks, a.r, Leased)
    ensures TallyOf(UnblockedTasks(db.tasks, a.r, a.now), a.r).pending
            == (Has(db.tasks, a.r, Pending) || Has(db.tasks, a.r, Blocked))
  {
    hide TallyOf, WithdrawnTasks, UnblockedTasks, Has;
    WithdrawnTally(db.tasks, a.r);
    WaitingTally(db.tasks, a.r);
    WaitingTally(UnblockedTasks(db.tasks, a.r, a.now), a.r);
    UnblockedHas(db.tasks, a.r, a.now);
  }

  lemma WaitingTally(tasks: map<TaskId, Task>, r: RunId)
    ensures TallyOf(tasks, r).leased == Has(tasks, r, Leased) && TallyOf(tasks, r).pending == Has(tasks, r, Pending)
  {
  }

  lemma UnblockedHas(before: map<TaskId, Task>, r: RunId, now: Instant)
    ensures var tasks := UnblockedTasks(before, r, now);
            && (Has(tasks, r, Leased) <==> Has(before, r, Leased))
            && (Has(tasks, r, Pending) <==> Has(before, r, Pending) || Has(before, r, Blocked))
  {
    hide UnblockedTasks;
    var tasks := UnblockedTasks(before, r, now);
    UnblockedRows(before, r, now);
    if t :| t in before && before[t].runId == r && before[t].status == Blocked { assert tasks[t].status == Pending; }
    if t :| t in before && before[t].runId == r && before[t].status == Pending { assert tasks[t].status == Pending; }
    if t :| t in before && before[t].runId == r && before[t].status == Leased { assert tasks[t].status == Leased; }
  }

  lemma UnblockedRows(before: map<TaskId, Task>, r: RunId, now: Instant)
    ensures UnblockedTasks(before, r, now).Keys == before.Keys
    ensures forall t :: t in before ==> UnblockedTasks(before, r, now)[t] == UnblockedTask(before[t], r, now)
  {
  }

  lemma ScoreLaw(db: Tables, a: Action)
    requires a.Score? && Fits(db, a)
    ensures var after := Apply(db, a);
            && after.tasks == db.tasks && OtherRunsStay(db, after, a.r)
            && (a.r in db.runs ==>
                  var left := db.runs[a.r].targetCount - a.qualified;
                  after.runs[a.r] == db.runs[a.r].(qualified := a.qualified, targetRemaining := if left > 0 then left else 0))
  {
  }

  // ---- what a run reports when its last work is done ----

  ghost predicate AnyOpen(tasks: map<TaskId, Task>, r: RunId) {
    exists t :: t in tasks && tasks[t].runId == r && Open(tasks[t])
  }

  // Work of the run itself, not of a business, that the infrastructure failed.
  ghost predicate RunFailed(tasks: map<TaskId, Task>, r: RunId) {
    exists t :: t in tasks && tasks[t].runId == r && tasks[t].status == FailedPermanent
                && tasks[t].business == None && tasks[t].failure == Some(Infrastructure)
  }

  ghost predicate AllDone(tasks: map<TaskId, Task>, r: RunId) {
    forall t :: t in tasks && tasks[t].runId == r ==> tasks[t].status == Completed
  }

  // State and completion of a run, read off its rows and the run's own numbers.
  ghost predicate ReportsItsRows(db: Tables, r: RunId)
    requires r in db.runs
  {
    var run, failed := db.runs[r], RunFailed(db.tasks, r);
    var blocked, cancelled := Has(db.tasks, r, Blocked), Has(db.tasks, r, Cancelled);
    && run.control == NoControl
    && run.targetRemaining == (if run.targetCount > run.qualified then run.targetCount - run.qualified else 0)
    && (run.completion == Some(InfrastructureFailed) <==> failed)
    && (run.completion == Some(RuntimeUnavailable) <==> !failed && blocked)
    && (run.completion == Some(CancelledWithPartialResults) <==> !failed && !blocked && cancelled)
    && (run.completion == Some(CompletedWithWarnings)
        <==> !failed && !blocked && !cancelled && Has(db.tasks, r, FailedPermanent))
    && (run.completion == Some(ReassessmentComplete) <==> AllDone(db.tasks, r) && run.reassessment)
    && (run.completion == Some(TargetReached)
        <==> AllDone(db.tasks, r) && !run.reassessment && run.qualified >= run.targetCount)
    && (run.completion == Some(SearchExhausted)
        <==> AllDone(db.tasks, r) && !run.reassessment && run.qualified < run.targetCount)
    && (run.state == Paused <==> run.completion == Some(RuntimeUnavailable))
    && (run.state == CancelledRun <==> run.completion == Some(CancelledWithPartialResults))
    && (run.state == Paused || run.state == CancelledRun || run.state == Finished)
  }

  predicate EmptySearch(a: Action, r: RunId) {
    a.Complete? && a.task.runId == r && a.cp.searchExhausted && a.cp.next == []
  }

  // Whatever releases the last open task of a run that nobody cancelled, a commit, a failure or a
  // recover, the run then reports exactly what its rows show.
  lemma LastWorkReports(db: Tables, a: Action, r: RunId)
    requires Invariant(db) && Fits(db, a) && r in db.runs && db.runs[r].control != CancelControl
    requires AnyOpen(db.tasks, r) && !AnyOpen(Apply(db, a).tasks, r)
    requires !Controls(a, r) && !EmptySearch(a, r)
    ensures r in Apply(db, a).runs && ReportsItsRows(Apply(db, a), r)
  {
    hide TallyOf, Recovered, Settle, Invariant, ReportsItsRows, TasksAfterCommit;
    OpenIsTallied(db.tasks, r);
    OpenIsTallied(Apply(db, a).tasks, r);
    ReleasesAtLast(db, a, r);
    if a.Recover? {
      RecoverReports(db, a, r);
    } else {
      StageReports(db, a, r);
    }
  }

  lemma OpenIsTallied(tasks: map<TaskId, Task>, r: RunId)
    ensures AnyOpen(tasks, r) <==> TallyOf(tasks, r).Active()
  {
    if AnyOpen(tasks, r) {
      var t :| t in tasks && tasks[t].runId == r && Open(tasks[t]);
      assert Has(tasks, r, tasks[t].status);
    }
  }

  lemma ReleasesAtLast(db: Tables, a: Action, r: RunId)
    requires Invariant(db) && Fits(db, a) && AnyOpen(db.tasks, r) && !AnyOpen(Apply(db, a).tasks, r) && !Controls(a, r)
    ensures a.Recover? || ((a.Complete? || a.Fail?) && Holds(db, a.task.id, a.owner) && a.task.runId == r)
  {
    hide TallyOf, Recovered, Invariant, Apply, Fits;
    var t :| t in db.tasks && db.tasks[t].runId == r && Open(db.tasks[t]);
    StepRow(db, a, t);
    assert !Open(Apply(db, a).tasks[t]);
    if a.Complete? || a.Fail? { MovedByOwner(db, a, t); }
  }

  lemma MovedByOwner(db: Tables, a: Action, t: TaskId)
    requires Fits(db, a) && t in db.tasks && t in Apply(db, a).tasks && Apply(db, a).tasks[t] != db.tasks[t]
    requires a.Complete? || a.Fail?
    ensures t == a.task.id && Holds(db, t, a.owner) && a.task.runId == db.tasks[t].runId
  {
    hide TallyOf, Settle, TasksAfterCommit;
    if a.Complete? && Holds(db, a.task.id, a.owner) { CommitRows(db, a.task, a.cp, a.ids, a.now); }
  }

  // The outcome by rows, for a run with nothing open.
  lemma OutcomeByRows(tasks: map<TaskId, Task>, run: Run, r: RunId, stage: Stage, runs: map<RunId, Run>)
    requires run.control != CancelControl && !TallyOf(tasks, r).Active()
    ensures ReportsItsRows(Tables(runs[r := Settle(run, TallyOf(tasks, r), stage)], tasks), r)
  {
    var k := TallyOf(tasks, r);
    assert k.infrastructure <==> RunFailed(tasks, r);
    assert k.infrastructure ==> k.failed by { FailureTally(tasks, r); }
    assert AllDone(tasks, r) <==> !k.blocked && !k.failed && !k.cancelled by {
      if !k.blocked && !k.failed && !k.cancelled { AllCompleted(tasks, r); }
    }
  }

  lemma StageReports(db: Tables, a: Action, r: RunId)
    requires Fits(db, a) && r in db.runs && db.runs[r].control != CancelControl && !EmptySearch(a, r)
    requires (a.Complete? || a.Fail?) && Holds(db, a.task.id, a.owner) && a.task.runId == r
    requires !TallyOf(Apply(db, a).tasks, r).Active()
    ensures r in Apply(db, a).runs && ReportsItsRows(Apply(db, a), r)
  {
    hide TallyOf, Settle, ReportsItsRows, TasksAfterCommit;
    OutcomeByRows(Apply(db, a).tasks, db.runs[r], r, a.task.stage, db.runs);
  }

  lemma RecoverReports(db: Tables, a: Action, r: RunId)
    requires Invariant(db) && Fits(db, a) && a.Recover? && r in db.runs && db.runs[r].control != CancelControl
    requires TallyOf(db.tasks, r).Active() && !TallyOf(Apply(db, a).tasks, r).Active()
    ensures r in Apply(db, a).runs && ReportsItsRows(Apply(db, a), r)
  {
    hide TallyOf, Settle, ReportsItsRows, Apply, Fits, Invariant;
    var after := Apply(db, a);
    RecoverSettles(db, a, r);
    OutcomeByRows(after.tasks, db.runs[r], r, a.stages[r], after.runs);
    assert after.runs[r := after.runs[r]] == after.runs;
    assert Tables(after.runs, after.tasks) == after;
  }

  lemma RecoverSettles(db: Tables, a: Action, r: RunId)
    requires Invariant(db) && Fits(db, a) && a.Recover? && r in db.runs && db.runs[r].control != CancelControl
    requires TallyOf(db.tasks, r).Active() && !TallyOf(Apply(db, a).tasks, r).Active()
    ensures r in Apply(db, a).runs && r in a.stages
    ensures Apply(db, a).runs[r] == Settle(db.runs[r], TallyOf(Apply(db, a).tasks, r), a.stages[r])
  {
    hide TallyOf, Settle, RecoveredTasks, RecoveredRun, TaskAgrees, HasExhausted, CancelsStranded, RunAgrees;
    RecoveredKeys(db, a.now, a.stages);
    RecoveredTasksTally(db.tasks, r, a.now);
    NotStrandedTally(db, a.now, a.stages, r);
    assert RunAgrees(db.runs[r], TallyOf(db.tasks, r));
    ExhaustedRun(db.runs[r], TallyOf(db.tasks, r), TallyOf(RecoveredTasks(db.tasks, a.now), r), a.stages[r]);
  }

  lemma NotStrandedTally(db: Tables, now: Instant, stages: map<RunId, Stage>, r: RunId)
    requires Invariant(db) && ExhaustedStages(db.tasks, now, stages) && r in db.runs && !UnderCancel(db, r)
    ensures TallyOf(Recovered(db, now, stages).tasks, r) == TallyOf(RecoveredTasks(db.tasks, now), r)
  {
    hide TallyOf, RecoveredTask, HasExhausted, AfterExhaustion;
    NotSwept(db, now, stages, r);
    RecoveredTally(db, now, stages, r);
  }

  lemma ExhaustedRun(run: Run, before: Tally, k: Tally, stage: Stage)
    requires RunAgrees(run, before) && before.Active() && !k.Active() && run.control != CancelControl
    ensures RecoveredRun(run, k, Some(stage)) == Settle(run, k, stage)
  {
  }

  // A resume of a run with nothing to wait for reports what its rows show as well.
  lemma ResumeReports(db: Tables, a: Action)
    requires a.Control? && a.request == Resume && Fits(db, a) && a.r in db.runs
    requires db.runs[a.r].state != Finished && db.runs[a.r].state != CancelledRun
    requires !AnyOpen(db.tasks, a.r) && !Has(db.tasks, a.r, Blocked)
    ensures Apply(db, a).tasks == db.tasks && a.r in Apply(db, a).runs && ReportsItsRows(Apply(db, a), a.r)
  {
    hide TallyOf, Settle, ReportsItsRows;
    assert UnblockedTasks(db.tasks, a.r, a.now) == db.tasks;
    OpenIsTallied(db.tasks, a.r);
    var run := db.runs[a.r].(control := NoControl);
    OutcomeByRows(db.tasks, run, a.r, run.stage.GetOr(RunPlanning), db.runs);
  }

  // A search that comes up empty ends its run as exhausted, whatever its other rows.
  lemma EmptySearchReports(db: Tables, a: Action, r: RunId)
    requires Fits(db, a) && r in db.runs && db.runs[r].control != CancelControl
    requires EmptySearch(a, r) && Holds(db, a.task.id, a.owner) && !AnyOpen(Apply(db, a).tasks, r)
    ensures Apply(db, a).runs[r] == db.runs[r].(state := Finished, completion := Some(SearchExhausted),
                                                stage := Some(a.task.stage), control := NoControl)
  {
    hide TallyOf, Settle;
    OpenIsTallied(Apply(db, a).tasks, r);
  }

  // While a task of the run is open, a commit or a failure leaves the run's row as it is, except that
  // the last lease of a pausing run pauses it and the last of a cancelled one cancels it.
  lemma OpenWorkGoesOn(db: Tables, a: Action, r: RunId)
    requires Invariant(db) && Fits(db, a) && r in db.runs && AnyOpen(Apply(db, a).tasks, r)
    requires (a.Complete? || a.Fail?) && Holds(db, a.task.id, a.owner) && a.task.runId == r
    ensures var before, after := db.runs[r], Apply(db, a).runs[r];
            if Has(Apply(db, a).tasks, r, Leased) || before.control == NoControl then after == before
            else if before.control == PauseControl then
              after == before.(state := Paused, completion := Some(PausedOnRequest))
            else after == before.(state := CancelledRun, completion := Some(CancelledWithPartialResults))
  {
    hide TallyOf, Invariant, TasksAfterCommit;
    OpenIsTallied(Apply(db, a).tasks, r);
    LeasedTally(Apply(db, a).tasks, r);
    TallyHasAny(Apply(db, a).tasks, r);
  }

  lemma TallyHasAny(tasks: map<TaskId, Task>, r: RunId)
    ensures TallyOf(tasks, r).Active() ==> TallyOf(tasks, r).any
  {
  }

  // Recover leaves alone the row of a run whose leases all hold and whose attempts are not used up,
  // restates a target reported as reached when some of it remains, and nothing else of a run at rest.
  lemma RecoverRunLaw(db: Tables, a: Action, r: RunId)
    requires Invariant(db) && a.Recover? && Fits(db, a) && r in db.runs
    ensures var before, after := db.runs[r], Apply(db, a).runs;
            && after.Keys == db.runs.Keys
            && (before.state == Finished || before.state == CancelledRun ==>
                  after[r] == if before.completion == Some(TargetReached) && before.targetRemaining > 0
                              then before.(completion := Some(SearchExhausted)) else before)
            && (before.state == Paused && !HasExhausted(db.tasks, r, a.now) ==> after[r] == before)
            && ((before.state == NotStarted || before.state == Running) && AnyOpen(Apply(db, a).tasks, r) ==> after[r] == before)
            && (before.state == Pausing && AnyOpen(Apply(db, a).tasks, r) ==>
                  after[r] == if Has(Apply(db, a).tasks, r, Leased) then before
                              else before.(state := Paused, completion := Some(PausedOnRequest)))
            && (before.state == Cancelling ==>
                  if HasLiveLease(db.tasks, r, a.now) then after[r] == before
                  else after[r].state == CancelledRun && after[r].completion == Some(CancelledWithPartialResults))
  {
    hide TallyOf, Apply, Fits, Invariant, HasExhausted, Has, HasLiveLease, AnyOpen, RecoveredRun, RecoveredTasks;
    var k := TallyOf(RecoveredTasks(db.tasks, a.now), r);
    RecoverTells(db, a, r);
    RecoverOneRun(db.runs[r], TallyOf(db.tasks, r), k, StageOf(a.stages, r));
  }

  // The run row after recover, from the tallies around it, and what those say of the rows.
  lemma RecoverTells(db: Tables, a: Action, r: RunId)
    requires Invariant(db) && a.Recover? && Fits(db, a) && r in db.runs
    ensures var before, k, after := TallyOf(db.tasks, r), TallyOf(RecoveredTasks(db.tasks, a.now), r), Apply(db, a);
            && after.runs.Keys == db.runs.Keys && after.runs[r] == RecoveredRun(db.runs[r], k, StageOf(a.stages, r))
            && RunAgrees(db.runs[r], before) && k.any && (k.leased ==> before.leased) && (k.Active() ==> before.Active())
            && (r in a.stages <==> HasExhausted(db.tasks, r, a.now))
            && (r in a.stages ==> before.Active() && k.failed) && (r !in a.stages ==> k.Active() == before.Active())
            && (k.leased <==> HasLiveLease(db.tasks, r, a.now))
            && (db.runs[r].control != CancelControl ==>
                  (k.Active() <==> AnyOpen(after.tasks, r)) && (k.leased <==> Has(after.tasks, r, Leased)))
  {
    hide TallyOf, RecoveredTasks, TaskAgrees, HasExhausted, CancelsStranded, Sweeps, Has, HasLiveLease, AnyOpen, RecoveredRun;
    RecoveredKeys(db, a.now, a.stages);
    RecoveredTasksTally(db.tasks, r, a.now);
    RecoveredPending(db.tasks, r, a.now);
    LeasedTally(RecoveredTasks(db.tasks, a.now), r);
    LeasedTally(Apply(db, a).tasks, r);
    OpenIsTallied(Apply(db, a).tasks, r);
    if !UnderCancel(db, r) { NotStrandedTally(db, a.now, a.stages, r); }
    assert RunAgrees(db.runs[r], TallyOf(db.tasks, r));
  }

  lemma RecoverOneRun(run: Run, before: Tally, k: Tally, exhausted: Option<Stage>)
    requires RunAgrees(run, before) && k.any && (k.leased ==> before.leased) && (k.Active() ==> before.Active())
    requires exhausted.Some? ==> before.Active() && k.failed
    requires exhausted.None? ==> k.Active() == before.Active()
    ensures var after := RecoveredRun(run, k, exhausted);
            && (run.state == Finished || run.state == CancelledRun ==>
                  after == if run.completion == Some(TargetReached) && run.targetRemaining > 0
                           then run.(completion := Some(SearchExhausted)) else run)
            && (run.state == Paused && exhausted.None? ==> after == run)
            && ((run.state == NotStarted || run.state == Running) && k.Active() ==> after == run)
            && (run.state == Pausing && k.Active() ==>
                  after == if k.leased then run else run.(state := Paused, completion := Some(PausedOnRequest)))
            && (run.state == Cancelling ==>
                  if k.leased then after == run
                  else after.state == CancelledRun && after.completion == Some(CancelledWithPartialResults))
  {
  }

  // From any tables: a run reported as finished whose leases come back to it runs again.
  lemma RecoverReopens(db: Tables, a: Action, r: RunId)
    requires a.Recover? && Fits(db, a) && r in db.runs && db.runs[r].state == Finished
    requires !HasExhausted(db.tasks, r, a.now) && (Returns(db.tasks, r, a.now) || HasLiveLease(db.tasks, r, a.now))
    ensures Apply(db, a).runs[r] == db.runs[r].(state := Running, completion := None)
  {
    hide TallyOf, RecoveredTasks, HasExhausted, Has, Returns, HasLiveLease, CancelsStranded;
    RecoveredPending(db.tasks, r, a.now);
    LeasedTally(RecoveredTasks(db.tasks, a.now), r);
    ActiveTally(RecoveredTasks(db.tasks, a.now), r);
  }

  lemma ActiveTally(tasks: map<TaskId, Task>, r: RunId)
    ensures TallyOf(tasks, r).Active() <==> Has(tasks, r, Pending) || Has(tasks, r, Leased)
  {
  }

  // ---- a blocked runtime ----

  // When the runtime blocks the last open task of a run, the run is paused for want of a runtime, and
  // a resume makes that task one the next claim may pick exactly if it has an attempt left.
  lemma BlockedRunResumes(h: History, a: Action, r: RunId, now: Instant)
    requires Valid(h + [a]) && a.Fail? && a.failure == RuntimeBlocked && Holds(Exec(h), a.task.id, a.owner)
    requires a.task.runId == r && r in Exec(h).runs && Exec(h).runs[r].control != CancelControl
    requires !AnyOpen(Exec(h + [a]).tasks, r) && !RunFailed(Exec(h + [a]).tasks, r)
    ensures var paused := Exec(h + [a]);
            r in paused.runs && paused.runs[r].state == Paused && paused.runs[r].completion == Some(RuntimeUnavailable)
    ensures var resumed := Apply(Exec(h + [a]), Control(r, Resume, now));
            WellFormed(resumed)
            && (Due(resumed, a.task.id, now) <==> Exec(h).tasks[a.task.id].attempts < Exec(h).tasks[a.task.id].maxAttempts)
  {
    hide Exec, HandedOut, Valid, TallyOf, Invariant, Enabled, Apply, Fits, ReportsItsRows;
    LastStep(h, [a]);
    assert h + [] == h;
    Reachable(h);
    Reachable(h + [a]);
    EnabledFits(h, a);
    HeldIsOpen(Exec(h), a.task.id, a.owner);
    OwnerFits(Exec(h), a);
    LastWorkReports(Exec(h), a, r);
    FailLaw(Exec(h), a);
    BlockedIsPaused(Exec(h + [a]), r, a.task.id);
    ResumeUnblocks(Exec(h + [a]), r, a.task.id, now);
  }

  lemma OwnerFits(db: Tables, a: Action)
    requires a.Fail? && Fits(db, a) && Holds(db, a.task.id, a.owner)
    ensures db.tasks[a.task.id].runId == a.task.runId
  {
  }

  lemma HeldIsOpen(db: Tables, t: TaskId, owner: Owner)
    requires Holds(db, t, owner)
    ensures AnyOpen(db.tasks, db.tasks[t].runId)
  {
  }

  lemma BlockedIsPaused(db: Tables, r: RunId, t: TaskId)
    requires r in db.runs && ReportsItsRows(db, r) && !RunFailed(db.tasks, r)
    requires t in db.tasks && db.tasks[t].runId == r && db.tasks[t].status == Blocked
    ensures db.runs[r].state == Paused && db.runs[r].completion == Some(RuntimeUnavailable)
  {
    assert Has(db.tasks, r, Blocked);
  }

  lemma ResumeUnblocks(db: Tables, r: RunId, t: TaskId, now: Instant)
    requires Invariant(db) && r in db.runs && db.runs[r].state == Paused
    requires t in db.tasks && db.tasks[t].runId == r && db.tasks[t].status == Blocked
    ensures var resumed := Apply(db, Control(r, Resume, now));
            WellFormed(resumed) && (Due(resumed, t, now) <==> db.tasks[t].attempts < db.tasks[t].maxAttempts)
  {
    hide TallyOf, Apply, RunAgrees, TaskAgrees;
    var a := Control(r, Resume, now);
    assert Has(db.tasks, r, Blocked);
    ControlLaw(db, a);
    StepKeeps(db, a);
  }
}
