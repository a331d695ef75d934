// What every reachable table state satisfies: each run agrees with its tasks, and each task row
// with itself. Every transaction keeps it.

module RunInvariant {
  import opened Wrappers
  import opened RunTables
  import opened Settlement
  import opened Transactions

  // The outcome a finished run reports is the one its tasks show.
  predicate Coherent(run: Run, k: Tally) {
    match run.completion
    case Some(InfrastructureFailed) => k.infrastructure
    case Some(CompletedWithWarnings) => k.failed && !k.infrastructure && !k.blocked && !k.cancelled
    case Some(ReassessmentComplete) => run.reassessment && !k.blocked && !k.failed && !k.cancelled
    case Some(TargetReached) => !run.reassessment && !k.blocked && !k.failed && !k.cancelled
    case Some(SearchExhausted) => true
    case _ => false
  }

  // How a run's state, control and completion fit the tasks it has.
  predicate RunAgrees(run: Run, k: Tally) {
    && k.any
    && match run.state
       case NotStarted => run.control == NoControl && run.completion == None && k.pending && !k.leased
       case Running => run.control == NoControl && run.completion == None && k.Active()
       case Pausing => run.control == PauseControl && run.completion == None && k.leased
       case Cancelling => run.control == CancelControl && run.completion == None && k.leased
       case Paused =>
         && !k.leased
         && ((run.control == PauseControl && run.completion == Some(PausedOnRequest))
             || (run.control == NoControl && run.completion == Some(RuntimeUnavailable)
                 && !k.pending && k.blocked && !k.infrastructure))
       case CancelledRun =>
         && !k.leased
         && run.completion == Some(CancelledWithPartialResults)
         && (run.control == CancelControl || (run.control == NoControl && !k.pending))
       case Finished => run.control == NoControl && !k.Active() && Coherent(run, k)
  }

  // The same with a lease just released: what settlement may be called on.
  predicate Settling(run: Run, k: Tally) {
    && k.any
    && match run.state
       case NotStarted => run.control == NoControl && run.completion == None && !k.leased
       case Running => run.control == NoControl && run.completion == None
       case Pausing => run.control == PauseControl && run.completion == None
       case Cancelling => run.control == CancelControl && run.completion == None
       case Paused => !k.leased && run.control == PauseControl && run.completion == Some(PausedOnRequest)
       case CancelledRun =>
         !k.leased && run.control == CancelControl && run.completion == Some(CancelledWithPartialResults)
       case Finished => false
  }

  predicate TaskAgrees(t: Task) {
    && t.attempts <= t.maxAttempts
    && 1 <= t.maxAttempts <= MAX_ATTEMPTS
    && (t.status == Leased <==> t.owner.Some?)
    && (t.status == Leased <==> t.leaseExpiresAt.Some?)
    && (t.status == Leased || t.status == Completed ==> t.attempts >= 1)
  }

  ghost predicate Invariant(db: Tables) {
    && WellFormed(db)
    && (forall t :: t in db.tasks ==> TaskAgrees(db.tasks[t]))
    && (forall r :: r in db.runs ==> RunAgrees(db.runs[r], TallyOf(db.tasks, r)))
  }

  // Settlement turns "a lease was just released" back into agreement.
  lemma SettleAgrees(run: Run, k: Tally, stage: Stage)
    requires Settling(run, k)
    requires k.infrastructure ==> k.failed
    ensures RunAgrees(Settle(run, k, stage), k)
  {
  }

  lemma FailureTally(tasks: map<TaskId, Task>, r: RunId)
    ensures TallyOf(tasks, r).infrastructure ==> TallyOf(tasks, r).failed
  {
    if TallyOf(tasks, r).infrastructure {
      var t :| t in tasks && tasks[t].runId == r && RunLevelInfrastructureFailure(tasks[t]);
      assert Has(tasks, r, FailedPermanent);
    }
  }

  // A row of the run is witness to its tally.
  lemma Witness(tasks: map<TaskId, Task>, t: TaskId)
    requires t in tasks
    ensures TallyOf(tasks, tasks[t].runId).any
    ensures Has(tasks, tasks[t].runId, tasks[t].status)
  {
  }

  // To keep the invariant a transaction on one run has only that run to account for.
  lemma OneRun(db: Tables, after: Tables, r: RunId)
    requires Invariant(db) && r in after.runs
    requires forall s :: s in db.runs && s != r ==> s in after.runs && after.runs[s] == db.runs[s]
    requires forall s :: s in after.runs && s != r ==> s in db.runs
    requires forall t :: t in db.tasks && db.tasks[t].runId != r ==> t in after.tasks && after.tasks[t] == db.tasks[t]
    requires forall t :: t in after.tasks && after.tasks[t].runId != r ==> t in db.tasks && after.tasks[t] == db.tasks[t]
    requires forall t :: t in after.tasks && after.tasks[t].runId == r ==> TaskAgrees(after.tasks[t])
    requires RunAgrees(after.runs[r], TallyOf(after.tasks, r))
    ensures Invariant(after)
  {
    hide TallyOf, RunAgrees, TaskAgrees;
    forall s | s in after.runs
      ensures RunAgrees(after.runs[s], TallyOf(after.tasks, s))
    {
      if s != r {
        TallyFrame(db.tasks, after.tasks, s);
      }
    }
  }

  lemma CreateKeeps(db: Tables, r: RunId, root: TaskId, targetCount: int, reassessment: bool, now: Instant)
    requires Invariant(db) && r !in db.runs && root !in db.tasks
    ensures Invariant(Created(db, r, root, targetCount, reassessment, now))
  {
    hide TallyOf;
    var after := Created(db, r, root, targetCount, reassessment, now);
    RootTally(db.tasks, r, root, now);
    OneRun(db, after, r);
  }

  lemma RootTally(tasks: map<TaskId, Task>, r: RunId, root: TaskId, now: Instant)
    requires root !in tasks && forall t :: t in tasks ==> tasks[t].runId != r
    ensures TallyOf(tasks[root := FreshTask(r, RootTask, now)], r)
            == Tally(true, true, false, false, false, false, false)
  {
    var after := tasks[root := FreshTask(r, RootTask, now)];
    Witness(after, root);
    assert forall t :: t in after && after[t].runId == r ==> t == root;
  }

  lemma LeaseWitness(tasks: map<TaskId, Task>, t: TaskId)
    requires t in tasks && tasks[t].status == Leased
    ensures TallyOf(tasks, tasks[t].runId).any && TallyOf(tasks, tasks[t].runId).leased
  {
    Witness(tasks, t);
  }

  // Only a run that reports no completion yet can be claimed from.
  lemma ClaimableRun(db: Tables, t: TaskId, now: Instant)
    requires Invariant(db) && Claimable(db, t, now)
    ensures var run := db.runs[db.tasks[t].runId];
            (run.state == NotStarted || run.state == Running) && run.completion == None
  {
    Witness(db.tasks, t);
  }

  lemma ClaimKeeps(db: Tables, t: TaskId, owner: Owner, now: Instant, lease: int)
    requires Invariant(db) && Claimable(db, t, now)
    ensures Invariant(Claimed(db, t, owner, now, lease))
  {
    hide TallyOf;
    var after := Claimed(db, t, owner, now, lease);
    LeaseWitness(after.tasks, t);
    ClaimableRun(db, t, now);
    OneRun(db, after, db.tasks[t].runId);
  }

  lemma RenewKeeps(db: Tables, task: RunTask, owner: Owner, now: Instant, lease: int)
    requires Invariant(db)
    ensures Invariant(Renewed(db, task, owner, now, lease))
  {
    if Holds(db, task.id, owner) {
      var after := Renewed(db, task, owner, now, lease);
      var r := db.tasks[task.id].runId;
      SameStatuses(db.tasks, after.tasks, r);
      OneRun(db, after, r);
    }
  }

  lemma SameStatuses(before: map<TaskId, Task>, after: map<TaskId, Task>, r: RunId)
    requires before.Keys == after.Keys
    requires forall t :: t in before ==>
               && before[t].runId == after[t].runId && before[t].status == after[t].status
               && before[t].business == after[t].business && before[t].failure == after[t].failure
    ensures TallyOf(before, r) == TallyOf(after, r)
  {
    forall s: TaskStatus
      ensures Has(before, r, s) == Has(after, r, s)
    {
      if Has(before, r, s) {
        var t :| t in before && before[t].runId == r && before[t].status == s;
        assert after[t].status == s;
      }
    }
    forall t | t in before && before[t].runId == r
      ensures t in after && after[t].runId == r
      ensures RunLevelInfrastructureFailure(after[t]) == RunLevelInfrastructureFailure(before[t])
    {
    }
  }

  // A run with a leased task is under way.
  lemma LeasedRun(db: Tables, t: TaskId, owner: Owner)
    requires Invariant(db) && Holds(db, t, owner)
    ensures var run := db.runs[db.tasks[t].runId];
            && (run.state == Running || run.state == Pausing || run.state == Cancelling)
            && TallyOf(db.tasks, db.tasks[t].runId).leased
  {
    Witness(db.tasks, t);
  }

  lemma CommitKeeps(db: Tables, task: RunTask, owner: Owner, cp: Checkpoint, ids: seq<TaskId>, now: Instant)
    requires Invariant(db) && SnapshotAgrees(db, task)
    requires |ids| == |cp.next| && FreshIds(db.tasks, ids)
    ensures Invariant(Committed(db, task, owner, cp, ids, now))
  {
    hide TallyOf, Settle;
    if Holds(db, task.id, owner) {
      var r := task.runId;
      var after := Committed(db, task, owner, cp, ids, now);
      LeasedRun(db, task.id, owner);
      CommitRows(db, task, cp, ids, now);
      Witness(after.tasks, task.id);
      FailureTally(after.tasks, r);
      if Settling(db.runs[r], TallyOf(after.tasks, r)) {
        SettleAgrees(db.runs[r], TallyOf(after.tasks, r), task.stage);
      }
      OneRun(db, after, r);
    }
  }

  // The rows after a commit: the committed one, the inserted ones, and all the others as they were.
  lemma CommitRows(db: Tables, task: RunTask, cp: Checkpoint, ids: seq<TaskId>, now: Instant)
    requires WellFormed(db) && SnapshotAgrees(db, task)
    requires |ids| == |cp.next| && FreshIds(db.tasks, ids)
    ensures var tasks := TasksAfterCommit(db, task, cp, ids, now);
            && (forall t :: t in db.tasks && t != task.id ==> t in tasks && tasks[t] == db.tasks[t])
            && task.id in tasks && tasks[task.id] == CommittedTask(db.tasks[task.id])
            && (forall t :: t in tasks && t !in db.tasks ==>
                  exists i :: 0 <= i < |ids| && t == ids[i] && tasks[t] == FreshTask(task.runId, cp.next[i], now))
  {
    var done := db.tasks[task.id := CommittedTask(db.tasks[task.id])];
    InsertedRows(done, task.runId, cp.next, ids, now);
    if db.runs[task.runId].control != CancelControl {
      forall t | t in TasksAfterCommit(db, task, cp, ids, now) && t !in db.tasks
        ensures exists i :: 0 <= i < |ids| && t == ids[i]
                            && TasksAfterCommit(db, task, cp, ids, now)[t] == FreshTask(task.runId, cp.next[i], now)
      {
        assert t in ids;
        var i :| 0 <= i < |ids| && t == ids[i];
      }
    }
  }

  lemma FailKeeps(db: Tables, task: RunTask, owner: Owner, failure: Classification, now: Instant)
    requires Invariant(db) && SnapshotAgrees(db, task)
    ensures Invariant(Failed(db, task, owner, failure, now))
  {
    hide TallyOf, Settle;
    if Holds(db, task.id, owner) {
      var r := task.runId;
      var after := Failed(db, task, owner, failure, now);
      LeasedRun(db, task.id, owner);
      Witness(after.tasks, task.id);
      FailureTally(after.tasks, r);
      SettleAgrees(db.runs[r], TallyOf(after.tasks, r), task.stage);
      OneRun(db, after, r);
    }
  }

  lemma ScoreKeeps(db: Tables, r: RunId, qualified: int)
    requires Invariant(db)
    ensures Invariant(Scored(db, r, qualified))
  {
    hide TallyOf;
    if r in db.runs {
      OneRun(db, Scored(db, r, qualified), r);
    }
  }

  lemma UnblockedTally(tasks: map<TaskId, Task>, r: RunId, now: Instant)
    ensures var k := TallyOf(tasks, r);
            TallyOf(UnblockedTasks(tasks, r, now), r) == k.(pending := k.pending || k.blocked, blocked := false)
  {
    var after := UnblockedTasks(tasks, r, now);
    forall s: TaskStatus
      ensures Has(after, r, s) == match s
                                  case Blocked => false
                                  case Pending => Has(tasks, r, Pending) || Has(tasks, r, Blocked)
                                  case _ => Has(tasks, r, s)
    {
      if Has(tasks, r, s) {
        var t :| t in tasks && tasks[t].runId == r && tasks[t].status == s;
        assert after[t] == UnblockedTask(tasks[t], r, now);
      }
      if s == Pending && Has(tasks, r, Blocked) {
        var t :| t in tasks && tasks[t].runId == r && tasks[t].status == Blocked;
        assert after[t] == UnblockedTask(tasks[t], r, now);
      }
    }
    forall t | t in tasks && tasks[t].runId == r
      ensures t in after && after[t].runId == r
      ensures RunLevelInfrastructureFailure(after[t]) == RunLevelInfrastructureFailure(tasks[t])
    {
    }
  }

  lemma RequestKeeps(db: Tables, r: RunId, request: Request, now: Instant)
    requires Invariant(db)
    ensures Invariant(Requested(db, r, request, now))
  {
    if r in db.runs && !Settled(db.runs[r].state) {
      match request
      case Pause => PauseKeeps(db, r, now);
      case Resume => ResumeKeeps(db, r, now);
      case Cancel => CancelKeeps(db, r, now);
    }
  }

  lemma PauseKeeps(db: Tables, r: RunId, now: Instant)
    requires Invariant(db) && r in db.runs && !Settled(db.runs[r].state)
    ensures Invariant(Requested(db, r, Pause, now))
  {
    hide TallyOf;
    OneRun(db, Requested(db, r, Pause, now), r);
  }

  lemma ResumeKeeps(db: Tables, r: RunId, now: Instant)
    requires Invariant(db) && r in db.runs && !Settled(db.runs[r].state)
    ensures Invariant(Requested(db, r, Resume, now))
  {
    hide TallyOf, RunAgrees;
    var after := Requested(db, r, Resume, now);
    UnblockedTally(db.tasks, r, now);
    FailureTally(db.tasks, r);
    ResumeAgrees(db.runs[r], TallyOf(db.tasks, r), TallyOf(after.tasks, r));
    OneRun(db, after, r);
  }

  lemma ResumeAgrees(run: Run, before: Tally, k: Tally)
    requires RunAgrees(run, before) && !Settled(run.state)
    requires k == before.(pending := before.pending || before.blocked, blocked := false)
    requires k.infrastructure ==> k.failed
    ensures RunAgrees(ResumedRun(run, k), k)
  {
  }

  lemma CancelKeeps(db: Tables, r: RunId, now: Instant)
    requires Invariant(db) && r in db.runs && !Settled(db.runs[r].state)
    ensures Invariant(Requested(db, r, Cancel, now))
  {
    hide TallyOf;
    WithdrawnTally(db.tasks, r);
    OneRun(db, Requested(db, r, Cancel, now), r);
  }

  // Recover, seen from one run: what it finds, it leaves in agreement.
  lemma RecoverRunAgrees(run: Run, before: Tally, k: Tally, exhausted: Option<Stage>)
    requires RunAgrees(run, before)
    requires k.any && (k.infrastructure ==> k.failed)
    requires k.leased ==> before.leased
    requires k.Active() ==> before.Active()
    requires exhausted.Some? ==> before.Active() && k.failed
    requires exhausted.None? ==>
               && before.Active() == k.Active()
               && (before.blocked, before.failed, before.cancelled, before.infrastructure)
                  == (k.blocked, k.failed, k.cancelled, k.infrastructure)
    ensures var settled := AfterExhaustion(run, k, exhausted);
            RunAgrees(RecoveredRun(run, k, exhausted), TallyAfterStranding(settled, k))
  {
  }

  // What recovering leases does to a run's tally.
  lemma RecoveredTasksTally(tasks: map<TaskId, Task>, r: RunId, now: Instant)
    ensures var before := TallyOf(tasks, r);
            var k := TallyOf(RecoveredTasks(tasks, now), r);
            && k.any == before.any
            && (k.leased ==> before.leased)
            && (k.Active() ==> before.Active())
            && (before.blocked, before.cancelled) == (k.blocked, k.cancelled)
            && (HasExhausted(tasks, r, now) ==> before.Active() && k.failed)
            && (!HasExhausted(tasks, r, now) ==>
                  && before.Active() == k.Active()
                  && (before.failed, before.infrastructure) == (k.failed, k.infrastructure))
  {
    hide TallyOf, RecoveredTasks, HasExhausted;
    StatusForward(tasks, r, now);
    StatusBackward(tasks, r, now);
  }

  lemma StatusForward(tasks: map<TaskId, Task>, r: RunId, now: Instant)
    ensures var before := TallyOf(tasks, r);
            var k := TallyOf(RecoveredTasks(tasks, now), r);
            && (before.any ==> k.any) && (before.blocked ==> k.blocked) && (before.failed ==> k.failed)
            && (before.cancelled ==> k.cancelled) && (before.infrastructure ==> k.infrastructure)
            && (before.Active() && !HasExhausted(tasks, r, now) ==> k.Active())
            && (HasExhausted(tasks, r, now) ==> before.Active() && k.failed)
  {
    var after := RecoveredTasks(tasks, now);
    forall t | t in tasks && tasks[t].runId == r
      ensures Has(after, r, RecoveredTask(tasks[t], now).status) && TallyOf(after, r).any
      ensures Has(tasks, r, tasks[t].status)
      ensures RunLevelInfrastructureFailure(tasks[t]) ==> TallyOf(after, r).infrastructure
    {
      assert after[t] == RecoveredTask(tasks[t], now);
    }
  }

  lemma StatusBackward(tasks: map<TaskId, Task>, r: RunId, now: Instant)
    ensures var before := TallyOf(tasks, r);
            var k := TallyOf(RecoveredTasks(tasks, now), r);
            && (k.any ==> before.any) && (k.blocked ==> before.blocked) && (k.leased ==> before.leased)
            && (k.cancelled ==> before.cancelled)
            && (k.Active() ==> before.Active())
            && (!HasExhausted(tasks, r, now) ==>
                  (k.failed ==> before.failed) && (k.infrastructure ==> before.infrastructure))
  {
    var after := RecoveredTasks(tasks, now);
    forall t | t in after && after[t].runId == r
      ensures tasks[t].runId == r && after[t] == RecoveredTask(tasks[t], now)
      ensures Has(tasks, r, tasks[t].status) && TallyOf(tasks, r).any
      ensures RunLevelInfrastructureFailure(tasks[t]) ==> TallyOf(tasks, r).infrastructure
    {
    }
  }

  lemma RecoverKeeps(db: Tables, now: Instant, stages: map<RunId, Stage>)
    requires Invariant(db) && ExhaustedStages(db.tasks, now, stages)
    ensures Invariant(Recovered(db, now, stages))
  {
    hide TallyOf, Recovered, TaskAgrees, RunAgrees;
    var after := Recovered(db, now, stages);
    RecoveredKeys(db, now, stages);
    forall t | t in after.tasks
      ensures after.tasks[t].runId in after.runs && TaskAgrees(after.tasks[t])
    {
      RecoveredRow(db, now, stages, t);
      RecoveredTaskAgrees(db.tasks[t], now);
    }
    forall r | r in after.runs
      ensures RunAgrees(after.runs[r], TallyOf(after.tasks, r))
    {
      RecoverKeepsRun(db, now, stages, r);
    }
  }

  lemma RecoveredTaskAgrees(t: Task, now: Instant)
    requires TaskAgrees(t)
    ensures TaskAgrees(RecoveredTask(t, now)) && TaskAgrees(CancelOpen(RecoveredTask(t, now)))
  {
  }

  lemma RecoverKeepsRun(db: Tables, now: Instant, stages: map<RunId, Stage>, r: RunId)
    requires Invariant(db) && ExhaustedStages(db.tasks, now, stages) && r in db.runs
    ensures r in Recovered(db, now, stages).runs
    ensures RunAgrees(Recovered(db, now, stages).runs[r], TallyOf(Recovered(db, now, stages).tasks, r))
  {
    hide TallyOf, RunAgrees, TaskAgrees, RecoveredRun, AfterExhaustion, RecoveredTask, CancelsStranded;
    var k := TallyOf(RecoveredTasks(db.tasks, now), r);
    RecoveredTally(db, now, stages, r);
    RecoveredTasksTally(db.tasks, r, now);
    FailureTally(RecoveredTasks(db.tasks, now), r);
    SomeTask(db, r);
    RecoverRunAgrees(db.runs[r], TallyOf(db.tasks, r), k, StageOf(stages, r));
  }

  lemma SomeTask(db: Tables, r: RunId)
    requires Invariant(db) && r in db.runs
    ensures TallyOf(db.tasks, r).any
  {
    hide TallyOf;
  }
}
