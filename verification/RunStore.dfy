// The two tables as mutable state, and the transactions as they run: one statement after another,
// row by row. Each is proved to have exactly the effect its function in Transactions describes.

module RunStore {
  import opened Wrappers
  import opened RunTables
  import opened Settlement
  import opened Transactions

  class RunTaskRepository {
    var runs: map<RunId, Run>
    var tasks: map<TaskId, Task>

    function Contents(): Tables
      reads this
    {
      Tables(runs, tasks)
    }

    predicate Valid()
      reads this
    {
      WellFormed(Contents())
    }

    constructor ()
      ensures Valid() && Contents() == Tables(map[], map[])
    {
      runs, tasks := map[], map[];
    }

    method CreateRun(r: RunId, root: TaskId, targetCount: int, reassessment: bool, now: Instant)
      requires Valid() && r !in runs && root !in tasks
      modifies this
      ensures Valid() && Contents() == Created(old(Contents()), r, root, targetCount, reassessment, now)
    {
      runs := runs[r := NewRun(targetCount, reassessment)];
      tasks := tasks[root := FreshTask(r, RootTask, now)];
    }

    // The claim query's `order by ... limit 1`, as a scan.
    method SelectNext(now: Instant) returns (candidate: Option<TaskId>)
      requires Valid()
      ensures candidate.None? ==> forall u :: !Claimable(Contents(), u, now)
      ensures candidate.Some? ==> NextClaim(Contents(), now, candidate.value)
    {
      candidate := None;
      var rest := tasks.Keys;
      while rest != {}
        invariant rest <= tasks.Keys
        invariant candidate.None? ==> forall u :: u in tasks && u !in rest ==> !Claimable(Contents(), u, now)
        invariant candidate.Some? ==>
                    && Claimable(Contents(), candidate.value, now)
                    && forall u :: u in tasks && u !in rest && Claimable(Contents(), u, now)
                                   ==> ClaimedBefore(Contents(), candidate.value, u)
        decreases rest
      {
        var t :| t in rest;
        rest := rest - {t};
        if Claimable(Contents(), t, now) && (candidate.None? || ClaimedBefore(Contents(), t, candidate.value)) {
          candidate := Some(t);
        }
      }
    }

    method ClaimNext(owner: Owner, now: Instant, lease: int) returns (claimed: Option<RunTask>)
      requires Valid()
      modifies this
      ensures Valid()
      ensures claimed.None? ==> Contents() == old(Contents()) && forall u :: !Claimable(Contents(), u, now)
      ensures claimed.Some? ==>
                var t := claimed.value.id;
                && NextClaim(old(Contents()), now, t)
                && Contents() == Claimed(old(Contents()), t, owner, now, lease)
                && t in tasks && claimed.value == SnapshotOf(t, tasks[t])
    {
      var candidate := SelectNext(now);
      if candidate.None? { return None; }
      var t := candidate.value;
      tasks := tasks[t := LeasedTo(tasks[t], owner, now + lease)];
      var r := tasks[t].runId;
      runs := runs[r := runs[r].(state := Running, stage := Some(tasks[t].stage))];
      claimed := Some(SnapshotOf(t, tasks[t]));
    }

    method RenewLease(task: RunTask, owner: Owner, now: Instant, lease: int) returns (ok: bool)
      requires Valid()
      modifies this
      ensures Valid() && Contents() == Renewed(old(Contents()), task, owner, now, lease)
      ensures ok == old(Holds(Contents(), task.id, owner))
    {
      ok := Holds(Contents(), task.id, owner);
      if ok {
        tasks := tasks[task.id := tasks[task.id].(leaseExpiresAt := Some(now + lease))];
      }
    }

    method ReconcileRun(r: RunId, stage: Stage)
      requires Valid() && r in runs
      modifies this`runs
      ensures Valid()
      ensures runs == old(runs)[r := Settle(old(runs[r]), TallyOf(tasks, r), stage)]
    {
      var k := TallyOf(tasks, r);
      var control := runs[r].control;
      if control == CancelControl && k.any && !k.leased {
        runs := runs[r := runs[r].(state := CancelledRun, completion := Some(CancelledWithPartialResults))];
        return;
      }
      if k.Active() {
        if control == PauseControl && !k.leased {
          runs := runs[r := runs[r].(state := Paused, completion := Some(PausedOnRequest))];
        }
        return;
      }
      runs := runs[r := runs[r].(targetRemaining := Remaining(runs[r]))];
      var (state, completion) := Outcome(runs[r], k);
      runs := runs[r := runs[r].(state := state, completion := Some(completion), stage := Some(stage),
                                 control := NoControl)];
    }

    method Complete(task: RunTask, owner: Owner, cp: Checkpoint, ids: seq<TaskId>, now: Instant) returns (ok: bool)
      requires Valid() && SnapshotAgrees(Contents(), task)
      requires |ids| == |cp.next| && FreshIds(tasks, ids)
      modifies this
      ensures Valid() && Contents() == Committed(old(Contents()), task, owner, cp, ids, now)
      ensures ok == old(Holds(Contents(), task.id, owner))
    {
      ok := Holds(Contents(), task.id, owner);
      if !ok { return; }
      tasks := tasks[task.id := CommittedTask(tasks[task.id])];
      ghost var done := tasks;
      var control := runs[task.runId].control;
      if control != CancelControl {
        for i := 0 to |cp.next|
          invariant tasks == Inserted(done, task.runId, cp.next[..i], ids[..i], now)
          invariant forall t :: t in tasks ==> tasks[t].runId in runs
          invariant runs == old(runs)
        {
          tasks := tasks[ids[i] := FreshTask(task.runId, cp.next[i], now)];
          assert cp.next[..i + 1][..i] == cp.next[..i] && ids[..i + 1][..i] == ids[..i];
        }
        assert cp.next[..|cp.next|] == cp.next && ids[..|cp.next|] == ids;
      }
      CommittedRowIsNotActive(old(Contents()), task, cp, ids, now);
      var stillActive := exists t :: t in tasks && tasks[t].runId == task.runId && t != task.id
                                     && (tasks[t].status == Pending || tasks[t].status == Leased);
      assert stillActive == TallyOf(tasks, task.runId).Active();
      if control != CancelControl && cp.searchExhausted && |cp.next| == 0 && !stillActive {
        runs := runs[task.runId := runs[task.runId].(
          state := Finished, completion := Some(SearchExhausted), stage := Some(task.stage), control := NoControl)];
        return;
      }
      ReconcileRun(task.runId, task.stage);
    }

    method Fail(task: RunTask, owner: Owner, failure: Classification, now: Instant) returns (ok: bool)
      requires Valid() && SnapshotAgrees(Contents(), task)
      modifies this
      ensures Valid() && Contents() == Failed(old(Contents()), task, owner, failure, now)
      ensures ok == old(Holds(Contents(), task.id, owner))
    {
      ok := Holds(Contents(), task.id, owner);
      if !ok { return; }
      var retry := failure == Transient && task.attempts < task.maxAttempts;
      var status := if retry then Pending
                    else if failure == RuntimeBlocked then Blocked
                    else if failure == Withdrawn then Cancelled
                    else FailedPermanent;
      tasks := tasks[task.id := tasks[task.id].(
        status := status, failure := Some(failure), owner := None, leaseExpiresAt := None,
        availableAt := if retry then now + RETRY_DELAY else now)];
      ReconcileRun(task.runId, task.stage);
    }

    // Returns how many tasks it found abandoned, and the map it built from each run with an
    // exhausted task to one such task's stage.
    method Recover(now: Instant) returns (recovered: nat, exhaustedRuns: map<RunId, Stage>)
      requires Valid()
      modifies this
      ensures Valid()
      ensures recovered == |AbandonedTasks(old(tasks), now)|
      ensures ExhaustedStages(old(tasks), now, exhaustedRuns)
      ensures Contents() == Recovered(old(Contents()), now, exhaustedRuns)
    {
      hide TallyOf, Settle;
      ghost var before := Contents();
      CorrectTargets();
      recovered, exhaustedRuns := RecoverAbandoned(now);
      SettleExhausted(exhaustedRuns);
      ghost var settled := runs;
      SettleStranded();
      ReopenUnfinished();
      RecoverByPhases(before, now, exhaustedRuns, settled, Contents());
    }

    method CorrectTargets()
      requires Valid()
      modifies this`runs
      ensures Valid()
      ensures runs == map r | r in old(runs) :: Corrected(old(runs)[r])
    {
      var rest := runs.Keys;
      while rest != {}
        invariant rest <= runs.Keys == old(runs.Keys)
        invariant forall r :: r in runs ==> runs[r] == if r in rest then old(runs)[r] else Corrected(old(runs)[r])
        decreases rest
      {
        var r :| r in rest;
        rest := rest - {r};
        if runs[r].state == Finished && runs[r].completion == Some(TargetReached) && runs[r].targetRemaining > 0 {
          runs := runs[r := runs[r].(completion := Some(SearchExhausted))];
        }
      }
    }

    method RecoverAbandoned(now: Instant) returns (recovered: nat, exhaustedRuns: map<RunId, Stage>)
      requires Valid()
      modifies this`tasks
      ensures Valid()
      ensures recovered == |AbandonedTasks(old(tasks), now)|
      ensures tasks == RecoveredTasks(old(tasks), now)
      ensures ExhaustedStages(old(tasks), now, exhaustedRuns)
    {
      hide Abandoned, Exhausts, RecoveredTask, Noted, ExhaustedStages;
      exhaustedRuns := map[];
      var abandoned := AbandonedTasks(tasks, now);
      recovered := |abandoned|;
      OthersAreLeft(tasks, now);
      NothingNoted(tasks, now);
      while abandoned != {}
        invariant tasks.Keys == old(tasks.Keys) && Valid()
        invariant forall t :: t in abandoned ==> t in tasks && Abandoned(old(tasks)[t], now)
        invariant forall t :: t in tasks ==>
                    tasks[t] == if t in abandoned then old(tasks)[t] else RecoveredTask(old(tasks)[t], now)
        invariant Noted(old(tasks), now, abandoned, exhaustedRuns)
        decreases abandoned
      {
        ghost var before := abandoned;
        var t :| t in abandoned;
        abandoned := abandoned - {t};
        var task := tasks[t];
        var exhausted := RecoverOne(t, now);
        assert abandoned + {t} == before;
        NoteOne(old(tasks), now, abandoned, t, exhaustedRuns);
        if exhausted { exhaustedRuns := exhaustedRuns[task.runId := task.stage]; }
      }
      AllNoted(old(tasks), now, exhaustedRuns);
    }

    method RecoverOne(t: TaskId, now: Instant) returns (exhausted: bool)
      requires Valid() && t in tasks && Abandoned(tasks[t], now)
      modifies this`tasks
      ensures Valid() && tasks == old(tasks)[t := RecoveredTask(old(tasks)[t], now)]
      ensures exhausted <==> Exhausts(old(tasks)[t], now)
    {
      var task := tasks[t];
      exhausted := task.attempts >= task.maxAttempts;
      tasks := tasks[t := if exhausted
                          then task.(status := FailedPermanent, failure := Some(Infrastructure),
                                     owner := None, leaseExpiresAt := None)
                          else task.(status := Pending, owner := None, leaseExpiresAt := None, availableAt := now)];
    }

    method SettleExhausted(exhaustedRuns: map<RunId, Stage>)
      requires Valid() && exhaustedRuns.Keys <= runs.Keys
      modifies this`runs
      ensures Valid()
      ensures runs == map r | r in old(runs) ::
                if r in exhaustedRuns then Settle(old(runs)[r], TallyOf(tasks, r), exhaustedRuns[r]) else old(runs)[r]
    {
      var rest := exhaustedRuns.Keys;
      while rest != {}
        invariant rest <= exhaustedRuns.Keys
        invariant Valid() && runs.Keys == old(runs.Keys)
        invariant forall r :: r in runs ==>
                    runs[r] == if r in exhaustedRuns && r !in rest
                               then Settle(old(runs)[r], TallyOf(tasks, r), exhaustedRuns[r]) else old(runs)[r]
        decreases rest
      {
        var r :| r in rest;
        rest := rest - {r};
        ReconcileRun(r, exhaustedRuns[r]);
      }
    }

    method SettleStranded()
      requires Valid()
      modifies this
      ensures Valid() && runs.Keys == old(runs.Keys)
      ensures forall r :: r in runs ==> runs[r] == AfterStranding(old(runs)[r], TallyOf(old(tasks), r))
      ensures tasks == StrandedTasks(old(tasks), old(runs))
    {
      hide TallyOf, Settle, Swept, Stranded;
      var stranded := set r | r in runs && Stranded(runs[r], TallyOf(tasks, r));
      ghost var done: set<RunId> := {};
      SweptNone(tasks, runs);
      while stranded != {}
        invariant Valid() && runs.Keys == old(runs.Keys)
        invariant stranded !! done && stranded + done <= runs.Keys
        invariant forall r :: r in runs ==> (Stranded(old(runs)[r], TallyOf(old(tasks), r)) <==> r in stranded || r in done)
        invariant forall r :: r in runs ==>
                    runs[r] == if r in done then AfterStranding(old(runs)[r], TallyOf(old(tasks), r)) else old(runs)[r]
        invariant Swept(old(tasks), old(runs), done, tasks)
        decreases stranded
      {
        var r :| r in stranded;
        SweepOne(old(tasks), old(runs), done, tasks, r);
        SettleOneStranded(r);
        stranded := stranded - {r};
        done := done + {r};
      }
      SweptAll(old(tasks), old(runs), done, tasks);
    }

    method SettleOneStranded(r: RunId)
      requires Valid() && r in runs && Stranded(runs[r], TallyOf(tasks, r))
      modifies this
      ensures Valid()
      ensures runs == old(runs)[r := AfterStranding(old(runs)[r], TallyOf(old(tasks), r))]
      ensures tasks == if old(runs)[r].state == Cancelling then WithdrawnTasks(old(tasks), r) else old(tasks)
    {
      hide TallyOf, Settle;
      if runs[r].state == Cancelling {
        WithdrawnTally(tasks, r);
        tasks := WithdrawnTasks(tasks, r);
      }
      ReconcileRun(r, runs[r].stage.GetOr(RunPlanning));
    }

    method ReopenUnfinished()
      requires Valid()
      modifies this`runs
      ensures Valid()
      ensures runs == map r | r in old(runs) :: Reopened(old(runs)[r], TallyOf(tasks, r))
    {
      hide TallyOf;
      var unfinished := set r | r in runs && runs[r].state == Finished && TallyOf(tasks, r).Active();
      ghost var all := unfinished;
      while unfinished != {}
        invariant unfinished <= all && runs.Keys == old(runs.Keys)
        invariant forall r :: r in runs ==>
                    runs[r] == if r in all && r !in unfinished
                               then Reopened(old(runs)[r], TallyOf(tasks, r)) else old(runs)[r]
        decreases unfinished
      {
        var r :| r in unfinished;
        unfinished := unfinished - {r};
        runs := runs[r := runs[r].(state := Running, completion := None)];
      }
    }

    method RequestControl(r: RunId, request: Request, now: Instant) returns (ok: bool)
      requires Valid()
      modifies this
      ensures Valid() && Contents() == Requested(old(Contents()), r, request, now)
      ensures ok == old(r in runs && !Settled(runs[r].state))
    {
      ok := r in runs && !Settled(runs[r].state);
      if !ok { return; }
      match request {
        case Pause =>
          var leased := Has(tasks, r, Leased);
          runs := runs[r := runs[r].(control := PauseControl, state := if leased then Pausing else Paused,
                                     completion := if leased then None else Some(PausedOnRequest))];
        case Resume =>
          tasks := UnblockedTasks(tasks, r, now);
          var leased := Has(tasks, r, Leased);
          var pending := Has(tasks, r, Pending);
          if !leased && !pending {
            var stage := runs[r].stage.GetOr(RunPlanning);
            runs := runs[r := runs[r].(control := NoControl)];
            ReconcileRun(r, stage);
            return;
          }
          runs := runs[r := runs[r].(control := NoControl, state := if leased then Running else NotStarted,
                                     completion := None)];
        case Cancel =>
          tasks := WithdrawnTasks(tasks, r);
          var leased := Has(tasks, r, Leased);
          runs := runs[r := runs[r].(
            control := CancelControl, state := if leased then Cancelling else CancelledRun,
            completion := if leased then None else Some(CancelledWithPartialResults))];
      }
    }

    method RecordQualified(r: RunId, qualified: int)
      requires Valid()
      modifies this`runs
      ensures Valid() && Contents() == Scored(old(Contents()), r, qualified)
    {
      if r !in runs { return; }
      runs := runs[r := runs[r].(qualified := qualified)];
      runs := runs[r := runs[r].(targetRemaining := Remaining(runs[r]))];
    }
  }

  // ---- the proofs the methods lean on ----

  // The stages noted so far, with these tasks still to be looked at.
  ghost predicate Noted(tasks: map<TaskId, Task>, now: Instant, rest: set<TaskId>, stages: map<RunId, Stage>) {
    && (forall t :: t in tasks && t !in rest && Exhausts(tasks[t], now) ==> tasks[t].runId in stages)
    && (forall r :: r in stages ==>
          exists t :: t in tasks && tasks[t].runId == r && Exhausts(tasks[t], now) && tasks[t].stage == stages[r])
  }

  lemma NothingNoted(tasks: map<TaskId, Task>, now: Instant)
    ensures Noted(tasks, now, AbandonedTasks(tasks, now), map[])
  {
  }

  lemma NoteOne(tasks: map<TaskId, Task>, now: Instant, rest: set<TaskId>, t: TaskId, stages: map<RunId, Stage>)
    requires t in tasks && Noted(tasks, now, rest + {t}, stages)
    ensures Noted(tasks, now, rest, if Exhausts(tasks[t], now) then stages[tasks[t].runId := tasks[t].stage] else stages)
  {
    hide Exhausts;
  }

  lemma AllNoted(tasks: map<TaskId, Task>, now: Instant, stages: map<RunId, Stage>)
    requires Noted(tasks, now, {}, stages)
    ensures ExhaustedStages(tasks, now, stages)
  {
    hide Exhausts;
  }

  lemma OthersAreLeft(tasks: map<TaskId, Task>, now: Instant)
    ensures forall t :: t in tasks && !Abandoned(tasks[t], now) ==>
              RecoveredTask(tasks[t], now) == tasks[t] && !Exhausts(tasks[t], now)
  {
  }

  // The runs in `done` have had their stranded tasks withdrawn where they were being cancelled.
  ghost predicate Swept(before: map<TaskId, Task>, runs: map<RunId, Run>, done: set<RunId>, after: map<TaskId, Task>)
    requires WellFormed(Tables(runs, before))
  {
    && after.Keys == before.Keys
    && forall t :: t in before ==>
         after[t] == if before[t].runId in done && runs[before[t].runId].state == Cancelling
                     then CancelOpen(before[t]) else before[t]
  }

  lemma SweptNone(tasks: map<TaskId, Task>, runs: map<RunId, Run>)
    requires WellFormed(Tables(runs, tasks))
    ensures Swept(tasks, runs, {}, tasks)
  {
  }

  lemma SweepOne(before: map<TaskId, Task>, runs: map<RunId, Run>, done: set<RunId>, tasks: map<TaskId, Task>, r: RunId)
    requires WellFormed(Tables(runs, before)) && Swept(before, runs, done, tasks) && r in runs && r !in done
    ensures TallyOf(tasks, r) == TallyOf(before, r)
    ensures Swept(before, runs, done + {r}, if runs[r].state == Cancelling then WithdrawnTasks(tasks, r) else tasks)
  {
    hide TallyOf;
    TallyFrame(before, tasks, r);
  }

  lemma SweptAll(before: map<TaskId, Task>, runs: map<RunId, Run>, done: set<RunId>, after: map<TaskId, Task>)
    requires WellFormed(Tables(runs, before)) && Swept(before, runs, done, after)
    requires forall r :: r in runs ==> (Stranded(runs[r], TallyOf(before, r)) <==> r in done)
    ensures after == StrandedTasks(before, runs)
  {
    hide TallyOf, Stranded;
  }

  // The five phases, one after another, add up to the run-by-run description of recover.
  lemma RecoverByPhases(db: Tables, now: Instant, stages: map<RunId, Stage>, settled: map<RunId, Run>, after: Tables)
    requires WellFormed(db) && after.runs.Keys == settled.Keys == db.runs.Keys
    requires var tasks := RecoveredTasks(db.tasks, now);
             && (forall r :: r in settled ==> settled[r] == AfterExhaustion(db.runs[r], TallyOf(tasks, r), StageOf(stages, r)))
             && WellFormed(Tables(settled, tasks))
             && after.tasks == StrandedTasks(tasks, settled)
             && forall r :: r in settled ==>
                  after.runs[r] == Reopened(AfterStranding(settled[r], TallyOf(tasks, r)), TallyOf(after.tasks, r))
    ensures after == Recovered(db, now, stages)
  {
    hide TallyOf, AfterExhaustion, AfterStranding, Reopened, Settle, RecoveredTask, Recovered, StrandedTasks;
    RecoveredKeys(db, now, stages);
    StrandedKeys(RecoveredTasks(db.tasks, now), settled);
    assert RecoveredTasks(db.tasks, now).Keys == db.tasks.Keys;
    forall r | r in db.runs
      ensures after.runs[r] == Recovered(db, now, stages).runs[r]
    {
      RecoveredRunByPhases(db, now, stages, settled, after, r);
    }
    forall t | t in db.tasks
      ensures t in after.tasks && after.tasks[t] == Recovered(db, now, stages).tasks[t]
    {
      RecoveredTaskByPhases(db, now, stages, settled, t);
    }
    assert after.runs == Recovered(db, now, stages).runs;
    assert after.tasks == Recovered(db, now, stages).tasks;
  }

  lemma StrandedKeys(tasks: map<TaskId, Task>, runs: map<RunId, Run>)
    requires WellFormed(Tables(runs, tasks))
    ensures StrandedTasks(tasks, runs).Keys == tasks.Keys
  {
    hide TallyOf;
  }

  lemma RecoveredRunByPhases(db: Tables, now: Instant, stages: map<RunId, Stage>, settled: map<RunId, Run>,
                             after: Tables, r: RunId)
    requires WellFormed(db) && r in db.runs && r in after.runs && r in settled
    requires var tasks := RecoveredTasks(db.tasks, now);
             && WellFormed(Tables(settled, tasks))
             && settled[r] == AfterExhaustion(db.runs[r], TallyOf(tasks, r), StageOf(stages, r))
             && after.tasks == StrandedTasks(tasks, settled)
             && after.runs[r] == Reopened(AfterStranding(settled[r], TallyOf(tasks, r)), TallyOf(after.tasks, r))
    ensures after.runs[r] == Recovered(db, now, stages).runs[r]
  {
    hide TallyOf, AfterExhaustion, Settle, RecoveredTask, StrandedTasks, RecoveredTasks;
    StrandedTally(RecoveredTasks(db.tasks, now), settled, after.tasks, r);
  }

  lemma RecoveredTaskByPhases(db: Tables, now: Instant, stages: map<RunId, Stage>, settled: map<RunId, Run>, t: TaskId)
    requires WellFormed(db) && t in db.tasks && settled.Keys == db.runs.Keys
    requires var tasks := RecoveredTasks(db.tasks, now);
             && WellFormed(Tables(settled, tasks))
             && forall r :: r in settled ==> settled[r] == AfterExhaustion(db.runs[r], TallyOf(tasks, r), StageOf(stages, r))
    ensures StrandedTasks(RecoveredTasks(db.tasks, now), settled)[t] == Recovered(db, now, stages).tasks[t]
  {
    hide TallyOf, AfterExhaustion, Stranded, RecoveredTask, CancelOpen;
    SameRun(db.tasks[t], now);
  }

  // Excluding the committed row from the "still active" count changes nothing: it is Completed.
  lemma CommittedRowIsNotActive(db: Tables, task: RunTask, cp: Checkpoint, ids: seq<TaskId>, now: Instant)
    requires WellFormed(db) && SnapshotAgrees(db, task) && |ids| == |cp.next| && FreshIds(db.tasks, ids)
    ensures var tasks := TasksAfterCommit(db, task, cp, ids, now);
            task.id in tasks && tasks[task.id].status == Completed
  {
    var done := db.tasks[task.id := CommittedTask(db.tasks[task.id])];
    InsertedRows(done, task.runId, cp.next, ids, now);
  }

  function StrandedTasks(tasks: map<TaskId, Task>, runs: map<RunId, Run>): map<TaskId, Task>
    requires WellFormed(Tables(runs, tasks))
  {
    map t | t in tasks ::
      if Stranded(runs[tasks[t].runId], TallyOf(tasks, tasks[t].runId)) && runs[tasks[t].runId].state == Cancelling
      then CancelOpen(tasks[t]) else tasks[t]
  }

  lemma StrandedTally(tasks: map<TaskId, Task>, runs: map<RunId, Run>, after: map<TaskId, Task>, r: RunId)
    requires WellFormed(Tables(runs, tasks)) && r in runs
    requires after == StrandedTasks(tasks, runs)
    ensures TallyOf(after, r) == TallyAfterStranding(runs[r], TallyOf(tasks, r))
  {
    hide TallyOf;
    if Stranded(runs[r], TallyOf(tasks, r)) && runs[r].state == Cancelling {
      WithdrawnTally(tasks, r);
      TallyFrame(WithdrawnTasks(tasks, r), after, r);
    } else {
      TallyFrame(tasks, after, r);
    }
  }
}
