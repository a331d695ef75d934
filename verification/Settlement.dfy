// What a run's task rows say about it, and the outcome they settle it to.

module Settlement {
  import opened Wrappers
  import opened RunTables

  predicate Has(tasks: map<TaskId, Task>, r: RunId, status: TaskStatus) {
    exists t :: t in tasks && tasks[t].runId == r && tasks[t].status == status
  }

  predicate RunLevelInfrastructureFailure(t: Task) {
    t.status == FailedPermanent && t.business == None && t.failure == Some(Infrastructure)
  }

  // The counts of the settlement query, each reduced to "is it above zero". SQL sums are null for
  // a run without tasks, so "leased is zero" also needs some task to exist.
  datatype Tally = Tally(
    any: bool, pending: bool, leased: bool, blocked: bool, failed: bool, cancelled: bool,
    infrastructure: bool)
  {
    predicate Active() { pending || leased }
  }

  function TallyOf(tasks: map<TaskId, Task>, r: RunId): Tally {
    Tally(
      exists t :: t in tasks && tasks[t].runId == r,
      Has(tasks, r, Pending),
      Has(tasks, r, Leased),
      Has(tasks, r, Blocked),
      Has(tasks, r, FailedPermanent),
      Has(tasks, r, Cancelled),
      exists t :: t in tasks && tasks[t].runId == r && RunLevelInfrastructureFailure(tasks[t]))
  }

  function Remaining(run: Run): int {
    if run.targetCount - run.qualified > 0 then run.targetCount - run.qualified else 0
  }

  function Outcome(run: Run, k: Tally): (RunState, Completion) {
    if k.infrastructure then (Finished, InfrastructureFailed)
    else if k.blocked then (Paused, RuntimeUnavailable)
    else if k.cancelled then (CancelledRun, CancelledWithPartialResults)
    else if k.failed then (Finished, CompletedWithWarnings)
    else if run.reassessment then (Finished, ReassessmentComplete)
    else if Remaining(run) == 0 then (Finished, TargetReached)
    else (Finished, SearchExhausted)
  }

  // The shared settlement step, run after every transaction that can release a run's last work.
  function Settle(run: Run, k: Tally, stage: Stage): Run {
    if run.control == CancelControl && k.any && !k.leased then
      run.(state := CancelledRun, completion := Some(CancelledWithPartialResults))
    else if k.Active() then
      if run.control == PauseControl && !k.leased then
        run.(state := Paused, completion := Some(PausedOnRequest))
      else
        run
    else
      var outcome := Outcome(run, k);
      run.(state := outcome.0, completion := Some(outcome.1), stage := Some(stage),
           control := NoControl, targetRemaining := Remaining(run))
  }

  // Two task tables that agree on a run's rows tell the same about it.
  lemma TallyFrame(before: map<TaskId, Task>, after: map<TaskId, Task>, r: RunId)
    requires forall t :: t in before && before[t].runId == r ==> t in after && after[t] == before[t]
    requires forall t :: t in after && after[t].runId == r ==> t in before && after[t] == before[t]
    ensures TallyOf(before, r) == TallyOf(after, r)
  {
    assert forall s :: Has(before, r, s) == Has(after, r, s);
  }

  lemma AllCompleted(tasks: map<TaskId, Task>, r: RunId)
    requires var k := TallyOf(tasks, r); !k.Active() && !k.blocked && !k.failed && !k.cancelled
    ensures forall t :: t in tasks && tasks[t].runId == r ==> tasks[t].status == Completed
  {
    forall t | t in tasks && tasks[t].runId == r
      ensures tasks[t].status == Completed
    {
      assert Has(tasks, r, tasks[t].status);
    }
  }
}
