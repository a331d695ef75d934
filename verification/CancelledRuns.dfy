// When a cancelled run still holds a Pending task: step by step, at the release of its last lease,
// and from then on.

module CancelledRuns {
  import opened Wrappers
  import opened RunTables
  import opened Settlement
  import opened Transactions
  import opened RunInvariant
  import opened Histories
  import opened QueueTheorems

  // A task waits that may still be attempted.
  predicate HasRetriable(tasks: map<TaskId, Task>, r: RunId) {
    exists t :: t in tasks && tasks[t].runId == r && tasks[t].status == Pending && tasks[t].attempts < tasks[t].maxAttempts
  }

  // A recover at this time leaves a task of the run waiting, or returns one to wait.
  predicate Returns(tasks: map<TaskId, Task>, r: RunId, now: Instant) {
    exists t :: t in tasks && tasks[t].runId == r && Returned(tasks[t], now)
  }

  predicate Returned(t: Task, now: Instant) {
    && t.attempts < t.maxAttempts
    && (t.status == Pending || (t.status == Leased && t.leaseExpiresAt.Some? && t.leaseExpiresAt.value <= now))
  }

  // A lease of the run that a recover at this time leaves alone.
  predicate HasLiveLease(tasks: map<TaskId, Task>, r: RunId, now: Instant) {
    exists t :: t in tasks && tasks[t].runId == r && tasks[t].status == Leased && !Abandoned(tasks[t], now)
  }

  // The failure is the owner's, in this run, and is retried.
  predicate RetriesIn(db: Tables, a: Action, r: RunId) {
    a.Fail? && Holds(db, a.task.id, a.owner) && db.tasks[a.task.id].runId == r && Retries(a.task, a.failure)
  }

  // Recover withdraws what waits only where it finds the last leases lapsed and none exhausted.
  predicate Sweeps(db: Tables, r: RunId, now: Instant) {
    Has(db.tasks, r, Leased) && !HasLiveLease(db.tasks, r, now) && !HasExhausted(db.tasks, r, now)
  }

  predicate PendingAfter(db: Tables, a: Action, r: RunId) {
    match a
    case Fail(_, _, _, _) => Has(db.tasks, r, Pending) || RetriesIn(db, a, r)
    case Recover(now, _) => Returns(db.tasks, r, now) && !Sweeps(db, r, now)
    case _ => Has(db.tasks, r, Pending)
  }

  predicate RetriableAfter(db: Tables, a: Action, r: RunId) {
    match a
    case Fail(task, _, _, _) =>
      || HasRetriable(db.tasks, r)
      || (RetriesIn(db, a, r) && db.tasks[task.id].attempts < db.tasks[task.id].maxAttempts)
    case Recover(now, _) => Returns(db.tasks, r, now) && !Sweeps(db, r, now)
    case _ => HasRetriable(db.tasks, r)
  }

  // ---- one step ----

  // A run under Cancel holds a Pending task after a step exactly when this says so of the state
  // before it, whatever the step.
  lemma PendingStep(db: Tables, a: Action, r: RunId)
    requires Invariant(db) && Fits(db, a) && UnderCancel(db, r) && !Controls(a, r)
    ensures Has(Apply(db, a).tasks, r, Pending) <==> PendingAfter(db, a, r)
    ensures HasRetriable(Apply(db, a).tasks, r) <==> RetriableAfter(db, a, r)
  {
    if a.Recover? {
      PendingUnderRecover(db, a.now, a.stages, r);
    } else if a.Fail? && Holds(db, a.task.id, a.owner) && db.tasks[a.task.id].runId == r {
      PendingUnderFail(db, a, r);
    } else {
      PendingElsewhere(db, a, r);
    }
  }

  lemma PendingUnderFail(db: Tables, a: Action, r: RunId)
    requires Fits(db, a) && a.Fail? && Holds(db, a.task.id, a.owner) && db.tasks[a.task.id].runId == r
    ensures Has(Apply(db, a).tasks, r, Pending) <==> PendingAfter(db, a, r)
    ensures HasRetriable(Apply(db, a).tasks, r) <==> RetriableAfter(db, a, r)
  {
    hide TallyOf, Settle;
    var after := Apply(db, a).tasks;
    assert after == db.tasks[a.task.id := FailedTask(db.tasks[a.task.id], a.task, a.failure, a.now)];
    assert forall t :: t in db.tasks && db.tasks[t].status == Pending ==> t in after && after[t] == db.tasks[t];
    assert after[a.task.id].status == Pending <==> Retries(a.task, a.failure);
  }

  // Any other step leaves the run's waiting tasks as they are.
  lemma PendingElsewhere(db: Tables, a: Action, r: RunId)
    requires Invariant(db) && Fits(db, a) && UnderCancel(db, r) && !Controls(a, r) && !a.Recover?
    requires a.Fail? ==> !(Holds(db, a.task.id, a.owner) && db.tasks[a.task.id].runId == r)
    ensures Has(Apply(db, a).tasks, r, Pending) <==> Has(db.tasks, r, Pending)
    ensures HasRetriable(Apply(db, a).tasks, r) <==> HasRetriable(db.tasks, r)
  {
    hide TallyOf, Settle, Invariant, Apply, Fits, Has, HasRetriable;
    forall t | t in Apply(db, a).tasks && Apply(db, a).tasks[t].runId == r && Apply(db, a).tasks[t].status == Pending
      ensures t in db.tasks && Apply(db, a).tasks[t] == db.tasks[t]
    {
      RowOfRun(db, a, r, t);
    }
    forall t | t in db.tasks && db.tasks[t].runId == r && db.tasks[t].status == Pending
      ensures t in Apply(db, a).tasks && Apply(db, a).tasks[t] == db.tasks[t]
    {
      StepRow(db, a, t);
      RowOfRun(db, a, r, t);
    }
    SamePending(db.tasks, Apply(db, a).tasks, r);
  }

  lemma SamePending(before: map<TaskId, Task>, after: map<TaskId, Task>, r: RunId)
    requires forall t :: t in after && after[t].runId == r && after[t].status == Pending ==>
               t in before && after[t] == before[t]
    requires forall t :: t in before && before[t].runId == r && before[t].status == Pending ==>
               t in after && after[t] == before[t]
    ensures Has(before, r, Pending) <==> Has(after, r, Pending)
    ensures HasRetriable(before, r) <==> HasRetriable(after, r)
  {
  }

  lemma RowOfRun(db: Tables, a: Action, r: RunId, t: TaskId)
    requires Invariant(db) && Fits(db, a) && UnderCancel(db, r) && !Controls(a, r) && !a.Recover?
    requires a.Fail? ==> !(Holds(db, a.task.id, a.owner) && db.tasks[a.task.id].runId == r)
    requires t in Apply(db, a).tasks && Apply(db, a).tasks[t].runId == r
    requires Apply(db, a).tasks[t].status == Pending || (t in db.tasks && db.tasks[t].status == Pending)
    ensures t in db.tasks && Apply(db, a).tasks[t] == db.tasks[t]
  {
    hide TallyOf, Settle, Invariant, Apply;
    CancelStep(db, a, r);
    StepRow(db, a, t);
  }

  lemma PendingUnderRecover(db: Tables, now: Instant, stages: map<RunId, Stage>, r: RunId)
    requires Invariant(db) && ExhaustedStages(db.tasks, now, stages) && UnderCancel(db, r)
    ensures var after := Recovered(db, now, stages).tasks;
            && (Has(after, r, Pending) <==> Returns(db.tasks, r, now) && !Sweeps(db, r, now))
            && (HasRetriable(after, r) <==> Returns(db.tasks, r, now) && !Sweeps(db, r, now))
  {
    hide TallyOf, Recovered, RecoveredTask, RunAgrees, TaskAgrees, CancelsStranded;
    var tasks := RecoveredTasks(db.tasks, now);
    RecoveredPending(db.tasks, r, now);
    SweptByRecover(db, now, stages, r);
    RecoveredKeys(db, now, stages);
    var after := Recovered(db, now, stages).tasks;
    forall t | t in db.tasks
      ensures t in after && after[t].runId == db.tasks[t].runId == tasks[t].runId
      ensures after[t] == if CancelsStranded(db, now, stages, db.tasks[t].runId) then CancelOpen(tasks[t]) else tasks[t]
    {
      RecoveredRow(db, now, stages, t);
      SameRun(db.tasks[t], now);
    }
    if Sweeps(db, r, now) {
      assert forall t :: t in after && after[t].runId == r ==> after[t].status != Pending;
    } else {
      assert forall t :: t in after && after[t].runId == r ==> after[t] == tasks[t];
    }
  }

  // What recovering leases alone leaves waiting: every such task may be attempted again.
  lemma RecoveredPending(tasks: map<TaskId, Task>, r: RunId, now: Instant)
    ensures Has(RecoveredTasks(tasks, now), r, Pending) <==> Returns(tasks, r, now)
    ensures HasRetriable(RecoveredTasks(tasks, now), r) <==> Returns(tasks, r, now)
    ensures Has(RecoveredTasks(tasks, now), r, Leased) <==> HasLiveLease(tasks, r, now)
  {
    hide Returned, Abandoned, RecoveredTask;
    var after := RecoveredTasks(tasks, now);
    forall t | t in tasks
      ensures after[t].runId == tasks[t].runId
      ensures after[t].status == Pending <==> Returned(tasks[t], now)
      ensures after[t].status == Pending ==> after[t].attempts < after[t].maxAttempts
      ensures after[t].status == Leased <==> tasks[t].status == Leased && !Abandoned(tasks[t], now)
    {
      RecoveredStatus(tasks[t], now);
    }
    assert forall t :: t in tasks <==> t in after;
  }

  lemma RecoveredStatus(t: Task, now: Instant)
    ensures var after := RecoveredTask(t, now);
            && after.runId == t.runId
            && (after.status == Pending <==> Returned(t, now))
            && (after.status == Pending ==> after.attempts < after.maxAttempts)
            && (after.status == Leased <==> t.status == Leased && !Abandoned(t, now))
  {
  }

  lemma SweptByRecover(db: Tables, now: Instant, stages: map<RunId, Stage>, r: RunId)
    requires Invariant(db) && ExhaustedStages(db.tasks, now, stages) && UnderCancel(db, r)
    ensures CancelsStranded(db, now, stages, r) <==> Sweeps(db, r, now)
  {
    hide TallyOf, RunAgrees, TaskAgrees, RecoveredTask, HasExhausted, AfterExhaustion, HasLiveLease, Has;
    RecoveredPending(db.tasks, r, now);
    LeasedTally(db.tasks, r);
    LeasedTally(RecoveredTasks(db.tasks, now), r);
    RecoveredTasksTally(db.tasks, r, now);
    assert RunAgrees(db.runs[r], TallyOf(db.tasks, r));
    AgreesAny(db.runs[r], TallyOf(db.tasks, r));
    SweptRun(db.runs[r], TallyOf(db.tasks, r), TallyOf(RecoveredTasks(db.tasks, now), r), StageOf(stages, r));
  }

  lemma AgreesAny(run: Run, k: Tally)
    requires RunAgrees(run, k)
    ensures k.any
  {
  }

  lemma SweptRun(run: Run, before: Tally, k: Tally, exhausted: Option<Stage>)
    requires RunAgrees(run, before) && run.control == CancelControl && k.any && (k.leased ==> before.leased)
    ensures var settled := AfterExhaustion(run, k, exhausted);
            Stranded(settled, k) && settled.state == Cancelling <==> before.leased && !k.leased && exhausted.None?
  {
  }

  // ---- the release of the last lease ----

  // What the step that takes a run under Cancel from some lease to none leaves waiting: what
  // waited before, and what it returns itself; a recover leaves anything only beside a task that
  // used up its attempts.
  predicate LeavesPending(db: Tables, a: Action, r: RunId) {
    match a
    case Fail(task, _, failure, _) => Has(db.tasks, r, Pending) || Retries(task, failure)
    case Recover(now, _) => HasExhausted(db.tasks, r, now) && Returns(db.tasks, r, now)
    case _ => Has(db.tasks, r, Pending)
  }

  lemma LastRelease(db: Tables, a: Action, r: RunId)
    requires Invariant(db) && Fits(db, a) && UnderCancel(db, r)
    requires Has(db.tasks, r, Leased) && !Has(Apply(db, a).tasks, r, Leased)
    ensures a.Complete? || a.Fail? || a.Recover?
    ensures Has(Apply(db, a).tasks, r, Pending) <==> LeavesPending(db, a, r)
  {
    hide TallyOf, Recovered, Invariant, Apply, Fits, TasksAfterCommit;
    var t :| t in db.tasks && db.tasks[t].runId == r && db.tasks[t].status == Leased;
    StepRow(db, a, t);
    assert Apply(db, a).tasks[t].status != Leased;
    PendingStep(db, a, r);
    if a.Recover? { RecoverReleases(db, a, r); }
  }

  // So in every history: the step that releases the last lease leaves the run Cancelled, holding a
  // Pending task exactly when the state and the step say so.
  lemma CancelledRunHoldsPending(h: History, a: Action, r: RunId)
    requires Valid(h + [a]) && UnderCancel(Exec(h), r)
    requires Has(Exec(h).tasks, r, Leased) && !Has(Exec(h + [a]).tasks, r, Leased)
    ensures Exec(h + [a]).runs[r].state == CancelledRun
    ensures Has(Exec(h + [a]).tasks, r, Pending) <==> LeavesPending(Exec(h), a, r)
    ensures WellFormed(Exec(h + [a]))
    ensures forall t, now :: Claimable(Exec(h + [a]), t, now) ==> Exec(h + [a]).tasks[t].runId != r
  {
    hide Exec, HandedOut, Valid, Apply, Enabled, Fits, Invariant, LeavesPending, TallyOf;
    LastStep(h, [a]);
    assert h + [] == h;
    Reachable(h);
    Reachable(h + [a]);
    EnabledFits(h, a);
    LastRelease(Exec(h), a, r);
    CancelIsEffective(h, [a], r);
    LeasedTally(Exec(h + [a]).tasks, r);
    InvariantIsWellFormed(Exec(h + [a]));
  }

  lemma LeasedTally(tasks: map<TaskId, Task>, r: RunId)
    ensures TallyOf(tasks, r).leased == Has(tasks, r, Leased)
  {
  }

  lemma InvariantIsWellFormed(db: Tables)
    requires Invariant(db)
    ensures WellFormed(db)
  {
  }

  lemma RecoverReleases(db: Tables, a: Action, r: RunId)
    requires Invariant(db) && Fits(db, a) && a.Recover?
    ensures HasLiveLease(db.tasks, r, a.now) ==> Has(Apply(db, a).tasks, r, Leased)
  {
    hide TallyOf, Recovered, RunAgrees, TaskAgrees, CancelsStranded;
    RecoveredKeys(db, a.now, a.stages);
    if t :| t in db.tasks && db.tasks[t].runId == r && db.tasks[t].status == Leased && !Abandoned(db.tasks[t], a.now) {
      RecoveredRow(db, a.now, a.stages, t);
      assert Apply(db, a).tasks[t].status == Leased;
    }
  }

  // ---- over histories ----

  // A cancel request withdraws everything that waits.
  lemma RequestLeavesNone(h: History, r: RunId, now: Instant)
    requires Valid(h + [Control(r, Cancel, now)]) && r in Exec(h).runs && !Settled(Exec(h).runs[r].state)
    ensures var after := Exec(h + [Control(r, Cancel, now)]);
            UnderCancel(after, r) && !Has(after.tasks, r, Pending)
  {
    hide Exec, HandedOut, Valid, Enabled, TallyOf, Invariant;
    LastStep(h, [Control(r, Cancel, now)]);
    assert h + [] == h;
    Reachable(h);
    EnabledFits(h, Control(r, Cancel, now));
  }

  // Step i of the history left a task waiting that has attempts to spare.
  ghost predicate PutsBack(h: History, later: History, i: nat, r: RunId)
    requires i < |later|
  {
    var db, a := Exec(h + later[..i]), later[i];
    || (RetriesIn(db, a, r) && db.tasks[a.task.id].attempts < db.tasks[a.task.id].maxAttempts)
    || (a.Recover? && Returns(db.tasks, r, a.now) && !Sweeps(db, r, a.now))
  }

  ghost predicate SweptAfter(h: History, later: History, i: nat, r: RunId) {
    exists j :: i < j < |later| && later[j].Recover? && Sweeps(Exec(h + later[..j]), r, later[j].now)
  }

  predicate RecoveredAfter(later: History, i: nat) {
    exists j :: i < j < |later| && later[j].Recover?
  }

  ghost predicate Keeps(h: History, later: History, i: nat, r: RunId) {
    i < |later| && PutsBack(h, later, i, r) && !SweptAfter(h, later, i, r)
  }

  // A retry of a task whose attempts were used up meanwhile waits until the next recover fails it.
  ghost predicate LastsTillRecover(h: History, later: History, i: nat, r: RunId) {
    i < |later| && RetriesIn(Exec(h + later[..i]), later[i], r) && !RecoveredAfter(later, i)
  }

  ghost predicate SomeKept(h: History, later: History, r: RunId) { exists i: nat :: Keeps(h, later, i, r) }

  ghost predicate SomeLasting(h: History, later: History, r: RunId) { exists i: nat :: LastsTillRecover(h, later, i, r) }

  // From a cancel request until another control request: a task of the run is Pending exactly when
  // some failure was retried or some recover returned a lease, and no recover has since swept the
  // run or, where no attempt was left, looked at it at all.
  lemma {:induction false} WaitingUnderCancel(h: History, later: History, r: RunId)
    requires Valid(h + later) && UnderCancel(Exec(h), r) && !Has(Exec(h).tasks, r, Pending)
    requires forall i :: 0 <= i < |later| ==> !Controls(later[i], r)
    ensures HasRetriable(Exec(h + later).tasks, r) <==> SomeKept(h, later, r)
    ensures Has(Exec(h + later).tasks, r, Pending) <==> SomeKept(h, later, r) || SomeLasting(h, later, r)
    decreases |later|
  {
    hide Exec, HandedOut, Valid, Apply, Enabled, TallyOf, Fits, Invariant, Has, HasRetriable, Sweeps, Returns,
      SomeKept, SomeLasting;
    if later == [] {
      assert h + later == h;
      RetriableIsPending(Exec(h).tasks, r);
      NoneKept(h, r);
    } else {
      var before := later[..|later| - 1];
      var a := later[|later| - 1];
      LastStep(h, later);
      WaitingUnderCancel(h, before, r);
      CancelIsEffective(h, before, r);
      Reachable(h + before);
      EnabledFits(h + before, a);
      PendingStep(Exec(h + before), a, r);
      RetriableIsPending(Exec(h + before).tasks, r);
      KeptStep(h, later, r);
      LastingStep(h, later, r);
    }
  }

  lemma RetriableIsPending(tasks: map<TaskId, Task>, r: RunId)
    ensures HasRetriable(tasks, r) ==> Has(tasks, r, Pending)
    ensures forall now :: HasRetriable(tasks, r) ==> Returns(tasks, r, now)
  {
  }

  lemma NoneKept(h: History, r: RunId)
    ensures !SomeKept(h, [], r) && !SomeLasting(h, [], r)
  {
  }

  // What one more step does to what the steps before it left.
  lemma KeptStep(h: History, later: History, r: RunId)
    requires later != []
    ensures var last := |later| - 1;
            var db, a := Exec(h + later[..last]), later[last];
            SomeKept(h, later, r)
            <==> (SomeKept(h, later[..last], r) && !(a.Recover? && Sweeps(db, r, a.now))) || PutsBack(h, later, last, r)
  {
    hide Exec, Sweeps, Returns, RetriesIn, PutsBack, SweptAfter;
    var last := |later| - 1;
    var before, a := later[..last], later[last];
    forall i: nat | i < last
      ensures PutsBack(h, later, i, r) <==> PutsBack(h, before, i, r)
      ensures SweptAfter(h, later, i, r)
              <==> SweptAfter(h, before, i, r) || (a.Recover? && Sweeps(Exec(h + before), r, a.now))
    {
      StepsBefore(h, later, i, r);
    }
    NotSweptYet(h, later, r);
    if SomeKept(h, later, r) {
      var i: nat :| Keeps(h, later, i, r);
      assert i < last ==> Keeps(h, before, i, r);
    }
    if SomeKept(h, before, r) && !(a.Recover? && Sweeps(Exec(h + before), r, a.now)) {
      var i: nat :| Keeps(h, before, i, r);
      assert Keeps(h, later, i, r);
    }
    if PutsBack(h, later, last, r) { assert Keeps(h, later, last, r); }
  }

  lemma NotSweptYet(h: History, later: History, r: RunId)
    requires later != []
    ensures !SweptAfter(h, later, |later| - 1, r)
  {
  }

  lemma StepsBefore(h: History, later: History, i: nat, r: RunId)
    requires i < |later| - 1
    ensures var before, a := later[..|later| - 1], later[|later| - 1];
            && (PutsBack(h, later, i, r) <==> PutsBack(h, before, i, r))
            && (SweptAfter(h, later, i, r)
                <==> SweptAfter(h, before, i, r) || (a.Recover? && Sweeps(Exec(h + before), r, a.now)))
  {
    hide Exec, Sweeps, Returns, RetriesIn;
    var last := |later| - 1;
    var before := later[..last];
    assert forall j :: 0 <= j <= last ==> before[..j] == later[..j];
    if SweptAfter(h, before, i, r) {
      var j :| i < j < |before| && before[j].Recover? && Sweeps(Exec(h + before[..j]), r, before[j].now);
      assert later[j] == before[j];
    }
  }

  lemma LastingStep(h: History, later: History, r: RunId)
    requires later != []
    ensures var last := |later| - 1;
            var db, a := Exec(h + later[..last]), later[last];
            SomeLasting(h, later, r) <==> (SomeLasting(h, later[..last], r) && !a.Recover?) || RetriesIn(db, a, r)
  {
    hide Exec, RetriesIn;
    var last := |later| - 1;
    var before, a := later[..last], later[last];
    assert forall j :: 0 <= j <= last ==> before[..j] == later[..j];
    if SomeLasting(h, later, r) {
      var i: nat :| LastsTillRecover(h, later, i, r);
      if i < last {
        assert !a.Recover?;
        assert forall j :: i < j < last ==> before[j] == later[j];
        assert LastsTillRecover(h, before, i, r);
      }
    }
    if SomeLasting(h, before, r) && !a.Recover? {
      var i: nat :| LastsTillRecover(h, before, i, r);
      assert forall j :: i < j < last ==> before[j] == later[j];
      assert LastsTillRecover(h, later, i, r);
    }
    if RetriesIn(Exec(h + before), a, r) { assert LastsTillRecover(h, later, last, r); }
  }
}
