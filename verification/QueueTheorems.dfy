// What the queue promises over every history: fencing, exactly-once commits, terminal states,
// user control, outcomes, and that no run is left stranded.

module QueueTheorems {
  import opened Wrappers
  import opened RunTables
  import opened Settlement
  import opened Transactions
  import opened RunInvariant
  import opened Histories

  // ---- fencing ----

  predicate FromWorker(a: Action) { a.Renew? || a.Complete? || a.Fail? }

  // A renewal, completion or failure from anyone but the current lease owner changes nothing.
  lemma Fenced(db: Tables, a: Action)
    requires FromWorker(a) && !Holds(db, a.task.id, a.owner)
    ensures Apply(db, a) == db
  {
  }

  // A leased row is touched only by its owner, or by a recover past its expiry.
  lemma LeaseIsExclusive(db: Tables, a: Action, t: TaskId)
    requires Invariant(db) && t in db.tasks && db.tasks[t].status == Leased
    requires FromWorker(a) && a.task.id == t ==> Some(a.owner) != db.tasks[t].owner
    requires a.Recover? ==> a.now < db.tasks[t].leaseExpiresAt.value
    ensures t in Apply(db, a).tasks && Apply(db, a).tasks[t] == db.tasks[t]
  {
    hide Recovered, TallyOf;
    if FromWorker(a) && a.task.id == t { Fenced(db, a); } else { StepRow(db, a, t); }
  }

  // ---- rows over a history ----

  ghost function Claims(h: History, t: TaskId): nat {
    if h == [] then 0
    else Claims(h[..|h| - 1], t) + (if h[|h| - 1].Claim? && h[|h| - 1].picked == Some(t) then 1 else 0)
  }

  // A commit that took effect: its task was still leased to the committing owner.
  ghost predicate Commits(db: Tables, a: Action, t: TaskId) {
    a.Complete? && a.task.id == t && Holds(db, t, a.owner)
  }

  ghost function CommitCount(h: History, t: TaskId): nat {
    if h == [] then 0
    else CommitCount(h[..|h| - 1], t) + (if Commits(Exec(h[..|h| - 1]), h[|h| - 1], t) then 1 else 0)
  }

  lemma EnabledFits(h: History, a: Action)
    requires Valid(h) && Enabled(Exec(h), HandedOut(h), a)
    ensures Fits(Exec(h), a)
  {
    hide Recovered, Claimable, Exec, HandedOut;
    Reachable(h);
  }

  // The attempt counter is the number of claims the row has seen, and stays within its bound.
  lemma {:induction false} AttemptsAreClaims(h: History, t: TaskId)
    requires Valid(h)
    ensures t in Exec(h).tasks ==> Exec(h).tasks[t].attempts == Claims(h, t) <= Exec(h).tasks[t].maxAttempts <= 3
    ensures t !in Exec(h).tasks ==> Claims(h, t) == 0
  {
    hide Apply, Enabled, Recovered, TallyOf;
    Reachable(h);
    if h != [] {
      var db := Exec(h[..|h| - 1]);
      var a := h[|h| - 1];
      AttemptsAreClaims(h[..|h| - 1], t);
      EnabledFits(h[..|h| - 1], a);
      if t in db.tasks {
        StepAttempts(db, a, t);
      } else {
        assert !(a.Claim? && a.picked == Some(t));
        if t in Exec(h).tasks { StepBirth(db, a, t); }
      }
    }
  }

  // A task commits at most once, and is Completed exactly when it has.
  lemma {:induction false} CommitsOnce(h: History, t: TaskId)
    requires Valid(h)
    ensures CommitCount(h, t) == if t in Exec(h).tasks && Exec(h).tasks[t].status == Completed then 1 else 0
  {
    hide Apply, Enabled, Recovered, TallyOf;
    Reachable(h);
    if h != [] {
      var db := Exec(h[..|h| - 1]);
      var a := h[|h| - 1];
      CommitsOnce(h[..|h| - 1], t);
      EnabledFits(h[..|h| - 1], a);
      if t in db.tasks {
        StepRow(db, a, t);
        if Commits(db, a, t) { CommitTakesEffect(db, a); }
      } else if t in Exec(h).tasks {
        StepBirth(db, a, t);
      }
    }
  }

  lemma CommitTakesEffect(db: Tables, a: Action)
    requires a.Complete? && Fits(db, a) && Holds(db, a.task.id, a.owner)
    ensures a.task.id in Apply(db, a).tasks
    ensures Apply(db, a).tasks[a.task.id] == CommittedTask(db.tasks[a.task.id])
  {
    hide TasksAfterCommit, TallyOf;
    CommitRows(db, a.task, a.cp, a.ids, a.now);
  }

  lemma LastStep(h: History, later: History)
    requires later != []
    ensures Exec(h + later) == Apply(Exec(h + later[..|later| - 1]), later[|later| - 1])
    ensures Valid(h + later) ==>
              && Valid(h + later[..|later| - 1])
              && Enabled(Exec(h + later[..|later| - 1]), HandedOut(h + later[..|later| - 1]), later[|later| - 1])
  {
    hide Apply, Enabled, HandedOut;
    assert (h + later)[..|h + later| - 1] == h + later[..|later| - 1];
  }

  // Rows are never deleted, and a terminal one is never written again.
  lemma {:induction false} TerminalRowsStay(h: History, later: History, t: TaskId)
    requires Valid(h + later) && t in Exec(h).tasks
    ensures t in Exec(h + later).tasks
    ensures Terminal(Exec(h).tasks[t].status) ==> Exec(h + later).tasks[t] == Exec(h).tasks[t]
    decreases |later|
  {
    hide Exec, HandedOut, Valid, Apply, Enabled, Recovered, TallyOf;
    if later == [] {
      assert h + later == h;
    } else {
      var before := later[..|later| - 1];
      LastStep(h, later);
      TerminalRowsStay(h, before, t);
      StepRow(Exec(h + before), later[|later| - 1], t);
    }
  }

  // ---- where tasks come from ----

  ghost predicate BornAt(h: History, i: nat, t: TaskId) {
    i < |h| && t !in Exec(h[..i]).tasks && t in Exec(h[..i + 1]).tasks
  }

  lemma {:induction false} ValidPrefix(h: History, i: nat)
    requires Valid(h) && i <= |h|
    ensures Valid(h[..i])
    decreases |h|
  {
    if i < |h| {
      ValidPrefix(h[..|h| - 1], i);
      assert h[..|h| - 1][..i] == h[..i];
    } else {
      assert h[..i] == h;
    }
  }

  // Every task is the root of its run, or was inserted by the commit of a task that is Completed
  // from then on.
  lemma {:induction false} Parentage(h: History, t: TaskId) returns (i: nat)
    requires Valid(h) && t in Exec(h).tasks
    ensures BornAt(h, i, t)
    ensures (h[i].Create? && h[i].root == t && Exec(h).tasks[t].stage == RunPlanning)
            || (h[i].Complete? && t in h[i].ids && h[i].task.id in Exec(h).tasks
                && Exec(h).tasks[h[i].task.id].status == Completed
                && Exec(h).tasks[h[i].task.id].runId == Exec(h).tasks[t].runId)
  {
    hide Apply, Enabled, Recovered, TallyOf;
    var before := h[..|h| - 1];
    var a := h[|h| - 1];
    if t in Exec(before).tasks {
      i := Parentage(before, t);
      assert before[..i] == h[..i] && before[..i + 1] == h[..i + 1];
      StepRow(Exec(before), a, t);
      if a.Complete? || h[i].Complete? {
        if h[i].Complete? { StepRow(Exec(before), a, h[i].task.id); }
      }
    } else {
      i := |h| - 1;
      assert h[..i + 1] == h;
      StepBirth(Exec(before), a, t);
      if a.Complete? { CommitTakesEffect(Exec(before), a); }
    }
  }

  // It is born only once, so its parent is unique.
  lemma BornOnce(h: History, i: nat, j: nat, t: TaskId)
    requires Valid(h) && BornAt(h, i, t) && BornAt(h, j, t)
    ensures i == j
  {
    if i < j {
      StillThere(h, i, j, t);
    } else if j < i {
      StillThere(h, j, i, t);
    }
  }

  lemma StillThere(h: History, i: nat, j: nat, t: TaskId)
    requires Valid(h) && i < j <= |h| && t in Exec(h[..i + 1]).tasks
    ensures t in Exec(h[..j]).tasks
  {
    hide Exec, Valid;
    ValidPrefix(h, j);
    assert h[..i + 1] + h[i + 1..j] == h[..j];
    TerminalRowsStay(h[..i + 1], h[i + 1..j], t);
  }

  // ---- settled runs ----

  predicate SameOutcome(before: Run, after: Run) {
    && after.state == before.state
    && (after.completion == before.completion
        || (before.completion == Some(TargetReached) && after.completion == Some(SearchExhausted)))
  }

  lemma SettledByRecover(db: Tables, now: Instant, stages: map<RunId, Stage>, r: RunId)
    requires Invariant(db) && ExhaustedStages(db.tasks, now, stages)
    requires r in db.runs && Settled(db.runs[r].state)
    ensures r in Recovered(db, now, stages).runs
    ensures SameOutcome(db.runs[r], Recovered(db, now, stages).runs[r])
  {
    hide TallyOf, RecoveredTask, CancelsStranded, RunAgrees, RecoveredRun;
    RecoveredKeys(db, now, stages);
    RecoveredTasksTally(db.tasks, r, now);
    SettledRecovers(db.runs[r], TallyOf(db.tasks, r), TallyOf(RecoveredTasks(db.tasks, now), r), StageOf(stages, r));
  }

  lemma SettledRecovers(run: Run, before: Tally, k: Tally, exhausted: Option<Stage>)
    requires RunAgrees(run, before) && Settled(run.state)
    requires k.any == before.any && (k.leased ==> before.leased) && (k.Active() ==> before.Active())
    requires exhausted.Some? ==> before.Active()
    ensures SameOutcome(run, RecoveredRun(run, k, exhausted))
  {
  }

  lemma SettledStep(db: Tables, a: Action, r: RunId)
    requires Invariant(db) && r in db.runs && Settled(db.runs[r].state)
    ensures r in Apply(db, a).runs && SameOutcome(db.runs[r], Apply(db, a).runs[r])
  {
    hide TallyOf, Recovered;
    if Fits(db, a) {
      match a
      case Complete(task, owner, _, _, _) => if Holds(db, task.id, owner) { LeasedRun(db, task.id, owner); }
      case Fail(task, owner, _, _) => if Holds(db, task.id, owner) { LeasedRun(db, task.id, owner); }
      case Recover(now, stages) => SettledByRecover(db, now, stages, r);
      case _ =>
    }
  }

  // A completed or cancelled run stays one in every continuation; only a target wrongly reported
  // as reached is ever restated.
  lemma {:induction false} SettledRunsStay(h: History, later: History, r: RunId)
    requires Valid(h + later) && r in Exec(h).runs && Settled(Exec(h).runs[r].state)
    ensures r in Exec(h + later).runs && SameOutcome(Exec(h).runs[r], Exec(h + later).runs[r])
    decreases |later|
  {
    hide Exec, HandedOut, Valid, Apply, Enabled, Invariant;
    if later == [] {
      assert h + later == h;
    } else {
      var before := later[..|later| - 1];
      LastStep(h, later);
      SettledRunsStay(h, before, r);
      Reachable(h + before);
      SettledStep(Exec(h + before), later[|later| - 1], r);
    }
  }

  // So the branch of recover that reopens a completed run is never taken from a reachable state.
  lemma ReopeningIsUnreachable(h: History, now: Instant, stages: map<RunId, Stage>, r: RunId)
    requires Valid(h) && ExhaustedStages(Exec(h).tasks, now, stages) && r in Exec(h).runs
    ensures var run := Exec(h).runs[r];
            var k := TallyOf(RecoveredTasks(Exec(h).tasks, now), r);
            var settled := AfterExhaustion(run, k, StageOf(stages, r));
            !(AfterStranding(settled, k).state == Finished && TallyAfterStranding(settled, k).Active())
  {
    hide TallyOf, RecoveredTask, Exec, Valid;
    Reachable(h);
    RecoveredTasksTally(Exec(h).tasks, r, now);
  }

  // From any table contents at all, one recover leaves no completed run with open work, none that
  // reports a reached target its metrics deny, and no cancelling run without a lease. It misses
  // only a pausing run whose control was cleared behind its back.
  lemma SelfRepair(db: Tables, now: Instant, stages: map<RunId, Stage>, r: RunId)
    requires WellFormed(db) && r in db.runs
    ensures var after := Recovered(db, now, stages);
            var k := TallyOf(RecoveredTasks(db.tasks, now), r);
            && r in after.runs
            && (after.runs[r].state == Finished ==> !TallyOf(after.tasks, r).Active())
            && (after.runs[r].state == Finished ==>
                  after.runs[r].completion != Some(TargetReached) || after.runs[r].targetRemaining <= 0)
            && (after.runs[r].state == Cancelling ==> TallyOf(after.tasks, r).leased)
            && (after.runs[r].state == Pausing && !TallyOf(after.tasks, r).leased
                <==> db.runs[r].state == Pausing && db.runs[r].control == NoControl && k.pending && !k.leased)
  {
    hide TallyOf, RecoveredTask, CancelsStranded;
    RecoveredKeys(db, now, stages);
    RecoveredTally(db, now, stages, r);
    PendingNeedsTask(RecoveredTasks(db.tasks, now), r);
  }

  // Such a run: pausing without a request, one task waiting, nothing leased. Recover leaves it so.
  lemma PausingIsMissed()
    ensures var run := Run(Pausing, None, None, NoControl, 1, false, 0, 1);
            var db := Tables(map[0 := run], map[0 := FreshTask(0, RootTask, 0)]);
            && WellFormed(db) && ExhaustedStages(db.tasks, 0, map[])
            && Recovered(db, 0, map[]).runs[0].state == Pausing && !TallyOf(Recovered(db, 0, map[]).tasks, 0).leased
  {
    var run := Run(Pausing, None, None, NoControl, 1, false, 0, 1);
    var db := Tables(map[0 := run], map[0 := FreshTask(0, RootTask, 0)]);
    var tasks := RecoveredTasks(db.tasks, 0);
    var waiting := FreshTask(0, RootTask, 0);
    assert tasks == map[0 := waiting] && waiting.status == Pending && waiting.runId == 0;
    assert 0 in tasks && tasks[0] == waiting;
    assert Has(tasks, 0, Pending) && !Has(tasks, 0, Leased);
    SelfRepair(db, 0, map[], 0);
  }

  lemma PendingNeedsTask(tasks: map<TaskId, Task>, r: RunId)
    ensures TallyOf(tasks, r).Active() ==> TallyOf(tasks, r).any
  {
  }

  // ---- no run is stranded ----

  // Every lease of the run has run out and every task of it is due.
  ghost predicate AllDue(db: Tables, r: RunId, now: Instant) {
    forall t :: t in db.tasks && db.tasks[t].runId == r ==>
      && db.tasks[t].availableAt <= now
      && (db.tasks[t].leaseExpiresAt.Some? ==> db.tasks[t].leaseExpiresAt.value <= now)
  }

  lemma NoLeaseLeft(db: Tables, r: RunId, now: Instant)
    requires Invariant(db) && AllDue(db, r, now)
    ensures !TallyOf(RecoveredTasks(db.tasks, now), r).leased
  {
    hide TallyOf, Invariant, RunAgrees;
    if Has(RecoveredTasks(db.tasks, now), r, Leased) {
      var t :| t in db.tasks && RecoveredTask(db.tasks[t], now).runId == r
               && RecoveredTask(db.tasks[t], now).status == Leased;
      LeaseHasExpiry(db, t);
    }
    TallyLeased(RecoveredTasks(db.tasks, now), r);
  }

  lemma LeaseHasExpiry(db: Tables, t: TaskId)
    requires Invariant(db) && t in db.tasks && db.tasks[t].status == Leased
    ensures db.tasks[t].leaseExpiresAt.Some?
  {
    hide TallyOf, RunAgrees;
  }

  lemma TallyLeased(tasks: map<TaskId, Task>, r: RunId)
    ensures TallyOf(tasks, r).leased == Has(tasks, r, Leased)
  {
  }

  // After a recover past all its deadlines a run is settled or paused, or holds a task that the
  // claim query accepts at once; a pausing or cancelling run has always moved on.
  lemma NeverStranded(h: History, now: Instant, stages: map<RunId, Stage>, r: RunId)
    requires Valid(h + [Recover(now, stages)]) && r in Exec(h).runs && AllDue(Exec(h), r, now)
    ensures var after := Exec(h + [Recover(now, stages)]);
            && WellFormed(after) && r in after.runs
            && (Settled(after.runs[r].state) || after.runs[r].state == Paused
                || exists t :: Claimable(after, t, now) && after.tasks[t].runId == r)
  {
    hide TallyOf, Recovered, Exec, HandedOut, Valid, RecoveredTask;
    var a := Recover(now, stages);
    var db := Exec(h);
    var after := Exec(h + [a]);
    LastStep(h, [a]);
    assert h + [] == h;
    Reachable(h);
    Reachable(h + [a]);
    EnabledFits(h, a);
    RecoveredKeys(db, now, stages);
    NoLeaseLeft(db, r, now);
    RecoveredTally(db, now, stages, r);
    if after.runs[r].state == NotStarted || after.runs[r].state == Running {
      var t := PendingTask(after, r);
      RecoveredRow(db, now, stages, t);
      DueAfterRecover(db, now, stages, t);
      assert Claimable(after, t, now);
    }
  }

  lemma PendingTask(db: Tables, r: RunId) returns (t: TaskId)
    requires TallyOf(db.tasks, r).pending
    ensures t in db.tasks && db.tasks[t].runId == r && db.tasks[t].status == Pending
  {
    t :| t in db.tasks && db.tasks[t].runId == r && db.tasks[t].status == Pending;
  }

  lemma DueAfterRecover(db: Tables, now: Instant, stages: map<RunId, Stage>, t: TaskId)
    requires Invariant(db) && t in db.tasks && AllDue(db, db.tasks[t].runId, now)
    ensures t in Recovered(db, now, stages).tasks
    ensures var row := Recovered(db, now, stages).tasks[t];
            && row.runId == db.tasks[t].runId
            && (row.status == Pending ==> row.attempts < row.maxAttempts && row.availableAt <= now)
  {
    hide TallyOf, Recovered, CancelsStranded;
    RecoveredRow(db, now, stages, t);
  }

  // ---- what user control achieves ----

  predicate Controls(a: Action, r: RunId) { a.Control? && a.r == r }

  // The run a claim takes a task from.
  predicate ClaimsFrom(db: Tables, a: Action, r: RunId) {
    a.Claim? && a.picked.Some? && a.picked.value in db.tasks && db.tasks[a.picked.value].runId == r
  }

  predicate UnderCancel(db: Tables, r: RunId) {
    r in db.runs && db.runs[r].control == CancelControl
  }

  lemma CancelStep(db: Tables, a: Action, r: RunId)
    requires Invariant(db) && UnderCancel(db, r) && !Controls(a, r)
    ensures UnderCancel(Apply(db, a), r)
    ensures Fits(db, a) ==> !ClaimsFrom(db, a, r)
    ensures forall t :: t in Apply(db, a).tasks && Apply(db, a).tasks[t].runId == r ==>
              && t in db.tasks && db.tasks[t].runId == r
              && (Apply(db, a).tasks[t].status == Leased ==>
                    db.tasks[t].status == Leased && db.tasks[t].owner == Apply(db, a).tasks[t].owner)
  {
    hide TallyOf, Recovered, Invariant;
    CancelRunStep(db, a, r);
    forall t | t in Apply(db, a).tasks && Apply(db, a).tasks[t].runId == r
      ensures t in db.tasks && db.tasks[t].runId == r
      ensures Apply(db, a).tasks[t].status == Leased ==>
                db.tasks[t].status == Leased && db.tasks[t].owner == Apply(db, a).tasks[t].owner
    {
      if t in db.tasks {
        StepRow(db, a, t);
      } else {
        StepBirth(db, a, t);
      }
    }
  }

  lemma CancelRunStep(db: Tables, a: Action, r: RunId)
    requires Invariant(db) && UnderCancel(db, r) && !Controls(a, r)
    ensures UnderCancel(Apply(db, a), r)
    ensures Fits(db, a) ==> !ClaimsFrom(db, a, r)
  {
    hide TallyOf, Recovered, Settle;
    if Fits(db, a) {
      match a
      case Complete(task, owner, _, _, _) =>
        if Holds(db, task.id, owner) {
          CommitTakesEffect(db, a);
          Witness(Apply(db, a).tasks, task.id);
          CancelSettles(db.runs[r], TallyOf(Apply(db, a).tasks, r), task.stage);
        }
      case Fail(task, owner, _, _) =>
        if Holds(db, task.id, owner) {
          Witness(Apply(db, a).tasks, task.id);
          CancelSettles(db.runs[r], TallyOf(Apply(db, a).tasks, r), task.stage);
        }
      case Recover(now, stages) => CancelUnderRecover(db, now, stages, r);
      case _ =>
    }
  }

  // Settlement never withdraws a cancel request.
  lemma CancelSettles(run: Run, k: Tally, stage: Stage)
    requires run.control == CancelControl
    ensures k.any ==> Settle(run, k, stage).control == CancelControl
  {
  }

  lemma CancelUnderRecover(db: Tables, now: Instant, stages: map<RunId, Stage>, r: RunId)
    requires Invariant(db) && UnderCancel(db, r)
    ensures UnderCancel(Recovered(db, now, stages), r)
  {
    hide TallyOf, RecoveredTask, CancelsStranded;
    RecoveredKeys(db, now, stages);
    RecoveredTasksTally(db.tasks, r, now);
  }

  // After a cancel, until another control request for the run: nothing of it is claimed or
  // inserted, every lease it still has is one it had, and it is Cancelled once they are gone.
  lemma {:induction false} CancelIsEffective(h: History, later: History, r: RunId)
    requires Valid(h + later) && UnderCancel(Exec(h), r)
    requires forall i :: 0 <= i < |later| ==> !Controls(later[i], r)
    ensures UnderCancel(Exec(h + later), r)
    ensures forall i :: 0 <= i < |later| ==> !ClaimsFrom(Exec(h + later[..i]), later[i], r)
    ensures forall t :: t in Exec(h + later).tasks && Exec(h + later).tasks[t].runId == r ==>
              && t in Exec(h).tasks && Exec(h).tasks[t].runId == r
              && (Exec(h + later).tasks[t].status == Leased ==> Exec(h).tasks[t].status == Leased)
    ensures Exec(h + later).runs[r].state
            == if TallyOf(Exec(h + later).tasks, r).leased then Cancelling else CancelledRun
    decreases |later|
  {
    hide Exec, HandedOut, Valid, Apply, Enabled, TallyOf, Fits;
    Reachable(h + later);
    if later == [] {
      assert h + later == h;
    } else {
      var before := later[..|later| - 1];
      var a := later[|later| - 1];
      LastStep(h, later);
      CancelIsEffective(h, before, r);
      Reachable(h + before);
      EnabledFits(h + before, a);
      CancelStep(Exec(h + before), a, r);
      forall i | 0 <= i < |later|
        ensures !ClaimsFrom(Exec(h + later[..i]), later[i], r)
      {
        if i < |before| { assert before[..i] == later[..i]; } else { assert later[..i] == before; }
      }
    }
  }

  // A run told to pause, or one that settled while it was pausing.
  ghost predicate UnderPause(db: Tables, r: RunId) {
    && r in db.runs
    && (db.runs[r].control == PauseControl
        || (db.runs[r].control == NoControl && !TallyOf(db.tasks, r).Active()))
  }

  lemma PauseStep(db: Tables, a: Action, r: RunId)
    requires Invariant(db) && UnderPause(db, r) && !Controls(a, r)
    ensures UnderPause(Apply(db, a), r)
    ensures Fits(db, a) ==> !ClaimsFrom(db, a, r)
  {
    hide TallyOf, Recovered, Settle;
    if Fits(db, a) {
      match a
      case Create(s, root, _, _, now) => TallyFrame(db.tasks, Apply(db, a).tasks, r);
      case Claim(_, _, _, None) =>
      case Claim(_, _, _, Some(t)) => PauseUnderClaim(db, a, r);
      case Renew(task, owner, _, _) =>
        SameStatuses(db.tasks, Apply(db, a).tasks, r);
      case Complete(task, owner, cp, _, _) => PauseUnderCommit(db, a, r);
      case Fail(task, owner, _, _) => PauseUnderFail(db, a, r);
      case Recover(now, stages) => PauseUnderRecover(db, now, stages, r);
      case Control(s, request, now) => ControlElsewhere(db, s, request, now, r);
      case Score(_, _) =>
    }
  }

  lemma NotActive(tasks: map<TaskId, Task>, r: RunId)
    ensures TallyOf(tasks, r).Active() == (Has(tasks, r, Pending) || Has(tasks, r, Leased))
  {
  }

  lemma PauseSettles(run: Run, k: Tally, stage: Stage)
    requires run.control == PauseControl
    ensures var after := Settle(run, k, stage);
            after.control == PauseControl || (after.control == NoControl && !k.Active())
  {
  }

  lemma PauseUnderClaim(db: Tables, a: Action, r: RunId)
    requires Invariant(db) && UnderPause(db, r) && a.Claim? && a.picked.Some? && Fits(db, a)
    ensures UnderPause(Apply(db, a), r) && !ClaimsFrom(db, a, r)
  {
    hide TallyOf, Invariant;
    Witness(db.tasks, a.picked.value);
    NotActive(db.tasks, r);
    TallyFrame(db.tasks, Apply(db, a).tasks, r);
  }

  lemma PauseUnderFail(db: Tables, a: Action, r: RunId)
    requires Invariant(db) && UnderPause(db, r) && a.Fail? && Fits(db, a)
    ensures UnderPause(Apply(db, a), r)
  {
    hide TallyOf, Settle, FailedTask;
    if Holds(db, a.task.id, a.owner) {
      if a.task.runId == r {
        LeasedRun(db, a.task.id, a.owner);
        PauseSettles(db.runs[r], TallyOf(Apply(db, a).tasks, r), a.task.stage);
      } else {
        FailedElsewhere(db.tasks[a.task.id], a.task, a.failure, a.now);
        TallyFrame(db.tasks, Apply(db, a).tasks, r);
      }
    }
  }

  lemma FailedElsewhere(t: Task, task: RunTask, failure: Classification, now: Instant)
    ensures FailedTask(t, task, failure, now).runId == t.runId
  {
  }

  lemma PauseUnderCommit(db: Tables, a: Action, r: RunId)
    requires Invariant(db) && UnderPause(db, r) && a.Complete? && Fits(db, a)
    ensures UnderPause(Apply(db, a), r)
  {
    hide TallyOf, Settle, TasksAfterCommit;
    if Holds(db, a.task.id, a.owner) {
      var after := Apply(db, a);
      CommitRows(db, a.task, a.cp, a.ids, a.now);
      if a.task.runId == r {
        LeasedRun(db, a.task.id, a.owner);
        PauseSettles(db.runs[r], TallyOf(after.tasks, r), a.task.stage);
      } else {
        TallyFrame(db.tasks, after.tasks, r);
      }
    }
  }

  lemma PauseUnderRecover(db: Tables, now: Instant, stages: map<RunId, Stage>, r: RunId)
    requires Invariant(db) && UnderPause(db, r) && ExhaustedStages(db.tasks, now, stages)
    ensures UnderPause(Recovered(db, now, stages), r)
  {
    hide TallyOf, RecoveredTask, CancelsStranded, RecoveredRun, RunAgrees;
    RecoveredKeys(db, now, stages);
    RecoveredTally(db, now, stages, r);
    RecoveredTasksTally(db.tasks, r, now);
    PauseRecovers(db.runs[r], TallyOf(db.tasks, r), TallyOf(RecoveredTasks(db.tasks, now), r), StageOf(stages, r));
  }

  lemma PauseRecovers(run: Run, before: Tally, k: Tally, exhausted: Option<Stage>)
    requires RunAgrees(run, before)
    requires run.control == PauseControl || (run.control == NoControl && !before.Active())
    requires k.any == before.any && (k.leased ==> before.leased) && (k.Active() ==> before.Active())
    requires exhausted.Some? ==> before.Active()
    ensures var after := RecoveredRun(run, k, exhausted);
            || after.control == PauseControl
            || (after.control == NoControl && !TallyAfterStranding(AfterExhaustion(run, k, exhausted), k).Active())
  {
  }

  lemma ControlElsewhere(db: Tables, s: RunId, request: Request, now: Instant, r: RunId)
    requires r != s && r in db.runs
    ensures var after := Requested(db, s, request, now);
            r in after.runs && after.runs[r] == db.runs[r] && TallyOf(after.tasks, r) == TallyOf(db.tasks, r)
  {
    hide TallyOf;
    TallyFrame(db.tasks, Requested(db, s, request, now).tasks, r);
  }

  // After a pause, until another control request for the run: nothing of it is claimed, and once
  // its last lease is released it is Paused or settled.
  lemma {:induction false} PauseIsEffective(h: History, later: History, r: RunId)
    requires Valid(h + later) && UnderPause(Exec(h), r)
    requires forall i :: 0 <= i < |later| ==> !Controls(later[i], r)
    ensures UnderPause(Exec(h + later), r)
    ensures forall i :: 0 <= i < |later| ==> !ClaimsFrom(Exec(h + later[..i]), later[i], r)
    ensures var run := Exec(h + later).runs[r];
            if TallyOf(Exec(h + later).tasks, r).leased then run.state == Pausing
            else run.state == Paused || Settled(run.state)
    decreases |later|
  {
    hide Exec, HandedOut, Valid, Apply, Enabled, TallyOf, Fits;
    Reachable(h + later);
    if later == [] {
      assert h + later == h;
    } else {
      var before := later[..|later| - 1];
      var a := later[|later| - 1];
      LastStep(h, later);
      PauseIsEffective(h, before, r);
      Reachable(h + before);
      EnabledFits(h + before, a);
      PauseStep(Exec(h + before), a, r);
      forall i | 0 <= i < |later|
        ensures !ClaimsFrom(Exec(h + later[..i]), later[i], r)
      {
        if i < |before| { assert before[..i] == later[..i]; } else { assert later[..i] == before; }
      }
    }
  }

  // ---- outcomes ----

  // A completion is recorded exactly when the run is completed, cancelled or paused.
  lemma CompletionIffAtRest(h: History, r: RunId)
    requires Valid(h) && r in Exec(h).runs
    ensures var run := Exec(h).runs[r];
            run.completion.Some? <==> Settled(run.state) || run.state == Paused
  {
    hide TallyOf, Exec, Valid;
    Reachable(h);
  }

  // A run that reports its whole purpose done has every task Completed, and no task is ever added.
  lemma {:induction false} SuccessMeansAllCompleted(h: History, later: History, r: RunId)
    requires Valid(h + later) && r in Exec(h).runs
    requires Exec(h).runs[r].completion == Some(TargetReached) || Exec(h).runs[r].completion == Some(ReassessmentComplete)
    ensures forall t :: t in Exec(h + later).tasks && Exec(h + later).tasks[t].runId == r ==>
              t in Exec(h).tasks && Exec(h + later).tasks[t].status == Completed
    decreases |later|
  {
    hide Exec, HandedOut, Valid, Apply, Enabled, TallyOf, Fits, RunAgrees;
    if later == [] {
      assert h + later == h;
      Reachable(h);
      SuccessTally(Exec(h).runs[r], TallyOf(Exec(h).tasks, r));
      AllCompleted(Exec(h).tasks, r);
    } else {
      var before := later[..|later| - 1];
      var a := later[|later| - 1];
      LastStep(h, later);
      SuccessMeansAllCompleted(h, before, r);
      assert (h + later)[..|h|] == h && (h + later)[..|h + before|] == h + before;
      ValidPrefix(h + later, |h|);
      ValidPrefix(h + later, |h + before|);
      Reachable(h);
      SuccessTally(Exec(h).runs[r], TallyOf(Exec(h).tasks, r));
      SettledRunsStay(h, before, r);
      CompletedStep(Exec(h + before), a, r);
    }
  }

  lemma CompletedStep(db: Tables, a: Action, r: RunId)
    requires r in db.runs
    requires forall t :: t in db.tasks && db.tasks[t].runId == r ==> db.tasks[t].status == Completed
    ensures forall t :: t in Apply(db, a).tasks && Apply(db, a).tasks[t].runId == r ==>
              t in db.tasks && db.tasks[t].runId == r && Apply(db, a).tasks[t].status == Completed
  {
    hide TallyOf, Recovered, Apply;
    forall t | t in Apply(db, a).tasks && Apply(db, a).tasks[t].runId == r
      ensures t in db.tasks && db.tasks[t].runId == r && Apply(db, a).tasks[t].status == Completed
    {
      if t in db.tasks {
        StepRow(db, a, t);
      } else {
        StepBirth(db, a, t);
        assert false;
      }
    }
  }

  lemma SuccessTally(run: Run, k: Tally)
    requires RunAgrees(run, k) && (run.completion == Some(TargetReached) || run.completion == Some(ReassessmentComplete))
    ensures run.state == Finished && !k.Active() && !k.blocked && !k.failed && !k.cancelled
  {
  }
}
