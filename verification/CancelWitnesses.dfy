// Reachable cancelled runs that still hold a Pending task.

module CancelWitnesses {
  import opened Wrappers
  import opened RunTables
  import opened Settlement
  import opened Transactions
  import opened Histories
  import opened QueueTheorems
  import opened StageGraph

  lemma Extend(h: History, a: Action)
    requires Valid(h) && Enabled(Exec(h), HandedOut(h), a)
    ensures Valid(h + [a]) && Exec(h + [a]) == Apply(Exec(h), a) && HandedOut(h) <= HandedOut(h + [a])
    ensures a.Claim? && a.picked.Some? && a.picked.value in Apply(Exec(h), a).tasks ==>
              SnapshotOf(a.picked.value, Apply(Exec(h), a).tasks[a.picked.value]) in HandedOut(h + [a])
  {
    hide Enabled, Apply;
    assert (h + [a])[..|h|] == h;
  }

  // ---- a search that found two businesses ----

  const INPUT := TaskInput(false)
  const ROOT := Task(0, None, RunPlanning, INPUT, Completed, 1, 3, None, None, 0, None, 0)
  const SEARCH := ROOT.(stage := DiscoverBusinesses)
  const RUNNING := Run(Running, None, Some(CorroborateBusiness), NoControl, 1, false, 0, 1)
  const CANCELLING := RUNNING.(state := Cancelling, control := CancelControl)

  function Under(run: Run, x: Task, y: Task): Tables {
    Tables(map[0 := run], map[0 := ROOT, 1 := SEARCH, 2 := x, 3 := y])
  }

  function Found(b: BusinessId): Task { FreshTask(0, NewTask(CorroborateBusiness, Some(b), INPUT), 0) }

  // Committing while another task of the run is open moves nothing else.
  lemma CommitMoves(db: Tables, a: Action, open: TaskId)
    requires a.Complete? && Fits(db, a) && Holds(db, a.task.id, a.owner)
    requires db.runs[a.task.runId].control == NoControl
    requires var tasks := TasksAfterCommit(db, a.task, a.cp, a.ids, a.now);
             open in tasks && tasks[open].runId == a.task.runId && tasks[open].status == Pending
    ensures Apply(db, a).runs == db.runs && Apply(db, a).tasks == TasksAfterCommit(db, a.task, a.cp, a.ids, a.now)
  {
    hide TasksAfterCommit;
    var tasks := TasksAfterCommit(db, a.task, a.cp, a.ids, a.now);
    assert Has(tasks, a.task.runId, Pending);
    assert Apply(db, a).runs == db.runs[a.task.runId := db.runs[a.task.runId]];
  }

  lemma Planned() returns (h: History)
    ensures Valid(h)
    ensures Exec(h) == Tables(map[0 := RUNNING.(stage := Some(RunPlanning))],
                              map[0 := ROOT, 1 := FreshTask(0, NewTask(DiscoverBusinesses, None, INPUT), 0)])
  {
    hide Exec, HandedOut, Valid, TallyOf, Settle;
    h := [];
    NothingRun();
    var create := Create(0, 0, 1, false, 0);
    Extend(h, create);
    h := h + [create];
    var root := FreshTask(0, RootTask, 0);
    assert Exec(h) == Tables(map[0 := NewRun(1, false)], map[0 := root]);
    var claim := Claim(0, 0, 10, Some(0));
    Extend(h, claim);
    h := h + [claim];
    assert Exec(h) == Tables(map[0 := RUNNING.(stage := Some(RunPlanning))], map[0 := LeasedTo(root, 0, 10)]);
    var task := SnapshotOf(0, LeasedTo(root, 0, 10));
    var next := [NewTask(DiscoverBusinesses, None, INPUT)];
    var complete := Complete(task, 0, Checkpoint(next, false), [1], 0);
    InsertOne(map[0 := ROOT], next[0], 1);
    assert Fits(Exec(h), complete);
    assert Exec(h).tasks[0 := CommittedTask(LeasedTo(root, 0, 10))] == map[0 := ROOT];
    CommitMoves(Exec(h), complete, 1);
    Extend(h, complete);
    h := h + [complete];
  }

  lemma NothingRun()
    ensures Valid([]) && Exec([]) == Tables(map[], map[]) && HandedOut([]) == {}
  {
  }

  lemma InsertOne(tasks: map<TaskId, Task>, next: NewTask, id: TaskId)
    ensures Inserted(tasks, 0, [next], [id], 0) == tasks[id := FreshTask(0, next, 0)]
  {
    assert [next][..0] == [] && [id][..0] == [];
  }

  lemma InsertTwo(tasks: map<TaskId, Task>, first: NewTask, second: NewTask, i: TaskId, j: TaskId)
    ensures Inserted(tasks, 0, [first, second], [i, j], 0)
            == tasks[i := FreshTask(0, first, 0)][j := FreshTask(0, second, 0)]
  {
    assert [first, second][..1] == [first] && [i, j][..1] == [i];
    InsertOne(tasks, first, i);
  }

  lemma Searched() returns (h: History)
    ensures Valid(h) && Exec(h) == Under(RUNNING.(stage := Some(DiscoverBusinesses)), Found(10), Found(11))
  {
    hide Exec, HandedOut, Valid, TallyOf, Settle;
    h := Planned();
    var search := FreshTask(0, NewTask(DiscoverBusinesses, None, INPUT), 0);
    var claim := Claim(0, 0, 10, Some(1));
    Extend(h, claim);
    h := h + [claim];
    assert Exec(h) == Tables(map[0 := RUNNING.(stage := Some(DiscoverBusinesses))],
                             map[0 := ROOT, 1 := LeasedTo(search, 0, 10)]);
    var next := ForEachBusiness([10, 11]);
    assert next == [NewTask(CorroborateBusiness, Some(10), INPUT), NewTask(CorroborateBusiness, Some(11), INPUT)];
    var complete := Complete(SnapshotOf(1, LeasedTo(search, 0, 10)), 0, Checkpoint(next, false), [2, 3], 0);
    InsertTwo(map[0 := ROOT, 1 := SEARCH], next[0], next[1], 2, 3);
    assert Fits(Exec(h), complete);
    assert Exec(h).tasks[1 := CommittedTask(LeasedTo(search, 0, 10))] == map[0 := ROOT, 1 := SEARCH];
    CommitMoves(Exec(h), complete, 2);
    Extend(h, complete);
    h := h + [complete];
  }

  // Both businesses are being worked on.
  lemma UnderWay() returns (h: History)
    ensures Valid(h) && Exec(h) == Under(RUNNING, LeasedTo(Found(10), 0, 10), LeasedTo(Found(11), 0, 10))
    ensures SnapshotOf(2, LeasedTo(Found(10), 0, 10)) in HandedOut(h)
    ensures SnapshotOf(3, LeasedTo(Found(11), 0, 10)) in HandedOut(h)
  {
    hide Exec, HandedOut, Valid, TallyOf;
    h := Searched();
    var first := Claim(0, 0, 10, Some(2));
    Extend(h, first);
    h := h + [first];
    assert Exec(h) == Under(RUNNING, LeasedTo(Found(10), 0, 10), Found(11));
    var second := Claim(0, 0, 10, Some(3));
    Extend(h, second);
    h := h + [second];
  }

  // ---- while the run is being cancelled ----

  lemma CancelMoves(x: Task, y: Task, now: Instant)
    requires x.runId == y.runId == 0 && x.status == y.status == Leased
    ensures Apply(Under(RUNNING, x, y), Control(0, Cancel, now)) == Under(CANCELLING, x, y)
  {
    var db := Under(RUNNING, x, y);
    assert WithdrawnTasks(db.tasks, 0) == db.tasks;
    assert db.tasks[2].status == Leased;
    assert Has(db.tasks, 0, Leased);
  }

  // A failure of one task while the other is leased only moves its row.
  lemma FailMoves(run: Run, x: Task, y: Task, a: Action, first: bool)
    requires x.runId == y.runId == 0 && x.status == y.status == Leased && run.control != PauseControl
    requires a.Fail? && Fits(Under(run, x, y), a) && a.task.id == (if first then 2 else 3)
    requires Holds(Under(run, x, y), a.task.id, a.owner)
    ensures Apply(Under(run, x, y), a)
            == if first then Under(run, FailedTask(x, a.task, a.failure, a.now), y)
               else Under(run, x, FailedTask(y, a.task, a.failure, a.now))
  {
    var db := Under(run, x, y);
    var t := if first then 2 else 3;
    var tasks := db.tasks[t := FailedTask(db.tasks[t], a.task, a.failure, a.now)];
    var other := if first then 3 else 2;
    assert other in tasks && tasks[other].status == Leased && tasks[other].runId == 0;
    assert Has(tasks, 0, Leased);
    assert db.runs[0 := run] == db.runs;
  }

  lemma ClaimMoves(x: Task, y: Task, now: Instant)
    requires x.runId == y.runId == 0 && x.status == Leased && y.status == Pending && y.attempts < y.maxAttempts
    requires y.availableAt <= now && y.stage == CorroborateBusiness
    ensures WellFormed(Under(RUNNING, x, y)) && NextClaim(Under(RUNNING, x, y), now, 3)
    ensures Apply(Under(RUNNING, x, y), Claim(0, now, 10, Some(3))) == Under(RUNNING, x, LeasedTo(y, 0, now + 10))
  {
  }

  const X := LeasedTo(Found(10), 0, 10)
  const Y := LeasedTo(Found(11), 0, 10)

  // One task is retried while the other is still leased; then the other ends, committing or failing
  // for good. The run is Cancelled with the first task Pending.
  lemma EarlierRetry(commits: bool) returns (h: History)
    ensures Valid(h) && 0 in Exec(h).runs && Exec(h).runs[0].state == CancelledRun && UnderCancel(Exec(h), 0)
    ensures Has(Exec(h).tasks, 0, Pending)
    ensures h != [] && if commits then h[|h| - 1].Complete? else h[|h| - 1].Fail? && h[|h| - 1].failure == Permanent
  {
    hide Exec, HandedOut, Valid, TallyOf, Settle;
    h := UnderWay();
    var cancel := Control(0, Cancel, 0);
    Extend(h, cancel);
    CancelMoves(X, Y, 0);
    h := h + [cancel];
    var retry := Fail(SnapshotOf(2, X), 0, Transient, 0);
    FailMoves(CANCELLING, X, Y, retry, true);
    Extend(h, retry);
    h := h + [retry];
    var waiting := FailedTask(X, SnapshotOf(2, X), Transient, 0);
    assert Exec(h) == Under(CANCELLING, waiting, Y);
    var end := if commits then Complete(SnapshotOf(3, Y), 0, Checkpoint([], false), [], 0)
               else Fail(SnapshotOf(3, Y), 0, Permanent, 0);
    LastMove(waiting, end);
    Extend(h, end);
    h := h + [end];
  }

  lemma LastMove(waiting: Task, end: Action)
    requires waiting.runId == 0 && waiting.status == Pending
    requires end == Complete(SnapshotOf(3, Y), 0, Checkpoint([], false), [], 0)
             || end == Fail(SnapshotOf(3, Y), 0, Permanent, 0)
    ensures var after := Apply(Under(CANCELLING, waiting, Y), end);
            && 0 in after.runs && after.runs[0].state == CancelledRun && UnderCancel(after, 0)
            && Has(after.tasks, 0, Pending)
  {
    hide TallyOf;
    var after := Apply(Under(CANCELLING, waiting, Y), end);
    assert Fits(Under(CANCELLING, waiting, Y), end);
    assert after.tasks[2] == waiting;
    NoLeaseLeft(after.tasks, 2);
  }

  lemma NoLeaseLeft(tasks: map<TaskId, Task>, t: TaskId)
    requires t in tasks && tasks[t].runId == 0 && tasks[t].status == Pending
    requires forall u :: u in tasks ==> tasks[u].status != Leased
    ensures TallyOf(tasks, 0).any && !TallyOf(tasks, 0).leased && Has(tasks, 0, Pending)
  {
  }

  // Nothing fails after the request: one recover finds both leases lapsed, one task with its attempts
  // used up and one without. The run is Cancelled with the other task Pending.
  lemma RecoverAlone() returns (h: History)
    ensures Valid(h) && 0 in Exec(h).runs && Exec(h).runs[0].state == CancelledRun && UnderCancel(Exec(h), 0)
    ensures Has(Exec(h).tasks, 0, Pending)
    ensures |h| >= 2 && h[|h| - 2] == Control(0, Cancel, 500) && h[|h| - 1].Recover?
  {
    hide Exec, HandedOut, Valid, TallyOf, Settle, Recovered;
    h := UnderWay();
    var y := Y;
    h, y := Again(h, y, 0);
    h, y := Again(h, y, 250);
    assert y.attempts == 3 && y.leaseExpiresAt == Some(510);
    var cancel := Control(0, Cancel, 500);
    Extend(h, cancel);
    CancelMoves(X, y, 500);
    h := h + [cancel];
    var recover := Recover(510, map[0 := CorroborateBusiness]);
    BothLapse(y);
    Extend(h, recover);
    h := h + [recover];
  }

  // The second task fails transiently and is claimed again as soon as it is due.
  lemma Again(h: History, y: Task, now: Instant) returns (later: History, z: Task)
    requires Valid(h) && Exec(h) == Under(RUNNING, X, y) && SnapshotOf(3, y) in HandedOut(h)
    requires y.runId == 0 && y.stage == CorroborateBusiness && y.status == Leased && y.owner == Some(0)
    requires y.attempts < y.maxAttempts
    ensures Valid(later) && Exec(later) == Under(RUNNING, X, z) && SnapshotOf(3, z) in HandedOut(later)
    ensures z == y.(attempts := y.attempts + 1, leaseExpiresAt := Some(now + 260), availableAt := now + 250,
                   failure := Some(Transient))
  {
    hide Exec, HandedOut, Valid, TallyOf, Settle;
    var retry := Fail(SnapshotOf(3, y), 0, Transient, now);
    FailMoves(RUNNING, X, y, retry, false);
    Extend(h, retry);
    later := h + [retry];
    var failed := FailedTask(y, SnapshotOf(3, y), Transient, now);
    ClaimMoves(X, failed, now + 250);
    Extend(later, Claim(0, now + 250, 10, Some(3)));
    later := later + [Claim(0, now + 250, 10, Some(3))];
    z := LeasedTo(failed, 0, now + 260);
  }

  predicate UsedUp(y: Task) {
    && y.runId == 0 && y.stage == CorroborateBusiness && y.status == Leased && y.attempts == y.maxAttempts == 3
    && y.leaseExpiresAt == Some(510)
  }

  lemma BothLapse(y: Task)
    requires UsedUp(y)
    ensures ExhaustedStages(Under(CANCELLING, X, y).tasks, 510, map[0 := CorroborateBusiness])
    ensures var after := Apply(Under(CANCELLING, X, y), Recover(510, map[0 := CorroborateBusiness]));
            && 0 in after.runs && after.runs[0].state == CancelledRun && UnderCancel(after, 0)
            && Has(after.tasks, 0, Pending)
  {
    hide TallyOf, RecoveredTask, Apply;
    OneExhausted(y);
    OneReturned(y);
    SettledByLapse(TallyOf(RecoveredTasks(Under(CANCELLING, X, y).tasks, 510), 0));
    LapseMoves(Under(CANCELLING, X, y), map[0 := CorroborateBusiness]);
  }

  lemma LapseMoves(db: Tables, stages: map<RunId, Stage>)
    requires WellFormed(db) && 0 in db.runs && 2 in db.tasks && db.tasks[2].runId == 0
    requires ExhaustedStages(db.tasks, 510, stages) && 0 in stages
    requires RecoveredTasks(db.tasks, 510)[2].status == Pending
    requires var k := TallyOf(RecoveredTasks(db.tasks, 510), 0);
             var run := RecoveredRun(db.runs[0], k, Some(stages[0]));
             AfterExhaustion(db.runs[0], k, Some(stages[0])).state == CancelledRun
             && run.state == CancelledRun && run.control == CancelControl
    ensures var after := Apply(db, Recover(510, stages));
            && 0 in after.runs && after.runs[0].state == CancelledRun && UnderCancel(after, 0)
            && Has(after.tasks, 0, Pending)
  {
    hide TallyOf, RecoveredTask, AfterExhaustion, RecoveredRun;
    RecoveredKeys(db, 510, stages);
    RecoveredRow(db, 510, stages, 2);
    assert Apply(db, Recover(510, stages)).tasks[2].status == Pending;
  }

  lemma OneExhausted(y: Task)
    requires UsedUp(y)
    ensures ExhaustedStages(Under(CANCELLING, X, y).tasks, 510, map[0 := CorroborateBusiness])
  {
    assert Exhausts(Under(CANCELLING, X, y).tasks[3], 510);
  }

  lemma OneReturned(y: Task)
    requires UsedUp(y)
    ensures var tasks := RecoveredTasks(Under(CANCELLING, X, y).tasks, 510);
            tasks[2].status == Pending && TallyOf(tasks, 0).any && !TallyOf(tasks, 0).leased
  {
    var tasks := RecoveredTasks(Under(CANCELLING, X, y).tasks, 510);
    assert forall t :: t in tasks ==> tasks[t].status != Leased;
    assert tasks[2].runId == 0;
  }

  lemma SettledByLapse(k: Tally)
    requires k.any && !k.leased
    ensures AfterExhaustion(CANCELLING, k, Some(CorroborateBusiness)).state == CancelledRun
    ensures RecoveredRun(CANCELLING, k, Some(CorroborateBusiness)).state == CancelledRun
    ensures RecoveredRun(CANCELLING, k, Some(CorroborateBusiness)).control == CancelControl
  {
  }
}
