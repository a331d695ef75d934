// Runs of the whole system: any sequence of transactions by any number of workers and by the web
// process, at any clock readings. A worker completes or fails only what some claim handed out, but
// may do so long after its lease was lost.

module Histories {
  import opened Wrappers
  import opened RunTables
  import opened Settlement
  import opened Transactions
  import opened RunInvariant

  datatype Action =
    | Create(r: RunId, root: TaskId, targetCount: int, reassessment: bool, now: Instant)
    | Claim(owner: Owner, now: Instant, lease: int, picked: Option<TaskId>)
    | Renew(task: RunTask, owner: Owner, now: Instant, lease: int)
    | Complete(task: RunTask, owner: Owner, cp: Checkpoint, ids: seq<TaskId>, now: Instant)
    | Fail(task: RunTask, owner: Owner, failure: Classification, now: Instant)
    | Recover(now: Instant, stages: map<RunId, Stage>)
    | Control(r: RunId, request: Request, now: Instant)
    | Score(r: RunId, qualified: int)

  ghost predicate Fits(db: Tables, a: Action) {
    && WellFormed(db)
    && match a
       case Create(r, root, _, _, _) => r !in db.runs && root !in db.tasks
       case Claim(_, now, _, None) => forall t :: !Claimable(db, t, now)
       case Claim(_, now, _, Some(t)) => NextClaim(db, now, t)
       case Renew(task, _, _, _) => SnapshotAgrees(db, task)
       case Complete(task, _, cp, ids, _) =>
         SnapshotAgrees(db, task) && |ids| == |cp.next| && FreshIds(db.tasks, ids)
       case Fail(task, _, _, _) => SnapshotAgrees(db, task)
       case Recover(now, stages) => ExhaustedStages(db.tasks, now, stages)
       case Control(_, _, _) => true
       case Score(_, _) => true
  }

  ghost function Apply(db: Tables, a: Action): Tables {
    if !Fits(db, a) then db
    else
      match a
      case Create(r, root, targetCount, reassessment, now) => Created(db, r, root, targetCount, reassessment, now)
      case Claim(_, _, _, None) => db
      case Claim(owner, now, lease, Some(t)) => Claimed(db, t, owner, now, lease)
      case Renew(task, owner, now, lease) => Renewed(db, task, owner, now, lease)
      case Complete(task, owner, cp, ids, now) => Committed(db, task, owner, cp, ids, now)
      case Fail(task, owner, failure, now) => Failed(db, task, owner, failure, now)
      case Recover(now, stages) => Recovered(db, now, stages)
      case Control(r, request, now) => Requested(db, r, request, now)
      case Score(r, qualified) => Scored(db, r, qualified)
  }

  type History = seq<Action>

  ghost function Exec(h: History): Tables {
    if h == [] then Tables(map[], map[]) else Apply(Exec(h[..|h| - 1]), h[|h| - 1])
  }

  // The snapshots claims have handed to workers so far.
  ghost function HandedOut(h: History): set<RunTask> {
    if h == [] then {}
    else
      var earlier := HandedOut(h[..|h| - 1]);
      match h[|h| - 1]
      case Claim(_, _, _, Some(t)) =>
        if t in Exec(h).tasks then earlier + {SnapshotOf(t, Exec(h).tasks[t])} else earlier
      case _ => earlier
  }

  // What the environment owes: fresh identifiers, the row the claim query picks, and a snapshot
  // that really came from a claim.
  ghost predicate Enabled(db: Tables, handedOut: set<RunTask>, a: Action) {
    match a
    case Create(r, root, _, _, _) => r !in db.runs && root !in db.tasks
    case Claim(_, now, _, None) => WellFormed(db) && forall t :: !Claimable(db, t, now)
    case Claim(_, now, _, Some(t)) => WellFormed(db) && NextClaim(db, now, t)
    case Renew(task, _, _, _) => task in handedOut
    case Complete(task, _, cp, ids, _) => task in handedOut && |ids| == |cp.next| && FreshIds(db.tasks, ids)
    case Fail(task, _, _, _) => task in handedOut
    case Recover(now, stages) => ExhaustedStages(db.tasks, now, stages)
    case Control(_, _, _) => true
    case Score(_, _) => true
  }

  ghost predicate Valid(h: History) {
    h == [] || (Valid(h[..|h| - 1]) && Enabled(Exec(h[..|h| - 1]), HandedOut(h[..|h| - 1]), h[|h| - 1]))
  }

  // ---- one step ----

  lemma StepKeeps(db: Tables, a: Action)
    requires Invariant(db)
    ensures Invariant(Apply(db, a))
  {
    hide Invariant, Created, Claimed, Renewed, Committed, Failed, Recovered, Requested, Scored;
    if Fits(db, a) {
      match a
      case Create(r, root, targetCount, reassessment, now) => CreateKeeps(db, r, root, targetCount, reassessment, now);
      case Claim(_, _, _, None) =>
      case Claim(owner, now, lease, Some(t)) => ClaimKeeps(db, t, owner, now, lease);
      case Renew(task, owner, now, lease) => RenewKeeps(db, task, owner, now, lease);
      case Complete(task, owner, cp, ids, now) => CommitKeeps(db, task, owner, cp, ids, now);
      case Fail(task, owner, failure, now) => FailKeeps(db, task, owner, failure, now);
      case Recover(now, stages) => RecoverKeeps(db, now, stages);
      case Control(r, request, now) => RequestKeeps(db, r, request, now);
      case Score(r, qualified) => ScoreKeeps(db, r, qualified);
    }
  }

  predicate SameColumns(before: Task, after: Task) {
    && after.runId == before.runId && after.business == before.business && after.stage == before.stage
    && after.input == before.input && after.maxAttempts == before.maxAttempts && after.createdAt == before.createdAt
  }

  // Everything one step can do to an existing row.
  predicate RowMoves(t: TaskId, before: Task, after: Task, a: Action) {
    || after == before
    || (a.Claim? && a.picked == Some(t) && before.status == Pending
        && before.attempts < before.maxAttempts && after == LeasedTo(before, a.owner, a.now + a.lease))
    || (before.status == Leased && a.Renew? && a.task.id == t && before.owner == Some(a.owner)
        && after == before.(leaseExpiresAt := Some(a.now + a.lease)))
    || (before.status == Leased && a.Complete? && a.task.id == t && before.owner == Some(a.owner)
        && after == CommittedTask(before))
    || (before.status == Leased && a.Fail? && a.task.id == t && before.owner == Some(a.owner)
        && after == FailedTask(before, a.task, a.failure, a.now))
    || (a.Recover? && (after == RecoveredTask(before, a.now) || after == CancelOpen(RecoveredTask(before, a.now))))
    || (a.Control? && before.runId == a.r
        && (after == CancelOpen(before) || after == UnblockedTask(before, a.r, a.now)))
  }

  lemma StepRow(db: Tables, a: Action, t: TaskId)
    requires t in db.tasks
    ensures t in Apply(db, a).tasks
    ensures RowMoves(t, db.tasks[t], Apply(db, a).tasks[t], a)
    ensures SameColumns(db.tasks[t], Apply(db, a).tasks[t])
  {
    hide Recovered, TasksAfterCommit;
    if Fits(db, a) {
      match a
      case Complete(task, _, cp, ids, now) => CommitRows(db, task, cp, ids, now);
      case Recover(now, stages) => RecoveredRow(db, now, stages, t);
      case _ =>
    }
  }

  // A row appears only as a new run's root or as a successor inserted by the commit of a held task
  // of the same run, and never while that run is being cancelled.
  lemma StepBirth(db: Tables, a: Action, t: TaskId)
    requires t !in db.tasks && t in Apply(db, a).tasks
    ensures Fits(db, a)
    ensures var row := Apply(db, a).tasks[t];
            && row.status == Pending && row.attempts == 0 && row.maxAttempts == MAX_ATTEMPTS
            && row.owner == None && row.leaseExpiresAt == None
            && ((a.Create? && a.root == t && row.stage == RunPlanning && row.runId == a.r && a.r !in db.runs)
                || (a.Complete? && Holds(db, a.task.id, a.owner) && row.runId == a.task.runId
                    && db.runs[a.task.runId].control != CancelControl
                    && exists i :: 0 <= i < |a.ids| && t == a.ids[i] && row == FreshTask(a.task.runId, a.cp.next[i], a.now)))
  {
    hide TallyOf, Settle;
    assert Fits(db, a);
    match a
    case Complete(task, _, cp, ids, now) => CommitRows(db, task, cp, ids, now);
    case Recover(now, stages) => RecoveredKeys(db, now, stages);
    case _ =>
  }

  lemma NothingYet()
    ensures Invariant(Tables(map[], map[]))
  {
  }

  // ---- every history ----

  // The invariant holds in every reachable state, and a snapshot stays true to its row for good.
  lemma {:induction false} Reachable(h: History)
    requires Valid(h)
    ensures Invariant(Exec(h))
    ensures forall task :: task in HandedOut(h) ==> SnapshotAgrees(Exec(h), task)
  {
    hide Invariant, Apply, Enabled;
    if h == [] {
      NothingYet();
    } else {
      var db := Exec(h[..|h| - 1]);
      var a := h[|h| - 1];
      Reachable(h[..|h| - 1]);
      StepKeeps(db, a);
      forall task | task in HandedOut(h)
        ensures SnapshotAgrees(Exec(h), task)
      {
        if task in HandedOut(h[..|h| - 1]) {
          StepRow(db, a, task.id);
          StepAttempts(db, a, task.id);
        }
      }
    }
  }

  lemma StepAttempts(db: Tables, a: Action, t: TaskId)
    requires t in db.tasks
    ensures t in Apply(db, a).tasks
    ensures Apply(db, a).tasks[t].attempts
            == db.tasks[t].attempts + (if Fits(db, a) && a.Claim? && a.picked == Some(t) then 1 else 0)
  {
    hide Recovered, TasksAfterCommit, Claimable;
    StepRow(db, a, t);
  }
}
