// One worker slot draining the queue: recover, then claim, execute and settle until a claim finds
// nothing. The budget of claims left is what makes the endless loop end.

module Worker {
  import opened Wrappers
  import opened RunTables
  import opened Settlement
  import opened Transactions
  import opened RunStore
  import opened RunInvariant
  import opened Histories
  import opened StageGraph
  import opened Budget
  import opened QueueLaws

  // Identifiers no row uses yet.
  method UnusedIds(repository: RunTaskRepository, n: nat) returns (ids: seq<TaskId>)
    ensures |ids| == n && FreshIds(repository.tasks, ids)
  {
    var above: nat := 0;
    var rest := repository.tasks.Keys;
    while rest != {}
      invariant forall t :: t in repository.tasks && t !in rest ==> t < above
      decreases rest
    {
      var t :| t in rest;
      rest := rest - {t};
      if t >= above { above := t + 1; }
    }
    ids := seq(n, i requires 0 <= i < n => above + i);
  }

  // ---- what a slot does ----

  ghost function After(db: Tables, h: History): Tables {
    if h == [] then db else Apply(After(db, h[..|h| - 1]), h[|h| - 1])
  }

  // A slot as it was started: its owner, its lease, its clock, and what the services will find.
  datatype Slot = Slot(owner: Owner, lease: int, clock: nat -> Instant, work: (nat, RunTask) -> Findings)

  // What the worker hands back of a claimed task: the checkpoint its stage returned, or the
  // classification of the error it raised.
  ghost predicate HandsBack(slot: Slot, task: RunTask, i: nat, a: Action)
    requires i > 0
  {
    var found := slot.work(i - 1, task);
    match Execute(task, found)
    case Returned(cp) => a.Complete? && a.task == task && a.owner == slot.owner && a.cp == cp && a.now == slot.clock(i)
    case Raised(classification) => a == Fail(task, slot.owner, classification, slot.clock(i))
  }

  // The i-th thing the slot does, in these tables: recover first, then claim and hand back in turn,
  // until a claim finds nothing.
  ghost predicate Does(slot: Slot, db: Tables, earlier: History, a: Action) {
    var i := |earlier|;
    && Fits(db, a)
    && if i == 0 then a.Recover? && a.now == slot.clock(0)
       else match earlier[i - 1]
            case Claim(_, _, _, Some(t)) => t in db.tasks && HandsBack(slot, SnapshotOf(t, db.tasks[t]), i, a)
            case Claim(_, _, _, None) => false
            case _ => a.Claim? && a.owner == slot.owner && a.now == slot.clock(i) && a.lease == slot.lease
  }

  ghost predicate Works(slot: Slot, db: Tables, h: History) {
    h == [] || (Works(slot, db, h[..|h| - 1]) && Does(slot, After(db, h[..|h| - 1]), h[..|h| - 1], h[|h| - 1]))
  }

  lemma WorksOn(slot: Slot, db: Tables, h: History, a: Action)
    requires Works(slot, db, h) && Does(slot, After(db, h), h, a)
    ensures Works(slot, db, h + [a]) && After(db, h + [a]) == Apply(After(db, h), a)
  {
    hide Does, Apply;
    assert (h + [a])[..|h|] == h;
  }

  method ExecuteClaimedTask(repository: RunTaskRepository, slot: Slot, task: RunTask, i: nat, ghost cap: nat)
    returns (ghost done: Action)
    requires Invariant(repository.Contents()) && i > 0
    requires task.id in repository.tasks && task == SnapshotOf(task.id, repository.tasks[task.id])
    requires forall i, task :: |slot.work(i, task).businesses| <= cap
    modifies repository
    ensures Invariant(repository.Contents())
    ensures HandsBack(slot, task, i, done) && Fits(old(repository.Contents()), done)
    ensures repository.Contents() == Apply(old(repository.Contents()), done)
    ensures ClaimsLeft(repository.Contents(), cap) <= old(ClaimsLeft(repository.Contents(), cap))
  {
    hide TallyOf, ClaimsLeft, Execute, Committed, Failed, RunAgrees, TaskAgrees;
    ghost var leased := repository.Contents();
    var execution := Execute(task, slot.work(i - 1, task));
    match execution {
      case Returned(cp) =>
        var ids := UnusedIds(repository, |cp.next|);
        var ok := repository.Complete(task, slot.owner, cp, ids, slot.clock(i));
        CompleteStep(leased, task, slot.owner, cp, ids, slot.clock(i), slot.work(i - 1, task), cap);
        done := Complete(task, slot.owner, cp, ids, slot.clock(i));
      case Raised(classification) =>
        var ok := repository.Fail(task, slot.owner, classification, slot.clock(i));
        FailStep(leased, task, slot.owner, classification, slot.clock(i), cap);
        done := Fail(task, slot.owner, classification, slot.clock(i));
    }
  }

  // `clock` gives the successive clock readings and `work` what the services find for each claimed
  // task; a lease lost while working surfaces as a Transient failure.
  method RunWorkerCycle(repository: RunTaskRepository, slot: Slot, ghost cap: nat)
    returns (claimed: nat, ghost trace: History)
    requires Invariant(repository.Contents())
    requires forall i, task :: |slot.work(i, task).businesses| <= cap
    modifies repository
    ensures Invariant(repository.Contents())
    ensures repository.Contents() == After(old(repository.Contents()), trace)
    ensures Works(slot, old(repository.Contents()), trace)
    ensures trace != [] && Over(trace[|trace| - 1]) && |trace| == 2 * claimed + 2
    ensures claimed <= old(ClaimsLeft(repository.Contents(), cap)) - ClaimsLeft(repository.Contents(), cap)
  {
    hide TallyOf, Fits, Apply, ClaimsLeft, Execute, Recovered, Claimed, RunAgrees, TaskAgrees, Works, After, HandsBack, Over;
    ghost var start := repository.Contents();
    var recovered, stages := repository.Recover(slot.clock(0));
    RecoverStep(start, slot.clock(0), stages, cap);
    Recovers(slot, start, stages);
    trace := [Recover(slot.clock(0), stages)];
    claimed := 0;
    while true
      invariant Invariant(repository.Contents())
      invariant repository.Contents() == After(start, trace) && Works(slot, start, trace)
      invariant |trace| == 2 * claimed + 1 && !trace[|trace| - 1].Claim?
      invariant claimed <= ClaimsLeft(start, cap) - ClaimsLeft(repository.Contents(), cap)
      decreases ClaimsLeft(repository.Contents(), cap)
    {
      var tick := 2 * claimed + 1;
      ghost var before := repository.Contents();
      LeftOver(before, cap);
      var claim := repository.ClaimNext(slot.owner, slot.clock(tick), slot.lease);
      if claim.None? {
        FindsNothing(slot, start, trace);
        trace := trace + [Claim(slot.owner, slot.clock(tick), slot.lease, None)];
        return;
      }
      var task := claim.value;
      claimed := claimed + 1;
      ClaimStep(before, task.id, slot.owner, slot.clock(tick), slot.lease, cap);
      Claims(slot, start, trace, task.id);
      trace := trace + [Claim(slot.owner, slot.clock(tick), slot.lease, Some(task.id))];
      ghost var done := ExecuteClaimedTask(repository, slot, task, tick + 1, cap);
      Hands(slot, start, trace, task, done);
      trace := trace + [done];
    }
  }

  ghost predicate Over(a: Action) { a.Claim? && a.picked.None? }

  lemma Recovers(slot: Slot, db: Tables, stages: map<RunId, Stage>)
    requires Invariant(db) && ExhaustedStages(db.tasks, slot.clock(0), stages)
    ensures var h := [Recover(slot.clock(0), stages)];
            Works(slot, db, h) && After(db, h) == Recovered(db, slot.clock(0), stages)
  {
    hide Recovered, ExhaustedStages, RunAgrees, TaskAgrees;
    var none: History := [];
    assert none + [Recover(slot.clock(0), stages)] == [Recover(slot.clock(0), stages)];
    WorksOn(slot, db, none, Recover(slot.clock(0), stages));
  }

  lemma FindsNothing(slot: Slot, db: Tables, h: History)
    requires Works(slot, db, h) && h != [] && !h[|h| - 1].Claim? && Invariant(After(db, h))
    requires forall t :: !Claimable(After(db, h), t, slot.clock(|h|))
    ensures var a := Claim(slot.owner, slot.clock(|h|), slot.lease, None);
            Works(slot, db, h + [a]) && After(db, h + [a]) == After(db, h) && Over(a)
  {
    hide Works, After, RunAgrees, TaskAgrees, Claimable;
    WorksOn(slot, db, h, Claim(slot.owner, slot.clock(|h|), slot.lease, None));
  }

  lemma Claims(slot: Slot, db: Tables, h: History, t: TaskId)
    requires Works(slot, db, h) && h != [] && !h[|h| - 1].Claim? && Invariant(After(db, h))
    requires NextClaim(After(db, h), slot.clock(|h|), t)
    ensures var a := Claim(slot.owner, slot.clock(|h|), slot.lease, Some(t));
            && Works(slot, db, h + [a])
            && After(db, h + [a]) == Claimed(After(db, h), t, slot.owner, slot.clock(|h|), slot.lease)
  {
    hide Works, After, RunAgrees, TaskAgrees, NextClaim, Claimed;
    WorksOn(slot, db, h, Claim(slot.owner, slot.clock(|h|), slot.lease, Some(t)));
  }

  lemma Hands(slot: Slot, db: Tables, h: History, task: RunTask, a: Action)
    requires Works(slot, db, h) && h != [] && Fits(After(db, h), a)
    requires h[|h| - 1].Claim? && h[|h| - 1].picked == Some(task.id)
    requires task.id in After(db, h).tasks && task == SnapshotOf(task.id, After(db, h).tasks[task.id])
    requires HandsBack(slot, task, |h|, a)
    ensures Works(slot, db, h + [a]) && After(db, h + [a]) == Apply(After(db, h), a) && !a.Claim?
  {
    hide Works, After, Apply, Fits, Execute;
    WorksOn(slot, db, h, a);
  }

  lemma LeftOver(db: Tables, cap: nat)
    requires Invariant(db)
    ensures 0 <= ClaimsLeft(db, cap)
  {
    ClaimsLeftPositive(db, cap);
  }

  lemma RecoverStep(db: Tables, now: Instant, stages: map<RunId, Stage>, cap: nat)
    requires Invariant(db) && ExhaustedStages(db.tasks, now, stages)
    ensures Invariant(Recovered(db, now, stages))
    ensures ClaimsLeft(Recovered(db, now, stages), cap) <= ClaimsLeft(db, cap)
  {
    hide ClaimsLeft, Recovered, TallyOf;
    ClaimsLeftStep(db, Recover(now, stages), cap);
    StepKeeps(db, Recover(now, stages));
  }

  lemma ClaimStep(db: Tables, t: TaskId, owner: Owner, now: Instant, lease: int, cap: nat)
    requires Invariant(db) && NextClaim(db, now, t)
    ensures Invariant(Claimed(db, t, owner, now, lease))
    ensures ClaimsLeft(Claimed(db, t, owner, now, lease), cap) < ClaimsLeft(db, cap)
  {
    hide ClaimsLeft, Claimed, TallyOf;
    ClaimsLeftStep(db, Claim(owner, now, lease, Some(t)), cap);
    StepKeeps(db, Claim(owner, now, lease, Some(t)));
  }

  lemma CompleteStep(db: Tables, task: RunTask, owner: Owner, cp: Checkpoint, ids: seq<TaskId>, now: Instant,
                     found: Findings, cap: nat)
    requires Invariant(db) && SnapshotAgrees(db, task) && |ids| == |cp.next| && FreshIds(db.tasks, ids)
    requires Execute(task, found) == Returned(cp) && |found.businesses| <= cap
    ensures Invariant(Committed(db, task, owner, cp, ids, now))
    ensures ClaimsLeft(Committed(db, task, owner, cp, ids, now), cap) <= ClaimsLeft(db, cap)
  {
    hide ClaimsLeft, Committed, TallyOf;
    ClaimsLeftStep(db, Complete(task, owner, cp, ids, now), cap);
    StepKeeps(db, Complete(task, owner, cp, ids, now));
  }

  lemma FailStep(db: Tables, task: RunTask, owner: Owner, failure: Classification, now: Instant, cap: nat)
    requires Invariant(db) && SnapshotAgrees(db, task)
    ensures Invariant(Failed(db, task, owner, failure, now))
    ensures ClaimsLeft(Failed(db, task, owner, failure, now), cap) <= ClaimsLeft(db, cap)
  {
    hide ClaimsLeft, Failed, TallyOf;
    ClaimsLeftStep(db, Fail(task, owner, failure, now), cap);
    StepKeeps(db, Fail(task, owner, failure, now));
  }

  // ---- what a slot leaves ----

  // Whatever is leased was leased before and has not run out, but for the task just claimed, which the
  // slot holds.
  ghost predicate LeasesAreOld(slot: Slot, db: Tables, after: Tables, last: Action) {
    && (forall t :: t in after.tasks && after.tasks[t].status == Leased && !(last.Claim? && last.picked == Some(t)) ==>
          t in db.tasks && after.tasks[t] == db.tasks[t] && !GivenUp(db.tasks[t], slot.clock(0)))
    && (last.Claim? && last.picked.Some? ==> Holds(after, last.picked.value, slot.owner))
  }

  lemma {:induction false} LeasesAreOldSoFar(slot: Slot, db: Tables, h: History)
    requires Invariant(db) && Works(slot, db, h) && h != []
    ensures Invariant(After(db, h)) && LeasesAreOld(slot, db, After(db, h), h[|h| - 1])
  {
    hide Apply, Invariant, Fits, LeasesAreOld, HandsBack;
    var before, a := h[..|h| - 1], h[|h| - 1];
    if before == [] {
      assert After(db, before) == db;
      StepKeeps(db, a);
      RecoverLeases(slot, db, a);
    } else {
      LeasesAreOldSoFar(slot, db, before);
      StepKeeps(After(db, before), a);
      NextLeases(slot, db, After(db, before), before, a);
    }
  }

  lemma RecoverLeases(slot: Slot, db: Tables, a: Action)
    requires Invariant(db) && Fits(db, a) && a.Recover? && a.now == slot.clock(0)
    ensures LeasesAreOld(slot, db, Apply(db, a), a)
  {
    hide Apply, Invariant, Fits, GivenUp;
    forall t | t in db.tasks
      ensures t in Apply(db, a).tasks && Apply(db, a).tasks.Keys == db.tasks.Keys
      ensures Apply(db, a).tasks[t].status == Leased ==>
                Apply(db, a).tasks[t] == db.tasks[t] && !GivenUp(db.tasks[t], slot.clock(0))
    {
      RecoverRowLaw(db, a, t);
    }
    if t :| t in Apply(db, a).tasks && t !in db.tasks { StepBirth(db, a, t); }
  }

  lemma NextLeases(slot: Slot, db: Tables, now: Tables, earlier: History, a: Action)
    requires earlier != [] && Does(slot, now, earlier, a) && LeasesAreOld(slot, db, now, earlier[|earlier| - 1])
    ensures LeasesAreOld(slot, db, Apply(now, a), a)
  {
    hide Apply, Fits, GivenUp, Execute;
    if a.Claim? {
      ClaimLaw(now, a);
    } else {
      forall t | t in Apply(now, a).tasks && Apply(now, a).tasks[t].status == Leased
        ensures t in now.tasks && t != a.task.id && Apply(now, a).tasks[t] == now.tasks[t]
      {
        HandingReleases(now, a, t);
      }
    }
  }

  lemma HandingReleases(db: Tables, a: Action, t: TaskId)
    requires (a.Complete? || a.Fail?) && Fits(db, a) && Holds(db, a.task.id, a.owner)
    requires t in Apply(db, a).tasks && Apply(db, a).tasks[t].status == Leased
    ensures t in db.tasks && t != a.task.id && Apply(db, a).tasks[t] == db.tasks[t]
  {
    hide Apply, Fits;
    if t !in db.tasks { StepBirth(db, a, t); }
    if a.Complete? { CompleteLaw(db, a); } else { FailLaw(db, a); }
  }

  // A slot working by itself ends with nothing left to claim, and every lease there is then is one it
  // found held by someone else: nothing it claimed is left leased.
  lemma SlotLeavesNothing(slot: Slot, db: Tables, h: History, last: Action)
    requires Invariant(db) && Works(slot, db, h) && h != [] && last == h[|h| - 1] && Over(last)
    ensures Invariant(After(db, h)) && forall t :: !Due(After(db, h), t, last.now)
    ensures forall t :: t in After(db, h).tasks && After(db, h).tasks[t].status == Leased ==>
              t in db.tasks && After(db, h).tasks[t] == db.tasks[t] && !GivenUp(db.tasks[t], slot.clock(0))
  {
    hide Apply, Invariant, Fits, GivenUp, HandsBack, Due;
    LeasesAreOldSoFar(slot, db, h);
    ClaimLaw(After(db, h[..|h| - 1]), last);
  }
}
