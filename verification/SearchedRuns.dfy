// A searched run from end to end: what its attempts at the search can find bounds the tasks and the
// claims of the whole run.

module SearchedRuns {
  import opened Wrappers
  import opened RunTables
  import opened Histories
  import opened QueueTheorems
  import opened StageGraph
  import opened Budget
  import Discovery
  import D = DiscoveryAttempts
  import B = DiscoverBusinesses

  function NothingFound(metrics: map<RunId, Discovery.Metrics>): Discovery.DiscoveryTables {
    Discovery.DiscoveryTables([], [], metrics)
  }

  ghost predicate Unused(metrics: map<RunId, Discovery.Metrics>) {
    forall s :: s in metrics ==> metrics[s] == Discovery.Metrics(0, 0, 0)
  }

  // The run fans out by its search alone, and each such commit lists the progress at some point of
  // the search, when no attempt had begun without a claim of that task.
  ghost predicate FansOutSearch(h: History, s: D.Search, db: Discovery.DiscoveryTables, moves: seq<D.Move>) {
    forall i :: 0 <= i < |h| && h[i].Complete? && h[i].task.runId == s.runId && FansOut(h[i].task.stage) ==>
      h[i].task.stage == DiscoverBusinesses && exists n: nat :: ListsProgress(h, i, s, db, moves, n)
  }

  ghost predicate ListsProgress(h: History, i: nat, s: D.Search, db: Discovery.DiscoveryTables, moves: seq<D.Move>, n: nat)
    requires i < |h| && h[i].Complete?
  {
    && n <= |moves|
    && var world := D.Play(s, D.World(db, []), moves[..n]);
       && h[i].cp.next == ForEachBusiness(Discovery.Progress(world.db.businesses, s.runId))
       && |world.attempts| <= Claims(h[..i], h[i].task.id)
  }

  lemma {:induction false} HappensPrefix(s: D.Search, world: D.World, moves: seq<D.Move>, n: nat)
    requires D.Happens(s, world, moves) && n <= |moves|
    ensures D.Happens(s, world, moves[..n])
    decreases |moves|
  {
    if n < |moves| {
      assert moves[..|moves| - 1][..n] == moves[..n];
      HappensPrefix(s, world, moves[..|moves| - 1], n);
    } else {
      assert moves[..n] == moves;
    }
  }

  // Three claims begin three attempts at most, and each goes less than forty past the target.
  function MostFound(s: D.Search): nat {
    var byTarget, byPlan := s.target + 119, 40 * |s.plan|;
    if byTarget <= byPlan then byTarget else byPlan
  }

  lemma SearchFinds(s: D.Search, metrics: map<RunId, Discovery.Metrics>, moves: seq<D.Move>)
    requires Unused(metrics) && D.Happens(s, D.World(NothingFound(metrics), []), moves)
    requires |D.Play(s, D.World(NothingFound(metrics), []), moves).attempts| <= 3
    ensures D.Size(s, D.Play(s, D.World(NothingFound(metrics), []), moves).db) <= MostFound(s)
  {
    hide D.Play, D.Happens, Discovery.Progress, Discovery.RecordAll;
    var db := NothingFound(metrics);
    NothingHeld(metrics, s);
    D.OverlapBound(s, db, moves);
    D.ReportsTell(s, db, moves);
    B.FanOutIsBounded(s.naming, metrics, D.Reports(s, D.World(db, []), moves), s.runId, s.plan);
  }

  lemma NothingHeld(metrics: map<RunId, Discovery.Metrics>, s: D.Search)
    requires Unused(metrics)
    ensures Discovery.Conserved(NothingFound(metrics), s.runId) && D.Size(s, NothingFound(metrics)) == 0
  {
  }

  lemma ClaimsAreFew(h: History, i: nat, t: TaskId)
    requires Valid(h) && i <= |h|
    ensures Claims(h[..i], t) <= 3
  {
    hide Valid, Claims, Exec;
    ValidPrefix(h, i);
    AttemptsAreClaims(h[..i], t);
  }

  lemma ListedIsCapped(h: History, i: nat, s: D.Search, metrics: map<RunId, Discovery.Metrics>, moves: seq<D.Move>)
    requires Valid(h) && i < |h| && h[i].Complete? && h[i].task.runId == s.runId && FansOut(h[i].task.stage)
    requires Unused(metrics) && D.Happens(s, D.World(NothingFound(metrics), []), moves)
    requires FansOutSearch(h, s, NothingFound(metrics), moves)
    ensures |h[i].cp.next| <= MostFound(s)
  {
    hide D.Play, D.Happens, Discovery.Progress, Valid, Claims, MostFound;
    var n: nat :| ListsProgress(h, i, s, NothingFound(metrics), moves, n);
    HappensPrefix(s, D.World(NothingFound(metrics), []), moves, n);
    ClaimsAreFew(h, i, h[i].task.id);
    SearchFinds(s, metrics, moves[..n]);
  }

  // Under any failures, recoveries and control, with stale attempts recording beside current ones: a
  // searched run has no more tasks and claims than its target and its plan allow.
  lemma SearchedRunIsBounded(h: History, s: D.Search, metrics: map<RunId, Discovery.Metrics>, moves: seq<D.Move>)
    requires Valid(h) && forall i :: 0 <= i < |h| ==> FollowsIn(h[i], Some(s.runId), PerBusiness)
    requires Unused(metrics) && D.Happens(s, D.World(NothingFound(metrics), []), moves)
    requires FansOutSearch(h, s, NothingFound(metrics), moves)
    ensures |TasksOf(Exec(h), s.runId)| <= 2 + 7 * MostFound(s)
    ensures ClaimsOfRun(h, s.runId) <= 3 * (2 + 7 * MostFound(s))
  {
    hide Exec, Valid, Execute, MostFound, FansOutSearch, D.Happens;
    forall i | 0 <= i < |h|
      ensures FollowsIn(h[i], Some(s.runId), Capped(MostFound(s)))
    {
      if h[i].Complete? && h[i].task.runId == s.runId && FansOut(h[i].task.stage) {
        ListedIsCapped(h, i, s, metrics, moves);
      }
    }
    RunIsBoundedByCap(h, s.runId, MostFound(s));
  }

  // So no searched run has more than 1122 tasks, nor a quick one more than 562.
  lemma SearchesAreSmall(h: History, s: D.Search, metrics: map<RunId, Discovery.Metrics>, moves: seq<D.Move>,
                         variations: seq<string>, thorough: bool)
    requires Valid(h) && forall i :: 0 <= i < |h| ==> FollowsIn(h[i], Some(s.runId), PerBusiness)
    requires Unused(metrics) && D.Happens(s, D.World(NothingFound(metrics), []), moves)
    requires FansOutSearch(h, s, NothingFound(metrics), moves)
    requires s.plan == B.PlanQueries(variations, thorough)
    ensures |TasksOf(Exec(h), s.runId)| <= if thorough then 1122 else 562
  {
    hide Exec, Valid, FollowsIn, FansOutSearch, D.Happens, Unused;
    SearchedRunIsBounded(h, s, metrics, moves);
  }
}
