// Attempts at one search, in any interleaving. An attempt that lost its lease goes on recording, and
// none of them reads the shared progress again when it skips a query someone else completed.

module DiscoveryAttempts {
  import opened Wrappers
  import opened RunTables
  import opened Discovery
  import opened Sets
  import A = Attribution

  const MAX_CONSECUTIVE_EMPTY_REPORTS: nat := 2
  const MAX_BUSINESSES_PER_REPORT: nat := 40

  datatype Search = Search(naming: Naming, runId: RunId, plan: seq<string>, target: nat)

  // Between two queries, waiting for the report on one, or gone.
  datatype Phase = Looking(next: nat) | Asking(next: nat) | Ended

  // What an attempt carries in its loop: the progress it last read and its run of empty reports.
  datatype Attempt = Attempt(phase: Phase, seen: nat, empty: nat)

  datatype World = World(db: DiscoveryTables, attempts: seq<Attempt>)

  datatype Move =
    | Begin
    | Look(w: nat)
    | Hear(w: nat, businesses: seq<A.Business>, ids: seq<BusinessId>)
    | Stop(w: nat)

  function Size(s: Search, db: DiscoveryTables): nat { |Progress(db.businesses, s.runId)| }

  predicate Fits(s: Search, world: World, m: Move) {
    match m
    case Begin => true
    case Look(w) => w < |world.attempts| && world.attempts[w].phase.Looking?
    case Hear(w, businesses, ids) =>
      && w < |world.attempts| && world.attempts[w].phase.Asking? && world.attempts[w].phase.next < |s.plan|
      && |ids| == |businesses| <= MAX_BUSINESSES_PER_REPORT
    case Stop(w) => w < |world.attempts|
  }

  function Looked(s: Search, db: DiscoveryTables, a: Attempt): Attempt
    requires a.phase.Looking?
  {
    var next := a.phase.next;
    if next >= |s.plan| || a.seen >= s.target then a.(phase := Ended)
    else if Asked(db.queries, s.runId, s.plan[next]) then a.(phase := Looking(next + 1))
    else a.(phase := Asking(next))
  }

  function Heard(a: Attempt, recorded: Recorded): Attempt
    requires a.phase.Asking?
  {
    var empty := if recorded.uniqueAdded == 0 then a.empty + 1 else 0;
    Attempt(if empty >= MAX_CONSECUTIVE_EMPTY_REPORTS then Ended else Looking(a.phase.next + 1),
            |recorded.progress|, empty)
  }

  function ReportOn(s: Search, a: Attempt, m: Move): Report
    requires m.Hear? && a.phase.Asking? && a.phase.next < |s.plan|
  {
    Report(s.runId, s.plan[a.phase.next], m.businesses, m.ids)
  }

  function Step(s: Search, world: World, m: Move): World
    requires Fits(s, world, m)
  {
    match m
    case Begin => world.(attempts := world.attempts + [Attempt(Looking(0), Size(s, world.db), 0)])
    case Look(w) => world.(attempts := world.attempts[w := Looked(s, world.db, world.attempts[w])])
    case Hear(w, _, _) =>
      var report := ReportOn(s, world.attempts[w], m);
      World(Record(s.naming, world.db, report),
            world.attempts[w := Heard(world.attempts[w], RecordedBy(s.naming, world.db, report))])
    case Stop(w) => world.(attempts := world.attempts[w := world.attempts[w].(phase := Ended)])
  }

  function Play(s: Search, world: World, moves: seq<Move>): World {
    if moves == [] then world
    else
      var before := Play(s, world, moves[..|moves| - 1]);
      if Fits(s, before, moves[|moves| - 1]) then Step(s, before, moves[|moves| - 1]) else before
  }

  predicate Happens(s: Search, world: World, moves: seq<Move>) {
    moves == [] || (Happens(s, world, moves[..|moves| - 1])
                    && Fits(s, Play(s, world, moves[..|moves| - 1]), moves[|moves| - 1]))
  }

  lemma Plays(s: Search, world: World, moves: seq<Move>, m: Move)
    requires Happens(s, world, moves) && Fits(s, Play(s, world, moves), m)
    ensures Happens(s, world, moves + [m])
    ensures Play(s, world, moves + [m]) == Step(s, Play(s, world, moves), m)
  {
    hide Fits, Step;
    assert (moves + [m])[..|moves|] == moves;
  }

  // Recording adds no more businesses than the report names, and forgets no query.
  lemma RecordAdds(naming: Naming, db: DiscoveryTables, report: Report, earlier: seq<string>)
    requires |report.ids| == |report.businesses| && Conserved(db, report.runId)
    ensures var after := Record(naming, db, report);
            && |Progress(after.businesses, report.runId)| <= |Progress(db.businesses, report.runId)| + |report.businesses|
            && Asked(after.queries, report.runId, report.query)
            && (forall q :: q in earlier && Asked(db.queries, report.runId, q) ==> Asked(after.queries, report.runId, q))
            && RecordedBy(naming, db, report).progress == Progress(after.businesses, report.runId)
  {
    hide ListAll, Progress, Ranked, OnceEach, RowsOf, QueriesOf;
    var r := report.runId;
    if !Asked(db.queries, r, report.query) {
      ListingRanks(naming, db.businesses, r, report.businesses, report.ids, r);
      ProgressInOrder(db.businesses, r);
      ProgressInOrder(Record(naming, db, report).businesses, r);
      var after := Record(naming, db, report).queries;
      assert after[|after| - 1].text == report.query;
      forall q | q in earlier && Asked(db.queries, r, q)
        ensures Asked(after, r, q)
      {
        var i :| 0 <= i < |db.queries| && db.queries[i].runId == r && db.queries[i].text == q;
        assert after[i] == db.queries[i];
      }
    }
  }

  // ---- how far overlapping attempts can go ----

  // The attempts that have read the target as met.
  function Reached(attempts: seq<Attempt>, target: nat): set<nat> {
    set w: nat | w < |attempts| && attempts[w].seen >= target
  }

  // Each attempt knows at least the progress there was at first, asks only below the target by its
  // own reading, and takes the search at most one report past the target.
  ghost predicate Bounded(s: Search, start: nat, world: World) {
    && Conserved(world.db, s.runId)
    && (forall a :: a in world.attempts ==> start <= a.seen <= Size(s, world.db))
    && (forall a :: a in world.attempts && a.phase.Asking? ==> a.seen < s.target)
    && start <= Size(s, world.db)
    && (Size(s, world.db) <= start
        || Size(s, world.db) < s.target + MAX_BUSINESSES_PER_REPORT * |Reached(world.attempts, s.target)|)
  }

  // What hearing a report does to the tables of the search.
  lemma HearingAdds(s: Search, world: World, m: Move)
    requires m.Hear? && Fits(s, world, m) && Conserved(world.db, s.runId)
    ensures var after := Step(s, world, m);
            && Conserved(after.db, s.runId)
            && Size(s, world.db) <= Size(s, after.db) <= Size(s, world.db) + MAX_BUSINESSES_PER_REPORT
            && after.attempts == world.attempts[m.w := after.attempts[m.w]]
            && after.attempts[m.w].seen == Size(s, after.db) && !after.attempts[m.w].phase.Asking?
  {
    hide Record, RecordedBy, Conserved, Progress;
    var report := ReportOn(s, world.attempts[m.w], m);
    RecordAdds(s.naming, world.db, report, []);
    RecordConserves(s.naming, world.db, report, s.runId);
  }

  lemma BoundedStep(s: Search, start: nat, world: World, m: Move)
    requires Bounded(s, start, world) && Fits(s, world, m)
    ensures Bounded(s, start, Step(s, world, m))
  {
    hide Conserved, Size, Record, RecordedBy, Reached, Asked;
    var after := Step(s, world, m);
    match m {
      case Begin => ReachedGrows(world.attempts, after.attempts, s.target);
      case Look(w) => ReachedGrows(world.attempts, after.attempts, s.target);
      case Stop(w) => ReachedGrows(world.attempts, after.attempts, s.target);
      case Hear(w, _, _) =>
        HearingAdds(s, world, m);
        ReachedGrows(world.attempts, after.attempts, s.target);
        if Size(s, after.db) >= s.target { ReachedOneMore(world.attempts, w, after.attempts[w], s.target); }
    }
  }

  lemma ReachedGrows(before: seq<Attempt>, after: seq<Attempt>, target: nat)
    requires |before| <= |after| && forall w :: 0 <= w < |before| ==> before[w].seen <= after[w].seen
    ensures |Reached(before, target)| <= |Reached(after, target)|
  {
    Fewer(Reached(before, target), Reached(after, target));
  }

  lemma ReachedOneMore(attempts: seq<Attempt>, w: nat, a: Attempt, target: nat)
    requires w < |attempts| && attempts[w].seen < target <= a.seen
    ensures |Reached(attempts[w := a], target)| == |Reached(attempts, target)| + 1
  {
    assert Reached(attempts[w := a], target) == Reached(attempts, target) + {w};
  }

  lemma {:induction false} BoundedPlay(s: Search, db: DiscoveryTables, moves: seq<Move>)
    requires Conserved(db, s.runId) && Happens(s, World(db, []), moves)
    ensures Bounded(s, Size(s, db), Play(s, World(db, []), moves))
  {
    hide Bounded, Step, Fits, Conserved, Size;
    if moves == [] {
      NobodyYet(s, db);
    } else {
      BoundedPlay(s, db, moves[..|moves| - 1]);
      BoundedStep(s, Size(s, db), Play(s, World(db, []), moves[..|moves| - 1]), moves[|moves| - 1]);
    }
  }

  lemma NobodyYet(s: Search, db: DiscoveryTables)
    requires Conserved(db, s.runId)
    ensures Bounded(s, Size(s, db), World(db, []))
  {
    hide Conserved, Size;
  }

  // However the attempts at a search overlap, they find fewer than forty businesses past the target
  // for each attempt begun.
  lemma OverlapBound(s: Search, db: DiscoveryTables, moves: seq<Move>)
    requires Conserved(db, s.runId) && Happens(s, World(db, []), moves)
    ensures var world := Play(s, World(db, []), moves);
            Size(s, world.db) <= Size(s, db)
            || Size(s, world.db) < s.target + MAX_BUSINESSES_PER_REPORT * |world.attempts|
  {
    hide Conserved, Size, Play, Happens;
    BoundedPlay(s, db, moves);
    var attempts := Play(s, World(db, []), moves).attempts;
    Fewer(Reached(attempts, s.target), Below(|attempts|));
  }

  // ---- when the target is passed by less than one report ----

  // Whatever adds to the search is recorded while it holds fewer than its target.
  ghost predicate Guarded(s: Search, db: DiscoveryTables, moves: seq<Move>) {
    forall i :: 0 <= i < |moves| ==> GuardedAt(s, db, moves, i)
  }

  ghost predicate GuardedAt(s: Search, db: DiscoveryTables, moves: seq<Move>, i: nat)
    requires i < |moves|
  {
    var before, after := Play(s, World(db, []), moves[..i]).db, Play(s, World(db, []), moves[..i + 1]).db;
    Size(s, after) > Size(s, before) ==> Size(s, before) < s.target
  }

  lemma GuardedPrefix(s: Search, db: DiscoveryTables, moves: seq<Move>)
    requires moves != []
    ensures Guarded(s, db, moves) <==> Guarded(s, db, moves[..|moves| - 1]) && GuardedAt(s, db, moves, |moves| - 1)
  {
    hide Play, Size;
    var before := moves[..|moves| - 1];
    forall i | 0 <= i < |before|
      ensures GuardedAt(s, db, moves, i) <==> GuardedAt(s, db, before, i)
    {
      assert before[..i] == moves[..i] && before[..i + 1] == moves[..i + 1];
    }
  }

  lemma SizeStep(s: Search, world: World, m: Move)
    requires Fits(s, world, m) && Conserved(world.db, s.runId)
    ensures Size(s, world.db) <= Size(s, Step(s, world, m).db) <= Size(s, world.db) + MAX_BUSINESSES_PER_REPORT
  {
    hide Conserved, Size, Record, RecordedBy, Asked;
    if m.Hear? { HearingAdds(s, world, m); }
  }

  // In every interleaving that keeps to the guard the search stays below its target plus forty.
  lemma {:induction false} GuardKeepsTarget(s: Search, db: DiscoveryTables, moves: seq<Move>)
    requires Conserved(db, s.runId) && Happens(s, World(db, []), moves) && Guarded(s, db, moves)
    ensures var after := Play(s, World(db, []), moves).db;
            Size(s, after) <= Size(s, db) || Size(s, after) < s.target + MAX_BUSINESSES_PER_REPORT
  {
    hide Conserved, Size, Step, Fits, Guarded;
    if moves != [] {
      var before := moves[..|moves| - 1];
      GuardedPrefix(s, db, moves);
      GuardKeepsTarget(s, db, before);
      BoundedPlay(s, db, before);
      SizeStep(s, Play(s, World(db, []), before), moves[|moves| - 1]);
      assert moves[..|before|] == before && moves[..|before| + 1] == moves;
    }
  }

  // Businesses the run does not hold yet, each with a public page.
  ghost predicate AllNew(naming: Naming, rows: seq<Row>, r: RunId, businesses: seq<A.Business>) {
    && (forall i :: 0 <= i < |businesses| ==> PrimaryUrl(naming, businesses[i]).Some?)
    && (forall i :: 0 <= i < |businesses| ==> !Holds(rows, r, KeyOf(naming, businesses[i])))
    && (forall i, j :: 0 <= i < j < |businesses| ==> KeyOf(naming, businesses[i]) != KeyOf(naming, businesses[j]))
  }

  lemma {:induction false} NewAreListed(naming: Naming, rows: seq<Row>, r: RunId, businesses: seq<A.Business>,
                                       ids: seq<BusinessId>)
    requires |ids| == |businesses| && AllNew(naming, rows, r, businesses)
    ensures ListAll(naming, rows, r, businesses, ids).unique == |businesses|
    ensures forall key :: Holds(ListAll(naming, rows, r, businesses, ids).rows, r, key)
              <==> Holds(rows, r, key) || exists i :: 0 <= i < |businesses| && KeyOf(naming, businesses[i]) == key
  {
    hide PrimaryUrl, KeyOf, MaxRank;
    if businesses != [] {
      var last := |businesses| - 1;
      NewAreListed(naming, rows, r, businesses[..last], ids[..last]);
      var before := ListAll(naming, rows, r, businesses[..last], ids[..last]);
      var key := KeyOf(naming, businesses[last]);
      var row := Row(ids[last], r, key, MaxRank(RowsOf(rows, r)) + 1 + before.unique);
      forall k
        ensures Holds(before.rows + [row], r, k) <==> Holds(before.rows, r, k) || k == key
      {
        HoldsAppend(before.rows, row, r, k);
      }
    }
  }

  lemma NewAreAdded(s: Search, world: World, m: Move)
    requires m.Hear? && Fits(s, world, m) && Conserved(world.db, s.runId)
    requires !Asked(world.db.queries, s.runId, s.plan[world.attempts[m.w].phase.next])
    requires AllNew(s.naming, world.db.businesses, s.runId, m.businesses)
    ensures Size(s, Step(s, world, m).db) == Size(s, world.db) + |m.businesses|
  {
    hide Progress, ListAll, Ranked, OnceEach, RowsOf, QueriesOf, AllNew;
    NewAreListed(s.naming, world.db.businesses, s.runId, m.businesses, m.ids);
    ListingRanks(s.naming, world.db.businesses, s.runId, m.businesses, m.ids, s.runId);
    ProgressInOrder(world.db.businesses, s.runId);
    ProgressInOrder(Step(s, world, m).db.businesses, s.runId);
  }

  // The guard is exact: while an attempt waits for a report on a query nobody recorded, every answer
  // leaves the search below its target plus forty if and only if it now holds fewer than its target,
  // as long as there are forty businesses left to find.
  lemma GuardIsExact(s: Search, world: World, w: nat, left: seq<A.Business>, ids: seq<BusinessId>)
    requires Conserved(world.db, s.runId) && Fits(s, world, Hear(w, left, ids))
    requires !Asked(world.db.queries, s.runId, s.plan[world.attempts[w].phase.next])
    requires |left| == MAX_BUSINESSES_PER_REPORT && AllNew(s.naming, world.db.businesses, s.runId, left)
    ensures (forall m: Move :: m.Hear? && m.w == w && Fits(s, world, m) ==>
               Size(s, Step(s, world, m).db) < s.target + MAX_BUSINESSES_PER_REPORT)
            <==> Size(s, world.db) < s.target
  {
    hide Conserved, Size, Step, AllNew, Asked;
    NewAreAdded(s, world, Hear(w, left, ids));
    forall m: Move | m.Hear? && m.w == w && Fits(s, world, m)
      ensures Size(s, Step(s, world, m).db) <= Size(s, world.db) + MAX_BUSINESSES_PER_REPORT
    {
      SizeStep(s, world, m);
    }
  }

  // ---- attempts that do not overlap ----

  ghost predicate OneAtATime(s: Search, db: DiscoveryTables, moves: seq<Move>) {
    forall i :: 0 <= i < |moves| && moves[i].Begin? ==> AllEnded(Play(s, World(db, []), moves[..i]))
  }

  predicate AllEnded(world: World) { forall a :: a in world.attempts ==> a.phase.Ended? }

  // Only the latest attempt is still there, and it has read the progress as it is.
  predicate Alone(s: Search, world: World) {
    && (forall w :: 0 <= w < |world.attempts| - 1 ==> world.attempts[w].phase.Ended?)
    && (world.attempts != [] ==> world.attempts[|world.attempts| - 1].seen == Size(s, world.db))
  }

  lemma AloneStep(s: Search, start: nat, world: World, m: Move)
    requires Bounded(s, start, world) && Alone(s, world) && Fits(s, world, m) && (m.Begin? ==> AllEnded(world))
    ensures Alone(s, Step(s, world, m))
    ensures Size(s, Step(s, world, m).db) > Size(s, world.db) ==> Size(s, world.db) < s.target
  {
    hide Conserved, Size, Record, RecordedBy, Reached, Asked;
    if m.Hear? {
      HearingAdds(s, world, m);
      assert m.w == |world.attempts| - 1;
      assert world.attempts[m.w] in world.attempts;
    }
  }

  lemma {:induction false} AloneIsGuarded(s: Search, db: DiscoveryTables, moves: seq<Move>)
    requires Conserved(db, s.runId) && Happens(s, World(db, []), moves) && OneAtATime(s, db, moves)
    ensures Guarded(s, db, moves) && Alone(s, Play(s, World(db, []), moves))
  {
    hide Conserved, Size, Step, Fits, Guarded, AllEnded, Bounded;
    if moves != [] {
      var before := moves[..|moves| - 1];
      assert forall i :: 0 <= i < |before| ==> before[..i] == moves[..i];
      assert moves[..|before|] == before && moves[..|before| + 1] == moves;
      AloneIsGuarded(s, db, before);
      BoundedPlay(s, db, before);
      AloneStep(s, Size(s, db), Play(s, World(db, []), before), moves[|moves| - 1]);
      GuardedPrefix(s, db, moves);
    } else {
      NobodyGuards(s, db);
    }
  }

  lemma NobodyGuards(s: Search, db: DiscoveryTables)
    ensures Guarded(s, db, [])
  {
  }

  // Any number of attempts, each begun after the one before is gone, keep to the guard.
  lemma OneAtATimeKeepsTarget(s: Search, db: DiscoveryTables, moves: seq<Move>)
    requires Conserved(db, s.runId) && Happens(s, World(db, []), moves) && OneAtATime(s, db, moves)
    ensures var after := Play(s, World(db, []), moves).db;
            Size(s, after) <= Size(s, db) || Size(s, after) < s.target + MAX_BUSINESSES_PER_REPORT
  {
    hide Conserved, Size, Play, Happens, Guarded, OneAtATime;
    AloneIsGuarded(s, db, moves);
    GuardKeepsTarget(s, db, moves);
  }

  // ---- what the moves record ----

  function Reports(s: Search, world: World, moves: seq<Move>): seq<Report> {
    if moves == [] then []
    else
      var before := Play(s, world, moves[..|moves| - 1]);
      var m := moves[|moves| - 1];
      var earlier := Reports(s, world, moves[..|moves| - 1]);
      if m.Hear? && Fits(s, before, m) then earlier + [ReportOn(s, before.attempts[m.w], m)] else earlier
  }

  ghost predicate Planned(reports: seq<Report>, r: RunId, plan: seq<string>) {
    forall report :: report in reports && report.runId == r ==>
      report.query in plan && |report.businesses| <= MAX_BUSINESSES_PER_REPORT
  }

  ghost predicate Numbered(reports: seq<Report>) {
    forall report :: report in reports ==> |report.ids| == |report.businesses|
  }

  lemma {:induction false} ReportsTell(s: Search, db: DiscoveryTables, moves: seq<Move>)
    requires Happens(s, World(db, []), moves)
    ensures var reports := Reports(s, World(db, []), moves);
            && Numbered(reports) && Planned(reports, s.runId, s.plan)
            && Play(s, World(db, []), moves).db == RecordAll(s.naming, db, reports)
  {
    hide Record, RecordedBy, Asked, Size;
    if moves != [] {
      ReportsTell(s, db, moves[..|moves| - 1]);
      var before := Play(s, World(db, []), moves[..|moves| - 1]);
      var m := moves[|moves| - 1];
      if m.Hear? {
        var earlier := Reports(s, World(db, []), moves[..|moves| - 1]);
        var report := ReportOn(s, before.attempts[m.w], m);
        assert (earlier + [report])[..|earlier|] == earlier;
        assert Reports(s, World(db, []), moves) == earlier + [report];
      }
    }
  }

  // ---- an interleaving that passes it ----

  const PLAIN := Naming("s", (n: string) => n, (u: string) => Some(u))
  const TEN := Search(PLAIN, 0, ["first", "second"], 10)
  const EMPTY := DiscoveryTables([], [], map[])

  function Xs(n: nat): (xs: string)
    ensures |xs| == n
  {
    seq(n, i => 'x')
  }

  function Garage(i: nat): A.Business {
    A.Business(Xs(i), A.Profile("", "Local", false, false), ["page"], [], [], None)
  }

  function Garages(from: nat): (garages: seq<A.Business>)
    ensures |garages| == 40 && forall i :: 0 <= i < 40 ==> garages[i] == Garage(from + i)
  {
    seq(40, i requires 0 <= i < 40 => Garage(from + i))
  }

  lemma GarageKey(i: nat)
    ensures |KeyOf(PLAIN, Garage(i))| == i + 3 && PrimaryUrl(PLAIN, Garage(i)).Some?
  {
  }

  lemma GaragesAreNew(rows: seq<Row>, from: nat)
    requires forall i :: from <= i < from + 40 ==> !Holds(rows, 0, KeyOf(PLAIN, Garage(i)))
    ensures AllNew(PLAIN, rows, 0, Garages(from))
  {
    hide KeyOf, PrimaryUrl, Holds;
    forall i | 0 <= i < 40
      ensures |KeyOf(PLAIN, Garages(from)[i])| == from + i + 3 && PrimaryUrl(PLAIN, Garages(from)[i]).Some?
    {
      GarageKey(from + i);
    }
  }

  function Numbers(): (ids: seq<BusinessId>)
    ensures |ids| == 40
  {
    seq(40, i requires 0 <= i < 40 => i)
  }

  const FIRST_FORTY := Report(0, "first", Garages(0), Numbers())

  // What the tables hold once the first forty are recorded.
  lemma FirstForty()
    ensures var db := Record(PLAIN, EMPTY, FIRST_FORTY);
            && Conserved(db, 0) && |Progress(db.businesses, 0)| == 40
            && Asked(db.queries, 0, "first") && !Asked(db.queries, 0, "second")
            && AllNew(PLAIN, db.businesses, 0, Garages(40))
            && RecordedBy(PLAIN, EMPTY, FIRST_FORTY) == Recorded(40, 0, Progress(db.businesses, 0))
  {
    hide Conserved, Progress, Record, RecordedBy, Asked, AllNew;
    FortyListed();
    FortyAsked();
    NothingConserved();
    RecordConserves(PLAIN, EMPTY, FIRST_FORTY, 0);
    MoreAreNew();
  }

  lemma FortyListed()
    ensures var db := Record(PLAIN, EMPTY, FIRST_FORTY);
            |Progress(db.businesses, 0)| == 40
            && RecordedBy(PLAIN, EMPTY, FIRST_FORTY) == Recorded(40, 0, Progress(db.businesses, 0))
  {
    hide KeyOf, PrimaryUrl, MaxRank, Progress, ListAll, AllNew, RowsOf, Ranked;
    var db := Record(PLAIN, EMPTY, FIRST_FORTY);
    NothingConserved();
    NothingHeld();
    GaragesAreNew([], 0);
    NewAreListed(PLAIN, [], 0, Garages(0), Numbers());
    ListingRanks(PLAIN, [], 0, Garages(0), Numbers(), 0);
    ProgressInOrder(db.businesses, 0);
    NobodyAsked();
  }

  lemma NothingHeld()
    ensures forall key :: !Holds([], 0, key)
    ensures Ranked(RowsOf([], 0))
  {
  }

  lemma FortyAsked()
    ensures var queries := Record(PLAIN, EMPTY, FIRST_FORTY).queries;
            Asked(queries, 0, "first") && !Asked(queries, 0, "second")
  {
    hide ListAll;
    NobodyAsked();
    var queries := Record(PLAIN, EMPTY, FIRST_FORTY).queries;
    assert queries[0].text == "first" && queries[0].runId == 0;
    assert "first"[0] != "second"[0];
  }

  lemma MoreAreNew()
    ensures AllNew(PLAIN, Record(PLAIN, EMPTY, FIRST_FORTY).businesses, 0, Garages(40))
  {
    hide KeyOf, PrimaryUrl, MaxRank, Holds, ListAll, AllNew;
    var db := Record(PLAIN, EMPTY, FIRST_FORTY);
    NothingHeld();
    NobodyAsked();
    GaragesAreNew([], 0);
    NewAreListed(PLAIN, [], 0, Garages(0), Numbers());
    forall i: nat | 40 <= i < 80
      ensures !Holds(db.businesses, 0, KeyOf(PLAIN, Garage(i)))
    {
      GarageKey(i);
      forall j | 0 <= j < 40
        ensures |KeyOf(PLAIN, Garages(0)[j])| == j + 3
      {
        GarageKey(j);
      }
    }
    GaragesAreNew(db.businesses, 40);
  }

  lemma NothingConserved()
    ensures Conserved(EMPTY, 0) && |RowsOf([], 0)| == 0 && |Progress([], 0)| == 0
  {
  }

  // Two attempts read an empty search for ten. The second records forty on the first query; the first
  // finds that query completed, goes on without reading the progress, and records forty more.
  lemma OverlapPassesTarget() returns (moves: seq<Move>)
    ensures Happens(TEN, World(EMPTY, []), moves)
    ensures var world := Play(TEN, World(EMPTY, []), moves);
            |world.attempts| == 2 && Size(TEN, world.db) == 80 >= TEN.target + MAX_BUSINESSES_PER_REPORT
    ensures !Guarded(TEN, EMPTY, moves)
  {
    hide Record, RecordedBy, Conserved, Progress, Asked, Happens, Play, AllNew, Guarded;
    var start := World(EMPTY, []);
    NothingConserved();
    StartOfPlay(TEN, start);
    FirstForty();
    NobodyAsked();
    var db := Record(PLAIN, EMPTY, FIRST_FORTY);
    moves := [];
    var begun := Attempt(Looking(0), 0, 0);
    Plays(TEN, start, moves, Begin);
    moves := moves + [Begin];
    Plays(TEN, start, moves, Begin);
    moves := moves + [Begin];
    assert Play(TEN, start, moves).attempts == [begun, begun];
    Plays(TEN, start, moves, Look(1));
    moves := moves + [Look(1)];
    assert Play(TEN, start, moves).attempts == [begun, Attempt(Asking(0), 0, 0)];
    Plays(TEN, start, moves, Hear(1, Garages(0), Numbers()));
    moves := moves + [Hear(1, Garages(0), Numbers())];
    assert Play(TEN, start, moves) == World(db, [begun, Attempt(Looking(1), 40, 0)]);
    Plays(TEN, start, moves, Look(0));
    moves := moves + [Look(0)];
    assert Play(TEN, start, moves) == World(db, [Attempt(Looking(1), 0, 0), Attempt(Looking(1), 40, 0)]);
    Plays(TEN, start, moves, Look(0));
    moves := moves + [Look(0)];
    var last := Hear(0, Garages(40), Numbers());
    assert Play(TEN, start, moves) == World(db, [Attempt(Asking(1), 0, 0), Attempt(Looking(1), 40, 0)]);
    NewAreAdded(TEN, Play(TEN, start, moves), last);
    Plays(TEN, start, moves, last);
    moves := moves + [last];
    if Guarded(TEN, EMPTY, moves) { GuardKeepsTarget(TEN, EMPTY, moves); }
  }

  lemma StartOfPlay(s: Search, world: World)
    ensures Happens(s, world, []) && Play(s, world, []) == world
  {
  }

  lemma NobodyAsked()
    ensures forall q :: !Asked(EMPTY.queries, 0, q)
  {
  }
}
