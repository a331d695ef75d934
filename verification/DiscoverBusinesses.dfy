// The discovery stage: ask the planned queries until the target is met or the search dries up.

module DiscoverBusinesses {
  import opened RunTables
  import opened Discovery
  import opened DiscoveryAttempts
  import opened ReportSections
  import opened Text
  import A = Attribution

  // What asking a query brings: a runtime error, or the verified businesses of its report.
  datatype Answer = Unavailable(classification: Classification) | Answered(businesses: seq<A.Business>)

  datatype Discovered = Failed(classification: Classification) | Searched(progress: seq<BusinessId>, stoppedEarly: bool)

  // One attempt with nobody recording beside it; `moves` is what it did, as an attempt among others.
  method Discover(repository: DiscoveryRepository, s: Search, ask: string -> Answer, newId: (string, nat) -> BusinessId)
    returns (result: Discovered, ghost moves: seq<Move>)
    requires Conserved(repository.Contents(), s.runId)
    requires forall q :: ask(q).Answered? ==> |ask(q).businesses| <= MAX_BUSINESSES_PER_REPORT
    modifies repository
    ensures Conserved(repository.Contents(), s.runId)
    ensures old(Progress(repository.businesses, s.runId)) <= Progress(repository.businesses, s.runId)
    ensures |Progress(repository.businesses, s.runId)| <= old(|Progress(repository.businesses, s.runId)|)
            || |Progress(repository.businesses, s.runId)| < s.target + MAX_BUSINESSES_PER_REPORT
    ensures result.Searched? ==>
              && result.progress == Progress(repository.businesses, s.runId)
              && (|result.progress| >= s.target || result.stoppedEarly
                  || forall q :: q in s.plan ==> Asked(repository.queries, s.runId, q))
    ensures result.Failed? ==> exists q :: q in s.plan && ask(q) == Unavailable(result.classification)
    ensures Happens(s, World(old(repository.Contents()), []), moves)
    ensures var world := Play(s, World(old(repository.Contents()), []), moves);
            && world.db == repository.Contents() && |world.attempts| == 1 && world.attempts[0].phase.Ended?
            && (result.Searched? && result.stoppedEarly <==> world.attempts[0].empty >= 2)
  {
    hide ListAll, Progress, Ranked, OnceEach, RowsOf, QueriesOf, Conserved, Asked, Record, RecordedBy, Happens, Play;
    ghost var world := World(repository.Contents(), []);
    StartOfPlay(s, world);
    Plays(s, world, [], Begin);
    moves := [] + [Begin];
    var progress := Progress(repository.businesses, s.runId);
    ghost var start := progress;
    var consecutiveEmptyReports := 0;
    for i := 0 to |s.plan|
      invariant Conserved(repository.Contents(), s.runId)
      invariant progress == Progress(repository.businesses, s.runId)
      invariant start <= progress
      invariant consecutiveEmptyReports < MAX_CONSECUTIVE_EMPTY_REPORTS
      invariant |progress| <= |start| || |progress| < s.target + MAX_BUSINESSES_PER_REPORT
      invariant forall j :: 0 <= j < i ==> Asked(repository.queries, s.runId, s.plan[j])
      invariant Happens(s, world, moves)
      invariant Play(s, world, moves)
                == World(repository.Contents(), [Attempt(Looking(i), |progress|, consecutiveEmptyReports)])
    {
      Plays(s, world, moves, Look(0));
      moves := moves + [Look(0)];
      if |progress| >= s.target { return Searched(progress, false), moves; }
      var query := s.plan[i];
      if Asked(repository.queries, s.runId, query) { continue; }
      match ask(query) {
        case Unavailable(classification) =>
          Plays(s, world, moves, Stop(0));
          return Failed(classification), moves + [Stop(0)];
        case Answered(businesses) =>
          var ids := seq(|businesses|, k requires 0 <= k < |businesses| => newId(query, k));
          var report := Report(s.runId, query, businesses, ids);
          RecordAdds(s.naming, repository.Contents(), report, s.plan[..i]);
          RecordConserves(s.naming, repository.Contents(), report, s.runId);
          Plays(s, world, moves, Hear(0, businesses, ids));
          moves := moves + [Hear(0, businesses, ids)];
          var recorded := repository.RecordReport(s.naming, report);
          progress := recorded.progress;
          consecutiveEmptyReports := if recorded.uniqueAdded == 0 then consecutiveEmptyReports + 1 else 0;
          assert forall j :: 0 <= j < i ==> s.plan[j] in s.plan[..i];
          if consecutiveEmptyReports >= MAX_CONSECUTIVE_EMPTY_REPORTS { return Searched(progress, true), moves; }
      }
    }
    Plays(s, world, moves, Look(0));
    return Searched(progress, false), moves + [Look(0)];
  }

  // ---- a bound no interleaving escapes ----

  lemma {:induction false} QueriesArePlanned(naming: Naming, metrics: map<RunId, Metrics>, reports: seq<Report>,
                                             r: RunId, plan: seq<string>)
    requires Numbered(reports) && Planned(reports, r, plan)
    requires forall s :: s in metrics ==> metrics[s] == Metrics(0, 0, 0)
    ensures var queries := QueriesOf(RecordAll(naming, DiscoveryTables([], [], metrics), reports).queries, r);
            forall q :: q in queries ==> q.text in plan && q.unique <= MAX_BUSINESSES_PER_REPORT
  {
    if reports != [] {
      hide ListAll, Progress, Ranked, OnceEach, RowsOf, QueriesOf;
      var before := reports[..|reports| - 1];
      var report := reports[|reports| - 1];
      var db := RecordAll(naming, DiscoveryTables([], [], metrics), before);
      QueriesArePlanned(naming, metrics, before, r, plan);
      Conservation(naming, metrics, before, report.runId);
      if !Asked(db.queries, report.runId, report.query) {
        var l := ListAll(naming, db.businesses, report.runId, report.businesses, report.ids);
        ListingRanks(naming, db.businesses, report.runId, report.businesses, report.ids, r);
        QueriesAppend(db.queries, QueryRow(report.runId, report.query, l.unique, l.duplicates), r);
      }
    } else {
      assert QueriesOf([], r) == [];
    }
  }

  lemma {:induction false} SumUniqueBounded(queries: seq<QueryRow>, most: nat)
    requires forall q :: q in queries ==> q.unique <= most
    ensures SumUnique(queries) <= most * |queries|
  {
    if queries != [] { SumUniqueBounded(queries[..|queries| - 1], most); }
  }

  // Distinct texts drawn from a list are no more than the list is long.
  lemma {:induction false} DistinctFit(queries: seq<QueryRow>, plan: seq<string>)
    requires OnceEach(queries) && forall q :: q in queries ==> q.text in plan
    ensures |queries| <= |plan|
    decreases |plan|
  {
    if queries != [] {
      var last := queries[|queries| - 1];
      var i :| 0 <= i < |plan| && plan[i] == last.text;
      var rest := plan[..i] + plan[i + 1..];
      var others := queries[..|queries| - 1];
      forall q | q in others
        ensures q.text in rest
      {
        var k :| 0 <= k < |others| && others[k] == q;
        assert queries[k].text != queries[|queries| - 1].text;
        assert q in queries;
        var j :| 0 <= j < |plan| && plan[j] == q.text;
        assert if j < i then rest[j] == q.text else rest[j - 1] == q.text;
      }
      DistinctFit(others, rest);
    }
  }

  // Even when attempts that lost their lease keep recording beside the current one, a run's
  // businesses never exceed forty for each of its planned queries.
  lemma FanOutIsBounded(naming: Naming, metrics: map<RunId, Metrics>, reports: seq<Report>, r: RunId, plan: seq<string>)
    requires Numbered(reports) && Planned(reports, r, plan)
    requires forall s :: s in metrics ==> metrics[s] == Metrics(0, 0, 0)
    ensures |Progress(RecordAll(naming, DiscoveryTables([], [], metrics), reports).businesses, r)|
            <= MAX_BUSINESSES_PER_REPORT * |plan|
  {
    hide RecordAll, Progress, Ranked, OnceEach, RowsOf, QueriesOf, SumUnique;
    var db := RecordAll(naming, DiscoveryTables([], [], metrics), reports);
    Conservation(naming, metrics, reports, r);
    QueriesArePlanned(naming, metrics, reports, r, plan);
    DistinctFit(QueriesOf(db.queries, r), plan);
    SumUniqueBounded(QueriesOf(db.queries, r), MAX_BUSINESSES_PER_REPORT);
    ProgressInOrder(db.businesses, r);
  }

  // ---- the plan ----

  const MAX_QUERY_WORDS: nat := 50
  const MAX_QUERY_CHARACTERS: nat := 400

  // A query is its longest run of leading words that fits, or its first word cut to fit. The
  // result's second part says how many words were kept.
  method BoundQuery(words: seq<string>) returns (query: string, kept: nat)
    requires words != []
    ensures |query| <= MAX_QUERY_CHARACTERS && 1 <= kept <= |words| && kept <= MAX_QUERY_WORDS
    ensures query <= Joined(words[..kept], " ")
    ensures |query| < |Joined(words[..kept], " ")| ==> kept == 1 && |query| == MAX_QUERY_CHARACTERS
    ensures kept == |words| || kept == MAX_QUERY_WORDS || |Joined(words[..kept + 1], " ")| > MAX_QUERY_CHARACTERS
  {
    hide Joined;
    kept := if |words| < MAX_QUERY_WORDS then |words| else MAX_QUERY_WORDS;
    query := Joined(words[..kept], " ");
    while |query| > MAX_QUERY_CHARACTERS && kept > 1
      invariant 1 <= kept <= |words| && kept <= MAX_QUERY_WORDS && query == Joined(words[..kept], " ")
      invariant kept == |words| || kept == MAX_QUERY_WORDS || |Joined(words[..kept + 1], " ")| > MAX_QUERY_CHARACTERS
      decreases kept
    {
      kept := kept - 1;
      query := Joined(words[..kept], " ");
    }
    query := if |query| <= MAX_QUERY_CHARACTERS then query else query[..MAX_QUERY_CHARACTERS];
  }

  // The first distinct variations, at most four of them.
  function PlanQueries(variations: seq<string>, thorough: bool): seq<string> {
    var distinct := Distinct(variations);
    var limit := if thorough then 4 else 2;
    if |distinct| <= limit then distinct else distinct[..limit]
  }

  // The first text is made at some point where the other was not yet.
  ghost predicate MadeBefore(items: seq<string>, x: string, y: string) {
    exists i :: 0 <= i < |items| && items[i] == x && y !in items[..i + 1]
  }

  lemma MadeBeforeAppend(items: seq<string>, x: string, y: string, last: string)
    requires MadeBefore(items, x, y)
    ensures MadeBefore(items + [last], x, y)
  {
    var i :| 0 <= i < |items| && items[i] == x && y !in items[..i + 1];
    assert (items + [last])[i] == x && (items + [last])[..i + 1] == items[..i + 1];
  }

  lemma MadeBeforeNew(items: seq<string>, x: string, last: string)
    requires x in items && last !in items
    ensures MadeBefore(items + [last], x, last)
  {
    var i :| 0 <= i < |items| && items[i] == x;
    assert (items + [last])[i] == x && (items + [last])[..i + 1] == items[..i + 1];
  }

  lemma {:induction false} DistinctInOrder(items: seq<string>)
    ensures forall a, b :: 0 <= a < b < |Distinct(items)| ==> MadeBefore(items, Distinct(items)[a], Distinct(items)[b])
  {
    if items != [] {
      hide MadeBefore;
      var before, last := items[..|items| - 1], items[|items| - 1];
      var earlier, d := Distinct(before), Distinct(items);
      DistinctInOrder(before);
      DistinctKeeps(before);
      assert before + [last] == items;
      forall a, b | 0 <= a < b < |d|
        ensures MadeBefore(items, d[a], d[b])
      {
        assert d[a] == earlier[a];
        if b < |earlier| { MadeBeforeAppend(before, d[a], d[b], last); } else { MadeBeforeNew(before, d[a], last); }
      }
    }
  }

  // The plan is the first few different variations in the order they are made: four in thorough mode,
  // two otherwise, or all of them when there are fewer.
  lemma PlanIsTheFirstFew(variations: seq<string>, thorough: bool)
    ensures var plan := PlanQueries(variations, thorough);
            var most := if thorough then 4 else 2;
            && |plan| <= most
            && (forall q :: q in plan ==> q in variations)
            && (forall a, b :: 0 <= a < b < |plan| ==> plan[a] != plan[b] && MadeBefore(variations, plan[a], plan[b]))
            && (forall v :: v in variations && v !in plan ==>
                  |plan| == most && forall q :: q in plan ==> MadeBefore(variations, q, v))
  {
    hide Distinct, MadeBefore;
    DistinctKeeps(variations);
    DistinctInOrder(variations);
    var plan, distinct := PlanQueries(variations, thorough), Distinct(variations);
    forall v | v in variations && v !in plan
      ensures forall q :: q in plan ==> MadeBefore(variations, q, v)
    {
      var b :| 0 <= b < |distinct| && distinct[b] == v;
      assert b >= |plan|;
    }
  }

  // So no search ever fans out to more than a hundred and sixty businesses.
  lemma SearchFanOut(naming: Naming, metrics: map<RunId, Metrics>, reports: seq<Report>, r: RunId,
                     variations: seq<string>, thorough: bool)
    requires Numbered(reports) && Planned(reports, r, PlanQueries(variations, thorough))
    requires forall s :: s in metrics ==> metrics[s] == Metrics(0, 0, 0)
    ensures |Progress(RecordAll(naming, DiscoveryTables([], [], metrics), reports).businesses, r)|
            <= if thorough then 160 else 80
  {
    hide RecordAll, Progress, Distinct;
    FanOutIsBounded(naming, metrics, reports, r, PlanQueries(variations, thorough));
  }
}
