// Recording discovery reports: the businesses a run has found, their ranks, and the counters that
// must agree with them.

module Discovery {
  import opened Wrappers
  import opened RunTables
  import A = Attribution

  // Text services: the source that prefixes a key, the normalised name, and the public form of a URL.
  datatype Naming = Naming(source: string, normalizeName: string -> string, normalizeUrl: string -> Option<string>)

  datatype Row = Row(id: BusinessId, runId: RunId, key: string, rank: nat)

  datatype QueryRow = QueryRow(runId: RunId, text: string, unique: nat, duplicates: nat)

  datatype Metrics = Metrics(queries: nat, discoveries: nat, duplicates: nat)

  datatype DiscoveryTables = DiscoveryTables(businesses: seq<Row>, queries: seq<QueryRow>, metrics: map<RunId, Metrics>)

  datatype Report = Report(runId: RunId, query: string, businesses: seq<A.Business>, ids: seq<BusinessId>)

  datatype Recorded = Recorded(uniqueAdded: nat, duplicates: nat, progress: seq<BusinessId>)

  // ---- reading the tables ----

  function RowsOf(rows: seq<Row>, r: RunId): seq<Row> {
    if rows == [] then []
    else
      var last := rows[|rows| - 1];
      RowsOf(rows[..|rows| - 1], r) + (if last.runId == r then [last] else [])
  }

  function QueriesOf(rows: seq<QueryRow>, r: RunId): seq<QueryRow> {
    if rows == [] then []
    else
      var last := rows[|rows| - 1];
      QueriesOf(rows[..|rows| - 1], r) + (if last.runId == r then [last] else [])
  }

  predicate Holds(rows: seq<Row>, r: RunId, key: string) {
    exists i :: 0 <= i < |rows| && rows[i].runId == r && rows[i].key == key
  }

  predicate Asked(rows: seq<QueryRow>, r: RunId, text: string) {
    exists i :: 0 <= i < |rows| && rows[i].runId == r && rows[i].text == text
  }

  function MaxRank(rows: seq<Row>): nat {
    if rows == [] then 0
    else
      var before := MaxRank(rows[..|rows| - 1]);
      if rows[|rows| - 1].rank > before then rows[|rows| - 1].rank else before
  }

  function InsertByRank(row: Row, sorted: seq<Row>): seq<Row> {
    if sorted == [] || row.rank <= sorted[0].rank then [row] + sorted
    else [sorted[0]] + InsertByRank(row, sorted[1..])
  }

  function ByRank(rows: seq<Row>): seq<Row> {
    if rows == [] then [] else InsertByRank(rows[0], ByRank(rows[1..]))
  }

  // The progress list: the run's businesses by rank.
  function Progress(rows: seq<Row>, r: RunId): seq<BusinessId> {
    var sorted := ByRank(RowsOf(rows, r));
    seq(|sorted|, i requires 0 <= i < |sorted| => sorted[i].id)
  }

  // ---- recording one report ----

  function FirstPublic(naming: Naming, urls: seq<string>): Option<string> {
    if urls == [] then None
    else
      match naming.normalizeUrl(urls[0])
      case Some(u) => Some(u)
      case None => FirstPublic(naming, urls[1..])
  }

  function PrimaryUrl(naming: Naming, b: A.Business): Option<string> {
    FirstPublic(naming, (if b.websiteUrl.Some? then [b.websiteUrl.value] else []) + b.sourceUrls)
  }

  function KeyOf(naming: Naming, b: A.Business): string {
    naming.source + ":" + naming.normalizeName(b.name) + "|" + naming.normalizeName(b.profile.locality)
  }

  datatype Listing = Listing(rows: seq<Row>, unique: nat, duplicates: nat)

  // One business: skipped without a URL, a duplicate if the run holds its key, else a new row of
  // the next rank.
  function ListOne(naming: Naming, l: Listing, first: nat, r: RunId, b: A.Business, id: BusinessId): Listing {
    if PrimaryUrl(naming, b).None? then l
    else if Holds(l.rows, r, KeyOf(naming, b)) then l.(duplicates := l.duplicates + 1)
    else Listing(l.rows + [Row(id, r, KeyOf(naming, b), first + l.unique)], l.unique + 1, l.duplicates)
  }

  function ListAll(naming: Naming, rows: seq<Row>, r: RunId, businesses: seq<A.Business>, ids: seq<BusinessId>): Listing
    requires |ids| == |businesses|
  {
    if businesses == [] then Listing(rows, 0, 0)
    else
      var last := |businesses| - 1;
      ListOne(naming, ListAll(naming, rows, r, businesses[..last], ids[..last]), MaxRank(RowsOf(rows, r)) + 1,
              r, businesses[last], ids[last])
  }

  function Record(naming: Naming, db: DiscoveryTables, report: Report): DiscoveryTables
    requires |report.ids| == |report.businesses|
  {
    if Asked(db.queries, report.runId, report.query) then db
    else
      var l := ListAll(naming, db.businesses, report.runId, report.businesses, report.ids);
      var queries := db.queries + [QueryRow(report.runId, report.query, l.unique, l.duplicates)];
      if report.runId !in db.metrics then DiscoveryTables(l.rows, queries, db.metrics)
      else
        var m := db.metrics[report.runId];
        DiscoveryTables(l.rows, queries,
               db.metrics[report.runId := Metrics(m.queries + 1, |Progress(l.rows, report.runId)|, m.duplicates + l.duplicates)])
  }

  function RecordedBy(naming: Naming, db: DiscoveryTables, report: Report): Recorded
    requires |report.ids| == |report.businesses|
  {
    if Asked(db.queries, report.runId, report.query) then Recorded(0, 0, Progress(db.businesses, report.runId))
    else
      var l := ListAll(naming, db.businesses, report.runId, report.businesses, report.ids);
      Recorded(l.unique, l.duplicates, Progress(l.rows, report.runId))
  }

  class DiscoveryRepository {
    var businesses: seq<Row>
    var queries: seq<QueryRow>
    var metrics: map<RunId, Metrics>

    function Contents(): DiscoveryTables
      reads this
    {
      DiscoveryTables(businesses, queries, metrics)
    }

    // Every run has its metrics row from the trigger that adds one with it.
    constructor (runs: set<RunId>)
      ensures Contents() == DiscoveryTables([], [], map r | r in runs :: Metrics(0, 0, 0))
    {
      businesses, queries, metrics := [], [], map r | r in runs :: Metrics(0, 0, 0);
    }

    method RecordReport(naming: Naming, report: Report) returns (recorded: Recorded)
      requires |report.ids| == |report.businesses|
      modifies this
      ensures Contents() == Record(naming, old(Contents()), report)
      ensures recorded == RecordedBy(naming, old(Contents()), report)
    {
      hide PrimaryUrl, KeyOf, MaxRank, ByRank;
      var r := report.runId;
      if Asked(queries, r, report.query) {
        return Recorded(0, 0, Progress(businesses, r));
      }
      var uniqueAdded, duplicates := 0, 0;
      var nextRank := MaxRank(RowsOf(businesses, r)) + 1;
      ghost var first := nextRank;
      for i := 0 to |report.businesses|
        invariant nextRank == first + uniqueAdded
        invariant Listing(businesses, uniqueAdded, duplicates)
                  == ListAll(naming, old(businesses), r, report.businesses[..i], report.ids[..i])
        invariant queries == old(queries) && metrics == old(metrics)
      {
        var business := report.businesses[i];
        assert report.businesses[..i + 1][..i] == report.businesses[..i] && report.ids[..i + 1][..i] == report.ids[..i];
        var resultUrl := PrimaryUrl(naming, business);
        if resultUrl.None? { continue; }
        var key := KeyOf(naming, business);
        if Holds(businesses, r, key) {
          duplicates := duplicates + 1;
        } else {
          businesses := businesses + [Row(report.ids[i], r, key, nextRank)];
          nextRank := nextRank + 1;
          uniqueAdded := uniqueAdded + 1;
        }
      }
      assert report.businesses[..|report.businesses|] == report.businesses && report.ids[..|report.ids|] == report.ids;
      queries := queries + [QueryRow(r, report.query, uniqueAdded, duplicates)];
      var progress := Progress(businesses, r);
      if r in metrics {
        metrics := metrics[r := Metrics(metrics[r].queries + 1, |progress|, metrics[r].duplicates + duplicates)];
      }
      recorded := Recorded(uniqueAdded, duplicates, progress);
    }
  }

  // ---- conservation ----

  function SumUnique(rows: seq<QueryRow>): nat {
    if rows == [] then 0 else SumUnique(rows[..|rows| - 1]) + rows[|rows| - 1].unique
  }

  function SumDuplicates(rows: seq<QueryRow>): nat {
    if rows == [] then 0 else SumDuplicates(rows[..|rows| - 1]) + rows[|rows| - 1].duplicates
  }

  // Ranked one, two, three, ... in the order they were found, under distinct keys.
  predicate Ranked(rows: seq<Row>) {
    && (forall i :: 0 <= i < |rows| ==> rows[i].rank == i + 1)
    && (forall i, j :: 0 <= i < j < |rows| ==> rows[i].key != rows[j].key)
  }

  predicate OnceEach(rows: seq<QueryRow>) {
    forall i, j :: 0 <= i < j < |rows| ==> rows[i].text != rows[j].text
  }

  ghost predicate Conserved(db: DiscoveryTables, r: RunId) {
    var queries := QueriesOf(db.queries, r);
    var rows := RowsOf(db.businesses, r);
    && Ranked(rows)
    && OnceEach(queries)
    && |rows| == SumUnique(queries)
    && (r in db.metrics ==> db.metrics[r] == Metrics(|queries|, |rows|, SumDuplicates(queries)))
  }

  lemma RowsAppend(rows: seq<Row>, row: Row, r: RunId)
    ensures RowsOf(rows + [row], r) == if row.runId == r then RowsOf(rows, r) + [row] else RowsOf(rows, r)
  {
    assert (rows + [row])[..|rows|] == rows;
  }

  lemma QueriesAppend(rows: seq<QueryRow>, row: QueryRow, r: RunId)
    ensures QueriesOf(rows + [row], r) == if row.runId == r then QueriesOf(rows, r) + [row] else QueriesOf(rows, r)
  {
    assert (rows + [row])[..|rows|] == rows;
  }

  predicate HasKey(rows: seq<Row>, key: string) { exists i :: 0 <= i < |rows| && rows[i].key == key }

  lemma HasKeyAppend(rows: seq<Row>, row: Row, key: string)
    ensures HasKey(rows + [row], key) <==> HasKey(rows, key) || row.key == key
  {
    var all := rows + [row];
    assert all[|rows|] == row && forall i :: 0 <= i < |rows| ==> all[i] == rows[i];
  }

  lemma HoldsAppend(rows: seq<Row>, row: Row, r: RunId, key: string)
    ensures Holds(rows + [row], r, key) <==> Holds(rows, r, key) || (row.runId == r && row.key == key)
  {
    var all := rows + [row];
    assert all[|rows|] == row && forall i :: 0 <= i < |rows| ==> all[i] == rows[i];
  }

  lemma {:induction false} HoldsInRun(rows: seq<Row>, r: RunId, key: string)
    ensures Holds(rows, r, key) <==> HasKey(RowsOf(rows, r), key)
  {
    if rows != [] {
      hide RowsOf, Holds, HasKey;
      var before, last := rows[..|rows| - 1], rows[|rows| - 1];
      HoldsInRun(before, r, key);
      assert rows == before + [last];
      RowsAppend(before, last, r);
      HoldsAppend(before, last, r, key);
      HasKeyAppend(RowsOf(before, r), last, key);
    }
  }

  lemma {:induction false} AskedInRun(rows: seq<QueryRow>, r: RunId, text: string)
    ensures Asked(rows, r, text) <==> exists i :: 0 <= i < |QueriesOf(rows, r)| && QueriesOf(rows, r)[i].text == text
  {
    if rows != [] {
      var before := rows[..|rows| - 1];
      var last := rows[|rows| - 1];
      AskedInRun(before, r, text);
      var own := QueriesOf(rows, r);
      if Asked(before, r, text) {
        var i :| 0 <= i < |before| && before[i].runId == r && before[i].text == text;
        assert rows[i].runId == r && rows[i].text == text;
        var j :| 0 <= j < |QueriesOf(before, r)| && QueriesOf(before, r)[j].text == text;
        assert own[j].text == text;
      } else if last.runId == r && last.text == text {
        assert own[|own| - 1].text == text && rows[|rows| - 1].text == text;
      }
    }
  }

  lemma {:induction false} RankedMax(rows: seq<Row>)
    requires Ranked(rows)
    ensures MaxRank(rows) == |rows|
  {
    if rows != [] { RankedMax(rows[..|rows| - 1]); }
  }

  lemma {:induction false} SortedAlready(rows: seq<Row>)
    requires forall i, j :: 0 <= i < j < |rows| ==> rows[i].rank < rows[j].rank
    ensures ByRank(rows) == rows
  {
    if rows != [] {
      SortedAlready(rows[1..]);
      assert rows == [rows[0]] + rows[1..];
    }
  }

  // The rank order of the progress list is the order of discovery.
  lemma ProgressInOrder(rows: seq<Row>, r: RunId)
    requires Ranked(RowsOf(rows, r))
    ensures |Progress(rows, r)| == |RowsOf(rows, r)|
    ensures forall i :: 0 <= i < |RowsOf(rows, r)| ==> Progress(rows, r)[i] == RowsOf(rows, r)[i].id
  {
    SortedAlready(RowsOf(rows, r));
  }

  // One business appends a row of the next rank and a new key to its own run, or nothing.
  lemma ListOneRanks(naming: Naming, l: Listing, first: nat, r: RunId, b: A.Business, id: BusinessId, s: RunId)
    requires Ranked(RowsOf(l.rows, r)) && first + l.unique == |RowsOf(l.rows, r)| + 1
    ensures var next := ListOne(naming, l, first, r, b, id);
            && Ranked(RowsOf(next.rows, r))
            && |RowsOf(next.rows, r)| == |RowsOf(l.rows, r)| + (next.unique - l.unique)
            && RowsOf(l.rows, r) <= RowsOf(next.rows, r)
            && (s != r ==> RowsOf(next.rows, s) == RowsOf(l.rows, s))
            && l.unique + l.duplicates <= next.unique + next.duplicates <= l.unique + l.duplicates + 1
            && l.unique <= next.unique
            && (PrimaryUrl(naming, b).Some? ==> next.unique + next.duplicates == l.unique + l.duplicates + 1)
  {
    hide PrimaryUrl, KeyOf, RowsOf;
    var row := Row(id, r, KeyOf(naming, b), first + l.unique);
    HoldsInRun(l.rows, r, row.key);
    RowsAppend(l.rows, row, r);
    RowsAppend(l.rows, row, s);
  }

  // Listing a report appends ranked rows for its own run only.
  lemma {:induction false} ListingRanks(naming: Naming, rows: seq<Row>, r: RunId, businesses: seq<A.Business>,
                                        ids: seq<BusinessId>, s: RunId)
    requires |ids| == |businesses| && Ranked(RowsOf(rows, r))
    ensures var l := ListAll(naming, rows, r, businesses, ids);
            && Ranked(RowsOf(l.rows, r))
            && |RowsOf(l.rows, r)| == |RowsOf(rows, r)| + l.unique
            && RowsOf(rows, r) <= RowsOf(l.rows, r)
            && (s != r ==> RowsOf(l.rows, s) == RowsOf(rows, s))
            && l.unique + l.duplicates <= |businesses|
            && ((forall b :: b in businesses ==> PrimaryUrl(naming, b).Some?) ==> l.unique + l.duplicates == |businesses|)
  {
    hide PrimaryUrl, KeyOf, MaxRank, Ranked, RowsOf, ListOne;
    if businesses != [] {
      var last := |businesses| - 1;
      ListingRanks(naming, rows, r, businesses[..last], ids[..last], s);
      RankedMax(RowsOf(rows, r));
      ListOneRanks(naming, ListAll(naming, rows, r, businesses[..last], ids[..last]), MaxRank(RowsOf(rows, r)) + 1,
                   r, businesses[last], ids[last], s);
    }
  }

  // Whatever is recorded, the counters stay equal to what they count, ranks are exactly one to n,
  // and the progress list only ever grows at its end.
  lemma RecordConserves(naming: Naming, db: DiscoveryTables, report: Report, r: RunId)
    requires |report.ids| == |report.businesses| && Conserved(db, r) && Conserved(db, report.runId)
    ensures Conserved(Record(naming, db, report), r)
    ensures Progress(db.businesses, r) <= Progress(Record(naming, db, report).businesses, r)
  {
    hide Conserved, Record, Progress;
    if Asked(db.queries, report.runId, report.query) {
      AskedAlready(naming, db, report);
    } else if r == report.runId {
      RecordConservesOwn(naming, db, report);
    } else {
      RecordLeavesOthers(naming, db, report, r);
    }
  }

  lemma AskedAlready(naming: Naming, db: DiscoveryTables, report: Report)
    requires |report.ids| == |report.businesses| && Asked(db.queries, report.runId, report.query)
    ensures Record(naming, db, report) == db
  {
  }

  lemma RecordConservesOwn(naming: Naming, db: DiscoveryTables, report: Report)
    requires |report.ids| == |report.businesses| && Conserved(db, report.runId)
    requires !Asked(db.queries, report.runId, report.query)
    ensures Conserved(Record(naming, db, report), report.runId)
    ensures Progress(db.businesses, report.runId) <= Progress(Record(naming, db, report).businesses, report.runId)
  {
    hide Ranked, OnceEach, Asked, ListAll, Progress, SumUnique, SumDuplicates, RowsOf, QueriesOf;
    var r := report.runId;
    var l := ListAll(naming, db.businesses, r, report.businesses, report.ids);
    var query := QueryRow(r, report.query, l.unique, l.duplicates);
    ListingRanks(naming, db.businesses, r, report.businesses, report.ids, r);
    QueriesAppend(db.queries, query, r);
    SumsAppend(QueriesOf(db.queries, r), query);
    NewQuery(db.queries, query);
    ProgressGrows(db.businesses, l.rows, r);
  }

  lemma RecordLeavesOthers(naming: Naming, db: DiscoveryTables, report: Report, r: RunId)
    requires |report.ids| == |report.businesses| && r != report.runId
    requires Conserved(db, r) && Conserved(db, report.runId)
    ensures Conserved(Record(naming, db, report), r)
    ensures Progress(db.businesses, r) == Progress(Record(naming, db, report).businesses, r)
  {
    hide Ranked, OnceEach, Asked, ListAll, SumUnique, SumDuplicates, RowsOf, QueriesOf, ByRank;
    var l := ListAll(naming, db.businesses, report.runId, report.businesses, report.ids);
    ListingRanks(naming, db.businesses, report.runId, report.businesses, report.ids, r);
    QueriesAppend(db.queries, QueryRow(report.runId, report.query, l.unique, l.duplicates), r);
  }

  lemma NewQuery(rows: seq<QueryRow>, query: QueryRow)
    requires !Asked(rows, query.runId, query.text) && OnceEach(QueriesOf(rows, query.runId))
    ensures OnceEach(QueriesOf(rows, query.runId) + [query])
  {
    AskedInRun(rows, query.runId, query.text);
  }

  lemma ProgressGrows(before: seq<Row>, after: seq<Row>, r: RunId)
    requires Ranked(RowsOf(before, r)) && Ranked(RowsOf(after, r)) && RowsOf(before, r) <= RowsOf(after, r)
    ensures Progress(before, r) <= Progress(after, r) && |Progress(after, r)| == |RowsOf(after, r)|
  {
    hide Progress, Ranked;
    ProgressInOrder(before, r);
    ProgressInOrder(after, r);
  }

  lemma SumsAppend(rows: seq<QueryRow>, row: QueryRow)
    ensures SumUnique(rows + [row]) == SumUnique(rows) + row.unique
    ensures SumDuplicates(rows + [row]) == SumDuplicates(rows) + row.duplicates
  {
    assert (rows + [row])[..|rows|] == rows;
  }

  // ---- over any sequence of reports ----

  function RecordAll(naming: Naming, db: DiscoveryTables, reports: seq<Report>): DiscoveryTables
    requires forall report :: report in reports ==> |report.ids| == |report.businesses|
  {
    if reports == [] then db
    else Record(naming, RecordAll(naming, db, reports[..|reports| - 1]), reports[|reports| - 1])
  }

  lemma {:induction false} Conservation(naming: Naming, metrics: map<RunId, Metrics>, reports: seq<Report>, r: RunId)
    requires forall report :: report in reports ==> |report.ids| == |report.businesses|
    requires forall s :: s in metrics ==> metrics[s] == Metrics(0, 0, 0)
    ensures Conserved(RecordAll(naming, DiscoveryTables([], [], metrics), reports), r)
  {
    if reports != [] {
      hide Record, Conserved;
      var before := reports[..|reports| - 1];
      Conservation(naming, metrics, before, r);
      Conservation(naming, metrics, before, reports[|reports| - 1].runId);
      RecordConserves(naming, RecordAll(naming, DiscoveryTables([], [], metrics), before), reports[|reports| - 1], r);
    }
  }

  // A query is recorded once: repeating it, with whatever businesses, changes nothing.
  lemma RepeatChangesNothing(naming: Naming, db: DiscoveryTables, report: Report, again: Report)
    requires |report.ids| == |report.businesses| && |again.ids| == |again.businesses|
    requires again.runId == report.runId && again.query == report.query
    ensures Record(naming, Record(naming, db, report), again) == Record(naming, db, report)
    ensures RecordedBy(naming, Record(naming, db, report), again).uniqueAdded == 0
    ensures RecordedBy(naming, Record(naming, db, report), again).progress
            == Progress(Record(naming, db, report).businesses, report.runId)
  {
    hide ListAll, Progress;
    var after := Record(naming, db, report);
    if !Asked(db.queries, report.runId, report.query) {
      assert after.queries[|after.queries| - 1].text == report.query;
    }
  }

  // ---- verified reports ----

  lemma {:induction false} FirstPublicExists(naming: Naming, urls: seq<string>, u: string)
    requires u in urls && naming.normalizeUrl(u).Some?
    ensures FirstPublic(naming, urls).Some?
  {
    if urls[0] != u { FirstPublicExists(naming, urls[1..], u); }
  }

  // Every business verification keeps is listed: none is skipped, so new and duplicate ones add up.
  lemma VerifiedAreListed(naming: Naming, rules: A.Rules, report: string, countryCode: string,
                          structure: seq<A.Business>, db: DiscoveryTables, r: RunId, query: string, ids: seq<BusinessId>)
    requires forall u :: rules.isPublic(u) <==> naming.normalizeUrl(u).Some?
    requires |ids| == |A.VerifiedAll(A.EvidenceOf(rules, report, countryCode, structure), structure)|
    requires !Asked(db.queries, r, query) && Conserved(db, r)
    ensures var verified := A.VerifiedAll(A.EvidenceOf(rules, report, countryCode, structure), structure);
            var recorded := RecordedBy(naming, db, Report(r, query, verified, ids));
            recorded.uniqueAdded + recorded.duplicates == |verified|
  {
    hide ByRank, ListAll, A.VerifiedAll, A.EvidenceOf, Ranked, OnceEach;
    var verified := A.VerifiedAll(A.EvidenceOf(rules, report, countryCode, structure), structure);
    forall b | b in verified
      ensures PrimaryUrl(naming, b).Some?
    {
      A.UrlsAreInReport(rules, report, countryCode, structure, b);
      var source := b.sourceUrls[0];
      assert A.InReport(rules, report, source);
      var candidates := (if b.websiteUrl.Some? then [b.websiteUrl.value] else []) + b.sourceUrls;
      assert source in candidates;
      FirstPublicExists(naming, candidates, source);
    }
    ListingRanks(naming, db.businesses, r, verified, ids, r);
  }
}
