// What recording a report adds, told business by business, and when an attempt at a search stops.

module DiscoveryLaws {
  import opened Wrappers
  import opened RunTables
  import opened Discovery
  import opened DiscoveryAttempts
  import A = Attribution

  // ---- which listings are one business ----

  function NameIn(naming: Naming, b: A.Business): string { naming.normalizeName(b.name) }

  function PlaceIn(naming: Naming, b: A.Business): string { naming.normalizeName(b.profile.locality) }

  // One name runs into the other's place: it is that name, a bar and more, and the place is that more,
  // a bar and this place.
  ghost predicate RunsInto(long: string, place: string, short: string, other: string) {
    exists more: string :: long == short + "|" + more && other == more + "|" + place
  }

  lemma JoinsCollide(a: string, b: string, c: string, d: string)
    requires |a| >= |c|
    ensures a + "|" + b == c + "|" + d <==> (a == c && b == d) || RunsInto(a, b, c, d)
  {
    if a + "|" + b == c + "|" + d {
      var s := a + "|" + b;
      assert s[..|a|] == a && s[|a|] == '|' && s[|a| + 1..] == b;
      assert s[..|c|] == c && s[|c|] == '|' && s[|c| + 1..] == d;
      if |a| > |c| {
        var more := a[|c| + 1..];
        assert a[..|c|] == c && a[|c|] == '|';
        assert a == c + "|" + more;
        assert d == more + "|" + b;
      }
    }
    if more: string :| a == c + "|" + more && d == more + "|" + b {
      assert a + "|" + b == c + ("|" + more + "|" + b) == c + "|" + d;
    }
  }

  // Two listings get one key exactly when they have one normalised name in one normalised place, or
  // one of the names runs into the other's place over a bar of its own.
  lemma KeysTell(naming: Naming, a: A.Business, b: A.Business)
    ensures KeyOf(naming, a) == KeyOf(naming, b)
            <==> || (NameIn(naming, a) == NameIn(naming, b) && PlaceIn(naming, a) == PlaceIn(naming, b))
                 || RunsInto(NameIn(naming, a), PlaceIn(naming, a), NameIn(naming, b), PlaceIn(naming, b))
                 || RunsInto(NameIn(naming, b), PlaceIn(naming, b), NameIn(naming, a), PlaceIn(naming, a))
    // So names without a bar are told apart, and so is one name in two places.
    ensures '|' !in NameIn(naming, a) && '|' !in NameIn(naming, b) ==>
              (KeyOf(naming, a) == KeyOf(naming, b)
               <==> NameIn(naming, a) == NameIn(naming, b) && PlaceIn(naming, a) == PlaceIn(naming, b))
    ensures NameIn(naming, a) == NameIn(naming, b) && PlaceIn(naming, a) != PlaceIn(naming, b) ==>
              KeyOf(naming, a) != KeyOf(naming, b)
  {
    hide RunsInto;
    var n, l, m, k := NameIn(naming, a), PlaceIn(naming, a), NameIn(naming, b), PlaceIn(naming, b);
    var front := naming.source + ":";
    assert KeyOf(naming, a) == front + (n + "|" + l) && KeyOf(naming, b) == front + (m + "|" + k);
    assert (front + (n + "|" + l))[|front|..] == n + "|" + l && (front + (m + "|" + k))[|front|..] == m + "|" + k;
    RunsOnlyForward(n, l, m, k);
    RunsOnlyForward(m, k, n, l);
    if |n| >= |m| { JoinsCollide(n, l, m, k); } else { JoinsCollide(m, k, n, l); }
  }

  lemma RunsOnlyForward(long: string, place: string, short: string, other: string)
    ensures RunsInto(long, place, short, other) ==> |long| > |short| && '|' in long
  {
    if more: string :| long == short + "|" + more && other == more + "|" + place {
      assert long[|short|] == '|';
    }
  }

  // A business whose name holds a bar, and a namesake of its first half, are taken for one.
  lemma BarredNamesCollide(naming: Naming, a: A.Business, b: A.Business)
    requires NameIn(naming, a) == "bar|kort" && PlaceIn(naming, a) == "łódź"
    requires NameIn(naming, b) == "bar" && PlaceIn(naming, b) == "kort|łódź"
    ensures KeyOf(naming, a) == KeyOf(naming, b)
  {
    var more: string := "kort";
    assert "bar|kort" == "bar" + "|" + more && "kort|łódź" == more + "|" + "łódź";
    assert RunsInto("bar|kort", "łódź", "bar", "kort|łódź");
    KeysTell(naming, a, b);
  }

  // The page a business is listed by is its website if that has a public form, else the first of its
  // sources that has; without one it is not listed.
  lemma {:induction false} FirstPublicMeans(naming: Naming, urls: seq<string>, i: nat)
    requires i < |urls| && naming.normalizeUrl(urls[i]).Some?
    requires forall j :: 0 <= j < i ==> naming.normalizeUrl(urls[j]).None?
    ensures FirstPublic(naming, urls) == naming.normalizeUrl(urls[i])
  {
    if i > 0 { FirstPublicMeans(naming, urls[1..], i - 1); }
  }

  lemma {:induction false} NonePublic(naming: Naming, urls: seq<string>)
    ensures FirstPublic(naming, urls).None? <==> forall url :: url in urls ==> naming.normalizeUrl(url).None?
  {
    if urls != [] {
      NonePublic(naming, urls[1..]);
      assert forall url :: url in urls <==> url == urls[0] || url in urls[1..];
    }
  }

  ghost predicate HasPage(naming: Naming, b: A.Business) {
    || (b.websiteUrl.Some? && naming.normalizeUrl(b.websiteUrl.value).Some?)
    || exists url :: url in b.sourceUrls && naming.normalizeUrl(url).Some?
  }

  lemma PageMeans(naming: Naming, b: A.Business)
    ensures PrimaryUrl(naming, b).Some? <==> HasPage(naming, b)
    ensures b.websiteUrl.Some? && naming.normalizeUrl(b.websiteUrl.value).Some? ==>
              PrimaryUrl(naming, b) == naming.normalizeUrl(b.websiteUrl.value)
  {
    hide FirstPublic;
    var urls := (if b.websiteUrl.Some? then [b.websiteUrl.value] else []) + b.sourceUrls;
    NonePublic(naming, urls);
    assert forall url :: url in urls <==> (b.websiteUrl.Some? && url == b.websiteUrl.value) || url in b.sourceUrls;
    if b.websiteUrl.Some? && naming.normalizeUrl(b.websiteUrl.value).Some? { FirstPublicMeans(naming, urls, 0); }
  }

  // ---- what a report adds ----

  // The run held a row of the key before the report.
  ghost predicate HeldBefore(db: DiscoveryTables, r: RunId, key: string) {
    exists row :: row in db.businesses && row.runId == r && row.key == key
  }

  // An earlier business of the report is listed by the same key.
  ghost predicate NamedEarlier(naming: Naming, businesses: seq<A.Business>, i: nat)
    requires i < |businesses|
  {
    exists j :: 0 <= j < i && HasPage(naming, businesses[j]) && KeyOf(naming, businesses[j]) == KeyOf(naming, businesses[i])
  }

  ghost predicate IsNew(naming: Naming, db: DiscoveryTables, r: RunId, businesses: seq<A.Business>, i: nat)
    requires i < |businesses|
  {
    && HasPage(naming, businesses[i]) && !HeldBefore(db, r, KeyOf(naming, businesses[i]))
    && !NamedEarlier(naming, businesses, i)
  }

  // The indices of the new businesses of a report, in its order.
  ghost function NewOnes(naming: Naming, db: DiscoveryTables, r: RunId, businesses: seq<A.Business>, n: nat): (news: seq<nat>)
    requires n <= |businesses|
    ensures forall k :: 0 <= k < |news| ==> news[k] < n
  {
    if n == 0 then []
    else NewOnes(naming, db, r, businesses, n - 1) + if IsNew(naming, db, r, businesses, n - 1) then [n - 1] else []
  }

  // How many of the first n businesses have a page.
  ghost function Listable(naming: Naming, businesses: seq<A.Business>, n: nat): nat
    requires n <= |businesses|
  {
    if n == 0 then 0 else Listable(naming, businesses, n - 1) + if HasPage(naming, businesses[n - 1]) then 1 else 0
  }

  // The rows of the new businesses: their own identifiers, the run, their keys, and the ranks that follow.
  ghost predicate AddedRows(naming: Naming, report: Report, news: seq<nat>, first: nat, rows: seq<Row>)
    requires |report.ids| == |report.businesses| && forall k :: 0 <= k < |news| ==> news[k] < |report.businesses|
  {
    && |rows| == |news|
    && forall k :: 0 <= k < |rows| ==>
         rows[k] == Row(report.ids[news[k]], report.runId, KeyOf(naming, report.businesses[news[k]]), first + k)
  }

  // The keys of the run's rows after the first n businesses: those held before and those listed.
  ghost predicate HoldsThese(naming: Naming, db: DiscoveryTables, report: Report, n: nat, rows: seq<Row>)
    requires n <= |report.businesses|
  {
    forall key :: Holds(rows, report.runId, key)
      <==> HeldBefore(db, report.runId, key)
           || exists j :: 0 <= j < n && HasPage(naming, report.businesses[j]) && KeyOf(naming, report.businesses[j]) == key
  }

  lemma NothingListed(naming: Naming, db: DiscoveryTables, report: Report)
    ensures HoldsThese(naming, db, report, 0, db.businesses)
  {
    forall key
      ensures Holds(db.businesses, report.runId, key) <==> HeldBefore(db, report.runId, key)
    {
      if row :| row in db.businesses && row.runId == report.runId && row.key == key {
        var i :| 0 <= i < |db.businesses| && db.businesses[i] == row;
      }
    }
  }

  lemma OneMoreListed(naming: Naming, db: DiscoveryTables, report: Report, n: nat, l: Listing, first: nat, id: BusinessId)
    requires n < |report.businesses| && HoldsThese(naming, db, report, n, l.rows)
    ensures var b := report.businesses[n];
            var next := ListOne(naming, l, first, report.runId, b, id);
            && HoldsThese(naming, db, report, n + 1, next.rows)
            && next == if IsNew(naming, db, report.runId, report.businesses, n)
                       then Listing(l.rows + [Row(id, report.runId, KeyOf(naming, b), first + l.unique)],
                                    l.unique + 1, l.duplicates)
                       else if HasPage(naming, b) then l.(duplicates := l.duplicates + 1) else l
  {
    hide KeyOf, PrimaryUrl, HasPage, HeldBefore, Holds;
    var b := report.businesses[n];
    PageMeans(naming, b);
    var row := Row(id, report.runId, KeyOf(naming, b), first + l.unique);
    assert IsNew(naming, db, report.runId, report.businesses, n)
           <==> HasPage(naming, b) && !Holds(l.rows, report.runId, KeyOf(naming, b));
    forall key
      ensures Holds(l.rows + [row], report.runId, key) <==> Holds(l.rows, report.runId, key) || row.key == key
    {
      HoldsAppend(l.rows, row, report.runId, key);
    }
  }

  lemma {:induction false} Lists(naming: Naming, db: DiscoveryTables, report: Report, n: nat)
    requires |report.ids| == |report.businesses| && n <= |report.businesses|
    ensures var l := ListAll(naming, db.businesses, report.runId, report.businesses[..n], report.ids[..n]);
            var news := NewOnes(naming, db, report.runId, report.businesses, n);
            && HoldsThese(naming, db, report, n, l.rows)
            && |l.rows| >= |db.businesses| && l.rows[..|db.businesses|] == db.businesses
            && AddedRows(naming, report, news, MaxRank(RowsOf(db.businesses, report.runId)) + 1, l.rows[|db.businesses|..])
            && l.unique == |news| && l.unique + l.duplicates == Listable(naming, report.businesses, n)
  {
    hide HoldsThese, IsNew, HasPage, ListOne, KeyOf, MaxRank, RowsOf;
    if n == 0 {
      NothingListed(naming, db, report);
    } else {
      Lists(naming, db, report, n - 1);
      var r := report.runId;
      assert report.businesses[..n][..n - 1] == report.businesses[..n - 1] && report.ids[..n][..n - 1] == report.ids[..n - 1];
      var l := ListAll(naming, db.businesses, r, report.businesses[..n - 1], report.ids[..n - 1]);
      OneMoreListed(naming, db, report, n - 1, l, MaxRank(RowsOf(db.businesses, r)) + 1, report.ids[n - 1]);
      NewHasPage(naming, db, r, report.businesses, n - 1);
    }
  }

  lemma NewHasPage(naming: Naming, db: DiscoveryTables, r: RunId, businesses: seq<A.Business>, i: nat)
    requires i < |businesses|
    ensures IsNew(naming, db, r, businesses, i) ==> HasPage(naming, businesses[i])
  {
  }

  // The first report on a query adds a row for exactly the businesses that have a page, are not in the
  // run and are not named earlier in the report, in its order, ranked after all of the run's; those
  // with a page and no row of their own are the duplicates; the query and the counters say so. Any
  // further report on the query adds nothing.
  lemma RecordLaw(naming: Naming, db: DiscoveryTables, report: Report)
    requires |report.ids| == |report.businesses|
    ensures var after, recorded := Record(naming, db, report), RecordedBy(naming, db, report);
            var r, m := report.runId, |db.businesses|;
            var news := NewOnes(naming, db, r, report.businesses, |report.businesses|);
            var listable := Listable(naming, report.businesses, |report.businesses|);
            if exists q :: q in db.queries && q.runId == r && q.text == report.query then
              after == db && recorded == Recorded(0, 0, Progress(db.businesses, r))
            else
              && m <= |after.businesses| && after.businesses[..m] == db.businesses
              && AddedRows(naming, report, news, MaxRank(RowsOf(db.businesses, r)) + 1, after.businesses[m..])
              && |news| <= listable
              && after.queries == db.queries + [QueryRow(r, report.query, |news|, listable - |news|)]
              && recorded == Recorded(|news|, listable - |news|, Progress(after.businesses, r))
              && after.metrics.Keys == db.metrics.Keys
              && (forall s :: s in db.metrics && s != r ==> after.metrics[s] == db.metrics[s])
              && (r in db.metrics ==>
                    after.metrics[r] == Metrics(db.metrics[r].queries + 1, |Progress(after.businesses, r)|,
                                                db.metrics[r].duplicates + (listable - |news|)))
  {
    hide ListAll, AddedRows, NewOnes, Listable, MaxRank, RowsOf, Progress;
    Lists(naming, db, report, |report.businesses|);
    assert report.businesses[..|report.businesses|] == report.businesses && report.ids[..|report.ids|] == report.ids;
    if q :| q in db.queries && q.runId == report.runId && q.text == report.query {
      var i :| 0 <= i < |db.queries| && db.queries[i] == q;
    }
  }

  // ---- when an attempt stops ----

  // A report that adds a business sends its attempt on to the next query; one that adds none does so
  // only if the report heard before it added some, and otherwise ends the attempt.
  lemma HearingLaw(s: Search, world: World, m: Move)
    requires m.Hear? && Fits(s, world, m)
    ensures var before, after := world.attempts[m.w], Step(s, world, m).attempts[m.w];
            var report := Report(s.runId, s.plan[before.phase.next], m.businesses, m.ids);
            var added := RecordedBy(s.naming, world.db, report).uniqueAdded;
            && (added > 0 ==> after.phase == Looking(before.phase.next + 1) && after.empty == 0)
            && (added == 0 && before.empty == 0 ==> after.phase == Looking(before.phase.next + 1) && after.empty == 1)
            && (added == 0 && before.empty > 0 ==> after.phase == Ended)
  {
    hide Record, RecordedBy;
  }

  // An attempt asks the next query of its plan that nobody completed, unless it has read the target as
  // met or the plan is at its end.
  lemma LookingLaw(s: Search, world: World, m: Move)
    requires m.Look? && Fits(s, world, m)
    ensures var before, after := world.attempts[m.w], Step(s, world, m).attempts[m.w];
            var next := before.phase.next;
            && Step(s, world, m).db == world.db
            && after.seen == before.seen && after.empty == before.empty
            && (after.phase == Ended <==> before.seen >= s.target || next >= |s.plan|)
            && (after.phase == Looking(next + 1) <==> before.seen < s.target && next < |s.plan| && Done(s, world.db, next))
            && (after.phase == Asking(next) <==> before.seen < s.target && next < |s.plan| && !Done(s, world.db, next))
  {
    var before := world.attempts[m.w];
    var next := before.phase.next;
    if next < |s.plan| && Done(s, world.db, next) {
      var q :| q in world.db.queries && q.runId == s.runId && q.text == s.plan[next];
      var i :| 0 <= i < |world.db.queries| && world.db.queries[i] == q;
    }
  }

  ghost predicate Done(s: Search, db: DiscoveryTables, next: nat)
    requires next < |s.plan|
  {
    exists q :: q in db.queries && q.runId == s.runId && q.text == s.plan[next]
  }
}
