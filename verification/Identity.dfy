// Committing identity decisions: which discovered listings are one business, and which one listing
// of a business a run goes on with.

module Identity {
  import opened Wrappers
  import opened RunTables

  type CanonicalId = nat

  // A commit writes the first six; inspection, assessment and scoring the others.
  datatype Status =
    | Eligible | Ambiguous | Excluded | SkippedRecent | IncludedRecent | DuplicateCandidate
    | Inspected | InspectionPartial | InspectionBlocked | NoWebsite | Assessed | Candidate | BelowThreshold

  // The three verdicts an evaluation reaches; a commit may turn Eligible into another status.
  type Verdict = s: Status | s == Eligible || s == Ambiguous || s == Excluded witness Eligible

  datatype Policy = Skip | IncludeWithoutReassessment | Reassess

  datatype Canonical = Canonical(fingerprint: string, lastAssessedAt: Option<Instant>)

  datatype RunBusiness = RunBusiness(canonical: Option<CanonicalId>, status: Status)

  // A contact route or an online presence: the text that tells it from the listing's others, and the
  // key other listings are matched by.
  datatype Route = Route(value: string, matchKey: Option<string>)

  // A listing's stored routes, under the business they were stored for.
  datatype Stored = Stored(canonical: Option<CanonicalId>, routes: seq<Route>)

  datatype Evaluation = Evaluation(
    status: Verdict,
    fingerprint: Option<string>,
    presences: seq<Route>,
    contacts: seq<Route>)

  datatype Commitment = Commitment(
    runId: RunId, business: BusinessId, evaluation: Evaluation, policy: Policy, now: Instant,
    // The identifier a new canonical business would get.
    newId: CanonicalId)

  type Listing = (RunId, BusinessId)

  datatype IdentityTables = IdentityTables(
    canonicals: map<CanonicalId, Canonical>,
    listings: map<Listing, RunBusiness>,
    contacts: map<Listing, Stored>,
    presences: map<Listing, Stored>,
    exclusions: map<RunId, nat>,
    suppressed: set<string>)

  const RECENT: int := 30 * 24 * 60 * 60 * 1000

  // The candidates a run still acts on.
  predicate Live(status: Status) {
    status == Eligible || status == SkippedRecent || status == IncludedRecent
  }

  predicate CountsAsExcluded(status: Status) {
    status == Ambiguous || status == Excluded || status == SkippedRecent || status == DuplicateCandidate
  }

  // ---- resolving a canonical business ----

  predicate Fingerprinted(db: IdentityTables, c: CanonicalId, fingerprint: string) {
    c in db.canonicals && db.canonicals[c].fingerprint == fingerprint
  }

  predicate Keyed(routes: seq<Route>, keys: seq<Route>) {
    exists i, j :: 0 <= i < |routes| && 0 <= j < |keys| && keys[j].matchKey.Some? && routes[i].matchKey == keys[j].matchKey
  }

  predicate StoredFor(stored: map<Listing, Stored>, c: CanonicalId, keys: seq<Route>) {
    exists l :: l in stored && stored[l].canonical == Some(c) && Keyed(stored[l].routes, keys)
  }

  // A route stored for the business carries a key of the evaluation's routes.
  predicate SharesRoute(db: IdentityTables, c: CanonicalId, e: Evaluation) {
    StoredFor(db.contacts, c, e.contacts + e.presences) || StoredFor(db.presences, c, e.contacts + e.presences)
  }

  // The business the evaluation resolves to: by its fingerprint first, then by any shared route
  // (whichever the query returns), else a new one.
  predicate Resolves(db: IdentityTables, x: Commitment, resolved: Option<CanonicalId>) {
    match x.evaluation.fingerprint
    case None => resolved == None
    case Some(fingerprint) =>
      && resolved.Some?
      && var c := resolved.value;
         if exists k :: k in db.canonicals && db.canonicals[k].fingerprint == fingerprint then
           Fingerprinted(db, c, fingerprint)
         else if exists k :: k in db.canonicals && SharesRoute(db, k, x.evaluation) then
           c in db.canonicals && SharesRoute(db, c, x.evaluation)
         else c == x.newId
  }

  function WithCanonical(db: IdentityTables, x: Commitment, resolved: Option<CanonicalId>): map<CanonicalId, Canonical> {
    if resolved.Some? && x.evaluation.fingerprint.Some? && resolved.value !in db.canonicals
    then db.canonicals[resolved.value := Canonical(x.evaluation.fingerprint.value, None)]
    else db.canonicals
  }

  // ---- the decision ----

  predicate RecentlyAssessed(canonicals: map<CanonicalId, Canonical>, c: CanonicalId, now: Instant) {
    c in canonicals && canonicals[c].lastAssessedAt.Some? && canonicals[c].lastAssessedAt.value >= now - RECENT
  }

  // Another listing of the run was corroborated to the same business, with whatever outcome.
  predicate ListedElsewhere(db: IdentityTables, r: RunId, d: BusinessId, c: CanonicalId) {
    exists l :: l in db.listings && l.0 == r && l.1 != d && db.listings[l].canonical == Some(c)
  }

  function Decision(db: IdentityTables, x: Commitment, resolved: Option<CanonicalId>): Status {
    if x.evaluation.status != Eligible then x.evaluation.status
    else if x.evaluation.fingerprint.Some? && x.evaluation.fingerprint.value in db.suppressed then Excluded
    else if resolved.Some? && ListedElsewhere(db, x.runId, x.business, resolved.value) then DuplicateCandidate
    else if resolved.Some? && RecentlyAssessed(WithCanonical(db, x, resolved), resolved.value, x.now) then
      match x.policy
      case Skip => SkippedRecent
      case IncludeWithoutReassessment => IncludedRecent
      case Reassess => Eligible
    else Eligible
  }

  function ExcludedListings(listings: map<Listing, RunBusiness>, r: RunId): set<Listing> {
    set l | l in listings && l.0 == r && CountsAsExcluded(listings[l].status)
  }

  // The first route of every value.
  function FirstByValue(routes: seq<Route>): seq<Route> {
    if routes == [] then []
    else
      var earlier := FirstByValue(routes[..|routes| - 1]);
      var last := routes[|routes| - 1];
      if exists i :: 0 <= i < |earlier| && earlier[i].value == last.value then earlier else earlier + [last]
  }

  function Committed(db: IdentityTables, x: Commitment, resolved: Option<CanonicalId>): IdentityTables {
    var l := (x.runId, x.business);
    var listings := db.listings[l := RunBusiness(resolved, Decision(db, x, resolved))];
    IdentityTables(
      WithCanonical(db, x, resolved),
      listings,
      if resolved.Some? then db.contacts[l := Stored(resolved, FirstByValue(x.evaluation.contacts))] else db.contacts,
      db.presences[l := Stored(resolved, FirstByValue(x.evaluation.presences))],
      db.exclusions[x.runId := |ExcludedListings(listings, x.runId)|],
      db.suppressed)
  }

  // ---- as it runs ----

  class IdentityRepository {
    var canonicals: map<CanonicalId, Canonical>
    var listings: map<Listing, RunBusiness>
    var contacts: map<Listing, Stored>
    var presences: map<Listing, Stored>
    var exclusions: map<RunId, nat>
    var suppressed: set<string>

    function Contents(): IdentityTables
      reads this
    {
      IdentityTables(canonicals, listings, contacts, presences, exclusions, suppressed)
    }

    constructor ()
      ensures Contents() == IdentityTables(map[], map[], map[], map[], map[], {})
    {
      canonicals, listings, contacts, presences, exclusions, suppressed := map[], map[], map[], map[], map[], {};
    }

    method ResolveCanonical(x: Commitment) returns (resolved: CanonicalId)
      requires x.evaluation.fingerprint.Some?
      ensures Resolves(Contents(), x, Some(resolved))
    {
      hide SharesRoute;
      var fingerprint := x.evaluation.fingerprint.value;
      var rest := canonicals.Keys;
      while rest != {}
        invariant rest <= canonicals.Keys
        invariant forall c :: c in canonicals && c !in rest ==> canonicals[c].fingerprint != fingerprint
        decreases rest
      {
        var c :| c in rest;
        if canonicals[c].fingerprint == fingerprint { return c; }
        rest := rest - {c};
      }
      rest := canonicals.Keys;
      while rest != {}
        invariant rest <= canonicals.Keys
        invariant forall c :: c in canonicals && c !in rest ==> !SharesRoute(Contents(), c, x.evaluation)
        decreases rest
      {
        var c :| c in rest;
        if SharesRoute(Contents(), c, x.evaluation) { return c; }
        rest := rest - {c};
      }
      return x.newId;
    }

    method ReplaceRoutes(routes: seq<Route>) returns (kept: seq<Route>)
      ensures kept == FirstByValue(routes)
    {
      kept := [];
      var seen: set<string> := {};
      for i := 0 to |routes|
        invariant kept == FirstByValue(routes[..i])
        invariant forall v :: v in seen <==> exists k :: 0 <= k < |kept| && kept[k].value == v
      {
        assert routes[..i + 1][..i] == routes[..i];
        if routes[i].value in seen { continue; }
        seen := seen + {routes[i].value};
        ghost var before := kept;
        kept := kept + [routes[i]];
        assert forall k :: 0 <= k < |before| ==> kept[k] == before[k];
        assert kept[|before|].value == routes[i].value;
      }
      assert routes[..|routes|] == routes;
    }

    method CommitEvaluation(x: Commitment) returns (resolved: Option<CanonicalId>, status: Status, shouldInspect: bool)
      requires x.newId !in canonicals
      modifies this
      ensures Resolves(old(Contents()), x, resolved)
      ensures Contents() == Committed(old(Contents()), x, resolved)
      ensures listings[(x.runId, x.business)].status == status
      ensures shouldInspect <==> status == Eligible && resolved.Some?
    {
      hide Resolves, FirstByValue, ExcludedListings, RecentlyAssessed;
      var l := (x.runId, x.business);
      resolved := None;
      if x.evaluation.fingerprint.Some? {
        var c := ResolveCanonical(x);
        resolved := Some(c);
        if c !in canonicals {
          canonicals := canonicals[c := Canonical(x.evaluation.fingerprint.value, None)];
        }
      } else {
        NothingToResolve(Contents(), x);
      }
      var recentlyAssessed := resolved.Some? && RecentlyAssessed(canonicals, resolved.value, x.now);
      var isSuppressed := x.evaluation.fingerprint.Some? && x.evaluation.fingerprint.value in suppressed;
      var duplicate := resolved.Some? && ListedElsewhere(Contents(), x.runId, x.business, resolved.value);
      status := if x.evaluation.status != Eligible then x.evaluation.status
                else if isSuppressed then Excluded
                else if duplicate then DuplicateCandidate
                else if recentlyAssessed && x.policy == Skip then SkippedRecent
                else if recentlyAssessed && x.policy == IncludeWithoutReassessment then IncludedRecent
                else Eligible;
      listings := listings[l := RunBusiness(resolved, status)];
      var kept := ReplaceRoutes(x.evaluation.presences);
      presences := presences[l := Stored(resolved, kept)];
      if resolved.Some? {
        kept := ReplaceRoutes(x.evaluation.contacts);
        contacts := contacts[l := Stored(resolved, kept)];
      }
      exclusions := exclusions[x.runId := |ExcludedListings(listings, x.runId)|];
      shouldInspect := status == Eligible && resolved.Some?;
    }
  }

  lemma NothingToResolve(db: IdentityTables, x: Commitment)
    requires x.evaluation.fingerprint.None?
    ensures Resolves(db, x, None)
  {
  }

  // ---- what every sequence of commits keeps ----

  ghost predicate LiveListing(db: IdentityTables, l: Listing, r: RunId, c: CanonicalId) {
    l in db.listings && l.0 == r && db.listings[l].canonical == Some(c) && Live(db.listings[l].status)
  }

  ghost predicate OneLive(db: IdentityTables) {
    forall a, b, r, c :: LiveListing(db, a, r, c) && LiveListing(db, b, r, c) ==> a == b
  }

  ghost predicate DistinctFingerprints(db: IdentityTables) {
    forall a, b :: (a in db.canonicals && b in db.canonicals
                    && db.canonicals[a].fingerprint == db.canonicals[b].fingerprint) ==> a == b
  }

  // Every business a listing names is in the table.
  ghost predicate KnownCanonicals(db: IdentityTables) {
    forall l :: l in db.listings && db.listings[l].canonical.Some? ==> db.listings[l].canonical.value in db.canonicals
  }

  ghost predicate Coherent(db: IdentityTables) {
    OneLive(db) && DistinctFingerprints(db) && KnownCanonicals(db)
  }

  lemma OneLiveKept(db: IdentityTables, x: Commitment, resolved: Option<CanonicalId>)
    requires OneLive(db)
    ensures OneLive(Committed(db, x, resolved))
  {
    hide FirstByValue, ExcludedListings, WithCanonical, RecentlyAssessed;
    var after := Committed(db, x, resolved);
    var l := (x.runId, x.business);
    forall a, b, r, c | LiveListing(after, a, r, c) && LiveListing(after, b, r, c)
      ensures a == b
    {
      if a != l && b != l {
        assert LiveListing(db, a, r, c) && LiveListing(db, b, r, c);
      }
    }
  }

  lemma CommitKeeps(db: IdentityTables, x: Commitment, resolved: Option<CanonicalId>)
    requires Coherent(db) && Resolves(db, x, resolved) && x.newId !in db.canonicals
    ensures Coherent(Committed(db, x, resolved))
  {
    hide SharesRoute, FirstByValue, OneLive, Decision, ExcludedListings;
    OneLiveKept(db, x, resolved);
  }

  // ---- which businesses a commit leaves with a live listing ----

  ghost predicate HasLive(db: IdentityTables, r: RunId, c: CanonicalId) {
    exists l :: LiveListing(db, l, r, c)
  }

  // A listing of the run other than this one is live for the business.
  ghost predicate LiveElsewhere(db: IdentityTables, l: Listing, c: CanonicalId) {
    exists m :: m != l && LiveListing(db, m, l.0, c)
  }

  // The commit itself makes its listing live for the business.
  predicate MakesLive(db: IdentityTables, x: Commitment, resolved: Option<CanonicalId>, c: CanonicalId) {
    && resolved == Some(c)
    && x.evaluation.status == Eligible
    && !(x.evaluation.fingerprint.Some? && x.evaluation.fingerprint.value in db.suppressed)
    && !ListedElsewhere(db, x.runId, x.business, c)
  }

  // At most one is not exactly one. Whatever the commit, after it a business has a live listing in the
  // run precisely when another listing is live for it or the commit makes this one live.
  lemma WhenLive(db: IdentityTables, x: Commitment, resolved: Option<CanonicalId>, c: CanonicalId)
    ensures HasLive(Committed(db, x, resolved), x.runId, c)
            <==> LiveElsewhere(db, (x.runId, x.business), c) || MakesLive(db, x, resolved, c)
    ensures LiveListing(Committed(db, x, resolved), (x.runId, x.business), x.runId, c) <==> MakesLive(db, x, resolved, c)
  {
    hide Committed, MakesLive, LiveListing;
    LiveAfter(db, x, resolved, c);
    var after := Committed(db, x, resolved);
    var l := (x.runId, x.business);
    if MakesLive(db, x, resolved, c) { assert LiveListing(after, l, x.runId, c); }
    if LiveElsewhere(db, l, c) {
      var m :| m != l && LiveListing(db, m, l.0, c);
      assert LiveListing(after, m, x.runId, c);
    }
  }

  lemma LiveAfter(db: IdentityTables, x: Commitment, resolved: Option<CanonicalId>, c: CanonicalId)
    ensures var after := Committed(db, x, resolved);
            && (LiveListing(after, (x.runId, x.business), x.runId, c) <==> MakesLive(db, x, resolved, c))
            && (forall m :: m != (x.runId, x.business) ==>
                  (LiveListing(after, m, x.runId, c) <==> LiveListing(db, m, x.runId, c)))
  {
    hide FirstByValue, ExcludedListings, WithCanonical, RecentlyAssessed;
  }

  // So a commit takes its live listing from a business exactly when it rewrites the only one and does
  // not make it live for that business again: it turned out another business, unsuitable, suppressed,
  // or a duplicate of a listing that is not live.
  lemma WhenLiveIsLost(db: IdentityTables, x: Commitment, resolved: Option<CanonicalId>, c: CanonicalId)
    ensures HasLive(db, x.runId, c) && !HasLive(Committed(db, x, resolved), x.runId, c)
            <==> && LiveListing(db, (x.runId, x.business), x.runId, c)
                 && !LiveElsewhere(db, (x.runId, x.business), c)
                 && !MakesLive(db, x, resolved, c)
  {
    hide Committed, MakesLive;
    WhenLive(db, x, resolved, c);
  }

  // ---- the routes a commit keeps ----

  ghost predicate HasValue(routes: seq<Route>, value: string) {
    exists i :: 0 <= i < |routes| && routes[i].value == value
  }

  ghost predicate FirstOf(routes: seq<Route>, route: Route) {
    exists i :: 0 <= i < |routes| && routes[i] == route && forall j :: 0 <= j < i ==> routes[j].value != route.value
  }

  // No two kept routes are the same, and no value is lost.
  lemma {:induction false} KeptRoutesAreDistinct(routes: seq<Route>)
    ensures forall i, j :: 0 <= i < j < |FirstByValue(routes)| ==>
              FirstByValue(routes)[i].value != FirstByValue(routes)[j].value
    ensures forall v :: HasValue(FirstByValue(routes), v) <==> HasValue(routes, v)
  {
    if routes != [] {
      var before := routes[..|routes| - 1];
      var last := routes[|routes| - 1];
      KeptRoutesAreDistinct(before);
      var earlier := FirstByValue(before);
      assert routes == before + [last];
      HasValueAppend(before, last);
      HasValueAppend(earlier, last);
      assert FirstByValue(routes) == if HasValue(earlier, last.value) then earlier else earlier + [last];
    }
  }

  lemma HasValueAppend(routes: seq<Route>, last: Route)
    ensures forall v :: HasValue(routes + [last], v) <==> HasValue(routes, v) || v == last.value
  {
    forall v
      ensures HasValue(routes + [last], v) <==> HasValue(routes, v) || v == last.value
    {
      var all := routes + [last];
      assert all[|routes|] == last && forall i :: 0 <= i < |routes| ==> all[i] == routes[i];
    }
  }

  // Each kept route is the first of its value.
  lemma {:induction false} KeptRoutesAreFirst(routes: seq<Route>)
    ensures forall route :: route in FirstByValue(routes) ==> FirstOf(routes, route)
  {
    if routes != [] {
      var before := routes[..|routes| - 1];
      var last := routes[|routes| - 1];
      KeptRoutesAreFirst(before);
      KeptRoutesAreDistinct(before);
      var earlier := FirstByValue(before);
      assert routes == before + [last];
      assert FirstByValue(routes) == if HasValue(earlier, last.value) then earlier else earlier + [last];
      forall route | route in FirstByValue(routes)
        ensures FirstOf(routes, route)
      {
        if route in earlier {
          FirstOfAppend(before, last, route);
        } else {
          assert routes[|before|] == last && forall j :: 0 <= j < |before| ==> routes[j] == before[j];
        }
      }
    }
  }

  lemma FirstOfAppend(before: seq<Route>, last: Route, route: Route)
    requires FirstOf(before, route)
    ensures FirstOf(before + [last], route)
  {
    var i :| 0 <= i < |before| && before[i] == route && forall j :: 0 <= j < i ==> before[j].value != route.value;
    assert (before + [last])[i] == route && forall j :: 0 <= j < i ==> (before + [last])[j] == before[j];
  }
}
