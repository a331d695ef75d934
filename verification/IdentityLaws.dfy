// What one commit writes, told from the tables before it and the commitment alone.

module IdentityLaws {
  import opened Wrappers
  import opened RunTables
  import opened Identity

  // ---- which business ----

  ghost predicate HasFingerprint(db: IdentityTables, c: CanonicalId, fingerprint: string) {
    c in db.canonicals && db.canonicals[c].fingerprint == fingerprint
  }

  // A listing stored this key as a contact's or a presence's, for the business.
  ghost predicate StoredKey(db: IdentityTables, c: CanonicalId, key: string) {
    || (exists l, route :: l in db.contacts && db.contacts[l].canonical == Some(c)
                           && route in db.contacts[l].routes && route.matchKey == Some(key))
    || (exists l, route :: l in db.presences && db.presences[l].canonical == Some(c)
                           && route in db.presences[l].routes && route.matchKey == Some(key))
  }

  ghost predicate ReportsKey(e: Evaluation, key: string) {
    exists route :: (route in e.contacts || route in e.presences) && route.matchKey == Some(key)
  }

  ghost predicate KnownByKey(db: IdentityTables, e: Evaluation, c: CanonicalId) {
    c in db.canonicals && exists key :: ReportsKey(e, key) && StoredKey(db, c, key)
  }

  lemma KeyedMeans(routes: seq<Route>, keys: seq<Route>)
    ensures Keyed(routes, keys)
            <==> exists a, b :: a in routes && b in keys && b.matchKey.Some? && a.matchKey == b.matchKey
  {
    if a, b :| a in routes && b in keys && b.matchKey.Some? && a.matchKey == b.matchKey {
      var i :| 0 <= i < |routes| && routes[i] == a;
      var j :| 0 <= j < |keys| && keys[j] == b;
    }
  }

  lemma StoredForMeans(stored: map<Listing, Stored>, c: CanonicalId, e: Evaluation)
    ensures StoredFor(stored, c, e.contacts + e.presences)
            <==> exists l, route, key :: l in stored && stored[l].canonical == Some(c) && route in stored[l].routes
                                         && route.matchKey == Some(key) && ReportsKey(e, key)
  {
    hide Keyed;
    var keys := e.contacts + e.presences;
    if StoredFor(stored, c, keys) {
      var l :| l in stored && stored[l].canonical == Some(c) && Keyed(stored[l].routes, keys);
      KeyedMeans(stored[l].routes, keys);
      var a, b :| a in stored[l].routes && b in keys && b.matchKey.Some? && a.matchKey == b.matchKey;
      assert ReportsKey(e, b.matchKey.value);
    }
    if l, route, key :| l in stored && stored[l].canonical == Some(c) && route in stored[l].routes
                        && route.matchKey == Some(key) && ReportsKey(e, key) {
      var b :| (b in e.contacts || b in e.presences) && b.matchKey == Some(key);
      assert b in keys;
      KeyedMeans(stored[l].routes, keys);
    }
  }

  lemma SharedMeans(db: IdentityTables, e: Evaluation, c: CanonicalId)
    ensures c in db.canonicals && SharesRoute(db, c, e) <==> KnownByKey(db, e, c)
  {
    hide StoredFor, ReportsKey;
    StoredForMeans(db.contacts, c, e);
    StoredForMeans(db.presences, c, e);
    if StoredFor(db.contacts, c, e.contacts + e.presences) {
      var l, route, key :| l in db.contacts && db.contacts[l].canonical == Some(c) && route in db.contacts[l].routes
                           && route.matchKey == Some(key) && ReportsKey(e, key);
      assert StoredKey(db, c, key);
    }
    if StoredFor(db.presences, c, e.contacts + e.presences) {
      var l, route, key :| l in db.presences && db.presences[l].canonical == Some(c) && route in db.presences[l].routes
                           && route.matchKey == Some(key) && ReportsKey(e, key);
      assert StoredKey(db, c, key);
    }
  }

  // A listing without a fingerprint is no business. Otherwise it is the business with its fingerprint,
  // failing that one known by a key it reports, failing that a new one, which the commit enters under
  // the fingerprint as never assessed. No other business is changed or entered.
  lemma ResolutionLaw(db: IdentityTables, x: Commitment, resolved: Option<CanonicalId>)
    requires Resolves(db, x, resolved) && x.newId !in db.canonicals
    ensures resolved.None? <==> x.evaluation.fingerprint.None?
    ensures resolved.Some? ==>
              var fingerprint := x.evaluation.fingerprint.value;
              && ((exists c :: HasFingerprint(db, c, fingerprint)) <==> HasFingerprint(db, resolved.value, fingerprint))
              && ((exists c :: HasFingerprint(db, c, fingerprint) || KnownByKey(db, x.evaluation, c))
                  <==> HasFingerprint(db, resolved.value, fingerprint) || KnownByKey(db, x.evaluation, resolved.value))
              && ((forall c :: !HasFingerprint(db, c, fingerprint) && !KnownByKey(db, x.evaluation, c))
                  <==> resolved.value == x.newId)
    ensures var after := Committed(db, x, resolved).canonicals;
            && (forall c :: c in db.canonicals ==> c in after && after[c] == db.canonicals[c])
            && (forall c :: c in after && c !in db.canonicals ==>
                  resolved == Some(c) && c == x.newId && after[c] == Canonical(x.evaluation.fingerprint.value, None))
            && (resolved.Some? ==> resolved.value in after)
  {
    hide SharesRoute, StoredKey, ReportsKey, Decision, ExcludedListings, FirstByValue;
    forall c
      ensures c in db.canonicals && SharesRoute(db, c, x.evaluation) <==> KnownByKey(db, x.evaluation, c)
    {
      SharedMeans(db, x.evaluation, c);
    }
    if resolved.Some? {
      var fingerprint := x.evaluation.fingerprint.value;
      if k :| k in db.canonicals && db.canonicals[k].fingerprint == fingerprint { assert HasFingerprint(db, k, fingerprint); }
    }
  }

  // ---- with which status ----

  // Worth going on with: eligible, and its fingerprint not suppressed.
  ghost predicate Wanted(db: IdentityTables, x: Commitment) {
    && x.evaluation.status == Eligible
    && (x.evaluation.fingerprint.Some? ==> x.evaluation.fingerprint.value !in db.suppressed)
  }

  // Another listing of the run is the same business.
  ghost predicate Taken(db: IdentityTables, x: Commitment, resolved: Option<CanonicalId>) {
    resolved.Some?
    && exists d :: d != x.business && (x.runId, d) in db.listings && db.listings[(x.runId, d)].canonical == resolved
  }

  // The stored assessment is at most thirty days old.
  ghost predicate Recent(db: IdentityTables, x: Commitment, resolved: Option<CanonicalId>) {
    && resolved.Some? && resolved.value in db.canonicals
    && db.canonicals[resolved.value].lastAssessedAt.Some?
    && x.now - db.canonicals[resolved.value].lastAssessedAt.value <= 2592000000
  }

  lemma TakenMeans(db: IdentityTables, x: Commitment, c: CanonicalId)
    ensures ListedElsewhere(db, x.runId, x.business, c) <==> Taken(db, x, Some(c))
  {
    if ListedElsewhere(db, x.runId, x.business, c) {
      var l :| l in db.listings && l.0 == x.runId && l.1 != x.business && db.listings[l].canonical == Some(c);
      assert l == (x.runId, l.1);
    }
    if d :| d != x.business && (x.runId, d) in db.listings && db.listings[(x.runId, d)].canonical == Some(c) {
      var l := (x.runId, d);
      assert l in db.listings && l.0 == x.runId && l.1 != x.business;
    }
  }

  // The six statuses a commit writes, each with exactly the conditions it is written under.
  lemma DecisionLaw(db: IdentityTables, x: Commitment, resolved: Option<CanonicalId>)
    ensures var after := Committed(db, x, resolved).listings;
            && (x.runId, x.business) in after
            && var status := after[(x.runId, x.business)].status;
            && (status == Ambiguous <==> x.evaluation.status == Ambiguous)
            && (status == Excluded <==> x.evaluation.status == Excluded || (x.evaluation.status == Eligible && !Wanted(db, x)))
            && (status == DuplicateCandidate <==> Wanted(db, x) && Taken(db, x, resolved))
            && (status == SkippedRecent <==>
                  Wanted(db, x) && !Taken(db, x, resolved) && Recent(db, x, resolved) && x.policy == Skip)
            && (status == IncludedRecent <==>
                  && Wanted(db, x) && !Taken(db, x, resolved)
                  && Recent(db, x, resolved) && x.policy == IncludeWithoutReassessment)
            && (status == Eligible <==>
                  Wanted(db, x) && !Taken(db, x, resolved) && (Recent(db, x, resolved) ==> x.policy == Reassess))
  {
    hide ExcludedListings, FirstByValue, ListedElsewhere;
    if resolved.Some? { TakenMeans(db, x, resolved.value); }
  }

  // ---- what else is stored ----

  // The listing is the business it resolved to and no other listing changes; the run's exclusions are
  // its listings in one of the four statuses and no other run's change; the listing's presences are
  // replaced whatever it resolved to, its contacts only when it is a business; suppressions stay.
  lemma StoredLaw(db: IdentityTables, x: Commitment, resolved: Option<CanonicalId>)
    ensures var after := Committed(db, x, resolved);
            var l := (x.runId, x.business);
            && after.suppressed == db.suppressed
            && after.listings.Keys == db.listings.Keys + {l}
            && after.listings[l].canonical == resolved
            && (forall m :: m in db.listings && m != l ==> after.listings[m] == db.listings[m])
            && after.exclusions.Keys == db.exclusions.Keys + {x.runId}
            && after.exclusions[x.runId] ==
                 |set m | m in after.listings && m.0 == x.runId
                          && after.listings[m].status in {Ambiguous, Excluded, SkippedRecent, DuplicateCandidate}|
            && (forall r :: r in db.exclusions && r != x.runId ==> after.exclusions[r] == db.exclusions[r])
            && after.presences.Keys == db.presences.Keys + {l}
            && after.presences[l].canonical == resolved
            && KeepsFirsts(x.evaluation.presences, after.presences[l].routes)
            && (forall m :: m in db.presences && m != l ==> after.presences[m] == db.presences[m])
            && (resolved.None? ==> after.contacts == db.contacts)
            && (resolved.Some? ==>
                  && after.contacts.Keys == db.contacts.Keys + {l}
                  && after.contacts[l].canonical == resolved
                  && KeepsFirsts(x.evaluation.contacts, after.contacts[l].routes))
            && (forall m :: m in db.contacts && m != l ==> m in after.contacts && after.contacts[m] == db.contacts[m])
  {
    hide Decision, FirstByValue, KeepsFirsts;
    FirstsAreKept(x.evaluation.presences);
    FirstsAreKept(x.evaluation.contacts);
    var after := Committed(db, x, resolved);
    assert ExcludedListings(after.listings, x.runId)
           == set m | m in after.listings && m.0 == x.runId
                      && after.listings[m].status in {Ambiguous, Excluded, SkippedRecent, DuplicateCandidate};
  }

  // Every value reported is kept once, as it was first reported.
  ghost predicate KeepsFirsts(reported: seq<Route>, kept: seq<Route>) {
    && (forall value :: HasValue(kept, value) <==> HasValue(reported, value))
    && (forall i, j :: 0 <= i < j < |kept| ==> kept[i].value != kept[j].value)
    && (forall route :: route in kept ==> FirstOf(reported, route))
  }

  lemma FirstsAreKept(reported: seq<Route>)
    ensures KeepsFirsts(reported, FirstByValue(reported))
  {
    hide FirstByValue, HasValue, FirstOf;
    KeptRoutesAreDistinct(reported);
    KeptRoutesAreFirst(reported);
  }
}
