// What every sequence of identity commits and of the other stages' writes keeps.

module IdentityHistories {
  import opened Wrappers
  import opened RunTables
  import opened Identity

  // What inspection, assessment, scoring and lifting a suppression write: none of it is live, and none
  // counts as an exclusion.
  predicate Progressed(status: Status) {
    || status == Inspected || status == InspectionPartial || status == InspectionBlocked || status == NoWebsite
    || status == Assessed || status == Candidate || status == BelowThreshold
  }

  type Progress = s: Status | Progressed(s) witness Inspected

  // A commit with the business its lookups resolved to, and all the other writes to these tables.
  datatype Step =
    | Commit(x: Commitment, resolved: Option<CanonicalId>)
    | Suppress(fingerprints: set<string>)
    // One transaction's statuses: of the inspected or scored listing, or of all a lift restores.
    | Write(statuses: map<Listing, Progress>)
    | Assess(l: Listing, c: CanonicalId, at: Instant)
    | ConfirmAbsence(l: Listing, stored: Stored)
    | DeleteBusiness(c: CanonicalId)
    | DeleteRun(r: RunId)

  ghost predicate Fits(db: IdentityTables, s: Step) {
    match s
    case Commit(x, resolved) => Resolves(db, x, resolved) && x.newId !in db.canonicals
    case Write(statuses) => statuses.Keys <= db.listings.Keys
    case Assess(l, c, _) => l in db.listings && c in db.canonicals
    case ConfirmAbsence(l, _) => l in db.listings
    case _ => true
  }

  function Written(listings: map<Listing, RunBusiness>, statuses: map<Listing, Progress>): map<Listing, RunBusiness> {
    map l | l in listings :: if l in statuses then listings[l].(status := statuses[l]) else listings[l]
  }

  // Deleting listings deletes their routes with them.
  function Without(db: IdentityTables, gone: set<Listing>): IdentityTables {
    db.(listings := db.listings - gone, contacts := db.contacts - gone, presences := db.presences - gone)
  }

  function RoutesWithout(stored: map<Listing, Stored>, c: CanonicalId): map<Listing, Stored> {
    map l | l in stored && stored[l].canonical != Some(c) :: stored[l]
  }

  function ListingsOf(db: IdentityTables, c: CanonicalId): set<Listing> {
    set l | l in db.listings && db.listings[l].canonical == Some(c)
  }

  function ListingsIn(db: IdentityTables, r: RunId): set<Listing> {
    set l | l in db.listings && l.0 == r
  }

  predicate IsListed(listings: map<Listing, RunBusiness>, c: CanonicalId) {
    exists l :: l in listings && listings[l].canonical == Some(c)
  }

  function Apply(db: IdentityTables, s: Step): IdentityTables {
    match s
    case Commit(x, resolved) => Committed(db, x, resolved)
    case Suppress(fingerprints) => db.(suppressed := fingerprints)
    case Write(statuses) => db.(listings := Written(db.listings, statuses))
    case Assess(l, c, at) =>
      db.(listings := Written(db.listings, map[l := Assessed]),
          canonicals := if c in db.canonicals then db.canonicals[c := db.canonicals[c].(lastAssessedAt := Some(at))]
                        else db.canonicals)
    case ConfirmAbsence(l, stored) => db.(presences := db.presences[l := stored])
    case DeleteBusiness(c) =>
      var rest := Without(db, ListingsOf(db, c));
      rest.(canonicals := db.canonicals - {c}, contacts := RoutesWithout(rest.contacts, c),
            presences := RoutesWithout(rest.presences, c))
    case DeleteRun(r) =>
      var rest := Without(db, ListingsIn(db, r));
      rest.(canonicals := map c | c in db.canonicals && IsListed(rest.listings, c) :: db.canonicals[c],
            exclusions := db.exclusions - {r})
  }

  function After(db: IdentityTables, steps: seq<Step>): IdentityTables {
    if steps == [] then db else Apply(After(db, steps[..|steps| - 1]), steps[|steps| - 1])
  }

  ghost predicate Happens(db: IdentityTables, steps: seq<Step>) {
    steps != [] ==>
      Happens(db, steps[..|steps| - 1]) && Fits(After(db, steps[..|steps| - 1]), steps[|steps| - 1])
  }

  function Empty(): IdentityTables { IdentityTables(map[], map[], map[], map[], map[], {}) }

  lemma HappensAtFirst(db: IdentityTables)
    ensures Happens(db, []) && After(db, []) == db
  {
  }

  lemma HappensNext(db: IdentityTables, steps: seq<Step>, s: Step)
    requires Happens(db, steps) && Fits(After(db, steps), s)
    ensures Happens(db, steps + [s]) && After(db, steps + [s]) == Apply(After(db, steps), s)
  {
    hide Fits, Apply;
    assert (steps + [s])[..|steps|] == steps;
  }

  // ---- one live listing ----

  lemma EmptyIsCoherent()
    ensures Coherent(Empty())
  {
  }

  lemma NoneBecomesLive(db: IdentityTables, s: Step, l: Listing)
    requires !s.Commit? && l in Apply(db, s).listings
    ensures l in db.listings && Apply(db, s).listings[l].canonical == db.listings[l].canonical
    ensures Live(Apply(db, s).listings[l].status) ==> Live(db.listings[l].status)
  {
    hide RoutesWithout;
  }

  lemma KnownStay(db: IdentityTables, s: Step)
    requires KnownCanonicals(db) && !s.Commit?
    ensures KnownCanonicals(Apply(db, s))
    ensures forall c :: c in Apply(db, s).canonicals ==>
              c in db.canonicals && Apply(db, s).canonicals[c].fingerprint == db.canonicals[c].fingerprint
  {
    hide RoutesWithout;
    var after := Apply(db, s);
    forall l | l in after.listings
      ensures l in db.listings && after.listings[l].canonical == db.listings[l].canonical
    {
      NoneBecomesLive(db, s, l);
    }
  }

  lemma OtherWritesKeep(db: IdentityTables, s: Step)
    requires Coherent(db) && !s.Commit?
    ensures Coherent(Apply(db, s))
  {
    hide Apply, Live;
    KnownStay(db, s);
    var after := Apply(db, s);
    forall l, r, c | LiveListing(after, l, r, c)
      ensures LiveListing(db, l, r, c)
    {
      NoneBecomesLive(db, s, l);
    }
  }

  lemma StepKeeps(db: IdentityTables, s: Step)
    requires Coherent(db) && Fits(db, s)
    ensures Coherent(Apply(db, s))
  {
    hide Committed, Resolves, Coherent;
    if s.Commit? { CommitKeeps(db, s.x, s.resolved); } else { OtherWritesKeep(db, s); }
  }

  // However commits, recommits, route matches and all the other writes and deletions fall, a run acts
  // on each business through one listing at most.
  lemma {:induction false} OneLiveCandidate(steps: seq<Step>)
    requires Happens(Empty(), steps)
    ensures Coherent(After(Empty(), steps))
  {
    hide Coherent, Apply, Fits;
    if steps != [] {
      OneLiveCandidate(steps[..|steps| - 1]);
      StepKeeps(After(Empty(), steps[..|steps| - 1]), steps[|steps| - 1]);
    } else {
      EmptyIsCoherent();
    }
  }

  // ---- the count of exclusions ----

  predicate Recounted(db: IdentityTables, r: RunId) {
    r in db.exclusions ==> db.exclusions[r] == |ExcludedListings(db.listings, r)|
  }

  // The listings a step moves on or deletes.
  function Taken(db: IdentityTables, s: Step): set<Listing> {
    match s
    case Write(statuses) => statuses.Keys
    case Assess(l, _, _) => {l}
    case DeleteBusiness(c) => ListingsOf(db, c)
    case DeleteRun(r) => ListingsIn(db, r)
    case _ => {}
  }

  // Recounting the run, or deleting its count with it.
  predicate Settles(s: Step, r: RunId) {
    (s.Commit? && s.x.runId == r) || s == DeleteRun(r)
  }

  // A listing that counts as an exclusion moves on or is deleted, and nobody recounts.
  predicate Miscounts(db: IdentityTables, s: Step, r: RunId) {
    !Settles(s, r) && r in db.exclusions && ExcludedListings(db.listings, r) * Taken(db, s) != {}
  }

  lemma OthersExclude(db: IdentityTables, s: Step, r: RunId)
    requires !Settles(s, r)
    ensures ExcludedListings(Apply(db, s).listings, r) == ExcludedListings(db.listings, r) - Taken(db, s)
    ensures (r in Apply(db, s).exclusions <==> r in db.exclusions)
            && (r in db.exclusions ==> Apply(db, s).exclusions[r] == db.exclusions[r])
  {
    hide FirstByValue, Decision, WithCanonical, RoutesWithout;
  }

  lemma SettledIsRecounted(db: IdentityTables, s: Step, r: RunId)
    requires Settles(s, r)
    ensures Recounted(Apply(db, s), r)
  {
    hide FirstByValue, Decision, WithCanonical, RoutesWithout;
  }

  // A stored count is never below a recount, and a step leaves it right exactly when it recounts, or
  // it was right and the step takes no listing that counts.
  lemma RecountStep(db: IdentityTables, s: Step, r: RunId)
    requires r in db.exclusions ==> db.exclusions[r] >= |ExcludedListings(db.listings, r)|
    ensures var after := Apply(db, s);
            r in after.exclusions ==> after.exclusions[r] >= |ExcludedListings(after.listings, r)|
    ensures Recounted(Apply(db, s), r) <==> Settles(s, r) || (Recounted(db, r) && !Miscounts(db, s, r))
  {
    hide Apply, ExcludedListings, Taken, Settles;
    if Settles(s, r) {
      SettledIsRecounted(db, s, r);
    } else {
      OthersExclude(db, s, r);
      var before, taken := ExcludedListings(db.listings, r), Taken(db, s);
      assert before == (before - taken) + (before * taken);
    }
  }

  // Some step miscounted the run, and it was neither committed to nor deleted since.
  ghost predicate MiscountedSince(steps: seq<Step>, r: RunId) {
    exists i: nat :: MiscountedAt(steps, i, r)
  }

  ghost predicate MiscountedAt(steps: seq<Step>, i: nat, r: RunId) {
    && i < |steps| && Miscounts(After(Empty(), steps[..i]), steps[i], r)
    && forall j :: i < j < |steps| ==> !Settles(steps[j], r)
  }

  lemma MiscountedStep(steps: seq<Step>, r: RunId)
    requires steps != []
    ensures var before, s := steps[..|steps| - 1], steps[|steps| - 1];
            MiscountedSince(steps, r)
            <==> !Settles(s, r) && (MiscountedSince(before, r) || Miscounts(After(Empty(), before), s, r))
  {
    hide After, Settles, Taken, ExcludedListings;
    var last := |steps| - 1;
    var before, s := steps[..last], steps[last];
    assert forall j :: 0 <= j <= last ==> before[..j] == steps[..j];
    if MiscountedSince(steps, r) {
      var i: nat :| MiscountedAt(steps, i, r);
      if i < last {
        assert !Settles(steps[last], r);
        assert forall j :: i < j < last ==> before[j] == steps[j];
        assert MiscountedAt(before, i, r);
      }
    }
    if !Settles(s, r) && MiscountedSince(before, r) {
      var i: nat :| MiscountedAt(before, i, r);
      assert forall j :: i < j < last ==> before[j] == steps[j];
      assert MiscountedAt(steps, i, r);
    }
    if Miscounts(After(Empty(), before), s, r) { assert MiscountedAt(steps, last, r); }
  }

  // In every history a run's stored exclusions are what a recount gives exactly when no listing that
  // counted has moved on or been deleted since the run was last committed to.
  lemma {:induction false} WhenExclusionsAreRecounted(steps: seq<Step>, r: RunId)
    ensures Recounted(After(Empty(), steps), r) <==> !MiscountedSince(steps, r)
    ensures var db := After(Empty(), steps);
            r in db.exclusions ==> db.exclusions[r] >= |ExcludedListings(db.listings, r)|
  {
    hide Apply, Miscounts, MiscountedSince, Recounted, ExcludedListings, Settles;
    if steps != [] {
      WhenExclusionsAreRecounted(steps[..|steps| - 1], r);
      RecountStep(After(Empty(), steps[..|steps| - 1]), steps[|steps| - 1], r);
      MiscountedStep(steps, r);
    } else {
      NothingMiscounted(r);
    }
  }

  lemma NothingMiscounted(r: RunId)
    ensures !MiscountedSince([], r) && Recounted(Empty(), r) && r !in After(Empty(), []).exclusions
  {
  }
}
