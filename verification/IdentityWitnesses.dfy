// Histories in which a business of a run loses its live listing, and one in which the stored
// exclusions go wrong.

module IdentityWitnesses {
  import opened Wrappers
  import opened RunTables
  import opened Identity
  import opened IdentityHistories

  function Suitable(fingerprint: string): Evaluation { Evaluation(Eligible, Some(fingerprint), [], []) }

  const UNCLEAR := Evaluation(Ambiguous, None, [], [])

  function Offer(d: BusinessId, e: Evaluation, newId: CanonicalId): Commitment {
    Commitment(0, d, e, Skip, 0, newId)
  }

  // Listing 0 and then listing 1 turn out to be the same business.
  const TWICE: seq<Step> := [Commit(Offer(0, Suitable("f"), 0), Some(0)), Commit(Offer(1, Suitable("f"), 1), Some(0))]

  const NO_ROUTES := Stored(Some(0), [])

  function TwoListings(): IdentityTables {
    IdentityTables(map[0 := Canonical("f", None)],
                   map[(0, 0) := RunBusiness(Some(0), Eligible), (0, 1) := RunBusiness(Some(0), DuplicateCandidate)],
                   map[(0, 0) := NO_ROUTES, (0, 1) := NO_ROUTES], map[(0, 0) := NO_ROUTES, (0, 1) := NO_ROUTES],
                   map[0 := 1], {})
  }

  function OneListing(): IdentityTables {
    IdentityTables(map[0 := Canonical("f", None)], map[(0, 0) := RunBusiness(Some(0), Eligible)],
                   map[(0, 0) := NO_ROUTES], map[(0, 0) := NO_ROUTES], map[0 := 0], {})
  }

  lemma FirstCommit()
    ensures Fits(Empty(), TWICE[0]) && Apply(Empty(), TWICE[0]) == OneListing()
  {
    hide Keyed;
    assert ExcludedListings(OneListing().listings, 0) == {};
  }

  lemma SecondCommit()
    ensures Fits(OneListing(), TWICE[1]) && Apply(OneListing(), TWICE[1]) == TwoListings()
  {
    hide Keyed;
    assert Fingerprinted(OneListing(), 0, "f");
    assert (0, 0) in OneListing().listings;
    assert ListedElsewhere(OneListing(), 0, 1, 0);
    assert ExcludedListings(TwoListings().listings, 0) == {(0, 1)};
  }

  lemma Twice()
    ensures Happens(Empty(), TWICE) && After(Empty(), TWICE) == TwoListings()
    ensures LiveListing(TwoListings(), (0, 0), 0, 0) && !LiveElsewhere(TwoListings(), (0, 0), 0)
  {
    hide Fits, Apply, After, Happens;
    HappensAtFirst(Empty());
    FirstCommit();
    SecondCommit();
    HappensNext(Empty(), [], TWICE[0]);
    assert [] + [TWICE[0]] == [TWICE[0]] && [TWICE[0]] + [TWICE[1]] == TWICE;
    HappensNext(Empty(), [TWICE[0]], TWICE[1]);
  }

  // A third commit that rewrites listing 0 without making it live again leaves the business none.
  lemma LosesLive(x: Commitment, resolved: Option<CanonicalId>)
    requires x.runId == 0 && x.business == 0 && Fits(TwoListings(), Commit(x, resolved))
    requires !MakesLive(TwoListings(), x, resolved, 0)
    ensures var steps := TWICE + [Commit(x, resolved)];
            Happens(Empty(), steps) && HasLive(After(Empty(), TWICE), 0, 0) && !HasLive(After(Empty(), steps), 0, 0)
  {
    hide Fits, Apply, After, Happens, MakesLive, TwoListings;
    Twice();
    HappensNext(Empty(), TWICE, Commit(x, resolved));
    WhenLiveIsLost(TwoListings(), x, resolved, 0);
    Applied(TwoListings(), x, resolved);
  }

  lemma Applied(db: IdentityTables, x: Commitment, resolved: Option<CanonicalId>)
    ensures Apply(db, Commit(x, resolved)) == Committed(db, x, resolved)
  {
  }

  // Committed again as it was, it is a duplicate of the duplicate.
  lemma RecommitLeavesNone()
    ensures var steps := TWICE + [Commit(Offer(0, Suitable("f"), 2), Some(0))];
            Happens(Empty(), steps) && HasLive(After(Empty(), TWICE), 0, 0) && !HasLive(After(Empty(), steps), 0, 0)
  {
    hide Keyed;
    var x := Offer(0, Suitable("f"), 2);
    assert Fingerprinted(TwoListings(), 0, "f");
    assert (0, 1) in TwoListings().listings && ListedElsewhere(TwoListings(), 0, 0, 0);
    LosesLive(x, Some(0));
  }

  // Committed again under another fingerprint, it becomes another business.
  lemma NewFingerprintLeavesNone()
    ensures var steps := TWICE + [Commit(Offer(0, Suitable("g"), 2), Some(2))];
            Happens(Empty(), steps) && HasLive(After(Empty(), TWICE), 0, 0) && !HasLive(After(Empty(), steps), 0, 0)
  {
    assert "f"[0] != "g"[0];
    LosesLive(Offer(0, Suitable("g"), 2), Some(2));
  }

  // Committed again as ambiguous, it belongs to no business.
  lemma AmbiguityLeavesNone()
    ensures var steps := TWICE + [Commit(Offer(0, UNCLEAR, 2), None)];
            Happens(Empty(), steps) && HasLive(After(Empty(), TWICE), 0, 0) && !HasLive(After(Empty(), steps), 0, 0)
  {
    LosesLive(Offer(0, UNCLEAR, 2), None);
  }

  // ---- exclusions ----

  const AGAIN := Commit(Offer(0, Suitable("f"), 2), Some(0))

  function BothDuplicates(): IdentityTables {
    TwoListings().(listings := map[(0, 0) := RunBusiness(Some(0), DuplicateCandidate),
                                   (0, 1) := RunBusiness(Some(0), DuplicateCandidate)],
                   exclusions := map[0 := 2])
  }

  lemma ThirdCommit()
    ensures Fits(TwoListings(), AGAIN) && Apply(TwoListings(), AGAIN) == BothDuplicates()
    ensures ExcludedListings(BothDuplicates().listings, 0) == {(0, 0), (0, 1)}
  {
    hide Keyed;
    assert Fingerprinted(TwoListings(), 0, "f");
    assert (0, 1) in TwoListings().listings && ListedElsewhere(TwoListings(), 0, 0, 0);
    var after := Apply(TwoListings(), AGAIN);
    assert after.listings == BothDuplicates().listings;
    assert after.contacts == TwoListings().contacts && after.presences == TwoListings().presences;
    assert ExcludedListings(BothDuplicates().listings, 0) == {(0, 0), (0, 1)};
    assert after.exclusions == map[0 := 2];
  }

  // A listing whose inspection was under way is committed again as a duplicate, two exclusions are
  // recorded, and then the inspection commits: one is left.
  lemma InspectionMiscounts()
    ensures var steps := TWICE + [AGAIN] + [Write(map[(0, 0) := Inspected])];
            Happens(Empty(), steps) && !Recounted(After(Empty(), steps), 0) && MiscountedSince(steps, 0)
  {
    hide Apply, After, Happens, MiscountedSince, Fits, Recounted;
    Twice();
    ThirdCommit();
    HappensNext(Empty(), TWICE, AGAIN);
    var inspected := Write(map[(0, 0) := Inspected]);
    WriteFits();
    HappensNext(Empty(), TWICE + [AGAIN], inspected);
    RecountStep(BothDuplicates(), inspected, 0);
    assert (0, 0) in ExcludedListings(BothDuplicates().listings, 0) * Taken(BothDuplicates(), inspected);
    WhenExclusionsAreRecounted(TWICE + [AGAIN] + [inspected], 0);
  }

  lemma WriteFits()
    ensures Fits(BothDuplicates(), Write(map[(0, 0) := Inspected]))
  {
  }
}
