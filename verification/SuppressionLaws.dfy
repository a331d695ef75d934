// What a score, a suppression and a lift each write, told from the tables before them.

module SuppressionLaws {
  import opened Wrappers
  import opened RunTables
  import opened Suppression
  import S = OpportunityScore
  import A = Attribution

  // Everything but the scores, the suppressions, the standings and the counts.
  predicate SameEvidence(db: QueueTables, after: QueueTables) {
    && after.fingerprints == db.fingerprints && after.assessments == db.assessments
    && after.withOpportunity == db.withOpportunity && after.withObservation == db.withObservation
    && after.withContact == db.withContact
  }

  // The four grounds a score needs besides its seventy-two points.
  ghost predicate Grounds(db: QueueTables, a: AssessmentId, b: RunBusinessId) {
    a in db.withOpportunity && a in db.withObservation && b in db.withContact
  }

  // A task that was scored, or whose assessment is gone, writes nothing. Any other adds one score, with
  // the breakdown of its assessment as the business is reached now, qualified exactly with the points,
  // the grounds and no suppression; the business stands accordingly, and the run's count is what it has.
  lemma ScoreLaw(db: QueueTables, x: Scoring)
    requires x.newId !in db.scores
    ensures var after := AfterScoring(db, x);
            if (exists i :: i in db.scores && db.scores[i].taskId == x.taskId) || x.assessment !in db.assessments then
              after == db
            else
              var a := db.assessments[x.assessment];
              && SameEvidence(db, after) && after.suppressions == db.suppressions
              && after.scores.Keys == db.scores.Keys + {x.newId}
              && (forall i :: i in db.scores ==> after.scores[i] == db.scores[i])
              && var row := after.scores[x.newId];
              && row.runId == x.runId && row.taskId == x.taskId && row.assessment == x.assessment
              && row.runBusiness == a.runBusiness && row.canonical == a.canonical
              && row.breakdown == S.Score(a.inputs.(hasContactRoute := a.runBusiness in db.withContact))
              && (row.qualified <==>
                    && row.breakdown.total >= 72.0 && Grounds(db, x.assessment, a.runBusiness)
                    && (a.canonical in db.fingerprints ==> db.fingerprints[a.canonical] !in db.suppressions))
              && after.standings.Keys == db.standings.Keys + {a.runBusiness}
              && (after.standings[a.runBusiness] == Candidate <==> row.qualified)
              && (after.standings[a.runBusiness] == BelowThreshold <==> !row.qualified)
              && (forall b :: b in db.standings && b != a.runBusiness ==> after.standings[b] == db.standings[b])
              && after.qualifiedCandidates.Keys == db.qualifiedCandidates.Keys + {x.runId}
              && after.qualifiedCandidates[x.runId]
                 == |set i | i in after.scores && after.scores[i].runId == x.runId && after.scores[i].qualified|
              && (forall r :: r in db.qualifiedCandidates && r != x.runId ==>
                    after.qualifiedCandidates[r] == db.qualifiedCandidates[r])
  {
    hide S.Score;
    var after := AfterScoring(db, x);
    if !TaskScored(db, x.taskId) && x.assessment in db.assessments {
      assert QualifiedIn(after.scores, x.runId)
             == set i | i in after.scores && after.scores[i].runId == x.runId && after.scores[i].qualified;
    }
  }

  // A suppression with a reason of at most five hundred characters, not all blank, of a score that
  // exists, enters the business under its fingerprint with the trimmed reason, and no score of the
  // business is qualified any more. Nothing else changes, standings and counts included.
  lemma SuppressLaw(db: QueueTables, i: ScoreId, reason: string)
    ensures var after := AfterSuppressing(db, i, reason);
            if A.Trim(reason) == [] || |reason| > 500 || i !in db.scores || db.scores[i].canonical !in db.fingerprints then
              after == db
            else
              var c := db.scores[i].canonical;
              && SameEvidence(db, after)
              && after.standings == db.standings && after.qualifiedCandidates == db.qualifiedCandidates
              && after.suppressions.Keys == db.suppressions.Keys + {db.fingerprints[c]}
              && after.suppressions[db.fingerprints[c]].canonical == Some(c)
              && after.suppressions[db.fingerprints[c]].reason == A.Trim(reason)
              && (forall f :: f in db.suppressions && f != db.fingerprints[c] ==> after.suppressions[f] == db.suppressions[f])
              && after.scores.Keys == db.scores.Keys
              && (forall k :: k in db.scores && db.scores[k].canonical != c ==> after.scores[k] == db.scores[k])
              && (forall k :: k in db.scores && db.scores[k].canonical == c ==>
                    !after.scores[k].qualified && after.scores[k].(qualified := db.scores[k].qualified) == db.scores[k])
  {
    hide A.Trim;
  }

  // A lift takes the entry away. The business of the entry, if it names one, gets the flags its stored
  // totals and present evidence give, and each of its listings stands by whether any score of that
  // listing is qualified then. Nothing else changes, the counts included.
  lemma LiftLaw(db: QueueTables, fingerprint: string)
    ensures var after := AfterLifting(db, fingerprint);
            if fingerprint !in db.suppressions then after == db
            else
              && SameEvidence(db, after) && after.qualifiedCandidates == db.qualifiedCandidates
              && after.suppressions.Keys == db.suppressions.Keys - {fingerprint}
              && (forall f :: f in after.suppressions ==> after.suppressions[f] == db.suppressions[f])
              && after.scores.Keys == db.scores.Keys && after.standings.Keys == db.standings.Keys
              && match db.suppressions[fingerprint].canonical
                 case None => after.scores == db.scores && after.standings == db.standings
                 case Some(c) => FlagsRebuilt(db, after, c) && StandingsRebuilt(db, after, c)
  {
    hide ScoredFor, HasQualified;
    if fingerprint in db.suppressions && db.suppressions[fingerprint].canonical.Some? {
      var c := db.suppressions[fingerprint].canonical.value;
      StandingsAfterLift(db, AfterLifting(db, fingerprint), c);
    }
  }

  ghost predicate FlagsRebuilt(db: QueueTables, after: QueueTables, c: CanonicalId)
    requires after.scores.Keys == db.scores.Keys
  {
    && (forall k :: k in db.scores && db.scores[k].canonical != c ==> after.scores[k] == db.scores[k])
    && (forall k :: k in db.scores && db.scores[k].canonical == c ==>
          && after.scores[k].(qualified := db.scores[k].qualified) == db.scores[k]
          && (after.scores[k].qualified <==>
                db.scores[k].breakdown.total >= 72.0 && Grounds(db, db.scores[k].assessment, db.scores[k].runBusiness)))
  }

  // A listing has a score of the business.
  ghost predicate OfBusiness(db: QueueTables, b: RunBusinessId, c: CanonicalId) {
    exists k :: k in db.scores && db.scores[k].runBusiness == b && db.scores[k].canonical == c
  }

  ghost predicate StandingsRebuilt(db: QueueTables, after: QueueTables, c: CanonicalId)
    requires after.standings.Keys == db.standings.Keys
  {
    forall b :: b in db.standings ==>
      && (!OfBusiness(db, b, c) ==> after.standings[b] == db.standings[b])
      && (OfBusiness(db, b, c) ==>
            if exists k :: k in after.scores && after.scores[k].runBusiness == b && after.scores[k].qualified
            then after.standings[b] == Candidate else after.standings[b] == BelowThreshold)
  }

  lemma StandingsAfterLift(db: QueueTables, after: QueueTables, c: CanonicalId)
    requires after.scores.Keys == db.scores.Keys && after.standings == Restanding(db.standings, after.scores, c)
    requires forall k :: k in db.scores ==> after.scores[k].runBusiness == db.scores[k].runBusiness
                                            && after.scores[k].canonical == db.scores[k].canonical
    ensures StandingsRebuilt(db, after, c)
  {
    forall b
      ensures ScoredFor(after.scores, b, c) <==> OfBusiness(db, b, c)
    {
      if k :| k in db.scores && db.scores[k].runBusiness == b && db.scores[k].canonical == c { assert k in after.scores; }
    }
  }
}
