// Workspaces that suppressing and lifting does not restore, and a count that suppressing leaves wrong.

module SuppressionWitnesses {
  import S = OpportunityScore
  import A = Attribution
  import opened Suppression

  // No website, the greatest severity, corroborated, decided locally, of full value: 85 points without
  // a contact route and 100 with one.
  const WORST := S.Inputs(5.0, [], false, 1.0, 1.0, S.NoWebsite, 2)
  const FIRST := Scoring(0, 0, 0, 0)

  function Workspace(withContact: set<RunBusinessId>): QueueTables {
    QueueTables(map[0 := "f"], map[0 := Assessment(0, 0, WORST)], {0}, {0}, withContact, map[], map[],
                map[0 := Unscored], map[])
  }

  function Row(withContact: bool): ScoreRow {
    ScoreRow(0, 0, 0, 0, 0, S.Score(WORST.(hasContactRoute := withContact)), withContact)
  }

  lemma Points(withContact: bool)
    ensures S.Score(WORST.(hasContactRoute := withContact)).total == if withContact then 100.0 else 85.0
  {
    assert S.Bounded(1.0) == 1.0;
  }

  function ScoredOnce(withContact: bool): QueueTables {
    Workspace(if withContact then {0} else {}).(
      scores := map[0 := Row(withContact)],
      standings := map[0 := if withContact then Candidate else BelowThreshold],
      qualifiedCandidates := map[0 := if withContact then 1 else 0])
  }

  lemma ScoreOnce(withContact: bool)
    ensures AfterScoring(Workspace(if withContact then {0} else {}), FIRST) == ScoredOnce(withContact)
  {
    hide S.Score;
    Points(withContact);
    var row := Row(withContact);
    assert QualifiedIn(map[0 := row], 0) == if withContact then {0} else {};
  }

  lemma IsAcceptable()
    ensures Acceptable("x")
  {
  }

  // Scored above the threshold but without a contact route, the candidate does not qualify. A route is
  // found; suppressing and lifting turns the flag on.
  lemma LiftTurnsOn()
    ensures var db := ScoredOnce(false).(withContact := {0});
            && AfterScoring(Workspace({}), FIRST) == ScoredOnce(false) && Gathers(ScoredOnce(false), db)
            && !db.scores[0].qualified
            && AfterLifting(AfterSuppressing(db, 0, "x"), "f").scores[0].qualified
  {
    hide S.Score, A.Trim;
    Points(false);
    ScoreOnce(false);
    IsAcceptable();
    var db := ScoredOnce(false).(withContact := {0});
    LiftRebuildsFlags(AfterSuppressing(db, 0, "x"), "f", 0);
  }

  // One qualified candidate is on record; suppressed, none is left, and the record still says one.
  lemma CountIsLeftWrong()
    ensures var db := ScoredOnce(true);
            && AfterScoring(Workspace({0}), FIRST) == db && db.qualifiedCandidates[0] == |QualifiedIn(db.scores, 0)| == 1
            && var after := AfterSuppressing(db, 0, "x");
               after.qualifiedCandidates[0] == 1 && QualifiedIn(after.scores, 0) == {}
  {
    hide S.Score, A.Trim;
    ScoreOnce(true);
    IsAcceptable();
    assert QualifiedIn(ScoredOnce(true).scores, 0) == {0};
  }
}
