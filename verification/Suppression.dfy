// Scores, suppressions and the flags that put a candidate in the review queue.

module Suppression {
  import opened Wrappers
  import opened RunTables
  import opened Sets
  import S = OpportunityScore
  import A = Attribution

  type ScoreId = nat
  type CanonicalId = nat
  type AssessmentId = nat
  type RunBusinessId = nat

  const MAX_SUPPRESSION_REASON_LENGTH: nat := 500

  // What an assessment hands the rubric; whether there is a contact route is looked up when scoring.
  datatype Assessment = Assessment(runBusiness: RunBusinessId, canonical: CanonicalId, inputs: S.Inputs)

  datatype ScoreRow = ScoreRow(
    runId: RunId,
    taskId: TaskId,
    runBusiness: RunBusinessId,
    canonical: CanonicalId,
    assessment: AssessmentId,
    breakdown: S.Breakdown,
    qualified: bool)

  // The business may be unknown to an entry written by an older release.
  datatype Entry = Entry(canonical: Option<CanonicalId>, reason: string)

  datatype Standing = Candidate | BelowThreshold | Unscored

  datatype QueueTables = QueueTables(
    fingerprints: map<CanonicalId, string>,
    assessments: map<AssessmentId, Assessment>,
    withOpportunity: set<AssessmentId>,
    withObservation: set<AssessmentId>,
    withContact: set<RunBusinessId>,
    scores: map<ScoreId, ScoreRow>,
    suppressions: map<string, Entry>,
    standings: map<RunBusinessId, Standing>,
    qualifiedCandidates: map<RunId, nat>)

  datatype Scoring = Scoring(runId: RunId, taskId: TaskId, assessment: AssessmentId, newId: ScoreId)

  datatype Scored = AssessmentMissing | Scored(id: ScoreId, total: real, qualified: bool)

  datatype Suppressed = ReasonRequired | ReasonTooLong | CandidateNotFound | Suppressed

  // ---- scoring ----

  predicate IsSuppressed(db: QueueTables, c: CanonicalId) {
    c in db.fingerprints && db.fingerprints[c] in db.suppressions
  }

  function EvidenceFor(db: QueueTables, a: AssessmentId, b: RunBusinessId, c: CanonicalId): S.Evidence {
    S.Evidence(a in db.withOpportunity, a in db.withOpportunity && a in db.withObservation, b in db.withContact,
               IsSuppressed(db, c))
  }

  // What the qualification rule says of a stored score now.
  predicate QualifiesNow(db: QueueTables, row: ScoreRow) {
    S.Qualifies(row.breakdown.total, EvidenceFor(db, row.assessment, row.runBusiness, row.canonical))
  }

  predicate TaskScored(db: QueueTables, t: TaskId) {
    exists i :: i in db.scores && db.scores[i].taskId == t
  }

  function RowFor(db: QueueTables, x: Scoring): ScoreRow
    requires x.assessment in db.assessments
  {
    var a := db.assessments[x.assessment];
    var breakdown := S.Score(a.inputs.(hasContactRoute := a.runBusiness in db.withContact));
    ScoreRow(x.runId, x.taskId, a.runBusiness, a.canonical, x.assessment, breakdown,
             S.Qualifies(breakdown.total, EvidenceFor(db, x.assessment, a.runBusiness, a.canonical)))
  }

  function QualifiedIn(scores: map<ScoreId, ScoreRow>, r: RunId): set<ScoreId> {
    set i | i in scores && scores[i].runId == r && scores[i].qualified
  }

  function AfterScoring(db: QueueTables, x: Scoring): QueueTables {
    if TaskScored(db, x.taskId) || x.assessment !in db.assessments then db
    else
      var row := RowFor(db, x);
      var scores := db.scores[x.newId := row];
      db.(scores := scores,
          standings := db.standings[row.runBusiness := if row.qualified then Candidate else BelowThreshold],
          qualifiedCandidates := db.qualifiedCandidates[x.runId := |QualifiedIn(scores, x.runId)|])
  }

  // ---- suppressing and lifting ----

  function Cleared(scores: map<ScoreId, ScoreRow>, c: CanonicalId): map<ScoreId, ScoreRow> {
    map i | i in scores :: if scores[i].canonical == c then scores[i].(qualified := false) else scores[i]
  }

  predicate Acceptable(reason: string) {
    A.Trim(reason) != [] && |reason| <= MAX_SUPPRESSION_REASON_LENGTH
  }

  function AfterSuppressing(db: QueueTables, i: ScoreId, reason: string): QueueTables {
    if !Acceptable(reason) || i !in db.scores || db.scores[i].canonical !in db.fingerprints then db
    else
      var c := db.scores[i].canonical;
      db.(suppressions := db.suppressions[db.fingerprints[c] := Entry(Some(c), A.Trim(reason))],
          scores := Cleared(db.scores, c))
  }

  // The flags a lift rebuilds for one business from its stored totals and present evidence.
  function Rebuilt(db: QueueTables, c: CanonicalId): map<ScoreId, ScoreRow> {
    map i | i in db.scores ::
      var row := db.scores[i];
      if row.canonical != c then row
      else row.(qualified :=
        row.breakdown.total >= S.REVIEW_QUEUE_THRESHOLD && row.assessment in db.withOpportunity
        && row.assessment in db.withObservation && row.runBusiness in db.withContact)
  }

  predicate ScoredFor(scores: map<ScoreId, ScoreRow>, b: RunBusinessId, c: CanonicalId) {
    exists i :: i in scores && scores[i].runBusiness == b && scores[i].canonical == c
  }

  predicate HasQualified(scores: map<ScoreId, ScoreRow>, b: RunBusinessId) {
    exists i :: i in scores && scores[i].runBusiness == b && scores[i].qualified
  }

  function Restanding(standings: map<RunBusinessId, Standing>, scores: map<ScoreId, ScoreRow>, c: CanonicalId)
    : map<RunBusinessId, Standing>
  {
    map b | b in standings ::
      if !ScoredFor(scores, b, c) then standings[b] else if HasQualified(scores, b) then Candidate else BelowThreshold
  }

  function AfterLifting(db: QueueTables, fingerprint: string): QueueTables {
    if fingerprint !in db.suppressions then db
    else
      var known := db.suppressions[fingerprint].canonical;
      var lifted := db.(suppressions := db.suppressions - {fingerprint});
      if known.None? then lifted
      else
        var scores := Rebuilt(lifted, known.value);
        lifted.(scores := scores, standings := Restanding(db.standings, scores, known.value))
  }

  // ---- as it runs ----

  class ReviewQueueRepository {
    var fingerprints: map<CanonicalId, string>
    var assessments: map<AssessmentId, Assessment>
    var withOpportunity: set<AssessmentId>
    var withObservation: set<AssessmentId>
    var withContact: set<RunBusinessId>
    var scores: map<ScoreId, ScoreRow>
    var suppressions: map<string, Entry>
    var standings: map<RunBusinessId, Standing>
    var qualifiedCandidates: map<RunId, nat>

    function Contents(): QueueTables
      reads this
    {
      QueueTables(fingerprints, assessments, withOpportunity, withObservation, withContact, scores, suppressions,
                  standings, qualifiedCandidates)
    }

    constructor (db: QueueTables)
      ensures Contents() == db
    {
      fingerprints, assessments := db.fingerprints, db.assessments;
      withOpportunity, withObservation, withContact := db.withOpportunity, db.withObservation, db.withContact;
      scores, suppressions := db.scores, db.suppressions;
      standings, qualifiedCandidates := db.standings, db.qualifiedCandidates;
    }

    method FindScore(t: TaskId) returns (found: Option<ScoreId>)
      ensures found.None? <==> !TaskScored(Contents(), t)
      ensures found.Some? ==> found.value in scores && scores[found.value].taskId == t
    {
      var rest := scores.Keys;
      while rest != {}
        invariant rest <= scores.Keys
        invariant forall i :: i in scores && i !in rest ==> scores[i].taskId != t
        decreases rest
      {
        var i :| i in rest;
        if scores[i].taskId == t { return Some(i); }
        rest := rest - {i};
      }
      return None;
    }

    method Score(x: Scoring) returns (result: Scored)
      requires x.newId !in scores
      modifies this
      ensures Contents() == AfterScoring(old(Contents()), x)
      ensures result.AssessmentMissing? <==> !TaskScored(Contents(), x.taskId)
      ensures result.Scored? ==> result.id in scores && scores[result.id].taskId == x.taskId
                                 && result.total == scores[result.id].breakdown.total
                                 && result.qualified == scores[result.id].qualified
    {
      var existing := FindScore(x.taskId);
      if existing.Some? {
        var row := scores[existing.value];
        return Scored(existing.value, row.breakdown.total, row.qualified);
      }
      if x.assessment !in assessments { return AssessmentMissing; }
      var a := assessments[x.assessment];
      var hasContact := a.runBusiness in withContact;
      var breakdown := S.Score(a.inputs.(hasContactRoute := hasContact));
      var isSuppressed := a.canonical in fingerprints && fingerprints[a.canonical] in suppressions;
      var qualified := S.Qualifies(breakdown.total,
        S.Evidence(x.assessment in withOpportunity, x.assessment in withOpportunity && x.assessment in withObservation,
                   hasContact, isSuppressed));
      var row := ScoreRow(x.runId, x.taskId, a.runBusiness, a.canonical, x.assessment, breakdown, qualified);
      scores := scores[x.newId := row];
      standings := standings[a.runBusiness := if qualified then Candidate else BelowThreshold];
      qualifiedCandidates := qualifiedCandidates[x.runId := |QualifiedIn(scores, x.runId)|];
      assert scores[x.newId].taskId == x.taskId;
      result := Scored(x.newId, breakdown.total, qualified);
    }

    method SuppressCandidate(i: ScoreId, reason: string) returns (result: Suppressed)
      modifies this
      ensures Contents() == AfterSuppressing(old(Contents()), i, reason)
      ensures result.ReasonRequired? <==> A.Trim(reason) == []
      ensures result.ReasonTooLong? <==> A.Trim(reason) != [] && |reason| > MAX_SUPPRESSION_REASON_LENGTH
      ensures result.Suppressed? <==> Acceptable(reason) && i in scores && scores[i].canonical in fingerprints
    {
      if A.Trim(reason) == [] { return ReasonRequired; }
      if |reason| > MAX_SUPPRESSION_REASON_LENGTH { return ReasonTooLong; }
      if i !in scores || scores[i].canonical !in fingerprints { return CandidateNotFound; }
      var c := scores[i].canonical;
      suppressions := suppressions[fingerprints[c] := Entry(Some(c), A.Trim(reason))];
      scores := Cleared(scores, c);
      result := Suppressed;
    }

    method LiftSuppression(fingerprint: string) returns (lifted: bool)
      modifies this
      ensures Contents() == AfterLifting(old(Contents()), fingerprint)
      ensures lifted <==> fingerprint in old(suppressions)
    {
      if fingerprint !in suppressions { return false; }
      var known := suppressions[fingerprint].canonical;
      suppressions := suppressions - {fingerprint};
      if known.Some? {
        scores := Rebuilt(Contents(), known.value);
        standings := Restanding(standings, scores, known.value);
      }
      return true;
    }
  }

  // ---- what every history keeps ----

  // Gathering evidence stands for every other stage: it may add businesses, assessments and evidence.
  datatype Action =
    | ScoreAction(x: Scoring)
    | SuppressAction(id: ScoreId, reason: string)
    | LiftAction(fingerprint: string)
    | GatherAction(after: QueueTables)

  ghost predicate DistinctFingerprints(fingerprints: map<CanonicalId, string>) {
    forall a, b :: a in fingerprints && b in fingerprints && fingerprints[a] == fingerprints[b] ==> a == b
  }

  ghost predicate Gathers(db: QueueTables, after: QueueTables) {
    && after.scores == db.scores && after.suppressions == db.suppressions
    && (forall c :: c in db.fingerprints ==> c in after.fingerprints && after.fingerprints[c] == db.fingerprints[c])
    && DistinctFingerprints(after.fingerprints)
    && (forall a :: a in after.assessments ==> after.assessments[a].canonical in after.fingerprints)
  }

  ghost predicate Fits(db: QueueTables, action: Action) {
    match action
    case ScoreAction(x) => x.newId !in db.scores
    case GatherAction(after) => Gathers(db, after)
    case _ => true
  }

  function Apply(db: QueueTables, action: Action): QueueTables {
    match action
    case ScoreAction(x) => AfterScoring(db, x)
    case SuppressAction(i, reason) => AfterSuppressing(db, i, reason)
    case LiftAction(fingerprint) => AfterLifting(db, fingerprint)
    case GatherAction(after) => after
  }

  function Run(db: QueueTables, actions: seq<Action>): QueueTables {
    if actions == [] then db else Apply(Run(db, actions[..|actions| - 1]), actions[|actions| - 1])
  }

  ghost predicate Happens(db: QueueTables, actions: seq<Action>) {
    actions != [] ==>
      Happens(db, actions[..|actions| - 1]) && Fits(Run(db, actions[..|actions| - 1]), actions[|actions| - 1])
  }

  ghost predicate NoneQualifiedWhileSuppressed(db: QueueTables) {
    forall i :: i in db.scores && db.scores[i].qualified ==> !IsSuppressed(db, db.scores[i].canonical)
  }

  ghost predicate Keyed(db: QueueTables) {
    && DistinctFingerprints(db.fingerprints)
    && (forall i :: i in db.scores ==> db.scores[i].canonical in db.fingerprints)
    && (forall a :: a in db.assessments ==> db.assessments[a].canonical in db.fingerprints)
    && (forall f :: f in db.suppressions && db.suppressions[f].canonical.Some? ==>
          db.suppressions[f].canonical.value in db.fingerprints
          && db.fingerprints[db.suppressions[f].canonical.value] == f)
  }

  ghost predicate OneScorePerTask(db: QueueTables) {
    forall i, j :: i in db.scores && j in db.scores && db.scores[i].taskId == db.scores[j].taskId ==> i == j
  }

  ghost predicate Safe(db: QueueTables) {
    Keyed(db) && NoneQualifiedWhileSuppressed(db) && OneScorePerTask(db)
  }

  lemma ScoringKeeps(db: QueueTables, x: Scoring)
    requires Safe(db) && x.newId !in db.scores
    ensures Safe(AfterScoring(db, x))
  {
    hide S.Score, S.Qualifies, QualifiedIn;
    if !TaskScored(db, x.taskId) && x.assessment in db.assessments {
      OnlyUnsuppressedQualify(RowFor(db, x).breakdown.total,
        EvidenceFor(db, x.assessment, RowFor(db, x).runBusiness, RowFor(db, x).canonical));
    }
  }

  lemma OnlyUnsuppressedQualify(total: real, evidence: S.Evidence)
    ensures S.Qualifies(total, evidence) ==> !evidence.suppressed
  {
  }

  lemma SuppressingKeeps(db: QueueTables, i: ScoreId, reason: string)
    requires Safe(db)
    ensures Safe(AfterSuppressing(db, i, reason))
  {
    hide A.Trim;
  }

  lemma LiftingKeeps(db: QueueTables, fingerprint: string)
    requires Safe(db)
    ensures Safe(AfterLifting(db, fingerprint))
  {
    hide Restanding;
    if fingerprint in db.suppressions && db.suppressions[fingerprint].canonical.Some? {
      LiftingKeepsFlags(db, fingerprint, db.suppressions[fingerprint].canonical.value);
    }
  }

  lemma LiftingKeepsFlags(db: QueueTables, fingerprint: string, c: CanonicalId)
    requires Safe(db) && fingerprint in db.suppressions && db.suppressions[fingerprint].canonical == Some(c)
    ensures Safe(AfterLifting(db, fingerprint))
  {
    hide AfterLifting, QualifiesNow;
    LiftRebuildsFlags(db, fingerprint, c);
    LiftFrame(db, fingerprint);
    var after := AfterLifting(db, fingerprint);
    assert forall i :: i in db.scores ==>
      after.scores[i].canonical == db.scores[i].canonical && after.scores[i].taskId == db.scores[i].taskId;
  }

  lemma LiftFrame(db: QueueTables, fingerprint: string)
    ensures var after := AfterLifting(db, fingerprint);
            && after.fingerprints == db.fingerprints && after.assessments == db.assessments
            && after.suppressions == db.suppressions - {fingerprint}
  {
    hide Restanding, Rebuilt;
    if fingerprint !in db.suppressions { assert db.suppressions - {fingerprint} == db.suppressions; }
  }

  lemma ActionKeeps(db: QueueTables, action: Action)
    requires Safe(db) && Fits(db, action)
    ensures Safe(Apply(db, action))
  {
    match action
    case ScoreAction(x) => hide Safe; ScoringKeeps(db, x);
    case SuppressAction(i, reason) => hide Safe; SuppressingKeeps(db, i, reason);
    case LiftAction(fingerprint) => hide Safe; LiftingKeeps(db, fingerprint);
    case GatherAction(_) =>
  }

  ghost predicate Untouched(db: QueueTables) {
    db.scores == map[] && db.suppressions == map[] && db.assessments == map[] && DistinctFingerprints(db.fingerprints)
  }

  // However scoring, suppressing, lifting and the gathering of evidence interleave, nothing is in the
  // queue while its business is suppressed.
  lemma {:induction false} NeverQueuedWhileSuppressed(db: QueueTables, actions: seq<Action>)
    requires Untouched(db) && Happens(db, actions)
    ensures Safe(Run(db, actions))
  {
    hide Apply, Fits;
    if actions != [] {
      NeverQueuedWhileSuppressed(db, actions[..|actions| - 1]);
      ActionKeeps(Run(db, actions[..|actions| - 1]), actions[|actions| - 1]);
    }
  }

  // Scoring a task again changes nothing, whatever was suppressed, lifted or gathered in between.
  lemma ScoringAgainChangesNothing(db: QueueTables, x: Scoring, again: Scoring, between: seq<Action>)
    requires x.assessment in db.assessments && again.taskId == x.taskId
    requires Happens(AfterScoring(db, x), between)
    ensures AfterScoring(Run(AfterScoring(db, x), between), again) == Run(AfterScoring(db, x), between)
  {
    hide RowFor, Run, Happens;
    assert TaskScored(AfterScoring(db, x), x.taskId) by {
      if !TaskScored(db, x.taskId) {
        RowKeepsTask(db, x);
        assert AfterScoring(db, x).scores[x.newId].taskId == x.taskId;
      }
    }
    ScoresStay(AfterScoring(db, x), between, x.taskId);
  }

  lemma RowKeepsTask(db: QueueTables, x: Scoring)
    requires x.assessment in db.assessments
    ensures RowFor(db, x).taskId == x.taskId
  {
  }

  lemma {:induction false} ScoresStay(db: QueueTables, actions: seq<Action>, t: TaskId)
    requires Happens(db, actions) && TaskScored(db, t)
    ensures TaskScored(Run(db, actions), t)
  {
    if actions != [] {
      hide AfterScoring, AfterSuppressing, AfterLifting, TaskScored;
      var before, action := actions[..|actions| - 1], actions[|actions| - 1];
      ScoresStay(db, before, t);
      match action {
        case ScoreAction(x) => ScoringKeepsScored(Run(db, before), x, t);
        case SuppressAction(i, reason) => SuppressingKeepsScored(Run(db, before), i, reason, t);
        case LiftAction(fingerprint) => LiftingKeepsScored(Run(db, before), fingerprint, t);
        case GatherAction(after) => GatheringKeepsScored(Run(db, before), after, t);
      }
    }
  }

  lemma ScoringKeepsScored(db: QueueTables, x: Scoring, t: TaskId)
    requires TaskScored(db, t) && x.newId !in db.scores
    ensures TaskScored(AfterScoring(db, x), t)
  {
    hide RowFor;
    var i :| i in db.scores && db.scores[i].taskId == t;
    assert AfterScoring(db, x).scores[i] == db.scores[i];
  }

  lemma SuppressingKeepsScored(db: QueueTables, s: ScoreId, reason: string, t: TaskId)
    requires TaskScored(db, t)
    ensures TaskScored(AfterSuppressing(db, s, reason), t)
  {
    var i :| i in db.scores && db.scores[i].taskId == t;
    assert AfterSuppressing(db, s, reason).scores[i].taskId == t;
  }

  lemma LiftingKeepsScored(db: QueueTables, fingerprint: string, t: TaskId)
    requires TaskScored(db, t)
    ensures TaskScored(AfterLifting(db, fingerprint), t)
  {
    hide Restanding;
    var i :| i in db.scores && db.scores[i].taskId == t;
    assert AfterLifting(db, fingerprint).scores[i].taskId == t;
  }

  lemma GatheringKeepsScored(db: QueueTables, after: QueueTables, t: TaskId)
    requires TaskScored(db, t) && Gathers(db, after)
    ensures TaskScored(after, t)
  {
  }

  // ---- lifting ----

  // A lift gives every score of its business what the qualification rule says of it then, and
  // leaves every other score alone.
  lemma LiftRebuildsFlags(db: QueueTables, fingerprint: string, c: CanonicalId)
    requires Keyed(db) && fingerprint in db.suppressions && db.suppressions[fingerprint].canonical == Some(c)
    ensures var after := AfterLifting(db, fingerprint);
            && !IsSuppressed(after, c)
            && after.scores.Keys == db.scores.Keys
            && forall i :: i in db.scores ==>
                 after.scores[i] == if db.scores[i].canonical == c
                                    then db.scores[i].(qualified := QualifiesNow(after, db.scores[i])) else db.scores[i]
  {
    hide Restanding;
  }

  ghost predicate FlagsAreCurrent(db: QueueTables, c: CanonicalId) {
    forall i :: i in db.scores && db.scores[i].canonical == c ==> db.scores[i].qualified == QualifiesNow(db, db.scores[i])
  }

  ghost predicate StandingsAreCurrent(db: QueueTables, c: CanonicalId) {
    forall b :: b in db.standings && ScoredFor(db.scores, b, c) ==>
      db.standings[b] == if HasQualified(db.scores, b) then Candidate else BelowThreshold
  }

  // Suppressing a business and lifting it again restores the workspace exactly when it was not
  // suppressed already and its flags and standings were what the present threshold and evidence give.
  lemma SuppressThenLift(db: QueueTables, i: ScoreId, reason: string)
    requires Keyed(db) && Acceptable(reason) && i in db.scores
    ensures var c := db.scores[i].canonical;
            AfterLifting(AfterSuppressing(db, i, reason), db.fingerprints[c]) == db
            <==> !IsSuppressed(db, c) && FlagsAreCurrent(db, c) && StandingsAreCurrent(db, c)
  {
    hide Restanding, StandingsAreCurrent, HasQualified, ScoredFor, A.Trim;
    var c := db.scores[i].canonical;
    var back := AfterLifting(AfterSuppressing(db, i, reason), db.fingerprints[c]);
    assert back.suppressions == db.suppressions - {db.fingerprints[c]};
    if !IsSuppressed(db, c) {
      assert back.suppressions == db.suppressions;
      RebuiltScores(db, i, reason);
      if back.scores == db.scores { RestandingIsIdentity(db, c); }
    }
  }

  lemma RebuiltScores(db: QueueTables, i: ScoreId, reason: string)
    requires Keyed(db) && Acceptable(reason) && i in db.scores && !IsSuppressed(db, db.scores[i].canonical)
    ensures var c := db.scores[i].canonical;
            var back := AfterLifting(AfterSuppressing(db, i, reason), db.fingerprints[c]);
            && back.standings == Restanding(db.standings, back.scores, c)
            && (back.scores == db.scores <==> FlagsAreCurrent(db, c))
  {
    hide Restanding, A.Trim;
    var c := db.scores[i].canonical;
    var back := AfterLifting(AfterSuppressing(db, i, reason), db.fingerprints[c]);
    assert back.scores.Keys == db.scores.Keys;
    forall k | k in db.scores
      ensures back.scores[k] == if db.scores[k].canonical == c
                                then db.scores[k].(qualified := QualifiesNow(db, db.scores[k])) else db.scores[k]
    {
    }
  }

  lemma RestandingIsIdentity(db: QueueTables, c: CanonicalId)
    ensures Restanding(db.standings, db.scores, c) == db.standings <==> StandingsAreCurrent(db, c)
  {
    hide HasQualified, ScoredFor;
    var after := Restanding(db.standings, db.scores, c);
    assert after.Keys == db.standings.Keys;
    if StandingsAreCurrent(db, c) {
      assert forall b :: b in db.standings ==> after[b] == db.standings[b];
    }
  }

  // ---- the run's count of qualified candidates ----

  // A score recounts its run; a suppression does not, so the stored count stays right exactly for
  // the runs in which the business had nothing qualified.
  lemma SuppressionLeavesTheCount(db: QueueTables, i: ScoreId, reason: string, r: RunId)
    requires Acceptable(reason) && i in db.scores && db.scores[i].canonical in db.fingerprints
    requires r in db.qualifiedCandidates && db.qualifiedCandidates[r] == |QualifiedIn(db.scores, r)|
    ensures var after := AfterSuppressing(db, i, reason);
            after.qualifiedCandidates[r] == |QualifiedIn(after.scores, r)|
            <==> forall k :: k in QualifiedIn(db.scores, r) ==> db.scores[k].canonical != db.scores[i].canonical
  {
    hide A.Trim;
    var after := AfterSuppressing(db, i, reason);
    var before, left := QualifiedIn(db.scores, r), QualifiedIn(after.scores, r);
    assert left <= before;
    if k :| k in before && db.scores[k].canonical == db.scores[i].canonical {
      assert k !in left;
      assert |left| <= |before - {k}| by { Fewer(left, before - {k}); }
    } else {
      assert left == before;
    }
  }
}
