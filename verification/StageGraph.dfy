// The successor every stage chooses. Services outside the application (searches, inspections,
// assessments, persistence) appear as whatever they found.

module StageGraph {
  import opened Wrappers
  import opened RunTables

  const MINIMUM_ABSENCE_SOURCES: nat := 2

  datatype Findings = Findings(
    // The stage raised an error instead of returning.
    failure: Option<Classification>,
    // The brief on the task names businesses to reassess.
    namesBusinesses: bool,
    // Businesses discovered or carried forward.
    businesses: seq<BusinessId>,
    // Identity found the business eligible for inspection.
    shouldInspect: bool,
    // The inspection found no website to look at.
    noWebsite: bool,
    // Public pages that corroborate an absence, and a website a confirming search turned up.
    corroboratingSources: nat,
    websiteFound: bool)

  datatype Execution = Returned(cp: Checkpoint) | Raised(classification: Classification)

  function ForEachBusiness(businesses: seq<BusinessId>): seq<NewTask> {
    seq(|businesses|, i requires 0 <= i < |businesses| =>
      NewTask(CorroborateBusiness, Some(businesses[i]), TaskInput(false)))
  }

  function Only(stage: Stage, business: Option<BusinessId>, input: TaskInput): Execution {
    Returned(Checkpoint([NewTask(stage, business, input)], false))
  }

  function ConfirmAbsence(task: RunTask, found: Findings): Execution {
    if found.corroboratingSources >= MINIMUM_ABSENCE_SOURCES || task.input.absenceConfirmed then
      Only(AssessWebsiteOpportunity, task.business, TaskInput(false))
    else if found.websiteFound then
      // A website the first pass missed is inspected, and never confirmed absent again.
      Only(InspectWebsite, task.business, TaskInput(true))
    else
      Only(AssessWebsiteOpportunity, task.business, TaskInput(false))
  }

  function Execute(task: RunTask, found: Findings): Execution {
    match found.failure
    case Some(classification) => Raised(classification)
    case None =>
      match task.stage
      case RunPlanning =>
        Only(if found.namesBusinesses then SeedReassessment else DiscoverBusinesses, None, task.input)
      case SeedReassessment =>
        if found.businesses == [] then Raised(Permanent)
        else Returned(Checkpoint(ForEachBusiness(found.businesses), false))
      case DiscoverBusinesses =>
        if found.businesses == [] then Returned(Checkpoint([], true))
        else Returned(Checkpoint(ForEachBusiness(found.businesses), false))
      case CorroborateBusiness =>
        if found.shouldInspect then Only(InspectWebsite, task.business, TaskInput(false))
        else Returned(Checkpoint([], false))
      case InspectWebsite =>
        Only(if found.noWebsite then ConfirmAbsentWebsite else AssessWebsiteOpportunity, task.business, task.input)
      case ConfirmAbsentWebsite => ConfirmAbsence(task, found)
      case AssessWebsiteOpportunity => Only(ScoreCandidate, task.business, TaskInput(false))
      case ScoreCandidate => Returned(Checkpoint([], false))
  }

  // Stages that fan a run out into its businesses.
  predicate FansOut(stage: Stage) {
    stage == SeedReassessment || stage == DiscoverBusinesses
  }

  // How many tasks one business can still need from this stage on, itself included.
  function Rank(stage: Stage, input: TaskInput): nat {
    match stage
    case CorroborateBusiness => 7
    case InspectWebsite => if input.absenceConfirmed then 4 else 6
    case ConfirmAbsentWebsite => if input.absenceConfirmed then 3 else 5
    case AssessWebsiteOpportunity => 2
    case ScoreCandidate => 1
    case _ => 0
  }

  // Past the fan-out every stage has at most one successor, of strictly smaller rank.
  lemma SuccessorRank(task: RunTask, found: Findings)
    ensures var e := Execute(task, found);
            e.Returned? ==>
              match task.stage
              case RunPlanning => |e.cp.next| == 1 && FansOut(e.cp.next[0].stage) && !e.cp.searchExhausted
              case SeedReassessment => forall n :: n in e.cp.next ==> n.stage == CorroborateBusiness
              case DiscoverBusinesses => forall n :: n in e.cp.next ==> n.stage == CorroborateBusiness
              case _ =>
                |e.cp.next| <= 1
                && forall n :: n in e.cp.next ==> 1 <= Rank(n.stage, n.input) < Rank(task.stage, task.input)
  {
  }

  // ---- the path of one business through the graph ----

  datatype Node = Node(stage: Stage, input: TaskInput)

  ghost predicate Follows(a: Node, b: Node) {
    exists task: RunTask, found: Findings, n ::
      && task.stage == a.stage && task.input == a.input
      && Execute(task, found).Returned?
      && n in Execute(task, found).cp.next
      && b == Node(n.stage, n.input)
  }

  ghost predicate Path(p: seq<Node>) {
    forall i :: 0 <= i < |p| - 1 ==> Follows(p[i], p[i + 1])
  }

  function Visits(p: seq<Node>, stage: Stage): nat {
    if p == [] then 0 else (if p[0].stage == stage then 1 else 0) + Visits(p[1..], stage)
  }

  lemma FollowsDescends(a: Node, b: Node)
    requires Follows(a, b) && Rank(a.stage, a.input) > 0
    ensures 1 <= Rank(b.stage, b.input) < Rank(a.stage, a.input)
  {
    var task: RunTask, found: Findings, n :|
      && task.stage == a.stage && task.input == a.input
      && Execute(task, found).Returned?
      && n in Execute(task, found).cp.next
      && b == Node(n.stage, n.input);
    SuccessorRank(task, found);
  }

  // The inspect/confirm cycle is broken by the absence flag: whatever the services find, one
  // business is inspected at most twice, confirmed at most twice, and needs at most seven tasks.
  lemma {:induction false} CycleIsBroken(p: seq<Node>)
    requires p != [] && Path(p) && Rank(p[0].stage, p[0].input) > 0
    ensures |p| <= Rank(p[0].stage, p[0].input) <= 7
    ensures Visits(p, InspectWebsite) <= (if Rank(p[0].stage, p[0].input) >= 6 then 2
                                          else if Rank(p[0].stage, p[0].input) >= 4 then 1 else 0)
    ensures Visits(p, ConfirmAbsentWebsite) <= (if Rank(p[0].stage, p[0].input) >= 5 then 2
                                                else if Rank(p[0].stage, p[0].input) >= 3 then 1 else 0)
  {
    if |p| > 1 {
      assert Follows(p[0], p[0 + 1]);
      FollowsDescends(p[0], p[1]);
      forall i | 0 <= i < |p[1..]| - 1
        ensures Follows(p[1..][i], p[1..][i + 1])
      {
        assert Follows(p[i + 1], p[i + 1 + 1]);
      }
      CycleIsBroken(p[1..]);
    } else {
      assert p[1..] == [];
    }
  }

  // A stage that returned nothing further for its business.
  ghost predicate Ends(a: Node) {
    exists task: RunTask, found: Findings ::
      && task.stage == a.stage && task.input == a.input
      && Execute(task, found).Returned? && Execute(task, found).cp.next == []
  }

  // Short of an error, every business found eligible for inspection is scored, and scored once.
  lemma {:induction false} InspectedIsScored(p: seq<Node>)
    requires p != [] && Path(p) && 1 <= Rank(p[0].stage, p[0].input) <= 6 && Ends(p[|p| - 1])
    ensures p[|p| - 1].stage == ScoreCandidate && Visits(p, ScoreCandidate) == 1
  {
    hide Execute;
    if |p| > 1 {
      assert Follows(p[0], p[0 + 1]);
      FollowsDescends(p[0], p[1]);
      forall i | 0 <= i < |p[1..]| - 1
        ensures Follows(p[1..][i], p[1..][i + 1])
      {
        assert Follows(p[i + 1], p[i + 1 + 1]);
      }
      InspectedIsScored(p[1..]);
    } else {
      OnlyScoringEnds(p[0]);
      assert p[1..] == [];
    }
  }

  lemma OnlyScoringEnds(a: Node)
    requires 1 <= Rank(a.stage, a.input) <= 6 && Ends(a)
    ensures a.stage == ScoreCandidate
  {
  }

  // ---- the path with what each stage found ----

  datatype Visit = Visit(task: RunTask, found: Findings)

  // Each visit returned, and the next works on the one task it handed on.
  ghost predicate Journey(v: seq<Visit>) {
    forall i :: 0 <= i < |v| - 1 ==> HandsOn(v[i], v[i + 1].task)
  }

  ghost predicate HandsOn(v: Visit, next: RunTask) {
    && Execute(v.task, v.found).Returned?
    && NewTask(next.stage, next.business, next.input) in Execute(v.task, v.found).cp.next
  }

  // Past the fan-out, what a stage found decides where its business goes: an absence is confirmed
  // before it is assessed, a website found meanwhile is inspected if the absence was neither
  // corroborated nor confirmed before, and it is then never confirmed absent again.
  lemma WhereABusinessGoes(v: seq<Visit>, i: nat)
    requires Journey(v) && i + 1 < |v|
    ensures var task, found, next := v[i].task, v[i].found, v[i + 1].task;
            && found.failure == None
            && (task.stage == RunPlanning ==>
                  next.business == None && next.input == task.input
                  && next.stage == if found.namesBusinesses then SeedReassessment else DiscoverBusinesses)
            && (task.stage == SeedReassessment || task.stage == DiscoverBusinesses ==>
                  next.stage == CorroborateBusiness && next.business.Some? && next.business.value in found.businesses
                  && !next.input.absenceConfirmed)
            && (task.stage == CorroborateBusiness ==>
                  found.shouldInspect && next.stage == InspectWebsite && !next.input.absenceConfirmed)
            && (task.stage == InspectWebsite ==>
                  (next.stage == ConfirmAbsentWebsite <==> found.noWebsite)
                  && (next.stage == AssessWebsiteOpportunity <==> !found.noWebsite)
                  && next.input.absenceConfirmed == task.input.absenceConfirmed)
            && (task.stage == ConfirmAbsentWebsite ==>
                  (next.stage == InspectWebsite
                   <==> found.websiteFound && found.corroboratingSources < 2 && !task.input.absenceConfirmed)
                  && (next.stage != InspectWebsite ==> next.stage == AssessWebsiteOpportunity)
                  && (next.stage == InspectWebsite ==> next.input.absenceConfirmed))
            && (task.stage == AssessWebsiteOpportunity ==> next.stage == ScoreCandidate)
            && task.stage != ScoreCandidate
            && (task.stage != RunPlanning && task.stage != SeedReassessment && task.stage != DiscoverBusinesses ==>
                  next.business == task.business)
  {
    assert HandsOn(v[i], v[i + 1].task);
  }

  // On no journey is a site that an inspection found absent assessed without a confirmation in between
  // that found none either, or had two sources for the absence, or came after an earlier confirmation.
  lemma AbsenceIsConfirmed(v: seq<Visit>, i: nat)
    requires Journey(v) && i + 1 < |v| && v[i].task.stage == InspectWebsite && v[i].found.noWebsite
    ensures v[i + 1].task.stage == ConfirmAbsentWebsite
    ensures i + 2 < |v| ==>
              (v[i + 2].task.stage == AssessWebsiteOpportunity
               <==> !v[i + 1].found.websiteFound || v[i + 1].found.corroboratingSources >= 2
                    || v[i].task.input.absenceConfirmed)
  {
    hide Execute, Journey;
    WhereABusinessGoes(v, i);
    if i + 2 < |v| { WhereABusinessGoes(v, i + 1); }
  }

  // The fan-out hands on one corroboration for each business, in order; a search without any is
  // declared exhausted and a reassessment without any fails.
  lemma FanOutIsComplete(task: RunTask, found: Findings)
    requires FansOut(task.stage) && found.failure == None
    ensures found.businesses != [] ==>
              var e := Execute(task, found);
              && e.Returned? && !e.cp.searchExhausted && |e.cp.next| == |found.businesses|
              && forall i :: 0 <= i < |found.businesses| ==>
                   e.cp.next[i] == NewTask(CorroborateBusiness, Some(found.businesses[i]), TaskInput(false))
    ensures found.businesses == [] ==>
              Execute(task, found)
              == if task.stage == DiscoverBusinesses then Returned(Checkpoint([], true)) else Raised(Permanent)
  {
  }

  // Errors reach the queue as they were raised, and only a search ever declares itself exhausted.
  lemma OnlySearchesExhaust(task: RunTask, found: Findings)
    ensures found.failure.Some? ==> Execute(task, found) == Raised(found.failure.value)
    ensures Execute(task, found).Returned? && Execute(task, found).cp.searchExhausted
            <==> task.stage == DiscoverBusinesses && found.failure == None && found.businesses == []
  {
  }

  const LONGEST_PATH := [
    Node(CorroborateBusiness, TaskInput(false)), Node(InspectWebsite, TaskInput(false)),
    Node(ConfirmAbsentWebsite, TaskInput(false)), Node(InspectWebsite, TaskInput(true)),
    Node(ConfirmAbsentWebsite, TaskInput(true)), Node(AssessWebsiteOpportunity, TaskInput(false)),
    Node(ScoreCandidate, TaskInput(false))]

  lemma VisitsFrom(p: seq<Node>, i: nat, stage: Stage)
    requires i < |p|
    ensures Visits(p[i..], stage) == (if p[i].stage == stage then 1 else 0) + Visits(p[i + 1..], stage)
  {
    assert p[i..][1..] == p[i + 1..];
  }

  lemma LongestPathVisits(stage: Stage)
    ensures Visits(LONGEST_PATH, stage)
            == if stage == InspectWebsite || stage == ConfirmAbsentWebsite then 2
               else if stage == CorroborateBusiness || stage == AssessWebsiteOpportunity || stage == ScoreCandidate then 1
               else 0
  {
    hide Visits;
    var p := LONGEST_PATH;
    VisitsFrom(p, 0, stage);
    VisitsFrom(p, 1, stage);
    VisitsFrom(p, 2, stage);
    VisitsFrom(p, 3, stage);
    VisitsFrom(p, 4, stage);
    VisitsFrom(p, 5, stage);
    VisitsFrom(p, 6, stage);
    NoVisits(p[7..], stage);
    assert p[0..] == p;
  }

  lemma NoVisits(p: seq<Node>, stage: Stage)
    requires p == []
    ensures Visits(p, stage) == 0
  {
  }

  // The bounds are met: two inspections and two confirmations for one business do happen.
  lemma CycleIsEnteredTwice()
    ensures Path(LONGEST_PATH) && |LONGEST_PATH| == 7
    ensures Visits(LONGEST_PATH, InspectWebsite) == 2 && Visits(LONGEST_PATH, ConfirmAbsentWebsite) == 2
  {
    hide Visits;
    LongestPathVisits(InspectWebsite);
    LongestPathVisits(ConfirmAbsentWebsite);
    var p := LONGEST_PATH;
    forall i | 0 <= i < |p| - 1
      ensures Follows(p[i], p[i + 1])
    {
      var task := RunTask(0, 0, p[i].stage, None, p[i].input, 1, 3);
      var found := Findings(None, false, [], true, true, 0, true);
      var n := Execute(task, found).cp.next[0];
      assert p[i + 1] == Node(n.stage, n.input);
    }
  }
}
