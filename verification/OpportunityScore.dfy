// The rubric that scores a candidate and decides whether it enters the review queue, over reals.

module OpportunityScore {
  const REVIEW_QUEUE_THRESHOLD: real := 72.0
  const BLOCKED_INSPECTION_MAX_SEVERITY: real := 4.0
  const UNCORROBORATED_ABSENCE_MAX_SEVERITY: real := 4.0
  const MINIMUM_ABSENCE_SOURCES: nat := 2
  const CONTROL_CEILING: real := 8.0
  const MISSING_ALT_CEILING: real := 8.0

  datatype InspectionState = Complete | Partial | Blocked | NoWebsite

  datatype PageDefects = PageDefects(
    unlabeledControls: int,
    imagesMissingAlt: int,
    horizontalOverflow: bool,
    usesHttps: bool,
    firstContentfulPaintMs: real)

  datatype Inputs = Inputs(
    severity: real,
    pages: seq<PageDefects>,
    hasContactRoute: bool,
    localDecisionLikelihood: real,
    apparentCommercialValue: real,
    inspectionState: InspectionState,
    corroboratingSources: nat)

  datatype Breakdown = Breakdown(
    severity: real,
    observedDefects: real,
    contactRoute: real,
    localDecisionLikelihood: real,
    apparentCommercialValue: real,
    total: real)

  datatype Evidence = Evidence(hasOpportunity: bool, hasObservation: bool, hasContactRoute: bool, suppressed: bool)

  function Min(a: real, b: real): real { if a <= b then a else b }

  function Bounded(v: real): real { if v < 0.0 then 0.0 else if v > 1.0 then 1.0 else v }

  function PageDefectDensity(page: PageDefects): real {
    Bounded(
      Bounded(page.unlabeledControls as real / CONTROL_CEILING) * 0.4
      + Bounded(page.imagesMissingAlt as real / MISSING_ALT_CEILING) * 0.25
      + (if page.horizontalOverflow then 0.15 else 0.0)
      + (if page.usesHttps then 0.0 else 0.2))
  }

  // The worst page, and nothing for no pages.
  function WorstPage(pages: seq<PageDefects>): real {
    if pages == [] then 0.0
    else
      var rest, last := WorstPage(pages[..|pages| - 1]), PageDefectDensity(pages[|pages| - 1]);
      if rest <= last then last else rest
  }

  function ObservedDefectDensity(pages: seq<PageDefects>, state: InspectionState): real {
    if state.NoWebsite? then 1.0 else WorstPage(pages)
  }

  function CappedSeverity(input: Inputs): real {
    if input.inspectionState.Blocked? then Min(input.severity, BLOCKED_INSPECTION_MAX_SEVERITY)
    else if input.inspectionState.NoWebsite? && input.corroboratingSources < MINIMUM_ABSENCE_SOURCES then
      Min(input.severity, UNCORROBORATED_ABSENCE_MAX_SEVERITY)
    else input.severity
  }

  // Two decimals, halves up.
  function Rounded(v: real): real { (v * 100.0 + 0.5).Floor as real / 100.0 }

  function Score(input: Inputs): Breakdown {
    var severity := Bounded(CappedSeverity(input) / 5.0) * 55.0;
    var defects := ObservedDefectDensity(input.pages, input.inspectionState) * 10.0;
    var contact := if input.hasContactRoute then 15.0 else 0.0;
    var local := Bounded(input.localDecisionLikelihood) * 10.0;
    var value := Bounded(input.apparentCommercialValue) * 10.0;
    Breakdown(severity, defects, contact, local, value, Rounded(severity + defects + contact + local + value))
  }

  predicate Qualifies(total: real, evidence: Evidence) {
    total >= REVIEW_QUEUE_THRESHOLD && evidence.hasOpportunity && evidence.hasObservation
    && evidence.hasContactRoute && !evidence.suppressed
  }

  // ---- the worst page ----

  lemma {:induction false} WorstPageIsTheMaximum(pages: seq<PageDefects>)
    ensures forall p :: p in pages ==> PageDefectDensity(p) <= WorstPage(pages)
    ensures if pages == [] then WorstPage(pages) == 0.0
            else exists p :: p in pages && WorstPage(pages) == PageDefectDensity(p)
  {
    hide PageDefectDensity;
    if pages != [] {
      var before, last := pages[..|pages| - 1], pages[|pages| - 1];
      WorstPageIsTheMaximum(before);
      assert pages == before + [last];
      DensityInRange(last);
      assert last in pages;
    }
  }

  lemma DensityInRange(page: PageDefects)
    ensures 0.0 <= PageDefectDensity(page) <= 1.0
  {
  }

  lemma DefectsInRange(pages: seq<PageDefects>, state: InspectionState)
    ensures 0.0 <= ObservedDefectDensity(pages, state) <= 1.0
  {
    hide PageDefectDensity, WorstPage;
    WorstPageIsTheMaximum(pages);
    forall p | p in pages
      ensures 0.0 <= PageDefectDensity(p) <= 1.0
    {
      DensityInRange(p);
    }
  }

  // ---- the total ----

  lemma TotalInRange(input: Inputs)
    ensures 0.0 <= Score(input).total <= 100.0
  {
    hide ObservedDefectDensity, CappedSeverity;
    DefectsInRange(input.pages, input.inspectionState);
  }

  // One page shows at most the defects of another; the paint time does not count.
  predicate Milder(p: PageDefects, q: PageDefects) {
    && p.unlabeledControls <= q.unlabeledControls
    && p.imagesMissingAlt <= q.imagesMissingAlt
    && (p.horizontalOverflow ==> q.horizontalOverflow)
    && (q.usesHttps ==> p.usesHttps)
  }

  // Every defect, source and likelihood of one candidate is matched by the other.
  ghost predicate Weaker(a: Inputs, b: Inputs) {
    && a.inspectionState == b.inspectionState
    && a.severity <= b.severity
    && a.corroboratingSources <= b.corroboratingSources
    && (forall p :: p in a.pages ==> exists q :: q in b.pages && Milder(p, q))
    && (a.hasContactRoute ==> b.hasContactRoute)
    && a.localDecisionLikelihood <= b.localDecisionLikelihood
    && a.apparentCommercialValue <= b.apparentCommercialValue
  }

  lemma MilderIsLessDense(p: PageDefects, q: PageDefects)
    requires Milder(p, q)
    ensures PageDefectDensity(p) <= PageDefectDensity(q)
  {
    assert Bounded(p.unlabeledControls as real / CONTROL_CEILING)
        <= Bounded(q.unlabeledControls as real / CONTROL_CEILING);
    assert Bounded(p.imagesMissingAlt as real / MISSING_ALT_CEILING)
        <= Bounded(q.imagesMissingAlt as real / MISSING_ALT_CEILING);
  }

  lemma WeakerHasMilderPages(a: Inputs, b: Inputs)
    requires Weaker(a, b)
    ensures ObservedDefectDensity(a.pages, a.inspectionState) <= ObservedDefectDensity(b.pages, b.inspectionState)
  {
    hide PageDefectDensity, WorstPage, Milder;
    WorstPageIsTheMaximum(a.pages);
    WorstPageIsTheMaximum(b.pages);
    DefectsInRange(b.pages, Complete);
    if a.pages != [] {
      var p :| p in a.pages && WorstPage(a.pages) == PageDefectDensity(p);
      var q :| q in b.pages && Milder(p, q);
      MilderIsLessDense(p, q);
    }
  }

  // Raising the severity, corroborating the absence, adding or worsening pages, gaining a contact
  // route: none of them ever lowers the total.
  lemma TotalIsMonotone(a: Inputs, b: Inputs)
    requires Weaker(a, b)
    ensures Score(a).total <= Score(b).total
  {
    hide ObservedDefectDensity, Rounded, CappedSeverity, Bounded;
    WeakerHasMilderPages(a, b);
    WeakerIsLessSevere(a, b);
    BoundedIsMonotone(CappedSeverity(a) / 5.0, CappedSeverity(b) / 5.0);
    BoundedIsMonotone(a.localDecisionLikelihood, b.localDecisionLikelihood);
    BoundedIsMonotone(a.apparentCommercialValue, b.apparentCommercialValue);
    var s, t := Score(a), Score(b);
    RoundedIsMonotone(
      s.severity + s.observedDefects + s.contactRoute + s.localDecisionLikelihood + s.apparentCommercialValue,
      t.severity + t.observedDefects + t.contactRoute + t.localDecisionLikelihood + t.apparentCommercialValue);
  }

  lemma WeakerIsLessSevere(a: Inputs, b: Inputs)
    requires Weaker(a, b)
    ensures CappedSeverity(a) <= CappedSeverity(b)
  {
  }

  lemma BoundedIsMonotone(v: real, w: real)
    requires v <= w
    ensures Bounded(v) <= Bounded(w)
  {
  }

  lemma RoundedIsMonotone(v: real, w: real)
    requires v <= w
    ensures Rounded(v) <= Rounded(w)
  {
    FloorIsMonotone(v * 100.0 + 0.5, w * 100.0 + 0.5);
  }

  lemma FloorIsMonotone(v: real, w: real)
    requires v <= w
    ensures v.Floor <= w.Floor
  {
    assert v.Floor as real <= v && w < (w.Floor + 1) as real;
  }

  // The order of the pages, and pages repeated, make no difference to any part of the score.
  lemma PageOrderIsIrrelevant(a: Inputs, pages: seq<PageDefects>)
    requires forall p :: p in a.pages <==> p in pages
    ensures Score(a) == Score(a.(pages := pages))
  {
    hide Milder;
    forall p
      ensures Milder(p, p)
    {
      MilderIsReflexive(p);
    }
    WeakerHasMilderPages(a, a.(pages := pages));
    WeakerHasMilderPages(a.(pages := pages), a);
  }

  lemma MilderIsReflexive(p: PageDefects)
    ensures Milder(p, p)
  {
  }

  // ---- the threshold ----

  const ALL_EVIDENCE := Evidence(true, true, true, false)

  // Rounding included, a candidate with a contact route reaches the queue exactly when eleven points
  // for each step of severity and ten for each full defect, local decision and commercial value
  // make up 56.995.
  lemma ReachesTheThreshold(input: Inputs)
    requires input.hasContactRoute && 0.0 <= CappedSeverity(input) <= 5.0
    ensures Score(input).total >= REVIEW_QUEUE_THRESHOLD
            <==> 11.0 * CappedSeverity(input)
                 + 10.0 * (ObservedDefectDensity(input.pages, input.inspectionState)
                           + Bounded(input.localDecisionLikelihood) + Bounded(input.apparentCommercialValue)) >= 56.995
  {
    hide ObservedDefectDensity, CappedSeverity, Bounded;
    BoundedInside(CappedSeverity(input) / 5.0);
  }

  lemma BoundedInside(v: real)
    requires 0.0 <= v <= 1.0
    ensures Bounded(v) == v
  {
  }

  // A whole severity can qualify in some candidate exactly from three up.
  lemma SeverityDecides(n: int)
    ensures (exists input: Inputs :: input.severity == n as real && Qualifies(Score(input).total, ALL_EVIDENCE)) <==> n >= 3
  {
    hide Score;
    if n >= 3 {
      var best := Inputs(n as real, [], true, 1.0, 1.0, NoWebsite, 0);
      BestQualifies(best, n);
    } else {
      forall input: Inputs | input.severity == n as real && Qualifies(Score(input).total, ALL_EVIDENCE)
        ensures false
      {
        QualifyingNeedsSeverity(input, n);
      }
    }
  }

  lemma BestQualifies(input: Inputs, n: int)
    requires n >= 3 && input == Inputs(n as real, [], true, 1.0, 1.0, NoWebsite, 0)
    ensures Qualifies(Score(input).total, ALL_EVIDENCE)
  {
    assert CappedSeverity(input) >= 3.0;
    assert Score(input).severity >= 33.0;
  }

  // Whatever else is true of it, a qualifying candidate has a capped severity of three or more.
  lemma QualifyingNeedsSeverity(input: Inputs, n: int)
    requires input.severity == n as real && Score(input).total >= REVIEW_QUEUE_THRESHOLD
    ensures CappedSeverity(input) >= 3.0 && n >= 3
  {
    hide ObservedDefectDensity;
    DefectsInRange(input.pages, input.inspectionState);
  }

  // A business with no website, a contact route and a local decision reaches the threshold from
  // severity four, corroborated or not.
  lemma NoWebsiteReaches(input: Inputs)
    requires input.inspectionState.NoWebsite? && input.hasContactRoute
    requires input.localDecisionLikelihood >= 1.0 && input.severity >= 4.0
    ensures Score(input).total >= 79.0 > REVIEW_QUEUE_THRESHOLD
  {
    assert CappedSeverity(input) >= 4.0;
  }

  // A blocked inspection that captured nothing qualifies only at its severity ceiling.
  lemma BlockedNeedsItsCeiling(input: Inputs, n: int)
    requires input.inspectionState.Blocked? && input.pages == [] && input.severity == n as real
    requires Score(input).total >= REVIEW_QUEUE_THRESHOLD
    ensures CappedSeverity(input) == BLOCKED_INSPECTION_MAX_SEVERITY && Score(input).total <= 79.0
  {
    assert ObservedDefectDensity(input.pages, input.inspectionState) == 0.0;
  }

  // ---- what each part is worth ----

  // A count that stops adding at eight.
  function UpToEight(n: int): int { if n < 0 then 0 else if n > 8 then 8 else n }

  // Eight unlabelled controls are worth as much as anything a page can show, eight missing
  // alternatives five eighths of that, an insecure page four eighths and an overflowing one three.
  lemma DensityPoints(page: PageDefects)
    ensures PageDefectDensity(page) * 160.0
            == (8 * UpToEight(page.unlabeledControls) + 5 * UpToEight(page.imagesMissingAlt)
                + (if page.usesHttps then 0 else 32) + (if page.horizontalOverflow then 24 else 0)) as real
  {
    CountedTo(page.unlabeledControls);
    CountedTo(page.imagesMissingAlt);
  }

  lemma CountedTo(n: int)
    ensures Bounded(n as real / 8.0) * 8.0 == UpToEight(n) as real
  {
  }

  // The points of each part, for a severity on the scale of five: eleven a step, but forty-four at
  // most when the inspection was blocked or fewer than two sources bear out that there is no website.
  lemma PartsPoints(input: Inputs)
    requires 0.0 <= input.severity <= 5.0
    ensures var s := Score(input);
            && s.severity == 11.0 * (if input.severity > 4.0
                                        && (input.inspectionState == Blocked
                                            || (input.inspectionState == NoWebsite && input.corroboratingSources <= 1))
                                     then 4.0 else input.severity)
            && (input.inspectionState == NoWebsite ==> s.observedDefects == 10.0)
            && (input.inspectionState != NoWebsite ==>
                  && (input.pages == [] ==> s.observedDefects == 0.0)
                  && (forall p :: p in input.pages ==> 10.0 * PageDefectDensity(p) <= s.observedDefects)
                  && (input.pages != [] ==> exists p :: p in input.pages && s.observedDefects == 10.0 * PageDefectDensity(p)))
            && (s.contactRoute == 15.0 <==> input.hasContactRoute) && (s.contactRoute == 0.0 <==> !input.hasContactRoute)
            && (0.0 <= input.localDecisionLikelihood <= 1.0 ==>
                  s.localDecisionLikelihood == 10.0 * input.localDecisionLikelihood)
            && (0.0 <= input.apparentCommercialValue <= 1.0 ==>
                  s.apparentCommercialValue == 10.0 * input.apparentCommercialValue)
  {
    hide PageDefectDensity, WorstPage, Rounded;
    WorstPageIsTheMaximum(input.pages);
    BoundedInside(CappedSeverity(input) / 5.0);
  }

  // The total is the sum of the parts to the nearest hundredth, the upper one from halfway.
  lemma TotalIsTheSum(input: Inputs)
    ensures var s := Score(input);
            var sum := s.severity + s.observedDefects + s.contactRoute + s.localDecisionLikelihood + s.apparentCommercialValue;
            && sum - 0.005 < s.total <= sum + 0.005
            && (s.total * 100.0).Floor as real == s.total * 100.0
  {
    hide PageDefectDensity, ObservedDefectDensity, CappedSeverity;
    var s := Score(input);
    var sum := s.severity + s.observedDefects + s.contactRoute + s.localDecisionLikelihood + s.apparentCommercialValue;
    var n := (sum * 100.0 + 0.5).Floor;
    assert s.total == n as real / 100.0;
  }
}
