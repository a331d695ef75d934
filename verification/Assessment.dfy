// What is kept of a runtime's assessment: cited claims only, one opportunity for each class, and
// nothing stronger than a blocked inspection allows.

module Assessment {
  import opened Wrappers
  import opened Sets
  import S = OpportunityScore

  const BLOCKED_INSPECTION_MAX_SEVERITY: int := 4
  const BLOCKED_INSPECTION_MAX_CONFIDENCE: real := 0.6

  datatype OpportunityClass =
    | NoDedicatedWebsite | BrokenOrUnusable | OutdatedPresentation | MobileAccessibilityOrPerformance
    | WeakDiscoverability | ConfusingConversionJourney

  datatype Observation = Observation(statement: string, sourceUrl: string, observedAt: string, confidence: real)

  datatype Opportunity = Opportunity(
    kind: OpportunityClass,
    severity: int,
    confidence: real,
    explanation: string,
    observations: seq<Observation>)

  datatype AssessmentState = Completed | InsufficientEvidence

  datatype Output = Output(
    state: AssessmentState,
    summary: string,
    apparentCommercialValue: real,
    opportunities: seq<Opportunity>)

  datatype WebsiteState = Present | NoWebsite | Blocked

  datatype Citation = Citation(sourceUrl: string, observedAt: string)

  datatype InspectionBlock = InspectionBlock(sourceUrl: Option<string>, observedAt: string)

  datatype Envelope = Envelope(
    websiteState: WebsiteState,
    pages: seq<Citation>,
    presences: seq<Citation>,
    blocks: seq<InspectionBlock>)

  // ---- what may be cited ----

  function BlockCitations(blocks: seq<InspectionBlock>): seq<Citation> {
    if blocks == [] then []
    else
      var last := blocks[|blocks| - 1];
      BlockCitations(blocks[..|blocks| - 1])
      + if last.sourceUrl.Some? && last.sourceUrl.value != [] then [Citation(last.sourceUrl.value, last.observedAt)] else []
  }

  function Citations(e: Envelope): seq<Citation> { e.pages + e.presences + BlockCitations(e.blocks) }

  predicate Supplied(normalize: string -> string, citations: seq<Citation>, url: string, time: string) {
    exists k :: 0 <= k < |citations| && normalize(citations[k].sourceUrl) == url && citations[k].observedAt == time
  }

  predicate Allows(allowed: map<string, set<string>>, url: string, time: string) {
    url in allowed && time in allowed[url]
  }

  method AssessmentCitations(normalize: string -> string, e: Envelope) returns (allowed: map<string, set<string>>)
    ensures forall u, t :: Allows(allowed, u, t) <==> Supplied(normalize, Citations(e), u, t)
  {
    var citations := Citations(e);
    allowed := map[];
    for i := 0 to |citations|
      invariant forall u, t :: Allows(allowed, u, t) <==> Supplied(normalize, citations[..i], u, t)
    {
      var url := normalize(citations[i].sourceUrl);
      var times := if url in allowed then allowed[url] else {};
      ghost var before := allowed;
      allowed := allowed[url := times + {citations[i].observedAt}];
      assert citations[..i + 1] == citations[..i] + [citations[i]];
      SuppliedAppend(normalize, citations[..i], citations[i]);
      assert forall u, t :: Allows(allowed, u, t) <==> Allows(before, u, t) || (u == url && t == citations[i].observedAt);
    }
    assert citations[..|citations|] == citations;
  }

  lemma SuppliedAppend(normalize: string -> string, citations: seq<Citation>, last: Citation)
    ensures forall u, t :: Supplied(normalize, citations + [last], u, t)
              <==> Supplied(normalize, citations, u, t) || (u == normalize(last.sourceUrl) && t == last.observedAt)
  {
    var all := citations + [last];
    forall u, t
      ensures Supplied(normalize, all, u, t)
              <==> Supplied(normalize, citations, u, t) || (u == normalize(last.sourceUrl) && t == last.observedAt)
    {
      assert all[|citations|] == last && forall k :: 0 <= k < |citations| ==> all[k] == citations[k];
    }
  }

  // The envelope has the page, the public presence, or the inspection block with an address, that is
  // this address at this time.
  ghost predicate HasCitation(normalize: string -> string, e: Envelope, url: string, time: string) {
    || (exists page :: page in e.pages && normalize(page.sourceUrl) == url && page.observedAt == time)
    || (exists presence :: presence in e.presences && normalize(presence.sourceUrl) == url && presence.observedAt == time)
    || exists block :: block in e.blocks && block.sourceUrl.Some? && block.sourceUrl.value != ""
                       && normalize(block.sourceUrl.value) == url && block.observedAt == time
  }

  lemma {:induction false} BlocksCited(blocks: seq<InspectionBlock>, c: Citation)
    ensures c in BlockCitations(blocks)
            <==> exists block :: block in blocks && block.sourceUrl == Some(c.sourceUrl) && c.sourceUrl != ""
                                 && block.observedAt == c.observedAt
  {
    if blocks != [] {
      var before, last := blocks[..|blocks| - 1], blocks[|blocks| - 1];
      BlocksCited(before, c);
      assert forall block :: block in blocks <==> block in before || block == last;
    }
  }

  lemma SuppliedMeans(normalize: string -> string, e: Envelope, url: string, time: string)
    ensures Supplied(normalize, Citations(e), url, time) <==> HasCitation(normalize, e, url, time)
  {
    hide BlockCitations;
    var citations := Citations(e);
    if Supplied(normalize, citations, url, time) {
      var k :| 0 <= k < |citations| && normalize(citations[k].sourceUrl) == url && citations[k].observedAt == time;
      assert citations[k] in e.pages || citations[k] in e.presences || citations[k] in BlockCitations(e.blocks);
      BlocksCited(e.blocks, citations[k]);
    }
    forall c | c in citations && normalize(c.sourceUrl) == url && c.observedAt == time
      ensures Supplied(normalize, citations, url, time)
    {
      var k :| 0 <= k < |citations| && citations[k] == c;
    }
    if block :| block in e.blocks && block.sourceUrl.Some? && block.sourceUrl.value != ""
                && normalize(block.sourceUrl.value) == url && block.observedAt == time {
      BlocksCited(e.blocks, Citation(block.sourceUrl.value, time));
    }
  }

  // ---- validation ----

  datatype Verdict = Valid | MissingCitation | UnsupportedClaim

  predicate Cites(normalize: string -> string, allowed: map<string, set<string>>, o: Observation) {
    Allows(allowed, normalize(o.sourceUrl), o.observedAt)
  }

  predicate Grounded(normalize: string -> string, allowed: map<string, set<string>>, o: Opportunity) {
    o.observations != [] && forall k :: 0 <= k < |o.observations| ==> Cites(normalize, allowed, o.observations[k])
  }

  method ValidateCitations(normalize: string -> string, allowed: map<string, set<string>>, output: Output)
    returns (verdict: Verdict)
    ensures verdict.Valid? <==> (forall i :: 0 <= i < |output.opportunities| ==>
                                   Grounded(normalize, allowed, output.opportunities[i]))
                                && (output.state.InsufficientEvidence? ==> output.opportunities == [])
    ensures verdict.MissingCitation? <==>
              exists i :: 0 <= i < |output.opportunities| && output.opportunities[i].observations == []
                          && forall j :: 0 <= j < i ==> Grounded(normalize, allowed, output.opportunities[j])
  {
    hide Cites;
    for i := 0 to |output.opportunities|
      invariant forall j :: 0 <= j < i ==> Grounded(normalize, allowed, output.opportunities[j])
    {
      var observations := output.opportunities[i].observations;
      if observations == [] { return MissingCitation; }
      for k := 0 to |observations|
        invariant forall j :: 0 <= j < k ==> Cites(normalize, allowed, observations[j])
      {
        if !Cites(normalize, allowed, observations[k]) { return UnsupportedClaim; }
      }
    }
    if output.state.InsufficientEvidence? && output.opportunities != [] { return UnsupportedClaim; }
    return Valid;
  }

  // ---- one opportunity for each class ----

  // Among the first n, none of its class is more severe, and none before it as severe.
  predicate StrongestOf(os: seq<Opportunity>, i: nat, n: nat)
    requires n <= |os|
  {
    i < n && forall j :: 0 <= j < n && os[j].kind == os[i].kind ==>
      os[j].severity <= os[i].severity && (j < i ==> os[j].severity < os[i].severity)
  }

  function Kept(os: seq<Opportunity>, n: nat): (kept: seq<nat>)
    requires n <= |os|
    ensures forall k :: 0 <= k < |kept| ==> kept[k] < n && StrongestOf(os, kept[k], |os|)
  {
    if n == 0 then [] else if StrongestOf(os, n - 1, |os|) then Kept(os, n - 1) + [n - 1] else Kept(os, n - 1)
  }

  function At(os: seq<Opportunity>, picks: seq<nat>): seq<Opportunity>
    requires forall k :: 0 <= k < |picks| ==> picks[k] < |os|
  {
    seq(|picks|, k requires 0 <= k < |picks| => os[picks[k]])
  }

  function Collapsed(os: seq<Opportunity>): seq<Opportunity> { At(os, Kept(os, |os|)) }

  method CollapseOpportunitiesByClass(os: seq<Opportunity>) returns (kept: seq<Opportunity>)
    ensures kept == Collapsed(os)
  {
    hide StrongestOf;
    var strongest: map<OpportunityClass, nat> := map[];
    for i := 0 to |os|
      invariant forall c :: c in strongest ==> strongest[c] < i && os[strongest[c]].kind == c
      invariant forall c :: c in strongest ==> StrongestOf(os, strongest[c], i)
      invariant forall j :: 0 <= j < i ==> os[j].kind in strongest
    {
      var o := os[i];
      ghost var before := strongest;
      if o.kind !in strongest || o.severity > os[strongest[o.kind]].severity {
        strongest := strongest[o.kind := i];
      }
      StrongestSteps(os, before, i);
      assert forall c :: c in before && c != o.kind ==> strongest[c] == before[c];
    }
    OnlyTheStrongest(os, strongest);
    if |strongest| == |os| {
      AllAreStrongest(os, strongest);
      KeptAll(os, |os|);
      return os;
    }
    kept := [];
    for i := 0 to |os|
      invariant kept == At(os, Kept(os, i))
    {
      KeptStep(os, i);
      if os[i].kind in strongest && strongest[os[i].kind] == i { kept := kept + [os[i]]; }
    }
  }

  lemma StrongestSteps(os: seq<Opportunity>, strongest: map<OpportunityClass, nat>, n: nat)
    requires n < |os|
    requires forall c :: c in strongest ==> strongest[c] < n && os[strongest[c]].kind == c
    requires forall c :: c in strongest ==> StrongestOf(os, strongest[c], n)
    requires forall j :: 0 <= j < n ==> os[j].kind in strongest
    ensures forall c :: c in strongest && (c != os[n].kind || os[n].severity <= os[strongest[c]].severity) ==>
              StrongestOf(os, strongest[c], n + 1)
    ensures (os[n].kind !in strongest || os[n].severity > os[strongest[os[n].kind]].severity) ==> StrongestOf(os, n, n + 1)
  {
  }

  // Of each class there is one strongest, so an index is the one held or is not strongest.
  lemma OnlyTheStrongest(os: seq<Opportunity>, strongest: map<OpportunityClass, nat>)
    requires forall c :: c in strongest ==> strongest[c] < |os| && os[strongest[c]].kind == c
    requires forall c :: c in strongest ==> StrongestOf(os, strongest[c], |os|)
    requires forall j :: 0 <= j < |os| ==> os[j].kind in strongest
    ensures forall i :: 0 <= i < |os| ==> (StrongestOf(os, i, |os|) <==> strongest[os[i].kind] == i)
  {
  }

  lemma KeptStep(os: seq<Opportunity>, n: nat)
    requires n < |os|
    ensures At(os, Kept(os, n + 1))
            == if StrongestOf(os, n, |os|) then At(os, Kept(os, n)) + [os[n]] else At(os, Kept(os, n))
  {
    hide StrongestOf;
  }

  lemma {:induction false} KeptAll(os: seq<Opportunity>, n: nat)
    requires n <= |os| && forall i :: 0 <= i < |os| ==> StrongestOf(os, i, |os|)
    ensures At(os, Kept(os, n)) == os[..n]
  {
    hide StrongestOf;
    if n > 0 {
      KeptAll(os, n - 1);
      KeptStep(os, n - 1);
    }
  }

  // As many classes as opportunities leaves one of each.
  lemma AllAreStrongest(os: seq<Opportunity>, strongest: map<OpportunityClass, nat>)
    requires |strongest| == |os|
    requires forall c :: c in strongest ==> strongest[c] < |os| && os[strongest[c]].kind == c
    requires forall j :: 0 <= j < |os| ==> os[j].kind in strongest
    requires forall i :: 0 <= i < |os| ==> (StrongestOf(os, i, |os|) <==> strongest[os[i].kind] == i)
    ensures forall i :: 0 <= i < |os| ==> StrongestOf(os, i, |os|)
  {
    hide StrongestOf;
    forall i | 0 <= i < |os|
      ensures StrongestOf(os, i, |os|)
    {
      if strongest[os[i].kind] != i {
        Injected(strongest, Below(|os|) - {i});
        assert false;
      }
    }
  }

  // An injective map into a set has no more keys than the set has elements.
  lemma {:induction false} Injected<K, V>(m: map<K, V>, image: set<V>)
    requires forall c :: c in m ==> m[c] in image
    requires forall c, d :: c in m && d in m && m[c] == m[d] ==> c == d
    ensures |m| <= |image|
    decreases |m|
  {
    if c :| c in m {
      Injected(m - {c}, image - {m[c]});
      assert |m - {c}| == |m| - 1 by { assert (m - {c}).Keys == m.Keys - {c}; }
    } else {
      assert m.Keys == {};
    }
  }

  // ---- what the collapse keeps ----

  lemma {:induction false} KeptIncreases(os: seq<Opportunity>, n: nat)
    requires n <= |os|
    ensures forall i, j :: 0 <= i < j < |Kept(os, n)| ==> Kept(os, n)[i] < Kept(os, n)[j]
    ensures forall i :: 0 <= i < n && StrongestOf(os, i, |os|) ==> i in Kept(os, n)
  {
    hide StrongestOf;
    if n > 0 { KeptIncreases(os, n - 1); }
  }

  lemma {:induction false} SomeIsStrongest(os: seq<Opportunity>, j: nat, n: nat) returns (i: nat)
    requires j < n <= |os|
    ensures StrongestOf(os, i, n) && os[i].kind == os[j].kind && os[i].severity >= os[j].severity
    decreases n
  {
    if forall k :: 0 <= k < n - 1 ==> os[k].kind != os[j].kind {
      return n - 1;
    }
    var k :| 0 <= k < n - 1 && os[k].kind == os[j].kind;
    var best := SomeIsStrongest(os, k, n - 1);
    if j < n - 1 { var other := SomeIsStrongest(os, j, n - 1); }
    return if os[n - 1].kind == os[j].kind && os[n - 1].severity > os[best].severity then n - 1 else best;
  }

  // Some opportunity of the same class is as severe.
  predicate Represents(os: seq<Opportunity>, o: Opportunity) {
    exists k :: 0 <= k < |os| && os[k].kind == o.kind && os[k].severity >= o.severity
  }

  // The collapse is the subsequence of first strongest opportunities: no two share a class, and
  // every class reported is there at its greatest severity.
  lemma CollapseIsOnePerClass(os: seq<Opportunity>)
    ensures var picks := Kept(os, |os|);
            && (forall i, j :: 0 <= i < j < |picks| ==> picks[i] < picks[j])
            && (forall k :: 0 <= k < |picks| ==> StrongestOf(os, picks[k], |os|) && Collapsed(os)[k] == os[picks[k]])
    ensures forall i, j :: 0 <= i < j < |Collapsed(os)| ==> Collapsed(os)[i].kind != Collapsed(os)[j].kind
    ensures forall j :: 0 <= j < |os| ==> Represents(Collapsed(os), os[j])
  {
    hide Kept;
    var picks := Kept(os, |os|);
    KeptIncreases(os, |os|);
    forall j | 0 <= j < |os|
      ensures Represents(Collapsed(os), os[j])
    {
      var i := SomeIsStrongest(os, j, |os|);
      var k :| 0 <= k < |picks| && picks[k] == i;
      assert Collapsed(os)[k] == os[i];
    }
  }

  // What is kept, in the order reported: each opportunity that is more severe than any other of its
  // class, except that of equally severe ones the first reported stays.
  lemma FirstStrongestAreKept(os: seq<Opportunity>)
    ensures var picks := Kept(os, |os|);
            && |Collapsed(os)| == |picks|
            && (forall i, j :: 0 <= i < j < |picks| ==> picks[i] < picks[j])
            && (forall k :: 0 <= k < |picks| ==> picks[k] < |os| && Collapsed(os)[k] == os[picks[k]])
            && (forall i :: 0 <= i < |os| ==>
                  (i in picks <==> forall j :: 0 <= j < |os| && j != i && os[j].kind == os[i].kind ==>
                                     os[j].severity < os[i].severity || (j > i && os[j].severity == os[i].severity)))
  {
    hide Kept;
    KeptIncreases(os, |os|);
  }

  // Collapsing twice is collapsing once.
  lemma CollapseIsIdempotent(os: seq<Opportunity>)
    ensures Collapsed(Collapsed(os)) == Collapsed(os)
  {
    hide Collapsed;
    CollapseIsOnePerClass(os);
    var once := Collapsed(os);
    forall i | 0 <= i < |once|
      ensures StrongestOf(once, i, |once|)
    {
      assert forall j :: 0 <= j < |once| && once[j].kind == once[i].kind ==> j == i;
    }
    AllStrongestIsCollapsed(once);
  }

  lemma AllStrongestIsCollapsed(os: seq<Opportunity>)
    requires forall i :: 0 <= i < |os| ==> StrongestOf(os, i, |os|)
    ensures Collapsed(os) == os
  {
    hide StrongestOf, Kept;
    KeptAll(os, |os|);
  }

  // ---- evidence limits ----

  function CapReal(v: real, most: real): real { if v <= most then v else most }

  function CapInt(v: int, most: int): int { if v <= most then v else most }

  function CapObservation(o: Observation): Observation {
    o.(confidence := CapReal(o.confidence, BLOCKED_INSPECTION_MAX_CONFIDENCE))
  }

  function CapOpportunity(o: Opportunity): Opportunity {
    o.(severity := CapInt(o.severity, BLOCKED_INSPECTION_MAX_SEVERITY),
       confidence := CapReal(o.confidence, BLOCKED_INSPECTION_MAX_CONFIDENCE),
       observations := seq(|o.observations|, k requires 0 <= k < |o.observations| => CapObservation(o.observations[k])))
  }

  predicate SawNothing(e: Envelope) { e.websiteState.Blocked? && e.pages == [] }

  function Limited(e: Envelope, output: Output): Output {
    var collapsed := Collapsed(output.opportunities);
    if !SawNothing(e) then output.(opportunities := collapsed)
    else output.(state := Completed,
                 opportunities := seq(|collapsed|, k requires 0 <= k < |collapsed| => CapOpportunity(collapsed[k])))
  }

  // Each opportunity that is left is one that was reported, under the caps.
  lemma LimitedComeFrom(e: Envelope, output: Output, k: nat) returns (i: nat)
    requires k < |Limited(e, output).opportunities|
    ensures i < |output.opportunities| && StrongestOf(output.opportunities, i, |output.opportunities|)
    ensures Limited(e, output).opportunities[k]
            == if SawNothing(e) then CapOpportunity(output.opportunities[i]) else output.opportunities[i]
  {
    hide Kept, CapOpportunity, StrongestOf;
    i := Kept(output.opportunities, |output.opportunities|)[k];
  }

  // ---- the whole of it ----

  method Accept(normalize: string -> string, e: Envelope, output: Output) returns (verdict: Verdict, accepted: Output)
    ensures verdict.Valid? ==> accepted == Limited(e, output)
    ensures verdict.Valid? ==>
              forall k, j :: 0 <= k < |accepted.opportunities| && 0 <= j < |accepted.opportunities[k].observations| ==>
                var o := accepted.opportunities[k].observations[j];
                HasCitation(normalize, e, normalize(o.sourceUrl), o.observedAt)
    ensures verdict.Valid? && SawNothing(e) ==>
              forall k :: 0 <= k < |accepted.opportunities| ==>
                accepted.opportunities[k].severity <= 4 && accepted.opportunities[k].confidence <= 0.6
  {
    var allowed := AssessmentCitations(normalize, e);
    verdict := ValidateCitations(normalize, allowed, output);
    var kept := CollapseOpportunitiesByClass(output.opportunities);
    accepted := if !SawNothing(e) then output.(opportunities := kept)
                else output.(state := Completed,
                             opportunities := seq(|kept|, k requires 0 <= k < |kept| => CapOpportunity(kept[k])));
    if verdict.Valid? { SurvivorsAreCited(normalize, allowed, e, output); }
  }

  // An inspection that was blocked before any page leaves every claim as it was reported but for its
  // strength: severities stop at four and confidences, of opportunities and observations alike, at
  // six tenths. The assessment then counts as completed. Any other inspection leaves the collapsed
  // assessment as it is.
  lemma LimitsOnlyWeaken(e: Envelope, output: Output)
    ensures var after, collapsed := Limited(e, output), Collapsed(output.opportunities);
            && after.summary == output.summary && after.apparentCommercialValue == output.apparentCommercialValue
            && |after.opportunities| == |collapsed|
            && (!(e.websiteState == Blocked && e.pages == []) ==>
                  after.state == output.state && after.opportunities == collapsed)
            && (e.websiteState == Blocked && e.pages == [] ==>
                  && after.state == Completed
                  && forall k :: 0 <= k < |collapsed| ==> Weakened(collapsed[k], after.opportunities[k]))
  {
  }

  predicate Weakened(was: Opportunity, now: Opportunity) {
    && now.kind == was.kind && now.explanation == was.explanation
    && (if was.severity > 4 then now.severity == 4 else now.severity == was.severity)
    && (if was.confidence > 0.6 then now.confidence == 0.6 else now.confidence == was.confidence)
    && |now.observations| == |was.observations|
    && forall j :: 0 <= j < |was.observations| ==>
         var before, after := was.observations[j], now.observations[j];
         && after.statement == before.statement && after.sourceUrl == before.sourceUrl && after.observedAt == before.observedAt
         && (if before.confidence > 0.6 then after.confidence == 0.6 else after.confidence == before.confidence)
  }

  // Every observation left still cites a page, presence or block of the envelope at its time.
  lemma SurvivorsAreCited(normalize: string -> string, allowed: map<string, set<string>>, e: Envelope, output: Output)
    requires forall u, t :: Allows(allowed, u, t) <==> Supplied(normalize, Citations(e), u, t)
    requires forall i :: 0 <= i < |output.opportunities| ==> Grounded(normalize, allowed, output.opportunities[i])
    ensures forall k, j :: 0 <= k < |Limited(e, output).opportunities|
                           && 0 <= j < |Limited(e, output).opportunities[k].observations| ==>
              var o := Limited(e, output).opportunities[k].observations[j];
              HasCitation(normalize, e, normalize(o.sourceUrl), o.observedAt)
  {
    hide Limited, StrongestOf, Supplied, Allows, HasCitation;
    forall k, j | 0 <= k < |Limited(e, output).opportunities|
                  && 0 <= j < |Limited(e, output).opportunities[k].observations|
      ensures var o := Limited(e, output).opportunities[k].observations[j];
              HasCitation(normalize, e, normalize(o.sourceUrl), o.observedAt)
    {
      var i := LimitedComeFrom(e, output, k);
      var was := output.opportunities[i].observations[j];
      assert Cites(normalize, allowed, was);
      SuppliedMeans(normalize, e, normalize(was.sourceUrl), was.observedAt);
    }
  }

  // ---- the score ----

  // The greatest severity, and nothing for no opportunities.
  function GreatestSeverity(os: seq<Opportunity>): int {
    if os == [] then 0
    else if |os| == 1 then os[0].severity
    else
      var rest, last := GreatestSeverity(os[..|os| - 1]), os[|os| - 1].severity;
      if rest <= last then last else rest
  }

  lemma {:induction false} GreatestSeverityIsTheMaximum(os: seq<Opportunity>)
    requires os != []
    ensures forall i :: 0 <= i < |os| ==> os[i].severity <= GreatestSeverity(os)
    ensures exists i :: 0 <= i < |os| && os[i].severity == GreatestSeverity(os)
  {
    if |os| > 1 {
      var before := os[..|os| - 1];
      GreatestSeverityIsTheMaximum(before);
      var i :| 0 <= i < |before| && before[i].severity == GreatestSeverity(before);
      assert os[i] == before[i];
      assert forall k :: 0 <= k < |before| ==> os[k] == before[k];
      assert os[|os| - 1].severity <= GreatestSeverity(os);
    } else {
      assert os[0].severity == GreatestSeverity(os);
    }
  }

  // What the rubric is given of an assessment; the rest comes from the inspection.
  function ScoredAs(output: Output, rest: S.Inputs): S.Inputs {
    rest.(severity := GreatestSeverity(output.opportunities) as real,
          apparentCommercialValue := output.apparentCommercialValue)
  }

  predicate HasObservation(output: Output) {
    exists k :: 0 <= k < |output.opportunities| && output.opportunities[k].observations != []
  }

  function EvidenceOf(output: Output, hasContact: bool, suppressed: bool): S.Evidence {
    S.Evidence(output.opportunities != [], HasObservation(output), hasContact, suppressed)
  }

  // The rubric is given the severity of the worst opportunity, nothing for none, and the commercial
  // value reported; an observation of any opportunity is a ground for the queue.
  lemma RubricIsGiven(output: Output, rest: S.Inputs, hasContact: bool, suppressed: bool)
    ensures var input, evidence := ScoredAs(output, rest), EvidenceOf(output, hasContact, suppressed);
            && (output.opportunities == [] ==> input.severity == 0.0)
            && (forall o :: o in output.opportunities ==> o.severity as real <= input.severity)
            && (output.opportunities != [] ==> exists o :: o in output.opportunities && o.severity as real == input.severity)
            && input.apparentCommercialValue == output.apparentCommercialValue
            && input.(severity := rest.severity, apparentCommercialValue := rest.apparentCommercialValue) == rest
            && (evidence.hasOpportunity <==> exists o :: o in output.opportunities)
            && (evidence.hasObservation <==> exists o :: o in output.opportunities && |o.observations| > 0)
            && evidence.hasContactRoute == hasContact && evidence.suppressed == suppressed
  {
    hide GreatestSeverity;
    var os := output.opportunities;
    if os == [] { NothingIsNotSevere(); } else {
      GreatestSeverityIsTheMaximum(os);
      var i :| 0 <= i < |os| && os[i].severity == GreatestSeverity(os);
      assert os[i] in os;
    }
    if o :| o in os && |o.observations| > 0 { var k :| 0 <= k < |os| && os[k] == o; }
    if k :| 0 <= k < |os| && os[k].observations != [] { assert os[k] in os; }
  }

  function CapSeverity(e: Envelope, severity: int): int {
    if SawNothing(e) then CapInt(severity, BLOCKED_INSPECTION_MAX_SEVERITY) else severity
  }

  lemma LimitsKeepTheSeverity(e: Envelope, output: Output)
    ensures (Limited(e, output).opportunities == []) <==> (output.opportunities == [])
    ensures GreatestSeverity(Limited(e, output).opportunities) == CapSeverity(e, GreatestSeverity(output.opportunities))
  {
    hide GreatestSeverity, Limited, SawNothing;
    var os, left := output.opportunities, Limited(e, output).opportunities;
    if os == [] {
      EmptyStaysEmpty(e, output);
      NothingIsNotSevere();
    } else {
      GreatestSeverityIsTheMaximum(os);
      var j :| 0 <= j < |os| && os[j].severity == GreatestSeverity(os);
      StrongestIsLeft(e, output, j);
      GreatestSeverityIsTheMaximum(left);
      var m :| 0 <= m < |left| && left[m].severity == GreatestSeverity(left);
      NoneIsStronger(e, output, m);
    }
  }

  lemma StrongestIsLeft(e: Envelope, output: Output, j: nat)
    requires j < |output.opportunities|
    ensures exists k :: 0 <= k < |Limited(e, output).opportunities|
                        && Limited(e, output).opportunities[k].severity >= CapSeverity(e, output.opportunities[j].severity)
  {
    hide Kept, StrongestOf;
    CollapseIsOnePerClass(output.opportunities);
    var collapsed := Collapsed(output.opportunities);
    assert Represents(collapsed, output.opportunities[j]);
    var k :| 0 <= k < |collapsed| && collapsed[k].severity >= output.opportunities[j].severity;
    assert Limited(e, output).opportunities[k].severity == CapSeverity(e, collapsed[k].severity);
  }

  lemma NoneIsStronger(e: Envelope, output: Output, k: nat)
    requires k < |Limited(e, output).opportunities|
    ensures exists i :: 0 <= i < |output.opportunities|
                        && Limited(e, output).opportunities[k].severity == CapSeverity(e, output.opportunities[i].severity)
  {
    hide Limited, StrongestOf;
    var i := LimitedComeFrom(e, output, k);
  }

  lemma EmptyStaysEmpty(e: Envelope, output: Output)
    requires output.opportunities == []
    ensures Limited(e, output).opportunities == []
  {
  }

  lemma NothingIsNotSevere()
    ensures GreatestSeverity([]) == 0
  {
  }

  // Collapsing and capping an accepted assessment change neither its score nor whether it qualifies.
  lemma NormalisationKeepsTheScore(e: Envelope, output: Output, rest: S.Inputs, hasContact: bool, suppressed: bool)
    requires e.websiteState.Blocked? <==> rest.inspectionState.Blocked?
    requires forall i :: 0 <= i < |output.opportunities| ==> output.opportunities[i].observations != []
    ensures S.Score(ScoredAs(Limited(e, output), rest)) == S.Score(ScoredAs(output, rest))
    ensures EvidenceOf(Limited(e, output), hasContact, suppressed) == EvidenceOf(output, hasContact, suppressed)
  {
    hide Limited, StrongestOf, GreatestSeverity, S.ObservedDefectDensity, S.Bounded, S.Rounded;
    LimitsKeepTheSeverity(e, output);
    LimitsKeepTheValue(e, output);
    var left := Limited(e, output);
    if output.opportunities != [] {
      var i := LimitedComeFrom(e, output, 0);
      assert left.opportunities[0].observations != [];
      assert HasObservation(left) && output.opportunities[0].observations != [];
    }
  }

  lemma LimitsKeepTheValue(e: Envelope, output: Output)
    ensures Limited(e, output).apparentCommercialValue == output.apparentCommercialValue
  {
    hide Collapsed, CapOpportunity;
  }
}
