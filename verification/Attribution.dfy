// Keeping of a structured report only what the report itself supports.

module Attribution {
  import opened Wrappers
  import opened ReportSections
  import opened Text

  // Text services the verification calls on: case folding, canonical URLs, the URLs written in a
  // text, which URLs are public, and the paragraphs of a report.
  datatype Rules = Rules(
    fold: char -> char,
    upper: char -> char,
    foldMail: char -> char,
    canonical: string -> string,
    urls: string -> seq<string>,
    isPublic: string -> bool,
    paragraphs: string -> seq<string>)

  datatype ContactType = GenericEmail | BusinessTelephone | ContactForm | SocialMessaging

  datatype Contact = Contact(kind: ContactType, value: string, sourceUrl: string)

  datatype Presence = Presence(kind: string, url: string)

  datatype Profile = Profile(locality: string, decisionScope: string, centrallyControlled: bool, onlineOnly: bool)

  datatype Business = Business(
    name: string,
    profile: Profile,
    sourceUrls: seq<string>,
    presences: seq<Presence>,
    contacts: seq<Contact>,
    websiteUrl: Option<string>)

  datatype RejectionKind = SourceClaim | PresenceClaim | ContactClaim | WebsiteClaim

  datatype Reason =
    | NotPublicHttp | NotInReport | ValueIsNotTheCitedUrl | NotBesideItsSource | NotNineDigits
    | PrefixNotInNumberingPlan

  datatype Rejection = Rejection(business: string, kind: RejectionKind, value: string, reason: Reason)

  datatype Block = Block(text: string, lowercased: string, digits: set<string>)

  // ---- numbers written in a text ----

  predicate IsDigit(c: char) { '0' <= c <= '9' }

  predicate IsSpace(c: char) {
    || c == ' ' || c == '\n' || c == '\t' || c == '\r' || c == '\U{b}' || c == '\U{c}'
    || c == '\U{a0}' || c == '\U{1680}' || '\U{2000}' <= c <= '\U{200a}' || c == '\U{2028}' || c == '\U{2029}'
    || c == '\U{202f}' || c == '\U{205f}' || c == '\U{3000}' || c == '\U{feff}'
  }

  // The characters a written number may run through.
  predicate Writes(c: char) {
    IsDigit(c) || IsSpace(c) || c == '.' || c == '-' || c == '(' || c == ')'
  }

  function Digits(s: string): string {
    if s == [] then []
    else if IsDigit(s[0]) then [s[0]] + Digits(s[1..])
    else Digits(s[1..])
  }

  // The length of the unbroken stretch of number characters at the front of a text.
  function Stretch(s: string): (n: nat)
    ensures n <= |s|
    ensures forall i :: 0 <= i < n ==> Writes(s[i])
    ensures n < |s| ==> !Writes(s[n])
  {
    if s == [] || !Writes(s[0]) then 0 else 1 + Stretch(s[1..])
  }

  // The digits of every unbroken stretch that holds at least two of them.
  function WrittenNumbers(s: string): set<string>
    decreases |s|
  {
    if s == [] then {}
    else if !Writes(s[0]) then WrittenNumbers(s[1..])
    else
      var n := Stretch(s);
      (if |Digits(s[..n])| >= 2 then {Digits(s[..n])} else {}) + WrittenNumbers(s[n..])
  }

  // The scanner behind the pattern "a digit, number characters, a digit", matched greedily.
  method DigitRuns(text: string) returns (runs: set<string>)
    ensures runs == WrittenNumbers(text)
  {
    hide WrittenNumbers, Digits, Stretch, IsSpace;
    runs := {};
    var i := 0;
    assert text[0..] == text;
    while i < |text|
      invariant 0 <= i <= |text|
      invariant runs + WrittenNumbers(text[i..]) == WrittenNumbers(text)
    {
      if !IsDigit(text[i]) {
        SkipOne(text, i);
        i := i + 1;
        continue;
      }
      var last := i;
      var j := i + 1;
      while j < |text| && Writes(text[j])
        invariant i <= last < j <= |text|
        invariant forall k :: i <= k < j ==> Writes(text[k])
        invariant IsDigit(text[last]) && forall k :: last < k < j ==> !IsDigit(text[k])
        invariant last == i ==> forall k :: i < k < j ==> !IsDigit(text[k])
      {
        if IsDigit(text[j]) { last := j; }
        j := j + 1;
      }
      MatchRun(text, i, last, j);
      if last > i {
        runs := runs + {Digits(text[i..last + 1])};
        i := last + 1;
      } else {
        i := i + 1;
      }
    }
    assert text[i..] == [];
    NothingWritten();
  }

  lemma NothingWritten()
    ensures WrittenNumbers([]) == {}
  {
  }

  lemma {:induction false} NoDigits(s: string)
    requires forall k :: 0 <= k < |s| ==> !IsDigit(s[k])
    ensures Digits(s) == []
  {
    if s != [] { NoDigits(s[1..]); }
  }

  lemma {:induction false} DigitsConcat(a: string, b: string)
    ensures Digits(a + b) == Digits(a) + Digits(b)
  {
    if a == [] {
      assert a + b == b;
    } else {
      assert (a + b)[1..] == a[1..] + b;
      DigitsConcat(a[1..], b);
    }
  }

  // The stretch at the front is the longest run of number characters.
  lemma {:induction false} StretchIs(s: string, n: nat)
    requires n <= |s| && (forall i :: 0 <= i < n ==> Writes(s[i])) && (n < |s| ==> !Writes(s[n]))
    ensures Stretch(s) == n
  {
    if n > 0 { StretchIs(s[1..], n - 1); }
  }

  lemma SkipOne(text: string, i: nat)
    requires i < |text| && !IsDigit(text[i])
    ensures WrittenNumbers(text[i..]) == WrittenNumbers(text[i + 1..])
  {
    var s := text[i..];
    assert s[1..] == text[i + 1..];
    if Writes(s[0]) {
      var n := Stretch(s);
      var m := Stretch(s[1..]);
      assert n == 1 + m;
      assert s[..n] == [s[0]] + s[1..][..m];
      assert Digits(s[..n]) == Digits(s[1..][..m]) by { assert s[..n][1..] == s[1..][..m]; }
      assert s[n..] == s[1..][m..];
      if m == 0 {
        assert s[1..][..0] == [];
        assert s[1..][0..] == s[1..];
      }
    }
  }

  // Skipping number characters that are not digits loses no number.
  lemma {:induction false} SkipTail(text: string, i: nat, j: nat)
    requires i <= j <= |text| && forall k :: i <= k < j ==> !IsDigit(text[k])
    ensures WrittenNumbers(text[i..]) == WrittenNumbers(text[j..])
    decreases j - i
  {
    if i < j {
      SkipOne(text, i);
      SkipTail(text, i + 1, j);
    }
  }

  lemma MatchRun(text: string, i: nat, last: nat, j: nat)
    requires i <= last < j <= |text| && IsDigit(text[i]) && IsDigit(text[last])
    requires forall k :: i <= k < j ==> Writes(text[k])
    requires j < |text| ==> !Writes(text[j])
    requires forall k :: last < k < j ==> !IsDigit(text[k])
    ensures last > i ==> WrittenNumbers(text[i..]) == {Digits(text[i..last + 1])} + WrittenNumbers(text[last + 1..])
    ensures last == i ==> WrittenNumbers(text[i..]) == WrittenNumbers(text[i + 1..])
  {
    hide WrittenNumbers, Digits, Stretch, IsSpace;
    var run := text[i..last + 1];
    StretchIs(text[i..], j - i);
    WrittenFront(text[i..]);
    assert text[i..][..j - i] == run + text[last + 1..j];
    DigitsConcat(run, text[last + 1..j]);
    NoDigits(text[last + 1..j]);
    assert Digits(text[i..][..j - i]) == Digits(run);
    assert text[i..][j - i..] == text[j..];
    SkipTail(text, last + 1, j);
    if last > i { DigitsAtBothEnds(run); } else { DigitAlone(run); }
  }

  lemma DigitAlone(s: string)
    requires |s| == 1 && IsDigit(s[0])
    ensures Digits(s) == s
  {
    assert s[1..] == [];
  }

  lemma DigitsAtBothEnds(s: string)
    requires |s| >= 2 && IsDigit(s[0]) && IsDigit(s[|s| - 1])
    ensures |Digits(s)| >= 2
  {
    hide Digits, IsDigit;
    var first, middle, last := s[..1], s[1..|s| - 1], s[|s| - 1..];
    assert s == (first + middle) + last;
    DigitAlone(first);
    DigitAlone(last);
    DigitsConcat(first, middle);
    DigitsConcat(first + middle, last);
  }

  lemma WrittenFront(s: string)
    requires s != [] && Writes(s[0])
    ensures WrittenNumbers(s)
            == (if |Digits(s[..Stretch(s)])| >= 2 then {Digits(s[..Stretch(s)])} else {}) + WrittenNumbers(s[Stretch(s)..])
  {
  }

  // ---- blocks ----

  function TrimStart(s: string): string {
    if s != [] && IsSpace(s[0]) then TrimStart(s[1..]) else s
  }

  function TrimEnd(s: string): string {
    if s != [] && IsSpace(s[|s| - 1]) then TrimEnd(s[..|s| - 1]) else s
  }

  function Trim(s: string): string { TrimEnd(TrimStart(s)) }

  function AsBlock(rules: Rules, text: string): Block {
    var trimmed := Trim(text);
    Block(trimmed, MapChars(rules.fold, trimmed), WrittenNumbers(trimmed))
  }

  function ReportBlocks(rules: Rules, paragraphs: seq<string>): seq<Block> {
    if paragraphs == [] then []
    else
      var block := AsBlock(rules, paragraphs[0]);
      (if block.text == [] then [] else [block]) + ReportBlocks(rules, paragraphs[1..])
  }

  // The section of a name: its slices of the report, joined, if it has any.
  function Section(rules: Rules, report: string, names: seq<string>, name: string): Option<Block> {
    var marks := Boundaries(report, rules.fold, names);
    var parts := Parts(report, marks, name, |marks|);
    if parts == [] then None else Some(AsBlock(rules, Joined(parts, "\n\n")))
  }

  method BusinessSections(rules: Rules, report: string, names: seq<string>) returns (sections: map<string, Block>)
    ensures forall name :: (if name in sections then Some(sections[name]) else None) == Section(rules, report, names, name)
  {
    hide Boundaries, AsBlock;
    var marks := NameBoundaries(report, rules.fold, names);
    var chunks := GatherChunks(report, marks);
    sections := map name | name in chunks :: AsBlock(rules, Joined(chunks[name], "\n\n"));
  }

  function CitesUrl(rules: Rules, urls: seq<string>, canonical: string): bool {
    exists u :: u in urls && rules.canonical(u) == canonical
  }

  // The blocks that cite a source.
  function BlocksCiting(rules: Rules, blocks: seq<Block>, sourceUrl: string): seq<Block> {
    if blocks == [] then []
    else
      (if CitesUrl(rules, rules.urls(blocks[0].text), rules.canonical(sourceUrl)) then [blocks[0]] else [])
      + BlocksCiting(rules, blocks[1..], sourceUrl)
  }

  function BlocksCitingAny(rules: Rules, blocks: seq<Block>, sources: seq<string>): seq<Block> {
    if sources == [] then [] else BlocksCiting(rules, blocks, sources[0]) + BlocksCitingAny(rules, blocks, sources[1..])
  }

  // ---- contacts ----

  const POLISH_NUMBER_PREFIXES: set<int> :=
    {45, 50, 51, 53, 57, 60, 66, 69, 72, 73, 78, 79, 88, 12, 13, 14, 15, 16, 17, 18, 22, 23, 24, 25, 29, 32, 33, 34,
     41, 42, 43, 44, 46, 48, 52, 54, 55, 56, 58, 59, 61, 62, 63, 65, 67, 68, 71, 74, 75, 76, 77, 81, 82, 83, 84, 85,
     86, 87, 89, 91, 94, 95}

  function DigitValue(c: char): int { c as int - '0' as int }

  predicate AssignedPrefix(national: string)
    requires |national| >= 2
  {
    DigitValue(national[0]) * 10 + DigitValue(national[1]) in POLISH_NUMBER_PREFIXES
  }

  predicate Contains(text: string, part: string) {
    exists p :: 0 <= p <= |text| - |part| && OccursAt(text, part, p)
  }

  function National(digits: string): string {
    if |digits| == 11 && "48" <= digits then digits[2..] else digits
  }

  predicate WrittenIn(blocks: seq<Block>, national: string) {
    exists b :: b in blocks && (national in b.digits || "48" + national in b.digits)
  }

  predicate MentionedIn(rules: Rules, blocks: seq<Block>, email: string) {
    exists b :: b in blocks && Contains(b.lowercased, MapChars(rules.foldMail, email))
  }

  function ContactRejection(rules: Rules, contact: Contact, countryCode: string, blocks: seq<Block>): Option<Reason> {
    if contact.kind == ContactForm || contact.kind == SocialMessaging then
      if contact.value == contact.sourceUrl then None else Some(ValueIsNotTheCitedUrl)
    else if blocks == [] then Some(NotBesideItsSource)
    else if contact.kind == GenericEmail then
      if MentionedIn(rules, blocks, contact.value) then None else Some(NotBesideItsSource)
    else
      var national := National(Digits(contact.value));
      if |national| != 9 then Some(NotNineDigits)
      else if MapChars(rules.upper, countryCode) == "PL" && !AssignedPrefix(national) then Some(PrefixNotInNumberingPlan)
      else if WrittenIn(blocks, national) then None
      else Some(NotBesideItsSource)
  }

  // ---- what is kept and what is rejected ----

  datatype Evidence = Evidence(
    rules: Rules,
    countryCode: string,
    reportUrls: set<string>,
    blocks: seq<Block>,
    report: string,
    names: seq<string>)

  function EvidenceOf(rules: Rules, report: string, countryCode: string, businesses: seq<Business>): Evidence {
    Evidence(rules, countryCode,
             set u | u in rules.urls(report) :: rules.canonical(u),
             ReportBlocks(rules, rules.paragraphs(report)),
             report, seq(|businesses|, i requires 0 <= i < |businesses| => businesses[i].name))
  }

  function Verdict(e: Evidence, url: string): Option<Reason> {
    if !e.rules.isPublic(url) then Some(NotPublicHttp)
    else if e.rules.canonical(url) !in e.reportUrls then Some(NotInReport)
    else None
  }

  function Note(name: string, kind: RejectionKind, value: string, verdict: Option<Reason>): seq<Rejection> {
    match verdict
    case None => []
    case Some(reason) => [Rejection(name, kind, value, reason)]
  }

  function KeptUrls(e: Evidence, urls: seq<string>): seq<string> {
    if urls == [] then []
    else
      var last := urls[|urls| - 1];
      KeptUrls(e, urls[..|urls| - 1]) + (if Verdict(e, last).None? then [last] else [])
  }

  function UrlRejections(e: Evidence, name: string, urls: seq<string>): seq<Rejection> {
    if urls == [] then []
    else
      var last := urls[|urls| - 1];
      UrlRejections(e, name, urls[..|urls| - 1]) + Note(name, SourceClaim, last, Verdict(e, last))
  }

  function KeptPresences(e: Evidence, presences: seq<Presence>): seq<Presence> {
    if presences == [] then []
    else
      var last := presences[|presences| - 1];
      KeptPresences(e, presences[..|presences| - 1]) + (if Verdict(e, last.url).None? then [last] else [])
  }

  function PresenceRejections(e: Evidence, name: string, presences: seq<Presence>): seq<Rejection> {
    if presences == [] then []
    else
      var last := presences[|presences| - 1];
      PresenceRejections(e, name, presences[..|presences| - 1]) + Note(name, PresenceClaim, last.url, Verdict(e, last.url))
  }

  // Where a business's contacts may be witnessed: its own section, or without one the paragraphs
  // that cite a source of it.
  function Scope(e: Evidence, b: Business): seq<Block> {
    match Section(e.rules, e.report, e.names, b.name)
    case Some(section) => [section]
    case None => BlocksCitingAny(e.rules, e.blocks, KeptUrls(e, b.sourceUrls))
  }

  // The claim a contact's rejection is filed under, and why it was rejected.
  function ContactVerdict(e: Evidence, scope: seq<Block>, contact: Contact): Option<(string, Reason)> {
    match Verdict(e, contact.sourceUrl)
    case Some(reason) => Some((contact.sourceUrl, reason))
    case None =>
      match ContactRejection(e.rules, contact, e.countryCode, BlocksCiting(e.rules, scope, contact.sourceUrl))
      case Some(reason) => Some((contact.value, reason))
      case None => None
  }

  function KeptContacts(e: Evidence, scope: seq<Block>, contacts: seq<Contact>): seq<Contact> {
    if contacts == [] then []
    else
      var last := contacts[|contacts| - 1];
      KeptContacts(e, scope, contacts[..|contacts| - 1])
      + (if ContactVerdict(e, scope, last).None? then [last] else [])
  }

  function ContactRejections(e: Evidence, scope: seq<Block>, name: string, contacts: seq<Contact>): seq<Rejection> {
    if contacts == [] then []
    else
      var last := contacts[|contacts| - 1];
      ContactRejections(e, scope, name, contacts[..|contacts| - 1])
      + (match ContactVerdict(e, scope, last)
         case None => []
         case Some((value, reason)) => [Rejection(name, ContactClaim, value, reason)])
  }

  function KeptWebsite(e: Evidence, b: Business): Option<string> {
    if b.websiteUrl.Some? && b.websiteUrl.value != [] && Verdict(e, b.websiteUrl.value).None? then b.websiteUrl else None
  }

  function WebsiteRejections(e: Evidence, b: Business): seq<Rejection> {
    if b.websiteUrl.Some? && b.websiteUrl.value != []
    then Note(b.name, WebsiteClaim, b.websiteUrl.value, Verdict(e, b.websiteUrl.value)) else []
  }

  predicate Sourced(e: Evidence, b: Business) {
    KeptUrls(e, b.sourceUrls) != []
  }

  function Verified(e: Evidence, b: Business): Business {
    Business(b.name, b.profile, KeptUrls(e, b.sourceUrls), KeptPresences(e, b.presences),
             KeptContacts(e, Scope(e, b), b.contacts), KeptWebsite(e, b))
  }

  function RejectionsOf(e: Evidence, b: Business): seq<Rejection> {
    UrlRejections(e, b.name, b.sourceUrls)
    + (if !Sourced(e, b) then []
       else PresenceRejections(e, b.name, b.presences) + WebsiteRejections(e, b)
            + ContactRejections(e, Scope(e, b), b.name, b.contacts))
  }

  function VerifiedAll(e: Evidence, businesses: seq<Business>): seq<Business> {
    if businesses == [] then []
    else
      var last := businesses[|businesses| - 1];
      VerifiedAll(e, businesses[..|businesses| - 1]) + (if Sourced(e, last) then [Verified(e, last)] else [])
  }

  function RejectedAll(e: Evidence, businesses: seq<Business>): seq<Rejection> {
    if businesses == [] then []
    else RejectedAll(e, businesses[..|businesses| - 1]) + RejectionsOf(e, businesses[|businesses| - 1])
  }

  // ---- the loops that compute it ----

  method CitedSources(e: Evidence, name: string, urls: seq<string>)
    returns (kept: seq<string>, rejections: seq<Rejection>)
    ensures kept == KeptUrls(e, urls) && rejections == UrlRejections(e, name, urls)
  {
    hide Verdict;
    kept, rejections := [], [];
    for i := 0 to |urls|
      invariant kept == KeptUrls(e, urls[..i]) && rejections == UrlRejections(e, name, urls[..i])
    {
      assert urls[..i + 1][..i] == urls[..i];
      match Verdict(e, urls[i])
      case None => kept := kept + [urls[i]];
      case Some(reason) => rejections := rejections + [Rejection(name, SourceClaim, urls[i], reason)];
    }
    assert urls[..|urls|] == urls;
  }

  method CitedPresences(e: Evidence, name: string, presences: seq<Presence>)
    returns (kept: seq<Presence>, rejections: seq<Rejection>)
    ensures kept == KeptPresences(e, presences) && rejections == PresenceRejections(e, name, presences)
  {
    hide Verdict;
    kept, rejections := [], [];
    for i := 0 to |presences|
      invariant kept == KeptPresences(e, presences[..i]) && rejections == PresenceRejections(e, name, presences[..i])
    {
      assert presences[..i + 1][..i] == presences[..i];
      match Verdict(e, presences[i].url)
      case None => kept := kept + [presences[i]];
      case Some(reason) => rejections := rejections + [Rejection(name, PresenceClaim, presences[i].url, reason)];
    }
    assert presences[..|presences|] == presences;
  }

  method WitnessedContacts(e: Evidence, scope: seq<Block>, name: string, contacts: seq<Contact>)
    returns (kept: seq<Contact>, rejections: seq<Rejection>)
    ensures kept == KeptContacts(e, scope, contacts) && rejections == ContactRejections(e, scope, name, contacts)
  {
    hide Verdict, ContactRejection, BlocksCiting;
    kept, rejections := [], [];
    for i := 0 to |contacts|
      invariant kept == KeptContacts(e, scope, contacts[..i])
      invariant rejections == ContactRejections(e, scope, name, contacts[..i])
    {
      assert contacts[..i + 1][..i] == contacts[..i];
      var contact := contacts[i];
      var verdict := Verdict(e, contact.sourceUrl);
      if verdict.Some? {
        rejections := rejections + [Rejection(name, ContactClaim, contact.sourceUrl, verdict.value)];
        continue;
      }
      var reason := ContactRejection(e.rules, contact, e.countryCode, BlocksCiting(e.rules, scope, contact.sourceUrl));
      if reason.Some? {
        rejections := rejections + [Rejection(name, ContactClaim, contact.value, reason.value)];
        continue;
      }
      kept := kept + [contact];
    }
    assert contacts[..|contacts|] == contacts;
  }

  method CitedWebsite(e: Evidence, business: Business) returns (websiteUrl: Option<string>, rejections: seq<Rejection>)
    ensures websiteUrl == KeptWebsite(e, business) && rejections == WebsiteRejections(e, business)
  {
    hide Verdict;
    websiteUrl, rejections := None, [];
    if business.websiteUrl.Some? && |business.websiteUrl.value| > 0 {
      var verdict := Verdict(e, business.websiteUrl.value);
      match verdict
      case None => websiteUrl := business.websiteUrl;
      case Some(reason) => rejections := [Rejection(business.name, WebsiteClaim, business.websiteUrl.value, reason)];
    }
  }

  method VerifyAgainstReport(rules: Rules, report: string, countryCode: string, structure: seq<Business>)
    returns (businesses: seq<Business>, rejections: seq<Rejection>)
    ensures var e := EvidenceOf(rules, report, countryCode, structure);
            businesses == VerifiedAll(e, structure) && rejections == RejectedAll(e, structure)
  {
    hide Verdict, ContactVerdict, Section, BlocksCiting, KeptUrls, UrlRejections, KeptPresences, PresenceRejections,
      KeptContacts, ContactRejections, BlocksCitingAny, KeptWebsite, WebsiteRejections;
    var e := EvidenceOf(rules, report, countryCode, structure);
    var sections := BusinessSections(rules, report, e.names);
    businesses, rejections := [], [];
    for i := 0 to |structure|
      invariant businesses == VerifiedAll(e, structure[..i]) && rejections == RejectedAll(e, structure[..i])
    {
      assert structure[..i + 1][..i] == structure[..i];
      var business := structure[i];
      ghost var before := rejections;
      var sourceUrls, rejected := CitedSources(e, business.name, business.sourceUrls);
      if |sourceUrls| == 0 {
        rejections := rejections + rejected;
        continue;
      }
      var presences, presenceRejections := CitedPresences(e, business.name, business.presences);
      rejected := rejected + presenceRejections;
      var websiteUrl, websiteRejections := CitedWebsite(e, business);
      rejected := rejected + websiteRejections;
      var scope := if business.name in sections then [sections[business.name]]
                   else BlocksCitingAny(rules, e.blocks, sourceUrls);
      assert (if business.name in sections then Some(sections[business.name]) else None)
          == Section(rules, report, e.names, business.name);
      var contacts, contactRejections := WitnessedContacts(e, scope, business.name, business.contacts);
      rejected := rejected + contactRejections;
      assert rejected == RejectionsOf(e, business);
      rejections := rejections + rejected;
      businesses := businesses + [Business(business.name, business.profile, sourceUrls, presences, contacts, websiteUrl)];
    }
    assert structure[..|structure|] == structure;
  }

  // ---- what a kept claim is worth ----

  // Public, and canonically equal to a URL the report writes.
  ghost predicate InReport(rules: Rules, report: string, url: string) {
    rules.isPublic(url) && exists u :: u in rules.urls(report) && rules.canonical(u) == rules.canonical(url)
  }

  lemma VerdictMeansInReport(rules: Rules, report: string, countryCode: string, structure: seq<Business>, url: string)
    ensures Verdict(EvidenceOf(rules, report, countryCode, structure), url).None? <==> InReport(rules, report, url)
  {
  }

  lemma {:induction false} KeptUrlsAreCited(e: Evidence, urls: seq<string>, url: string)
    ensures url in KeptUrls(e, urls) <==> url in urls && Verdict(e, url).None?
  {
    hide Verdict;
    if urls != [] {
      KeptUrlsAreCited(e, urls[..|urls| - 1], url);
    }
  }

  lemma {:induction false} KeptPresencesAreCited(e: Evidence, presences: seq<Presence>, p: Presence)
    ensures p in KeptPresences(e, presences) <==> p in presences && Verdict(e, p.url).None?
  {
    hide Verdict;
    if presences != [] {
      KeptPresencesAreCited(e, presences[..|presences| - 1], p);
    }
  }

  lemma {:induction false} KeptContactsPassed(e: Evidence, scope: seq<Block>, contacts: seq<Contact>, c: Contact)
    ensures c in KeptContacts(e, scope, contacts) <==> c in contacts && ContactVerdict(e, scope, c).None?
  {
    hide ContactVerdict;
    if contacts != [] {
      KeptContactsPassed(e, scope, contacts[..|contacts| - 1], c);
    }
  }

  // The verified business b' comes from a claimed one, in the given order.
  lemma {:induction false} VerifiedCameFrom(e: Evidence, businesses: seq<Business>, kept: Business) returns (b: Business)
    requires kept in VerifiedAll(e, businesses)
    ensures b in businesses && Sourced(e, b) && kept == Verified(e, b)
  {
    hide Verified, Sourced;
    var last := businesses[|businesses| - 1];
    if kept in VerifiedAll(e, businesses[..|businesses| - 1]) {
      b := VerifiedCameFrom(e, businesses[..|businesses| - 1], kept);
    } else {
      b := last;
    }
  }

  // Every URL that survives is public and in the report, and a business survives only with a source.
  lemma UrlsAreInReport(rules: Rules, report: string, countryCode: string, structure: seq<Business>, kept: Business)
    requires kept in VerifiedAll(EvidenceOf(rules, report, countryCode, structure), structure)
    ensures kept.sourceUrls != [] && forall u :: u in kept.sourceUrls ==> InReport(rules, report, u)
    ensures forall p :: p in kept.presences ==> InReport(rules, report, p.url)
    ensures forall c :: c in kept.contacts ==> InReport(rules, report, c.sourceUrl)
    ensures kept.websiteUrl.Some? ==> InReport(rules, report, kept.websiteUrl.value)
  {
    hide Verdict, Section, BlocksCiting, ContactRejection, InReport, EvidenceOf, KeptUrls, KeptPresences, KeptContacts,
      VerifiedAll, Scope;
    var e := EvidenceOf(rules, report, countryCode, structure);
    var b := VerifiedCameFrom(e, structure, kept);
    forall u | u in kept.sourceUrls
      ensures InReport(rules, report, u)
    {
      KeptUrlsAreCited(e, b.sourceUrls, u);
      VerdictMeansInReport(rules, report, countryCode, structure, u);
    }
    forall p | p in kept.presences
      ensures InReport(rules, report, p.url)
    {
      KeptPresencesAreCited(e, b.presences, p);
      VerdictMeansInReport(rules, report, countryCode, structure, p.url);
    }
    forall c | c in kept.contacts
      ensures InReport(rules, report, c.sourceUrl)
    {
      KeptContactsPassed(e, Scope(e, b), b.contacts, c);
      VerdictMeansInReport(rules, report, countryCode, structure, c.sourceUrl);
    }
    if kept.websiteUrl.Some? {
      VerdictMeansInReport(rules, report, countryCode, structure, kept.websiteUrl.value);
    }
  }

  lemma {:induction false} CitingBlocks(rules: Rules, blocks: seq<Block>, sourceUrl: string, block: Block)
    ensures block in BlocksCiting(rules, blocks, sourceUrl)
            <==> block in blocks && CitesUrl(rules, rules.urls(block.text), rules.canonical(sourceUrl))
  {
    hide CitesUrl;
    if blocks != [] {
      CitingBlocks(rules, blocks[1..], sourceUrl, block);
    }
  }

  lemma {:induction false} CitingAnyBlocks(rules: Rules, blocks: seq<Block>, sources: seq<string>, block: Block)
    returns (source: string)
    requires block in BlocksCitingAny(rules, blocks, sources)
    ensures source in sources && block in blocks && CitesUrl(rules, rules.urls(block.text), rules.canonical(source))
  {
    if block in BlocksCiting(rules, blocks, sources[0]) {
      source := sources[0];
      CitingBlocks(rules, blocks, source, block);
    } else {
      source := CitingAnyBlocks(rules, blocks, sources[1..], block);
    }
  }

  // Nine digits with an assigned prefix where the numbering plan is known, written out in the
  // block; or an address the block mentions.
  ghost predicate Shows(rules: Rules, countryCode: string, block: Block, c: Contact) {
    if c.kind == GenericEmail then Contains(block.lowercased, MapChars(rules.foldMail, c.value))
    else
      var national := National(Digits(c.value));
      && |national| == 9
      && (MapChars(rules.upper, countryCode) == "PL" ==> AssignedPrefix(national))
      && (national in block.digits || "48" + national in block.digits)
  }

  // Where a kept telephone or email was witnessed: the business's own section, which also cites
  // the contact's source; or, without a section, one paragraph of the report that cites both the
  // contact's source and a verified source of that business.
  ghost predicate WitnessedAt(e: Evidence, kept: Business, c: Contact, block: Block) {
    Shows(e.rules, e.countryCode, block, c) && Beside(e, kept, c, block)
  }

  ghost predicate Beside(e: Evidence, kept: Business, c: Contact, block: Block) {
    && CitesUrl(e.rules, e.rules.urls(block.text), e.rules.canonical(c.sourceUrl))
    && match Section(e.rules, e.report, e.names, kept.name)
       case Some(section) => block == section
       case None =>
         && block in e.blocks
         && exists source :: source in kept.sourceUrls && CitesUrl(e.rules, e.rules.urls(block.text), e.rules.canonical(source))
  }

  lemma ContactsAreWitnessed(rules: Rules, report: string, countryCode: string, structure: seq<Business>,
                             kept: Business, c: Contact) returns (block: Block)
    requires kept in VerifiedAll(EvidenceOf(rules, report, countryCode, structure), structure) && c in kept.contacts
    requires c.kind == GenericEmail || c.kind == BusinessTelephone
    ensures WitnessedAt(EvidenceOf(rules, report, countryCode, structure), kept, c, block)
  {
    hide Verdict, Section, BlocksCiting, EvidenceOf, KeptUrls, KeptPresences, KeptContacts, VerifiedAll, CitesUrl,
      Contains, AssignedPrefix, BlocksCitingAny;
    var e := EvidenceOf(rules, report, countryCode, structure);
    var b := VerifiedCameFrom(e, structure, kept);
    var scope := Scope(e, b);
    KeptContactsPassed(e, scope, b.contacts, c);
    EvidenceKeeps(rules, report, countryCode, structure);
    var citing := BlocksCiting(rules, scope, c.sourceUrl);
    assert ContactRejection(rules, c, countryCode, citing).None?;
    if c.kind == GenericEmail {
      block :| block in citing && Contains(block.lowercased, MapChars(rules.foldMail, c.value));
    } else {
      var national := National(Digits(c.value));
      block :| block in citing && (national in block.digits || "48" + national in block.digits);
    }
    CitingBlocks(rules, scope, c.sourceUrl, block);
    if Section(rules, report, e.names, b.name).None? {
      var source := CitingAnyBlocks(rules, e.blocks, KeptUrls(e, b.sourceUrls), block);
    }
  }

  lemma EvidenceKeeps(rules: Rules, report: string, countryCode: string, structure: seq<Business>)
    ensures var e := EvidenceOf(rules, report, countryCode, structure);
            e.rules == rules && e.countryCode == countryCode && e.report == report
  {
  }

  // A kept form or profile is the cited address itself.
  lemma FormsAreTheirSource(rules: Rules, report: string, countryCode: string, structure: seq<Business>,
                            kept: Business, c: Contact)
    requires kept in VerifiedAll(EvidenceOf(rules, report, countryCode, structure), structure) && c in kept.contacts
    requires c.kind == ContactForm || c.kind == SocialMessaging
    ensures c.value == c.sourceUrl && InReport(rules, report, c.value)
  {
    hide Verdict, Section, BlocksCiting, EvidenceOf, KeptUrls, KeptPresences, KeptContacts, VerifiedAll, InReport;
    var e := EvidenceOf(rules, report, countryCode, structure);
    var b := VerifiedCameFrom(e, structure, kept);
    KeptContactsPassed(e, Scope(e, b), b.contacts, c);
    VerdictMeansInReport(rules, report, countryCode, structure, c.sourceUrl);
  }

  // ---- nothing disappears unexplained ----

  function Claims(b: Business): nat {
    |b.sourceUrls| + |b.presences| + |b.contacts| + (if b.websiteUrl.Some? && b.websiteUrl.value != [] then 1 else 0)
  }

  lemma {:induction false} UrlsAccounted(e: Evidence, name: string, urls: seq<string>)
    ensures |KeptUrls(e, urls)| + |UrlRejections(e, name, urls)| == |urls|
  {
    hide Verdict;
    if urls != [] { UrlsAccounted(e, name, urls[..|urls| - 1]); }
  }

  lemma {:induction false} PresencesAccounted(e: Evidence, name: string, presences: seq<Presence>)
    ensures |KeptPresences(e, presences)| + |PresenceRejections(e, name, presences)| == |presences|
  {
    hide Verdict;
    if presences != [] { PresencesAccounted(e, name, presences[..|presences| - 1]); }
  }

  lemma {:induction false} ContactsAccounted(e: Evidence, scope: seq<Block>, name: string, contacts: seq<Contact>)
    ensures |KeptContacts(e, scope, contacts)| + |ContactRejections(e, scope, name, contacts)| == |contacts|
  {
    hide ContactVerdict;
    if contacts != [] { ContactsAccounted(e, scope, name, contacts[..|contacts| - 1]); }
  }

  // Every claim of a business that is kept is itself kept or rejected with a reason; a business
  // that is not kept has every one of its sources rejected.
  lemma EveryClaimIsAccountedFor(e: Evidence, b: Business)
    ensures Sourced(e, b) ==> Claims(Verified(e, b)) + |RejectionsOf(e, b)| == Claims(b)
    ensures !Sourced(e, b) ==> |RejectionsOf(e, b)| == |b.sourceUrls|
  {
    hide Verdict, Scope, KeptUrls, UrlRejections, KeptPresences, PresenceRejections, KeptContacts, ContactRejections;
    UrlsAccounted(e, b.name, b.sourceUrls);
    PresencesAccounted(e, b.name, b.presences);
    ContactsAccounted(e, Scope(e, b), b.name, b.contacts);
  }
}
