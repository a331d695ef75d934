// What verification keeps, exactly: each claim on its own, by what the report shows for it, and why
// any other is rejected.

module KeptClaims {
  import opened Wrappers
  import opened ReportSections
  import opened Text
  import opened Attribution

  ghost function Filtered<T(!new)>(items: seq<T>, keep: T -> bool): seq<T> {
    if items == [] then []
    else
      var last := items[|items| - 1];
      Filtered(items[..|items| - 1], keep) + (if keep(last) then [last] else [])
  }

  ghost predicate InReportOf(e: Evidence, url: string) {
    e.rules.isPublic(url) && exists u :: u in e.rules.urls(e.report) && e.rules.canonical(u) == e.rules.canonical(url)
  }

  // A contact may be kept: its source is in the report, and a form or profile is that address itself,
  // while a telephone or an email is witnessed beside it.
  ghost predicate MayKeep(e: Evidence, kept: Business, c: Contact) {
    && InReportOf(e, c.sourceUrl)
    && if c.kind == ContactForm || c.kind == SocialMessaging then c.value == c.sourceUrl
       else exists block :: WitnessedAt(e, kept, c, block)
  }

  predicate EvidenceIsOf(e: Evidence) {
    && e.reportUrls == (set u | u in e.rules.urls(e.report) :: e.rules.canonical(u))
  }

  lemma VerdictMeans(e: Evidence, url: string)
    requires EvidenceIsOf(e)
    ensures Verdict(e, url).None? <==> InReportOf(e, url)
    ensures Verdict(e, url).Some? ==> Verdict(e, url).value == if e.rules.isPublic(url) then NotInReport else NotPublicHttp
  {
  }

  lemma {:induction false} UrlsKept(e: Evidence, urls: seq<string>)
    requires EvidenceIsOf(e)
    ensures KeptUrls(e, urls) == Filtered(urls, u => InReportOf(e, u))
  {
    hide Verdict, InReportOf;
    if urls != [] {
      UrlsKept(e, urls[..|urls| - 1]);
      VerdictMeans(e, urls[|urls| - 1]);
    }
  }

  lemma {:induction false} PresencesKept(e: Evidence, presences: seq<Presence>)
    requires EvidenceIsOf(e)
    ensures KeptPresences(e, presences) == Filtered(presences, (p: Presence) => InReportOf(e, p.url))
  {
    hide Verdict, InReportOf;
    if presences != [] {
      PresencesKept(e, presences[..|presences| - 1]);
      VerdictMeans(e, presences[|presences| - 1].url);
    }
  }

  // ---- contacts ----

  lemma {:induction false} CitedByAny(rules: Rules, blocks: seq<Block>, sources: seq<string>, block: Block)
    ensures block in BlocksCitingAny(rules, blocks, sources)
            <==> block in blocks
                 && exists source :: source in sources && CitesUrl(rules, rules.urls(block.text), rules.canonical(source))
  {
    hide CitesUrl, BlocksCiting;
    if sources != [] {
      CitedByAny(rules, blocks, sources[1..], block);
      CitingBlocks(rules, blocks, sources[0], block);
      assert forall source :: source in sources <==> source == sources[0] || source in sources[1..];
    }
  }

  // The blocks a contact is looked for in are those beside its source.
  lemma BesideIsScope(e: Evidence, b: Business, kept: Business, c: Contact, block: Block)
    requires kept.name == b.name && kept.sourceUrls == KeptUrls(e, b.sourceUrls)
    ensures block in BlocksCiting(e.rules, Scope(e, b), c.sourceUrl) <==> Beside(e, kept, c, block)
  {
    hide CitesUrl, BlocksCiting, Section, BlocksCitingAny, KeptUrls;
    CitingBlocks(e.rules, Scope(e, b), c.sourceUrl, block);
    if Section(e.rules, e.report, e.names, b.name).None? {
      CitedByAny(e.rules, e.blocks, kept.sourceUrls, block);
    }
  }

  // The reason a contact whose source is in the report is rejected for.
  ghost predicate ReasonFor(e: Evidence, kept: Business, c: Contact, reason: Reason) {
    if c.kind == ContactForm || c.kind == SocialMessaging then reason == ValueIsNotTheCitedUrl
    else if (forall block :: !Beside(e, kept, c, block)) || c.kind == GenericEmail then reason == NotBesideItsSource
    else if |National(Digits(c.value))| != 9 then reason == NotNineDigits
    else if MapChars(e.rules.upper, e.countryCode) == "PL" && !AssignedPrefix(National(Digits(c.value))) then
      reason == PrefixNotInNumberingPlan
    else reason == NotBesideItsSource
  }

  lemma RejectionMeans(e: Evidence, b: Business, kept: Business, c: Contact)
    requires kept.name == b.name && kept.sourceUrls == KeptUrls(e, b.sourceUrls)
    ensures var rejection := ContactRejection(e.rules, c, e.countryCode, BlocksCiting(e.rules, Scope(e, b), c.sourceUrl));
            && (rejection.None? <==>
                  if c.kind == ContactForm || c.kind == SocialMessaging then c.value == c.sourceUrl
                  else exists block :: WitnessedAt(e, kept, c, block))
            && (rejection.Some? ==> ReasonFor(e, kept, c, rejection.value))
  {
    hide BlocksCiting, Scope, Beside, Contains, AssignedPrefix, National, Digits;
    var blocks := BlocksCiting(e.rules, Scope(e, b), c.sourceUrl);
    forall block
      ensures block in blocks <==> Beside(e, kept, c, block)
    {
      BesideIsScope(e, b, kept, c, block);
    }
    if blocks != [] { assert blocks[0] in blocks; }
    if c.kind == ContactForm || c.kind == SocialMessaging { return; }
    ShownInSome(e.rules, e.countryCode, blocks, c);
    if block :| block in blocks && Shows(e.rules, e.countryCode, block, c) { assert WitnessedAt(e, kept, c, block); }
    if block :| WitnessedAt(e, kept, c, block) { assert block in blocks; }
  }

  // What the block tests of a rejection look for, block by block.
  lemma ShownInSome(rules: Rules, countryCode: string, blocks: seq<Block>, c: Contact)
    requires c.kind != ContactForm && c.kind != SocialMessaging
    ensures ContactRejection(rules, c, countryCode, blocks).None?
            <==> exists block :: block in blocks && Shows(rules, countryCode, block, c)
  {
    hide Contains, AssignedPrefix, National, Digits;
    if c.kind == GenericEmail {
      assert MentionedIn(rules, blocks, c.value) <==> exists block :: block in blocks && Shows(rules, countryCode, block, c);
    } else if block :| block in blocks && Shows(rules, countryCode, block, c) {
      assert WrittenIn(blocks, National(Digits(c.value)));
    }
  }

  lemma ContactVerdictMeans(e: Evidence, b: Business, kept: Business, c: Contact)
    requires EvidenceIsOf(e) && kept.name == b.name && kept.sourceUrls == KeptUrls(e, b.sourceUrls)
    ensures var verdict := ContactVerdict(e, Scope(e, b), c);
            && (verdict.None? <==> MayKeep(e, kept, c))
            && (verdict.Some? && !InReportOf(e, c.sourceUrl) ==>
                  verdict.value == (c.sourceUrl, if e.rules.isPublic(c.sourceUrl) then NotInReport else NotPublicHttp))
            && (verdict.Some? && InReportOf(e, c.sourceUrl) ==>
                  verdict.value.0 == c.value && ReasonFor(e, kept, c, verdict.value.1))
  {
    hide Verdict, InReportOf, ContactRejection, BlocksCiting, Scope, ReasonFor, WitnessedAt;
    VerdictMeans(e, c.sourceUrl);
    RejectionMeans(e, b, kept, c);
  }

  lemma {:induction false} ContactsKept(e: Evidence, b: Business, kept: Business, contacts: seq<Contact>)
    requires EvidenceIsOf(e) && kept.name == b.name && kept.sourceUrls == KeptUrls(e, b.sourceUrls)
    ensures KeptContacts(e, Scope(e, b), contacts) == Filtered(contacts, c => MayKeep(e, kept, c))
  {
    hide ContactVerdict, MayKeep, Scope;
    if contacts != [] {
      ContactsKept(e, b, kept, contacts[..|contacts| - 1]);
      ContactVerdictMeans(e, b, kept, contacts[|contacts| - 1]);
    }
  }

  // ---- businesses ----

  ghost predicate HasSource(e: Evidence, b: Business) { exists u :: u in b.sourceUrls && InReportOf(e, u) }

  // What is kept of a claimed business: its name and profile, and every claim the report supports, in
  // the order claimed.
  ghost predicate KeptOf(e: Evidence, b: Business, kept: Business) {
    && kept.name == b.name && kept.profile == b.profile
    && kept.sourceUrls == Filtered(b.sourceUrls, u => InReportOf(e, u))
    && kept.presences == Filtered(b.presences, (p: Presence) => InReportOf(e, p.url))
    && kept.contacts == Filtered(b.contacts, c => MayKeep(e, kept, c))
    && kept.websiteUrl == (if b.websiteUrl.Some? && b.websiteUrl.value != [] && InReportOf(e, b.websiteUrl.value)
                           then b.websiteUrl else None)
  }

  lemma VerifiedIsKeptOf(e: Evidence, b: Business)
    requires EvidenceIsOf(e)
    ensures KeptOf(e, b, Verified(e, b)) && (Sourced(e, b) <==> HasSource(e, b))
  {
    hide Verdict, InReportOf, Scope, MayKeep, KeptPresences, KeptContacts;
    UrlsKept(e, b.sourceUrls);
    PresencesKept(e, b.presences);
    ContactsKept(e, b, Verified(e, b), b.contacts);
    if b.websiteUrl.Some? { VerdictMeans(e, b.websiteUrl.value); }
    FilteredKeepsSome(b.sourceUrls, u => InReportOf(e, u));
  }

  lemma {:induction false} FilteredKeepsSome<T(!new)>(items: seq<T>, keep: T -> bool)
    ensures Filtered(items, keep) != [] <==> exists x :: x in items && keep(x)
  {
    if items != [] {
      var before, last := items[..|items| - 1], items[|items| - 1];
      FilteredKeepsSome(before, keep);
      assert forall x :: x in items <==> x in before || x == last;
    }
  }

  lemma {:induction false} AllKept(e: Evidence, businesses: seq<Business>)
    requires EvidenceIsOf(e)
    ensures var claimed, kept := Filtered(businesses, b => HasSource(e, b)), VerifiedAll(e, businesses);
            |kept| == |claimed| && forall i :: 0 <= i < |kept| ==> KeptOf(e, claimed[i], kept[i])
  {
    hide KeptOf, HasSource, Verified, Sourced;
    if businesses != [] {
      AllKept(e, businesses[..|businesses| - 1]);
      VerifiedIsKeptOf(e, businesses[|businesses| - 1]);
    }
  }

  // The verified structure is the claimed one with exactly the unsupported businesses and claims left
  // out: nothing else goes, nothing else stays, and nothing changes its place.
  lemma VerificationIsExact(rules: Rules, report: string, countryCode: string, structure: seq<Business>)
    ensures var e := EvidenceOf(rules, report, countryCode, structure);
            var claimed, kept := Filtered(structure, b => HasSource(e, b)), VerifiedAll(e, structure);
            |kept| == |claimed| && forall i :: 0 <= i < |kept| ==> KeptOf(e, claimed[i], kept[i])
  {
    hide KeptOf, HasSource, VerifiedAll, ReportBlocks;
    AllKept(EvidenceOf(rules, report, countryCode, structure), structure);
  }

  // ---- rejections ----

  // A URL claimed and not supported, with the reason.
  ghost predicate Unsupported(e: Evidence, name: string, kind: RejectionKind, url: string, r: Rejection) {
    !InReportOf(e, url) && r == Rejection(name, kind, url, if e.rules.isPublic(url) then NotInReport else NotPublicHttp)
  }

  ghost predicate ContactUnsupported(e: Evidence, kept: Business, c: Contact, r: Rejection) {
    && !MayKeep(e, kept, c) && r.business == kept.name && r.kind == ContactClaim
    && if !InReportOf(e, c.sourceUrl)
       then r.value == c.sourceUrl && r.reason == (if e.rules.isPublic(c.sourceUrl) then NotInReport else NotPublicHttp)
       else r.value == c.value && ReasonFor(e, kept, c, r.reason)
  }

  lemma {:induction false} UrlsRejected(e: Evidence, name: string, urls: seq<string>, r: Rejection)
    requires EvidenceIsOf(e)
    ensures r in UrlRejections(e, name, urls) <==> exists u :: u in urls && Unsupported(e, name, SourceClaim, u, r)
  {
    hide Verdict, InReportOf;
    if urls != [] {
      var before, last := urls[..|urls| - 1], urls[|urls| - 1];
      UrlsRejected(e, name, before, r);
      VerdictMeans(e, last);
      assert r in Note(name, SourceClaim, last, Verdict(e, last)) <==> Unsupported(e, name, SourceClaim, last, r);
      if u :| u in urls && Unsupported(e, name, SourceClaim, u, r) { assert u in before || u == last; }
      if u :| u in before && Unsupported(e, name, SourceClaim, u, r) { assert u in urls; }
      assert last in urls;
    }
  }

  lemma {:induction false} PresencesRejected(e: Evidence, name: string, presences: seq<Presence>, r: Rejection)
    requires EvidenceIsOf(e)
    ensures r in PresenceRejections(e, name, presences)
            <==> exists p :: p in presences && Unsupported(e, name, PresenceClaim, p.url, r)
  {
    hide Verdict, InReportOf;
    if presences != [] {
      var before, last := presences[..|presences| - 1], presences[|presences| - 1];
      PresencesRejected(e, name, before, r);
      VerdictMeans(e, last.url);
      assert r in Note(name, PresenceClaim, last.url, Verdict(e, last.url))
             <==> Unsupported(e, name, PresenceClaim, last.url, r);
      if p :| p in presences && Unsupported(e, name, PresenceClaim, p.url, r) { assert p in before || p == last; }
      if p :| p in before && Unsupported(e, name, PresenceClaim, p.url, r) { assert p in presences; }
      assert last in presences;
    }
  }

  lemma {:induction false} ContactsRejected(e: Evidence, b: Business, kept: Business, contacts: seq<Contact>, r: Rejection)
    requires EvidenceIsOf(e) && kept.name == b.name && kept.sourceUrls == KeptUrls(e, b.sourceUrls)
    ensures r in ContactRejections(e, Scope(e, b), b.name, contacts)
            ==> exists c :: c in contacts && ContactUnsupported(e, kept, c, r)
  {
    hide ContactVerdict, MayKeep, Scope, InReportOf, ReasonFor;
    if contacts != [] {
      var before, last := contacts[..|contacts| - 1], contacts[|contacts| - 1];
      ContactsRejected(e, b, kept, before, r);
      ContactVerdictMeans(e, b, kept, last);
      assert last in contacts;
      if r in ContactRejections(e, Scope(e, b), b.name, before) {
        var c :| c in before && ContactUnsupported(e, kept, c, r);
        assert c in contacts;
      } else if r in ContactRejections(e, Scope(e, b), b.name, contacts) {
        assert ContactUnsupported(e, kept, last, r);
      }
    }
  }

  // Every rejection names an unsupported claim of its business and the reason it failed for. With the
  // count of claims kept and rejected, no unsupported claim goes unnamed.
  lemma RejectionsAreReasoned(e: Evidence, b: Business, r: Rejection)
    requires EvidenceIsOf(e) && r in RejectionsOf(e, b)
    ensures r.business == b.name
    ensures match r.kind
            case SourceClaim => exists u :: u in b.sourceUrls && Unsupported(e, b.name, SourceClaim, u, r)
            case PresenceClaim =>
              HasSource(e, b) && exists p :: p in b.presences && Unsupported(e, b.name, PresenceClaim, p.url, r)
            case WebsiteClaim =>
              HasSource(e, b) && b.websiteUrl.Some? && Unsupported(e, b.name, WebsiteClaim, b.websiteUrl.value, r)
            case ContactClaim =>
              HasSource(e, b) && exists c :: c in b.contacts && ContactUnsupported(e, Verified(e, b), c, r)
  {
    hide Verdict, InReportOf, UrlRejections, PresenceRejections, ContactRejections, MayKeep, Scope, ReasonFor, HasSource;
    VerifiedIsKeptOf(e, b);
    UrlsRejected(e, b.name, b.sourceUrls, r);
    PresencesRejected(e, b.name, b.presences, r);
    ContactsRejected(e, b, Verified(e, b), b.contacts, r);
    if b.websiteUrl.Some? { VerdictMeans(e, b.websiteUrl.value); }
  }

  // ---- blocks ----

  // The block of a text: the text without blanks around it, the same in lower case, and its numbers.
  ghost predicate BlockOf(rules: Rules, text: string, block: Block) {
    && block.text == Trim(text) && |block.lowercased| == |block.text|
    && (forall k :: 0 <= k < |block.text| ==> block.lowercased[k] == rules.fold(block.text[k]))
    && (forall n :: n in block.digits <==> IsWritten(block.text, n))
  }

  lemma AsBlockMeans(rules: Rules, text: string)
    ensures BlockOf(rules, text, AsBlock(rules, text))
  {
    hide WrittenNumbers, IsWritten, Trim;
    forall n
      ensures n in AsBlock(rules, text).digits <==> IsWritten(Trim(text), n)
    {
      NumbersMean(Trim(text), n);
    }
  }

  // A report's blocks are those of its paragraphs, in order, without the blank ones.
  lemma {:induction false} BlocksMean(rules: Rules, paragraphs: seq<string>)
    ensures var blocks, written := ReportBlocks(rules, paragraphs), Filtered(paragraphs, p => Trim(p) != "");
            |blocks| == |written| && forall i :: 0 <= i < |blocks| ==> BlockOf(rules, written[i], blocks[i])
  {
    hide BlockOf, Trim, AsBlock;
    if paragraphs != [] {
      var rest := paragraphs[1..];
      BlocksMean(rules, rest);
      AsBlockMeans(rules, paragraphs[0]);
      assert paragraphs == [paragraphs[0]] + rest;
      FilteredConcat([paragraphs[0]], rest, p => Trim(p) != "");
      OneFiltered(paragraphs[0], p => Trim(p) != "");
      TextOfBlock(rules, paragraphs[0]);
    }
  }

  lemma TextOfBlock(rules: Rules, text: string)
    ensures AsBlock(rules, text).text == Trim(text)
  {
  }

  lemma OneFiltered<T(!new)>(item: T, keep: T -> bool)
    ensures Filtered([item], keep) == if keep(item) then [item] else []
  {
    assert [item][..0] == [];
  }

  lemma {:induction false} FilteredConcat<T(!new)>(a: seq<T>, b: seq<T>, keep: T -> bool)
    ensures Filtered(a + b, keep) == Filtered(a, keep) + Filtered(b, keep)
  {
    if b == [] {
      assert a + b == a;
    } else {
      FilteredConcat(a, b[..|b| - 1], keep);
      assert (a + b)[..|a + b| - 1] == a + b[..|b| - 1];
    }
  }

  // A business with a slice of the report has the block of its slices, set apart by blank lines.
  lemma SectionMeans(rules: Rules, report: string, names: seq<string>, name: string)
    ensures var marks := Boundaries(report, rules.fold, names);
            var parts := Parts(report, marks, name, |marks|);
            && (Section(rules, report, names, name).None? <==> parts == [])
            && (parts != [] ==> BlockOf(rules, Joined(parts, "\n\n"), Section(rules, report, names, name).value))
  {
    hide BlockOf, AsBlock, Parts, Boundaries;
    var marks := Boundaries(report, rules.fold, names);
    AsBlockMeans(rules, Joined(Parts(report, marks, name, |marks|), "\n\n"));
  }

  // ---- telephone forms ----

  // A national number is nine digits, with or without the country code before them.
  lemma NationalForms(digits: string)
    ensures |National(digits)| == 9 <==> |digits| == 9 || (|digits| == 11 && digits[0] == '4' && digits[1] == '8')
    ensures |National(digits)| == 9 ==> National(digits) == digits[|digits| - 9..]
  {
    if |digits| == 11 && digits[0] == '4' && digits[1] == '8' { assert digits[..2] == "48"; }
  }

  // An unbroken stretch of number characters, as long as it goes.
  predicate Unbroken(s: string, i: nat, j: nat) {
    && i < j <= |s| && (forall k :: i <= k < j ==> Writes(s[k]))
    && (i > 0 ==> !Writes(s[i - 1])) && (j < |s| ==> !Writes(s[j]))
  }

  // Such a stretch with these digits.
  predicate Spells(s: string, i: nat, j: nat, n: string) { Unbroken(s, i, j) && Digits(s[i..j]) == n }

  ghost predicate IsWritten(s: string, n: string) { |n| >= 2 && exists i: nat, j: nat :: Spells(s, i, j, n) }

  lemma Further(s: string, k: nat, i: nat, j: nat)
    requires 0 < k <= |s| && (Writes(s[k - 1]) ==> k == |s| || !Writes(s[k]))
    ensures Unbroken(s[k..], i, j) <==> Unbroken(s, k + i, k + j)
    ensures i <= j <= |s| - k ==> s[k..][i..j] == s[k + i..k + j]
  {
    hide Writes;
    if Unbroken(s, k + i, k + j) {
      forall x | i <= x < j
        ensures Writes(s[k..][x])
      {
        assert s[k..][x] == s[k + x];
      }
    }
    if Unbroken(s[k..], i, j) {
      forall x | k + i <= x < k + j
        ensures Writes(s[x])
      {
        assert s[x] == s[k..][x - k];
      }
    }
  }

  lemma AtFront(s: string, k: nat, i: nat, j: nat)
    requires k <= |s| && (forall x :: 0 <= x < k ==> Writes(s[x])) && (k < |s| ==> !Writes(s[k]))
    requires Unbroken(s, i, j) && i < k
    ensures i == 0 && j == k
  {
    hide Writes;
  }

  lemma FurtherOn(s: string, k: nat, n: string)
    requires 0 < k <= |s| && (Writes(s[k - 1]) ==> k == |s| || !Writes(s[k]))
    ensures IsWritten(s[k..], n) <==> |n| >= 2 && exists i: nat, j: nat :: i >= k && Spells(s, i, j, n)
  {
    hide Digits, Writes;
    if IsWritten(s[k..], n) {
      var i: nat, j: nat :| Spells(s[k..], i, j, n);
      Further(s, k, i, j);
      assert Spells(s, k + i, k + j, n);
    }
    if i: nat, j: nat :| i >= k && Spells(s, i, j, n) {
      Further(s, k, i - k, j - k);
      assert Spells(s[k..], i - k, j - k, n);
    }
  }

  // The numbers written in a text are those of its unbroken stretches that come to two digits or more.
  lemma {:induction false} NumbersMean(s: string, n: string)
    ensures n in WrittenNumbers(s) <==> IsWritten(s, n)
    decreases |s|
  {
    hide Writes, Digits, Spells;
    if s == [] {
      NoStretch(s, n);
    } else if !Writes(s[0]) {
      NumbersMean(s[1..], n);
      FurtherOn(s, 1, n);
      if i: nat, j: nat :| Spells(s, i, j, n) { Spelt(s, i, j, n); }
    } else {
      var k := Stretch(s);
      FrontIsUnbroken(s);
      NumbersMean(s[k..], n);
      FurtherOn(s, k, n);
      if i: nat, j: nat :| i < k && Spells(s, i, j, n) { Spelt(s, i, j, n); }
    }
  }

  // A stretch begins with a number character, and one that begins within the first is the first.
  lemma Spelt(s: string, i: nat, j: nat, n: string)
    requires Spells(s, i, j, n)
    ensures i < |s| && Writes(s[i])
    ensures Writes(s[0]) && i < Stretch(s) ==> Digits(s[..Stretch(s)]) == n
  {
    hide Writes, Digits, Stretch;
    if Writes(s[0]) && i < Stretch(s) {
      AtFront(s, Stretch(s), i, j);
      assert s[0..j] == s[..j];
    }
  }

  lemma NoStretch(s: string, n: string)
    requires s == []
    ensures !IsWritten(s, n)
  {
  }

  lemma FrontIsUnbroken(s: string)
    requires s != [] && Writes(s[0])
    ensures Stretch(s) > 0 && (Stretch(s) < |s| ==> !Writes(s[Stretch(s)])) && Spells(s, 0, Stretch(s), Digits(s[..Stretch(s)]))
  {
    hide Digits;
    assert s[0..Stretch(s)] == s[..Stretch(s)];
  }

  // Trimming takes the blanks off both ends and nothing more.
  lemma TrimMeans(s: string)
    ensures exists i, j :: 0 <= i <= j <= |s| && Trim(s) == s[i..j]
                           && (forall k :: 0 <= k < |s| && !(i <= k < j) ==> IsSpace(s[k]))
    ensures Trim(s) != [] ==> !IsSpace(Trim(s)[0]) && !IsSpace(Trim(s)[|Trim(s)| - 1])
  {
    hide IsSpace, TrimStart, TrimEnd;
    var i := StartMeans(s);
    var n := EndMeans(s[i..]);
    assert s[i..][..n] == s[i..i + n];
    assert forall k :: i + n <= k < |s| ==> s[k] == s[i..][k - i];
  }

  lemma {:induction false} StartMeans(s: string) returns (i: nat)
    ensures i <= |s| && TrimStart(s) == s[i..] && (forall k :: 0 <= k < i ==> IsSpace(s[k])) && (i < |s| ==> !IsSpace(s[i]))
  {
    hide IsSpace;
    if s != [] && IsSpace(s[0]) {
      var rest := StartMeans(s[1..]);
      i := rest + 1;
      assert s[1..][rest..] == s[i..];
      assert forall k :: 0 < k < i ==> s[k] == s[1..][k - 1];
    } else {
      i := 0;
    }
  }

  lemma {:induction false} EndMeans(s: string) returns (n: nat)
    ensures n <= |s| && TrimEnd(s) == s[..n] && (forall k :: n <= k < |s| ==> IsSpace(s[k])) && (n > 0 ==> !IsSpace(s[n - 1]))
  {
    hide IsSpace;
    if s != [] && IsSpace(s[|s| - 1]) {
      n := EndMeans(s[..|s| - 1]);
      assert s[..|s| - 1][..n] == s[..n];
    } else {
      n := |s|;
    }
  }
}
