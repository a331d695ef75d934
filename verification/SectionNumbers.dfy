// Numbers in a section: a section joins its slices of the report with blank lines, which a written
// number may run across.

module SectionNumbers {
  import opened Wrappers
  import opened ReportSections
  import opened Text
  import opened Attribution

  // Where the number characters at the end of a text begin.
  function TailStart(s: string): (k: nat)
    ensures k <= |s|
    ensures forall i :: k <= i < |s| ==> Writes(s[i])
    ensures k > 0 ==> !Writes(s[k - 1])
  {
    if s == [] || !Writes(s[|s| - 1]) then |s| else TailStart(s[..|s| - 1])
  }

  function Head(s: string): string { Digits(s[..Stretch(s)]) }

  function Tail(s: string): string { Digits(s[TailStart(s)..]) }

  function AsNumber(digits: string): set<string> { if |digits| >= 2 then {digits} else {} }

  predicate IsGap(gap: string) { forall i :: 0 <= i < |gap| ==> Writes(gap[i]) && !IsDigit(gap[i]) }

  // A text's first stretch is a number of its own, and the rest is read apart from it.
  lemma HeadAndRest(s: string)
    ensures WrittenNumbers(s) == AsNumber(Head(s)) + WrittenNumbers(s[Stretch(s)..])
  {
    hide WrittenNumbers, IsSpace;
    if s != [] && Writes(s[0]) {
      WrittenFront(s);
    } else {
      assert s[..0] == [] && s[0..] == s;
    }
  }

  // Nothing before a character that no number runs through is changed by what follows.
  lemma {:induction false} CutAtPlain(a: string, b: string)
    requires a != [] && !Writes(a[|a| - 1])
    ensures WrittenNumbers(a + b) == WrittenNumbers(a) + WrittenNumbers(b)
    decreases |a|
  {
    hide Digits, IsSpace, IsDigit, WrittenNumbers;
    var n := Stretch(a);
    StretchIs(a + b, n);
    HeadAndRest(a);
    HeadAndRest(a + b);
    assert (a + b)[..n] == a[..n] && (a + b)[n..] == a[n..] + b;
    PlainFirst(a[n..]);
    PlainFirst(a[n..] + b);
    assert (a[n..] + b)[1..] == a[n + 1..] + b && a[n..][1..] == a[n + 1..];
    if n + 1 < |a| {
      CutAtPlain(a[n + 1..], b);
    } else {
      assert a[n + 1..] == [] && [] + b == b;
      NothingWritten();
    }
  }

  lemma PlainFirst(s: string)
    requires s != [] && !Writes(s[0])
    ensures WrittenNumbers(s) == WrittenNumbers(s[1..])
  {
  }

  // The numbers before the number characters a text ends in.
  function Before(s: string): set<string> { if TailStart(s) == 0 then {} else WrittenNumbers(s[..TailStart(s)]) }

  lemma RestIsApart(s: string, b: string)
    ensures WrittenNumbers(s + b) == Before(s) + WrittenNumbers(s[TailStart(s)..] + b)
  {
    hide WrittenNumbers, IsSpace;
    var k := TailStart(s);
    assert s + b == s[..k] + (s[k..] + b);
    if k > 0 { CutAtPlain(s[..k], s[k..] + b); } else { assert s[k..] == s; }
  }

  // All number characters and then b: one stretch with the head of b.
  lemma RunInto(run: string, b: string)
    requires forall i :: 0 <= i < |run| ==> Writes(run[i])
    ensures WrittenNumbers(run + b) == AsNumber(Digits(run) + Head(b)) + WrittenNumbers(b[Stretch(b)..])
    ensures Stretch(run + b) == |run| + Stretch(b) && Head(run + b) == Digits(run) + Head(b)
  {
    hide WrittenNumbers, Digits, IsSpace, IsDigit;
    var s := run + b;
    StretchIs(s, |run| + Stretch(b));
    HeadAndRest(s);
    assert s[..|run| + Stretch(b)] == run + b[..Stretch(b)];
    DigitsConcat(run, b[..Stretch(b)]);
    assert s[|run| + Stretch(b)..] == b[Stretch(b)..];
  }

  // The numbers of two texts with a gap between them: those of each away from the gap, and what its
  // two sides make together.
  lemma AcrossGap(a: string, gap: string, b: string)
    requires IsGap(gap)
    ensures WrittenNumbers(a + gap + b) == Before(a) + AsNumber(Tail(a) + Head(b)) + WrittenNumbers(b[Stretch(b)..])
  {
    hide WrittenNumbers, Digits, IsSpace, Before, AsNumber;
    var run := a[TailStart(a)..] + gap;
    assert a + gap + b == a + (gap + b);
    RestIsApart(a, gap + b);
    assert a[TailStart(a)..] + (gap + b) == run + b;
    DigitsConcat(a[TailStart(a)..], gap);
    NoDigits(gap);
    assert Tail(a) + [] == Tail(a);
    RunInto(run, b);
  }

  lemma TailAndRest(a: string)
    ensures WrittenNumbers(a) == Before(a) + AsNumber(Tail(a))
  {
    hide WrittenNumbers, Digits, IsSpace, Before, AsNumber;
    RestIsApart(a, []);
    RunAlone(a[TailStart(a)..]);
    assert a + [] == a && a[TailStart(a)..] + [] == a[TailStart(a)..];
  }

  lemma RunAlone(run: string)
    requires forall i :: 0 <= i < |run| ==> Writes(run[i])
    ensures WrittenNumbers(run) == AsNumber(Digits(run))
  {
    hide WrittenNumbers, Digits, IsSpace;
    StretchIs(run, |run|);
    HeadAndRest(run);
    assert run[..|run|] == run && run[|run|..] == [];
    NothingWritten();
  }

  // Across one gap every number stays within one side exactly when one side of the gap shows no digit,
  // or what the two sides make together is a number of one of them anyway.
  lemma WhenNumbersStayWhole(a: string, gap: string, b: string)
    requires IsGap(gap)
    ensures WrittenNumbers(a + gap + b) <= WrittenNumbers(a) + WrittenNumbers(b)
            <==> Tail(a) == [] || Head(b) == [] || Tail(a) + Head(b) in WrittenNumbers(a) + WrittenNumbers(b)
  {
    hide WrittenNumbers, Tail, Head, Before, Stretch, TailStart;
    AcrossGap(a, gap, b);
    TailAndRest(a);
    HeadAndRest(b);
    if Tail(a) == [] { assert Tail(a) + Head(b) == Head(b); }
    if Head(b) == [] { assert Tail(a) + Head(b) == Tail(a); }
  }

  lemma WholeIsAll(a: string, gap: string, b: string)
    requires IsGap(gap) && Head(b) == []
    ensures WrittenNumbers(a + gap + b) == WrittenNumbers(a) + WrittenNumbers(b)
  {
    hide WrittenNumbers, Tail, Before, Stretch, TailStart;
    AcrossGap(a, gap, b);
    TailAndRest(a);
    HeadAndRest(b);
    assert Tail(a) + Head(b) == Tail(a);
  }

  // ---- sections ----

  const BLANK_LINE: string := "\n\n"

  // No part after the first opens with digits.
  predicate LaterHeadsArePlain(parts: seq<string>) { forall i :: 1 <= i < |parts| ==> Head(parts[i]) == [] }

  ghost predicate OfSome(parts: seq<string>, number: string) {
    exists i :: 0 <= i < |parts| && number in WrittenNumbers(parts[i])
  }

  lemma {:induction false} HeadOfJoined(parts: seq<string>)
    requires forall i :: 0 <= i < |parts| ==> Head(parts[i]) == []
    ensures Head(Joined(parts, BLANK_LINE)) == []
  {
    hide Stretch, IsSpace;
    if |parts| > 1 {
      HeadOfJoined(parts[1..]);
      HeadOfTwo(parts[0], Joined(parts[1..], BLANK_LINE));
    }
  }

  lemma HeadOfTwo(a: string, b: string)
    requires Head(a) == [] && Head(b) == []
    ensures Head(a + BLANK_LINE + b) == []
  {
    hide Digits, IsSpace;
    var s := a + BLANK_LINE + b;
    var n := Stretch(a);
    if n < |a| {
      StretchIs(s, n);
      assert s[..n] == a[..n];
    } else {
      assert a[..n] == a;
      BlankLineIsGap();
      NoDigits(BLANK_LINE);
      DigitsConcat(a, BLANK_LINE);
      RunInto(a + BLANK_LINE, b);
    }
  }

  lemma BlankLineIsGap()
    ensures IsGap(BLANK_LINE)
  {
  }

  lemma {:induction false} NumbersOfJoined(parts: seq<string>)
    requires parts != [] && LaterHeadsArePlain(parts)
    ensures forall d :: d in WrittenNumbers(Joined(parts, BLANK_LINE)) <==> OfSome(parts, d)
  {
    hide WrittenNumbers, Head;
    if |parts| > 1 {
      var rest := parts[1..];
      NumbersOfJoined(rest);
      HeadOfJoined(rest);
      BlankLineIsGap();
      WholeIsAll(parts[0], BLANK_LINE, Joined(rest, BLANK_LINE));
      forall d
        ensures OfSome(parts, d) <==> d in WrittenNumbers(parts[0]) || OfSome(rest, d)
      {
        OfSomeSplit(parts, d);
      }
    }
  }

  lemma OfSomeSplit(parts: seq<string>, d: string)
    requires parts != []
    ensures OfSome(parts, d) <==> d in WrittenNumbers(parts[0]) || OfSome(parts[1..], d)
  {
    hide WrittenNumbers;
    if OfSome(parts[1..], d) {
      var i :| 0 <= i < |parts[1..]| && d in WrittenNumbers(parts[1..][i]);
      assert d in WrittenNumbers(parts[i + 1]);
    }
    if OfSome(parts, d) && d !in WrittenNumbers(parts[0]) {
      var i :| 0 <= i < |parts| && d in WrittenNumbers(parts[i]);
      assert parts[1..][i - 1] == parts[i];
    }
  }

  lemma {:induction false} TrimmedStart(s: string)
    ensures WrittenNumbers(TrimStart(s)) == WrittenNumbers(s)
  {
    hide WrittenNumbers;
    if s != [] && IsSpace(s[0]) {
      TrimmedStart(s[1..]);
      assert s[0..] == s && !IsDigit(s[0]);
      SkipOne(s, 0);
    }
  }

  lemma {:induction false} TrimmedEnd(s: string)
    ensures WrittenNumbers(TrimEnd(s)) == WrittenNumbers(s)
  {
    hide WrittenNumbers, Head, Tail;
    if s != [] && IsSpace(s[|s| - 1]) {
      var before, last := s[..|s| - 1], s[|s| - 1..];
      TrimmedEnd(before);
      assert !IsDigit(s[|s| - 1]) && IsGap(last);
      NoHead();
      WholeIsAll(before, last, []);
      assert before + last + [] == s;
      NothingWritten();
    }
  }

  lemma NoHead()
    ensures Head([]) == []
  {
  }

  // Where no slice of a business after its first opens with digits, that is unless its name does, the
  // numbers of its section are exactly those of single slices.
  lemma SectionKeepsNumbersWhole(rules: Rules, report: string, names: seq<string>, name: string)
    requires Section(rules, report, names, name).Some?
    requires var marks := Boundaries(report, rules.fold, names);
             var parts := Parts(report, marks, name, |marks|);
             LaterHeadsArePlain(parts)
    ensures var marks := Boundaries(report, rules.fold, names);
            var parts := Parts(report, marks, name, |marks|);
            forall d :: d in Section(rules, report, names, name).value.digits <==> OfSome(parts, d)
  {
    hide WrittenNumbers, Head, Boundaries, Parts, TrimStart, TrimEnd, MapChars, OfSome;
    var marks := Boundaries(report, rules.fold, names);
    var parts := Parts(report, marks, name, |marks|);
    var text := Joined(parts, BLANK_LINE);
    assert Section(rules, report, names, name) == if parts == [] then None else Some(AsBlock(rules, text));
    NumbersOfJoined(parts);
    TrimmedStart(text);
    TrimmedEnd(TrimStart(text));
  }

  // Then a kept telephone of the business is written in one unbroken stretch of one of its slices.
  lemma TelephoneIsInOneSlice(rules: Rules, report: string, countryCode: string, structure: seq<Business>,
                              kept: Business, c: Contact) returns (part: string)
    requires kept in VerifiedAll(EvidenceOf(rules, report, countryCode, structure), structure) && c in kept.contacts
    requires c.kind == BusinessTelephone
    requires var e := EvidenceOf(rules, report, countryCode, structure);
             var marks := Boundaries(report, rules.fold, e.names);
             var parts := Parts(report, marks, kept.name, |marks|);
             parts != [] && LaterHeadsArePlain(parts)
    ensures var e := EvidenceOf(rules, report, countryCode, structure);
            var marks := Boundaries(report, rules.fold, e.names);
            part in Parts(report, marks, kept.name, |marks|)
    ensures National(Digits(c.value)) in WrittenNumbers(part) || "48" + National(Digits(c.value)) in WrittenNumbers(part)
  {
    hide WrittenNumbers, Head, Boundaries, Parts, VerifiedAll, EvidenceOf, CitesUrl, AssignedPrefix, AsBlock, National;
    var e := EvidenceOf(rules, report, countryCode, structure);
    var marks := Boundaries(report, rules.fold, e.names);
    var parts := Parts(report, marks, kept.name, |marks|);
    EvidenceKeeps(rules, report, countryCode, structure);
    var block := ContactsAreWitnessed(rules, report, countryCode, structure, kept, c);
    SectionKeepsNumbersWhole(rules, report, e.names, kept.name);
    var national := National(Digits(c.value));
    var number := if national in block.digits then national else "48" + national;
    var i :| 0 <= i < |parts| && number in WrittenNumbers(parts[i]);
    part := parts[i];
  }

  // ---- a number two slices make together ----

  lemma {:induction false} DigitsOnly(s: string)
    requires forall i :: 0 <= i < |s| ==> IsDigit(s[i])
    ensures Digits(s) == s
  {
    if s != [] { DigitsOnly(s[1..]); }
  }

  // A slice that ends in eight digits and one that opens with a ninth: the section holds a number of
  // nine digits that neither slice does.
  lemma SlicesMakeNumber(a: string, b: string)
    requires |a| == 8 && |b| == 1 && forall i :: 0 <= i < 9 ==> IsDigit((a + b)[i])
    ensures a + b in WrittenNumbers(a + BLANK_LINE + b)
    ensures WrittenNumbers(a) == {a} && WrittenNumbers(b) == {}
    ensures !(WrittenNumbers(a + BLANK_LINE + b) <= WrittenNumbers(a) + WrittenNumbers(b))
  {
    hide WrittenNumbers, Digits, IsSpace;
    assert forall i :: 0 <= i < 8 ==> a[i] == (a + b)[i];
    assert b[0] == (a + b)[8];
    DigitsOnly(a);
    DigitsOnly(b);
    BlankLineIsGap();
    RunAlone(a);
    RunAlone(b);
    StretchIs(b, 1);
    assert b[..1] == b && TailStart(a) == 0 && a[0..] == a;
    AcrossGap(a, BLANK_LINE, b);
  }
}
