// Cutting a discovery report into the sections of the businesses it names.

module ReportSections {
  import opened Wrappers

  // Case mapping, character by character.
  function MapChars(f: char -> char, s: string): (r: string)
    ensures |r| == |s|
    ensures forall i :: 0 <= i < |s| ==> r[i] == f(s[i])
  {
    seq(|s|, i requires 0 <= i < |s| => f(s[i]))
  }

  predicate OccursAt(hay: string, needle: string, at: nat) {
    at + |needle| <= |hay| && hay[at..at + |needle|] == needle
  }

  // An occurrence of a business name in the report.
  datatype Mark = Mark(name: string, start: nat, length: nat) {
    function End(): nat { start + length }
  }

  // ---- what the scan finds ----

  function FirstFrom(hay: string, needle: string, at: nat): (r: Option<nat>)
    ensures r.Some? ==> r.value >= at && r.value + |needle| <= |hay| && OccursAt(hay, needle, r.value)
    ensures r.Some? ==> forall p :: at <= p < r.value ==> !OccursAt(hay, needle, p)
    ensures r.None? ==> forall p :: at <= p ==> !OccursAt(hay, needle, p)
    decreases |hay| - at
  {
    if at + |needle| > |hay| then None
    else if OccursAt(hay, needle, at) then Some(at)
    else FirstFrom(hay, needle, at + 1)
  }

  function Scan(hay: string, name: string, needle: string, at: nat): seq<Mark>
    requires needle != []
    decreases |hay| - at
  {
    match FirstFrom(hay, needle, at)
    case None => []
    case Some(p) => [Mark(name, p, |needle|)] + Scan(hay, name, needle, p + |needle|)
  }

  function ScanAll(hay: string, fold: char -> char, names: seq<string>): seq<Mark> {
    if names == [] then []
    else
      var last := names[|names| - 1];
      var earlier := ScanAll(hay, fold, names[..|names| - 1]);
      if last == [] then earlier else earlier + Scan(hay, last, MapChars(fold, last), 0)
  }

  // The distinct names, in the order they first appear.
  function Distinct<T(==)>(items: seq<T>): seq<T> {
    if items == [] then []
    else
      var earlier := Distinct(items[..|items| - 1]);
      var last := items[|items| - 1];
      if last in earlier then earlier else earlier + [last]
  }

  function Marks(report: string, fold: char -> char, names: seq<string>): seq<Mark> {
    ScanAll(MapChars(fold, report), fold, Distinct(names))
  }

  // ---- the order: by start, the longer first ----

  predicate Precedes(a: Mark, b: Mark) {
    a.start < b.start || (a.start == b.start && a.length > b.length)
  }

  function InsertMark(m: Mark, sorted: seq<Mark>): seq<Mark> {
    if sorted == [] || !Precedes(sorted[0], m) then [m] + sorted
    else [sorted[0]] + InsertMark(m, sorted[1..])
  }

  function SortMarks(marks: seq<Mark>): seq<Mark> {
    if marks == [] then [] else InsertMark(marks[0], SortMarks(marks[1..]))
  }

  // ---- the greedy pass that drops overlaps ----

  function Greedy(sorted: seq<Mark>, end: nat): seq<Mark> {
    if sorted == [] then []
    else if sorted[0].start < end then Greedy(sorted[1..], end)
    else [sorted[0]] + Greedy(sorted[1..], sorted[0].End())
  }

  function Boundaries(report: string, fold: char -> char, names: seq<string>): seq<Mark> {
    Greedy(SortMarks(Marks(report, fold, names)), 0)
  }

  // ---- the loops that compute them ----

  method IndexOf(hay: string, needle: string, from: nat) returns (at: Option<nat>)
    ensures at == FirstFrom(hay, needle, from)
  {
    var p := from;
    while p + |needle| <= |hay|
      invariant FirstFrom(hay, needle, from) == FirstFrom(hay, needle, p)
      decreases |hay| - p
    {
      if hay[p..p + |needle|] == needle { return Some(p); }
      p := p + 1;
    }
    return None;
  }

  method ScanName(hay: string, name: string, needle: string) returns (marks: seq<Mark>)
    requires needle != []
    ensures marks == Scan(hay, name, needle, 0)
  {
    hide FirstFrom, OccursAt;
    marks := [];
    var next := 0;
    var at := IndexOf(hay, needle, 0);
    while at.Some?
      invariant next <= |hay| && at == FirstFrom(hay, needle, next)
      invariant marks + Scan(hay, name, needle, next) == Scan(hay, name, needle, 0)
      decreases |hay| - next
    {
      ScanUnrolls(hay, name, needle, next, marks);
      marks := marks + [Mark(name, at.value, |needle|)];
      next := at.value + |needle|;
      at := IndexOf(hay, needle, next);
    }
  }

  lemma ScanUnrolls(hay: string, name: string, needle: string, next: nat, marks: seq<Mark>)
    requires needle != [] && FirstFrom(hay, needle, next).Some?
    ensures var p := FirstFrom(hay, needle, next).value;
            && next <= p && p + |needle| <= |hay|
            && marks + Scan(hay, name, needle, next)
               == marks + [Mark(name, p, |needle|)] + Scan(hay, name, needle, p + |needle|)
  {
    hide FirstFrom, OccursAt;
    var p := FirstFrom(hay, needle, next).value;
    assert Scan(hay, name, needle, next) == [Mark(name, p, |needle|)] + Scan(hay, name, needle, p + |needle|);
  }

  method DropOverlaps(sorted: seq<Mark>) returns (boundaries: seq<Mark>)
    ensures boundaries == Greedy(sorted, 0)
  {
    hide Greedy;
    boundaries := [];
    ghost var end := 0;
    assert sorted[0..] == sorted;
    for i := 0 to |sorted|
      invariant end == if boundaries == [] then 0 else boundaries[|boundaries| - 1].End()
      invariant boundaries + Greedy(sorted[i..], end) == Greedy(sorted, 0)
    {
      GreedyUnrolls(sorted, i, end, boundaries);
      if |boundaries| > 0 && sorted[i].start < boundaries[|boundaries| - 1].End() { continue; }
      boundaries := boundaries + [sorted[i]];
      end := sorted[i].End();
    }
    NothingLeft(sorted, end);
  }

  lemma GreedyUnrolls(sorted: seq<Mark>, i: nat, end: nat, kept: seq<Mark>)
    requires i < |sorted|
    ensures kept + Greedy(sorted[i..], end)
            == if sorted[i].start < end then kept + Greedy(sorted[i + 1..], end)
               else kept + [sorted[i]] + Greedy(sorted[i + 1..], sorted[i].End())
  {
    assert sorted[i..][1..] == sorted[i + 1..];
    assert kept + ([sorted[i]] + Greedy(sorted[i + 1..], sorted[i].End()))
        == kept + [sorted[i]] + Greedy(sorted[i + 1..], sorted[i].End());
  }

  lemma NothingLeft(sorted: seq<Mark>, end: nat)
    ensures Greedy(sorted[|sorted|..], end) == []
  {
  }

  method NameBoundaries(report: string, fold: char -> char, names: seq<string>) returns (boundaries: seq<Mark>)
    ensures boundaries == Boundaries(report, fold, names)
  {
    hide Scan, Greedy, SortMarks;
    var lowercased := MapChars(fold, report);
    var distinct := Distinct(names);
    var marks: seq<Mark> := [];
    for n := 0 to |distinct|
      invariant marks == ScanAll(lowercased, fold, distinct[..n])
    {
      var name := distinct[n];
      assert distinct[..n + 1][..n] == distinct[..n];
      var needle := MapChars(fold, name);
      if |needle| == 0 { continue; }
      var found := ScanName(lowercased, name, needle);
      marks := marks + found;
    }
    assert distinct[..|distinct|] == distinct;
    boundaries := DropOverlaps(SortMarks(marks));
  }

  // ---- scanning is sound and complete ----

  predicate IsOccurrence(hay: string, fold: char -> char, m: Mark) {
    m.length == |m.name| > 0 && OccursAt(hay, MapChars(fold, m.name), m.start)
  }

  predicate Covers(marks: seq<Mark>, name: string, p: nat) {
    exists m :: m in marks && m.name == name && m.start <= p < m.End()
  }

  lemma CoversMore(marks: seq<Mark>, before: seq<Mark>, after: seq<Mark>, name: string, p: nat)
    requires Covers(marks, name, p)
    ensures Covers(before + marks + after, name, p)
  {
    var m :| m in marks && m.name == name && m.start <= p < m.End();
    assert m in before + marks + after;
  }

  lemma {:induction false} ScanFindsOccurrences(hay: string, fold: char -> char, name: string, at: nat)
    requires name != []
    ensures forall m :: m in Scan(hay, name, MapChars(fold, name), at) ==> m.name == name && IsOccurrence(hay, fold, m)
    decreases |hay| - at
  {
    var needle := MapChars(fold, name);
    match FirstFrom(hay, needle, at)
    case None =>
    case Some(p) => ScanFindsOccurrences(hay, fold, name, p + |needle|);
  }

  // Every occurrence of the name starts inside some mark.
  lemma {:induction false} ScanMissesNone(hay: string, name: string, needle: string, at: nat, p: nat)
    requires needle != [] && p >= at && OccursAt(hay, needle, p)
    ensures Covers(Scan(hay, name, needle, at), name, p)
    decreases |hay| - at
  {
    var first := FirstFrom(hay, needle, at).value;
    var mark := Mark(name, first, |needle|);
    var rest := Scan(hay, name, needle, first + |needle|);
    assert Scan(hay, name, needle, at) == [mark] + rest;
    if p < first + |needle| {
      assert mark in [mark] + rest;
    } else {
      ScanMissesNone(hay, name, needle, first + |needle|, p);
      CoversMore(rest, [mark], [], name, p);
      assert [mark] + rest + [] == [mark] + rest;
    }
  }

  // Each mark is the first occurrence that starts where the one before it ended or later, and none
  // is left after the last.
  ghost predicate Leftmost(hay: string, name: string, needle: string, at: nat, marks: seq<Mark>)
    decreases |marks|
  {
    if marks == [] then forall p :: at <= p ==> !OccursAt(hay, needle, p)
    else
      var first := marks[0];
      && first.name == name && first.length == |needle| && first.start >= at && OccursAt(hay, needle, first.start)
      && (forall p :: at <= p < first.start ==> !OccursAt(hay, needle, p))
      && Leftmost(hay, name, needle, first.End(), marks[1..])
  }

  // The marks of a name are its leftmost occurrences that do not overlap.
  lemma {:induction false} ScanIsLeftmost(hay: string, name: string, needle: string, at: nat)
    requires needle != []
    ensures Leftmost(hay, name, needle, at, Scan(hay, name, needle, at))
    decreases |hay| - at
  {
    hide OccursAt;
    match FirstFrom(hay, needle, at)
    case None =>
    case Some(first) => ScanIsLeftmost(hay, name, needle, first + |needle|);
  }

  lemma {:induction false} ScanAllFindsOccurrences(hay: string, fold: char -> char, names: seq<string>)
    ensures forall m :: m in ScanAll(hay, fold, names) ==> m.name in names && IsOccurrence(hay, fold, m)
  {
    if names != [] {
      hide Scan, IsOccurrence;
      var last := names[|names| - 1];
      ScanAllFindsOccurrences(hay, fold, names[..|names| - 1]);
      if last != [] { ScanFindsOccurrences(hay, fold, last, 0); }
      assert forall n :: n in names[..|names| - 1] ==> n in names;
    }
  }

  lemma {:induction false} ScanAllMissesNone(hay: string, fold: char -> char, names: seq<string>, name: string, p: nat)
    requires name in names && name != [] && OccursAt(hay, MapChars(fold, name), p)
    ensures Covers(ScanAll(hay, fold, names), name, p)
  {
    hide Scan, Covers;
    var earlier := names[..|names| - 1];
    var last := names[|names| - 1];
    var before := ScanAll(hay, fold, earlier);
    var after := if last == [] then [] else Scan(hay, last, MapChars(fold, last), 0);
    assert ScanAll(hay, fold, names) == before + after;
    if name in earlier {
      ScanAllMissesNone(hay, fold, earlier, name, p);
      CoversMore(before, [], after, name, p);
      assert [] + before + after == before + after;
    } else {
      assert name == last;
      ScanMissesNone(hay, name, MapChars(fold, name), 0, p);
      CoversMore(after, before, [], name, p);
      assert before + after + [] == before + after;
    }
  }

  lemma {:induction false} DistinctKeeps<T>(items: seq<T>)
    ensures forall x :: x in Distinct(items) <==> x in items
    ensures forall i, j :: 0 <= i < j < |Distinct(items)| ==> Distinct(items)[i] != Distinct(items)[j]
  {
    if items != [] {
      DistinctKeeps(items[..|items| - 1]);
      assert forall x :: x in items <==> x in items[..|items| - 1] || x == items[|items| - 1];
    }
  }

  // ---- sorting is a stable sort ----

  predicate Ordered(marks: seq<Mark>) {
    forall i, j :: 0 <= i < j < |marks| ==> !Precedes(marks[j], marks[i])
  }

  // The marks with one start and length, in order.
  function SameKey(marks: seq<Mark>, start: nat, length: nat): seq<Mark> {
    if marks == [] then []
    else IfKey(marks[0], start, length) + SameKey(marks[1..], start, length)
  }

  function IfKey(m: Mark, start: nat, length: nat): seq<Mark> {
    if m.start == start && m.length == length then [m] else []
  }

  lemma OrderedCons(m: Mark, marks: seq<Mark>)
    requires Ordered(marks) && forall x :: x in marks ==> !Precedes(x, m)
    ensures Ordered([m] + marks)
  {
  }

  lemma {:induction false} InsertMarkMembers(m: Mark, sorted: seq<Mark>)
    ensures multiset(InsertMark(m, sorted)) == multiset{m} + multiset(sorted)
    ensures forall x :: x in InsertMark(m, sorted) ==> x == m || x in sorted
  {
    if sorted != [] && Precedes(sorted[0], m) {
      InsertMarkMembers(m, sorted[1..]);
      assert sorted == [sorted[0]] + sorted[1..];
    }
  }

  lemma {:induction false} InsertMarkSorts(m: Mark, sorted: seq<Mark>)
    requires Ordered(sorted)
    ensures Ordered(InsertMark(m, sorted))
  {
    if sorted == [] {
    } else if !Precedes(sorted[0], m) {
      OrderedHead(sorted);
      OrderedCons(m, sorted);
    } else {
      InsertMarkSorts(m, sorted[1..]);
      InsertMarkMembers(m, sorted[1..]);
      OrderedHead(sorted);
      OrderedCons(sorted[0], InsertMark(m, sorted[1..]));
    }
  }

  lemma OrderedHead(sorted: seq<Mark>)
    requires Ordered(sorted) && sorted != []
    ensures Ordered(sorted[1..])
    ensures forall x :: x in sorted ==> !Precedes(x, sorted[0])
  {
  }

  lemma {:induction false} InsertMarkKeepsOrder(m: Mark, sorted: seq<Mark>, start: nat, length: nat)
    ensures SameKey(InsertMark(m, sorted), start, length) == IfKey(m, start, length) + SameKey(sorted, start, length)
  {
    if sorted == [] || !Precedes(sorted[0], m) {
      SameKeyCons(m, sorted, start, length);
    } else {
      InsertMarkKeepsOrder(m, sorted[1..], start, length);
      SameKeyCons(sorted[0], InsertMark(m, sorted[1..]), start, length);
      assert IfKey(m, start, length) == [] || IfKey(sorted[0], start, length) == [];
    }
  }

  lemma SameKeyCons(m: Mark, marks: seq<Mark>, start: nat, length: nat)
    ensures SameKey([m] + marks, start, length) == IfKey(m, start, length) + SameKey(marks, start, length)
  {
    assert ([m] + marks)[1..] == marks;
  }

  lemma {:induction false} SortSorts(marks: seq<Mark>)
    ensures Ordered(SortMarks(marks))
    ensures multiset(SortMarks(marks)) == multiset(marks)
  {
    if marks != [] {
      SortSorts(marks[1..]);
      InsertMarkSorts(marks[0], SortMarks(marks[1..]));
      InsertMarkMembers(marks[0], SortMarks(marks[1..]));
      assert marks == [marks[0]] + marks[1..];
    }
  }

  // Marks that compare equal keep the order they were scanned in.
  lemma {:induction false} SortIsStable(marks: seq<Mark>, start: nat, length: nat)
    ensures SameKey(SortMarks(marks), start, length) == SameKey(marks, start, length)
  {
    if marks != [] {
      SortIsStable(marks[1..], start, length);
      InsertMarkKeepsOrder(marks[0], SortMarks(marks[1..]), start, length);
    }
  }

  // ---- the greedy pass ----

  predicate Separated(marks: seq<Mark>) {
    forall i :: 0 <= i < |marks| - 1 ==> marks[i].End() <= marks[i + 1].start
  }

  function Next(sorted: seq<Mark>, end: nat): nat
    requires sorted != []
  {
    if sorted[0].start < end then end else sorted[0].End()
  }

  lemma {:induction false} GreedySeparates(sorted: seq<Mark>, end: nat)
    ensures Separated(Greedy(sorted, end))
    ensures forall b :: b in Greedy(sorted, end) ==> b in sorted && b.start >= end
    ensures Greedy(sorted, end) != [] ==> Greedy(sorted, end)[0].start >= end
  {
    if sorted != [] {
      var rest := Greedy(sorted[1..], Next(sorted, end));
      GreedySeparates(sorted[1..], Next(sorted, end));
      assert forall b :: b in sorted[1..] ==> b in sorted;
      if sorted[0].start >= end {
        var kept := [sorted[0]] + rest;
        forall i | 0 <= i < |kept| - 1
          ensures kept[i].End() <= kept[i + 1].start
        {
          assert kept[i + 1] == rest[i];
          if i > 0 { assert kept[i] == rest[i - 1] && rest[i - 1].End() <= rest[i - 1 + 1].start; }
        }
      }
    }
  }

  // A dropped mark starts inside a kept one.
  lemma {:induction false} GreedyAccountsFor(sorted: seq<Mark>, end: nat, m: Mark)
    requires m in sorted && m.start >= end && forall i, j :: 0 <= i < j < |sorted| ==> sorted[i].start <= sorted[j].start
    ensures m in Greedy(sorted, end) || exists b :: b in Greedy(sorted, end) && b.start <= m.start < b.End()
  {
    var first := sorted[0];
    var kept := Greedy(sorted, end);
    var rest := Greedy(sorted[1..], Next(sorted, end));
    if first.start >= end && m.start < first.End() {
      assert first in kept;
    } else if m != first {
      assert m in sorted[1..];
      GreedyAccountsFor(sorted[1..], Next(sorted, end), m);
      assert forall b :: b in rest ==> b in kept;
    }
  }

  // Where several marks start together, the kept one is the longest.
  lemma {:induction false} GreedyKeepsLongest(sorted: seq<Mark>, end: nat, b: Mark, m: Mark)
    requires Ordered(sorted) && (forall x :: x in sorted ==> x.length > 0)
    requires b in Greedy(sorted, end) && m in sorted && m.start == b.start
    ensures m.length <= b.length
  {
    var first := sorted[0];
    GreedySeparates(sorted, end);
    GreedySeparates(sorted[1..], Next(sorted, end));
    assert forall x :: x in sorted <==> x == first || x in sorted[1..];
    if b in Greedy(sorted[1..], Next(sorted, end)) {
      assert m in sorted[1..] || m == first;
      if m in sorted[1..] { GreedyKeepsLongest(sorted[1..], Next(sorted, end), b, m); }
    } else {
      assert b == first;
      if m != first { assert !Precedes(m, first); }
    }
  }

  // Where several marks are equal in start and length, the kept one is the first of them.
  lemma {:induction false} GreedyKeepsFirst(sorted: seq<Mark>, end: nat, b: Mark)
    requires (forall x :: x in sorted ==> x.length > 0) && b in Greedy(sorted, end)
    ensures SameKey(sorted, b.start, b.length) != [] && SameKey(sorted, b.start, b.length)[0] == b
  {
    var first := sorted[0];
    GreedySeparates(sorted[1..], Next(sorted, end));
    if b in Greedy(sorted[1..], Next(sorted, end)) {
      GreedyKeepsFirst(sorted[1..], Next(sorted, end), b);
    } else {
      assert b == first;
    }
  }

  // ---- what the boundaries of a report are ----

  // True occurrences of the given names, in order and disjoint; among the marks at one start the
  // longest was kept, and among equal ones the name given first.
  lemma BoundariesAreSound(report: string, fold: char -> char, names: seq<string>)
    ensures var kept := Boundaries(report, fold, names);
            var marks := Marks(report, fold, names);
            && Separated(kept)
            && (forall b :: b in kept ==> b in marks && b.name in names && IsOccurrence(MapChars(fold, report), fold, b))
            && (forall b, m :: b in kept && m in marks && m.start == b.start ==> m.length <= b.length)
            && (forall b :: b in kept ==>
                  SameKey(marks, b.start, b.length) != [] && SameKey(marks, b.start, b.length)[0] == b)
  {
    hide ScanAll, Greedy, SortMarks, IsOccurrence;
    var marks := Marks(report, fold, names);
    ScanAllFindsOccurrences(MapChars(fold, report), fold, Distinct(names));
    DistinctKeeps(names);
    SortSorts(marks);
    SortedMembers(marks);
    OccurrencesAreLong(report, fold, marks);
    var sorted := SortMarks(marks);
    GreedySeparates(sorted, 0);
    forall b | b in Greedy(sorted, 0)
      ensures SameKey(marks, b.start, b.length) != [] && SameKey(marks, b.start, b.length)[0] == b
    {
      SortIsStable(marks, b.start, b.length);
      GreedyKeepsFirst(sorted, 0, b);
    }
    forall b, m | b in Greedy(sorted, 0) && m in marks && m.start == b.start
      ensures m.length <= b.length
    {
      GreedyKeepsLongest(sorted, 0, b, m);
    }
  }

  lemma SortedMembers(marks: seq<Mark>)
    ensures forall m :: m in SortMarks(marks) <==> m in marks
  {
    hide SortMarks;
    SortSorts(marks);
    var sorted := SortMarks(marks);
    forall m
      ensures m in sorted <==> m in marks
    {
      assert m in multiset(sorted) <==> m in multiset(marks);
    }
  }

  lemma OccurrencesAreLong(report: string, fold: char -> char, marks: seq<Mark>)
    requires forall m :: m in marks ==> IsOccurrence(MapChars(fold, report), fold, m)
    ensures forall m :: m in marks ==> m.length > 0
  {
  }

  // Nothing named is lost: every occurrence of a name starts inside a scanned mark of that name,
  // and every scanned mark was kept or starts inside one that was.
  lemma BoundariesMissNone(report: string, fold: char -> char, names: seq<string>, name: string, p: nat)
    returns (m: Mark)
    requires name in names && name != [] && OccursAt(MapChars(fold, report), MapChars(fold, name), p)
    ensures m in Marks(report, fold, names) && m.name == name && m.start <= p < m.End()
    ensures m in Boundaries(report, fold, names)
            || exists b :: b in Boundaries(report, fold, names) && b.start <= m.start < b.End()
  {
    hide ScanAll, Greedy, SortMarks, IsOccurrence;
    var marks := Marks(report, fold, names);
    DistinctKeeps(names);
    ScanAllMissesNone(MapChars(fold, report), fold, Distinct(names), name, p);
    m :| m in marks && m.name == name && m.start <= p < m.End();
    SortSorts(marks);
    SortedMembers(marks);
    GreedyAccountsFor(SortMarks(marks), 0, m);
  }

  // ---- sections ----

  ghost predicate Cuts(report: string, marks: seq<Mark>) {
    Separated(marks) && forall m :: m in marks ==> 0 < m.length && m.End() <= |report|
  }

  lemma BoundariesCut(report: string, fold: char -> char, names: seq<string>)
    ensures Cuts(report, Boundaries(report, fold, names))
  {
    hide Boundaries, Marks, SameKey;
    BoundariesAreSound(report, fold, names);
  }

  // From one boundary up to the next, or to the end of the report.
  function Slice(report: string, marks: seq<Mark>, i: nat): string
    requires i < |marks|
  {
    var end := SliceEnd(report, marks, i);
    if marks[i].start <= end <= |report| then report[marks[i].start..end] else []
  }

  function SliceEnd(report: string, marks: seq<Mark>, i: nat): nat
    requires i < |marks|
  {
    if i + 1 < |marks| then marks[i + 1].start else |report|
  }

  lemma CutsInOrder(report: string, marks: seq<Mark>, i: nat)
    requires Cuts(report, marks) && i < |marks|
    ensures marks[i].start < marks[i].End() <= SliceEnd(report, marks, i) <= |report|
  {
    assert marks[i] in marks;
    if i + 1 < |marks| { assert marks[i + 1] in marks && marks[i].End() <= marks[i + 1].start; }
  }

  function Slices(report: string, marks: seq<Mark>, n: nat): seq<string>
    requires n <= |marks|
  {
    if n == 0 then [] else Slices(report, marks, n - 1) + [Slice(report, marks, n - 1)]
  }

  function Concat(parts: seq<string>): string {
    if parts == [] then [] else Concat(parts[..|parts| - 1]) + parts[|parts| - 1]
  }

  // The slices, in order, are the whole report from the first boundary on, and each begins with
  // its own name.
  lemma {:induction false} SlicesCover(report: string, marks: seq<Mark>, n: nat)
    requires Cuts(report, marks) && 0 < n <= |marks|
    ensures marks[0].start <= SliceEnd(report, marks, n - 1) <= |report|
    ensures Concat(Slices(report, marks, n)) == report[marks[0].start..SliceEnd(report, marks, n - 1)]
  {
    hide Cuts;
    CutsInOrder(report, marks, n - 1);
    var slices := Slices(report, marks, n);
    assert slices[..|slices| - 1] == Slices(report, marks, n - 1);
    if n > 1 {
      SlicesCover(report, marks, n - 1);
    }
  }

  lemma SliceBeginsWithName(report: string, fold: char -> char, names: seq<string>, i: nat)
    requires i < |Boundaries(report, fold, names)|
    ensures var marks := Boundaries(report, fold, names);
            MapChars(fold, marks[i].name) <= MapChars(fold, Slice(report, marks, i))
  {
    hide Boundaries, Marks, SameKey;
    var marks := Boundaries(report, fold, names);
    BoundariesAreSound(report, fold, names);
    BoundariesCut(report, fold, names);
    CutsInOrder(report, marks, i);
    assert marks[i] in marks;
    var slice := Slice(report, marks, i);
    assert MapChars(fold, slice) == MapChars(fold, report)[marks[i].start..marks[i].start + |slice|];
    assert MapChars(fold, slice)[..marks[i].length] == MapChars(fold, report)[marks[i].start..marks[i].End()];
  }

  // The slices of one name among the first n boundaries.
  function Parts(report: string, marks: seq<Mark>, name: string, n: nat): seq<string>
    requires n <= |marks|
  {
    if n == 0 then []
    else
      Parts(report, marks, name, n - 1)
      + (if marks[n - 1].name == name then [Slice(report, marks, n - 1)] else [])
  }

  predicate Bounds(marks: seq<Mark>, n: nat, name: string)
    requires n <= |marks|
  {
    exists i :: 0 <= i < n && marks[i].name == name
  }

  // A name has a section exactly when it has a boundary.
  lemma {:induction false} PartsExist(report: string, marks: seq<Mark>, name: string, n: nat)
    requires n <= |marks|
    ensures Parts(report, marks, name, n) != [] <==> Bounds(marks, n, name)
  {
    hide Slice;
    if n > 0 {
      PartsExist(report, marks, name, n - 1);
      if marks[n - 1].name == name {
        assert Bounds(marks, n, name);
      }
    }
  }

  // Every part of a name's section is a slice that starts at an occurrence of that name.
  lemma {:induction false} PartsAreOwn(report: string, marks: seq<Mark>, name: string, n: nat, part: string)
    returns (i: nat)
    requires n <= |marks| && part in Parts(report, marks, name, n)
    ensures i < n && marks[i].name == name && part == Slice(report, marks, i)
  {
    hide Slice;
    if part in Parts(report, marks, name, n - 1) {
      i := PartsAreOwn(report, marks, name, n - 1, part);
    } else {
      i := n - 1;
    }
  }

  ghost predicate Gathered(report: string, marks: seq<Mark>, n: nat, chunks: map<string, seq<string>>)
    requires n <= |marks|
  {
    forall name ::
      if Parts(report, marks, name, n) == [] then name !in chunks
      else name in chunks && chunks[name] == Parts(report, marks, name, n)
  }

  lemma GatherOne(report: string, marks: seq<Mark>, i: nat, chunks: map<string, seq<string>>)
    requires i < |marks| && Gathered(report, marks, i, chunks)
    ensures var name := marks[i].name;
            Gathered(report, marks, i + 1,
                     chunks[name := (if name in chunks then chunks[name] else []) + [Slice(report, marks, i)]])
  {
    hide Slice;
  }

  // The chunks of every name, gathered boundary by boundary.
  method GatherChunks(report: string, marks: seq<Mark>) returns (chunks: map<string, seq<string>>)
    ensures Gathered(report, marks, |marks|, chunks)
  {
    hide Slice, Gathered;
    chunks := map[];
    NothingGathered(report, marks);
    for i := 0 to |marks|
      invariant Gathered(report, marks, i, chunks)
    {
      GatherOne(report, marks, i, chunks);
      var name := marks[i].name;
      var held := if name in chunks then chunks[name] else [];
      chunks := chunks[name := held + [Slice(report, marks, i)]];
    }
  }

  lemma NothingGathered(report: string, marks: seq<Mark>)
    ensures Gathered(report, marks, 0, map[])
  {
  }
}
