// The CSV export, and a reader of the format of RFC 4180, section 2, that gets every cell back.

module CandidateExport {
  import opened Wrappers
  import opened Text
  import A = Attribution

  // A candidate's cells; what is not text in the source is here as its JSON text.
  datatype Exported = Exported(
    business: string,
    locality: string,
    score: string,
    rubricVersion: string,
    assessmentTimestamp: string,
    reviewStatus: string,
    scoreBreakdown: string,
    evidenceLinks: string,
    contactRoutes: string)

  const HEADER: seq<string> := [
    "business", "locality", "score", "rubricVersion", "assessmentTimestamp", "reviewStatus", "scoreBreakdown",
    "evidenceLinks", "contactRoutes"]

  const CRLF: string := "\r\n"

  function Cells(item: Exported): (cells: seq<string>)
    ensures |cells| == 9
  {
    [item.business, item.locality, item.score, item.rubricVersion, item.assessmentTimestamp, item.reviewStatus,
     item.scoreBreakdown, item.evidenceLinks, item.contactRoutes]
  }

  // ---- printing ----

  predicate StartsFormula(c: char) { c == '=' || c == '+' || c == '-' || c == '@' }

  // Blanks and then a character a spreadsheet would evaluate.
  predicate FormulaLike(raw: string) {
    raw != [] && (StartsFormula(raw[0]) || (A.IsSpace(raw[0]) && FormulaLike(raw[1..])))
  }

  function Guard(raw: string): string { if FormulaLike(raw) then "'" + raw else raw }

  function Doubled(text: string): string {
    if text == [] then []
    else if text[0] == '"' then "\"\"" + Doubled(text[1..])
    else [text[0]] + Doubled(text[1..])
  }

  function Csv(raw: string): string { "\"" + Doubled(Guard(raw)) + "\"" }

  function Each(f: string -> string, texts: seq<string>): (out: seq<string>)
    ensures |out| == |texts| && forall k :: 0 <= k < |texts| ==> out[k] == f(texts[k])
  {
    if texts == [] then [] else [f(texts[0])] + Each(f, texts[1..])
  }

  function Row(cells: seq<string>): string { Joined(Each(Csv, cells), ",") }

  function Rows(data: seq<Exported>): seq<string> {
    if data == [] then [] else [Row(Cells(data[0]))] + Rows(data[1..])
  }

  function ToCsv(data: seq<Exported>): string { Joined([Joined(HEADER, ",")] + Rows(data), CRLF) }

  // ---- reading ----

  // What follows an opening quote: the text up to the closing quote, and the rest.
  function ReadQuoted(s: string): (r: Option<(string, string)>)
    ensures r.Some? ==> |r.value.1| < |s|
  {
    if s == [] then None
    else if s[0] == '"' && (|s| == 1 || s[1] != '"') then Some(([], s[1..]))
    else
      var next := if s[0] == '"' then s[2..] else s[1..];
      match ReadQuoted(next)
      case None => None
      case Some((text, rest)) => Some(([s[0]] + text, rest))
  }

  predicate IsTextData(c: char) { c != '"' && c != ',' && c != '\r' && c != '\n' }

  function ReadPlain(s: string): (r: (string, string))
    ensures |r.1| <= |s|
  {
    if s == [] || !IsTextData(s[0]) then ([], s)
    else
      var (text, rest) := ReadPlain(s[1..]);
      ([s[0]] + text, rest)
  }

  function ReadField(s: string): (r: Option<(string, string)>)
    ensures r.Some? ==> |r.value.1| <= |s|
  {
    if s != [] && s[0] == '"' then ReadQuoted(s[1..]) else Some(ReadPlain(s))
  }

  function ReadRecord(s: string): (r: Option<(seq<string>, string)>)
    ensures r.Some? ==> |r.value.1| <= |s|
    decreases |s|
  {
    match ReadField(s)
    case None => None
    case Some((field, rest)) =>
      if rest == [] || rest[0] != ',' then Some(([field], rest))
      else
        match ReadRecord(rest[1..])
        case None => None
        case Some((fields, left)) => Some(([field] + fields, left))
  }

  // Records end with a line break; the last one may or may not.
  function ReadFile(s: string): Option<seq<seq<string>>>
    decreases |s|
  {
    match ReadRecord(s)
    case None => None
    case Some((fields, rest)) =>
      if rest == [] || rest == CRLF then Some([fields])
      else if !(CRLF <= rest) then None
      else
        match ReadFile(rest[2..])
        case None => None
        case Some(records) => Some([fields] + records)
  }

  // ---- the round trip ----

  lemma {:induction false} QuotedReadsBack(text: string, rest: string)
    requires rest == [] || rest[0] != '"'
    ensures ReadQuoted(Doubled(text) + "\"" + rest) == Some((text, rest))
  {
    if text == [] {
      var s := "\"" + rest;
      assert Doubled(text) + "\"" + rest == s;
      assert s[1..] == rest;
    } else {
      var tail := Doubled(text[1..]) + "\"" + rest;
      QuotedReadsBack(text[1..], rest);
      assert text == [text[0]] + text[1..];
      assert Doubled(text) + "\"" + rest == (if text[0] == '"' then "\"\"" else [text[0]]) + tail;
      ReadQuotedStep(text[0], tail);
    }
  }

  lemma ReadQuotedStep(c: char, tail: string)
    requires ReadQuoted(tail).Some?
    ensures ReadQuoted((if c == '"' then "\"\"" else [c]) + tail)
            == Some(([c] + ReadQuoted(tail).value.0, ReadQuoted(tail).value.1))
  {
    var s := (if c == '"' then "\"\"" else [c]) + tail;
    assert if c == '"' then s[2..] == tail else s[1..] == tail;
  }

  lemma {:induction false} PlainReadsBack(text: string, rest: string)
    requires (forall k :: 0 <= k < |text| ==> IsTextData(text[k])) && (rest == [] || !IsTextData(rest[0]))
    ensures ReadPlain(text + rest) == (text, rest)
  {
    if text == [] {
      assert text + rest == rest;
    } else {
      PlainReadsBack(text[1..], rest);
      assert text + rest == [text[0]] + (text[1..] + rest);
      assert (text + rest)[1..] == text[1..] + rest;
      assert text == [text[0]] + text[1..];
    }
  }

  // A printed field and the text it reads back as.
  ghost predicate ReadsAs(printed: string, text: string) {
    forall rest: string :: (rest == [] || rest[0] == ',' || rest[0] == '\r') ==>
      ReadField(printed + rest) == Some((text, rest))
  }

  lemma CellReadsBack(raw: string)
    ensures ReadsAs(Csv(raw), Guard(raw))
  {
    hide Guard, Doubled, ReadQuoted;
    forall rest: string | rest == [] || rest[0] == ',' || rest[0] == '\r'
      ensures ReadField(Csv(raw) + rest) == Some((Guard(raw), rest))
    {
      QuotedReadsBack(Guard(raw), rest);
      assert (Csv(raw) + rest)[1..] == Doubled(Guard(raw)) + "\"" + rest;
    }
  }

  lemma NameReadsBack(name: string)
    requires forall k :: 0 <= k < |name| ==> IsTextData(name[k])
    ensures ReadsAs(name, name)
  {
    hide ReadPlain;
    forall rest: string | rest == [] || rest[0] == ',' || rest[0] == '\r'
      ensures ReadField(name + rest) == Some((name, rest))
    {
      PlainReadsBack(name, rest);
    }
  }

  lemma {:induction false} RecordReadsBack(printed: seq<string>, texts: seq<string>, rest: string)
    requires |printed| == |texts| && printed != [] && (rest == [] || rest[0] == '\r')
    requires forall k :: 0 <= k < |texts| ==> ReadsAs(printed[k], texts[k])
    ensures ReadRecord(Joined(printed, ",") + rest) == Some((texts, rest))
  {
    hide ReadField;
    var s := Joined(printed, ",") + rest;
    assert ReadsAs(printed[0], texts[0]);
    if |printed| == 1 {
      assert ReadField(s) == Some((texts[0], rest));
      assert texts == [texts[0]];
    } else {
      var left := "," + Joined(printed[1..], ",") + rest;
      assert s == printed[0] + left;
      assert ReadField(s) == Some((texts[0], left));
      assert left[1..] == Joined(printed[1..], ",") + rest;
      RecordReadsBack(printed[1..], texts[1..], rest);
      assert texts == [texts[0]] + texts[1..];
    }
  }

  function GuardedCells(data: seq<Exported>): (rows: seq<seq<string>>)
    ensures |rows| == |data| && forall k :: 0 <= k < |data| ==> rows[k] == Each(Guard, Cells(data[k]))
  {
    if data == [] then [] else [Each(Guard, Cells(data[0]))] + GuardedCells(data[1..])
  }

  lemma RowReadsBack(cells: seq<string>, rest: string)
    requires cells != [] && (rest == [] || rest[0] == '\r')
    ensures ReadRecord(Row(cells) + rest) == Some((Each(Guard, cells), rest))
  {
    hide Csv, Guard, Each, ReadsAs;
    forall k | 0 <= k < |cells|
      ensures ReadsAs(Each(Csv, cells)[k], Each(Guard, cells)[k])
    {
      CellReadsBack(cells[k]);
    }
    RecordReadsBack(Each(Csv, cells), Each(Guard, cells), rest);
  }

  lemma HeaderReadsBack(rest: string)
    requires rest == [] || rest[0] == '\r'
    ensures ReadRecord(Joined(HEADER, ",") + rest) == Some((HEADER, rest))
  {
    hide ReadsAs;
    forall k | 0 <= k < |HEADER|
      ensures ReadsAs(HEADER[k], HEADER[k])
    {
      NameReadsBack(HEADER[k]);
    }
    RecordReadsBack(HEADER, HEADER, rest);
  }

  // A record followed by lines that read back reads back with them.
  lemma FileStep(first: string, fields: seq<string>, lines: seq<string>, records: seq<seq<string>>)
    requires forall rest: string :: (rest == [] || rest[0] == '\r') ==> ReadRecord(first + rest) == Some((fields, rest))
    requires lines != [] ==> Joined(lines, CRLF) != [] && ReadFile(Joined(lines, CRLF)) == Some(records)
    requires lines == [] ==> records == []
    ensures ReadFile(Joined([first] + lines, CRLF)) == Some([fields] + records)
  {
    hide ReadRecord;
    var s := Joined([first] + lines, CRLF);
    if lines == [] {
      var end: string := "";
      assert [first] + lines == [first] && s == first && first + end == first;
      assert ReadRecord(first + end) == Some((fields, end));
      assert [fields] + records == [fields];
    } else {
      var left := CRLF + Joined(lines, CRLF);
      assert ([first] + lines)[1..] == lines;
      assert s == first + left;
      assert left[2..] == Joined(lines, CRLF);
    }
  }

  lemma RowIsNotEmpty(cells: seq<string>, more: seq<string>)
    requires cells != []
    ensures Joined([Row(cells)] + more, CRLF) != []
  {
    hide Doubled, Guard;
    var printed := Each(Csv, cells);
    assert |printed[0]| >= 2;
    assert Row(cells) != [];
  }

  lemma {:induction false} RowsReadBack(data: seq<Exported>)
    requires data != []
    ensures Joined(Rows(data), CRLF) != [] && ReadFile(Joined(Rows(data), CRLF)) == Some(GuardedCells(data))
  {
    hide ReadFile, ReadRecord, Row, Each, Joined;
    var cells := Cells(data[0]);
    if |data| > 1 { RowsReadBack(data[1..]); }
    forall rest: string | rest == [] || rest[0] == '\r'
      ensures ReadRecord(Row(cells) + rest) == Some((Each(Guard, cells), rest))
    {
      RowReadsBack(cells, rest);
    }
    RowIsNotEmpty(cells, Rows(data[1..]));
    FileStep(Row(cells), Each(Guard, cells), Rows(data[1..]), GuardedCells(data[1..]));
  }

  // Whatever quotes, commas and line breaks the cells hold, the export reads back as the header and
  // exactly the guarded cells.
  lemma ExportReadsBack(data: seq<Exported>)
    ensures ReadFile(ToCsv(data)) == Some([HEADER] + GuardedCells(data))
  {
    hide ReadFile, ReadRecord, Row, Joined;
    forall rest: string | rest == [] || rest[0] == '\r'
      ensures ReadRecord(Joined(HEADER, ",") + rest) == Some((HEADER, rest))
    {
      HeaderReadsBack(rest);
    }
    if data != [] { RowsReadBack(data); }
    FileStep(Joined(HEADER, ","), HEADER, Rows(data), GuardedCells(data));
  }

  // The column of a name in the header a reader got.
  ghost predicate Under(records: seq<seq<string>>, name: string, row: nat, cell: string)
    requires 0 < |records| && row < |records|
  {
    exists k :: 0 <= k < |records[0]| && records[0][k] == name && k < |records[row]| && records[row][k] == cell
  }

  // A reader who looks a candidate up by the names in the header finds, under each of the nine, that
  // property of the candidate and nothing else, guarded.
  lemma ColumnsAreNamed(data: seq<Exported>, i: nat, name: string, cell: string)
    requires i < |data|
    ensures ReadFile(ToCsv(data)).Some? && |ReadFile(ToCsv(data)).value| == |data| + 1
    ensures Under(ReadFile(ToCsv(data)).value, name, i + 1, cell)
            <==> || (name == "business" && cell == Guard(data[i].business))
                 || (name == "locality" && cell == Guard(data[i].locality))
                 || (name == "score" && cell == Guard(data[i].score))
                 || (name == "rubricVersion" && cell == Guard(data[i].rubricVersion))
                 || (name == "assessmentTimestamp" && cell == Guard(data[i].assessmentTimestamp))
                 || (name == "reviewStatus" && cell == Guard(data[i].reviewStatus))
                 || (name == "scoreBreakdown" && cell == Guard(data[i].scoreBreakdown))
                 || (name == "evidenceLinks" && cell == Guard(data[i].evidenceLinks))
                 || (name == "contactRoutes" && cell == Guard(data[i].contactRoutes))
  {
    hide ReadFile, ToCsv, Guard, FormulaLike, Under;
    ExportReadsBack(data);
    var records := ReadFile(ToCsv(data)).value;
    assert records[0] == HEADER && records[i + 1] == Each(Guard, Cells(data[i]));
    NineColumns(records, name, i + 1, cell);
    NamedCells(data[i], name, cell);
  }

  // Some of nine is one of them.
  predicate Nine(names: seq<string>, cells: seq<string>, name: string, cell: string)
    requires |names| == |cells| == 9
  {
    || (names[0] == name && cells[0] == cell) || (names[1] == name && cells[1] == cell)
    || (names[2] == name && cells[2] == cell) || (names[3] == name && cells[3] == cell)
    || (names[4] == name && cells[4] == cell) || (names[5] == name && cells[5] == cell)
    || (names[6] == name && cells[6] == cell) || (names[7] == name && cells[7] == cell)
    || (names[8] == name && cells[8] == cell)
  }

  lemma NineColumns(records: seq<seq<string>>, name: string, row: nat, cell: string)
    requires row < |records| && |records[0]| == |records[row]| == 9
    ensures Under(records, name, row, cell) <==> Nine(records[0], records[row], name, cell)
  {
  }

  lemma NamedCells(item: Exported, name: string, cell: string)
    ensures Nine(HEADER, Each(Guard, Cells(item)), name, cell)
            <==> || (name == "business" && cell == Guard(item.business))
                 || (name == "locality" && cell == Guard(item.locality))
                 || (name == "score" && cell == Guard(item.score))
                 || (name == "rubricVersion" && cell == Guard(item.rubricVersion))
                 || (name == "assessmentTimestamp" && cell == Guard(item.assessmentTimestamp))
                 || (name == "reviewStatus" && cell == Guard(item.reviewStatus))
                 || (name == "scoreBreakdown" && cell == Guard(item.scoreBreakdown))
                 || (name == "evidenceLinks" && cell == Guard(item.evidenceLinks))
                 || (name == "contactRoutes" && cell == Guard(item.contactRoutes))
  {
    hide Guard, FormulaLike, Each;
  }

  // ---- the guard ----

  // What is guarded: an equals, plus, minus or at sign with nothing but blanks before it.
  lemma {:induction false} FormulasMean(raw: string)
    ensures FormulaLike(raw) <==> exists i :: 0 <= i < |raw| && raw[i] in "=+-@" && forall j :: 0 <= j < i ==> A.IsSpace(raw[j])
    ensures Guard(raw) == raw || Guard(raw) == "'" + raw
  {
    hide A.IsSpace;
    if raw != [] {
      var rest := raw[1..];
      FormulasMean(rest);
      if i :| 0 <= i < |raw| && raw[i] in "=+-@" && forall j :: 0 <= j < i ==> A.IsSpace(raw[j]) {
        if i > 0 {
          assert rest[i - 1] == raw[i] && forall j :: 0 <= j < i - 1 ==> rest[j] == raw[j + 1];
        }
      }
      if A.IsSpace(raw[0]) && FormulaLike(rest) {
        var i :| 0 <= i < |rest| && rest[i] in "=+-@" && forall j :: 0 <= j < i ==> A.IsSpace(rest[j]);
        assert raw[i + 1] == rest[i] && forall j :: 0 < j < i + 1 ==> raw[j] == rest[j - 1];
      }
      assert StartsFormula(raw[0]) <==> raw[0] in "=+-@";
    }
  }

  lemma GuardIsSafe(raw: string)
    ensures !FormulaLike(Guard(raw))
  {
  }

  // No cell of a data record, as a reader gets it, would be evaluated.
  lemma NoCellIsAFormula(data: seq<Exported>, row: nat, column: nat)
    requires ReadFile(ToCsv(data)).Some? && row + 1 < |ReadFile(ToCsv(data)).value|
    requires column < |ReadFile(ToCsv(data)).value[row + 1]|
    ensures !FormulaLike(ReadFile(ToCsv(data)).value[row + 1][column])
  {
    hide ReadFile, ToCsv, Guard, FormulaLike, Each;
    ExportReadsBack(data);
    GuardIsSafe(Cells(data[row])[column]);
  }

  ghost predicate PrintAlike(a: string, b: string) {
    a == b || (FormulaLike(a) && b == "'" + a) || (FormulaLike(b) && a == "'" + b)
  }

  // Two texts print alike exactly when they are equal or one is the other guarded.
  lemma WhenGuardsCollide(a: string, b: string)
    ensures Guard(a) == Guard(b) <==> PrintAlike(a, b)
  {
    GuardIsSafe(a);
    GuardIsSafe(b);
    if FormulaLike(a) && FormulaLike(b) && Guard(a) == Guard(b) {
      assert Guard(a)[1..] == a && Guard(b)[1..] == b;
    }
  }

  // Two exports are the same text exactly when they have as many candidates and every cell of one
  // prints like the same cell of the other.
  lemma WhenExportsCollide(a: seq<Exported>, b: seq<Exported>)
    ensures ToCsv(a) == ToCsv(b)
            <==> |a| == |b| && forall i, k :: 0 <= i < |a| && 0 <= k < 9 ==> PrintAlike(Cells(a[i])[k], Cells(b[i])[k])
  {
    hide ReadFile, ToCsv, Guard, FormulaLike, Each, Cells;
    if ToCsv(a) == ToCsv(b) { SameTextSameCells(a, b); }
    if |a| == |b| {
      forall i, k | 0 <= i < |a| && 0 <= k < 9
        ensures Guard(Cells(a[i])[k]) == Guard(Cells(b[i])[k]) <==> PrintAlike(Cells(a[i])[k], Cells(b[i])[k])
      {
        WhenGuardsCollide(Cells(a[i])[k], Cells(b[i])[k]);
      }
      if forall i, k :: 0 <= i < |a| && 0 <= k < 9 ==> PrintAlike(Cells(a[i])[k], Cells(b[i])[k]) {
        SameCellsSameText(a, b);
      }
    }
  }

  // One candidate whose name is a formula, and one whose name is that formula guarded already.
  lemma GuardedNamesCollide()
    ensures var a := Exported("=1", "", "", "", "", "", "", "", "");
            a != a.(business := "'=1") && ToCsv([a]) == ToCsv([a.(business := "'=1")])
  {
    hide ToCsv;
    var a := Exported("=1", "", "", "", "", "", "", "", "");
    var b := a.(business := "'=1");
    assert |a.business| != |b.business|;
    assert "'" + a.business == b.business;
    forall i, k | 0 <= i < 1 && 0 <= k < 9
      ensures PrintAlike(Cells([a][i])[k], Cells([b][i])[k])
    {
    }
    WhenExportsCollide([a], [b]);
  }

  lemma SameTextSameCells(a: seq<Exported>, b: seq<Exported>)
    requires ToCsv(a) == ToCsv(b)
    ensures |a| == |b| && forall i, k :: 0 <= i < |a| && 0 <= k < 9 ==> Guard(Cells(a[i])[k]) == Guard(Cells(b[i])[k])
  {
    hide ReadFile, ToCsv, FormulaLike, Each, Cells, Guard;
    ExportReadsBack(a);
    ExportReadsBack(b);
    assert [HEADER] + GuardedCells(a) == [HEADER] + GuardedCells(b);
    assert ([HEADER] + GuardedCells(a))[1..] == GuardedCells(a) && ([HEADER] + GuardedCells(b))[1..] == GuardedCells(b);
    forall i, k | 0 <= i < |a| && 0 <= k < 9
      ensures Guard(Cells(a[i])[k]) == Guard(Cells(b[i])[k])
    {
      assert Each(Guard, Cells(a[i])) == GuardedCells(a)[i] == Each(Guard, Cells(b[i]));
      assert Each(Guard, Cells(a[i]))[k] == Guard(Cells(a[i])[k]) && Each(Guard, Cells(b[i]))[k] == Guard(Cells(b[i])[k]);
    }
  }

  lemma SameCellsSameText(a: seq<Exported>, b: seq<Exported>)
    requires |a| == |b| && forall i, k :: 0 <= i < |a| && 0 <= k < 9 ==> Guard(Cells(a[i])[k]) == Guard(Cells(b[i])[k])
    ensures ToCsv(a) == ToCsv(b)
  {
    hide Guard, FormulaLike, Joined;
    SameRows(a, b);
  }

  lemma {:induction false} SameRows(a: seq<Exported>, b: seq<Exported>)
    requires |a| == |b| && forall i, k :: 0 <= i < |a| && 0 <= k < 9 ==> Guard(Cells(a[i])[k]) == Guard(Cells(b[i])[k])
    ensures Rows(a) == Rows(b)
  {
    hide Guard, FormulaLike, Joined, Cells, Doubled;
    if a != [] {
      assert forall k :: 0 <= k < 9 ==> Csv(Cells(a[0])[k]) == Csv(Cells(b[0])[k]);
      assert Each(Csv, Cells(a[0])) == Each(Csv, Cells(b[0]));
      SameRows(a[1..], b[1..]);
    }
  }

  // Among exports without formula-like cells, only the same candidates give the same text.
  lemma ExportIsFaithful(a: seq<Exported>, b: seq<Exported>)
    requires forall item :: item in a + b ==> forall k :: 0 <= k < 9 ==> !FormulaLike(Cells(item)[k])
    ensures ToCsv(a) == ToCsv(b) <==> a == b
  {
    hide ToCsv, FormulaLike, Cells;
    WhenExportsCollide(a, b);
    if ToCsv(a) == ToCsv(b) {
      forall i | 0 <= i < |a|
        ensures a[i] == b[i]
      {
        assert a[i] in a + b && b[i] in a + b;
        forall k | 0 <= k < 9
          ensures Cells(a[i])[k] == Cells(b[i])[k]
        {
          assert PrintAlike(Cells(a[i])[k], Cells(b[i])[k]);
        }
        CellsAreAll(a[i], b[i]);
      }
    }
  }

  lemma CellsAreAll(x: Exported, y: Exported)
    requires forall k :: 0 <= k < 9 ==> Cells(x)[k] == Cells(y)[k]
    ensures x == y
  {
    assert x.business == Cells(x)[0] == Cells(y)[0];
    assert x.locality == Cells(x)[1] == Cells(y)[1];
    assert x.score == Cells(x)[2] == Cells(y)[2];
    assert x.rubricVersion == Cells(x)[3] == Cells(y)[3];
    assert x.assessmentTimestamp == Cells(x)[4] == Cells(y)[4];
    assert x.reviewStatus == Cells(x)[5] == Cells(y)[5];
    assert x.scoreBreakdown == Cells(x)[6] == Cells(y)[6];
    assert x.evidenceLinks == Cells(x)[7] == Cells(y)[7];
    assert x.contactRoutes == Cells(x)[8] == Cells(y)[8];
  }
}
