/**
 The comma-separated reports, and a reader for them written from section 2 of RFC 4180: fields
 separated by commas, records by CRLF or LF with an optional break at the end, and fields in double
 quotes holding anything, with a double quote written twice.
 */
module Csv {
  import opened Common
  import opened Text

  // ---------------------------------------------------------------------------------------
  // The printers
  // ---------------------------------------------------------------------------------------

  /** The characters that end a plain field. */
  predicate EndsField(c: char) {
    c == ',' || c == '\n' || c == '\r'
  }

  predicate NeedsQuotes(s: string) {
    exists c :: c in s && (c == '"' || EndsField(c))
  }

  function CsvEscape(s: string): string {
    if NeedsQuotes(s) then "\"" + ReplaceAll(s, '"', "\"\"") + "\"" else s
  }

  function Escaped(cells: seq<string>): (r: seq<string>)
    ensures |r| == |cells|
  {
    if cells == [] then [] else [CsvEscape(cells[0])] + Escaped(cells[1..])
  }

  function Line(cells: seq<string>): string {
    Join(Escaped(cells), ",")
  }

  function Lines(grid: seq<seq<string>>): (r: seq<string>)
    ensures |r| == |grid|
  {
    if grid == [] then [] else [Line(grid[0])] + Lines(grid[1..])
  }

  /** The cells of one row; a value the row does not have prints as nothing. */
  function RowCells(headers: seq<string>, row: map<string, string>): seq<string> {
    seq(|headers|, i requires 0 <= i < |headers| => if headers[i] in row then row[headers[i]] else "")
  }

  function Cells(headers: seq<string>, rows: seq<map<string, string>>): seq<seq<string>> {
    [headers] + seq(|rows|, i requires 0 <= i < |rows| => RowCells(headers, rows[i]))
  }

  function RowsToCsv(headers: seq<string>, rows: seq<map<string, string>>): string {
    Join(Lines(Cells(headers, rows)), "\n")
  }

  // ---------------------------------------------------------------------------------------
  // The reader
  // ---------------------------------------------------------------------------------------

  /** What was read, and the text after it. */
  datatype Read<T> = Malformed | Got(value: T, rest: string)

  /** The rest of a quoted field, after its opening quote. */
  function ReadQuoted(s: string): (r: Read<string>)
    ensures r.Got? ==> |r.rest| < |s|
  {
    if s == "" then Malformed
    else if s[0] != '"' then Before(s[0], ReadQuoted(s[1..]))
    else if |s| > 1 && s[1] == '"' then Before('"', ReadQuoted(s[2..]))
    else Got("", s[1..])
  }

  function ReadPlain(s: string): (r: Read<string>)
    ensures r.Got? ==> |r.rest| <= |s|
  {
    if s == "" || EndsField(s[0]) then Got("", s)
    else if s[0] == '"' then Malformed
    else Before(s[0], ReadPlain(s[1..]))
  }

  function Before(c: char, r: Read<string>): Read<string> {
    if r.Got? then Got([c] + r.value, r.rest) else r
  }

  function ReadField(s: string): (r: Read<string>)
    ensures r.Got? ==> |r.rest| <= |s|
  {
    if s != "" && s[0] == '"' then ReadQuoted(s[1..]) else ReadPlain(s)
  }

  function ReadRecord(s: string): (r: Read<seq<string>>)
    ensures r.Got? ==> |r.rest| <= |s| && r.value != []
    decreases |s|
  {
    var field := ReadField(s);
    if field.Malformed? then Malformed
    else if field.rest != "" && field.rest[0] == ',' then
      var others := ReadRecord(field.rest[1..]);
      if others.Malformed? then Malformed else Got([field.value] + others.value, others.rest)
    else Got([field.value], field.rest)
  }

  function BreakLength(s: string): (n: nat)
    ensures n <= |s|
  {
    if s != "" && s[0] == '\n' then 1
    else if |s| > 1 && s[0] == '\r' && s[1] == '\n' then 2
    else 0
  }

  function ReadRecords(s: string): (r: Option<seq<seq<string>>>)
    ensures r.Some? ==> forall record :: record in r.value ==> record != []
    decreases |s|
  {
    if s == "" then Some([])
    else
      var record := ReadRecord(s);
      if record.Malformed? then None
      else if record.rest == "" then Some([record.value])
      else
        var skip := BreakLength(record.rest);
        var others := if skip == 0 then None else ReadRecords(record.rest[skip..]);
        if others.None? then None else Some([record.value] + others.value)
  }

  // ---------------------------------------------------------------------------------------
  // What is printed is read back
  // ---------------------------------------------------------------------------------------

  lemma {:induction false} QuotedReadsBack(s: string, rest: string)
    requires rest == "" || rest[0] != '"'
    ensures ReadQuoted(ReplaceAll(s, '"', "\"\"") + "\"" + rest) == Got(s, rest)
  {
    var text := ReplaceAll(s, '"', "\"\"") + "\"" + rest;
    if s == "" {
      assert text == "\"" + rest && text[1..] == rest;
    } else {
      var others := ReplaceAll(s[1..], '"', "\"\"") + "\"" + rest;
      QuotedReadsBack(s[1..], rest);
      assert [s[0]] + s[1..] == s;
      if s[0] == '"' {
        assert text == "\"\"" + others && text[2..] == others;
      } else {
        assert text == [s[0]] + others && text[1..] == others;
      }
    }
  }

  lemma {:induction false} PlainReadsBack(s: string, rest: string)
    requires !NeedsQuotes(s) && (rest == "" || EndsField(rest[0]))
    ensures ReadPlain(s + rest) == Got(s, rest)
  {
    if s == "" {
      assert s + rest == rest;
    } else {
      assert s[0] in s && (s + rest)[1..] == s[1..] + rest;
      assert forall c :: c in s[1..] ==> c in s;
      PlainReadsBack(s[1..], rest);
      assert [s[0]] + s[1..] == s;
    }
  }

  lemma CellReadsBack(s: string, rest: string)
    requires rest == "" || EndsField(rest[0])
    ensures ReadField(CsvEscape(s) + rest) == Got(s, rest)
  {
    if NeedsQuotes(s) {
      QuotedReadsBack(s, rest);
      var inside := ReplaceAll(s, '"', "\"\"") + "\"";
      assert CsvEscape(s) + rest == "\"" + (inside + rest);
      assert ("\"" + (inside + rest))[1..] == inside + rest;
    } else {
      PlainReadsBack(s, rest);
      PlainStart(s, rest);
    }
  }

  lemma PlainStart(s: string, rest: string)
    requires !NeedsQuotes(s) && (rest == "" || EndsField(rest[0]))
    ensures s + rest != "" ==> (s + rest)[0] != '"'
  {
    if s != "" {
      assert s[0] in s;
    }
  }

  lemma {:induction false} LineReadsBack(cells: seq<string>, rest: string)
    requires cells != [] && (rest == "" || rest[0] == '\n')
    ensures ReadRecord(Line(cells) + rest) == Got(cells, rest)
  {
    if |cells| == 1 {
      assert Escaped(cells) == [CsvEscape(cells[0])];
      CellReadsBack(cells[0], rest);
      assert [cells[0]] == cells;
    } else {
      var others := Line(cells[1..]) + rest;
      LineOfSeveral(cells, rest);
      CellReadsBack(cells[0], "," + others);
      assert ("," + others)[1..] == others;
      LineReadsBack(cells[1..], rest);
      assert [cells[0]] + cells[1..] == cells;
    }
  }

  lemma LineOfSeveral(cells: seq<string>, rest: string)
    requires |cells| > 1
    ensures Line(cells) + rest == CsvEscape(cells[0]) + ("," + (Line(cells[1..]) + rest))
  {
    var others := Line(cells[1..]);
    JoinSeveral(Escaped(cells), ",");
    assert Escaped(cells)[1..] == Escaped(cells[1..]);
    assert CsvEscape(cells[0]) + ("," + others) + rest == CsvEscape(cells[0]) + ("," + (others + rest));
  }

  /** A line is empty only for one empty cell. */
  lemma EmptyLine(cells: seq<string>)
    ensures Line(cells) == "" <==> cells == [] || cells == [""]
  {
    if |cells| == 1 {
      assert Escaped(cells) == [CsvEscape(cells[0])];
    }
  }

  /** The records of a grid, less the last one when it is a single empty cell. */
  function Kept(grid: seq<seq<string>>): seq<seq<string>>
    requires grid != []
  {
    if grid[|grid| - 1] == [""] then grid[..|grid| - 1] else grid
  }

  lemma ReadsOneMore(text: string, record: seq<string>, others: string, records: seq<seq<string>>)
    requires text != "" && ReadRecord(text) == Got(record, "\n" + others) && ReadRecords(others) == Some(records)
    ensures ReadRecords(text) == Some([record] + records)
  {
    assert ("\n" + others)[1..] == others;
  }

  lemma KeptOfSeveral(grid: seq<seq<string>>)
    requires |grid| > 1
    ensures Kept(grid) == [grid[0]] + Kept(grid[1..])
  {
  }

  lemma {:induction false} GridReadsBack(grid: seq<seq<string>>)
    requires grid != [] && forall i :: 0 <= i < |grid| ==> grid[i] != []
    ensures ReadRecords(Join(Lines(grid), "\n")) == Some(Kept(grid))
  {
    if |grid| == 1 {
      OneLineReadsBack(grid[0]);
      assert grid == [grid[0]];
    } else {
      GridReadsBack(grid[1..]);
      FirstLineReadsBack(grid);
      KeptOfSeveral(grid);
    }
  }

  lemma FirstLineReadsBack(grid: seq<seq<string>>)
    requires |grid| > 1 && grid[0] != []
    requires ReadRecords(Join(Lines(grid[1..]), "\n")) == Some(Kept(grid[1..]))
    ensures ReadRecords(Join(Lines(grid), "\n")) == Some([grid[0]] + Kept(grid[1..]))
  {
    var others := Join(Lines(grid[1..]), "\n");
    GridOfSeveral(grid);
    LineReadsBack(grid[0], "\n" + others);
    ReadsOneMore(Line(grid[0]) + ("\n" + others), grid[0], others, Kept(grid[1..]));
  }

  lemma OneLineReadsBack(cells: seq<string>)
    requires cells != []
    ensures ReadRecords(Join(Lines([cells]), "\n")) == Some(Kept([cells]))
  {
    EmptyLine(cells);
    LineReadsBack(cells, "");
    assert Line(cells) + "" == Line(cells);
    assert Lines([cells]) == [Line(cells)];
    assert Kept([cells]) == if cells == [""] then [] else [cells];
  }

  lemma GridOfSeveral(grid: seq<seq<string>>)
    requires |grid| > 1
    ensures Join(Lines(grid), "\n") == Line(grid[0]) + ("\n" + Join(Lines(grid[1..]), "\n"))
  {
    JoinSeveral(Lines(grid), "\n");
    assert Lines(grid)[1..] == Lines(grid[1..]);
  }

  /** The value of a row in a column; one the row does not have prints as nothing. */
  predicate Shows(row: map<string, string>, header: string, cell: string) {
    (header in row ==> cell == row[header]) && (header !in row ==> cell == "")
  }

  /** The headers, and then for each row its value in every column. */
  predicate Recovers(headers: seq<string>, rows: seq<map<string, string>>, records: seq<seq<string>>) {
    && |records| == |rows| + 1 && records[0] == headers
    && (forall k :: 1 <= k <= |rows| ==> |records[k]| == |headers|)
    && (forall i, j :: 0 <= i < |rows| && 0 <= j < |headers| ==> Shows(rows[i], headers[j], records[i + 1][j]))
  }

  /** The text ends in an empty line: a single column whose last cell is blank. */
  predicate EndsBlank(headers: seq<string>, rows: seq<map<string, string>>) {
    |headers| == 1 && (if rows == [] then headers[0] == "" else Shows(rows[|rows| - 1], headers[0], ""))
  }

  lemma OnlyCellsRecover(headers: seq<string>, rows: seq<map<string, string>>, records: seq<seq<string>>)
    ensures Recovers(headers, rows, records) <==> records == Cells(headers, rows)
    ensures EndsBlank(headers, rows) <==> Cells(headers, rows)[|rows|] == [""]
  {
    var grid := Cells(headers, rows);
    if Recovers(headers, rows, records) {
      forall k | 1 <= k <= |rows|
        ensures records[k] == grid[k]
      {
        assert forall j :: 0 <= j < |headers| ==> Shows(rows[k - 1], headers[j], records[k - 1 + 1][j]);
      }
    }
    assert grid[|rows|] == if rows == [] then headers else RowCells(headers, rows[|rows| - 1]);
    if EndsBlank(headers, rows) {
      assert |grid[|rows|]| == 1 && grid[|rows|][0] == "";
    }
  }

  /**
   Every cell of `rowsToCsv` is recovered, under its header, exactly when there is a column and the
   text does not end in an empty line, which only a single column whose last cell is blank produces.
   */
  lemma CsvRoundTrip(headers: seq<string>, rows: seq<map<string, string>>)
    ensures ReadRecords(RowsToCsv(headers, rows)).Some? &&
            Recovers(headers, rows, ReadRecords(RowsToCsv(headers, rows)).value) <==>
            headers != [] && !EndsBlank(headers, rows)
    ensures headers != [] && EndsBlank(headers, rows) ==>
              exists records :: Recovers(headers, rows, records) &&
                                ReadRecords(RowsToCsv(headers, rows)) == Some(records[..|rows|])
  {
    var grid := Cells(headers, rows);
    OnlyCellsRecover(headers, rows, grid);
    if headers == [] {
      assert grid[0] == [] && grid[0] in grid;
    } else {
      GridReadsBack(grid);
    }
    var read := ReadRecords(RowsToCsv(headers, rows));
    if read.Some? {
      OnlyCellsRecover(headers, rows, read.value);
    }
  }

  /** The failing family is not empty: a lone column whose last value is missing loses a record. */
  lemma LastBlankIsLost(header: string, row: map<string, string>)
    requires header != "" && header !in row
    ensures ReadRecords(RowsToCsv([header], [row])) == Some([[header]])
  {
    CsvRoundTrip([header], [row]);
    var records :| Recovers([header], [row], records) &&
                   ReadRecords(RowsToCsv([header], [row])) == Some(records[..1]);
    assert records[..1] == [[header]];
  }

  // ---------------------------------------------------------------------------------------
  // The execution results report
  // ---------------------------------------------------------------------------------------

  datatype Finding = Finding(category: string, severity: string, title: string, description: string,
                             recommendation: Option<string>)

  /** A test case as the manifest carries it: any field may be missing, and two have an older name. */
  datatype TestCase = TestCase(id: Option<string>, testId: Option<string>, category: Option<string>,
                               priority: Option<string>, title: Option<string>, name: Option<string>,
                               description: Option<string>, status: Option<string>, result: Option<string>)

  datatype Summary = Summary(passed: nat, failed: nat, total: nat)

  datatype Manifest = Manifest(executionId: string, projectName: string, appUrl: string, status: string,
                               findings: seq<Finding>, testCases: seq<TestCase>, summary: Summary)
  {
    function Prefix(kind: string): seq<string> {
      [executionId, projectName, appUrl, status, kind]
    }

    function FindingRow(i: nat): (row: seq<string>)
      requires i < |findings|
      ensures |row| == 12
    {
      var f := findings[i];
      Prefix("finding") + ["F-" + Decimal(i + 1), f.category, f.severity, f.title, f.description,
                           f.recommendation.GetOr(""), ""]
    }

    function CaseRow(i: nat): (row: seq<string>)
      requires i < |testCases|
      ensures |row| == 12
    {
      var c := testCases[i];
      Prefix("testCase") + [Or(c.id, Or(c.testId, Some("TC-" + Decimal(i + 1)))).GetOr(""), c.category.GetOr(""),
                            c.priority.GetOr(""), Or(c.title, c.name).GetOr(""), c.description.GetOr(""), "",
                            Or(c.status, c.result).GetOr("")]
    }

    function SummaryRow(): (row: seq<string>)
      ensures |row| == 12
    {
      Prefix("summary") + ["", "", "", "No findings or test cases",
                           "passed=" + Decimal(summary.passed) + ";failed=" + Decimal(summary.failed) +
                           ";total=" + Decimal(summary.total), "", ""]
    }
  }

  /** `a ?? b` */
  function Or(a: Option<string>, b: Option<string>): Option<string> {
    if a.Some? then a else b
  }

  const HEADER: seq<string> := ["executionId", "projectName", "appUrl", "status", "type", "id", "category",
                                "severity", "title", "description", "recommendation", "result"]

  /** The value a record has in the column the header names so. */
  predicate InColumn(record: seq<string>, column: string, value: string)
    requires |record| == 12
  {
    exists k :: 0 <= k < 12 && HEADER[k] == column && record[k] == value
  }

  /** Every field of a finding stands under the column named for it; a finding has no result. */
  lemma FindingUnderHeader(m: Manifest, i: nat)
    requires i < |m.findings|
    ensures var row, f := m.FindingRow(i), m.findings[i];
            && InColumn(row, "executionId", m.executionId) && InColumn(row, "projectName", m.projectName)
            && InColumn(row, "appUrl", m.appUrl) && InColumn(row, "status", m.status)
            && InColumn(row, "type", "finding") && InColumn(row, "id", "F-" + Decimal(i + 1))
            && InColumn(row, "category", f.category) && InColumn(row, "severity", f.severity)
            && InColumn(row, "title", f.title) && InColumn(row, "description", f.description)
            && InColumn(row, "recommendation", f.recommendation.GetOr("")) && InColumn(row, "result", "")
  {
    var row := m.FindingRow(i);
    assert HEADER[0] == "executionId" && HEADER[1] == "projectName" && HEADER[2] == "appUrl" && HEADER[3] == "status";
    assert HEADER[4] == "type" && HEADER[5] == "id" && HEADER[6] == "category" && HEADER[7] == "severity";
    assert HEADER[8] == "title" && HEADER[9] == "description" && HEADER[10] == "recommendation";
    assert HEADER[11] == "result";
  }

  /** A test case has no recommendation, and its priority stands under severity. */
  lemma CaseUnderHeader(m: Manifest, i: nat)
    requires i < |m.testCases|
    ensures var row, c := m.CaseRow(i), m.testCases[i];
            && InColumn(row, "executionId", m.executionId) && InColumn(row, "projectName", m.projectName)
            && InColumn(row, "appUrl", m.appUrl) && InColumn(row, "status", m.status)
            && InColumn(row, "type", "testCase")
            && InColumn(row, "id", Or(c.id, Or(c.testId, Some("TC-" + Decimal(i + 1)))).GetOr(""))
            && InColumn(row, "category", c.category.GetOr("")) && InColumn(row, "severity", c.priority.GetOr(""))
            && InColumn(row, "title", Or(c.title, c.name).GetOr(""))
            && InColumn(row, "description", c.description.GetOr("")) && InColumn(row, "recommendation", "")
            && InColumn(row, "result", Or(c.status, c.result).GetOr(""))
  {
    var row := m.CaseRow(i);
    assert HEADER[0] == "executionId" && HEADER[1] == "projectName" && HEADER[2] == "appUrl" && HEADER[3] == "status";
    assert HEADER[4] == "type" && HEADER[5] == "id" && HEADER[6] == "category" && HEADER[7] == "severity";
    assert HEADER[8] == "title" && HEADER[9] == "description" && HEADER[10] == "recommendation";
    assert HEADER[11] == "result";
  }

  /** A report of nothing says so, with the counts that were handed in. */
  lemma SummaryUnderHeader(m: Manifest)
    ensures var row := m.SummaryRow();
            && InColumn(row, "executionId", m.executionId) && InColumn(row, "projectName", m.projectName)
            && InColumn(row, "appUrl", m.appUrl) && InColumn(row, "status", m.status)
            && InColumn(row, "type", "summary") && InColumn(row, "id", "") && InColumn(row, "category", "")
            && InColumn(row, "severity", "") && InColumn(row, "title", "No findings or test cases")
            && InColumn(row, "description", "passed=" + Decimal(m.summary.passed) + ";failed=" +
                                            Decimal(m.summary.failed) + ";total=" + Decimal(m.summary.total))
            && InColumn(row, "recommendation", "") && InColumn(row, "result", "")
  {
    var row := m.SummaryRow();
    assert HEADER[0] == "executionId" && HEADER[1] == "projectName" && HEADER[2] == "appUrl" && HEADER[3] == "status";
    assert HEADER[4] == "type" && HEADER[5] == "id" && HEADER[6] == "category" && HEADER[7] == "severity";
    assert HEADER[8] == "title" && HEADER[9] == "description" && HEADER[10] == "recommendation";
    assert HEADER[11] == "result";
  }

  /** The records of the report under its header: one per finding, then one per test case, or a summary. */
  ghost predicate ResultRecords(m: Manifest, rows: seq<seq<string>>) {
    && (if m.findings == [] && m.testCases == [] then rows == [m.SummaryRow()]
        else |rows| == |m.findings| + |m.testCases|)
    && (forall i :: 0 <= i < |m.findings| ==> rows[i] == m.FindingRow(i))
    && (forall i :: 0 <= i < |m.testCases| ==> rows[|m.findings| + i] == m.CaseRow(i))
  }

  method ResultRows(m: Manifest) returns (rows: seq<seq<string>>)
    ensures ResultRecords(m, rows)
  {
    rows := [];
    for i := 0 to |m.findings|
      invariant |rows| == i && forall j :: 0 <= j < i ==> rows[j] == m.FindingRow(j)
    {
      rows := rows + [m.FindingRow(i)];
    }
    for i := 0 to |m.testCases|
      invariant |rows| == |m.findings| + i
      invariant forall j :: 0 <= j < |m.findings| ==> rows[j] == m.FindingRow(j)
      invariant forall j :: 0 <= j < i ==> rows[|m.findings| + j] == m.CaseRow(j)
    {
      rows := rows + [m.CaseRow(i)];
    }
    if |rows| == 0 {
      rows := [m.SummaryRow()];
    }
  }

  lemma ResultRecordsAreTwelveWide(m: Manifest, rows: seq<seq<string>>)
    requires ResultRecords(m, rows)
    ensures forall i :: 0 <= i < |rows| ==> |rows[i]| == 12
  {
    forall i | 0 <= i < |rows|
      ensures |rows[i]| == 12
    {
      if i < |m.findings| {
        assert rows[i] == m.FindingRow(i);
      } else if i < |m.findings| + |m.testCases| {
        assert rows[|m.findings| + (i - |m.findings|)] == m.CaseRow(i - |m.findings|);
      }
    }
  }

  /** The report reads back as the header and the result records, all of them twelve fields wide. */
  method RenderCsvResults(m: Manifest) returns (csv: string)
    ensures ReadRecords(csv).Some? && ReadRecords(csv).value != []
    ensures ReadRecords(csv).value[0] == HEADER && ResultRecords(m, ReadRecords(csv).value[1..])
    ensures forall record :: record in ReadRecords(csv).value ==> |record| == 12
  {
    var rows := ResultRows(m);
    csv := Join(Lines([HEADER] + rows), "\n");
    ResultRecordsAreTwelveWide(m, rows);
    ReportReadsBack(HEADER, rows);
    assert ([HEADER] + rows)[1..] == rows;
  }

  lemma ReportReadsBack(header: seq<string>, rows: seq<seq<string>>)
    requires |header| > 1 && forall i :: 0 <= i < |rows| ==> |rows[i]| == |header|
    ensures ReadRecords(Join(Lines([header] + rows), "\n")) == Some([header] + rows)
  {
    GridReadsBack([header] + rows);
  }
}
