/**
 XML escaping as the report printers do it, a decoder for the predefined entities (section 4.6 of
 XML 1.0), and the spreadsheet written with it.
 */
module Xml {
  import opened Common
  import opened Text
  import Csv

  // ---------------------------------------------------------------------------------------
  // Escaping
  // ---------------------------------------------------------------------------------------

  /** The spreadsheet printer's escape: four whole-string replacements, the ampersand first. */
  function EscapeXml(s: string): string {
    ReplaceAll(ReplaceAll(ReplaceAll(ReplaceAll(s, '&', "&amp;"), '<', "&lt;"), '>', "&gt;"), '"', "&quot;")
  }

  /** The JUnit printer's escape adds the apostrophe. */
  function EscapeJunit(s: string): string {
    ReplaceAll(EscapeXml(s), '\'', "&apos;")
  }

  /** Every character on its own: replaced if the table has it, kept otherwise. */
  function Substitute(s: string, table: map<char, string>): string {
    if s == "" then ""
    else (if s[0] in table then table[s[0]] else [s[0]]) + Substitute(s[1..], table)
  }

  const FOUR: map<char, string> := map['&' := "&amp;", '<' := "&lt;", '>' := "&gt;", '"' := "&quot;"]
  const FIVE: map<char, string> := FOUR['\'' := "&apos;"]

  lemma {:induction false} NothingToReplace(s: string, c: char, sub: string)
    requires c !in s
    ensures ReplaceAll(s, c, sub) == s
  {
    if s != "" {
      assert s == [s[0]] + s[1..] && s[0] in s;
      NothingToReplace(s[1..], c, sub);
    }
  }

  /** One more whole-string replacement is one more entry, provided earlier ones do not bring it in. */
  lemma {:induction false} ReplaceExtends(s: string, table: map<char, string>, c: char, sub: string)
    requires c !in table && forall k :: k in table ==> c !in table[k]
    ensures ReplaceAll(Substitute(s, table), c, sub) == Substitute(s, table[c := sub])
  {
    if s != "" {
      var first := if s[0] in table then table[s[0]] else [s[0]];
      ReplaceAllAppend(first, Substitute(s[1..], table), c, sub);
      ReplaceExtends(s[1..], table, c, sub);
      if s[0] != c {
        NothingToReplace(first, c, sub);
      } else {
        assert ReplaceAll([c], c, sub) == sub + ReplaceAll("", c, sub) == sub;
      }
    }
  }

  lemma {:induction false} EmptyTable(s: string)
    ensures Substitute(s, map[]) == s
  {
    if s != "" {
      EmptyTable(s[1..]);
      assert s == [s[0]] + s[1..];
    }
  }

  /** The chain of replacements is one substitution, character by character. */
  lemma EscapeIsSubstitution(s: string)
    ensures EscapeXml(s) == Substitute(s, FOUR)
    ensures EscapeJunit(s) == Substitute(s, FIVE)
  {
    var t1: map<char, string> := map['&' := "&amp;"];
    var t2 := t1['<' := "&lt;"];
    var t3 := t2['>' := "&gt;"];
    EmptyTable(s);
    ReplaceExtends(s, map[], '&', "&amp;");
    assert map[]['&' := "&amp;"] == t1;
    ReplaceExtends(s, t1, '<', "&lt;");
    ReplaceExtends(s, t2, '>', "&gt;");
    ReplaceExtends(s, t3, '"', "&quot;");
    assert t3['"' := "&quot;"] == FOUR;
    ReplaceExtends(s, FOUR, '\'', "&apos;");
  }

  // ---------------------------------------------------------------------------------------
  // Decoding
  // ---------------------------------------------------------------------------------------

  /** The character a predefined entity at the start of the text stands for, and its length. */
  function EntityAt(s: string): Option<(char, nat)> {
    if "&amp;" <= s then Some(('&', 5))
    else if "&lt;" <= s then Some(('<', 4))
    else if "&gt;" <= s then Some(('>', 4))
    else if "&quot;" <= s then Some(('"', 6))
    else if "&apos;" <= s then Some(('\'', 6))
    else None
  }

  /** Character data or an attribute value: no raw markup, every ampersand begins a predefined entity. */
  function Decode(s: string): Option<string>
    decreases |s|
  {
    if s == "" then Some("")
    else if s[0] == '<' || s[0] == '>' || s[0] == '"' then None
    else if s[0] == '&' then
      var e := EntityAt(s);
      if e.None? then None else Prepend(e.value.0, Decode(s[e.value.1..]))
    else Prepend(s[0], Decode(s[1..]))
  }

  function Prepend(c: char, s: Option<string>): Option<string> {
    if s.Some? then Some([c] + s.value) else None
  }

  lemma DecodeEntity(c: char, rest: string)
    requires c in FIVE
    ensures Decode(FIVE[c] + rest) == Prepend(c, Decode(rest))
  {
    var s := FIVE[c] + rest;
    assert FIVE[c] <= s && s[|FIVE[c]|..] == rest;
    assert s[0] == '&' && s[1] == FIVE[c][1] && s[2] == FIVE[c][2];
  }

  /** Decoding undoes the substitution with any part of the table that covers the raw markup. */
  lemma {:induction false} DecodeUndoes(s: string, table: map<char, string>)
    requires FOUR.Keys <= table.Keys && forall c :: c in table ==> c in FIVE && table[c] == FIVE[c]
    ensures Decode(Substitute(s, table)) == Some(s)
  {
    if s != "" {
      var others := Substitute(s[1..], table);
      DecodeUndoes(s[1..], table);
      assert s == [s[0]] + s[1..];
      if s[0] in table {
        DecodeEntity(s[0], others);
      } else {
        assert s[0] !in FOUR;
        assert ([s[0]] + others)[1..] == others;
      }
    }
  }

  /** Both escapes are undone by the decoder, which accepts no raw markup. */
  lemma EscapeRoundTrip(s: string)
    ensures Decode(EscapeXml(s)) == Some(s) && Decode(EscapeJunit(s)) == Some(s)
  {
    EscapeIsSubstitution(s);
    DecodeUndoes(s, FOUR);
    DecodeUndoes(s, FIVE);
  }

  // ---------------------------------------------------------------------------------------
  // The spreadsheet
  // ---------------------------------------------------------------------------------------

  const OPEN := "<Data ss:Type=\"String\">"

  function Cell(v: string): string {
    "<Cell>" + (OPEN + (EscapeXml(v) + ("</Data>" + "</Cell>")))
  }

  function CellsXml(cells: seq<string>): string {
    if cells == [] then "" else Cell(cells[0]) + CellsXml(cells[1..])
  }

  function RowXml(cells: seq<string>): string {
    "<Row>" + (CellsXml(cells) + "</Row>")
  }

  function RowsXml(rows: seq<seq<string>>): string {
    if rows == [] then "" else RowXml(rows[0]) + RowsXml(rows[1..])
  }

  const XML_DECL := ["<?xml ", "version=", "\"1.0\"?>\n"]
  const MSO := ["<?mso-", "application ", "progid=\"Excel.Sheet\"?>\n"]
  const WORKBOOK := ["<Workbook xmlns="] + SPREADSHEET + ["\n xmlns:ss="] + SPREADSHEET + [">\n "]
  const SPREADSHEET := ["\"urn:schemas-", "microsoft-com:", "office:spreadsheet\""]

  /** The text before the sheet's name, between the name and the rows, and after the rows. */
  const PROLOGUE := BEFORE_NAME + [NAME]
  const BEFORE_NAME := XML_DECL + MSO + WORKBOOK
  const NAME := "<Worksheet ss:Name=\""
  const MIDDLE := ["\">\n  ", "<Table>\n   "]
  const EPILOGUE := ["\n  ", "</Table>\n ", "</Worksheet>\n", "</Workbook>"]

  function Concat(parts: seq<string>): string {
    if parts == [] then "" else parts[0] + Concat(parts[1..])
  }

  function Sheet(prologue: string, name: string, middle: string, grid: seq<seq<string>>, epilogue: string): string
    requires grid != []
  {
    prologue + (EscapeXml(name) + (middle + (RowXml(grid[0]) + ("\n   " + (RowsXml(grid[1..]) + epilogue)))))
  }

  function RowsToSpreadsheetMl(sheetName: string, headers: seq<string>, rows: seq<map<string, string>>): string {
    Sheet(Concat(PROLOGUE), sheetName, Concat(MIDDLE), Csv.Cells(headers, rows), Concat(EPILOGUE))
  }

  /** The text up to the next tag. */
  function TextBefore(s: string): (t: string)
    ensures t <= s
  {
    if s == "" || s[0] == '<' then "" else [s[0]] + TextBefore(s[1..])
  }

  /** Reads the rows and string cells of a sheet and passes over everything else. */
  function ReadSheet(s: string, done: seq<seq<string>>): Option<seq<seq<string>>>
    decreases |s|
  {
    if s == "" then Some(done)
    else if "<Row>" <= s then ReadSheet(s[5..], done + [[]])
    else if OPEN <= s then
      var text := TextBefore(s[|OPEN|..]);
      var cell := Decode(text);
      if cell.None? || done == [] then None
      else ReadSheet(s[|OPEN| + |text|..], WithCell(done, cell.value))
    else ReadSheet(s[1..], done)
  }

  function WithCell(done: seq<seq<string>>, cell: string): seq<seq<string>>
    requires done != []
  {
    done[..|done| - 1] + [done[|done| - 1] + [cell]]
  }

  lemma {:induction false} SkipText(t: string, rest: string, done: seq<seq<string>>)
    requires '<' !in t
    ensures ReadSheet(t + rest, done) == ReadSheet(rest, done)
  {
    if t == "" {
      assert t + rest == rest;
    } else {
      assert t[0] in t && (t + rest)[0] == t[0] && (t + rest)[1..] == t[1..] + rest;
      SkipText(t[1..], rest, done);
    }
  }

  /** A tag that opens neither a row nor a cell's data, with the text after it. */
  predicate OtherTag(tag: string) {
    |tag| > 1 && tag[0] == '<' && tag[1] != 'R' && tag[1] != 'D' && '<' !in tag[1..]
  }

  predicate PassedOver(part: string) {
    '<' !in part || OtherTag(part)
  }

  lemma {:induction false} SkipAll(parts: seq<string>, rest: string, done: seq<seq<string>>)
    requires forall i :: 0 <= i < |parts| ==> PassedOver(parts[i])
    ensures ReadSheet(Concat(parts) + rest, done) == ReadSheet(rest, done)
  {
    if parts == [] {
      assert Concat(parts) + rest == rest;
    } else {
      var others := Concat(parts[1..]) + rest;
      assert Concat(parts) + rest == parts[0] + others;
      if '<' !in parts[0] {
        SkipText(parts[0], others, done);
      } else {
        SkipTag(parts[0], others, done);
      }
      SkipAll(parts[1..], rest, done);
    }
  }

  lemma SkipTag(tag: string, rest: string, done: seq<seq<string>>)
    requires OtherTag(tag)
    ensures ReadSheet(tag + rest, done) == ReadSheet(rest, done)
  {
    var s := tag + rest;
    assert s[1] == tag[1] && s[1..] == tag[1..] + rest;
    assert "<Row>"[1] == 'R' && OPEN[1] == 'D';
    SkipText(tag[1..], rest, done);
  }

  lemma {:induction false} EscapedHasNoTag(s: string)
    ensures '<' !in EscapeXml(s)
  {
    EscapeIsSubstitution(s);
    SubstitutedHasNoTag(s);
  }

  lemma {:induction false} SubstitutedHasNoTag(s: string)
    ensures '<' !in Substitute(s, FOUR)
  {
    if s != "" {
      SubstitutedHasNoTag(s[1..]);
    }
  }

  lemma {:induction false} TextEnds(t: string, rest: string)
    requires '<' !in t && rest != "" && rest[0] == '<'
    ensures TextBefore(t + rest) == t
  {
    if t == "" {
      assert t + rest == rest;
    } else {
      assert t[0] in t && (t + rest)[1..] == t[1..] + rest && t == [t[0]] + t[1..];
      TextEnds(t[1..], rest);
    }
  }

  lemma CellReadsBack(v: string, rest: string, done: seq<seq<string>>)
    requires done != []
    ensures ReadSheet(Cell(v) + rest, done) == ReadSheet(rest, WithCell(done, v))
  {
    var text := EscapeXml(v);
    var after := "</Data>" + ("</Cell>" + rest);
    assert Cell(v) + rest == "<Cell>" + (OPEN + (text + after));
    SkipTag("<Cell>", OPEN + (text + after), done);
    DataReadsBack(v, after, done);
    SkipTag("</Data>", "</Cell>" + rest, WithCell(done, v));
    SkipTag("</Cell>", rest, WithCell(done, v));
  }

  lemma DataReadsBack(v: string, after: string, done: seq<seq<string>>)
    requires done != [] && after != "" && after[0] == '<'
    ensures ReadSheet(OPEN + (EscapeXml(v) + after), done) == ReadSheet(after, WithCell(done, v))
  {
    EscapeRoundTrip(v);
    EscapedHasNoTag(v);
    assert OPEN[1] == 'D' && "<Row>"[1] == 'R';
    ReadData(OPEN, EscapeXml(v), after, done);
  }

  lemma ReadData(tag: string, text: string, after: string, done: seq<seq<string>>)
    requires tag == OPEN && '<' !in text && done != [] && after != "" && after[0] == '<'
    requires Decode(text).Some? && tag[1] != "<Row>"[1]
    ensures ReadSheet(tag + (text + after), done) == ReadSheet(after, WithCell(done, Decode(text).value))
  {
    var s := tag + (text + after);
    TextEnds(text, after);
    assert tag <= s && s[1] == tag[1];
    assert s[|tag|..] == text + after && s[|tag| + |text|..] == after;
  }

  lemma {:induction false} CellsReadBack(cells: seq<string>, rest: string, done: seq<seq<string>>)
    requires done != []
    ensures ReadSheet(CellsXml(cells) + rest, done) ==
            ReadSheet(rest, done[..|done| - 1] + [done[|done| - 1] + cells])
  {
    if cells == [] {
      assert CellsXml(cells) + rest == rest;
      assert done[|done| - 1] + cells == done[|done| - 1];
      assert done == done[..|done| - 1] + [done[|done| - 1]];
    } else {
      var more := WithCell(done, cells[0]);
      assert CellsXml(cells) + rest == Cell(cells[0]) + (CellsXml(cells[1..]) + rest);
      CellReadsBack(cells[0], CellsXml(cells[1..]) + rest, done);
      CellsReadBack(cells[1..], rest, more);
      assert more[..|more| - 1] == done[..|done| - 1];
      assert more[|more| - 1] + cells[1..] == done[|done| - 1] + cells;
    }
  }

  lemma RowReadsBack(cells: seq<string>, rest: string, done: seq<seq<string>>)
    ensures ReadSheet(RowXml(cells) + rest, done) == ReadSheet(rest, done + [cells])
  {
    var begun := done + [[]];
    var s := "<Row>" + (CellsXml(cells) + ("</Row>" + rest));
    assert RowXml(cells) + rest == s;
    assert "<Row>" <= s && s[5..] == CellsXml(cells) + ("</Row>" + rest);
    CellsReadBack(cells, "</Row>" + rest, begun);
    assert begun[..|begun| - 1] == done && begun[|begun| - 1] + cells == cells;
    SkipTag("</Row>", rest, done + [cells]);
  }

  lemma {:induction false} RowsReadBack(rows: seq<seq<string>>, rest: string, done: seq<seq<string>>)
    ensures ReadSheet(RowsXml(rows) + rest, done) == ReadSheet(rest, done + rows)
  {
    if rows == [] {
      assert RowsXml(rows) + rest == rest && done + rows == done;
    } else {
      assert RowsXml(rows) + rest == RowXml(rows[0]) + (RowsXml(rows[1..]) + rest);
      RowReadsBack(rows[0], RowsXml(rows[1..]) + rest, done);
      RowsReadBack(rows[1..], rest, done + [rows[0]]);
      assert done + [rows[0]] + rows[1..] == done + rows;
    }
  }

  lemma HeadIsPassedOver()
    ensures forall i :: 0 <= i < |XML_DECL| ==> PassedOver(XML_DECL[i])
  {
  }

  lemma NameIsPassedOver()
    ensures PassedOver("<Worksheet ss:Name=\"")
  {
  }

  lemma MsoIsPassedOver()
    ensures forall i :: 0 <= i < |MSO| ==> PassedOver(MSO[i])
  {
  }

  lemma NamespaceIsPassedOver()
    ensures forall i :: 0 <= i < |SPREADSHEET| ==> PassedOver(SPREADSHEET[i])
    ensures PassedOver("<Workbook xmlns=") && PassedOver("\n xmlns:ss=") && PassedOver(">\n ")
  {
  }

  lemma PrologueIsPassedOver()
    ensures forall i :: 0 <= i < |PROLOGUE| ==> PassedOver(PROLOGUE[i])
  {
    HeadIsPassedOver();
    NameIsPassedOver();
    MsoIsPassedOver();
    NamespaceIsPassedOver();
  }

  lemma EndsArePassedOver()
    ensures forall i :: 0 <= i < |MIDDLE| ==> PassedOver(MIDDLE[i])
    ensures forall i :: 0 <= i < |EPILOGUE| ==> PassedOver(EPILOGUE[i])
  {
  }

  lemma GridReadsBack(grid: seq<seq<string>>, end: string)
    requires grid != []
    ensures ReadSheet(RowXml(grid[0]) + ("\n   " + (RowsXml(grid[1..]) + end)), []) == ReadSheet(end, grid)
  {
    RowReadsBack(grid[0], "\n   " + (RowsXml(grid[1..]) + end), []);
    SkipText("\n   ", RowsXml(grid[1..]) + end, [grid[0]]);
    RowsReadBack(grid[1..], end, [grid[0]]);
    assert [] + [grid[0]] == [grid[0]] && grid == [grid[0]] + grid[1..];
  }

  lemma SheetReadsBack(prologue: seq<string>, name: string, middle: seq<string>, grid: seq<seq<string>>,
                       epilogue: seq<string>)
    requires grid != []
    requires forall i :: 0 <= i < |prologue| ==> PassedOver(prologue[i])
    requires forall i :: 0 <= i < |middle| ==> PassedOver(middle[i])
    requires forall i :: 0 <= i < |epilogue| ==> PassedOver(epilogue[i])
    ensures ReadSheet(Sheet(Concat(prologue), name, Concat(middle), grid, Concat(epilogue)), []) == Some(grid)
  {
    var end := Concat(epilogue);
    var body := RowXml(grid[0]) + ("\n   " + (RowsXml(grid[1..]) + end));
    SkipAll(prologue, EscapeXml(name) + (Concat(middle) + body), []);
    EscapedHasNoTag(name);
    SkipText(EscapeXml(name), Concat(middle) + body, []);
    SkipAll(middle, body, []);
    GridReadsBack(grid, end);
    assert end == end + "";
    SkipAll(epilogue, "", grid);
  }

  // ---------------------------------------------------------------------------------------
  // The sheet's name
  // ---------------------------------------------------------------------------------------

  function TextBeforeQuote(s: string): (t: string) {
    if s == "" || s[0] == '"' then "" else [s[0]] + TextBeforeQuote(s[1..])
  }

  /** The attribute value that follows the first place where `tag` stands. */
  function ReadAfter(tag: string, s: string): Option<string> {
    if s == "" then None
    else if tag <= s then Decode(TextBeforeQuote(s[|tag|..]))
    else ReadAfter(tag, s[1..])
  }

  /** The name attribute of the first worksheet. */
  function ReadName(s: string): Option<string> {
    ReadAfter(NAME, s)
  }

  /** Text without a tag, or with one that is told from the tag looked for by its sixth character. */
  predicate Lacks(part: string, tag: string) {
    |tag| > 5 && tag[0] == '<' && ('<' !in part || (|part| > 5 && part[5] != tag[5] && '<' !in part[1..]))
  }

  lemma {:induction false} SkipPlain(tag: string, t: string, rest: string)
    requires '<' !in t && tag != "" && tag[0] == '<'
    ensures ReadAfter(tag, t + rest) == ReadAfter(tag, rest)
  {
    if t == "" {
      assert t + rest == rest;
    } else {
      assert t[0] in t && (t + rest)[0] == t[0] && (t + rest)[1..] == t[1..] + rest;
      SkipPlain(tag, t[1..], rest);
    }
  }

  lemma SkipOther(tag: string, part: string, rest: string)
    requires Lacks(part, tag)
    ensures ReadAfter(tag, part + rest) == ReadAfter(tag, rest)
  {
    if '<' !in part {
      SkipPlain(tag, part, rest);
    } else {
      var s := part + rest;
      assert s[5] == part[5] && s[1..] == part[1..] + rest;
      SkipPlain(tag, part[1..], rest);
    }
  }

  lemma {:induction false} SkipToTag(tag: string, parts: seq<string>, rest: string)
    requires forall i :: 0 <= i < |parts| ==> Lacks(parts[i], tag)
    ensures ReadAfter(tag, Concat(parts) + rest) == ReadAfter(tag, rest)
  {
    if parts == [] {
      assert Concat(parts) + rest == rest;
    } else {
      assert Concat(parts) + rest == parts[0] + (Concat(parts[1..]) + rest);
      SkipOther(tag, parts[0], Concat(parts[1..]) + rest);
      SkipToTag(tag, parts[1..], rest);
    }
  }

  lemma {:induction false} ConcatSnoc(parts: seq<string>, last: string)
    ensures Concat(parts + [last]) == Concat(parts) + last
  {
    if parts == [] {
      assert parts + [last] == [last] && [last][1..] == [];
    } else {
      assert (parts + [last])[1..] == parts[1..] + [last];
      ConcatSnoc(parts[1..], last);
    }
  }

  lemma {:induction false} SubstitutedHasNoQuote(s: string)
    ensures '"' !in Substitute(s, FOUR)
  {
    if s != "" {
      SubstitutedHasNoQuote(s[1..]);
    }
  }

  lemma {:induction false} QuotedTextEnds(t: string, rest: string)
    requires '"' !in t && rest != "" && rest[0] == '"'
    ensures TextBeforeQuote(t + rest) == t
  {
    if t == "" {
      assert t + rest == rest;
    } else {
      assert t[0] in t && (t + rest)[1..] == t[1..] + rest && t == [t[0]] + t[1..];
      QuotedTextEnds(t[1..], rest);
    }
  }

  predicate OtherThanName(part: string) {
    '<' !in part || (|part| > 5 && part[5] != 's' && '<' !in part[1..])
  }

  lemma DeclarationHasNoName()
    ensures forall i :: 0 <= i < |XML_DECL| ==> OtherThanName(XML_DECL[i])
  {
  }

  lemma MsoHasNoName()
    ensures forall i :: 0 <= i < |MSO| ==> OtherThanName(MSO[i])
  {
  }

  lemma WorkbookHasNoName()
    ensures forall i :: 0 <= i < |WORKBOOK| ==> OtherThanName(WORKBOOK[i])
  {
    NamespaceIsText();
  }

  lemma NamespaceIsText()
    ensures forall i :: 0 <= i < |SPREADSHEET| ==> '<' !in SPREADSHEET[i]
    ensures '<' !in "\n xmlns:ss=" && '<' !in ">\n "
  {
  }

  lemma NameReadsBack(tag: string, name: string, after: string)
    requires tag != "" && after != "" && after[0] == '"'
    ensures ReadAfter(tag, tag + (EscapeXml(name) + after)) == Some(name)
  {
    var s := tag + (EscapeXml(name) + after);
    assert tag <= s && s[|tag|..] == EscapeXml(name) + after;
    EscapeRoundTrip(name);
    EscapeIsSubstitution(name);
    SubstitutedHasNoQuote(name);
    QuotedTextEnds(EscapeXml(name), after);
  }

  lemma {:induction false} TextThen(tag: string, before: seq<string>, named: string)
    requires tag != "" && forall i :: 0 <= i < |before| ==> Lacks(before[i], tag)
    ensures ReadAfter(tag, Concat(before + [tag]) + named) == ReadAfter(tag, tag + named)
  {
    ConcatSnoc(before, tag);
    assert Concat(before) + tag + named == Concat(before) + (tag + named);
    SkipToTag(tag, before, tag + named);
  }

  lemma {:induction false} NameThen(tag: string, before: seq<string>, name: string, after: string)
    requires tag != "" && after != "" && after[0] == '"'
    requires forall i :: 0 <= i < |before| ==> Lacks(before[i], tag)
    ensures ReadAfter(tag, Concat(before + [tag]) + (EscapeXml(name) + after)) == Some(name)
  {
    TextThen(tag, before, EscapeXml(name) + after);
    NameReadsBack(tag, name, after);
  }

  lemma NothingBeforeTheName()
    ensures forall i :: 0 <= i < |BEFORE_NAME| ==> Lacks(BEFORE_NAME[i], NAME)
  {
    assert |NAME| > 5 && NAME[0] == '<' && NAME[5] == 's';
    DeclarationHasNoName();
    MsoHasNoName();
    WorkbookHasNoName();
    AllLack(BEFORE_NAME, NAME);
  }

  lemma AllLack(parts: seq<string>, tag: string)
    requires |tag| > 5 && tag[0] == '<' && tag[5] == 's'
    requires forall i :: 0 <= i < |parts| ==> OtherThanName(parts[i])
    ensures forall i :: 0 <= i < |parts| ==> Lacks(parts[i], tag)
  {
  }

  lemma MiddleClosesTheName()
    ensures Concat(MIDDLE) != "" && Concat(MIDDLE)[0] == '"'
  {
    assert Concat(MIDDLE) == MIDDLE[0] + Concat(MIDDLE[1..]);
  }

  /** The sheet's name is recovered, whatever it contains. */
  lemma SheetNameReadsBack(sheetName: string, headers: seq<string>, rows: seq<map<string, string>>)
    ensures ReadName(RowsToSpreadsheetMl(sheetName, headers, rows)) == Some(sheetName)
  {
    NothingBeforeTheName();
    MiddleClosesTheName();
    var grid := Csv.Cells(headers, rows);
    var body := RowXml(grid[0]) + ("\n   " + (RowsXml(grid[1..]) + Concat(EPILOGUE)));
    NameThen(NAME, BEFORE_NAME, sheetName, Concat(MIDDLE) + body);
  }

  /** Every cell of the sheet is recovered under its header, whatever the sheet's name and the cells contain. */
  lemma SpreadsheetRoundTrip(sheetName: string, headers: seq<string>, rows: seq<map<string, string>>)
    ensures ReadSheet(RowsToSpreadsheetMl(sheetName, headers, rows), []).Some?
    ensures Csv.Recovers(headers, rows, ReadSheet(RowsToSpreadsheetMl(sheetName, headers, rows), []).value)
  {
    Csv.OnlyCellsRecover(headers, rows, Csv.Cells(headers, rows));
    PrologueIsPassedOver();
    EndsArePassedOver();
    SheetReadsBack(PROLOGUE, sheetName, MIDDLE, Csv.Cells(headers, rows), EPILOGUE);
  }
}
