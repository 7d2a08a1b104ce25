/** The CSV side of the export, against a parser for section 2 of RFC 4180 that also takes bare LF. */
module Csv {
  import opened Common
  import opened Json

  datatype Submission = Submission(id: string, createdAt: string, status: string, data: map<string, Value>)

  predicate Special(c: char) {
    c == ',' || c == '"' || c == '\n' || c == '\r'
  }

  predicate NeedsQuotes(value: string) {
    exists i :: 0 <= i < |value| && Special(value[i])
  }

  function Doubled(value: string): string {
    if value == "" then ""
    else (if value[0] == '"' then "\"\"" else [value[0]]) + Doubled(value[1..])
  }

  function Escape(value: string): string {
    if NeedsQuotes(value) then "\"" + Doubled(value) + "\"" else value
  }

  /** `printer` is the JSON printer, used for numbers and structured answers. */
  function Render(value: Value, printer: Value -> string): string {
    match value
    case Null => ""
    case Text(text) => text
    case Flag(flag) => if flag then "true" else "false"
    case _ => printer(value)
  }

  function Answer(submission: Submission, column: string, printer: Value -> string): string {
    if column in submission.data then Render(submission.data[column], printer) else ""
  }

  /** What a row says: id, timestamp, status, and one rendered answer per column. */
  function Cells(columns: seq<string>, submission: Submission, printer: Value -> string): seq<string> {
    [submission.id, submission.createdAt, submission.status]
    + seq(|columns|, i requires 0 <= i < |columns| => Answer(submission, columns[i], printer))
  }

  /** What each cell says, place by place; the cells after the third stand under their columns. */
  lemma CellsSay(columns: seq<string>, submission: Submission, printer: Value -> string)
    ensures var cells := Cells(columns, submission, printer);
            && |cells| == 3 + |columns|
            && cells[0] == submission.id && cells[1] == submission.createdAt && cells[2] == submission.status
            && forall i :: 0 <= i < |columns| ==>
                 var cell := cells[3 + i];
                 if columns[i] !in submission.data then cell == ""
                 else match submission.data[columns[i]]
                      case Null => cell == ""
                      case Text(text) => cell == text
                      case Flag(flag) => cell == if flag then "true" else "false"
                      case _ => cell == printer(submission.data[columns[i]])
  {
  }

  function Fields(cells: seq<string>): string {
    if cells == [] then "" else "," + Escape(cells[0]) + Fields(cells[1..])
  }

  function Line(cells: seq<string>): string
    requires cells != []
  {
    Escape(cells[0]) + Fields(cells[1..]) + "\n"
  }

  function Lines(rows: seq<seq<string>>): string
    requires forall i :: 0 <= i < |rows| ==> rows[i] != []
  {
    if rows == [] then "" else Line(rows[0]) + Lines(rows[1..])
  }

  // ---------- Printing ----------

  /** `line` is what the row says so far, up to cell `k`. */
  ghost predicate Printed(line: string, cells: seq<string>, k: nat)
    requires 1 <= k <= |cells|
  {
    line + Fields(cells[k..]) == Escape(cells[0]) + Fields(cells[1..])
  }

  lemma FieldPrinted(line: string, cells: seq<string>, k: nat)
    requires 1 <= k < |cells| && Printed(line, cells, k)
    ensures Printed(line + "," + Escape(cells[k]), cells, k + 1)
  {
  }

  lemma FixedPrinted(cells: seq<string>)
    requires |cells| >= 3
    ensures Printed(Escape(cells[0]) + "," + Escape(cells[1]) + "," + Escape(cells[2]), cells, 3)
  {
  }

  lemma RowPrinted(line: string, cells: seq<string>)
    requires cells != [] && Printed(line, cells, |cells|)
    ensures line + "\n" == Line(cells)
  {
  }

  method CsvRow(columns: seq<string>, submission: Submission, printer: Value -> string) returns (line: string)
    ensures line == Line(Cells(columns, submission, printer))
  {
    ghost var cells := Cells(columns, submission, printer);
    FixedPrinted(cells);
    hide Escape, Fields, Line, Printed;
    line := Escape(submission.id) + "," + Escape(submission.createdAt) + "," + Escape(submission.status);
    var i := 0;
    while i < |columns|
      invariant 0 <= i <= |columns|
      invariant Printed(line, cells, 3 + i)
    {
      FieldPrinted(line, cells, 3 + i);
      var value := if columns[i] in submission.data then Render(submission.data[columns[i]], printer) else "";
      line := line + "," + Escape(value);
      i := i + 1;
    }
    RowPrinted(line, cells);
    line := line + "\n";
  }

  const FIXED: seq<string> := ["id", "created_at", "status"]

  function HeaderCells(columns: seq<string>): (cells: seq<string>)
    ensures |cells| == 3 + |columns|
    ensures forall i :: 0 <= i < |columns| ==> cells[3 + i] == columns[i]
  {
    FIXED + columns
  }

  lemma FixedCells()
    ensures Escape(FIXED[0]) == "id" && Escape(FIXED[1]) == "created_at" && Escape(FIXED[2]) == "status"
  {
    assert !NeedsQuotes("id") && !NeedsQuotes("created_at") && !NeedsQuotes("status");
  }

  lemma Literal()
    ensures "id" + "," + "created_at" + "," + "status" == "id,created_at,status"
  {
  }

  lemma FixedHeader(columns: seq<string>)
    ensures Printed("id,created_at,status", HeaderCells(columns), 3)
  {
    hide Printed, Escape;
    var cells := HeaderCells(columns);
    assert cells[0] == FIXED[0] && cells[1] == FIXED[1] && cells[2] == FIXED[2];
    FixedPrinted(cells);
    FixedCells();
    Literal();
  }

  method CsvHeader(columns: seq<string>) returns (header: string)
    ensures header == Line(FIXED + columns)
  {
    FixedHeader(columns);
    hide Printed, Line;
    header := AppendColumns("id,created_at,status", columns, HeaderCells(columns));
  }

  method AppendColumns(fixed: string, columns: seq<string>, ghost cells: seq<string>) returns (header: string)
    requires |cells| == 3 + |columns| && forall i :: 0 <= i < |columns| ==> cells[3 + i] == columns[i]
    requires Printed(fixed, cells, 3)
    ensures header == Line(cells)
  {
    hide Escape, Fields, Line, Printed;
    header := fixed;
    var i := 0;
    while i < |columns|
      invariant 0 <= i <= |columns|
      invariant Printed(header, cells, 3 + i)
    {
      FieldPrinted(header, cells, 3 + i);
      header := header + "," + Escape(columns[i]);
      i := i + 1;
    }
    RowPrinted(header, cells);
    header := header + "\n";
  }

  // ---------- Parsing ----------

  datatype Scan = Scan(cell: string, rest: string)

  datatype Row = Row(cells: seq<string>, rest: string)

  /** Inside quotes: up to the closing quote, a doubled quote standing for one. */
  function ScanQuoted(text: string): (r: Option<Scan>)
    ensures r.Some? ==> |r.value.rest| < |text|
  {
    if text == "" then None
    else if text[0] != '"' then Prefixed(text[0], ScanQuoted(text[1..]))
    else if |text| > 1 && text[1] == '"' then Prefixed('"', ScanQuoted(text[2..]))
    else Some(Scan("", text[1..]))
  }

  function Prefixed(c: char, scan: Option<Scan>): (r: Option<Scan>)
    ensures r.Some? <==> scan.Some?
    ensures r.Some? ==> r.value.rest == scan.value.rest && r.value.cell == [c] + scan.value.cell
  {
    if scan.None? then None else Some(Scan([c] + scan.value.cell, scan.value.rest))
  }

  /** Outside quotes: up to the next comma, quote or line break. */
  function ScanPlain(text: string): (r: Scan)
    ensures |r.rest| <= |text|
  {
    if text == "" || Special(text[0]) then Scan("", text)
    else var tail := ScanPlain(text[1..]); Scan([text[0]] + tail.cell, tail.rest)
  }

  function ParseCell(text: string): (r: Option<Scan>)
    ensures r.Some? ==> |r.value.rest| <= |text|
  {
    if text != "" && text[0] == '"' then ScanQuoted(text[1..]) else Some(ScanPlain(text))
  }

  function ParseRow(text: string): (r: Option<Row>)
    ensures r.Some? && text != "" ==> |r.value.rest| < |text|
    decreases |text|
  {
    var scan := ParseCell(text);
    if scan.None? then None
    else
      var rest := scan.value.rest;
      if rest == "" then Some(Row([scan.value.cell], ""))
      else if rest[0] == ',' then
        var tail := ParseRow(rest[1..]);
        if tail.None? then None else Some(Row([scan.value.cell] + tail.value.cells, tail.value.rest))
      else if rest[0] == '\n' then Some(Row([scan.value.cell], rest[1..]))
      else if |rest| > 1 && rest[..2] == "\r\n" then Some(Row([scan.value.cell], rest[2..]))
      else None
  }

  function Parse(text: string): Option<seq<seq<string>>>
    decreases |text|
  {
    if text == "" then Some([])
    else
      var row := ParseRow(text);
      if row.None? then None
      else
        var tail := Parse(row.value.rest);
        if tail.None? then None else Some([row.value.cells] + tail.value)
  }

  // ---------- Round trip ----------

  predicate Ends(rest: string) {
    rest != "" && (rest[0] == ',' || rest[0] == '\n')
  }

  lemma {:induction false} QuotedComesBack(cell: string, rest: string)
    requires Ends(rest)
    ensures ScanQuoted(Doubled(cell) + "\"" + rest) == Some(Scan(cell, rest))
  {
    if cell == "" {
      assert Doubled(cell) + "\"" + rest == "\"" + rest;
      assert ("\"" + rest)[1..] == rest;
    } else {
      var first := if cell[0] == '"' then "\"\"" else [cell[0]];
      var text, tail := Doubled(cell) + "\"" + rest, Doubled(cell[1..]) + "\"" + rest;
      assert text == first + tail;
      assert text[|first|..] == tail;
      QuotedComesBack(cell[1..], rest);
      assert [cell[0]] + cell[1..] == cell;
    }
  }

  lemma {:induction false} PlainComesBack(cell: string, rest: string)
    requires Ends(rest) && !NeedsQuotes(cell)
    ensures ScanPlain(cell + rest) == Scan(cell, rest)
  {
    if cell == "" {
      assert cell + rest == rest;
    } else {
      assert Special(cell[0]) ==> NeedsQuotes(cell);
      assert (cell + rest)[1..] == cell[1..] + rest;
      assert forall i :: 0 <= i < |cell[1..]| ==> cell[1..][i] == cell[i + 1];
      PlainComesBack(cell[1..], rest);
      assert [cell[0]] + cell[1..] == cell;
    }
  }

  lemma PlainStart(cell: string, rest: string)
    requires Ends(rest) && !NeedsQuotes(cell)
    ensures cell + rest != "" && (cell + rest)[0] != '"'
  {
  }

  /** Whatever a cell contains, escaping it and parsing it gives it back, and nothing of what follows. */
  lemma CellComesBack(cell: string, rest: string)
    requires Ends(rest)
    ensures ParseCell(Escape(cell) + rest) == Some(Scan(cell, rest))
  {
    hide ScanQuoted, ScanPlain, Doubled;
    if NeedsQuotes(cell) {
      assert (Escape(cell) + rest)[1..] == Doubled(cell) + "\"" + rest;
      hide NeedsQuotes;
      QuotedComesBack(cell, rest);
    } else {
      PlainStart(cell, rest);
      hide NeedsQuotes;
      PlainComesBack(cell, rest);
    }
  }

  lemma {:induction false} RowComesBack(cells: seq<string>, rest: string)
    requires cells != []
    ensures ParseRow(Line(cells) + rest) == Some(Row(cells, rest))
    decreases |cells|
  {
    hide Escape, ParseCell;
    var tail := Fields(cells[1..]) + "\n" + rest;
    assert Line(cells) + rest == Escape(cells[0]) + tail;
    CellComesBack(cells[0], tail);
    if |cells| == 1 {
      assert tail == "\n" + rest;
      assert tail[1..] == rest;
      assert cells == [cells[0]];
    } else {
      assert tail[1..] == Line(cells[1..]) + rest;
      RowComesBack(cells[1..], rest);
      assert [cells[0]] + cells[1..] == cells;
    }
  }

  lemma LineIsNotEmpty(cells: seq<string>)
    requires cells != []
    ensures Line(cells) != ""
  {
  }

  lemma {:induction false} LinesComeBack(rows: seq<seq<string>>)
    requires forall i :: 0 <= i < |rows| ==> rows[i] != []
    ensures Parse(Lines(rows)) == Some(rows)
    decreases |rows|
  {
    hide Line, ParseRow;
    if rows != [] {
      assert Line(rows[0]) + Lines(rows[1..]) != "" by { LineIsNotEmpty(rows[0]); }
      RowComesBack(rows[0], Lines(rows[1..]));
      LinesComeBack(rows[1..]);
      assert [rows[0]] + rows[1..] == rows;
    }
  }

  function Rows(columns: seq<string>, submissions: seq<Submission>, printer: Value -> string): (rows: seq<seq<string>>)
    ensures |rows| == |submissions|
    ensures forall i :: 0 <= i < |rows| ==> rows[i] != [] && rows[i] == Cells(columns, submissions[i], printer)
  {
    seq(|submissions|, i requires 0 <= i < |submissions| => Cells(columns, submissions[i], printer))
  }

  /**
   An exported file reads back as exactly what was exported: the header's cells, then one record per
   submission with its id, timestamp, status and answers in column order, whatever text they hold.
   */
  lemma FileComesBack(columns: seq<string>, submissions: seq<Submission>, printer: Value -> string)
    ensures Parse(Line(FIXED + columns) + Lines(Rows(columns, submissions, printer)))
         == Some([FIXED + columns] + Rows(columns, submissions, printer))
  {
    var rows := [FIXED + columns] + Rows(columns, submissions, printer);
    assert rows[1..] == Rows(columns, submissions, printer);
    LinesComeBack(rows);
  }
}
