/**
 The export loop: pages read by key, each after the last row of the one before, from a table that
 changes between reads. `tables` is what each successive read would see; the loop stops early when
 they run out, which stands for a failed read or a client that went away.
 */
module Export {
  import opened Common
  import opened Ordering
  import Json
  import Csv

  /** The batch the service reads; everything below holds for any positive limit. */
  const EXPORT_BATCH := 500

  /** A form's submissions, by creation time and id, with what is printed of each. */
  type Table = map<Key, string>

  datatype Row = Row(key: Key, text: string)

  function After(table: Table, after: Option<Key>): set<Key> {
    set k | k in table && (after.None? || Before(after.value, k))
  }

  function PageKeys(table: Table, after: Option<Key>, limit: nat): seq<Key> {
    FirstN(After(table, after), limit)
  }

  function RowsAt(table: Table, keys: seq<Key>): (rows: seq<Row>)
    requires forall i :: 0 <= i < |keys| ==> keys[i] in table
    ensures |rows| == |keys|
    ensures forall i :: 0 <= i < |rows| ==> rows[i].key == keys[i] && rows[i].text == table[keys[i]]
  {
    seq(|keys|, i requires 0 <= i < |keys| => Row(keys[i], table[keys[i]]))
  }

  lemma PageIsInTable(table: Table, after: Option<Key>, limit: nat)
    ensures forall i :: 0 <= i < |PageKeys(table, after, limit)| ==>
              PageKeys(table, after, limit)[i] in table
              && (after.Some? ==> Before(after.value, PageKeys(table, after, limit)[i]))
  {
  }

  /** `SELECT ... WHERE (created_at, id) > after ORDER BY created_at, id LIMIT limit`. */
  function PageAfter(table: Table, after: Option<Key>, limit: nat): seq<Row> {
    PageIsInTable(table, after, limit);
    RowsAt(table, PageKeys(table, after, limit))
  }

  datatype Outcome = Outcome(rows: seq<Row>, queries: nat, done: bool)

  function Pages(tables: seq<Table>, after: Option<Key>, limit: nat): Outcome
    decreases |tables|
  {
    if tables == [] then
      Outcome([], 0, false)
    else
      var page := PageAfter(tables[0], after, limit);
      if page == [] then Outcome([], 1, true)
      else
        var rest := Pages(tables[1..], Some(page[|page| - 1].key), limit);
        Outcome(page + rest.rows, 1 + rest.queries, rest.done)
  }

  // ---------- What is emitted ----------

  predicate Ascending(rows: seq<Row>) {
    forall i, j :: 0 <= i < j < |rows| ==> Before(rows[i].key, rows[j].key)
  }

  lemma PageAscends(table: Table, after: Option<Key>, limit: nat)
    ensures var page := PageAfter(table, after, limit);
            && Ascending(page)
            && forall i :: 0 <= i < |page| ==>
                 && page[i].key in table && page[i].text == table[page[i].key]
                 && (after.Some? ==> Before(after.value, page[i].key))
  {
  }

  /** Strictly increasing in (created_at, id), so nothing is emitted twice, whatever the table does. */
  lemma {:induction false} RowsAscend(tables: seq<Table>, after: Option<Key>, limit: nat)
    ensures Ascending(Pages(tables, after, limit).rows)
    ensures forall i :: 0 <= i < |Pages(tables, after, limit).rows| ==>
              after.Some? ==> Before(after.value, Pages(tables, after, limit).rows[i].key)
    decreases |tables|
  {
    hide FirstN;
    if tables != [] {
      var page := PageAfter(tables[0], after, limit);
      PageAscends(tables[0], after, limit);
      if page != [] {
        hide PageAfter;
        RowsAscend(tables[1..], Some(page[|page| - 1].key), limit);
      }
    }
  }

  predicate SeenIn(row: Row, table: Table) {
    row.key in table && table[row.key] == row.text
  }

  /** Every row is emitted as some read saw it. */
  lemma {:induction false} RowsWereRead(tables: seq<Table>, after: Option<Key>, limit: nat, i: nat)
    requires i < |Pages(tables, after, limit).rows|
    ensures Pages(tables, after, limit).queries <= |tables|
    ensures exists r ::
              0 <= r < Pages(tables, after, limit).queries && SeenIn(Pages(tables, after, limit).rows[i], tables[r])
    decreases |tables|
  {
    hide FirstN;
    var out, page := Pages(tables, after, limit), PageAfter(tables[0], after, limit);
    PageAscends(tables[0], after, limit);
    hide PageAfter;
    ReadsAreTables(tables, after, limit);
    if i < |page| {
      assert SeenIn(out.rows[i], tables[0]);
    } else {
      var last := Some(page[|page| - 1].key);
      RowsWereRead(tables[1..], last, limit, i - |page|);
      var rest := Pages(tables[1..], last, limit);
      var r :| 0 <= r < rest.queries && SeenIn(rest.rows[i - |page|], tables[1..][r]);
      assert SeenIn(out.rows[i], tables[r + 1]);
    }
  }

  lemma {:induction false} ReadsAreTables(tables: seq<Table>, after: Option<Key>, limit: nat)
    ensures Pages(tables, after, limit).queries <= |tables|
    decreases |tables|
  {
    hide PageAfter;
    if tables != [] && PageAfter(tables[0], after, limit) != [] {
      var page := PageAfter(tables[0], after, limit);
      ReadsAreTables(tables[1..], Some(page[|page| - 1].key), limit);
    }
  }

  predicate Emitted(rows: seq<Row>, k: Key) {
    exists i :: 0 <= i < |rows| && rows[i].key == k
  }

  /** A row not on its page sorts behind the page's last row, so the next read still has it ahead. */
  lemma OnPageOrBehind(table: Table, after: Option<Key>, limit: nat, k: Key)
    requires limit > 0 && k in table && (after.Some? ==> Before(after.value, k))
    ensures var page := PageAfter(table, after, limit);
            page != [] && (Emitted(page, k) || Before(page[|page| - 1].key, k))
  {
    hide FirstN;
    var keys := PageKeys(table, after, limit);
    assert k in After(table, after);
    PageIsInTable(table, after, limit);
    if k in keys {
      var i :| 0 <= i < |keys| && keys[i] == k;
      assert PageAfter(table, after, limit)[i].key == k;
    }
  }

  /**
   A row present at every read of a completed export is emitted; by `RowsAscend`, exactly once. Rows
   inserted or deleted around it make no difference.
   */
  lemma {:induction false} StableRowsAreEmitted(tables: seq<Table>, after: Option<Key>, limit: nat, k: Key)
    requires limit > 0 && Pages(tables, after, limit).done
    requires forall r :: 0 <= r < |tables| ==> r < Pages(tables, after, limit).queries ==> k in tables[r]
    requires after.Some? ==> Before(after.value, k)
    ensures Emitted(Pages(tables, after, limit).rows, k)
    decreases |tables|
  {
    hide FirstN, PageAfter;
    var page := PageAfter(tables[0], after, limit);
    OnPageOrBehind(tables[0], after, limit, k);
    var out := Pages(tables, after, limit);
    if Emitted(page, k) {
      var i :| 0 <= i < |page| && page[i].key == k;
      assert out.rows[i].key == k;
    } else {
      var last := Some(page[|page| - 1].key);
      var rest := Pages(tables[1..], last, limit);
      assert forall r :: 0 <= r < |tables[1..]| ==> tables[1..][r] == tables[r + 1];
      StableRowsAreEmitted(tables[1..], last, limit, k);
      var i :| 0 <= i < |rest.rows| && rest.rows[i].key == k;
      assert out.rows[|page| + i].key == k;
    }
  }

  // ---------- A table that does not change ----------

  function ReadsFor(rows: nat, limit: nat): nat
    requires limit > 0
  {
    (rows + limit - 1) / limit + 1
  }

  lemma AtLeastOne(k: nat, d: nat)
    requires k > 0
    ensures k * d >= d
  {
  }

  lemma QuotientIs(n: int, d: nat, q: int, r: int)
    requires d > 0 && n == q * d + r && 0 <= r < d
    ensures n / d == q
  {
    var p := n / d;
    assert n == p * d + n % d;
    if p > q {
      assert (p - q) * d == p * d - q * d;
      AtLeastOne(p - q, d);
    } else if p < q {
      assert (q - p) * d == q * d - p * d;
      AtLeastOne(q - p, d);
    }
  }

  lemma OneReadFewer(rows: nat, limit: nat)
    requires limit > 0 && rows > 0
    ensures ReadsFor(rows, limit) == 1 + ReadsFor(if rows <= limit then 0 else rows - limit, limit)
  {
    var q, r := (rows - 1) / limit, (rows - 1) % limit;
    assert rows - 1 == q * limit + r;
    assert rows + limit - 1 == (q + 1) * limit + r;
    QuotientIs(rows + limit - 1, limit, q + 1, r);
    if rows <= limit {
      QuotientIs(rows - 1, limit, 0, rows - 1);
      QuotientIs(limit - 1, limit, 0, limit - 1);
    }
  }

  /** What a page leaves behind it. */
  lemma RestAfterPage(table: Table, after: Option<Key>, limit: nat)
    requires limit > 0 && After(table, after) != {}
    ensures var page := PageAfter(table, after, limit);
            var n := |After(table, after)|;
            && |page| == (if n <= limit then n else limit)
            && |After(table, Some(page[|page| - 1].key))| == n - |page|
  {
    hide FirstN;
    var keys := PageKeys(table, after, limit);
    var all := After(table, after);
    var k :| k in all;
    OnPageOrBehind(table, after, limit, k);
    PageIsInTable(table, after, limit);
    var taken := set i | 0 <= i < |keys| :: keys[i];
    SetOfDistinct(keys);
    var last := keys[|keys| - 1];
    forall other | other in table ensures other in After(table, Some(last)) <==> other in all - taken {
      if other in all && other !in taken { assert other !in keys; }
      if other in taken {
        var i :| 0 <= i < |keys| && keys[i] == other;
        assert i < |keys| - 1 ==> Before(keys[i], keys[|keys| - 1]);
      }
    }
    assert After(table, Some(last)) == all - taken;
    assert taken <= all;
    assert |all - taken| == |all| - |taken|;
  }

  lemma NothingLeft(table: Table, after: Option<Key>, limit: nat)
    requires limit > 0
    ensures After(table, after) == {} ==>
              PageAfter(table, after, limit) == [] && ReadsFor(|After(table, after)|, limit) == 1
    ensures ReadsFor(|After(table, after)|, limit) >= 1
  {
  }

  /** Over a fixed table of n rows the loop ends after n / limit queries, rounded up, and one more. */
  lemma {:induction false} FixedTableReads(tables: seq<Table>, table: Table, after: Option<Key>, limit: nat)
    requires limit > 0 && forall r :: 0 <= r < |tables| ==> tables[r] == table
    requires |tables| >= ReadsFor(|After(table, after)|, limit)
    ensures var out := Pages(tables, after, limit);
            out.done && out.queries == ReadsFor(|After(table, after)|, limit) && |out.rows| == |After(table, after)|
    decreases |tables|
  {
    hide FirstN, PageAfter, ReadsFor;
    NothingLeft(table, after, limit);
    if After(table, after) != {} {
      RestAfterPage(table, after, limit);
      var page := PageAfter(table, after, limit);
      OneReadFewer(|After(table, after)|, limit);
      FixedTableReads(tables[1..], table, Some(page[|page| - 1].key), limit);
    }
  }

  // ---------- The text ----------

  function Joined(rows: seq<Row>): string {
    if rows == [] then "" else if |rows| == 1 then rows[0].text else rows[0].text + "," + Joined(rows[1..])
  }

  lemma {:induction false} JoinedAppend(rows: seq<Row>, row: Row)
    ensures Joined(rows + [row]) == Joined(rows) + (if rows == [] then "" else ",") + row.text
  {
    if |rows| > 1 {
      assert (rows + [row])[1..] == rows[1..] + [row];
      JoinedAppend(rows[1..], row);
      assert rows[0].text + "," + (Joined(rows[1..]) + "," + row.text) == Joined(rows) + "," + row.text;
    } else if |rows| == 1 {
      assert (rows + [row])[1..] == [row];
    }
  }

  /** Where row `i` starts. */
  function Offset(rows: seq<Row>, i: nat): nat
    requires i <= |rows|
  {
    if i == 0 then 0 else |rows[0].text| + 1 + Offset(rows[1..], i - 1)
  }

  /** Every row's text stands at its place, one comma before the next, and there is nothing else. */
  lemma {:induction false} JoinedReads(rows: seq<Row>, i: nat)
    requires i < |rows|
    ensures var at, text := Offset(rows, i), rows[i].text;
            && at + |text| <= |Joined(rows)| && Joined(rows)[at..at + |text|] == text
            && (if i == |rows| - 1 then at + |text| == |Joined(rows)|
                else
                  && at + |text| < |Joined(rows)| && Joined(rows)[at + |text|] == ','
                  && Offset(rows, i + 1) == at + |text| + 1)
  {
    if i > 0 {
      JoinedReads(rows[1..], i - 1);
      var first, rest := rows[0].text + ",", Joined(rows[1..]);
      assert Joined(rows) == first + rest;
      var at := Offset(rows[1..], i - 1);
      assert (first + rest)[|first| + at..|first| + at + |rows[i].text|] == rest[at..at + |rows[i].text|];
    } else if |rows| > 1 {
      assert Offset(rows[1..], 0) == 0;
    }
  }

  function Concatenated(rows: seq<Row>): string {
    if rows == [] then "" else rows[0].text + Concatenated(rows[1..])
  }

  lemma {:induction false} ConcatenatedAppend(rows: seq<Row>, row: Row)
    ensures Concatenated(rows + [row]) == Concatenated(rows) + row.text
  {
    if rows == [] {
      assert (rows + [row])[1..] == [];
    } else {
      assert (rows + [row])[1..] == rows[1..] + [row];
      ConcatenatedAppend(rows[1..], row);
      assert rows[0].text + (Concatenated(rows[1..]) + row.text) == Concatenated(rows) + row.text;
    }
  }

  datatype Format = CsvFormat(header: string) | JsonFormat

  function Body(format: Format, rows: seq<Row>): string {
    match format
    case CsvFormat(header) => header + Concatenated(rows)
    case JsonFormat => "[" + Joined(rows)
  }

  lemma BodyIs(format: Format, rows: seq<Row>)
    ensures Body(format, rows) == match format case CsvFormat(header) => header + Concatenated(rows)
                                               case JsonFormat => "[" + Joined(rows)
  {
  }

  lemma BodyAppend(format: Format, rows: seq<Row>, row: Row)
    ensures Body(format, rows + [row])
         == Body(format, rows) + (if format.JsonFormat? && rows != [] then "," else "") + row.text
  {
    match format
    case CsvFormat(header) => ConcatenatedAppend(rows, row);
    case JsonFormat =>
      JoinedAppend(rows, row);
      assert "[" + (Joined(rows) + (if rows == [] then "" else ",") + row.text)
          == "[" + Joined(rows) + (if rows == [] then "" else ",") + row.text;
  }

  lemma EmptyBody(format: Format)
    ensures Body(format, []) == match format case CsvFormat(header) => header case JsonFormat => "["
  {
  }

  /**
   Streams the export. Whatever the batch size, a completed JSON export is the comma-joined rows in
   brackets, and a CSV one is the header and the rows' lines; the rows are those of `Pages`.
   */
  method StreamExport(tables: seq<Table>, format: Format, limit: nat) returns (sent: string, done: bool)
    ensures done == Pages(tables, None, limit).done
    ensures format.CsvFormat? ==> sent == format.header + Concatenated(Pages(tables, None, limit).rows)
    ensures format.JsonFormat? ==>
              sent == "[" + Joined(Pages(tables, None, limit).rows) + if done then "]" else ""
    ensures sent == Body(format, Pages(tables, None, limit).rows) + if format.JsonFormat? && done then "]" else ""
  {
    BodyIs(format, Pages(tables, None, limit).rows);
    hide PageAfter, Body;
    EmptyBody(format);
    sent := match format case CsvFormat(header) => header case JsonFormat => "[";
    var after: Option<Key> := None;
    var firstRow, queries := true, 0;
    done := false;
    ghost var rows: seq<Row> := [];
    while queries < |tables| && !done
      invariant 0 <= queries <= |tables| && firstRow == (rows == [])
      invariant sent == Body(format, rows)
      invariant !done ==> var rest := Pages(tables[queries..], after, limit);
                          Pages(tables, None, limit) == Outcome(rows + rest.rows, queries + rest.queries, rest.done)
      invariant done ==> Pages(tables, None, limit) == Outcome(rows, queries, true)
      decreases |tables| - queries, !done
    {
      var batch := PageAfter(tables[queries], after, limit);
      assert tables[queries..][1..] == tables[queries + 1..];
      ghost var before := rows;
      queries := queries + 1;
      if batch == [] {
        done := true;
      } else {
        after := Some(batch[|batch| - 1].key);
        sent, firstRow := AppendRows(sent, batch, format, firstRow, rows);
        rows := rows + batch;
        AppendAssociates(before, batch, Pages(tables[queries..], after, limit).rows);
      }
    }
    if !done {
      assert tables[queries..] == [] && rows + [] == rows;
    }
    if format.JsonFormat? && done {
      sent := sent + "]";
    }
  }

  lemma AppendAssociates(a: seq<Row>, b: seq<Row>, c: seq<Row>)
    ensures a + (b + c) == (a + b) + c
  {
  }

  /** One batch formatted and added to what has been sent. */
  method AppendRows(sent: string, batch: seq<Row>, format: Format, first: bool, ghost rows: seq<Row>)
    returns (text: string, firstRow: bool)
    requires first == (rows == []) && sent == Body(format, rows)
    ensures firstRow == (rows + batch == []) && text == Body(format, rows + batch)
  {
    hide Body;
    text, firstRow := sent, first;
    ghost var all := rows;
    var i := 0;
    while i < |batch|
      invariant 0 <= i <= |batch|
      invariant all == rows + batch[..i] && firstRow == (all == []) && text == Body(format, all)
    {
      BodyAppend(format, all, batch[i]);
      text := text + (if format.JsonFormat? && !firstRow then "," else "") + batch[i].text;
      all, firstRow := all + [batch[i]], false;
      i := i + 1;
    }
    assert batch[..i] == batch;
  }

  // ---------- The CSV export, end to end ----------

  lemma {:induction false} ConcatenatedIsLines(rows: seq<Row>, cells: seq<seq<string>>)
    requires |rows| == |cells| && forall i :: 0 <= i < |cells| ==> cells[i] != [] && rows[i].text == Csv.Line(cells[i])
    ensures Concatenated(rows) == Csv.Lines(cells)
    decreases |rows|
  {
    hide Csv.Line;
    if rows != [] {
      ConcatenatedIsLines(rows[1..], cells[1..]);
    }
  }

  /** What a CSV export sent, however it was paged, parses back to the header and the rows' cells. */
  lemma CsvExportReadsBack(rows: seq<Row>, columns: seq<string>, submissions: seq<Csv.Submission>,
      printer: Json.Value -> string)
    requires |rows| == |submissions|
    requires forall i :: 0 <= i < |rows| ==> rows[i].text == Csv.Line(Csv.Cells(columns, submissions[i], printer))
    ensures Csv.Parse(Body(CsvFormat(Csv.Line(Csv.FIXED + columns)), rows))
         == Some([Csv.FIXED + columns] + Csv.Rows(columns, submissions, printer))
  {
    hide Csv.Line, Csv.Lines, Csv.Parse, Csv.Cells;
    var cells := Csv.Rows(columns, submissions, printer);
    ConcatenatedIsLines(rows, cells);
    Csv.FileComesBack(columns, submissions, printer);
  }
}
