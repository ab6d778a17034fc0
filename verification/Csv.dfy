/** The CSV export of the audit log, and a reader of section 2 of RFC 4180 that undoes it. */
module Csv {
  import opened Common
  import opened CanonicalJson
  import opened CanonicalJsonTheorems

  const APOSTROPHE: Unit := 0x27
  const CR: Unit := 0x0D
  const LF: Unit := 0x0A
  const BYTE_ORDER_MARK: Unit := 0xFEFF

  /** = + - @ TAB CR at the start of a cell make a spreadsheet read a formula. */
  predicate StartsFormula(s: Text) { s != [] && s[0] in {0x3D, 0x2B, 0x2D, 0x40, 0x09, 0x0D} }

  /** A missing value prints as the empty text. */
  function Protect(cell: Option<Text>): Text {
    var text := if cell.None? then [] else cell.value;
    if StartsFormula(text) then [APOSTROPHE] + text else text
  }

  /** replaceAll('"', '""') */
  function DoubleQuotes(s: Text): Text {
    if s == [] then [] else (if s[0] == QUOTE then [QUOTE, QUOTE] else [s[0]]) + DoubleQuotes(s[1..])
  }

  function PrintCell(text: Text): Text { [QUOTE] + DoubleQuotes(text) + [QUOTE] }

  function ProtectAll(cells: seq<Option<Text>>): (r: seq<Text>)
    ensures |r| == |cells|
  {
    seq(|cells|, i requires 0 <= i < |cells| => Protect(cells[i]))
  }

  function PrintCells(cells: seq<Text>): Text {
    if cells == [] then [] else PrintCell(cells[0]) + if |cells| == 1 then [] else [COMMA] + PrintCells(cells[1..])
  }

  /** csvRow */
  function CsvRow(cells: seq<Option<Text>>): Text { PrintCells(ProtectAll(cells)) }

  /** The lines joined by CR LF, with one more at the end. */
  function PrintLines(rows: seq<seq<Option<Text>>>): Text {
    if rows == [] then [] else CsvRow(rows[0]) + [CR, LF] + PrintLines(rows[1..])
  }

  /** A record as the export shows it. */
  datatype AuditRow = AuditRow(
    id: Text, occurredAt: Text, sourceService: Text, eventType: Text, actorType: Text, actorId: Text,
    resourceType: Text, resourceId: Text, outcome: Text, classification: Text, correlationId: Text, recordHash: Text)

  function Cells(row: AuditRow): seq<Option<Text>> {
    [Some(row.id), Some(row.occurredAt), Some(row.sourceService), Some(row.eventType), Some(row.actorType),
     Some(row.actorId), Some(row.resourceType), Some(row.resourceId), Some(row.outcome), Some(row.classification),
     Some(row.correlationId), Some(row.recordHash)]
  }

  function AllCells(rows: seq<AuditRow>): (r: seq<seq<Option<Text>>>)
    ensures |r| == |rows|
  {
    seq(|rows|, i requires 0 <= i < |rows| => Cells(rows[i]))
  }

  /** renderCsv: a byte order mark, the header and one line a record. */
  function RenderCsv(header: seq<Option<Text>>, rows: seq<AuditRow>): Text {
    [BYTE_ORDER_MARK] + PrintLines([header] + AllCells(rows))
  }

  // ---------------------------------------------------------------- reading

  /** A quoted field after its opening quote: two quotes stand for one. */
  function ReadQuoted(s: Text): (r: Option<(Text, Text)>)
    ensures r.Some? ==> |r.value.1| < |s|
    decreases |s|
  {
    if s == [] then None
    else if s[0] == QUOTE && |s| > 1 && s[1] == QUOTE then
      var rest := ReadQuoted(s[2..]);
      if rest.None? then None else Some(([QUOTE] + rest.value.0, rest.value.1))
    else if s[0] == QUOTE then Some(([], s[1..]))
    else
      var rest := ReadQuoted(s[1..]);
      if rest.None? then None else Some(([s[0]] + rest.value.0, rest.value.1))
  }

  /** An unquoted field: up to a comma or the end of the line. */
  function ReadPlain(s: Text): (r: Option<(Text, Text)>)
    ensures r.Some? ==> |r.value.1| <= |s|
    decreases |s|
  {
    if s == [] || s[0] in {COMMA, CR} then Some(([], s))
    else if s[0] in {QUOTE, LF} then None
    else
      var rest := ReadPlain(s[1..]);
      if rest.None? then None else Some(([s[0]] + rest.value.0, rest.value.1))
  }

  function ReadField(s: Text): (r: Option<(Text, Text)>)
    ensures r.Some? ==> |r.value.1| <= |s|
  {
    if s != [] && s[0] == QUOTE then ReadQuoted(s[1..]) else ReadPlain(s)
  }

  /** One record, up to and past its CR LF. */
  function ReadRecord(s: Text): (r: Option<(seq<Text>, Text)>)
    ensures r.Some? ==> |r.value.1| < |s|
    decreases |s|
  {
    var field := ReadField(s);
    if field.None? then None else
      var (text, rest) := field.value;
      if |rest| >= 2 && rest[0] == CR && rest[1] == LF then Some(([text], rest[2..]))
      else if rest != [] && rest[0] == COMMA then
        var others := ReadRecord(rest[1..]);
        if others.None? then None else Some(([text] + others.value.0, others.value.1))
      else None
  }

  function ReadRecords(s: Text): Option<seq<seq<Text>>>
    decreases |s|
  {
    if s == [] then Some([]) else
      var first := ReadRecord(s);
      if first.None? then None else
        var others := ReadRecords(first.value.1);
        if others.None? then None else Some([first.value.0] + others.value)
  }

  /** A file with its byte order mark. */
  function ReadCsv(s: Text): Option<seq<seq<Text>>> {
    if s == [] || s[0] != BYTE_ORDER_MARK then None else ReadRecords(s[1..])
  }

  // ---------------------------------------------------------------- round trip

  lemma {:induction false} QuotedRoundTrip(x: Text, tail: Text)
    requires tail == [] || tail[0] != QUOTE
    ensures ReadQuoted(DoubleQuotes(x) + [QUOTE] + tail) == Some((x, tail))
  {
    if x == [] {
      QuotedEnd(tail);
      assert DoubleQuotes(x) + [QUOTE] + tail == [QUOTE] + tail;
    } else {
      var rest := DoubleQuotes(x[1..]) + [QUOTE] + tail;
      QuotedRoundTrip(x[1..], tail);
      QuotedStep(x[0], rest, x[1..], tail);
      Regroup(if x[0] == QUOTE then [QUOTE, QUOTE] else [x[0]], DoubleQuotes(x[1..]), [QUOTE], tail);
      assert x == [x[0]] + x[1..];
    }
  }

  lemma QuotedEnd(tail: Text)
    requires tail == [] || tail[0] != QUOTE
    ensures ReadQuoted([QUOTE] + tail) == Some(([], tail))
  {
    assert ([QUOTE] + tail)[1..] == tail;
  }

  lemma QuotedStep(u: Unit, rest: Text, more: Text, tail: Text)
    requires ReadQuoted(rest) == Some((more, tail))
    ensures ReadQuoted((if u == QUOTE then [QUOTE, QUOTE] else [u]) + rest) == Some(([u] + more, tail))
  {
    if u == QUOTE {
      assert ([QUOTE, QUOTE] + rest)[2..] == rest;
    } else {
      assert ([u] + rest)[1..] == rest;
    }
  }

  lemma FieldRoundTrip(x: Text, tail: Text)
    requires tail == [] || tail[0] != QUOTE
    ensures ReadField(PrintCell(x) + tail) == Some((x, tail))
  {
    QuotedRoundTrip(x, tail);
    var body := DoubleQuotes(x) + [QUOTE] + tail;
    assert PrintCell(x) + tail == [QUOTE] + body && ([QUOTE] + body)[1..] == body;
  }

  lemma RecordEnds(s: Text, text: Text, tail: Text)
    requires ReadField(s) == Some((text, [CR, LF] + tail))
    ensures ReadRecord(s) == Some(([text], tail))
  {
    assert ([CR, LF] + tail)[2..] == tail;
  }

  lemma RecordContinues(s: Text, text: Text, more: Text, others: seq<Text>, tail: Text)
    requires ReadField(s) == Some((text, [COMMA] + more)) && ReadRecord(more) == Some((others, tail))
    ensures ReadRecord(s) == Some(([text] + others, tail))
  {
    assert ([COMMA] + more)[1..] == more;
  }

  lemma {:induction false} RecordRoundTrip(cells: seq<Text>, tail: Text)
    requires cells != []
    ensures ReadRecord(PrintCells(cells) + [CR, LF] + tail) == Some((cells, tail))
  {
    var s := PrintCells(cells) + [CR, LF] + tail;
    if |cells| == 1 {
      FieldRoundTrip(cells[0], [CR, LF] + tail);
      Regroup(PrintCell(cells[0]), [], [CR, LF], tail);
      assert [] + [CR, LF] + tail == [CR, LF] + tail;
      RecordEnds(s, cells[0], tail);
      assert cells == [cells[0]];
    } else {
      var more := PrintCells(cells[1..]) + [CR, LF] + tail;
      RecordRoundTrip(cells[1..], tail);
      FieldRoundTrip(cells[0], [COMMA] + more);
      Regroup(PrintCell(cells[0]), [COMMA] + PrintCells(cells[1..]), [CR, LF], tail);
      Regroup([COMMA], PrintCells(cells[1..]), [CR, LF], tail);
      RecordContinues(s, cells[0], more, cells[1..], tail);
      assert cells == [cells[0]] + cells[1..];
    }
  }

  function ProtectRows(rows: seq<seq<Option<Text>>>): (r: seq<seq<Text>>)
    ensures |r| == |rows|
  {
    if rows == [] then [] else [ProtectAll(rows[0])] + ProtectRows(rows[1..])
  }

  /** The reader gets the table of protected cells back, whatever quotes, commas and line ends they hold. */
  lemma {:induction false} LinesRoundTrip(rows: seq<seq<Option<Text>>>)
    requires forall i :: 0 <= i < |rows| ==> rows[i] != []
    ensures ReadRecords(PrintLines(rows)) == Some(ProtectRows(rows))
  {
    if rows != [] {
      RecordRoundTrip(ProtectAll(rows[0]), PrintLines(rows[1..]));
      LinesRoundTrip(rows[1..]);
    }
  }

  lemma CsvRoundTrip(header: seq<Option<Text>>, rows: seq<AuditRow>)
    requires header != []
    ensures ReadCsv(RenderCsv(header, rows)) == Some([ProtectAll(header)] + ProtectRows(AllCells(rows)))
  {
    var lines := [header] + AllCells(rows);
    LinesRoundTrip(lines);
    assert RenderCsv(header, rows)[1..] == PrintLines(lines);
    assert lines[1..] == AllCells(rows);
  }

  // ---------------------------------------------------------------- protection

  lemma {:induction false} ProtectRowsAt(rows: seq<seq<Option<Text>>>, i: nat)
    requires i < |rows|
    ensures ProtectRows(rows)[i] == ProtectAll(rows[i])
  {
    if i > 0 { ProtectRowsAt(rows[1..], i - 1); }
  }

  /** No cell that a reader recovers from an export starts a formula. */
  lemma NoRecoveredFormula(header: seq<Option<Text>>, rows: seq<AuditRow>, i: nat, k: nat)
    requires header != []
    requires var table := ReadCsv(RenderCsv(header, rows));
             table.Some? && i < |table.value| && k < |table.value[i]|
    ensures !StartsFormula(ReadCsv(RenderCsv(header, rows)).value[i][k])
  {
    CsvRoundTrip(header, rows);
    if i > 0 { ProtectRowsAt(AllCells(rows), i - 1); }
  }

  /** Two different cells are exported alike exactly when one is missing and the other empty, or one is
    * the other, a formula, with the apostrophe already in front. */
  lemma ProtectCollides(a: Option<Text>, b: Option<Text>)
    requires a != b
    ensures Protect(a) == Protect(b) <==>
            || (a.None? && b == Some([])) || (b.None? && a == Some([]))
            || (a.Some? && StartsFormula(a.value) && b == Some([APOSTROPHE] + a.value))
            || (b.Some? && StartsFormula(b.value) && a == Some([APOSTROPHE] + b.value))
  {
    if a.Some? && b.Some? {
      assert ([APOSTROPHE] + a.value)[1..] == a.value && ([APOSTROPHE] + b.value)[1..] == b.value;
    }
  }

  /** A cell is shown as it is, unless it starts with = + - @ TAB or CR: then with an apostrophe in front. */
  ghost predicate ShownAs(x: Text, y: Text) {
    if x != [] && (x[0] == 0x3D || x[0] == 0x2B || x[0] == 0x2D || x[0] == 0x40 || x[0] == 0x09 || x[0] == 0x0D)
    then y == [APOSTROPHE] + x else y == x
  }

  /** A line with the columns of the record, in this order. */
  ghost predicate ShownRow(row: AuditRow, line: seq<Text>) {
    && |line| == 12
    && ShownAs(row.id, line[0]) && ShownAs(row.occurredAt, line[1]) && ShownAs(row.sourceService, line[2])
    && ShownAs(row.eventType, line[3]) && ShownAs(row.actorType, line[4]) && ShownAs(row.actorId, line[5])
    && ShownAs(row.resourceType, line[6]) && ShownAs(row.resourceId, line[7]) && ShownAs(row.outcome, line[8])
    && ShownAs(row.classification, line[9]) && ShownAs(row.correlationId, line[10])
    && ShownAs(row.recordHash, line[11])
  }

  lemma ProtectedShown(x: Text)
    ensures ShownAs(x, Protect(Some(x)))
  {
  }

  lemma CellsShown(row: AuditRow, line: seq<Text>)
    requires line == ProtectAll(Cells(row))
    ensures ShownRow(row, line)
  {
    forall k | 0 <= k < 12 ensures line[k] == Protect(Cells(row)[k]) && ShownAs(Cells(row)[k].value, line[k]) {
      ProtectedShown(Cells(row)[k].value);
    }
  }

  lemma RowInTable(header: seq<Option<Text>>, rows: seq<AuditRow>, i: nat) returns (line: seq<Text>)
    requires header != [] && i < |rows|
    ensures var table := ReadCsv(RenderCsv(header, rows));
            table.Some? && |table.value| == |rows| + 1 && line == table.value[i + 1] == ProtectAll(Cells(rows[i]))
  {
    CsvRoundTrip(header, rows);
    ProtectRowsAt(AllCells(rows), i);
    line := ProtectAll(Cells(rows[i]));
  }

  /** A reader of the export finds the columns of each record in the order of the header. */
  lemma ExportedRow(header: seq<Option<Text>>, rows: seq<AuditRow>, i: nat) returns (line: seq<Text>)
    requires header != [] && i < |rows|
    ensures var table := ReadCsv(RenderCsv(header, rows));
            table.Some? && |table.value| == |rows| + 1 && line == table.value[i + 1]
    ensures ShownRow(rows[i], line)
  {
    line := RowInTable(header, rows, i);
    CellsShown(rows[i], line);
  }

  /** No cell that a reader recovers from an export starts with one of these characters. */
  lemma NoFormulaCharacter(header: seq<Option<Text>>, rows: seq<AuditRow>, i: nat, k: nat)
    requires header != []
    requires var table := ReadCsv(RenderCsv(header, rows));
             table.Some? && i < |table.value| && k < |table.value[i]| && table.value[i][k] != []
    ensures ReadCsv(RenderCsv(header, rows)).value[i][k][0] !in {0x3D, 0x2B, 0x2D, 0x40, 0x09, 0x0D}
  {
    NoRecoveredFormula(header, rows, i, k);
  }
}
