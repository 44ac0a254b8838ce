/** CSV export (frontend/src/utils/export.ts) against a reader of section 2 of RFC 4180. */
module Csv {
  import opened Text

  // Printing

  /** A cell as it arrives: objects with their JSON text, everything else with its `String` form. */
  datatype Value = Null | Undefined | Object(json: string) | Primitive(text: string)

  function Raw(v: Value): string {
    match v
    case Null => ""
    case Undefined => ""
    case Object(json) => json
    case Primitive(text) => text
  }

  predicate Special(c: char) {
    c == '"' || c == ',' || c == '\r' || c == '\n'
  }

  predicate NeedsQuotes(raw: string) {
    exists i :: 0 <= i < |raw| && Special(raw[i])
  }

  function Doubled(raw: string): string {
    if raw == "" then "" else (if raw[0] == '"' then "\"\"" else [raw[0]]) + Doubled(raw[1..])
  }

  function Cell(raw: string): string {
    if NeedsQuotes(raw) then "\"" + Doubled(raw) + "\"" else raw
  }

  const CRLF := "\r\n"

  type Record = seq<string>

  function Printed(record: Record): seq<string> {
    seq(|record|, i requires 0 <= i < |record| => Cell(record[i]))
  }

  function Line(record: Record): string {
    Join(",", Printed(record))
  }

  function Lines(records: seq<Record>): seq<string> {
    seq(|records|, i requires 0 <= i < |records| => Line(records[i]))
  }

  type Row = map<string, Value>

  function Lookup(row: Row, column: string): Value {
    if column in row then row[column] else Undefined
  }

  function CellsOf(row: Row, columns: seq<string>): Record {
    seq(|columns|, i requires 0 <= i < |columns| => Raw(Lookup(row, columns[i])))
  }

  /** The table that is meant: the header, then a record per row. */
  function TableOf(rows: seq<Row>, columns: seq<string>): seq<Record> {
    [columns] + seq(|rows|, i requires 0 <= i < |rows| => CellsOf(rows[i], columns))
  }

  function CreateCsv(rows: seq<Row>, columns: seq<string>): string {
    Join(CRLF, Lines(TableOf(rows, columns)))
  }

  // Reading

  /** How a field ended, and the text behind it. */
  datatype End = AtComma(rest: string) | AtBreak(rest: string) | AtEnd

  datatype Field = Field(text: string, end: End)

  predicate StartsBreak(s: string) {
    |s| >= 2 && s[0] == '\r' && s[1] == '\n'
  }

  function EndOf(s: string): Option<End> {
    if s == "" then Some(AtEnd)
    else if s[0] == ',' then Some(AtComma(s[1..]))
    else if StartsBreak(s) then Some(AtBreak(s[2..]))
    else None
  }

  function Prepend(c: char, f: Option<Field>): Option<Field> {
    if f.None? then None else Some(Field([c] + f.value.text, f.value.end))
  }

  /** An unquoted field has no quote and no stray line break. */
  function Plain(s: string): Option<Field> {
    var end := EndOf(s);
    if end.Some? then Some(Field("", end.value))
    else if Special(s[0]) then None
    else Prepend(s[0], Plain(s[1..]))
  }

  /** The rest of a field after its opening quote. */
  function Quoted(s: string): Option<Field> {
    if s == "" then None
    else if s[0] != '"' then Prepend(s[0], Quoted(s[1..]))
    else if |s| > 1 && s[1] == '"' then Prepend('"', Quoted(s[2..]))
    else
      var end := EndOf(s[1..]);
      if end.Some? then Some(Field("", end.value)) else None
  }

  function ReadField(s: string): (f: Option<Field>)
    ensures f.Some? && !f.value.end.AtEnd? ==> |f.value.end.rest| < |s|
  {
    PlainShortens(s);
    if s != "" && s[0] == '"' then QuotedShortens(s[1..]); Quoted(s[1..]) else Plain(s)
  }

  lemma PlainShortens(s: string)
    ensures Plain(s).Some? && !Plain(s).value.end.AtEnd? ==> |Plain(s).value.end.rest| < |s|
  {
  }

  lemma QuotedShortens(s: string)
    ensures Quoted(s).Some? && !Quoted(s).value.end.AtEnd? ==> |Quoted(s).value.end.rest| < |s|
  {
  }

  /** Records separated by line breaks; the last has none behind it. */
  function Records(s: string): (r: Option<seq<Record>>)
    ensures r.Some? ==> r.value != [] && forall i :: 0 <= i < |r.value| ==> r.value[i] != []
    decreases |s|
  {
    var f := ReadField(s);
    if f.None? then None
    else
      match f.value.end
      case AtEnd => Some([[f.value.text]])
      case AtComma(rest) =>
        var more := Records(rest);
        if more.None? then None else Some([[f.value.text] + more.value[0]] + more.value[1..])
      case AtBreak(rest) =>
        var more := Records(rest);
        if more.None? then None else Some([[f.value.text]] + more.value)
  }

  // Printing, then reading

  lemma {:induction false} QuotedUndoesDoubled(raw: string, tail: string)
    requires EndOf(tail).Some?
    ensures Quoted(Doubled(raw) + "\"" + tail) == Some(Field(raw, EndOf(tail).value))
  {
    var s := Doubled(raw) + "\"" + tail;
    if raw == "" {
      assert s[1..] == tail;
    } else {
      QuotedUndoesDoubled(raw[1..], tail);
      var rest := Doubled(raw[1..]) + "\"" + tail;
      assert raw == [raw[0]] + raw[1..];
      if raw[0] == '"' {
        assert s[2..] == rest;
      } else {
        assert s[1..] == rest;
      }
    }
  }

  lemma {:induction false} PlainReadsBack(raw: string, tail: string)
    requires !NeedsQuotes(raw) && EndOf(tail).Some?
    ensures Plain(raw + tail) == Some(Field(raw, EndOf(tail).value))
  {
    if raw == "" {
      assert raw + tail == tail;
    } else {
      assert !Special(raw[0]);
      assert forall i :: 0 <= i < |raw[1..]| ==> raw[1..][i] == raw[i + 1];
      PlainReadsBack(raw[1..], tail);
      assert (raw + tail)[1..] == raw[1..] + tail;
      assert raw == [raw[0]] + raw[1..];
    }
  }

  lemma {:induction false} QuotedCellReadsBack(raw: string, tail: string)
    requires EndOf(tail).Some?
    ensures ReadField("\"" + Doubled(raw) + "\"" + tail) == Some(Field(raw, EndOf(tail).value))
  {
    hide EndOf, Quoted, Doubled;
    QuotedUndoesDoubled(raw, tail);
    assert ("\"" + Doubled(raw) + "\"" + tail)[1..] == Doubled(raw) + "\"" + tail;
  }

  lemma {:induction false} PlainCellReadsBack(raw: string, tail: string)
    requires EndOf(tail).Some? && !NeedsQuotes(raw)
    ensures ReadField(raw + tail) == Some(Field(raw, EndOf(tail).value))
  {
    hide EndOf, Plain;
    PlainReadsBack(raw, tail);
    if raw == "" {
      NoEndIsAQuote(tail);
    } else {
      assert Special('"') && (raw + tail)[0] == raw[0];
    }
  }

  lemma {:induction false} CellReadsBack(raw: string, tail: string)
    requires EndOf(tail).Some?
    ensures ReadField(Cell(raw) + tail) == Some(Field(raw, EndOf(tail).value))
  {
    hide EndOf, ReadField;
    if NeedsQuotes(raw) {
      QuotedCellReadsBack(raw, tail);
    } else {
      PlainCellReadsBack(raw, tail);
    }
  }

  lemma NoEndIsAQuote(tail: string)
    requires EndOf(tail).Some?
    ensures tail != "" ==> tail[0] != '"'
    ensures "" + tail == tail
  {
  }

  /** What reading a record's line adds to what is read behind it. */
  lemma {:induction false} LineReadsBack(record: Record, tail: string)
    requires record != [] && (tail == "" || StartsBreak(tail))
    ensures Records(Line(record) + tail) ==
            if tail == "" then Some([record])
            else if Records(tail[2..]).None? then None
            else Some([record] + Records(tail[2..]).value)
  {
    hide Cell, ReadField;
    if |record| == 1 {
      assert Line(record) == Cell(record[0]);
      CellReadsBack(record[0], tail);
      assert record == [record[0]];
    } else {
      LineReadsBack(record[1..], tail);
      assert Printed(record)[1..] == Printed(record[1..]);
      var behind := Line(record[1..]) + tail;
      assert Line(record) + tail == Cell(record[0]) + ("," + behind);
      assert EndOf("," + behind) == Some(AtComma(behind)) by { assert ("," + behind)[1..] == behind; }
      CellReadsBack(record[0], "," + behind);
      assert ReadField(Line(record) + tail) == Some(Field(record[0], AtComma(behind)));
      assert [record[0]] + record[1..] == record;
      if Records(behind).Some? {
        var more := Records(behind).value;
        assert Records(Line(record) + tail) == Some([[record[0]] + more[0]] + more[1..]);
        assert [record[0]] + more[0] == record;
        assert tail == "" ==> more[1..] == [] && [record] + [] == [record];
        assert tail != "" ==> more[1..] == Records(tail[2..]).value;
      }
    }
  }

  lemma {:induction false} LinesReadBack(records: seq<Record>)
    requires records != [] && forall i :: 0 <= i < |records| ==> records[i] != []
    ensures Records(Join(CRLF, Lines(records))) == Some(records)
  {
    hide Line, Records;
    if |records| == 1 {
      LineReadsBack(records[0], "");
      assert Line(records[0]) + "" == Line(records[0]);
      assert records == [records[0]];
    } else {
      LinesReadBack(records[1..]);
      assert Lines(records)[1..] == Lines(records[1..]);
      var behind := Join(CRLF, Lines(records[1..]));
      assert (CRLF + behind)[2..] == behind;
      LineReadsBack(records[0], CRLF + behind);
      assert Join(CRLF, Lines(records)) == Line(records[0]) + (CRLF + behind);
      assert records == [records[0]] + records[1..];
    }
  }

  /** Reading an export gives back the header and every stringified cell, whatever text they hold,
      exactly when there is at least one column. */
  lemma ExportReadsBackIffColumns(rows: seq<Row>, columns: seq<string>)
    ensures Records(CreateCsv(rows, columns)) == Some(TableOf(rows, columns)) <==> columns != []
  {
    hide Records;
    if columns != [] {
      LinesReadBack(TableOf(rows, columns));
    } else if Records(CreateCsv(rows, columns)) == Some(TableOf(rows, columns)) {
      assert TableOf(rows, columns)[0] == [];
      RecordsNonEmpty(CreateCsv(rows, columns));
    }
  }

  lemma RecordsNonEmpty(s: string)
    ensures Records(s).Some? ==> Records(s).value != [] && Records(s).value[0] != []
  {
  }

  /** So printing never confuses two tables. */
  lemma ExportIsInjective(rows: seq<Row>, columns: seq<string>, rows': seq<Row>, columns': seq<string>)
    requires columns != [] && columns' != []
    requires CreateCsv(rows, columns) == CreateCsv(rows', columns')
    ensures columns == columns'
    ensures |rows| == |rows'|
    ensures forall i, k :: 0 <= i < |rows| && 0 <= k < |columns| ==>
              Raw(Lookup(rows[i], columns[k])) == Raw(Lookup(rows'[i], columns[k]))
  {
    hide Records, CreateCsv, Lookup, Raw;
    ExportReadsBackIffColumns(rows, columns);
    ExportReadsBackIffColumns(rows', columns');
    var t, t' := TableOf(rows, columns), TableOf(rows', columns');
    assert t == t';
    assert t[0] == columns && t'[0] == columns';
    forall i, k | 0 <= i < |rows| && 0 <= k < |columns|
      ensures Raw(Lookup(rows[i], columns[k])) == Raw(Lookup(rows'[i], columns[k]))
    {
      assert t[i + 1] == CellsOf(rows[i], columns) && t'[i + 1] == CellsOf(rows'[i], columns);
      assert CellsOf(rows[i], columns)[k] == CellsOf(rows'[i], columns)[k];
    }
  }

  // Readers that allow a line break after the last record

  /** A last record holding one empty field behind a line break is taken to be no record. */
  function Tolerant(s: string): Option<seq<Record>> {
    var r := Records(s);
    if r.Some? && |r.value| > 1 && r.value[|r.value| - 1] == [""] then Some(r.value[..|r.value| - 1]) else r
  }

  /** Such a reader loses a row exactly when a single-column export ends in an empty cell. */
  lemma TolerantReadsBackIff(rows: seq<Row>, columns: seq<string>)
    requires columns != []
    ensures Tolerant(CreateCsv(rows, columns)) == Some(TableOf(rows, columns)) <==>
            !(|columns| == 1 && rows != [] && Raw(Lookup(rows[|rows| - 1], columns[0])) == "")
  {
    hide Records, CreateCsv, Lookup, Raw;
    ExportReadsBackIffColumns(rows, columns);
    var t := TableOf(rows, columns);
    if rows != [] {
      assert t[|t| - 1] == CellsOf(rows[|rows| - 1], columns);
      var last := CellsOf(rows[|rows| - 1], columns);
      assert |last| == |columns| && last[0] == Raw(Lookup(rows[|rows| - 1], columns[0]));
      assert last == [""] <==> |last| == 1 && last[0] == "";
    }
  }

  // What a cell looks like

  lemma {:induction false} DoublingNeverShortens(raw: string)
    ensures |Doubled(raw)| >= |raw|
  {
    if raw != "" {
      DoublingNeverShortens(raw[1..]);
    }
  }

  /** A cell is printed as it is exactly when it holds no quote, comma or line break character. */
  lemma PrintedBareIff(raw: string)
    ensures Cell(raw) == raw <==> '"' !in raw && ',' !in raw && '\r' !in raw && '\n' !in raw
  {
    DoublingNeverShortens(raw);
    if NeedsQuotes(raw) {
      assert |Cell(raw)| == |Doubled(raw)| + 2;
    } else {
      forall c | c in raw
        ensures !Special(c)
      {
        var i :| 0 <= i < |raw| && raw[i] == c;
      }
    }
  }

  /** A missing value is an empty cell; anything else is its JSON text or its string form. */
  lemma MissingIsEmpty(rows: seq<Row>, columns: seq<string>, i: nat, j: nat)
    requires i < |rows| && j < |columns|
    ensures var cell := TableOf(rows, columns)[i + 1][j];
            if columns[j] !in rows[i] || rows[i][columns[j]].Null? || rows[i][columns[j]].Undefined? then cell == ""
            else if rows[i][columns[j]].Object? then cell == rows[i][columns[j]].json
            else cell == rows[i][columns[j]].text
  {
  }
}
