/** The CSV export, and the RFC 4180 reader that recovers its cells. */
module CsvExport {
  import opened Prelude

  /** A cell: `null` and `undefined` are `None`, anything else is its `String(value)`. */
  type Cell = Option<string>

  function TextOf(cell: Cell): string {
    if cell.Some? then cell.value else ""
  }

  /** `/[",\n\r]/` */
  predicate NeedsQuotes(s: string) {
    '"' in s || ',' in s || '\n' in s || '\r' in s
  }

  /** `s.replace(/"/g, '""')` */
  function Doubled(s: string): string {
    if s == "" then "" else (if s[0] == '"' then "\"\"" else [s[0]]) + Doubled(s[1..])
  }

  function EscapeCell(cell: Cell): string {
    var s := TextOf(cell);
    if NeedsQuotes(s) then "\"" + Doubled(s) + "\"" else s
  }

  function LineOf(row: seq<Cell>): string {
    Join(seq(|row|, i requires 0 <= i < |row| => EscapeCell(row[i])), ",")
  }

  function HeaderRow(headers: seq<string>): seq<Cell> {
    seq(|headers|, i requires 0 <= i < |headers| => Some(headers[i]))
  }

  function LinesOf(table: seq<seq<Cell>>): seq<string> {
    seq(|table|, i requires 0 <= i < |table| => LineOf(table[i]))
  }

  function BuildCsv(headers: seq<string>, rows: seq<seq<Cell>>): string {
    Join(LinesOf([HeaderRow(headers)] + rows), "\n")
  }

  // ---- The reader: section 2 of RFC 4180, with LF between records ----

  /** A field and what follows it, or no field at all. */
  datatype Field = Field(text: string, rest: string) | Malformed

  function Prepend(c: char, f: Field): Field {
    if f.Field? then f.(text := [c] + f.text) else f
  }

  /** Inside quotes a doubled quote is a quote, a single one closes. */
  function ReadQuoted(s: string): (f: Field)
    ensures f.Field? ==> |f.rest| < |s|
  {
    if s == "" then Malformed
    else if s[0] != '"' then Prepend(s[0], ReadQuoted(s[1..]))
    else if |s| >= 2 && s[1] == '"' then Prepend('"', ReadQuoted(s[2..]))
    else Field("", s[1..])
  }

  /** Without quotes a field runs to the next separator and may hold no quote or CR. */
  function ReadBare(s: string): (f: Field)
    ensures f.Field? ==> |f.rest| <= |s|
  {
    if s == "" || s[0] == ',' || s[0] == '\n' then Field("", s)
    else if s[0] == '"' || s[0] == '\r' then Malformed
    else Prepend(s[0], ReadBare(s[1..]))
  }

  function ReadField(s: string): (f: Field)
    ensures f.Field? ==> |f.rest| <= |s|
  {
    if s != "" && s[0] == '"' then ReadQuoted(s[1..]) else ReadBare(s)
  }

  /** A record, with what follows its line break if there is one. */
  datatype Record = Record(fields: seq<string>, rest: Option<string>) | NoRecord

  function WithField(text: string, r: Record): Record {
    if r.Record? then r.(fields := [text] + r.fields) else r
  }

  function ReadRecord(s: string): (r: Record)
    ensures r.Record? ==> r.fields != [] && (r.rest.Some? ==> |r.rest.value| < |s|)
    decreases |s|
  {
    var f := ReadField(s);
    if f.Malformed? then NoRecord
    else if f.rest == "" then Record([f.text], None)
    else if f.rest[0] == '\n' then Record([f.text], Some(f.rest[1..]))
    else if f.rest[0] == ',' then WithField(f.text, ReadRecord(f.rest[1..]))
    else NoRecord
  }

  function ReadCsv(s: string): (table: Option<seq<seq<string>>>)
    ensures table.Some? ==> forall row <- table.value :: row != []
    decreases |s|
  {
    var r := ReadRecord(s);
    if r.NoRecord? then None
    else if r.rest.None? then Some([r.fields])
    else
      var more := ReadCsv(r.rest.value);
      if more.None? then None else Some([r.fields] + more.value)
  }

  // ---- Reading undoes building ----

  predicate EndsField(tail: string) { tail == "" || tail[0] == ',' || tail[0] == '\n' }

  /** A quoted cell without its opening quote. */
  function Closed(s: string, tail: string): string {
    Doubled(s) + "\"" + tail
  }

  lemma ReadPast(c: char, rest: string)
    requires c != '"'
    ensures ReadQuoted([c] + rest) == Prepend(c, ReadQuoted(rest))
  {
    assert ([c] + rest)[1..] == rest;
  }

  lemma ReadPair(rest: string)
    ensures ReadQuoted("\"\"" + rest) == Prepend('"', ReadQuoted(rest))
  {
    assert ("\"\"" + rest)[2..] == rest;
  }

  lemma ReadClose(tail: string)
    requires EndsField(tail)
    ensures ReadQuoted("\"" + tail) == Field("", tail)
  {
    assert ("\"" + tail)[1..] == tail;
  }

  lemma ClosedHead(s: string, tail: string)
    ensures s == "" ==> Closed(s, tail) == "\"" + tail
    ensures s != "" && s[0] == '"' ==> Closed(s, tail) == "\"\"" + Closed(s[1..], tail)
    ensures s != "" && s[0] != '"' ==> Closed(s, tail) == [s[0]] + Closed(s[1..], tail)
  {
  }

  lemma {:induction false} QuotedReadsBack(s: string, tail: string)
    requires EndsField(tail)
    ensures ReadQuoted(Closed(s, tail)) == Field(s, tail)
  {
    hide ReadQuoted, Closed, EndsField;
    ClosedHead(s, tail);
    if s == "" {
      ReadClose(tail);
    } else {
      var rest := Closed(s[1..], tail);
      QuotedReadsBack(s[1..], tail);
      if s[0] == '"' {
        ReadPair(rest);
      } else {
        ReadPast(s[0], rest);
      }
      assert s == [s[0]] + s[1..];
    }
  }

  lemma BarePast(c: char, rest: string)
    requires c != '"' && c != ',' && c != '\n' && c != '\r'
    ensures ReadBare([c] + rest) == Prepend(c, ReadBare(rest))
  {
    assert ([c] + rest)[1..] == rest;
  }

  lemma {:induction false} BareReadsBack(s: string, tail: string)
    requires !NeedsQuotes(s) && EndsField(tail)
    ensures ReadBare(s + tail) == Field(s, tail)
  {
    if s == "" {
      assert s + tail == tail;
    } else {
      hide ReadBare;
      var c, rest := s[0], s[1..];
      assert c in s && forall x <- rest :: x in s;
      BareReadsBack(rest, tail);
      assert s + tail == [c] + (rest + tail);
      BarePast(c, rest + tail);
      assert s == [c] + rest;
    }
  }

  lemma EscapedAs(cell: Cell, tail: string)
    ensures EscapeCell(cell) + tail ==
            if NeedsQuotes(TextOf(cell)) then "\"" + Closed(TextOf(cell), tail) else TextOf(cell) + tail
  {
    hide NeedsQuotes, Doubled;
    var s := TextOf(cell);
    assert "\"" + (Doubled(s) + "\"" + tail) == "\"" + Doubled(s) + "\"" + tail;
  }

  lemma QuotedStart(rest: string)
    ensures ReadField("\"" + rest) == ReadQuoted(rest)
  {
    assert ("\"" + rest)[1..] == rest;
  }

  /** The text of a cell: nothing for `null`, itself otherwise; it is quoted exactly when it needs to be. */
  lemma EscapedExactly(cell: Cell)
    ensures cell == None ==> EscapeCell(cell) == "" && TextOf(cell) == ""
    ensures cell.Some? ==>
              && TextOf(cell) == cell.value
              && (EscapeCell(cell) == cell.value <==> forall c <- cell.value :: c !in {'"', ',', '\n', '\r'})
              && (EscapeCell(cell) != cell.value ==> |EscapeCell(cell)| >= 2 + |cell.value|)
  {
    if cell.Some? {
      DoubledIsLonger(cell.value);
      assert NeedsQuotes(cell.value) <==> exists c <- cell.value :: c in {'"', ',', '\n', '\r'};
    }
  }

  lemma {:induction false} DoubledIsLonger(s: string)
    ensures |Doubled(s)| >= |s|
  {
    if s != "" {
      DoubledIsLonger(s[1..]);
    }
  }

  lemma CellReadsBack(cell: Cell, tail: string)
    requires EndsField(tail)
    ensures ReadField(EscapeCell(cell) + tail) == Field(TextOf(cell), tail)
  {
    hide ReadQuoted, ReadBare, NeedsQuotes, EscapeCell, Closed;
    var s := TextOf(cell);
    EscapedAs(cell, tail);
    if NeedsQuotes(s) {
      QuotedReadsBack(s, tail);
      QuotedStart(Closed(s, tail));
    } else {
      BareReadsBack(s, tail);
      BareStart(s);
    }
  }

  lemma BareStart(s: string)
    requires !NeedsQuotes(s)
    ensures s != "" ==> s[0] != '"'
  {
  }

  function TextsOf(row: seq<Cell>): seq<string> {
    seq(|row|, i requires 0 <= i < |row| => TextOf(row[i]))
  }

  function RecordBefore(row: seq<Cell>, tail: string): Record {
    Record(TextsOf(row), if tail == "" then None else Some(tail[1..]))
  }

  lemma LineOfMore(row: seq<Cell>)
    requires |row| > 1
    ensures LineOf(row) == EscapeCell(row[0]) + "," + LineOf(row[1..])
  {
    hide EscapeCell;
    var cells := seq(|row|, i requires 0 <= i < |row| => EscapeCell(row[i]));
    var rest := row[1..];
    assert cells[1..] == seq(|rest|, i requires 0 <= i < |rest| => EscapeCell(rest[i]));
  }

  lemma {:induction false} RowReadsBack(row: seq<Cell>, tail: string)
    requires row != [] && (tail == "" || tail[0] == '\n')
    ensures ReadRecord(LineOf(row) + tail) == RecordBefore(row, tail)
  {
    hide EscapeCell, ReadField, LineOf;
    if |row| == 1 {
      assert LineOf(row) == EscapeCell(row[0]) by { LineOfOne(row); }
      CellReadsBack(row[0], tail);
      assert TextsOf(row) == [TextOf(row[0])];
    } else {
      var rest := row[1..];
      LineOfMore(row);
      CellReadsBack(row[0], "," + LineOf(rest) + tail);
      assert LineOf(row) + tail == EscapeCell(row[0]) + ("," + LineOf(rest) + tail);
      assert ("," + LineOf(rest) + tail)[1..] == LineOf(rest) + tail;
      RowReadsBack(rest, tail);
      assert TextsOf(row) == [TextOf(row[0])] + TextsOf(rest);
    }
  }

  lemma LineOfOne(row: seq<Cell>)
    requires |row| == 1
    ensures LineOf(row) == EscapeCell(row[0])
  {
  }

  function TableTexts(table: seq<seq<Cell>>): seq<seq<string>> {
    seq(|table|, i requires 0 <= i < |table| => TextsOf(table[i]))
  }

  lemma {:induction false} TableReadsBack(table: seq<seq<Cell>>)
    requires table != [] && forall row <- table :: row != []
    ensures ReadCsv(Join(LinesOf(table), "\n")) == Some(TableTexts(table))
  {
    hide LineOf, ReadRecord, TextsOf;
    assert table[0] in table;
    if |table| == 1 {
      RowReadsBack(table[0], "");
      assert Join(LinesOf(table), "\n") == LineOf(table[0]) == LineOf(table[0]) + "";
      assert TableTexts(table) == [TextsOf(table[0])];
    } else {
      var rest := table[1..];
      assert forall row <- rest :: row in table;
      var more := Join(LinesOf(rest), "\n");
      assert LinesOf(table)[1..] == LinesOf(rest);
      assert Join(LinesOf(table), "\n") == LineOf(table[0]) + ("\n" + more);
      RowReadsBack(table[0], "\n" + more);
      assert ("\n" + more)[1..] == more;
      TableReadsBack(rest);
      assert TableTexts(table) == [TextsOf(table[0])] + TableTexts(rest);
    }
  }

  /**
   * Whatever quotes, separators and line breaks the cells hold, the reader recovers every cell's text,
   * exactly when the header and every row have a cell: an empty row reads back as one empty cell.
   */
  lemma CsvReadsBack(headers: seq<string>, rows: seq<seq<Cell>>)
    ensures ReadCsv(BuildCsv(headers, rows)) == Some([headers] + TableTexts(rows))
            <==> headers != [] && forall row <- rows :: row != []
  {
    hide LineOf, ReadCsv;
    var table := [HeaderRow(headers)] + rows;
    assert TextsOf(HeaderRow(headers)) == headers;
    assert TableTexts(table) == [headers] + TableTexts(rows);
    if headers != [] && forall row <- rows :: row != [] {
      TableReadsBack(table);
    } else if ReadCsv(BuildCsv(headers, rows)) == Some([headers] + TableTexts(rows)) {
      var read := [headers] + TableTexts(rows);
      assert headers in read;
      forall i | 0 <= i < |rows| ensures rows[i] != [] {
        assert read[i + 1] == TextsOf(rows[i]) && read[i + 1] in read;
      }
    }
  }
}
