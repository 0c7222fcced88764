// The one CSV writer, against a reader for the grammar of section 2 of RFC 4180.
module Csv {
  import opened Wrappers

  const BOM: char := '\U{FEFF}'
  const CRLF: string := "\r\n"

  // A cell before rendering: null and undefined are both Missing. A number comes as `String(n)` prints
  // it, whatever that is.
  datatype Cell = Missing | Text(text: string) | Number(printed: string)

  function Rendered(cell: Cell): string {
    match cell
    case Missing => ""
    case Text(text) => text
    case Number(printed) => printed
  }

  predicate IsFormulaLeader(c: char) {
    c == '=' || c == '+' || c == '-' || c == '@' || c == '\t' || c == '\r'
  }

  function Neutralise(text: string): string {
    if |text| > 0 && IsFormulaLeader(text[0]) then "'" + text else text
  }

  predicate NeedsQuotes(text: string) {
    exists i :: 0 <= i < |text| && !IsPlain(text[i])
  }

  // A character the grammar allows outside quotes (TEXTDATA, widened from ASCII to any other character).
  predicate IsPlain(c: char) {
    c != '"' && c != ',' && c != '\r' && c != '\n'
  }

  function DoubleQuotes(text: string): string {
    if text == [] then []
    else (if text[0] == '"' then "\"\"" else [text[0]]) + DoubleQuotes(text[1..])
  }

  function QuoteIfNeeded(text: string): string {
    if NeedsQuotes(text) then "\"" + DoubleQuotes(text) + "\"" else text
  }

  function CsvCell(cell: Cell): string {
    QuoteIfNeeded(Neutralise(Rendered(cell)))
  }

  // `line.map(csvCell).join(',')`.
  function Line(cells: seq<Cell>): string {
    if cells == [] then []
    else if |cells| == 1 then CsvCell(cells[0])
    else CsvCell(cells[0]) + ("," + Line(cells[1..]))
  }

  // `lines.map(...).join('\r\n')`.
  function Lines(lines: seq<seq<Cell>>): string {
    if lines == [] then []
    else if |lines| == 1 then Line(lines[0])
    else Line(lines[0]) + (CRLF + Lines(lines[1..]))
  }

  function ToCsv(lines: seq<seq<Cell>>): string {
    [BOM] + Body(lines)
  }

  function Body(lines: seq<seq<Cell>>): string {
    Lines(lines) + CRLF
  }

  // What a reader should get back.
  function Expected(lines: seq<seq<Cell>>): (r: seq<seq<string>>)
    ensures |r| == |lines|
    ensures forall i :: 0 <= i < |r| ==> r[i] == ExpectedLine(lines[i])
  {
    if lines == [] then [] else [ExpectedLine(lines[0])] + Expected(lines[1..])
  }

  function ExpectedLine(cells: seq<Cell>): (r: seq<string>)
    ensures |r| == |cells|
    ensures forall i :: 0 <= i < |r| ==> r[i] == Neutralise(Rendered(cells[i]))
  {
    if cells == [] then [] else [Neutralise(Rendered(cells[0]))] + ExpectedLine(cells[1..])
  }

  // ---- The reader ----

  // The rest of an escaped field, after its opening quote.
  function ReadQuoted(s: string): (r: Option<(string, string)>)
    ensures r.Some? ==> |r.value.1| < |s|
  {
    if s == [] then None
    else if s[0] == '"' && (|s| == 1 || s[1] != '"') then Some(("", s[1..]))
    else
      var rest := if s[0] == '"' then s[2..] else s[1..];
      match ReadQuoted(rest)
      case None => None
      case Some((value, after)) => Some(([s[0]] + value, after))
  }

  function ReadPlain(s: string): (r: (string, string))
    ensures |r.1| <= |s|
  {
    if s == [] || !IsPlain(s[0]) then ("", s)
    else var (value, after) := ReadPlain(s[1..]); ([s[0]] + value, after)
  }

  function ReadField(s: string): (r: Option<(string, string)>)
    ensures r.Some? ==> |r.value.1| <= |s|
  {
    if |s| > 0 && s[0] == '"' then ReadQuoted(s[1..]) else Some(ReadPlain(s))
  }

  function ReadRecord(s: string): (r: Option<(seq<string>, string)>)
    ensures r.Some? ==> |r.value.1| <= |s| && r.value.0 != []
    decreases |s|
  {
    match ReadField(s)
    case None => None
    case Some((field, after)) =>
      if |after| > 0 && after[0] == ',' then
        match ReadRecord(after[1..])
        case None => None
        case Some((fields, rest)) => Some(([field] + fields, rest))
      else Some(([field], after))
  }

  // record *(CRLF record) [CRLF], where a final CRLF ends the last record.
  function ReadFile(s: string): (r: Option<seq<seq<string>>>)
    ensures r.Some? ==> r.value != [] && forall i :: 0 <= i < |r.value| ==> r.value[i] != []
    decreases |s|
  {
    match ReadRecord(s)
    case None => None
    case Some((record, after)) =>
      if after == [] || after == CRLF then Some([record])
      else if |after| > 2 && after[..2] == CRLF then
        match ReadFile(after[2..])
        case None => None
        case Some(records) => Some([record] + records)
      else None
  }

  function ReadDocument(s: string): Option<seq<seq<string>>> {
    if |s| > 0 && s[0] == BOM then ReadFile(s[1..]) else None
  }

  // ---- Round trip ----

  // What may follow a field: nothing, a comma, or a line break.
  predicate EndsField(rest: string) {
    rest == [] || rest[0] == ',' || rest[0] == '\r'
  }

  lemma {:induction false} QuotedReadsBack(text: string, rest: string)
    requires EndsField(rest)
    ensures ReadQuoted(DoubleQuotes(text) + "\"" + rest) == Some((text, rest))
  {
    var s := DoubleQuotes(text) + "\"" + rest;
    if text == [] {
      assert s == "\"" + rest;
    } else {
      var tail := DoubleQuotes(text[1..]) + "\"" + rest;
      QuotedReadsBack(text[1..], rest);
      if text[0] == '"' {
        assert s == "\"\"" + tail && s[2..] == tail;
      } else {
        assert s == [text[0]] + tail && s[1..] == tail;
      }
      assert text == [text[0]] + text[1..];
    }
  }

  lemma {:induction false} PlainReadsBack(text: string, rest: string)
    requires EndsField(rest) && !NeedsQuotes(text)
    ensures ReadPlain(text + rest) == (text, rest)
  {
    if text == [] {
      assert text + rest == rest;
    } else {
      assert IsPlain(text[0]);
      assert !NeedsQuotes(text[1..]) by {
        forall i | 0 <= i < |text[1..]| ensures IsPlain(text[1..][i]) { assert text[1..][i] == text[i + 1]; }
      }
      PlainReadsBack(text[1..], rest);
      assert (text + rest)[1..] == text[1..] + rest;
      assert text == [text[0]] + text[1..];
    }
  }

  lemma RegroupQuoted(q: string, inner: string, rest: string)
    ensures (q + inner + q) + rest == q + (inner + q + rest)
  {
  }

  lemma SkipOpeningQuote(inner: string)
    ensures ReadField("\"" + inner) == ReadQuoted(inner)
  {
    assert ("\"" + inner)[1..] == inner;
  }

  lemma QuotedFieldReadsBack(text: string, rest: string)
    requires EndsField(rest)
    ensures ReadField(("\"" + DoubleQuotes(text) + "\"") + rest) == Some((text, rest))
  {
    QuotedReadsBack(text, rest);
    RegroupQuoted("\"", DoubleQuotes(text), rest);
    SkipOpeningQuote(DoubleQuotes(text) + "\"" + rest);
  }

  lemma PlainFieldReadsBack(text: string, rest: string)
    requires EndsField(rest) && !NeedsQuotes(text)
    ensures ReadField(text + rest) == Some((text, rest))
  {
    PlainReadsBack(text, rest);
    if |text| > 0 { assert IsPlain(text[0]); }
  }

  lemma FieldReadsBack(text: string, rest: string)
    requires EndsField(rest)
    ensures ReadField(QuoteIfNeeded(text) + rest) == Some((text, rest))
  {
    if NeedsQuotes(text) { QuotedFieldReadsBack(text, rest); } else { PlainFieldReadsBack(text, rest); }
  }

  lemma ReadRecordStep(s: string, field: string, tail: string)
    requires ReadField(s) == Some((field, "," + tail))
    ensures ReadRecord(s) == match ReadRecord(tail)
      case None => None
      case Some((fields, rest)) => Some(([field] + fields, rest))
  {
    assert ("," + tail)[1..] == tail;
  }

  lemma ReadRecordLast(s: string, field: string, rest: string)
    requires ReadField(s) == Some((field, rest)) && (rest == [] || rest[0] != ',')
    ensures ReadRecord(s) == Some(([field], rest))
  {
  }

  lemma LastCellReadsBack(cell: Cell, rest: string)
    requires rest == [] || rest[0] == '\r'
    ensures ReadRecord(Line([cell]) + rest) == Some((ExpectedLine([cell]), rest))
  {
    var text := Neutralise(Rendered(cell));
    assert ExpectedLine([cell]) == [text];
    FieldReadsBack(text, rest);
    ReadRecordLast(QuoteIfNeeded(text) + rest, text, rest);
  }

  lemma Regroup(a: string, b: string, c: string, d: string)
    ensures (a + (b + c)) + d == a + (b + (c + d))
  {
  }

  lemma {:induction false} LineReadsBack(cells: seq<Cell>, rest: string)
    requires cells != [] && (rest == [] || rest[0] == '\r')
    ensures ReadRecord(Line(cells) + rest) == Some((ExpectedLine(cells), rest))
  {
    if |cells| == 1 {
      assert cells == [cells[0]];
      LastCellReadsBack(cells[0], rest);
    } else {
      var first, others := Neutralise(Rendered(cells[0])), Line(cells[1..]);
      Regroup(QuoteIfNeeded(first), ",", others, rest);
      FieldReadsBack(first, "," + (others + rest));
      ReadRecordStep(Line(cells) + rest, first, others + rest);
      LineReadsBack(cells[1..], rest);
    }
  }

  lemma ReadFileStep(s: string, record: seq<string>, rest: string)
    requires ReadRecord(s) == Some((record, CRLF + rest)) && rest != []
    ensures ReadFile(s) == match ReadFile(rest) case None => None case Some(records) => Some([record] + records)
  {
    var after := CRLF + rest;
    assert after[..2] == CRLF && after[2..] == rest;
  }

  lemma {:induction false} LinesReadBack(lines: seq<seq<Cell>>)
    requires lines != [] && forall i :: 0 <= i < |lines| ==> lines[i] != []
    ensures ReadFile(Body(lines)) == Some(Expected(lines))
  {
    if |lines| == 1 {
      assert Expected(lines) == [ExpectedLine(lines[0])];
      LineReadsBack(lines[0], CRLF);
    } else {
      var rest := Body(lines[1..]);
      assert Body(lines) == Line(lines[0]) + (CRLF + rest);
      LineReadsBack(lines[0], CRLF + rest);
      ReadFileStep(Body(lines), ExpectedLine(lines[0]), rest);
      LinesReadBack(lines[1..]);
    }
  }

  lemma SkipBom(lines: seq<seq<Cell>>)
    ensures ReadDocument(ToCsv(lines)) == ReadFile(Body(lines))
  {
    assert ToCsv(lines)[1..] == Body(lines);
  }

  // The round trip holds for exactly the inputs the writer is meant for: at least one line, no line
  // without cells. (A line without cells prints like a line with one empty cell.)
  lemma RoundTrip(lines: seq<seq<Cell>>)
    ensures ReadDocument(ToCsv(lines)) == Some(Expected(lines))
       <==> lines != [] && forall i :: 0 <= i < |lines| ==> lines[i] != []
  {
    SkipBom(lines);
    if lines != [] && forall i :: 0 <= i < |lines| ==> lines[i] != [] {
      LinesReadBack(lines);
    } else if lines != [] {
      var i :| 0 <= i < |lines| && lines[i] == [];
      assert Expected(lines)[i] == [];
    }
  }

  // No cell a reader gets back is a formula, and each one is the original text, at most behind one apostrophe.
  lemma NoFormulaReadBack(lines: seq<seq<Cell>>, i: nat, j: nat)
    requires i < |lines| && j < |lines[i]|
    requires forall k :: 0 <= k < |lines| ==> lines[k] != []
    ensures var read := ReadDocument(ToCsv(lines));
      && read.Some? && |read.value| == |lines| && |read.value[i]| == |lines[i]|
      && var cell := read.value[i][j];
      && (|cell| > 0 ==> !IsFormulaLeader(cell[0]))
      && (cell == Rendered(lines[i][j]) || cell == "'" + Rendered(lines[i][j]))
  {
    RoundTrip(lines);
  }
}
