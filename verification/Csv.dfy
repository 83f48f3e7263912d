/** The CSV reader of the asset import (src/server/scripts/import-asset-export.ts). */
module Csv {
  import opened Wrappers

  type Record = seq<string>
  const UNTERMINATED := "CSV has an unterminated quoted field."
  const BOM := '\U{FEFF}'

  // ---------------------------------------------------------------------
  // Declarative reader: what one position contributes is a local matter of
  // its quote parity and its two neighbours.
  // ---------------------------------------------------------------------

  function QuotesBefore(raw: string, i: nat): nat
    requires i <= |raw|
  {
    if i == 0 then 0 else QuotesBefore(raw, i - 1) + (if raw[i - 1] == '"' then 1 else 0)
  }

  /** Position i lies inside quotes: an odd number of quotes precedes it. */
  predicate Quoted(raw: string, i: nat)
    requires i <= |raw|
  {
    QuotesBefore(raw, i) % 2 == 1
  }

  datatype Mark = Text(c: char) | FieldEnd | RowEnd | Silent

  function MarkAt(raw: string, i: nat): Mark
    requires i < |raw|
  {
    if Quoted(raw, i) then
      if raw[i] != '"' then Text(raw[i])
      else if i + 1 < |raw| && raw[i + 1] == '"' then Text('"')
      else Silent
    else match raw[i]
      case '"' => Silent
      case ',' => FieldEnd
      case '\r' => RowEnd
      case '\n' => if i > 0 && raw[i - 1] == '\r' then Silent else RowEnd
      case c => Text(c)
  }

  datatype Reader = Reader(records: seq<Record>, row: Record, field: string)

  predicate HasText(row: Record) { exists k :: 0 <= k < |row| && |row[k]| > 0 }

  /** A finished row is kept only when one of its fields is non-empty. */
  function Kept(row: Record): seq<Record> { if HasText(row) then [row] else [] }

  function Feed(r: Reader, m: Mark): Reader {
    match m
    case Text(c) => r.(field := r.field + [c])
    case FieldEnd => r.(row := r.row + [r.field], field := "")
    case RowEnd => Reader(r.records + Kept(r.row + [r.field]), [], "")
    case Silent => r
  }

  function ReadUpTo(raw: string, i: nat): Reader
    requires i <= |raw|
  {
    if i == 0 then Reader([], [], "") else Feed(ReadUpTo(raw, i - 1), MarkAt(raw, i - 1))
  }

  /** All records of a text: the end of the text ends the last row. */
  function Records(raw: string): seq<Record> {
    Feed(ReadUpTo(raw, |raw|), RowEnd).records
  }

  function StripBom(header: string): string {
    if |header| > 0 && header[0] == BOM then header[1..] else header
  }

  function CellAt(record: Record, k: nat): string {
    if k < |record| then record[k] else ""
  }

  /** The object built from the first n headers; a later header overwrites an equal earlier one. */
  function Zip(headers: Record, record: Record, n: nat): map<string, string>
    requires n <= |headers|
  {
    if n == 0 then map[]
    else Zip(headers, record, n - 1)[StripBom(headers[n - 1]) := CellAt(record, n - 1)]
  }

  function Rows(records: seq<Record>): seq<map<string, string>> {
    if records == [] then []
    else
      seq(|records| - 1, k requires 0 <= k < |records| - 1 => Zip(records[0], records[k + 1], |records[0]|))
  }

  function Parse(raw: string): Result<seq<map<string, string>>, string> {
    if Quoted(raw, |raw|) then Err(UNTERMINATED) else Ok(Rows(Records(raw)))
  }

  // ---------------------------------------------------------------------
  // The loop of the source
  // ---------------------------------------------------------------------

  /** One index, a look-ahead of one character, and four mutable variables. */
  method ReadRecords(raw: string) returns (result: Result<seq<Record>, string>)
    ensures result == if Quoted(raw, |raw|) then Err(UNTERMINATED) else Ok(Records(raw))
  {
    var records: seq<Record> := [];
    var row: Record := [];
    var field := "";
    var quoted := false;
    var index := 0;
    while index < |raw|
      invariant 0 <= index <= |raw|
      invariant quoted == Quoted(raw, index)
      invariant Reader(records, row, field) == ReadUpTo(raw, index)
      invariant index > 0 && raw[index - 1] == '\r' && !quoted ==> index == |raw| || raw[index] != '\n'
    {
      var character := raw[index];
      if quoted {
        if character == '"' && index + 1 < |raw| && raw[index + 1] == '"' {
          field := field + "\"";
          assert ReadUpTo(raw, index + 1) == Reader(records, row, field);
          assert !Quoted(raw, index + 1);
          index := index + 1;
        } else if character == '"' {
          quoted := false;
        } else {
          field := field + [character];
        }
      } else if character == '"' {
        quoted := true;
      } else if character == ',' {
        row := row + [field];
        field := "";
      } else if character == '\n' || character == '\r' {
        row := row + [field];
        field := "";
        if exists k :: 0 <= k < |row| && |row[k]| > 0 { records := records + [row]; }
        row := [];
        if character == '\r' && index + 1 < |raw| && raw[index + 1] == '\n' {
          assert ReadUpTo(raw, index + 1) == Reader(records, row, field);
          index := index + 1;
        }
      } else {
        field := field + [character];
      }
      index := index + 1;
    }
    if quoted { return Err(UNTERMINATED); }
    row := row + [field];
    if exists k :: 0 <= k < |row| && |row[k]| > 0 { records := records + [row]; }
    assert records == Records(raw);
    return Ok(records);
  }

  method ParseCsv(raw: string) returns (result: Result<seq<map<string, string>>, string>)
    ensures result.Err? <==> QuotesBefore(raw, |raw|) % 2 == 1
    ensures result == Parse(raw)
  {
    var read := ReadRecords(raw);
    if read.Err? { return Err(read.error); }
    var records := read.value;
    if |records| == 0 { return Ok([]); }
    hide QuotesBefore, Records;
    var headers := records[0];
    var values: seq<map<string, string>> := [];
    for r := 1 to |records|
      invariant |values| == r - 1
      invariant forall k :: 0 <= k < r - 1 ==> values[k] == Zip(headers, records[k + 1], |headers|)
    {
      var entry: map<string, string> := map[];
      for k := 0 to |headers|
        invariant entry == Zip(headers, records[r], k)
      {
        entry := entry[StripBom(headers[k]) := CellAt(records[r], k)];
      }
      values := values + [entry];
    }
    assert values == Rows(records);
    return Ok(values);
  }

  // ---------------------------------------------------------------------
  // Writers following section 2 of RFC 4180
  // ---------------------------------------------------------------------

  datatype Eol = CRLF | LF | CR
  datatype Cell = Cell(text: string, forced: bool)
  datatype Line = Line(cells: seq<Cell>, eol: Eol)

  predicate NeedsQuotes(text: string) {
    exists k :: 0 <= k < |text| && text[k] in {'"', ',', '\r', '\n'}
  }

  function Unit(c: char): string { if c == '"' then "\"\"" else [c] }

  function Doubled(text: string): string {
    if text == "" then ""
    else Unit(text[0]) + Doubled(text[1..])
  }

  function WriteCell(cell: Cell): string {
    if cell.forced || NeedsQuotes(cell.text) then "\"" + Doubled(cell.text) + "\"" else cell.text
  }

  function WriteCells(cells: seq<Cell>): string
    requires cells != []
  {
    if |cells| == 1 then WriteCell(cells[0]) else WriteCell(cells[0]) + "," + WriteCells(cells[1..])
  }

  function Break(eol: Eol): string {
    match eol case CRLF => "\r\n" case LF => "\n" case CR => "\r"
  }

  /** Any mixture of line breaks and of optional or forced quoting; the last break may be missing. */
  function Write(lines: seq<Line>, finalBreak: bool): string
    requires forall l :: l in lines ==> l.cells != []
  {
    if lines == [] then ""
    else
      var text := WriteCells(lines[0].cells);
      if |lines| == 1 && !finalBreak then text
      else text + Break(lines[0].eol) + Write(lines[1..], finalBreak)
  }

  function Texts(cells: seq<Cell>): (r: Record)
    ensures |r| == |cells|
  {
    seq(|cells|, k requires 0 <= k < |cells| => cells[k].text)
  }

  function KeptLines(lines: seq<Line>): seq<Record> {
    if lines == [] then [] else Kept(Texts(lines[0].cells)) + KeptLines(lines[1..])
  }

  /** `part` stands in `raw` at position `at`. */
  ghost predicate Stands(raw: string, at: nat, part: string) {
    at + |part| <= |raw| && raw[at..at + |part|] == part
  }

  lemma StandsParts(raw: string, at: nat, a: string, b: string)
    requires Stands(raw, at, a + b)
    ensures Stands(raw, at, a) && Stands(raw, at + |a|, b)
  {
    var w := raw[at..at + |a + b|];
    assert w[..|a|] == a && w[|a|..] == b;
  }

  lemma StandsChar(raw: string, at: nat, part: string, k: nat)
    requires Stands(raw, at, part) && k < |part|
    ensures at + k < |raw| && raw[at + k] == part[k]
  {
    assert raw[at..at + |part|][k] == part[k];
  }

  /** The reader as it stands in front of position `at`, outside quotes. */
  ghost predicate Outside(raw: string, at: nat, r: Reader) {
    at <= |raw| && !Quoted(raw, at) && ReadUpTo(raw, at) == r
  }

  lemma {:induction false} ReadPlain(raw: string, at: nat, r: Reader, text: string)
    requires Outside(raw, at, r) && Stands(raw, at, text) && !NeedsQuotes(text)
    ensures Outside(raw, at + |text|, r.(field := r.field + text))
  {
    if text == "" {
      assert r.field + text == r.field;
    } else {
      var n := |text| - 1;
      var front := text[..n];
      assert text == front + [text[n]];
      StandsParts(raw, at, front, [text[n]]);
      StandsChar(raw, at, text, n);
      assert !NeedsQuotes(front) by {
        forall k | 0 <= k < |front| ensures front[k] !in {'"', ',', '\r', '\n'} { assert front[k] == text[k]; }
      }
      ReadPlain(raw, at, r, front);
      assert text[n] !in {'"', ',', '\r', '\n'};
      assert r.field + text == (r.field + front) + [text[n]];
    }
  }

  lemma {:induction false} DoubledAppend(text: string, c: char)
    ensures Doubled(text + [c]) == Doubled(text) + Unit(c)
  {
    if text == "" {
      assert Doubled([c]) == Unit(c) + Doubled("");
    } else {
      assert (text + [c])[1..] == text[1..] + [c];
      DoubledAppend(text[1..], c);
    }
  }

  /** The reader as it stands in front of position `at`, inside quotes. */
  ghost predicate Inside(raw: string, at: nat, r: Reader) {
    at <= |raw| && Quoted(raw, at) && ReadUpTo(raw, at) == r
  }

  lemma ReadUnit(raw: string, at: nat, r: Reader, c: char)
    requires Inside(raw, at, r) && Stands(raw, at, Unit(c))
    ensures Inside(raw, at + |Unit(c)|, r.(field := r.field + [c]))
  {
    StandsChar(raw, at, Unit(c), 0);
    if c == '"' {
      StandsChar(raw, at, Unit(c), 1);
      assert ReadUpTo(raw, at + 1) == r.(field := r.field + [c]);
      assert MarkAt(raw, at + 1) == Silent;
    }
  }

  lemma {:induction false} ReadDoubled(raw: string, at: nat, r: Reader, text: string)
    requires Inside(raw, at, r) && Stands(raw, at, Doubled(text))
    ensures Inside(raw, at + |Doubled(text)|, r.(field := r.field + text))
    decreases |text|
  {
    hide QuotesBefore, ReadUpTo, Quoted, Unit;
    if text == "" {
      assert r.field + text == r.field;
    } else {
      var n := |text| - 1;
      var front, c := text[..n], text[n];
      assert text == front + [c];
      DoubledAppend(front, c);
      StandsParts(raw, at, Doubled(front), Unit(c));
      ReadDoubled(raw, at, r, front);
      ReadUnit(raw, at + |Doubled(front)|, r.(field := r.field + front), c);
      assert r.field + text == (r.field + front) + [c];
    }
  }

  lemma Toggle(raw: string, at: nat, r: Reader)
    requires Stands(raw, at, "\"")
    ensures Outside(raw, at, r) ==> Inside(raw, at + 1, r)
    ensures Inside(raw, at, r) && (at + 1 < |raw| ==> raw[at + 1] != '"') ==> Outside(raw, at + 1, r)
  {
    StandsChar(raw, at, "\"", 0);
  }

  lemma QuotedParts(raw: string, at: nat, body: string)
    requires Stands(raw, at, "\"" + body + "\"")
    ensures Stands(raw, at, "\"") && Stands(raw, at + 1, body) && Stands(raw, at + 1 + |body|, "\"")
  {
    StandsParts(raw, at, "\"" + body, "\"");
    StandsParts(raw, at, "\"", body);
  }

  lemma ReadQuoted(raw: string, at: nat, r: Reader, text: string)
    requires Outside(raw, at, r) && Stands(raw, at, "\"") && Stands(raw, at + 1, Doubled(text))
    requires Stands(raw, at + 1 + |Doubled(text)|, "\"")
    requires at + 2 + |Doubled(text)| < |raw| ==> raw[at + 2 + |Doubled(text)|] != '"'
    ensures Outside(raw, at + 2 + |Doubled(text)|, r.(field := r.field + text))
  {
    Toggle(raw, at, r);
    ReadDoubled(raw, at + 1, r, text);
    Toggle(raw, at + 1 + |Doubled(text)|, r.(field := r.field + text));
  }

  /** Reading back one written cell appends exactly its text to the field. */
  lemma ReadCell(raw: string, at: nat, r: Reader, cell: Cell)
    requires Outside(raw, at, r) && Stands(raw, at, WriteCell(cell))
    requires at + |WriteCell(cell)| < |raw| ==> raw[at + |WriteCell(cell)|] != '"'
    ensures Outside(raw, at + |WriteCell(cell)|, r.(field := r.field + cell.text))
  {
    hide QuotesBefore, ReadUpTo, Doubled, Outside, Stands, NeedsQuotes;
    if cell.forced || NeedsQuotes(cell.text) {
      assert WriteCell(cell) == "\"" + Doubled(cell.text) + "\"";
      QuotedParts(raw, at, Doubled(cell.text));
      ReadQuoted(raw, at, r, cell.text);
    } else {
      ReadPlain(raw, at, r, cell.text);
    }
  }

  lemma ReadComma(raw: string, at: nat, r: Reader)
    requires Outside(raw, at, r) && Stands(raw, at, ",")
    ensures Outside(raw, at + 1, Reader(r.records, r.row + [r.field], ""))
  {
    StandsChar(raw, at, ",", 0);
  }

  /** Reading back one written row leaves its last text in the field. */
  lemma {:induction false} ReadCells(raw: string, at: nat, r: Reader, cells: seq<Cell>)
    requires cells != [] && Outside(raw, at, r) && r.field == "" && Stands(raw, at, WriteCells(cells))
    requires at + |WriteCells(cells)| < |raw| ==> raw[at + |WriteCells(cells)|] != '"'
    ensures var n := |cells| - 1;
            Outside(raw, at + |WriteCells(cells)|, Reader(r.records, r.row + Texts(cells)[..n], cells[n].text))
    decreases |cells|
  {
    hide QuotesBefore, ReadUpTo, WriteCell, Quoted;
    var first := WriteCell(cells[0]);
    if |cells| == 1 {
      ReadCell(raw, at, r, cells[0]);
      assert r.row + Texts(cells)[..0] == r.row;
      assert r.field + cells[0].text == cells[0].text;
    } else {
      var rest := WriteCells(cells[1..]);
      StandsParts(raw, at, first + ",", rest);
      StandsParts(raw, at, first, ",");
      StandsChar(raw, at + |first|, ",", 0);
      ReadCell(raw, at, r, cells[0]);
      var next := Reader(r.records, r.row + [cells[0].text], "");
      assert r.field + cells[0].text == cells[0].text;
      ReadComma(raw, at + |first|, Reader(r.records, r.row, cells[0].text));
      ReadCells(raw, at + |first| + 1, next, cells[1..]);
      var n := |cells| - 1;
      assert next.row + Texts(cells[1..])[..n - 1] == r.row + Texts(cells)[..n];
    }
  }

  /** Reading back a row break closes the row, whatever stood in front of it. */
  lemma ReadBreak(raw: string, at: nat, r: Reader, eol: Eol)
    requires Outside(raw, at, r) && Stands(raw, at, Break(eol))
    requires at > 0 && raw[at - 1] == '\r' ==> r.row == [] && r.field == ""
    ensures Outside(raw, at + |Break(eol)|, Reader(r.records + Kept(r.row + [r.field]), [], ""))
  {
    StandsChar(raw, at, Break(eol), 0);
    match eol
    case CRLF =>
      StandsChar(raw, at, Break(eol), 1);
      assert MarkAt(raw, at + 1) == Silent;
    case LF =>
      if at > 0 && raw[at - 1] == '\r' {
        assert r.records + Kept([""]) == r.records;
      }
    case CR =>
  }

  lemma {:induction false} CellsShape(cells: seq<Cell>)
    requires cells != []
    ensures WriteCells(cells) != "" ==> WriteCells(cells)[|WriteCells(cells)| - 1] != '\r'
    ensures WriteCells(cells) == "" ==> |cells| == 1 && cells[0].text == ""
    decreases |cells|
  {
    if |cells| > 1 { CellsShape(cells[1..]); }
  }

  lemma ReadLine(raw: string, at: nat, records: seq<Record>, line: Line)
    requires line.cells != [] && Outside(raw, at, Reader(records, [], ""))
    requires Stands(raw, at, WriteCells(line.cells) + Break(line.eol))
    ensures Outside(raw, at + |WriteCells(line.cells) + Break(line.eol)|,
                    Reader(records + Kept(Texts(line.cells)), [], ""))
  {
    hide QuotesBefore, ReadUpTo, Kept, WriteCells, Quoted;
    var text := WriteCells(line.cells);
    StandsParts(raw, at, text, Break(line.eol));
    StandsChar(raw, at + |text|, Break(line.eol), 0);
    ReadCells(raw, at, Reader(records, [], ""), line.cells);
    var n := |line.cells| - 1;
    var r := Reader(records, [] + Texts(line.cells)[..n], line.cells[n].text);
    assert r.row + [r.field] == Texts(line.cells);
    CellsShape(line.cells);
    if text != "" { StandsChar(raw, at, text, |text| - 1); }
    ReadBreak(raw, at + |text|, r, line.eol);
  }

  lemma KeptBlank()
    ensures Kept([] + [""]) == []
  {}

  lemma {:induction false} ReadLines(raw: string, at: nat, records: seq<Record>, lines: seq<Line>, finalBreak: bool)
    requires forall l :: l in lines ==> l.cells != []
    requires Outside(raw, at, Reader(records, [], ""))
    requires Stands(raw, at, Write(lines, finalBreak)) && at + |Write(lines, finalBreak)| == |raw|
    ensures !Quoted(raw, |raw|) && Records(raw) == records + KeptLines(lines)
    decreases |lines|
  {
    hide QuotesBefore, ReadUpTo, WriteCells, Quoted, Break, Kept;
    if lines == [] {
      KeptBlank();
      assert records + KeptLines(lines) == records;
    } else {
      var text := WriteCells(lines[0].cells);
      var row := Texts(lines[0].cells);
      if |lines| == 1 && !finalBreak {
        ReadCells(raw, at, Reader(records, [], ""), lines[0].cells);
        var n := |row| - 1;
        assert ([] + row[..n]) + [row[n]] == row;
        assert KeptLines(lines) == Kept(row) + KeptLines([]);
        assert Kept(row) + [] == Kept(row);
      } else {
        var first := text + Break(lines[0].eol);
        StandsParts(raw, at, first, Write(lines[1..], finalBreak));
        ReadLine(raw, at, records, lines[0]);
        ReadLines(raw, at + |first|, records + Kept(row), lines[1..], finalBreak);
        assert records + Kept(row) + KeptLines(lines[1..]) == records + KeptLines(lines);
      }
    }
  }

  /** Round trip: parsing any written table returns its rows, minus the rows without text. */
  lemma RoundTrip(lines: seq<Line>, finalBreak: bool)
    requires forall l :: l in lines ==> l.cells != []
    ensures Records(Write(lines, finalBreak)) == KeptLines(lines)
    ensures Parse(Write(lines, finalBreak)) == Ok(Rows(KeptLines(lines)))
  {
    var raw := Write(lines, finalBreak);
    assert raw[0..0 + |raw|] == raw;
    ReadLines(raw, 0, [], lines, finalBreak);
    assert [] + KeptLines(lines) == KeptLines(lines);
  }

  function AllTexts(lines: seq<Line>): seq<Record> {
    if lines == [] then [] else [Texts(lines[0].cells)] + AllTexts(lines[1..])
  }

  lemma {:induction false} KeptAll(lines: seq<Line>)
    ensures |KeptLines(lines)| <= |AllTexts(lines)| == |lines|
    ensures KeptLines(lines) == AllTexts(lines) <==> forall l :: l in lines ==> HasText(Texts(l.cells))
  {
    if lines != [] {
      KeptAll(lines[1..]);
      assert forall l :: l in lines <==> l == lines[0] || l in lines[1..];
      if HasText(Texts(lines[0].cells)) {
        assert KeptLines(lines)[1..] == KeptLines(lines[1..]) && AllTexts(lines)[1..] == AllTexts(lines[1..]);
      }
    }
  }

  /** The written table comes back whole exactly when every row has a non-empty field. */
  lemma RoundTripExact(lines: seq<Line>, finalBreak: bool)
    requires forall l :: l in lines ==> l.cells != []
    ensures Records(Write(lines, finalBreak)) == AllTexts(lines)
            <==> forall l :: l in lines ==> exists text :: text in Texts(l.cells) && text != ""
  {
    RoundTrip(lines, finalBreak);
    KeptAll(lines);
    forall l: Line { HasTextIs(Texts(l.cells)); }
    hide HasText, Records, Write, Texts;
  }

  lemma HasTextIs(row: Record)
    ensures HasText(row) <==> exists text :: text in row && text != ""
  {
    if HasText(row) {
      var k :| 0 <= k < |row| && |row[k]| > 0;
      assert row[k] in row;
    }
  }

  /** In a row object every header is present and names the last column carrying it. */
  lemma {:induction false} ZipLooksUp(headers: Record, record: Record, n: nat, k: nat)
    requires k < n <= |headers|
    requires forall j :: k < j < n ==> StripBom(headers[j]) != StripBom(headers[k])
    ensures StripBom(headers[k]) in Zip(headers, record, n)
    ensures Zip(headers, record, n)[StripBom(headers[k])] == CellAt(record, k)
  {
    if k < n - 1 { ZipLooksUp(headers, record, n - 1, k); }
  }

  lemma {:induction false} QuotesAreCounted(raw: string, i: nat)
    requires i <= |raw|
    ensures QuotesBefore(raw, i) == multiset(raw[..i])['"']
  {
    if i > 0 {
      QuotesAreCounted(raw, i - 1);
      assert raw[..i] == raw[..i - 1] + [raw[i - 1]];
    }
  }

  /** A text fails to parse exactly when it has an odd number of quotes. */
  lemma ParseFailsExactly(raw: string)
    ensures Parse(raw).Err? <==> multiset(raw)['"'] % 2 == 1
  {
    QuotesAreCounted(raw, |raw|);
    assert raw[..|raw|] == raw;
    hide Records;
  }

  /** The header as the object carries it: one leading byte order mark goes. */
  ghost predicate NamedBy(name: string, header: string) {
    header == ['\U{FEFF}'] + name || (header == name && (name == "" || name[0] != '\U{FEFF}'))
  }

  lemma StripBomIs(header: string, name: string)
    ensures StripBom(header) == name <==> NamedBy(name, header)
  {
    if header != "" { assert header == [header[0]] + header[1..]; }
    if header == ['\U{FEFF}'] + name { assert header[1..] == name; }
  }

  lemma {:induction false} ZipHasHeaders(headers: Record, record: Record, n: nat, name: string)
    requires n <= |headers|
    ensures name in Zip(headers, record, n) <==> exists k :: 0 <= k < n && StripBom(headers[k]) == name
  {
    if n > 0 { ZipHasHeaders(headers, record, n - 1, name); }
  }

  lemma ZipIs(headers: Record, row: Record, name: string)
    ensures var zipped := Zip(headers, row, |headers|);
            && (name in zipped <==> exists j :: 0 <= j < |headers| && NamedBy(name, headers[j]))
            && forall j :: 0 <= j < |headers| && NamedBy(name, headers[j])
                           && (forall i :: j < i < |headers| ==> !NamedBy(name, headers[i])) ==>
                 name in zipped && zipped[name] == if j < |row| then row[j] else ""
  {
    forall header { StripBomIs(header, name); }
    hide StripBom, NamedBy, Zip;
    ZipHasHeaders(headers, row, |headers|, name);
    forall j | 0 <= j < |headers| && NamedBy(name, headers[j])
               && (forall i :: j < i < |headers| ==> !NamedBy(name, headers[i]))
      ensures name in Zip(headers, row, |headers|)
      ensures Zip(headers, row, |headers|)[name] == if j < |row| then row[j] else ""
    {
      ZipLooksUp(headers, row, |headers|, j);
    }
  }

  lemma RowsAreParsed(lines: seq<Line>, finalBreak: bool, k: nat)
    requires (forall l :: l in lines ==> l.cells != [] && exists text :: text in Texts(l.cells) && text != "")
    requires k + 1 < |lines|
    ensures var parsed, headers := Parse(Write(lines, finalBreak)), Texts(lines[0].cells);
            && parsed.Ok? && |parsed.value| == |lines| - 1
            && parsed.value[k] == Zip(headers, Texts(lines[k + 1].cells), |headers|)
  {
    RoundTrip(lines, finalBreak);
    KeptAll(lines);
    forall l: Line { HasTextIs(Texts(l.cells)); }
    AllTextsAt(lines);
    hide HasText, Records, Write, Texts, KeptLines, AllTexts, Zip;
  }

  /** End to end: a written table, each row with some text, is parsed into one object for each row after the first, with
      exactly the names of the first row; the last column of a name gives its text, or none when the row is shorter. */
  lemma TableIsParsed(lines: seq<Line>, finalBreak: bool, k: nat, name: string)
    requires (forall l :: l in lines ==> l.cells != [] && exists text :: text in Texts(l.cells) && text != "")
    requires k + 1 < |lines|
    ensures var parsed := Parse(Write(lines, finalBreak));
            var headers, row := Texts(lines[0].cells), Texts(lines[k + 1].cells);
            && parsed.Ok? && |parsed.value| == |lines| - 1
            && (name in parsed.value[k] <==> exists j :: 0 <= j < |headers| && NamedBy(name, headers[j]))
            && forall j :: 0 <= j < |headers| && NamedBy(name, headers[j])
                           && (forall i :: j < i < |headers| ==> !NamedBy(name, headers[i])) ==>
                 name in parsed.value[k] && parsed.value[k][name] == if j < |row| then row[j] else ""
  {
    RowsAreParsed(lines, finalBreak, k);
    hide NamedBy, Zip, Parse, Write, Texts;
    ZipIs(Texts(lines[0].cells), Texts(lines[k + 1].cells), name);
  }

  lemma {:induction false} AllTextsAt(lines: seq<Line>)
    ensures |AllTexts(lines)| == |lines|
    ensures forall k :: 0 <= k < |lines| ==> AllTexts(lines)[k] == Texts(lines[k].cells)
  {
    if lines != [] { AllTextsAt(lines[1..]); }
  }
}
