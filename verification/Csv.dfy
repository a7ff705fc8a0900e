/** Reading and writing CSV. */
module Csv {
  import opened Texts

  // Reading and writing comma-separated sheets, and exactly when reading undoes writing
  // (section 2 of RFC 4180).

  type Record = seq<Text>

  const CRLF: Text := [CR, LF]

  // ------------------------------------------------------------- delimiter

  /** How often `c` stands outside quotes, starting inside or outside them. */
  function Unquoted(line: Text, c: CodeUnit, quoted: bool): nat {
    if line == [] then 0
    else if line[0] == QUOTE then Unquoted(line[1..], c, !quoted)
    else (if !quoted && line[0] == c then 1 else 0) + Unquoted(line[1..], c, quoted)
  }

  /** Tab when it beats the comma and is no rarer than the semicolon; else the
      semicolon when it beats the comma; else the comma. */
  function Delimiter(line: Text): (d: CodeUnit)
    ensures d == COMMA || (Unquoted(line, d, false) > Unquoted(line, COMMA, false) && (d == TAB || d == SEMICOLON))
  {
    var commas, semicolons, tabs :=
      Unquoted(line, COMMA, false), Unquoted(line, SEMICOLON, false), Unquoted(line, TAB, false);
    if tabs > commas && tabs >= semicolons then TAB
    else if semicolons > commas then SEMICOLON else COMMA
  }

  /** Of the three, the one that stands most often outside quotes: the comma before the
      others where it is level with them, and the tab before the semicolon. */
  lemma {:induction false} DelimiterIsCommonest(line: Text)
    ensures var d := Delimiter(line);
            var n := Unquoted(line, d, false);
            && (d == COMMA || d == SEMICOLON || d == TAB)
            && (forall c: CodeUnit | c == COMMA || c == SEMICOLON || c == TAB :: Unquoted(line, c, false) <= n)
            && (Unquoted(line, COMMA, false) == n ==> d == COMMA)
            && (Unquoted(line, TAB, false) == n && d != COMMA ==> d == TAB)
  {
  }

  /** What stands outside quotes: a quote opens or closes, and a pair of them is both. */
  lemma {:induction false} UnquotedOverQuotes(a: Text, v: Text, b: Text, c: CodeUnit)
    requires QUOTE !in a && c != QUOTE
    ensures Unquoted(a + ([QUOTE] + (Doubled(v) + ([QUOTE] + b))), c, false) == Count(a, c) + Unquoted(b, c, false)
  {
    var tail := [QUOTE] + (Doubled(v) + ([QUOTE] + b));
    if a == [] {
      assert a + tail == tail && tail[1..] == Doubled(v) + ([QUOTE] + b);
      UnquotedClosed(v, b, c);
    } else {
      assert (a + tail)[1..] == a[1..] + tail;
      UnquotedOverQuotes(a[1..], v, b, c);
    }
  }

  lemma {:induction false} UnquotedClosed(v: Text, b: Text, c: CodeUnit)
    requires c != QUOTE
    ensures Unquoted(Doubled(v) + ([QUOTE] + b), c, true) == Unquoted(b, c, false)
  {
    var t := Doubled(v) + ([QUOTE] + b);
    if v == [] {
      assert t == [QUOTE] + b && t[1..] == b;
    } else {
      UnquotedClosed(v[1..], b, c);
      if v[0] == QUOTE {
        assert t[1..][1..] == Doubled(v[1..]) + ([QUOTE] + b);
      } else {
        assert t[1..] == Doubled(v[1..]) + ([QUOTE] + b);
      }
    }
  }

  method DetectDelimiter(firstLine: Text) returns (d: CodeUnit)
    ensures d == Delimiter(firstLine)
  {
    var commas, semicolons, tabs := 0, 0, 0;
    var quoted := false;
    for i := 0 to |firstLine|
      invariant Unquoted(firstLine, COMMA, false) == commas + Unquoted(firstLine[i..], COMMA, quoted)
      invariant Unquoted(firstLine, SEMICOLON, false) == semicolons + Unquoted(firstLine[i..], SEMICOLON, quoted)
      invariant Unquoted(firstLine, TAB, false) == tabs + Unquoted(firstLine[i..], TAB, quoted)
    {
      var ch := firstLine[i];
      if ch == QUOTE {
        quoted := !quoted;
      } else if !quoted {
        if ch == COMMA {
          commas := commas + 1;
        } else if ch == SEMICOLON {
          semicolons := semicolons + 1;
        } else if ch == TAB {
          tabs := tabs + 1;
        }
      }
    }
    d := if tabs > commas && tabs >= semicolons then TAB
         else if semicolons > commas then SEMICOLON else COMMA;
  }

  /** Up to the first `\r?\n`, quoted or not. */
  function FirstLine(t: Text): (line: Text)
    ensures line <= t
  {
    if t == [] || t[0] == LF || (|t| >= 2 && t[0] == CR && t[1] == LF) then []
    else [t[0]] + FirstLine(t[1..])
  }

  /** The text up to the first line feed, and a carriage return before that, not one alone. */
  lemma {:induction false} FirstLineMeans(a: Text, rest: Text)
    requires LF !in a
    ensures FirstLine(a) == a
    ensures FirstLine(a + (CRLF + rest)) == a
    ensures a == [] || a[|a| - 1] != CR ==> FirstLine(a + ([LF] + rest)) == a
  {
    if a == [] {
      assert a + (CRLF + rest) == CRLF + rest && a + ([LF] + rest) == [LF] + rest;
    } else {
      FirstLineMeans(a[1..], rest);
      assert (a + (CRLF + rest))[1..] == a[1..] + (CRLF + rest);
      assert (a + ([LF] + rest))[1..] == a[1..] + ([LF] + rest);
      assert a == [a[0]] + a[1..];
    }
  }

  /** One byte-order mark at the start is dropped. */
  function WithoutBom(t: Text): Text {
    if t != [] && t[0] == BOM then t[1..] else t
  }

  // --------------------------------------------------------------- reading

  /** The records in `t`, read with some of a record and a field already taken. */
  function Read(t: Text, d: CodeUnit, record: Record, field: Text, quoted: bool): seq<Record>
    decreases |t|
  {
    if t == [] then
      if field != [] || record != [] then [record + [field]] else []
    else if quoted then
      if t[0] != QUOTE then Read(t[1..], d, record, field + [t[0]], true)
      else if |t| >= 2 && t[1] == QUOTE then Read(t[2..], d, record, field + [QUOTE], true)
      else Read(t[1..], d, record, field, false)
    else if t[0] == QUOTE && field == [] then Read(t[1..], d, record, field, true)
    else if t[0] == d then Read(t[1..], d, record + [field], [], false)
    else if |t| >= 2 && t[0] == CR && t[1] == LF then [record + [field]] + Read(t[2..], d, [], [], false)
    else if t[0] == LF || t[0] == CR then [record + [field]] + Read(t[1..], d, [], [], false)
    else Read(t[1..], d, record, field + [t[0]], false)
  }

  predicate NonBlank(record: Record) {
    exists i | 0 <= i < |record| :: Trim(record[i]) != []
  }

  function WithoutBlanks(records: seq<Record>): (r: seq<Record>)
    ensures |r| <= |records|
    ensures forall i | 0 <= i < |r| :: NonBlank(r[i])
    ensures |r| == |records| ==> r == records
  {
    if records == [] then []
    else if NonBlank(records[0]) then [records[0]] + WithoutBlanks(records[1..])
    else WithoutBlanks(records[1..])
  }

  function Parse(text: Text): seq<Record> {
    var input := WithoutBom(text);
    WithoutBlanks(Read(input, Delimiter(FirstLine(input)), [], [], false))
  }

  method ParseCsvRecords(text: Text) returns (kept: seq<Record>)
    ensures kept == Parse(text)
  {
    var input := WithoutBom(text);
    var delimiter := DetectDelimiter(FirstLine(input));
    var records: seq<Record> := [];
    var record: Record := [];
    var field: Text := [];
    var quoted := false;
    var i := 0;
    while i < |input|
      invariant i <= |input|
      invariant Read(input, delimiter, [], [], false) == records + Read(input[i..], delimiter, record, field, quoted)
    {
      var ch := input[i];
      var next := if i + 1 < |input| then input[i + 1] else 0;
      if quoted {
        if ch == QUOTE {
          if next == QUOTE {
            field := field + [QUOTE];
            i := i + 1;
          } else {
            quoted := false;
          }
        } else {
          field := field + [ch];
        }
      } else if ch == QUOTE && field == [] {
        quoted := true;
      } else if ch == delimiter {
        record, field := record + [field], [];
      } else if ch == LF || ch == CR {
        if ch == CR && next == LF {
          i := i + 1;
        }
        records := records + [record + [field]];
        record, field := [], [];
      } else {
        field := field + [ch];
      }
      i := i + 1;
    }
    if field != [] || record != [] {
      records := records + [record + [field]];
    }
    assert records == Read(input, delimiter, [], [], false);
    kept := WithoutBlanks(records);
  }

  // --------------------------------------------------------------- writing

  predicate NeedsQuotes(field: Text) {
    COMMA in field || QUOTE in field || CR in field || LF in field
  }

  /** Every quote doubled. */
  function Doubled(t: Text): Text {
    if t == [] then [] else (if t[0] == QUOTE then [QUOTE, QUOTE] else [t[0]]) + Doubled(t[1..])
  }

  function Quoted(field: Text): Text {
    if NeedsQuotes(field) then [QUOTE] + Doubled(field) + [QUOTE] else field
  }

  function Line(record: Record): Text {
    if record == [] then []
    else if |record| == 1 then Quoted(record[0])
    else Quoted(record[0]) + [COMMA] + Line(record[1..])
  }

  function Lines(records: seq<Record>): Text {
    if records == [] then [] else Line(records[0]) + CRLF + Lines(records[1..])
  }

  function ToCsv(headers: Record, rows: seq<Record>): Text {
    Lines([headers] + rows)
  }

  // ------------------------------------------------ reading back what was written

  /** Inside quotes, up to the closing one. */
  lemma {:induction false} ReadDoubled(v: Text, rest: Text, d: CodeUnit, record: Record, field: Text)
    requires rest == [] || rest[0] != QUOTE
    ensures Read(Doubled(v) + ([QUOTE] + rest), d, record, field, true) == Read(rest, d, record, field + v, false)
  {
    if v == [] {
      assert ([QUOTE] + rest)[1..] == rest && [] + ([QUOTE] + rest) == [QUOTE] + rest && field + v == field;
    } else {
      ReadDoubled(v[1..], rest, d, record, field + [v[0]]);
      assert field + [v[0]] + v[1..] == field + v;
      ReadDoubledUnit(v[0], Doubled(v[1..]) + ([QUOTE] + rest), d, record, field);
      assert Doubled(v) + ([QUOTE] + rest)
          == (if v[0] == QUOTE then [QUOTE, QUOTE] else [v[0]]) + (Doubled(v[1..]) + ([QUOTE] + rest));
    }
  }

  lemma {:induction false} ReadDoubledUnit(c: CodeUnit, tail: Text, d: CodeUnit, record: Record, field: Text)
    ensures Read((if c == QUOTE then [QUOTE, QUOTE] else [c]) + tail, d, record, field, true)
         == Read(tail, d, record, field + [c], true)
  {
    if c == QUOTE {
      assert ([QUOTE, QUOTE] + tail)[2..] == tail;
    } else {
      assert ([c] + tail)[1..] == tail;
    }
  }

  lemma {:induction false} ReadOpen(rest: Text, d: CodeUnit, record: Record)
    ensures Read([QUOTE] + rest, d, record, [], false) == Read(rest, d, record, [], true)
  {
    assert ([QUOTE] + rest)[1..] == rest;
  }

  /** A written field, whatever follows it but a quote. */
  lemma {:induction false} ReadField(v: Text, rest: Text, d: CodeUnit, record: Record)
    requires rest == [] || rest[0] != QUOTE
    requires NeedsQuotes(v) || d !in v
    ensures Read(Quoted(v) + rest, d, record, [], false) == Read(rest, d, record, v, false)
  {
    assert [] + v == v;
    if NeedsQuotes(v) {
      var body := Doubled(v) + ([QUOTE] + rest);
      assert Quoted(v) + rest == [QUOTE] + body;
      ReadOpen(body, d, record);
      ReadDoubled(v, rest, d, record, []);
    } else {
      ReadBare(v, rest, d, record, []);
    }
  }

  lemma {:induction false} ReadEnd(rest: Text, d: CodeUnit, record: Record, field: Text)
    requires d != CR
    ensures Read(CRLF + rest, d, record, field, false) == [record + [field]] + Read(rest, d, [], [], false)
  {
    assert (CRLF + rest)[2..] == rest;
  }

  /** A written field and the comma after it. */
  lemma {:induction false} ReadCell(v: Text, rest: Text, record: Record)
    ensures Read(Quoted(v) + ([COMMA] + rest), COMMA, record, [], false) == Read(rest, COMMA, record + [v], [], false)
  {
    ReadField(v, [COMMA] + rest, COMMA, record);
    assert ([COMMA] + rest)[1..] == rest;
  }

  lemma {:induction false} ReadLastCell(v: Text, rest: Text, record: Record)
    ensures Read(Quoted(v) + (CRLF + rest), COMMA, record, [], false)
         == [record + [v]] + Read(rest, COMMA, [], [], false)
  {
    ReadField(v, CRLF + rest, COMMA, record);
    ReadEnd(rest, COMMA, record, v);
  }

  lemma {:induction false} LineParts(r: Record, rest: Text)
    requires |r| > 1
    ensures Line(r) + rest == Quoted(r[0]) + ([COMMA] + (Line(r[1..]) + rest))
  {
  }

  lemma {:induction false} ReadLine(r: Record, rest: Text, record: Record)
    requires r != []
    ensures Read(Line(r) + (CRLF + rest), COMMA, record, [], false) == [record + r] + Read(rest, COMMA, [], [], false)
  {
    if |r| == 1 {
      ReadLastCell(r[0], rest, record);
      assert r == [r[0]];
    } else {
      LineParts(r, CRLF + rest);
      ReadCell(r[0], Line(r[1..]) + (CRLF + rest), record);
      ReadLine(r[1..], rest, record + [r[0]]);
      assert record + [r[0]] + r[1..] == record + r;
    }
  }

  lemma {:induction false} ReadLines(records: seq<Record>)
    requires forall i | 0 <= i < |records| :: records[i] != []
    ensures Read(Lines(records), COMMA, [], [], false) == records
  {
    if records != [] {
      var more := Lines(records[1..]);
      assert Lines(records) == Line(records[0]) + (CRLF + more);
      ReadLine(records[0], more, []);
      ReadLines(records[1..]);
      assert [] + records[0] == records[0];
    }
  }

  lemma {:induction false} NothingBlank(records: seq<Record>)
    requires forall i | 0 <= i < |records| :: NonBlank(records[i])
    ensures WithoutBlanks(records) == records
  {
    if records != [] {
      NothingBlank(records[1..]);
    }
  }

  // ------------------------------------------------- what any text reads as

  /** A cell as it may be written: bare, or in quotes with anything bare after them. */
  datatype Cell = Bare(text: Text) | Enclosed(inner: Text, tail: Text)

  function CellText(cell: Cell): Text {
    match cell case Bare(text) => text case Enclosed(inner, tail) => inner + tail
  }

  function WriteCell(cell: Cell): Text {
    match cell case Bare(text) => text case Enclosed(inner, tail) => [QUOTE] + Doubled(inner) + [QUOTE] + tail
  }

  /** Outside quotes stands no delimiter and no line break, and a quote only after other text. */
  predicate StandsBare(t: Text, d: CodeUnit) {
    d !in t && CR !in t && LF !in t && (t != [] ==> t[0] != QUOTE)
  }

  predicate CellFits(cell: Cell, d: CodeUnit) {
    match cell case Bare(text) => StandsBare(text, d) case Enclosed(_, tail) => StandsBare(tail, d)
  }

  function RowTexts(row: seq<Cell>): (r: Record)
    ensures |r| == |row|
  {
    seq(|row|, i requires 0 <= i < |row| => CellText(row[i]))
  }

  function WriteRow(row: seq<Cell>, d: CodeUnit): Text {
    if row == [] then []
    else if |row| == 1 then WriteCell(row[0])
    else WriteCell(row[0]) + [d] + WriteRow(row[1..], d)
  }

  /** One line, and what ends it. */
  datatype Written = Written(row: seq<Cell>, end: Text)

  predicate EndsLine(t: Text) {
    t == [LF] || t == [CR] || t == [CR, LF]
  }

  /** Lines may end in any of three ways, and the last in none; an empty line does not stand
      between CR and LF, nor last with no end. */
  predicate SheetFits(sheet: seq<Written>, d: CodeUnit, afterCr: bool) {
    sheet == [] ||
    var line := sheet[0];
    && line.row != [] && (forall i | 0 <= i < |line.row| :: CellFits(line.row[i], d))
    && (line.row == [Bare([])] ==> !afterCr)
    && (EndsLine(line.end) || (line.end == [] && |sheet| == 1 && RowTexts(line.row) != [[]]))
    && SheetFits(sheet[1..], d, line.end == [CR])
  }

  function WriteSheet(sheet: seq<Written>, d: CodeUnit): Text {
    if sheet == [] then [] else WriteRow(sheet[0].row, d) + (sheet[0].end + WriteSheet(sheet[1..], d))
  }

  function SheetRecords(sheet: seq<Written>): (rs: seq<Record>)
    ensures |rs| == |sheet|
  {
    seq(|sheet|, i requires 0 <= i < |sheet| => RowTexts(sheet[i].row))
  }

  predicate Separates(d: CodeUnit) {
    d != QUOTE && d != CR && d != LF
  }

  lemma {:induction false} ReadBare(v: Text, rest: Text, d: CodeUnit, record: Record, field: Text)
    requires CR !in v && LF !in v && d !in v && (v != [] && v[0] == QUOTE ==> field != [])
    ensures Read(v + rest, d, record, field, false) == Read(rest, d, record, field + v, false)
  {
    if v == [] {
      assert v + rest == rest && field + v == field;
    } else {
      var t := v + rest;
      assert t[0] == v[0] && t[1..] == v[1..] + rest;
      ReadBare(v[1..], rest, d, record, field + [v[0]]);
      assert field + [v[0]] + v[1..] == field + v;
    }
  }

  lemma {:induction false} ReadWrittenCell(cell: Cell, rest: Text, d: CodeUnit, record: Record)
    requires Separates(d) && CellFits(cell, d) && (rest == [] || rest[0] != QUOTE)
    ensures Read(WriteCell(cell) + rest, d, record, [], false) == Read(rest, d, record, CellText(cell), false)
  {
    match cell
    case Bare(text) =>
      ReadBare(text, rest, d, record, []);
      assert [] + text == text;
    case Enclosed(inner, tail) =>
      var body := Doubled(inner) + ([QUOTE] + (tail + rest));
      assert WriteCell(cell) + rest == [QUOTE] + body;
      ReadOpen(body, d, record);
      ReadDoubled(inner, tail + rest, d, record, []);
      assert [] + inner == inner;
      ReadBare(tail, rest, d, record, inner);
  }

  /** A line break, or the end of the text. */
  lemma {:induction false} ReadLineEnd(end: Text, rest: Text, d: CodeUnit, record: Record, field: Text)
    requires Separates(d) && (EndsLine(end) || (end == [] && rest == [] && (field != [] || record != [])))
    requires end == [CR] ==> rest == [] || rest[0] != LF
    ensures Read(end + rest, d, record, field, false) == [record + [field]] + Read(rest, d, [], [], false)
  {
    if end == [] {
      assert end + rest == [];
    } else if end == [CR, LF] {
      assert (end + rest)[2..] == rest;
    } else {
      assert (end + rest)[1..] == rest;
    }
  }

  lemma {:induction false} WrittenRowParts(row: seq<Cell>, d: CodeUnit, rest: Text)
    requires |row| > 1
    ensures WriteRow(row, d) + rest == WriteCell(row[0]) + ([d] + (WriteRow(row[1..], d) + rest))
    ensures RowTexts(row) == [CellText(row[0])] + RowTexts(row[1..])
  {
  }

  lemma {:induction false} ReadWrittenRow(row: seq<Cell>, end: Text, rest: Text, d: CodeUnit, record: Record)
    requires Separates(d) && row != [] && forall i | 0 <= i < |row| :: CellFits(row[i], d)
    requires EndsLine(end) || (end == [] && rest == [] && (record != [] || RowTexts(row) != [[]]))
    requires end == [CR] ==> rest == [] || rest[0] != LF
    ensures Read(WriteRow(row, d) + (end + rest), d, record, [], false)
         == [record + RowTexts(row)] + Read(rest, d, [], [], false)
  {
    if |row| == 1 {
      assert RowTexts(row) == [CellText(row[0])];
      ReadWrittenCell(row[0], end + rest, d, record);
      ReadLineEnd(end, rest, d, record, CellText(row[0]));
    } else {
      var more := WriteRow(row[1..], d) + (end + rest);
      WrittenRowParts(row, d, end + rest);
      ReadWrittenCell(row[0], [d] + more, d, record);
      assert ([d] + more)[1..] == more;
      ReadWrittenRow(row[1..], end, rest, d, record + [CellText(row[0])]);
      assert record + [CellText(row[0])] + RowTexts(row[1..]) == record + RowTexts(row);
    }
  }

  /** After a lone CR no line begins with LF. */
  lemma {:induction false} NoFeedAfterReturn(sheet: seq<Written>, d: CodeUnit)
    requires Separates(d) && SheetFits(sheet, d, true)
    ensures WriteSheet(sheet, d) == [] || WriteSheet(sheet, d)[0] != LF
  {
    if sheet != [] {
      FirstOfRow(sheet[0].row, d);
    }
  }

  lemma {:induction false} FirstOfRow(row: seq<Cell>, d: CodeUnit)
    requires Separates(d) && row != [] && row != [Bare([])] && CellFits(row[0], d)
    ensures WriteRow(row, d) != [] && WriteRow(row, d)[0] != LF
  {
    if |row| == 1 {
      assert row == [row[0]];
    }
    if row[0].Bare? && row[0].text == [] {
      assert WriteRow(row, d)[0] == d;
    }
  }

  /** Any sheet, with any delimiter, any cells in quotes or bare, and any line ends, is read as
      the texts of its cells. */
  lemma {:induction false} ReadsWhatIsWritten(sheet: seq<Written>, d: CodeUnit, afterCr: bool)
    requires Separates(d) && SheetFits(sheet, d, afterCr)
    ensures Read(WriteSheet(sheet, d), d, [], [], false) == SheetRecords(sheet)
  {
    if sheet != [] {
      var line, more := sheet[0], WriteSheet(sheet[1..], d);
      if line.end == [CR] {
        NoFeedAfterReturn(sheet[1..], d);
      }
      ReadWrittenRow(line.row, line.end, more, d, []);
      ReadsWhatIsWritten(sheet[1..], d, line.end == [CR]);
      assert [] + RowTexts(line.row) == RowTexts(line.row);
      assert SheetRecords(sheet) == [RowTexts(line.row)] + SheetRecords(sheet[1..]);
    }
  }

  /** A quote that is never closed holds everything after it. */
  lemma {:induction false} ReadUnclosed(v: Text, d: CodeUnit, record: Record)
    ensures Read([QUOTE] + Doubled(v), d, record, [], false)
         == if v != [] || record != [] then [record + [v]] else []
  {
    ReadOpen(Doubled(v), d, record);
    ReadToEnd(v, d, record, []);
    assert [] + v == v;
  }

  lemma {:induction false} ReadToEnd(v: Text, d: CodeUnit, record: Record, field: Text)
    ensures Read(Doubled(v), d, record, field, true)
         == if field + v != [] || record != [] then [record + [field + v]] else []
  {
    if v == [] {
      assert field + v == field;
    } else {
      ReadDoubledUnit(v[0], Doubled(v[1..]), d, record, field);
      ReadToEnd(v[1..], d, record, field + [v[0]]);
      assert field + [v[0]] + v[1..] == field + v;
    }
  }

  /** Some field holds more than white space. */
  ghost predicate SaysSomething(record: Record) {
    exists i, k :: 0 <= i < |record| && 0 <= k < |record[i]| && !IsSpace(record[i][k])
  }

  lemma {:induction false} BlankMeans(record: Record)
    ensures NonBlank(record) <==> SaysSomething(record)
  {
    forall i | 0 <= i < |record|
      ensures Trim(record[i]) == [] <==> forall k | 0 <= k < |record[i]| :: IsSpace(record[i][k])
    {
      TrimIsEmpty(record[i]);
    }
  }

  lemma {:induction false} DropBlanksExactlyWhen(records: seq<Record>)
    ensures WithoutBlanks(records) == records <==> forall i | 0 <= i < |records| :: SaysSomething(records[i])
  {
    forall i | 0 <= i < |records| ensures NonBlank(records[i]) <==> SaysSomething(records[i]) {
      BlankMeans(records[i]);
    }
    if forall i | 0 <= i < |records| :: NonBlank(records[i]) {
      NothingBlank(records);
    }
  }

  lemma {:induction false} MarkDoesNotMatter(text: Text)
    requires text == [] || text[0] != BOM
    ensures WithoutBom([BOM] + text) == text == WithoutBom(text)
  {
    assert ([BOM] + text)[1..] == text;
  }

  /** A whole file, with or without a byte-order mark: where its delimiter is the one
      detected on its first line, it is parsed as the texts of its cells, blank lines dropped;
      so as its lines stand exactly when each says something. */
  lemma {:induction false} ParsesWhatIsWritten(sheet: seq<Written>, d: CodeUnit)
    requires Separates(d) && SheetFits(sheet, d, false)
    requires WriteSheet(sheet, d) == [] || WriteSheet(sheet, d)[0] != BOM
    requires Delimiter(FirstLine(WriteSheet(sheet, d))) == d
    ensures Parse([BOM] + WriteSheet(sheet, d)) == Parse(WriteSheet(sheet, d)) == WithoutBlanks(SheetRecords(sheet))
    ensures Parse(WriteSheet(sheet, d)) == SheetRecords(sheet)
       <==> forall i | 0 <= i < |sheet| :: SaysSomething(SheetRecords(sheet)[i])
  {
    MarkDoesNotMatter(WriteSheet(sheet, d));
    ReadsWhatIsWritten(sheet, d, false);
    DropBlanksExactlyWhen(SheetRecords(sheet));
  }

  // ------------------------------------------------------ nothing is lost

  function Count(t: Text, c: CodeUnit): nat {
    if t == [] then 0 else (if t[0] == c then 1 else 0) + Count(t[1..], c)
  }

  function CountRecord(r: Record, c: CodeUnit): nat {
    if r == [] then 0 else Count(r[0], c) + CountRecord(r[1..], c)
  }

  function CountRecords(rs: seq<Record>, c: CodeUnit): nat {
    if rs == [] then 0 else CountRecord(rs[0], c) + CountRecords(rs[1..], c)
  }

  lemma {:induction false} CountAppend(a: Text, b: Text, c: CodeUnit)
    ensures Count(a + b, c) == Count(a, c) + Count(b, c)
  {
    if a == [] {
      assert a + b == b;
    } else {
      assert (a + b)[1..] == a[1..] + b;
      CountAppend(a[1..], b, c);
    }
  }

  lemma {:induction false} CountRecordAppend(r: Record, field: Text, c: CodeUnit)
    ensures CountRecord(r + [field], c) == CountRecord(r, c) + Count(field, c)
  {
    if r == [] {
      assert r + [field] == [field];
      assert CountRecord([field], c) == Count(field, c) + CountRecord([], c);
    } else {
      assert (r + [field])[1..] == r[1..] + [field];
      CountRecordAppend(r[1..], field, c);
    }
  }

  predicate Structural(c: CodeUnit, d: CodeUnit) {
    c == QUOTE || c == CR || c == LF || c == d
  }

  lemma {:induction false} CountRecordsFirst(r: Record, rs: seq<Record>, c: CodeUnit)
    ensures CountRecords([r] + rs, c) == CountRecord(r, c) + CountRecords(rs, c)
  {
    assert ([r] + rs)[1..] == rs;
  }

  /** Reading keeps every character that is not a quote, a line break or the delimiter. */
  lemma {:induction false} ReadKeeps(t: Text, d: CodeUnit, record: Record, field: Text, quoted: bool, c: CodeUnit)
    requires !Structural(c, d)
    ensures CountRecords(Read(t, d, record, field, quoted), c) == Count(t, c) + CountRecord(record, c) + Count(field, c)
    decreases |t|
  {
    CountRecordAppend(record, field, c);
    if t == [] {
      CountRecordsFirst(record + [field], [], c);
    } else if quoted {
      ReadKeepsQuoted(t, d, record, field, c);
    } else {
      CountAppend(field, [t[0]], c);
      if t[0] == QUOTE && field == [] {
        ReadKeeps(t[1..], d, record, field, true, c);
      } else if t[0] == d {
        ReadKeeps(t[1..], d, record + [field], [], false, c);
      } else if |t| >= 2 && t[0] == CR && t[1] == LF {
        assert t[1..][1..] == t[2..];
        ReadKeeps(t[2..], d, [], [], false, c);
        CountRecordsFirst(record + [field], Read(t[2..], d, [], [], false), c);
      } else if t[0] == LF || t[0] == CR {
        ReadKeeps(t[1..], d, [], [], false, c);
        CountRecordsFirst(record + [field], Read(t[1..], d, [], [], false), c);
      } else {
        ReadKeeps(t[1..], d, record, field + [t[0]], false, c);
      }
    }
  }

  lemma {:induction false} ReadKeepsQuoted(t: Text, d: CodeUnit, record: Record, field: Text, c: CodeUnit)
    requires !Structural(c, d) && t != []
    ensures CountRecords(Read(t, d, record, field, true), c) == Count(t, c) + CountRecord(record, c) + Count(field, c)
    decreases |t|, 0
  {
    CountAppend(field, [t[0]], c);
    if t[0] != QUOTE {
      ReadKeeps(t[1..], d, record, field + [t[0]], true, c);
    } else if |t| >= 2 && t[1] == QUOTE {
      assert t[1..][1..] == t[2..];
      ReadKeeps(t[2..], d, record, field + [QUOTE], true, c);
    } else {
      ReadKeeps(t[1..], d, record, field, false, c);
    }
  }

  lemma {:induction false} BlanksKeepNothingElse(records: seq<Record>, c: CodeUnit)
    ensures CountRecords(WithoutBlanks(records), c) <= CountRecords(records, c)
    ensures !IsSpace(c) ==> CountRecords(WithoutBlanks(records), c) == CountRecords(records, c)
  {
    if records != [] {
      BlanksKeepNothingElse(records[1..], c);
      if NonBlank(records[0]) {
        CountRecordsFirst(records[0], WithoutBlanks(records[1..]), c);
      } else if !IsSpace(c) {
        BlankHasNone(records[0], c);
      }
    }
  }

  lemma {:induction false} BlankHasNone(r: Record, c: CodeUnit)
    requires !NonBlank(r) && !IsSpace(c)
    ensures CountRecord(r, c) == 0
  {
    if r != [] {
      assert Trim(r[0]) == [];
      TrimmedAway(r[0], c);
      forall i | 0 <= i < |r[1..]| ensures Trim(r[1..][i]) == [] {
        assert r[1..][i] == r[i + 1];
      }
      BlankHasNone(r[1..], c);
    }
  }

  lemma {:induction false} TrimmedAway(t: Text, c: CodeUnit)
    requires Trim(t) == [] && !IsSpace(c)
    ensures Count(t, c) == 0
  {
    if t != [] && IsSpace(t[0]) {
      TrimmedAway(t[1..], c);
    } else if t != [] {
      TrimEndStops(t);
    }
  }

  lemma {:induction false} TrimEndStops(t: Text)
    requires t != [] && !IsSpace(t[0])
    ensures TrimEnd(t) != []
  {
    if |t| > 1 && IsSpace(t[|t| - 1]) {
      TrimEndStops(t[..|t| - 1]);
    }
  }

  /** Separators a sheet is written with. */
  function Separators(records: seq<Record>): nat {
    if records == [] then 0
    else (if records[0] == [] then 0 else |records[0]| - 1) + Separators(records[1..])
  }

  lemma {:induction false} CountDoubled(v: Text, c: CodeUnit)
    requires c != QUOTE
    ensures Count(Doubled(v), c) == Count(v, c)
  {
    if v != [] {
      CountDoubled(v[1..], c);
      CountAppend(if v[0] == QUOTE then [QUOTE, QUOTE] else [v[0]], Doubled(v[1..]), c);
      assert [QUOTE, QUOTE][1..] == [QUOTE];
    }
  }

  lemma {:induction false} CountQuoted(v: Text, c: CodeUnit)
    requires c != QUOTE
    ensures Count(Quoted(v), c) == Count(v, c)
  {
    if NeedsQuotes(v) {
      CountDoubled(v, c);
      CountAppend([QUOTE] + Doubled(v), [QUOTE], c);
      CountAppend([QUOTE], Doubled(v), c);
    }
  }

  lemma {:induction false} CountLine(r: Record, c: CodeUnit)
    requires c != QUOTE
    ensures Count(Line(r), c) == CountRecord(r, c) + (if c == COMMA && r != [] then |r| - 1 else 0)
  {
    if r != [] {
      CountQuoted(r[0], c);
      if |r| == 1 {
        assert r[1..] == [];
      } else {
        CountLine(r[1..], c);
        CountAppend(Quoted(r[0]) + [COMMA], Line(r[1..]), c);
        CountAppend(Quoted(r[0]), [COMMA], c);
      }
    }
  }

  /** Writing keeps every character of every field, and adds commas between fields. */
  lemma {:induction false} CountLines(records: seq<Record>, c: CodeUnit)
    requires !Structural(c, CR)
    ensures Count(Lines(records), c) == CountRecords(records, c) + (if c == COMMA then Separators(records) else 0)
  {
    if records != [] {
      CountLine(records[0], c);
      CountLines(records[1..], c);
      CountAppend(Line(records[0]) + CRLF, Lines(records[1..]), c);
      CountAppend(Line(records[0]), CRLF, c);
      CountAppend([CR], [LF], c);
      assert CRLF == [CR] + [LF];
    }
  }

  // --------------------------------------------- exactly when it round-trips

  lemma {:induction false} FirstLineWithin(a: Text, rest: Text)
    ensures FirstLine(a + (CRLF + rest)) <= a
  {
    var t := a + (CRLF + rest);
    if a == [] {
      assert t[0] == CR && t[1] == LF;
    } else {
      assert t[1..] == a[1..] + (CRLF + rest);
      FirstLineWithin(a[1..], rest);
    }
  }

  lemma {:induction false} UnquotedPrefix(p: Text, t: Text, c: CodeUnit, quoted: bool)
    requires p <= t
    ensures Unquoted(p, c, quoted) <= Unquoted(t, c, quoted)
  {
    if p != [] {
      UnquotedPrefix(p[1..], t[1..], c, if p[0] == QUOTE then !quoted else quoted);
    }
  }

  /** Inside a written pair of quotes nothing stands unquoted. */
  lemma {:induction false} UnquotedInQuotes(v: Text, c: CodeUnit)
    ensures Unquoted(Doubled(v) + [QUOTE], c, true) == 0
  {
    var t := Doubled(v) + [QUOTE];
    if v == [] {
      assert t[1..] == [];
    } else {
      UnquotedInQuotes(v[1..], c);
      if v[0] == QUOTE {
        assert t[1..][1..] == Doubled(v[1..]) + [QUOTE];
      } else {
        assert t[1..] == Doubled(v[1..]) + [QUOTE];
      }
    }
  }

  lemma {:induction false} UnquotedWithinCount(t: Text, c: CodeUnit, quoted: bool)
    ensures Unquoted(t, c, quoted) <= Count(t, c)
  {
    if t != [] {
      UnquotedWithinCount(t[1..], c, if t[0] == QUOTE then !quoted else quoted);
    }
  }

  lemma {:induction false} CountAbsent(t: Text, c: CodeUnit)
    requires c !in t
    ensures Count(t, c) == 0
  {
    if t != [] {
      CountAbsent(t[1..], c);
    }
  }

  /** A one-field heading that stands whole cannot make another delimiter win. */
  lemma {:induction false} WholeFieldHasNone(v: Text, rest: Text, d: CodeUnit)
    requires NeedsQuotes(v) || d !in v
    ensures Unquoted(FirstLine(Quoted(v) + (CRLF + rest)), d, false) == 0
  {
    FirstLineWithin(Quoted(v), rest);
    UnquotedPrefix(FirstLine(Quoted(v) + (CRLF + rest)), Quoted(v), d, false);
    if NeedsQuotes(v) {
      assert Quoted(v)[1..] == Doubled(v) + [QUOTE];
      UnquotedInQuotes(v, d);
    } else {
      CountAbsent(v, d);
      UnquotedWithinCount(v, d, false);
    }
  }

  /** An unquoted line is cut at each delimiter in it. */
  lemma {:induction false} ReadSplit(
      v: Text, rest: Text, d: CodeUnit, record: Record, field: Text)
    returns (cells: Record)
    requires QUOTE !in v && CR !in v && LF !in v && d != CR
    ensures Read(v + (CRLF + rest), d, record, field, false) == [cells] + Read(rest, d, [], [], false)
    ensures |cells| > |record| && (d in v ==> |cells| > |record| + 1)
  {
    var t := v + (CRLF + rest);
    if v == [] {
      assert t == CRLF + rest;
      ReadEnd(rest, d, record, field);
      cells := record + [field];
    } else {
      assert t[0] == v[0] && t[1..] == v[1..] + (CRLF + rest);
      if v[0] == d {
        cells := ReadSplit(v[1..], rest, d, record + [field], []);
      } else {
        cells := ReadSplit(v[1..], rest, d, record, field + [v[0]]);
      }
    }
  }

  /** A written field on a line of its own, read with any delimiter. */
  lemma {:induction false} ReadSingle(v: Text, rest: Text, d: CodeUnit) returns (cells: Record)
    requires d == COMMA || d == TAB || d == SEMICOLON
    ensures Read(Quoted(v) + (CRLF + rest), d, [], [], false) == [cells] + Read(rest, d, [], [], false)
    ensures !NeedsQuotes(v) && d in v ==> |cells| > 1
  {
    if NeedsQuotes(v) {
      ReadField(v, CRLF + rest, d, []);
      ReadEnd(rest, d, [], v);
      cells := [] + [v];
    } else {
      cells := ReadSplit(v, rest, d, [], []);
    }
  }

  lemma {:induction false} OneColumnReads(records: seq<Record>, d: CodeUnit)
    requires d == COMMA || d == TAB || d == SEMICOLON
    requires forall i | 0 <= i < |records| :: |records[i]| == 1
    ensures var read := Read(Lines(records), d, [], [], false);
            && |read| == |records|
            && (records != [] && !NeedsQuotes(records[0][0]) && d in records[0][0] ==> |read[0]| > 1)
  {
    if records != [] {
      var more := Lines(records[1..]);
      assert Lines(records) == Quoted(records[0][0]) + (CRLF + more);
      var cells := ReadSingle(records[0][0], more, d);
      OneColumnReads(records[1..], d);
    }
  }

  lemma {:induction false} NoSeparators(records: seq<Record>)
    requires Separators(records) == 0 && forall i | 0 <= i < |records| :: NonBlank(records[i])
    ensures forall i | 0 <= i < |records| :: |records[i]| == 1
  {
    if records != [] {
      NoSeparators(records[1..]);
      forall i | 0 <= i < |records| ensures |records[i]| == 1 {
        assert NonBlank(records[i]);
        assert i > 0 ==> records[i] == records[1..][i - 1];
      }
    }
  }

  /** A single column that is not read with the comma is not read back. */
  lemma {:induction false} OneColumnFails(records: seq<Record>)
    requires records != [] && forall i | 0 <= i < |records| :: |records[i]| == 1
    requires Delimiter(FirstLine(Lines(records))) != COMMA
    ensures Read(Lines(records), Delimiter(FirstLine(Lines(records))), [], [], false) != records
  {
    var v, more := records[0][0], Lines(records[1..]);
    var d := Delimiter(FirstLine(Lines(records)));
    OneColumnReads(records, d);
    assert Lines(records) == Quoted(v) + (CRLF + more);
    if NeedsQuotes(v) || d !in v {
      WholeFieldHasNone(v, more, d);
    }
  }

  /** With another delimiter every comma stays inside a field: no sheet with two
      columns reads back as itself, and neither does one with a single column. */
  lemma {:induction false} OtherDelimiterFails(records: seq<Record>)
    requires records != [] && WithoutBom(Lines(records)) == Lines(records)
    requires Delimiter(FirstLine(Lines(records))) != COMMA
    ensures Parse(Lines(records)) != records
  {
    var input := Lines(records);
    var d := Delimiter(FirstLine(input));
    if Parse(input) == records {
      KeptCommas(records, d);
      NoSeparators(records);
      OneColumnReads(records, d);
      OneColumnFails(records);
    }
  }

  lemma {:induction false} KeptCommas(records: seq<Record>, d: CodeUnit)
    requires d == TAB || d == SEMICOLON
    requires WithoutBlanks(Read(Lines(records), d, [], [], false)) == records
    ensures Separators(records) == 0
  {
    ReadKeeps(Lines(records), d, [], [], false, COMMA);
    BlanksKeepNothingElse(Read(Lines(records), d, [], [], false), COMMA);
    CountLines(records, COMMA);
  }

  /** A leading byte-order mark is lost. */
  lemma {:induction false} LeadingBomFails(records: seq<Record>)
    requires WithoutBom(Lines(records)) != Lines(records)
    ensures Parse(Lines(records)) != records
  {
    var input := WithoutBom(Lines(records));
    var d := Delimiter(FirstLine(input));
    ReadKeeps(input, d, [], [], false, BOM);
    BlanksKeepNothingElse(Read(input, d, [], [], false), BOM);
    CountLines(records, BOM);
  }

  predicate StartsWithBom(t: Text) {
    t != [] && t[0] == BOM
  }

  /** Reading a written sheet gives it back exactly when every record has a field that
      is not blank, the text does not begin with a byte-order mark, and the delimiter
      detected on its first line is the comma. */
  lemma {:induction false} RoundTripExactlyWhen(headers: Record, rows: seq<Record>)
    ensures var text, records := ToCsv(headers, rows), [headers] + rows;
            Parse(text) == records
            <==> && (forall i | 0 <= i < |records| :: NonBlank(records[i]))
                 && !StartsWithBom(text)
                 && Delimiter(FirstLine(text)) == COMMA
  {
    var text, records := ToCsv(headers, rows), [headers] + rows;
    if StartsWithBom(text) {
      assert |WithoutBom(text)| < |text|;
      LeadingBomFails(records);
    } else if Delimiter(FirstLine(text)) != COMMA {
      OtherDelimiterFails(records);
    } else if forall i | 0 <= i < |records| :: NonBlank(records[i]) {
      ReadLines(records);
      NothingBlank(records);
    }
  }

  /** Headings without tabs or semicolons never change the delimiter. */
  lemma {:induction false} PlainHeadingsKeepTheComma(headers: Record, rows: seq<Record>)
    requires CountRecord(headers, TAB) == 0 && CountRecord(headers, SEMICOLON) == 0
    ensures Delimiter(FirstLine(ToCsv(headers, rows))) == COMMA
  {
    var records := [headers] + rows;
    var rest := Lines(records[1..]);
    var text := ToCsv(headers, rows);
    assert text == Line(headers) + (CRLF + rest);
    FirstLineWithin(Line(headers), rest);
    forall c: CodeUnit | c == TAB || c == SEMICOLON ensures Unquoted(FirstLine(text), c, false) == 0 {
      UnquotedPrefix(FirstLine(text), Line(headers), c, false);
      UnquotedWithinCount(Line(headers), c, false);
      CountLine(headers, c);
    }
  }

  /** A single heading that holds a semicolon is read as two columns. */
  lemma {:induction false} SemicolonHeadingIsMisread(rows: seq<Record>)
    ensures Parse(ToCsv([Ascii("a;b")], rows)) != [[Ascii("a;b")]] + rows
  {
    var v := Ascii("a;b");
    var records := [[v]] + rows;
    var rest := Lines(records[1..]);
    assert v == [0x61, SEMICOLON, 0x62];
    var text := ToCsv([v], rows);
    assert text == v + (CRLF + rest);
    assert FirstLine(text) == v by {
      assert text[1..][1..][1..] == CRLF + rest;
      assert FirstLine(CRLF + rest) == [];
      assert FirstLine(text[1..][1..]) == [0x62] + [];
      assert FirstLine(text[1..]) == [SEMICOLON] + [0x62];
    }
    assert v[1..] == [SEMICOLON, 0x62] && v[1..][1..] == [0x62] && v[1..][1..][1..] == [];
    assert Unquoted(v[1..][1..], SEMICOLON, false) == 0 && Unquoted(v[1..][1..], COMMA, false) == 0;
    assert Unquoted(v, SEMICOLON, false) == 1 && Unquoted(v, COMMA, false) == 0;
    RoundTripExactlyWhen([v], rows);
  }
}