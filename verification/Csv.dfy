/** Writing tables as CSV and reading them back. */
module Csv {
  import opened Results

  /** A value to be written: a string, or anything else already turned into one. */
  datatype Value = Str(text: string) | Other(text: string)

  /** White space as the program's regular expressions and trimming understand it. */
  predicate IsSpace(c: char) {
    || '\t' <= c <= '\r' || c == ' ' || c == '\U{00A0}' || c == '\U{1680}'
    || '\U{2000}' <= c <= '\U{200A}' || c == '\U{2028}' || c == '\U{2029}'
    || c == '\U{202F}' || c == '\U{205F}' || c == '\U{3000}' || c == '\U{FEFF}'
  }

  /** Behind any white space stands a character that makes a spreadsheet read a formula. */
  predicate IsFormula(s: string) {
    s != "" && (s[0] in "=+-@" || (IsSpace(s[0]) && IsFormula(s[1..])))
  }

  predicate IsBlank(s: string) {
    forall i | 0 <= i < |s| :: IsSpace(s[i])
  }

  predicate IsBlankRow(row: seq<string>) {
    forall i | 0 <= i < |row| :: IsBlank(row[i])
  }

  // ---------------------------------------------------------------- writing

  /** Strings that look like formulas are made harmless with an apostrophe. */
  function Shown(value: Value): string {
    if value.Str? && IsFormula(value.text) then "'" + value.text else value.text
  }

  function Doubled(s: string): string {
    if s == "" then "" else (if s[0] == '"' then "\"\"" else [s[0]]) + Doubled(s[1..])
  }

  /** A cell is quoted whatever it holds. */
  function Quoted(text: string): string {
    "\"" + Doubled(text) + "\""
  }

  function Join(parts: seq<string>, separator: char): string {
    if parts == [] then ""
    else if |parts| == 1 then parts[0]
    else parts[0] + [separator] + Join(parts[1..], separator)
  }

  function ShownRow(row: seq<Value>): (cells: seq<string>)
    ensures |cells| == |row|
  {
    seq(|row|, i requires 0 <= i < |row| => Shown(row[i]))
  }

  function QuotedCells(cells: seq<string>): (quoted: seq<string>)
    ensures |quoted| == |cells|
  {
    seq(|cells|, i requires 0 <= i < |cells| => Quoted(cells[i]))
  }

  function CsvLine(row: seq<Value>): string {
    Join(QuotedCells(ShownRow(row)), ',')
  }

  function CsvLines(matrix: seq<seq<Value>>): (lines: seq<string>)
    ensures |lines| == |matrix|
  {
    seq(|matrix|, i requires 0 <= i < |matrix| => CsvLine(matrix[i]))
  }

  function CsvRows(matrix: seq<seq<Value>>): string {
    Join(CsvLines(matrix), '\n')
  }

  // ---------------------------------------------------------------- reading

  /** The parser between two characters. */
  datatype Parser = Parser(rows: seq<seq<string>>, row: seq<string>, cell: string, quoted: bool)

  function Start(): Parser {
    Parser([], [], "", false)
  }

  function EndRow(p: Parser): Parser {
    var row := p.row + [p.cell];
    Parser(if IsBlankRow(row) then p.rows else p.rows + [row], [], "", false)
  }

  predicate StartsWith(s: string, c: char) {
    s != "" && s[0] == c
  }

  /** What reading the rest of the input from a parser state comes to; None for an open quote at the end. */
  function Read(s: string, p: Parser): Option<seq<seq<string>>>
    decreases |s|
  {
    if s == "" then (if p.quoted then None else Some(EndRow(p).rows))
    else if p.quoted then
      if s[0] == '"' && StartsWith(s[1..], '"') then Read(s[2..], p.(cell := p.cell + "\""))
      else if s[0] == '"' then Read(s[1..], p.(quoted := false))
      else Read(s[1..], p.(cell := p.cell + [s[0]]))
    else if s[0] == '"' then Read(s[1..], p.(quoted := true))
    else if s[0] == ',' then Read(s[1..], p.(row := p.row + [p.cell], cell := ""))
    else if s[0] == '\n' then Read(s[1..], EndRow(p))
    else if s[0] == '\r' then Read(if StartsWith(s[1..], '\n') then s[2..] else s[1..], EndRow(p))
    else Read(s[1..], p.(cell := p.cell + [s[0]]))
  }

  function ParseMatrix(input: string): Option<seq<seq<string>>> {
    Read(input, Start())
  }

  method ParseCsvMatrix(input: string) returns (result: Option<seq<seq<string>>>)
    ensures result == ParseMatrix(input)
  {
    var p := Start();
    assert input[0..] == input;
    var index := 0;
    while index < |input|
      invariant 0 <= index <= |input|
      invariant ParseMatrix(input) == Read(input[index..], p)
    {
      var character := input[index];
      var next := input[index + 1..];
      assert input[index..][1..] == next;
      assert next != "" ==> input[index..][2..] == input[index + 2..];
      if p.quoted {
        if character == '"' && StartsWith(next, '"') {
          p := p.(cell := p.cell + "\"");
          index := index + 1;
        } else if character == '"' {
          p := p.(quoted := false);
        } else {
          p := p.(cell := p.cell + [character]);
        }
      } else if character == '"' {
        p := p.(quoted := true);
      } else if character == ',' {
        p := p.(row := p.row + [p.cell], cell := "");
      } else if character == '\n' || character == '\r' {
        if character == '\r' && StartsWith(next, '\n') {
          index := index + 1;
        }
        p := EndRow(p);
      } else {
        p := p.(cell := p.cell + [character]);
      }
      index := index + 1;
    }
    assert input[|input|..] == "";
    return if p.quoted then None else Some(EndRow(p).rows);
  }

  // ---------------------------------------------------------------- one cell

  /** A separator, or the end of the input: whatever may follow a written cell. */
  predicate Follows(rest: string) {
    !StartsWith(rest, '"')
  }

  lemma ReadEscape(tail: string, p: Parser)
    requires p.quoted
    ensures Read("\"\"" + tail, p) == Read(tail, p.(cell := p.cell + "\""))
  {
    assert ("\"\"" + tail)[2..] == tail && ("\"\"" + tail)[1..] == "\"" + tail;
  }

  lemma ReadPlain(c: char, tail: string, p: Parser)
    requires p.quoted && c != '"'
    ensures Read([c] + tail, p) == Read(tail, p.(cell := p.cell + [c]))
  {
    assert ([c] + tail)[1..] == tail;
  }

  lemma DoubledSplits(text: string, closing: string)
    requires text != ""
    ensures Doubled(text) + closing == (if text[0] == '"' then "\"\"" else [text[0]]) + (Doubled(text[1..]) + closing)
  {
  }

  lemma ReadOne(text: string, closing: string, p: Parser)
    requires text != "" && p.quoted
    ensures Read(Doubled(text) + closing, p) == Read(Doubled(text[1..]) + closing, p.(cell := p.cell + [text[0]]))
  {
    DoubledSplits(text, closing);
    if text[0] == '"' {
      ReadEscape(Doubled(text[1..]) + closing, p);
    } else {
      ReadPlain(text[0], Doubled(text[1..]) + closing, p);
    }
  }

  lemma ReadClosing(rest: string, p: Parser)
    requires p.quoted && Follows(rest)
    ensures Read("\"" + rest, p) == Read(rest, p.(quoted := false))
  {
    assert ("\"" + rest)[1..] == rest;
  }

  lemma {:induction false} ReadDoubled(text: string, closing: string, p: Parser)
    requires p.quoted
    ensures Read(Doubled(text) + closing, p) == Read(closing, p.(cell := p.cell + text))
    decreases |text|
  {
    if text == "" {
      assert Doubled(text) + closing == closing;
      assert p.cell + "" == p.cell;
    } else {
      ReadOne(text, closing, p);
      ReadDoubled(text[1..], closing, p.(cell := p.cell + [text[0]]));
      assert p.cell + [text[0]] + text[1..] == p.cell + text;
    }
  }

  lemma ReadQuoted(text: string, rest: string, p: Parser)
    requires !p.quoted && Follows(rest)
    ensures Read(Quoted(text) + rest, p) == Read(rest, p.(cell := p.cell + text))
  {
    var closing := "\"" + rest;
    var body := Doubled(text) + closing;
    assert Quoted(text) + rest == "\"" + body;
    assert ("\"" + body)[1..] == body;
    ReadDoubled(text, closing, p.(quoted := true));
    ReadClosing(rest, p.(quoted := true, cell := p.cell + text));
  }

  /** Text that may stand without quotes. */
  predicate IsBare(text: string) {
    forall i | 0 <= i < |text| :: text[i] !in "\",\r\n"
  }

  lemma {:induction false} ReadBare(text: string, rest: string, p: Parser)
    requires !p.quoted && IsBare(text)
    ensures Read(text + rest, p) == Read(rest, p.(cell := p.cell + text))
    decreases |text|
  {
    if text == "" {
      assert text + rest == rest && p.cell + text == p.cell;
    } else {
      var tail := text[1..] + rest;
      assert text + rest == [text[0]] + tail;
      assert ([text[0]] + tail)[1..] == tail;
      ReadBare(text[1..], rest, p.(cell := p.cell + [text[0]]));
      assert p.cell + [text[0]] + text[1..] == p.cell + text;
    }
  }

  /** Part of a cell as somebody wrote it. */
  datatype Piece = Bare(text: string) | InQuotes(text: string)

  type Cell = seq<Piece>

  function PieceText(piece: Piece): string {
    if piece.Bare? then piece.text else Quoted(piece.text)
  }

  function CellText(cell: Cell): string {
    if cell == [] then "" else PieceText(cell[0]) + CellText(cell[1..])
  }

  function Content(cell: Cell): string {
    if cell == [] then "" else cell[0].text + Content(cell[1..])
  }

  /** Quoted parts of one cell have something bare between them; two adjacent quotes would be one written twice. */
  predicate IsCell(cell: Cell) {
    && (forall i | 0 <= i < |cell| :: cell[i].Bare? ==> cell[i].text != "" && IsBare(cell[i].text))
    && (forall i | 0 < i < |cell| :: cell[i - 1].Bare? || cell[i].Bare?)
  }

  lemma PiecesFollow(piece: Piece, cell: Cell, rest: string)
    requires IsCell([piece] + cell) && piece.InQuotes? && Follows(rest)
    ensures Follows(CellText(cell) + rest)
  {
    if cell == [] {
      assert CellText(cell) + rest == rest;
    } else {
      assert ([piece] + cell)[0] == piece && ([piece] + cell)[1] == cell[0];
      assert CellText(cell)[0] == cell[0].text[0];
    }
  }

  lemma ReadFirstPiece(piece: Piece, others: Cell, rest: string, p: Parser)
    requires !p.quoted && IsCell([piece] + others) && Follows(rest)
    ensures Read(PieceText(piece) + (CellText(others) + rest), p)
      == Read(CellText(others) + rest, p.(cell := p.cell + piece.text))
  {
    assert ([piece] + others)[0] == piece;
    if piece.Bare? {
      ReadBare(piece.text, CellText(others) + rest, p);
    } else {
      PiecesFollow(piece, others, rest);
      ReadQuoted(piece.text, CellText(others) + rest, p);
    }
  }

  lemma Regroup(a: string, b: string, c: string)
    ensures a + b + c == a + (b + c)
  {
  }

  lemma CellSplits(cell: Cell, rest: string, before: string)
    requires cell != []
    ensures CellText(cell) + rest == PieceText(cell[0]) + (CellText(cell[1..]) + rest)
    ensures before + Content(cell) == before + cell[0].text + Content(cell[1..])
  {
    Regroup(PieceText(cell[0]), CellText(cell[1..]), rest);
    Regroup(before, cell[0].text, Content(cell[1..]));
  }

  lemma {:induction false} ReadCell(cell: Cell, rest: string, p: Parser)
    requires !p.quoted && IsCell(cell) && Follows(rest)
    ensures Read(CellText(cell) + rest, p) == Read(rest, p.(cell := p.cell + Content(cell)))
    decreases |cell|
  {
    if cell == [] {
      assert CellText(cell) + rest == rest && p.cell + Content(cell) == p.cell;
    } else {
      assert cell == [cell[0]] + cell[1..];
      CellSplits(cell, rest, p.cell);
      ReadFirstPiece(cell[0], cell[1..], rest, p);
      ReadCell(cell[1..], rest, p.(cell := p.cell + cell[0].text));
    }
  }

  // ---------------------------------------------------------------- one line

  predicate EndsLine(rest: string) {
    rest == "" || rest[0] == '\n' || rest[0] == '\r'
  }

  function CellTexts(cells: seq<Cell>): (texts: seq<string>)
    ensures |texts| == |cells|
  {
    seq(|cells|, i requires 0 <= i < |cells| => CellText(cells[i]))
  }

  function Contents(cells: seq<Cell>): (contents: seq<string>)
    ensures |contents| == |cells|
  {
    seq(|cells|, i requires 0 <= i < |cells| => Content(cells[i]))
  }

  function LineText(cells: seq<Cell>): string {
    Join(CellTexts(cells), ',')
  }

  predicate AreCells(cells: seq<Cell>) {
    forall i | 0 <= i < |cells| :: IsCell(cells[i])
  }

  lemma LineSplits(cells: seq<Cell>, rest: string)
    requires |cells| > 1
    ensures LineText(cells) + rest == CellText(cells[0]) + ("," + (LineText(cells[1..]) + rest))
  {
    assert CellTexts(cells)[1..] == CellTexts(cells[1..]);
  }

  lemma ReadComma(tail: string, p: Parser)
    requires !p.quoted
    ensures Read("," + tail, p) == Read(tail, p.(row := p.row + [p.cell], cell := ""))
  {
    assert ("," + tail)[1..] == tail;
  }

  lemma ReadFirstCell(cells: seq<Cell>, rest: string, p: Parser)
    requires |cells| > 1 && AreCells(cells) && EndsLine(rest) && !p.quoted && p.cell == ""
    ensures Read(LineText(cells) + rest, p)
      == Read(LineText(cells[1..]) + rest, p.(row := p.row + [Content(cells[0])], cell := ""))
  {
    var tail := LineText(cells[1..]) + rest;
    LineSplits(cells, rest);
    ReadCell(cells[0], "," + tail, p);
    assert "" + Content(cells[0]) == Content(cells[0]);
    ReadComma(tail, p.(cell := Content(cells[0])));
  }

  lemma RowGrows(row: seq<string>, cells: seq<Cell>)
    requires |cells| > 1
    ensures row + [Content(cells[0])] + Contents(cells[1..])[..|cells| - 2] == row + Contents(cells)[..|cells| - 1]
    ensures Contents(cells[1..])[|cells| - 2] == Contents(cells)[|cells| - 1]
  {
    assert Contents(cells[1..]) == Contents(cells)[1..];
  }

  /** Reading a line leaves its last cell open and the others in the row. */
  lemma {:induction false} ReadLine(cells: seq<Cell>, rest: string, p: Parser)
    requires cells != [] && AreCells(cells) && EndsLine(rest) && !p.quoted && p.cell == ""
    ensures Read(LineText(cells) + rest, p)
      == Read(rest, p.(row := p.row + Contents(cells)[..|cells| - 1], cell := Contents(cells)[|cells| - 1]))
    decreases |cells|
  {
    if |cells| == 1 {
      assert p.row + Contents(cells)[..0] == p.row;
      assert "" + Content(cells[0]) == Content(cells[0]);
      ReadCell(cells[0], rest, p);
    } else {
      ReadFirstCell(cells, rest, p);
      ReadLine(cells[1..], rest, p.(row := p.row + [Content(cells[0])], cell := ""));
      RowGrows(p.row, cells);
    }
  }

  /** Where a line ends, its row is complete; a row without any visible character is dropped. */
  lemma ReadWholeLine(cells: seq<Cell>, rest: string, rows: seq<seq<string>>, row: seq<string>)
    requires AreCells(cells) && EndsLine(rest) && row == if cells == [] then [""] else Contents(cells)
    ensures Read(LineText(cells) + rest, Parser(rows, [], "", false))
      == Read(rest, Parser(rows, row[..|row| - 1], row[|row| - 1], false))
  {
    if cells == [] {
      assert "" + rest == rest;
    } else {
      ReadLine(cells, rest, Parser(rows, [], "", false));
      assert [] + row[..|row| - 1] == row[..|row| - 1];
    }
  }

  predicate IsLineEnd(ending: string) {
    ending == "\n" || ending == "\r" || ending == "\r\n"
  }

  /** A line feed after a carriage return that ended a row changes nothing, whether it belongs to it or not. */
  lemma ReadLineEnd(ending: string, rest: string, p: Parser)
    requires IsLineEnd(ending) && !p.quoted
    ensures Read(ending + rest, p) == Read(rest, EndRow(p))
  {
    assert (ending + rest)[|ending|..] == rest && (ending + rest)[1..] == ending[1..] + rest;
    if ending == "\r" {
      assert ending[1..] + rest == rest;
      assert rest != "" ==> (ending + rest)[2..] == rest[1..];
    }
  }

  // ---------------------------------------------------------------- whole tables

  datatype Line = Line(cells: seq<Cell>, ending: string)

  function TableText(lines: seq<Line>): string {
    if lines == [] then "" else LineText(lines[0].cells) + (lines[0].ending + TableText(lines[1..]))
  }

  function Table(lines: seq<Line>): (table: seq<seq<string>>)
    ensures |table| == |lines|
  {
    seq(|lines|, i requires 0 <= i < |lines| => Contents(lines[i].cells))
  }

  /** Every line is ended, in any of the three ways; only the last may be left open. */
  predicate AreLines(lines: seq<Line>) {
    forall i | 0 <= i < |lines| ::
      AreCells(lines[i].cells) && (IsLineEnd(lines[i].ending) || (i == |lines| - 1 && lines[i].ending == ""))
  }

  ghost predicate HasVisible(row: seq<string>) {
    exists i, j :: 0 <= i < |row| && 0 <= j < |row[i]| && !IsSpace(row[i][j])
  }

  ghost function WithoutBlankRows(table: seq<seq<string>>): seq<seq<string>> {
    if table == [] then []
    else KeptRow(table[0]) + WithoutBlankRows(table[1..])
  }

  ghost function KeptRow(cells: seq<string>): seq<seq<string>> {
    if HasVisible(cells) then [cells] else []
  }

  lemma EndingRow(cells: seq<string>, rows: seq<seq<string>>)
    ensures var row := if cells == [] then [""] else cells;
      EndRow(Parser(rows, row[..|row| - 1], row[|row| - 1], false)) == Parser(rows + KeptRow(cells), [], "", false)
  {
    var row := if cells == [] then [""] else cells;
    assert row[..|row| - 1] + [row[|row| - 1]] == row;
    assert rows + [] == rows;
  }

  lemma ReadLastLine(cells: seq<Cell>, rows: seq<seq<string>>)
    requires AreCells(cells)
    ensures Read(LineText(cells), Parser(rows, [], "", false)) == Some(rows + KeptRow(Contents(cells)))
  {
    assert LineText(cells) + "" == LineText(cells);
    ReadWholeLine(cells, "", rows, if cells == [] then [""] else Contents(cells));
    EndingRow(Contents(cells), rows);
  }

  lemma ReadLineBreak(cells: seq<Cell>, ending: string, more: string, rows: seq<seq<string>>)
    requires AreCells(cells) && IsLineEnd(ending)
    ensures Read(LineText(cells) + (ending + more), Parser(rows, [], "", false))
      == Read(more, Parser(rows + KeptRow(Contents(cells)), [], "", false))
  {
    var row := if cells == [] then [""] else Contents(cells);
    ReadWholeLine(cells, ending + more, rows, row);
    ReadLineEnd(ending, more, Parser(rows, row[..|row| - 1], row[|row| - 1], false));
    EndingRow(Contents(cells), rows);
  }

  lemma {:induction false} ReadTable(lines: seq<Line>, rows: seq<seq<string>>)
    requires AreLines(lines)
    ensures Read(TableText(lines), Parser(rows, [], "", false)) == Some(rows + WithoutBlankRows(Table(lines)))
    decreases |lines|
  {
    if lines == [] {
      assert rows + [] == rows;
    } else {
      var line, rest := lines[0], lines[1..];
      var kept := KeptRow(Contents(line.cells));
      assert Table(lines)[0] == Contents(line.cells) && Table(lines)[1..] == Table(rest);
      assert rows + kept + WithoutBlankRows(Table(rest)) == rows + WithoutBlankRows(Table(lines));
      if line.ending == "" {
        assert LineText(line.cells) + (line.ending + "") == LineText(line.cells);
        assert rows + kept + [] == rows + kept;
        ReadLastLine(line.cells, rows);
      } else {
        ReadLineBreak(line.cells, line.ending, TableText(rest), rows);
        ReadTable(rest, rows + kept);
      }
    }
  }

  /**
   * A table is read as it was meant, less its rows without a visible character, however it was written
   * down: any part of a cell quoted or, where it holds no quote, comma or line break, bare; any line
   * ended by a line feed, a carriage return or both; the last line perhaps not ended at all.
   */
  lemma WrittenTableIsRead(lines: seq<Line>)
    requires AreLines(lines)
    ensures ParseMatrix(TableText(lines)) == Some(WithoutBlankRows(Table(lines)))
  {
    ReadTable(lines, []);
    assert [] + WithoutBlankRows(Table(lines)) == WithoutBlankRows(Table(lines));
  }

  function Quotes(s: string): nat {
    if s == "" then 0 else (if s[0] == '"' then 1 else 0) + Quotes(s[1..])
  }

  lemma QuotesOfTwo(s: string)
    requires |s| >= 2 && s[0] == '"' && s[1] == '"'
    ensures Quotes(s) == 2 + Quotes(s[2..])
  {
    assert s[1..][1..] == s[2..];
  }

  lemma {:induction false} OpenQuoteIsRefused(s: string, p: Parser)
    ensures Read(s, p).None? <==> (Quotes(s) % 2 == 1) != p.quoted
    decreases |s|
  {
    if s != "" {
      if p.quoted && s[0] == '"' && StartsWith(s[1..], '"') {
        QuotesOfTwo(s);
        OpenQuoteIsRefused(s[2..], p.(cell := p.cell + "\""));
      } else if s[0] == '"' {
        OpenQuoteIsRefused(s[1..], p.(quoted := !p.quoted));
      } else if p.quoted {
        OpenQuoteIsRefused(s[1..], p.(cell := p.cell + [s[0]]));
      } else if s[0] == ',' {
        OpenQuoteIsRefused(s[1..], p.(row := p.row + [p.cell], cell := ""));
      } else if s[0] == '\r' && StartsWith(s[1..], '\n') {
        assert s[1..][1..] == s[2..];
        OpenQuoteIsRefused(s[2..], EndRow(p));
      } else if s[0] == '\n' || s[0] == '\r' {
        OpenQuoteIsRefused(s[1..], EndRow(p));
      } else {
        OpenQuoteIsRefused(s[1..], p.(cell := p.cell + [s[0]]));
      }
    }
  }

  /** Input is refused exactly when its quotes are odd in number. */
  lemma RefusedIffQuotesAreOdd(input: string)
    ensures ParseMatrix(input).None? <==> Quotes(input) % 2 == 1
  {
    OpenQuoteIsRefused(input, Start());
  }

  // ---------------------------------------------------------------- reading what was written

  function ShownTable(matrix: seq<seq<Value>>): (table: seq<seq<string>>)
    ensures |table| == |matrix|
  {
    seq(|matrix|, i requires 0 <= i < |matrix| => ShownRow(matrix[i]))
  }

  function QuotedRow(cells: seq<string>): (row: seq<Cell>)
    ensures |row| == |cells|
  {
    seq(|cells|, i requires 0 <= i < |cells| => [InQuotes(cells[i])])
  }

  /** What the program writes, as lines: everything in quotes, and no line break after the last line. */
  function WrittenLines(matrix: seq<seq<Value>>): (lines: seq<Line>)
    ensures |lines| == |matrix|
  {
    seq(|matrix|, i requires 0 <= i < |matrix| =>
      Line(QuotedRow(ShownRow(matrix[i])), if i == |matrix| - 1 then "" else "\n"))
  }

  lemma QuotedRowIsWritten(cells: seq<string>)
    ensures AreCells(QuotedRow(cells)) && Contents(QuotedRow(cells)) == cells
    ensures LineText(QuotedRow(cells)) == Join(QuotedCells(cells), ',')
  {
    forall i | 0 <= i < |cells|
      ensures CellText(QuotedRow(cells)[i]) == Quoted(cells[i]) && Content(QuotedRow(cells)[i]) == cells[i]
    {
      assert Quoted(cells[i]) + "" == Quoted(cells[i]) && cells[i] + "" == cells[i];
    }
    assert CellTexts(QuotedRow(cells)) == QuotedCells(cells);
  }

  lemma WrittenLinesHoldTable(matrix: seq<seq<Value>>)
    ensures AreLines(WrittenLines(matrix)) && Table(WrittenLines(matrix)) == ShownTable(matrix)
  {
    forall i | 0 <= i < |matrix|
      ensures AreCells(WrittenLines(matrix)[i].cells) && Contents(WrittenLines(matrix)[i].cells) == ShownRow(matrix[i])
    {
      QuotedRowIsWritten(ShownRow(matrix[i]));
    }
  }

  lemma CsvRowsSplit(matrix: seq<seq<Value>>)
    requires |matrix| > 1
    ensures CsvRows(matrix) == CsvLine(matrix[0]) + ("\n" + CsvRows(matrix[1..]))
  {
    assert CsvLines(matrix)[1..] == CsvLines(matrix[1..]);
  }

  lemma {:induction false} WrittenLinesAreCsv(matrix: seq<seq<Value>>)
    ensures TableText(WrittenLines(matrix)) == CsvRows(matrix)
    decreases |matrix|
  {
    if matrix != [] {
      var line := CsvLine(matrix[0]);
      QuotedRowIsWritten(ShownRow(matrix[0]));
      WrittenLinesAreCsv(matrix[1..]);
      assert WrittenLines(matrix)[1..] == WrittenLines(matrix[1..]);
      if |matrix| == 1 {
        assert line + ("" + "") == line;
      } else {
        CsvRowsSplit(matrix);
      }
    }
  }

  /**
   * Round trip: whatever the cells hold -- quotes, commas, line breaks, carriage returns -- reading
   * what was written gives back the table as shown, less the rows in which nothing is visible.
   */
  lemma CsvRoundTrip(matrix: seq<seq<Value>>)
    ensures ParseMatrix(CsvRows(matrix)) == Some(WithoutBlankRows(ShownTable(matrix)))
  {
    WrittenLinesAreCsv(matrix);
    WrittenLinesHoldTable(matrix);
    WrittenTableIsRead(WrittenLines(matrix));
  }

  function Strings(table: seq<seq<string>>): (matrix: seq<seq<Value>>)
    ensures |matrix| == |table|
  {
    seq(|table|, i requires 0 <= i < |table| =>
      seq(|table[i]|, j requires 0 <= j < |table[i]| => Str(table[i][j])))
  }

  ghost predicate NoBlankRows(table: seq<seq<string>>) {
    forall i :: 0 <= i < |table| ==> HasVisible(table[i])
  }

  ghost predicate NoFormulas(table: seq<seq<string>>) {
    forall i, j :: 0 <= i < |table| && 0 <= j < |table[i]| ==> !IsFormula(table[i][j])
  }

  lemma {:induction false} NothingDroppedIff(table: seq<seq<string>>)
    ensures |WithoutBlankRows(table)| <= |table|
    ensures NoBlankRows(table) ==> WithoutBlankRows(table) == table
    ensures |WithoutBlankRows(table)| == |table| ==> NoBlankRows(table)
  {
    if table != [] {
      NothingDroppedIff(table[1..]);
      assert forall i :: 0 < i < |table| ==> table[i] == table[1..][i - 1];
    }
  }

  lemma ShownStrings(table: seq<seq<string>>)
    requires NoFormulas(table)
    ensures ShownTable(Strings(table)) == table
  {
    forall i | 0 <= i < |table| ensures ShownTable(Strings(table))[i] == table[i] {
      assert forall j :: 0 <= j < |table[i]| ==> ShownRow(Strings(table)[i])[j] == table[i][j];
    }
  }

  lemma ShownStringsDiffer(table: seq<seq<string>>, i: nat, j: nat)
    requires i < |table| && j < |table[i]| && IsFormula(table[i][j])
    ensures ShownTable(Strings(table)) != table
  {
    assert |ShownTable(Strings(table))[i][j]| == |table[i][j]| + 1;
  }

  /**
   * A table of strings comes back unchanged exactly when it has no row without visible characters
   * and no cell that looks like a formula -- a phone number with its leading plus sign does.
   */
  lemma CsvRoundTripIsIdentityIff(table: seq<seq<string>>)
    ensures ParseMatrix(CsvRows(Strings(table))) == Some(table) <==> NoBlankRows(table) && NoFormulas(table)
  {
    var shown := ShownTable(Strings(table));
    CsvRoundTrip(Strings(table));
    NothingDroppedIff(shown);
    if NoFormulas(table) {
      ShownStrings(table);
    } else {
      var i, j :| 0 <= i < |table| && 0 <= j < |table[i]| && IsFormula(table[i][j]);
      ShownStringsDiffer(table, i, j);
    }
  }

  /** Only white space stands before the first character that a spreadsheet takes for the start of a formula. */
  ghost predicate FormulaAt(s: string, k: nat) {
    k < |s| && s[k] in "=+-@" && forall i :: 0 <= i < k ==> IsSpace(s[i])
  }

  lemma {:induction false} FormulaIff(s: string)
    ensures IsFormula(s) <==> exists k: nat :: FormulaAt(s, k)
  {
    if s != "" {
      FormulaIff(s[1..]);
      if s[0] in "=+-@" {
        assert FormulaAt(s, 0);
      } else if IsFormula(s) {
        var k: nat :| FormulaAt(s[1..], k);
        assert FormulaAt(s, k + 1);
      } else if k: nat :| FormulaAt(s, k) {
        assert FormulaAt(s[1..], k - 1);
      }
    }
  }

  /** A written string is never read as a formula, and guarding it a second time changes nothing. */
  lemma ShownIsHarmless(text: string)
    ensures Shown(Str(text)) == (if exists k: nat :: FormulaAt(text, k) then "'" + text else text)
    ensures !IsFormula(Shown(Str(text)))
    ensures Shown(Str(Shown(Str(text)))) == Shown(Str(text))
    ensures Shown(Str(text)) == text <==> !IsFormula(text)
  {
    FormulaIff(text);
    if IsFormula(text) {
      assert |"'" + text| != |text|;
    }
  }
}
