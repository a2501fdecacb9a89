/** The CSV export of hosts (apps/api/src/lib/host-export.ts) and the CSV reader of
    the import (apps/api/src/lib/host-import/csv.ts); section 2 of RFC 4180. */
module Csv {
  import opened Common

  type Row = seq<string>

  /* ------------------------------------ reading --------------------------------- */

  datatype State = State(rows: seq<Row>, row: Row, field: string, inQuotes: bool)

  predicate Blank(cell: string) {
    forall i :: 0 <= i < |cell| ==> WhiteSpace(cell[i])
  }

  predicate BlankRow(row: Row) {
    forall i :: 0 <= i < |row| ==> Blank(row[i])
  }

  predicate Separator(c: char) {
    c == ',' || c == ';' || c == '\t'
  }

  function EndField(s: State): State {
    s.(row := s.row + [s.field], field := "")
  }

  /** Rows without any text are skipped. */
  function Finished(rows: seq<Row>, row: Row): seq<Row> {
    if BlankRow(row) then rows else rows + [row]
  }

  function EndRow(s: State): State {
    State(Finished(s.rows, s.row + [s.field]), [], "", s.inQuotes)
  }

  function Put(s: State, c: char): State {
    s.(field := s.field + [c])
  }

  function Scan(input: string, s: State): State
    decreases |input|
  {
    if input == "" then s
    else
      var c := input[0];
      if s.inQuotes then
        if c != '"' then Scan(input[1..], Put(s, c))
        else if |input| > 1 && input[1] == '"' then Scan(input[2..], Put(s, '"'))
        else Scan(input[1..], s.(inQuotes := false))
      else if c == '"' && s.field == "" then Scan(input[1..], s.(inQuotes := true))
      else if Separator(c) then Scan(input[1..], EndField(s))
      else if c == '\r' then Scan(input[1..], s)
      else if c == '\n' then Scan(input[1..], EndRow(s))
      else Scan(input[1..], Put(s, c))
  }

  const START := State([], [], "", false)

  /** A last line without a break still counts. */
  function Closed(s: State): seq<Row> {
    if s.field != "" || s.row != [] then EndRow(s).rows else s.rows
  }

  function WithoutBom(text: string): string {
    if text != "" && text[0] == '\U{feff}' then text[1..] else text
  }

  function Parsed(text: string): seq<Row> {
    Closed(Scan(WithoutBom(text), START))
  }

  method ParseCsv(text: string) returns (rows: seq<Row>)
    ensures rows == Parsed(text)
  {
    rows := [];
    var row: Row, field: string, inQuotes, index := [], "", false, 0;
    var input := if text != "" && text[0] == '\U{feff}' then text[1..] else text;
    while index < |input|
      invariant index <= |input|
      invariant Scan(input[index..], State(rows, row, field, inQuotes)) == Scan(input, START)
    {
      var c := input[index];
      ghost var rest := input[index..];
      assert rest[0] == c && rest[1..] == input[index + 1..];
      assert index + 1 < |input| ==> rest[1] == input[index + 1] && rest[2..] == input[index + 2..];
      if inQuotes {
        if c == '"' {
          if index + 1 < |input| && input[index + 1] == '"' {
            field := field + ['"'];
            index := index + 2;
            continue;
          }
          inQuotes := false;
        } else {
          field := field + [c];
        }
      } else if c == '"' && field == "" {
        inQuotes := true;
      } else if Separator(c) {
        row, field := row + [field], "";
      } else if c == '\r' {
      } else if c == '\n' {
        row := row + [field];
        if !BlankRow(row) { rows := rows + [row]; }
        row, field := [], "";
      } else {
        field := field + [c];
      }
      index := index + 1;
    }
    if field != "" || row != [] {
      row := row + [field];
      if !BlankRow(row) { rows := rows + [row]; }
    }
  }

  /* ------------------------------------ writing --------------------------------- */

  /** A spreadsheet would run a cell that starts like this as a formula. */
  predicate Formula(text: string) {
    text != "" && text[0] in {'=', '+', '-', '@', '\t', '\r'}
  }

  function Neutral(text: string): string {
    if Formula(text) then "'" + text else text
  }

  function Escaped(text: string): string {
    if text == "" then "" else (if text[0] == '"' then "\"\"" else [text[0]]) + Escaped(text[1..])
  }

  predicate NeedsQuotes(text: string) {
    exists i :: 0 <= i < |text| && Special(text[i])
  }

  predicate Special(c: char) {
    c == '"' || c == '\n' || c == '\r' || Separator(c)
  }

  function Cell(value: string): string {
    var text := Neutral(value);
    if NeedsQuotes(text) then "\"" + Escaped(text) + "\"" else text
  }

  function Joined(cells: seq<string>): string {
    if cells == [] then "" else if |cells| == 1 then cells[0] else cells[0] + "," + Joined(cells[1..])
  }

  function Cells(row: Row): Row {
    seq(|row|, i requires 0 <= i < |row| => Cell(row[i]))
  }

  function Exported(rows: seq<Row>): string {
    if rows == [] then "" else Joined(Cells(rows[0])) + "\r\n" + Exported(rows[1..])
  }

  /* ---------------------------------- there and back ---------------------------- */

  /** Ends a field or a line when it is not in quotes. */
  predicate Breaking(c: char) {
    c == '\n' || c == '\r' || Separator(c)
  }

  lemma {:induction false} ScanPlain(text: string, rest: string, s: State)
    requires !s.inQuotes && forall i :: 0 <= i < |text| ==> !Breaking(text[i])
    requires s.field == "" && text != "" ==> text[0] != '"'
    ensures Scan(text + rest, s) == Scan(rest, s.(field := s.field + text))
    decreases |text|
  {
    if text == "" {
      assert text + rest == rest && s.field + text == s.field;
    } else {
      assert (text + rest)[1..] == text[1..] + rest;
      assert !Breaking(text[0]);
      ScanPlain(text[1..], rest, Put(s, text[0]));
      assert s.field + [text[0]] + text[1..] == s.field + text;
    }
  }

  lemma {:induction false} ScanQuoted(text: string, rest: string, s: State)
    requires s.inQuotes && (rest != "" ==> rest[0] != '"')
    ensures Scan(Escaped(text) + "\"" + rest, s) == Scan(rest, s.(field := s.field + text, inQuotes := false))
    decreases |text|
  {
    var input := Escaped(text) + "\"" + rest;
    if text == "" {
      assert input[1..] == rest;
      assert s.field + text == s.field;
    } else {
      var tail := Escaped(text[1..]) + "\"" + rest;
      if text[0] == '"' {
        assert input == "\"\"" + tail;
        assert input[2..] == tail;
      } else {
        assert input == [text[0]] + tail;
        assert input[1..] == tail;
      }
      ScanQuoted(text[1..], rest, Put(s, text[0]));
      assert s.field + [text[0]] + text[1..] == s.field + text;
    }
  }

  lemma ScanQuotedCell(text: string, rest: string, s: State)
    requires !s.inQuotes && s.field == "" && (rest != "" ==> rest[0] != '"')
    ensures Scan("\"" + Escaped(text) + "\"" + rest, s) == Scan(rest, s.(field := text))
  {
    var input := "\"" + Escaped(text) + "\"" + rest;
    assert input[0] == '"' && input[1..] == Escaped(text) + "\"" + rest;
    ScanQuoted(text, rest, s.(inQuotes := true));
    assert s.field + text == text;
  }

  /* ------------------------------ any sheet of the format ----------------------- */

  /** A field as section 2 of RFC 4180 lets it be written, bare or in quotes; and bare
      also with quotes in it, as long as it does not begin with one. */
  datatype Field = Bare(text: string) | Quoted(text: string)

  predicate Legal(f: Field) {
    f.Bare? ==> (forall i :: 0 <= i < |f.text| ==> !Breaking(f.text[i])) && (f.text != "" ==> f.text[0] != '"')
  }

  function Shown(f: Field): string {
    match f
    case Bare(text) => text
    case Quoted(text) => "\"" + Escaped(text) + "\""
  }

  type Line = seq<Field>

  predicate LegalLine(line: Line) {
    line != [] && forall i :: 0 <= i < |line| ==> Legal(line[i])
  }

  predicate LegalLines(lines: seq<Line>) {
    forall i :: 0 <= i < |lines| ==> LegalLine(lines[i])
  }

  function ShownLine(line: Line, sep: char): string {
    if line == [] then "" else if |line| == 1 then Shown(line[0])
    else Shown(line[0]) + ([sep] + ShownLine(line[1..], sep))
  }

  /** Lines that each end in a break, but for the last, which may not. */
  function Sheet(lines: seq<Line>, sep: char, brk: string, ended: bool): string {
    if lines == [] then ""
    else ShownLine(lines[0], sep) + ((if |lines| == 1 && !ended then "" else brk) + Sheet(lines[1..], sep, brk, ended))
  }

  function Texts(line: Line): Row {
    seq(|line|, i requires 0 <= i < |line| => line[i].text)
  }

  /** The rows with text in them. */
  function Filled(lines: seq<Line>): seq<Row> {
    if lines == [] then []
    else (if BlankRow(Texts(lines[0])) then [] else [Texts(lines[0])]) + Filled(lines[1..])
  }

  lemma ScanField(f: Field, rest: string, s: State)
    requires Legal(f) && !s.inQuotes && s.field == "" && (rest != "" ==> rest[0] != '"')
    ensures Scan(Shown(f) + rest, s) == Scan(rest, s.(field := f.text))
  {
    match f {
      case Bare(text) =>
        ScanPlain(text, rest, s);
        assert s.field + text == text;
      case Quoted(text) => ScanQuotedCell(text, rest, s);
    }
  }

  /** A written cell reads back as its neutralised text. */
  lemma ScanCell(value: string, rest: string, s: State)
    requires !s.inQuotes && s.field == "" && (rest != "" ==> rest[0] != '"')
    ensures Scan(Cell(value) + rest, s) == Scan(rest, s.(field := Neutral(value)))
  {
    ScanField(FieldFor(value), rest, s);
  }

  function FieldFor(value: string): Field {
    if NeedsQuotes(Neutral(value)) then Quoted(Neutral(value)) else Bare(Neutral(value))
  }

  lemma ScanSeparator(sep: char, rest: string, s: State)
    requires Separator(sep) && !s.inQuotes
    ensures Scan([sep] + rest, s) == Scan(rest, EndField(s))
  {
    assert ([sep] + rest)[1..] == rest;
  }

  lemma ScanBreak(brk: string, rest: string, s: State)
    requires !s.inQuotes && (brk == "\n" || brk == "\r\n")
    ensures Scan(brk + rest, s) == Scan(rest, EndRow(s))
  {
    assert ("\r\n" + rest)[1..] == "\n" + rest;
    assert ("\n" + rest)[1..] == rest;
  }

  /** The state with a whole line read but for its break. */
  function AtEnd(s: State, row: Row): State
    requires row != []
  {
    s.(row := s.row + row[..|row| - 1], field := row[|row| - 1])
  }

  lemma FirstField(line: Line, sep: char, rest: string)
    requires |line| > 1
    ensures ShownLine(line, sep) + rest == Shown(line[0]) + ([sep] + (ShownLine(line[1..], sep) + rest))
  {
    Associative(Shown(line[0]), [sep] + ShownLine(line[1..], sep), rest);
    Associative([sep], ShownLine(line[1..], sep), rest);
  }

  lemma LegalRest(line: Line)
    requires LegalLine(line) && |line| > 1
    ensures LegalLine(line[1..]) && Legal(line[0])
  {
  }

  lemma {:induction false} ScanLine(line: Line, sep: char, rest: string, s: State)
    requires LegalLine(line) && Separator(sep) && !s.inQuotes && s.field == "" && (rest != "" ==> rest[0] != '"')
    ensures Scan(ShownLine(line, sep) + rest, s) == Scan(rest, AtEnd(s, Texts(line)))
    decreases |line|
  {
    var first := line[0].text;
    if |line| == 1 {
      ScanField(line[0], rest, s);
      assert s.row + Texts(line)[..0] == s.row;
    } else {
      var tail := ShownLine(line[1..], sep) + rest;
      FirstField(line, sep, rest);
      LegalRest(line);
      ScanField(line[0], [sep] + tail, s);
      ScanSeparator(sep, tail, s.(field := first));
      ScanLine(line[1..], sep, rest, s.(row := s.row + [first]));
      AtEndFirst(s, line);
    }
  }

  lemma AtEndFirst(s: State, line: Line)
    requires |line| > 1
    ensures AtEnd(s.(row := s.row + [line[0].text]), Texts(line[1..])) == AtEnd(s, Texts(line))
  {
    assert Texts(line) == [line[0].text] + Texts(line[1..]);
    assert s.row + [line[0].text] + Texts(line[1..])[..|line| - 2] == s.row + Texts(line)[..|line| - 1];
  }

  lemma EndOfLine(s: State, row: Row)
    requires row != []
    ensures EndRow(AtEnd(s, row)) == State(Finished(s.rows, s.row + row), [], "", s.inQuotes)
  {
    assert s.row + row[..|row| - 1] + [row[|row| - 1]] == s.row + row;
  }

  /** The last line, whether or not a break follows it. */
  lemma ScanLastLine(line: Line, sep: char, brk: string, ended: bool, done: seq<Row>)
    requires LegalLine(line) && Separator(sep) && (brk == "\n" || brk == "\r\n")
    ensures Closed(Scan(ShownLine(line, sep) + (if ended then brk else ""), State(done, [], "", false))) ==
            Finished(done, Texts(line))
  {
    var s, row := State(done, [], "", false), Texts(line);
    ScanLine(line, sep, if ended then brk else "", s);
    EndOfLine(s, row);
    assert [] + row == row;
    if ended {
      assert brk + "" == brk;
      ScanBreak(brk, "", AtEnd(s, row));
    } else if AtEnd(s, row).field == "" && AtEnd(s, row).row == [] {
      assert |row| == 1 && row == [""];
    }
  }

  lemma ScanFirstLine(line: Line, sep: char, brk: string, rest: string, done: seq<Row>)
    requires LegalLine(line) && Separator(sep) && (brk == "\n" || brk == "\r\n")
    ensures Scan(ShownLine(line, sep) + (brk + rest), State(done, [], "", false)) ==
            Scan(rest, State(Finished(done, Texts(line)), [], "", false))
  {
    var s, row := State(done, [], "", false), Texts(line);
    ScanLine(line, sep, brk + rest, s);
    ScanBreak(brk, rest, AtEnd(s, row));
    EndOfLine(s, row);
    assert [] + row == row;
  }

  lemma {:induction false} ScanSheet(lines: seq<Line>, sep: char, brk: string, ended: bool, done: seq<Row>)
    requires LegalLines(lines) && Separator(sep) && (brk == "\n" || brk == "\r\n")
    ensures Closed(Scan(Sheet(lines, sep, brk, ended), State(done, [], "", false))) == done + Filled(lines)
    decreases |lines|
  {
    if lines == [] {
      assert done + Filled(lines) == done;
    } else {
      assert LegalLine(lines[0]);
      FilledStep(lines, done);
      if |lines| == 1 {
        ScanLastLine(lines[0], sep, brk, ended, done);
        assert (if ended then brk else "") + "" == if ended then brk else "";
        assert Finished(done, Texts(lines[0])) + [] == Finished(done, Texts(lines[0]));
      } else {
        ScanFirstLine(lines[0], sep, brk, Sheet(lines[1..], sep, brk, ended), done);
        ScanSheet(lines[1..], sep, brk, ended, Finished(done, Texts(lines[0])));
      }
    }
  }

  lemma FilledStep(lines: seq<Line>, done: seq<Row>)
    requires lines != []
    ensures Finished(done, Texts(lines[0])) + Filled(lines[1..]) == done + Filled(lines)
  {
    var first := Texts(lines[0]);
    if BlankRow(first) {
      assert [] + Filled(lines[1..]) == Filled(lines[1..]);
    } else {
      Associative(done, [first], Filled(lines[1..]));
    }
  }

  /** Every sheet of the format is read as what it holds: fields bare or in quotes, any
      of the three separators, either line break, with or without one after the last
      line, with or without a byte-order mark. Only rows without text are left out. */
  lemma SheetIsRead(lines: seq<Line>, sep: char, brk: string, ended: bool, bom: bool)
    requires LegalLines(lines) && (sep == ',' || sep == ';' || sep == '\t') && (brk == "\n" || brk == "\r\n")
    requires var text := Sheet(lines, sep, brk, ended); !bom && text != "" ==> text[0] != '\U{feff}'
    ensures Parsed((if bom then ['\U{feff}'] else "") + Sheet(lines, sep, brk, ended)) == Filled(lines)
  {
    var text := Sheet(lines, sep, brk, ended);
    var whole := (if bom then ['\U{feff}'] else "") + text;
    assert WithoutBom(whole) == text;
    ScanSheet(lines, sep, brk, ended, []);
    assert [] + Filled(lines) == Filled(lines);
  }

  /* ----------------------------------- the export ------------------------------- */

  function Neutralised(row: Row): Row {
    seq(|row|, i requires 0 <= i < |row| => Neutral(row[i]))
  }

  function Fields(row: Row): Line {
    seq(|row|, i requires 0 <= i < |row| => FieldFor(row[i]))
  }

  function Lines(rows: seq<Row>): seq<Line> {
    if rows == [] then [] else [Fields(rows[0])] + Lines(rows[1..])
  }

  lemma RestOf(row: Row)
    requires row != []
    ensures Cells(row)[1..] == Cells(row[1..]) && Fields(row)[1..] == Fields(row[1..])
    ensures Shown(Fields(row)[0]) == Cells(row)[0] == Cell(row[0])
  {
  }

  lemma {:induction false} JoinedIsLine(row: Row)
    ensures Joined(Cells(row)) == ShownLine(Fields(row), ',')
  {
    if row != [] {
      JoinedIsLine(row[1..]);
      RestOf(row);
      Associative(Cell(row[0]), ",", Joined(Cells(row[1..])));
    }
  }

  lemma {:induction false} ExportedIsSheet(rows: seq<Row>)
    requires HaveCells(rows)
    ensures LegalLines(Lines(rows)) && Exported(rows) == Sheet(Lines(rows), ',', "\r\n", true)
    ensures Filled(Lines(rows)) == Kept(rows)
  {
    if rows != [] {
      ExportedIsSheet(rows[1..]);
      JoinedIsLine(rows[0]);
      assert Texts(Fields(rows[0])) == Neutralised(rows[0]);
      Associative(Joined(Cells(rows[0])), "\r\n", Exported(rows[1..]));
      FieldsAreLegal(rows[0]);
      assert Lines(rows)[0] == Fields(rows[0]) && Lines(rows)[1..] == Lines(rows[1..]);
    }
  }

  lemma FieldIsLegal(value: string)
    ensures Legal(FieldFor(value))
  {
    if !NeedsQuotes(Neutral(value)) {
      forall i | 0 <= i < |Neutral(value)| ensures !Special(Neutral(value)[i]) {
      }
    }
  }

  lemma FieldsAreLegal(row: Row)
    requires row != []
    ensures LegalLine(Fields(row))
  {
    forall i | 0 <= i < |row| ensures Legal(Fields(row)[i]) {
      FieldIsLegal(row[i]);
    }
  }

  /** Only a text that a spreadsheet would run gets its apostrophe; all others are
      written as they are. */
  lemma NeutralIff(text: string)
    ensures Neutral(text) ==
            if text != "" && text[0] in {'=', '+', '-', '@', '\t', '\r'} then "'" + text else text
  {
  }

  /** What is left of the rows: neutralised, and without those that hold no text. */
  function Kept(rows: seq<Row>): seq<Row> {
    if rows == [] then []
    else (if BlankRow(Neutralised(rows[0])) then [] else [Neutralised(rows[0])]) + Kept(rows[1..])
  }

  predicate HaveCells(rows: seq<Row>) {
    forall i :: 0 <= i < |rows| ==> rows[i] != []
  }

  predicate StartsWithBom(rows: seq<Row>)
    requires HaveCells(rows)
  {
    rows != [] && rows[0][0] != "" && rows[0][0][0] == '\U{feff}'
  }

  /** Reading an export gives the rows back, except that a cell starting like a
      formula has an apostrophe in front and rows without text are gone. */
  lemma RoundTrip(rows: seq<Row>)
    requires HaveCells(rows) && !StartsWithBom(rows)
    ensures Parsed(Exported(rows)) == Kept(rows)
  {
    ExportedIsSheet(rows);
    NoBom(rows);
    SheetIsRead(Lines(rows), ',', "\r\n", true, false);
    assert "" + Exported(rows) == Exported(rows);
  }

  lemma NoBom(rows: seq<Row>)
    requires HaveCells(rows) && !StartsWithBom(rows)
    ensures Exported(rows) != "" ==> Exported(rows)[0] != '\U{feff}'
  {
    if rows != [] {
      var cell := Cell(rows[0][0]);
      assert Cells(rows[0])[0] == cell;
      assert cell == "" || cell[0] != '\U{feff}';
      if |rows[0]| == 1 {
        assert Joined(Cells(rows[0])) == cell;
      }
    }
  }

  /** No cell that is read back starts like a formula. */
  lemma {:induction false} NoFormulaIsRead(rows: seq<Row>, r: nat, c: nat)
    requires r < |Kept(rows)| && c < |Kept(rows)[r]|
    ensures var cell := Kept(rows)[r][c]; cell != "" ==> cell[0] !in {'=', '+', '-', '@', '\t', '\r'}
  {
    if BlankRow(Neutralised(rows[0])) {
      NoFormulaIsRead(rows[1..], r, c);
    } else if r > 0 {
      NoFormulaIsRead(rows[1..], r - 1, c);
    }
  }

  /* ------------------------------------ hosts ----------------------------------- */

  datatype HostType = Ssh | Rdp | Vnc | Agent

  datatype Environment = Production | Staging | Development

  /** An absent optional field is written like an empty one. */
  datatype Host = Host(name: string, hostType: HostType, address: string, port: nat, username: string,
                       environment: Environment, tags: seq<string>, group: string, notes: string)

  const HEADER: Row := ["name", "type", "address", "port", "username", "environment", "tags", "group", "notes"]

  function TypeText(t: HostType): string {
    match t
    case Ssh => "ssh"
    case Rdp => "rdp"
    case Vnc => "vnc"
    case Agent => "agent"
  }

  function EnvironmentText(e: Environment): string {
    match e
    case Production => "production"
    case Staging => "staging"
    case Development => "development"
  }

  function TagText(tags: seq<string>): string {
    if tags == [] then "" else if |tags| == 1 then tags[0] else tags[0] + ", " + TagText(tags[1..])
  }

  function HostRow(h: Host): Row {
    [h.name, TypeText(h.hostType), h.address, Digits(h.port), h.username, EnvironmentText(h.environment),
     TagText(h.tags), h.group, h.notes]
  }

  function HostRows(hosts: seq<Host>): seq<Row> {
    if hosts == [] then [] else [HostRow(hosts[0])] + HostRows(hosts[1..])
  }

  /** What a host has under the column of that name. */
  function Under(h: Host, column: string): string {
    if column == "name" then h.name
    else if column == "type" then TypeText(h.hostType)
    else if column == "address" then h.address
    else if column == "port" then Digits(h.port)
    else if column == "username" then h.username
    else if column == "environment" then EnvironmentText(h.environment)
    else if column == "tags" then TagText(h.tags)
    else if column == "group" then h.group
    else if column == "notes" then h.notes
    else ""
  }

  lemma RowIsUnderHeader(h: Host, k: nat)
    requires k < |HEADER|
    ensures |HostRow(h)| == |HEADER| && HostRow(h)[k] == Under(h, HEADER[k])
  {
  }

  lemma {:induction false} ExportedAppend(rows: seq<Row>, row: Row)
    ensures Exported(rows + [row]) == Exported(rows) + Joined(Cells(row)) + "\r\n"
  {
    if rows == [] {
      assert rows + [row] == [row];
      assert Exported([row]) == Joined(Cells(row)) + "\r\n" + Exported([]);
    } else {
      assert (rows + [row])[1..] == rows[1..] + [row];
      ExportedAppend(rows[1..], row);
    }
  }

  lemma {:induction false} HostRowsAppend(hosts: seq<Host>, h: Host)
    ensures HostRows(hosts + [h]) == HostRows(hosts) + [HostRow(h)]
  {
    if hosts == [] {
      assert hosts + [h] == [h];
    } else {
      assert (hosts + [h])[1..] == hosts[1..] + [h];
      HostRowsAppend(hosts[1..], h);
      Associative([HostRow(hosts[0])], HostRows(hosts[1..]), [HostRow(h)]);
    }
  }

  predicate Lowercase(text: string) {
    text != "" && forall i :: 0 <= i < |text| ==> 'a' <= text[i] <= 'z'
  }

  predicate Plain(row: Row) {
    row != [] && forall i :: 0 <= i < |row| ==> Lowercase(row[i])
  }

  lemma PlainIsKept(row: Row)
    requires Plain(row)
    ensures Cells(row) == row && Neutralised(row) == row && !BlankRow(row)
  {
    assert !WhiteSpace(row[0][0]);
    forall i | 0 <= i < |row| ensures Cells(row)[i] == row[i] && Neutralised(row)[i] == row[i] {
      assert Lowercase(row[i]);
    }
  }

  lemma HeaderIsPlain()
    ensures Plain(HEADER)
  {
    assert Lowercase("name") && Lowercase("type") && Lowercase("address");
    assert Lowercase("port") && Lowercase("username") && Lowercase("environment");
    assert Lowercase("tags") && Lowercase("group") && Lowercase("notes");
  }

  /** The CSV branch of the export: one line for the columns, one for each host. */
  method ExportHosts(hosts: seq<Host>) returns (body: string)
    ensures body == Exported([HEADER] + HostRows(hosts))
  {
    HeaderIsPlain();
    body := ExportUnder(HEADER, hosts);
  }

  method ExportUnder(header: Row, hosts: seq<Host>) returns (body: string)
    requires Plain(header)
    ensures body == Exported([header] + HostRows(hosts))
  {
    PlainIsKept(header);
    body := Joined(header) + "\r\n";
    ExportedAppend([], header);
    assert [] + [header] == [header] + HostRows(hosts[..0]);
    for i := 0 to |hosts|
      invariant body == Exported([header] + HostRows(hosts[..i]))
    {
      var row := HostRow(hosts[i]);
      ExportedHost(header, hosts, i);
      body := body + Joined(Cells(row)) + "\r\n";
    }
    assert hosts[..|hosts|] == hosts;
  }

  lemma ExportedHost(header: Row, hosts: seq<Host>, i: nat)
    requires i < |hosts|
    ensures Exported([header] + HostRows(hosts[..i + 1])) ==
            Exported([header] + HostRows(hosts[..i])) + Joined(Cells(HostRow(hosts[i]))) + "\r\n"
  {
    var row := HostRow(hosts[i]);
    assert hosts[..i + 1] == hosts[..i] + [hosts[i]];
    HostRowsAppend(hosts[..i], hosts[i]);
    assert [header] + HostRows(hosts[..i + 1]) == [header] + HostRows(hosts[..i]) + [row];
    ExportedAppend([header] + HostRows(hosts[..i]), row);
  }

  /** Every host has a type, so its row is never empty. */
  lemma HostIsKept(h: Host)
    ensures !BlankRow(Neutralised(HostRow(h)))
  {
    var cell := TypeText(h.hostType);
    assert Neutralised(HostRow(h))[1] == cell;
    assert !WhiteSpace(cell[0]);
  }

  lemma {:induction false} HostsAreKept(hosts: seq<Host>)
    ensures HaveCells(HostRows(hosts)) && |Kept(HostRows(hosts))| == |hosts|
    ensures forall i :: 0 <= i < |hosts| ==> Kept(HostRows(hosts))[i] == Neutralised(HostRow(hosts[i]))
  {
    if hosts != [] {
      HostsAreKept(hosts[1..]);
      HostIsKept(hosts[0]);
    }
  }

  /** Under each column name the row has what the host has under it. */
  predicate Holds(row: Row, header: Row, h: Host) {
    |row| == |header| && forall k :: 0 <= k < |header| ==> row[k] == Neutral(Under(h, header[k]))
  }

  lemma RowHolds(h: Host)
    ensures Holds(Neutralised(HostRow(h)), HEADER, h)
  {
    forall k | 0 <= k < |HEADER| ensures Neutralised(HostRow(h))[k] == Neutral(Under(h, HEADER[k])) {
      RowIsUnderHeader(h, k);
    }
  }

  /** The import reads every exported host back, in order, under its own columns. */
  lemma ExportedHostsAreRead(hosts: seq<Host>)
    ensures var read := Parsed(Exported([HEADER] + HostRows(hosts)));
            |read| == 1 + |hosts| && read[0] == HEADER &&
            forall i :: 0 <= i < |hosts| ==> Holds(read[i + 1], read[0], hosts[i])
  {
    HeaderIsPlain();
    HostsAreRead(HEADER, hosts);
    forall i | 0 <= i < |hosts| ensures Holds(Neutralised(HostRow(hosts[i])), HEADER, hosts[i]) {
      RowHolds(hosts[i]);
    }
  }

  /** A port is read as the number it is, and no two types or environments alike. */
  lemma ValuesAreTold(port: nat, a: HostType, b: HostType, c: Environment, d: Environment)
    ensures Spelled(Neutral(Digits(port)), 0) == port
    ensures Neutral(TypeText(a)) == Neutral(TypeText(b)) <==> a == b
    ensures Neutral(EnvironmentText(c)) == Neutral(EnvironmentText(d)) <==> c == d
  {
    DigitsSpell(port);
    assert Neutral(TypeText(a)) == TypeText(a) && Neutral(TypeText(b)) == TypeText(b);
    assert a != b ==> TypeText(a)[0] != TypeText(b)[0];
    assert Neutral(EnvironmentText(c)) == EnvironmentText(c) && Neutral(EnvironmentText(d)) == EnvironmentText(d);
    assert c != d ==> EnvironmentText(c)[0] != EnvironmentText(d)[0];
  }

  /* ------------------------------------ tags ------------------------------------ */

  predicate TagBreak(c: char) {
    c == ',' || c == ';' || c == '|'
  }

  /** The text cut at each break (apps/api/src/lib/host-import/normalize.ts). */
  function Cut(text: string, piece: string): seq<string> {
    if text == "" then [piece]
    else if TagBreak(text[0]) then [piece] + Cut(text[1..], "")
    else Cut(text[1..], piece + [text[0]])
  }

  function TrimLeft(text: string): string {
    if text != "" && WhiteSpace(text[0]) then TrimLeft(text[1..]) else text
  }

  function TrimRight(text: string): string {
    if text != "" && WhiteSpace(text[|text| - 1]) then TrimRight(text[..|text| - 1]) else text
  }

  function Trim(text: string): string {
    TrimRight(TrimLeft(text))
  }

  function TagsOf(pieces: seq<string>): seq<string> {
    if pieces == [] then []
    else (if Trim(pieces[0]) == "" then [] else [Trim(pieces[0])]) + TagsOf(pieces[1..])
  }

  /** A tag that has no break in it and no white space around it. */
  predicate PlainTag(tag: string) {
    tag != "" && !WhiteSpace(tag[0]) && !WhiteSpace(tag[|tag| - 1]) && forall i :: 0 <= i < |tag| ==> !TagBreak(tag[i])
  }

  lemma {:induction false} CutTag(tag: string, rest: string, piece: string)
    requires forall i :: 0 <= i < |tag| ==> !TagBreak(tag[i])
    ensures Cut(tag + rest, piece) == Cut(rest, piece + tag)
    decreases |tag|
  {
    if tag == "" {
      assert tag + rest == rest && piece + tag == piece;
    } else {
      assert (tag + rest)[1..] == tag[1..] + rest;
      CutTag(tag[1..], rest, piece + [tag[0]]);
      assert piece + [tag[0]] + tag[1..] == piece + tag;
    }
  }

  lemma TrimTag(tag: string)
    requires PlainTag(tag)
    ensures Trim(tag) == tag && Trim(" " + tag) == tag
  {
    assert (" " + tag)[1..] == tag;
    assert TrimLeft(" " + tag) == TrimLeft(tag) == tag;
  }

  lemma CutFirst(tag: string, rest: string, lead: string)
    requires PlainTag(tag)
    ensures Cut(tag + ", " + rest, lead) == [lead + tag] + Cut(rest, " ")
  {
    assert tag + ", " + rest == tag + (", " + rest);
    CutTag(tag, ", " + rest, lead);
    assert (", " + rest)[1..] == " " + rest && (" " + rest)[1..] == rest;
    assert "" + [' '] == " ";
  }

  lemma CutLast(tag: string, lead: string)
    requires PlainTag(tag)
    ensures Cut(tag, lead) == [lead + tag]
  {
    CutTag(tag, "", lead);
    assert tag + "" == tag;
  }

  lemma TagsOfFirst(lead: string, tag: string, pieces: seq<string>)
    requires PlainTag(tag) && (lead == "" || lead == " ")
    ensures TagsOf([lead + tag] + pieces) == [tag] + TagsOf(pieces)
  {
    TrimTag(tag);
    assert "" + tag == tag;
    assert ([lead + tag] + pieces)[1..] == pieces;
  }

  /** Written tags come back, in order. */
  lemma {:induction false} TagsComeBack(tags: seq<string>, lead: string)
    requires forall i :: 0 <= i < |tags| ==> PlainTag(tags[i])
    requires lead == "" || lead == " "
    ensures TagsOf(Cut(TagText(tags), lead)) == tags
    decreases |tags|
  {
    if tags == [] {
      assert lead != "" ==> lead[1..] == "";
    } else if |tags| == 1 {
      CutLast(tags[0], lead);
      TagsOfFirst(lead, tags[0], []);
      assert [lead + tags[0]] + [] == [lead + tags[0]];
    } else {
      CutFirst(tags[0], TagText(tags[1..]), lead);
      TagsOfFirst(lead, tags[0], Cut(TagText(tags[1..]), " "));
      TagsComeBack(tags[1..], " ");
    }
  }

  lemma HostsAreRead(header: Row, hosts: seq<Host>)
    requires Plain(header)
    ensures var read := Parsed(Exported([header] + HostRows(hosts)));
            |read| == 1 + |hosts| && read[0] == header &&
            forall i :: 0 <= i < |hosts| ==> read[i + 1] == Neutralised(HostRow(hosts[i]))
  {
    PlainIsKept(header);
    HostsAreKept(hosts);
    var rows := [header] + HostRows(hosts);
    assert Lowercase(header[0]);
    RoundTrip(rows);
    assert rows[1..] == HostRows(hosts);
    assert Kept(rows) == [header] + Kept(HostRows(hosts));
  }
}
