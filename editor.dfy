/** The Go formatting engine of internal/excel/editor.go: an Editor over
    the cells of one sheet, the helpers that turn a template formula and
    a copied text into cell contents, and FormatFileWithTarget, which
    rewrites an input sheet into the target layout cell by cell, and
    FormatFile, which does so for every sheet of a workbook. */
module ExcelEditor {
  import opened Text
  import opened Columns
  import opened Paths
  import opened MappingTypes

  /** A cell position: a 0-based column index and a 1-based row number,
      the two halves of an A1 address. */
  datatype Address = Address(col: nat, row: nat)

  /** The A1 text of an address, e.g. column 2, row 5 is "C5". */
  function A1(a: Address): string
  {
    IndexToColumn(a.col) + NatToDecimal(a.row)
  }

  /** The value parseNumericValue hands to SetCellValue. */
  datatype Numeric = IntValue(i: int) | FloatValue(x: real) | TextValue(s: string)

  /** What the engine writes into a cell: a value, with or without the
      two-decimal number format, or a formula. */
  datatype Cell = ValueCell(value: Numeric, twoDecimals: bool) | FormulaCell(formula: string)

  type Cells = map<Address, Cell>

  function Get(cells: Cells, a: Address): Option<Cell>
  {
    if a in cells then Some(cells[a]) else None
  }

  function Override(write: Option<Cell>, before: Option<Cell>): Option<Cell>
  {
    if write.Some? then write else before
  }

  // ---------------------------------------------------------------
  // adjustFormulaForRow
  // ---------------------------------------------------------------

  /** strings.ReplaceAll(s, "n", digits) */
  function ReplacePlaceholder(s: string, digits: string): (r: string)
  {
    if s == [] then [] else (if s[0] == 'n' then digits else [s[0]]) + ReplacePlaceholder(s[1..], digits)
  }

  /** adjustFormulaForRow: every 'n' becomes the row number in decimal. */
  function AdjustFormulaForRow(formula: string, row: int): string
  {
    ReplacePlaceholder(formula, IntToDecimal(row))
  }

  lemma {:induction false} ReplacePlaceholderFree(s: string, digits: string)
    requires 'n' !in digits
    ensures 'n' !in ReplacePlaceholder(s, digits)
  {
    if s != [] {
      ReplacePlaceholderFree(s[1..], digits);
    }
  }

  lemma {:induction false} ReplacePlaceholderFixed(s: string, digits: string)
    requires 'n' !in s
    ensures ReplacePlaceholder(s, digits) == s
  {
    if s != [] {
      ReplacePlaceholderFixed(s[1..], digits);
      assert s == [s[0]] + s[1..];
    }
  }

  /** Replacement works piece by piece: a formula "<a>n<b>" becomes the
      adjusted <a>, the row number, then the adjusted <b>. */
  lemma {:induction false} ReplacePlaceholderAppend(a: string, b: string, digits: string)
    ensures ReplacePlaceholder(a + b, digits) == ReplacePlaceholder(a, digits) + ReplacePlaceholder(b, digits)
  {
    if a == [] {
      assert a + b == b;
    } else {
      var rest := a[1..];
      ReplacePlaceholderAppend(rest, b, digits);
      assert a == [a[0]] + rest;
      assert a + b == [a[0]] + (rest + b);
      ReplacePlaceholderCons(a[0], rest + b, digits);
      ReplacePlaceholderCons(a[0], rest, digits);
    }
  }

  lemma ReplacePlaceholderCons(c: char, s: string, digits: string)
    ensures ReplacePlaceholder([c] + s, digits) == (if c == 'n' then digits else [c]) + ReplacePlaceholder(s, digits)
  {
    assert ([c] + s)[1..] == s;
  }

  /** The adjusted formula holds no placeholder, a formula without one is
      kept as it is, and an 'n' between two fixed parts becomes the row
      number between them. */
  lemma AdjustFormulaForRowSpec(formula: string, row: nat)
    ensures 'n' !in AdjustFormulaForRow(formula, row)
    ensures 'n' !in formula ==> AdjustFormulaForRow(formula, row) == formula
    ensures forall a, b :: formula == a + "n" + b && 'n' !in a && 'n' !in b ==>
      AdjustFormulaForRow(formula, row) == a + NatToDecimal(row) + b
  {
    var digits := IntToDecimal(row);
    assert forall i :: 0 <= i < |digits| ==> digits[i] != 'n';
    ReplacePlaceholderFree(formula, digits);
    if 'n' !in formula {
      ReplacePlaceholderFixed(formula, digits);
    }
    forall a, b | formula == a + "n" + b && 'n' !in a && 'n' !in b
      ensures AdjustFormulaForRow(formula, row) == a + NatToDecimal(row) + b
    {
      ReplacePlaceholderAppend(a + "n", b, digits);
      ReplacePlaceholderAppend(a, "n", digits);
      ReplacePlaceholderFixed(a, digits);
      ReplacePlaceholderFixed(b, digits);
    }
  }

  // ---------------------------------------------------------------
  // parseNumericValue and SetCellValueSmart
  // ---------------------------------------------------------------

  const MinInt64: int := -0x8000_0000_0000_0000
  const MaxInt64: int := 0x7fff_ffff_ffff_ffff

  /** strconv.ParseInt(s, 10, 64): an optional sign, one or more decimal
      digits, and a value that fits in 64 bits. */
  function ParseInt64(s: string): (r: Option<int>)
    ensures r.Some? ==> MinInt64 <= r.value <= MaxInt64
  {
    var signed := |s| > 0 && (s[0] == '-' || s[0] == '+');
    var digits := if signed then s[1..] else s;
    if digits == [] || !AllDigits(digits) then None
    else
      var v: int := if signed && s[0] == '-' then -(DigitsValue(digits) as int) else DigitsValue(digits);
      if MinInt64 <= v <= MaxInt64 then Some(v) else None
  }

  /** Every 64-bit integer, printed in decimal, parses back to itself. */
  lemma ParseInt64RoundTrip(i: int)
    requires MinInt64 <= i <= MaxInt64
    ensures ParseInt64(IntToDecimal(i)) == Some(i)
  {
    if i < 0 {
      ParseNegative(-i);
    } else {
      ParseNonNegative(i);
    }
  }

  lemma ParseNegative(n: nat)
    requires 0 < n <= -MinInt64
    ensures ParseInt64("-" + NatToDecimal(n)) == Some(-(n as int))
  {
    var digits := NatToDecimal(n);
    var s := "-" + digits;
    NatToDecimalValue(n);
    assert s[0] == '-' && s[1..] == digits;
    assert AllDigits(digits);
  }

  lemma ParseNonNegative(n: nat)
    requires n <= MaxInt64
    ensures ParseInt64(NatToDecimal(n)) == Some(n)
  {
    var s := NatToDecimal(n);
    NatToDecimalValue(n);
    assert s[0] != '-' && s[0] != '+';
    assert AllDigits(s);
  }

  /** Text that is not a number at all, such as a word, never parses. */
  lemma ParseInt64Rejects(s: string)
    requires s != [] && s[|s| - 1] !in "0123456789"
    ensures ParseInt64(s) == None
  {
  }

  /** parseNumericValue, with strconv.ParseFloat passed in as
      `parseFloat`: the value to store and whether it is a float. */
  function ParseNumericValue(value: string, parseFloat: string -> Option<real>): (r: (Numeric, bool))
  {
    var trimmed := GoTrimSpace(value);
    if trimmed == [] then (TextValue(value), false)
    else match ParseInt64(trimmed)
      case Some(i) => (IntValue(i), false)
      case None =>
        match parseFloat(trimmed)
        case Some(x) => (FloatValue(x), true)
        case None => (TextValue(value), false)
  }

  /** The four cases of parseNumericValue: blank text and text that is
      no number come back untrimmed, a 64-bit integer becomes an integer,
      and only text that parses as a float but not as an integer raises
      the float flag. */
  lemma ParseNumericValueSpec(value: string, parseFloat: string -> Option<real>)
    ensures var (v, isFloat) := ParseNumericValue(value, parseFloat);
      && (isFloat <==> v.FloatValue?)
      && (v.TextValue? ==> v.s == value)
      && (IsGoBlank(value) ==> v == TextValue(value))
      && (!IsGoBlank(value) && ParseInt64(GoTrimSpace(value)).Some? ==> v == IntValue(ParseInt64(GoTrimSpace(value)).value))
      && (isFloat <==> !IsGoBlank(value) && ParseInt64(GoTrimSpace(value)).None? && parseFloat(GoTrimSpace(value)).Some?)
  {
  }

  /** The cell SetCellValueSmart writes: the parsed value, with the
      two-decimal format exactly when it is a float. */
  function SmartCell(value: string, parseFloat: string -> Option<real>): (c: Cell)
  {
    var (v, isFloat) := ParseNumericValue(value, parseFloat);
    ValueCell(v, isFloat)
  }

  /** A copied integer keeps its value and gets no special format. */
  lemma SmartCellInteger(i: int, parseFloat: string -> Option<real>)
    requires MinInt64 <= i <= MaxInt64
    ensures SmartCell(IntToDecimal(i), parseFloat) == ValueCell(IntValue(i), false)
  {
    var s := IntToDecimal(i);
    TrimWithFixed(s, GoIsSpace);
    ParseInt64RoundTrip(i);
  }

  /** The two-decimal format is applied iff the value is a float. */
  lemma SmartCellFormat(value: string, parseFloat: string -> Option<real>)
    ensures SmartCell(value, parseFloat).twoDecimals <==> SmartCell(value, parseFloat).value.FloatValue?
  {
    ParseNumericValueSpec(value, parseFloat);
  }

  // ---------------------------------------------------------------
  // InsertRows
  // ---------------------------------------------------------------

  function Shift(a: Address, at: nat): Address
  {
    if a.row >= at then a.(row := a.row + 1) else a
  }

  /** One InsertRows step: every cell at row `at` or below moves down one row. */
  function ShiftDown(cells: Cells, at: nat): Cells
  {
    map a | a in cells :: Shift(a, at) := cells[a]
  }

  /** After inserting a row at `at`, rows above it are unchanged, row
      `at` is empty and every lower row holds what the row above it held. */
  lemma ShiftDownSpec(cells: Cells, at: nat, b: Address)
    ensures b.row < at ==> Get(ShiftDown(cells, at), b) == Get(cells, b)
    ensures b.row == at ==> Get(ShiftDown(cells, at), b) == None
    ensures b.row > at ==> Get(ShiftDown(cells, at), b) == Get(cells, b.(row := b.row - 1))
  {
    var r := ShiftDown(cells, at);
    if b.row > at {
      var a := b.(row := b.row - 1);
      if a in cells {
        assert Shift(a, at) == b;
      }
    } else if b.row < at {
      if b in cells {
        assert Shift(b, at) == b;
      }
    }
    if b in r {
      var a :| a in cells && Shift(a, at) == b;
      assert a == (if b.row > at then b.(row := b.row - 1) else b);
    }
  }

  function ShiftDownBy(cells: Cells, at: nat, n: nat): Cells
  {
    if n == 0 then cells else ShiftDown(ShiftDownBy(cells, at, n - 1), at)
  }

  // ---------------------------------------------------------------
  // The Editor
  // ---------------------------------------------------------------

  /** Editor: one sheet of an open workbook and the path it was opened
      from (or "" for a workbook created in memory). */
  class Editor {
    var cells: Cells
    var filepath: string

    /** OpenFile / OpenOrCreateFile / CreateNewFile */
    constructor(contents: Cells, path: string)
      ensures cells == contents && filepath == path
    {
      cells, filepath := contents, path;
    }

    /** SetColumnHeader: a text value in row 1 of the column. */
    method SetColumnHeader(column: nat, header: string)
      modifies this
      ensures cells == old(cells)[Address(column, 1) := ValueCell(TextValue(header), false)]
      ensures filepath == old(filepath)
    {
      cells := cells[Address(column, 1) := ValueCell(TextValue(header), false)];
    }

    /** SetCellValue with a text value. */
    method SetCellValue(a: Address, text: string)
      modifies this
      ensures cells == old(cells)[a := ValueCell(TextValue(text), false)]
      ensures filepath == old(filepath)
    {
      cells := cells[a := ValueCell(TextValue(text), false)];
    }

    /** SetCellFormula */
    method SetCellFormula(a: Address, formula: string)
      modifies this
      ensures cells == old(cells)[a := FormulaCell(formula)]
      ensures filepath == old(filepath)
    {
      cells := cells[a := FormulaCell(formula)];
    }

    /** SetCellValueSmart: store the parsed value, then apply the
        two-decimal format when it is a float. */
    method SetCellValueSmart(a: Address, value: string, parseFloat: string -> Option<real>)
      modifies this
      ensures cells == old(cells)[a := SmartCell(value, parseFloat)]
      ensures filepath == old(filepath)
    {
      var (v, isFloat) := ParseNumericValue(value, parseFloat);
      cells := cells[a := ValueCell(v, false)];
      if isFloat {
        cells := cells[a := ValueCell(v, true)];
      }
    }

    /** InsertRows: `numRows` single-row insertions at `startRow`. */
    method InsertRows(startRow: nat, numRows: nat)
      modifies this
      ensures cells == ShiftDownBy(old(cells), startRow, numRows)
      ensures filepath == old(filepath)
    {
      var i := 0;
      while i < numRows
        invariant i <= numRows
        invariant cells == ShiftDownBy(old(cells), startRow, i)
        invariant filepath == old(filepath)
      {
        cells := ShiftDown(cells, startRow);
        i := i + 1;
      }
    }

    /** Save: only a workbook with a path can be saved in place; then it
        is written there, which fails when the file system refuses the
        write (`writeOk` is false). The result is the path written. */
    method Save(writeOk: bool) returns (result: Result<string>)
      ensures filepath == "" ==> result == Err(NoFilepathError)
      ensures filepath != "" && !writeOk ==> result == Err(WriteError(filepath))
      ensures filepath != "" && writeOk ==> result == Ok(filepath)
    {
      if filepath == "" {
        return Err(NoFilepathError);
      }
      result := if writeOk then Ok(filepath) else Err(WriteError(filepath));
    }

    /** SaveAs: the workbook remembers the new path, even when writing
        there then fails, and is written there. */
    method SaveAs(path: string, writeOk: bool) returns (result: Result<string>)
      modifies this
      ensures filepath == path && cells == old(cells)
      ensures result == if writeOk then Ok(path) else Err(WriteError(path))
    {
      filepath := path;
      result := if writeOk then Ok(path) else Err(WriteError(path));
    }
  }

  /** Save's error for a workbook that has no path yet. */
  const NoFilepathError: string := "no filepath specified, use SaveAs instead"

  /** The error of a workbook write the file system refuses; the text of
      the library's own message is not modelled, only the path. */
  function WriteError(path: string): string
  {
    "cannot write " + path
  }

  // ---------------------------------------------------------------
  // FormatFileWithTarget: what it reads
  // ---------------------------------------------------------------

  /** The target sheet as the engine reads it: its header row (None when
      the sheet cannot be read), the formula of every cell that has one,
      and the cells whose formula cannot be read. */
  datatype TargetSheet = TargetSheet(headers: Option<seq<string>>, formulas: map<Address, string>, unreadable: set<Address>)

  /** GetCellFormula on a readable cell: "" when it holds no formula. */
  function FormulaAt(t: TargetSheet, a: Address): string
  {
    if a in t.formulas then t.formulas[a] else ""
  }

  /** The header -> column index map of the input sheet. */
  function HeaderIndex(headers: seq<string>): map<string, nat>
  {
    if headers == [] then map[]
    else HeaderIndex(headers[..|headers| - 1])[headers[|headers| - 1] := |headers| - 1]
  }

  /** Every header is in the map, and a header that occurs more than
      once is mapped to its last column. */
  lemma {:induction false} HeaderIndexSpec(headers: seq<string>, h: string)
    ensures h in HeaderIndex(headers) <==> h in headers
    ensures h in HeaderIndex(headers) ==>
      var i := HeaderIndex(headers)[h];
      i < |headers| && headers[i] == h && forall j :: i < j < |headers| ==> headers[j] != h
  {
    if headers != [] {
      var init := headers[..|headers| - 1];
      HeaderIndexSpec(init, h);
      assert headers == init + [headers[|headers| - 1]];
    }
  }

  /** Column `i` of the target has a template: a readable, non-empty
      formula in row 2. */
  predicate HasTemplate(t: TargetSheet, i: nat)
  {
    Address(i, 2) !in t.unreadable && FormulaAt(t, Address(i, 2)) != ""
  }

  /** The column templates among the first n target columns. */
  function Templates(t: TargetSheet, n: nat): map<nat, string>
  {
    if n == 0 then map[]
    else
      var m := Templates(t, n - 1);
      if HasTemplate(t, n - 1) then m[n - 1 := FormulaAt(t, Address(n - 1, 2))] else m
  }

  /** Templates come only from row 2: a column has one iff its row-2
      formula is readable and non-empty, and it is that formula. */
  lemma {:induction false} TemplatesSpec(t: TargetSheet, n: nat, i: nat)
    ensures i in Templates(t, n) <==> i < n && HasTemplate(t, i)
    ensures i in Templates(t, n) ==> Templates(t, n)[i] == FormulaAt(t, Address(i, 2))
  {
    if n > 0 {
      TemplatesSpec(t, n - 1, i);
    }
  }

  /** Whether a blank row is inserted at row 2: when some column has a
      template and the input has at least one data row. */
  predicate InsertsRow(templates: map<nat, string>, rows: seq<seq<string>>)
  {
    |templates| > 0 && |rows| > 1
  }

  /** The rows as GetAllRows reads them again after the insertion. */
  function RowsAfterInsert(rows: seq<seq<string>>): seq<seq<string>>
    requires |rows| > 0
  {
    rows[..1] + [[]] + rows[1..]
  }

  /** Everything FormatFileWithTarget has read before it writes. */
  datatype Plan = Plan(
    fileName: string,
    sheet: string,
    targetHeaders: seq<string>,
    target: TargetSheet,
    targetToScanned: map<string, string>,
    inputHeaderMap: map<string, nat>,
    templates: map<nat, string>,
    rows: seq<seq<string>>)

  // ---------------------------------------------------------------
  // FormatFileWithTarget: what it writes
  // ---------------------------------------------------------------

  /** What processing target column `a.col` writes at `a`, provided no
      formula read fails (None: the cell is left as it is).
      Row 1 always gets the target header. A templated column gets the
      adjusted template in rows 2..|rows|-1 and nothing else. Other
      columns visit rows 2..|rows|: a non-empty target formula is copied;
      otherwise a mapped column present in the input gets the input
      value, if that input row reaches the column. */
  function Placed(p: Plan, parseFloat: string -> Option<real>, a: Address): Option<Cell>
    requires a.col < |p.targetHeaders|
  {
    var h := p.targetHeaders[a.col];
    if a.row == 1 then Some(ValueCell(TextValue(h), false))
    else if a.col in p.templates then
      if 2 <= a.row < |p.rows| then Some(FormulaCell(AdjustFormulaForRow(p.templates[a.col], a.row))) else None
    else if a.row < 2 || a.row > |p.rows| then None
    else if h in p.targetToScanned then
      var scanned := p.targetToScanned[h];
      if scanned !in p.inputHeaderMap then None
      else if FormulaAt(p.target, a) != "" then Some(FormulaCell(FormulaAt(p.target, a)))
      else
        var idx := p.inputHeaderMap[scanned];
        var row := p.rows[a.row - 1];
        if idx < |row| then Some(SmartCell(row[idx], parseFloat)) else None
    else if FormulaAt(p.target, a) != "" then Some(FormulaCell(FormulaAt(p.target, a)))
    else None
  }

  /** The column is one whose rows are visited with formula reads. */
  predicate ReadsTarget(p: Plan, i: nat)
    requires i < |p.targetHeaders|
  {
    var h := p.targetHeaders[i];
    i !in p.templates && (h !in p.targetToScanned || p.targetToScanned[h] in p.inputHeaderMap)
  }

  /** Processing column i stops at a target formula that cannot be read. */
  predicate FailsAt(p: Plan, i: nat)
    requires i < |p.targetHeaders|
  {
    ReadsTarget(p, i) && exists r :: 2 <= r <= |p.rows| && Address(i, r) in p.target.unreadable
  }

  /** The message column i adds to the report. */
  function ColumnMessage(p: Plan, i: nat): seq<string>
    requires i < |p.targetHeaders|
  {
    var h := p.targetHeaders[i];
    if i in p.templates then []
    else if h in p.targetToScanned then
      var scanned := p.targetToScanned[h];
      if scanned in p.inputHeaderMap then []
      else [p.fileName + ":" + p.sheet + ":: mapped column '" + scanned + "' not found in input"]
    else [p.fileName + ":" + p.sheet + ":: no mapping for '" + h + "'"]
  }

  /** The messages of the first n target columns, in column order. */
  function Messages(p: Plan, n: nat): seq<string>
    requires n <= |p.targetHeaders|
  {
    if n == 0 then [] else Messages(p, n - 1) + ColumnMessage(p, n - 1)
  }

  /** The sheet after the first n target columns have been processed. */
  function Expected(p: Plan, parseFloat: string -> Option<real>, start: Cells, n: nat, a: Address): Option<Cell>
    requires n <= |p.targetHeaders|
  {
    if a.col < n then Override(Placed(p, parseFloat, a), Get(start, a)) else Get(start, a)
  }

  /** The outcome of formatting one sheet. Saved carries the output path
      and the sheet written there; Quarantined carries the messages and
      the path the input is copied to, None when the copy failed (the
      source only prints that failure). */
  datatype Outcome =
    | Saved(path: string, sheet: Cells)
    | Quarantined(messages: seq<string>, copiedTo: Option<string>)
    | Failed(error: string)

  // ---------------------------------------------------------------
  // FormatFileWithTarget: the loops
  // ---------------------------------------------------------------

  method BuildReverseMapping(records: seq<ColumnMapping>) returns (m: map<string, string>)
    ensures m == ReverseMapping(records)
  {
    m := map[];
    var i := 0;
    while i < |records|
      invariant i <= |records|
      invariant m == ReverseMapping(records[..i])
    {
      assert records[..i + 1][..i] == records[..i];
      var r := records[i];
      if !r.isIgnored && r.targetColumn != "" {
        m := m[r.targetColumn := r.scannedColumn];
      }
      i := i + 1;
    }
    assert records[..i] == records;
  }

  method BuildHeaderIndex(headers: seq<string>) returns (m: map<string, nat>)
    ensures m == HeaderIndex(headers)
  {
    m := map[];
    var i := 0;
    while i < |headers|
      invariant i <= |headers|
      invariant m == HeaderIndex(headers[..i])
    {
      assert headers[..i + 1][..i] == headers[..i];
      m := m[headers[i] := i];
      i := i + 1;
    }
    assert headers[..i] == headers;
  }

  /** The scan of row 2 of the target for column templates. */
  method FindColumnFormulas(t: TargetSheet, headers: seq<string>) returns (templates: map<nat, string>, hasColumnFormulas: bool)
    ensures templates == Templates(t, |headers|)
    ensures hasColumnFormulas <==> |templates| > 0
  {
    templates, hasColumnFormulas := map[], false;
    var i := 0;
    while i < |headers|
      invariant i <= |headers|
      invariant templates == Templates(t, i)
      invariant hasColumnFormulas <==> |templates| > 0
    {
      var cell := Address(i, 2);
      if cell !in t.unreadable {
        var formula := FormulaAt(t, cell);
        if formula != "" {
          templates := templates[i := formula];
          hasColumnFormulas := true;
        }
      }
      i := i + 1;
    }
  }

  /** The template loop of one column: rows 2..rowCount-1. */
  method ApplyTemplate(e: Editor, column: nat, formula: string, rowCount: nat)
    modifies e
    ensures forall a ::
      Get(e.cells, a) ==
        if a.col == column && 2 <= a.row < rowCount then Some(FormulaCell(AdjustFormulaForRow(formula, a.row)))
        else Get(old(e.cells), a)
    ensures e.filepath == old(e.filepath)
  {
    var rowIndex := 2;
    while rowIndex < rowCount
      invariant 2 <= rowIndex && (rowIndex <= rowCount || rowIndex == 2)
      invariant forall a ::
        Get(e.cells, a) ==
          if a.col == column && 2 <= a.row < rowIndex then Some(FormulaCell(AdjustFormulaForRow(formula, a.row)))
          else Get(old(e.cells), a)
      invariant e.filepath == old(e.filepath)
    {
      e.SetCellFormula(Address(column, rowIndex), AdjustFormulaForRow(formula, rowIndex));
      rowIndex := rowIndex + 1;
    }
  }

  /** The cells after the row loop of column `column` has written rows
      2..k over `before`. */
  ghost predicate CopiedUpTo(cells: Cells, before: Cells, p: Plan, parseFloat: string -> Option<real>,
                             column: nat, k: nat)
    requires column < |p.targetHeaders|
  {
    forall a :: Get(cells, a) ==
      if a.col == column && 2 <= a.row <= k then Override(Placed(p, parseFloat, a), Get(before, a))
      else Get(before, a)
  }

  /** What the row loop writes in row r of a column it visits. */
  lemma PlacedInRow(p: Plan, parseFloat: string -> Option<real>, column: nat, r: nat)
    requires column < |p.targetHeaders| && ReadsTarget(p, column) && 2 <= r <= |p.rows|
    ensures var h := p.targetHeaders[column];
      var a := Address(column, r);
      Placed(p, parseFloat, a) ==
        if FormulaAt(p.target, a) != "" then Some(FormulaCell(FormulaAt(p.target, a)))
        else if h in p.targetToScanned && p.inputHeaderMap[p.targetToScanned[h]] < |p.rows[r - 1]| then
          Some(SmartCell(p.rows[r - 1][p.inputHeaderMap[p.targetToScanned[h]]], parseFloat))
        else None
  {
  }

  /** Writing the placed cell of row k + 1 extends the copied rows by one. */
  lemma CopiedStep(cells: Cells, before: Cells, p: Plan, parseFloat: string -> Option<real>,
                   column: nat, k: nat)
    requires column < |p.targetHeaders| && CopiedUpTo(cells, before, p, parseFloat, column, k) && k >= 1
    ensures var w := Placed(p, parseFloat, Address(column, k + 1));
      CopiedUpTo(if w.Some? then cells[Address(column, k + 1) := w.value] else cells,
                 before, p, parseFloat, column, k + 1)
  {
    var b := Address(column, k + 1);
    var w := Placed(p, parseFloat, b);
    var next := if w.Some? then cells[b := w.value] else cells;
    forall a ensures Get(next, a) ==
      if a.col == column && 2 <= a.row <= k + 1 then Override(Placed(p, parseFloat, a), Get(before, a))
      else Get(before, a)
    {
      if a != b {
        assert Get(next, a) == Get(cells, a);
      }
    }
  }

  /** The row loop of a column without a template: rows 2..|rows|, where
      a target formula is copied and otherwise, for a mapped column,
      the input value of column `inputCol`. Stops at the first formula
      that cannot be read. */
  method CopyColumn(e: Editor, p: Plan, parseFloat: string -> Option<real>, column: nat) returns (failed: bool)
    requires column < |p.targetHeaders| && ReadsTarget(p, column)
    modifies e
    ensures failed <==> FailsAt(p, column)
    ensures !failed ==>
      forall a :: Get(e.cells, a) ==
        if a.col == column && a.row >= 2 then Override(Placed(p, parseFloat, a), Get(old(e.cells), a))
        else Get(old(e.cells), a)
    ensures e.filepath == old(e.filepath)
  {
    var h := p.targetHeaders[column];
    var mapped := h in p.targetToScanned;
    var inputCol := if mapped then p.inputHeaderMap[p.targetToScanned[h]] else 0;
    var rowIndex := 1;
    while rowIndex < |p.rows|
      invariant 1 <= rowIndex && (rowIndex <= |p.rows| || rowIndex == 1)
      invariant forall r :: 2 <= r <= rowIndex ==> Address(column, r) !in p.target.unreadable
      invariant CopiedUpTo(e.cells, old(e.cells), p, parseFloat, column, rowIndex)
      invariant e.filepath == old(e.filepath)
    {
      var cell := Address(column, rowIndex + 1);
      if cell in p.target.unreadable {
        return true;
      }
      PlacedInRow(p, parseFloat, column, rowIndex + 1);
      CopiedStep(e.cells, old(e.cells), p, parseFloat, column, rowIndex);
      var targetFormula := FormulaAt(p.target, cell);
      if targetFormula != "" {
        e.SetCellFormula(cell, targetFormula);
      } else if mapped && inputCol < |p.rows[rowIndex]| {
        e.SetCellValueSmart(cell, p.rows[rowIndex][inputCol], parseFloat);
      }
      rowIndex := rowIndex + 1;
    }
    failed := false;
    forall a ensures Get(e.cells, a) ==
        if a.col == column && a.row >= 2 then Override(Placed(p, parseFloat, a), Get(old(e.cells), a))
        else Get(old(e.cells), a)
    {
      if a.col == column && a.row >= 2 && a.row > rowIndex {
        assert Placed(p, parseFloat, a) == None;
      }
    }
  }

  /** One pass of the column loop: the header, then the template or the
      row copy, then the column's message. */
  method ProcessColumn(e: Editor, p: Plan, parseFloat: string -> Option<real>, column: nat) returns (messages: seq<string>, failed: bool)
    requires column < |p.targetHeaders|
    modifies e
    ensures failed <==> FailsAt(p, column)
    ensures !failed ==> messages == ColumnMessage(p, column)
    ensures !failed ==>
      forall a :: Get(e.cells, a) ==
        if a.col == column then Override(Placed(p, parseFloat, a), Get(old(e.cells), a))
        else Get(old(e.cells), a)
    ensures e.filepath == old(e.filepath)
  {
    var h := p.targetHeaders[column];
    e.SetColumnHeader(column, h);
    ghost var afterHeader := e.cells;
    messages, failed := [], false;
    if column in p.templates {
      ApplyTemplate(e, column, p.templates[column], |p.rows|);
    } else if h in p.targetToScanned && p.targetToScanned[h] !in p.inputHeaderMap {
      messages := [p.fileName + ":" + p.sheet + ":: mapped column '" + p.targetToScanned[h] + "' not found in input"];
    } else {
      failed := CopyColumn(e, p, parseFloat, column);
      if !failed && h !in p.targetToScanned {
        messages := [p.fileName + ":" + p.sheet + ":: no mapping for '" + h + "'"];
      }
    }
  }

  /** The column loop over all target columns. */
  method ProcessColumns(e: Editor, p: Plan, parseFloat: string -> Option<real>) returns (messages: seq<string>, failed: bool)
    modifies e
    ensures failed <==> exists i :: 0 <= i < |p.targetHeaders| && FailsAt(p, i)
    ensures !failed ==> messages == Messages(p, |p.targetHeaders|)
    ensures !failed ==> forall a :: Get(e.cells, a) == Expected(p, parseFloat, old(e.cells), |p.targetHeaders|, a)
    ensures e.filepath == old(e.filepath)
  {
    messages := [];
    var column := 0;
    while column < |p.targetHeaders|
      invariant column <= |p.targetHeaders|
      invariant forall i :: 0 <= i < column ==> !FailsAt(p, i)
      invariant messages == Messages(p, column)
      invariant forall a :: Get(e.cells, a) == Expected(p, parseFloat, old(e.cells), column, a)
      invariant e.filepath == old(e.filepath)
    {
      var added;
      added, failed := ProcessColumn(e, p, parseFloat, column);
      if failed {
        return;
      }
      messages := messages + added;
      column := column + 1;
    }
    failed := false;
  }

  /** The plan FormatFileWithTarget works from, once its reads succeeded. */
  function PlanOf(records: seq<ColumnMapping>, target: TargetSheet, targetHeaders: seq<string>,
                  rows: seq<seq<string>>, inputFilePath: string, inputSheet: string): Plan
  {
    var templates := Templates(target, |targetHeaders|);
    Plan(Base(inputFilePath), inputSheet, targetHeaders, target, ReverseMapping(records),
         HeaderIndex(if rows == [] then [] else rows[0]), templates,
         if InsertsRow(templates, rows) then RowsAfterInsert(rows) else rows)
  }

  /** The input sheet after the optional row insertion. */
  function Prepared(cells: Cells, target: TargetSheet, targetHeaders: seq<string>, rows: seq<seq<string>>): Cells
  {
    if InsertsRow(Templates(target, |targetHeaders|), rows) then ShiftDown(cells, 2) else cells
  }

  /** What FormatFileWithTarget produces for one input sheet: the first
      failed read decides the error; otherwise a failed column write fails
      the sheet, collected error messages quarantine the input file, and
      else the formatted sheet is saved to the output path, and a write
      the file system refuses fails the sheet. A quarantine still reports
      "formatting failed" when data/problematic cannot be made or the
      copy fails (`copyOk` false); only the copy is then missing. */
  ghost predicate SheetResult(config: Option<MappingConfig>, target: Option<TargetSheet>,
                              inputCells: Option<Cells>, inputRows: Option<seq<seq<string>>>,
                              inputFilePath: string, outputFilePath: string, inputSheet: string,
                              parseFloat: string -> Option<real>, outputWritable: bool, copyOk: bool,
                              outcome: Outcome)
  {
    && (config.None? ==> outcome == Failed("failed to load mapping configuration"))
    && (config.Some? && target.None? ==> outcome == Failed("failed to open target format file"))
    && (config.Some? && target.Some? && inputCells.None? ==> outcome == Failed("failed to open input file " + inputFilePath))
    && (config.Some? && target.Some? && inputCells.Some? && target.value.headers.None? ==>
          outcome == Failed("failed to get target headers"))
    && (config.Some? && target.Some? && inputCells.Some? && target.value.headers.Some? && inputRows.None? ==>
          outcome == Failed("failed to get input headers"))
    && (config.Some? && target.Some? && inputCells.Some? && target.value.headers.Some? && inputRows.Some? ==>
          var p := PlanOf(config.value.mappings, target.value, target.value.headers.value, inputRows.value, inputFilePath, inputSheet);
          var start := Prepared(inputCells.value, target.value, target.value.headers.value, inputRows.value);
          var messages := Messages(p, |p.targetHeaders|);
          if exists i :: 0 <= i < |p.targetHeaders| && FailsAt(p, i) then
            outcome.Failed?
          else if messages != [] then
            outcome == Quarantined(messages, if copyOk then Some(JoinPath("data/problematic", Base(inputFilePath))) else None)
          else if !outputWritable then
            outcome == Failed("failed to save formatted file " + outputFilePath)
          else
            outcome.Saved? && outcome.path == outputFilePath
            && forall a :: Get(outcome.sheet, a) == Expected(p, parseFloat, start, |p.targetHeaders|, a))
  }

  /** A saved sheet goes to its output path, and a quarantined input is
      copied to data/problematic under its base name unless that copy
      failed. */
  lemma SheetResultPaths(config: Option<MappingConfig>, target: Option<TargetSheet>,
                         inputCells: Option<Cells>, inputRows: Option<seq<seq<string>>>,
                         inputFilePath: string, outputFilePath: string, inputSheet: string,
                         parseFloat: string -> Option<real>, outputWritable: bool, copyOk: bool, outcome: Outcome)
    requires SheetResult(config, target, inputCells, inputRows, inputFilePath, outputFilePath, inputSheet, parseFloat,
                         outputWritable, copyOk, outcome)
    ensures outcome.Saved? ==> outcome.path == outputFilePath
    ensures outcome.Quarantined? && copyOk ==> outcome.copiedTo == Some(JoinPath("data/problematic", Base(inputFilePath)))
    ensures outcome.Quarantined? && !copyOk ==> outcome.copiedTo.None?
  {
  }

  /** FormatFileWithTarget.
      `config` is the loaded mapping file (None: it failed to load),
      `target` the target sheet (None: the file cannot be opened),
      `inputCells` the input sheet's cells (None: it cannot be opened)
      and `inputRows` its rows as GetRows returns them (None: the sheet
      cannot be read). strconv.ParseFloat is passed as `parseFloat`,
      `outputWritable` says whether the file system accepts the write of
      the output file, and `copyOk` whether data/problematic can be made
      and the input copied into it. */
  method FormatFileWithTarget(config: Option<MappingConfig>, target: Option<TargetSheet>,
                              inputCells: Option<Cells>, inputRows: Option<seq<seq<string>>>,
                              inputFilePath: string, outputFilePath: string, inputSheet: string,
                              parseFloat: string -> Option<real>, outputWritable: bool, copyOk: bool)
    returns (outcome: Outcome)
    ensures SheetResult(config, target, inputCells, inputRows, inputFilePath, outputFilePath, inputSheet, parseFloat,
                        outputWritable, copyOk, outcome)
  {
    if config.None? {
      return Failed("failed to load mapping configuration");
    }
    var targetToScanned := BuildReverseMapping(config.value.mappings);
    if target.None? {
      return Failed("failed to open target format file");
    }
    if inputCells.None? {
      return Failed("failed to open input file " + inputFilePath);
    }
    var inputEditor := new Editor(inputCells.value, inputFilePath);
    if target.value.headers.None? {
      return Failed("failed to get target headers");
    }
    var targetHeaders := target.value.headers.value;
    if inputRows.None? {
      return Failed("failed to get input headers");
    }
    var rows := inputRows.value;
    var inputHeaders := if rows == [] then [] else rows[0];
    var inputHeaderMap := BuildHeaderIndex(inputHeaders);
    var templates, hasColumnFormulas := FindColumnFormulas(target.value, targetHeaders);
    var originalDataRowCount := |rows|;
    if originalDataRowCount > 0 {
      originalDataRowCount := originalDataRowCount - 1;
    }
    if hasColumnFormulas && originalDataRowCount > 0 {
      inputEditor.InsertRows(2, 1);
      rows := RowsAfterInsert(rows);
    }
    var inputFileName := Base(inputFilePath);
    var p := Plan(inputFileName, inputSheet, targetHeaders, target.value, targetToScanned,
                  inputHeaderMap, templates, rows);
    assert p == PlanOf(config.value.mappings, target.value, targetHeaders, inputRows.value, inputFilePath, inputSheet);
    var messages, failed := ProcessColumns(inputEditor, p, parseFloat);
    if failed {
      return Failed("failed to check formula in target cell");
    }
    if messages != [] {
      if !copyOk {
        return Quarantined(messages, None);
      }
      return Quarantined(messages, Some(JoinPath("data/problematic", Base(inputFilePath))));
    }
    var saved := inputEditor.SaveAs(outputFilePath, outputWritable);
    if saved.Err? {
      return Failed("failed to save formatted file " + outputFilePath);
    }
    return Saved(saved.value, inputEditor.cells);
  }

  // ---------------------------------------------------------------
  // What the formatted sheet looks like
  // ---------------------------------------------------------------

  /** Every target column's header cell holds the target header,
      whatever the column's mapping, and no column beyond the target's
      columns is touched. */
  lemma HeadersAndUntouchedColumns(p: Plan, parseFloat: string -> Option<real>, start: Cells, a: Address)
    ensures a.row == 1 && a.col < |p.targetHeaders| ==>
      Expected(p, parseFloat, start, |p.targetHeaders|, a) == Some(ValueCell(TextValue(p.targetHeaders[a.col]), false))
    ensures a.col >= |p.targetHeaders| ==> Expected(p, parseFloat, start, |p.targetHeaders|, a) == Get(start, a)
  {
  }

  /** A templated column holds the template adjusted to the row in rows
      2..|rows|-1, keeps its old cells elsewhere below the header, and
      never receives input data. */
  lemma TemplatedColumn(p: Plan, parseFloat: string -> Option<real>, start: Cells, a: Address)
    requires a.col < |p.targetHeaders| && a.col in p.templates && a.row >= 2
    ensures 2 <= a.row < |p.rows| ==>
      Expected(p, parseFloat, start, |p.targetHeaders|, a) == Some(FormulaCell(AdjustFormulaForRow(p.templates[a.col], a.row)))
    ensures a.row >= |p.rows| ==> Expected(p, parseFloat, start, |p.targetHeaders|, a) == Get(start, a)
    ensures Placed(p, parseFloat, a).Some? ==> Placed(p, parseFloat, a).value.FormulaCell?
  {
  }

  /** In a mapped column found in the input, a target formula at the
      same address wins over the input value; without one the value of
      the input row is stored with type detection; an input row too
      short to reach the column leaves the cell as it was. */
  lemma MappedColumn(p: Plan, parseFloat: string -> Option<real>, start: Cells, a: Address)
    requires a.col < |p.targetHeaders| && a.col !in p.templates
    requires p.targetHeaders[a.col] in p.targetToScanned
    requires p.targetToScanned[p.targetHeaders[a.col]] in p.inputHeaderMap
    requires 2 <= a.row <= |p.rows|
    ensures var idx := p.inputHeaderMap[p.targetToScanned[p.targetHeaders[a.col]]];
      var row := p.rows[a.row - 1];
      var result := Expected(p, parseFloat, start, |p.targetHeaders|, a);
      && (FormulaAt(p.target, a) != "" ==> result == Some(FormulaCell(FormulaAt(p.target, a))))
      && (FormulaAt(p.target, a) == "" && idx < |row| ==> result == Some(SmartCell(row[idx], parseFloat)))
      && (FormulaAt(p.target, a) == "" && idx >= |row| ==> result == Get(start, a))
  {
  }

  /** A column without a mapping, or whose mapped column is missing from
      the input, receives no input data: an unmapped column still gets
      the target's formulas, a missing one nothing but its header. */
  lemma UnmappedColumn(p: Plan, parseFloat: string -> Option<real>, start: Cells, a: Address)
    requires a.col < |p.targetHeaders| && a.col !in p.templates && a.row >= 2
    requires var h := p.targetHeaders[a.col];
      h !in p.targetToScanned || p.targetToScanned[h] !in p.inputHeaderMap
    ensures var h := p.targetHeaders[a.col];
      var result := Expected(p, parseFloat, start, |p.targetHeaders|, a);
      && (h !in p.targetToScanned && a.row <= |p.rows| && FormulaAt(p.target, a) != "" ==>
            result == Some(FormulaCell(FormulaAt(p.target, a))))
      && (h !in p.targetToScanned && FormulaAt(p.target, a) == "" ==> result == Get(start, a))
      && (h in p.targetToScanned ==> result == Get(start, a))
  {
  }

  /** Each column without a template and without its input column adds
      exactly one message, and nothing else adds one: the report is
      empty iff every target column is templated or finds its data. */
  lemma {:induction false} MessagesSpec(p: Plan, n: nat)
    requires n <= |p.targetHeaders|
    ensures Messages(p, n) == [] <==>
      forall i :: 0 <= i < n ==> ColumnMessage(p, i) == []
    ensures |Messages(p, n)| <= n
  {
    if n > 0 {
      MessagesSpec(p, n - 1);
    }
  }

  /** The blank row goes in iff a template exists and the input has a
      data row; the rows read again are one longer, the header row stays
      first and each data row k moves to k + 1, in step with its cells. */
  lemma InsertionSpec(cells: Cells, target: TargetSheet, targetHeaders: seq<string>, rows: seq<seq<string>>)
    ensures InsertsRow(Templates(target, |targetHeaders|), rows) <==>
      (exists i :: 0 <= i < |targetHeaders| && HasTemplate(target, i)) && |rows| >= 2
    ensures InsertsRow(Templates(target, |targetHeaders|), rows) ==>
      var after := RowsAfterInsert(rows);
      && |after| == |rows| + 1 && after[0] == rows[0] && after[1] == []
      && (forall k :: 1 <= k < |rows| ==> after[k + 1] == rows[k])
      && (forall c: nat, k: nat :: 1 <= k ==>
            Get(Prepared(cells, target, targetHeaders, rows), Address(c, k + 1)) == Get(cells, Address(c, k)) || k == 1)
    ensures !InsertsRow(Templates(target, |targetHeaders|), rows) ==> Prepared(cells, target, targetHeaders, rows) == cells
  {
    var t := Templates(target, |targetHeaders|);
    if exists i :: 0 <= i < |targetHeaders| && HasTemplate(target, i) {
      var i :| 0 <= i < |targetHeaders| && HasTemplate(target, i);
      TemplatesSpec(target, |targetHeaders|, i);
      assert i in t;
    } else {
      forall i | i in t
        ensures false
      {
        TemplatesSpec(target, |targetHeaders|, i);
      }
      assert t == map[];
    }
    if InsertsRow(t, rows) {
      forall c: nat, k: nat | 1 <= k
        ensures Get(Prepared(cells, target, targetHeaders, rows), Address(c, k + 1)) == Get(cells, Address(c, k)) || k == 1
      {
        ShiftDownSpec(cells, 2, Address(c, k + 1));
      }
    }
  }

  // ---------------------------------------------------------------
  // FormatFile
  // ---------------------------------------------------------------

  /** One sheet of the input workbook: its name, its cells and its rows
      (None: the sheet cannot be opened or read). */
  datatype SheetInput = SheetInput(name: string, cells: Option<Cells>, rows: Option<seq<seq<string>>>)

  /** data/results/<input base name without extension>-<sheet>.xlsx */
  function OutputPath(inputFilePath: string, sheet: string): string
  {
    JoinPath("data/results", Stem(Base(inputFilePath)) + "-" + sheet + ".xlsx")
  }

  /** Each sheet gets its own output file named after the input file. */
  lemma OutputPathSpec(inputFilePath: string, sheet1: string, sheet2: string)
    ensures StartsWith(OutputPath(inputFilePath, sheet1), JoinPath("data/results", Stem(Base(inputFilePath)) + "-"))
    ensures EndsWith(OutputPath(inputFilePath, sheet1), sheet1 + ".xlsx")
    ensures sheet1 != sheet2 ==> OutputPath(inputFilePath, sheet1) != OutputPath(inputFilePath, sheet2)
  {
    var stem := Stem(Base(inputFilePath));
    var prefix := JoinPath("data/results", stem + "-");
    FramedNames(prefix, sheet1, sheet2, ".xlsx");
    OutputPathParts("data/results", stem, sheet1);
    OutputPathParts("data/results", stem, sheet2);
  }

  /** What FormatFileWithTarget promises for one sheet of the input. */
  ghost predicate SheetDone(config: Option<MappingConfig>, target: Option<TargetSheet>, inputFilePath: string,
                            parseFloat: string -> Option<real>, writable: string -> bool, copyOk: string -> bool,
                            sheet: SheetInput, outcome: Outcome)
  {
    var outputFilePath := OutputPath(inputFilePath, sheet.name);
    SheetResult(config, target, sheet.cells, sheet.rows, inputFilePath,
                outputFilePath, sheet.name, parseFloat, writable(outputFilePath), copyOk(sheet.name), outcome)
  }

  /** FormatFile: check that the three files exist and that the results
      directory can be made, then format every sheet of the input into
      its own output file. A sheet that fails does not stop the others;
      the outcome of every sheet is returned in sheet order. `writable`
      says which output files the file system lets it write, and
      `copyOk` whether a quarantine of the named sheet manages to copy
      the input into data/problematic. */
  method FormatFile(inputExists: bool, mappingExists: bool, targetExists: bool, resultsDirMade: bool,
                    sheets: Option<seq<SheetInput>>, config: Option<MappingConfig>, target: Option<TargetSheet>,
                    inputFilePath: string, targetFilePath: string, mappingFilePath: string,
                    parseFloat: string -> Option<real>, writable: string -> bool, copyOk: string -> bool)
    returns (result: Result<seq<Outcome>>)
    ensures !inputExists ==> result == Err("input file not found: " + inputFilePath)
    ensures inputExists && !mappingExists ==> result == Err("mapping file not found: " + mappingFilePath)
    ensures inputExists && mappingExists && !targetExists ==> result == Err("target format file not found: " + targetFilePath)
    ensures inputExists && mappingExists && targetExists && !resultsDirMade ==>
      result == Err("failed to create results directory")
    ensures inputExists && mappingExists && targetExists && resultsDirMade && sheets.None? ==>
      result == Err("failed to open input file")
    ensures inputExists && mappingExists && targetExists && resultsDirMade && sheets == Some([]) ==>
      result == Err("no sheets found in input file")
    ensures result.Ok? ==> sheets.Some? && |result.value| == |sheets.value| > 0
    ensures result.Ok? ==> forall k :: 0 <= k < |result.value| ==>
      SheetDone(config, target, inputFilePath, parseFloat, writable, copyOk, sheets.value[k], result.value[k])
  {
    if !inputExists {
      return Err("input file not found: " + inputFilePath);
    }
    if !mappingExists {
      return Err("mapping file not found: " + mappingFilePath);
    }
    if !targetExists {
      return Err("target format file not found: " + targetFilePath);
    }
    if !resultsDirMade {
      return Err("failed to create results directory");
    }
    if sheets.None? {
      return Err("failed to open input file");
    }
    var inputSheets := sheets.value;
    if |inputSheets| == 0 {
      return Err("no sheets found in input file");
    }
    var outcomes: seq<Outcome> := [];
    var k := 0;
    while k < |inputSheets|
      invariant k <= |inputSheets| && |outcomes| == k
      invariant forall j :: 0 <= j < k ==> SheetDone(config, target, inputFilePath, parseFloat, writable, copyOk, inputSheets[j], outcomes[j])
    {
      var sheet := inputSheets[k];
      var outputFilePath := OutputPath(inputFilePath, sheet.name);
      var outcome := FormatFileWithTarget(config, target, sheet.cells, sheet.rows, inputFilePath,
                                          outputFilePath, sheet.name, parseFloat, writable(outputFilePath), copyOk(sheet.name));
      assert SheetDone(config, target, inputFilePath, parseFloat, writable, copyOk, sheet, outcome);
      outcomes := outcomes + [outcome];
      k := k + 1;
    }
    return Ok(outcomes);
  }
}
