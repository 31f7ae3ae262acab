/** Reading formatted workbooks for the CSV export
    (internal/csv/excel_reader.py): the saved column mappings, header row
    detection, the header map, cell formatting and the extraction of one
    line item. A worksheet is an abstract grid of typed values, as
    openpyxl returns them with data_only=True. */
module ExcelReader {
  import opened Text
  import opened Dicts
  import opened MappingTypes
  import opened CsvConfig
  import opened Picklist

  /** A cell value: a string, an int, a float (with its str() text and
      whether it is zero), a bool, or a date (with its YYYY-MM-DD form and
      its str() text). */
  datatype CellValue =
    | StrValue(s: string)
    | IntValue(i: int)
    | FloatValue(text: string, isZero: bool)
    | BoolValue(b: bool)
    | DateValue(day: string, text: string)

  /** str(value). */
  function PyStr(v: CellValue): string
  {
    match v
    case StrValue(s) => s
    case IntValue(i) => IntToDecimal(i)
    case FloatValue(text, _) => text
    case BoolValue(b) => if b then "True" else "False"
    case DateValue(_, text) => text
  }

  /** Python truthiness of a value. */
  predicate PyTruthy(v: CellValue)
  {
    match v
    case StrValue(s) => s != ""
    case IntValue(i) => i != 0
    case FloatValue(_, isZero) => !isZero
    case BoolValue(b) => b
    case DateValue(_, _) => true
  }

  /** The cells by (row, column), both 1-based, and the sheet's extent. */
  datatype Grid = Grid(cells: map<(nat, nat), CellValue>, maxRow: nat, maxColumn: nat)

  function ValueAt(g: Grid, r: nat, c: nat): Option<CellValue>
  {
    if (r, c) in g.cells then Some(g.cells[(r, c)]) else None
  }

  /** `cell.value is not None and str(cell.value).strip()`. */
  predicate Filled(g: Grid, r: nat, c: nat)
  {
    ValueAt(g, r, c).Some? && PyStrip(PyStr(ValueAt(g, r, c).value)) != ""
  }

  // ---------------------------------------------------------------
  // load_existing_column_mappings

  /** load_existing_column_mappings. `file` is None when the mapping file
      does not exist, and otherwise its records or why they cannot be
      read; both failures give the empty map. */
  method LoadExistingColumnMappings(file: Option<Result<seq<ColumnMapping>>>) returns (m: map<string, string>)
    ensures file.None? || file.value.Err? ==> m == map[]
    ensures file.Some? && file.value.Ok? ==> m == ReverseMapping(file.value.value)
  {
    if file.None? || file.value.Err? {
      return map[];
    }
    var records := file.value.value;
    m := map[];
    var i := 0;
    while i < |records|
      invariant i <= |records|
      invariant m == ReverseMapping(records[..i])
    {
      assert records[..i + 1][..i] == records[..i];
      var r := records[i];
      if !r.isIgnored && r.targetColumn != "" {
        m := m[r.targetColumn := r.scannedColumn];
      }
      i := i + 1;
    }
    assert records[..i] == records;
  }

  // ---------------------------------------------------------------
  // detect_header_row

  /** The rightmost filled column of row r among columns 1..c, 0 if none. */
  function RowRightmost(g: Grid, r: nat, c: nat): (k: nat)
    ensures k <= c
    ensures k > 0 ==> Filled(g, r, k)
    ensures forall j :: k < j <= c ==> !Filled(g, r, j)
  {
    if c == 0 then 0 else if Filled(g, r, c) then c else RowRightmost(g, r, c - 1)
  }

  /** The rightmost filled column over rows 1..n, 0 if none. */
  function ScanWidth(g: Grid, n: nat): (k: nat)
    ensures k <= g.maxColumn
  {
    if n == 0 then 0
    else
      var prev := ScanWidth(g, n - 1);
      var here := RowRightmost(g, n, g.maxColumn);
      if here > prev then here else prev
  }

  /** The width is a column filled in one of the scanned rows, and no
      scanned row has a filled column to its right. */
  lemma {:induction false} ScanWidthSpec(g: Grid, n: nat)
    ensures ScanWidth(g, n) > 0 ==> exists r :: 1 <= r <= n && Filled(g, r, ScanWidth(g, n))
    ensures forall r, c :: 1 <= r <= n && ScanWidth(g, n) < c <= g.maxColumn ==> !Filled(g, r, c)
  {
    if n > 0 {
      ScanWidthSpec(g, n - 1);
      var prev := ScanWidth(g, n - 1);
      var here := RowRightmost(g, n, g.maxColumn);
      if here > prev {
        assert Filled(g, n, here);
      } else if prev > 0 {
        var r :| 1 <= r <= n - 1 && Filled(g, r, prev);
        assert 1 <= r <= n;
      }
    }
  }

  /** The first row from r on (up to max_row) filled in column c, or 1. */
  function FirstFilledFrom(g: Grid, c: nat, r: nat): (k: nat)
    requires r >= 1
    ensures k >= 1
    decreases g.maxRow + 1 - r
  {
    if r > g.maxRow then 1
    else if Filled(g, r, c) then r
    else FirstFilledFrom(g, c, r + 1)
  }

  /** When some row j from r on is filled in column c, the result is the
      first filled row, at most j. */
  lemma {:induction false} FirstFilledFromFound(g: Grid, c: nat, r: nat, j: nat)
    requires 1 <= r <= j <= g.maxRow && Filled(g, j, c)
    ensures var k := FirstFilledFrom(g, c, r);
      r <= k <= j && Filled(g, k, c) && forall i :: r <= i < k ==> !Filled(g, i, c)
    decreases j - r
  {
    if !Filled(g, r, c) {
      FirstFilledFromFound(g, c, r + 1, j);
    }
  }

  /** When no row from r on is filled in column c, the result is 1. */
  lemma {:induction false} FirstFilledFromNone(g: Grid, c: nat, r: nat)
    requires r >= 1
    requires forall j :: r <= j <= g.maxRow ==> !Filled(g, j, c)
    ensures FirstFilledFrom(g, c, r) == 1
    decreases g.maxRow + 1 - r
  {
    if r <= g.maxRow {
      FirstFilledFromNone(g, c, r + 1);
    }
  }

  /** detect_header_row: 1 for an empty sheet; otherwise the first row
      filled in the rightmost column filled within the first 19 rows, or 1
      when there is none. */
  function HeaderRowOf(g: Grid): (h: nat)
    ensures h >= 1
  {
    if g.maxRow == 0 then 1
    else
      var width := ScanWidth(g, if g.maxRow < 19 then g.maxRow else 19);
      if width == 0 then 1 else FirstFilledFrom(g, width, 1)
  }

  /** The header row is the first row filled in the scan width column,
      where the width is taken over the first 19 rows only; 1 when no cell
      of those rows is filled. */
  lemma HeaderRowSpec(g: Grid)
    ensures var n := if g.maxRow < 19 then g.maxRow else 19;
      var width := ScanWidth(g, n);
      && (width == 0 ==> HeaderRowOf(g) == 1 && forall r, c :: 1 <= r <= n && 1 <= c <= g.maxColumn ==> !Filled(g, r, c))
      && (width > 0 ==> && 1 <= HeaderRowOf(g) <= g.maxRow && Filled(g, HeaderRowOf(g), width)
                        && forall r :: 1 <= r < HeaderRowOf(g) ==> !Filled(g, r, width))
  {
    var n := if g.maxRow < 19 then g.maxRow else 19;
    ScanWidthSpec(g, n);
    var width := ScanWidth(g, n);
    if width > 0 {
      var r :| 1 <= r <= n && Filled(g, r, width);
      FirstFilledFromFound(g, width, 1, r);
    }
  }

  /** detect_header_row. */
  method DetectHeaderRow(g: Grid) returns (headerRow: nat)
    ensures headerRow == HeaderRowOf(g)
  {
    if g.maxRow == 0 {
      return 1;
    }
    var last := if g.maxRow + 1 < 20 then g.maxRow + 1 else 20;
    var rightmostCol := 0;
    var rowIdx := 1;
    while rowIdx < last
      invariant 1 <= rowIdx <= last
      invariant rightmostCol == ScanWidth(g, rowIdx - 1)
    {
      var colIdx := g.maxColumn;
      while colIdx > 0 && !Filled(g, rowIdx, colIdx)
        invariant 0 <= colIdx <= g.maxColumn
        invariant RowRightmost(g, rowIdx, g.maxColumn) == RowRightmost(g, rowIdx, colIdx)
      {
        colIdx := colIdx - 1;
      }
      if colIdx > rightmostCol {
        rightmostCol := colIdx;
      }
      rowIdx := rowIdx + 1;
    }
    if rightmostCol == 0 {
      return 1;
    }
    rowIdx := 1;
    while rowIdx <= g.maxRow
      invariant 1 <= rowIdx
      invariant FirstFilledFrom(g, rightmostCol, rowIdx) == HeaderRowOf(g)
      decreases g.maxRow + 1 - rowIdx
    {
      if Filled(g, rowIdx, rightmostCol) {
        return rowIdx;
      }
      rowIdx := rowIdx + 1;
    }
    return 1;
  }

  // ---------------------------------------------------------------
  // get_headers_mapping

  /** The header name of a cell: a truthy value, stripped, when that
      leaves something. */
  function HeaderName(g: Grid, row: nat, c: nat): Option<string>
  {
    match ValueAt(g, row, c)
    case None => None
    case Some(v) => if PyTruthy(v) && PyStrip(PyStr(v)) != "" then Some(PyStrip(PyStr(v))) else None
  }

  /** The header names of columns 1..n of a row, in column order. */
  function RowNames(g: Grid, row: nat, n: nat): (names: seq<Option<string>>)
    ensures |names| == n
    ensures forall i :: 0 <= i < n ==> names[i] == HeaderName(g, row, i + 1)
  {
    if n == 0 then [] else RowNames(g, row, n - 1) + [HeaderName(g, row, n)]
  }

  /** The dict built from a row's header names: each name to its 1-based
      column, a later column replacing an earlier one of the same name. */
  function NamesMapping(names: seq<Option<string>>): Dict<nat>
  {
    if |names| == 0 then Empty()
    else
      var d := NamesMapping(names[..|names| - 1]);
      match names[|names| - 1]
      case Some(name) => Put(d, name, |names|)
      case None => d
  }

  /** The dict get_headers_mapping builds from columns 1..n. */
  function HeadersMapping(g: Grid, row: nat, n: nat): Dict<nat>
  {
    NamesMapping(RowNames(g, row, n))
  }

  lemma {:induction false} NamesMappingWellFormed(names: seq<Option<string>>)
    ensures WellFormed(NamesMapping(names))
  {
    if |names| > 0 {
      var init := names[..|names| - 1];
      NamesMappingWellFormed(init);
      if names[|names| - 1].Some? {
        PutSpec(NamesMapping(init), names[|names| - 1].value, |names|);
      }
    }
  }

  /** The keys are exactly the names present. */
  lemma {:induction false} NamesMappingKeys(names: seq<Option<string>>, name: string)
    ensures name in NamesMapping(names).entries <==> exists i :: 0 <= i < |names| && names[i] == Some(name)
  {
    if |names| > 0 {
      var n := |names|;
      var init := names[..n - 1];
      NamesMappingKeys(init, name);
      NamesMappingWellFormed(init);
      var d := NamesMapping(init);
      if names[n - 1].Some? {
        PutSpec(d, names[n - 1].value, n);
      }
      if names[n - 1] != Some(name) {
        assert name in NamesMapping(names).entries <==> name in d.entries;
        if exists i :: 0 <= i < n && names[i] == Some(name) {
          var i :| 0 <= i < n && names[i] == Some(name);
          assert i < n - 1 && init[i] == names[i];
        }
        if exists i :: 0 <= i < n - 1 && init[i] == Some(name) {
          var i :| 0 <= i < n - 1 && init[i] == Some(name);
          assert names[i] == init[i];
        }
      }
    }
  }

  /** A name maps to the last column carrying it. */
  lemma {:induction false} NamesMappingLast(names: seq<Option<string>>, name: string)
    requires name in NamesMapping(names).entries
    ensures var c := NamesMapping(names).entries[name];
      && 1 <= c <= |names| && names[c - 1] == Some(name)
      && forall i :: c <= i < |names| ==> names[i] != Some(name)
  {
    var n := |names|;
    var init := names[..n - 1];
    NamesMappingWellFormed(init);
    var d := NamesMapping(init);
    if names[n - 1].Some? {
      PutSpec(d, names[n - 1].value, n);
    }
    if names[n - 1] != Some(name) {
      assert name in d.entries && NamesMapping(names).entries[name] == d.entries[name];
      NamesMappingLast(init, name);
      var c := d.entries[name];
      forall i | c <= i < n
        ensures names[i] != Some(name)
      {
        if i < n - 1 {
          assert names[i] == init[i];
        }
      }
    }
  }

  /** The header map holds exactly the header names of the row, each at
      the last column carrying it; it is well formed. */
  lemma HeadersMappingSpec(g: Grid, row: nat, n: nat, name: string)
    ensures WellFormed(HeadersMapping(g, row, n))
    ensures name in HeadersMapping(g, row, n).entries <==> exists c :: 1 <= c <= n && HeaderName(g, row, c) == Some(name)
    ensures name in HeadersMapping(g, row, n).entries ==>
      var c := HeadersMapping(g, row, n).entries[name];
      && 1 <= c <= n && HeaderName(g, row, c) == Some(name)
      && forall j :: c < j <= n ==> HeaderName(g, row, j) != Some(name)
  {
    var names := RowNames(g, row, n);
    NamesMappingWellFormed(names);
    NamesMappingKeys(names, name);
    if name in NamesMapping(names).entries {
      NamesMappingLast(names, name);
    }
    if exists c :: 1 <= c <= n && HeaderName(g, row, c) == Some(name) {
      var c :| 1 <= c <= n && HeaderName(g, row, c) == Some(name);
      assert names[c - 1] == Some(name);
    }
    if exists i :: 0 <= i < n && names[i] == Some(name) {
      var i :| 0 <= i < n && names[i] == Some(name);
      assert HeaderName(g, row, i + 1) == Some(name);
    }
    if name in NamesMapping(names).entries {
      var c := NamesMapping(names).entries[name];
      forall j | c < j <= n
        ensures HeaderName(g, row, j) != Some(name)
      {
        assert names[j - 1] == HeaderName(g, row, j);
      }
    }
  }

  /** get_headers_mapping. */
  method GetHeadersMapping(g: Grid, headerRow: nat) returns (headers: Dict<nat>)
    ensures headers == HeadersMapping(g, headerRow, g.maxColumn)
  {
    headers := Empty();
    var colIdx := 1;
    while colIdx <= g.maxColumn
      invariant 1 <= colIdx <= g.maxColumn + 1
      invariant headers == HeadersMapping(g, headerRow, colIdx - 1)
    {
      ghost var names := RowNames(g, headerRow, colIdx);
      assert names[..colIdx - 1] == RowNames(g, headerRow, colIdx - 1);
      var cell := ValueAt(g, headerRow, colIdx);
      if cell.Some? && PyTruthy(cell.value) {
        var headerName := PyStrip(PyStr(cell.value));
        if headerName != "" {
          headers := Put(headers, headerName, colIdx);
        }
      }
      colIdx := colIdx + 1;
    }
  }

  // ---------------------------------------------------------------
  // format_cell_value

  /** format_cell_value. A number (bools included, as in Python) in a
      column whose name ends in "Date" is an Excel serial date:
      `serialDate` is that conversion's text, None when it raises. */
  function FormatCellValue(value: Option<CellValue>, column: string, serialDate: Option<string>): string
  {
    match value
    case None => ""
    case Some(v) =>
      match v
      case DateValue(day, _) => day
      case StrValue(s) => PyStrip(s)
      case _ =>
        if EndsWith(column, "Date") && serialDate.Some? then serialDate.value else PyStr(v)
  }

  /** A string value comes out stripped; a number outside a date column
      comes out as its str() text, and nothing comes out of no value. */
  lemma FormatCellValueSpec(value: Option<CellValue>, column: string, serialDate: Option<string>)
    ensures value.None? ==> FormatCellValue(value, column, serialDate) == ""
    ensures value.Some? && value.value.StrValue? ==>
      var r := FormatCellValue(value, column, serialDate);
      PyStrip(r) == r && r == PyStrip(PyStr(value.value))
    ensures value.Some? && (value.value.IntValue? || value.value.FloatValue? || value.value.BoolValue?) &&
            !EndsWith(column, "Date") ==>
      FormatCellValue(value, column, serialDate) == PyStr(value.value)
  {
    if value.Some? && value.value.StrValue? {
      TrimWithIdempotent(value.value.s, PyIsSpace);
    }
  }

  // ---------------------------------------------------------------
  // extract_single_lineitem

  /** The three fields set before the mapped columns, and never changed by
      them. */
  predicate IsFixedField(csv: string)
  {
    csv == "LineItemID" || csv == "SalesPlanID" || csv == "ProductCategory"
  }

  /** The value of source column `source` in row `row`, when the header
      map has it. */
  function SourceValue(g: Grid, row: nat, headers: Dict<nat>, source: string): Option<CellValue>
  {
    if source in headers.entries then ValueAt(g, row, headers.entries[source]) else None
  }

  /** The source cell of a mapped column holds something. */
  predicate SourceFilled(g: Grid, row: nat, headers: Dict<nat>, source: string)
  {
    var v := SourceValue(g, row, headers, source);
    v.Some? && PyStrip(PyStr(v.value)) != ""
  }

  /** Among the first k mapped columns, some non-fixed one has a filled
      source cell. */
  predicate AnyFilled(g: Grid, row: nat, headers: Dict<nat>, sourceMapping: Dict<string>, k: nat)
    requires WellFormed(sourceMapping) && k <= |sourceMapping.keys|
  {
    exists j :: 0 <= j < k && !IsFixedField(sourceMapping.keys[j])
                && SourceFilled(g, row, headers, sourceMapping.entries[sourceMapping.keys[j]])
  }

  /** The row holds data: some mapped column other than the three fixed
      ones has a filled source cell. */
  predicate RowHasData(g: Grid, row: nat, headers: Dict<nat>, sourceMapping: Dict<string>)
  {
    exists csv :: csv in sourceMapping.entries && !IsFixedField(csv)
                  && SourceFilled(g, row, headers, sourceMapping.entries[csv])
  }

  /** The text stored for a mapped CSV column: its picklist value when it
      is a picklist column of the line items, else its formatted cell. */
  function ColumnText(s: Settings, g: Grid, row: nat, headers: Dict<nat>, csv: string, source: string,
                      serialDate: (CellValue, string) -> Option<string>): string
  {
    var v := SourceValue(g, row, headers, source);
    if IsPicklistColumn(s, csv, "lineitems") then
      PicklistValue(s, if v.Some? then Some(PyStr(v.value)) else None, csv, "lineitems")
    else
      FormatCellValue(v, csv, if v.Some? then serialDate(v.value, csv) else None)
  }

  /** The text wanted for each non-fixed mapped column of a row. */
  ghost function Wanted(s: Settings, g: Grid, row: nat, headers: Dict<nat>, sourceMapping: Dict<string>,
                        serialDate: (CellValue, string) -> Option<string>): (want: map<string, string>)
    ensures forall csv :: csv in sourceMapping.entries && !IsFixedField(csv) ==>
      csv in want && want[csv] == ColumnText(s, g, row, headers, csv, sourceMapping.entries[csv], serialDate)
  {
    map csv | csv in sourceMapping.entries && !IsFixedField(csv) ::
      ColumnText(s, g, row, headers, csv, sourceMapping.entries[csv], serialDate)
  }

  /** What the line item holds after its first k mapped columns: the
      fixed fields, and for each non-fixed column seen its wanted text. */
  ghost predicate ItemUpTo(sourceMapping: Dict<string>, want: map<string, string>,
                           fixed: Dict<string>, k: nat, item: Dict<string>)
    requires k <= |sourceMapping.keys|
  {
    && WellFormed(item)
    && (forall f :: f in fixed.entries ==> f in item.entries && item.entries[f] == fixed.entries[f])
    && (forall j :: 0 <= j < k && !IsFixedField(sourceMapping.keys[j]) ==>
          sourceMapping.keys[j] in item.entries && sourceMapping.keys[j] in want &&
          item.entries[sourceMapping.keys[j]] == want[sourceMapping.keys[j]])
    && (forall key :: key in item.entries ==> key in fixed.entries || key in sourceMapping.keys[..k])
  }

  /** The three fixed fields of a line item, in their order. */
  function FixedFields(lineItemId: string, salesplanId: string, productCategory: string): (d: Dict<string>)
    ensures WellFormed(d)
    ensures forall f :: f in d.entries <==> IsFixedField(f)
    ensures "LineItemID" in d.entries && d.entries["LineItemID"] == lineItemId
    ensures "SalesPlanID" in d.entries && d.entries["SalesPlanID"] == salesplanId
    ensures "ProductCategory" in d.entries && d.entries["ProductCategory"] == productCategory
  {
    Dict(["LineItemID", "SalesPlanID", "ProductCategory"],
         map["LineItemID" := lineItemId, "SalesPlanID" := salesplanId, "ProductCategory" := productCategory])
  }

  /** Storing the wanted text of column k keeps ItemUpTo, one column
      further; a fixed column is skipped. */
  lemma ItemStep(sourceMapping: Dict<string>, want: map<string, string>, fixed: Dict<string>, k: nat,
                 item: Dict<string>, text: string)
    requires WellFormed(sourceMapping) && k < |sourceMapping.keys|
    requires forall f :: f in fixed.entries <==> IsFixedField(f)
    requires ItemUpTo(sourceMapping, want, fixed, k, item)
    requires !IsFixedField(sourceMapping.keys[k]) ==> sourceMapping.keys[k] in want && text == want[sourceMapping.keys[k]]
    ensures var csv := sourceMapping.keys[k];
      ItemUpTo(sourceMapping, want, fixed, k + 1, if IsFixedField(csv) then item else Put(item, csv, text))
  {
    var csv := sourceMapping.keys[k];
    assert sourceMapping.keys[..k + 1] == sourceMapping.keys[..k] + [csv];
    if !IsFixedField(csv) {
      PutSpec(item, csv, text);
      var next := Put(item, csv, text);
      forall j | 0 <= j < k + 1 && !IsFixedField(sourceMapping.keys[j])
        ensures sourceMapping.keys[j] in next.entries && sourceMapping.keys[j] in want &&
          next.entries[sourceMapping.keys[j]] == want[sourceMapping.keys[j]]
      {
        if j < k {
          assert sourceMapping.keys[j] != csv;
        }
      }
    }
  }

  /** After all the columns, the mapped part of ItemUpTo reads per key. */
  lemma ItemComplete(sourceMapping: Dict<string>, want: map<string, string>, fixed: Dict<string>, item: Dict<string>)
    requires WellFormed(sourceMapping)
    requires ItemUpTo(sourceMapping, want, fixed, |sourceMapping.keys|, item)
    ensures forall csv :: csv in sourceMapping.entries && !IsFixedField(csv) ==>
      csv in item.entries && csv in want && item.entries[csv] == want[csv]
    ensures forall key :: key in item.entries ==> key in fixed.entries || key in sourceMapping.entries
  {
    assert sourceMapping.keys[..|sourceMapping.keys|] == sourceMapping.keys;
    forall csv | csv in sourceMapping.entries && !IsFixedField(csv)
      ensures csv in item.entries && csv in want && item.entries[csv] == want[csv]
    {
      var j :| 0 <= j < |sourceMapping.keys| && sourceMapping.keys[j] == csv;
    }
  }

  /** One more column: AnyFilled grows by that column's own filled test. */
  lemma AnyFilledStep(g: Grid, row: nat, headers: Dict<nat>, sourceMapping: Dict<string>, k: nat)
    requires WellFormed(sourceMapping) && k < |sourceMapping.keys|
    ensures AnyFilled(g, row, headers, sourceMapping, k + 1) <==>
      AnyFilled(g, row, headers, sourceMapping, k)
      || (!IsFixedField(sourceMapping.keys[k])
          && SourceFilled(g, row, headers, sourceMapping.entries[sourceMapping.keys[k]]))
  {
  }

  /** The invariant of the column loop of a line item after k columns. */
  ghost predicate FillInv(g: Grid, row: nat, headers: Dict<nat>, sourceMapping: Dict<string>,
                          want: map<string, string>, fixed: Dict<string>, k: nat,
                          item: Dict<string>, hasData: bool)
    requires WellFormed(sourceMapping) && k <= |sourceMapping.keys|
  {
    ItemUpTo(sourceMapping, want, fixed, k, item) && (hasData <==> AnyFilled(g, row, headers, sourceMapping, k))
  }

  /** One column of the loop keeps its invariant. */
  lemma FillStep(g: Grid, row: nat, headers: Dict<nat>, sourceMapping: Dict<string>,
                 want: map<string, string>, fixed: Dict<string>, k: nat,
                 item: Dict<string>, hasData: bool, text: string, filled: bool)
    requires WellFormed(sourceMapping) && k < |sourceMapping.keys|
    requires forall f :: f in fixed.entries <==> IsFixedField(f)
    requires FillInv(g, row, headers, sourceMapping, want, fixed, k, item, hasData)
    requires !IsFixedField(sourceMapping.keys[k]) ==>
      sourceMapping.keys[k] in want && text == want[sourceMapping.keys[k]]
      && (filled <==> SourceFilled(g, row, headers, sourceMapping.entries[sourceMapping.keys[k]]))
    ensures var csv := sourceMapping.keys[k];
      if IsFixedField(csv) then FillInv(g, row, headers, sourceMapping, want, fixed, k + 1, item, hasData)
      else FillInv(g, row, headers, sourceMapping, want, fixed, k + 1, Put(item, csv, text), hasData || filled)
  {
    AnyFilledStep(g, row, headers, sourceMapping, k);
    ItemStep(sourceMapping, want, fixed, k, item, text);
  }

  /** Over all the columns, AnyFilled is RowHasData. */
  lemma AnyFilledAll(g: Grid, row: nat, headers: Dict<nat>, sourceMapping: Dict<string>)
    requires WellFormed(sourceMapping)
    ensures AnyFilled(g, row, headers, sourceMapping, |sourceMapping.keys|) <==> RowHasData(g, row, headers, sourceMapping)
  {
    if RowHasData(g, row, headers, sourceMapping) {
      var csv :| csv in sourceMapping.entries && !IsFixedField(csv)
                 && SourceFilled(g, row, headers, sourceMapping.entries[csv]);
      var j :| 0 <= j < |sourceMapping.keys| && sourceMapping.keys[j] == csv;
    }
  }

  /** The reader: the configuration, the picklist handler and the saved
      column mappings it loaded. */
  class Reader {
    const config: CsvConfig
    const picklist: PicklistHandler
    const columnMappings: map<string, string>

    constructor(config: CsvConfig, picklist: PicklistHandler, mappingFile: Option<Result<seq<ColumnMapping>>>)
      ensures this.config == config && this.picklist == picklist
      ensures mappingFile.Some? && mappingFile.value.Ok? ==> columnMappings == ReverseMapping(mappingFile.value.value)
      ensures mappingFile.None? || mappingFile.value.Err? ==> columnMappings == map[]
    {
      this.config := config;
      this.picklist := picklist;
      var m := LoadExistingColumnMappings(mappingFile);
      this.columnMappings := m;
    }

    /** One mapped column of a line item: its text, through the picklist
        for a picklist column, and whether its source cell is filled. */
    method ColumnCell(g: Grid, row: nat, headers: Dict<nat>, csv: string, source: string,
                      logWritable: bool, serialDate: (CellValue, string) -> Option<string>)
      returns (text: string, filled: bool)
      requires picklist.config == config
      modifies picklist, config
      ensures text == ColumnText(config.settings, g, row, headers, csv, source, serialDate)
      ensures filled <==> SourceFilled(g, row, headers, source)
      ensures config.counters == old(config.counters)
    {
      var cellValue := SourceValue(g, row, headers, source);
      filled := cellValue.Some? && PyStrip(PyStr(cellValue.value)) != "";
      if IsPicklistColumn(config.settings, csv, "lineitems") {
        text := picklist.ApplyPicklistMapping(if cellValue.Some? then Some(PyStr(cellValue.value)) else None,
                                              csv, "lineitems", logWritable);
      } else {
        text := FormatCellValue(cellValue, csv, if cellValue.Some? then serialDate(cellValue.value, csv) else None);
      }
    }

    /** The loop of extract_single_lineitem over the mapped columns, from
        the item holding the fixed fields. */
    method FillColumns(g: Grid, row: nat, headers: Dict<nat>, sourceMapping: Dict<string>, fixed: Dict<string>,
                       logWritable: bool, serialDate: (CellValue, string) -> Option<string>)
      returns (item: Dict<string>, hasData: bool)
      requires WellFormed(sourceMapping) && WellFormed(fixed)
      requires forall f :: f in fixed.entries <==> IsFixedField(f)
      requires picklist.config == config
      modifies picklist, config
      ensures ItemUpTo(sourceMapping, Wanted(config.settings, g, row, headers, sourceMapping, serialDate),
                       fixed, |sourceMapping.keys|, item)
      ensures hasData <==> RowHasData(g, row, headers, sourceMapping)
      ensures config.counters == old(config.counters)
    {
      ghost var want := Wanted(config.settings, g, row, headers, sourceMapping, serialDate);
      item := fixed;
      hasData := false;
      var k := 0;
      while k < |sourceMapping.keys|
        invariant k <= |sourceMapping.keys|
        invariant FillInv(g, row, headers, sourceMapping, want, fixed, k, item, hasData)
        invariant config.counters == old(config.counters)
      {
        var csv := sourceMapping.keys[k];
        if IsFixedField(csv) {
          FillStep(g, row, headers, sourceMapping, want, fixed, k, item, hasData, "", false);
        } else {
          var text, filled := ColumnCell(g, row, headers, csv, sourceMapping.entries[csv], logWritable, serialDate);
          FillStep(g, row, headers, sourceMapping, want, fixed, k, item, hasData, text, filled);
          item := Put(item, csv, text);
          hasData := hasData || filled;
        }
        k := k + 1;
      }
      AnyFilledAll(g, row, headers, sourceMapping);
    }

    /** extract_single_lineitem. A line item ID is taken first, whether or
        not the row turns out to hold data; failing to take it raises.
        `stateWritable` and `logWritable` say whether the ID state file and
        the unmapped-values log can be written, `serialDate` is the Excel
        serial-date conversion of format_cell_value. */
    method ExtractSingleLineItem(g: Grid, row: nat, headers: Dict<nat>, sourceMapping: Dict<string>,
                                 salesplanId: string, productCategory: string,
                                 stateWritable: bool, logWritable: bool,
                                 serialDate: (CellValue, string) -> Option<string>)
      returns (r: Result<Option<Dict<string>>>)
      requires WellFormed(sourceMapping)
      requires picklist.config == config
      modifies picklist, config
      ensures r.Err? <==> "lineitem_id" !in config.settings.main.ids || !stateWritable
      ensures r.Ok? ==>
        var c := config.settings.main.ids["lineitem_id"];
        config.counters == old(config.counters)[c.stateFile := NextNumber(old(config.counters), c)]
      ensures r.Ok? ==> (r.value.Some? <==> RowHasData(g, row, headers, sourceMapping))
      ensures r.Ok? && r.value.Some? ==>
        var item := r.value.value;
        var c := config.settings.main.ids["lineitem_id"];
        && WellFormed(item)
        && "LineItemID" in item.entries && item.entries["LineItemID"] == FormatId(c.prefix, NextNumber(old(config.counters), c))
        && "SalesPlanID" in item.entries && item.entries["SalesPlanID"] == salesplanId
        && "ProductCategory" in item.entries && item.entries["ProductCategory"] == productCategory
        && (forall csv :: csv in sourceMapping.entries && !IsFixedField(csv) ==>
              csv in item.entries &&
              item.entries[csv] == ColumnText(config.settings, g, row, headers, csv, sourceMapping.entries[csv], serialDate))
        && (forall k :: k in item.entries ==> IsFixedField(k) || k in sourceMapping.entries)
    {
      var id := config.GetNextId("lineitem", stateWritable);
      if id.Err? {
        return Err(id.error);
      }
      var fixed := FixedFields(id.value, salesplanId, productCategory);
      var item, hasData := FillColumns(g, row, headers, sourceMapping, fixed, logWritable, serialDate);
      ItemComplete(sourceMapping, Wanted(config.settings, g, row, headers, sourceMapping, serialDate), fixed, item);
      if !hasData {
        return Ok(None);
      }
      return Ok(Some(item));
    }
  }
}
