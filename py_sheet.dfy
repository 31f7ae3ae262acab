/** Worksheets as the Python engines see them through openpyxl: cells
    addressed by 1-based row and column, the sheet's max_row and
    max_column, and the header and table-end detection that
    internal/format/format_excel.py performs on them. */
module PySheet {
  import opened Text

  /** A cell value: its text as str() renders it, whether it is a
      formula (data_type 'f'), and its Python truthiness. */
  datatype Value = Value(text: string, formula: bool, truthy: bool)

  datatype Cell = Cell(value: Option<Value>, numberFormat: string)

  const EmptyCell: Cell := Cell(None, "General")

  /** A 1-based (row, column) position. */
  datatype Pos = Pos(row: nat, col: nat)

  datatype Sheet = Sheet(cells: map<Pos, Cell>, maxRow: nat, maxColumn: nat)

  /** worksheet.cell(row, col): a cell never written reads as empty. */
  function CellAt(ws: Sheet, p: Pos): Cell
  {
    if p in ws.cells then ws.cells[p] else EmptyCell
  }

  /** `value is not None and str(value).strip() != ""` */
  predicate HasData(ws: Sheet, row: nat, col: nat)
  {
    var v := CellAt(ws, Pos(row, col)).value;
    v.Some? && PyStrip(v.value.text) != ""
  }

  /** The rightmost column in 1..c with data in `row`, or 0. */
  function LastDataCol(ws: Sheet, row: nat, c: nat): (k: nat)
    ensures k <= c
  {
    if c == 0 then 0 else if HasData(ws, row, c) then c else LastDataCol(ws, row, c - 1)
  }

  lemma {:induction false} LastDataColSpec(ws: Sheet, row: nat, c: nat)
    ensures LastDataCol(ws, row, c) > 0 ==> HasData(ws, row, LastDataCol(ws, row, c))
    ensures forall k :: LastDataCol(ws, row, c) < k <= c ==> !HasData(ws, row, k)
  {
    if c > 0 && !HasData(ws, row, c) {
      LastDataColSpec(ws, row, c - 1);
    }
  }

  function Max(a: nat, b: nat): nat
  {
    if a >= b then a else b
  }

  /** The rightmost column with data among rows 1..rows (columns up to
      max_column), or 0 when there is none. */
  function Rightmost(ws: Sheet, rows: nat): (k: nat)
    ensures k <= ws.maxColumn
  {
    if rows == 0 then 0 else Max(Rightmost(ws, rows - 1), LastDataCol(ws, rows, ws.maxColumn))
  }

  /** Rightmost is 0 iff no cell of the range has data; otherwise some row
      has data in that column and no row has data further right. */
  lemma {:induction false} RightmostSpec(ws: Sheet, rows: nat)
    ensures Rightmost(ws, rows) == 0 <==>
      forall r, c :: 1 <= r <= rows && 1 <= c <= ws.maxColumn ==> !HasData(ws, r, c)
    ensures Rightmost(ws, rows) > 0 ==> exists r :: 1 <= r <= rows && HasData(ws, r, Rightmost(ws, rows))
    ensures forall r, c :: 1 <= r <= rows && Rightmost(ws, rows) < c <= ws.maxColumn ==> !HasData(ws, r, c)
  {
    if rows > 0 {
      RightmostSpec(ws, rows - 1);
      LastDataColSpec(ws, rows, ws.maxColumn);
      var here := LastDataCol(ws, rows, ws.maxColumn);
      if here > 0 {
        assert HasData(ws, rows, here);
      }
    }
  }

  /** The nested scan both detectors start with: for each row, the
      columns from max_column down to the first with data. */
  method RightmostColumn(ws: Sheet, rows: nat) returns (rightmost: nat)
    ensures rightmost == Rightmost(ws, rows)
  {
    rightmost := 0;
    var rowIdx := 1;
    while rowIdx <= rows
      invariant 1 <= rowIdx <= rows + 1
      invariant rightmost == Rightmost(ws, rowIdx - 1)
    {
      var colIdx: nat := ws.maxColumn;
      while colIdx > 0
        invariant colIdx <= ws.maxColumn
        invariant LastDataCol(ws, rowIdx, ws.maxColumn) == LastDataCol(ws, rowIdx, colIdx)
      {
        if HasData(ws, rowIdx, colIdx) {
          if colIdx > rightmost {
            rightmost := colIdx;
          }
          break;
        }
        colIdx := colIdx - 1;
      }
      rowIdx := rowIdx + 1;
    }
  }

  /** The first row from r on, up to max_row, with data in column c;
      1 when there is none. */
  function FirstWithData(ws: Sheet, c: nat, r: nat): (h: nat)
    requires r >= 1
    ensures h >= 1
    decreases ws.maxRow + 1 - r
  {
    if r > ws.maxRow then 1
    else if HasData(ws, r, c) then r
    else FirstWithData(ws, c, r + 1)
  }

  /** The header row of a sheet: the first row with data in the rightmost
      column that has data anywhere, or 1 when the sheet holds no data. */
  function HeaderRow(ws: Sheet): (h: nat)
    ensures h >= 1
  {
    if ws.maxRow == 0 || Rightmost(ws, ws.maxRow) == 0 then 1
    else FirstWithData(ws, Rightmost(ws, ws.maxRow), 1)
  }

  lemma {:induction false} FirstWithDataSpec(ws: Sheet, c: nat, r: nat)
    requires 1 <= r
    requires exists q :: r <= q <= ws.maxRow && HasData(ws, q, c)
    ensures r <= FirstWithData(ws, c, r) <= ws.maxRow
    ensures HasData(ws, FirstWithData(ws, c, r), c)
    ensures forall q :: r <= q < FirstWithData(ws, c, r) ==> !HasData(ws, q, c)
    decreases ws.maxRow + 1 - r
  {
    if !HasData(ws, r, c) {
      var q :| r <= q <= ws.maxRow && HasData(ws, q, c);
      assert r < q;
      FirstWithDataSpec(ws, c, r + 1);
      var h := FirstWithData(ws, c, r + 1);
      assert FirstWithData(ws, c, r) == h;
      forall q | r <= q < h ensures !HasData(ws, q, c) {
        if q == r {
          assert !HasData(ws, r, c);
        }
      }
    }
  }

  /** The header row holds data in the rightmost data column, and no row
      above it does; a sheet without data has its header in row 1. */
  lemma HeaderRowSpec(ws: Sheet)
    ensures ws.maxRow == 0 || Rightmost(ws, ws.maxRow) == 0 ==> HeaderRow(ws) == 1
    ensures ws.maxRow > 0 && Rightmost(ws, ws.maxRow) > 0 ==>
      && 1 <= HeaderRow(ws) <= ws.maxRow
      && HasData(ws, HeaderRow(ws), Rightmost(ws, ws.maxRow))
      && forall r :: 1 <= r < HeaderRow(ws) ==> !HasData(ws, r, Rightmost(ws, ws.maxRow))
  {
    if ws.maxRow > 0 && Rightmost(ws, ws.maxRow) > 0 {
      RightmostSpec(ws, ws.maxRow);
      FirstWithDataSpec(ws, Rightmost(ws, ws.maxRow), 1);
    }
  }

  /** detect_header_row, computing HeaderRow. */
  method DetectHeaderRow(ws: Sheet) returns (headerRow: nat)
    ensures headerRow == HeaderRow(ws)
  {
    headerRow := 1;
    if ws.maxRow == 0 {
      return;
    }
    var rightmost := RightmostColumn(ws, ws.maxRow);
    if rightmost == 0 {
      return;
    }
    var rowIdx := 1;
    while rowIdx <= ws.maxRow
      invariant 1 <= rowIdx <= ws.maxRow + 1
      invariant FirstWithData(ws, rightmost, rowIdx) == HeaderRow(ws)
    {
      if HasData(ws, rowIdx, rightmost) {
        return rowIdx;
      }
      rowIdx := rowIdx + 1;
    }
  }

  /** Row r has data in column c and lies within max_row. */
  predicate DataWithin(ws: Sheet, r: int, c: nat)
  {
    0 <= r <= ws.maxRow && HasData(ws, r, c)
  }

  /** Row r ends the table: it has data in column c and the next
      `tolerance` rows have none (rows past max_row count as empty). */
  predicate Quiet(ws: Sheet, c: nat, r: nat, tolerance: int)
  {
    HasData(ws, r, c) && tolerance >= 0 && forall q :: r < q <= r + tolerance ==> !DataWithin(ws, q, c)
  }

  /** The tolerance look-ahead: count empty rows after `row` until one
      with data; all `tolerance` of them empty iff the row is quiet. */
  method CountEmptyAfter(ws: Sheet, c: nat, row: nat, tolerance: int) returns (emptyRows: int)
    requires HasData(ws, row, c)
    ensures emptyRows == tolerance <==> Quiet(ws, c, row, tolerance)
  {
    emptyRows := 0;
    var offset := 1;
    while offset <= tolerance
      invariant 1 <= offset && (offset <= tolerance + 1 || offset == 1)
      invariant emptyRows == offset - 1
      invariant forall q :: row < q < row + offset ==> !DataWithin(ws, q, c)
    {
      var checkRow := row + offset;
      if checkRow <= ws.maxRow {
        if !HasData(ws, checkRow, c) {
          emptyRows := emptyRows + 1;
        } else {
          assert DataWithin(ws, row + offset, c);
          return;
        }
      } else {
        emptyRows := emptyRows + 1;
      }
      offset := offset + 1;
    }
  }

  /** With R the rightmost column with data, endRow is the first row
      from the header on that has data in R and is followed by `tolerance`
      empty rows; failing that the last row with data in R; failing that
      the header row. */
  predicate IsTableEnd(ws: Sheet, headerRow: nat, tolerance: int, endRow: nat)
  {
    if ws.maxRow == 0 || Rightmost(ws, ws.maxRow) == 0 then endRow == headerRow
    else
      var c := Rightmost(ws, ws.maxRow);
      if exists r :: headerRow <= r <= ws.maxRow && Quiet(ws, c, r, tolerance) then
        && headerRow <= endRow <= ws.maxRow && Quiet(ws, c, endRow, tolerance)
        && forall r :: headerRow <= r < endRow ==> !Quiet(ws, c, r, tolerance)
      else
        && endRow >= headerRow
        && (endRow > headerRow ==> endRow <= ws.maxRow && HasData(ws, endRow, c))
        && forall r :: endRow < r <= ws.maxRow ==> !HasData(ws, r, c)
  }

  /** At most one row ends the table. */
  lemma TableEndUnique(ws: Sheet, headerRow: nat, tolerance: int, e1: nat, e2: nat)
    requires IsTableEnd(ws, headerRow, tolerance, e1) && IsTableEnd(ws, headerRow, tolerance, e2)
    ensures e1 == e2
  {
    if ws.maxRow != 0 && Rightmost(ws, ws.maxRow) != 0 {
      var c := Rightmost(ws, ws.maxRow);
      if exists r :: headerRow <= r <= ws.maxRow && Quiet(ws, c, r, tolerance) {
        // Both ends are quiet and neither has a quiet row before it, so
        // neither lies before the other.
        assert Quiet(ws, c, e1, tolerance) && Quiet(ws, c, e2, tolerance);
      } else {
        // Each end is the header row or a row with data in column c, and no
        // row after either has data there, so neither lies after the other.
        assert e1 > headerRow ==> HasData(ws, e1, c);
        assert e2 > headerRow ==> HasData(ws, e2, c);
      }
    }
  }

  /** detect_table_end_row. */
  method DetectTableEndRow(ws: Sheet, headerRow: nat, tolerance: int) returns (endRow: nat)
    ensures IsTableEnd(ws, headerRow, tolerance, endRow)
  {
    if ws.maxRow == 0 {
      return headerRow;
    }
    var rightmost := RightmostColumn(ws, ws.maxRow);
    if rightmost == 0 {
      return headerRow;
    }
    endRow := headerRow;
    var rowIdx := headerRow;
    while rowIdx <= ws.maxRow
      invariant headerRow <= rowIdx && (rowIdx <= ws.maxRow + 1 || rowIdx == headerRow)
      invariant forall r :: headerRow <= r < rowIdx ==> !Quiet(ws, rightmost, r, tolerance)
      invariant headerRow <= endRow && (endRow < rowIdx || endRow == headerRow)
      invariant endRow > headerRow ==> HasData(ws, endRow, rightmost)
      invariant forall r :: endRow < r < rowIdx ==> !HasData(ws, r, rightmost)
    {
      if HasData(ws, rowIdx, rightmost) {
        var emptyRows := CountEmptyAfter(ws, rightmost, rowIdx, tolerance);
        if emptyRows == tolerance {
          return rowIdx;
        }
        endRow := rowIdx;
      }
      rowIdx := rowIdx + 1;
    }
  }
}
