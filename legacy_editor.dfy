/** The older "apply target format" editor of excel/editor.go: every
    cell of the target sheet's range that holds a formula or a value is
    copied to the same A1 address of the edited sheet, and empty target
    cells leave the edited sheet as it is. It shares the cell model and
    the Editor of module ExcelEditor, whose Save and SaveAs are the same
    in both packages. */
module LegacyEditor {
  import opened Text
  import opened ExcelEditor

  /** The target sheet as ApplyTargetFormat reads it: its rows (None when
      the sheet cannot be read), the formulas and the displayed values of
      its cells, and the cells whose formula or value cannot be read. */
  datatype TargetCells = TargetCells(
    rows: Option<seq<seq<string>>>,
    formulas: map<Address, string>,
    values: map<Address, string>,
    formulaUnreadable: set<Address>,
    valueUnreadable: set<Address>)

  function ValueAt(t: TargetCells, a: Address): string
  {
    if a in t.values then t.values[a] else ""
  }

  function TargetFormulaAt(t: TargetCells, a: Address): string
  {
    if a in t.formulas then t.formulas[a] else ""
  }

  /** The widest of the first n rows (0 for n == 0). */
  function MaxWidth(rows: seq<seq<string>>, n: nat): (w: nat)
    requires n <= |rows|
  {
    if n == 0 then 0
    else if |rows[n - 1]| > MaxWidth(rows, n - 1) then |rows[n - 1]|
    else MaxWidth(rows, n - 1)
  }

  /** MaxWidth is the running prefix maximum: no row among the first n is
      wider, and for n > 0 one of them is exactly that wide. */
  lemma {:induction false} MaxWidthSpec(rows: seq<seq<string>>, n: nat)
    requires n <= |rows|
    ensures forall i :: 0 <= i < n ==> |rows[i]| <= MaxWidth(rows, n)
    ensures n > 0 ==> exists i :: 0 <= i < n && |rows[i]| == MaxWidth(rows, n)
    ensures n == 0 ==> MaxWidth(rows, n) == 0
  {
    if n > 0 {
      MaxWidthSpec(rows, n - 1);
    }
  }

  /** A1 row r (1-based) is visited in columns 0..MaxWidth(rows, r)-1. */
  predicate Visited(rows: seq<seq<string>>, a: Address)
  {
    1 <= a.row <= |rows| && a.col < MaxWidth(rows, a.row)
  }

  /** What ApplyTargetFormat writes at a visited address: the formula if
      there is one, else the value if it is non-empty; nothing for an
      empty cell or a cell that cannot be read. */
  function Copied(t: TargetCells, a: Address): Option<Cell>
  {
    if a in t.formulaUnreadable then None
    else if TargetFormulaAt(t, a) != "" then Some(FormulaCell(TargetFormulaAt(t, a)))
    else if a in t.valueUnreadable then None
    else if ValueAt(t, a) != "" then Some(ValueCell(TextValue(ValueAt(t, a)), false))
    else None
  }

  /** The edited sheet after ApplyTargetFormat. */
  function Applied(t: TargetCells, rows: seq<seq<string>>, before: Cells, a: Address): Option<Cell>
  {
    if Visited(rows, a) then Override(Copied(t, a), Get(before, a)) else Get(before, a)
  }

  /** The inner loop that computes maxCols for target row `rowIndex`. */
  method RowRangeWidth(rows: seq<seq<string>>, rowIndex: nat) returns (maxCols: nat)
    requires rowIndex < |rows|
    ensures maxCols == MaxWidth(rows, rowIndex + 1)
  {
    maxCols := 0;
    var i := 0;
    while i <= rowIndex && i < |rows|
      invariant i <= rowIndex + 1
      invariant maxCols == MaxWidth(rows, i)
    {
      if |rows[i]| > maxCols {
        maxCols := |rows[i]|;
      }
      i := i + 1;
    }
  }

  /** Nothing in the visited range has contents to copy. */
  ghost predicate NoCopies(t: TargetCells, rows: seq<seq<string>>)
  {
    forall a :: Visited(rows, a) ==> Copied(t, a).None?
  }

  /** `b` comes before `a` in the row-by-row, left-to-right visit. */
  predicate VisitedBefore(b: Address, a: Address)
  {
    b.row < a.row || (b.row == a.row && b.col < a.col)
  }

  /** The error of writing `c` at `a` into a sheet the edited workbook
      does not have. */
  function WriteFailure(c: Cell, a: Address): string
  {
    if c.FormulaCell? then "failed to set formula in cell " + A1(a)
    else "failed to set value in cell " + A1(a)
  }

  /** `error` is the write failure of the first visited cell that has
      contents to copy. */
  ghost predicate FirstWriteFails(t: TargetCells, rows: seq<seq<string>>, error: string)
  {
    exists a :: Visited(rows, a) && Copied(t, a).Some? && error == WriteFailure(Copied(t, a).value, a)
                && forall b :: Visited(rows, b) && VisitedBefore(b, a) ==> Copied(t, b).None?
  }

  /** The column loop for one target row (1-based `row`). Writing into a sheet the edited
      workbook does not have (`sheetExists` false) fails at the first
      cell with contents to copy, and nothing is written. */
  method ApplyRow(e: Editor, t: TargetCells, row: nat, maxCols: nat, sheetExists: bool)
    returns (failure: Option<string>)
    modifies e
    ensures sheetExists ==> failure.None? && forall a ::
      Get(e.cells, a) ==
        if a.row == row && a.col < maxCols then Override(Copied(t, a), Get(old(e.cells), a))
        else Get(old(e.cells), a)
    ensures !sheetExists ==> e.cells == old(e.cells)
    ensures !sheetExists ==> (failure.None? <==> forall c: nat :: c < maxCols ==> Copied(t, Address(c, row)).None?)
    ensures failure.Some? ==> exists c: nat ::
      && c < maxCols && Copied(t, Address(c, row)).Some?
      && failure.value == WriteFailure(Copied(t, Address(c, row)).value, Address(c, row))
      && forall c': nat :: c' < c ==> Copied(t, Address(c', row)).None?
    ensures e.filepath == old(e.filepath)
  {
    var colIndex := 0;
    while colIndex < maxCols
      invariant colIndex <= maxCols
      invariant sheetExists ==> forall a ::
        Get(e.cells, a) ==
          if a.row == row && a.col < colIndex then Override(Copied(t, a), Get(old(e.cells), a))
          else Get(old(e.cells), a)
      invariant !sheetExists ==> e.cells == old(e.cells)
      invariant !sheetExists ==> forall c: nat :: c < colIndex ==> Copied(t, Address(c, row)).None?
      invariant e.filepath == old(e.filepath)
    {
      var cell := Address(colIndex, row);
      if cell !in t.formulaUnreadable {
        var formula := TargetFormulaAt(t, cell);
        if formula != "" {
          if !sheetExists {
            return Some(WriteFailure(FormulaCell(formula), cell));
          }
          e.SetCellFormula(cell, formula);
        } else if cell !in t.valueUnreadable {
          var value := ValueAt(t, cell);
          if value != "" {
            if !sheetExists {
              return Some(WriteFailure(ValueCell(TextValue(value), false), cell));
            }
            e.SetCellValue(cell, value);
          }
        }
      }
      colIndex := colIndex + 1;
    }
    return None;
  }

  /** ApplyTargetFormat: the target file and its rows must be readable;
      then every visited cell is merged into the edited sheet. `target`
      is None when the target file cannot be opened; `sheetExists` says
      whether the edited workbook has the sheet written to. */
  method ApplyTargetFormat(e: Editor, target: Option<TargetCells>, sheetExists: bool) returns (result: Result<()>)
    modifies e
    ensures target.None? ==> result == Err("failed to open target format file") && e.cells == old(e.cells)
    ensures target.Some? && target.value.rows.None? ==> result == Err("failed to read target sheet") && e.cells == old(e.cells)
    ensures target.Some? && target.value.rows.Some? && sheetExists ==>
      && result == Ok(())
      && forall a :: Get(e.cells, a) == Applied(target.value, target.value.rows.value, old(e.cells), a)
    ensures target.Some? && target.value.rows.Some? && !sheetExists ==>
      && e.cells == old(e.cells)
      && (result.Ok? <==> NoCopies(target.value, target.value.rows.value))
      && (result.Err? ==> FirstWriteFails(target.value, target.value.rows.value, result.error))
    ensures e.filepath == old(e.filepath)
  {
    if target.None? {
      return Err("failed to open target format file");
    }
    var t := target.value;
    if t.rows.None? {
      return Err("failed to read target sheet");
    }
    var targetRows := t.rows.value;
    var rowIndex := 0;
    while rowIndex < |targetRows|
      invariant rowIndex <= |targetRows|
      invariant sheetExists ==> forall a ::
        Get(e.cells, a) ==
          if a.row <= rowIndex then Applied(t, targetRows, old(e.cells), a) else Get(old(e.cells), a)
      invariant !sheetExists ==> e.cells == old(e.cells)
      invariant !sheetExists ==> forall a :: Visited(targetRows, a) && a.row <= rowIndex ==> Copied(t, a).None?
      invariant e.filepath == old(e.filepath)
    {
      var maxCols := RowRangeWidth(targetRows, rowIndex);
      var failure := ApplyRow(e, t, rowIndex + 1, maxCols, sheetExists);
      if failure.Some? {
        RowFailureFirst(t, targetRows, rowIndex + 1, maxCols, failure.value);
        return Err(failure.value);
      }
      rowIndex := rowIndex + 1;
    }
    return Ok(());
  }

  /** A failure at 1-based row `row`, after earlier rows copied nothing, is
      the first write of the whole visit. */
  lemma RowFailureFirst(t: TargetCells, rows: seq<seq<string>>, row: nat, maxCols: nat, error: string)
    requires 1 <= row <= |rows| && maxCols == MaxWidth(rows, row)
    requires forall a :: Visited(rows, a) && a.row < row ==> Copied(t, a).None?
    requires exists c: nat ::
      && c < maxCols && Copied(t, Address(c, row)).Some?
      && error == WriteFailure(Copied(t, Address(c, row)).value, Address(c, row))
      && forall c': nat :: c' < c ==> Copied(t, Address(c', row)).None?
    ensures FirstWriteFails(t, rows, error)
  {
    var c: nat :| && c < maxCols && Copied(t, Address(c, row)).Some?
                 && error == WriteFailure(Copied(t, Address(c, row)).value, Address(c, row))
                 && forall c': nat :: c' < c ==> Copied(t, Address(c', row)).None?;
    var a := Address(c, row);
    forall b | Visited(rows, b) && VisitedBefore(b, a) ensures Copied(t, b).None? {
      if b.row == a.row {
        assert b == Address(b.col, row);
      }
    }
    assert Visited(rows, a);
  }

  /** When nothing is copied, the merge leaves every cell as it was. */
  lemma NoCopiesApplied(t: TargetCells, rows: seq<seq<string>>, before: Cells)
    requires NoCopies(t, rows)
    ensures forall a :: Applied(t, rows, before, a) == Get(before, a)
  {
  }

  /** The error of ApplyTargetFormatToFile when saving fails. */
  function SaveFailure(error: string): string
  {
    "failed to save edited file: " + error
  }

  /** ApplyTargetFormatToFile: open (or create) the edited file, merge the
      target into it and save it in place. `edited` is None when the
      edited file cannot be opened; `editedSheets` are the sheet names of
      the opened workbook, just "Sheet1" for one created because the file
      did not exist; `writeOk` says whether the file system accepts the
      save. The result is the saved sheet. */
  method ApplyTargetFormatToFile(target: Option<TargetCells>, edited: Option<Cells>, editedFilePath: string,
                                 editedSheets: set<string>, editedSheet: string, writeOk: bool)
    returns (result: Result<Cells>)
    ensures edited.None? ==> result == Err("failed to open edited file")
    ensures edited.Some? && target.None? ==> result == Err("failed to open target format file")
    ensures edited.Some? && target.Some? && target.value.rows.None? ==> result == Err("failed to read target sheet")
    ensures edited.Some? && target.Some? && target.value.rows.Some? &&
            editedSheet !in editedSheets && !NoCopies(target.value, target.value.rows.value) ==>
      result.Err? && FirstWriteFails(target.value, target.value.rows.value, result.error)
    ensures edited.Some? && target.Some? && target.value.rows.Some? &&
            (editedSheet in editedSheets || NoCopies(target.value, target.value.rows.value)) ==>
      && (editedFilePath == "" ==> result == Err(SaveFailure(NoFilepathError)))
      && (editedFilePath != "" && !writeOk ==> result == Err(SaveFailure(WriteError(editedFilePath))))
      && (editedFilePath != "" && writeOk ==>
            result.Ok? && forall a :: Get(result.value, a) == Applied(target.value, target.value.rows.value, edited.value, a))
  {
    if edited.None? {
      return Err("failed to open edited file");
    }
    var editor := new Editor(edited.value, editedFilePath);
    var sheetExists := editedSheet in editedSheets;
    var applied := ApplyTargetFormat(editor, target, sheetExists);
    if applied.Err? {
      return Err(applied.error);
    }
    ghost var t := target.value;
    ghost var rows := t.rows.value;
    assert forall a :: Get(editor.cells, a) == Applied(t, rows, edited.value, a) by {
      if !sheetExists {
        NoCopiesApplied(t, rows, edited.value);
      }
    }
    var saved := editor.Save(writeOk);
    if saved.Err? {
      return Err(SaveFailure(saved.error));
    }
    return Ok(editor.cells);
  }

  /** No address outside the visited range is written, and inside it an
      empty target cell leaves the edited cell as it was. */
  lemma AppliedSpec(t: TargetCells, rows: seq<seq<string>>, before: Cells, a: Address)
    ensures !Visited(rows, a) ==> Applied(t, rows, before, a) == Get(before, a)
    ensures Visited(rows, a) && a !in t.formulaUnreadable && TargetFormulaAt(t, a) != "" ==>
      Applied(t, rows, before, a) == Some(FormulaCell(TargetFormulaAt(t, a)))
    ensures (Visited(rows, a) && a !in t.formulaUnreadable && TargetFormulaAt(t, a) == ""
             && a !in t.valueUnreadable && ValueAt(t, a) != "") ==>
      Applied(t, rows, before, a) == Some(ValueCell(TextValue(ValueAt(t, a)), false))
    ensures Visited(rows, a) && TargetFormulaAt(t, a) == "" && ValueAt(t, a) == "" ==>
      Applied(t, rows, before, a) == Get(before, a)
  {
  }

  /** Every cell of a row that is as wide as any row so far is visited,
      and so is every cell of an earlier row's width: a short row below a
      wide one is visited up to the wide row's width. */
  lemma VisitedRange(rows: seq<seq<string>>, i: nat, j: nat, col: nat)
    requires i <= j < |rows| && col < |rows[i]|
    ensures Visited(rows, Address(col, j + 1))
  {
    MaxWidthSpec(rows, j + 1);
  }
}
