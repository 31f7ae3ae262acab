/** The CSV export driver (internal/csv/csv_exporter.py): choosing the
    workbooks of a directory, de-duplicating sales plans and line items by
    key, appending rows to the two CSV files and keeping the tallies.
    Workbook reading is done by the extraction, whose results for a file
    are given; a CSV file is its list of rows, None while it does not
    exist. */
module CsvExporter {
  import opened Text
  import opened Dicts
  import opened Scanner

  // ---------------------------------------------------------------
  // get_excel_files

  /** The directory entries the two glob patterns match, pattern by
      pattern, in directory order. */
  function Globbed(names: seq<string>, suffix: string): (r: seq<string>)
    ensures forall n :: n in r <==> n in names && EndsWith(n, suffix)
    ensures |r| <= |names|
  {
    if names == [] then []
    else
      var rest := Globbed(names[..|names| - 1], suffix);
      var last := names[|names| - 1];
      assert names == names[..|names| - 1] + [last];
      if EndsWith(last, suffix) then rest + [last] else rest
  }

  /** A temporary Excel lock file. */
  predicate IsLockFile(name: string)
  {
    StartsWith(name, "~$")
  }

  /** The files get_excel_files keeps, before sorting. */
  function ExcelNames(names: seq<string>): seq<string>
  {
    Globbed(names, ".xlsx") + Globbed(names, ".xls")
  }

  /** Drops the lock files, keeping the order. */
  function DropLockFiles(files: seq<string>): (r: seq<string>)
    ensures forall n :: n in r <==> n in files && !IsLockFile(n)
  {
    if files == [] then []
    else
      var rest := DropLockFiles(files[..|files| - 1]);
      var last := files[|files| - 1];
      assert files == files[..|files| - 1] + [last];
      if IsLockFile(last) then rest else rest + [last]
  }

  /** No name ends in both ".xlsx" and ".xls". */
  lemma SuffixesDisjoint(n: string)
    ensures !(EndsWith(n, ".xlsx") && EndsWith(n, ".xls"))
  {
    if EndsWith(n, ".xlsx") {
      assert n[|n| - 1] == n[|n| - 5..][4] == 'x';
      assert n[|n| - 4..][3] == n[|n| - 1] != 's';
    }
  }

  /** No name occurs twice. */
  predicate Distinct(xs: seq<string>)
  {
    forall i, j :: 0 <= i < j < |xs| ==> xs[i] != xs[j]
  }

  /** A filtered list of distinct names has distinct names. */
  lemma {:induction false} GlobbedDistinct(names: seq<string>, suffix: string)
    requires Distinct(names)
    ensures Distinct(Globbed(names, suffix))
  {
    if names != [] {
      var init := names[..|names| - 1];
      var last := names[|names| - 1];
      GlobbedDistinct(init, suffix);
      assert last !in init;
      var rest := Globbed(init, suffix);
      var r := Globbed(names, suffix);
      if EndsWith(last, suffix) {
        assert r == rest + [last];
        forall i, j | 0 <= i < j < |r| ensures r[i] != r[j] {
          if j == |rest| {
            assert r[i] == rest[i] && rest[i] in rest;
          } else {
            assert r[i] == rest[i] && r[j] == rest[j];
          }
        }
      } else {
        assert r == rest;
      }
    }
  }

  lemma {:induction false} DropLockFilesDistinct(files: seq<string>)
    requires Distinct(files)
    ensures Distinct(DropLockFiles(files))
  {
    if files != [] {
      var init := files[..|files| - 1];
      var last := files[|files| - 1];
      DropLockFilesDistinct(init);
      assert last !in init;
      var rest := DropLockFiles(init);
      var r := DropLockFiles(files);
      if !IsLockFile(last) {
        assert r == rest + [last];
        forall i, j | 0 <= i < j < |r| ensures r[i] != r[j] {
          if j == |rest| {
            assert r[i] == rest[i] && rest[i] in rest;
          } else {
            assert r[i] == rest[i] && r[j] == rest[j];
          }
        }
      } else {
        assert r == rest;
      }
    }
  }

  /** The files the two globs find have distinct names. */
  lemma ExcelNamesDistinct(names: seq<string>)
    requires Distinct(names)
    ensures Distinct(ExcelNames(names))
  {
    var xlsx := Globbed(names, ".xlsx");
    var xls := Globbed(names, ".xls");
    var r := ExcelNames(names);
    GlobbedDistinct(names, ".xlsx");
    GlobbedDistinct(names, ".xls");
    forall i, j | 0 <= i < j < |r| ensures r[i] != r[j] {
      if i < |xlsx| <= j {
        assert r[i] == xlsx[i] && r[j] == xls[j - |xlsx|];
        assert r[i] in xlsx && r[j] in xls;
        assert EndsWith(r[i], ".xlsx") && EndsWith(r[j], ".xls");
        SuffixesDisjoint(r[i]);
      } else if j < |xlsx| {
        assert r[i] == xlsx[i] && r[j] == xlsx[j];
      } else {
        assert r[i] == xls[i - |xlsx|] && r[j] == xls[j - |xlsx|];
      }
    }
  }

  /** The glob loop of get_excel_files: "*.xlsx" then "*.xls". */
  method GlobExcel(names: seq<string>) returns (excelFiles: seq<string>)
    ensures excelFiles == ExcelNames(names)
  {
    excelFiles := [];
    var patterns := [".xlsx", ".xls"];
    var p := 0;
    while p < |patterns|
      invariant 0 <= p <= |patterns|
      invariant excelFiles == if p == 0 then [] else if p == 1 then Globbed(names, ".xlsx") else ExcelNames(names)
    {
      var matched: seq<string> := [];
      var i := 0;
      while i < |names|
        invariant 0 <= i <= |names|
        invariant matched == Globbed(names[..i], patterns[p])
      {
        assert names[..i + 1][..i] == names[..i];
        if EndsWith(names[i], patterns[p]) {
          matched := matched + [names[i]];
        }
        i := i + 1;
      }
      assert names[..i] == names;
      excelFiles := excelFiles + matched;
      p := p + 1;
    }
  }

  /** The filter of get_excel_files that drops Excel's "~$" lock files. */
  method FilterLockFiles(excelFiles: seq<string>) returns (kept: seq<string>)
    ensures kept == DropLockFiles(excelFiles)
  {
    kept := [];
    var k := 0;
    while k < |excelFiles|
      invariant 0 <= k <= |excelFiles|
      invariant kept == DropLockFiles(excelFiles[..k])
    {
      assert excelFiles[..k + 1][..k] == excelFiles[..k];
      if !IsLockFile(excelFiles[k]) {
        kept := kept + [excelFiles[k]];
      }
      k := k + 1;
    }
    assert excelFiles[..k] == excelFiles;
  }

  /** get_excel_files. `names` are the directory's entries, which are
      distinct: the result holds each entry ending in ".xlsx" or ".xls" and
      not starting with "~$", once, in ascending order of name. */
  method GetExcelFiles(names: seq<string>) returns (files: seq<string>)
    requires Distinct(names)
    ensures StrictlySorted(files)
    ensures multiset(files) == multiset(DropLockFiles(ExcelNames(names)))
    ensures forall n :: n in files <==> n in names && (EndsWith(n, ".xlsx") || EndsWith(n, ".xls")) && !IsLockFile(n)
  {
    var excelFiles := GlobExcel(names);
    var kept := FilterLockFiles(excelFiles);
    ExcelNamesDistinct(names);
    DropLockFilesDistinct(excelFiles);
    files := SortStrings(kept);
    forall n ensures n in files <==> n in kept {
      assert n in files <==> n in multiset(files);
    }
  }

  // ---------------------------------------------------------------
  // csv.DictWriter, as append_*_to_csv use it

  /** One row as DictWriter writes it: the value of each column in column
      order, "" for a column the dict lacks; None when the dict has a key
      that is not a column, on which writerow raises. */
  function RowOf(columns: seq<string>, d: Dict<string>): (r: Option<seq<string>>)
    ensures r.None? <==> exists k :: k in d.entries && k !in columns
    ensures r.Some? ==> (|r.value| == |columns| &&
      forall i :: 0 <= i < |columns| ==>
        r.value[i] == if columns[i] in d.entries then d.entries[columns[i]] else "")
  {
    if exists k :: k in d.entries && k !in columns then None
    else Some(seq(|columns|, i requires 0 <= i < |columns| =>
                              if columns[i] in d.entries then d.entries[columns[i]] else ""))
  }

  /** The outcome of writing rows in turn: the rows written before the
      first failing one, and whether one failed. */
  datatype Written = Written(rows: seq<seq<string>>, failed: bool)

  function WriteRows(columns: seq<string>, dicts: seq<Dict<string>>): Written
  {
    if dicts == [] then Written([], false)
    else
      var before := WriteRows(columns, dicts[..|dicts| - 1]);
      if before.failed then before
      else match RowOf(columns, dicts[|dicts| - 1])
        case None => Written(before.rows, true)
        case Some(row) => Written(before.rows + [row], false)
  }

  /** Writing fails exactly when some dict has a key that is not a column;
      otherwise each dict gives one row, in order. */
  lemma {:induction false} WriteRowsSpec(columns: seq<string>, dicts: seq<Dict<string>>)
    ensures var w := WriteRows(columns, dicts);
      && (w.failed <==> exists i :: 0 <= i < |dicts| && RowOf(columns, dicts[i]).None?)
      && (!w.failed ==> (|w.rows| == |dicts| &&
            forall i :: 0 <= i < |dicts| ==> RowOf(columns, dicts[i]) == Some(w.rows[i])))
  {
    if dicts != [] {
      var init := dicts[..|dicts| - 1];
      WriteRowsSpec(columns, init);
      assert forall i :: 0 <= i < |init| ==> init[i] == dicts[i];
    }
  }

  /** Once a row has failed, the later rows change nothing. */
  lemma {:induction false} WriteRowsFailedStays(columns: seq<string>, dicts: seq<Dict<string>>, k: nat)
    requires k <= |dicts| && WriteRows(columns, dicts[..k]).failed
    ensures WriteRows(columns, dicts) == WriteRows(columns, dicts[..k])
    decreases |dicts| - k
  {
    if k < |dicts| {
      assert dicts[..k + 1][..k] == dicts[..k];
      WriteRowsFailedStays(columns, dicts, k + 1);
    } else {
      assert dicts[..k] == dicts;
    }
  }

  /** The writer loop of append_lineitems_to_csv (and the single row of
      append_salesplan_to_csv): rows go out in order and the first dict
      with a key that is not a column stops it. */
  method AppendRows(columns: seq<string>, dicts: seq<Dict<string>>) returns (w: Written)
    ensures w == WriteRows(columns, dicts)
  {
    var rows: seq<seq<string>> := [];
    var i := 0;
    while i < |dicts|
      invariant 0 <= i <= |dicts|
      invariant WriteRows(columns, dicts[..i]) == Written(rows, false)
    {
      assert dicts[..i + 1][..i] == dicts[..i];
      var row := RowOf(columns, dicts[i]);
      if row.None? {
        WriteRowsFailedStays(columns, dicts, i + 1);
        return Written(rows, true);
      }
      rows := rows + [row.value];
      i := i + 1;
    }
    assert dicts[..i] == dicts;
    return Written(rows, false);
  }

  /** A CSV file after an append: unchanged when it cannot be opened;
      otherwise a new file starts with the header row, and the rows written
      follow. `ok` is false when the append raised. */
  datatype CsvAppend = CsvAppend(file: Option<seq<seq<string>>>, ok: bool)

  function AppendCsv(file: Option<seq<seq<string>>>, columns: seq<string>, dicts: seq<Dict<string>>,
                     writable: bool): CsvAppend
  {
    if !writable then CsvAppend(file, false)
    else
      var w := WriteRows(columns, dicts);
      CsvAppend(Some((if file.None? then [columns] else file.value) + w.rows), !w.failed)
  }

  /** The header rule: the header row is written iff the file did not
      exist, and an existing file only grows at its end; a successful
      append adds one row per dict. */
  lemma AppendCsvSpec(file: Option<seq<seq<string>>>, columns: seq<string>, dicts: seq<Dict<string>>, writable: bool)
    ensures var a := AppendCsv(file, columns, dicts, writable);
      && (!writable ==> a == CsvAppend(file, false))
      && (writable && file.None? ==> a.file.Some? && |a.file.value| >= 1 && a.file.value[0] == columns)
      && (writable && file.Some? ==> a.file.Some? && |a.file.value| >= |file.value| && a.file.value[..|file.value|] == file.value)
      && (writable && a.ok ==> |a.file.value| == (if file.None? then 1 else |file.value|) + |dicts|)
  {
    WriteRowsSpec(columns, dicts);
  }

  // ---------------------------------------------------------------
  // process_excel_file

  /** dict[key], which raises KeyError when the key is missing. */
  function Lookup(d: Dict<string>, key: string): (r: Result<string>)
    ensures r.Ok? <==> key in d.entries
    ensures r.Ok? ==> r.value == d.entries[key]
  {
    if key in d.entries then Ok(d.entries[key]) else Err("'" + key + "'")
  }

  /** The de-duplication key of a sales plan: "SourceFile|ActivityType". */
  function SalesplanKey(salesplan: Dict<string>): Result<string>
  {
    match Lookup(salesplan, "SourceFile")
    case Err(e) => Err(e)
    case Ok(source) =>
      match Lookup(salesplan, "ActivityType")
      case Err(e) => Err(e)
      case Ok(activity) => Ok(source + "|" + activity)
  }

  /** The de-duplication key of a line item: "SalesPlanID|ProductBarcode",
      with "" for a missing barcode. */
  function LineItemKey(item: Dict<string>): Result<string>
  {
    match Lookup(item, "SalesPlanID")
    case Err(e) => Err(e)
    case Ok(id) => Ok(id + "|" + (if "ProductBarcode" in item.entries then item.entries["ProductBarcode"] else ""))
  }

  /** The state of the line-item filter: the new items kept, the keys
      seen, the duplicates skipped, and the error that stopped it. */
  datatype Dedup = Dedup(kept: seq<Dict<string>>, seen: set<string>, skipped: nat, error: Option<string>)

  function DedupItems(existing: set<string>, items: seq<Dict<string>>): Dedup
  {
    if items == [] then Dedup([], existing, 0, None)
    else
      var before := DedupItems(existing, items[..|items| - 1]);
      var item := items[|items| - 1];
      if before.error.Some? then before
      else match LineItemKey(item)
        case Err(e) => Dedup(before.kept, before.seen, before.skipped, Some(e))
        case Ok(key) =>
          if key in before.seen then Dedup(before.kept, before.seen, before.skipped + 1, None)
          else Dedup(before.kept + [item], before.seen + {key}, before.skipped, None)
  }

  /** The keys of the items that have one. */
  function ItemKeys(items: seq<Dict<string>>): (keys: set<string>)
    ensures forall i :: 0 <= i < |items| && LineItemKey(items[i]).Ok? ==> LineItemKey(items[i]).value in keys
    ensures forall k :: k in keys ==> exists i :: 0 <= i < |items| && LineItemKey(items[i]) == Ok(k)
  {
    if items == [] then {}
    else
      var init := items[..|items| - 1];
      var last := items[|items| - 1];
      assert forall i :: 0 <= i < |init| ==> init[i] == items[i];
      ItemKeys(init) + (if LineItemKey(last).Ok? then {LineItemKey(last).value} else {})
  }

  /** The filter stops on an error exactly when some item has no key. */
  lemma {:induction false} DedupError(existing: set<string>, items: seq<Dict<string>>)
    ensures DedupItems(existing, items).error.None? <==> forall i :: 0 <= i < |items| ==> LineItemKey(items[i]).Ok?
  {
    if items != [] {
      var init := items[..|items| - 1];
      DedupError(existing, init);
      assert forall i :: 0 <= i < |init| ==> init[i] == items[i];
    }
  }

  /** Every item is kept or skipped, and the seen keys are the keys known
      before and those of the items, when no item lacks a key. */
  lemma {:induction false} DedupCounts(existing: set<string>, items: seq<Dict<string>>)
    requires DedupItems(existing, items).error.None?
    ensures var d := DedupItems(existing, items);
      |d.kept| + d.skipped == |items| && d.seen == existing + ItemKeys(items)
  {
    if items != [] {
      DedupCounts(existing, items[..|items| - 1]);
    }
  }

  /** `idx` picks, at increasing positions of `items`, the elements of `sub`:
      `sub` is a subsequence of `items`, in the same order. */
  ghost predicate Embeds(idx: seq<int>, sub: seq<Dict<string>>, items: seq<Dict<string>>)
  {
    && |idx| == |sub|
    && (forall i :: 0 <= i < |idx| ==> 0 <= idx[i] < |items| && sub[i] == items[idx[i]])
    && (forall i, j :: 0 <= i < j < |idx| ==> idx[i] < idx[j])
  }

  /** The kept items come from the list, their keys are new and distinct,
      and the seen keys only grow. */
  lemma {:induction false} DedupKept(existing: set<string>, items: seq<Dict<string>>)
    ensures var d := DedupItems(existing, items);
      && existing <= d.seen
      && (forall i :: 0 <= i < |d.kept| ==> d.kept[i] in items && LineItemKey(d.kept[i]).Ok?)
      && (forall i :: 0 <= i < |d.kept| ==> LineItemKey(d.kept[i]).value in d.seen - existing)
      && (forall i, j :: 0 <= i < j < |d.kept| ==> LineItemKey(d.kept[i]).value != LineItemKey(d.kept[j]).value)
  {
    if items != [] {
      var init := items[..|items| - 1];
      var item := items[|items| - 1];
      DedupKept(existing, init);
      var before := DedupItems(existing, init);
      assert forall x :: x in init ==> x in items;
      if before.error.None? && LineItemKey(item).Ok? && LineItemKey(item).value !in before.seen {
        var kept := before.kept + [item];
        forall i, j | 0 <= i < j < |kept|
          ensures LineItemKey(kept[i]).value != LineItemKey(kept[j]).value
        {
          if j == |kept| - 1 {
            assert LineItemKey(kept[i]).value in before.seen;
          }
        }
      }
    }
  }

  /** The kept items keep the order they have in the list: they sit at
      increasing positions of it. */
  lemma {:induction false} DedupKeptInOrder(existing: set<string>, items: seq<Dict<string>>)
    ensures exists idx :: Embeds(idx, DedupItems(existing, items).kept, items)
  {
    if items == [] {
      assert DedupItems(existing, items).kept == [];
      assert Embeds([], [], items);
    } else {
      var init := items[..|items| - 1];
      DedupKeptInOrder(existing, init);
      var before := DedupItems(existing, init);
      var idx :| Embeds(idx, before.kept, init);
      if DedupItems(existing, items).kept == before.kept {
        assert Embeds(idx, before.kept, items);
      } else {
        // The new item sits after every position already picked.
        assert Embeds(idx + [|items| - 1], before.kept + [items[|items| - 1]], items);
      }
    }
  }

  /** The exporter: the column lists of the two CSV files, the CSV files
      themselves, the tallies, and the two de-duplication key sets that
      export_to_csv loads and process_excel_file adds to. */
  class Exporter {
    const salesplanColumns: seq<string>
    const lineitemColumns: seq<string>
    var salesplansCsv: Option<seq<seq<string>>>
    var lineitemsCsv: Option<seq<seq<string>>>
    var filesProcessed: int
    var filesFailed: int
    var salesplansCreated: int
    var lineitemsCreated: int
    var duplicatesSkipped: int
    var unmappedValues: int
    var existingSalesplans: set<string>
    var existingLineitems: set<string>

    /** All tallies start at 0. */
    constructor(salesplanColumns: seq<string>, lineitemColumns: seq<string>,
                salesplansCsv: Option<seq<seq<string>>>, lineitemsCsv: Option<seq<seq<string>>>)
      ensures this.salesplanColumns == salesplanColumns && this.lineitemColumns == lineitemColumns
      ensures this.salesplansCsv == salesplansCsv && this.lineitemsCsv == lineitemsCsv
      ensures filesProcessed == 0 && filesFailed == 0 && salesplansCreated == 0
      ensures lineitemsCreated == 0 && duplicatesSkipped == 0 && unmappedValues == 0
      ensures existingSalesplans == {} && existingLineitems == {}
    {
      this.salesplanColumns := salesplanColumns;
      this.lineitemColumns := lineitemColumns;
      this.salesplansCsv := salesplansCsv;
      this.lineitemsCsv := lineitemsCsv;
      filesProcessed := 0;
      filesFailed := 0;
      salesplansCreated := 0;
      lineitemsCreated := 0;
      duplicatesSkipped := 0;
      unmappedValues := 0;
      existingSalesplans := {};
      existingLineitems := {};
    }

    /** append_salesplan_to_csv; false when it raised. */
    method AppendSalesplanToCsv(salesplan: Dict<string>, writable: bool) returns (ok: bool)
      modifies this`salesplansCsv
      ensures AppendCsv(old(salesplansCsv), salesplanColumns, [salesplan], writable) == CsvAppend(salesplansCsv, ok)
    {
      if !writable {
        return false;
      }
      var writeHeader := salesplansCsv.None?;
      var file := if writeHeader then [salesplanColumns] else salesplansCsv.value;
      var w := AppendRows(salesplanColumns, [salesplan]);
      salesplansCsv := Some(file + w.rows);
      return !w.failed;
    }

    /** append_lineitems_to_csv; false when it raised. */
    method AppendLineitemsToCsv(items: seq<Dict<string>>, writable: bool) returns (ok: bool)
      modifies this`lineitemsCsv
      ensures AppendCsv(old(lineitemsCsv), lineitemColumns, items, writable) == CsvAppend(lineitemsCsv, ok)
    {
      if !writable {
        return false;
      }
      var writeHeader := lineitemsCsv.None?;
      var file := if writeHeader then [lineitemColumns] else lineitemsCsv.value;
      var w := AppendRows(lineitemColumns, items);
      lineitemsCsv := Some(file + w.rows);
      return !w.failed;
    }

    /** The filter loop of process_excel_file: new keys join the seen set
        as they are met, duplicates are counted, and a line item without a
        SalesPlanID raises with the earlier effects kept. */
    method FilterLineItems(items: seq<Dict<string>>) returns (newItems: seq<Dict<string>>, error: Option<string>)
      modifies this`existingLineitems, this`duplicatesSkipped
      ensures var d := DedupItems(old(existingLineitems), items);
        && newItems == d.kept && error == d.error && existingLineitems == d.seen
        && duplicatesSkipped == old(duplicatesSkipped) + d.skipped
      ensures old(existingLineitems) <= existingLineitems
    {
      DedupKept(existingLineitems, items);
      newItems := [];
      error := None;
      var i := 0;
      while i < |items|
        invariant 0 <= i <= |items|
        invariant duplicatesSkipped >= old(duplicatesSkipped)
        invariant DedupItems(old(existingLineitems), items[..i])
          == Dedup(newItems, existingLineitems, duplicatesSkipped - old(duplicatesSkipped), None)
      {
        assert items[..i + 1][..i] == items[..i];
        var key := LineItemKey(items[i]);
        if key.Err? {
          assert DedupItems(old(existingLineitems), items[..i + 1]).error.Some?;
          DedupFailedStays(old(existingLineitems), items, i + 1);
          return newItems, Some(key.error);
        }
        if key.value !in existingLineitems {
          newItems := newItems + [items[i]];
          existingLineitems := existingLineitems + {key.value};
        } else {
          duplicatesSkipped := duplicatesSkipped + 1;
        }
        i := i + 1;
      }
      assert items[..i] == items;
    }

    /** process_excel_file, given what the extraction returns for the file
        (each may raise). Returns the error it raised, if any; the effects
        made before a raise stay. */
    method ProcessExcelFile(salesplan: Result<Dict<string>>, lineitems: Result<seq<Dict<string>>>,
                            salesplansWritable: bool, lineitemsWritable: bool)
      returns (error: Option<string>)
      modifies this`existingLineitems, this`existingSalesplans, this`duplicatesSkipped,
               this`salesplansCreated, this`lineitemsCreated, this`salesplansCsv, this`lineitemsCsv
      ensures salesplan.Err? ==> error == Some(salesplan.error) && unchanged(this)
      ensures salesplan.Ok? && SalesplanKey(salesplan.value).Err? ==>
        error == Some(SalesplanKey(salesplan.value).error) && unchanged(this)
      ensures salesplan.Ok? && SalesplanKey(salesplan.value).Ok? && SalesplanKey(salesplan.value).value in old(existingSalesplans) ==>
        && error.None? && duplicatesSkipped == old(duplicatesSkipped) + 1
        && existingLineitems == old(existingLineitems) && existingSalesplans == old(existingSalesplans)
        && salesplansCsv == old(salesplansCsv) && lineitemsCsv == old(lineitemsCsv)
        && salesplansCreated == old(salesplansCreated) && lineitemsCreated == old(lineitemsCreated)
      ensures old(existingSalesplans) <= existingSalesplans && old(existingLineitems) <= existingLineitems
      ensures salesplansCreated >= old(salesplansCreated) && lineitemsCreated >= old(lineitemsCreated)
      ensures ProcessedFresh(old(existingSalesplans), old(existingLineitems), old(duplicatesSkipped),
                             old(salesplansCreated), old(lineitemsCreated), old(salesplansCsv), old(lineitemsCsv),
                             salesplan, lineitems, salesplansWritable, lineitemsWritable, error)
    {
      if salesplan.Err? {
        return Some(salesplan.error);
      }
      var key := SalesplanKey(salesplan.value);
      if key.Err? {
        return Some(key.error);
      }
      if key.value in existingSalesplans {
        duplicatesSkipped := duplicatesSkipped + 1;
        return None;
      }
      var id := Lookup(salesplan.value, "SalesPlanID");
      if id.Err? {
        return Some(id.error);
      }
      if lineitems.Err? {
        return Some(lineitems.error);
      }
      if lineitems.value == [] {
        return None;
      }
      var newItems, dedupError := FilterLineItems(lineitems.value);
      if dedupError.Some? {
        return dedupError;
      }
      if newItems == [] {
        return None;
      }
      var ok := AppendSalesplanToCsv(salesplan.value, salesplansWritable);
      if !ok {
        return Some("Failed to write SalesPlans data");
      }
      ok := AppendLineitemsToCsv(newItems, lineitemsWritable);
      if !ok {
        return Some("Failed to write LineItems data");
      }
      existingSalesplans := existingSalesplans + {key.value};
      salesplansCreated := salesplansCreated + 1;
      lineitemsCreated := lineitemsCreated + |newItems|;
      return None;
    }

    /** What process_excel_file does to a sales plan not seen before whose
        line items it gets to filter. */
    ghost predicate ProcessedFresh(existingSalesplans0: set<string>, existingLineitems0: set<string>,
                                   duplicatesSkipped0: int, salesplansCreated0: int, lineitemsCreated0: int,
                                   salesplansCsv0: Option<seq<seq<string>>>, lineitemsCsv0: Option<seq<seq<string>>>,
                                   salesplan: Result<Dict<string>>, lineitems: Result<seq<Dict<string>>>,
                                   salesplansWritable: bool, lineitemsWritable: bool, error: Option<string>)
      reads this
    {
      salesplan.Ok? && SalesplanKey(salesplan.value).Ok? && SalesplanKey(salesplan.value).value !in existingSalesplans0 ==>
        var key := SalesplanKey(salesplan.value).value;
        if Lookup(salesplan.value, "SalesPlanID").Err? || lineitems.Err? || lineitems.value == [] then
          // nothing changes; the missing SalesPlanID and the extraction failure raise
          && error == (if Lookup(salesplan.value, "SalesPlanID").Err? then Some(Lookup(salesplan.value, "SalesPlanID").error)
                       else if lineitems.Err? then Some(lineitems.error) else None)
          && existingLineitems == existingLineitems0 && duplicatesSkipped == duplicatesSkipped0
          && existingSalesplans == existingSalesplans0 && salesplansCsv == salesplansCsv0 && lineitemsCsv == lineitemsCsv0
          && salesplansCreated == salesplansCreated0 && lineitemsCreated == lineitemsCreated0
        else
          var d := DedupItems(existingLineitems0, lineitems.value);
          var sp := AppendCsv(salesplansCsv0, salesplanColumns, [salesplan.value], salesplansWritable);
          var li := AppendCsv(lineitemsCsv0, lineitemColumns, d.kept, lineitemsWritable);
          var written := d.error.None? && d.kept != [];
          && existingLineitems == d.seen && duplicatesSkipped == duplicatesSkipped0 + d.skipped
          && salesplansCsv == (if written then sp.file else salesplansCsv0)
          && lineitemsCsv == (if written && sp.ok then li.file else lineitemsCsv0)
          && (existingSalesplans == if written && sp.ok && li.ok then existingSalesplans0 + {key} else existingSalesplans0)
          && salesplansCreated == salesplansCreated0 + (if written && sp.ok && li.ok then 1 else 0)
          && lineitemsCreated == lineitemsCreated0 + (if written && sp.ok && li.ok then |d.kept| else 0)
          && (error.None? <==> d.error.None? && (d.kept == [] || (sp.ok && li.ok)))
    }

    /** One file of export_to_csv: processed, and counted as processed or,
        when processing raised, as failed. */
    method ProcessAndCount(salesplan: Result<Dict<string>>, lineitems: Result<seq<Dict<string>>>,
                           salesplansWritable: bool, lineitemsWritable: bool)
      modifies this
      ensures filesProcessed + filesFailed == old(filesProcessed + filesFailed) + 1
      ensures filesProcessed >= old(filesProcessed) && filesFailed >= old(filesFailed)
      ensures old(existingSalesplans) <= existingSalesplans && old(existingLineitems) <= existingLineitems
      ensures salesplansCreated >= old(salesplansCreated) && lineitemsCreated >= old(lineitemsCreated)
      ensures salesplan.Err? ==> filesFailed == old(filesFailed) + 1
    {
      var error := ProcessExcelFile(salesplan, lineitems, salesplansWritable, lineitemsWritable);
      if error.None? {
        filesProcessed := filesProcessed + 1;
      } else {
        filesFailed := filesFailed + 1;
      }
    }

    /** export_to_csv over the directory's entries. `extracted` gives, per
        file, what extract_salesplan_metadata and extract_lineitems_data
        return or raise; the two de-duplication sets start from the keys
        already in the CSV files, and `unmappedCount` is the picklist
        handler's count at the end. */
    method ExportToCsv(inputDir: string, dirExists: bool, names: seq<string>,
                       extracted: string -> (Result<Dict<string>>, Result<seq<Dict<string>>>),
                       loadedSalesplans: set<string>, loadedLineitems: set<string>,
                       salesplansWritable: bool, lineitemsWritable: bool, unmappedCount: int)
      returns (r: Result<()>)
      requires Distinct(names)
      modifies this
      ensures !dirExists ==> r == Err("Input directory not found: " + inputDir) && unchanged(this)
      ensures dirExists ==> r.Ok?
      ensures dirExists && DropLockFiles(ExcelNames(names)) == [] ==> unchanged(this)
      ensures dirExists && DropLockFiles(ExcelNames(names)) != [] ==>
        && filesProcessed + filesFailed == old(filesProcessed + filesFailed) + |DropLockFiles(ExcelNames(names))|
        && filesProcessed >= old(filesProcessed) && filesFailed >= old(filesFailed)
        && unmappedValues == unmappedCount
        && loadedSalesplans <= existingSalesplans && loadedLineitems <= existingLineitems
        && salesplansCreated >= old(salesplansCreated) && lineitemsCreated >= old(lineitemsCreated)
    {
      if !dirExists {
        return Err("Input directory not found: " + inputDir);
      }
      var excelFiles := GetExcelFiles(names);
      if excelFiles == [] {
        assert |multiset(DropLockFiles(ExcelNames(names)))| == 0;
        return Ok(());
      }
      existingSalesplans := loadedSalesplans;
      existingLineitems := loadedLineitems;
      var f := 0;
      while f < |excelFiles|
        invariant 0 <= f <= |excelFiles|
        invariant filesProcessed + filesFailed == old(filesProcessed + filesFailed) + f
        invariant filesProcessed >= old(filesProcessed) && filesFailed >= old(filesFailed)
        invariant loadedSalesplans <= existingSalesplans && loadedLineitems <= existingLineitems
        invariant salesplansCreated >= old(salesplansCreated) && lineitemsCreated >= old(lineitemsCreated)
      {
        var (salesplan, lineitems) := extracted(excelFiles[f]);
        ProcessAndCount(salesplan, lineitems, salesplansWritable, lineitemsWritable);
        f := f + 1;
      }
      assert |multiset(excelFiles)| == |multiset(DropLockFiles(ExcelNames(names)))|;
      unmappedValues := unmappedCount;
      return Ok(());
    }
  }

  /** Once the filter has stopped on an error, later items change nothing. */
  lemma {:induction false} DedupFailedStays(existing: set<string>, items: seq<Dict<string>>, k: nat)
    requires k <= |items| && DedupItems(existing, items[..k]).error.Some?
    ensures DedupItems(existing, items) == DedupItems(existing, items[..k])
    decreases |items| - k
  {
    if k < |items| {
      assert items[..k + 1][..k] == items[..k];
      DedupFailedStays(existing, items, k + 1);
    } else {
      assert items[..k] == items;
    }
  }
}
