/** The Python formatting engine of internal/format/format_excel.py: an
    ExcelFormatter loads the mapping file and two worksheets, clears the
    data rows of every named target column, copies into each of them the
    input column that the mapping assigns to it, removes the rows that hold
    no plain data, and saves the result; format_all_sheets runs it once per
    sheet of the input workbook. */
module PyFormat {
  import opened Text
  import opened Dicts
  import opened Paths
  import opened MappingTypes
  import opened PySheet

  /* ---------------------------------------------------------------- */
  /* Mappings                                                          */
  /* ---------------------------------------------------------------- */

  /** scanned_to_target and ignored_scanned. */
  datatype Mappings = Mappings(scannedToTarget: map<string, string>, ignored: set<string>)

  const NoMappings: Mappings := Mappings(map[], {})

  /** A record that maps its scanned column: not ignored and with a
      non-empty target. */
  predicate Maps(m: ColumnMapping)
  {
    !m.isIgnored && m.targetColumn != ""
  }

  /** The mappings after load_files has read `records` on top of `m`:
      an ignored record adds its scanned column to the ignored set, any
      other record with a target maps its scanned column to that target. */
  function LoadOnto(m: Mappings, records: seq<ColumnMapping>): Mappings
  {
    if records == [] then m
    else
      var before := LoadOnto(m, records[..|records| - 1]);
      var r := records[|records| - 1];
      if r.isIgnored then before.(ignored := before.ignored + {r.scannedColumn})
      else if r.targetColumn != "" then before.(scannedToTarget := before.scannedToTarget[r.scannedColumn := r.targetColumn])
      else before
  }

  /** A column is ignored iff it was ignored before or some record ignores
      it; it is mapped iff it was mapped before or some record maps it, and
      then to the target of the last record that maps it. */
  lemma {:induction false} LoadOntoSpec(m: Mappings, records: seq<ColumnMapping>, s: string)
    ensures s in LoadOnto(m, records).ignored <==>
      s in m.ignored || exists i :: 0 <= i < |records| && records[i].isIgnored && records[i].scannedColumn == s
    ensures s in LoadOnto(m, records).scannedToTarget <==>
      s in m.scannedToTarget || exists i :: 0 <= i < |records| && Maps(records[i]) && records[i].scannedColumn == s
    ensures forall i :: (0 <= i < |records| && Maps(records[i]) && records[i].scannedColumn == s
                         && (forall j :: i < j < |records| ==> !(Maps(records[j]) && records[j].scannedColumn == s))) ==>
      LoadOnto(m, records).scannedToTarget[s] == records[i].targetColumn
    ensures (forall i :: 0 <= i < |records| ==> !(Maps(records[i]) && records[i].scannedColumn == s)) && s in m.scannedToTarget ==>
      LoadOnto(m, records).scannedToTarget[s] == m.scannedToTarget[s]
  {
    if records != [] {
      var init := records[..|records| - 1];
      LoadOntoSpec(m, init, s);
      assert forall i :: 0 <= i < |init| ==> init[i] == records[i];
    }
  }

  /* ---------------------------------------------------------------- */
  /* Headers                                                           */
  /* ---------------------------------------------------------------- */

  /** The header text of a cell: its stripped text if its value is
      truthy, else none. */
  function HeaderKey(c: Cell): Option<string>
  {
    if c.value.Some? && c.value.value.truthy then Some(PyStrip(c.value.value.text)) else None
  }

  /** get_input_headers' dict over columns 1..n of `row`: each header text
      to the last column that carries it, keys in order of first sight. */
  function InputHeaders(ws: Sheet, row: nat, n: nat): Dict<nat>
  {
    if n == 0 then Empty()
    else
      var d := InputHeaders(ws, row, n - 1);
      match HeaderKey(CellAt(ws, Pos(row, n)))
      case Some(k) => Put(d, k, n)
      case None => d
  }

  /** Column c of `row` carries header text k. */
  predicate Carries(ws: Sheet, row: nat, c: nat, k: string)
  {
    HeaderKey(CellAt(ws, Pos(row, c))) == Some(k)
  }

  /** The header dict is well formed. */
  lemma {:induction false} InputHeadersWellFormed(ws: Sheet, row: nat, n: nat)
    ensures WellFormed(InputHeaders(ws, row, n))
  {
    if n > 0 {
      InputHeadersWellFormed(ws, row, n - 1);
      match HeaderKey(CellAt(ws, Pos(row, n)))
      case Some(k) => PutSpec(InputHeaders(ws, row, n - 1), k, n);
      case None =>
    }
  }

  /** The entries of InputHeaders one column at a time. */
  lemma InputHeadersStep(ws: Sheet, row: nat, n: nat)
    requires n > 0
    ensures var d := InputHeaders(ws, row, n - 1);
      InputHeaders(ws, row, n).entries ==
        match HeaderKey(CellAt(ws, Pos(row, n)))
        case Some(k) => d.entries[k := n]
        case None => d.entries
  {
  }

  /** A text is a key iff some column in 1..n carries it. */
  lemma {:induction false} InputHeadersKeys(ws: Sheet, row: nat, n: nat, k: string)
    ensures k in InputHeaders(ws, row, n).entries <==> exists c :: 1 <= c <= n && Carries(ws, row, c, k)
  {
    if n > 0 {
      InputHeadersKeys(ws, row, n - 1, k);
      InputHeadersStep(ws, row, n);
      CarriedUpToStep(ws, row, n, k);
      if !Carries(ws, row, n, k) {
        assert k in InputHeaders(ws, row, n).entries <==> k in InputHeaders(ws, row, n - 1).entries;
      }
    }
  }

  /** Some column in 1..n carries k iff one in 1..n-1 does or column n does. */
  lemma CarriedUpToStep(ws: Sheet, row: nat, n: nat, k: string)
    requires n > 0
    ensures (exists c :: 1 <= c <= n && Carries(ws, row, c, k))
      <==> (exists c :: 1 <= c <= n - 1 && Carries(ws, row, c, k)) || Carries(ws, row, n, k)
  {
    if exists c :: 1 <= c <= n && Carries(ws, row, c, k) {
      var c :| 1 <= c <= n && Carries(ws, row, c, k);
      assert c < n || Carries(ws, row, n, k);
    }
  }

  /** A key maps to the last column in 1..n that carries it. */
  lemma {:induction false} InputHeadersLast(ws: Sheet, row: nat, n: nat, k: string)
    requires k in InputHeaders(ws, row, n).entries
    ensures var c := InputHeaders(ws, row, n).entries[k];
      && 1 <= c <= n && Carries(ws, row, c, k)
      && forall c' :: c < c' <= n ==> !Carries(ws, row, c', k)
  {
    InputHeadersStep(ws, row, n);
    if !Carries(ws, row, n, k) {
      assert k in InputHeaders(ws, row, n - 1).entries;
      InputHeadersLast(ws, row, n - 1, k);
    }
  }

  /** A text is a key iff some column in 1..n carries it, and it maps to
      the last such column. */
  lemma InputHeadersSpec(ws: Sheet, row: nat, n: nat, k: string)
    ensures k in InputHeaders(ws, row, n).entries <==> exists c :: 1 <= c <= n && Carries(ws, row, c, k)
    ensures k in InputHeaders(ws, row, n).entries ==>
      var c := InputHeaders(ws, row, n).entries[k];
      && 1 <= c <= n && Carries(ws, row, c, k)
      && forall c' :: c < c' <= n ==> !Carries(ws, row, c', k)
  {
    InputHeadersKeys(ws, row, n, k);
    if k in InputHeaders(ws, row, n).entries {
      InputHeadersLast(ws, row, n, k);
    }
  }

  /** get_input_headers' column loop. */
  method ReadInputHeaders(ws: Sheet, row: nat) returns (headers: Dict<nat>)
    ensures headers == InputHeaders(ws, row, ws.maxColumn)
  {
    headers := Empty();
    var colIdx := 1;
    while colIdx <= ws.maxColumn
      invariant 1 <= colIdx <= ws.maxColumn + 1
      invariant headers == InputHeaders(ws, row, colIdx - 1)
    {
      var key := HeaderKey(CellAt(ws, Pos(row, colIdx)));
      if key.Some? {
        headers := Put(headers, key.value, colIdx);
      }
      colIdx := colIdx + 1;
    }
  }

  /** get_target_headers: one (name, column) pair per column 1..max_column
      of the header row, the name being "" for a falsy cell. */
  function TargetHeaders(ws: Sheet, row: nat): (headers: seq<(string, nat)>)
    ensures |headers| == ws.maxColumn
    ensures forall i :: 0 <= i < |headers| ==> headers[i].1 == i + 1
    ensures forall i :: 0 <= i < |headers| ==>
      headers[i].0 == (match HeaderKey(CellAt(ws, Pos(row, i + 1))) case Some(k) => k case None => "")
  {
    seq(ws.maxColumn, i requires 0 <= i => (match HeaderKey(CellAt(ws, Pos(row, i + 1))) case Some(k) => k case None => "", i + 1))
  }

  /** get_target_headers' column loop. */
  method ReadTargetHeaders(ws: Sheet, row: nat) returns (headers: seq<(string, nat)>)
    ensures headers == TargetHeaders(ws, row)
  {
    headers := [];
    var colIdx := 1;
    while colIdx <= ws.maxColumn
      invariant 1 <= colIdx <= ws.maxColumn + 1
      invariant headers == TargetHeaders(ws, row)[..colIdx - 1]
    {
      var name := match HeaderKey(CellAt(ws, Pos(row, colIdx))) case Some(k) => k case None => "";
      headers := headers + [(name, colIdx)];
      colIdx := colIdx + 1;
    }
  }

  /* ---------------------------------------------------------------- */
  /* Applicable mappings                                               */
  /* ---------------------------------------------------------------- */

  /** An input column is applicable to a target column when it is not
      ignored and is mapped to that target. */
  predicate Applicable(m: Mappings, input: string, target: string)
  {
    input !in m.ignored && input in m.scannedToTarget && m.scannedToTarget[input] == target
  }

  /** The first of `keys` applicable to `target`, if any. */
  function FirstApplicable(keys: seq<string>, target: string, m: Mappings): (r: Option<nat>)
    ensures r.Some? ==> r.value < |keys| && Applicable(m, keys[r.value], target)
    ensures r.Some? ==> forall i :: 0 <= i < r.value ==> !Applicable(m, keys[i], target)
    ensures r.None? ==> forall i :: 0 <= i < |keys| ==> !Applicable(m, keys[i], target)
  {
    if keys == [] then None
    else if Applicable(m, keys[0], target) then Some(0)
    else match FirstApplicable(keys[1..], target, m)
      case Some(i) => Some(i + 1)
      case None => None
  }

  /** The input column chosen for a target column name. */
  function ChosenInput(keys: seq<string>, target: string, m: Mappings): Option<string>
  {
    match FirstApplicable(keys, target, m)
    case Some(i) => Some(keys[i])
    case None => None
  }

  /** The inner loop of find_applicable_mappings for one target name. */
  method FindInputFor(keys: seq<string>, target: string, m: Mappings) returns (found: Option<string>)
    ensures found == ChosenInput(keys, target, m)
  {
    var i := 0;
    while i < |keys|
      invariant i <= |keys|
      invariant forall j :: 0 <= j < i ==> !Applicable(m, keys[j], target)
    {
      if keys[i] in m.ignored {
        i := i + 1;
        continue;
      }
      if keys[i] in m.scannedToTarget && m.scannedToTarget[keys[i]] == target {
        return Some(keys[i]);
      }
      i := i + 1;
    }
    return None;
  }

  /** The applicable mappings collected from the first k target headers:
      each entry is a named target header with the input column chosen for
      it, and every such header that has a chosen column is present. */
  predicate CollectedUpTo(keys: seq<string>, targetHeaders: seq<(string, nat)>, m: Mappings, k: nat, applicable: Dict<string>)
    requires k <= |targetHeaders|
  {
    && WellFormed(applicable)
    && (forall t :: t in applicable.entries ==> t != "" && Some(applicable.entries[t]) == ChosenInput(keys, t, m))
    && (forall t :: t in applicable.entries ==> exists i :: 0 <= i < k && targetHeaders[i].0 == t)
    && (forall i :: 0 <= i < k && targetHeaders[i].0 != "" && ChosenInput(keys, targetHeaders[i].0, m).Some? ==>
          targetHeaders[i].0 in applicable.entries)
  }

  /** One iteration of find_applicable_mappings keeps CollectedUpTo. */
  lemma CollectStep(keys: seq<string>, targetHeaders: seq<(string, nat)>, m: Mappings, k: nat, applicable: Dict<string>)
    requires k < |targetHeaders|
    requires CollectedUpTo(keys, targetHeaders, m, k, applicable)
    ensures var name := targetHeaders[k].0;
            var chosen := ChosenInput(keys, name, m);
            CollectedUpTo(keys, targetHeaders, m, k + 1,
                          if name != "" && chosen.Some? then Put(applicable, name, chosen.value) else applicable)
  {
    var name := targetHeaders[k].0;
    var chosen := ChosenInput(keys, name, m);
    if name != "" && chosen.Some? {
      CollectPut(keys, targetHeaders, m, k, applicable);
    } else {
      forall t | t in applicable.entries
        ensures exists i :: 0 <= i < k + 1 && targetHeaders[i].0 == t
      {
        var i :| 0 <= i < k && targetHeaders[i].0 == t;
        assert 0 <= i < k + 1 && targetHeaders[i].0 == t;
      }
    }
  }

  /** A named header with a chosen input column is added to the collection. */
  lemma CollectPut(keys: seq<string>, targetHeaders: seq<(string, nat)>, m: Mappings, k: nat, applicable: Dict<string>)
    requires k < |targetHeaders|
    requires CollectedUpTo(keys, targetHeaders, m, k, applicable)
    requires targetHeaders[k].0 != "" && ChosenInput(keys, targetHeaders[k].0, m).Some?
    ensures CollectedUpTo(keys, targetHeaders, m, k + 1,
                          Put(applicable, targetHeaders[k].0, ChosenInput(keys, targetHeaders[k].0, m).value))
  {
    var name := targetHeaders[k].0;
    var chosen := ChosenInput(keys, name, m);
    PutSpec(applicable, name, chosen.value);
    var next := Put(applicable, name, chosen.value);
    assert next.entries == applicable.entries[name := chosen.value];
    forall t | t in next.entries
      ensures t != "" && Some(next.entries[t]) == ChosenInput(keys, t, m)
    {
      if t != name {
        assert t in applicable.entries && next.entries[t] == applicable.entries[t];
      }
    }
    forall t | t in next.entries
      ensures exists i :: 0 <= i < k + 1 && targetHeaders[i].0 == t
    {
      if t != name {
        var i :| 0 <= i < k && targetHeaders[i].0 == t;
        assert 0 <= i < k + 1 && targetHeaders[i].0 == t;
      } else {
        assert targetHeaders[k].0 == t;
      }
    }
    forall i | 0 <= i < k + 1 && targetHeaders[i].0 != "" && ChosenInput(keys, targetHeaders[i].0, m).Some?
      ensures targetHeaders[i].0 in next.entries
    {
      if i < k {
        assert targetHeaders[i].0 in applicable.entries;
      }
    }
  }

  /** find_applicable_mappings: every non-empty target name that some
      input column maps to, with the first such column in the input dict's
      order. */
  method FindApplicableMappings(inputHeaders: Dict<nat>, targetHeaders: seq<(string, nat)>, m: Mappings)
    returns (applicable: Dict<string>)
    ensures CollectedUpTo(inputHeaders.keys, targetHeaders, m, |targetHeaders|, applicable)
  {
    applicable := Empty();
    var k := 0;
    while k < |targetHeaders|
      invariant k <= |targetHeaders|
      invariant CollectedUpTo(inputHeaders.keys, targetHeaders, m, k, applicable)
    {
      CollectStep(inputHeaders.keys, targetHeaders, m, k, applicable);
      var name := targetHeaders[k].0;
      if name != "" {
        var found := FindInputFor(inputHeaders.keys, name, m);
        if found.Some? {
          applicable := Put(applicable, name, found.value);
        }
      }
      k := k + 1;
    }
  }

  /* ---------------------------------------------------------------- */
  /* Writing the target                                                */
  /* ---------------------------------------------------------------- */

  /** worksheet.cell(row, col) assigned: the sheet's extent grows to
      include the cell. */
  function Write(ws: Sheet, p: Pos, c: Cell): (r: Sheet)
    ensures forall q :: CellAt(r, q) == if q == p then c else CellAt(ws, q)
    ensures r.maxRow == Max(ws.maxRow, p.row) && r.maxColumn == Max(ws.maxColumn, p.col)
  {
    Sheet(ws.cells[p := c], Max(ws.maxRow, p.row), Max(ws.maxColumn, p.col))
  }

  /** copy_cell_value_with_type_preservation: the value always, the
      number format only when it is not "General". */
  function Copy(source: Cell, target: Cell): (r: Cell)
    ensures r.value == source.value
    ensures r.numberFormat == if source.numberFormat != "General" then source.numberFormat else target.numberFormat
  {
    Cell(source.value, if source.numberFormat != "General" then source.numberFormat else target.numberFormat)
  }

  /** A cell of column `targetCol` after the first `upto` data rows
      were copied from column `inputCol` of `src`: target row th+k takes
      input row ih+k. */
  function CopiedCell(src: Sheet, before: Sheet, targetCol: nat, inputCol: nat, th: nat, ih: nat, upto: int, p: Pos): Cell
  {
    if p.col == targetCol && th < p.row <= th + upto then
      Copy(CellAt(src, Pos(p.row - th + ih, inputCol)), CellAt(before, p))
    else CellAt(before, p)
  }

  /** Copying data row k+1 extends the copied range by one row. */
  lemma CopiedCellStep(src: Sheet, before: Sheet, here: Sheet, next: Sheet,
                       targetCol: nat, inputCol: nat, th: nat, ih: nat, k: nat)
    requires forall p :: CellAt(here, p) == CopiedCell(src, before, targetCol, inputCol, th, ih, k, p)
    requires forall q :: CellAt(next, q) ==
               if q == Pos(th + 1 + k, targetCol)
               then Copy(CellAt(src, Pos(ih + 1 + k, inputCol)), CellAt(here, Pos(th + 1 + k, targetCol)))
               else CellAt(here, q)
    ensures forall p :: CellAt(next, p) == CopiedCell(src, before, targetCol, inputCol, th, ih, k + 1, p)
  {
    forall p
      ensures CellAt(next, p) == CopiedCell(src, before, targetCol, inputCol, th, ih, k + 1, p)
    {
      assert CellAt(here, p) == CopiedCell(src, before, targetCol, inputCol, th, ih, k, p);
    }
  }

  /** Everything one run of format_excel computes from: the two loaded
      sheets, their header rows, the loaded mappings, and the header lists
      read from the two header rows. */
  datatype Plan = Plan(input: Sheet, target: Sheet, inputHeaderRow: nat, targetHeaderRow: nat, mappings: Mappings,
                       targetHeaders: seq<(string, nat)>, inputHeaders: Dict<nat>)

  /** The plan of a run whose header lists are read from its header rows. */
  function MakePlan(input: Sheet, target: Sheet, inputHeaderRow: nat, targetHeaderRow: nat, m: Mappings): Plan
  {
    Plan(input, target, inputHeaderRow, targetHeaderRow, m,
         TargetHeaders(target, targetHeaderRow), InputHeaders(input, inputHeaderRow, input.maxColumn))
  }

  /** The header lists are those of the plan's header rows. */
  predicate Consistent(pl: Plan)
  {
    pl == MakePlan(pl.input, pl.target, pl.inputHeaderRow, pl.targetHeaderRow, pl.mappings)
  }

  /** The shape of consistent header lists: one target header per
      column, in column order, and a well-formed input header dict. */
  predicate Shaped(pl: Plan)
  {
    && |pl.targetHeaders| == pl.target.maxColumn
    && (forall i :: 0 <= i < |pl.targetHeaders| ==> pl.targetHeaders[i].1 == i + 1)
    && WellFormed(pl.inputHeaders)
  }

  lemma ConsistentShaped(pl: Plan)
    requires Consistent(pl)
    ensures Shaped(pl)
  {
    InputHeadersWellFormed(pl.input, pl.inputHeaderRow, pl.input.maxColumn);
  }

  /** max(target max_row, target header row + input data rows). */
  function MaxTargetRow(pl: Plan): int
  {
    var needed := pl.targetHeaderRow + (pl.input.maxRow - pl.inputHeaderRow);
    if pl.target.maxRow >= needed then pl.target.maxRow else needed
  }

  /** Target column `col` is among the first n header columns and is
      named. */
  predicate Named(pl: Plan, n: nat, col: nat)
  {
    1 <= col <= n && n <= |pl.targetHeaders| && pl.targetHeaders[col - 1].0 != ""
  }

  /** The input column copied into target column `col` once the first n
      header columns are processed. */
  function SourceColumn(pl: Plan, n: nat, col: nat): Option<nat>
  {
    if !Named(pl, n, col) then None
    else
      match ChosenInput(pl.inputHeaders.keys, pl.targetHeaders[col - 1].0, pl.mappings)
      case Some(k) => if k in pl.inputHeaders.entries then Some(pl.inputHeaders.entries[k]) else None
      case None => None
  }

  /** A target cell after clear_column_data ran for the first n header
      columns: data rows up to the target's last row lose their value and
      keep their number format. */
  function ClearedCell(pl: Plan, n: nat, p: Pos): Cell
  {
    if Named(pl, n, p.col) && pl.targetHeaderRow < p.row <= MaxTargetRow(pl) then
      Cell(None, CellAt(pl.target, p).numberFormat)
    else CellAt(pl.target, p)
  }

  /** Clearing column k+1, when it is named, extends the cleared columns
      by one. */
  lemma ClearedStep(pl: Plan, k: nat, here: Sheet, next: Sheet)
    requires k < |pl.targetHeaders|
    requires forall p :: CellAt(here, p) == ClearedCell(pl, k, p)
    requires pl.targetHeaders[k].0 != "" ==>
      forall p :: CellAt(next, p) ==
                    if p.col == k + 1 && pl.targetHeaderRow < p.row <= MaxTargetRow(pl)
                    then Cell(None, CellAt(here, p).numberFormat)
                    else CellAt(here, p)
    requires pl.targetHeaders[k].0 == "" ==> next == here
    ensures forall p :: CellAt(next, p) == ClearedCell(pl, k + 1, p)
  {
    forall p
      ensures CellAt(next, p) == ClearedCell(pl, k + 1, p)
    {
      assert CellAt(here, p) == ClearedCell(pl, k, p);
    }
  }

  /** Target row r is a data row that receives an input row. */
  predicate Receives(pl: Plan, r: nat)
  {
    pl.targetHeaderRow < r <= pl.targetHeaderRow + (pl.input.maxRow - pl.inputHeaderRow)
  }

  /** The input row that target data row r receives. */
  function InputRow(pl: Plan, r: nat): nat
    requires Receives(pl, r)
  {
    r - pl.targetHeaderRow + pl.inputHeaderRow
  }

  /** A target cell after process_column_with_mapping ran for the mapped
      columns among the first n: data row th+k receives input row ih+k. */
  function MappedCell(pl: Plan, n: nat, p: Pos, before: Cell): Cell
  {
    var src := SourceColumn(pl, n, p.col);
    if src.Some? && Receives(pl, p.row) then Copy(CellAt(pl.input, Pos(InputRow(pl, p.row), src.value)), before)
    else before
  }

  /** Copying column k+1, when it has a source column, extends the mapped
      columns by one. */
  lemma MappedStep(pl: Plan, k: nat, before: Sheet, here: Sheet, next: Sheet)
    requires k < |pl.targetHeaders|
    requires forall p :: CellAt(here, p) == MappedCell(pl, k, p, CellAt(before, p))
    requires SourceColumn(pl, k + 1, k + 1).Some? ==>
      forall p :: CellAt(next, p) ==
                    CopiedCell(pl.input, here, k + 1, SourceColumn(pl, k + 1, k + 1).value, pl.targetHeaderRow,
                               pl.inputHeaderRow, pl.input.maxRow - pl.inputHeaderRow, p)
    requires SourceColumn(pl, k + 1, k + 1).None? ==> next == here
    ensures forall p :: CellAt(next, p) == MappedCell(pl, k + 1, p, CellAt(before, p))
  {
    NamedStep(pl, k);
    forall p
      ensures CellAt(next, p) == MappedCell(pl, k + 1, p, CellAt(before, p))
    {
      assert CellAt(here, p) == MappedCell(pl, k, p, CellAt(before, p));
      if p.col != k + 1 {
        assert SourceColumn(pl, k + 1, p.col) == SourceColumn(pl, k, p.col);
      }
    }
  }

  /** The input column copy_mapped_columns uses for header k is the source
      column of target column k + 1. */
  lemma ApplicableSource(pl: Plan, applicable: Dict<string>, k: nat)
    requires Shaped(pl) && k < |pl.targetHeaders|
    requires CollectedUpTo(pl.inputHeaders.keys, pl.targetHeaders, pl.mappings, |pl.targetHeaders|, applicable)
    ensures var name := pl.targetHeaders[k].0;
      if name != "" && name in applicable.entries then
        applicable.entries[name] in pl.inputHeaders.entries
        && SourceColumn(pl, k + 1, k + 1) == Some(pl.inputHeaders.entries[applicable.entries[name]])
      else SourceColumn(pl, k + 1, k + 1).None?
  {
    var name := pl.targetHeaders[k].0;
    if name != "" && name in applicable.entries {
      var inputColumn := applicable.entries[name];
      assert inputColumn in pl.inputHeaders.keys;
      assert Named(pl, k + 1, k + 1);
    }
  }

  /** Copying into a named column keeps the prepared bounds of the target:
      the column exists, and the rows the copy reaches were already added. */
  lemma MappedBounds(pl: Plan, k: nat)
    requires Shaped(pl) && k < |pl.targetHeaders| && pl.targetHeaders[k].0 != ""
    ensures Max(pl.target.maxColumn, k + 1) == pl.target.maxColumn
    ensures pl.inputHeaderRow < pl.input.maxRow ==>
      Max(PreparedMaxRow(pl), pl.targetHeaderRow + (pl.input.maxRow - pl.inputHeaderRow)) == PreparedMaxRow(pl)
  {
    assert Named(pl, |pl.targetHeaders|, k + 1);
    assert AnyNamed(pl, |pl.targetHeaders|);
  }

  /** A cell of the target before row cleaning. */
  function FormattedCell(pl: Plan, p: Pos): Cell
  {
    var n := |pl.targetHeaders|;
    MappedCell(pl, n, p, ClearedCell(pl, n, p))
  }

  /** Some of the first n header columns is named. */
  predicate AnyNamed(pl: Plan, n: nat)
  {
    exists col :: 1 <= col <= n && Named(pl, n, col)
  }

  /** Taking one more header column into account names that column if
      its header is non-empty, and no other. */
  lemma NamedStep(pl: Plan, k: nat)
    requires k < |pl.targetHeaders|
    ensures forall col :: Named(pl, k + 1, col) <==> Named(pl, k, col) || (col == k + 1 && pl.targetHeaders[k].0 != "")
    ensures AnyNamed(pl, k + 1) <==> AnyNamed(pl, k) || pl.targetHeaders[k].0 != ""
  {
    if AnyNamed(pl, k) {
      var col :| 1 <= col <= k && Named(pl, k, col);
      assert Named(pl, k + 1, col);
    }
    if AnyNamed(pl, k + 1) && pl.targetHeaders[k].0 == "" {
      var col :| 1 <= col <= k + 1 && Named(pl, k + 1, col);
      assert Named(pl, k, col);
    }
    if pl.targetHeaders[k].0 != "" {
      assert Named(pl, k + 1, k + 1);
    }
  }

  /** The max_row of the target before row cleaning: it grows to the
      target's last row when a named column has data rows to clear. */
  function PreparedMaxRow(pl: Plan): int
  {
    if AnyNamed(pl, |pl.targetHeaders|) && pl.targetHeaderRow < MaxTargetRow(pl) then MaxTargetRow(pl) else pl.target.maxRow
  }

  /** The target sheet before row cleaning: the target with every cell
      formatted. */
  ghost predicate Prepared(pl: Plan, s: Sheet)
  {
    && s.maxColumn == pl.target.maxColumn
    && s.maxRow == PreparedMaxRow(pl)
    && forall p :: CellAt(s, p) == FormattedCell(pl, p)
  }

  /** Rows up to the header row and unnamed columns are left as they were. */
  lemma UntouchedCells(pl: Plan, p: Pos)
    requires Consistent(pl)
    requires p.row <= pl.targetHeaderRow || p.col < 1 || p.col > pl.target.maxColumn
             || HeaderKey(CellAt(pl.target, Pos(pl.targetHeaderRow, p.col))) == None
    ensures FormattedCell(pl, p) == CellAt(pl.target, p)
  {
  }

  /** In a named column whose name some input column maps to, data row
      th+k takes the value of input row ih+k of the chosen input column,
      which carries a header applicable to the name; its number format is
      the input's unless that is "General". */
  lemma {:induction false} MappedColumn(pl: Plan, p: Pos)
    requires Consistent(pl)
    requires Named(pl, |pl.targetHeaders|, p.col)
    requires Receives(pl, p.row)
    requires SourceColumn(pl, |pl.targetHeaders|, p.col).Some?
    ensures var c := SourceColumn(pl, |pl.targetHeaders|, p.col).value;
      var source := CellAt(pl.input, Pos(InputRow(pl, p.row), c));
      && 1 <= c <= pl.input.maxColumn
      && (exists k :: HeaderKey(CellAt(pl.input, Pos(pl.inputHeaderRow, c))) == Some(k)
           && Applicable(pl.mappings, k, pl.targetHeaders[p.col - 1].0))
      && FormattedCell(pl, p).value == source.value
      && FormattedCell(pl, p).numberFormat ==
           (if source.numberFormat != "General" then source.numberFormat else CellAt(pl.target, p).numberFormat)
  {
    var name := pl.targetHeaders[p.col - 1].0;
    var k := ChosenInput(pl.inputHeaders.keys, name, pl.mappings).value;
    InputHeadersSpec(pl.input, pl.inputHeaderRow, pl.input.maxColumn, k);
    var c := pl.inputHeaders.entries[k];
    assert HeaderKey(CellAt(pl.input, Pos(pl.inputHeaderRow, c))) == Some(k);
    assert MaxTargetRow(pl) >= p.row;
  }

  /** A named column that no input column maps to has its data rows
      emptied down to the target's last row, number formats kept. */
  lemma UnmappedColumn(pl: Plan, p: Pos)
    requires Named(pl, |pl.targetHeaders|, p.col)
    requires ChosenInput(pl.inputHeaders.keys, pl.targetHeaders[p.col - 1].0, pl.mappings).None?
    requires pl.targetHeaderRow < p.row <= MaxTargetRow(pl)
    ensures FormattedCell(pl, p) == Cell(None, CellAt(pl.target, p).numberFormat)
  {
    assert SourceColumn(pl, |pl.targetHeaders|, p.col).None?;
    assert ClearedCell(pl, |pl.targetHeaders|, p) == Cell(None, CellAt(pl.target, p).numberFormat);
  }

  /** Data rows of a named column past the input's data rows end up
      empty, number formats kept. */
  lemma RowsPastInput(pl: Plan, p: Pos)
    requires Named(pl, |pl.targetHeaders|, p.col)
    requires pl.targetHeaderRow < p.row <= MaxTargetRow(pl)
    requires pl.targetHeaderRow + (pl.input.maxRow - pl.inputHeaderRow) < p.row
    ensures FormattedCell(pl, p) == Cell(None, CellAt(pl.target, p).numberFormat)
  {
    assert !Receives(pl, p.row);
    assert ClearedCell(pl, |pl.targetHeaders|, p) == Cell(None, CellAt(pl.target, p).numberFormat);
  }

  /* ---------------------------------------------------------------- */
  /* Row cleaning                                                      */
  /* ---------------------------------------------------------------- */

  /** A cell with plain data: a value that is not a formula and does not
      strip to "". */
  predicate PlainData(ws: Sheet, r: nat, c: nat)
  {
    var v := CellAt(ws, Pos(r, c)).value;
    v.Some? && !v.value.formula && PyStrip(v.value.text) != ""
  }

  /** Row r has plain data in some column 1..max_column. */
  predicate RowKeeps(ws: Sheet, r: nat)
  {
    exists c :: 1 <= c <= ws.maxColumn && PlainData(ws, r, c)
  }

  /** The rows among 1..n marked for deletion, in ascending order: every
      row but the header that holds no plain data. */
  function RowsToDelete(ws: Sheet, header: nat, n: nat): seq<nat>
  {
    if n == 0 then []
    else RowsToDelete(ws, header, n - 1) + (if n != header && !RowKeeps(ws, n) then [n] else [])
  }

  /** A strictly ascending sequence of rows from 1..n. */
  predicate AscendingRows(ds: seq<nat>, n: nat)
  {
    && (forall i :: 0 <= i < |ds| ==> 1 <= ds[i] <= n)
    && (forall i, j :: 0 <= i < j < |ds| ==> ds[i] < ds[j])
  }

  /** Exactly the rows without plain data other than the header are
      marked, in ascending order. */
  lemma {:induction false} RowsToDeleteSpec(ws: Sheet, header: nat, n: nat)
    ensures AscendingRows(RowsToDelete(ws, header, n), n)
    ensures forall r :: r in RowsToDelete(ws, header, n) <==> 1 <= r <= n && r != header && !RowKeeps(ws, r)
  {
    if n > 0 {
      RowsToDeleteSpec(ws, header, n - 1);
    }
  }

  /** The marking loop's row test. */
  method RowHasPlainData(ws: Sheet, r: nat) returns (keep: bool)
    ensures keep == RowKeeps(ws, r)
  {
    var colIdx := 1;
    while colIdx <= ws.maxColumn
      invariant 1 <= colIdx <= ws.maxColumn + 1
      invariant forall c :: 1 <= c < colIdx ==> !PlainData(ws, r, c)
    {
      var v := CellAt(ws, Pos(r, colIdx)).value;
      if v.Some? && !v.value.formula && PyStrip(v.value.text) != "" {
        assert PlainData(ws, r, colIdx);
        return true;
      }
      colIdx := colIdx + 1;
    }
    return false;
  }

  /** The marking loop of clean_formula_only_rows_func. */
  method MarkRows(ws: Sheet, header: nat) returns (rowsToDelete: seq<nat>)
    ensures rowsToDelete == RowsToDelete(ws, header, ws.maxRow)
  {
    rowsToDelete := [];
    var rowIdx := 1;
    while rowIdx <= ws.maxRow
      invariant 1 <= rowIdx <= ws.maxRow + 1
      invariant rowsToDelete == RowsToDelete(ws, header, rowIdx - 1)
    {
      if rowIdx != header {
        var keep := RowHasPlainData(ws, rowIdx);
        if !keep {
          rowsToDelete := rowsToDelete + [rowIdx];
        }
      }
      rowIdx := rowIdx + 1;
    }
  }

  /** The row a row r lands on once row d is deleted, read backwards: the
      row that row r held before. */
  function Up(r: nat, d: nat): nat
  {
    if r < d then r else r + 1
  }

  /** delete_rows(d, 1): rows below d move up by one. */
  function DeleteRow(ws: Sheet, d: nat): (r: Sheet)
    requires d >= 1
    ensures r.maxColumn == ws.maxColumn
    ensures r.maxRow == if d <= ws.maxRow then ws.maxRow - 1 else ws.maxRow
  {
    var cells := map p | p in ws.cells && p.row != d :: (if p.row < d then p else Pos(p.row - 1, p.col)) := ws.cells[p];
    Sheet(cells, if d <= ws.maxRow then ws.maxRow - 1 else ws.maxRow, ws.maxColumn)
  }

  lemma DeleteRowSpec(ws: Sheet, d: nat, q: Pos)
    requires d >= 1
    ensures CellAt(DeleteRow(ws, d), q) == CellAt(ws, Pos(Up(q.row, d), q.col))
  {
    var o := Pos(Up(q.row, d), q.col);
    assert o.row != d;
    assert q == (if o.row < d then o else Pos(o.row - 1, o.col));
    if q in DeleteRow(ws, d).cells {
      var p :| p in ws.cells && p.row != d && (if p.row < d then p else Pos(p.row - 1, p.col)) == q;
      assert p == o;
    }
  }

  /** Deleting the rows of an ascending sequence from the last to the
      first, as the source does with reversed(rows_to_delete). */
  function DeleteRows(ws: Sheet, ds: seq<nat>): Sheet
    requires forall i :: 0 <= i < |ds| ==> ds[i] >= 1
    decreases |ds|
  {
    if ds == [] then ws else DeleteRows(DeleteRow(ws, ds[|ds| - 1]), ds[..|ds| - 1])
  }

  /** The deletion loop of clean_formula_only_rows_func: the marked rows,
      taken in reverse order. */
  method DeleteMarkedRows(ws: Sheet, rowsToDelete: seq<nat>) returns (r: Sheet)
    requires AscendingRows(rowsToDelete, ws.maxRow)
    ensures r == DeleteRows(ws, rowsToDelete)
  {
    r := ws;
    var k := |rowsToDelete|;
    assert rowsToDelete[..k] == rowsToDelete;
    while k > 0
      invariant 0 <= k <= |rowsToDelete|
      invariant DeleteRows(r, rowsToDelete[..k]) == DeleteRows(ws, rowsToDelete)
    {
      assert rowsToDelete[..k][..k - 1] == rowsToDelete[..k - 1];
      r := DeleteRow(r, rowsToDelete[k - 1]);
      k := k - 1;
    }
    assert rowsToDelete[..0] == [];
  }

  /** The row of the original sheet that row r of DeleteRows(ws, ds) held. */
  function Origin(ds: seq<nat>, r: nat): nat
  {
    if ds == [] then r else Up(Origin(ds[..|ds| - 1], r), ds[|ds| - 1])
  }

  lemma {:induction false} DeleteRowsSpec(ws: Sheet, ds: seq<nat>, q: Pos)
    requires forall i :: 0 <= i < |ds| ==> ds[i] >= 1
    ensures CellAt(DeleteRows(ws, ds), q) == CellAt(ws, Pos(Origin(ds, q.row), q.col))
    ensures DeleteRows(ws, ds).maxColumn == ws.maxColumn
    decreases |ds|
  {
    if ds != [] {
      var last := ds[|ds| - 1];
      var init := ds[..|ds| - 1];
      DeleteRowsSpec(DeleteRow(ws, last), init, q);
      DeleteRowSpec(ws, last, Pos(Origin(init, q.row), q.col));
    }
  }

  /** With the rows deleted in an ascending sequence within 1..n, the
      sheet loses exactly that many rows. */
  lemma {:induction false} DeleteRowsMaxRow(ws: Sheet, ds: seq<nat>)
    requires AscendingRows(ds, ws.maxRow)
    ensures DeleteRows(ws, ds).maxRow == ws.maxRow - |ds|
    decreases |ds|
  {
    if ds != [] {
      var last := ds[|ds| - 1];
      var init := ds[..|ds| - 1];
      assert forall i :: 0 <= i < |init| ==> init[i] < last;
      DeleteRowsMaxRow(DeleteRow(ws, last), init);
    }
  }

  /** Origin, for an ascending sequence of deleted rows, never lands on a
      deleted row, keeps the order of rows, and reaches every row that was
      not deleted. */
  lemma {:induction false} OriginSpec(ds: seq<nat>, n: nat, r: nat, r': nat)
    requires AscendingRows(ds, n)
    ensures r >= 1 ==> Origin(ds, r) !in ds
    ensures Origin(ds, r) >= r
    ensures r < r' ==> Origin(ds, r) < Origin(ds, r')
  {
    if ds != [] {
      var last := ds[|ds| - 1];
      var init := ds[..|ds| - 1];
      assert forall i :: 0 <= i < |init| ==> init[i] < last;
      assert AscendingRows(init, n);
      OriginSpec(init, n, r, r');
    }
  }

  lemma {:induction false} OriginOnto(ds: seq<nat>, n: nat, x: nat)
    requires AscendingRows(ds, n)
    requires x >= 1 && x !in ds
    ensures exists r :: 1 <= r <= x && Origin(ds, r) == x
  {
    if ds == [] {
      assert Origin(ds, x) == x;
    } else {
      var last := ds[|ds| - 1];
      var init := ds[..|ds| - 1];
      assert forall i :: 0 <= i < |init| ==> init[i] < last;
      assert AscendingRows(init, n);
      var y := if x < last then x else x - 1;
      assert y >= 1;
      assert y !in init;
      OriginOnto(init, n, y);
      var r :| 1 <= r <= y && Origin(init, r) == y;
      assert Origin(ds, r) == x;
    }
  }

  /** clean_formula_only_rows_func's result on a sheet with header row h. */
  function Cleaned(ws: Sheet, header: nat): Sheet
  {
    RowsToDeleteSpec(ws, header, ws.maxRow);
    DeleteRows(ws, RowsToDelete(ws, header, ws.maxRow))
  }

  /** After cleaning, each row holds the cells of an original row that is
      the header or has plain data (or lies past max_row), in the original
      order; every such original row within max_row is kept; the sheet
      loses one row per deleted row. */
  lemma CleanedSpec(ws: Sheet, header: nat, q: Pos, q': Pos)
    requires q.row >= 1
    ensures var ds := RowsToDelete(ws, header, ws.maxRow);
      && Cleaned(ws, header).maxRow == ws.maxRow - |ds|
      && Cleaned(ws, header).maxColumn == ws.maxColumn
      && CellAt(Cleaned(ws, header), q) == CellAt(ws, Pos(Origin(ds, q.row), q.col))
      && (var o := Origin(ds, q.row); o == header || RowKeeps(ws, o) || o > ws.maxRow)
      && (q.row < q'.row ==> Origin(ds, q.row) < Origin(ds, q'.row))
    ensures 1 <= q.row <= ws.maxRow && (q.row == header || RowKeeps(ws, q.row)) ==>
      exists r :: 1 <= r <= q.row && Origin(RowsToDelete(ws, header, ws.maxRow), r) == q.row
  {
    var ds := RowsToDelete(ws, header, ws.maxRow);
    RowsToDeleteSpec(ws, header, ws.maxRow);
    DeleteRowsSpec(ws, ds, q);
    DeleteRowsMaxRow(ws, ds);
    OriginSpec(ds, ws.maxRow, q.row, q'.row);
    if 1 <= q.row <= ws.maxRow && (q.row == header || RowKeeps(ws, q.row)) {
      OriginOnto(ds, ws.maxRow, q.row);
    }
  }

  /* ---------------------------------------------------------------- */
  /* The formatter                                                     */
  /* ---------------------------------------------------------------- */

  /** How a run of format_excel ends: the target saved to `path`, or an
      exception with its message and, when error messages were collected,
      the path the input was copied to. */
  datatype RunOutcome = Written(path: string, sheet: Sheet) | Raised(message: string, copiedTo: Option<string>)

  /** One worksheet as load_files gets it: load_workbook gives the
      workbook or fails with its message, and indexing an opened workbook
      by the sheet name gives the sheet or fails with its message. */
  type SheetLoad = Result<Result<Sheet>>

  /** load_files gets past its try block: the mapping file exists and
      parses, both workbooks open and both sheets are found. */
  predicate Loaded(mappingExists: bool, records: Result<seq<ColumnMapping>>, inputLoad: SheetLoad, targetLoad: SheetLoad)
  {
    mappingExists && records.Ok? && inputLoad.Ok? && targetLoad.Ok? && inputLoad.value.Ok? && targetLoad.value.Ok?
  }

  function ProblematicPath(inputFile: string): string
  {
    JoinPath("data/problematic", Base(inputFile))
  }

  class Formatter {
    const inputFile: string
    const mappingFile: string
    const outputFile: string
    const tolerance: int
    const cleanRows: bool
    var scannedToTarget: map<string, string>
    var ignoredScanned: set<string>
    var errorMessages: seq<string>
    var input: Sheet
    var target: Sheet
    var inputHeaderRow: nat
    var targetHeaderRow: nat
    var inputTableEndRow: nat

    constructor(inputFile: string, mappingFile: string, outputFile: string, tolerance: int, cleanRows: bool)
      ensures this.inputFile == inputFile && this.mappingFile == mappingFile && this.outputFile == outputFile
      ensures this.tolerance == tolerance && this.cleanRows == cleanRows
      ensures scannedToTarget == map[] && ignoredScanned == {} && errorMessages == []
      ensures input == Sheet(map[], 0, 0) && target == Sheet(map[], 0, 0)
    {
      this.inputFile := inputFile;
      this.mappingFile := mappingFile;
      this.outputFile := outputFile;
      this.tolerance := tolerance;
      this.cleanRows := cleanRows;
      scannedToTarget := map[];
      ignoredScanned := {};
      errorMessages := [];
      input := Sheet(map[], 0, 0);
      target := Sheet(map[], 0, 0);
      inputHeaderRow := 1;
      targetHeaderRow := 1;
      inputTableEndRow := 1;
    }

    function CurrentMappings(): Mappings
      reads this
    {
      Mappings(scannedToTarget, ignoredScanned)
    }

    twostate predicate SameMappings()
      reads this
    {
      scannedToTarget == old(scannedToTarget) && ignoredScanned == old(ignoredScanned) && errorMessages == old(errorMessages)
    }

    twostate predicate SameRows()
      reads this
    {
      inputHeaderRow == old(inputHeaderRow) && targetHeaderRow == old(targetHeaderRow) && inputTableEndRow == old(inputTableEndRow)
    }

    /** load_files. `records` is the mapping file's records or why they
        cannot be read. The records are read first; then both workbooks
        are opened, the input's before the target's, and only then are
        the two sheets looked up, again the input's first. */
    method LoadFiles(mappingExists: bool, records: Result<seq<ColumnMapping>>,
                     inputLoad: SheetLoad, targetLoad: SheetLoad)
      returns (error: Option<string>)
      modifies this
      ensures !mappingExists ==> error == Some("Failed to load files: Mapping file not found: " + mappingFile)
      ensures mappingExists && records.Err? ==> error == Some("Failed to load files: " + records.error)
      ensures mappingExists && records.Ok? && inputLoad.Err? ==> error == Some("Failed to load files: " + inputLoad.error)
      ensures mappingExists && records.Ok? && inputLoad.Ok? && targetLoad.Err? ==>
        error == Some("Failed to load files: " + targetLoad.error)
      ensures mappingExists && records.Ok? && inputLoad.Ok? && targetLoad.Ok? && inputLoad.value.Err? ==>
        error == Some("Failed to load files: " + inputLoad.value.error)
      ensures mappingExists && records.Ok? && inputLoad.Ok? && targetLoad.Ok? && inputLoad.value.Ok? && targetLoad.value.Err? ==>
        error == Some("Failed to load files: " + targetLoad.value.error)
      ensures error.None? <==> Loaded(mappingExists, records, inputLoad, targetLoad)
      ensures CurrentMappings() ==
        if mappingExists && records.Ok? then LoadOnto(old(CurrentMappings()), records.value) else old(CurrentMappings())
      ensures error.None? ==> input == inputLoad.value.value && target == targetLoad.value.value
      ensures error.Some? ==> input == old(input) && target == old(target)
      ensures errorMessages == old(errorMessages) && SameRows()
    {
      if !mappingExists {
        return Some("Failed to load files: Mapping file not found: " + mappingFile);
      }
      if records.Err? {
        return Some("Failed to load files: " + records.error);
      }
      var rs := records.value;
      var m := CurrentMappings();
      var i := 0;
      while i < |rs|
        invariant i <= |rs|
        invariant m == LoadOnto(old(CurrentMappings()), rs[..i])
      {
        var r := rs[i];
        if r.isIgnored {
          m := m.(ignored := m.ignored + {r.scannedColumn});
        } else if r.targetColumn != "" {
          m := m.(scannedToTarget := m.scannedToTarget[r.scannedColumn := r.targetColumn]);
        }
        assert rs[..i + 1][..i] == rs[..i];
        i := i + 1;
      }
      assert rs[..i] == rs;
      scannedToTarget := m.scannedToTarget;
      ignoredScanned := m.ignored;
      if inputLoad.Err? {
        return Some("Failed to load files: " + inputLoad.error);
      }
      if targetLoad.Err? {
        return Some("Failed to load files: " + targetLoad.error);
      }
      if inputLoad.value.Err? {
        return Some("Failed to load files: " + inputLoad.value.error);
      }
      if targetLoad.value.Err? {
        return Some("Failed to load files: " + targetLoad.value.error);
      }
      input := inputLoad.value.value;
      target := targetLoad.value.value;
      return None;
    }

    /** get_input_headers: detects the input's header row and table end,
        and returns the header dict of the header row. */
    method GetInputHeaders() returns (headers: Dict<nat>)
      modifies this
      ensures inputHeaderRow == HeaderRow(input)
      ensures IsTableEnd(input, inputHeaderRow, tolerance, inputTableEndRow)
      ensures headers == InputHeaders(input, inputHeaderRow, input.maxColumn)
      ensures input == old(input) && target == old(target) && targetHeaderRow == old(targetHeaderRow) && SameMappings()
    {
      var headerRow := DetectHeaderRow(input);
      inputTableEndRow := DetectTableEndRow(input, headerRow, tolerance);
      headers := ReadInputHeaders(input, headerRow);
      inputHeaderRow := headerRow;
    }

    /** get_target_headers: detects the target's header row and returns
        its (name, column) pairs. */
    method GetTargetHeaders() returns (headers: seq<(string, nat)>)
      modifies this
      ensures targetHeaderRow == HeaderRow(target)
      ensures headers == TargetHeaders(target, targetHeaderRow)
      ensures input == old(input) && target == old(target) && SameMappings()
      ensures inputHeaderRow == old(inputHeaderRow) && inputTableEndRow == old(inputTableEndRow)
    {
      var headerRow := DetectHeaderRow(target);
      headers := ReadTargetHeaders(target, headerRow);
      targetHeaderRow := headerRow;
    }

    /** clear_column_data: data rows of column `colIdx` up to `maxRow`
        lose their value. */
    method ClearColumnData(colIdx: nat, maxRow: int)
      modifies this
      ensures forall p ::
                CellAt(target, p) == (if p.col == colIdx && targetHeaderRow < p.row <= maxRow
                                      then Cell(None, CellAt(old(target), p).numberFormat)
                                      else CellAt(old(target), p))
      ensures target.maxRow == if targetHeaderRow < maxRow then Max(old(target.maxRow), maxRow) else old(target.maxRow)
      ensures target.maxColumn == if targetHeaderRow < maxRow then Max(old(target.maxColumn), colIdx) else old(target.maxColumn)
      ensures input == old(input) && SameMappings() && SameRows()
    {
      var th := targetHeaderRow;
      var before := target;
      var ws := target;
      var rowIdx := th + 1;
      while rowIdx <= maxRow
        invariant th + 1 <= rowIdx && (rowIdx <= maxRow + 1 || rowIdx == th + 1)
        invariant forall p ::
                    CellAt(ws, p) == (if p.col == colIdx && th < p.row < rowIdx
                                      then Cell(None, CellAt(before, p).numberFormat)
                                      else CellAt(before, p))
        invariant ws.maxRow == if rowIdx > th + 1 then Max(before.maxRow, rowIdx - 1) else before.maxRow
        invariant ws.maxColumn == if rowIdx > th + 1 then Max(before.maxColumn, colIdx) else before.maxColumn
      {
        var cell := CellAt(ws, Pos(rowIdx, colIdx));
        ws := Write(ws, Pos(rowIdx, colIdx), Cell(None, cell.numberFormat));
        rowIdx := rowIdx + 1;
      }
      target := ws;
    }

    /** process_column_with_mapping: input rows after the input header
        row are copied, in order, to the target rows after the target
        header row, from input column `inputColIdx` to `targetColIdx`. */
    method ProcessColumnWithMapping(targetColIdx: nat, inputColIdx: nat)
      modifies this
      ensures forall p ::
                CellAt(target, p) == CopiedCell(input, old(target), targetColIdx, inputColIdx, targetHeaderRow, inputHeaderRow,
                                                input.maxRow - inputHeaderRow, p)
      ensures target.maxRow ==
        if inputHeaderRow < input.maxRow then Max(old(target.maxRow), targetHeaderRow + (input.maxRow - inputHeaderRow))
        else old(target.maxRow)
      ensures target.maxColumn == if inputHeaderRow < input.maxRow then Max(old(target.maxColumn), targetColIdx) else old(target.maxColumn)
      ensures input == old(input) && SameMappings() && SameRows()
    {
      var th := targetHeaderRow;
      var ih := inputHeaderRow;
      var src := input;
      var before := target;
      var ws := target;
      var inputRowIdx := ih + 1;
      while inputRowIdx <= src.maxRow
        modifies {}
        invariant ih + 1 <= inputRowIdx && (inputRowIdx <= src.maxRow + 1 || inputRowIdx == ih + 1)
        invariant forall p :: CellAt(ws, p) == CopiedCell(src, before, targetColIdx, inputColIdx, th, ih, inputRowIdx - 1 - ih, p)
        invariant ws.maxRow == if inputRowIdx > ih + 1 then Max(before.maxRow, th + (inputRowIdx - 1 - ih)) else before.maxRow
        invariant ws.maxColumn == if inputRowIdx > ih + 1 then Max(before.maxColumn, targetColIdx) else before.maxColumn
      {
        var targetRowIdx := th + 1 + (inputRowIdx - (ih + 1));
        var inputCell := CellAt(src, Pos(inputRowIdx, inputColIdx));
        var targetCell := CellAt(ws, Pos(targetRowIdx, targetColIdx));
        ghost var here := ws;
        ws := Write(ws, Pos(targetRowIdx, targetColIdx), Copy(inputCell, targetCell));
        CopiedCellStep(src, before, here, ws, targetColIdx, inputColIdx, th, ih, inputRowIdx - 1 - ih);
        inputRowIdx := inputRowIdx + 1;
      }
      assert inputRowIdx - 1 - ih == if ih < src.maxRow then src.maxRow - ih else 0;
      forall p
        ensures CellAt(ws, p) == CopiedCell(src, before, targetColIdx, inputColIdx, th, ih, src.maxRow - ih, p)
      {
        assert CellAt(ws, p) == CopiedCell(src, before, targetColIdx, inputColIdx, th, ih, inputRowIdx - 1 - ih, p);
      }
      target := ws;
    }

    /** clean_formula_only_rows_func: when enabled, the rows without
        plain data other than the header row are deleted. */
    method CleanFormulaOnlyRows()
      modifies this
      ensures target == if cleanRows then Cleaned(old(target), targetHeaderRow) else old(target)
      ensures input == old(input) && SameMappings() && SameRows()
    {
      if !cleanRows {
        return;
      }
      var rowsToDelete := MarkRows(target, targetHeaderRow);
      RowsToDeleteSpec(target, targetHeaderRow, target.maxRow);
      target := DeleteMarkedRows(target, rowsToDelete);
    }

    /** The clearing loop of format_excel over the target headers. */
    method ClearNamedColumns(headers: seq<(string, nat)>, maxTargetRow: int, ghost pl: Plan)
      modifies this
      requires Shaped(pl) && pl.target == target && pl.targetHeaderRow == targetHeaderRow
      requires headers == pl.targetHeaders && maxTargetRow == MaxTargetRow(pl)
      ensures forall p :: CellAt(target, p) == ClearedCell(pl, |headers|, p)
      ensures target.maxColumn == pl.target.maxColumn && target.maxRow == PreparedMaxRow(pl)
      ensures input == old(input) && SameMappings() && SameRows()
    {
      var k := 0;
      while k < |headers|
        invariant k <= |headers|
        invariant input == old(input) && targetHeaderRow == pl.targetHeaderRow
        invariant forall p :: CellAt(target, p) == ClearedCell(pl, k, p)
        invariant target.maxColumn == pl.target.maxColumn
        invariant target.maxRow == if AnyNamed(pl, k) && targetHeaderRow < maxTargetRow then maxTargetRow else pl.target.maxRow
        invariant SameMappings() && SameRows()
      {
        ghost var here := target;
        NamedStep(pl, k);
        assert headers[k].1 == k + 1;
        if headers[k].0 != "" {
          ClearColumnData(headers[k].1, maxTargetRow);
        }
        ClearedStep(pl, k, here, target);
        k := k + 1;
      }
    }

    /** The copying loop of format_excel over the target headers. */
    method CopyMappedColumns(headers: seq<(string, nat)>, inputHeaders: Dict<nat>, applicable: Dict<string>, ghost pl: Plan)
      modifies this
      requires Shaped(pl)
      requires input == pl.input && inputHeaderRow == pl.inputHeaderRow && targetHeaderRow == pl.targetHeaderRow
      requires CurrentMappings() == pl.mappings
      requires headers == pl.targetHeaders && inputHeaders == pl.inputHeaders
      requires CollectedUpTo(inputHeaders.keys, headers, pl.mappings, |headers|, applicable)
      requires target.maxColumn == pl.target.maxColumn && target.maxRow == PreparedMaxRow(pl)
      ensures forall p :: CellAt(target, p) == MappedCell(pl, |headers|, p, CellAt(old(target), p))
      ensures target.maxColumn == old(target.maxColumn) && target.maxRow == old(target.maxRow)
      ensures input == old(input) && SameMappings() && SameRows()
    {
      ghost var before := target;
      var k := 0;
      while k < |headers|
        invariant k <= |headers|
        invariant input == pl.input && CurrentMappings() == pl.mappings
        invariant inputHeaderRow == pl.inputHeaderRow && targetHeaderRow == pl.targetHeaderRow
        invariant forall p :: CellAt(target, p) == MappedCell(pl, k, p, CellAt(before, p))
        invariant target.maxColumn == before.maxColumn && target.maxRow == before.maxRow
        invariant SameMappings() && SameRows()
      {
        CopyMappedColumn(headers, inputHeaders, applicable, pl, before, k);
        k := k + 1;
      }
    }

    /** One pass of the copying loop: header k is copied from its input
        column when it has an applicable mapping. */
    method CopyMappedColumn(headers: seq<(string, nat)>, inputHeaders: Dict<nat>, applicable: Dict<string>,
                            ghost pl: Plan, ghost before: Sheet, k: nat)
      modifies this
      requires Shaped(pl) && k < |headers|
      requires input == pl.input && inputHeaderRow == pl.inputHeaderRow && targetHeaderRow == pl.targetHeaderRow
      requires headers == pl.targetHeaders && inputHeaders == pl.inputHeaders
      requires CollectedUpTo(inputHeaders.keys, headers, pl.mappings, |headers|, applicable)
      requires before.maxColumn == pl.target.maxColumn && before.maxRow == PreparedMaxRow(pl)
      requires forall p :: CellAt(target, p) == MappedCell(pl, k, p, CellAt(before, p))
      requires target.maxColumn == before.maxColumn && target.maxRow == before.maxRow
      ensures forall p :: CellAt(target, p) == MappedCell(pl, k + 1, p, CellAt(before, p))
      ensures target.maxColumn == before.maxColumn && target.maxRow == before.maxRow
      ensures input == old(input) && SameMappings() && SameRows()
    {
      ghost var here := target;
      assert headers[k].1 == k + 1;
      ApplicableSource(pl, applicable, k);
      var name := headers[k].0;
      if name != "" && name in applicable.entries {
        var inputColumn := applicable.entries[name];
        var inputColIdx := inputHeaders.entries[inputColumn];
        MappedBounds(pl, k);
        ProcessColumnWithMapping(headers[k].1, inputColIdx);
      }
      MappedStep(pl, k, before, here, target);
    }

    /** The body of format_excel between reading the headers and cleaning
        rows: the applicable mappings are found, named target columns are
        cleared and mapped columns copied. */
    method FormatTarget(inputHeaders: Dict<nat>, targetHeaders: seq<(string, nat)>, ghost pl: Plan)
      modifies this
      requires Shaped(pl)
      requires input == pl.input && target == pl.target && CurrentMappings() == pl.mappings
      requires inputHeaderRow == pl.inputHeaderRow && targetHeaderRow == pl.targetHeaderRow
      requires inputHeaders == pl.inputHeaders && targetHeaders == pl.targetHeaders
      ensures Prepared(pl, target)
      ensures input == old(input) && SameMappings() && SameRows()
    {
      var applicable := FindApplicableMappings(inputHeaders, targetHeaders, CurrentMappings());
      var inputDataRows := input.maxRow - inputHeaderRow;
      var targetMaxNeededRow := targetHeaderRow + inputDataRows;
      var maxTargetRow := if target.maxRow >= targetMaxNeededRow then target.maxRow else targetMaxNeededRow;
      ClearNamedColumns(targetHeaders, maxTargetRow, pl);
      ghost var cleared := target;
      CopyMappedColumns(targetHeaders, inputHeaders, applicable, pl);
      forall p
        ensures CellAt(target, p) == FormattedCell(pl, p)
      {
        assert CellAt(cleared, p) == ClearedCell(pl, |targetHeaders|, p);
      }
    }

    /** format_excel once load_files has succeeded: detect the headers,
        clear and fill the target's named columns, clean the rows, then
        raise when error messages were collected, else save. */
    method FormatLoaded(saveError: Option<string>) returns (outcome: RunOutcome)
      modifies this
      ensures old(errorMessages) != [] ==>
        outcome == Raised("Formatting failed due to errors", Some(ProblematicPath(inputFile)))
      ensures old(errorMessages) == [] ==>
        && inputHeaderRow == HeaderRow(old(input))
        && targetHeaderRow == HeaderRow(old(target))
        && IsTableEnd(old(input), inputHeaderRow, tolerance, inputTableEndRow)
        && (saveError.Some? ==> outcome == Raised(saveError.value, None))
        && (saveError.None? ==>
              && outcome.Written? && outcome.path == outputFile
              && exists s :: Prepared(MakePlan(old(input), old(target), inputHeaderRow, targetHeaderRow,
                                               old(CurrentMappings())), s)
                             && outcome.sheet == (if cleanRows then Cleaned(s, targetHeaderRow) else s))
    {
      inputHeaderRow := 1;
      targetHeaderRow := 1;
      var inputHeaders := GetInputHeaders();
      var targetHeaders := GetTargetHeaders();
      ghost var pl := MakePlan(input, target, inputHeaderRow, targetHeaderRow, CurrentMappings());
      ConsistentShaped(pl);
      assert pl == MakePlan(old(input), old(target), inputHeaderRow, targetHeaderRow, old(CurrentMappings()));
      FormatTarget(inputHeaders, targetHeaders, pl);
      ghost var prepared := target;
      assert Prepared(pl, prepared);
      CleanFormulaOnlyRows();
      if errorMessages != [] {
        return Raised("Formatting failed due to errors", Some(ProblematicPath(inputFile)));
      }
      assert target == (if cleanRows then Cleaned(prepared, targetHeaderRow) else prepared);
      if saveError.Some? {
        return Raised(saveError.value, None);
      }
      return Written(outputFile, target);
    }

    /** format_excel. `saveError` is None when target_wb.save succeeds,
        otherwise the message of the exception it raises. */
    method FormatExcel(mappingExists: bool, records: Result<seq<ColumnMapping>>,
                       inputLoad: SheetLoad, targetLoad: SheetLoad, saveError: Option<string>)
      returns (outcome: RunOutcome)
      modifies this
      ensures var loaded := Loaded(mappingExists, records, inputLoad, targetLoad);
        && (!loaded ==>
              && outcome.Raised?
              && StartsWith(outcome.message, "Failed to load files: ")
              && outcome.copiedTo == (if old(errorMessages) != [] then Some(ProblematicPath(inputFile)) else None))
        && (loaded && old(errorMessages) != [] ==>
              outcome == Raised("Formatting failed due to errors", Some(ProblematicPath(inputFile))))
        && (loaded && old(errorMessages) == [] ==>
              && inputHeaderRow == HeaderRow(inputLoad.value.value)
              && targetHeaderRow == HeaderRow(targetLoad.value.value)
              && IsTableEnd(inputLoad.value.value, inputHeaderRow, tolerance, inputTableEndRow)
              && (saveError.Some? ==> outcome == Raised(saveError.value, None))
              && (saveError.None? ==>
                    && outcome.Written? && outcome.path == outputFile
                    && exists s :: Prepared(MakePlan(inputLoad.value.value, targetLoad.value.value, inputHeaderRow, targetHeaderRow,
                                                     LoadOnto(old(CurrentMappings()), records.value)), s)
                                   && outcome.sheet == (if cleanRows then Cleaned(s, targetHeaderRow) else s)))
      ensures !mappingExists ==>
        outcome.Raised? && outcome.message == "Failed to load files: Mapping file not found: " + mappingFile
    {
      var error := LoadFiles(mappingExists, records, inputLoad, targetLoad);
      if error.Some? {
        var copiedTo := if errorMessages != [] then Some(ProblematicPath(inputFile)) else None;
        return Raised(error.value, copiedTo);
      }
      ghost var loadedInput, loadedTarget, loadedMappings := input, target, CurrentMappings();
      assert loadedInput == inputLoad.value.value && loadedTarget == targetLoad.value.value;
      assert loadedMappings == LoadOnto(old(CurrentMappings()), records.value);
      outcome := FormatLoaded(saveError);
    }
  }

  /** What format_single_file produces for one sheet: a fresh formatter
      run on the given files; a failed save raises its own exception and
      copies nothing. */
  ghost predicate SingleFileResult(inputFile: string, mappingFile: string, outputFile: string, tolerance: int, cleanRows: bool,
                             mappingExists: bool, records: Result<seq<ColumnMapping>>,
                             inputLoad: SheetLoad, targetLoad: SheetLoad, saveError: Option<string>, outcome: RunOutcome)
  {
    if !Loaded(mappingExists, records, inputLoad, targetLoad) then
      && outcome.Raised? && outcome.copiedTo.None?
      && StartsWith(outcome.message, "Failed to load files: ")
      && (!mappingExists ==> outcome.message == "Failed to load files: Mapping file not found: " + mappingFile)
    else if saveError.Some? then
      outcome == Raised(saveError.value, None)
    else
      var input := inputLoad.value.value;
      var target := targetLoad.value.value;
      var pl := MakePlan(input, target, HeaderRow(input), HeaderRow(target), LoadOnto(NoMappings, records.value));
      && outcome.Written? && outcome.path == outputFile
      && exists s :: Prepared(pl, s) && outcome.sheet == (if cleanRows then Cleaned(s, pl.targetHeaderRow) else s)
  }

  /** format_single_file: a new formatter starts with no error messages,
      so a run never copies its input to the problematic directory. */
  method FormatSingleFile(inputFile: string, mappingFile: string, outputFile: string, tolerance: int, cleanRows: bool,
                          mappingExists: bool, records: Result<seq<ColumnMapping>>,
                          inputLoad: SheetLoad, targetLoad: SheetLoad, saveError: Option<string>)
    returns (outcome: RunOutcome)
    ensures SingleFileResult(inputFile, mappingFile, outputFile, tolerance, cleanRows, mappingExists, records,
                             inputLoad, targetLoad, saveError, outcome)
  {
    var formatter := new Formatter(inputFile, mappingFile, outputFile, tolerance, cleanRows);
    assert formatter.CurrentMappings() == NoMappings;
    outcome := formatter.FormatExcel(mappingExists, records, inputLoad, targetLoad, saveError);
  }

  /** The output file of a sheet: data/results/<input stem>-<sheet>.xlsx. */
  function SheetOutputPath(inputFile: string, sheet: string): string
  {
    JoinPath("data/results", PyStem(PyName(inputFile)) + "-" + sheet + ".xlsx")
  }

  /** Each sheet gets its own output file named after the input file. */
  lemma SheetOutputPathSpec(inputFile: string, sheet1: string, sheet2: string)
    ensures StartsWith(SheetOutputPath(inputFile, sheet1), JoinPath("data/results", PyStem(PyName(inputFile)) + "-"))
    ensures EndsWith(SheetOutputPath(inputFile, sheet1), sheet1 + ".xlsx")
    ensures sheet1 != sheet2 ==> SheetOutputPath(inputFile, sheet1) != SheetOutputPath(inputFile, sheet2)
  {
    var stem := PyStem(PyName(inputFile));
    FramedNames(JoinPath("data/results", stem + "-"), sheet1, sheet2, ".xlsx");
    OutputPathParts("data/results", stem, sheet1);
    OutputPathParts("data/results", stem, sheet2);
  }

  datatype NamedSheet = NamedSheet(name: string, sheet: Sheet)

  /** The input as one run of format_all_sheets loads it again: the
      reopened workbook's error, or the named sheet. */
  function Reloaded(reloadError: Option<string>, sheet: Sheet): SheetLoad
  {
    if reloadError.Some? then Err(reloadError.value) else Ok(Ok(sheet))
  }

  /** The result of one sheet in format_all_sheets. */
  datatype SheetOutcome = SheetOutcome(name: string, outputFile: string, outcome: RunOutcome)

  /** format_all_sheets: the three files must exist, data/results must be
      created, and the input workbook must open and hold a sheet; then
      every sheet is formatted into its own file, and a sheet that fails
      does not stop the others. `resultsDirError` is None when the mkdir
      of data/results succeeds, else its exception's message;
      `inputSheets` is the input workbook's sheets or why it cannot be
      opened; `targetLoad` is the target workbook and sheet as each run
      loads them; `saveError` gives, for an output path, the message of a
      failed save there, None when the save succeeds. Each run reopens the
      input workbook and finds the sheet it was named after; `reloadError`
      gives, for a sheet name, the message of a failed reopening, None
      when it succeeds. */
  method FormatAllSheets(inputFile: string, targetFile: string, mappingFile: string,
                         inputExists: bool, targetExists: bool, mappingExists: bool,
                         resultsDirError: Option<string>,
                         inputSheets: Result<seq<NamedSheet>>, targetLoad: SheetLoad,
                         records: Result<seq<ColumnMapping>>, reloadError: string -> Option<string>,
                         saveError: string -> Option<string>, tolerance: int, cleanRows: bool)
    returns (result: Result<seq<SheetOutcome>>)
    ensures !inputExists ==> result == Err("File not found: " + inputFile)
    ensures inputExists && !targetExists ==> result == Err("File not found: " + targetFile)
    ensures inputExists && targetExists && !mappingExists ==> result == Err("File not found: " + mappingFile)
    ensures inputExists && targetExists && mappingExists && resultsDirError.Some? ==>
      result == Err(resultsDirError.value)
    ensures inputExists && targetExists && mappingExists && resultsDirError.None? && inputSheets.Err? ==>
      result == Err(inputSheets.error)
    ensures inputExists && targetExists && mappingExists && resultsDirError.None? && inputSheets == Ok([]) ==>
      result == Err("No sheets found in input file")
    ensures result.Ok? <==>
      inputExists && targetExists && mappingExists && resultsDirError.None? && inputSheets.Ok? && inputSheets.value != []
    ensures result.Ok? ==>
      && |result.value| == |inputSheets.value|
      && forall k :: 0 <= k < |result.value| ==>
           && result.value[k].name == inputSheets.value[k].name
           && result.value[k].outputFile == SheetOutputPath(inputFile, inputSheets.value[k].name)
           && SingleFileResult(inputFile, mappingFile, result.value[k].outputFile, tolerance, cleanRows, mappingExists,
                               records, Reloaded(reloadError(inputSheets.value[k].name), inputSheets.value[k].sheet), targetLoad,
                               saveError(result.value[k].outputFile), result.value[k].outcome)
  {
    if !inputExists {
      return Err("File not found: " + inputFile);
    }
    if !targetExists {
      return Err("File not found: " + targetFile);
    }
    if !mappingExists {
      return Err("File not found: " + mappingFile);
    }
    if resultsDirError.Some? {
      return Err(resultsDirError.value);
    }
    if inputSheets.Err? {
      return Err(inputSheets.error);
    }
    var sheets := inputSheets.value;
    if sheets == [] {
      return Err("No sheets found in input file");
    }
    var outcomes: seq<SheetOutcome> := [];
    var k := 0;
    while k < |sheets|
      invariant k <= |sheets| && |outcomes| == k
      invariant forall j :: 0 <= j < k ==>
        && outcomes[j].name == sheets[j].name
        && outcomes[j].outputFile == SheetOutputPath(inputFile, sheets[j].name)
        && SingleFileResult(inputFile, mappingFile, outcomes[j].outputFile, tolerance, cleanRows, mappingExists,
                            records, Reloaded(reloadError(sheets[j].name), sheets[j].sheet), targetLoad, saveError(outcomes[j].outputFile),
                            outcomes[j].outcome)
    {
      var outputFile := SheetOutputPath(inputFile, sheets[k].name);
      var outcome := FormatSingleFile(inputFile, mappingFile, outputFile, tolerance, cleanRows, mappingExists,
                                      records, Reloaded(reloadError(sheets[k].name), sheets[k].sheet), targetLoad, saveError(outputFile));
      outcomes := outcomes + [SheetOutcome(sheets[k].name, outputFile, outcome)];
      k := k + 1;
    }
    return Ok(outcomes);
  }
}
