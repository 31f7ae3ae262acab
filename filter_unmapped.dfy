/** The unmapped-columns report (filter_unmapped.py): the scanned column
    names that no saved mapping record mentions, ignored records included.
    The scanned-columns file is given as its lines and the mapping file as
    its parsed records; the result is the lines the report prints. */
module FilterUnmapped {
  import opened Text
  import opened MappingTypes

  /** The scanned columns: each line stripped, blank lines dropped, in
      file order. */
  function ScannedColumns(lines: seq<string>): (cols: seq<string>)
    ensures |cols| <= |lines|
    ensures forall c :: c in cols ==> c != "" && PyStrip(c) == c
  {
    if lines == [] then []
    else
      var rest := ScannedColumns(lines[..|lines| - 1]);
      var line := PyStrip(lines[|lines| - 1]);
      TrimWithIdempotent(lines[|lines| - 1], PyIsSpace);
      if line != "" then rest + [line] else rest
  }

  /** A column name is scanned exactly when some line strips to it. */
  lemma {:induction false} ScannedColumnsSpec(lines: seq<string>, c: string)
    ensures c in ScannedColumns(lines) <==> c != "" && exists i :: 0 <= i < |lines| && PyStrip(lines[i]) == c
  {
    if lines != [] {
      var init := lines[..|lines| - 1];
      ScannedColumnsSpec(init, c);
      assert forall i :: 0 <= i < |init| ==> init[i] == lines[i];
      if c != "" && exists i :: 0 <= i < |lines| && PyStrip(lines[i]) == c {
        var i :| 0 <= i < |lines| && PyStrip(lines[i]) == c;
        if i < |init| {
          assert PyStrip(init[i]) == c;
        }
      }
    }
  }

  /** The scanned column of every record. */
  function MappedOf(records: seq<ColumnMapping>): (mapped: set<string>)
    ensures forall i :: 0 <= i < |records| ==> records[i].scannedColumn in mapped
    ensures forall c :: c in mapped ==> exists i :: 0 <= i < |records| && records[i].scannedColumn == c
  {
    if records == [] then {}
    else
      var init := records[..|records| - 1];
      assert forall i :: 0 <= i < |init| ==> init[i] == records[i];
      MappedOf(init) + {records[|records| - 1].scannedColumn}
  }

  /** The loop that collects the mapped columns; a record counts whether
      or not it is ignored. */
  method MappedColumns(records: seq<ColumnMapping>) returns (mapped: set<string>)
    ensures mapped == MappedOf(records)
  {
    mapped := {};
    var i := 0;
    while i < |records|
      invariant 0 <= i <= |records|
      invariant mapped == MappedOf(records[..i])
    {
      assert records[..i + 1][..i] == records[..i];
      mapped := mapped + {records[i].scannedColumn};
      i := i + 1;
    }
    assert records[..i] == records;
  }

  /** The scanned columns not in the mapped set, in their order. */
  function Unmapped(scanned: seq<string>, mapped: set<string>): (r: seq<string>)
    ensures |r| <= |scanned|
  {
    if scanned == [] then []
    else
      var rest := Unmapped(scanned[..|scanned| - 1], mapped);
      var last := scanned[|scanned| - 1];
      if last in mapped then rest else rest + [last]
  }

  /** Filtering distributes over concatenation, so it keeps the order of
      the scanned columns. */
  lemma {:induction false} UnmappedAppend(a: seq<string>, b: seq<string>, mapped: set<string>)
    ensures Unmapped(a + b, mapped) == Unmapped(a, mapped) + Unmapped(b, mapped)
    decreases |b|
  {
    if b == [] {
      assert a + b == a;
    } else {
      var init := b[..|b| - 1];
      UnmappedAppend(a, init, mapped);
      assert (a + b)[..|a + b| - 1] == a + init;
      assert (a + b)[|a + b| - 1] == b[|b| - 1];
    }
  }

  /** A column is unmapped exactly when it is scanned and not mapped. */
  lemma {:induction false} UnmappedMembers(scanned: seq<string>, mapped: set<string>, c: string)
    ensures c in Unmapped(scanned, mapped) <==> c in scanned && c !in mapped
  {
    if scanned != [] {
      var init := scanned[..|scanned| - 1];
      UnmappedMembers(init, mapped, c);
      assert scanned == init + [scanned[|scanned| - 1]];
    }
  }

  /** With nothing mapped, every scanned column is unmapped. */
  lemma {:induction false} UnmappedNone(scanned: seq<string>)
    ensures Unmapped(scanned, {}) == scanned
  {
    if scanned != [] {
      UnmappedNone(scanned[..|scanned| - 1]);
      assert scanned == scanned[..|scanned| - 1] + [scanned[|scanned| - 1]];
    }
  }

  /** The report's line for each unmapped column. */
  function Listed(cols: seq<string>): (r: seq<string>)
    ensures |r| == |cols| && forall i :: 0 <= i < |cols| ==> r[i] == cols[i] + "|"
  {
    if cols == [] then [] else [cols[0] + "|"] + Listed(cols[1..])
  }

  /** The lines of the report over the scanned columns and the mapped set:
      the three totals, a blank line, a title and one line per unmapped
      column. */
  function Report(scanned: seq<string>, mapped: set<string>): seq<string>
  {
    var unmapped := Unmapped(scanned, mapped);
    ["Total scanned columns: " + NatToDecimal(|scanned|),
     "Mapped/ignored columns: " + NatToDecimal(|mapped|),
     "Unmapped columns: " + NatToDecimal(|unmapped|),
     "",
     "Unmapped columns:"] + Listed(unmapped)
  }

  /** After five fixed lines, the report has one line per unmapped column,
      and a column is listed exactly when it is scanned and not mapped. */
  lemma ReportSpec(scanned: seq<string>, mapped: set<string>)
    ensures var r := Report(scanned, mapped);
      && |r| == 5 + |Unmapped(scanned, mapped)|
      && r[4] == "Unmapped columns:"
      && forall c :: c + "|" in r[5..] <==> c in scanned && c !in mapped
  {
    var r := Report(scanned, mapped);
    var unmapped := Unmapped(scanned, mapped);
    forall c ensures c + "|" in r[5..] <==> c in scanned && c !in mapped {
      UnmappedMembers(scanned, mapped, c);
      if c + "|" in r[5..] {
        var i :| 0 <= i < |unmapped| && r[5..][i] == c + "|";
        assert unmapped[i] + "|" == c + "|";
        assert unmapped[i] == (unmapped[i] + "|")[..|unmapped[i]|];
        assert c == (c + "|")[..|c|];
      }
      if c in unmapped {
        var i :| 0 <= i < |unmapped| && unmapped[i] == c;
        assert r[5..][i] == c + "|";
      }
    }
  }

  /** get_unmapped_columns. `scannedLines` is None when the scanned-columns
      file is missing; `mappingFile` is None when the mapping file is
      missing, and otherwise its records or the parse error, which
      propagates. */
  method GetUnmappedColumns(scannedLines: Option<seq<string>>, mappingFile: Option<Result<MappingConfig>>)
    returns (r: Result<seq<string>>)
    ensures scannedLines.None? ==> r == Ok(["Error: data/output/scanned_columns not found"])
    ensures scannedLines.Some? && mappingFile.Some? && mappingFile.value.Err? ==> r == Err(mappingFile.value.error)
    ensures scannedLines.Some? && (mappingFile.None? || mappingFile.value.Ok?) ==>
      r == Ok(Report(ScannedColumns(scannedLines.value),
                     if mappingFile.None? then {} else MappedOf(mappingFile.value.value.mappings)))
  {
    if scannedLines.None? {
      return Ok(["Error: data/output/scanned_columns not found"]);
    }
    var scannedColumns := ScannedColumns(scannedLines.value);
    var mappedColumns: set<string> := {};
    if mappingFile.Some? {
      if mappingFile.value.Err? {
        return Err(mappingFile.value.error);
      }
      mappedColumns := MappedColumns(mappingFile.value.value.mappings);
    }
    var unmapped := Unmapped(scannedColumns, mappedColumns);
    var listed: seq<string> := [];
    var k := 0;
    while k < |unmapped|
      invariant 0 <= k <= |unmapped|
      invariant listed == Listed(unmapped[..k])
    {
      ListedSnoc(unmapped[..k], unmapped[k]);
      assert unmapped[..k + 1] == unmapped[..k] + [unmapped[k]];
      listed := listed + [unmapped[k] + "|"];
      k := k + 1;
    }
    assert unmapped[..k] == unmapped;
    return Ok(["Total scanned columns: " + NatToDecimal(|scannedColumns|),
               "Mapped/ignored columns: " + NatToDecimal(|mappedColumns|),
               "Unmapped columns: " + NatToDecimal(|unmapped|),
               "",
               "Unmapped columns:"] + listed);
  }

  lemma {:induction false} ListedSnoc(cols: seq<string>, c: string)
    ensures Listed(cols + [c]) == Listed(cols) + [c + "|"]
  {
    if cols != [] {
      assert (cols + [c])[1..] == cols[1..] + [c];
      ListedSnoc(cols[1..], c);
    }
  }
}
