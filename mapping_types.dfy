/** The mapping store (internal/mapping/types.go): the mapping record, the
    one-name-per-line column lists and the merge of target-format headers
    into the target column list. A file is its text, or None when it does
    not exist or cannot be opened. */
module MappingTypes {
  import opened Text

  /** One decision of the mapping session: a scanned column mapped to a
      target column, or ignored (then the target is normally ""). */
  datatype ColumnMapping = ColumnMapping(scannedColumn: string, targetColumn: string, isIgnored: bool)

  /** The saved configuration: the list under the key "mappings". */
  datatype MappingConfig = MappingConfig(mappings: seq<ColumnMapping>)

  // ---------------------------------------------------------------------
  // Column lists

  /** The names a column list file yields: every line trimmed, blank lines
      dropped, in file order. */
  function ColumnsOfLines(lines: seq<string>): (columns: seq<string>)
    ensures |columns| <= |lines|
  {
    if lines == [] then []
    else if GoTrimSpace(lines[0]) != "" then [GoTrimSpace(lines[0])] + ColumnsOfLines(lines[1..])
    else ColumnsOfLines(lines[1..])
  }

  /** A name that survives a write and a read unchanged. */
  predicate IsListName(c: string)
  {
    c != "" && '\n' !in c && GoTrimSpace(c) == c
  }

  /** Every name read from a list is trimmed, not empty and on one line. */
  lemma {:induction false} ColumnsOfLinesNames(lines: seq<string>)
    requires forall i :: 0 <= i < |lines| ==> '\n' !in lines[i]
    ensures forall c :: c in ColumnsOfLines(lines) ==> IsListName(c)
  {
    if lines != [] {
      ColumnsOfLinesNames(lines[1..]);
      var t := GoTrimSpace(lines[0]);
      if t != "" {
        var a := TrimWithSlice(lines[0], GoIsSpace);
        NotInSlice(lines[0], a, a + |t|, '\n');
        TrimWithFixed(t, GoIsSpace);
      }
    }
  }

  /** ReadColumnsFromFile: the scan loop over the file's lines. A missing
      file is an error. */
  method ReadColumnsFromFile(file: Option<string>) returns (result: Result<seq<string>>)
    ensures file.None? <==> result.Err?
    ensures file.Some? ==> result == Ok(ColumnsOfLines(Split(file.value, '\n')))
    ensures result.Ok? ==> forall c :: c in result.value ==> IsListName(c)
  {
    if file.None? {
      return Err("failed to open file");
    }
    var lines := Split(file.value, '\n');
    ColumnsOfLinesNames(lines);
    var columns: seq<string> := [];
    var i := 0;
    while i < |lines|
      invariant 0 <= i <= |lines|
      invariant columns + ColumnsOfLines(lines[i..]) == ColumnsOfLines(lines)
    {
      assert lines[i..][1..] == lines[i + 1..];
      var line := GoTrimSpace(lines[i]);
      if line != "" {
        columns := columns + [line];
      }
      i := i + 1;
    }
    assert lines[i..] == [];
    assert columns == ColumnsOfLines(lines);
    return Ok(columns);
  }

  /** writeColumnsToFile: every column followed by a newline. */
  method WriteColumnsToFile(columns: seq<string>) returns (text: string)
    ensures text == TerminatedLines(columns)
  {
    text := "";
    var i := 0;
    while i < |columns|
      invariant 0 <= i <= |columns|
      invariant text + TerminatedLines(columns[i..]) == TerminatedLines(columns)
    {
      assert columns[i..][1..] == columns[i + 1..];
      text := text + columns[i] + "\n";
      i := i + 1;
    }
    assert columns[i..] == [];
  }

  /** Splitting a written list on newlines gives the names and one empty
      piece after the final newline. */
  lemma {:induction false} SplitTerminatedLines(columns: seq<string>)
    requires forall c :: c in columns ==> '\n' !in c
    ensures Split(TerminatedLines(columns), '\n') == columns + [""]
  {
    if columns != [] {
      var c := columns[0];
      assert c in columns;
      SplitCons(c, '\n', TerminatedLines(columns[1..]));
      SplitTerminatedLines(columns[1..]);
      assert columns == [c] + columns[1..];
    }
  }

  lemma {:induction false} ColumnsOfLinesKeepsNames(columns: seq<string>)
    requires forall c :: c in columns ==> IsListName(c)
    ensures ColumnsOfLines(columns + [""]) == columns
  {
    if columns != [] {
      assert (columns + [""])[1..] == columns[1..] + [""];
      assert IsListName(columns[0]);
      ColumnsOfLinesKeepsNames(columns[1..]);
      assert columns == [columns[0]] + columns[1..];
    } else {
      assert GoTrimSpace("") == "";
      assert ColumnsOfLines([""]) == ColumnsOfLines([]);
    }
  }

  /** Read-after-write round trip: a list of trimmed, non-empty, one-line
      names reads back exactly as written. */
  lemma WriteReadRoundTrip(columns: seq<string>)
    requires forall c :: c in columns ==> IsListName(c)
    ensures ColumnsOfLines(Split(TerminatedLines(columns), '\n')) == columns
  {
    SplitTerminatedLines(columns);
    ColumnsOfLinesKeepsNames(columns);
  }

  // ---------------------------------------------------------------------
  // Default target columns

  const DefaultTargetColumns: seq<string> :=
    ["ID", "Name", "Email", "Phone", "Address", "Date", "Amount", "Description"]

  /** CreateDefaultTargetColumnsFile: Ok(None) (nothing written) when the
      file exists; an error when the file system refuses to create it
      (`createOk` false); else the text written, which reads back as the
      eight defaults. */
  method CreateDefaultTargetColumnsFile(exists_: bool, createOk: bool) returns (written: Result<Option<string>>)
    ensures exists_ ==> written == Ok(None)
    ensures !exists_ && !createOk ==> written == Err("failed to create target columns file")
    ensures !exists_ && createOk ==>
      written.Ok? && written.value.Some? && ColumnsOfLines(Split(written.value.value, '\n')) == DefaultTargetColumns
  {
    if exists_ {
      return Ok(None);
    }
    if !createOk {
      return Err("failed to create target columns file");
    }
    var text := WriteColumnsToFile(DefaultTargetColumns);
    forall c | c in DefaultTargetColumns ensures IsListName(c) {
      LettersAreListName(c);
    }
    WriteReadRoundTrip(DefaultTargetColumns);
    written := Ok(Some(text));
  }

  predicate IsAsciiLetters(c: string)
  {
    forall i :: 0 <= i < |c| ==> 'A' <= c[i] <= 'Z' || 'a' <= c[i] <= 'z'
  }

  lemma LettersAreListName(c: string)
    requires c in DefaultTargetColumns
    ensures IsListName(c)
  {
    assert c != "" && IsAsciiLetters(c);
    assert '\n' !in c;
    TrimWithFixed(c, GoIsSpace);
  }

  // ---------------------------------------------------------------------
  // Appending target-format headers

  /** The headers the merge appends: trimmed headers, in order, that are
      non-blank and neither in `seen` nor already appended. */
  function NewHeaders(seen: set<string>, headers: seq<string>): (added: seq<string>)
    decreases |headers|
  {
    if headers == [] then []
    else
      var t := GoTrimSpace(headers[0]);
      if t != "" && t !in seen then [t] + NewHeaders(seen + {t}, headers[1..])
      else NewHeaders(seen, headers[1..])
  }

  function TrimAll(columns: seq<string>): (r: set<string>)
  {
    set c | c in columns :: GoTrimSpace(c)
  }

  /** What the merge appends: non-blank trimmed headers absent from `seen`,
      each once; and every such header is appended. */
  lemma NewHeadersSound(seen: set<string>, headers: seq<string>)
    ensures var added := NewHeaders(seen, headers);
      && (forall c :: c in added ==> c != "" && c !in seen)
      && (forall i, j :: 0 <= i < j < |added| ==> added[i] != added[j])
      && (forall h :: h in headers && GoTrimSpace(h) != "" && GoTrimSpace(h) !in seen ==> GoTrimSpace(h) in added)
      && (forall c :: c in added ==> exists h :: h in headers && c == GoTrimSpace(h))
  {
    NewHeadersFresh(seen, headers);
    NewHeadersComplete(seen, headers);
    NewHeadersFrom(seen, headers);
  }

  lemma {:induction false} NewHeadersFresh(seen: set<string>, headers: seq<string>)
    ensures var added := NewHeaders(seen, headers);
      && (forall c :: c in added ==> c != "" && c !in seen)
      && (forall i, j :: 0 <= i < j < |added| ==> added[i] != added[j])
    decreases |headers|
  {
    if headers != [] {
      var t := GoTrimSpace(headers[0]);
      var added := NewHeaders(seen, headers);
      if t != "" && t !in seen {
        var rest := NewHeaders(seen + {t}, headers[1..]);
        NewHeadersFresh(seen + {t}, headers[1..]);
        assert added == [t] + rest;
        forall i, j | 0 <= i < j < |added| ensures added[i] != added[j] {
          assert added[j] == rest[j - 1];
          if i > 0 {
            assert added[i] == rest[i - 1];
          } else {
            assert rest[j - 1] in rest;
          }
        }
      } else {
        NewHeadersFresh(seen, headers[1..]);
      }
    }
  }

  lemma {:induction false} NewHeadersComplete(seen: set<string>, headers: seq<string>)
    ensures forall h :: h in headers && GoTrimSpace(h) != "" && GoTrimSpace(h) !in seen ==>
      GoTrimSpace(h) in NewHeaders(seen, headers)
    decreases |headers|
  {
    if headers != [] {
      var t := GoTrimSpace(headers[0]);
      assert forall h :: h in headers ==> h == headers[0] || h in headers[1..];
      if t != "" && t !in seen {
        NewHeadersComplete(seen + {t}, headers[1..]);
      } else {
        NewHeadersComplete(seen, headers[1..]);
      }
    }
  }

  lemma {:induction false} NewHeadersFrom(seen: set<string>, headers: seq<string>)
    ensures forall c :: c in NewHeaders(seen, headers) ==> exists h :: h in headers && c == GoTrimSpace(h)
    decreases |headers|
  {
    if headers != [] {
      var t := GoTrimSpace(headers[0]);
      var added := NewHeaders(seen, headers);
      if t != "" && t !in seen {
        var rest := NewHeaders(seen + {t}, headers[1..]);
        NewHeadersFrom(seen + {t}, headers[1..]);
        assert added == [t] + rest;
        forall c | c in added ensures exists h :: h in headers && c == GoTrimSpace(h) {
          if c == t {
            assert headers[0] in headers;
          } else {
            assert c in rest;
            var h :| h in headers[1..] && c == GoTrimSpace(h);
            assert h in headers;
          }
        }
      } else {
        NewHeadersFrom(seen, headers[1..]);
        assert added == NewHeaders(seen, headers[1..]);
        forall c | c in added ensures exists h :: h in headers && c == GoTrimSpace(h) {
          var h :| h in headers[1..] && c == GoTrimSpace(h);
          assert h in headers;
        }
      }
    }
  }


  /** The merged list keeps the existing list as an unchanged prefix; what
      follows is the new headers in target-header order. */
  method AppendHeaders(existing: seq<string>, headers: seq<string>) returns (all: seq<string>, addedCount: nat)
    ensures all == existing + NewHeaders(TrimAll(existing), headers)
    ensures |all| == |existing| + addedCount
  {
    var existingMap: set<string> := {};
    var k := 0;
    while k < |existing|
      invariant 0 <= k <= |existing|
      invariant existingMap == TrimAll(existing[..k])
    {
      assert existing[..k + 1] == existing[..k] + [existing[k]];
      existingMap := existingMap + {GoTrimSpace(existing[k])};
      k := k + 1;
    }
    assert existing[..k] == existing;
    var newColumns := CollectNewHeaders(existingMap, headers);
    addedCount := |newColumns|;
    all := existing + newColumns;
  }

  /** The header loop of the merge: each trimmed, non-empty header not seen
      before is added and becomes seen. */
  method CollectNewHeaders(seen: set<string>, headers: seq<string>) returns (newColumns: seq<string>)
    ensures newColumns == NewHeaders(seen, headers)
  {
    var existingMap := seen;
    newColumns := [];
    var i := 0;
    while i < |headers|
      invariant 0 <= i <= |headers|
      invariant newColumns + NewHeaders(existingMap, headers[i..]) == NewHeaders(seen, headers)
    {
      assert headers[i..][1..] == headers[i + 1..];
      var trimmedHeader := GoTrimSpace(headers[i]);
      if trimmedHeader != "" && trimmedHeader !in existingMap {
        newColumns := newColumns + [trimmedHeader];
        existingMap := existingMap + {trimmedHeader};
      }
      i := i + 1;
    }
    assert headers[i..] == [];
  }

  /** A column list file as AppendTargetFormatHeadersToFile finds it:
      absent, present but unreadable, or present with its text. */
  datatype ListFile = Absent | Unreadable | Present(text: string)

  /** The names of a column list file; an absent file has none. */
  function ExistingColumns(file: ListFile): seq<string>
  {
    if file.Present? then ColumnsOfLines(Split(file.text, '\n')) else []
  }

  /** AppendTargetFormatHeadersToFile: a target format that cannot be
      opened or whose headers cannot be read is an error, and so is a
      target column file that exists but cannot be read; otherwise the
      file (absent counts as empty) is rewritten as existing + new headers,
      which fails when the file system refuses it (`writeOk` false), and
      reads back as that list when no header spans two lines.
      `headers` is None when the header row cannot be read. */
  method AppendTargetFormatHeadersToFile(targetOpened: bool, headers: Option<seq<string>>,
                                         targetColumnsFile: ListFile, writeOk: bool)
    returns (written: Result<string>)
    ensures !targetOpened ==> written == Err("failed to open target format file")
    ensures targetOpened && headers.None? ==> written == Err("failed to get headers from target format file")
    ensures targetOpened && headers.Some? && targetColumnsFile.Unreadable? ==>
      written == Err("failed to read existing target columns")
    ensures targetOpened && headers.Some? && !targetColumnsFile.Unreadable? && !writeOk ==>
      written == Err("failed to write updated target columns")
    ensures written.Ok? <==> targetOpened && headers.Some? && !targetColumnsFile.Unreadable? && writeOk
    ensures written.Ok? ==>
      var existing := ExistingColumns(targetColumnsFile);
      written.value == TerminatedLines(existing + NewHeaders(TrimAll(existing), headers.value))
    ensures written.Ok? && (forall h :: h in headers.value ==> '\n' !in h) ==>
      var existing := ExistingColumns(targetColumnsFile);
      ColumnsOfLines(Split(written.value, '\n')) == existing + NewHeaders((set c | c in existing), headers.value)
  {
    if !targetOpened {
      return Err("failed to open target format file");
    }
    if headers.None? {
      return Err("failed to get headers from target format file");
    }
    var existing: seq<string> := [];
    if targetColumnsFile.Unreadable? {
      return Err("failed to read existing target columns");
    } else if targetColumnsFile.Present? {
      var read := ReadColumnsFromFile(Some(targetColumnsFile.text));
      existing := read.value;
    }
    var all, _ := AppendHeaders(existing, headers.value);
    if !writeOk {
      return Err("failed to write updated target columns");
    }
    var text := WriteColumnsToFile(all);
    written := Ok(text);
    if forall h :: h in headers.value ==> '\n' !in h {
      ReadBackAfterAppend(existing, headers.value);
    }
  }

  lemma ReadBackAfterAppend(existing: seq<string>, headers: seq<string>)
    requires forall c :: c in existing ==> IsListName(c)
    requires forall h :: h in headers ==> '\n' !in h
    ensures TrimAll(existing) == set c | c in existing
    ensures var all := existing + NewHeaders(TrimAll(existing), headers);
      ColumnsOfLines(Split(TerminatedLines(all), '\n')) == all
  {
    forall c | c in existing ensures GoTrimSpace(c) == c {
    }
    NewHeadersSound(TrimAll(existing), headers);
    var all := existing + NewHeaders(TrimAll(existing), headers);
    forall c | c in all ensures IsListName(c) {
      if c !in existing {
        var h :| h in headers && c == GoTrimSpace(h);
        TrimmedIsListName(h);
      }
    }
    WriteReadRoundTrip(all);
  }

  lemma TrimmedIsListName(h: string)
    requires '\n' !in h && GoTrimSpace(h) != ""
    ensures IsListName(GoTrimSpace(h))
  {
    var t := GoTrimSpace(h);
    var a := TrimWithSlice(h, GoIsSpace);
    NotInSlice(h, a, a + |t|, '\n');
    TrimWithFixed(t, GoIsSpace);
  }

  // ---------------------------------------------------------------------
  // The target -> scanned view of the records, as both formatting engines
  // and the CSV reader build it.

  /** A record that maps its scanned column to a target. */
  predicate Counts(m: ColumnMapping)
  {
    !m.isIgnored && m.targetColumn != ""
  }

  /** The target -> scanned map built from the mapping records. */
  function ReverseMapping(records: seq<ColumnMapping>): map<string, string>
  {
    if records == [] then map[]
    else
      var m := ReverseMapping(records[..|records| - 1]);
      var r := records[|records| - 1];
      if Counts(r) then m[r.targetColumn := r.scannedColumn] else m
  }

  /** Record i is the last record that maps to target `t`. */
  predicate LastFor(records: seq<ColumnMapping>, t: string, i: int)
  {
    0 <= i < |records| && Counts(records[i]) && records[i].targetColumn == t
    && forall j :: i < j < |records| ==> !(Counts(records[j]) && records[j].targetColumn == t)
  }

  /** Only records that are not ignored and name a target enter the map,
      and for a target named twice the later record wins. */
  lemma {:induction false} ReverseMappingSpec(records: seq<ColumnMapping>, t: string)
    ensures t in ReverseMapping(records) <==>
      exists i :: 0 <= i < |records| && Counts(records[i]) && records[i].targetColumn == t
    ensures t in ReverseMapping(records) ==>
      exists i :: LastFor(records, t, i) && ReverseMapping(records)[t] == records[i].scannedColumn
  {
    if records != [] {
      var init := records[..|records| - 1];
      var r := records[|records| - 1];
      ReverseMappingSpec(init, t);
      if Counts(r) && r.targetColumn == t {
        assert LastFor(records, t, |records| - 1);
      } else if t in ReverseMapping(init) {
        var i :| LastFor(init, t, i) && ReverseMapping(init)[t] == init[i].scannedColumn;
        assert LastFor(records, t, i);
      } else {
        forall i | 0 <= i < |records| && Counts(records[i])
          ensures records[i].targetColumn != t
        {
          if i < |init| {
            assert records[i] == init[i];
          }
        }
      }
    }
  }
}
