/** The CSV export configuration (internal/csv/csv_config.py): the three
    loaded JSON documents, the persisted ID counters and the log of
    unmapped picklist values. Files on disk that the configuration reads
    back and writes are fields of the configuration object. */
module CsvConfig {
  import opened Text
  import opened Dicts

  /** One entry of "salesplan_id" / "lineitem_id" in csv_config.json. */
  datatype IdConfig = IdConfig(stateFile: string, prefix: string, startNumber: int)

  /** A column definition of csv_columns.json; `source` is absent when
      the definition has no "source" key. */
  datatype ColumnDef = ColumnDef(name: string, colType: string, source: Option<string>)

  /** One entry of picklist_values.json. Each modelled key is None when
      absent; `otherKeys` says whether the entry holds keys the export
      does not read (it then is a non-empty dict). */
  datatype PicklistConfig = PicklistConfig(mappings: Option<Dict<string>>, default: Option<string>,
                                           allowedValues: Option<seq<string>>,
                                           filenameKeywords: Option<Dict<seq<string>>>, otherKeys: bool)

  /** csv_config.json: the ID settings by key, and logs.unmapped_values. */
  datatype MainConfig = MainConfig(ids: map<string, IdConfig>, unmappedLog: Option<string>)

  /** The three loaded documents. */
  datatype Settings = Settings(main: MainConfig, columns: map<string, seq<ColumnDef>>,
                               picklists: map<string, PicklistConfig>)

  /** Python truthiness of a picklist entry: a dict is true unless empty. */
  predicate Truthy(pc: PicklistConfig)
  {
    pc.mappings.Some? || pc.default.Some? || pc.allowedValues.Some? || pc.filenameKeywords.Some? || pc.otherKeys
  }

  /** get_picklist_config: the entry for the column, if any. */
  function PicklistConfigFor(s: Settings, column: string): (r: Option<PicklistConfig>)
    ensures r.Some? <==> column in s.picklists
    ensures r.Some? ==> r.value == s.picklists[column]
  {
    if column in s.picklists then Some(s.picklists[column]) else None
  }

  /** csv_columns.get(table_type, []). */
  function ColumnsOf(s: Settings, tableType: string): (defs: seq<ColumnDef>)
    ensures tableType !in s.columns ==> defs == []
  {
    if tableType in s.columns then s.columns[tableType] else []
  }

  /** Some definition names the column and gives it type "picklist". */
  function HasPicklistDef(defs: seq<ColumnDef>, column: string): (r: bool)
    ensures r <==> exists i :: 0 <= i < |defs| && defs[i].name == column && defs[i].colType == "picklist"
  {
    if defs == [] then false
    else (defs[0].name == column && defs[0].colType == "picklist") || HasPicklistDef(defs[1..], column)
  }

  /** is_picklist_column. */
  function IsPicklistColumn(s: Settings, column: string, tableType: string): (r: bool)
    ensures r <==> exists i :: 0 <= i < |ColumnsOf(s, tableType)| &&
                             ColumnsOf(s, tableType)[i].name == column && ColumnsOf(s, tableType)[i].colType == "picklist"
  {
    HasPicklistDef(ColumnsOf(s, tableType), column)
  }

  /** col.get("source", col["name"]). */
  function SourceOf(d: ColumnDef): string
  {
    if d.source.Some? then d.source.value else d.name
  }

  /** The dict get_column_source_mapping builds from the definitions. */
  function SourceMap(defs: seq<ColumnDef>): Dict<string>
  {
    if defs == [] then Empty()
    else
      var d := defs[|defs| - 1];
      Put(SourceMap(defs[..|defs| - 1]), d.name, SourceOf(d))
  }

  /** Definition i is the last one with the given name. */
  predicate LastNamed(defs: seq<ColumnDef>, name: string, i: int)
  {
    0 <= i < |defs| && defs[i].name == name && forall j :: i < j < |defs| ==> defs[j].name != name
  }

  /** The source map is a well-formed dict. */
  lemma {:induction false} SourceMapWellFormed(defs: seq<ColumnDef>)
    ensures WellFormed(SourceMap(defs))
  {
    if defs != [] {
      var d := defs[|defs| - 1];
      SourceMapWellFormed(defs[..|defs| - 1]);
      PutSpec(SourceMap(defs[..|defs| - 1]), d.name, SourceOf(d));
    }
  }

  /** Every defined column name is a key, and maps to the source of its
      last definition (the name itself when that has no source). */
  lemma SourceMapSpec(defs: seq<ColumnDef>, name: string)
    ensures name in SourceMap(defs).entries <==> exists i :: 0 <= i < |defs| && defs[i].name == name
    ensures name in SourceMap(defs).entries ==>
      exists i :: LastNamed(defs, name, i) && SourceMap(defs).entries[name] == SourceOf(defs[i])
  {
    SourceMapKeys(defs, name);
    SourceMapLast(defs, name);
  }

  lemma {:induction false} SourceMapKeys(defs: seq<ColumnDef>, name: string)
    ensures name in SourceMap(defs).entries <==> exists i :: 0 <= i < |defs| && defs[i].name == name
  {
    if defs != [] {
      var init := defs[..|defs| - 1];
      var d := defs[|defs| - 1];
      SourceMapKeys(init, name);
      SourceMapWellFormed(init);
      PutSpec(SourceMap(init), d.name, SourceOf(d));
      if d.name != name && name !in SourceMap(init).entries {
        forall i | 0 <= i < |defs|
          ensures defs[i].name != name
        {
          if i < |init| {
            assert defs[i] == init[i];
          }
        }
      } else if d.name != name {
        var i :| 0 <= i < |init| && init[i].name == name;
        assert defs[i] == init[i];
      }
    }
  }

  lemma {:induction false} SourceMapLast(defs: seq<ColumnDef>, name: string)
    ensures name in SourceMap(defs).entries ==>
      exists i :: LastNamed(defs, name, i) && SourceMap(defs).entries[name] == SourceOf(defs[i])
  {
    if defs != [] {
      var init := defs[..|defs| - 1];
      var d := defs[|defs| - 1];
      SourceMapLast(init, name);
      assert SourceMap(defs).entries == SourceMap(init).entries[d.name := SourceOf(d)];
      if d.name == name {
        assert LastNamed(defs, name, |defs| - 1);
      } else if name in SourceMap(init).entries {
        var i :| LastNamed(init, name, i) && SourceMap(init).entries[name] == SourceOf(init[i]);
        assert LastNamed(defs, name, i);
      }
    }
  }

  /** The ID settings key of an id_type, None for any other type. */
  function IdKey(idType: string): (k: Option<string>)
    ensures k.Some? <==> idType == "salesplan" || idType == "lineitem"
  {
    if idType == "salesplan" then Some("salesplan_id")
    else if idType == "lineitem" then Some("lineitem_id")
    else None
  }

  /** The number get_next_id hands out: one past the integer the state
      file holds, or the start number when the file is missing or does
      not hold an integer. */
  function NextNumber(counters: map<string, int>, c: IdConfig): int
  {
    if c.stateFile in counters then counters[c.stateFile] + 1 else c.startNumber
  }

  /** The ID text: the prefix followed by the number in decimal. */
  function FormatId(prefix: string, n: int): string
  {
    prefix + IntToDecimal(n)
  }

  /** The number after the prefix of a handed-out ID reads back as the
      number stored. */
  lemma IdRoundTrip(prefix: string, n: nat)
    ensures StartsWith(FormatId(prefix, n), prefix)
    ensures var digits := FormatId(prefix, n)[|prefix|..];
            AllDigits(digits) && DigitsValue(digits) == n
  {
    var s := FormatId(prefix, n);
    assert s[..|prefix|] == prefix;
    assert s[|prefix|..] == NatToDecimal(n);
    NatToDecimalValue(n);
  }

  /** Storing the handed-out number makes the next call hand out the
      number after it: successive IDs strictly increase. */
  lemma NextNumberIncreases(counters: map<string, int>, c: IdConfig)
    ensures NextNumber(counters[c.stateFile := NextNumber(counters, c)], c) == NextNumber(counters, c) + 1
  {
    // After the store the state file is present, so the next call takes the
    // stored number and adds one.
    var stored := counters[c.stateFile := NextNumber(counters, c)];
    assert c.stateFile in stored && stored[c.stateFile] == NextNumber(counters, c);
  }

  /** The line log_unmapped_value appends. */
  function UnmappedLine(column: string, original: string, mapped: string): string
  {
    column + "|" + original + "|" + mapped + "\n"
  }

  /** The log files after log_unmapped_value: nothing when no log file is
      configured (or its name is empty) or the file cannot be written;
      otherwise the line is appended to it. */
  function LoggedUnmapped(main: MainConfig, logs: map<string, string>, column: string, original: string, mapped: string,
                          writable: bool): (r: map<string, string>)
    ensures main.unmappedLog.None? || main.unmappedLog == Some("") || !writable ==> r == logs
    ensures main.unmappedLog.Some? && main.unmappedLog.value != "" && writable ==>
      var path := main.unmappedLog.value;
      && path in r && r == logs[path := r[path]]
      && r[path] == (if path in logs then logs[path] else "") + UnmappedLine(column, original, mapped)
  {
    if main.unmappedLog.None? || main.unmappedLog.value == "" || !writable then logs
    else
      var path := main.unmappedLog.value;
      logs[path := (if path in logs then logs[path] else "") + UnmappedLine(column, original, mapped)]
  }

  /** The loaded configuration, together with the files it maintains:
      `counters` maps a state file to the integer it holds (a file that is
      missing or does not hold an integer is absent), `logs` maps a log
      file to its text. */
  class CsvConfig {
    const settings: Settings
    var counters: map<string, int>
    var logs: map<string, string>

    constructor(settings: Settings, counters: map<string, int>, logs: map<string, string>)
      ensures this.settings == settings && this.counters == counters && this.logs == logs
    {
      this.settings := settings;
      this.counters := counters;
      this.logs := logs;
    }

    /** get_next_id. `writable` says whether the state file can be
        written. An unknown id_type raises ValueError, a missing ID setting
        KeyError, a failed write the IOError; otherwise the number handed
        out is stored in the state file and returned after the prefix. */
    method GetNextId(idType: string, writable: bool) returns (r: Result<string>)
      modifies this
      ensures IdKey(idType).None? ==> r == Err("Invalid id_type: " + idType) && counters == old(counters)
      ensures IdKey(idType).Some? && IdKey(idType).value !in settings.main.ids ==>
        r == Err("'" + IdKey(idType).value + "'") && counters == old(counters)
      ensures IdKey(idType).Some? && IdKey(idType).value in settings.main.ids ==>
        var c := settings.main.ids[IdKey(idType).value];
        var n := NextNumber(old(counters), c);
        if writable then r == Ok(FormatId(c.prefix, n)) && counters == old(counters)[c.stateFile := n]
        else r.Err? && counters == old(counters)
      ensures logs == old(logs)
    {
      var key := IdKey(idType);
      if key.None? {
        return Err("Invalid id_type: " + idType);
      }
      if key.value !in settings.main.ids {
        return Err("'" + key.value + "'");
      }
      var c := settings.main.ids[key.value];
      var next := if c.stateFile in counters then counters[c.stateFile] + 1 else c.startNumber;
      if !writable {
        return Err("Failed to update state file " + c.stateFile);
      }
      counters := counters[c.stateFile := next];
      return Ok(c.prefix + IntToDecimal(next));
    }

    /** get_column_source_mapping: each column name of the table to its
        source column, in definition order. */
    method GetColumnSourceMapping(tableType: string) returns (mapping: Dict<string>)
      ensures mapping == SourceMap(ColumnsOf(settings, tableType))
    {
      var defs := ColumnsOf(settings, tableType);
      mapping := Empty();
      var i := 0;
      while i < |defs|
        invariant i <= |defs|
        invariant mapping == SourceMap(defs[..i])
      {
        assert defs[..i + 1][..i] == defs[..i];
        mapping := Put(mapping, defs[i].name, SourceOf(defs[i]));
        i := i + 1;
      }
      assert defs[..i] == defs;
    }

    /** log_unmapped_value; `writable` says whether the log file can be
        appended to (a failed write is only logged). */
    method LogUnmappedValue(column: string, original: string, mapped: string, writable: bool)
      modifies this
      ensures logs == LoggedUnmapped(settings.main, old(logs), column, original, mapped, writable)
      ensures counters == old(counters)
    {
      var logFile := settings.main.unmappedLog;
      if logFile.None? || logFile.value == "" {
        return;
      }
      if !writable {
        return;
      }
      var path := logFile.value;
      var before := if path in logs then logs[path] else "";
      logs := logs[path := before + UnmappedLine(column, original, mapped)];
    }
  }

  /** load_csv_config: the three documents in the order they are read;
      the first that fails raises. */
  method LoadCsvConfig(main: Result<MainConfig>, columns: Result<map<string, seq<ColumnDef>>>,
                       picklists: Result<map<string, PicklistConfig>>,
                       counters: map<string, int>, logs: map<string, string>)
    returns (r: Result<CsvConfig>)
    ensures main.Err? ==> r == Err("Failed to load CSV configurations: " + main.error)
    ensures main.Ok? && columns.Err? ==> r == Err("Failed to load CSV configurations: " + columns.error)
    ensures main.Ok? && columns.Ok? && picklists.Err? ==> r == Err("Failed to load CSV configurations: " + picklists.error)
    ensures r.Ok? <==> main.Ok? && columns.Ok? && picklists.Ok?
    ensures r.Ok? ==> fresh(r.value) && r.value.settings == Settings(main.value, columns.value, picklists.value)
                      && r.value.counters == counters && r.value.logs == logs
  {
    if main.Err? {
      return Err("Failed to load CSV configurations: " + main.error);
    }
    if columns.Err? {
      return Err("Failed to load CSV configurations: " + columns.error);
    }
    if picklists.Err? {
      return Err("Failed to load CSV configurations: " + picklists.error);
    }
    var config := new CsvConfig(Settings(main.value, columns.value, picklists.value), counters, logs);
    return Ok(config);
  }
}
