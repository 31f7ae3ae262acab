/** Picklist handling of the CSV export (internal/csv/picklist_handler.py):
    mapping raw values onto a column's picklist, validation against the
    allowed values, and deriving a picklist value from keywords in a file
    name. Python's str.lower is modelled on ASCII letters only. */
module Picklist {
  import opened Text
  import opened Dicts
  import opened CsvConfig

  /** The value as a string: "" for None, else str(value).strip(); the
      argument is str(value) when there is a value. */
  function Normalise(value: Option<string>): string
  {
    if value.None? then "" else PyStrip(value.value)
  }

  /** A normalised value has no surrounding whitespace left to strip. */
  lemma NormaliseStripped(value: Option<string>)
    ensures PyStrip(Normalise(value)) == Normalise(value)
  {
    if value.Some? {
      TrimWithIdempotent(value.value, PyIsSpace);
    }
  }

  /** The first key that lower-cases to `lowered`. */
  function FirstFolded(keys: seq<string>, lowered: string): (r: Option<nat>)
    ensures r.Some? ==> r.value < |keys| && AsciiLower(keys[r.value]) == lowered
    ensures r.Some? ==> forall j :: 0 <= j < r.value ==> AsciiLower(keys[j]) != lowered
    ensures r.None? ==> forall j :: 0 <= j < |keys| ==> AsciiLower(keys[j]) != lowered
  {
    if keys == [] then None
    else if AsciiLower(keys[0]) == lowered then Some(0)
    else
      match FirstFolded(keys[1..], lowered)
      case Some(i) => Some(i + 1)
      case None => None
  }

  /** How apply_picklist_mapping decides: not a picklist (the normalised
      value is returned), a mapped value, or the column's default. */
  datatype Decision = Plain(text: string) | Mapped(text: string) | Defaulted(text: string)

  /** The picklist entry of a column, when the column is a picklist column
      of the table and its entry is a non-empty dict. */
  function ActiveConfig(s: Settings, column: string, tableType: string): Option<PicklistConfig>
  {
    if !IsPicklistColumn(s, column, tableType) then None
    else
      match PicklistConfigFor(s, column)
      case Some(pc) => if Truthy(pc) then Some(pc) else None
      case None => None
  }

  /** picklist_config.get("mappings", {}). */
  function MappingsOf(pc: PicklistConfig): Dict<string>
  {
    if pc.mappings.Some? then pc.mappings.value else Empty()
  }

  /** picklist_config.get("default", "Other"). */
  function DefaultOf(pc: PicklistConfig): string
  {
    if pc.default.Some? then pc.default.value else "Other"
  }

  /** The mapped value of a normalised value: its exact key, else the
      first key in mapping order that matches it ignoring case. */
  function MappingLookup(m: Dict<string>, sv: string): Option<string>
  {
    if sv in m.entries then Some(m.entries[sv])
    else
      match FirstFolded(m.keys, AsciiLower(sv))
      case Some(i) => if m.keys[i] in m.entries then Some(m.entries[m.keys[i]]) else None
      case None => None
  }

  function Decide(s: Settings, value: Option<string>, column: string, tableType: string): Decision
  {
    var sv := Normalise(value);
    match ActiveConfig(s, column, tableType)
    case None => Plain(sv)
    case Some(pc) =>
      match MappingLookup(MappingsOf(pc), sv)
      case Some(v) => Mapped(v)
      case None => Defaulted(DefaultOf(pc))
  }

  /** The value apply_picklist_mapping returns. */
  function PicklistValue(s: Settings, value: Option<string>, column: string, tableType: string): string
  {
    Decide(s, value, column, tableType).text
  }

  /** apply_picklist_mapping counts and logs a value that has no mapping
      and is not empty. */
  predicate CountsUnmapped(s: Settings, value: Option<string>, column: string, tableType: string)
  {
    Decide(s, value, column, tableType).Defaulted? && Normalise(value) != ""
  }

  /** The lookup order: a column that is not a picklist column of the
      table, or has no (or an empty) picklist entry, keeps the normalised
      value; otherwise an exact key wins, then the first key in mapping
      order that matches ignoring case, then the default ("Other" when
      none is configured). */
  lemma PicklistValueSpec(s: Settings, value: Option<string>, column: string, tableType: string)
    ensures var sv := Normalise(value);
      && (!IsPicklistColumn(s, column, tableType) ==> PicklistValue(s, value, column, tableType) == sv)
      && (IsPicklistColumn(s, column, tableType) && (column !in s.picklists || !Truthy(s.picklists[column])) ==>
            PicklistValue(s, value, column, tableType) == sv)
      && (IsPicklistColumn(s, column, tableType) && column in s.picklists && Truthy(s.picklists[column]) ==>
            var pc := s.picklists[column];
            var m := MappingsOf(pc);
            && (sv in m.entries ==> PicklistValue(s, value, column, tableType) == m.entries[sv])
            && (forall i :: 0 <= i < |m.keys| && sv !in m.entries && m.keys[i] in m.entries &&
                            AsciiLower(m.keys[i]) == AsciiLower(sv) &&
                            (forall j :: 0 <= j < i ==> AsciiLower(m.keys[j]) != AsciiLower(sv)) ==>
                  PicklistValue(s, value, column, tableType) == m.entries[m.keys[i]])
            && ((sv !in m.entries && forall i :: 0 <= i < |m.keys| ==> AsciiLower(m.keys[i]) != AsciiLower(sv)) ==>
                  PicklistValue(s, value, column, tableType) == DefaultOf(pc)))
  {
    var sv := Normalise(value);
    if IsPicklistColumn(s, column, tableType) && column in s.picklists && Truthy(s.picklists[column]) {
      var m := MappingsOf(s.picklists[column]);
      var f := FirstFolded(m.keys, AsciiLower(sv));
      forall i | 0 <= i < |m.keys| && sv !in m.entries && m.keys[i] in m.entries &&
                 AsciiLower(m.keys[i]) == AsciiLower(sv) &&
                 (forall j :: 0 <= j < i ==> AsciiLower(m.keys[j]) != AsciiLower(sv))
        ensures PicklistValue(s, value, column, tableType) == m.entries[m.keys[i]]
      {
        assert f.Some? && f.value == i;
      }
    }
  }

  /** validate_picklist_value: anything is valid for a column without a
      (non-empty) picklist entry; otherwise the value must be allowed. */
  function ValidatePicklistValue(s: Settings, value: string, column: string): (r: bool)
    ensures column !in s.picklists || !Truthy(s.picklists[column]) ==> r
    ensures column in s.picklists && Truthy(s.picklists[column]) ==> (r <==> value in GetAllowedValues(s, column))
  {
    match PicklistConfigFor(s, column)
    case None => true
    case Some(pc) => !Truthy(pc) || (pc.allowedValues.Some? && value in pc.allowedValues.value)
  }

  /** get_allowed_values: the entry's "allowed_values" when the column has a
      non-empty entry that lists them, [] otherwise. */
  function GetAllowedValues(s: Settings, column: string): (r: seq<string>)
    ensures r != [] ==> column in s.picklists && s.picklists[column].allowedValues == Some(r)
    ensures column in s.picklists && Truthy(s.picklists[column]) && s.picklists[column].allowedValues.Some?
      ==> r == s.picklists[column].allowedValues.value
    ensures !(column in s.picklists && Truthy(s.picklists[column]) && s.picklists[column].allowedValues.Some?)
      ==> r == []
  {
    match PicklistConfigFor(s, column)
    case None => []
    case Some(pc) => if Truthy(pc) && pc.allowedValues.Some? then pc.allowedValues.value else []
  }

  /** When every mapped value and the default are allowed, whatever
      apply_picklist_mapping returns for a picklist column passes
      validate_picklist_value. */
  lemma MappedValuesValid(s: Settings, value: Option<string>, column: string, tableType: string)
    requires IsPicklistColumn(s, column, tableType) && column in s.picklists
    requires var pc := s.picklists[column];
      && pc.allowedValues.Some?
      && DefaultOf(pc) in pc.allowedValues.value
      && forall k :: k in MappingsOf(pc).entries ==> MappingsOf(pc).entries[k] in pc.allowedValues.value
    ensures ValidatePicklistValue(s, PicklistValue(s, value, column, tableType), column)
  {
    var pc := s.picklists[column];
    assert Truthy(pc);
    assert ActiveConfig(s, column, tableType) == Some(pc);
  }

  /** The first key of `keywords` (in dict order) one of whose keywords,
      lower-cased, occurs in `lowerName`. */
  function FirstKeywordHit(keys: seq<string>, keywords: map<string, seq<string>>, lowerName: string): (r: Option<nat>)
    ensures r.Some? ==> r.value < |keys| && HitBy(keys[r.value], keywords, lowerName)
    ensures r.Some? ==> forall j :: 0 <= j < r.value ==> !HitBy(keys[j], keywords, lowerName)
    ensures r.None? ==> forall j :: 0 <= j < |keys| ==> !HitBy(keys[j], keywords, lowerName)
  {
    if keys == [] then None
    else if HitBy(keys[0], keywords, lowerName) then Some(0)
    else
      match FirstKeywordHit(keys[1..], keywords, lowerName)
      case Some(i) => Some(i + 1)
      case None => None
  }

  /** _derive_from_filename_keywords' search: values in configuration
      order, each value's keywords in order, stopping at the first that
      occurs in the lower-cased name. */
  method FindKeywordHit(keys: seq<string>, keywords: map<string, seq<string>>, lowerName: string)
    returns (r: Option<nat>)
    ensures r == FirstKeywordHit(keys, keywords, lowerName)
  {
    var i := 0;
    while i < |keys|
      invariant i <= |keys|
      invariant forall j :: 0 <= j < i ==> !HitBy(keys[j], keywords, lowerName)
    {
      var words := if keys[i] in keywords then keywords[keys[i]] else [];
      var k := 0;
      while k < |words|
        invariant k <= |words|
        invariant forall l :: 0 <= l < k ==> !ContainsSubstring(lowerName, AsciiLower(words[l]))
      {
        if ContainsSubstring(lowerName, AsciiLower(words[k])) {
          assert HitBy(keys[i], keywords, lowerName);
          return Some(i);
        }
        k := k + 1;
      }
      i := i + 1;
    }
    return None;
  }

  /** One of the keywords listed under `value` occurs in the name. */
  predicate HitBy(value: string, keywords: map<string, seq<string>>, lowerName: string)
  {
    value in keywords && exists i :: 0 <= i < |keywords[value]| && ContainsSubstring(lowerName, AsciiLower(keywords[value][i]))
  }

  /** The picklist value named by a keyword in the file name, if the
      column has keywords configured and one of them occurs. */
  function KeywordValue(s: Settings, filename: string, column: string): Option<string>
  {
    match PicklistConfigFor(s, column)
    case None => None
    case Some(pc) =>
      if !Truthy(pc) || pc.filenameKeywords.None? || pc.filenameKeywords.value.keys == [] then None
      else
        var kw := pc.filenameKeywords.value;
        match FirstKeywordHit(kw.keys, kw.entries, AsciiLower(filename))
        case Some(i) => Some(kw.keys[i])
        case None => None
  }

  /** _derive_from_filename_keywords: the keyword's picklist value, or
      else apply_picklist_mapping of the file name itself. */
  function DerivedValue(s: Settings, filename: string, column: string, tableType: string): string
  {
    match KeywordValue(s, filename, column)
    case Some(v) => v
    case None => PicklistValue(s, Some(filename), column, tableType)
  }

  /** A keyword hit names the first picklist value, in configuration
      order, that has a keyword occurring in the lower-cased file name. */
  lemma KeywordValueSpec(s: Settings, filename: string, column: string)
    requires KeywordValue(s, filename, column).Some?
    ensures var kw := s.picklists[column].filenameKeywords.value;
            var v := KeywordValue(s, filename, column).value;
            exists i :: 0 <= i < |kw.keys| && kw.keys[i] == v && HitBy(v, kw.entries, AsciiLower(filename))
                        && forall j :: 0 <= j < i ==> !HitBy(kw.keys[j], kw.entries, AsciiLower(filename))
  {
    var kw := s.picklists[column].filenameKeywords.value;
    var i := FirstKeywordHit(kw.keys, kw.entries, AsciiLower(filename)).value;
    assert kw.keys[i] == KeywordValue(s, filename, column).value;
  }

  /** The exact lookup and the case-insensitive loop of
      apply_picklist_mapping. */
  method FindMapping(m: Dict<string>, sv: string) returns (found: Option<string>)
    ensures found == MappingLookup(m, sv)
  {
    if sv in m.entries {
      return Some(m.entries[sv]);
    }
    var lowered := AsciiLower(sv);
    var i := 0;
    while i < |m.keys|
      invariant i <= |m.keys|
      invariant forall j :: 0 <= j < i ==> AsciiLower(m.keys[j]) != lowered
    {
      if AsciiLower(m.keys[i]) == lowered {
        assert FirstFolded(m.keys, lowered) == Some(i);
        if m.keys[i] in m.entries {
          return Some(m.entries[m.keys[i]]);
        }
        return None;
      }
      i := i + 1;
    }
    return None;
  }

  /** The handler: the configuration it reads (and whose unmapped-values
      log it appends to) and the count of unmapped values. */
  class PicklistHandler {
    const config: CsvConfig
    var unmappedCount: int

    constructor(config: CsvConfig)
      ensures this.config == config && unmappedCount == 0
    {
      this.config := config;
      unmappedCount := 0;
    }

    /** apply_picklist_mapping; `logWritable` says whether the unmapped
        values log can be appended to. */
    method ApplyPicklistMapping(value: Option<string>, column: string, tableType: string, logWritable: bool)
      returns (r: string)
      modifies this, config
      ensures r == PicklistValue(config.settings, value, column, tableType)
      ensures unmappedCount == old(unmappedCount) + (if CountsUnmapped(config.settings, value, column, tableType) then 1 else 0)
      ensures config.logs ==
        if CountsUnmapped(config.settings, value, column, tableType)
        then LoggedUnmapped(config.settings.main, old(config.logs), column, Normalise(value), r, logWritable)
        else old(config.logs)
      ensures config.counters == old(config.counters)
    {
      var sv := if value.None? then "" else PyStrip(value.value);
      if !IsPicklistColumn(config.settings, column, tableType) {
        assert Decide(config.settings, value, column, tableType) == Plain(sv);
        return sv;
      }
      var pc := PicklistConfigFor(config.settings, column);
      if pc.None? || !Truthy(pc.value) {
        assert Decide(config.settings, value, column, tableType) == Plain(sv);
        return sv;
      }
      assert ActiveConfig(config.settings, column, tableType) == pc;
      var found := FindMapping(MappingsOf(pc.value), sv);
      if found.Some? {
        return found.value;
      }
      r := DefaultOf(pc.value);
      assert Decide(config.settings, value, column, tableType) == Defaulted(r);
      if sv != "" {
        config.LogUnmappedValue(column, sv, r, logWritable);
        unmappedCount := unmappedCount + 1;
      }
    }

    /** _derive_from_filename_keywords. */
    method DeriveFromFilenameKeywords(filename: string, column: string, tableType: string, logWritable: bool)
      returns (r: string)
      modifies this, config
      ensures r == DerivedValue(config.settings, filename, column, tableType)
      ensures var charged := KeywordValue(config.settings, filename, column).None? &&
                             CountsUnmapped(config.settings, Some(filename), column, tableType);
        && unmappedCount == old(unmappedCount) + (if charged then 1 else 0)
        && config.logs == if charged
                          then LoggedUnmapped(config.settings.main, old(config.logs), column, Normalise(Some(filename)), r, logWritable)
                          else old(config.logs)
      ensures config.counters == old(config.counters)
    {
      var filenameLower := AsciiLower(filename);
      var pc := PicklistConfigFor(config.settings, column);
      if pc.None? || !Truthy(pc.value) || pc.value.filenameKeywords.None? || pc.value.filenameKeywords.value.keys == [] {
        r := ApplyPicklistMapping(Some(filename), column, tableType, logWritable);
        return;
      }
      var kw := pc.value.filenameKeywords.value;
      var hit := FindKeywordHit(kw.keys, kw.entries, filenameLower);
      if hit.Some? {
        return kw.keys[hit.value];
      }
      r := ApplyPicklistMapping(Some(filename), column, tableType, logWritable);
    }

    /** derive_activity_type_from_filename. */
    method DeriveActivityType(filename: string, logWritable: bool) returns (r: string)
      modifies this, config
      ensures r == DerivedValue(config.settings, filename, "ActivityType", "salesplans")
      ensures var charged := KeywordValue(config.settings, filename, "ActivityType").None? &&
                             CountsUnmapped(config.settings, Some(filename), "ActivityType", "salesplans");
        && unmappedCount == old(unmappedCount) + (if charged then 1 else 0)
        && config.logs == if charged
                          then LoggedUnmapped(config.settings.main, old(config.logs), "ActivityType", Normalise(Some(filename)), r, logWritable)
                          else old(config.logs)
      ensures config.counters == old(config.counters)
    {
      r := DeriveFromFilenameKeywords(filename, "ActivityType", "salesplans", logWritable);
    }

    /** derive_product_category_from_filename. */
    method DeriveProductCategory(filename: string, logWritable: bool) returns (r: string)
      modifies this, config
      ensures r == DerivedValue(config.settings, filename, "ProductCategory", "lineitems")
      ensures var charged := KeywordValue(config.settings, filename, "ProductCategory").None? &&
                             CountsUnmapped(config.settings, Some(filename), "ProductCategory", "lineitems");
        && unmappedCount == old(unmappedCount) + (if charged then 1 else 0)
        && config.logs == if charged
                          then LoggedUnmapped(config.settings.main, old(config.logs), "ProductCategory", Normalise(Some(filename)), r, logWritable)
                          else old(config.logs)
      ensures config.counters == old(config.counters)
    {
      r := DeriveFromFilenameKeywords(filename, "ProductCategory", "lineitems", logWritable);
    }

    /** reset_unmapped_count. */
    method ResetUnmappedCount()
      modifies this
      ensures unmappedCount == 0
    {
      unmappedCount := 0;
    }
  }
}
