/** The column scanner (internal/excel/scanner.go): cleaning of raw header
    text and the aggregation of every sheet's cleaned headers into one
    sorted, duplicate-free list of observed column names. */
module Scanner {
  import opened Text

  // ---------------------------------------------------------------------
  // Tag removal: Go's regexp `<[^>]+>` replaced by "" (leftmost-first).

  /** A match of `<[^>]+>` starts at the front of `s`: a '<', at least one
      character other than '>', then a '>'. */
  predicate TagAt(s: string)
  {
    |s| >= 2 && s[0] == '<' && s[1] != '>' && '>' in s[2..]
  }

  /** The length of the match at the front of `s`: up to the first '>'. */
  function TagLength(s: string): (n: nat)
    requires TagAt(s)
    ensures 3 <= n <= |s| && s[n - 1] == '>' && '>' !in s[1..n - 1]
  {
    var k := IndexOf(s[2..], '>');
    assert s[2..][..k] == s[2..k + 2];
    assert s[1..k + 2] == [s[1]] + s[2..k + 2];
    k + 3
  }

  /** ReplaceAllString(s, ""): every match found scanning left to right is
      removed, and the scan resumes after it. */
  function StripTags(s: string): (r: string)
    ensures |r| <= |s|
    ensures s != [] && s[0] != '<' ==> r != [] && r[0] == s[0]
  {
    if s == [] then []
    else if TagAt(s) then StripTags(s[TagLength(s)..])
    else [s[0]] + StripTags(s[1..])
  }

  /** No match of the tag pattern starts anywhere in `s`. */
  predicate NoTag(s: string)
  {
    s == [] || (!TagAt(s) && NoTag(s[1..]))
  }

  lemma StripTagsKeepsAbsent(s: string, c: char)
    requires c !in s
    ensures c !in StripTags(s)
  {
    if s != [] {
      if TagAt(s) {
        StripTagsKeepsAbsent(s[TagLength(s)..], c);
      } else {
        StripTagsKeepsAbsent(s[1..], c);
      }
    }
  }

  /** After removal no tag is left: removing never joins two pieces into a new tag. */
  lemma {:induction false} StripTagsLeavesNoTag(s: string)
    ensures NoTag(StripTags(s))
  {
    if s == [] {
    } else if TagAt(s) {
      StripTagsLeavesNoTag(s[TagLength(s)..]);
    } else {
      var rest := StripTags(s[1..]);
      StripTagsLeavesNoTag(s[1..]);
      var r := [s[0]] + rest;
      assert r[1..] == rest;
      if s[0] == '<' && |rest| >= 1 {
        if s[1] == '>' {
          assert r[1] == '>';
        } else {
          assert '>' !in s[1..] by {
            assert s[1..] == [s[1]] + s[2..];
          }
          StripTagsKeepsAbsent(s[1..], '>');
          assert r[2..] == rest[1..];
        }
      }
      assert !TagAt(r);
    }
  }

  /** Text with no tag is left alone. */
  lemma {:induction false} StripTagsFixed(s: string)
    requires NoTag(s)
    ensures StripTags(s) == s
  {
    if s != [] {
      StripTagsFixed(s[1..]);
    }
  }

  /** A match at the front of a prefix is a match at the front of the whole. */
  lemma NoTagAtPrefix(p: string, q: string)
    requires !TagAt(p + q)
    ensures !TagAt(p)
  {
    if |p| >= 2 {
      assert (p + q)[2..] == p[2..] + q;
      assert (p + q)[0] == p[0] && (p + q)[1] == p[1];
    }
  }

  lemma {:induction false} NoTagPrefix(s: string, b: nat)
    requires NoTag(s) && b <= |s|
    ensures NoTag(s[..b])
  {
    if b > 0 {
      assert s == s[..b] + s[b..];
      NoTagAtPrefix(s[..b], s[b..]);
      NoTagPrefix(s[1..], b - 1);
      assert s[..b][1..] == s[1..][..b - 1];
    }
  }

  lemma {:induction false} NoTagSuffix(s: string, a: nat)
    requires NoTag(s) && a <= |s|
    ensures NoTag(s[a..])
  {
    if a > 0 {
      NoTagSuffix(s[1..], a - 1);
      assert s[1..][a - 1..] == s[a..];
    }
  }

  /** A piece of text with no tag has no tag either. */
  lemma NoTagSlice(s: string, a: nat, b: nat)
    requires NoTag(s) && a <= b <= |s|
    ensures NoTag(s[a..b])
  {
    NoTagSuffix(s, a);
    NoTagPrefix(s[a..], b - a);
    assert s[a..][..b - a] == s[a..b];
  }

  // ---------------------------------------------------------------------
  // Whitespace collapsing: Go's regexp `\s+` replaced by " ".

  function DropReSpaces(s: string): (r: string)
    ensures |r| <= |s|
    ensures r != [] ==> !ReIsSpace(r[0])
  {
    if s != [] && ReIsSpace(s[0]) then DropReSpaces(s[1..]) else s
  }

  lemma {:induction false} DropReSpacesSuffix(s: string)
    ensures DropReSpaces(s) == s[|s| - |DropReSpaces(s)|..]
  {
    if s != [] && ReIsSpace(s[0]) {
      DropReSpacesSuffix(s[1..]);
    }
  }

  /** Every maximal run of `\s` characters becomes one space. */
  function CollapseSpaces(s: string): (r: string)
    ensures s != [] && !ReIsSpace(s[0]) ==> r != [] && r[0] == s[0]
    ensures s != [] && ReIsSpace(s[0]) ==> r != [] && r[0] == ' '
    decreases |s|
  {
    if s == [] then []
    else if ReIsSpace(s[0]) then [' '] + CollapseSpaces(DropReSpaces(s))
    else [s[0]] + CollapseSpaces(s[1..])
  }

  /** The form collapsing produces: the only `\s` character is the plain
      space, and a space is never followed by another `\s` character. */
  predicate Collapsed(s: string)
  {
    s == [] ||
    ((ReIsSpace(s[0]) ==> s[0] == ' ' && (|s| > 1 ==> !ReIsSpace(s[1]))) && Collapsed(s[1..]))
  }

  /** The pointwise reading of Collapsed: no `\s` other than the plain
      space and no two adjacent `\s` characters. */
  lemma {:induction false} CollapsedAt(r: string, i: nat)
    requires Collapsed(r) && i < |r|
    ensures ReIsSpace(r[i]) ==> r[i] == ' '
    ensures i + 1 < |r| ==> !(ReIsSpace(r[i]) && ReIsSpace(r[i + 1]))
  {
    if i > 0 {
      CollapsedAt(r[1..], i - 1);
    }
  }

  lemma {:induction false} CollapseSpacesCollapsed(s: string)
    ensures Collapsed(CollapseSpaces(s))
    decreases |s|
  {
    if s == [] {
    } else if ReIsSpace(s[0]) {
      var d := DropReSpaces(s);
      CollapseSpacesCollapsed(d);
      var r := [' '] + CollapseSpaces(d);
      assert r[1..] == CollapseSpaces(d);
    } else {
      CollapseSpacesCollapsed(s[1..]);
      var r := [s[0]] + CollapseSpaces(s[1..]);
      assert r[1..] == CollapseSpaces(s[1..]);
    }
  }

  lemma {:induction false} CollapseSpacesFixed(s: string)
    requires Collapsed(s)
    ensures CollapseSpaces(s) == s
  {
    if s != [] {
      if ReIsSpace(s[0]) {
        assert DropReSpaces(s) == s[1..];
      }
      CollapseSpacesFixed(s[1..]);
    }
  }

  lemma {:induction false} CollapseSpacesKeepsAbsent(s: string, c: char)
    requires c !in s && c != ' '
    ensures c !in CollapseSpaces(s)
    decreases |s|
  {
    if s != [] {
      if ReIsSpace(s[0]) {
        var d := DropReSpaces(s);
        assert c !in d by {
          DropReSpacesSuffix(s);
        }
        CollapseSpacesKeepsAbsent(d, c);
      } else {
        CollapseSpacesKeepsAbsent(s[1..], c);
      }
    }
  }

  lemma {:induction false} CollapseSpacesKeepsNoTag(s: string)
    requires NoTag(s)
    ensures NoTag(CollapseSpaces(s))
    decreases |s|
  {
    if s != [] {
      DropReSpacesSuffix(s);
      var tail := if ReIsSpace(s[0]) then DropReSpaces(s) else s[1..];
      NoTagSuffix(s, |s| - |tail|);
      CollapseSpacesKeepsNoTag(tail);
      var rest := CollapseSpaces(tail);
      var r := CollapseSpaces(s);
      assert r[1..] == rest;
      if r[0] == '<' && |rest| >= 1 {
        assert s[0] == '<' && tail == s[1..];
        if s[1] == '>' {
          assert r[1] == '>';
        } else {
          assert '>' !in s[1..] by {
            assert s[1..] == [s[1]] + s[2..];
          }
          CollapseSpacesKeepsAbsent(s[1..], '>');
          assert r[2..] == rest[1..];
        }
      }
      assert !TagAt(r);
    }
  }

  lemma {:induction false} CollapsedPrefix(s: string, b: nat)
    requires Collapsed(s) && b <= |s|
    ensures Collapsed(s[..b])
  {
    if b > 0 {
      CollapsedPrefix(s[1..], b - 1);
      assert s[..b][1..] == s[1..][..b - 1];
    }
  }

  lemma {:induction false} CollapsedSuffix(s: string, a: nat)
    requires Collapsed(s) && a <= |s|
    ensures Collapsed(s[a..])
  {
    if a > 0 {
      CollapsedSuffix(s[1..], a - 1);
      assert s[1..][a - 1..] == s[a..];
    }
  }

  lemma CollapsedSlice(s: string, a: nat, b: nat)
    requires Collapsed(s) && a <= b <= |s|
    ensures Collapsed(s[a..b])
  {
    CollapsedSuffix(s, a);
    CollapsedPrefix(s[a..], b - a);
    assert s[a..][..b - a] == s[a..b];
  }

  /** Go's TrimSpace takes a contiguous piece of its argument. */
  lemma GoTrimSpaceSlice(s: string) returns (a: nat)
    ensures a + |GoTrimSpace(s)| <= |s| && GoTrimSpace(s) == s[a..a + |GoTrimSpace(s)|]
  {
    a := TrimWithSlice(s, GoIsSpace);
  }

  // ---------------------------------------------------------------------
  // cleanColumnName

  /** The first line that is non-blank after trimming, trimmed; "" if none. */
  function FirstNonBlank(lines: seq<string>): string
  {
    if lines == [] then ""
    else if GoTrimSpace(lines[0]) != "" then GoTrimSpace(lines[0])
    else FirstNonBlank(lines[1..])
  }

  /** cleanColumnName, stated as the pipeline it is: trim, remove tags,
      keep the first non-blank line, collapse `\s` runs, trim. */
  function Clean(raw: string): string
  {
    if raw == "" then ""
    else
      var first := FirstNonBlank(Split(StripTags(GoTrimSpace(raw)), '\n'));
      if first == "" then "" else GoTrimSpace(CollapseSpaces(first))
  }

  /** The shape of every cleaned name. */
  ghost predicate IsCleanName(r: string)
  {
    && (r != [] ==> !GoIsSpace(r[0]) && !GoIsSpace(r[|r| - 1]))
    && '\n' !in r
    && Collapsed(r)
    && NoTag(r)
  }

  lemma FirstNonBlankShape(lines: seq<string>) returns (k: nat)
    requires FirstNonBlank(lines) != ""
    ensures k < |lines| && FirstNonBlank(lines) == GoTrimSpace(lines[k])
    ensures forall j :: 0 <= j < k ==> GoTrimSpace(lines[j]) == ""
  {
    if GoTrimSpace(lines[0]) != "" {
      k := 0;
    } else {
      var k' := FirstNonBlankShape(lines[1..]);
      k := k' + 1;
      forall j | 0 <= j < k ensures GoTrimSpace(lines[j]) == "" {
        if j > 0 {
          assert lines[j] == lines[1..][j - 1];
        }
      }
    }
  }

  /** Trimming a line keeps it free of tags and newlines. */
  lemma TrimmedLineShape(line: string)
    requires NoTag(line) && '\n' !in line
    ensures NoTag(GoTrimSpace(line)) && '\n' !in GoTrimSpace(line)
  {
    var a := GoTrimSpaceSlice(line);
    var t := GoTrimSpace(line);
    NoTagSlice(line, a, a + |t|);
    NotInSlice(line, a, a + |t|, '\n');
  }

  /** Trimming a collapsed, tag-free line keeps all three properties. */
  lemma TrimmedCollapsedShape(c: string)
    requires NoTag(c) && Collapsed(c) && '\n' !in c
    ensures NoTag(GoTrimSpace(c)) && Collapsed(GoTrimSpace(c)) && '\n' !in GoTrimSpace(c)
  {
    var b := GoTrimSpaceSlice(c);
    var r := GoTrimSpace(c);
    NoTagSlice(c, b, b + |r|);
    CollapsedSlice(c, b, b + |r|);
    NotInSlice(c, b, b + |r|, '\n');
  }

  /** The first non-blank line of text without tags has no tag and no newline. */
  lemma FirstLineShape(text: string)
    requires NoTag(text)
    ensures var first := FirstNonBlank(Split(text, '\n'));
      NoTag(first) && '\n' !in first && (first != [] ==> !GoIsSpace(first[0]))
  {
    var lines := Split(text, '\n');
    var first := FirstNonBlank(lines);
    if first != "" {
      var k := FirstNonBlankShape(lines);
      SplitPieceNoTag(text, '\n', k);
      TrimmedLineShape(lines[k]);
    }
  }

  /** Collapsing and trimming a tag-free line gives the clean shape. */
  lemma FinishShape(first: string)
    requires NoTag(first) && '\n' !in first
    ensures IsCleanName(GoTrimSpace(CollapseSpaces(first)))
  {
    var c := CollapseSpaces(first);
    CollapseSpacesKeepsNoTag(first);
    CollapseSpacesCollapsed(first);
    CollapseSpacesKeepsAbsent(first, '\n');
    TrimmedCollapsedShape(c);
  }

  /** Every result of cleaning has the clean shape. */
  lemma CleanIsCleanName(raw: string)
    ensures IsCleanName(Clean(raw))
  {
    if raw != "" {
      var stripped := StripTags(GoTrimSpace(raw));
      StripTagsLeavesNoTag(GoTrimSpace(raw));
      FirstLineShape(stripped);
      var first := FirstNonBlank(Split(stripped, '\n'));
      if first != "" {
        FinishShape(first);
      }
    }
  }

  /** Every piece of a split of text without tags is without tags. */
  lemma {:induction false} SplitPieceNoTag(s: string, sep: char, k: nat)
    requires NoTag(s) && k < |Split(s, sep)|
    ensures NoTag(Split(s, sep)[k])
  {
    if sep in s {
      var i := IndexOf(s, sep);
      if k == 0 {
        NoTagPrefix(s, i);
      } else {
        NoTagSuffix(s, i + 1);
        SplitPieceNoTag(s[i + 1..], sep, k - 1);
      }
    }
  }

  /** A name already in clean shape is its own cleaning. */
  lemma CleanFixed(r: string)
    requires IsCleanName(r)
    ensures Clean(r) == r
  {
    if r != "" {
      TrimWithFixed(r, GoIsSpace);
      StripTagsFixed(r);
      assert Split(r, '\n') == [r];
      CollapseSpacesFixed(r);
    }
  }

  /** Cleaning is idempotent. */
  lemma CleanIdempotent(raw: string)
    ensures Clean(Clean(raw)) == Clean(raw)
  {
    CleanIsCleanName(raw);
    CleanFixed(Clean(raw));
  }

  /** A name cleans to "" exactly when, after trimming and tag removal,
      every line is blank: whitespace, tags and blank lines vanish. */
  lemma {:induction false} CleanEmptyIff(raw: string)
    ensures Clean(raw) == "" <==>
      (raw == "" || forall l :: l in Split(StripTags(GoTrimSpace(raw)), '\n') ==> IsGoBlank(l))
  {
    if raw != "" {
      var lines := Split(StripTags(GoTrimSpace(raw)), '\n');
      FirstNonBlankEmptyIff(lines);
      var first := FirstNonBlank(lines);
      if first != "" {
        var c := CollapseSpaces(first);
        var k := FirstNonBlankShape(lines);
        assert !GoIsSpace(first[0]);
        assert !ReIsSpace(first[0]);
        assert c[0] == first[0];
        TrimWithEmpty(c, GoIsSpace);
      }
    }
  }

  lemma {:induction false} FirstNonBlankEmptyIff(lines: seq<string>)
    ensures FirstNonBlank(lines) == "" <==> forall l :: l in lines ==> IsGoBlank(l)
  {
    if lines != [] {
      FirstNonBlankEmptyIff(lines[1..]);
      assert lines == [lines[0]] + lines[1..];
      if IsGoBlank(lines[0]) {
        assert (forall l :: l in lines ==> IsGoBlank(l)) <==> (forall l :: l in lines[1..] ==> IsGoBlank(l));
      }
    }
  }

  /** The one loop of cleanColumnName: the first line that is non-blank
      after trimming, trimmed. */
  method FirstNonBlankLine(lines: seq<string>) returns (first: string)
    ensures first == FirstNonBlank(lines)
    ensures first == "" <==> forall l :: l in lines ==> IsGoBlank(l)
    ensures first != "" ==> exists k :: 0 <= k < |lines| && first == GoTrimSpace(lines[k]) &&
                                        (forall j :: 0 <= j < k ==> IsGoBlank(lines[j]))
  {
    FirstNonBlankEmptyIff(lines);
    if FirstNonBlank(lines) != "" {
      var k := FirstNonBlankShape(lines);
    }
    first := "";
    var i := 0;
    while i < |lines|
      invariant 0 <= i <= |lines|
      invariant FirstNonBlank(lines) == FirstNonBlank(lines[i..])
    {
      var trimmed := GoTrimSpace(lines[i]);
      if trimmed != "" {
        first := trimmed;
        return;
      }
      assert lines[i..][1..] == lines[i + 1..];
      i := i + 1;
    }
  }

  /** cleanColumnName. */
  method CleanColumnName(raw: string) returns (cleaned: string)
    ensures cleaned == Clean(raw)
    ensures IsCleanName(cleaned)
    ensures raw == "" ==> cleaned == ""
  {
    CleanIsCleanName(raw);
    if raw == "" {
      return "";
    }
    cleaned := GoTrimSpace(raw);
    cleaned := StripTags(cleaned);
    var lines := Split(cleaned, '\n');
    var firstLine := FirstNonBlankLine(lines);
    if firstLine == "" {
      return "";
    }
    cleaned := CollapseSpaces(firstLine);
    cleaned := GoTrimSpace(cleaned);
  }

  // ---------------------------------------------------------------------
  // Aggregation of scanned headers.

  /** One spreadsheet as the scanner sees it: None when it cannot be opened;
      otherwise one entry per sheet, None when that sheet's headers cannot
      be read, else the sheet's row-1 cells. */
  type FileHeaders = Option<seq<Option<seq<string>>>>

  /** The cleaned, non-empty names a list of raw headers contributes. */
  ghost function HeaderNames(headers: seq<string>): set<string>
  {
    if headers == [] then {}
    else HeaderNames(headers[..|headers| - 1]) + HeaderName(headers[|headers| - 1])
  }

  /** The name one raw header contributes: none when it is blank or
      cleans to nothing. */
  ghost function HeaderName(h: string): set<string>
  {
    if GoTrimSpace(h) != "" && Clean(GoTrimSpace(h)) != "" then {Clean(GoTrimSpace(h))} else {}
  }

  ghost function SheetNames(sheets: seq<Option<seq<string>>>): set<string>
  {
    if sheets == [] then {}
    else
      var last := sheets[|sheets| - 1];
      SheetNames(sheets[..|sheets| - 1]) + (if last.Some? then HeaderNames(last.value) else {})
  }

  ghost function FileNames(file: FileHeaders): set<string>
  {
    if file.None? then {} else SheetNames(file.value)
  }

  ghost function AllNames(files: seq<FileHeaders>): set<string>
  {
    if files == [] then {} else AllNames(files[..|files| - 1]) + FileNames(files[|files| - 1])
  }

  /** The scan state shared by every file of one run: the set of unique
      cleaned names and, for each, the first raw header that produced it. */
  class ColumnScan {
    var uniqueColumns: set<string>
    var cleaningStats: map<string, string>

    ghost predicate Valid()
      reads this
    {
      cleaningStats.Keys == uniqueColumns
    }

    constructor ()
      ensures Valid() && uniqueColumns == {} && cleaningStats == map[]
    {
      uniqueColumns := {};
      cleaningStats := map[];
    }

    /** scanFileColumns: adds every cleaned header of every readable sheet;
        a file that cannot be opened is an error and adds nothing. */
    method ScanFileColumns(file: FileHeaders) returns (failed: bool)
      requires Valid()
      modifies this
      ensures Valid()
      ensures failed <==> file.None?
      ensures uniqueColumns == old(uniqueColumns) + FileNames(file)
      ensures forall c :: c in old(cleaningStats) ==> c in cleaningStats && cleaningStats[c] == old(cleaningStats)[c]
    {
      if file.None? {
        return true;
      }
      failed := false;
      var sheets := file.value;
      var s := 0;
      while s < |sheets|
        invariant 0 <= s <= |sheets|
        invariant Valid()
        invariant uniqueColumns == old(uniqueColumns) + SheetNames(sheets[..s])
        invariant forall c :: c in old(cleaningStats) ==> c in cleaningStats && cleaningStats[c] == old(cleaningStats)[c]
      {
        assert sheets[..s + 1][..s] == sheets[..s];
        if sheets[s].Some? {
          ScanHeaders(sheets[s].value);
        }
        s := s + 1;
      }
      assert sheets[..s] == sheets;
    }

    /** The header loop of scanFileColumns for one sheet. */
    method ScanHeaders(headers: seq<string>)
      requires Valid()
      modifies this
      ensures Valid()
      ensures uniqueColumns == old(uniqueColumns) + HeaderNames(headers)
      ensures forall c :: c in old(cleaningStats) ==> c in cleaningStats && cleaningStats[c] == old(cleaningStats)[c]
    {
      var h := 0;
      while h < |headers|
        invariant 0 <= h <= |headers|
        invariant Valid()
        invariant uniqueColumns == old(uniqueColumns) + HeaderNames(headers[..h])
        invariant forall c :: c in old(cleaningStats) ==> c in cleaningStats && cleaningStats[c] == old(cleaningStats)[c]
      {
        assert headers[..h + 1][..h] == headers[..h];
        AddHeader(headers[h]);
        h := h + 1;
      }
      assert headers[..h] == headers;
    }

    /** One header of the loop: trimmed, skipped when blank, cleaned, and
        recorded when the cleaned name is not empty; the first raw header
        seen for a name is the one kept in the statistics. */
    method AddHeader(header: string)
      requires Valid()
      modifies this
      ensures Valid()
      ensures uniqueColumns == old(uniqueColumns) + HeaderName(header)
      ensures forall c :: c in old(cleaningStats) ==> c in cleaningStats && cleaningStats[c] == old(cleaningStats)[c]
    {
      var rawHeader := GoTrimSpace(header);
      if rawHeader == "" {
        return;
      }
      var cleanHeader := CleanColumnName(rawHeader);
      if cleanHeader != "" {
        uniqueColumns := uniqueColumns + {cleanHeader};
        if cleanHeader !in cleaningStats {
          cleaningStats := cleaningStats[cleanHeader := rawHeader];
        }
      }
    }
  }

  // ---------------------------------------------------------------------
  // Sorting (Go's sort.Strings: byte order, which for code points is
  // code-point order).

  predicate StringLess(a: string, b: string)
  {
    if a == [] then b != []
    else if b == [] then false
    else if a[0] != b[0] then a[0] < b[0]
    else StringLess(a[1..], b[1..])
  }

  lemma {:induction false} StringLessTrichotomy(a: string, b: string)
    ensures StringLess(a, b) || a == b || StringLess(b, a)
    ensures !(StringLess(a, b) && StringLess(b, a))
    ensures !StringLess(a, a)
  {
    if a != [] && b != [] && a[0] == b[0] {
      StringLessTrichotomy(a[1..], b[1..]);
      if a[1..] == b[1..] {
        assert a == [a[0]] + a[1..] && b == [b[0]] + b[1..];
      }
    }
    if a != [] {
      StringLessTrichotomy(a[1..], a[1..]);
    }
  }

  lemma {:induction false} StringLessTransitive(a: string, b: string, c: string)
    requires StringLess(a, b) && StringLess(b, c)
    ensures StringLess(a, c)
  {
    if a != [] && b != [] && c != [] && a[0] == b[0] && b[0] == c[0] {
      StringLessTransitive(a[1..], b[1..], c[1..]);
    }
  }

  predicate StrictlySorted(xs: seq<string>)
  {
    forall i, j :: 0 <= i < j < |xs| ==> StringLess(xs[i], xs[j])
  }

  /** Inserts `x` into a strictly sorted list that does not hold it. */
  method InsertSorted(xs: seq<string>, x: string) returns (ys: seq<string>)
    requires StrictlySorted(xs) && x !in xs
    ensures StrictlySorted(ys)
    ensures multiset(ys) == multiset(xs) + multiset{x}
  {
    var i := 0;
    while i < |xs| && StringLess(xs[i], x)
      invariant 0 <= i <= |xs|
      invariant forall j :: 0 <= j < i ==> StringLess(xs[j], x)
    {
      i := i + 1;
    }
    if i < |xs| {
      StringLessTrichotomy(xs[i], x);
    }
    forall j | i <= j < |xs| ensures StringLess(x, xs[j]) {
      if j > i {
        StringLessTransitive(x, xs[i], xs[j]);
      }
    }
    ys := xs[..i] + [x] + xs[i..];
    assert xs == xs[..i] + xs[i..];
  }

  /** sort.Strings over a list without duplicates. */
  method SortStrings(xs: seq<string>) returns (sorted: seq<string>)
    requires forall i, j :: 0 <= i < j < |xs| ==> xs[i] != xs[j]
    ensures StrictlySorted(sorted)
    ensures multiset(sorted) == multiset(xs)
  {
    sorted := [];
    var i := 0;
    while i < |xs|
      invariant 0 <= i <= |xs|
      invariant StrictlySorted(sorted)
      invariant multiset(sorted) == multiset(xs[..i])
    {
      assert xs[i] !in xs[..i];
      assert xs[i] !in multiset(sorted);
      sorted := InsertSorted(sorted, xs[i]);
      assert xs[..i + 1] == xs[..i] + [xs[i]];
      i := i + 1;
    }
    assert xs[..i] == xs;
  }

  /** The loop of ScanAllColumnsInDirectory that lists the collected names,
      skipping blank ones (a cleaned name never is). */
  method NonBlankColumns(uniqueColumns: set<string>) returns (columnNames: seq<string>)
    requires forall c :: c in uniqueColumns ==> IsCleanName(c) && c != ""
    ensures forall c :: c in columnNames <==> c in uniqueColumns
    ensures forall c :: c in columnNames ==> !IsGoBlank(c) && IsCleanName(c)
    ensures forall i, j :: 0 <= i < j < |columnNames| ==> columnNames[i] != columnNames[j]
  {
    columnNames := [];
    var remaining := uniqueColumns;
    while remaining != {}
      invariant remaining <= uniqueColumns
      invariant forall c :: c in columnNames <==> c in uniqueColumns - remaining
      invariant forall c :: c in columnNames ==> !IsGoBlank(c) && IsCleanName(c)
      invariant forall i, j :: 0 <= i < j < |columnNames| ==> columnNames[i] != columnNames[j]
      decreases remaining
    {
      var column :| column in remaining;
      assert column !in columnNames;
      CleanNameNotBlank(column);
      if GoTrimSpace(column) != "" {
        columnNames := columnNames + [column];
      } else {
        assert false;
      }
      remaining := remaining - {column};
    }
  }

  /** ScanAllColumnsInDirectory. `inputDirMade` and `outputDirMade` say
      whether the two directories exist or can be made, `files` holds the
      headers of every .xlsx file the walk of the input directory finds
      (None: the walk fails) and `writeOk` whether the file system accepts
      the scanned-columns file. Ok(None) when there is no spreadsheet
      (nothing is written); otherwise Ok of the list written: every
      cleaned name of every readable sheet, once, in ascending order, none
      of them blank. Files that fail to open are skipped. */
  method ScanAllColumnsInDirectory(inputDirMade: bool, outputDirMade: bool,
                                   files: Option<seq<FileHeaders>>, writeOk: bool)
    returns (result: Result<Option<seq<string>>>)
    ensures !inputDirMade ==> result == Err("failed to create input directory")
    ensures inputDirMade && !outputDirMade ==> result == Err("failed to create output directory")
    ensures inputDirMade && outputDirMade && files.None? ==> result == Err("failed to get xlsx files")
    ensures inputDirMade && outputDirMade && files == Some([]) ==> result == Ok(None)
    ensures inputDirMade && outputDirMade && files.Some? && files.value != [] ==>
      if writeOk then result.Ok? && result.value.Some? else result == Err("failed to write columns to file")
    ensures result.Ok? && result.value.Some? ==> files.Some?
    ensures result.Ok? && result.value.Some? && files.Some? ==>
      var written := result.value.value;
      && StrictlySorted(written)
      && (forall c :: c in written <==> c in AllNames(files.value))
      && (forall c :: c in written ==> !IsGoBlank(c) && IsCleanName(c))
  {
    if !inputDirMade {
      return Err("failed to create input directory");
    }
    if !outputDirMade {
      return Err("failed to create output directory");
    }
    if files.None? {
      return Err("failed to get xlsx files");
    }
    if files.value == [] {
      return Ok(None);
    }
    var sorted := ScannedColumnList(files.value);
    if !writeOk {
      return Err("failed to write columns to file");
    }
    return Ok(Some(sorted));
  }

  /** The scan of ScanAllColumnsInDirectory over the spreadsheets found:
      every cleaned name of every readable sheet, once, in ascending
      order, none of them blank. */
  method ScannedColumnList(files: seq<FileHeaders>) returns (sorted: seq<string>)
    ensures StrictlySorted(sorted)
    ensures forall c :: c in sorted <==> c in AllNames(files)
    ensures forall c :: c in sorted ==> !IsGoBlank(c) && IsCleanName(c)
  {
    var scan := new ColumnScan();
    var f := 0;
    while f < |files|
      invariant 0 <= f <= |files|
      invariant scan.Valid()
      invariant scan.uniqueColumns == AllNames(files[..f])
    {
      var failed := scan.ScanFileColumns(files[f]);
      assert files[..f + 1][..f] == files[..f];
      f := f + 1;
    }
    assert files[..f] == files;
    AllNamesClean(files);
    var columnNames := NonBlankColumns(scan.uniqueColumns);
    assert forall c :: c in columnNames <==> c in AllNames(files);
    sorted := SortStrings(columnNames);
    forall c ensures c in sorted <==> c in AllNames(files) {
      assert c in sorted <==> c in multiset(sorted);
      assert c in columnNames <==> c in multiset(columnNames);
    }
  }

  /** A non-empty clean name is not blank, so the blank filter applied
      before sorting never removes anything. */
  lemma CleanNameNotBlank(c: string)
    requires c != "" && IsCleanName(c)
    ensures !IsGoBlank(c)
  {
    TrimWithFixed(c, GoIsSpace);
  }

  lemma {:induction false} HeaderNamesClean(headers: seq<string>)
    ensures forall c :: c in HeaderNames(headers) ==> c != "" && IsCleanName(c)
  {
    if headers != [] {
      HeaderNamesClean(headers[..|headers| - 1]);
      CleanIsCleanName(GoTrimSpace(headers[|headers| - 1]));
    }
  }

  lemma {:induction false} SheetNamesClean(sheets: seq<Option<seq<string>>>)
    ensures forall c :: c in SheetNames(sheets) ==> c != "" && IsCleanName(c)
  {
    if sheets != [] {
      SheetNamesClean(sheets[..|sheets| - 1]);
      var last := sheets[|sheets| - 1];
      if last.Some? {
        HeaderNamesClean(last.value);
      }
    }
  }

  lemma {:induction false} AllNamesClean(files: seq<FileHeaders>)
    ensures forall c :: c in AllNames(files) ==> c != "" && IsCleanName(c)
  {
    if files != [] {
      AllNamesClean(files[..|files| - 1]);
      var last := files[|files| - 1];
      if last.Some? {
        SheetNamesClean(last.value);
      }
    }
  }
}
