/** The suggestion side of the mapping session (internal/mapping/ai.go):
    the prompt sent to the language model, the dispatch into chunks, and
    the parser of the `scanned|target|confidence` response. The model call
    itself is a parameter `batch`; the float scanner (`fmt.Sscanf` with
    "%f") is a parameter `scanFloat` that yields None when it fails. */
module AiMapping {
  import opened Text
  import opened Arith

  datatype AIMapping = AIMapping(scannedColumn: string, targetColumn: string, confidence: real)

  const NoMatch: string := "NO_MATCH"
  const HeaderPrefix: string := "ScannedColumn|"
  const ConfidenceThreshold: real := 0.8

  // ---------------------------------------------------------------------
  // parseMappingResponse

  /** What becomes of one response line; the four cases are the four
      counters the parser keeps. */
  datatype LineOutcome = Skipped | NoMatchLine | LowConfidence | Accepted(mapping: AIMapping)

  /** The confidence of a field: 0.0 when it does not scan as a float. */
  function Confidence(field: string, scanFloat: string -> Option<real>): real
  {
    match scanFloat(field)
    case None => 0.0
    case Some(v) => v
  }

  function ParseLine(raw: string, scanFloat: string -> Option<real>): LineOutcome
  {
    var line := GoTrimSpace(raw);
    if line == "" || StartsWith(line, HeaderPrefix) then Skipped
    else
      var parts := Split(line, '|');
      if |parts| != 3 then Skipped
      else
        var scanned := GoTrimSpace(parts[0]);
        var target := GoTrimSpace(parts[1]);
        var confidence := Confidence(GoTrimSpace(parts[2]), scanFloat);
        if target == NoMatch then NoMatchLine
        else if confidence < ConfidenceThreshold then LowConfidence
        else Accepted(AIMapping(scanned, target, confidence))
  }

  /** The accepted mappings of a sequence of lines, in line order. */
  function ParseLines(lines: seq<string>, scanFloat: string -> Option<real>): (mappings: seq<AIMapping>)
    ensures |mappings| <= |lines|
  {
    if lines == [] then []
    else
      Contribution(ParseLine(lines[0], scanFloat)) + ParseLines(lines[1..], scanFloat)
  }

  /** The mappings one line adds: its mapping when accepted, else none. */
  function Contribution(outcome: LineOutcome): seq<AIMapping>
  {
    if outcome.Accepted? then [outcome.mapping] else []
  }

  /** The parse of a whole response: trimmed, then split on newlines. */
  function ParseResponse(response: string, scanFloat: string -> Option<real>): seq<AIMapping>
  {
    ParseLines(Split(GoTrimSpace(response), '\n'), scanFloat)
  }

  /** A mapping the parser can return. */
  predicate IsAcceptable(m: AIMapping)
  {
    && m.targetColumn != NoMatch
    && m.confidence >= ConfidenceThreshold
    && GoTrimSpace(m.scannedColumn) == m.scannedColumn
    && GoTrimSpace(m.targetColumn) == m.targetColumn
    && '|' !in m.scannedColumn && '|' !in m.targetColumn
  }

  lemma TrimKeepsAbsent(s: string, c: char)
    requires c !in s
    ensures c !in GoTrimSpace(s)
  {
    var a := TrimWithSlice(s, GoIsSpace);
    NotInSlice(s, a, a + |GoTrimSpace(s)|, c);
  }

  /** An accepted line gives an acceptable mapping: its target is not
      NO_MATCH, its confidence reaches 0.8 and its fields are trimmed. */
  lemma ParseLineAcceptable(raw: string, scanFloat: string -> Option<real>)
    ensures ParseLine(raw, scanFloat).Accepted? ==> IsAcceptable(ParseLine(raw, scanFloat).mapping)
  {
    var line := GoTrimSpace(raw);
    if ParseLine(raw, scanFloat).Accepted? {
      var parts := Split(line, '|');
      TrimWithIdempotent(parts[0], GoIsSpace);
      TrimWithIdempotent(parts[1], GoIsSpace);
      TrimKeepsAbsent(parts[0], '|');
      TrimKeepsAbsent(parts[1], '|');
    }
  }

  /** Blank lines, the echoed header line, lines without exactly three
      fields and lines whose confidence does not scan give nothing. */
  lemma ParseLineRejects(raw: string, scanFloat: string -> Option<real>)
    ensures IsGoBlank(raw) ==> ParseLine(raw, scanFloat) == Skipped
    ensures StartsWith(GoTrimSpace(raw), HeaderPrefix) ==> ParseLine(raw, scanFloat) == Skipped
    ensures |Split(GoTrimSpace(raw), '|')| != 3 ==> ParseLine(raw, scanFloat) == Skipped
    ensures |Split(GoTrimSpace(raw), '|')| == 3 && scanFloat(GoTrimSpace(Split(GoTrimSpace(raw), '|')[2])).None? ==>
      !ParseLine(raw, scanFloat).Accepted?
  {
  }

  /** Every mapping of a parse is acceptable. */
  lemma {:induction false} ParseLinesAcceptable(lines: seq<string>, scanFloat: string -> Option<real>)
    ensures forall m :: m in ParseLines(lines, scanFloat) ==> IsAcceptable(m)
  {
    if lines != [] {
      ParseLineAcceptable(lines[0], scanFloat);
      ParseLinesAcceptable(lines[1..], scanFloat);
    }
  }

  /** A non-empty run of lines contributes the same head mappings whatever follows it. */
  lemma ParseLinesSharedHead(a: seq<string>, b: seq<string>, scanFloat: string -> Option<real>) returns (h: seq<AIMapping>)
    requires a != []
    ensures ParseLines(a + b, scanFloat) == h + ParseLines(a[1..] + b, scanFloat)
    ensures ParseLines(a, scanFloat) == h + ParseLines(a[1..], scanFloat)
  {
    assert (a + b)[0] == a[0] && (a + b)[1..] == a[1..] + b;
    h := Contribution(ParseLine(a[0], scanFloat));
  }

  /** The parse works line by line: the parse of two blocks of lines is the
      parse of the first followed by the parse of the second, so order is
      kept and duplicates are not merged. */
  lemma {:induction false} ParseLinesAppend(a: seq<string>, b: seq<string>, scanFloat: string -> Option<real>)
    ensures ParseLines(a + b, scanFloat) == ParseLines(a, scanFloat) + ParseLines(b, scanFloat)
  {
    if a != [] {
      var h := ParseLinesSharedHead(a, b, scanFloat);
      ParseLinesAppend(a[1..], b, scanFloat);
    } else {
      assert a + b == b;
    }
  }

  /** The body of the parser's line loop: which counter one line moves. */
  method ClassifyLine(raw: string, scanFloat: string -> Option<real>) returns (outcome: LineOutcome)
    ensures outcome == ParseLine(raw, scanFloat)
    ensures outcome.Accepted? ==> IsAcceptable(outcome.mapping)
  {
    ParseLineAcceptable(raw, scanFloat);
    var line := GoTrimSpace(raw);
    if line == "" || StartsWith(line, HeaderPrefix) {
      return Skipped;
    }
    var parts := Split(line, '|');
    if |parts| != 3 {
      return Skipped;
    }
    var scannedCol := GoTrimSpace(parts[0]);
    var targetCol := GoTrimSpace(parts[1]);
    var confidence: real := 0.0;
    var scannedValue := scanFloat(GoTrimSpace(parts[2]));
    if scannedValue.Some? {
      confidence := scannedValue.value;
    }
    if targetCol == NoMatch {
      outcome := NoMatchLine;
    } else if confidence < ConfidenceThreshold {
      outcome := LowConfidence;
    } else {
      outcome := Accepted(AIMapping(scannedCol, targetCol, confidence));
    }
  }

  /** parseMappingResponse: the line loop with its four counters. It never
      fails; every line lands in exactly one counter. */
  method ParseMappingResponse(response: string, scanFloat: string -> Option<real>)
    returns (mappings: seq<AIMapping>, processed: nat, skipped: nat, noMatchCount: nat, lowConfidenceCount: nat)
    ensures mappings == ParseResponse(response, scanFloat)
    ensures processed == |mappings|
    ensures processed + skipped + noMatchCount + lowConfidenceCount == |Split(GoTrimSpace(response), '\n')|
    ensures forall m :: m in mappings ==> IsAcceptable(m)
  {
    var lines := Split(GoTrimSpace(response), '\n');
    ParseLinesAcceptable(lines, scanFloat);
    mappings := [];
    processed, skipped, noMatchCount, lowConfidenceCount := 0, 0, 0, 0;
    var i := 0;
    while i < |lines|
      invariant 0 <= i <= |lines|
      invariant mappings + ParseLines(lines[i..], scanFloat) == ParseLines(lines, scanFloat)
      invariant processed == |mappings|
      invariant processed + skipped + noMatchCount + lowConfidenceCount == i
    {
      var outcome := ClassifyLine(lines[i], scanFloat);
      ParseLinesStep(mappings, lines, i, scanFloat);
      match outcome {
        case Skipped =>
          skipped := skipped + 1;
        case NoMatchLine =>
          noMatchCount := noMatchCount + 1;
        case LowConfidence =>
          lowConfidenceCount := lowConfidenceCount + 1;
        case Accepted(_) =>
          processed := processed + 1;
      }
      mappings := mappings + Contribution(outcome);
      i := i + 1;
    }
    assert lines[i..] == [];
  }

  lemma ParseLinesStep(done: seq<AIMapping>, lines: seq<string>, i: nat, scanFloat: string -> Option<real>)
    requires i < |lines|
    ensures done + ParseLines(lines[i..], scanFloat)
         == (done + Contribution(ParseLine(lines[i], scanFloat))) + ParseLines(lines[i + 1..], scanFloat)
  {
    assert lines[i..][1..] == lines[i + 1..];
  }

  // ---------------------------------------------------------------------
  // Chunking and dispatch

  const ChunkThreshold: nat := 100
  const ChunkSize: nat := 50

  function Min(a: int, b: int): int
  {
    if a < b then a else b
  }

  /** The chunks `[i, min(i + size, n))` for i = 0, size, 2*size, ... */
  function Chunks(s: seq<string>, size: nat): (chunks: seq<seq<string>>)
    requires size > 0
    decreases |s|
  {
    if s == [] then [] else [s[..Min(size, |s|)]] + Chunks(s[Min(size, |s|)..], size)
  }

  function Flatten(chunks: seq<seq<string>>): seq<string>
  {
    if chunks == [] then [] else chunks[0] + Flatten(chunks[1..])
  }

  /** Concatenated, the chunks give the list back in order. */
  lemma {:induction false} ChunksFlatten(s: seq<string>, size: nat)
    requires size > 0
    ensures Flatten(Chunks(s, size)) == s
    decreases |s|
  {
    if s != [] {
      var k := Min(size, |s|);
      ChunksFlatten(s[k..], size);
      assert Chunks(s, size)[1..] == Chunks(s[k..], size);
      assert s == s[..k] + s[k..];
    }
  }

  /** No chunk is empty and none is longer than the chunk size. */
  lemma {:induction false} ChunksBounded(s: seq<string>, size: nat)
    requires size > 0
    ensures forall i :: 0 <= i < |Chunks(s, size)| ==> 0 < |Chunks(s, size)[i]| <= size
    decreases |s|
  {
    if s != [] {
      var k := Min(size, |s|);
      ChunksBounded(s[k..], size);
      var chunks := Chunks(s, size);
      forall i | 0 <= i < |chunks| ensures 0 < |chunks[i]| <= size {
        if i > 0 {
          assert chunks[i] == Chunks(s[k..], size)[i - 1];
        }
      }
    }
  }

  /** There are ceil(n / size) chunks. */
  lemma {:induction false} ChunksCount(s: seq<string>, size: nat)
    requires size > 0
    ensures |Chunks(s, size)| == (|s| + size - 1) / size
    decreases |s|
  {
    if s != [] {
      var k := Min(size, |s|);
      var rest := s[k..];
      assert |Chunks(s, size)| == 1 + |Chunks(rest, size)|;
      DivStep(|s| - 1, size);
      if |s| <= size {
        assert rest == [];
        DivModUnique(|s| - 1, size, 0, |s| - 1);
      } else {
        ChunksCount(rest, size);
        assert |rest| + size - 1 == |s| - 1;
      }
    }
  }

  /** The mappings of the chunks whose batch succeeded, in chunk order. */
  function Collected(chunks: seq<seq<string>>, targets: seq<string>,
                     batch: (seq<string>, seq<string>) -> Option<seq<AIMapping>>): seq<AIMapping>
  {
    if chunks == [] then []
    else
      (match batch(chunks[0], targets) case None => [] case Some(ms) => ms)
      + Collected(chunks[1..], targets, batch)
  }

  lemma {:induction false} CollectedAppend(a: seq<seq<string>>, b: seq<seq<string>>, targets: seq<string>,
                                           batch: (seq<string>, seq<string>) -> Option<seq<AIMapping>>)
    ensures Collected(a + b, targets, batch) == Collected(a, targets, batch) + Collected(b, targets, batch)
  {
    if a != [] {
      assert (a + b)[1..] == a[1..] + b;
      CollectedAppend(a[1..], b, targets, batch);
    } else {
      assert a + b == b;
    }
  }

  /** When every batch fails nothing is collected, and when one chunk fails
      the others are still collected. */
  lemma {:induction false} CollectedSkipsFailures(chunks: seq<seq<string>>, targets: seq<string>,
                                                  batch: (seq<string>, seq<string>) -> Option<seq<AIMapping>>)
    ensures (forall c :: c in chunks ==> batch(c, targets).None?) ==> Collected(chunks, targets, batch) == []
    ensures forall c :: c in chunks && batch(c, targets).Some? ==>
      forall m :: m in batch(c, targets).value ==> m in Collected(chunks, targets, batch)
  {
    if chunks != [] {
      CollectedSkipsFailures(chunks[1..], targets, batch);
      assert forall c :: c in chunks ==> c == chunks[0] || c in chunks[1..];
    }
  }

  /** generateMappingsInChunks: the loop over `i += chunkSize`; a failed
      chunk is skipped. */
  method GenerateMappingsInChunks(scanned: seq<string>, targets: seq<string>, chunkSize: nat,
                                  batch: (seq<string>, seq<string>) -> Option<seq<AIMapping>>)
    returns (all: seq<AIMapping>)
    requires chunkSize > 0
    ensures all == Collected(Chunks(scanned, chunkSize), targets, batch)
  {
    all := [];
    var i := 0;
    while i < |scanned|
      invariant 0 <= i <= |scanned|
      invariant all + Collected(Chunks(scanned[i..], chunkSize), targets, batch)
                == Collected(Chunks(scanned, chunkSize), targets, batch)
      decreases |scanned| - i
    {
      var end := i + chunkSize;
      if end > |scanned| {
        end := |scanned|;
      }
      var chunk := scanned[i..end];
      assert chunk == scanned[i..][..Min(chunkSize, |scanned| - i)];
      assert scanned[i..][Min(chunkSize, |scanned| - i)..] == scanned[end..];
      var result := batch(chunk, targets);
      if result.Some? {
        all := all + result.value;
      }
      i := end;
    }
    assert scanned[i..] == [];
  }

  /** GenerateColumnMappings: both lists must be non-empty; more than 100
      scanned columns go in chunks of 50, otherwise one batch whose failure
      is the call's failure. */
  method GenerateColumnMappings(scanned: seq<string>, targets: seq<string>,
                                batch: (seq<string>, seq<string>) -> Option<seq<AIMapping>>)
    returns (result: Result<seq<AIMapping>>)
    ensures scanned == [] || targets == [] ==> result.Err?
    ensures scanned != [] && targets != [] && |scanned| > ChunkThreshold ==>
      result == Ok(Collected(Chunks(scanned, ChunkSize), targets, batch))
    ensures scanned != [] && targets != [] && |scanned| <= ChunkThreshold ==>
      (result.Ok? <==> batch(scanned, targets).Some?) &&
      (result.Ok? ==> result.value == batch(scanned, targets).value)
  {
    if |scanned| == 0 || |targets| == 0 {
      return Err("both scanned and target columns must be provided");
    }
    if |scanned| > ChunkThreshold {
      var all := GenerateMappingsInChunks(scanned, targets, ChunkSize, batch);
      return Ok(all);
    }
    var single := batch(scanned, targets);
    if single.None? {
      return Err("batch failed");
    }
    return Ok(single.value);
  }

  // ---------------------------------------------------------------------
  // buildMappingPrompt

  const PromptHeader: string := "You are an expert data analyst helping to map column names from various Excel files to a standardized target format.\n\nTASK: Map each scanned column to the most appropriate target column, or mark as \"NO_MATCH\" if uncertain.\n\nSCANNED COLUMNS (from various Excel files):\n"
  const PromptMiddle: string := "\nTARGET COLUMNS (standardized format):\n"
  const PromptFooter: string := "\nINSTRUCTIONS:\n1. Only suggest mappings you are confident about (>80% certainty)\n2. Consider semantic meaning, not just text similarity\n3. Map each scanned column to AT MOST ONE target column\n4. If uncertain or no clear match exists, use \"NO_MATCH\"\n\nOUTPUT FORMAT (one line per scanned column):\nScannedColumn|TargetColumn|Confidence\n\nEXAMPLES:\nCustomer Name|Name|0.95\nCust_ID|ID|0.90\nPhone Number|Phone|0.95\nRandom_Data|NO_MATCH|0.00\n\nNow provide mappings for the scanned columns:"

  function Bullet(column: string): string
  {
    "- " + column + "\n"
  }

  /** One "- <col>\n" line per column, in order. */
  function Bullets(columns: seq<string>): string
  {
    if columns == [] then [] else Bullet(columns[0]) + Bullets(columns[1..])
  }

  function Prompt(scanned: seq<string>, targets: seq<string>): string
  {
    PromptHeader + Bullets(scanned) + PromptMiddle + Bullets(targets) + PromptFooter
  }

  /** One of the `+=` loops of buildMappingPrompt. */
  method AppendBullets(prefix: string, columns: seq<string>) returns (text: string)
    ensures text == prefix + Bullets(columns)
  {
    text := prefix;
    var i := 0;
    while i < |columns|
      invariant 0 <= i <= |columns|
      invariant text + Bullets(columns[i..]) == prefix + Bullets(columns)
    {
      assert columns[i..][1..] == columns[i + 1..];
      text := text + Bullet(columns[i]);
      i := i + 1;
    }
    assert columns[i..] == [];
  }

  /** buildMappingPrompt: the fixed header, a bullet per scanned column,
      the fixed middle, a bullet per target column, the fixed footer. */
  method BuildMappingPrompt(scanned: seq<string>, targets: seq<string>) returns (prompt: string)
    ensures prompt == Prompt(scanned, targets)
    ensures forall c :: c in scanned ==> ContainsSubstring(prompt, Bullet(c))
    ensures forall c :: c in targets ==> ContainsSubstring(prompt, Bullet(c))
  {
    prompt := PromptHeader;
    prompt := AppendBullets(prompt, scanned);
    prompt := prompt + PromptMiddle;
    prompt := AppendBullets(prompt, targets);
    prompt := prompt + PromptFooter;
    ListsColumns(PromptHeader, scanned, PromptMiddle, targets, PromptFooter);
  }

  lemma {:induction false} BulletsContain(columns: seq<string>, c: string)
    requires c in columns
    ensures exists pre, post :: Bullets(columns) == pre + Bullet(c) + post
  {
    if columns[0] == c {
      assert Bullets(columns) == [] + Bullet(c) + Bullets(columns[1..]);
    } else {
      BulletsContain(columns[1..], c);
      var pre, post :| Bullets(columns[1..]) == pre + Bullet(c) + post;
      assert Bullets(columns) == (Bullet(columns[0]) + pre) + Bullet(c) + post;
    }
  }

  /** Every bullet of a list stays visible whatever text surrounds the list. */
  lemma BulletsInside(head: string, columns: seq<string>, tail: string)
    ensures forall c :: c in columns ==> ContainsSubstring(head + Bullets(columns) + tail, Bullet(c))
  {
    forall c | c in columns ensures ContainsSubstring(head + Bullets(columns) + tail, Bullet(c)) {
      BulletsContain(columns, c);
      var pre, post :| Bullets(columns) == pre + Bullet(c) + post;
      assert head + Bullets(columns) + tail == (head + pre) + Bullet(c) + (post + tail);
      ContainsSubstringMiddle(head + pre, Bullet(c), post + tail);
    }
  }

  /** Whatever fixed text surrounds them, both bullet lists appear whole. */
  lemma ListsColumns(header: string, scanned: seq<string>, middle: string, targets: seq<string>, footer: string)
    ensures forall c :: c in scanned ==>
      ContainsSubstring(header + Bullets(scanned) + middle + Bullets(targets) + footer, Bullet(c))
    ensures forall c :: c in targets ==>
      ContainsSubstring(header + Bullets(scanned) + middle + Bullets(targets) + footer, Bullet(c))
  {
    var tail := middle + Bullets(targets) + footer;
    assert header + Bullets(scanned) + middle + Bullets(targets) + footer == header + Bullets(scanned) + tail;
    BulletsInside(header, scanned, tail);
    var head := header + Bullets(scanned) + middle;
    BulletsInside(head, targets, footer);
  }
}
