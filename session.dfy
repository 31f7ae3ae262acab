/** The mapping session of internal/mapping/tui.go as an object whose
    handlers update its fields in place, each proved to perform the
    transition of the same name in module SessionState, and
    RunMappingTUI, which starts the session, feeds it the user's and the
    suggestion service's messages and decides what is saved. */
module Session {
  import opened Text
  import opened MappingTypes
  import opened SessionState

  class Model {
    var scannedColumns: seq<string>
    var targetColumns: seq<string>
    var mappings: map<string, string>
    var ignored: set<string>
    var aiSuggestions: map<string, string>
    var state: State
    var currentScanned: string
    var aiLoading: bool
    var page: int
    var row: int
    var col: int
    var colsPerRow: int
    var rowsPerPage: int
    var itemsPerPage: int
    var targetCursor: int
    var targetPage: int
    var targetPerPage: int
    var mapped: int
    var total: int

    function Snapshot(): ModelState
      reads this
    {
      ModelState(scannedColumns, targetColumns, mappings, ignored, aiSuggestions, state,
                 currentScanned, aiLoading, page, row, col, colsPerRow, rowsPerPage,
                 itemsPerPage, targetCursor, targetPage, targetPerPage, mapped, total)
    }

    predicate Valid()
      reads this
    {
      SessionState.Valid(Snapshot())
    }

    /** initialModel */
    constructor(scanned: seq<string>, targets: seq<string>, config: UIConfig)
      requires config.columnsPerRow > 0 && config.rowsPerPage > 0
      ensures Snapshot() == Initial(scanned, targets, config)
      ensures Valid()
    {
      scannedColumns, targetColumns := scanned, targets;
      mappings, ignored, aiSuggestions := map[], {}, map[];
      state, currentScanned, aiLoading := SelectScanned, "", false;
      page, row, col := 0, 0, 0;
      colsPerRow, rowsPerPage := config.columnsPerRow, config.rowsPerPage;
      itemsPerPage := config.columnsPerRow * config.rowsPerPage;
      targetCursor, targetPage, targetPerPage := 0, 0, DefaultTargetPerPage;
      mapped, total := 0, |scanned|;
      InitialValid(scanned, targets, config);
    }

    /** One of the two search loops of moveToNextUnmapped. */
    method SearchUnmapped(lo: int, hi: int) returns (found: Option<nat>)
      requires 0 <= lo && hi <= |scannedColumns|
      ensures found == FirstUnmapped(scannedColumns, mappings, ignored, lo, hi)
    {
      var i := lo;
      while i < hi
        invariant lo <= i && (i <= hi || i == lo)
        invariant FirstUnmapped(scannedColumns, mappings, ignored, i, hi)
               == FirstUnmapped(scannedColumns, mappings, ignored, lo, hi)
        decreases hi - i
      {
        var scanned := scannedColumns[i];
        if scanned !in mappings && scanned !in ignored {
          return Some(i);
        }
        i := i + 1;
      }
      return None;
    }

    /** moveToNextUnmapped, with the wrap-around search bounded by the end
        of the list. */
    method MoveToNextUnmapped()
      requires Valid()
      modifies this
      ensures Snapshot() == MoveNext(old(Snapshot()))
      ensures Valid()
    {
      MoveNextLands(Snapshot());
      var current := page * itemsPerPage + row * colsPerRow + col;
      var found := SearchUnmapped(current + 1, |scannedColumns|);
      if found.None? {
        found := SearchUnmapped(0, Min(current, |scannedColumns|));
      }
      if found.Some? {
        var i := found.value;
        page := i / itemsPerPage;
        var remainder := i % itemsPerPage;
        row := remainder / colsPerRow;
        col := i % colsPerRow;
      }
    }

    /** moveToLastValidPosition */
    method MoveToLastValidPosition()
      requires Valid()
      modifies this
      ensures Snapshot() == MoveToLast(old(Snapshot()))
    {
      if |scannedColumns| == 0 {
        return;
      }
      var lastIdx := |scannedColumns| - 1;
      page := lastIdx / itemsPerPage;
      var remainder := lastIdx % itemsPerPage;
      row := remainder / colsPerRow;
      col := lastIdx % colsPerRow;
    }

    /** adjustPosition */
    method AdjustPosition()
      requires Valid()
      modifies this
      ensures Snapshot() == SessionState.AdjustPosition(old(Snapshot()))
    {
      if page * itemsPerPage + row * colsPerRow + col >= |scannedColumns| {
        MoveToLastValidPosition();
      }
    }

    /** The filter loop of the `a` key. */
    method UnmappedColumns() returns (unmapped: seq<string>)
      ensures unmapped == Unhandled(scannedColumns, mappings, ignored)
    {
      unmapped := [];
      var i := 0;
      while i < |scannedColumns|
        invariant 0 <= i <= |scannedColumns|
        invariant unmapped + Unhandled(scannedColumns[i..], mappings, ignored)
               == Unhandled(scannedColumns, mappings, ignored)
      {
        assert scannedColumns[i..][1..] == scannedColumns[i + 1..];
        var scanned := scannedColumns[i];
        if scanned !in mappings && scanned !in ignored {
          unmapped := unmapped + [scanned];
        }
        i := i + 1;
      }
      assert scannedColumns[i..] == [];
    }

    /** The search of the suggested target in the target list. */
    method FindTarget(target: string) returns (found: Option<nat>)
      ensures found == Find(targetColumns, target)
    {
      var i := 0;
      while i < |targetColumns|
        invariant 0 <= i <= |targetColumns|
        invariant forall j :: 0 <= j < i ==> targetColumns[j] != target
      {
        if targetColumns[i] == target {
          FindAt(targetColumns, target, i);
          return Some(i);
        }
        i := i + 1;
      }
      return None;
    }

    /** Enter in SelectScanned. */
    method SelectCurrentColumn()
      requires Valid()
      modifies this
      ensures Snapshot() == EnterScanned(old(Snapshot()))
    {
      ghost var s := Snapshot();
      var currentIdx := page * itemsPerPage + row * colsPerRow + col;
      assert currentIdx == CurrentIndex(s) >= 0;
      if currentIdx < |scannedColumns| {
        currentScanned, state := scannedColumns[currentIdx], SelectTarget;
        ghost var s1 := Snapshot();
        assert s1 == s.(currentScanned := currentScanned, state := SelectTarget);
        if currentScanned in aiSuggestions {
          var found := FindTarget(aiSuggestions[currentScanned]);
          if found.Some? {
            targetPage := found.value / targetPerPage;
            targetCursor := found.value % targetPerPage;
          }
        } else {
          targetCursor := 0;
          targetPage := 0;
        }
      }
    }

    /** `i` in SelectScanned. */
    method ToggleIgnoreCurrent()
      requires Valid()
      modifies this
      ensures Snapshot() == ToggleIgnore(old(Snapshot()))
    {
      var currentIdx := page * itemsPerPage + row * colsPerRow + col;
      if currentIdx < |scannedColumns| {
        var scanned := scannedColumns[currentIdx];
        if scanned in ignored {
          ignored := ignored - {scanned};
          mappings := mappings - {scanned};
          mapped := mapped - 1;
        } else {
          ignored := ignored + {scanned};
          mappings := mappings - {scanned};
          aiSuggestions := aiSuggestions - {scanned};
          mapped := mapped + 1;
        }
      }
    }

    /** `a` in SelectScanned: ask for suggestions for the undecided columns,
        if there are any and no request is under way. */
    method AskForSuggestions() returns (cmd: Command)
      requires Valid() && state == SelectScanned
      modifies this
      ensures (Snapshot(), cmd) == SelectScannedKey(old(Snapshot()), AskAI)
    {
      cmd := NoCommand;
      if !aiLoading {
        var unmappedColumns := UnmappedColumns();
        if |unmappedColumns| > 0 {
          aiLoading := true;
          state := AILoading;
          cmd := RequestSuggestions(unmappedColumns, targetColumns);
        }
      }
    }

    /** The assignments of Enter in SelectTarget, before the cursor moves on. */
    method AssignTarget(target: string)
      modifies this
      ensures Snapshot() == Assigned(old(Snapshot()), target)
    {
      ghost var s := Snapshot();
      var c := currentScanned;
      mapped := if c in mappings then mapped else mapped + 1;
      mappings := mappings[c := target];
      ghost var s1 := Snapshot();
      assert s1 == s.(mapped := s1.mapped, mappings := s1.mappings);
      ClearMarks();
    }

    /** The column under selection loses its ignore mark and suggestion,
        and the session returns to the grid. */
    method ClearMarks()
      modifies this
      ensures Snapshot() == old(Snapshot()).(ignored := old(ignored) - {old(currentScanned)},
        aiSuggestions := old(aiSuggestions) - {old(currentScanned)}, state := SelectScanned)
    {
      ignored := ignored - {currentScanned};
      aiSuggestions := aiSuggestions - {currentScanned};
      state := SelectScanned;
    }

    /** Enter in SelectTarget. */
    method ConfirmSelectedTarget()
      requires Valid() && state == SelectTarget
      modifies this
      ensures Snapshot() == ConfirmTarget(old(Snapshot()))
    {
      var targetIdx := targetPage * targetPerPage + targetCursor;
      if targetIdx < |targetColumns| {
        AssignedValid(Snapshot(), targetColumns[targetIdx]);
        AssignTarget(targetColumns[targetIdx]);
        MoveToNextUnmapped();
      }
    }

    /** updateSelectScanned */
    method UpdateSelectScanned(key: Key) returns (cmd: Command)
      requires Valid() && state == SelectScanned
      modifies this
      ensures (Snapshot(), cmd) == SelectScannedKey(old(Snapshot()), key)
    {
      cmd := NoCommand;
      match key {
        case QuitKey =>
          cmd := QuitCommand;
        case Up =>
          if row > 0 {
            row := row - 1;
          }
        case Down =>
          var maxRow := MaxRowForCurrentPage(Snapshot());
          if row < maxRow {
            row := row + 1;
          }
        case Left =>
          if col > 0 {
            col := col - 1;
          } else if page > 0 {
            page := page - 1;
            col := colsPerRow - 1;
            AdjustPosition();
          }
        case Right =>
          var maxCol := MaxColForCurrentRow(Snapshot());
          if col < maxCol {
            col := col + 1;
          } else if HasNextPage(Snapshot()) {
            page := page + 1;
            col := 0;
            row := 0;
          }
        case Enter =>
          SelectCurrentColumn();
        case IgnoreKey =>
          ToggleIgnoreCurrent();
        case AskAI =>
          cmd := AskForSuggestions();
        case NextKey =>
          MoveToNextUnmapped();
        case SaveKey =>
          state := Confirm;
        case Esc =>
        case YesKey =>
        case OtherKey =>
      }
    }

    /** updateSelectTarget */
    method UpdateSelectTarget(key: Key) returns (cmd: Command)
      requires Valid() && state == SelectTarget
      modifies this
      ensures (Snapshot(), cmd) == SelectTargetKey(old(Snapshot()), key)
    {
      cmd := NoCommand;
      match key {
        case QuitKey =>
          cmd := QuitCommand;
        case Esc =>
          state := SelectScanned;
        case Up =>
          if targetCursor > 0 {
            targetCursor := targetCursor - 1;
          } else if targetPage > 0 {
            targetPage := targetPage - 1;
            targetCursor := targetPerPage - 1;
          }
        case Down =>
          var maxCursor := MaxTargetCursor(Snapshot());
          if targetCursor < maxCursor {
            targetCursor := targetCursor + 1;
          } else if HasNextTargetPage(Snapshot()) {
            targetPage := targetPage + 1;
            targetCursor := 0;
          }
        case Left =>
          if targetPage > 0 {
            targetPage := targetPage - 1;
          }
        case Right =>
          if HasNextTargetPage(Snapshot()) {
            targetPage := targetPage + 1;
          }
        case Enter =>
          ConfirmSelectedTarget();
        case _ =>
      }
    }

    /** updateConfirm */
    method UpdateConfirm(key: Key) returns (cmd: Command)
      requires state == Confirm
      modifies this
      ensures (Snapshot(), cmd) == ConfirmKey(old(Snapshot()), key)
    {
      cmd := NoCommand;
      match key {
        case QuitKey =>
          cmd := QuitCommand;
        case NextKey =>
          cmd := QuitCommand;
        case YesKey =>
          cmd := QuitCommand;
        case Esc =>
          state := SelectScanned;
        case _ =>
      }
    }

    /** updateAILoading */
    method UpdateAILoading(key: Key) returns (cmd: Command)
      requires state == AILoading
      modifies this
      ensures (Snapshot(), cmd) == AILoadingKey(old(Snapshot()), key)
    {
      cmd := NoCommand;
      match key {
        case QuitKey =>
          cmd := QuitCommand;
        case Esc =>
          aiLoading := false;
          state := SelectScanned;
        case _ =>
      }
    }

    /** The loop over an AI result: a suggestion is taken for every column
        that is neither mapped nor ignored. */
    method ReceiveSuggestions(incoming: map<string, string>)
      requires Valid()
      modifies this
      ensures Snapshot() == OnMsg(old(Snapshot()), Suggestions(incoming)).0
    {
      var merged := MergeIncoming(aiSuggestions, incoming, mappings, ignored);
      aiLoading := false;
      state := SelectScanned;
      aiSuggestions := merged;
    }

    /** Update */
    method Update(msg: Msg) returns (cmd: Command)
      requires Valid()
      modifies this
      ensures (Snapshot(), cmd) == OnMsg(old(Snapshot()), msg)
      ensures Valid()
    {
      OnMsgValid(Snapshot(), msg);
      cmd := NoCommand;
      match msg {
        case WindowSize(height) =>
          targetPerPage := height - 6;
          if targetPerPage < 5 {
            targetPerPage := 5;
          }
        case Suggestions(incoming) =>
          ReceiveSuggestions(incoming);
        case SuggestionError =>
          aiLoading := false;
          state := SelectScanned;
        case KeyPress(key) =>
          match state {
            case SelectScanned => cmd := UpdateSelectScanned(key);
            case SelectTarget => cmd := UpdateSelectTarget(key);
            case Confirm => cmd := UpdateConfirm(key);
            case AILoading => cmd := UpdateAILoading(key);
          }
      }
    }

    /** The loop applying the records of an existing mapping file. */
    method LoadExisting(records: seq<ColumnMapping>)
      modifies this
      ensures Snapshot() == LoadRecords(old(Snapshot()), records)
    {
      var i := 0;
      while i < |records|
        invariant 0 <= i <= |records|
        invariant Snapshot() == LoadRecords(old(Snapshot()), records[..i])
      {
        assert records[..i + 1][..i] == records[..i];
        var mapping := records[i];
        if mapping.isIgnored {
          ignored := ignored + {mapping.scannedColumn};
          mapped := mapped + 1;
        } else if mapping.targetColumn != "" {
          mappings := mappings[mapping.scannedColumn := mapping.targetColumn];
          mapped := mapped + 1;
        }
        i := i + 1;
      }
      assert records[..i] == records;
    }

    /** The exact-match loop of RunMappingTUI. */
    method AutoMapExact(targetSet: set<string>)
      modifies this
      ensures Snapshot() == AutoMap(old(Snapshot()), old(scannedColumns), targetSet)
    {
      var scanned := scannedColumns;
      var i := 0;
      while i < |scanned|
        invariant 0 <= i <= |scanned|
        invariant Snapshot() == AutoMap(old(Snapshot()), scanned[..i], targetSet)
      {
        assert scanned[..i + 1][..i] == scanned[..i];
        var c := scanned[i];
        if c !in mappings && c !in ignored && c in targetSet {
          mappings := mappings[c := c];
          mapped := mapped + 1;
        }
        i := i + 1;
      }
      assert scanned[..i] == scanned;
    }

    /** The loop over the events the program receives, until one quits. */
    method RunEvents(events: seq<Msg>)
      requires Valid()
      modifies this
      ensures Snapshot() == Run(old(Snapshot()), events)
      ensures Valid()
    {
      var i := 0;
      while i < |events|
        invariant 0 <= i <= |events|
        invariant Valid()
        invariant Run(Snapshot(), events[i..]) == Run(old(Snapshot()), events)
      {
        assert events[i..][1..] == events[i + 1..];
        var cmd := Update(events[i]);
        if cmd == QuitCommand {
          return;
        }
        i := i + 1;
      }
    }

    /** The two loops building the saved configuration. */
    method SavedConfig() returns (config: MappingConfig)
      ensures SavedRecords(config.mappings, mappings, ignored)
    {
      var records: seq<ColumnMapping> := [];
      var pending := mappings.Keys;
      while pending != {}
        invariant pending <= mappings.Keys
        invariant |records| + |pending| == |mappings.Keys|
        invariant forall r :: r in records ==>
          !r.isIgnored && r.scannedColumn in mappings && mappings[r.scannedColumn] == r.targetColumn
          && r.scannedColumn !in pending
        invariant forall c :: c in mappings && c !in pending ==> ColumnMapping(c, mappings[c], false) in records
        decreases |pending|
      {
        var scanned :| scanned in pending;
        records := records + [ColumnMapping(scanned, mappings[scanned], false)];
        pending := pending - {scanned};
      }
      var mappedRecords := records;
      var pendingIgnored := ignored;
      while pendingIgnored != {}
        invariant pendingIgnored <= ignored
        invariant |records| == |mappedRecords| + |ignored| - |pendingIgnored|
        invariant mappedRecords <= records
        invariant forall r :: r in records ==>
          r in mappedRecords || (r.isIgnored && r.targetColumn == "" && r.scannedColumn in ignored
                                 && r.scannedColumn !in pendingIgnored)
        invariant forall c :: c in ignored && c !in pendingIgnored ==> ColumnMapping(c, "", true) in records
        decreases |pendingIgnored|
      {
        var scanned :| scanned in pendingIgnored;
        records := records + [ColumnMapping(scanned, "", true)];
        pendingIgnored := pendingIgnored - {scanned};
      }
      config := MappingConfig(records);
    }
  }

  /** The suggestions merged so far, with the keys in `pending` still to do. */
  ghost predicate MergedSoFar(current: map<string, string>, incoming: map<string, string>,
                              mappings: map<string, string>, ignored: set<string>,
                              pending: set<string>, merged: map<string, string>)
  {
    && pending <= incoming.Keys
    && (forall c :: c in merged <==>
          c in current || (c in incoming && c !in pending && !Handled(c, mappings, ignored)))
    && (forall c :: c in merged ==>
          merged[c] == if c in incoming && c !in pending && !Handled(c, mappings, ignored) then incoming[c] else current[c])
  }

  lemma MergedStep(current: map<string, string>, incoming: map<string, string>,
                   mappings: map<string, string>, ignored: set<string>,
                   pending: set<string>, merged: map<string, string>, scanned: string)
    requires MergedSoFar(current, incoming, mappings, ignored, pending, merged) && scanned in pending
    ensures MergedSoFar(current, incoming, mappings, ignored, pending - {scanned},
                        if scanned !in mappings && scanned !in ignored then merged[scanned := incoming[scanned]] else merged)
  {
  }

  lemma MergedDone(current: map<string, string>, incoming: map<string, string>,
                   mappings: map<string, string>, ignored: set<string>, merged: map<string, string>)
    requires MergedSoFar(current, incoming, mappings, ignored, {}, merged)
    ensures merged == MergeSuggestions(current, incoming, mappings, ignored)
  {
    ghost var spec := MergeSuggestions(current, incoming, mappings, ignored);
    assert merged.Keys == spec.Keys;
  }

  /** The loop over an AI result, on the suggestions as a value. */
  method MergeIncoming(current: map<string, string>, incoming: map<string, string>,
                       mappings: map<string, string>, ignored: set<string>)
    returns (merged: map<string, string>)
    ensures merged == MergeSuggestions(current, incoming, mappings, ignored)
  {
    merged := current;
    var pending := incoming.Keys;
    while pending != {}
      invariant MergedSoFar(current, incoming, mappings, ignored, pending, merged)
      decreases |pending|
    {
      var scanned :| scanned in pending;
      MergedStep(current, incoming, mappings, ignored, pending, merged, scanned);
      if scanned !in mappings && scanned !in ignored {
        merged := merged[scanned := incoming[scanned]];
      }
      pending := pending - {scanned};
    }
    MergedDone(current, incoming, mappings, ignored, merged);
  }

  /** RunMappingTUI: read both column lists (each must be readable and
      non-empty), start the session, run it over `events`, and, when the
      session ends in Confirm, save the configuration, which fails when the
      file system refuses the write (`saveOk` false). The result is the
      configuration saved, None when the session ends elsewhere.
      `existing` is the parsed mapping file, None when it cannot be
      loaded. */
  method RunMappingTUI(scannedColumnsFile: string, scannedText: Option<string>,
                       targetColumnsFile: string, targetText: Option<string>,
                       existing: Option<MappingConfig>, config: UIConfig, events: seq<Msg>,
                       saveOk: bool)
    returns (result: Result<Option<MappingConfig>>)
    requires config.columnsPerRow > 0 && config.rowsPerPage > 0
    ensures scannedText.None? || targetText.None? ==> result.Err?
    ensures scannedText.Some? && ColumnsOfLines(Split(scannedText.value, '\n')) == [] ==>
      result == Err("no scanned columns found in " + scannedColumnsFile)
    ensures scannedText.Some? && ColumnsOfLines(Split(scannedText.value, '\n')) != [] &&
            targetText.Some? && ColumnsOfLines(Split(targetText.value, '\n')) == [] ==>
      result == Err("no target columns found in " + targetColumnsFile)
    ensures scannedText.Some? && targetText.Some? ==>
      var scanned := ColumnsOfLines(Split(scannedText.value, '\n'));
      var targets := ColumnsOfLines(Split(targetText.value, '\n'));
      var final := Run(StartState(scanned, targets, existing, config), events);
      scanned != [] && targets != [] ==>
        && (result.Ok? <==> final.state != Confirm || saveOk)
        && (final.state == Confirm && !saveOk ==> result == Err("failed to save mapping configuration"))
    ensures result.Ok? ==>
      var scanned := ColumnsOfLines(Split(scannedText.value, '\n'));
      var targets := ColumnsOfLines(Split(targetText.value, '\n'));
      var final := Run(StartState(scanned, targets, existing, config), events);
      && scanned != [] && targets != []
      && (result.value.Some? <==> final.state == Confirm)
      && (result.value.Some? ==> SavedRecords(result.value.value.mappings, final.mappings, final.ignored))
  {
    var scannedRead := ReadColumnsFromFile(scannedText);
    if scannedRead.Err? {
      return Err("failed to read scanned columns: " + scannedRead.error);
    }
    var scannedColumns := scannedRead.value;
    if |scannedColumns| == 0 {
      return Err("no scanned columns found in " + scannedColumnsFile);
    }
    var targetRead := ReadColumnsFromFile(targetText);
    if targetRead.Err? {
      return Err("failed to read target columns: " + targetRead.error);
    }
    var targetColumns := targetRead.value;
    if |targetColumns| == 0 {
      return Err("no target columns found in " + targetColumnsFile);
    }
    var m := new Model(scannedColumns, targetColumns, config);
    if existing.Some? {
      m.LoadExisting(existing.value.mappings);
      LoadRecordsSpec(Initial(scannedColumns, targetColumns, config), existing.value.mappings);
    }
    var targetColumnsSet := set t | t in targetColumns;
    m.AutoMapExact(targetColumnsSet);
    assert m.Snapshot() == Prepared(scannedColumns, targetColumns, existing, config);
    m.MoveToNextUnmapped();
    m.RunEvents(events);
    if m.state == Confirm {
      var saved := m.SavedConfig();
      if !saveOk {
        return Err("failed to save mapping configuration");
      }
      return Ok(Some(saved));
    }
    return Ok(None);
  }
}
