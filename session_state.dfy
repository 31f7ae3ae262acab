/** The state of the interactive mapping session (internal/mapping/tui.go)
    as a value: the fields of its `model`, the grid arithmetic, and one
    transition function per key handler. The class in module Session
    performs the same transitions in place and is proved against these. */
module SessionState {
  import opened Text
  import opened Arith
  import opened MappingTypes

  datatype State = SelectScanned | SelectTarget | Confirm | AILoading

  /** The keys the handlers tell apart; aliases (`up`/`k`, `down`/`j`,
      `left`/`h`, `right`/`l`, `ctrl+c`/`q`) are one key each. */
  datatype Key =
    | QuitKey | Up | Down | Left | Right | Enter | Esc
    | IgnoreKey | AskAI | NextKey | SaveKey | YesKey | OtherKey

  /** The messages Update receives. A window resize carries its height. */
  datatype Msg =
    | KeyPress(key: Key)
    | Suggestions(suggestions: map<string, string>)
    | SuggestionError
    | WindowSize(height: int)

  /** What Update asks the runtime to do next. */
  datatype Command =
    | NoCommand
    | QuitCommand
    | RequestSuggestions(unmapped: seq<string>, targets: seq<string>)

  datatype UIConfig = UIConfig(columnsPerRow: int, rowsPerPage: int)

  /** The fields of the model that its handlers read or write. */
  datatype ModelState = ModelState(
    scannedColumns: seq<string>,
    targetColumns: seq<string>,
    mappings: map<string, string>,
    ignored: set<string>,
    aiSuggestions: map<string, string>,
    state: State,
    currentScanned: string,
    aiLoading: bool,
    page: int,
    row: int,
    col: int,
    colsPerRow: int,
    rowsPerPage: int,
    itemsPerPage: int,
    targetCursor: int,
    targetPage: int,
    targetPerPage: int,
    mapped: int,
    total: int)

  const DefaultTargetPerPage: int := 15

  /** initialModel: empty maps, the cursor at the first column, fifteen
      targets per page. */
  function Initial(scanned: seq<string>, targets: seq<string>, config: UIConfig): (s: ModelState)
  {
    ModelState(scanned, targets, map[], {}, map[], SelectScanned, "", false,
               0, 0, 0, config.columnsPerRow, config.rowsPerPage,
               config.columnsPerRow * config.rowsPerPage,
               0, 0, DefaultTargetPerPage, 0, |scanned|)
  }

  /** A column the user has already dealt with. */
  predicate Handled(c: string, mappings: map<string, string>, ignored: set<string>)
  {
    c in mappings || c in ignored
  }

  /** No column carries a suggestion once it is mapped or ignored. */
  predicate SuggestionsApart(s: ModelState)
  {
    forall c :: c in s.aiSuggestions ==> !Handled(c, s.mappings, s.ignored)
  }

  /** What every handler keeps: a positive grid (the configuration loader
      replaces a zero size by its default), a non-negative cursor, the
      loading flag in step with the loading state, and suggestions apart
      from the decided columns. */
  predicate Valid(s: ModelState)
  {
    && s.colsPerRow > 0 && s.rowsPerPage > 0
    && s.itemsPerPage == s.colsPerRow * s.rowsPerPage
    && s.targetPerPage > 0
    && s.page >= 0 && s.row >= 0 && s.col >= 0
    && s.targetPage >= 0 && s.targetCursor >= 0
    && s.aiLoading == (s.state == AILoading)
    && SuggestionsApart(s)
  }

  lemma InitialValid(scanned: seq<string>, targets: seq<string>, config: UIConfig)
    requires config.columnsPerRow > 0 && config.rowsPerPage > 0
    ensures Valid(Initial(scanned, targets, config))
    ensures CurrentIndex(Initial(scanned, targets, config)) == 0
  {
  }

  // ---------------------------------------------------------------------
  // Grid arithmetic

  /** getCurrentIndex */
  function CurrentIndex(s: ModelState): int
  {
    s.page * s.itemsPerPage + s.row * s.colsPerRow + s.col
  }

  /** The page, row and column that show index i. */
  function MoveTo(s: ModelState, i: nat): ModelState
    requires Valid(s)
  {
    s.(page := i / s.itemsPerPage,
       row := (i % s.itemsPerPage) / s.colsPerRow,
       col := i % s.colsPerRow)
  }

  /** Moving to an index puts the cursor on exactly that index, because a
      page holds a whole number of rows. */
  lemma MoveToIndex(s: ModelState, i: nat)
    requires Valid(s)
    ensures Valid(MoveTo(s, i))
    ensures CurrentIndex(MoveTo(s, i)) == i
    ensures MoveTo(s, i).row < s.rowsPerPage && MoveTo(s, i).col < s.colsPerRow
  {
    var ipp, cpr := s.itemsPerPage, s.colsPerRow;
    var q, rem := i / ipp, i % ipp;
    var r, c := rem / cpr, rem % cpr;
    assert i == q * ipp + rem;
    assert rem == r * cpr + c;
    assert i == (q * s.rowsPerPage + r) * cpr + c by {
      assert q * ipp == (q * s.rowsPerPage) * cpr;
      assert (q * s.rowsPerPage + r) * cpr == (q * s.rowsPerPage) * cpr + r * cpr;
    }
    DivModUnique(i, cpr, q * s.rowsPerPage + r, c);
    if r >= s.rowsPerPage {
      MulMonotone(s.rowsPerPage, r, cpr);
    }
  }

  /** getMaxRowForCurrentPage: the last row holding a column on this page.
      The source takes the ceiling of a float quotient; for the sizes in
      play it is the integer ceiling. */
  function MaxRowForCurrentPage(s: ModelState): int
    requires Valid(s)
  {
    var remaining := |s.scannedColumns| - s.page * s.itemsPerPage;
    if remaining <= 0 then 0
    else
      var rowsNeeded := (remaining + s.colsPerRow - 1) / s.colsPerRow;
      if rowsNeeded > s.rowsPerPage then s.rowsPerPage - 1 else rowsNeeded - 1
  }

  /** getMaxColForCurrentRow: the last column holding a column on this row. */
  function MaxColForCurrentRow(s: ModelState): int
  {
    var startOfRow := s.page * s.itemsPerPage + s.row * s.colsPerRow;
    var endOfRow := if startOfRow + s.colsPerRow > |s.scannedColumns| then |s.scannedColumns|
                    else startOfRow + s.colsPerRow;
    endOfRow - startOfRow - 1
  }

  predicate HasNextPage(s: ModelState)
  {
    (s.page + 1) * s.itemsPerPage < |s.scannedColumns|
  }

  predicate HasNextTargetPage(s: ModelState)
  {
    (s.targetPage + 1) * s.targetPerPage < |s.targetColumns|
  }

  /** getMaxTargetCursor */
  function MaxTargetCursor(s: ModelState): int
  {
    var itemsOnPage := |s.targetColumns| - s.targetPage * s.targetPerPage;
    if itemsOnPage > s.targetPerPage then s.targetPerPage - 1 else itemsOnPage - 1
  }

  /** moveToLastValidPosition: the cursor on the last column, if any. */
  function MoveToLast(s: ModelState): ModelState
    requires Valid(s)
  {
    if |s.scannedColumns| == 0 then s else MoveTo(s, |s.scannedColumns| - 1)
  }

  /** adjustPosition: back to the last column when past the end. */
  function AdjustPosition(s: ModelState): ModelState
    requires Valid(s)
  {
    if CurrentIndex(s) >= |s.scannedColumns| then MoveToLast(s) else s
  }

  // ---------------------------------------------------------------------
  // moveToNextUnmapped

  /** The first index in [lo, hi) whose column is neither mapped nor ignored. */
  function FirstUnmapped(cols: seq<string>, mappings: map<string, string>, ignored: set<string>,
                         lo: int, hi: int): Option<nat>
    requires 0 <= lo && hi <= |cols|
    decreases hi - lo
  {
    if lo >= hi then None
    else if !Handled(cols[lo], mappings, ignored) then Some(lo)
    else FirstUnmapped(cols, mappings, ignored, lo + 1, hi)
  }

  lemma {:induction false} FirstUnmappedSpec(cols: seq<string>, mappings: map<string, string>, ignored: set<string>,
                                             lo: int, hi: int)
    requires 0 <= lo && hi <= |cols|
    ensures match FirstUnmapped(cols, mappings, ignored, lo, hi)
      case None => forall j :: lo <= j < hi ==> Handled(cols[j], mappings, ignored)
      case Some(i) =>
        && lo <= i < hi && !Handled(cols[i], mappings, ignored)
        && forall j :: lo <= j < i ==> Handled(cols[j], mappings, ignored)
    decreases hi - lo
  {
    if lo < hi && Handled(cols[lo], mappings, ignored) {
      FirstUnmappedSpec(cols, mappings, ignored, lo + 1, hi);
    }
  }

  /** The search of moveToNextUnmapped: forward from just after `current`,
      then from 0 up to `current`, never past the end of the list. */
  function NextUnmappedIndex(cols: seq<string>, mappings: map<string, string>, ignored: set<string>,
                             current: nat): Option<nat>
  {
    match FirstUnmapped(cols, mappings, ignored, current + 1, |cols|)
    case Some(i) => Some(i)
    case None => FirstUnmapped(cols, mappings, ignored, 0, Min(current, |cols|))
  }

  function Min(a: int, b: int): int
  {
    if a < b then a else b
  }

  /** The search never picks the current index, picks an undecided column,
      and picks the first one in wrap-around order after `current`; it
      finds nothing only when every other column is decided. */
  lemma NextUnmappedSpec(cols: seq<string>, mappings: map<string, string>, ignored: set<string>, current: nat)
    ensures match NextUnmappedIndex(cols, mappings, ignored, current)
      case None => forall j :: 0 <= j < |cols| && j != current ==> Handled(cols[j], mappings, ignored)
      case Some(i) =>
        && i != current && i < |cols| && !Handled(cols[i], mappings, ignored)
        && (i > current ==> forall j :: current < j < i ==> Handled(cols[j], mappings, ignored))
        && (i < current ==> forall j :: (current < j < |cols| || 0 <= j < i) ==> Handled(cols[j], mappings, ignored))
  {
    FirstUnmappedSpec(cols, mappings, ignored, current + 1, |cols|);
    FirstUnmappedSpec(cols, mappings, ignored, 0, Min(current, |cols|));
  }

  /** moveToNextUnmapped: the cursor on the next undecided column; nothing
      moves when there is none (or, in the source, when the grid has no
      cells, which Valid rules out). */
  function MoveNext(s: ModelState): ModelState
    requires Valid(s)
  {
    var current := CurrentIndex(s);
    assert current >= 0;
    match NextUnmappedIndex(s.scannedColumns, s.mappings, s.ignored, current)
    case None => s
    case Some(i) => MoveTo(s, i)
  }

  /** After moveToNextUnmapped the cursor is on the column the search found. */
  lemma MoveNextLands(s: ModelState)
    requires Valid(s)
    ensures Valid(MoveNext(s))
    ensures MoveNext(s).mappings == s.mappings && MoveNext(s).ignored == s.ignored
    ensures MoveNext(s).aiSuggestions == s.aiSuggestions && MoveNext(s).state == s.state
    ensures match NextUnmappedIndex(s.scannedColumns, s.mappings, s.ignored, CurrentIndex(s))
      case None => MoveNext(s) == s
      case Some(i) => CurrentIndex(MoveNext(s)) == i
  {
    var current := CurrentIndex(s);
    match NextUnmappedIndex(s.scannedColumns, s.mappings, s.ignored, current) {
      case None =>
      case Some(i) => MoveToIndex(s, i);
    }
  }

  /** The wrap-around loop as the source writes it: it runs up to `current`
      even when `current` is past the end of the list, and indexing the
      list there is a run-time panic in Go. */
  function NextUnmappedAsWritten(cols: seq<string>, mappings: map<string, string>, ignored: set<string>,
                                 current: nat): Result<Option<nat>>
  {
    match FirstUnmapped(cols, mappings, ignored, current + 1, |cols|)
    case Some(i) => Ok(Some(i))
    case None =>
      match FirstUnmapped(cols, mappings, ignored, 0, Min(current, |cols|))
      case Some(i) => Ok(Some(i))
      case None => if current > |cols| then Err("index out of range") else Ok(None)
  }

  /** Wherever the cursor is on the list, the search as written and the
      bounded search agree. */
  lemma NextUnmappedAsWrittenAgrees(cols: seq<string>, mappings: map<string, string>, ignored: set<string>,
                                    current: nat)
    requires current <= |cols|
    ensures NextUnmappedAsWritten(cols, mappings, ignored, current)
         == Ok(NextUnmappedIndex(cols, mappings, ignored, current))
  {
  }

  /** Eight columns in a six-by-two grid: from the last column of the first
      row, Down reaches row 1 and keeps column 5, index 11, past the end of
      the list; with every column decided, `n` then indexes the list at 8. */
  lemma NextUnmappedAsWrittenPanics()
    ensures var cols := ["a", "b", "c", "d", "e", "f", "g", "h"];
      var s := Initial(cols, ["T"], UIConfig(6, 2)).(col := 5, ignored := set c | c in cols);
      && Valid(s) && CurrentIndex(s) == 5
      && CurrentIndex(SelectScannedKey(s, Down).0) == 11
      && NextUnmappedAsWritten(cols, s.mappings, s.ignored, 11).Err?
  {
    var cols := ["a", "b", "c", "d", "e", "f", "g", "h"];
    var s := Initial(cols, ["T"], UIConfig(6, 2)).(col := 5, ignored := set c | c in cols);
    assert MaxRowForCurrentPage(s) == 1;
    forall j | 0 <= j < 8 ensures cols[j] in s.ignored {
      assert cols[j] in cols;
    }
    AllIgnoredPanics(cols, s.mappings, s.ignored, 11);
  }

  /** With every column decided, the search as written from a cursor past
      the end of the list reaches its wrap-around and indexes past the end. */
  lemma AllIgnoredPanics(cols: seq<string>, mappings: map<string, string>, ignored: set<string>, current: nat)
    requires current > |cols| && forall j :: 0 <= j < |cols| ==> cols[j] in ignored
    ensures NextUnmappedAsWritten(cols, mappings, ignored, current).Err?
  {
    FirstUnmappedSpec(cols, mappings, ignored, current + 1, |cols|);
    FirstUnmappedSpec(cols, mappings, ignored, 0, |cols|);
  }

  // ---------------------------------------------------------------------
  // Key handlers

  /** The scanned columns neither mapped nor ignored, in list order: what
      the `a` key sends for suggestions. */
  function Unhandled(cols: seq<string>, mappings: map<string, string>, ignored: set<string>): (r: seq<string>)
  {
    if cols == [] then []
    else (if Handled(cols[0], mappings, ignored) then [] else [cols[0]]) + Unhandled(cols[1..], mappings, ignored)
  }

  lemma {:induction false} UnhandledSpec(cols: seq<string>, mappings: map<string, string>, ignored: set<string>)
    ensures forall c :: c in Unhandled(cols, mappings, ignored) <==> c in cols && !Handled(c, mappings, ignored)
  {
    if cols != [] {
      UnhandledSpec(cols[1..], mappings, ignored);
      assert cols == [cols[0]] + cols[1..];
    }
  }

  /** The first position of `x` in `xs`. */
  function Find(xs: seq<string>, x: string): (r: Option<nat>)
    ensures r.Some? ==> r.value < |xs| && xs[r.value] == x
    ensures r.None? ==> x !in xs
  {
    if xs == [] then None
    else if xs[0] == x then Some(0)
    else match Find(xs[1..], x) case None => None case Some(i) => Some(i + 1)
  }

  lemma {:induction false} FindAt(xs: seq<string>, x: string, i: nat)
    requires i < |xs| && xs[i] == x
    requires forall j :: 0 <= j < i ==> xs[j] != x
    ensures Find(xs, x) == Some(i)
  {
    if i > 0 {
      FindAt(xs[1..], x, i - 1);
    }
  }

  /** Enter in SelectScanned: on a listed column, select it and move to
      target selection, pre-selecting the suggested target when there is one. */
  function EnterScanned(s: ModelState): ModelState
    requires Valid(s)
  {
    var idx := CurrentIndex(s);
    if idx < 0 || idx >= |s.scannedColumns| then s
    else
      var c := s.scannedColumns[idx];
      var s1 := s.(currentScanned := c, state := SelectTarget);
      if c in s.aiSuggestions then
        match Find(s.targetColumns, s.aiSuggestions[c])
        case None => s1
        case Some(i) => s1.(targetPage := i / s.targetPerPage, targetCursor := i % s.targetPerPage)
      else s1.(targetCursor := 0, targetPage := 0)
  }

  /** `i` in SelectScanned: toggles the ignore mark of the column under the
      cursor; either way its mapping goes, and ignoring drops its suggestion. */
  function ToggleIgnore(s: ModelState): ModelState
  {
    var idx := CurrentIndex(s);
    if idx < 0 || idx >= |s.scannedColumns| then s
    else
      var c := s.scannedColumns[idx];
      if c in s.ignored then
        s.(ignored := s.ignored - {c}, mappings := s.mappings - {c}, mapped := s.mapped - 1)
      else
        s.(ignored := s.ignored + {c}, mappings := s.mappings - {c},
           aiSuggestions := s.aiSuggestions - {c}, mapped := s.mapped + 1)
  }

  /** updateSelectScanned */
  function SelectScannedKey(s: ModelState, key: Key): (ModelState, Command)
    requires Valid(s) && s.state == SelectScanned
  {
    match key
    case QuitKey => (s, QuitCommand)
    case Up => (if s.row > 0 then s.(row := s.row - 1) else s, NoCommand)
    case Down => (if s.row < MaxRowForCurrentPage(s) then s.(row := s.row + 1) else s, NoCommand)
    case Left =>
      (if s.col > 0 then s.(col := s.col - 1)
       else if s.page > 0 then AdjustPosition(s.(page := s.page - 1, col := s.colsPerRow - 1))
       else s,
       NoCommand)
    case Right =>
      (if s.col < MaxColForCurrentRow(s) then s.(col := s.col + 1)
       else if HasNextPage(s) then s.(page := s.page + 1, col := 0, row := 0)
       else s,
       NoCommand)
    case Enter => (EnterScanned(s), NoCommand)
    case IgnoreKey => (ToggleIgnore(s), NoCommand)
    case AskAI =>
      var unmapped := Unhandled(s.scannedColumns, s.mappings, s.ignored);
      if s.aiLoading || unmapped == [] then (s, NoCommand)
      else (s.(aiLoading := true, state := AILoading), RequestSuggestions(unmapped, s.targetColumns))
    case NextKey => (MoveNext(s), NoCommand)
    case SaveKey => (s.(state := Confirm), NoCommand)
    case _ => (s, NoCommand)
  }

  /** Enter in SelectTarget on a listed target: map the selected column to
      it, clear its ignore mark and suggestion, go back to the grid and on
      to the next undecided column. */
  function ConfirmTarget(s: ModelState): ModelState
    requires Valid(s) && s.state == SelectTarget
  {
    var idx := s.targetPage * s.targetPerPage + s.targetCursor;
    if idx >= |s.targetColumns| then s
    else
      AssignedValid(s, s.targetColumns[idx]);
      MoveNext(Assigned(s, s.targetColumns[idx]))
  }

  /** The column being mapped gets `target`, loses any ignore mark and
      suggestion, counts as mapped, and the session returns to the grid. */
  function Assigned(s: ModelState, target: string): ModelState
  {
    var c := s.currentScanned;
    s.(mapped := if c in s.mappings then s.mapped else s.mapped + 1,
       mappings := s.mappings[c := target],
       ignored := s.ignored - {c},
       aiSuggestions := s.aiSuggestions - {c},
       state := SelectScanned)
  }

  lemma AssignedValid(s: ModelState, target: string)
    requires Valid(s) && s.state == SelectTarget
    ensures Valid(Assigned(s, target))
  {
    assert SuggestionsApart(Assigned(s, target));
  }

  /** updateSelectTarget */
  function SelectTargetKey(s: ModelState, key: Key): (ModelState, Command)
    requires Valid(s) && s.state == SelectTarget
  {
    match key
    case QuitKey => (s, QuitCommand)
    case Esc => (s.(state := SelectScanned), NoCommand)
    case Up =>
      (if s.targetCursor > 0 then s.(targetCursor := s.targetCursor - 1)
       else if s.targetPage > 0 then s.(targetPage := s.targetPage - 1, targetCursor := s.targetPerPage - 1)
       else s,
       NoCommand)
    case Down =>
      (if s.targetCursor < MaxTargetCursor(s) then s.(targetCursor := s.targetCursor + 1)
       else if HasNextTargetPage(s) then s.(targetPage := s.targetPage + 1, targetCursor := 0)
       else s,
       NoCommand)
    case Left => (if s.targetPage > 0 then s.(targetPage := s.targetPage - 1) else s, NoCommand)
    case Right => (if HasNextTargetPage(s) then s.(targetPage := s.targetPage + 1) else s, NoCommand)
    case Enter => (ConfirmTarget(s), NoCommand)
    case _ => (s, NoCommand)
  }

  /** updateConfirm: `y`, `n`, `q` and ctrl+c all quit; Esc goes back. */
  function ConfirmKey(s: ModelState, key: Key): (ModelState, Command)
    requires s.state == Confirm
  {
    match key
    case QuitKey => (s, QuitCommand)
    case NextKey => (s, QuitCommand)
    case YesKey => (s, QuitCommand)
    case Esc => (s.(state := SelectScanned), NoCommand)
    case _ => (s, NoCommand)
  }

  /** updateAILoading: Esc cancels the wait. */
  function AILoadingKey(s: ModelState, key: Key): (ModelState, Command)
    requires s.state == AILoading
  {
    match key
    case QuitKey => (s, QuitCommand)
    case Esc => (s.(aiLoading := false, state := SelectScanned), NoCommand)
    case _ => (s, NoCommand)
  }

  /** The suggestions after an AI result: the incoming suggestion for every
      undecided column, the earlier ones for the rest. */
  function MergeSuggestions(current: map<string, string>, incoming: map<string, string>,
                            mappings: map<string, string>, ignored: set<string>): map<string, string>
  {
    map c | c in current.Keys + (set k | k in incoming.Keys && !Handled(k, mappings, ignored))
      :: if c in incoming && !Handled(c, mappings, ignored) then incoming[c] else current[c]
  }

  /** Update */
  function OnMsg(s: ModelState, msg: Msg): (ModelState, Command)
    requires Valid(s)
  {
    match msg
    case WindowSize(height) =>
      (s.(targetPerPage := if height - 6 < 5 then 5 else height - 6), NoCommand)
    case Suggestions(incoming) =>
      (s.(aiLoading := false, state := SelectScanned,
          aiSuggestions := MergeSuggestions(s.aiSuggestions, incoming, s.mappings, s.ignored)),
       NoCommand)
    case SuggestionError => (s.(aiLoading := false, state := SelectScanned), NoCommand)
    case KeyPress(key) =>
      match s.state
      case SelectScanned => SelectScannedKey(s, key)
      case SelectTarget => SelectTargetKey(s, key)
      case Confirm => ConfirmKey(s, key)
      case AILoading => AILoadingKey(s, key)
  }

  // ---------------------------------------------------------------------
  // Properties of the handlers

  lemma AdjustPositionValid(s: ModelState)
    requires Valid(s)
    ensures Valid(AdjustPosition(s))
  {
    if CurrentIndex(s) >= |s.scannedColumns| && |s.scannedColumns| > 0 {
      MoveToIndex(s, |s.scannedColumns| - 1);
    }
  }

  lemma SelectScannedKeyValid(s: ModelState, key: Key)
    requires Valid(s) && s.state == SelectScanned
    ensures Valid(SelectScannedKey(s, key).0)
  {
    if key == Up || key == Down || key == Left || key == Right {
      GridMoveValid(s, key);
    } else {
      ActionKeyValid(s, key);
    }
  }

  /** The arrow keys only move the cursor over the grid. */
  lemma GridMoveValid(s: ModelState, key: Key)
    requires Valid(s) && s.state == SelectScanned
    requires key == Up || key == Down || key == Left || key == Right
    ensures Valid(SelectScannedKey(s, key).0)
  {
    if key == Left && s.col == 0 && s.page > 0 {
      AdjustPositionValid(s.(page := s.page - 1, col := s.colsPerRow - 1));
    }
  }

  /** The keys other than the arrows keep the session well formed. */
  lemma ActionKeyValid(s: ModelState, key: Key)
    requires Valid(s) && s.state == SelectScanned
    requires !(key == Up || key == Down || key == Left || key == Right)
    ensures Valid(SelectScannedKey(s, key).0)
  {
    match key {
      case NextKey => MoveNextLands(s);
      case IgnoreKey => ToggleIgnoreValid(s);
      case _ =>
    }
  }

  /** Toggling the ignore mark keeps suggestions apart from decided columns. */
  lemma ToggleIgnoreValid(s: ModelState)
    requires Valid(s)
    ensures Valid(ToggleIgnore(s))
  {
    var t := ToggleIgnore(s);
    assert SuggestionsApart(t);
  }

  lemma ConfirmTargetValid(s: ModelState)
    requires Valid(s) && s.state == SelectTarget
    ensures Valid(ConfirmTarget(s))
  {
    var idx := s.targetPage * s.targetPerPage + s.targetCursor;
    if idx < |s.targetColumns| {
      AssignedValid(s, s.targetColumns[idx]);
      MoveNextLands(Assigned(s, s.targetColumns[idx]));
    }
  }

  lemma MergeKeepsApart(s: ModelState, incoming: map<string, string>)
    requires Valid(s)
    ensures Valid(OnMsg(s, Suggestions(incoming)).0)
  {
  }

  /** Every message keeps the session valid; in particular no column ever
      holds a suggestion while it is mapped or ignored. */
  lemma OnMsgValid(s: ModelState, msg: Msg)
    requires Valid(s)
    ensures Valid(OnMsg(s, msg).0)
  {
    match msg {
      case KeyPress(key) =>
        match s.state {
          case SelectScanned => SelectScannedKeyValid(s, key);
          case SelectTarget =>
            if key == Enter {
              ConfirmTargetValid(s);
            }
          case _ =>
        }
      case Suggestions(incoming) => MergeKeepsApart(s, incoming);
      case _ =>
    }
  }

  /** Toggling ignore never leaves the column both mapped and ignored:
      ignoring removes its mapping and suggestion, un-ignoring removes its
      mapping too. */
  lemma ToggleIgnoreSpec(s: ModelState)
    requires Valid(s) && 0 <= CurrentIndex(s) < |s.scannedColumns|
    ensures var c := s.scannedColumns[CurrentIndex(s)];
      var t := ToggleIgnore(s);
      && c !in t.mappings
      && (c in t.ignored <==> c !in s.ignored)
      && (c in t.ignored ==> c !in t.aiSuggestions)
      && (forall d :: d != c ==> (d in t.mappings <==> d in s.mappings) && (d in t.ignored <==> d in s.ignored))
  {
  }

  /** Confirming a listed target maps the selected column to it, clears its
      ignore mark and suggestion, leaves every other column's mapping and
      ignore mark alone, returns to the grid and moves the cursor to the next
      undecided column, searched after the mapping is recorded. */
  lemma ConfirmTargetSpec(s: ModelState)
    requires Valid(s) && s.state == SelectTarget
    requires s.targetPage * s.targetPerPage + s.targetCursor < |s.targetColumns|
    ensures var t := ConfirmTarget(s);
      var c := s.currentScanned;
      && c in t.mappings && t.mappings[c] == s.targetColumns[s.targetPage * s.targetPerPage + s.targetCursor]
      && c !in t.ignored && c !in t.aiSuggestions
      && t.state == SelectScanned
    ensures var t := ConfirmTarget(s);
      forall k :: k != s.currentScanned ==>
        && (k in t.mappings <==> k in s.mappings)
        && (k in s.mappings ==> t.mappings[k] == s.mappings[k])
        && (k in t.ignored <==> k in s.ignored)
    ensures var t := ConfirmTarget(s);
      var a := Assigned(s, s.targetColumns[s.targetPage * s.targetPerPage + s.targetCursor]);
      && t == MoveNext(a)
      && match NextUnmappedIndex(s.scannedColumns, a.mappings, a.ignored, CurrentIndex(s))
         case None => CurrentIndex(t) == CurrentIndex(s)
         case Some(i) => CurrentIndex(t) == i
  {
    var idx := s.targetPage * s.targetPerPage + s.targetCursor;
    var c := s.currentScanned;
    MoveNextLands(s.(mapped := if c in s.mappings then s.mapped else s.mapped + 1,
                     mappings := s.mappings[c := s.targetColumns[idx]],
                     ignored := s.ignored - {c},
                     aiSuggestions := s.aiSuggestions - {c},
                     state := SelectScanned));
  }

  /** Enter on a listed column with a suggestion found in the target list
      puts the target cursor on that suggestion; without a suggestion the
      target cursor starts at the top. */
  lemma EnterScannedSpec(s: ModelState)
    requires Valid(s) && 0 <= CurrentIndex(s) < |s.scannedColumns|
    ensures var c := s.scannedColumns[CurrentIndex(s)];
      var t := EnterScanned(s);
      && t.currentScanned == c && t.state == SelectTarget
      && (c !in s.aiSuggestions ==> t.targetPage == 0 && t.targetCursor == 0)
      && (c in s.aiSuggestions && s.aiSuggestions[c] in s.targetColumns ==>
            0 <= t.targetCursor < t.targetPerPage
            && t.targetPage * t.targetPerPage + t.targetCursor < |s.targetColumns|
            && s.targetColumns[t.targetPage * t.targetPerPage + t.targetCursor] == s.aiSuggestions[c])
  {
    var c := s.scannedColumns[CurrentIndex(s)];
    if c in s.aiSuggestions && s.aiSuggestions[c] in s.targetColumns {
      var i :| Find(s.targetColumns, s.aiSuggestions[c]) == Some(i);
      assert i == (i / s.targetPerPage) * s.targetPerPage + i % s.targetPerPage;
    }
  }

  /** An AI result adds suggestions only for undecided columns and leaves
      the mappings and ignore marks alone; an AI error changes no map. */
  lemma SuggestionMessagesSpec(s: ModelState, incoming: map<string, string>)
    requires Valid(s)
    ensures var t := OnMsg(s, Suggestions(incoming)).0;
      && t.mappings == s.mappings && t.ignored == s.ignored
      && !t.aiLoading && t.state == SelectScanned
      && (forall c :: c in incoming && !Handled(c, s.mappings, s.ignored) ==>
            c in t.aiSuggestions && t.aiSuggestions[c] == incoming[c])
      && (forall c :: c in t.aiSuggestions && c !in s.aiSuggestions ==> c in incoming && !Handled(c, s.mappings, s.ignored))
    ensures var t := OnMsg(s, SuggestionError).0;
      && t.mappings == s.mappings && t.ignored == s.ignored && t.aiSuggestions == s.aiSuggestions
      && !t.aiLoading && t.state == SelectScanned
  {
  }

  /** In Confirm, `y`, `n` and `q` all quit and leave the state at Confirm,
      which is what decides the save. */
  lemma ConfirmKeysQuit(s: ModelState, key: Key)
    requires Valid(s) && s.state == Confirm
    requires key == YesKey || key == NextKey || key == QuitKey
    ensures OnMsg(s, KeyPress(key)) == (s, QuitCommand)
  {
  }

  /** Right never takes a cursor that is on the list off it. */
  lemma RightStaysOnList(s: ModelState)
    requires Valid(s) && s.state == SelectScanned && CurrentIndex(s) < |s.scannedColumns|
    ensures CurrentIndex(SelectScannedKey(s, Right).0) < |s.scannedColumns|
  {
  }

  // ---------------------------------------------------------------------
  // Start-up, the event loop and the save

  /** Applying the records of an existing mapping file, in order: an
      ignored record marks its column ignored, any other record with a
      target maps it; each applied record counts once. */
  function LoadRecords(s: ModelState, records: seq<ColumnMapping>): ModelState
  {
    if records == [] then s
    else
      var prev := LoadRecords(s, records[..|records| - 1]);
      var r := records[|records| - 1];
      if r.isIgnored then prev.(ignored := prev.ignored + {r.scannedColumn}, mapped := prev.mapped + 1)
      else if r.targetColumn != "" then
        prev.(mappings := prev.mappings[r.scannedColumn := r.targetColumn], mapped := prev.mapped + 1)
      else prev
  }

  /** A record that maps its column and is not followed by another record
      mapping the same column. */
  predicate LastMapping(records: seq<ColumnMapping>, i: int)
  {
    && 0 <= i < |records|
    && !records[i].isIgnored && records[i].targetColumn != ""
    && forall j :: i < j < |records| && records[j].scannedColumn == records[i].scannedColumn ==>
         records[j].isIgnored || records[j].targetColumn == ""
  }

  /** Loading marks exactly the ignored records' columns as ignored, even
      when they carry a target; it maps exactly the other records' columns
      that have a target, the last such record winning; nothing else of the
      model changes. */
  lemma {:induction false} LoadRecordsSpec(s: ModelState, records: seq<ColumnMapping>)
    ensures var t := LoadRecords(s, records);
      && t.ignored == s.ignored + (set r | r in records && r.isIgnored :: r.scannedColumn)
      && t.mappings.Keys == s.mappings.Keys + (set r | r in records && !r.isIgnored && r.targetColumn != "" :: r.scannedColumn)
      && (forall i :: LastMapping(records, i) ==> t.mappings[records[i].scannedColumn] == records[i].targetColumn)
      && t == s.(ignored := t.ignored, mappings := t.mappings, mapped := t.mapped)
  {
    LoadRecordsIgnored(s, records);
    LoadRecordsKeys(s, records);
    LoadRecordsLast(s, records);
    LoadRecordsFrame(s, records);
  }

  lemma {:induction false} LoadRecordsIgnored(s: ModelState, records: seq<ColumnMapping>)
    ensures LoadRecords(s, records).ignored == s.ignored + (set r | r in records && r.isIgnored :: r.scannedColumn)
  {
    if records != [] {
      var n := |records| - 1;
      var front := records[..n];
      LoadRecordsIgnored(s, front);
      assert records == front + [records[n]];
    }
  }

  lemma {:induction false} LoadRecordsKeys(s: ModelState, records: seq<ColumnMapping>)
    ensures LoadRecords(s, records).mappings.Keys ==
      s.mappings.Keys + (set r | r in records && !r.isIgnored && r.targetColumn != "" :: r.scannedColumn)
  {
    if records != [] {
      var n := |records| - 1;
      var front := records[..n];
      LoadRecordsKeys(s, front);
      assert records == front + [records[n]];
    }
  }

  lemma {:induction false} LoadRecordsLast(s: ModelState, records: seq<ColumnMapping>)
    ensures forall i :: LastMapping(records, i) ==>
      records[i].scannedColumn in LoadRecords(s, records).mappings
      && LoadRecords(s, records).mappings[records[i].scannedColumn] == records[i].targetColumn
  {
    if records != [] {
      var n := |records| - 1;
      var front := records[..n];
      LoadRecordsLast(s, front);
      forall i | LastMapping(records, i)
        ensures records[i].scannedColumn in LoadRecords(s, records).mappings
          && LoadRecords(s, records).mappings[records[i].scannedColumn] == records[i].targetColumn
      {
        if i < n {
          assert LastMapping(front, i);
        }
      }
    }
  }

  lemma {:induction false} LoadRecordsFrame(s: ModelState, records: seq<ColumnMapping>)
    ensures var t := LoadRecords(s, records);
      t == s.(ignored := t.ignored, mappings := t.mappings, mapped := t.mapped)
  {
    if records != [] {
      LoadRecordsFrame(s, records[..|records| - 1]);
    }
  }

  /** Auto-mapping: every scanned column still undecided that is also a
      target column is mapped to itself, in list order. */
  function AutoMap(s: ModelState, cols: seq<string>, targets: set<string>): ModelState
  {
    if cols == [] then s
    else
      var prev := AutoMap(s, cols[..|cols| - 1], targets);
      var c := cols[|cols| - 1];
      if Handled(c, prev.mappings, prev.ignored) || c !in targets then prev
      else prev.(mappings := prev.mappings[c := c], mapped := prev.mapped + 1)
  }

  /** Auto-mapping keeps every existing mapping and ignore mark, and adds
      the identity mapping exactly for the undecided scanned columns that
      are target columns. */
  lemma {:induction false} AutoMapSpec(s: ModelState, cols: seq<string>, targets: set<string>)
    ensures var t := AutoMap(s, cols, targets);
      && t == s.(mappings := t.mappings, mapped := t.mapped)
      && (forall c :: c in t.mappings <==> c in s.mappings || (c in cols && c !in s.ignored && c in targets))
      && (forall c :: c in t.mappings ==> t.mappings[c] == if c in s.mappings then s.mappings[c] else c)
    decreases |cols|
  {
    if cols != [] {
      var front := cols[..|cols| - 1];
      AutoMapSpec(s, front, targets);
      assert cols == front + [cols[|cols| - 1]];
    }
  }

  /** The session RunMappingTUI hands to the event loop before placing the
      cursor: the initial model, the existing records, the exact-name matches. */
  function Prepared(scanned: seq<string>, targets: seq<string>, existing: Option<MappingConfig>,
                    config: UIConfig): (s: ModelState)
    requires config.columnsPerRow > 0 && config.rowsPerPage > 0
    ensures Valid(s)
  {
    var s0 := Initial(scanned, targets, config);
    var s1 := if existing.Some? then LoadRecords(s0, existing.value.mappings) else s0;
    LoadRecordsSpec(s0, if existing.Some? then existing.value.mappings else []);
    AutoMapSpec(s1, scanned, set t | t in targets);
    AutoMap(s1, scanned, set t | t in targets)
  }

  /** The session as RunMappingTUI starts it: the cursor on the first
      undecided column of the prepared session. */
  function StartState(scanned: seq<string>, targets: seq<string>, existing: Option<MappingConfig>,
                      config: UIConfig): (s: ModelState)
    requires config.columnsPerRow > 0 && config.rowsPerPage > 0
    ensures Valid(s)
  {
    MoveNextLands(Prepared(scanned, targets, existing, config));
    MoveNext(Prepared(scanned, targets, existing, config))
  }

  /** The event loop: messages are handled in order until one asks to quit. */
  function Run(s: ModelState, events: seq<Msg>): (t: ModelState)
    requires Valid(s)
    ensures Valid(t)
    decreases |events|
  {
    if events == [] then s
    else
      OnMsgValid(s, events[0]);
      var (next, cmd) := OnMsg(s, events[0]);
      if cmd == QuitCommand then next else Run(next, events[1..])
  }

  /** The records saved at the end: one unignored record per mapping, one
      ignored record with an empty target per ignored column, nothing else
      (in particular no AI suggestion). Their order is the order of Go's
      map iteration, which is unspecified. */
  predicate SavedRecords(records: seq<ColumnMapping>, mappings: map<string, string>, ignored: set<string>)
  {
    && |records| == |mappings| + |ignored|
    && (forall r :: r in records ==>
          (!r.isIgnored && r.scannedColumn in mappings && mappings[r.scannedColumn] == r.targetColumn)
          || (r.isIgnored && r.targetColumn == "" && r.scannedColumn in ignored))
    && (forall c :: c in mappings ==> ColumnMapping(c, mappings[c], false) in records)
    && (forall c :: c in ignored ==> ColumnMapping(c, "", true) in records)
  }
}
