# sheetFmt in Dafny

sheetFmt maps the column names of messy spreadsheets onto a fixed target
schema, then rewrites the spreadsheets into that schema. This project
models its decision logic and proves what that logic promises. A
spreadsheet is an abstract grid of cells; file systems, workbook codecs,
the AI service and the terminal are replaced by parameters that say what
they returned.

Modules, by the source file they model:

| module | file | what it models |
|---|---|---|
| `Scanner` | internal/excel/scanner.go | `cleanColumnName`; the header scan into a shared set (class `ColumnScan`); the sorted output of `ScanAllColumnsInDirectory` |
| `MappingTypes` | internal/mapping/types.go | the mapping record; reading and writing column-list files; the default target list; the "append target headers" merge; the reverse (target to scanned) map |
| `SessionState`, `Session` | internal/mapping/tui.go | the mapping session. `SessionState` gives each handler as a function on a `ModelState` value, with the lemmas. `Session.Model` is a class with the same fields, and each of its methods is proved equal to the matching function |
| `AiMapping` | internal/mapping/ai.go | the line parser of the suggestion response; chunking; dispatch; the prompt |
| `Columns` | internal/excel/editor.go, excel/editor.go | the bijective base-26 column letters both Go editors share |
| `ExcelEditor` | internal/excel/editor.go | the editor (class `Editor`) over a cell map; `adjustFormulaForRow`; `parseNumericValue`; `FormatFileWithTarget`; `FormatFile` |
| `LegacyEditor` | excel/editor.go | the older `ApplyTargetFormat` cell merge and `ApplyTargetFormatToFile` |
| `PySheet`, `PyFormat` | internal/format/format_excel.py | header-row and table-end detection (`PySheet`); the `ExcelFormatter` class, `format_single_file` and `format_all_sheets` (`PyFormat`) |
| `CsvConfig` | internal/csv/csv_config.py | the persistent ID counter (class `CsvConfig`); column-definition lookups; the unmapped-value log line |
| `Picklist` | internal/csv/picklist_handler.py | picklist lookup, validation and keyword derivation; the `unmapped_count` counter (class `PicklistHandler`) |
| `ExcelReader` | internal/csv/excel_reader.py | header detection; the header map; cell formatting; line-item extraction (class `Reader`) |
| `CsvExporter` | internal/csv/csv_exporter.py | file selection; CSV appends with the header rule; de-duplication; the export tallies (class `Exporter`) |
| `FilterUnmapped` | filter_unmapped.py | the unmapped-columns report |

Shared helpers:
- `Text`: Go and Python trimming, `strings.Split`, decimal rendering.
- `Paths`: `filepath.Base`, `Ext` and `Join`; `Path.stem`.
- `Dicts`: an insertion-ordered dict, as Python's `dict`.
- `Arith`: division facts.

Where the source changes state in place, the model is a class. Each of its
methods states its new state as a function of the old one, and the
properties are lemmas about those functions.

Modelling choices:
- Files the source reads come in as `Option` (None: the file is missing) or
  `Result` (Err: it cannot be parsed).
- The outcome of a write, a save or a directory creation comes in as a
  parameter: a boolean in the Go modules (`writeOk`, `saveOk`,
  `outputWritable`, `createOk`, `inputDirMade` and the like) and for the
  Python file writes (`writable`), or the exception's message for the
  Python workbook save, the data/results directory and the reopening of
  the input for each sheet (`saveError`, `resultsDirError`,
  `reloadError`). The Go quarantine's mkdir and copy come in as `copyOk`;
  their failure is only printed, so the run still fails with its
  messages, without a copy. The failures listed under "## Left out" are
  not modelled.
- Float parsing (`strconv.ParseFloat`, `fmt.Sscanf("%f")`) comes in as a
  function parameter.
- Two behaviours of the code that are easy to miss are kept as written:
  - A mapped column that is missing from the input gets no per-cell target
    formulas in `FormatFileWithTarget`; only an unmapped column does.
  - `format_excel` never adds an error message, so its quarantine branch
    never runs.

## Model

| member | source | states |
|---|---|---|
| Columns.IndexToColumnRoundTrip | internal/excel/editor.go:183-199 | every index i ≥ 0 names a non-empty string of capitals that reads back as i (the identical helpers of excel/editor.go:181-197 are covered too) |
| Columns.ColumnToIndexRoundTrip | internal/excel/editor.go:183-189 | every non-empty string of capitals is the name of the index it reads as, so the numbering is a bijection |
| Scanner.CleanColumnName | internal/excel/scanner.go:15-49 | the cleaned name is the clean-shape pipeline result: trimmed, no newline, no run of two regexp spaces; "" cleans to "" |
| Scanner.StripTagsLeavesNoTag | internal/excel/scanner.go:25-26 | after removing every leftmost `<[^>]+>` match no match is left |
| Scanner.FirstNonBlankLine | internal/excel/scanner.go:29-37 | only the first line that is non-blank after trimming contributes; it is "" iff all lines are blank |
| Scanner.CleanEmptyIff | internal/excel/scanner.go:16-41 | a name cleans to "" exactly when every line is blank once tags and surrounding space are removed |
| Scanner.CleanIsCleanName | internal/excel/scanner.go:29-47 | every cleaned name is trimmed, has no newline and no two adjacent regexp-space characters |
| Scanner.CollapseSpacesCollapsed | internal/excel/scanner.go:44-46 | after collapsing, every `\s` is a plain space and no two are adjacent |
| Scanner.CleanIdempotent | internal/excel/scanner.go:15-49 | cleaning twice equals cleaning once |
| Scanner.ColumnScan.AddHeader | internal/excel/scanner.go:154-170 | a header blank after trimming or cleaning to "" adds nothing; otherwise its cleaned name is added and the first raw header for a name is kept |
| Scanner.ColumnScan.ScanHeaders | internal/excel/scanner.go:154-170 | the set grows by exactly the cleaned names of a sheet's headers; earlier statistics are kept |
| Scanner.ColumnScan.ScanFileColumns | internal/excel/scanner.go:131-176 | an unreadable file is an error and adds nothing; otherwise every cleaned header of every readable sheet is added |
| Scanner.SortStrings | internal/excel/scanner.go:100-101 | the sorted list is strictly ascending and a permutation of its input |
| Scanner.ScanAllColumnsInDirectory | internal/excel/scanner.go:53-128 | a failed creation of the input or output directory, a failed listing and a failed write each give their own error, in that order; nothing is written iff there is no spreadsheet; otherwise the written list is strictly sorted (so duplicate-free), holds exactly the cleaned names of all files and none of them is blank |
| Scanner.ScannedColumnList | internal/excel/scanner.go:78-101 | the scan loop over the files and the blank filter give a strictly sorted list of exactly the cleaned names of all files, each clean and not blank |
| Scanner.AllNamesClean | internal/excel/scanner.go:94-101 | no scanned name is blank, and each has the clean shape |
| Scanner.CleanNameNotBlank | internal/excel/scanner.go:95-99 | the blank filter before sorting never removes a cleaned name |
| MappingTypes.ReadColumnsFromFile | internal/mapping/types.go:59-82 | a missing file is an error; otherwise the lines trimmed, blank ones dropped, in file order |
| MappingTypes.WriteColumnsToFile | internal/mapping/types.go:182-200 | the text is each column followed by a newline |
| MappingTypes.WriteReadRoundTrip | internal/mapping/types.go:59-82 | a list of trimmed, non-empty, one-line names reads back exactly as written |
| MappingTypes.CreateDefaultTargetColumnsFile | internal/mapping/types.go:85-119 | nothing is written iff the file exists; a failed creation is an error; otherwise the text reads back as the eight defaults in order |
| MappingTypes.NewHeadersSound | internal/mapping/types.go:151-162 | the added headers are trimmed, non-empty, absent from the existing list and distinct, and every such header is added |
| MappingTypes.AppendHeaders | internal/mapping/types.go:146-165 | the existing list is an unchanged prefix, followed by the new headers in target-header order; the added count is their number |
| MappingTypes.CollectNewHeaders | internal/mapping/types.go:151-162 | the header loop adds exactly the new headers, in target-header order |
| MappingTypes.AppendTargetFormatHeadersToFile | internal/mapping/types.go:122-179 | an unopenable target format, unreadable headers, an existing list that cannot be read and a failed write each give their own error; it succeeds exactly when none of these happens, and then the merged list is written and reads back as written |
| MappingTypes.ReverseMappingSpec | internal/excel/editor.go:293-299 | only records that are not ignored and that name a target enter the target→scanned map; a later record for a target wins |
| AiMapping.ParseLineRejects | internal/mapping/ai.go:327-340 | blank lines, lines starting with "ScannedColumn\|" and lines without exactly three '\|' fields give nothing |
| AiMapping.ParseLineAcceptable | internal/mapping/ai.go:342-370 | an accepted line gives trimmed fields, a target other than NO_MATCH and a confidence of at least 0.8 |
| AiMapping.ParseLinesAppend | internal/mapping/ai.go:372-389 | the parse works line by line, so line order is kept and duplicates are not merged |
| AiMapping.ParseMappingResponse | internal/mapping/ai.go:314-390 | the result is the line-by-line parse, never an error; every line lands in exactly one counter |
| AiMapping.ChunksFlatten | internal/mapping/ai.go:97-137 | concatenated in order, the chunks give back the scanned list |
| AiMapping.ChunksBounded | internal/mapping/ai.go:104-110 | no chunk is empty and none is longer than the chunk size |
| AiMapping.ChunksCount | internal/mapping/ai.go:99-110 | there are ceil(n / size) chunks |
| AiMapping.CollectedSkipsFailures | internal/mapping/ai.go:119-127 | a failed chunk is skipped and the others are still collected |
| AiMapping.GenerateMappingsInChunks | internal/mapping/ai.go:97-137 | the result is the concatenation of the successful chunks' mappings, in chunk order |
| AiMapping.GenerateColumnMappings | internal/mapping/ai.go:66-95 | either list empty is an error; more than 100 scanned columns go in chunks of 50, otherwise in one batch |
| AiMapping.BuildMappingPrompt | internal/mapping/ai.go:271-311 | the prompt is the fixed text with a "- <col>\n" bullet for each scanned column, then one for each target column, in input order |
| SessionState.InitialValid | internal/mapping/tui.go:79-98 | the initial model is valid and its cursor is on index 0 |
| SessionState.MoveToIndex | internal/mapping/tui.go:429-431 | moving to index i by page/row/col division makes getCurrentIndex equal to i |
| SessionState.NextUnmappedSpec | internal/mapping/tui.go:492-526 | the search never picks the current index; it picks the first undecided column in wrap-around order, and finds nothing only when every other column is decided |
| SessionState.MoveNextLands | internal/mapping/tui.go:492-526 | after the move the cursor is on the column the search found, or unchanged when none; the maps and the state are untouched |
| SessionState.EnterScannedSpec | internal/mapping/tui.go:278-298 | Enter selects the column and moves to SelectTarget; a suggestion found at target i sets targetPage = i / perPage and targetCursor = i % perPage, otherwise both are 0 |
| SessionState.ToggleIgnoreSpec | internal/mapping/tui.go:300-316 | the toggle removes the mapping either way and the suggestion when ignoring, so no column is left both mapped and ignored |
| SessionState.ConfirmTargetSpec | internal/mapping/tui.go:379-399 | confirming maps the column, clears its ignore mark and suggestion and returns to SelectScanned; every other column keeps its mapping and ignore mark; the cursor then lands where the next-undecided search, run on the updated maps, finds a column, and stays put when it finds none |
| SessionState.SuggestionMessagesSpec | internal/mapping/tui.go:203-223 | an AI result adds suggestions only for undecided columns; an AI error changes no map |
| SessionState.OnMsgValid | internal/mapping/tui.go:191-238 | every message keeps the session valid: suggestion keys stay disjoint from mapped and ignored columns |
| SessionState.ConfirmKeysQuit | internal/mapping/tui.go:404-414 | in Confirm, y, n and q all quit with the state left at Confirm |
| SessionState.RightStaysOnList | internal/mapping/tui.go:267-276 | Right never moves a cursor that is on the list off it |
| SessionState.UnhandledSpec | internal/mapping/tui.go:318-327 | the columns sent for suggestions are exactly the undecided ones |
| SessionState.LoadRecordsSpec | internal/mapping/tui.go:765-773 | an ignored record only marks its column ignored; another record with a target maps it, and the last such record wins |
| SessionState.AutoMapSpec | internal/mapping/tui.go:781-803 | existing decisions are kept; the identity mapping is added exactly for undecided scanned columns that are target columns |
| SessionState.NextUnmappedAsWrittenPanics | internal/mapping/tui.go:513-522 | eight columns in a 6×2 grid: Down from index 5 reaches index 11, and the wrap loop as written then indexes the list at 8 |
| Session.Model.constructor | internal/mapping/tui.go:79-98 | the object is the initial model and is valid |
| Session.Model.MoveToNextUnmapped | internal/mapping/tui.go:492-526 | the new state is MoveNext of the old, and it stays valid |
| Session.Model.MoveToLastValidPosition | internal/mapping/tui.go:481-490 | the cursor moves to the last column |
| Session.Model.AdjustPosition | internal/mapping/tui.go:472-479 | a cursor past the end moves to the last column |
| Session.Model.UpdateSelectScanned | internal/mapping/tui.go:240-348 | the handler equals SelectScannedKey |
| Session.Model.UpdateSelectTarget | internal/mapping/tui.go:350-402 | the handler equals SelectTargetKey |
| Session.Model.UpdateConfirm | internal/mapping/tui.go:404-414 | the handler equals ConfirmKey |
| Session.Model.UpdateAILoading | internal/mapping/tui.go:416-426 | the handler equals AILoadingKey |
| Session.Model.ReceiveSuggestions | internal/mapping/tui.go:203-216 | the merge loop takes a suggestion exactly for undecided columns |
| Session.Model.Update | internal/mapping/tui.go:191-238 | the handler equals OnMsg and keeps the model valid |
| Session.Model.LoadExisting | internal/mapping/tui.go:765-773 | the load loop equals LoadRecords |
| Session.Model.AutoMapExact | internal/mapping/tui.go:782-803 | the exact-match loop equals AutoMap |
| Session.Model.SavedConfig | internal/mapping/tui.go:833-851 | the saved records are one unignored record per mapping plus one per ignored column; no suggestion is saved |
| Session.RunMappingTUI | internal/mapping/tui.go:737-868 | an unreadable or empty list is an error, with the file name for an empty one; with both lists non-empty the run succeeds unless it ends in Confirm and the save fails, which gives the save error; a configuration is saved iff the final state is Confirm, and it holds exactly the confirmed decisions |
| ExcelEditor.AdjustFormulaForRowSpec | internal/excel/editor.go:214-219 | the result holds no 'n'; a formula without 'n' is unchanged; an 'n' between fixed parts becomes the row number |
| ExcelEditor.ParseInt64RoundTrip | internal/excel/editor.go:229-232 | every 64-bit integer printed in decimal parses back to itself |
| ExcelEditor.ParseNumericValueSpec | internal/excel/editor.go:223-242 | blank text and non-numbers come back untrimmed with flag false; an int64 gives an integer with flag false; only a float gives flag true |
| ExcelEditor.SmartCellFormat | internal/excel/editor.go:246-264 | the two-decimal format is applied iff the stored value is a float |
| ExcelEditor.Editor.SetCellValueSmart | internal/excel/editor.go:246-264 | exactly the addressed cell changes, to the smart cell of the text |
| ExcelEditor.ShiftDownSpec | internal/excel/editor.go:202-210 | after inserting a row, rows above are unchanged, the new row is empty, and lower rows hold what the row above held |
| ExcelEditor.Editor.InsertRows | internal/excel/editor.go:202-210 | the cells are shifted down numRows times at startRow |
| ExcelEditor.Editor.Save | internal/excel/editor.go:159-164 | an editor without a path fails with the "use SaveAs" error; a refused write fails with the write error; otherwise it writes to its own path |
| ExcelEditor.Editor.SaveAs | internal/excel/editor.go:167-170 | the editor takes the new path whatever the outcome; a refused write fails with the write error, otherwise it writes there |
| ExcelEditor.BuildReverseMapping | internal/excel/editor.go:293-299 | the loop builds the target→scanned map of unignored records with a target, the later one winning |
| ExcelEditor.HeaderIndexSpec | internal/excel/editor.go:327-331 | every input header is in the map, at its last column |
| ExcelEditor.TemplatesSpec | internal/excel/editor.go:339-357 | a column has a template iff its row-2 target formula is readable and non-empty, and the template is that formula |
| ExcelEditor.InsertionSpec | internal/excel/editor.go:359-378 | a blank row is inserted iff some template exists and the input has a data row; the rows read again keep the header first and shift each data row down one |
| ExcelEditor.HeadersAndUntouchedColumns | internal/excel/editor.go:385-392 | every target column's row-1 header is the target header whatever its mapping; no column beyond the target's is touched |
| ExcelEditor.TemplatedColumn | internal/excel/editor.go:394-408 | a templated column holds the adjusted template in rows 2..len(rows)-1 and never receives input data |
| ExcelEditor.MappedColumn | internal/excel/editor.go:411-440 | a non-empty target formula wins over input data; otherwise the input value is stored smartly; a short input row leaves the cell untouched |
| ExcelEditor.UnmappedColumn | internal/excel/editor.go:441-468 | an unmapped column still gets per-cell target formulas; a mapped column missing from the input gets nothing |
| ExcelEditor.MessagesSpec | internal/excel/editor.go:441-468 | exactly the columns without a template and without their input column add one message each |
| ExcelEditor.ProcessColumns | internal/excel/editor.go:384-469 | the column loop fails iff some column's formula read fails; otherwise every cell is as Expected and the messages are collected |
| ExcelEditor.FormatFileWithTarget | internal/excel/editor.go:286-500 | load failures return errors; any message means no save and an error, carrying data/problematic/<base> when the mkdir and copy succeed and nothing when they fail; a refused save gives "failed to save formatted file <path>"; otherwise the sheet is saved to the output path |
| ExcelEditor.SheetResultPaths | internal/excel/editor.go:478-494 | a saved sheet goes to its output path; a quarantined input is copied to data/problematic under its base name, unless the mkdir or the copy fails |
| ExcelEditor.OutputPathSpec | internal/excel/editor.go:539-548 | each sheet's output is data/results/<stem>-<sheet>.xlsx, so different sheets get different files |
| ExcelEditor.FormatFile | internal/excel/editor.go:503-568 | the existence checks, in order, give their errors; then every sheet is formatted into its own file, each with its own write and quarantine-copy outcome, and a failing sheet does not stop the others |
| LegacyEditor.MaxWidthSpec | excel/editor.go:219-226 | the visited width of row r is the prefix maximum of the row lengths of rows 0..r |
| LegacyEditor.RowRangeWidth | excel/editor.go:221-226 | the inner loop computes that prefix maximum |
| LegacyEditor.AppliedSpec | excel/editor.go:228-266 | no address outside the visited range is written; a target formula is copied; a non-empty value is copied when there is no formula; an empty target cell leaves the edited cell as it was |
| LegacyEditor.VisitedRange | excel/editor.go:219-228 | every cell within the prefix-maximum width of a row is visited, even in a short row below a wide one |
| LegacyEditor.ApplyRow | excel/editor.go:228-266 | one row of the merge: on an existing sheet the row's cells in range take their copy and nothing else changes; on a missing sheet nothing changes and the row fails, at its first cell with something to copy, iff it has one |
| LegacyEditor.RowFailureFirst | excel/editor.go:219-266 | a row's first failing write, after rows with nothing to copy, is the first failing write of the whole visit |
| LegacyEditor.ApplyTargetFormat | excel/editor.go:200-272 | an unopenable target or unreadable sheet is an error and changes nothing; on an existing sheet every cell is the Applied merge; on a missing sheet nothing changes, and the call fails, with the message of the first cell to copy in visiting order, iff there is such a cell |
| LegacyEditor.ApplyTargetFormatToFile | excel/editor.go:275-297 | an unopenable edited file, target file or target sheet is an error; a missing edited sheet fails at its first cell to copy; a pathless file fails with "failed to save edited file: " and the "use SaveAs" error, a refused write with the write error; otherwise the merged sheet is saved in place |
| PySheet.RightmostSpec | internal/format/format_excel.py:391-401 | the rightmost data column is 0 iff no cell has data; otherwise some row has data there and none further right |
| PySheet.HeaderRowSpec | internal/format/format_excel.py:383-409 | the header row has data in the rightmost data column and no row above it does; a sheet without data has header row 1 |
| PySheet.DetectHeaderRow | internal/format/format_excel.py:383-409 | the loop computes HeaderRow |
| PySheet.CountEmptyAfter | internal/format/format_excel.py:162-176 | the look-ahead counts `tolerance` empty rows iff the next `tolerance` rows are all empty, rows past max_row counting as empty |
| PySheet.TableEndUnique | internal/format/format_excel.py:132-187 | at most one row satisfies the table-end definition |
| PySheet.DetectTableEndRow | internal/format/format_excel.py:132-187 | the result is the table end: the header row when there is no data, else the first quiet data row, else the last data row |
| PyFormat.LoadOntoSpec | internal/format/format_excel.py:99-112 | an ignored record goes only into the ignored set, even with a target; otherwise a truthy target maps the column and a later record wins |
| PyFormat.InputHeadersSpec | internal/format/format_excel.py:231-253 | a text is a header key iff some column carries it, and it maps to the last such column |
| PyFormat.TargetHeaders | internal/format/format_excel.py:255-272 | one (name, column) pair per column 1..max_column, in order, "" for a falsy cell |
| PyFormat.ReadTargetHeaders | internal/format/format_excel.py:264-267 | the column loop builds exactly the (name, column) pairs of every column 1..max_column, in order |
| PyFormat.FindApplicableMappings | internal/format/format_excel.py:274-310 | each non-empty target name gets the first input header, in dict order, that is not ignored and maps to it; otherwise no entry |
| PyFormat.Copy | internal/format/format_excel.py:312-328 | the value is always copied; the number format only when it is not "General" |
| PyFormat.Formatter.ProcessColumnWithMapping | internal/format/format_excel.py:330-367 | input row ih+1+k is copied to target row th+1+k, keeping row offsets |
| PyFormat.Formatter.ClearColumnData | internal/format/format_excel.py:369-381 | the column's data rows up to max_row lose their value and keep their format |
| PyFormat.RowsToDeleteSpec | internal/format/format_excel.py:197-221 | exactly the non-header rows without a plain (non-formula, non-blank) value are marked, ascending |
| PyFormat.CleanedSpec | internal/format/format_excel.py:189-229 | after cleaning, the rows are the header and the rows with plain data, in original order |
| PyFormat.DeleteRowsMaxRow | internal/format/format_excel.py:223-227 | deleting the marked rows removes exactly that many rows |
| PyFormat.Formatter.CleanFormulaOnlyRows | internal/format/format_excel.py:189-229 | disabled cleaning changes nothing; enabled, the sheet becomes Cleaned |
| PyFormat.UntouchedCells | internal/format/format_excel.py:444-476 | rows up to the header row and unnamed columns are left as they were |
| PyFormat.MappedColumn | internal/format/format_excel.py:464-471 | a named column with an applicable mapping takes, row by row, the chosen input column's data |
| PyFormat.UnmappedColumn | internal/format/format_excel.py:472-475 | a named column without an applicable mapping is left empty down to the target's last row, without error |
| PyFormat.RowsPastInput | internal/format/format_excel.py:431-448 | data rows of a named column past the input's data rows end up empty, number formats kept |
| PyFormat.Formatter.LoadFiles | internal/format/format_excel.py:81-130 | a missing or unreadable mapping file raises "Failed to load files: ..."; then the input workbook, the target workbook, the input sheet and the target sheet fail in that order, each with its own message; the records are loaded onto the maps before any workbook is opened; loading succeeds iff none of these fails |
| PyFormat.Formatter.FormatLoaded | internal/format/format_excel.py:418-511 | after loading, the headers are detected, columns are cleared and copied and rows are cleaned; collected error messages raise and copy the input to data/problematic; otherwise a failed save raises its own exception without a copy, and a successful one writes the result to the output file |
| PyFormat.Formatter.FormatExcel | internal/format/format_excel.py:411-517 | load failures raise; otherwise the run is that of FormatLoaded on the loaded sheets and maps, a failed save raising its exception |
| PyFormat.FormatSingleFile | internal/format/format_excel.py:520-526 | a fresh formatter never quarantines its input; a load failure raises "Failed to load files: ...", a failed save raises its own exception, and otherwise the formatted sheet is written |
| PyFormat.SheetOutputPathSpec | internal/format/format_excel.py:552-556 | each sheet's output is data/results/<stem>-<sheet>.xlsx, so different sheets get different files |
| PyFormat.FormatAllSheets | internal/format/format_excel.py:529-569 | a missing file, a failed creation of data/results, an unopenable input workbook or one without sheets is an error, in that order; otherwise every sheet is formatted into its own file with its own reload and save outcome, and a failing sheet (one whose reload or save fails included) does not stop the rest |
| CsvConfig.CsvConfig.GetNextId | internal/csv/csv_config.py:47-94 | an unknown type raises ValueError; the next number is the stored number + 1 or start_number; it is stored and returned after the prefix |
| CsvConfig.IdRoundTrip | internal/csv/csv_config.py:84-94 | the number after the prefix of a returned ID reads back as the number stored |
| CsvConfig.NextNumberIncreases | internal/csv/csv_config.py:72-94 | after a store, the next call hands out the next number, so IDs strictly increase |
| CsvConfig.PicklistConfigFor | internal/csv/csv_config.py:122-132 | the entry for a column, if there is one |
| CsvConfig.IsPicklistColumn | internal/csv/csv_config.py:134-149 | true iff some definition of the table has this name and type "picklist" |
| CsvConfig.SourceMapSpec | internal/csv/csv_config.py:151-169 | every defined name maps to its last definition's source, defaulting to the name itself |
| CsvConfig.CsvConfig.GetColumnSourceMapping | internal/csv/csv_config.py:151-169 | the loop builds that source map in definition order |
| CsvConfig.LoggedUnmapped | internal/csv/csv_config.py:171-195 | with a log file configured and writable, exactly "col\|orig\|mapped\n" is appended; otherwise nothing changes |
| CsvConfig.LoadCsvConfig | internal/csv/csv_config.py:198-208 | the first configuration document that fails raises, prefixed "Failed to load CSV configurations: " |
| Picklist.NormaliseStripped | internal/csv/picklist_handler.py:32-36 | a normalised value has nothing left to strip |
| Picklist.PicklistValueSpec | internal/csv/picklist_handler.py:20-73 | a non-picklist column or one without a picklist entry keeps the normalised value; otherwise an exact key wins, then the first case-insensitive key, then the default ("Other" when none) |
| Picklist.PicklistHandler.ApplyPicklistMapping | internal/csv/picklist_handler.py:20-73 | the result is that value; the counter rises by 1 and a log line is written only for an unmatched non-empty value |
| Picklist.MappedValuesValid | internal/csv/picklist_handler.py:75-91 | when all mapped values and the default are allowed, every result passes validate_picklist_value |
| Picklist.ValidatePicklistValue | internal/csv/picklist_handler.py:75-91 | every value is valid for a column without a non-empty entry; otherwise a value is valid iff get_allowed_values lists it |
| Picklist.GetAllowedValues | internal/csv/picklist_handler.py:93-107 | the column's allowed_values when its entry is non-empty and has them, [] otherwise |
| Picklist.KeywordValueSpec | internal/csv/picklist_handler.py:141-176 | a keyword hit gives the first picklist value, in configuration order, with a keyword in the lower-cased file name |
| Picklist.FindKeywordHit | internal/csv/picklist_handler.py:167-172 | the nested search over values and their keywords stops at the first value, in configuration order, one of whose keywords occurs in the lower-cased name, and finds none when no keyword occurs |
| Picklist.PicklistHandler.DeriveFromFilenameKeywords | internal/csv/picklist_handler.py:141-176 | a hit is returned; otherwise the result falls back to the mapping of the file name |
| Picklist.PicklistHandler.DeriveActivityType | internal/csv/picklist_handler.py:109-119 | the derivation for ActivityType of salesplans; the unmapped count rises and the value is logged exactly when no keyword hits and the picklist fallback charges it; the ID counters are unchanged |
| Picklist.PicklistHandler.DeriveProductCategory | internal/csv/picklist_handler.py:121-131 | the derivation for ProductCategory of lineitems; the unmapped count rises and the value is logged exactly when no keyword hits and the picklist fallback charges it; the ID counters are unchanged |
| Picklist.PicklistHandler.ResetUnmappedCount | internal/csv/picklist_handler.py:137-139 | the counter is 0 |
| ExcelReader.LoadExistingColumnMappings | internal/csv/excel_reader.py:28-58 | a missing or unparseable file gives {}; otherwise the target→scanned map of unignored records with a target, the later one winning |
| ExcelReader.ScanWidthSpec | internal/csv/excel_reader.py:246-257 | the width is a filled column of the scanned rows, and no scanned row is filled further right |
| ExcelReader.HeaderRowSpec | internal/csv/excel_reader.py:232-265 | the width is taken over rows 1..19 only; the header is the first row filled in that column; 1 by default |
| ExcelReader.DetectHeaderRow | internal/csv/excel_reader.py:232-265 | the loop computes HeaderRowOf |
| ExcelReader.HeadersMappingSpec | internal/csv/excel_reader.py:267-288 | each stripped non-empty header maps to its last 1-based column, and nothing else is a key |
| ExcelReader.GetHeadersMapping | internal/csv/excel_reader.py:267-288 | the loop computes that header map |
| ExcelReader.FormatCellValueSpec | internal/csv/excel_reader.py:364-395 | no value gives ""; a string gives its strip; a number outside a Date column gives its str() text |
| ExcelReader.FixedFields | internal/csv/excel_reader.py:194-197 | LineItemID, SalesPlanID and ProductCategory are set first |
| ExcelReader.ItemComplete | internal/csv/excel_reader.py:200-223 | every non-fixed mapped column holds its wanted text; every key is a fixed field or a mapped column |
| ExcelReader.Reader.ExtractSingleLineItem | internal/csv/excel_reader.py:174-230 | taking the ID fails iff the ID setting is missing or the state cannot be written; an item is returned iff some mapped source cell is non-blank; fixed fields are never overwritten |
| CsvExporter.GetExcelFiles | internal/csv/csv_exporter.py:105-120 | exactly the *.xlsx and *.xls entries not starting with "~$", sorted strictly by name |
| CsvExporter.RowOf | internal/csv/csv_exporter.py:241-245 | DictWriter fails iff a dict has a key that is not a column; otherwise it writes one cell per column, "" for missing ones |
| CsvExporter.WriteRowsSpec | internal/csv/csv_exporter.py:262-271 | writing fails iff some dict has an extra key; otherwise each dict gives one row, in order |
| CsvExporter.AppendCsvSpec | internal/csv/csv_exporter.py:235-245 | the header row is written iff the file did not exist; an existing file only grows at its end |
| CsvExporter.Lookup | internal/csv/csv_exporter.py:138-142 | dict[key] succeeds iff the key is present |
| CsvExporter.DedupKept | internal/csv/csv_exporter.py:153-162 | kept items come from the list, their keys are new and distinct, and the seen set only grows |
| CsvExporter.DedupKeptInOrder | internal/csv/csv_exporter.py:153-162 | the kept items are a subsequence of the list: they sit at increasing positions, so LineItems.csv gets them in extraction order |
| CsvExporter.DedupCounts | internal/csv/csv_exporter.py:153-166 | every item is kept or skipped; the seen keys are the old ones plus the items' keys |
| CsvExporter.DedupError | internal/csv/csv_exporter.py:155-157 | the filter raises iff some item lacks a key field |
| CsvExporter.Exporter.FilterLineItems | internal/csv/csv_exporter.py:153-166 | the filter loop equals DedupItems and only adds to the seen set |
| CsvExporter.Exporter.AppendSalesplanToCsv | internal/csv/csv_exporter.py:226-249 | the file after the append and the success flag are those of AppendCsv with one row |
| CsvExporter.Exporter.AppendLineitemsToCsv | internal/csv/csv_exporter.py:251-275 | the file after the append and the success flag are those of AppendCsv with the items |
| CsvExporter.Exporter.ProcessExcelFile | internal/csv/csv_exporter.py:122-180 | a known sales-plan key skips the file (+1 duplicate); no new line items writes nothing and records no key; success appends one sales plan and the new items, records the key, and raises the counters by 1 and by the item count |
| CsvExporter.Exporter.ExportToCsv | internal/csv/csv_exporter.py:70-103 | a missing directory is an error; each selected file is counted exactly once as processed or failed |
| FilterUnmapped.ScannedColumnsSpec | filter_unmapped.py:15-16 | a name is scanned iff it is non-empty and some line strips to it |
| FilterUnmapped.MappedColumns | filter_unmapped.py:19-25 | the mapped set is every record's scanned column, ignored records included |
| FilterUnmapped.UnmappedMembers | filter_unmapped.py:28 | a column is unmapped iff it is scanned and not mapped |
| FilterUnmapped.UnmappedAppend | filter_unmapped.py:28 | the filter distributes over concatenation, so it keeps the scanned order |
| FilterUnmapped.UnmappedNone | filter_unmapped.py:19-28 | with no mapping file every scanned column is unmapped |
| FilterUnmapped.ReportSpec | filter_unmapped.py:30-35 | after the totals, the report lists "<col>\|" for exactly the unmapped columns |
| FilterUnmapped.GetUnmappedColumns | filter_unmapped.py:6-35 | a missing scanned file gives only the error line; a parse error propagates; otherwise the report |

## Left out

- Workbook codecs (excelize, openpyxl), JSON, CSV parsing and file I/O are not modelled. Their results are parameters: a sheet is a cell grid, a parsed file is a `Result` or an `Option`, and the outcome of a write, a save or a directory creation is a boolean or an optional error message.
- The AI client is not modelled: `NewAIMapper`, `Close`, `generateSingleBatch` (goroutine, 60 s timeout), `processAPIResponse`, `GetGeminiAPIKey` and the asynchronous command. An AI result is an incoming message, and a batch is a function parameter. The sleep between chunks is dropped.
- Terminal rendering is not modelled: the `View*` functions, the styles and `tea.NewProgram`. The event loop is a sequence of messages.
- Float parsing (`strconv.ParseFloat`, `Sscanf("%f")`) is a parameter returning an optional real; the 0.8 threshold is compared on reals. NaN and ±Inf, which both Go parsers accept, are not reals and are not modelled.
- AiMapping.ParseLineAcceptable: a confidence of "NaN" passes the source's `confidence < 0.8` test (every comparison with NaN is false) and "+Inf" passes it too; the model states the bound only for the finite confidences the parameter returns.
- ExcelEditor.Editor.SetCellValue: a cell is its value and the two-decimal flag; excelize keeps a cell's existing style on a value write, while the model clears the flag.
- ExcelEditor.Editor.SetColumnHeader: as SetCellValue, the header cell's existing style is not kept.
- ExcelEditor.Editor.SetCellFormula: the model replaces the whole cell by the formula; excelize keeps the cell's style, and its cached value, untouched.
- ExcelEditor.Editor.SetCellValueSmart: only the two-decimal format is modelled; other style a cell had before the write is not kept.
- ExcelEditor.Editor.InsertRows: cells are shifted down, but the formulas referring to shifted rows are not rewritten as excelize rewrites them.
- Session.RunMappingTUI: the read errors are stated as errors without their text; the error of the terminal program (`p.Run`) is not modelled, as the terminal is not.
- ExcelEditor.Editor.Save: the text of a refused write is the library's; it is abstracted to "cannot write <path>".
- ExcelEditor.Editor.SaveAs: as Save, the text of a refused write is abstracted to "cannot write <path>".
- Excel serial-date arithmetic and the `datetime.now()` fallbacks are not modelled: the date text of a cell is a parameter. `extract_date_from_excel`, `extract_month_from_date`, `extract_year_from_date`, `extract_salesplan_metadata` and `extract_lineitems_data` are outside the model; the exporter takes their results as parameters.
- ExcelReader.FormatCellValueSpec: the date branches (datetime values and numbers in a "Date" column) are given by the serial-date parameter, so nothing is stated about them.
- Python's `str.lower` is ASCII-only here; Unicode case folding is not modelled.
- `filepath.Join` does not clean `..` or doubled separators here; the model joins with one '/'.
- internal/excel/format.go (path checks, then a call to the Python engine), cmd/sheetfmt/main.go, main.go and internal/config/config.go are not part of this model: they are CLI dispatch and configuration plumbing. The two rewrite engines are modelled separately.
- Logging, debug files and `print_summary` are not modelled; counters that are only logged (processed/skipped cell counts, cleaning statistics other than the first raw name) are dropped.
- The grid configuration is assumed positive (columns per row and rows per page). The configuration loader replaces 0 by the defaults 6 and 2, but negative sizes are passed through and are assumed away here; the division-by-zero guard of `moveToNextUnmapped` is therefore not modelled.
- The `mapped` progress counter of the session follows the source but nothing is proved about it; it is display-only.
- `input_table_end_row` is computed and stated but never used by `format_excel`, as in the source.
- `load_existing_salesplans` and `load_existing_lineitems` are not modelled: their key sets are parameters of `ExportToCsv`.
- The salesplan and line-item column lists are given to the `Exporter` constructor rather than read from the configuration.
- ExcelReader.Reader.ExtractSingleLineItem: the effect of picklist lookups on the unmapped counter and the log files is not stated, and the exception a failed log-directory creation raises through them is not modelled.
- CsvConfig.LoggedUnmapped: a failure to create the log file's directory (csv_config.py:188, outside the `try`) raises in the source; the model has only the caught failure to append, under which nothing changes.
- CsvConfig.CsvConfig.LogUnmappedValue: as LoggedUnmapped, the log-directory exception is not modelled.
- Picklist.PicklistHandler.ApplyPicklistMapping: the log-directory exception escapes the source before the unmapped counter is incremented; the model always increments it and returns the default.
- PyFormat.Formatter.FormatExcel: the creation of data/problematic and the copy into it are taken to succeed; that branch runs only when error messages were collected, which never happens in a run of format_single_file.
- Go error texts: where the source wraps a cause with `: %v` (`fmt.Errorf("failed to ...: %v", err)`), the model's message is the fixed text before the colon; the cause is not modelled. MappingTypes.ReadColumnsFromFile also leaves out the file name its message carries, and ExcelEditor.FormatFileWithTarget's "failed to check formula in target cell" leaves out the cell address that precedes the colon. This applies to Scanner.ScanAllColumnsInDirectory, MappingTypes.ReadColumnsFromFile, MappingTypes.CreateDefaultTargetColumnsFile, MappingTypes.AppendTargetFormatHeadersToFile, ExcelEditor.FormatFileWithTarget, ExcelEditor.FormatFile, LegacyEditor.ApplyTargetFormat and LegacyEditor.ApplyTargetFormatToFile, besides the cases named above.
- CsvExporter.Exporter.ExportToCsv: states the tallies and set growth, not each file's effect; those are stated per call by ProcessExcelFile.
- CsvConfig.CsvConfig.GetNextId: a failed state-file write leaves the stored number unchanged; the exception text of the I/O error is abstracted.
- The error texts of failed appends and of `KeyError` on missing dict keys are abstracted to the key name.
- The glob of `get_excel_files` is modelled as a case-sensitive suffix test on directory entries; subdirectories with a matching name are not told apart.
- Line splitting uses '\n' only; Python's universal newlines and `\r\n` handling are not modelled.
- Duplicate keys in a JSON object are not modelled: a mapping file is its list of records.
- Python's treatment of `bool` as a number in `format_cell_value` is kept as written (a bool in a non-Date column gives "True"/"False").
- Column letters are modelled on unbounded integers; Go's `int` overflow for absurdly long column names is not.

## Findings

| source | as written | input that shows it | evidently intended | confidence | as-written member | corrected member |
|---|---|---|---|---|---|---|
| internal/mapping/tui.go:513-522 | the wrap-around loop of `moveToNextUnmapped` runs `i` from 0 to the cursor index and reads `scannedColumns[i]`, even when the cursor is past the end of the list | 8 columns, 6 per row, 2 rows per page, all ignored; cursor at row 0 col 5, press Down (row 1 col 5, index 11), then `n`: the loop reads index 8 of an 8-element list and panics | the wrap-around search stops at the end of the list: `i < min(currentIdx, len)` | not executed | SessionState.NextUnmappedAsWrittenPanics | SessionState.NextUnmappedSpec |
