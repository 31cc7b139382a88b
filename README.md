# WiseTable, modelled in Dafny

WiseTable is a React data grid. It loads one page of rows through a
caller's query function. It lets the user edit cells in place: each
committed edit is kept as a dirty row beside the original data until the
edits are saved. It also keeps a selection of row ids, draws filters,
search and pagination that are mirrored in the page URL, and runs create,
bulk-update and bulk-delete workflows through modals that validate
against the caller's schemas before calling the caller's mutations. The
example application serves it from an in-memory mock server.

This project models that core in Dafny, one module per source file:

- `Editing`: the editing provider. It holds the single cell being edited,
  the dirty-row map with its insertion order, the selection and the
  validation errors. It covers commit and cancel, dirty-row reconvergence
  and the save and delete flows.
- `EditableCell`, `CellFormat`, `TableBody`, `TableHeader`, `UseSetColumn`:
  the cell's edit state machine, how a cell value is shown, the rows drawn,
  the header's select-all box and the column helper.
- `CreateModal` and `Modals`: the create form, the bulk-update form, the
  delete dialog and the confirmation modal.
- `UrlState`, `FilterProvider`, `FilterBar`: URL parsing and writing with
  page and limit clamping, the confirmed and UI query state with its 300 ms
  confirmation, the filter
  operations, and the filter bar's typed fields and chips.
- `WiseTableCore`, `TableFooter`, `TableActions`, `SearchableSelect`: the
  query wiring, the pagination footer, the action bar
  and the searchable select, with its keyboard focus.
- `DateUtils`, `CurrencyUtils`, `BadgeColors`: the date, currency and
  badge-colour helpers.
- `TableStore`, `LoadingState`, `UiProvider`, `WiseTableHook`,
  `TableTypes`: the small providers and hooks.
- `MockQuery` and `MockServer`: the mock server's query language and its
  in-memory table, with create, update, delete, seed, clear and paged
  fetch.

Shared modules: `Values` holds the JavaScript values the model needs.
`JsStrings` holds the string built-ins: `trim`, `toLowerCase`, `includes`
and number printing. `OrderedMaps` holds insertion-ordered records.
`Columns` holds column definitions, and `Wrappers` holds `Option`.

Things the component gets from outside appear in the model as parameters:

- `Number` and `parseFloat`;
- date-fns and `Date`, as a `DateLib` record;
- the Zod schemas;
- the mutation outcomes;
- generated ids;
- the clock.

Timers are pending slots that a method fires.

## Model

| member | source | states |
|---|---|---|
| CellFormat.FormatCellValue | src/lib/WiseTable/utils/formatCellValue.ts:7-48 | null and undefined display as '', booleans as 'Active'/'Inactive', integers as their decimal digits (with a leading '-' when negative), a Date as its locale date text, an array as its items' texts joined by ', ', strings unchanged |
| CellFormat.ArrayCellOne | src/lib/WiseTable/utils/formatCellValue.ts:34-36 | an array of one item shows that item's text alone, '' for null or undefined |
| CellFormat.ArrayCellAppend | src/lib/WiseTable/utils/formatCellValue.ts:34-36 | one more array item adds ', ' and that item's text to the display |
| Values.JoinValuesAppend | src/lib/WiseTable/utils/formatCellValue.ts:34-36 | `join(sep)` of one more item is the join so far, the separator and that item's text (empty for null or undefined) |
| CellFormat.EffectivelyEqualIsEquivalence | src/lib/WiseTable/providers/EditingProvider.tsx:39-44 | effective equality (`Object.is` of the normalised values) is reflexive, symmetric and transitive |
| CellFormat.EmptyValuesAgree | src/lib/WiseTable/utils/formatCellValue.ts:52 | null, undefined and '' compare equal pairwise |
| CellFormat.OtherValuesUnchanged | src/lib/WiseTable/utils/formatCellValue.ts:72 | a value that is not empty, not a Date and not date-shaped text normalises to itself |
| CellFormat.NormalizeDate | src/lib/WiseTable/utils/formatCellValue.ts:55-57 | a valid Date normalises to its yyyy-MM-dd text |
| CellFormat.NormalizeIsoText | src/lib/WiseTable/utils/formatCellValue.ts:60-69 | yyyy-MM-dd text that parses to a valid day normalises to that day's canonical text |
| CellFormat.DateAgreesWithIsoText | src/lib/WiseTable/utils/formatCellValue.ts:51-72 | a Date and its own yyyy-MM-dd text compare equal, so re-entering a date's text does not mark the cell dirty |
| CellFormat.NormalizeDateIdempotent | src/lib/WiseTable/utils/formatCellValue.ts:51-72 | normalising a date's normal form again changes nothing |
| CellFormat.ArraysCompareByIdentity | src/lib/WiseTable/providers/EditingProvider.tsx:39-44 | two distinct arrays with the same items are not effectively equal (`Object.is` compares identity) |
| DateUtils.FirstValid | src/lib/WiseTable/utils/dateUtils.ts:31-38 | the fallback finds a date exactly when some pattern in the list parses the input to a valid date, and what it finds is valid |
| DateUtils.FirstValidIsFirst | src/lib/WiseTable/utils/dateUtils.ts:88-97 | when pattern i is the first that parses validly, the fallback yields that pattern's date: patterns are tried in list order and the loop stops at the first valid parse |
| DateUtils.FindFirstValid | src/lib/WiseTable/utils/dateUtils.ts:31-38 | the loop over the patterns (skipping one that throws, stopping at the first valid date) computes the first valid parse |
| DateUtils.ResolveDateText | src/lib/WiseTable/utils/dateUtils.ts:18-42 | a string is read by `parseISO` when that is valid, otherwise by the first valid fallback pattern; any other value is taken as a Date; what it yields is valid |
| DateUtils.FormatDate | src/lib/WiseTable/utils/dateUtils.ts:7-53 | falsy input gives ''; input that denotes no valid date gives its own `toString()` text; otherwise the date in the requested pattern, or the `toString()` text when formatting throws |
| DateUtils.FormatDateForEditing | src/lib/WiseTable/utils/dateUtils.ts:108-151 | as `formatDate`, with the editor's five-pattern fallback list: falsy input gives '' and an unreadable date its `toString()` text |
| DateUtils.ParseDateInput | src/lib/WiseTable/utils/dateUtils.ts:58-103 | blank input gives null; otherwise the configured pattern, then ISO, then the fallback patterns in order; null comes back only for blank input, for a pattern that throws, or when no fallback pattern parses |
| DateUtils.IsValidDateInput | src/lib/WiseTable/utils/dateUtils.ts:166-176 | true exactly when the input is all whitespace (empty included) or `parseDateInput` yields a date |
| DateUtils.Pad2Value | src/lib/WiseTable/utils/dateUtils.ts:158-159 | a number below 100 padded to two digits is two digits that read back as the number |
| DateUtils.LocalDateStringFields | src/lib/WiseTable/utils/dateUtils.ts:156-161 | for a four-digit year, `toLocalDateString` has the yyyy-MM-dd shape and its fields read back as the year, `getMonth() + 1` and the day |
| DateUtils.LocalDateStringMatchesFormat | src/lib/WiseTable/utils/dateUtils.ts:156-161 | for a four-digit year, `toLocalDateString` agrees with `format(date, 'yyyy-MM-dd')` |
| DateUtils.FormatYmdIsIsoDay | src/lib/WiseTable/utils/dateUtils.ts:220-221 | the yyyy-MM-dd text of a date in the years 1..9999 matches `/^\d{4}-\d{2}-\d{2}$/` |
| DateUtils.NormalizeDateString | src/lib/WiseTable/utils/dateUtils.ts:181-222 | falsy input gives ''; input denoting no valid date gives its `toString()` text; otherwise the date's yyyy-MM-dd text |
| DateUtils.EditingTextRoundTrip | src/lib/WiseTable/utils/dateUtils.ts:58-71 | opening a date for editing and committing its text unchanged parses back to the same date, whenever the library reads its own output in the column's pattern |
| Editing.SingleEditTracked | src/lib/WiseTable/providers/EditingProvider.tsx:162-170 | a row edited on one column with a differing value differs from its original on exactly that column |
| Editing.CommitDirty | src/lib/WiseTable/providers/EditingProvider.tsx:129-174 | `commitEdit` on the unsaved rows touches only the entry of `rowId`: every other id keeps its presence and its entry, order kept; if every unsaved row records exactly its differing fields before, so does every row after |
| Editing.CleanCommitUnchanged | src/lib/WiseTable/providers/EditingProvider.tsx:161-174 | committing to a clean row a value effectively equal to `originalRow[columnKey]` creates no entry |
| Editing.CleanCommitCreates | src/lib/WiseTable/providers/EditingProvider.tsx:162-172 | committing a differing value to a clean row appends an entry whose original is the row, whose modified data is the row with only that column replaced, and whose changed fields are just that column |
| Editing.DirtyCommitIgnoresPassedRow | src/lib/WiseTable/providers/EditingProvider.tsx:129-158 | on a dirty row the passed `originalRow` is ignored; the row stays dirty exactly when the merged data still differs from the stored original somewhere: then it keeps its place, its original and its row index, gets the merged data and exactly the differing keys as changed fields; otherwise its entry is deleted |
| Editing.RevertLastChangeCleansRow | src/lib/WiseTable/providers/EditingProvider.tsx:145-149 | editing the only changed field of a dirty row back to its original value deletes the entry, so the row is no longer dirty |
| Editing.EditThenRevertRestores | src/lib/WiseTable/providers/EditingProvider.tsx:129-174 | editing a clean cell and then committing its original value again restores the unsaved rows exactly, order included |
| Editing.SelectedItems | src/lib/WiseTable/providers/EditingProvider.tsx:210-215 | the selected items are the loaded rows whose id is selected, in data order and each as often as it occurs; there are none exactly when no loaded row's id is selected |
| Editing.UpdatePayload | src/lib/WiseTable/providers/EditingProvider.tsx:355-364 | one item per unsaved row in map order, carrying that row's modified data and its changed fields, plus the reason |
| Editing.SubsetIssues | src/lib/WiseTable/providers/EditingProvider.tsx:310-338 | when every changed field of the shape is undefined in the edited values, the subset validation raises no issue |
| Editing.SubsetIssuesIgnoreUnchanged | src/lib/WiseTable/providers/EditingProvider.tsx:310-318 | only changed fields present in the shape are validated: the validators of the other fields never affect the issues |
| Editing.UndefinedFieldsPass | src/lib/WiseTable/providers/EditingProvider.tsx:315-318 | each field is made optional: a changed field whose edited value is undefined raises no issue |
| Editing.ValidationErrorsComeFromRows | src/lib/WiseTable/providers/EditingProvider.tsx:250-351 | at most one error per unsaved row, each carrying some row's `originalData[idColumn]` and at least one message; with no object shape no row is validated |
| Editing.EditingEngine.constructor | src/lib/WiseTable/providers/EditingProvider.tsx:78-88 | no edit, no unsaved rows, no selection, all three dialogs closed and reset version 0 |
| Editing.EditingEngine.SetData | src/lib/WiseTable/providers/EditingProvider.tsx:47-49 | the provider's rows become the new data and nothing else changes |
| Editing.EditingEngine.StartEdit | src/lib/WiseTable/providers/EditingProvider.tsx:110-121 | the edit becomes `{rowIndex, columnKey, oldValue: currentValue, newValue: currentValue}` and nothing else changes |
| Editing.EditingEngine.SetCurrentEdit | src/lib/WiseTable/providers/EditingProvider.tsx:93 | the exposed setter replaces the edit and nothing else |
| Editing.EditingEngine.SetSelectedRowIds | src/lib/WiseTable/providers/EditingProvider.tsx:97 | the exposed setter replaces the selection and nothing else |
| Editing.EditingEngine.CommitEdit | src/lib/WiseTable/providers/EditingProvider.tsx:123-177 | the unsaved rows become `CommitDirty` of the old ones with the edit's row index (0 without an edit), the edit is cleared, the selection and everything else is unchanged, and exact change tracking is preserved |
| Editing.EditingEngine.CancelEdit | src/lib/WiseTable/providers/EditingProvider.tsx:179-181 | clears only the edit |
| Editing.EditingEngine.DiscardChanges | src/lib/WiseTable/providers/EditingProvider.tsx:184-191 | empties the unsaved rows, the selection and the edit, advances the reset version modulo `MAX_SAFE_INTEGER`, and afterwards `hasUnsavedChanges` is false |
| Editing.EditingEngine.OpenCreateModal | src/lib/WiseTable/providers/EditingProvider.tsx:194-199 | opens the create dialog only when a create schema and a non-empty list of create columns exist; otherwise nothing changes |
| Editing.EditingEngine.OpenUpdateModal | src/lib/WiseTable/providers/EditingProvider.tsx:201-203 | opens the update dialog and changes nothing else |
| Editing.EditingEngine.OpenDeleteModal | src/lib/WiseTable/providers/EditingProvider.tsx:205-207 | opens the delete dialog and changes nothing else |
| Editing.EditingEngine.HandleCreateConfirm | src/lib/WiseTable/providers/EditingProvider.tsx:240-243 | the items go to the create mutation when one is configured, and the create dialog closes |
| Editing.EditingEngine.HandleCreateCancel | src/lib/WiseTable/providers/EditingProvider.tsx:245-247 | closes the create dialog |
| Editing.EditingEngine.GetUpdateValidationErrors | src/lib/WiseTable/providers/EditingProvider.tsx:250-351 | computes the failing rows of the unsaved rows in map order, and [] when there are none |
| Editing.EditingEngine.HandleUpdateConfirm | src/lib/WiseTable/providers/EditingProvider.tsx:353-373 | with unsaved rows and an update mutation, sends one `{data: modifiedData, changedColumns}` per unsaved row with the reason; on success (or with no mutation) clears the unsaved rows and the selection and closes the dialog; on failure, or with no unsaved rows, changes nothing |
| Editing.EditingEngine.HandleUpdateCancel | src/lib/WiseTable/providers/EditingProvider.tsx:375-377 | closes the update dialog |
| Editing.EditingEngine.HandleDeleteConfirm | src/lib/WiseTable/providers/EditingProvider.tsx:379-395 | with selected rows and a delete mutation, sends those rows with the reason; on success (or with no mutation) clears only the selection and closes the dialog; the unsaved rows are never touched |
| Editing.EditingEngine.HandleDeleteCancel | src/lib/WiseTable/providers/EditingProvider.tsx:397-399 | closes the delete dialog |
| EditableCell.AtMostOneCellEditing | src/lib/WiseTable/internal/EditableCell.tsx:50-51 | at most one cell of the table is editing: two cells that both match the current edit are the same cell, the cell the edit names does match it, and with no edit no cell is editing |
| EditableCell.CurrentCellValue | src/lib/WiseTable/internal/EditableCell.tsx:53-61 | the value the editor starts from is the unsaved row's value for the column (undefined when it has none) when the row is dirty, and the loaded value otherwise |
| EditableCell.DisplayedValue | src/lib/WiseTable/internal/EditableCell.tsx:53-61 | (corrected reading, Findings row 3) the value a cell shows when not editing is the value its editor starts from, so a dirty row shows its modified value even when that is null |
| EditableCell.ClearedCellShowsOldValue | src/lib/WiseTable/internal/EditableCell.tsx:174-175 | as written, a text cell holding 'Kim' that is cleared and committed becomes dirty with null, yet the `??` display still shows 'Kim' |
| EditableCell.InitialInput | src/lib/WiseTable/internal/EditableCell.tsx:75-95 | the editor starts from the edit's new value, else its old value, else the cell value (the first that is not null or undefined); a date column shows that value's `formatDateForEditing` text, any other column `String(base ?? '')` |
| EditableCell.StartedEditShowsCurrent | src/lib/WiseTable/internal/EditableCell.tsx:75-95 | an edit started from the current value opens the editor on that value's text |
| EditableCell.ConvertInput | src/lib/WiseTable/internal/EditableCell.tsx:133-162 | the committed value is always null, the loaded value, `input === 'true'`, the typed text, a parsed date or a parsed number; a committed date is valid unless it is the loaded value |
| EditableCell.BlankCommitsNull | src/lib/WiseTable/internal/EditableCell.tsx:136-138 | blank text in a date, number or text cell commits null |
| EditableCell.UnparsableKeepsValue | src/lib/WiseTable/internal/EditableCell.tsx:144-155 | non-blank text that does not parse as a date (date column) or a number (number column or numeric value) commits the loaded value |
| EditableCell.ParsedTextCommitsParsed | src/lib/WiseTable/internal/EditableCell.tsx:140-155 | non-blank text that parses commits the parsed date in a date column and the parsed number in a number column or for a numeric value |
| EditableCell.BooleanCommitsTextTest | src/lib/WiseTable/internal/EditableCell.tsx:157-158 | a boolean value outside date and number columns commits `input === 'true'` |
| EditableCell.TextCommitsAsTyped | src/lib/WiseTable/internal/EditableCell.tsx:159-161 | any other cell commits the non-blank text exactly as typed |
| EditableCell.ConvertSelection | src/lib/WiseTable/internal/EditableCell.tsx:258-296 | a column typed 'select' or 'multiselect' commits the selection unchanged; the options editor of any other column commits an array selection as it is, in a boolean cell any other selection as `String(v) === 'true'`, and otherwise the selection unchanged |
| EditableCell.SelectColumnKeepsText | src/lib/WiseTable/internal/EditableCell.tsx:258-268 | a select-typed column commits a text option in a boolean cell as that text, with no `'true'` test, so it commits something other than the options editor of a text column does |
| EditableCell.TextSelectionInBooleanCell | src/lib/WiseTable/internal/EditableCell.tsx:289-296 | in the options editor of a column that is not select-typed, a text option in a boolean cell commits true exactly when it is 'true' |
| EditableCell.BooleanSelectionRoundTrip | src/lib/WiseTable/internal/EditableCell.tsx:289-296 | in the options editor of a column that is not select-typed, selecting a boolean in a boolean cell commits that boolean |
| EditableCell.InputKeyAction | src/lib/WiseTable/internal/EditableCell.tsx:114-123 | in the single-line editor Enter and Tab commit and exactly Escape cancels |
| EditableCell.TextAreaKeyAction | src/lib/WiseTable/internal/EditableCell.tsx:318-324 | in the multi-line editor only Ctrl+Enter commits and exactly Escape cancels |
| EditableCell.AcceptInput | src/lib/WiseTable/internal/EditableCell.tsx:335-343 | a date editor keeps a keystroke exactly when the new text passes `isValidDateInput(text, 'yyyy-MM-dd')`; other editors keep every keystroke |
| EditableCell.HandleCellClick | src/lib/WiseTable/internal/EditableCell.tsx:106-112 | a click on an editable cell that is not editing starts an edit from its current value; a read-only or id cell, or one already editing, leaves the edit unchanged |
| EditableCell.HandleCommit | src/lib/WiseTable/internal/EditableCell.tsx:125-165 | nothing happens when the cell is not editing; a read-only or id cell only clears the edit and never calls `commitEdit`; otherwise the converted text is committed with the cell's row |
| TableBody.ToggleSelection | src/lib/WiseTable/internal/TableBody.tsx:49-57 | the row checkbox flips the membership of exactly that row's id; every other id keeps its membership |
| TableBody.ToggleInvolutive | src/lib/WiseTable/internal/TableBody.tsx:50-56 | toggling the same row twice restores the selection |
| TableBody.ToggleRow | src/lib/WiseTable/internal/TableBody.tsx:49-57 | the copied set gets the id deleted when selected and added otherwise, and becomes the selection; nothing else in the editing state changes |
| TableBody.IdCellEditableAsRendered | src/lib/WiseTable/internal/TableBody.tsx:61-68 | as written the body passes no `idColumn`, so an id cell that is not read-only accepts edits, which the cell's own id test means to refuse |
| TableBody.RowCells | src/lib/WiseTable/internal/TableBody.tsx:61-68 | one cell per column, in column order, each with the row, its id and index, the column, `row[column.key]` and the table's id column (corrected reading, Findings row 6) |
| TableBody.IdCellsReadOnly | src/lib/WiseTable/internal/EditableCell.tsx:106-109 | with the id column passed on, no cell of the id column can be edited, whatever its `readonly` |
| TableBody.RowKeyChangesWithVersion | src/lib/WiseTable/internal/TableBody.tsx:34 | the row key includes the reset version, so advancing it gives every row a new key and rows remount after a discard |
| TableBody.RowKeysDistinctWithinVersion | src/lib/WiseTable/internal/TableBody.tsx:34 | under one version, rows with different id texts (free of '-') get different keys |
| TableBody.RowKeyIdText | src/lib/WiseTable/internal/TableBody.tsx:34-35 | the id text is the part of the key before its first '-' |
| TableBody.RowHighlight | src/lib/WiseTable/internal/TableBody.tsx:36-42 | a selected row is highlighted as selected whatever its dirty state, an unselected dirty row as dirty, any other row as plain |
| TableHeader.IdFromText | src/lib/WiseTable/internal/TableHeader.tsx:15-18 | a row id text whose `Number(...)` is not NaN becomes that number, any other text stays a string |
| TableHeader.VisibleIds | src/lib/WiseTable/internal/TableHeader.tsx:13-19 | the visible ids are the rendered rows' id texts read back one by one, in row order |
| TableHeader.ToggleAllProperties | src/lib/WiseTable/internal/TableHeader.tsx:21-32 | dirty ids and ids not shown keep their membership; if every non-dirty visible id was selected they are all removed, otherwise they are all added; afterwards all or none of them are selected |
| TableHeader.ToggleAllTwice | src/lib/WiseTable/internal/TableHeader.tsx:26-31 | select-all applied twice to the same rows restores a selection that held all or none of the non-dirty visible ids |
| TableHeader.HandleToggleAll | src/lib/WiseTable/internal/TableHeader.tsx:11-33 | the three loops (collect the non-dirty ids, test that all are selected, delete or add them) leave the selection equal to select-all over the set of non-dirty visible ids, and change nothing else |
| UseSetColumn.UseSetColumnContext | src/lib/WiseTable/hooks/useSetColumn.ts:12-16 | the hook fails exactly when there is no render context |
| UseSetColumn.SetColumnDispatch | src/lib/WiseTable/hooks/useSetColumn.ts:18-32 | exactly one call is made: the update function with the value when the context has one, otherwise `commitEdit(rowId, columnKey, value, originalRow)` from the context |
| UseSetColumn.SetColumn | src/lib/WiseTable/hooks/useSetColumn.ts:18-32 | with an update function the value is handed to it and the editing state is unchanged; otherwise the value is committed as an edit of the context's cell and the edit is cleared |
| CreateModal.FieldErrors | src/lib/WiseTable/modals/CreateModal.tsx:192-198 | every field in the message map is the first path element of some issue |
| CreateModal.FieldErrorsLastWins | src/lib/WiseTable/modals/CreateModal.tsx:193-198 | a field carries the message of the last issue reported on it: a later issue for the same field overwrites an earlier one |
| CreateModal.FieldErrorsCoverIssue | src/lib/WiseTable/modals/CreateModal.tsx:193-198 | every field that some issue with a non-empty path reports on has a message |
| CreateModal.SomeReportsOn | src/lib/WiseTable/modals/CreateModal.tsx:125-127 | true exactly when some issue has a non-empty path whose first element is the field |
| CreateModal.CollectFieldErrors | src/lib/WiseTable/modals/CreateModal.tsx:192-198 | the `forEach` over the issues builds exactly the message map |
| CreateModal.Validated | src/lib/WiseTable/modals/CreateModal.tsx:186-200 | validation keeps a row's id and data, and clears its errors when it parses |
| CreateModal.UpdatedItem | src/lib/WiseTable/modals/CreateModal.tsx:156-180 | the field is set in the row's data; before the first submit the errors stay as they were, afterwards they are recomputed from the new data |
| CreateModal.RequiredIffEmptyRowFails | src/lib/WiseTable/modals/CreateModal.tsx:116-128 | a field is required exactly when an empty row, once validated, shows an error on that field |
| CreateModal.EditableColumns | src/lib/WiseTable/modals/CreateModal.tsx:130-135 | the form's columns are those that are not hidden, not read-only and not the id column, in column order and each as often as it occurs |
| CreateModal.TotalErrors | src/lib/WiseTable/modals/CreateModal.tsx:204-207 | the error count is 0 exactly when no row has an error |
| CreateModal.CreateDisabled | src/lib/WiseTable/modals/CreateModal.tsx:621 | the Create button is disabled exactly when the user has submitted once and some row still has a field error |
| CreateModal.DefaultRow | src/lib/WiseTable/modals/CreateModal.tsx:74-84 | the default row has exactly the keys of the columns whose query answered a value other than undefined |
| CreateModal.DefaultRowValues | src/lib/WiseTable/modals/CreateModal.tsx:74-84 | each key of the default row holds the value of the last column with that key whose query answered one |
| CreateModal.FillDefaults | src/lib/WiseTable/modals/CreateModal.tsx:93-110 | the defaults effect keeps every field already defined and adds exactly the queried fields |
| CreateModal.FillDefaultsFirstWins | src/lib/WiseTable/modals/CreateModal.tsx:93-110 | an undefined field receives the value of the first column with its key whose query answered one |
| CreateModal.FillDefaultsUnqueried | src/lib/WiseTable/modals/CreateModal.tsx:93-110 | a field no column answered a value for keeps what it held |
| CreateModal.CreateForm.constructor | src/lib/WiseTable/modals/CreateModal.tsx:35-43 | the form starts with exactly one row with empty data and no errors, errors hidden and the confirmation closed |
| CreateModal.CreateForm.ApplyDefaults | src/lib/WiseTable/modals/CreateModal.tsx:90-113 | only the first row changes, its data filled with the defaults |
| CreateModal.CreateForm.AddNewItem | src/lib/WiseTable/modals/CreateModal.tsx:137-146 | appends one row with a fresh id, the default data and no errors |
| CreateModal.CreateForm.RemoveItem | src/lib/WiseTable/modals/CreateModal.tsx:148-152 | removes the rows with that id only when more than one row exists, so the list is never empty |
| CreateModal.CreateForm.UpdateItemField | src/lib/WiseTable/modals/CreateModal.tsx:154-182 | the row with that id is updated as `UpdatedItem` says; every other row is unchanged and the length is kept |
| CreateModal.CreateForm.ValidateAll | src/lib/WiseTable/modals/CreateModal.tsx:184-202 | every row is validated in order, and `anyErrors` is true exactly when some row fails to parse |
| CreateModal.CreateForm.HandleConfirm | src/lib/WiseTable/modals/CreateModal.tsx:223-233 | every row is re-validated and errors are revealed; the confirmation opens only when every row parses |
| CreateModal.CreateForm.HandleCancel | src/lib/WiseTable/modals/CreateModal.tsx:235-245 | the form goes back to one row of default data with errors hidden |
| CreateModal.CreateForm.FinalConfirm | src/lib/WiseTable/modals/CreateModal.tsx:650-663 | every row's data is submitted in order, then the form resets to one default row with errors hidden and the confirmation closed |
| CreateModal.CreateForm.ConfirmCancel | src/lib/WiseTable/modals/CreateModal.tsx:649 | closing the confirmation keeps the rows |
| CreateModal.RemoveById | src/lib/WiseTable/modals/CreateModal.tsx:150 | the filter keeps the rows whose id differs, in their order and each as often as it occurs, and drops the others |
| CreateModal.RemoveByIdKeepsOthers | src/lib/WiseTable/modals/CreateModal.tsx:148-152 | with distinct ids at most one row goes, so two or more rows never become none |
| CreateModal.RemoveByIdMissing | src/lib/WiseTable/modals/CreateModal.tsx:150 | removing an id no row has changes nothing |
| Modals.ReasonArg | src/lib/WiseTable/ui/ConfirmModal.tsx:37 | `reason.trim() \|\| undefined` is absent exactly for a blank reason, and otherwise the non-empty trimmed text |
| Modals.ConfirmDialog.constructor | src/lib/WiseTable/ui/ConfirmModal.tsx:28 | the reason starts empty |
| Modals.ConfirmDialog.SetReason | src/lib/WiseTable/ui/ConfirmModal.tsx:28 | typing replaces the reason |
| Modals.ConfirmDialog.HandleConfirm | src/lib/WiseTable/ui/ConfirmModal.tsx:32-39 | with a required reason that is blank nothing is emitted and the reason is kept; otherwise the trimmed reason (absent when blank) is emitted and the reason resets to '' |
| Modals.ConfirmDialog.HandleCancel | src/lib/WiseTable/ui/ConfirmModal.tsx:41-44 | cancel resets the reason to '' |
| Modals.CanUpdate | src/lib/WiseTable/modals/UpdateSelectedModal.tsx:30-35 | the update button is enabled exactly with unsaved rows, no validation errors and, when required, a non-blank reason |
| Modals.UpdateDialog.constructor | src/lib/WiseTable/modals/UpdateSelectedModal.tsx:25-26 | empty reason, confirmation closed |
| Modals.UpdateDialog.SetReason | src/lib/WiseTable/modals/UpdateSelectedModal.tsx:177 | typing replaces the reason |
| Modals.UpdateDialog.HandleConfirm | src/lib/WiseTable/modals/UpdateSelectedModal.tsx:37-47 | without unsaved rows nothing happens; a required blank reason is refused; otherwise the confirmation opens; validation errors are not checked here |
| Modals.UpdateDialog.FinalConfirm | src/lib/WiseTable/modals/UpdateSelectedModal.tsx:255-259 | the trimmed reason (absent when blank) goes out, then the reason is cleared and the confirmation closes |
| Modals.UpdateDialog.ConfirmCancel | src/lib/WiseTable/modals/UpdateSelectedModal.tsx:254 | closing the confirmation keeps the reason |
| Modals.UpdateDialog.HandleCancel | src/lib/WiseTable/modals/UpdateSelectedModal.tsx:49-52 | cancel clears the reason |
| Modals.DeleteReasonArg | src/lib/WiseTable/modals/DeleteSelectedModal.tsx:215 | with a required reason the raw text goes out untrimmed, even when blank; otherwise the trimmed reason or none |
| Modals.Preview | src/lib/WiseTable/modals/DeleteSelectedModal.tsx:102 | the preview is a prefix of the selection of at most 10 items, the whole selection when it has at most 10 |
| Modals.RemainingCount | src/lib/WiseTable/modals/DeleteSelectedModal.tsx:139-143 | the "… and n more items" count is positive exactly when more than 10 items are selected |
| Modals.PreviewAccountsForAll | src/lib/WiseTable/modals/DeleteSelectedModal.tsx:102-143 | the preview and the remaining count account for every selected item: the preview followed by the rest is the selection |
| Modals.DeleteDialog.constructor | src/lib/WiseTable/modals/DeleteSelectedModal.tsx:22-23 | empty reason, confirmation closed |
| Modals.DeleteDialog.SetReason | src/lib/WiseTable/modals/DeleteSelectedModal.tsx:155 | typing replaces the reason |
| Modals.DeleteDialog.HandleConfirm | src/lib/WiseTable/modals/DeleteSelectedModal.tsx:27-34 | a non-empty selection is the only guard: the confirmation opens with any reason, blank included, even when a reason is required |
| Modals.DeleteDialog.FinalConfirm | src/lib/WiseTable/modals/DeleteSelectedModal.tsx:214-218 | the reason goes out as `DeleteReasonArg` says, then is cleared and the confirmation closes |
| Modals.DeleteDialog.ConfirmCancel | src/lib/WiseTable/modals/DeleteSelectedModal.tsx:213 | closing the confirmation keeps the reason |
| Modals.DeleteDialog.HandleCancel | src/lib/WiseTable/modals/DeleteSelectedModal.tsx:36-39 | cancel clears the reason |
| UrlState.GetParam | src/lib/WiseTable/providers/URLStateProvider.tsx:16-18 | `get` finds the value of the first pair under the key, and finds none exactly when no pair has the key |
| UrlState.ParsedCount | src/lib/WiseTable/providers/URLStateProvider.tsx:16-17 | page and limit are at least 1; a missing, empty or non-numeric parameter gives the default; a numeric one is clamped to at least 1 (the corrected reading of Findings row 4) |
| UrlState.CountExamples | src/lib/WiseTable/providers/URLStateProvider.tsx:16-17 | `?page=-3` gives page 1, `?page=` the default, and of two limits the first is read |
| UrlState.NonNumericPageIsNaN | src/lib/WiseTable/providers/URLStateProvider.tsx:16 | as written, `?page=abc` yields NaN (Math.max with NaN), where the corrected reading gives the default page 1 |
| UrlState.FilterEntry | src/lib/WiseTable/providers/URLStateProvider.tsx:21-36 | reserved keys (page, limit, search) and empty values add no filter; a min*/max* key is kept exactly when its value is numeric, as that number; a start_/end_ key keeps its text; otherwise `isActive` or the values "true"/"false" become a boolean that is true only for "true"; anything else keeps its text |
| UrlState.FiltersFrom | src/lib/WiseTable/providers/URLStateProvider.tsx:20-36 | reading the parameters in order keeps the filter record well formed (distinct keys in insertion order) |
| UrlState.ParseFilters | src/lib/WiseTable/providers/URLStateProvider.tsx:20-36 | the forEach loop builds exactly the filters of the in-order reading of the parameters |
| UrlState.ParseState | src/lib/WiseTable/providers/URLStateProvider.tsx:13-39 | (corrected reading, Findings row 4) the parsed state always has page and limit at least 1 and a well-formed filter record |
| UrlState.SyncToUrl | src/lib/WiseTable/providers/URLStateProvider.tsx:42-58 | the query written never holds the same key twice (URLSearchParams.set replaces) |
| UrlState.SyncThenParse | src/lib/WiseTable/providers/URLStateProvider.tsx:13-58 | writing a state to the URL and parsing it back gives the same state, for every state whose filter values read back as themselves |
| UrlState.SyncIsPairs | src/lib/WiseTable/providers/URLStateProvider.tsx:43-57 | with distinct non-reserved filter keys, the URL holds page, limit, the search if set, then the filters in insertion order |
| UrlState.SearchComesBack | src/lib/WiseTable/providers/URLStateProvider.tsx:18 | the search is read back from the synced query, and an empty search (not written) reads back as empty |
| UrlState.SkipReserved | src/lib/WiseTable/providers/URLStateProvider.tsx:22 | parameters under page, limit and search add nothing to the filters |
| UrlState.FilterPairsShape | src/lib/WiseTable/providers/URLStateProvider.tsx:53-57 | when no value is omitted, one pair is written per filter key, in order, with the value's String text |
| UrlState.SetAllDistinct | src/lib/WiseTable/providers/URLStateProvider.tsx:43-57 | setting pairs with distinct keys appends each key once and stores its value |
| UrlState.FiltersComeBack | src/lib/WiseTable/providers/URLStateProvider.tsx:21-36 | reading the written filter pairs rebuilds the filter record, entry by entry and in the same key order |
| UrlState.ReadBack | src/lib/WiseTable/providers/URLStateProvider.tsx:26-35 | every value of the round-tripping kind (a number under min/max, text under start_/end_, a boolean, other text) is read back as itself |
| UrlState.UrlStateStore.constructor | src/lib/WiseTable/providers/URLStateProvider.tsx:67-70 | (corrected reading, Findings row 4) the UI and the confirmed state both start as the state parsed from the URL, with no timer armed |
| UrlState.UrlStateStore.ConfirmAgainst | src/lib/WiseTable/providers/URLStateProvider.tsx:92-117 | a change of search or filters alone (against the render's confirmed state) arms the 300 ms timer and leaves the confirmed state; any other change is confirmed at once and cancels the timer |
| UrlState.UrlStateStore.ConfirmChanges | src/lib/WiseTable/providers/URLStateProvider.tsx:92-117 | the same rule against the latest confirmed state |
| UrlState.UrlStateStore.TimerFires | src/lib/WiseTable/providers/URLStateProvider.tsx:108-110 | when the timer fires the pending state becomes the confirmed one and nothing is pending |
| UrlState.UrlStateStore.SearchTimerFires | src/lib/WiseTable/providers/URLStateProvider.tsx:139-145 | the debounced search confirmation runs with the last state it was given; with nothing pending it changes nothing |
| UrlState.UrlStateStore.SetPage | src/lib/WiseTable/providers/URLStateProvider.tsx:120-127 | the UI page becomes the given page clamped to at least 1; a page other than the confirmed one is confirmed at once; a change of search or filters alone keeps the confirmed state and leaves the new one waiting for the 300 ms timer, any other change is confirmed at once |
| UrlState.UrlStateStore.SetLimit | src/lib/WiseTable/providers/URLStateProvider.tsx:129-136 | the limit becomes the given limit clamped to at least 1 and the page goes back to 1; a page or limit other than the confirmed ones is confirmed at once; a change of search or filters alone keeps the confirmed state and leaves the new one waiting for the 300 ms timer, any other change is confirmed at once |
| UrlState.UrlStateStore.SetSearch | src/lib/WiseTable/providers/URLStateProvider.tsx:147-154 | the search shows in the UI at once with page 1, and its confirmation waits for the debounced call |
| UrlState.UrlStateStore.SetFiltersIn | src/lib/WiseTable/providers/URLStateProvider.tsx:156-163 | a call from a render replaces that render's filters and resets the page; the confirmation rule is judged against that render's confirmed state |
| UrlState.UrlStateStore.SetFilters | src/lib/WiseTable/providers/URLStateProvider.tsx:156-163 | the filters are replaced and the page goes back to 1; a change of search or filters alone keeps the confirmed state and leaves the new one waiting for the 300 ms timer, any other change is confirmed at once |
| UrlState.UrlStateStore.ResetToFirstPage | src/lib/WiseTable/providers/URLStateProvider.tsx:165-169 | only the page changes, to 1; a change of search or filters alone keeps the confirmed state and leaves the new one waiting for the 300 ms timer, any other change is confirmed at once |
| UrlState.UrlStateStore.ClearAllFilters | src/lib/WiseTable/providers/URLStateProvider.tsx:171-175 | the filters become empty and the page goes back to 1; a change of search or filters alone keeps the confirmed state and leaves the new one waiting for the 300 ms timer, any other change is confirmed at once |
| UrlState.UrlStateStore.ClearSearch | src/lib/WiseTable/providers/URLStateProvider.tsx:177-181 | the search becomes empty and the page goes back to 1; a change of search or filters alone keeps the confirmed state and leaves the new one waiting for the 300 ms timer, any other change is confirmed at once |
| UrlState.UrlStateStore.NextPage | src/lib/WiseTable/providers/URLStateProvider.tsx:183-187 | the page goes up by one, with no upper bound; a page other than the confirmed one is confirmed at once; a change of search or filters alone keeps the confirmed state and leaves the new one waiting for the 300 ms timer, any other change is confirmed at once |
| UrlState.UrlStateStore.PrevPage | src/lib/WiseTable/providers/URLStateProvider.tsx:189-193 | the page goes down by one, never below 1; a page other than the confirmed one is confirmed at once; a change of search or filters alone keeps the confirmed state and leaves the new one waiting for the 300 ms timer, any other change is confirmed at once |
| UrlState.UrlStateStore.PopState | src/lib/WiseTable/providers/URLStateProvider.tsx:80-89 | (corrected reading, Findings row 4) on back/forward both states become the parsed URL at once and nothing is debouncing |
| UrlState.PageChangeConfirmsAtOnce | src/lib/WiseTable/providers/URLStateProvider.tsx:99-113 | a change of page or limit is never left waiting for the timer |
| UrlState.DebouncingIffWaiting | src/lib/WiseTable/providers/URLStateProvider.tsx:222-224 | after a change judged by the debounce rule, `isDebouncing` (confirmed state differs from the UI state) holds exactly when the timer is armed with a state other than the one confirmed before, and then the confirmed state is that earlier one and the timer holds the UI state |
| FilterProvider.SetEach | src/lib/WiseTable/providers/FilterProvider.tsx:28-31 | copying keys over a record keeps it well formed and keeps the keys already there in their places |
| FilterProvider.SetEachAt | src/lib/WiseTable/providers/FilterProvider.tsx:28-31 | after the copy a key holds the copied value if it was copied, else its old value |
| FilterProvider.Overlay | src/lib/WiseTable/providers/FilterProvider.tsx:28-31 | object spread `{...base, ...top}`: the keys are those of either side, `top` wins on shared keys, `base`'s keys keep their order at the front |
| FilterProvider.CurrentFilters | src/lib/WiseTable/providers/FilterProvider.tsx:27-33 | the current filters are the default filters with the URL's filters over them, and form a well-formed record |
| FilterProvider.Applied | src/lib/WiseTable/providers/FilterProvider.tsx:35-55 | an update with undefined, null or '' removes the key, any other update sets it; a remove deletes it; every other key is untouched |
| FilterProvider.AppliedKeepsClean | src/lib/WiseTable/providers/FilterProvider.tsx:38-42 | filters that hold no empty value never gain one through an update |
| FilterProvider.AppliedIdempotent | src/lib/WiseTable/providers/FilterProvider.tsx:35-55 | making the same update or remove twice is making it once |
| FilterProvider.RemoveAbsent | src/lib/WiseTable/providers/FilterProvider.tsx:51 | deleting a key an object does not hold leaves its key order unchanged |
| FilterProvider.UpdateThenRemove | src/lib/WiseTable/providers/FilterProvider.tsx:35-55 | adding an absent filter and removing it again gives back the filters exactly, order included |
| FilterProvider.Sequenced | src/lib/WiseTable/providers/FilterProvider.tsx:35-55 | calls applied in turn, each on the last result, keep the record well formed |
| FilterProvider.SequencedOne | src/lib/WiseTable/providers/FilterProvider.tsx:35-46 | a single call in turn is that call |
| FilterProvider.SequencedTwo | src/lib/WiseTable/providers/FilterProvider.tsx:35-55 | two calls in turn compose |
| FilterProvider.SequencedAppend | src/lib/WiseTable/providers/FilterProvider.tsx:35-55 | two batches applied in turn are one batch applied in turn |
| FilterProvider.QuickFiltered | src/lib/WiseTable/providers/FilterProvider.tsx:61-67 | every preset entry wins, and every other key keeps its current value and presence |
| FilterProvider.CallsAsWritten | src/lib/WiseTable/providers/FilterProvider.tsx:35-55 | as written, the i-th call of one handler hands over its render's UI state with only its own change applied to the render's current filters |
| FilterProvider.DateRangeApplyLosesDateType | src/lib/WiseTable/providers/FilterProvider.tsx:35-46 | as written, setting `dateType` then `date` in one handler leaves no `dateType`, while the calls applied in turn keep both |
| FilterProvider.DateRangeClearKeepsDateType | src/lib/WiseTable/providers/FilterProvider.tsx:48-55 | as written, removing `dateType` then `date` in one handler keeps `dateType`, while the calls applied in turn remove both |
| FilterProvider.SingleCallAgrees | src/lib/WiseTable/providers/FilterProvider.tsx:35-55 | for a single call made while the confirmed filters equal the UI's (nothing waiting for confirmation), the written and the corrected readings hand over the same state |
| FilterProvider.PendingChangeLostAsWritten | src/lib/WiseTable/providers/FilterProvider.tsx:35-55 | as written, a single call made while another filter change waits for confirmation drops that change; the corrected reading keeps it |
| FilterProvider.QuickFilterDropsPending | src/lib/WiseTable/providers/FilterProvider.tsx:61-67 | a quick filter spread over the confirmed filters drops a UI filter that is not yet confirmed, not a default and not in the preset; spread over the UI filters it would keep it |
| FilterProvider.FilterContext.constructor | src/lib/WiseTable/providers/FilterProvider.tsx:17-24 | the provider holds its default filters and the URL state it drives |
| FilterProvider.FilterContext.Current | src/lib/WiseTable/providers/FilterProvider.tsx:27-33 | the current filters, read over the confirmed URL filters, are a well-formed record |
| FilterProvider.FilterContext.DispatchAsWritten | src/lib/WiseTable/providers/FilterProvider.tsx:35-55 | as written, the calls of one handler leave the UI with the state of the last call alone, each built on the confirmed snapshot; with no call nothing is confirmed or armed, otherwise the debounce rule holds against the confirmed state of the render |
| FilterProvider.FilterContext.Dispatch | src/lib/WiseTable/providers/FilterProvider.tsx:35-55 | (corrected reading, Findings row 1) the calls of one handler applied in turn to the filters the UI shows, handed to `setFilters` once with the page reset; a change of search or filters alone keeps the confirmed state and leaves the new one waiting for the 300 ms timer, any other change is confirmed at once; no call changes nothing |
| FilterProvider.FilterContext.UpdateFilter | src/lib/WiseTable/providers/FilterProvider.tsx:35-46 | (corrected reading, Findings row 1) the UI filters become the shown filters with the update applied, and the page goes back to 1; a change of search or filters alone keeps the confirmed state and leaves the new one waiting for the 300 ms timer, any other change is confirmed at once |
| FilterProvider.FilterContext.RemoveFilter | src/lib/WiseTable/providers/FilterProvider.tsx:48-55 | (corrected reading, Findings row 1) the UI filters become the shown filters without the key, and the page goes back to 1; a change of search or filters alone keeps the confirmed state and leaves the new one waiting for the 300 ms timer, any other change is confirmed at once |
| FilterProvider.FilterContext.ApplyQuickFilter | src/lib/WiseTable/providers/FilterProvider.tsx:61-67 | the UI filters become the preset spread over the confirmed `currentFilters` (defaults under the URL filters), and the page goes back to 1; a change of search or filters alone keeps the confirmed state and leaves the new one waiting for the 300 ms timer, any other change is confirmed at once |
| FilterProvider.FilterContext.ClearAllFilters | src/lib/WiseTable/providers/FilterProvider.tsx:57-59 | the URL filters become empty (the defaults are not written), and the page goes back to 1; a change of search or filters alone keeps the confirmed state and leaves the new one waiting for the 300 ms timer, any other change is confirmed at once |
| FilterProvider.FilterContext.UpdateSearch | src/lib/WiseTable/providers/FilterProvider.tsx:69-74 | the search shows at once with page 1 and waits for the debounced confirmation |
| FilterProvider.FilterContext.ClearSearch | src/lib/WiseTable/providers/FilterProvider.tsx:76-78 | the search becomes empty and the page goes back to 1; a change of search or filters alone keeps the confirmed state and leaves the new one waiting for the 300 ms timer, any other change is confirmed at once |
| FilterBar.FindField | src/lib/WiseTable/internal/FilterBar.tsx:50 | the field found has the key and is the first such field; none is found exactly when no field has the key |
| FilterBar.InitialFieldValues | src/lib/WiseTable/internal/FilterBar.tsx:35-41 | the typed field values are reset to exactly the confirmed filters, key by key |
| FilterBar.RangeFromJoined | src/lib/WiseTable/internal/FilterBar.tsx:59-66 | a range stored as `start,end` (neither part holding a comma) splits back into the same start and end |
| FilterBar.GetFieldValue | src/lib/WiseTable/internal/FilterBar.tsx:49-84 | a field that is not a date range shows the confirmed filter, else what was typed, else ''; a date range with a `date` text (confirmed, else typed) shows it split at its comma with the `dateType` text, else what was typed for the field, else an empty range |
| FilterBar.TypedValueShown | src/lib/WiseTable/internal/FilterBar.tsx:79-83 | with no confirmed filter, a field that is not a date range shows what was typed, or '' when nothing was |
| FilterBar.ConfirmedValueShown | src/lib/WiseTable/internal/FilterBar.tsx:79-83 | a confirmed filter value wins over whatever was typed in a field that is not a date range |
| FilterBar.CanApplyByKind | src/lib/WiseTable/internal/FilterBar.tsx:165-190 | a field that does not exist cannot be applied; a boolean always can; a date range exactly when its type, start and end are all non-blank after trimming; a select exactly when its value is neither undefined nor ''; any other field exactly when it shows a text that is non-blank after trimming |
| FilterBar.OpsFor | src/lib/WiseTable/internal/FilterBar.tsx:198-229 | an applicable date range gives two updates, any other field one, under the field's key; no update carries an empty value |
| FilterBar.ApplyFilterOps | src/lib/WiseTable/internal/FilterBar.tsx:165-230 | no update when the field cannot be applied; otherwise two for a date range and one for other kinds, none carrying an empty value |
| FilterBar.ClearFilterOps | src/lib/WiseTable/internal/FilterBar.tsx:232-241 | clearing a date range removes `dateType` then `date`; any other field removes its own key |
| FilterBar.ApplyRangeThenRead | src/lib/WiseTable/internal/FilterBar.tsx:52-66 | a date range applied in one update and then confirmed shows again as the same range |
| FilterBar.ApplyTextThenRead | src/lib/WiseTable/internal/FilterBar.tsx:224-228 | a text or number filter applied and then confirmed shows its trimmed text |
| FilterBar.ClearThenCannotApply | src/lib/WiseTable/internal/FilterBar.tsx:165-190 | once a field is cleared (and emptied) it cannot be applied again until something is typed |
| FilterBar.RangeChip | src/lib/WiseTable/internal/FilterBar.tsx:112-129 | a date-range field contributes at most one chip |
| FilterBar.RangeChips | src/lib/WiseTable/internal/FilterBar.tsx:108-129 | at most one range chip per field, and range chips exist only when both `dateType` and `date` are set |
| FilterBar.KeyChip | src/lib/WiseTable/internal/FilterBar.tsx:132-160 | a filter contributes at most one chip, never for `dateType`, `date` or a key without a field, and the chip carries its key |
| FilterBar.KeyChips | src/lib/WiseTable/internal/FilterBar.tsx:132-160 | at most one chip per filter key, each for a key with a field, none for `dateType` or `date` |
| FilterBar.KeyChipsComplete | src/lib/WiseTable/internal/FilterBar.tsx:132-160 | every filter with a field of its own that is not a date range does get a chip |
| FilterBar.CollectActiveFilters | src/lib/WiseTable/internal/FilterBar.tsx:104-160 | the two loops build the date-range chips first, then the other filters in key order |
| FilterBar.FilterBarState.constructor | src/lib/WiseTable/internal/FilterBar.tsx:31-41 | the fields start as the confirmed filters |
| FilterBar.FilterBarState.ResetFromQuery | src/lib/WiseTable/internal/FilterBar.tsx:35-41 | when the confirmed filters change, whatever was typed is replaced by them |
| FilterBar.FilterBarState.UpdateFieldValue | src/lib/WiseTable/internal/FilterBar.tsx:44-46 | only the given field's typed value changes |
| FilterBar.FilterBarState.ApplyFilter | src/lib/WiseTable/internal/FilterBar.tsx:192-230 | (corrected reading, Findings row 1) nothing changes when the field cannot be applied; otherwise its updates go to the URL state in one call, with the page reset; a change of search or filters alone keeps the confirmed state and leaves the new one waiting for the 300 ms timer, any other change is confirmed at once; the source makes two calls for a date range, the second overwriting the first |
| FilterBar.FilterBarState.ClearFilter | src/lib/WiseTable/internal/FilterBar.tsx:232-244 | (corrected reading, Findings row 1) the filter (both parts of a date range) is removed in one call and the field is emptied; a change of search or filters alone keeps the confirmed state and leaves the new one waiting for the 300 ms timer, any other change is confirmed at once; the source makes two calls, the second overwriting the first |
| WiseTableCore.BaseParams | src/lib/WiseTable/internal/WiseTableCore.tsx:138-142 | the base parameters are exactly page, limit and search of the confirmed state, in that order |
| WiseTableCore.NonEmpty | src/lib/WiseTable/internal/WiseTableCore.tsx:155-157 | `filter` keeps the non-empty days, each as often as it occurs and in their order, and drops the empty ones |
| WiseTableCore.NonEmptyKeepsOrder | src/lib/WiseTable/internal/WiseTableCore.tsx:155-160 | with both days set the start stays before the end, so the join reads `start,end` |
| WiseTableCore.FirstTwo | src/lib/WiseTable/internal/WiseTableCore.tsx:154 | the destructuring takes the first item and the second, undefined when the array has one item |
| WiseTableCore.Cleaned | src/lib/WiseTable/internal/WiseTableCore.tsx:151-165 | an empty value is dropped; a non-empty array is sent as its non-empty first two items joined by a comma, or dropped when none is left; any other value is sent as is |
| WiseTableCore.DateRangeJoined | src/lib/WiseTable/internal/WiseTableCore.tsx:153-160 | a range with both days set is sent as `start,end` |
| WiseTableCore.DateRangeOneSide | src/lib/WiseTable/internal/WiseTableCore.tsx:153-160 | a range with one day set is sent as that day alone |
| WiseTableCore.DateRangeUnset | src/lib/WiseTable/internal/WiseTableCore.tsx:153-160 | a range with no day set is not sent |
| WiseTableCore.CleanedOver | src/lib/WiseTable/internal/WiseTableCore.tsx:148-166 | the cleaned record is well formed and holds only keys of the filters |
| WiseTableCore.CleanedOverAt | src/lib/WiseTable/internal/WiseTableCore.tsx:148-166 | a key is in the cleaned record exactly when its value survives cleaning, and then it holds the cleaned value |
| WiseTableCore.FilteredParams | src/lib/WiseTable/internal/WiseTableCore.tsx:148-166 | the parameters given to the schema form a well-formed record |
| WiseTableCore.FilteredParamsAt | src/lib/WiseTable/internal/WiseTableCore.tsx:148-166 | the schema sees a key exactly when its value survives cleaning, with the cleaned value, and never an empty value |
| WiseTableCore.BuildFilteredParams | src/lib/WiseTable/internal/WiseTableCore.tsx:150-166 | the forEach loop builds exactly the cleaned filters |
| WiseTableCore.AddCleaned | src/lib/WiseTable/internal/WiseTableCore.tsx:150-165 | one call of the forEach callback, with its branches: the record gains the key with the cleaned value when cleaning keeps the value, and is unchanged when cleaning drops it |
| OrderedMaps.SetAll | src/lib/WiseTable/internal/WiseTableCore.tsx:177-182 | the record `Object.fromEntries` builds, each entry set in turn, is well formed |
| WiseTableCore.QueryParams | src/lib/WiseTable/internal/WiseTableCore.tsx:136-196 | a successful build always carries page, limit and search |
| WiseTableCore.NoSchemaPassesFilters | src/lib/WiseTable/internal/WiseTableCore.tsx:191-195 | without a schema every filter is passed on unchanged after page, limit and search, which keep the confirmed values when no filter shadows them |
| WiseTableCore.SchemaSeesCleanedFilters | src/lib/WiseTable/internal/WiseTableCore.tsx:144-189 | with a schema the parse sees exactly the cleaned filters; a failure becomes the error with the prefix written twice, a success puts the parsed values over the base |
| WiseTableCore.Rows | src/lib/WiseTable/internal/WiseTableCore.tsx:201-204 | the rows are the array the hook answered, or its `data` field, or none |
| WiseTableCore.ServerPagination | src/lib/WiseTable/internal/WiseTableCore.tsx:205-216 | only an object answer carries pagination, and it is passed on as is |
| WiseTableCore.FallbackPagination | src/lib/WiseTable/internal/WiseTableCore.tsx:298-309 | without server pagination the footer gets the UI page and limit, the row count, and at least one page, exactly enough pages for the rows |
| WiseTableCore.FooterPagination | src/lib/WiseTable/internal/WiseTableCore.tsx:297-310 | the server's pagination when there is one, else the fallback built from the rows |
| WiseTableCore.FallbackCoversRows | src/lib/WiseTable/internal/WiseTableCore.tsx:298-309 | without server pagination every row lies on a listed page and the last page is not empty |
| WiseTableCore.SpinnerMessage | src/lib/WiseTable/internal/WiseTableCore.tsx:321-329 | the message names creating over updating over deleting, and is 'Loading...' exactly when none of them runs |
| WiseTableCore.SpinnerDuringMutations | src/lib/WiseTable/internal/WiseTableCore.tsx:319-329 | while a mutation runs the spinner shows and names it; the plain loading message shows only while a query loads |
| TableFooter.CeilDiv | src/lib/WiseTable/internal/WiseTableCore.tsx:304-307 | `Math.ceil(n / d)`: the least number of size-`d` pages that hold `n` items |
| TableFooter.FirstPages | src/lib/WiseTable/internal/TableFooter.tsx:34-36 | with up to five pages the list is 1..totalPages, and empty for a negative count |
| TableFooter.PageItems | src/lib/WiseTable/internal/TableFooter.tsx:29-70 | the pushes onto the array build exactly the page list the footer draws |
| TableFooter.Numbers | src/lib/WiseTable/internal/TableFooter.tsx:107-134 | the page buttons are at most the list's entries |
| TableFooter.NumbersAppend | src/lib/WiseTable/internal/TableFooter.tsx:38-67 | the page numbers of a list built in two parts are those of the parts in order |
| TableFooter.NumbersOfParts | src/lib/WiseTable/internal/TableFooter.tsx:38-67 | the page numbers of the five pushed parts are those of the parts in order |
| TableFooter.Range | src/lib/WiseTable/internal/TableFooter.tsx:53-57 | the consecutive pages from `lo` to `hi` |
| TableFooter.MiddleNumbers | src/lib/WiseTable/internal/TableFooter.tsx:52-57 | away from the first and last page the window loop pushes every page `lo..hi`, and only page numbers |
| TableFooter.MiddleAt | src/lib/WiseTable/internal/TableFooter.tsx:53-57 | the k-th window entry is page `lo + k` |
| TableFooter.NoPaginationOnePage | src/lib/WiseTable/internal/TableFooter.tsx:30 | without pagination the list is the single page 1 |
| TableFooter.FewPagesAllListed | src/lib/WiseTable/internal/TableFooter.tsx:34-36 | up to five pages are all listed, in order, without ellipses |
| TableFooter.ManyPagesShape | src/lib/WiseTable/internal/TableFooter.tsx:38-69 | with more than five pages the list starts at 1 and ends at the last page, its numbers are 1, the window and the last page, strictly increasing and within 1..totalPages |
| TableFooter.EllipsesAndCurrent | src/lib/WiseTable/internal/TableFooter.tsx:44-62 | an ellipsis follows page 1 exactly when the window starts after 2, one precedes the last page exactly when it ends before the one but last, and the current page is listed |
| TableFooter.NavigationRules | src/lib/WiseTable/internal/TableFooter.tsx:94-170 | with unsaved edits every navigation control is disabled; without them Previous and Next are enabled exactly strictly inside 1..totalPages |
| TableFooter.NoPaginationRules | src/lib/WiseTable/internal/TableFooter.tsx:94-170 | without pagination Previous, Next and the size selector are disabled and the page buttons are not |
| TableFooter.RecordCount | src/lib/WiseTable/internal/TableFooter.tsx:77-81 | the count is the pagination total, else the row count, else 0 |
| TableFooter.SelectedPageSize | src/lib/WiseTable/internal/TableFooter.tsx:166 | the selected page size is the pagination's, and 25 without pagination |
| TableActions.Pick | src/lib/WiseTable/internal/TableActions.tsx:101-103 | one field of an object spread: a field the override gives wins, even when it is given as undefined; a missing one keeps the default |
| TableActions.Merge | src/lib/WiseTable/internal/TableActions.tsx:101-103 | spreading an undefined override leaves the defaults as they are |
| TableActions.MergeFieldwise | src/lib/WiseTable/internal/TableActions.tsx:101-103 | every field the override gives replaces the default, and every other field keeps it |
| TableActions.EmptyOverrideKeepsDefaults | src/lib/WiseTable/internal/TableActions.tsx:101-103 | an override with no fields at all is the same as no override |
| TableActions.OnlyTrueSetsFlag | src/lib/WiseTable/internal/TableActions.tsx:106-115 | a literal `hidden`/`disabled` counts only when it is the boolean true: not 'true', not 1, not undefined |
| TableActions.DefaultRules | src/lib/WiseTable/internal/TableActions.tsx:63-98 | with the defaults, create is disabled exactly while there are unsaved edits and save exactly while there are none, delete exactly while nothing is selected, and each button is drawn exactly when its mutation exists |
| TableActions.UndefinedDisabledEnables | src/lib/WiseTable/internal/TableActions.tsx:101-115 | overriding `disabled` with undefined enables the button whatever the default rule says |
| TableActions.SaveLabel | src/lib/WiseTable/internal/TableActions.tsx:117-120 | the save text gains the dirty-row count in parentheses exactly while there are unsaved edits |
| TableActions.DeleteLabel | src/lib/WiseTable/internal/TableActions.tsx:122-126 | the delete text gains the selected count in parentheses once something is selected |
| TableActions.CountedLabelsDiffer | src/lib/WiseTable/internal/TableActions.tsx:117-126 | two counted save (or delete) labels are equal only for equal counts, so the label always tells the count |
| TableActions.DeleteTitle | src/lib/WiseTable/internal/TableActions.tsx:128-132 | the tooltip asks to select items when nothing is selected, and otherwise names the selected count |
| TableActions.DeleteTitlePlural | src/lib/WiseTable/internal/TableActions.tsx:132 | one selected item is singular, more are plural |
| TableActions.CustomVariant | src/lib/WiseTable/internal/TableActions.tsx:187 | a custom button without a variant is drawn as secondary |
| TableActions.CustomSize | src/lib/WiseTable/internal/TableActions.tsx:188 | a custom button without a size is drawn medium |
| TableActions.VisibleCustom | src/lib/WiseTable/internal/TableActions.tsx:182-197 | exactly the custom buttons that are not hidden are drawn, in their order and each as often as it occurs |
| SearchableSelect.Filtered | src/lib/WiseTable/ui/SearchableSelect.tsx:62-67 | with no search term (or searching off) every option is listed; otherwise exactly the options whose label contains the term, ignoring case, each as often as it occurs and in option order |
| SearchableSelect.MatchingOptions | src/lib/WiseTable/ui/SearchableSelect.tsx:64-66 | the result is a subsequence of the options holding every option whose label contains the term, ignoring case, as often as it occurs, and no other |
| SearchableSelect.SelectedOptions | src/lib/WiseTable/ui/SearchableSelect.tsx:69-71 | the result is a subsequence of the options holding, as often as it occurs, every option whose value is the single value or is in the array of a multiple selection, and no other |
| SearchableSelect.Without | src/lib/WiseTable/ui/SearchableSelect.tsx:122 | the array loses every copy of the value and nothing else: the other values stay in their order, each as often as it occurs |
| SearchableSelect.Toggled | src/lib/WiseTable/ui/SearchableSelect.tsx:120-123 | choosing a value flips whether it is selected and leaves every other value's membership alone; a new value goes at the end |
| SearchableSelect.WithoutAbsent | src/lib/WiseTable/ui/SearchableSelect.tsx:122 | removing a value that is not there changes nothing |
| SearchableSelect.WithoutAppended | src/lib/WiseTable/ui/SearchableSelect.tsx:121-123 | removing the value just appended gives back the array |
| SearchableSelect.ToggleTwice | src/lib/WiseTable/ui/SearchableSelect.tsx:118-131 | choosing a value not yet selected and then choosing it again restores the selection exactly |
| SearchableSelect.ToggleRemoves | src/lib/WiseTable/ui/SearchableSelect.tsx:120-123 | choosing a selected value removes it and keeps the rest in order, and a further new value is appended after them |
| SearchableSelect.FindIndex | src/lib/WiseTable/ui/SearchableSelect.tsx:198-200 | `findIndex`: the first position of an option with the value, or -1 exactly when none has it |
| SearchableSelect.PositionBadgeSafelisted | src/lib/WiseTable/ui/SearchableSelect.tsx:237-242 | an option without its own badge is drawn in a colour pair from the class safelist |
| SearchableSelect.FocusDown | src/lib/WiseTable/ui/SearchableSelect.tsx:142-144 | ArrowDown moves the focus one down, never past the last option |
| SearchableSelect.FocusUp | src/lib/WiseTable/ui/SearchableSelect.tsx:149 | ArrowUp moves the focus one up, never above the first option |
| SearchableSelect.EnterAction | src/lib/WiseTable/ui/SearchableSelect.tsx:151-158 | Enter chooses the focused option exactly when the panel is open and the focus is on an existing option, and otherwise toggles the panel; it never throws |
| SearchableSelect.EnterAgreesUnlessCrash | src/lib/WiseTable/ui/SearchableSelect.tsx:151-158 | as written Enter throws exactly when the panel is open and the focus is past the end of the list, and otherwise does the same as the checked Enter |
| SearchableSelect.ArrowUpThenEnterOnEmptyCrashes | src/lib/WiseTable/ui/SearchableSelect.tsx:137-158 | on a select without a search box and without options, ArrowDown opens the panel, ArrowUp moves the focus to 0, and Enter then reads past the empty list as written |
| SearchableSelect.ShrunkOptionsThenEnterCrashes | src/lib/WiseTable/ui/SearchableSelect.tsx:137-158 | a focus moved onto the third of three options is kept when the `options` prop shrinks to one, and Enter then throws as written |
| SearchableSelect.SelectBox.constructor | src/lib/WiseTable/ui/SearchableSelect.tsx:50-52 | a select starts closed, with no search term and no focus |
| SearchableSelect.SelectBox.Visible | src/lib/WiseTable/ui/SearchableSelect.tsx:62-67 | the options the panel lists are the filtered options for the current search term |
| SearchableSelect.SelectBox.Select | src/lib/WiseTable/ui/SearchableSelect.tsx:118-131 | a multiple select reports the toggled array and stays open; a single select reports the value, closes, clears the search and reports the blur |
| SearchableSelect.SelectBox.KeyDown | src/lib/WiseTable/ui/SearchableSelect.tsx:133-168 | (corrected reading, Findings row 2) a disabled select ignores keys; ArrowDown opens or moves down, ArrowUp moves up, Enter chooses an existing focused option or toggles, Escape closes, clears and blurs, Tab closes, other keys do nothing; the source throws on Enter past the end |
| SearchableSelect.SelectBox.TypeSearch | src/lib/WiseTable/ui/SearchableSelect.tsx:296 | typing sets the search term and leaves the focus where it was |
| SearchableSelect.SelectBox.ClickTrigger | src/lib/WiseTable/ui/SearchableSelect.tsx:266 | a click on the trigger toggles the panel unless the select is disabled |
| SearchableSelect.SelectBox.ClickOutside | src/lib/WiseTable/ui/SearchableSelect.tsx:73-88 | a mouse-down outside closes the panel, clears the search and reports the blur |
| CurrencyUtils.NoDotAllDigits | src/lib/WiseTable/utils/currencyUtils.ts:62 | a text of digits and dots holds no dot exactly when it is all digits |
| CurrencyUtils.AfterSignShape | src/lib/WiseTable/utils/currencyUtils.ts:62 | after the optional sign the pattern accepts exactly the texts of digits and dots with at most one dot |
| CurrencyUtils.PatternIsShape | src/lib/WiseTable/utils/currencyUtils.ts:57-64 | the validator's pattern accepts exactly the texts of digits and dots with at most one dot and a sign allowed only first |
| CurrencyUtils.ValidatorExamples | src/lib/WiseTable/utils/currencyUtils.ts:57-64 | '', '-', '+12.5', '.' and '12.' are accepted; '1.2.3', '1,000' and '1-2' are rejected |
| CurrencyUtils.Cleaned | src/lib/WiseTable/utils/currencyUtils.ts:48 | the cleaned text is no longer than the input and holds only digits, signs and dots |
| CurrencyUtils.CleanedKeepsKept | src/lib/WiseTable/utils/currencyUtils.ts:48 | a text of digits, signs and dots is left unchanged by cleaning |
| CurrencyUtils.ValidInputIsClean | src/lib/WiseTable/utils/currencyUtils.ts:48-63 | every input the validator accepts passes through cleaning unchanged |
| CurrencyUtils.CleanedIdempotent | src/lib/WiseTable/utils/currencyUtils.ts:48 | cleaning twice is cleaning once |
| CurrencyUtils.ParseCurrencyInput | src/lib/WiseTable/utils/currencyUtils.ts:42-52 | a blank input parses to 0; any other input parses as `parseFloat` of its cleaned text, 0 when that is NaN |
| CurrencyUtils.ParseSeesCleanedText | src/lib/WiseTable/utils/currencyUtils.ts:42-52 | parsing an input and parsing its cleaned text give the same amount whenever something is left after cleaning |
| CurrencyUtils.CleanedHasNoSpace | src/lib/WiseTable/utils/currencyUtils.ts:43-48 | an input that keeps something after cleaning is not blank |
| CurrencyUtils.FormatCurrencyForEditing | src/lib/WiseTable/utils/currencyUtils.ts:69-82 | null, undefined, '' and NaN give ''; a text that parses to NaN gives ''; a number, or a text's parsed number, is shown by `String` |
| TableStore.LookupAfterSet | src/lib/WiseTable/providers/TableStoreProvider.tsx:16-19 | reading a key just set gives the value set, and every other key reads as before |
| TableStore.LookupEmpty | src/lib/WiseTable/providers/TableStoreProvider.tsx:20-22 | an emptied store reads undefined at every key |
| TableStore.Store.constructor | src/lib/WiseTable/providers/TableStoreProvider.tsx:12 | the store starts as the empty record |
| TableStore.Store.Get | src/lib/WiseTable/providers/TableStoreProvider.tsx:16 | a key never set reads undefined, a set key its value |
| TableStore.Store.Set | src/lib/WiseTable/providers/TableStoreProvider.tsx:17-19 | the key now reads the value and every other key is unchanged |
| TableStore.Store.Clear | src/lib/WiseTable/providers/TableStoreProvider.tsx:20-22 | every key reads undefined afterwards |
| LoadingState.NothingLoading | src/lib/WiseTable/providers/LoadingStateProvider.tsx:18 | nothing is loading exactly when all four flags are down |
| LoadingState.LoadingStore.constructor | src/lib/WiseTable/providers/LoadingStateProvider.tsx:12-15 | all four flags start down, so nothing is loading |
| LoadingState.LoadingStore.Flags | src/lib/WiseTable/providers/LoadingStateProvider.tsx:17-30 | the context value carries the four stored flags as they are |
| LoadingState.LoadingStore.SetQuerying | src/lib/WiseTable/providers/LoadingStateProvider.tsx:12 | only the querying flag changes |
| LoadingState.LoadingStore.SetCreating | src/lib/WiseTable/providers/LoadingStateProvider.tsx:13 | only the creating flag changes, and once up something is loading |
| LoadingState.LoadingStore.SetUpdating | src/lib/WiseTable/providers/LoadingStateProvider.tsx:14 | only the updating flag changes, and once up something is loading |
| LoadingState.LoadingStore.SetDeleting | src/lib/WiseTable/providers/LoadingStateProvider.tsx:15 | only the deleting flag changes, and once up something is loading |
| UiProvider.UiStore.constructor | src/lib/WiseTable/providers/UIProvider.tsx:18-23 | no modal is shown at first and the layout starts as `defaultCompact` |
| UiProvider.UiStore.OpenCreateModal | src/lib/WiseTable/providers/UIProvider.tsx:25 | the create modal is shown and nothing else changes |
| UiProvider.UiStore.CloseCreateModal | src/lib/WiseTable/providers/UIProvider.tsx:26 | the create modal is hidden and nothing else changes |
| UiProvider.UiStore.OpenUpdateModal | src/lib/WiseTable/providers/UIProvider.tsx:27 | the update modal is shown and nothing else changes |
| UiProvider.UiStore.CloseUpdateModal | src/lib/WiseTable/providers/UIProvider.tsx:28 | the update modal is hidden and nothing else changes |
| UiProvider.UiStore.OpenDeleteModal | src/lib/WiseTable/providers/UIProvider.tsx:29 | the delete modal is shown and nothing else changes |
| UiProvider.UiStore.CloseDeleteModal | src/lib/WiseTable/providers/UIProvider.tsx:30 | the delete modal is hidden and nothing else changes |
| UiProvider.UiStore.SetCompact | src/lib/WiseTable/providers/UIProvider.tsx:23 | only the compact switch changes |
| WiseTableHook.OnCreateModal | src/lib/WiseTable/hooks/useWiseTable.ts:227-229 | the create dialog opens when creation is possible, and nothing else changes |
| WiseTableHook.OnUpdateSelected | src/lib/WiseTable/hooks/useWiseTable.ts:231-233 | only the update dialog opens |
| WiseTableHook.OnDeleteSelected | src/lib/WiseTable/hooks/useWiseTable.ts:235-237 | only the delete dialog opens |
| TableTypes.UseCRUDActions | src/lib/WiseTable/hooks/useWiseTable.ts:155-168 | outside any provider no CRUD hook is configured; inside, the provider's actions are returned |
| TableTypes.UseEditingContext | src/lib/WiseTable/hooks/useWiseTable.ts:171-177 | outside the provider the hook fails with its fixed message; inside, it returns the provider's value |
| MockQuery.SearchTerm | example/mock/server.ts:149-150 | a search term applies only when `filters.search` is a non-empty string |
| MockQuery.DateBound | example/mock/server.ts:159-161 | a key names a date bound exactly when it starts with `start_` or `end_`, and the field is the key without that prefix |
| MockQuery.RangeBound | example/mock/server.ts:177-196 | a bound key is tried as `min_x`, `max_x`, `minX`, `maxX` in that order, gives a non-empty field (first letter lowered in the camel-case forms), and is a minimum only for a key starting with `min` |
| MockQuery.KeepRecord | example/mock/server.ts:147-240 | the filter callback, with its early returns in each loop, keeps a record exactly when it passes the search and every entry's date, number and scalar tests |
| MockQuery.EveryEntryPasses | example/mock/server.ts:158-238 | one of the three loops over the filter entries returns early with false at the first entry that fails its test, and otherwise passes: the result is true exactly when every entry passes |
| MockQuery.Filtered | example/mock/server.ts:147 | the filtered records are the records that pass, in stored order and each as often as it occurs |
| MockQuery.FilterRecords | example/mock/server.ts:147-240 | the loop over the records keeps exactly the filtered records, in order |
| MockQuery.FilteredMembers | example/mock/server.ts:147-240 | a record is kept exactly when it is stored and passes the filters |
| MockQuery.FilteredKeepsAll | example/mock/server.ts:147-240 | when every record passes, all are kept in their stored order |
| MockQuery.NoFiltersKeepAll | example/mock/server.ts:143-240 | a fetch without filters keeps every record |
| MockQuery.SearchOnly | example/mock/server.ts:149-155 | a search alone keeps exactly the records with a string field containing the term, ignoring case |
| MockQuery.ScalarOnly | example/mock/server.ts:209-237 | one ordinary filter alone: a string field must contain its text ignoring case, a number field equal `Number(v)`, a boolean field equal the value read as a boolean, anything else be `===` |
| MockQuery.EmptyValueIgnored | example/mock/server.ts:222 | a nullish or empty value under an ordinary key filters nothing |
| MockQuery.MoreFiltersKeepFewer | example/mock/server.ts:147-240 | adding a filter other than the search never lets more records through |
| MockQuery.StrLessIrreflexive | example/mock/server.ts:250 | no string is below itself under `<` |
| MockQuery.StrLessAsymmetric | example/mock/server.ts:250 | two strings are never each below the other |
| MockQuery.StrLessTotal | example/mock/server.ts:250 | of two different strings one is below the other |
| MockQuery.StrLessTransitive | example/mock/server.ts:250 | string `<` is transitive |
| MockQuery.Compare | example/mock/server.ts:244-252 | the comparator returns -1, 0 or 1 |
| MockQuery.JsLessLaws | example/mock/server.ts:250 | on two values of one kind `<` is irreflexive, asymmetric and total |
| MockQuery.JsLessTransitive | example/mock/server.ts:250 | on values of one kind `<` is transitive |
| MockQuery.CompareOrders | example/mock/server.ts:244-252 | a comparator result of at most 0 puts the first value before the second, a positive one the second before the first |
| MockQuery.BeforeTransitive | example/mock/server.ts:244-252 | the order the comparator sorts by is transitive |
| MockQuery.Insert | example/mock/server.ts:244-252 | one insertion step adds exactly the one row |
| MockQuery.SortRows | example/mock/server.ts:243-253 | sorting is a permutation of the rows |
| MockQuery.InsertInFront | example/mock/server.ts:244-252 | a row the comparator puts before the head of a sorted list goes in front and keeps it sorted |
| MockQuery.HeadBeforeRest | example/mock/server.ts:244-252 | a sorted rest after a head that precedes every row is sorted |
| MockQuery.InsertSorted | example/mock/server.ts:244-252 | inserting into a sorted list keeps it sorted |
| MockQuery.SortRowsSorted | example/mock/server.ts:243-253 | sorting rows whose keys can be ranked puts every pair in comparator order |
| MockQuery.SortOrder | example/mock/server.ts:243-253 | the sort neither loses nor duplicates a row, puts rows whose field is null or missing after all others, and orders number fields as asked |
| MockQuery.SliceIndex | example/mock/server.ts:259 | the index `slice` uses always lies within the sequence, and an index within it is used as is |
| MockQuery.JsSlice | example/mock/server.ts:259 | `slice(start, end)` for start at most end is the part between them, clamped to the length |
| MockQuery.FetchOf | example/mock/server.ts:138-268 | the answer carries the requested (or default) page and page size, and the number of records that passed as the total |
| MockQuery.PageSlice | example/mock/server.ts:255-259 | `ceil(total / pageSize)` pages hold every row and the last is not empty; a page within range is a full slice unless last; a page past the end is empty |
| MockQuery.OrderedLength | example/mock/server.ts:242-255 | sorting keeps the number of rows that passed |
| MockQuery.FetchPaging | example/mock/server.ts:255-268 | the pages of a fetch hold every row that passed, each page the rows at `[(page−1)·pageSize, page·pageSize)`, a page past the end none |
| MockQuery.SliceAt | example/mock/server.ts:257-259 | position `i` of a sequence is on page `i / pageSize + 1` at position `i % pageSize` |
| MockQuery.PageOfIndex | example/mock/server.ts:257-258 | index `i` lies in the range `[startIndex, endIndex)` of page `i / pageSize + 1` |
| MockQuery.RowOnItsPage | example/mock/server.ts:255-259 | the page asked for holds every row that passed whose index lies in its range, at its offset from `startIndex` |
| MockQuery.FetchDefaults | example/mock/server.ts:138-144 | a request with no parameters answers page 1 of 50 over all records in stored order |
| BadgeColors.ColorIndex | src/lib/WiseTable/utils/badgeColors.ts:45-55 | for every index >= 0 the shuffled hue `(13 + (index % 17) * 5) % 17` lies in 0..16 |
| BadgeColors.IntensityIndex | src/lib/WiseTable/utils/badgeColors.ts:58 | for every index >= 0 the intensity `floor(index / 17) % 8` lies in 0..7 |
| BadgeColors.GetBadgeColorFrom | src/lib/WiseTable/utils/badgeColors.ts:78-87 | the explicit generator yields `bg-{color}-…` and `text-{color}-…` classes |
| BadgeColors.LevelTexts | src/lib/WiseTable/utils/badgeColors.ts:35-37 | the eight intensity levels are 800 down to 100, and the text level is 800 exactly for the lighter half (400 and below) |
| BadgeColors.SafelistIsGrid | src/lib/WiseTable/utils/badgeColors.ts:90-235 | the safelist has 136 entries, block by intensity from 800 to 100 and hue by hue inside each block, entry `t * 17 + c` being `bg-{hue c}-{level t} text-{hue c}-{text level}` |
| BadgeColors.ShuffleInverse | src/lib/WiseTable/utils/badgeColors.ts:51-55 | stride 5 is coprime to 17: the shuffle of 0..16 is undone by multiplying by 7 (the inverse of 5 modulo 17) after removing the offset |
| BadgeColors.ShuffleOnto | src/lib/WiseTable/utils/badgeColors.ts:51-55 | every one of the 17 hues is reached by some index in 0..16, so the shuffle is a bijection |
| BadgeColors.IndexRecovered | src/lib/WiseTable/utils/badgeColors.ts:54-58 | for indices 0..135 the index is recovered from its intensity and its unshuffled hue |
| BadgeColors.SafelistPositionInjective | src/lib/WiseTable/utils/badgeColors.ts:54-58 | two different indices below 136 land on different safelist positions, so the first 136 indices all get different schemes |
| BadgeColors.SchemePeriodic | src/lib/WiseTable/utils/badgeColors.ts:3-5 | the scheme is a function of the index alone and repeats with period 17 x 8 = 136 |
| BadgeColors.PeriodicIndices | src/lib/WiseTable/utils/badgeColors.ts:54-58 | index and index + 136 pick the same hue and the same intensity |
| BadgeColors.FirstScheme | src/lib/WiseTable/utils/badgeColors.ts:50-66 | index 0 gives `bg-red-800` with `text-red-100` |
| BadgeColors.SchemeSpelt | src/lib/WiseTable/utils/badgeColors.ts:60-67 | the scheme of an index is `bg-{hue}-{level}` and `text-{hue}-{800 or 100}`, spelt out with the literal level digits |
| BadgeColors.SchemeInSafelist | src/lib/WiseTable/utils/badgeColors.ts:89-235 | for every index >= 0, "bg text" of its scheme is an entry of the safelist, at the position of its intensity block and hue |
| BadgeColors.TextContrast | src/lib/WiseTable/utils/badgeColors.ts:62 | the text intensity is 800 when the background intensity is at most 400, else 100 |
| BadgeColors.SchemeFromParts | src/lib/WiseTable/utils/badgeColors.ts:71-87 | `getBadgeColor(i)` equals `getBadgeColorFrom` applied to the hue and intensity index `i` picks, so both generators use the same contrast rule |
| MockServer.Stamped | example/mock/server.ts:283-289 | one new record per input item |
| MockServer.StampedIds | example/mock/server.ts:283-289 | the new records are numbered `nextId, nextId + 1, …` in input order and keep every other field |
| MockServer.CreateKeepsIds | example/mock/server.ts:283-292 | after a create the ids are still distinct numbers from 1 below the advanced `nextId` |
| MockServer.IdsOf | example/mock/server.ts:324 | the id column of every record, in record order |
| MockServer.FindIndex | example/mock/server.ts:323-325 | `findIndex` with `===`: the first record whose id is the same value, or none exactly when no record has it |
| MockServer.ApplyUpdate | example/mock/server.ts:323-329 | an update never changes the number of records |
| MockServer.ApplyUpdates | example/mock/server.ts:322-330 | the updates keep the number of records and report at most one record per update |
| MockServer.UpdateOne | example/mock/server.ts:323-329 | one update is a shallow merge into the first record with its id, which takes every given field and keeps the others; every other record is untouched; a missing id changes and reports nothing |
| MockServer.UpdateKeepsIdsOf | example/mock/server.ts:322-330 | updates whose data leaves the id column alone keep every record's id in place |
| MockServer.CountFound | example/mock/server.ts:322-330 | at most one found record per update |
| MockServer.UpdateCount | example/mock/server.ts:322-336 | such updates report exactly one merged record for each update whose id is in the table |
| MockServer.UpdateKeepsIds | example/mock/server.ts:322-330 | such updates keep the ids distinct numbers below `nextId` |
| MockServer.WithoutIds | example/mock/server.ts:355-357 | the records left are those whose id is not listed, in stored order and each as often as it occurs |
| MockServer.DeleteMembers | example/mock/server.ts:355-357 | delete removes exactly the records whose id is listed |
| MockServer.DeleteKeepsIds | example/mock/server.ts:355-357 | after a delete the ids are still distinct numbers below `nextId` |
| MockServer.DeleteNothing | example/mock/server.ts:355-357 | deleting an empty list of ids keeps every record, in order |
| MockServer.SeedReason | example/mock/server.ts:382 | the seed's reason is never empty: the caller's non-empty reason, else 'Database seeding' |
| MockServer.MockServer.constructor | example/mock/server.ts:49-71 | a new server over an empty database: no records, numbering at 1, no last operation, both timestamps the clock reading |
| MockServer.MockServer.Fetch | example/mock/server.ts:132-270 | a fetch answers exactly the filtered, sorted, sliced page of the stored records, and changes nothing |
| MockServer.MockServer.Create | example/mock/server.ts:275-305 | the new records, numbered from `nextId`, are appended and returned, `nextId` advances by their number, and the operation is recorded |
| MockServer.MockServer.Update | example/mock/server.ts:311-343 | the updates are merged in turn, the merged records returned and counted in the recorded operation; ids stay valid when no update touches the id column |
| MockServer.MockServer.Delete | example/mock/server.ts:348-369 | the records with listed ids are dropped and the recorded count is how many fewer there are |
| MockServer.MockServer.SeedAsWritten | example/mock/server.ts:374-393 | as written, seeding keeps the old records and goes on numbering from `nextId`, recorded as a seed |
| MockServer.MockServer.Seed | example/mock/server.ts:374-393 | seeding empties the table, restarts numbering at 1 and creates the records, recorded as a seed |
| MockServer.MockServer.Clear | example/mock/server.ts:398-406 | no records remain and numbering restarts at 1 |
| MockServer.MockServer.GetStats | example/mock/server.ts:411-419 | the statistics report the number of records and the time of the last save |
| MockServer.SeedAsWrittenKeepsRecords | example/mock/server.ts:374-393 | as written, seeding one record into a table holding one leaves two records and numbers the seeded one 2 |
| MockServer.SeedStartsOver | example/mock/server.ts:374-393 | the same seed as intended leaves one record, numbered 1 |

## Left out

- Rendering, JSX, styling, portals, focus handling, DOM listeners and the error-state view are not modelled. Only the state and the decisions behind what is drawn are. A closed confirmation modal draws nothing, and that is not modelled either. The `alert` that the confirmation modal and the bulk-update form show for a blank required reason (src/lib/WiseTable/ui/ConfirmModal.tsx:34, src/lib/WiseTable/modals/UpdateSelectedModal.tsx:42) is not modelled; the model keeps only the refusal.
- React's scheduling is not modelled. Each handler reads one render's snapshot, and the model makes that snapshot explicit.
- Timers: the 300 ms URL confirmation and the debounced search are pending slots. A method fires each slot. Elapsed time is not modelled.
- `useDebouncedCallback` is modelled only through those pending slots.
- The `onBlur` callback of an editable cell is modelled as always present, as a `Blurred` event.
- CellFormat.FormatCellValue: plain-object cells, shown through `JSON.stringify` or as '[Object]' (formatCellValue.ts:38-45), are not modelled, because `Value` has no plain objects. Non-integer numbers (`toFixed(2)`) are not modelled either.
- Floating point is not modelled. Numbers are integers or reals, and `Number`, `parseFloat`, `toFixed` and `Intl.NumberFormat` are oracles passed as parameters. So `formatCurrency`'s locale output is an oracle too.
- NaN and ±0 under `===` are not modelled. `ids.includes` uses SameValueZero, and the model compares ids by value.
- Values.SameValue: two Date values with the same fields count as the same value. `Object.is` and `===` compare Date objects by identity, and the model's dates carry no identity.
- Dates: `new Date`, `String(date)` and date-fns formatting and parsing are a `DateLib` parameter. The only concrete format is `yyyy-MM-dd`.
- Strings are sequences of code points, not UTF-16 code units.
- `toLowerCase` is modelled for ASCII letters only.
- The order of integer-like keys in JavaScript objects is not modelled. Records keep plain insertion order.
- TableStore.Lookup: `storeRef.current[key]` on a plain `{}` also reads inherited members, such as `toString` or `__proto__`. The model's store holds only the keys that were set, so such keys read as undefined.
- UrlState.OnlySearchOrFiltersChanged: the source compares the two filter records through `JSON.stringify`, and the model compares the records for equality. The two differ where `JSON.stringify` drops undefined values, where arrays equal by content have different identities, and on Dates.
- UrlState.DebouncingIffWaiting: `isDebouncing` (URLStateProvider.tsx:223-224) also compares through `JSON.stringify`, while the model's `Debouncing` compares the states for equality, with the same differences as above.
- The `Object.keys` order of a dirty row's changed fields is not modelled. They are a set.
- Reading a Zod schema's `_def` is abstracted as `UpdateSchema.shape`, a list of fields with their checks.
- A query-schema failure gets the prefix `Query schema validation failed: ` twice, once where the parse fails (WiseTableCore.tsx:173) and again where the rethrown error is caught (WiseTableCore.tsx:186). The model writes both copies, as the code does.
- The mock server's `localStorage` and JSON persistence is not modelled. The constructor starts with an empty table.
- The mock server's "Database not found" throws, `getStats`' 'Never' branch and `simulateDelay` are not modelled.
- MockServer.MockServer.Fetch: a page size below 1 is excluded by its requires. With page size 0, server.ts:256-259 does not fail. `Math.ceil(total / 0)` gives `Infinity` total pages, or `NaN` when there are no records, and the slice from 0 to 0 is an empty page. The model's integers have no `Infinity` or `NaN`. Callers never pass such a size: the table's limit comes from the URL state, which clamps it to at least 1.
- MockServer.MockServer.Update: keeps `Valid()` only when no update touches the id column.
- MockServer.MockServer.Create: the operation timestamp and the `updatedAt` that saving writes both come from one `now` parameter, where the source reads the clock twice; the same holds for Update and Delete.
- MockQuery.Compare: JavaScript's `<` between values of different kinds is treated as unordered.
- MockQuery.Compare: server.ts:248 answers 1 both for (null, undefined) and for (undefined, null), so the comparator is inconsistent on that pair. How a row whose field is null and a row without the field end up ordered against each other then depends on the engine's sort; the model's insertion sort fixes one such order.
- MockQuery.SortRows: the sort is modelled as a stable insertion sort on a sequence. The source sorts with `Array.prototype.sort`, which is also stable; its algorithm and its in-place update are not modelled.
- Array-valued filters come back from the URL as comma-joined text, because `parseURLState` never splits them. The model follows the code.
- The filter bar shows a URL value in preference to what was typed, as the code does.
- A number filter read back from the URL as a number cannot be applied again from the bar, because the bar only applies text.
- The `dateType` and `date` keys are special in the filter bar even for a caller's field with one of those names. This is modelled as written.
- The delete dialog passes the raw reason text to the mutation, as the code does.
- `FieldOptions` and `useOptions`, which load a select's options asynchronously, are not modelled.

## Findings

| source | as written | input that shows it | evidently intended | confidence | as-written member | corrected member |
|---|---|---|---|---|---|---|
| src/lib/WiseTable/providers/FilterProvider.tsx:35-55 | `updateFilter` and `removeFilter` start from the confirmed filters of the handler's render. So two calls in one handler overwrite each other, and the confirmed filters lag the UI by the 300 ms debounce. | Apply a date range with no `dateType` set yet: the calls are `updateFilter('dateType', t)` then `updateFilter('date', r)`, and only `date` remains. Clear it: the calls are `removeFilter('dateType')` then `removeFilter('date')`, and `dateType` remains. | Each call builds on the UI filters left by the call before it. | not executed | FilterProvider.DateRangeApplyLosesDateType | FilterProvider.FilterContext.Dispatch |
| src/lib/WiseTable/ui/SearchableSelect.tsx:151-158 | Enter on an open list reads `filteredOptions[focusedIndex].value` whenever `focusedIndex >= 0`, without checking it against the list length. | On a select without a search box (`searchable={false}`) and with no options, press ArrowDown (the panel opens), ArrowUp (focus becomes 0), then Enter: a TypeError. Or focus the third of three options with ArrowDown, let the `options` prop shrink to one option, and press Enter. Keys only reach the handler on the trigger, so on a searchable select, keys typed in the search box never get there. | Enter selects only a focused option that exists. Otherwise it behaves as with no focus. | not executed | SearchableSelect.ArrowUpThenEnterOnEmptyCrashes | SearchableSelect.EnterAgreesUnlessCrash |
| src/lib/WiseTable/internal/EditableCell.tsx:175 | The cell shows `modifiedValue ?? value`. A cleared cell is stored as `null`, so the display falls back to the original. | Clear a text cell holding "Kim" and commit it. The row is dirty with `null`, the cell still shows "Kim", and saving sends `null`. | The cell shows the dirty value whenever the row has one for that column, null included. | not executed | EditableCell.ClearedCellShowsOldValue | EditableCell.DisplayedValue |
| src/lib/WiseTable/providers/URLStateProvider.tsx:16-17 | The page is `Math.max(1, Number(sp.get('page') \|\| '1'))`, and the limit is read the same way. A non-numeric parameter gives NaN, which `Math.max` passes through. | `?page=abc` gives page NaN. | A parameter that is missing, empty or not a number gives the default page (1) or limit (25). | not executed | UrlState.NonNumericPageIsNaN | UrlState.ParsedCount |
| example/mock/server.ts:374-393 | `seed` clears the table and resets the id counter on a copy of the database that it never saves. It then adds the seeded records through `create`, which reloads the saved database. | Seed one record into a table that already holds one record: two records result, and the seeded one gets id 2. | Seed replaces the table: only the seeded records remain, numbered from 1. | not executed | MockServer.SeedAsWrittenKeepsRecords | MockServer.SeedStartsOver |
| src/lib/WiseTable/internal/TableBody.tsx:61-68 | The body renders each `EditableCell` without the `idColumn` prop, which the cell's props require. So the cell's `column.key === idColumn` test compares with undefined and never holds. | A table whose id column is not marked `readonly`: clicking an id cell starts an edit, and committing a new id marks the row dirty. | The body hands the cell its own `idColumn`, so id cells never start or commit an edit. | not executed | TableBody.IdCellEditableAsRendered | TableBody.IdCellsReadOnly |
