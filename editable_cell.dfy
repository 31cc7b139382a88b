/**
 * One table cell: whether it is being edited, the value it shows and
 * edits, how typed text becomes a cell value on commit, and the keys
 * that commit or cancel.
 */
module EditableCell {
  import opened Wrappers
  import opened JsStrings
  import opened Values
  import opened DateUtils
  import opened TableTypes
  import opened Columns
  import opened CellFormat
  import opened Editing

  /** The cell at (`rowIndex`, `key`) is editing iff the current edit names both. */
  predicate IsEditing(edit: Option<EditingState>, rowIndex: int, key: string) {
    edit.Some? && edit.value.rowIndex == rowIndex && edit.value.columnKey == key
  }

  /**
   * At most one cell of the table is editing at a time: two cells that
   * both see the current edit as theirs are the same cell, and the
   * cell the edit names is one of them. With no edit (after
   * `cancelEdit` or `setCurrentEdit(null)`) no cell is editing.
   */
  lemma AtMostOneCellEditing(edit: Option<EditingState>, r1: int, k1: string, r2: int, k2: string)
    ensures IsEditing(edit, r1, k1) && IsEditing(edit, r2, k2) ==> r1 == r2 && k1 == k2
    ensures edit.Some? ==> IsEditing(edit, edit.value.rowIndex, edit.value.columnKey)
    ensures edit.None? ==> !IsEditing(edit, r1, k1)
  {
  }

  /**
   * The value the editor starts from: the unsaved row's value for the
   * column when the row is dirty (undefined when it has none), else the
   * loaded value.
   */
  function CurrentCellValue(dirty: DirtyMap, rowId: Value, key: string, value: Value): (r: Value)
    ensures rowId in dirty.entries ==> r == Get(dirty.entries[rowId].modifiedData, key)
    ensures rowId !in dirty.entries ==> r == value
  {
    if rowId in dirty.entries then Get(dirty.entries[rowId].modifiedData, key) else value
  }

  /**
   * The value shown by a cell that is not editing, as written: the dirty
   * value joined with `??` to the loaded value.
   */
  function DisplayedValueAsWritten(dirty: DirtyMap, rowId: Value, key: string, value: Value): Value {
    if rowId in dirty.entries then Coalesce(Get(dirty.entries[rowId].modifiedData, key), value) else value
  }

  /**
   * A string cell cleared and committed is stored as null, so the row is
   * dirty with null for that column; the cell still shows the old text
   * while saving will send null.
   */
  lemma ClearedCellShowsOldValue(lib: DateLib, dirty: DirtyMap, idx: int, rowId: Value, key: string, row: Row)
    requires dirty.Valid() && rowId !in dirty.entries
    requires Get(row, key) == Str("Kim")
    ensures var d := CommitDirty(lib, dirty, idx, rowId, key, Null, row);
            rowId in d.entries && Get(d.entries[rowId].modifiedData, key) == Null
            && DisplayedValueAsWritten(d, rowId, key, Get(row, key)) == Str("Kim")
            && DisplayedValue(d, rowId, key, Get(row, key)) == Null
  {
    EmptyValuesAgree(lib);
    CleanCommitCreates(lib, dirty, idx, rowId, key, Null, row);
  }

  /** The value shown by a cell that is not editing: the same value the editor starts from. */
  function DisplayedValue(dirty: DirtyMap, rowId: Value, key: string, value: Value): (r: Value)
    ensures r == CurrentCellValue(dirty, rowId, key, value)
    ensures rowId in dirty.entries ==> r == Get(dirty.entries[rowId].modifiedData, key)
  {
    CurrentCellValue(dirty, rowId, key, value)
  }

  /**
   * The text placed in the editor when editing starts: the edit's new
   * value, else its old value, else the cell value; a date column shows
   * it in the editing pattern, others as `String(base ?? '')`.
   */
  function InitialInput(lib: DateLib, c: Column, edit: EditingState, cellValue: Value): (r: string)
    ensures var base := if !IsNullish(edit.newValue) then edit.newValue
                        else if !IsNullish(edit.oldValue) then edit.oldValue
                        else cellValue;
            && (HasKind(c, DateColumn) ==> r == EditingText(lib, base, DateFormatOf(c)))
            && (!HasKind(c, DateColumn) && !IsNullish(base) ==> r == JsString(base, lib.toText))
            && (!HasKind(c, DateColumn) && IsNullish(base) ==> r == "")
  {
    var base := Coalesce(Coalesce(edit.newValue, edit.oldValue), cellValue);
    if HasKind(c, DateColumn) then EditingText(lib, base, DateFormatOf(c))
    else JsString(Coalesce(base, Str("")), lib.toText)
  }

  /**
   * `handleCommit`'s conversion of the typed text. `parseNumber` stands
   * for `parseFloat`, None meaning NaN.
   */
  function ConvertInput(lib: DateLib, parseNumber: string -> Option<int>, c: Column, input: string, value: Value): (r: Value)
    ensures r == Null || r == value || r == Bool(input == "true") || r == Str(input)
            || (r.DateVal? && ParsedInput(lib, input, DateFormatOf(c)) == Some(r.d))
            || (r.Int? && parseNumber(input) == Some(r.i))
    ensures r.DateVal? ==> IsValid(r.d) || r == value
  {
    if HasKind(c, DateColumn) then
      if IsBlank(input) then Null
      else match ParsedInput(lib, input, DateFormatOf(c))
        case Some(d) => DateVal(d)
        case None => value
    else if HasKind(c, Number) || value.Int? then
      if IsBlank(input) then Null
      else match parseNumber(input)
        case Some(n) => Int(n)
        case None => value
    else if value.Bool? then Bool(input == "true")
    else if IsBlank(input) then Null
    else Str(input)
  }

  /** Blank text in a date, number or text cell commits null. */
  lemma BlankCommitsNull(lib: DateLib, parseNumber: string -> Option<int>, c: Column, input: string, value: Value)
    requires AllWhitespace(input) && !value.Bool?
    ensures ConvertInput(lib, parseNumber, c, input, value) == Null
  {
    BlankIffAllWhitespace(input);
  }

  /** Text that does not parse as a date or a number keeps the loaded value. */
  lemma UnparsableKeepsValue(lib: DateLib, parseNumber: string -> Option<int>, c: Column, input: string, value: Value)
    requires !AllWhitespace(input)
    requires (HasKind(c, DateColumn) && ParsedInput(lib, input, DateFormatOf(c)).None?)
             || (!HasKind(c, DateColumn) && (HasKind(c, Number) || value.Int?) && parseNumber(input).None?)
    ensures ConvertInput(lib, parseNumber, c, input, value) == value
  {
    BlankIffAllWhitespace(input);
  }

  /** Text that parses commits the parsed date or number. */
  lemma ParsedTextCommitsParsed(lib: DateLib, parseNumber: string -> Option<int>, c: Column, input: string, value: Value)
    requires !AllWhitespace(input)
    ensures HasKind(c, DateColumn) && ParsedInput(lib, input, DateFormatOf(c)).Some? ==>
              ConvertInput(lib, parseNumber, c, input, value) == DateVal(ParsedInput(lib, input, DateFormatOf(c)).value)
    ensures !HasKind(c, DateColumn) && (HasKind(c, Number) || value.Int?) && parseNumber(input).Some? ==>
              ConvertInput(lib, parseNumber, c, input, value) == Int(parseNumber(input).value)
  {
    BlankIffAllWhitespace(input);
  }

  /** A boolean cell outside date and number columns commits whether the text is exactly 'true'. */
  lemma BooleanCommitsTextTest(lib: DateLib, parseNumber: string -> Option<int>, c: Column, input: string, value: Value)
    requires !HasKind(c, DateColumn) && !HasKind(c, Number) && value.Bool?
    ensures ConvertInput(lib, parseNumber, c, input, value) == Bool(input == "true")
  {
  }

  /** Any other cell commits the text as typed, untrimmed, unless it is blank. */
  lemma TextCommitsAsTyped(lib: DateLib, parseNumber: string -> Option<int>, c: Column, input: string, value: Value)
    requires !HasKind(c, DateColumn) && !HasKind(c, Number) && !value.Int? && !value.Bool?
    requires !AllWhitespace(input)
    ensures ConvertInput(lib, parseNumber, c, input, value) == Str(input)
  {
    BlankIffAllWhitespace(input);
  }

  /** A column typed 'select' or 'multiselect', which gets the select editor whatever its options. */
  predicate IsSelectColumn(c: Column) {
    HasKind(c, Select) || HasKind(c, MultiSelect)
  }

  /**
   * The value committed from a select editor. A select-typed column
   * commits the selection unchanged; the options editor of any other
   * column commits arrays as they are and reads booleans from their text.
   */
  function ConvertSelection(lib: DateLib, c: Column, selected: Value, value: Value): (r: Value)
    ensures IsSelectColumn(c) ==> r == selected
    ensures !IsSelectColumn(c) && selected.Arr? ==> r == selected
    ensures !IsSelectColumn(c) && !selected.Arr? && value.Bool? ==> r == Bool(JsString(selected, lib.toText) == "true")
    ensures !IsSelectColumn(c) && !selected.Arr? && !value.Bool? ==> r == selected
  {
    if IsSelectColumn(c) then selected
    else if selected.Arr? then selected
    else if value.Bool? then Bool(JsString(selected, lib.toText) == "true")
    else selected
  }

  lemma BooleanSelectionRoundTrip(lib: DateLib, c: Column, b: bool)
    requires !IsSelectColumn(c)
    ensures ConvertSelection(lib, c, Bool(b), Bool(!b)) == Bool(b)
  {
  }

  /** In the options editor of a boolean cell only an option whose text is exactly 'true' commits true. */
  lemma TextSelectionInBooleanCell(lib: DateLib, c: Column, s: string, b: bool)
    requires !IsSelectColumn(c)
    ensures ConvertSelection(lib, c, Str(s), Bool(b)) == Bool(s == "true")
  {
  }

  /**
   * A select-typed column skips the boolean test: a text option in a
   * boolean cell is committed as that text, so the two editors disagree
   * on every boolean cell.
   */
  lemma SelectColumnKeepsText(lib: DateLib, c: Column, s: string, b: bool)
    requires IsSelectColumn(c)
    ensures ConvertSelection(lib, c, Str(s), Bool(b)) == Str(s)
    ensures ConvertSelection(lib, c, Str(s), Bool(b)) != ConvertSelection(lib, c.(kind := Some(Text)), Str(s), Bool(b))
  {
  }

  /**
   * An edit started from the cell's current value (old and new value
   * both that value) opens the editor on that value's text.
   */
  lemma StartedEditShowsCurrent(lib: DateLib, c: Column, rowIndex: int, cur: Value)
    ensures InitialInput(lib, c, EditingState(rowIndex, c.key, cur, cur), cur)
            == if HasKind(c, DateColumn) then EditingText(lib, cur, DateFormatOf(c))
               else if IsNullish(cur) then "" else JsString(cur, lib.toText)
  {
  }

  /** What a key press in the editor does. */
  datatype KeyAction = CommitKey | CancelKey | NoKeyAction

  /** The single-line editor: Enter and Tab commit, Escape cancels. */
  function InputKeyAction(key: string): (a: KeyAction)
    ensures a == CommitKey <==> key == "Enter" || key == "Tab"
    ensures a == CancelKey <==> key == "Escape"
  {
    if key == "Enter" then CommitKey
    else if key == "Escape" then CancelKey
    else if key == "Tab" then CommitKey
    else NoKeyAction
  }

  /** The multi-line editor: Escape cancels, only Ctrl+Enter commits. */
  function TextAreaKeyAction(key: string, ctrl: bool): (a: KeyAction)
    ensures a == CommitKey <==> key == "Enter" && ctrl
    ensures a == CancelKey <==> key == "Escape"
  {
    if key == "Escape" then CancelKey
    else if key == "Enter" && ctrl then CommitKey
    else NoKeyAction
  }

  /** A keystroke in a date editor is kept only when the resulting text is an acceptable date input. */
  function AcceptInput(lib: DateLib, c: Column, current: string, typed: string): (r: string)
    ensures r == typed || r == current
    ensures HasKind(c, DateColumn) ==> (r == typed <==> typed == current || IsValidDateInput(lib, typed, DefaultDateFormat))
    ensures !HasKind(c, DateColumn) ==> r == typed
  {
    if HasKind(c, DateColumn) then
      if IsValidDateInput(lib, typed, DefaultDateFormat) then typed else current
    else typed
  }

  /** The cell's props: its row, the row's id and index, the column and the loaded value. */
  datatype Cell = Cell(row: Row, rowId: Value, rowIndex: int, column: Column, value: Value, idColumn: string)

  /** A click starts editing an editable cell that is not editing yet, from its current value. */
  method HandleCellClick(engine: EditingEngine, cell: Cell)
    modifies engine`currentEdit
    ensures var cur := CurrentCellValue(engine.dirtyRows, cell.rowId, cell.column.key, cell.value);
            if CanEdit(cell.column, cell.idColumn) && !old(IsEditing(engine.currentEdit, cell.rowIndex, cell.column.key))
            then engine.currentEdit == Some(EditingState(cell.rowIndex, cell.column.key, cur, cur))
            else engine.currentEdit == old(engine.currentEdit)
  {
    if !CanEdit(cell.column, cell.idColumn) || IsEditing(engine.currentEdit, cell.rowIndex, cell.column.key) {
      return;
    }
    engine.StartEdit(cell.rowIndex, cell.column.key, CurrentCellValue(engine.dirtyRows, cell.rowId, cell.column.key, cell.value));
  }

  /**
   * Commit: nothing when the cell is not editing; a read-only or id cell
   * only ends the edit; otherwise the converted text is committed.
   */
  method HandleCommit(engine: EditingEngine, parseNumber: string -> Option<int>, cell: Cell, input: string)
    requires engine.Valid()
    modifies engine`currentEdit, engine`dirtyRows
    ensures engine.Valid() && (old(engine.Consistent()) ==> engine.Consistent())
    ensures !old(IsEditing(engine.currentEdit, cell.rowIndex, cell.column.key)) ==>
              engine.currentEdit == old(engine.currentEdit) && engine.dirtyRows == old(engine.dirtyRows)
    ensures old(IsEditing(engine.currentEdit, cell.rowIndex, cell.column.key)) && !CanEdit(cell.column, cell.idColumn) ==>
              engine.currentEdit.None? && engine.dirtyRows == old(engine.dirtyRows)
    ensures old(IsEditing(engine.currentEdit, cell.rowIndex, cell.column.key)) && CanEdit(cell.column, cell.idColumn) ==>
              engine.currentEdit.None?
              && engine.dirtyRows == CommitDirty(engine.lib, old(engine.dirtyRows), cell.rowIndex, cell.rowId, cell.column.key,
                                                 ConvertInput(engine.lib, parseNumber, cell.column, input, cell.value), cell.row)
  {
    if !IsEditing(engine.currentEdit, cell.rowIndex, cell.column.key) {
      return;
    }
    if !CanEdit(cell.column, cell.idColumn) {
      engine.SetCurrentEdit(None);
      return;
    }
    var newValue := ConvertInput(engine.lib, parseNumber, cell.column, input, cell.value);
    engine.CommitEdit(cell.rowId, cell.column.key, newValue, cell.row);
  }
}
