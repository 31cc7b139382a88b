/** The table body: per-row selection toggle, row keys and row highlighting. */
module TableBody {
  import opened Wrappers
  import opened JsStrings
  import opened Values
  import opened Editing
  import opened Columns
  import opened EditableCell

  /** The row checkbox: removes the id when selected, adds it otherwise. */
  function ToggleSelection(selected: set<Value>, id: Value): (r: set<Value>)
    ensures id in r <==> id !in selected
    ensures forall other :: other != id ==> (other in r <==> other in selected)
  {
    if id in selected then selected - {id} else selected + {id}
  }

  /** Toggling the same row twice restores the selection. */
  lemma ToggleInvolutive(selected: set<Value>, id: Value)
    ensures ToggleSelection(ToggleSelection(selected, id), id) == selected
  {
  }

  method ToggleRow(engine: EditingEngine, rowId: Value)
    modifies engine`selectedRowIds
    ensures engine.selectedRowIds == ToggleSelection(old(engine.selectedRowIds), rowId)
  {
    var next := engine.selectedRowIds;
    if engine.IsSelected(rowId) {
      next := next - {rowId};
    } else {
      next := next + {rowId};
    }
    engine.SetSelectedRowIds(next);
  }

  /** The React key of a row: its id text and the reset version. */
  function RowKey(idText: string, version: nat): string {
    idText + "-" + NatToString(version)
  }

  /** A discard advances the version, so every row gets a new key and remounts. */
  lemma RowKeyChangesWithVersion(idText: string, a: nat, b: nat)
    requires a != b
    ensures RowKey(idText, a) != RowKey(idText, b)
  {
    if RowKey(idText, a) == RowKey(idText, b) {
      assert RowKey(idText, a)[|idText| + 1..] == NatToString(a);
      assert RowKey(idText, b)[|idText| + 1..] == NatToString(b);
      NatToStringInjective(a, b);
    }
  }

  /** Rows with different id texts get different keys under one version. */
  lemma RowKeysDistinctWithinVersion(s: string, t: string, v: nat)
    requires s != t && '-' !in s && '-' !in t
    ensures RowKey(s, v) != RowKey(t, v)
  {
    RowKeyIdText(s, v);
    RowKeyIdText(t, v);
  }

  /** The id text is recovered from a row key as the part before the first '-'. */
  lemma RowKeyIdText(s: string, v: nat)
    requires '-' !in s
    ensures IndexOf(RowKey(s, v), '-') == Some(|s|)
    ensures RowKey(s, v)[..|s|] == s
  {
    var k := RowKey(s, v);
    assert k[..|s|] == s;
    assert k[|s|] == '-';
  }

  datatype Highlight = SelectedRow | DirtyRowHighlight | PlainRow

  /** A selected row is highlighted as selected whether or not it is dirty; a dirty one as dirty. */
  function RowHighlight(selected: bool, dirty: bool): (h: Highlight)
    ensures h == SelectedRow <==> selected
    ensures h == DirtyRowHighlight <==> !selected && dirty
    ensures h == PlainRow <==> !selected && !dirty
  {
    if selected then SelectedRow else if dirty then DirtyRowHighlight else PlainRow
  }

  /**
   * Whether a cell can be edited as the body renders it: no `idColumn`
   * prop reaches the cell, so its id test compares the column key with
   * undefined and never holds; only `readonly` blocks an edit.
   */
  predicate CanEditAsRendered(c: Column) {
    !IsReadonly(c)
  }

  /** As rendered, the id column's cells accept edits, though the cell means to refuse them. */
  lemma IdCellEditableAsRendered(c: Column, idColumn: string)
    requires c.key == idColumn && !IsReadonly(c)
    ensures CanEditAsRendered(c) && !CanEdit(c, idColumn)
  {
  }

  /** The cells of one row, each handed the table's id column as the cell's props require. */
  function RowCells(row: Row, rowId: Value, rowIndex: int, columns: seq<Column>, idColumn: string): (r: seq<Cell>)
    ensures |r| == |columns|
    ensures forall j :: 0 <= j < |columns| ==> r[j] == Cell(row, rowId, rowIndex, columns[j], Get(row, columns[j].key), idColumn)
  {
    seq(|columns|, j requires 0 <= j < |columns| => Cell(row, rowId, rowIndex, columns[j], Get(row, columns[j].key), idColumn))
  }

  /** With the id column passed on, no cell of that column can be edited, whatever its `readonly`. */
  lemma IdCellsReadOnly(row: Row, rowId: Value, rowIndex: int, columns: seq<Column>, idColumn: string)
    ensures forall j :: 0 <= j < |columns| && columns[j].key == idColumn ==>
              !CanEdit(RowCells(row, rowId, rowIndex, columns, idColumn)[j].column, idColumn)
              && RowCells(row, rowId, rowIndex, columns, idColumn)[j].idColumn == idColumn
  {
  }
}
