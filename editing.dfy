/**
 * The editing provider: one cell edit at a time, a map of unsaved rows
 * diffed against the rows as loaded, a selection of row ids, the three
 * bulk dialogs and a reset counter that forces rows to remount.
 */
module Editing {
  import opened Wrappers
  import opened Values
  import opened DateUtils
  import opened CellFormat
  import opened TableTypes
  import opened OrderedMaps
  import opened SeqFacts

  /** `Number.MAX_SAFE_INTEGER`. */
  const MaxSafeInteger: nat := 9007199254740991

  /** Row id to unsaved row, in insertion order. */
  type DirtyMap = OMap<Value, DirtyRow>

  /** The fields of `modified` whose value differs, under effective equality, from `original`. */
  function ChangedKeys(lib: DateLib, modified: Row, original: Row): set<string> {
    set k | k in modified && !EffectivelyEqual(lib, modified[k], Get(original, k))
  }

  /** An unsaved row records exactly its differing fields, and has at least one. */
  predicate TracksChanges(lib: DateLib, dr: DirtyRow) {
    dr.changedFields == ChangedKeys(lib, dr.modifiedData, dr.originalData) && dr.changedFields != {}
  }

  predicate AllTracked(lib: DateLib, dirty: DirtyMap) {
    forall id | id in dirty.entries :: TracksChanges(lib, dirty.entries[id])
  }

  /** A row edited on one column only differs from its original on that column. */
  lemma SingleEditTracked(lib: DateLib, original: Row, key: string, v: Value)
    requires !EffectivelyEqual(lib, Get(original, key), v)
    ensures ChangedKeys(lib, original[key := v], original) == {key}
  {
    var m := original[key := v];
    forall k | k in m && k != key ensures EffectivelyEqual(lib, m[k], Get(original, k)) {
      EffectivelyEqualIsEquivalence(lib, m[k], m[k], m[k]);
    }
    EffectivelyEqualIsEquivalence(lib, v, Get(original, key), v);
  }

  /**
   * `commitEdit`'s effect on the unsaved rows. A dirty row is re-diffed
   * against its stored original after the edit and dropped when nothing
   * differs; a clean row becomes dirty only when the value differs from
   * the row's own.
   */
  function CommitDirty(lib: DateLib, dirty: DirtyMap, editRowIndex: int, rowId: Value,
                       key: string, newValue: Value, originalRow: Row): (r: DirtyMap)
    requires dirty.Valid()
    ensures r.Valid()
    ensures forall id :: id != rowId ==> (id in r.entries <==> id in dirty.entries)
    ensures forall id | id != rowId && id in r.entries :: r.entries[id] == dirty.entries[id]
    ensures AllTracked(lib, dirty) ==> AllTracked(lib, r)
  {
    if rowId in dirty.entries then
      var existing := dirty.entries[rowId];
      var merged := existing.modifiedData[key := newValue];
      var changed := ChangedKeys(lib, merged, existing.originalData);
      if changed == {} then dirty.Delete(rowId)
      else dirty.Set(rowId, existing.(modifiedData := merged, changedFields := changed))
    else if !EffectivelyEqual(lib, Get(originalRow, key), newValue) then
      SingleEditTracked(lib, originalRow, key, newValue);
      dirty.Set(rowId, DirtyRow(editRowIndex, originalRow, originalRow[key := newValue], {key}))
    else dirty
  }

  /** A clean row committed with an effectively equal value stays clean. */
  lemma CleanCommitUnchanged(lib: DateLib, dirty: DirtyMap, idx: int, rowId: Value, key: string, v: Value, row: Row)
    requires dirty.Valid() && rowId !in dirty.entries
    requires EffectivelyEqual(lib, Get(row, key), v)
    ensures CommitDirty(lib, dirty, idx, rowId, key, v, row) == dirty
  {
  }

  /**
   * A clean row committed with a differing value gets an entry holding
   * the row as loaded, the row with only that column replaced, and that
   * column as its only changed field; it goes after the existing rows.
   */
  lemma CleanCommitCreates(lib: DateLib, dirty: DirtyMap, idx: int, rowId: Value, key: string, v: Value, row: Row)
    requires dirty.Valid() && rowId !in dirty.entries
    requires !EffectivelyEqual(lib, Get(row, key), v)
    ensures var r := CommitDirty(lib, dirty, idx, rowId, key, v, row);
            rowId in r.entries && r.keys == dirty.keys + [rowId]
            && r.entries[rowId].originalData == row
            && r.entries[rowId].modifiedData == row[key := v]
            && r.entries[rowId].changedFields == {key}
            && TracksChanges(lib, r.entries[rowId])
  {
    SingleEditTracked(lib, row, key, v);
  }

  /**
   * On a dirty row the committed row is ignored: the stored original is
   * what the edit is diffed against.
   */
  lemma DirtyCommitIgnoresPassedRow(lib: DateLib, dirty: DirtyMap, idx: int, rowId: Value,
                                    key: string, v: Value, row1: Row, row2: Row)
    requires dirty.Valid() && rowId in dirty.entries
    ensures CommitDirty(lib, dirty, idx, rowId, key, v, row1) == CommitDirty(lib, dirty, idx, rowId, key, v, row2)
    ensures var r := CommitDirty(lib, dirty, idx, rowId, key, v, row1);
            var e := dirty.entries[rowId];
            var changed := ChangedKeys(lib, e.modifiedData[key := v], e.originalData);
            (rowId in r.entries <==> changed != {})
            && (changed == {} ==> r.keys == Remove(dirty.keys, rowId))
            && (changed != {} ==> r.keys == dirty.keys
                                  && r.entries[rowId] == e.(modifiedData := e.modifiedData[key := v], changedFields := changed))
  {
  }

  /**
   * Editing the only changed field of a dirty row back to its original
   * value removes the row: it is no longer dirty.
   */
  lemma RevertLastChangeCleansRow(lib: DateLib, dirty: DirtyMap, idx: int, rowId: Value, key: string, v: Value, row: Row)
    requires dirty.Valid() && AllTracked(lib, dirty) && rowId in dirty.entries
    requires dirty.entries[rowId].changedFields == {key}
    requires EffectivelyEqual(lib, v, Get(dirty.entries[rowId].originalData, key))
    ensures rowId !in CommitDirty(lib, dirty, idx, rowId, key, v, row).entries
  {
    var e := dirty.entries[rowId];
    var merged := e.modifiedData[key := v];
    forall k | k in merged ensures EffectivelyEqual(lib, merged[k], Get(e.originalData, k)) {
      if k != key {
        assert k in e.modifiedData && k !in e.changedFields;
      }
    }
    assert ChangedKeys(lib, merged, e.originalData) == {};
  }

  /** Editing a clean cell and then editing it back leaves no trace, order included. */
  lemma EditThenRevertRestores(lib: DateLib, dirty: DirtyMap, idx: int, rowId: Value, key: string, v: Value, row: Row)
    requires dirty.Valid() && rowId !in dirty.entries
    ensures var d1 := CommitDirty(lib, dirty, idx, rowId, key, v, row);
            CommitDirty(lib, d1, idx, rowId, key, Get(row, key), row) == dirty
  {
    var d1 := CommitDirty(lib, dirty, idx, rowId, key, v, row);
    if !EffectivelyEqual(lib, Get(row, key), v) {
      var e := d1.entries[rowId];
      var merged := e.modifiedData[key := Get(row, key)];
      forall k | k in merged ensures EffectivelyEqual(lib, merged[k], Get(row, k)) {
        EffectivelyEqualIsEquivalence(lib, merged[k], merged[k], merged[k]);
      }
      assert ChangedKeys(lib, merged, row) == {};
      SetThenDelete(dirty, rowId, e);
    }
  }

  /** `getSelectedItems`: the loaded rows whose id is selected, in table order. */
  function SelectedItems(data: seq<Row>, idColumn: string, selected: set<Value>): (r: seq<Row>)
    ensures |r| <= |data|
    ensures IsSubsequence(r, data)
    ensures forall x {:trigger multiset(r)[x]} :: multiset(r)[x] == if Get(x, idColumn) in selected then multiset(data)[x] else 0
    ensures forall x :: x in r <==> x in data && Get(x, idColumn) in selected
    ensures r == [] <==> forall x :: x in data ==> Get(x, idColumn) !in selected
  {
    if data == [] then []
    else
      var keep := Get(data[0], idColumn) in selected;
      var rest := SelectedItems(data[1..], idColumn, selected);
      ConsSubsequence(keep, data, rest);
      MultisetCons(data);
      var r := (if keep then [data[0]] else []) + rest;
      FilterMembers(r, data, x => Get(x, idColumn) in selected);
      r
  }

  /** The update payload: one item per unsaved row, in map order. */
  function UpdatePayload(dirty: DirtyMap, reason: Option<string>): (p: UpdateItemsPayload)
    requires dirty.Valid()
    ensures |p.items| == dirty.Size() && p.reason == reason
    ensures forall i :: 0 <= i < |p.items| ==>
              p.items[i] == UpdateItem(dirty.entries[dirty.keys[i]].modifiedData, dirty.entries[dirty.keys[i]].changedFields)
  {
    var rows := dirty.Values();
    UpdateItemsPayload(seq(|rows|, i requires 0 <= i < |rows| => UpdateItem(rows[i].modifiedData, rows[i].changedFields)), reason)
  }

  /** A field of the update schema's object shape, with the validator of its value. */
  datatype FieldCheck = FieldCheck(name: string, check: Value -> seq<string>)

  /**
   * The update schema as the validation sees it: its object shape in
   * declaration order, or None when the schema is not an object.
   */
  datatype UpdateSchema = UpdateSchema(shape: Option<seq<FieldCheck>>)

  /** One failing row: its id and the issue messages. */
  datatype ValidationError = ValidationError(itemId: Value, errors: seq<string>)

  predicate InShape(shape: seq<FieldCheck>, field: string) {
    exists i :: 0 <= i < |shape| && shape[i].name == field
  }

  /**
   * The issues of the subset object whose fields are the changed ones,
   * each optional: an undefined value passes, a present one is checked.
   */
  function SubsetIssues(shape: seq<FieldCheck>, changed: set<string>, values: Row): (r: seq<string>)
    ensures (forall i :: 0 <= i < |shape| && shape[i].name in changed ==> Get(values, shape[i].name) == Undefined) ==> r == []
  {
    if shape == [] then []
    else
      var f := shape[0];
      var own := if f.name in changed && Get(values, f.name) != Undefined then f.check(Get(values, f.name)) else [];
      own + SubsetIssues(shape[1..], changed, values)
  }

  /** The changed fields of a row mapped to their edited values. */
  function ChangedSubset(dr: DirtyRow): Row {
    map k | k in dr.changedFields :: Get(dr.modifiedData, k)
  }

  /** The error a row contributes, if it is validated and fails. */
  function RowError(schema: UpdateSchema, idColumn: string, dr: DirtyRow): Option<ValidationError> {
    match schema.shape
      case None => None
      case Some(shape) =>
        if !exists f | f in dr.changedFields :: InShape(shape, f) then None
        else
          var issues := SubsetIssues(shape, dr.changedFields, ChangedSubset(dr));
          if issues == [] then None else Some(ValidationError(Get(dr.originalData, idColumn), issues))
  }

  /** `getUpdateValidationErrors`: the failing rows in map order. */
  function ValidationErrors(schema: UpdateSchema, idColumn: string, rows: seq<DirtyRow>): seq<ValidationError> {
    if rows == [] then []
    else
      var rest := ValidationErrors(schema, idColumn, rows[1..]);
      match RowError(schema, idColumn, rows[0])
        case None => rest
        case Some(e) => [e] + rest
  }

  /** Only changed fields are validated: validators of unchanged fields never matter. */
  lemma {:induction false} SubsetIssuesIgnoreUnchanged(shape1: seq<FieldCheck>, shape2: seq<FieldCheck>, changed: set<string>, values: Row)
    requires |shape1| == |shape2|
    requires forall i :: 0 <= i < |shape1| ==> shape1[i].name == shape2[i].name
    requires forall i :: 0 <= i < |shape1| && shape1[i].name in changed ==> shape1[i] == shape2[i]
    ensures SubsetIssues(shape1, changed, values) == SubsetIssues(shape2, changed, values)
  {
    if shape1 != [] {
      SubsetIssuesIgnoreUnchanged(shape1[1..], shape2[1..], changed, values);
    }
  }

  /** Each field is optional: a changed field whose edited value is undefined raises no issue. */
  lemma {:induction false} UndefinedFieldsPass(shape: seq<FieldCheck>, changed: set<string>, values: Row, field: string)
    requires field in changed && Get(values, field) == Undefined
    ensures SubsetIssues(shape, changed, values) == SubsetIssues(shape, changed - {field}, values)
  {
    if shape != [] {
      UndefinedFieldsPass(shape[1..], changed, values, field);
    }
  }

  /** Every reported error belongs to a row, carries that row's original id and at least one message. */
  lemma {:induction false} ValidationErrorsComeFromRows(schema: UpdateSchema, idColumn: string, rows: seq<DirtyRow>)
    ensures |ValidationErrors(schema, idColumn, rows)| <= |rows|
    ensures forall e | e in ValidationErrors(schema, idColumn, rows) ::
              e.errors != [] && exists dr | dr in rows :: e.itemId == Get(dr.originalData, idColumn)
    ensures schema.shape.None? ==> ValidationErrors(schema, idColumn, rows) == []
  {
    if rows != [] {
      ValidationErrorsComeFromRows(schema, idColumn, rows[1..]);
    }
  }

  /**
   * The editing state. `data`, the id column, the update schema and
   * which mutations exist are the provider's props; the rest is its state.
   */
  class EditingEngine {
    const lib: DateLib
    const idColumn: string
    /** Create schema present and create columns non-empty. */
    const canCreate: bool
    const updateSchema: UpdateSchema
    const actions: CRUDActions
    var data: seq<Row>
    var currentEdit: Option<EditingState>
    var dirtyRows: DirtyMap
    var selectedRowIds: set<Value>
    var showCreateModal: bool
    var showUpdateModal: bool
    var showDeleteModal: bool
    var resetVersion: nat

    ghost predicate Valid()
      reads this
    {
      dirtyRows.Valid() && resetVersion < MaxSafeInteger
    }

    /** Every unsaved row records exactly its differing fields. */
    ghost predicate Consistent()
      reads this
    {
      Valid() && AllTracked(lib, dirtyRows)
    }

    constructor (lib: DateLib, idColumn: string, canCreate: bool, updateSchema: UpdateSchema,
                 actions: CRUDActions, data: seq<Row>)
      ensures Consistent()
      ensures this.lib == lib && this.idColumn == idColumn && this.canCreate == canCreate
      ensures this.updateSchema == updateSchema && this.actions == actions && this.data == data
      ensures currentEdit.None? && dirtyRows == EmptyMap() && selectedRowIds == {}
      ensures !showCreateModal && !showUpdateModal && !showDeleteModal && resetVersion == 0
    {
      this.lib := lib;
      this.idColumn := idColumn;
      this.canCreate := canCreate;
      this.updateSchema := updateSchema;
      this.actions := actions;
      this.data := data;
      currentEdit := None;
      dirtyRows := EmptyMap();
      selectedRowIds := {};
      showCreateModal, showUpdateModal, showDeleteModal := false, false, false;
      resetVersion := 0;
    }

    predicate IsDirty(rowId: Value)
      reads this
    {
      rowId in dirtyRows.entries
    }

    predicate IsSelected(rowId: Value)
      reads this
    {
      rowId in selectedRowIds
    }

    predicate HasUnsavedChanges()
      reads this
    {
      dirtyRows.Size() > 0
    }

    /** `getRowId`. */
    function GetRowId(item: Row): Value
      reads this
    {
      Get(item, idColumn)
    }

    /** `selectedRows` / `getSelectedItems`. */
    function GetSelectedItems(): seq<Row>
      reads this
    {
      SelectedItems(data, idColumn, selectedRowIds)
    }

    /** The provider re-rendered with new rows. */
    method SetData(rows: seq<Row>)
      modifies this`data
      ensures data == rows
    {
      data := rows;
    }

    method StartEdit(rowIndex: int, columnKey: string, currentValue: Value)
      modifies this`currentEdit
      ensures currentEdit == Some(EditingState(rowIndex, columnKey, currentValue, currentValue))
    {
      currentEdit := Some(EditingState(rowIndex, columnKey, currentValue, currentValue));
    }

    method SetCurrentEdit(edit: Option<EditingState>)
      modifies this`currentEdit
      ensures currentEdit == edit
    {
      currentEdit := edit;
    }

    method SetSelectedRowIds(ids: set<Value>)
      modifies this`selectedRowIds
      ensures selectedRowIds == ids
    {
      selectedRowIds := ids;
    }

    /** The row index a new unsaved row records: the edit's, or 0 (`currentEdit?.rowIndex || 0`). */
    function EditRowIndex(): int
      reads this
    {
      if currentEdit.Some? then currentEdit.value.rowIndex else 0
    }

    method CommitEdit(rowId: Value, columnKey: string, newValue: Value, originalRow: Row)
      requires Valid()
      modifies this`dirtyRows, this`currentEdit
      ensures Valid()
      ensures dirtyRows == CommitDirty(lib, old(dirtyRows), old(EditRowIndex()), rowId, columnKey, newValue, originalRow)
      ensures currentEdit.None?
      ensures old(Consistent()) ==> Consistent()
    {
      dirtyRows := CommitDirty(lib, dirtyRows, EditRowIndex(), rowId, columnKey, newValue, originalRow);
      currentEdit := None;
    }

    method CancelEdit()
      modifies this`currentEdit
      ensures currentEdit.None?
    {
      currentEdit := None;
    }

    method DiscardChanges()
      requires Valid()
      modifies this`dirtyRows, this`selectedRowIds, this`currentEdit, this`resetVersion
      ensures Consistent() && !HasUnsavedChanges()
      ensures dirtyRows == EmptyMap() && selectedRowIds == {} && currentEdit.None?
      ensures resetVersion == (old(resetVersion) + 1) % MaxSafeInteger
    {
      dirtyRows := EmptyMap();
      selectedRowIds := {};
      currentEdit := None;
      resetVersion := (resetVersion + 1) % MaxSafeInteger;
    }

    method OpenCreateModal()
      modifies this`showCreateModal
      ensures showCreateModal == (old(showCreateModal) || canCreate)
    {
      if canCreate {
        showCreateModal := true;
      }
    }

    method OpenUpdateModal()
      modifies this`showUpdateModal
      ensures showUpdateModal
    {
      showUpdateModal := true;
    }

    method OpenDeleteModal()
      modifies this`showDeleteModal
      ensures showDeleteModal
    {
      showDeleteModal := true;
    }

    /** The create dialog confirmed: the rows go to the create mutation, if any, and the dialog closes. */
    method HandleCreateConfirm(items: seq<Row>) returns (sent: Option<seq<Row>>)
      modifies this`showCreateModal
      ensures sent == if actions.hasCreate then Some(items) else None
      ensures !showCreateModal
    {
      sent := if actions.hasCreate then Some(items) else None;
      showCreateModal := false;
    }

    method HandleCreateCancel()
      modifies this`showCreateModal
      ensures !showCreateModal
    {
      showCreateModal := false;
    }

    /** The validation errors shown in the update dialog. */
    method GetUpdateValidationErrors() returns (errors: seq<ValidationError>)
      requires Valid()
      ensures errors == ValidationErrors(updateSchema, idColumn, dirtyRows.Values())
      ensures dirtyRows.Size() == 0 ==> errors == []
    {
      if dirtyRows.Size() == 0 {
        return [];
      }
      var rows := dirtyRows.Values();
      errors := [];
      var i := |rows|;
      while i > 0
        invariant 0 <= i <= |rows|
        invariant errors == ValidationErrors(updateSchema, idColumn, rows[i..])
      {
        i := i - 1;
        assert rows[i..][1..] == rows[i + 1..];
        var e := RowError(updateSchema, idColumn, rows[i]);
        if e.Some? {
          errors := [e.value] + errors;
        }
      }
      assert rows[0..] == rows;
    }

    /**
     * The update dialog confirmed. With unsaved rows, their payload goes
     * to the update mutation; on success (or with no mutation configured)
     * the unsaved rows and the selection are cleared and the dialog
     * closes; on failure nothing changes.
     */
    method HandleUpdateConfirm(reason: Option<string>, succeeds: bool) returns (sent: Option<UpdateItemsPayload>)
      requires Valid()
      modifies this`dirtyRows, this`selectedRowIds, this`showUpdateModal
      ensures Valid() && (old(Consistent()) ==> Consistent())
      ensures sent == if old(HasUnsavedChanges()) && actions.hasUpdate then Some(UpdatePayload(old(dirtyRows), reason)) else None
      ensures if old(HasUnsavedChanges()) && (succeeds || !actions.hasUpdate)
              then dirtyRows == EmptyMap() && selectedRowIds == {} && !showUpdateModal
              else dirtyRows == old(dirtyRows) && selectedRowIds == old(selectedRowIds) && showUpdateModal == old(showUpdateModal)
    {
      sent := None;
      if HasUnsavedChanges() {
        if actions.hasUpdate {
          sent := Some(UpdatePayload(dirtyRows, reason));
        }
        if succeeds || !actions.hasUpdate {
          dirtyRows := EmptyMap();
          selectedRowIds := {};
          showUpdateModal := false;
        }
      }
    }

    method HandleUpdateCancel()
      modifies this`showUpdateModal
      ensures !showUpdateModal
    {
      showUpdateModal := false;
    }

    /**
     * The delete dialog confirmed. With selected rows, they go to the
     * delete mutation; on success (or with no mutation) only the selection
     * is cleared and the dialog closes.
     */
    method HandleDeleteConfirm(reason: Option<string>, succeeds: bool) returns (sent: Option<DeleteItemsPayload>)
      modifies this`selectedRowIds, this`showDeleteModal
      ensures var items := old(GetSelectedItems());
              sent == if items != [] && actions.hasDelete then Some(DeleteItemsPayload(items, reason)) else None
      ensures if old(GetSelectedItems()) != [] && (succeeds || !actions.hasDelete)
              then selectedRowIds == {} && !showDeleteModal
              else selectedRowIds == old(selectedRowIds) && showDeleteModal == old(showDeleteModal)
    {
      var items := GetSelectedItems();
      sent := None;
      if items != [] {
        if actions.hasDelete {
          sent := Some(DeleteItemsPayload(items, reason));
        }
        if succeeds || !actions.hasDelete {
          selectedRowIds := {};
          showDeleteModal := false;
        }
      }
    }

    method HandleDeleteCancel()
      modifies this`showDeleteModal
      ensures !showDeleteModal
    {
      showDeleteModal := false;
    }
  }

  /** The update dialog requires a reason unless configured otherwise (`requireReason?.update ?? true`). */
  function UpdateReasonRequired(req: Option<ReasonRequirements>): bool {
    req.None? || req.value.update.GetOr(true)
  }

  /** The delete dialog requires a reason unless configured otherwise (`requireReason?.delete ?? true`). */
  function DeleteReasonRequired(req: Option<ReasonRequirements>): bool {
    req.None? || req.value.delete.GetOr(true)
  }
}
