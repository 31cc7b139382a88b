/** The records the editing layer passes around, and the two context hooks. */
module TableTypes {
  import opened Wrappers
  import opened Values

  /** The cell being edited: where it is and its value when editing began. */
  datatype EditingState = EditingState(rowIndex: int, columnKey: string, oldValue: Value, newValue: Value)

  /**
   * An unsaved row: the row as loaded, the row with the edits applied, and
   * the fields that differ (kept as a set; the order of `Object.keys` is
   * not modelled).
   */
  datatype DirtyRow = DirtyRow(rowIndex: int, originalData: Row, modifiedData: Row, changedFields: set<string>)

  /** One row of a bulk update: its edited data and the columns that changed. */
  datatype UpdateItem = UpdateItem(data: Row, changedColumns: set<string>)

  datatype UpdateItemsPayload = UpdateItemsPayload(items: seq<UpdateItem>, reason: Option<string>)

  datatype DeleteItemsPayload = DeleteItemsPayload(items: seq<Row>, reason: Option<string>)

  /** Which of the CRUD hooks the application configured. */
  datatype CRUDActions = CRUDActions(hasQuery: bool, hasCreate: bool, hasUpdate: bool, hasDelete: bool)

  /** Per-operation reason requirements; an absent entry is None. */
  datatype ReasonRequirements = ReasonRequirements(create: Option<bool>, update: Option<bool>, delete: Option<bool>)

  /** `useCRUDActions`: the provider's actions, or an empty record outside any provider. */
  function UseCRUDActions(provided: Option<CRUDActions>): (r: CRUDActions)
    ensures provided.None? ==> !r.hasQuery && !r.hasCreate && !r.hasUpdate && !r.hasDelete
    ensures provided.Some? ==> r == provided.value
  {
    if provided.None? then CRUDActions(false, false, false, false) else provided.value
  }

  /** `useEditingContext`: the provider's value, or an error outside the provider. */
  function UseEditingContext<C>(provided: Option<C>): (r: Result<C>)
    ensures r.Err? <==> provided.None?
    ensures r.Err? ==> r.message == "useEditingContext must be used within EditingProvider"
    ensures r.Ok? ==> r.value == provided.value
  {
    if provided.None? then Err("useEditingContext must be used within EditingProvider") else Ok(provided.value)
  }
}
