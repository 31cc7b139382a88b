/** `useSetColumn`: a custom cell renderer writing a value back to its cell. */
module UseSetColumn {
  import opened Wrappers
  import opened Values
  import opened Editing

  /** The render context a custom cell renderer sees. */
  datatype RenderContext = RenderContext(rowId: Value, columnKey: string, originalRow: Row, hasUpdateFunction: bool)

  /** The one call `setColumn(value)` makes. */
  datatype SetColumnCall =
    | CallUpdateFunction(value: Value)
    | CallCommitEdit(rowId: Value, columnKey: string, newValue: Value, originalRow: Row)

  const NoRenderContext: string := "useSetColumn must be used within a render function context"

  /** The hook fails outside a render function. */
  function UseSetColumnContext(ctx: Option<RenderContext>): (r: Result<RenderContext>)
    ensures ctx.None? <==> r == Err(NoRenderContext)
    ensures ctx.Some? ==> r == Ok(ctx.value)
  {
    match ctx
      case None => Err(NoRenderContext)
      case Some(c) => Ok(c)
  }

  /** The render-scoped update function, when present, takes priority over committing an edit. */
  function SetColumnDispatch(ctx: RenderContext, value: Value): (call: SetColumnCall)
    ensures call.CallUpdateFunction? <==> ctx.hasUpdateFunction
    ensures call.CallUpdateFunction? ==> call.value == value
    ensures call.CallCommitEdit? ==> call == CallCommitEdit(ctx.rowId, ctx.columnKey, value, ctx.originalRow)
  {
    if ctx.hasUpdateFunction then CallUpdateFunction(value)
    else CallCommitEdit(ctx.rowId, ctx.columnKey, value, ctx.originalRow)
  }

  /**
   * `setColumn(value)` against the editing state: with an update function
   * the value is handed to it (returned here) and the editing state is
   * left alone; otherwise it is committed as an edit of the context's cell.
   */
  method SetColumn(engine: EditingEngine, ctx: RenderContext, value: Value) returns (handedOver: Option<Value>)
    requires engine.Valid()
    modifies engine`dirtyRows, engine`currentEdit
    ensures engine.Valid()
    ensures ctx.hasUpdateFunction ==> handedOver == Some(value) && unchanged(engine)
    ensures !ctx.hasUpdateFunction ==>
              handedOver.None? && engine.currentEdit.None?
              && engine.dirtyRows == CommitDirty(engine.lib, old(engine.dirtyRows), old(engine.EditRowIndex()),
                                                 ctx.rowId, ctx.columnKey, value, ctx.originalRow)
  {
    if ctx.hasUpdateFunction {
      return Some(value);
    }
    engine.CommitEdit(ctx.rowId, ctx.columnKey, value, ctx.originalRow);
    handedOver := None;
  }
}
