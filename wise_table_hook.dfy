/** `useWiseTable`: the public hook, delegating to the editing state. */
module WiseTableHook {
  import opened Editing

  /** `onCreateModal` only opens the create dialog (when creation is possible). */
  method OnCreateModal(engine: EditingEngine)
    modifies engine`showCreateModal
    ensures engine.showCreateModal == (old(engine.showCreateModal) || engine.canCreate)
  {
    engine.OpenCreateModal();
  }

  /** `onUpdateSelected` only opens the update dialog. */
  method OnUpdateSelected(engine: EditingEngine)
    modifies engine`showUpdateModal
    ensures engine.showUpdateModal
  {
    engine.OpenUpdateModal();
  }

  /** `onDeleteSelected` only opens the delete dialog. */
  method OnDeleteSelected(engine: EditingEngine)
    modifies engine`showDeleteModal
    ensures engine.showDeleteModal
  {
    engine.OpenDeleteModal();
  }
}
