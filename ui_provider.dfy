/** The table's UI flags: which of the three modals is shown, and the compact layout switch. */
module UiProvider {
  class UiStore {
    const tableHeight: string
    const className: string
    var showCreateModal: bool
    var showUpdateModal: bool
    var showDeleteModal: bool
    var isCompact: bool

    /** No modal is shown at first; the layout starts as `defaultCompact`. */
    constructor (tableHeight: string, className: string, defaultCompact: bool)
      ensures this.tableHeight == tableHeight && this.className == className
      ensures !showCreateModal && !showUpdateModal && !showDeleteModal
      ensures isCompact == defaultCompact
    {
      this.tableHeight := tableHeight;
      this.className := className;
      showCreateModal, showUpdateModal, showDeleteModal := false, false, false;
      isCompact := defaultCompact;
    }

    method OpenCreateModal()
      modifies this`showCreateModal
      ensures showCreateModal
    {
      showCreateModal := true;
    }

    method CloseCreateModal()
      modifies this`showCreateModal
      ensures !showCreateModal
    {
      showCreateModal := false;
    }

    method OpenUpdateModal()
      modifies this`showUpdateModal
      ensures showUpdateModal
    {
      showUpdateModal := true;
    }

    method CloseUpdateModal()
      modifies this`showUpdateModal
      ensures !showUpdateModal
    {
      showUpdateModal := false;
    }

    method OpenDeleteModal()
      modifies this`showDeleteModal
      ensures showDeleteModal
    {
      showDeleteModal := true;
    }

    method CloseDeleteModal()
      modifies this`showDeleteModal
      ensures !showDeleteModal
    {
      showDeleteModal := false;
    }

    method SetCompact(b: bool)
      modifies this`isCompact
      ensures isCompact == b
    {
      isCompact := b;
    }
  }
}
