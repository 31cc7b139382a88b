/**
 * The confirmation dialog and the update and delete dialogs, each around
 * a typed reason and, for the latter two, a second confirmation step.
 */
module Modals {
  import opened Wrappers
  import opened JsStrings

  /** `reason.trim() || undefined`. */
  function ReasonArg(reason: string): (r: Option<string>)
    ensures r.None? <==> IsBlank(reason)
    ensures r.Some? ==> r.value == Trim(reason) && r.value != ""
  {
    if Trim(reason) == "" then None else Some(Trim(reason))
  }

  /** The generic confirmation dialog. */
  class ConfirmDialog {
    const requireReason: bool
    var reason: string

    constructor (requireReason: bool)
      ensures this.requireReason == requireReason && reason == ""
    {
      this.requireReason := requireReason;
      reason := "";
    }

    method SetReason(text: string)
      modifies this`reason
      ensures reason == text
    {
      reason := text;
    }

    /**
     * Confirm: refused (nothing emitted, reason kept) when a reason is
     * required and blank; otherwise emits the trimmed reason, or none when
     * blank, and clears it.
     */
    method HandleConfirm() returns (emitted: Option<Option<string>>)
      modifies this`reason
      ensures requireReason && IsBlank(old(reason)) ==> emitted.None? && reason == old(reason)
      ensures !(requireReason && IsBlank(old(reason))) ==> emitted == Some(ReasonArg(old(reason))) && reason == ""
    {
      if requireReason && Trim(reason) == "" {
        return None;
      }
      emitted := Some(ReasonArg(reason));
      reason := "";
    }

    method HandleCancel()
      modifies this`reason
      ensures reason == ""
    {
      reason := "";
    }
  }

  /** The update button is enabled with changes, no validation errors and, if required, a reason. */
  function CanUpdate(dirtyCount: nat, errorCount: nat, requireReason: bool, reason: string): (b: bool)
    ensures b <==> dirtyCount > 0 && errorCount == 0 && (!requireReason || !IsBlank(reason))
  {
    dirtyCount > 0 && errorCount == 0 && (!requireReason || |Trim(reason)| > 0)
  }

  /** The update dialog. */
  class UpdateDialog {
    const requireReason: bool
    var reason: string
    var isConfirmOpen: bool

    constructor (requireReason: bool)
      ensures this.requireReason == requireReason && reason == "" && !isConfirmOpen
    {
      this.requireReason := requireReason;
      reason := "";
      isConfirmOpen := false;
    }

    method SetReason(text: string)
      modifies this`reason
      ensures reason == text
    {
      reason := text;
    }

    /**
     * The update button: without changes nothing happens, a required blank
     * reason is refused; otherwise the confirmation opens. Validation
     * errors are not checked here: they only disable the button.
     */
    method HandleConfirm(dirtyCount: nat)
      modifies this`isConfirmOpen
      ensures isConfirmOpen == (old(isConfirmOpen) || (dirtyCount > 0 && !(requireReason && IsBlank(reason))))
    {
      if dirtyCount == 0 {
        return;
      }
      if requireReason && Trim(reason) == "" {
        return;
      }
      isConfirmOpen := true;
    }

    /** The confirmation accepted: the trimmed reason (or none) goes out, and the reason is cleared. */
    method FinalConfirm() returns (sent: Option<string>)
      modifies this`reason, this`isConfirmOpen
      ensures sent == ReasonArg(old(reason)) && reason == "" && !isConfirmOpen
    {
      sent := ReasonArg(reason);
      reason := "";
      isConfirmOpen := false;
    }

    method ConfirmCancel()
      modifies this`isConfirmOpen
      ensures !isConfirmOpen && reason == old(reason)
    {
      isConfirmOpen := false;
    }

    method HandleCancel()
      modifies this`reason
      ensures reason == ""
    {
      reason := "";
    }
  }

  /** The reason the delete dialog sends: the raw text when a reason is asked for, else trimmed or none. */
  function DeleteReasonArg(requireReason: bool, reason: string): (r: Option<string>)
    ensures requireReason ==> r == Some(reason)
    ensures !requireReason ==> r == ReasonArg(reason)
  {
    if requireReason then Some(reason) else ReasonArg(reason)
  }

  /** The preview lists at most 10 items. */
  const PreviewLimit: nat := 10

  function Preview<T>(items: seq<T>): (r: seq<T>)
    ensures |r| <= PreviewLimit && r <= items
    ensures |items| <= PreviewLimit ==> r == items
  {
    if |items| <= PreviewLimit then items else items[..PreviewLimit]
  }

  /** The "... and n more items" count, shown only when positive. */
  function RemainingCount<T>(items: seq<T>): (n: nat)
    ensures n > 0 <==> |items| > PreviewLimit
  {
    if |items| > PreviewLimit then |items| - PreviewLimit else 0
  }

  /** The preview and the remaining count account for every item. */
  lemma PreviewAccountsForAll<T>(items: seq<T>)
    ensures |Preview(items)| + RemainingCount(items) == |items|
    ensures Preview(items) + items[|Preview(items)|..] == items
  {
  }

  /** The delete dialog. */
  class DeleteDialog {
    const requireReason: bool
    var reason: string
    var isConfirmOpen: bool

    constructor (requireReason: bool)
      ensures this.requireReason == requireReason && reason == "" && !isConfirmOpen
    {
      this.requireReason := requireReason;
      reason := "";
      isConfirmOpen := false;
    }

    method SetReason(text: string)
      modifies this`reason
      ensures reason == text
    {
      reason := text;
    }

    /** The delete button: only a non-empty selection is demanded; a blank reason never blocks. */
    method HandleConfirm(selectedCount: nat)
      modifies this`isConfirmOpen
      ensures isConfirmOpen == (old(isConfirmOpen) || selectedCount > 0)
    {
      if selectedCount == 0 {
        return;
      }
      isConfirmOpen := true;
    }

    method FinalConfirm() returns (sent: Option<string>)
      modifies this`reason, this`isConfirmOpen
      ensures sent == DeleteReasonArg(requireReason, old(reason)) && reason == "" && !isConfirmOpen
    {
      sent := DeleteReasonArg(requireReason, reason);
      reason := "";
      isConfirmOpen := false;
    }

    method ConfirmCancel()
      modifies this`isConfirmOpen
      ensures !isConfirmOpen && reason == old(reason)
    {
      isConfirmOpen := false;
    }

    method HandleCancel()
      modifies this`reason
      ensures reason == ""
    {
      reason := "";
    }
  }
}
