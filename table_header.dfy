/**
 * The header's select-all checkbox. The ids of the rendered rows are
 * read back from their `data-row-id` text; they are an input here.
 */
module TableHeader {
  import opened Wrappers
  import opened Values
  import opened Editing

  /**
   * A row id read back from its text: a number when `Number(text)` is not
   * NaN (`numberOf` stands for `Number`, None meaning NaN), else the text.
   */
  function IdFromText(numberOf: string -> Option<int>, text: string): (id: Value)
    ensures numberOf(text).Some? ==> id == Int(numberOf(text).value)
    ensures numberOf(text).None? ==> id == Str(text)
  {
    match numberOf(text)
      case Some(n) => Int(n)
      case None => Str(text)
  }

  /** The visible ids, as parsed, in row order. */
  function VisibleIds(numberOf: string -> Option<int>, texts: seq<string>): (r: seq<Value>)
    ensures |r| == |texts| && forall i :: 0 <= i < |texts| ==> r[i] == IdFromText(numberOf, texts[i])
  {
    seq(|texts|, i requires 0 <= i < |texts| => IdFromText(numberOf, texts[i]))
  }

  /**
   * The selection after select-all: when every non-dirty visible id is
   * selected they are all removed, otherwise they are all added.
   */
  function ToggleAll(selected: set<Value>, nonDirty: set<Value>): set<Value> {
    if nonDirty <= selected then selected - nonDirty else selected + nonDirty
  }

  /**
   * Ids outside `nonDirty` (dirty rows and rows not shown) keep their
   * membership, and afterwards either all or none of `nonDirty` is selected.
   */
  lemma ToggleAllProperties(selected: set<Value>, nonDirty: set<Value>)
    ensures forall id :: id !in nonDirty ==> (id in ToggleAll(selected, nonDirty) <==> id in selected)
    ensures nonDirty <= selected ==> nonDirty !! ToggleAll(selected, nonDirty)
    ensures !(nonDirty <= selected) ==> nonDirty <= ToggleAll(selected, nonDirty)
    ensures nonDirty <= ToggleAll(selected, nonDirty) || nonDirty !! ToggleAll(selected, nonDirty)
  {
  }

  /** Applying select-all twice to the same rows restores a selection that held all or none of them. */
  lemma ToggleAllTwice(selected: set<Value>, nonDirty: set<Value>)
    requires nonDirty != {} && (nonDirty <= selected || nonDirty !! selected)
    ensures ToggleAll(ToggleAll(selected, nonDirty), nonDirty) == selected
  {
    if nonDirty <= selected {
      var x :| x in nonDirty;
      assert x !in ToggleAll(selected, nonDirty);
    }
  }

  /** `handleToggleAll`. */
  method HandleToggleAll(engine: EditingEngine, numberOf: string -> Option<int>, rowTexts: seq<string>)
    modifies engine`selectedRowIds
    ensures var ids := VisibleIds(numberOf, rowTexts);
            engine.selectedRowIds
            == ToggleAll(old(engine.selectedRowIds), set i | 0 <= i < |ids| && ids[i] !in engine.dirtyRows.entries :: ids[i])
  {
    var ids := VisibleIds(numberOf, rowTexts);
    ghost var target := set i | 0 <= i < |ids| && ids[i] !in engine.dirtyRows.entries :: ids[i];
    // The non-dirty ids, in row order.
    var nonDirty: seq<Value> := [];
    var i := 0;
    while i < |ids|
      invariant 0 <= i <= |ids|
      invariant forall x :: x in nonDirty <==> exists j :: 0 <= j < i && ids[j] == x && ids[j] !in engine.dirtyRows.entries
    {
      if !engine.IsDirty(ids[i]) {
        nonDirty := nonDirty + [ids[i]];
      }
      i := i + 1;
    }
    assert forall x :: x in nonDirty <==> x in target;
    // Whether every one of them is selected.
    var allSelected := true;
    i := 0;
    while i < |nonDirty|
      invariant 0 <= i <= |nonDirty|
      invariant allSelected <==> forall j :: 0 <= j < i ==> nonDirty[j] in engine.selectedRowIds
    {
      allSelected := allSelected && nonDirty[i] in engine.selectedRowIds;
      i := i + 1;
    }
    assert allSelected <==> target <= engine.selectedRowIds;
    var next := engine.selectedRowIds;
    i := 0;
    while i < |nonDirty|
      invariant 0 <= i <= |nonDirty|
      invariant next == if allSelected then engine.selectedRowIds - set j | 0 <= j < i :: nonDirty[j]
                        else engine.selectedRowIds + set j | 0 <= j < i :: nonDirty[j]
    {
      ghost var before := set j | 0 <= j < i :: nonDirty[j];
      assert (set j | 0 <= j < i + 1 :: nonDirty[j]) == before + {nonDirty[i]};
      if allSelected {
        next := next - {nonDirty[i]};
      } else {
        next := next + {nonDirty[i]};
      }
      i := i + 1;
    }
    assert (set j | 0 <= j < |nonDirty| :: nonDirty[j]) == target;
    engine.SetSelectedRowIds(next);
  }
}
