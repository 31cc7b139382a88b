/**
 * The filter provider: the current filters offered to the filter bar
 * (defaults under the URL's filters) and the updates that hand a new
 * filter object to the URL state.
 */
module FilterProvider {
  import opened Wrappers
  import opened Values
  import opened OrderedMaps
  import opened UrlState

  /** `filters[key]`: a missing key reads as undefined. */
  function FGet(f: Filters, key: string): Value {
    if key in f.entries then f.entries[key] else Undefined
  }

  /** Each key of `keys` in turn set to its value in `top`. */
  function SetEach(acc: Filters, top: Filters, keys: seq<string>): (r: Filters)
    requires acc.Valid() && top.Valid()
    requires forall k :: k in keys ==> k in top.entries
    ensures r.Valid()
    ensures |acc.keys| <= |r.keys| && r.keys[..|acc.keys|] == acc.keys
    decreases |keys|
  {
    if keys == [] then acc
    else
      var next := acc.Set(keys[0], top.entries[keys[0]]);
      var r := SetEach(next, top, keys[1..]);
      assert r.keys[..|acc.keys|] == r.keys[..|next.keys|][..|acc.keys|];
      r
  }

  /** What `SetEach` holds at one key. */
  lemma {:induction false} SetEachAt(acc: Filters, top: Filters, keys: seq<string>, k: string)
    requires acc.Valid() && top.Valid()
    requires forall k :: k in keys ==> k in top.entries
    ensures var r := SetEach(acc, top, keys);
      (k in r.entries <==> k in acc.entries || k in keys)
      && (k in keys ==> r.entries[k] == top.entries[k])
      && (k !in keys && k in acc.entries ==> r.entries[k] == acc.entries[k])
    decreases |keys|
  {
    if keys != [] {
      var next := acc.Set(keys[0], top.entries[keys[0]]);
      SetEachAt(next, top, keys[1..], k);
      assert k in keys <==> k == keys[0] || k in keys[1..];
    }
  }

  /**
   * `{...base, ...top}`: every entry of `top` wins over `base`, and the
   * keys of `base` keep their places at the front.
   */
  function Overlay(base: Filters, top: Filters): (r: Filters)
    requires base.Valid() && top.Valid()
    ensures r.Valid()
    ensures forall k :: k in r.entries <==> k in base.entries || k in top.entries
    ensures forall k :: k in top.entries ==> r.entries[k] == top.entries[k]
    ensures forall k :: k in base.entries && k !in top.entries ==> r.entries[k] == base.entries[k]
    ensures |base.keys| <= |r.keys| && r.keys[..|base.keys|] == base.keys
  {
    var r := SetEach(base, top, top.keys);
    forall k
      ensures (k in r.entries <==> k in base.entries || k in top.entries)
      ensures (k in top.entries ==> r.entries[k] == top.entries[k])
      ensures (k in base.entries && k !in top.entries ==> r.entries[k] == base.entries[k])
    {
      SetEachAt(base, top, top.keys, k);
    }
    r
  }

  /** `currentFilters`: the default filters with the confirmed URL filters over them. */
  function CurrentFilters(defaults: Filters, urlFilters: Filters): (r: Filters)
    requires defaults.Valid() && urlFilters.Valid()
    ensures r.Valid()
  {
    Overlay(defaults, urlFilters)
  }

  /** One call of `updateFilter(key, value)` or `removeFilter(key)`. */
  datatype FilterOp = UpdateOp(key: string, value: Value) | RemoveOp(key: string)

  /** The filter object one call hands to `setFilters`, built on `current`. */
  function Applied(current: Filters, op: FilterOp): (r: Filters)
    requires current.Valid()
    ensures r.Valid()
    ensures op.key in r.entries <==> op.UpdateOp? && !Omitted(op.value)
    ensures op.key in r.entries ==> r.entries[op.key] == op.value
    ensures forall k :: k != op.key ==> (k in r.entries <==> k in current.entries)
    ensures forall k :: k != op.key && k in current.entries ==> r.entries[k] == current.entries[k]
  {
    match op
      case UpdateOp(key, value) => if Omitted(value) then current.Delete(key) else current.Set(key, value)
      case RemoveOp(key) => current.Delete(key)
  }

  /** No filter holds a value the URL would leave out. */
  ghost predicate NoEmptyValues(f: Filters) {
    forall k :: k in f.entries ==> !Omitted(f.entries[k])
  }

  /** An update never stores an empty value, so the filters stay clean. */
  lemma AppliedKeepsClean(current: Filters, op: FilterOp)
    requires current.Valid() && NoEmptyValues(current)
    ensures NoEmptyValues(Applied(current, op))
  {
  }

  /** Making the same call twice is making it once. */
  lemma AppliedIdempotent(current: Filters, op: FilterOp)
    requires current.Valid()
    ensures Applied(Applied(current, op), op) == Applied(current, op)
  {
    var once := Applied(current, op);
    if op.UpdateOp? && !Omitted(op.value) {
      assert op.key in once.entries;
      assert once.entries[op.key := op.value] == once.entries;
    } else {
      assert op.key !in once.entries;
      assert Remove(once.keys, op.key) == once.keys by {
        RemoveAbsent(once.keys, op.key);
      }
      assert once.entries - {op.key} == once.entries;
    }
  }

  /** Removing a key a sequence does not hold leaves it as it is. */
  lemma {:induction false} RemoveAbsent(s: seq<string>, k: string)
    requires k !in s
    ensures Remove(s, k) == s
  {
    if s != [] {
      RemoveAbsent(s[1..], k);
    }
  }

  /** Adding a filter that was absent and removing it again restores the filters, order included. */
  lemma UpdateThenRemove(current: Filters, key: string, value: Value)
    requires current.Valid() && key !in current.entries && !Omitted(value)
    ensures Applied(Applied(current, UpdateOp(key, value)), RemoveOp(key)) == current
  {
    SetThenDelete(current, key, value);
  }

  /** The calls applied one after another, each on the result of the last. */
  function Sequenced(current: Filters, ops: seq<FilterOp>): (r: Filters)
    requires current.Valid()
    ensures r.Valid()
    decreases |ops|
  {
    if ops == [] then current else Sequenced(Applied(current, ops[0]), ops[1..])
  }

  /** A single call applied in turn. */
  lemma SequencedOne(current: Filters, a: FilterOp)
    requires current.Valid()
    ensures Sequenced(current, [a]) == Applied(current, a)
  {
    assert [a][1..] == [];
  }

  /** Two calls applied in turn. */
  lemma SequencedTwo(current: Filters, a: FilterOp, b: FilterOp)
    requires current.Valid()
    ensures Sequenced(current, [a, b]) == Applied(Applied(current, a), b)
  {
    assert [a, b][1..] == [b];
    SequencedOne(Applied(current, a), b);
  }

  /** Running two batches in turn is running them as one. */
  lemma {:induction false} SequencedAppend(current: Filters, a: seq<FilterOp>, b: seq<FilterOp>)
    requires current.Valid()
    ensures Sequenced(current, a + b) == Sequenced(Sequenced(current, a), b)
    decreases |a|
  {
    if a != [] {
      assert (a + b)[0] == a[0] && (a + b)[1..] == a[1..] + b;
      SequencedAppend(Applied(current, a[0]), a[1..], b);
    } else {
      assert a + b == b;
    }
  }

  /** `applyQuickFilter(params)`: the preset's entries over the current filters. */
  function QuickFiltered(current: Filters, params: Filters): (r: Filters)
    requires current.Valid() && params.Valid()
    ensures r.Valid()
    ensures forall k :: k in params.entries ==> k in r.entries && r.entries[k] == params.entries[k]
    ensures forall k :: k !in params.entries ==> (k in r.entries <==> k in current.entries)
    ensures forall k :: k !in params.entries && k in current.entries ==> r.entries[k] == current.entries[k]
  {
    Overlay(current, params)
  }

  /**
   * The UI states the calls of one event handler hand to `setUIState`, as
   * written: every call reads the same render's `currentFilters` and
   * `uiState`, so each state holds only its own call's change.
   */
  function CallsAsWritten(renderUi: State, snapshot: Filters, ops: seq<FilterOp>): (r: seq<State>)
    requires snapshot.Valid()
    ensures |r| == |ops|
    ensures forall i :: 0 <= i < |ops| ==> r[i] == renderUi.(filters := Applied(snapshot, ops[i]), page := 1)
  {
    seq(|ops|, i requires 0 <= i < |ops| => renderUi.(filters := Applied(snapshot, ops[i]), page := 1))
  }

  /** The UI state a handler leaves: React keeps the last state it was handed. */
  function LastState(renderUi: State, calls: seq<State>): State {
    if calls == [] then renderUi else calls[|calls| - 1]
  }

  /**
   * As written, applying a date range (`dateType`, then `date`) in one
   * handler ends with the filters of the second call alone: a `dateType`
   * the filters did not already hold is lost, while the order of calls
   * applied in turn keeps both.
   */
  lemma DateRangeApplyLosesDateType(renderUi: State, snapshot: Filters, dateType: string, range: string)
    requires snapshot.Valid() && "dateType" !in snapshot.entries
    requires dateType != "" && range != ""
    ensures var ops := [UpdateOp("dateType", Str(dateType)), UpdateOp("date", Str(range))];
      var last := LastState(renderUi, CallsAsWritten(renderUi, snapshot, ops));
      "dateType" !in last.filters.entries && last.filters.entries["date"] == Str(range)
      && "dateType" in Sequenced(snapshot, ops).entries
      && Sequenced(snapshot, ops).entries["dateType"] == Str(dateType)
      && "date" in Sequenced(snapshot, ops).entries && Sequenced(snapshot, ops).entries["date"] == Str(range)
  {
    var ops := [UpdateOp("dateType", Str(dateType)), UpdateOp("date", Str(range))];
    assert ops[1..] == [UpdateOp("date", Str(range))];
    var once := Applied(snapshot, ops[0]);
    assert Sequenced(snapshot, ops) == Sequenced(once, ops[1..]);
    assert Sequenced(once, ops[1..]) == Applied(once, ops[1]);
  }

  /**
   * As written, clearing a date range (remove `dateType`, then `date`) in
   * one handler keeps `dateType`; applied in turn, both go.
   */
  lemma DateRangeClearKeepsDateType(renderUi: State, snapshot: Filters)
    requires snapshot.Valid() && "dateType" in snapshot.entries
    ensures var ops := [RemoveOp("dateType"), RemoveOp("date")];
      var last := LastState(renderUi, CallsAsWritten(renderUi, snapshot, ops));
      "dateType" in last.filters.entries && last.filters.entries["dateType"] == snapshot.entries["dateType"]
      && "dateType" !in Sequenced(snapshot, ops).entries && "date" !in Sequenced(snapshot, ops).entries
  {
    var ops := [RemoveOp("dateType"), RemoveOp("date")];
    assert ops[1..] == [RemoveOp("date")];
    var once := Applied(snapshot, ops[0]);
    assert Sequenced(snapshot, ops) == Sequenced(once, ops[1..]);
    assert Sequenced(once, ops[1..]) == Applied(once, ops[1]);
  }

  /**
   * For a single call made while nothing is waiting to be confirmed (the
   * confirmed filters are the UI's), the written call, built on the
   * confirmed filters, and the corrected one, built on the UI filters,
   * hand over the same state.
   */
  lemma SingleCallAgrees(defaults: Filters, renderUi: State, confirmedFilters: Filters, op: FilterOp)
    requires defaults.Valid() && renderUi.filters.Valid()
    requires confirmedFilters == renderUi.filters
    ensures LastState(renderUi, CallsAsWritten(renderUi, CurrentFilters(defaults, confirmedFilters), [op]))
            == renderUi.(filters := Sequenced(CurrentFilters(defaults, renderUi.filters), [op]), page := 1)
  {
    SequencedOne(CurrentFilters(defaults, renderUi.filters), op);
  }

  /**
   * While a filter change waits for its confirmation, a further single
   * call as written drops it: the call builds on the confirmed filters,
   * where the change is not yet; built on the UI filters, it is kept.
   */
  lemma PendingChangeLostAsWritten(defaults: Filters, renderUi: State, confirmedFilters: Filters, k: string, op: FilterOp)
    requires defaults.Valid() && renderUi.filters.Valid() && confirmedFilters.Valid()
    requires k in renderUi.filters.entries && k !in confirmedFilters.entries && k !in defaults.entries
    requires op.key != k
    ensures k !in LastState(renderUi, CallsAsWritten(renderUi, CurrentFilters(defaults, confirmedFilters), [op])).filters.entries
    ensures k in Sequenced(CurrentFilters(defaults, renderUi.filters), [op]).entries
  {
    SequencedOne(CurrentFilters(defaults, renderUi.filters), op);
  }

  /**
   * A quick filter is spread over the confirmed filters: a UI filter not
   * yet confirmed, not a default and not in the preset is dropped.
   */
  lemma QuickFilterDropsPending(defaults: Filters, uiFilters: Filters, confirmedFilters: Filters, params: Filters, k: string)
    requires defaults.Valid() && uiFilters.Valid() && confirmedFilters.Valid() && params.Valid()
    requires k in uiFilters.entries && k !in confirmedFilters.entries && k !in defaults.entries && k !in params.entries
    ensures k !in QuickFiltered(CurrentFilters(defaults, confirmedFilters), params).entries
    ensures k in QuickFiltered(CurrentFilters(defaults, uiFilters), params).entries
  {
  }

  /**
   * The filter provider's update calls over the URL state store.
   * `defaults` is the `defaultFilters` prop.
   */
  class FilterContext {
    const defaults: Filters
    const store: UrlStateStore

    ghost predicate Valid()
      reads this, store
    {
      defaults.Valid() && store.Valid()
    }

    constructor (defaults: Filters, store: UrlStateStore)
      requires defaults.Valid() && store.Valid()
      ensures Valid() && this.defaults == defaults && this.store == store
    {
      this.defaults := defaults;
      this.store := store;
    }

    /** `currentFilters` of the latest render. */
    function Current(): (r: Filters)
      requires Valid()
      reads this, store
      ensures r.Valid()
    {
      CurrentFilters(defaults, store.confirmed.filters)
    }

    /**
     * The calls of one event handler as written: each builds on the
     * render's `currentFilters` and hands `setFilters` a state built on
     * the render's `uiState`; the UI ends with the last call's state.
     */
    method DispatchAsWritten(ops: seq<FilterOp>)
      requires Valid()
      modifies store`ui, store`confirmed, store`pending
      ensures Valid()
      ensures store.ui == LastState(old(store.ui), CallsAsWritten(old(store.ui), CurrentFilters(defaults, old(store.confirmed).filters), ops))
      ensures ops == [] ==> store.confirmed == old(store.confirmed) && store.pending == old(store.pending)
      ensures ops != [] ==> DebounceRule(old(store.confirmed), store.ui, store.confirmed, store.pending)
    {
      var renderUi := store.ui;
      var renderConfirmed := store.confirmed;
      var snapshot := CurrentFilters(defaults, renderConfirmed.filters);
      ghost var calls := CallsAsWritten(renderUi, snapshot, ops);
      for i := 0 to |ops|
        invariant Valid()
        invariant store.ui == LastState(renderUi, calls[..i])
        invariant i == 0 ==> store.confirmed == renderConfirmed && store.pending == old(store.pending)
        invariant i > 0 ==> DebounceRule(renderConfirmed, store.ui, store.confirmed, store.pending)
      {
        store.SetFiltersIn(renderUi, renderConfirmed, Applied(snapshot, ops[i]));
        assert calls[..i + 1][i] == calls[i];
      }
      assert calls[..|ops|] == calls;
    }

    /**
     * The calls of one handler as one update: they apply in turn to the
     * filters the UI shows (defaults under them), and `setFilters` is
     * called once with the result.
     */
    method Dispatch(ops: seq<FilterOp>)
      requires Valid()
      modifies store`ui, store`confirmed, store`pending
      ensures Valid()
      ensures ops == [] ==> store.ui == old(store.ui) && store.confirmed == old(store.confirmed) && store.pending == old(store.pending)
      ensures ops != [] ==> store.ui == old(store.ui).(filters := Sequenced(CurrentFilters(defaults, old(store.ui).filters), ops), page := 1)
      ensures ops != [] ==> DebounceRule(old(store.confirmed), store.ui, store.confirmed, store.pending)
    {
      if ops != [] {
        store.SetFilters(Sequenced(CurrentFilters(defaults, store.ui.filters), ops));
      }
    }

    /** `updateFilter(key, value)`: an empty value removes the filter. */
    method UpdateFilter(key: string, value: Value)
      requires Valid()
      modifies store`ui, store`confirmed, store`pending
      ensures Valid()
      ensures store.ui == old(store.ui).(filters := Applied(CurrentFilters(defaults, old(store.ui).filters), UpdateOp(key, value)), page := 1)
      ensures DebounceRule(old(store.confirmed), store.ui, store.confirmed, store.pending)
    {
      Dispatch([UpdateOp(key, value)]);
      assert [UpdateOp(key, value)][1..] == [];
    }

    /** `removeFilter(key)`. */
    method RemoveFilter(key: string)
      requires Valid()
      modifies store`ui, store`confirmed, store`pending
      ensures Valid()
      ensures store.ui == old(store.ui).(filters := Applied(CurrentFilters(defaults, old(store.ui).filters), RemoveOp(key)), page := 1)
      ensures DebounceRule(old(store.confirmed), store.ui, store.confirmed, store.pending)
    {
      Dispatch([RemoveOp(key)]);
      assert [RemoveOp(key)][1..] == [];
    }

    /**
     * `applyQuickFilter(params)`: the preset spread over the render's
     * `currentFilters`, the confirmed ones, in one update.
     */
    method ApplyQuickFilter(params: Filters)
      requires Valid() && params.Valid()
      modifies store`ui, store`confirmed, store`pending
      ensures Valid()
      ensures store.ui == old(store.ui).(filters := QuickFiltered(CurrentFilters(defaults, old(store.confirmed).filters), params), page := 1)
      ensures DebounceRule(old(store.confirmed), store.ui, store.confirmed, store.pending)
    {
      store.SetFilters(QuickFiltered(Current(), params));
    }

    /** `clearAllFilters`: the defaults are not restored in the URL state. */
    method ClearAllFilters()
      requires Valid()
      modifies store`ui, store`confirmed, store`pending
      ensures Valid()
      ensures store.ui == old(store.ui).(filters := EmptyMap(), page := 1)
      ensures DebounceRule(old(store.confirmed), store.ui, store.confirmed, store.pending)
    {
      store.ClearAllFilters();
    }

    /** `updateSearch(search)`. */
    method UpdateSearch(search: string)
      requires Valid()
      modifies store`ui, store`searchPending
      ensures Valid()
      ensures store.ui == old(store.ui).(search := search, page := 1) && store.searchPending == Some(store.ui)
    {
      store.SetSearch(search);
    }

    /** `clearSearch`. */
    method ClearSearch()
      requires Valid()
      modifies store`ui, store`confirmed, store`pending
      ensures Valid()
      ensures store.ui == old(store.ui).(search := "", page := 1)
      ensures DebounceRule(old(store.confirmed), store.ui, store.confirmed, store.pending)
    {
      store.ClearSearch();
    }
  }
}
