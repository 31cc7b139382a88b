/**
 * The filter bar: the value each filter field shows (confirmed URL
 * filters first, then what was typed), the chips of active filters, and
 * the updates applying or clearing a field makes.
 */
module FilterBar {
  import opened Wrappers
  import opened JsStrings
  import opened Values
  import opened OrderedMaps
  import opened UrlState
  import opened FilterProvider
  import opened SeqFacts

  datatype FilterKind = StringField | NumberField | DateRangeField | BooleanField | SelectField

  datatype FilterField = FilterField(key: string, title: string, kind: FilterKind)

  /** `fields.find(f => f.key === key)`. */
  function FindField(fields: seq<FilterField>, key: string): (r: Option<FilterField>)
    ensures r.Some? ==> r.value in fields && r.value.key == key
    ensures r.None? <==> forall i :: 0 <= i < |fields| ==> fields[i].key != key
    ensures forall i :: 0 <= i < |fields| && fields[i].key == key && (forall j :: 0 <= j < i ==> fields[j].key != key)
              ==> r == Some(fields[i])
  {
    if fields == [] then None
    else if fields[0].key == key then Some(fields[0])
    else
      var r := FindField(fields[1..], key);
      assert forall i :: 1 <= i < |fields| ==> fields[i] == fields[1..][i - 1];
      r
  }

  predicate IsDateRange(fields: seq<FilterField>, key: string) {
    var f := FindField(fields, key);
    f.Some? && f.value.kind == DateRangeField
  }

  /** What a field holds: a plain value, or a date range's three parts. */
  datatype FieldEntry = Plain(v: Value) | RangeEntry(dateType: string, start: string, end: string)

  /** `fieldValues`: what was typed into each field. */
  type FieldValues = map<string, FieldEntry>

  const EmptyRange: FieldEntry := RangeEntry("", "", "")

  /** `fieldValues[key]` where a plain value is read; a missing field is undefined. */
  function LocalPlain(fv: FieldValues, key: string): Value {
    if key in fv && fv[key].Plain? then fv[key].v else Undefined
  }

  /** The effect that copies the confirmed filters into the fields. */
  function InitialFieldValues(q: Filters): (r: FieldValues)
    ensures forall k :: k in r <==> k in q.entries
    ensures forall k :: k in r ==> r[k] == Plain(q.entries[k])
  {
    map k | k in q.entries :: Plain(q.entries[k])
  }

  /** A stored `date` filter split at its comma. */
  function RangeFrom(dateType: string, date: string): FieldEntry {
    var parts := Split(date, ',');
    RangeEntry(dateType, PieceOr(parts, 0), PieceOr(parts, 1))
  }

  /** A range stored as `start,end` reads back as itself. */
  lemma RangeFromJoined(dateType: string, start: string, end: string)
    requires ',' !in start && ',' !in end
    ensures RangeFrom(dateType, start + "," + end) == RangeEntry(dateType, start, end)
  {
    var parts := [start, end];
    assert Join(parts, [',']) == start + "," + end by {
      assert parts[1..] == [end];
    }
    SplitJoin(parts, ',');
  }

  /**
   * `getFieldValue(key)`: a date-range field is rebuilt from the
   * `dateType` and `date` filters when a date is there, and otherwise
   * shows what was typed; other fields show the confirmed filter, else
   * what was typed, else `''`.
   */
  function GetFieldValue(fields: seq<FilterField>, q: Filters, fv: FieldValues, key: string, dateText: Date -> string): (r: FieldEntry)
    ensures !IsDateRange(fields, key) ==>
              r == Plain(if !IsNullish(FGet(q, key)) then FGet(q, key)
                         else if !IsNullish(LocalPlain(fv, key)) then LocalPlain(fv, key)
                         else Str(""))
    ensures IsDateRange(fields, key) ==>
              var date := if !IsNullish(FGet(q, "date")) then FGet(q, "date")
                          else if !IsNullish(LocalPlain(fv, "date")) then LocalPlain(fv, "date")
                          else Str("");
              var dateType := if !IsNullish(FGet(q, "dateType")) then FGet(q, "dateType")
                              else if !IsNullish(LocalPlain(fv, "dateType")) then LocalPlain(fv, "dateType")
                              else Str("");
              if date.Str? && date.s != "" then r == RangeFrom(JsString(dateType, dateText), date.s)
              else if key in fv && fv[key] != Plain(Null) && fv[key] != Plain(Undefined) then r == fv[key]
              else r == EmptyRange
  {
    if IsDateRange(fields, key) then
      var dateType := Coalesce(Coalesce(FGet(q, "dateType"), LocalPlain(fv, "dateType")), Str(""));
      var date := Coalesce(Coalesce(FGet(q, "date"), LocalPlain(fv, "date")), Str(""));
      if date.Str? && date.s != "" then RangeFrom(JsString(dateType, dateText), date.s)
      else if key in fv && fv[key] != Plain(Null) && fv[key] != Plain(Undefined) then fv[key]
      else EmptyRange
    else
      Plain(Coalesce(Coalesce(FGet(q, key), LocalPlain(fv, key)), Str("")))
  }

  /** With no confirmed filter, a field that is not a date range shows what was typed, or '' when nothing was. */
  lemma TypedValueShown(fields: seq<FilterField>, q: Filters, fv: FieldValues, key: string, dateText: Date -> string)
    requires !IsDateRange(fields, key) && key !in q.entries
    ensures key in fv && fv[key].Plain? && !IsNullish(fv[key].v) ==> GetFieldValue(fields, q, fv, key, dateText) == fv[key]
    ensures key !in fv ==> GetFieldValue(fields, q, fv, key, dateText) == Plain(Str(""))
  {
  }

  /** A confirmed filter wins over what was typed in a field that is not a date range. */
  lemma ConfirmedValueShown(fields: seq<FilterField>, q: Filters, fv: FieldValues, key: string, dateText: Date -> string)
    requires !IsDateRange(fields, key) && !IsNullish(FGet(q, key))
    ensures GetFieldValue(fields, q, fv, key, dateText) == Plain(FGet(q, key))
  {
  }

  /**
   * Whether a field of kind `kind` showing `value` may be applied; a text
   * is "not blank after `trim()`" exactly when it is not all whitespace
   * (`BlankIffAllWhitespace`).
   */
  predicate Applicable(kind: FilterKind, value: FieldEntry) {
    match kind
      case BooleanField => true
      case DateRangeField =>
        value.RangeEntry? && !AllWhitespace(value.dateType) && !AllWhitespace(value.start) && !AllWhitespace(value.end)
      case SelectField => value != Plain(Undefined) && value != Plain(Str(""))
      case _ => value.Plain? && value.v.Str? && !AllWhitespace(value.v.s)
  }

  /** `canApplyFilter(key)`. */
  predicate CanApplyFilter(fields: seq<FilterField>, q: Filters, fv: FieldValues, key: string, dateText: Date -> string) {
    match FindField(fields, key)
      case None => false
      case Some(f) => Applicable(f.kind, GetFieldValue(fields, q, fv, key, dateText))
  }

  /**
   * `canApplyFilter` kind by kind, with blankness as `trim() !== ''`: a
   * boolean always applies; a date range needs a type, a start and an end
   * that are not blank; a select needs a value other than undefined and
   * ''; any other field needs a text that is not blank.
   */
  lemma CanApplyByKind(fields: seq<FilterField>, q: Filters, fv: FieldValues, key: string, dateText: Date -> string)
    ensures FindField(fields, key).None? ==> !CanApplyFilter(fields, q, fv, key, dateText)
    ensures FindField(fields, key).Some? ==>
      var value := GetFieldValue(fields, q, fv, key, dateText);
      match FindField(fields, key).value.kind
        case BooleanField => CanApplyFilter(fields, q, fv, key, dateText)
        case DateRangeField =>
          CanApplyFilter(fields, q, fv, key, dateText) <==>
            value.RangeEntry? && Trim(value.dateType) != "" && Trim(value.start) != "" && Trim(value.end) != ""
        case SelectField =>
          CanApplyFilter(fields, q, fv, key, dateText) <==> value != Plain(Undefined) && value != Plain(Str(""))
        case _ =>
          CanApplyFilter(fields, q, fv, key, dateText) <==> value.Plain? && value.v.Str? && Trim(value.v.s) != ""
  {
    var value := GetFieldValue(fields, q, fv, key, dateText);
    if value.RangeEntry? {
      BlankIffAllWhitespace(value.dateType);
      BlankIffAllWhitespace(value.start);
      BlankIffAllWhitespace(value.end);
    } else if value.v.Str? {
      BlankIffAllWhitespace(value.v.s);
    }
  }

  /** The `updateFilter` calls for an applicable field of kind `kind` showing `value`. */
  function OpsFor(kind: FilterKind, key: string, value: FieldEntry, dateText: Date -> string): (r: seq<FilterOp>)
    requires Applicable(kind, value)
    requires kind != DateRangeField ==> value.Plain? && !IsNullish(value.v)
    ensures |r| == (if kind == DateRangeField then 2 else 1)
    ensures forall i :: 0 <= i < |r| ==> r[i].UpdateOp? && !Omitted(r[i].value)
    ensures kind != DateRangeField ==> r[0].key == key
  {
    if kind == BooleanField then [UpdateOp(key, Bool(Truthy(value.v)))]
    else if kind == DateRangeField then
      var range := value.start + "," + value.end;
      assert |range| > 0;
      [UpdateOp("dateType", Str(value.dateType)), UpdateOp("date", Str(range))]
    else if kind == SelectField then [UpdateOp(key, value.v)]
    else
      var text := Trim(value.v.s);
      assert text != "" by { BlankIffAllWhitespace(value.v.s); }
      [UpdateOp(key, Str(text))]
  }

  /**
   * The `updateFilter` calls `applyFilter(key)` makes, in order: none
   * when the field cannot be applied, two for a date range, one otherwise.
   */
  function ApplyFilterOps(fields: seq<FilterField>, q: Filters, fv: FieldValues, key: string, dateText: Date -> string): (r: seq<FilterOp>)
    ensures !CanApplyFilter(fields, q, fv, key, dateText) ==> r == []
    ensures CanApplyFilter(fields, q, fv, key, dateText) ==> |r| == if IsDateRange(fields, key) then 2 else 1
    ensures forall i :: 0 <= i < |r| ==> r[i].UpdateOp? && !Omitted(r[i].value)
    ensures |r| == 1 ==> r[0].key == key
  {
    match FindField(fields, key)
      case None => []
      case Some(f) =>
        var value := GetFieldValue(fields, q, fv, key, dateText);
        if !Applicable(f.kind, value) then [] else OpsFor(f.kind, key, value, dateText)
  }

  /** The `removeFilter` calls `clearFilter(key)` makes, in order. */
  function ClearFilterOps(fields: seq<FilterField>, key: string): (r: seq<FilterOp>)
    ensures forall i :: 0 <= i < |r| ==> r[i].RemoveOp?
    ensures IsDateRange(fields, key) ==> r == [RemoveOp("dateType"), RemoveOp("date")]
    ensures !IsDateRange(fields, key) ==> r == [RemoveOp(key)]
  {
    if IsDateRange(fields, key) then [RemoveOp("dateType"), RemoveOp("date")] else [RemoveOp(key)]
  }

  /**
   * A date range applied in one update reads back as the range that was
   * applied, once the result is confirmed.
   */
  lemma ApplyRangeThenRead(fields: seq<FilterField>, q: Filters, fv: FieldValues, key: string, dateText: Date -> string, base: Filters)
    requires base.Valid() && IsDateRange(fields, key) && CanApplyFilter(fields, q, fv, key, dateText)
    requires var value := GetFieldValue(fields, q, fv, key, dateText);
      value.RangeEntry? && ',' !in value.start && ',' !in value.end
    ensures var after := Sequenced(base, ApplyFilterOps(fields, q, fv, key, dateText));
      GetFieldValue(fields, after, fv, key, dateText) == GetFieldValue(fields, q, fv, key, dateText)
  {
    var value := GetFieldValue(fields, q, fv, key, dateText);
    var range := value.start + "," + value.end;
    var a := UpdateOp("dateType", Str(value.dateType));
    var b := UpdateOp("date", Str(range));
    assert ApplyFilterOps(fields, q, fv, key, dateText) == [a, b];
    SequencedTwo(base, a, b);
    var after := Applied(Applied(base, a), b);
    assert FGet(after, "dateType") == Str(value.dateType) && FGet(after, "date") == Str(range) by {
      RangeStored(base, value.dateType, range);
    }
    RangeReadBack(fields, after, fv, key, dateText, value.dateType, value.start, value.end);
  }

  /** The two updates of a date range leave its type and its joined dates in the filters. */
  lemma RangeStored(base: Filters, dateType: string, range: string)
    requires base.Valid() && dateType != "" && range != ""
    ensures var after := Applied(Applied(base, UpdateOp("dateType", Str(dateType))), UpdateOp("date", Str(range)));
      FGet(after, "dateType") == Str(dateType) && FGet(after, "date") == Str(range)
  {
  }

  /** A date range field whose filters hold a type and `start,end` shows that range. */
  lemma RangeReadBack(fields: seq<FilterField>, q: Filters, fv: FieldValues, key: string, dateText: Date -> string,
                      dateType: string, start: string, end: string)
    requires IsDateRange(fields, key) && ',' !in start && ',' !in end
    requires FGet(q, "dateType") == Str(dateType) && FGet(q, "date") == Str(start + "," + end)
    ensures GetFieldValue(fields, q, fv, key, dateText) == RangeEntry(dateType, start, end)
  {
    RangeFromJoined(dateType, start, end);
  }

  /** A text or number filter applied reads back trimmed, once the result is confirmed. */
  lemma ApplyTextThenRead(fields: seq<FilterField>, q: Filters, fv: FieldValues, key: string, dateText: Date -> string, base: Filters)
    requires base.Valid() && CanApplyFilter(fields, q, fv, key, dateText)
    requires FindField(fields, key).Some? && (FindField(fields, key).value.kind == StringField || FindField(fields, key).value.kind == NumberField)
    ensures var value := GetFieldValue(fields, q, fv, key, dateText);
      var after := Sequenced(base, ApplyFilterOps(fields, q, fv, key, dateText));
      value.Plain? && value.v.Str? && GetFieldValue(fields, after, fv, key, dateText) == Plain(Str(Trim(value.v.s)))
  {
    var value := GetFieldValue(fields, q, fv, key, dateText);
    TextOps(fields, q, fv, key, dateText);
    var a := UpdateOp(key, Str(Trim(value.v.s)));
    SequencedOne(base, a);
    assert FGet(Applied(base, a), key) == Str(Trim(value.v.s));
  }

  /** An applicable text or number field makes one update, with its trimmed text. */
  lemma TextOps(fields: seq<FilterField>, q: Filters, fv: FieldValues, key: string, dateText: Date -> string)
    requires CanApplyFilter(fields, q, fv, key, dateText)
    requires FindField(fields, key).Some? && (FindField(fields, key).value.kind == StringField || FindField(fields, key).value.kind == NumberField)
    ensures var value := GetFieldValue(fields, q, fv, key, dateText);
      value.Plain? && value.v.Str? && ApplyFilterOps(fields, q, fv, key, dateText) == [UpdateOp(key, Str(Trim(value.v.s)))]
  {
    var value := GetFieldValue(fields, q, fv, key, dateText);
    var f := FindField(fields, key).value;
    assert Applicable(f.kind, value);
    OpsForText(f.kind, key, value, dateText);
  }

  lemma OpsForText(kind: FilterKind, key: string, value: FieldEntry, dateText: Date -> string)
    requires kind == StringField || kind == NumberField
    requires Applicable(kind, value)
    ensures value.Plain? && value.v.Str? && OpsFor(kind, key, value, dateText) == [UpdateOp(key, Str(Trim(value.v.s)))]
  {
    assert value.Plain? && value.v.Str?;
    assert kind != BooleanField && kind != DateRangeField && kind != SelectField;
  }

  /** After a field is cleared, it cannot be applied again until something is typed. */
  lemma ClearThenCannotApply(fields: seq<FilterField>, fv: FieldValues, key: string, dateText: Date -> string, base: Filters)
    requires base.Valid() && LocalPlain(fv, "date") == Undefined
    requires FindField(fields, key).Some? && FindField(fields, key).value.kind != BooleanField
    ensures var after := Sequenced(base, ClearFilterOps(fields, key));
      !CanApplyFilter(fields, after, fv[key := Plain(Str(""))], key, dateText)
  {
    var fv' := fv[key := Plain(Str(""))];
    if IsDateRange(fields, key) {
      SequencedTwo(base, RemoveOp("dateType"), RemoveOp("date"));
      var after := Applied(Applied(base, RemoveOp("dateType")), RemoveOp("date"));
      assert FGet(after, "date") == Undefined;
      assert LocalPlain(fv', "date") == Undefined || LocalPlain(fv', "date") == Str("");
      ClearedRangeCannotApply(fields, after, fv', key, dateText);
    } else {
      SequencedOne(base, RemoveOp(key));
      var after := Applied(base, RemoveOp(key));
      assert FGet(after, key) == Undefined;
      ClearedFieldCannotApply(fields, after, fv', key, dateText);
    }
  }

  /** A date range whose `date` filter is gone and whose field was emptied shows nothing to apply. */
  lemma ClearedRangeCannotApply(fields: seq<FilterField>, after: Filters, fv: FieldValues, key: string, dateText: Date -> string)
    requires IsDateRange(fields, key) && FGet(after, "date") == Undefined
    requires LocalPlain(fv, "date") == Undefined || LocalPlain(fv, "date") == Str("")
    requires key in fv && fv[key] == Plain(Str(""))
    ensures !CanApplyFilter(fields, after, fv, key, dateText)
  {
  }

  /** A field other than a date range or a boolean, with its filter gone and its text emptied, cannot be applied. */
  lemma ClearedFieldCannotApply(fields: seq<FilterField>, after: Filters, fv: FieldValues, key: string, dateText: Date -> string)
    requires FindField(fields, key).Some? && FindField(fields, key).value.kind != BooleanField
    requires !IsDateRange(fields, key) && FGet(after, key) == Undefined
    requires key in fv && fv[key] == Plain(Str(""))
    ensures !CanApplyFilter(fields, after, fv, key, dateText)
  {
  }

  /** One chip of the active-filter list. */
  datatype ActiveFilter =
    | ActiveRange(key: string, title: string, dateType: string, start: string, end: string)
    | ActiveBool(key: string, title: string, b: bool)
    | ActiveText(key: string, title: string, kind: FilterKind, text: string)

  /** The chip a field contributes when it is a date range and both `dateType` and `date` are set. */
  function RangeChip(f: FilterField, q: Filters, dateText: Date -> string): (r: seq<ActiveFilter>)
    ensures |r| <= 1
  {
    var dateType := FGet(q, "dateType");
    var date := FGet(q, "date");
    if f.kind == DateRangeField && Truthy(dateType) && Truthy(date) then
      var parts := Split(JsString(date, dateText), ',');
      [ActiveRange(f.key, f.title, JsString(dateType, dateText), PieceOr(parts, 0), PieceOr(parts, 1))]
    else []
  }

  /** The date-range chips, one per date-range field, in field order. */
  function RangeChips(fields: seq<FilterField>, q: Filters, dateText: Date -> string): (r: seq<ActiveFilter>)
    ensures |r| <= |fields|
    ensures forall i :: 0 <= i < |r| ==> r[i].ActiveRange?
    ensures r != [] ==> Truthy(FGet(q, "dateType")) && Truthy(FGet(q, "date"))
    decreases |fields|
  {
    if fields == [] then [] else RangeChip(fields[0], q, dateText) + RangeChips(fields[1..], q, dateText)
  }

  /** The chip one other filter contributes: none for `dateType`, `date`, keys without a field and date-range fields. */
  function KeyChip(fields: seq<FilterField>, q: Filters, key: string, dateText: Date -> string): (r: seq<ActiveFilter>)
    ensures |r| <= 1
    ensures r != [] ==> key != "dateType" && key != "date" && FindField(fields, key).Some?
                        && FindField(fields, key).value.kind != DateRangeField
    ensures r != [] ==> r[0].key == key && !r[0].ActiveRange?
  {
    if key == "dateType" || key == "date" then []
    else match FindField(fields, key)
      case None => []
      case Some(f) =>
        if f.kind == BooleanField then [ActiveBool(key, f.title, Truthy(FGet(q, key)))]
        else if f.kind != DateRangeField then [ActiveText(key, f.title, f.kind, JsString(FGet(q, key), dateText))]
        else []
  }

  /** The chips of the other filters, in the order of `keys`. */
  function KeyChips(fields: seq<FilterField>, q: Filters, keys: seq<string>, dateText: Date -> string): (r: seq<ActiveFilter>)
    ensures |r| <= |keys|
    ensures forall i :: 0 <= i < |r| ==> !r[i].ActiveRange? && r[i].key in keys
    ensures forall i :: 0 <= i < |r| ==> r[i].key != "dateType" && r[i].key != "date" && FindField(fields, r[i].key).Some?
    decreases |keys|
  {
    if keys == [] then []
    else KeyChip(fields, q, keys[0], dateText) + KeyChips(fields, q, keys[1..], dateText)
  }

  /** Every filter with a field of its own that is not a date range has a chip. */
  lemma {:induction false} KeyChipsComplete(fields: seq<FilterField>, q: Filters, keys: seq<string>, dateText: Date -> string, k: string)
    requires k in keys && k != "dateType" && k != "date"
    requires FindField(fields, k).Some? && FindField(fields, k).value.kind != DateRangeField
    ensures exists i :: 0 <= i < |KeyChips(fields, q, keys, dateText)| && KeyChips(fields, q, keys, dateText)[i].key == k
    decreases |keys|
  {
    var head := KeyChip(fields, q, keys[0], dateText);
    var rest := KeyChips(fields, q, keys[1..], dateText);
    assert KeyChips(fields, q, keys, dateText) == head + rest;
    if keys[0] == k {
      OwnKeyChip(fields, q, k, dateText);
      AppendIndex([], head + rest, 0);
    } else {
      assert k in keys[1..];
      KeyChipsComplete(fields, q, keys[1..], dateText, k);
      var i :| 0 <= i < |rest| && rest[i].key == k;
      AppendIndex(head, rest, i);
    }
  }

  /** A key with a field of its own that is not a date range makes a chip. */
  lemma OwnKeyChip(fields: seq<FilterField>, q: Filters, k: string, dateText: Date -> string)
    requires k != "dateType" && k != "date"
    requires FindField(fields, k).Some? && FindField(fields, k).value.kind != DateRangeField
    ensures KeyChip(fields, q, k, dateText) != [] && KeyChip(fields, q, k, dateText)[0].key == k
  {
  }

  /** The active-filter list: date-range chips first, then the other filters in key order. */
  function ActiveFilters(fields: seq<FilterField>, q: Filters, dateText: Date -> string): seq<ActiveFilter> {
    RangeChips(fields, q, dateText) + KeyChips(fields, q, q.keys, dateText)
  }

  /** The two `forEach` loops that build the active-filter list. */
  method CollectActiveFilters(fields: seq<FilterField>, q: Filters, dateText: Date -> string) returns (active: seq<ActiveFilter>)
    ensures active == ActiveFilters(fields, q, dateText)
  {
    active := [];
    for i := 0 to |fields|
      invariant active + RangeChips(fields[i..], q, dateText) == RangeChips(fields, q, dateText)
    {
      RangeChipsStep(fields, q, dateText, i);
      AppendAssociates(active, RangeChip(fields[i], q, dateText), RangeChips(fields[i + 1..], q, dateText));
      active := active + RangeChip(fields[i], q, dateText);
    }
    assert fields[|fields|..] == [];
    assert active == RangeChips(fields, q, dateText);
    for i := 0 to |q.keys|
      invariant active + KeyChips(fields, q, q.keys[i..], dateText) == ActiveFilters(fields, q, dateText)
    {
      KeyChipsStep(fields, q, q.keys, dateText, i);
      AppendAssociates(active, KeyChip(fields, q, q.keys[i], dateText), KeyChips(fields, q, q.keys[i + 1..], dateText));
      active := active + KeyChip(fields, q, q.keys[i], dateText);
    }
    assert q.keys[|q.keys|..] == [];
  }

  lemma RangeChipsStep(fields: seq<FilterField>, q: Filters, dateText: Date -> string, i: nat)
    requires i < |fields|
    ensures RangeChips(fields[i..], q, dateText) == RangeChip(fields[i], q, dateText) + RangeChips(fields[i + 1..], q, dateText)
  {
    assert fields[i..][1..] == fields[i + 1..];
  }

  lemma KeyChipsStep(fields: seq<FilterField>, q: Filters, keys: seq<string>, dateText: Date -> string, i: nat)
    requires i < |keys|
    ensures KeyChips(fields, q, keys[i..], dateText) == KeyChip(fields, q, keys[i], dateText) + KeyChips(fields, q, keys[i + 1..], dateText)
  {
    assert keys[i..][1..] == keys[i + 1..];
  }

  /** The filter bar's typed field values over a filter context. */
  class FilterBarState {
    const fields: seq<FilterField>
    const ctx: FilterContext
    const dateText: Date -> string
    var fieldValues: FieldValues

    ghost predicate Valid()
      reads this, ctx, ctx.store
    {
      ctx.Valid()
    }

    /** The fields start as the confirmed filters. */
    constructor (fields: seq<FilterField>, ctx: FilterContext, dateText: Date -> string)
      requires ctx.Valid()
      ensures Valid() && this.fields == fields && this.ctx == ctx && this.dateText == dateText
      ensures fieldValues == InitialFieldValues(ctx.store.confirmed.filters)
    {
      this.fields := fields;
      this.ctx := ctx;
      this.dateText := dateText;
      fieldValues := InitialFieldValues(ctx.store.confirmed.filters);
    }

    /** The effect run when the confirmed filters change: the typed values are replaced. */
    method ResetFromQuery()
      requires Valid()
      modifies this`fieldValues
      ensures Valid() && fieldValues == InitialFieldValues(ctx.store.confirmed.filters)
    {
      fieldValues := InitialFieldValues(ctx.store.confirmed.filters);
    }

    /** `updateFieldValue(key, value)`. */
    method UpdateFieldValue(key: string, value: FieldEntry)
      requires Valid()
      modifies this`fieldValues
      ensures Valid() && fieldValues == old(fieldValues)[key := value]
    {
      fieldValues := fieldValues[key := value];
    }

    /** What a field shows. */
    function FieldValue(key: string): FieldEntry
      reads this, ctx, ctx.store
    {
      GetFieldValue(fields, ctx.store.confirmed.filters, fieldValues, key, dateText)
    }

    /** `applyFilter(key)`: nothing when the field cannot be applied; its updates in one call otherwise. */
    method ApplyFilter(key: string)
      requires Valid()
      modifies ctx.store`ui, ctx.store`confirmed, ctx.store`pending
      ensures Valid() && fieldValues == old(fieldValues)
      ensures var ops := ApplyFilterOps(fields, old(ctx.store.confirmed.filters), fieldValues, key, dateText);
        (ops == [] ==> ctx.store.ui == old(ctx.store.ui))
        && (ops == [] ==> ctx.store.confirmed == old(ctx.store.confirmed) && ctx.store.pending == old(ctx.store.pending))
        && (ops != [] ==> ctx.store.ui == old(ctx.store.ui).(filters := Sequenced(CurrentFilters(ctx.defaults, old(ctx.store.ui).filters), ops), page := 1))
        && (ops != [] ==> DebounceRule(old(ctx.store.confirmed), ctx.store.ui, ctx.store.confirmed, ctx.store.pending))
    {
      ctx.Dispatch(ApplyFilterOps(fields, ctx.store.confirmed.filters, fieldValues, key, dateText));
    }

    /** `clearFilter(key)`: the filter (both parts of a date range) goes in one call, and the field is emptied. */
    method ClearFilter(key: string)
      requires Valid()
      modifies this`fieldValues, ctx.store`ui, ctx.store`confirmed, ctx.store`pending
      ensures Valid() && fieldValues == old(fieldValues)[key := Plain(Str(""))]
      ensures ctx.store.ui == old(ctx.store.ui).(filters := Sequenced(CurrentFilters(ctx.defaults, old(ctx.store.ui).filters), ClearFilterOps(fields, key)), page := 1)
      ensures DebounceRule(old(ctx.store.confirmed), ctx.store.ui, ctx.store.confirmed, ctx.store.pending)
    {
      ctx.Dispatch(ClearFilterOps(fields, key));
      fieldValues := fieldValues[key := Plain(Str(""))];
    }
  }
}
