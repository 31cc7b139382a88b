/**
 * The table core: the query parameters sent to the data hook (the
 * confirmed page, limit and search with the filters over them, cleaned
 * and validated when a query schema is given), the rows and pagination
 * read from the hook's answer, and the loading message.
 */
module WiseTableCore {
  import opened Wrappers
  import opened Values
  import opened OrderedMaps
  import opened SeqFacts
  import opened UrlState
  import opened FilterProvider
  import opened TableFooter
  import opened LoadingState

  /** The base parameters: page, limit and search of the confirmed state. */
  function BaseParams(q: State): (r: Filters)
    ensures r.Valid() && r.keys == ["page", "limit", "search"]
    ensures r.entries == map["page" := Int(q.page), "limit" := Int(q.limit), "search" := Str(q.search)]
  {
    var entries := map["page" := Int(q.page), "limit" := Int(q.limit), "search" := Str(q.search)];
    assert forall k :: k in entries <==> k in ["page", "limit", "search"];
    OMap(["page", "limit", "search"], entries)
  }

  /** A value the cleaning step treats as empty: undefined, null or ''. */
  predicate Empty(v: Value) {
    v == Undefined || v == Null || v == Str("")
  }

  /** `[startDate, endDate].filter(...)`: the non-empty ones among the first two items. */
  function NonEmpty(items: seq<Value>): (r: seq<Value>)
    ensures |r| <= |items|
    ensures IsSubsequence(r, items)
    ensures forall v {:trigger multiset(r)[v]} :: multiset(r)[v] == if Empty(v) then 0 else multiset(items)[v]
    ensures forall i :: 0 <= i < |r| ==> !Empty(r[i])
    ensures forall v :: v in items && !Empty(v) ==> v in r
  {
    if items == [] then []
    else
      var keep := !Empty(items[0]);
      var rest := NonEmpty(items[1..]);
      ConsSubsequence(keep, items, rest);
      MultisetCons(items);
      (if keep then [items[0]] else []) + rest
  }

  /** Both days set: the start comes before the end, so the join reads `start,end`. */
  lemma NonEmptyKeepsOrder(start: Value, end: Value)
    requires !Empty(start) && !Empty(end)
    ensures NonEmpty([start, end]) == [start, end]
  {
    assert [start, end][1..] == [end];
    assert [end][1..] == [];
  }

  /** `const [startDate, endDate] = value`: a missing second item is undefined. */
  function FirstTwo(items: seq<Value>): (r: seq<Value>)
    requires |items| > 0
    ensures |r| == 2 && r[0] == items[0]
    ensures r[1] == if |items| > 1 then items[1] else Undefined
  {
    [items[0], if |items| > 1 then items[1] else Undefined]
  }

  /**
   * What the cleaning step keeps of one filter value: nothing for an
   * empty value; for a non-empty array, its non-empty first two items
   * joined by commas, or nothing if none is left; any other value as is.
   */
  function Cleaned(v: Value, dateText: Date -> string): (r: Option<Value>)
    ensures Empty(v) ==> r.None?
    ensures !Empty(v) && !(v.Arr? && |v.items| > 0) ==> r == Some(v)
    ensures v.Arr? && |v.items| > 0 ==>
              (r.Some? <==> NonEmpty(FirstTwo(v.items)) != [])
              && (r.Some? ==> r.value == Str(JoinValues(NonEmpty(FirstTwo(v.items)), ",", dateText)))
  {
    if Empty(v) then None
    else if v.Arr? && |v.items| > 0 then
      var valid := NonEmpty(FirstTwo(v.items));
      if |valid| > 0 then Some(Str(JoinValues(valid, ",", dateText))) else None
    else Some(v)
  }

  /** A date range of two days becomes "start,end". */
  lemma DateRangeJoined(id: nat, start: string, end: string, dateText: Date -> string)
    requires start != "" && end != ""
    ensures Cleaned(Arr(id, [Str(start), Str(end)]), dateText) == Some(Str(start + "," + end))
  {
    NonEmptyKeepsOrder(Str(start), Str(end));
    assert FirstTwo([Str(start), Str(end)]) == [Str(start), Str(end)];
    assert [Str(start), Str(end)][1..] == [Str(end)];
    assert JoinValues([Str(end)], ",", dateText) == end;
    assert JoinValues([Str(start), Str(end)], ",", dateText) == start + "," + end;
  }

  /** With only one day set, that day alone is sent. */
  lemma DateRangeOneSide(id: nat, day: string, dateText: Date -> string)
    requires day != ""
    ensures Cleaned(Arr(id, [Str(day), Str("")]), dateText) == Some(Str(day))
    ensures Cleaned(Arr(id, [Null, Str(day)]), dateText) == Some(Str(day))
  {
    assert FirstTwo([Str(day), Str("")]) == [Str(day), Str("")];
    assert NonEmpty([Str(day), Str("")]) == [Str(day)] by {
      assert [Str(day), Str("")][1..] == [Str("")];
      assert NonEmpty([Str("")]) == [];
    }
    assert JoinValues([Str(day)], ",", dateText) == day;
    assert NonEmpty([Null, Str(day)]) == [Str(day)] by {
      assert NonEmpty([Str(day)]) == [Str(day)];
    }
  }

  /** A range with neither day set is dropped. */
  lemma DateRangeUnset(id: nat, dateText: Date -> string)
    ensures Cleaned(Arr(id, [Str(""), Null]), dateText).None?
    ensures Cleaned(Arr(id, [Undefined]), dateText).None?
  {
    assert NonEmpty([Str(""), Null]) == [] by {
      assert NonEmpty([Null]) == [];
    }
    assert NonEmpty([Undefined, Undefined]) == [] by {
      assert NonEmpty([Undefined]) == [];
    }
  }

  /** The cleaned filters over the first `n` keys of `filters`, in their order. */
  function CleanedOver(filters: Filters, n: nat, dateText: Date -> string): (r: Filters)
    requires filters.Valid() && n <= |filters.keys|
    ensures r.Valid()
    ensures forall k :: k in r.entries ==> k in filters.entries
  {
    if n == 0 then EmptyMap()
    else
      var acc := CleanedOver(filters, n - 1, dateText);
      var k := filters.keys[n - 1];
      match Cleaned(filters.entries[k], dateText)
      case None => acc
      case Some(v) => acc.Set(k, v)
  }

  /** `filteredParams`: the cleaned filters, in the record's key order. */
  function FilteredParams(filters: Filters, dateText: Date -> string): (r: Filters)
    requires filters.Valid()
    ensures r.Valid()
  {
    CleanedOver(filters, |filters.keys|, dateText)
  }

  /** What `CleanedOver` holds at one key. */
  lemma {:induction false} CleanedOverAt(filters: Filters, n: nat, dateText: Date -> string, k: string)
    requires filters.Valid() && n <= |filters.keys|
    ensures var r := CleanedOver(filters, n, dateText);
      (k in r.entries <==> k in filters.keys[..n] && Cleaned(filters.entries[k], dateText).Some?)
      && (k in r.entries ==> r.entries[k] == Cleaned(filters.entries[k], dateText).value)
  {
    if n > 0 {
      CleanedOverAt(filters, n - 1, dateText, k);
      PrefixMembers(filters.keys, n);
      var last := filters.keys[n - 1];
      if k == last {
        assert k !in filters.keys[..n - 1] by {
          assert forall j :: 0 <= j < n - 1 ==> filters.keys[..n - 1][j] == filters.keys[j] != last;
        }
      }
      SetIfCleaned(CleanedOver(filters, n - 1, dateText), last, Cleaned(filters.entries[last], dateText), k);
    }
  }

  /** One step of `CleanedOver` at key `k`: the last key is set exactly when its value survives. */
  lemma SetIfCleaned(acc: Filters, last: string, c: Option<Value>, k: string)
    requires acc.Valid()
    ensures var r := match c case None => acc case Some(v) => acc.Set(last, v);
      (k in r.entries <==> k in acc.entries || (k == last && c.Some?))
      && (k in r.entries ==> r.entries[k] == if k == last && c.Some? then c.value else acc.entries[k])
  {
  }

  /**
   * A key reaches the schema exactly when its filter value survives
   * cleaning, with the cleaned value; nothing empty reaches it.
   */
  lemma FilteredParamsAt(filters: Filters, dateText: Date -> string, k: string)
    requires filters.Valid()
    ensures var r := FilteredParams(filters, dateText);
      (k in r.entries <==> k in filters.entries && Cleaned(filters.entries[k], dateText).Some?)
      && (k in r.entries ==> r.entries[k] == Cleaned(filters.entries[k], dateText).value)
      && (k in filters.entries && Empty(filters.entries[k]) ==> k !in r.entries)
  {
    CleanedOverAt(filters, |filters.keys|, dateText, k);
    assert filters.keys[..|filters.keys|] == filters.keys;
  }

  /** The `forEach` over `Object.entries(filters)` that fills `filteredParams`. */
  method BuildFilteredParams(filters: Filters, dateText: Date -> string) returns (params: Filters)
    requires filters.Valid()
    ensures params == FilteredParams(filters, dateText)
  {
    params := EmptyMap();
    for i := 0 to |filters.keys|
      invariant params == CleanedOver(filters, i, dateText)
    {
      params := AddCleaned(params, filters.keys[i], filters.entries[filters.keys[i]], dateText);
    }
  }

  /** The `forEach` callback: one entry, set in `filteredParams` when it survives cleaning. */
  method AddCleaned(params: Filters, key: string, value: Value, dateText: Date -> string) returns (r: Filters)
    requires params.Valid()
    ensures r == match Cleaned(value, dateText) case None => params case Some(v) => params.Set(key, v)
  {
    r := params;
    if !Empty(value) {
      if value.Arr? && |value.items| > 0 {
        var validDates := NonEmpty(FirstTwo(value.items));
        if |validDates| > 0 {
          r := params.Set(key, Str(JoinValues(validDates, ",", dateText)));
        }
      } else {
        r := params.Set(key, value);
      }
    }
  }

  /** `QuerySchema.safeParse`: the parsed record's entries in order, or the error message. */
  type QuerySchema = Filters -> Result<seq<(string, Value)>>

  const SchemaErrorPrefix: string := "Query schema validation failed: "

  /**
   * `queryParams`. The failed parse is thrown inside the `try` and
   * caught by its own `catch`, which throws again with the prefix a
   * second time.
   */
  function QueryParams(q: State, schema: Option<QuerySchema>, dateText: Date -> string): (r: Result<Filters>)
    requires q.filters.Valid()
    ensures r.Ok? ==> r.value.Valid() && "page" in r.value.entries && "limit" in r.value.entries && "search" in r.value.entries
  {
    var base := BaseParams(q);
    assert "page" in base.entries && "limit" in base.entries && "search" in base.entries;
    match schema
    case None => Ok(Overlay(base, q.filters))
    case Some(parse) =>
      match parse(FilteredParams(q.filters, dateText))
      case Err(message) => Err(SchemaErrorPrefix + (SchemaErrorPrefix + message))
      case Ok(pairs) => Ok(Overlay(base, SetAll(EmptyMap(), pairs)))
  }

  /** A reserved key: one the URL state never stores among the filters. */
  predicate NoReservedKeys(f: Filters) {
    "page" !in f.entries && "limit" !in f.entries && "search" !in f.entries
  }

  /**
   * Without a schema every filter is passed on unchanged next to the
   * base parameters, which keep the confirmed page, limit and search
   * when no filter shadows them.
   */
  lemma NoSchemaPassesFilters(q: State, dateText: Date -> string)
    requires q.filters.Valid()
    ensures var r := QueryParams(q, None, dateText);
      r.Ok?
      && (forall k :: k in q.filters.entries ==> k in r.value.entries && r.value.entries[k] == q.filters.entries[k])
      && (NoReservedKeys(q.filters) ==>
            r.value.entries["page"] == Int(q.page) && r.value.entries["limit"] == Int(q.limit)
            && r.value.entries["search"] == Str(q.search))
      && r.value.keys[..3] == ["page", "limit", "search"]
  {
  }

  /**
   * With a schema, the parse sees exactly the cleaned filters; a failure
   * becomes the doubled-prefix error, a success is spread over the base.
   */
  lemma SchemaSeesCleanedFilters(q: State, parse: QuerySchema, dateText: Date -> string)
    requires q.filters.Valid()
    ensures var answer := parse(FilteredParams(q.filters, dateText));
      var r := QueryParams(q, Some(parse), dateText);
      (answer.Err? ==> r == Err(SchemaErrorPrefix + SchemaErrorPrefix + answer.message))
      && (answer.Ok? ==>
            r.Ok?
            && var parsed := SetAll(EmptyMap(), answer.value);
            forall k :: k in parsed.entries ==> r.value.entries[k] == parsed.entries[k])
  {
    var answer := parse(FilteredParams(q.filters, dateText));
    if answer.Err? {
      assert SchemaErrorPrefix + (SchemaErrorPrefix + answer.message) == SchemaErrorPrefix + SchemaErrorPrefix + answer.message;
    }
  }

  /** What the data hook answered: nothing, an array of rows, or an object with rows and pagination. */
  datatype RawData =
    | NoData
    | ArrayData(rows: seq<Row>)
    | ObjectData(data: Option<seq<Row>>, pagination: Option<Pagination>)

  /** `data`: the array itself, or its `.data`, or []. */
  function Rows(raw: RawData): (r: seq<Row>)
    ensures raw.ArrayData? ==> r == raw.rows
    ensures raw.ObjectData? && raw.data.Some? ==> r == raw.data.value
    ensures raw.NoData? || (raw.ObjectData? && raw.data.None?) ==> r == []
  {
    match raw
    case NoData => []
    case ArrayData(rows) => rows
    case ObjectData(data, _) => if data.Some? then data.value else []
  }

  /** `pagination`: only the object form carries one. */
  function ServerPagination(raw: RawData): (r: Option<Pagination>)
    ensures r.Some? ==> raw.ObjectData? && r == raw.pagination
    ensures raw.ObjectData? ==> r == raw.pagination
  {
    if raw.ObjectData? then raw.pagination else None
  }

  /** The pagination made up when the hook sends none: the UI page and limit, one page at least. */
  function FallbackPagination(ui: State, rowCount: nat): (p: Pagination)
    requires ui.limit >= 1
    ensures p.page == ui.page && p.pageSize == ui.limit && p.total == rowCount
    ensures p.totalPages >= 1 && rowCount <= p.totalPages * ui.limit
    ensures p.totalPages == 1 || (p.totalPages - 1) * ui.limit < rowCount
  {
    var pages := CeilDiv(rowCount, ui.limit);
    Pagination(ui.page, ui.limit, rowCount, if pages >= 1 then pages else 1)
  }

  /** The pagination the footer is given. */
  function FooterPagination(raw: RawData, ui: State): (p: Pagination)
    requires ui.limit >= 1
    ensures ServerPagination(raw).Some? ==> p == ServerPagination(raw).value
    ensures ServerPagination(raw).None? ==> p == FallbackPagination(ui, |Rows(raw)|)
  {
    match ServerPagination(raw)
    case Some(p) => p
    case None => FallbackPagination(ui, |Rows(raw)|)
  }

  /**
   * Without server pagination every row index lies on a listed page and
   * the last page is not empty.
   */
  lemma FallbackCoversRows(ui: State, rows: seq<Row>, i: nat)
    requires ui.limit >= 1 && i < |rows|
    ensures var p := FooterPagination(ArrayData(rows), ui);
      1 <= i / ui.limit + 1 <= p.totalPages
      && (p.totalPages - 1) * ui.limit < |rows|
  {
    var p := FallbackPagination(ui, |rows|);
    assert FooterPagination(ArrayData(rows), ui) == p;
    DivBelow(i, ui.limit, p.totalPages);
  }

  lemma DivBelow(i: nat, d: nat, t: nat)
    requires d >= 1 && i < t * d
    ensures i / d < t
  {
  }

  /** The spinner shows while anything loads. */
  predicate ShowSpinner(isAnyLoading: bool, isQueryLoading: bool) {
    isAnyLoading || isQueryLoading
  }

  /** The spinner message: creating over updating over deleting over loading. */
  function SpinnerMessage(isCreating: bool, isUpdating: bool, isDeleting: bool): (r: string)
    ensures r == "Creating..." <==> isCreating
    ensures r == "Updating..." <==> !isCreating && isUpdating
    ensures r == "Deleting..." <==> !isCreating && !isUpdating && isDeleting
    ensures r == "Loading..." <==> !isCreating && !isUpdating && !isDeleting
  {
    if isCreating then "Creating..."
    else if isUpdating then "Updating..."
    else if isDeleting then "Deleting..."
    else "Loading..."
  }

  /**
   * While a create, update or delete runs the spinner shows and names
   * the mutation; the plain loading message means only the query loads.
   */
  lemma SpinnerDuringMutations(f: LoadingFlags, isQueryLoading: bool)
    ensures f.isCreating || f.isUpdating || f.isDeleting ==>
              ShowSpinner(AnyLoading(f), isQueryLoading)
              && SpinnerMessage(f.isCreating, f.isUpdating, f.isDeleting) != "Loading..."
    ensures ShowSpinner(AnyLoading(f), isQueryLoading)
            && SpinnerMessage(f.isCreating, f.isUpdating, f.isDeleting) == "Loading..." ==>
              f.isQuerying || isQueryLoading
  {
  }
}
