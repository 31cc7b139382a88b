/**
 * Pagination, search and filters kept in the address bar. The URL is
 * modelled as its decoded query parameters in order; `Number` on text is
 * an oracle. Two states are kept: the UI state, updated at once, and the
 * confirmed state that drives queries and the URL, updated at once for
 * pagination and after a pause for search and filter changes.
 */
module UrlState {
  import opened Wrappers
  import opened JsStrings
  import opened Values
  import opened OrderedMaps
  import opened SeqFacts

  /** A filter record: field to value, in insertion order. */
  type Filters = OMap<string, Value>

  datatype State = State(page: int, limit: int, search: string, filters: Filters)

  /** A query parameter, decoded. */
  type Param = (string, string)

  /** Page and limit are at least 1 and the filter record is well formed. */
  ghost predicate ValidState(s: State) {
    s.page >= 1 && s.limit >= 1 && s.filters.Valid()
  }

  const DefaultPage: int := 1
  const DefaultLimit: int := 25

  /** `sp.get(key)`: the first value under that key. */
  function GetParam(params: seq<Param>, key: string): (r: Option<string>)
    ensures r.Some? ==> exists i :: 0 <= i < |params| && params[i] == (key, r.value)
    ensures r.None? <==> forall i :: 0 <= i < |params| ==> params[i].0 != key
    ensures forall i :: 0 <= i < |params| && params[i].0 == key && (forall j :: 0 <= j < i ==> params[j].0 != key)
              ==> r == Some(params[i].1)
  {
    if params == [] then None
    else if params[0].0 == key then Some(params[0].1)
    else
      var r := GetParam(params[1..], key);
      assert forall i :: 1 <= i < |params| ==> params[1..][i - 1] == params[i];
      r
  }

  /** `sp.get(key) || fallback`. */
  function ParamOr(params: seq<Param>, key: string, fallback: string): string {
    match GetParam(params, key)
      case None => fallback
      case Some(v) => if v == "" then fallback else v
  }

  /** A JavaScript number as the page arithmetic sees it: an integer or NaN. */
  datatype Num = Finite(n: int) | NaN

  /** `Math.max(1, x)`: NaN stays NaN. */
  function AtLeastOne(x: Num): Num {
    match x
      case NaN => NaN
      case Finite(n) => Finite(if n < 1 then 1 else n)
  }

  function NumberOf(numberOf: string -> Option<int>, text: string): Num {
    match numberOf(text)
      case None => NaN
      case Some(n) => Finite(n)
  }

  /** The page as written: `Math.max(1, Number(sp.get('page') || '1'))`. */
  function PageAsWritten(numberOf: string -> Option<int>, params: seq<Param>): Num {
    AtLeastOne(NumberOf(numberOf, ParamOr(params, "page", "1")))
  }

  /** A page parameter that is not a number gives a NaN page, not one of at least 1. */
  lemma NonNumericPageIsNaN(numberOf: string -> Option<int>)
    requires numberOf("abc") == None
    ensures PageAsWritten(numberOf, [("page", "abc")]) == NaN
    ensures ParsedCount(numberOf, [("page", "abc")], "page", DefaultPage) == DefaultPage
  {
  }

  /**
   * A page or limit parameter: missing, empty or not a number gives the
   * default, others are clamped to at least 1.
   */
  function ParsedCount(numberOf: string -> Option<int>, params: seq<Param>, key: string, default: int): (r: int)
    requires default >= 1
    ensures r >= 1
    ensures GetParam(params, key).None? ==> r == default
    ensures var t := GetParam(params, key);
            t.Some? && t.value != "" && numberOf(t.value).Some? ==>
              r == if numberOf(t.value).value < 1 then 1 else numberOf(t.value).value
    ensures var t := GetParam(params, key);
            t.Some? && (t.value == "" || numberOf(t.value).None?) ==> r == default
  {
    var text := ParamOr(params, key, "");
    if text == "" then default
    else match numberOf(text)
      case None => default
      case Some(n) => if n < 1 then 1 else n
  }

  /**
   * A negative page is clamped to 1, an empty one falls back to the
   * default, and of two limits the first is read.
   */
  lemma CountExamples(numberOf: string -> Option<int>)
    requires numberOf("-3") == Some(-3) && numberOf("7") == Some(7)
    ensures ParsedCount(numberOf, [("page", "-3")], "page", DefaultPage) == 1
    ensures ParsedCount(numberOf, [("page", "")], "page", DefaultPage) == DefaultPage
    ensures ParsedCount(numberOf, [("limit", "7"), ("limit", "9")], "limit", DefaultLimit) == 7
  {
  }

  predicate Reserved(key: string) {
    key == "page" || key == "limit" || key == "search"
  }

  predicate IsRangeKey(key: string) {
    StartsWith(key, "min") || StartsWith(key, "max")
  }

  predicate IsDateKey(key: string) {
    StartsWith(key, "start_") || StartsWith(key, "end_")
  }

  /** How one query parameter is read into the filters, if at all. */
  function FilterEntry(numberOf: string -> Option<int>, key: string, value: string): (r: Option<Value>)
    ensures Reserved(key) || value == "" ==> r.None?
    ensures r.None? ==> Reserved(key) || value == "" || (IsRangeKey(key) && numberOf(value).None?)
    ensures r.Some? && IsRangeKey(key) ==> numberOf(value).Some? && r.value == Int(numberOf(value).value)
    ensures r.Some? && !IsRangeKey(key) && IsDateKey(key) ==> r.value == Str(value)
    ensures r.Some? && !IsRangeKey(key) ==> (r.value.Bool? <==> !IsDateKey(key) && (key == "isActive" || value == "true" || value == "false"))
    ensures r.Some? && r.value.Bool? ==> r.value.b == (value == "true")
    ensures r.Some? ==> r.value.Int? || r.value.Bool? || r.value == Str(value)
  {
    if Reserved(key) || value == "" then None
    else if IsRangeKey(key) then
      match numberOf(value)
        case None => None
        case Some(n) => Some(Int(n))
    else if IsDateKey(key) then Some(Str(value))
    else if key == "isActive" || value == "true" || value == "false" then Some(Bool(value == "true"))
    else Some(Str(value))
  }

  function FilterStep(numberOf: string -> Option<int>, acc: Filters, p: Param): (r: Filters)
    requires acc.Valid()
    ensures r.Valid()
  {
    match FilterEntry(numberOf, p.0, p.1)
      case None => acc
      case Some(v) => acc.Set(p.0, v)
  }

  /** The filters read from the parameters, in order, onto `acc`. */
  function FiltersFrom(numberOf: string -> Option<int>, acc: Filters, params: seq<Param>): (r: Filters)
    requires acc.Valid()
    ensures r.Valid()
    decreases |params|
  {
    if params == [] then acc else FiltersFrom(numberOf, FilterStep(numberOf, acc, params[0]), params[1..])
  }

  /** `parseURLState`. */
  function ParseState(numberOf: string -> Option<int>, params: seq<Param>): (s: State)
    ensures ValidState(s)
  {
    State(ParsedCount(numberOf, params, "page", DefaultPage),
          ParsedCount(numberOf, params, "limit", DefaultLimit),
          ParamOr(params, "search", ""),
          FiltersFrom(numberOf, EmptyMap(), params))
  }

  /** The `forEach` over the parameters that builds the filters. */
  method ParseFilters(numberOf: string -> Option<int>, params: seq<Param>) returns (filters: Filters)
    ensures filters == FiltersFrom(numberOf, EmptyMap(), params)
  {
    filters := EmptyMap();
    var i := 0;
    while i < |params|
      invariant 0 <= i <= |params| && filters.Valid()
      invariant FiltersFrom(numberOf, filters, params[i..]) == FiltersFrom(numberOf, EmptyMap(), params)
    {
      assert params[i..][1..] == params[i + 1..];
      var entry := FilterEntry(numberOf, params[i].0, params[i].1);
      if entry.Some? {
        filters := filters.Set(params[i].0, entry.value);
      }
      i := i + 1;
    }
  }

  /** A filter value `syncToURL` leaves out. */
  predicate Omitted(v: Value) {
    v == Undefined || v == Null || v == Str("")
  }

  /** The filters as parameters, omitted values skipped, in the record's order. */
  function FilterPairs(filters: Filters, keys: seq<string>, dateText: Date -> string): (r: seq<Param>)
    requires forall k | k in keys :: k in filters.entries
  {
    if keys == [] then []
    else
      var v := filters.entries[keys[0]];
      var rest := FilterPairs(filters, keys[1..], dateText);
      if Omitted(v) then rest else [(keys[0], JsString(v, dateText))] + rest
  }

  /** The parameters `syncToURL` sets, in order: page, limit, the search if any, the filters. */
  function SyncPairs(s: State, dateText: Date -> string): seq<Param>
    requires s.filters.Valid()
  {
    [("page", IntToString(s.page)), ("limit", IntToString(s.limit))]
    + (if s.search != "" then [("search", s.search)] else [])
    + FilterPairs(s.filters, s.filters.keys, dateText)
  }

  /** The query `syncToURL` writes. */
  function SyncToUrl(s: State, dateText: Date -> string): (r: seq<Param>)
    requires s.filters.Valid()
    ensures forall i, j :: 0 <= i < j < |r| ==> r[i].0 != r[j].0
  {
    Listed(SetAll(EmptyMap(), SyncPairs(s, dateText)))
  }

  /** The search parameters in the order they were first set, each with its latest value. */
  function Listed(m: OMap<string, string>): (r: seq<Param>)
    requires m.Valid()
    ensures |r| == |m.keys| && forall i :: 0 <= i < |r| ==> r[i] == (m.keys[i], m.entries[m.keys[i]])
  {
    seq(|m.keys|, i requires 0 <= i < |m.keys| => (m.keys[i], m.entries[m.keys[i]]))
  }

  /**
   * A filter value that reads back as itself: not under a reserved key,
   * a number under a min/max key, non-empty text under a start_/end_ key,
   * a boolean under `isActive`, otherwise a boolean or text that is
   * neither empty nor 'true'/'false'.
   */
  predicate RoundTrips(key: string, v: Value) {
    !Reserved(key)
    && if IsRangeKey(key) then v.Int?
       else if IsDateKey(key) then v.Str? && v.s != ""
       else if key == "isActive" then v.Bool?
       else v.Bool? || (v.Str? && v.s != "" && v.s != "true" && v.s != "false")
  }

  ghost predicate RoundTripState(s: State) {
    ValidState(s) && forall k | k in s.filters.entries :: RoundTrips(k, s.filters.entries[k])
  }

  /** `Number` reads back the decimal text of every integer. */
  ghost predicate ReadsIntegers(numberOf: string -> Option<int>) {
    forall n :: numberOf(IntToString(n)) == Some(n)
  }

  /** Syncing a state to the URL and parsing the URL back gives the same state. */
  lemma SyncThenParse(numberOf: string -> Option<int>, s: State, dateText: Date -> string)
    requires RoundTripState(s) && ReadsIntegers(numberOf)
    ensures ParseState(numberOf, SyncToUrl(s, dateText)) == s
  {
    var fp := FilterPairs(s.filters, s.filters.keys, dateText);
    var head := [("page", IntToString(s.page)), ("limit", IntToString(s.limit))]
                + (if s.search != "" then [("search", s.search)] else []);
    FilterPairsShape(s.filters, s.filters.keys, dateText);
    SyncIsPairs(s, dateText, head, fp);
    var params := head + fp;
    HeadComesBack(numberOf, params, s.page, s.limit, s.search, head, fp);
    FiltersReadBack(numberOf, s.filters, head, fp, dateText);
  }

  /** Past the reserved parameters, the filter parameters rebuild the filter record. */
  lemma FiltersReadBack(numberOf: string -> Option<int>, filters: Filters, head: seq<Param>, fp: seq<Param>, dateText: Date -> string)
    requires filters.Valid() && ReadsIntegers(numberOf)
    requires forall k | k in filters.entries :: RoundTrips(k, filters.entries[k])
    requires forall i :: 0 <= i < |head| ==> Reserved(head[i].0)
    requires |fp| == |filters.keys|
    requires forall j :: 0 <= j < |fp| ==> fp[j] == (filters.keys[j], JsString(filters.entries[filters.keys[j]], dateText))
    ensures FiltersFrom(numberOf, EmptyMap(), head + fp) == filters
  {
    SkipReserved(numberOf, EmptyMap(), head, fp);
    FiltersComeBack(numberOf, filters, fp, dateText, 0);
    assert fp[0..] == fp;
    assert FiltersPrefix(filters, 0) == EmptyMap();
  }

  /** The filters' keys are distinct and not reserved, so the parameters are written as listed. */
  lemma SyncIsPairs(s: State, dateText: Date -> string, head: seq<Param>, fp: seq<Param>)
    requires RoundTripState(s)
    requires head == [("page", IntToString(s.page)), ("limit", IntToString(s.limit))]
                     + (if s.search != "" then [("search", s.search)] else [])
    requires fp == FilterPairs(s.filters, s.filters.keys, dateText)
    requires |fp| == |s.filters.keys|
    requires forall i :: 0 <= i < |fp| ==> fp[i].0 == s.filters.keys[i] && !Reserved(fp[i].0)
    ensures SyncToUrl(s, dateText) == head + fp
  {
    var pairs := head + fp;
    assert SyncPairs(s, dateText) == pairs;
    HeadAndFiltersDistinct(head, fp);
    SetAllDistinct(EmptyMap(), pairs);
    var m := SetAll(EmptyMap(), pairs);
    assert m.keys == KeysOf(pairs) by {
      assert EmptyMap<string, string>().keys + KeysOf(pairs) == KeysOf(pairs);
    }
    ListedInOrder(m, pairs);
  }

  /** The page, limit and search keys are distinct, and no filter key repeats or reuses them. */
  lemma HeadAndFiltersDistinct(head: seq<Param>, fp: seq<Param>)
    requires forall i :: 0 <= i < |head| ==> Reserved(head[i].0)
    requires forall i, j :: 0 <= i < j < |head| ==> head[i].0 != head[j].0
    requires forall i, j :: 0 <= i < j < |fp| ==> fp[i].0 != fp[j].0
    requires forall i :: 0 <= i < |fp| ==> !Reserved(fp[i].0)
    ensures var pairs := head + fp; forall i, j :: 0 <= i < j < |pairs| ==> pairs[i].0 != pairs[j].0
  {
    var pairs := head + fp;
    forall i, j | 0 <= i < j < |pairs| ensures pairs[i].0 != pairs[j].0 {
      if j >= |head| {
        assert pairs[j] == fp[j - |head|];
        if i >= |head| {
          assert pairs[i] == fp[i - |head|];
        } else {
          assert pairs[i] == head[i];
        }
      } else {
        assert pairs[i] == head[i] && pairs[j] == head[j];
      }
    }
  }

  /** A map whose keys and values are those of `pairs` lists back as `pairs`. */
  lemma ListedInOrder(m: OMap<string, string>, pairs: seq<Param>)
    requires m.Valid() && m.keys == KeysOf(pairs)
    requires forall i :: 0 <= i < |pairs| ==> pairs[i].0 in m.entries && m.entries[pairs[i].0] == pairs[i].1
    ensures Listed(m) == pairs
  {
    var r := Listed(m);
    forall i | 0 <= i < |pairs| ensures r[i] == pairs[i] {
      assert m.keys[i] == pairs[i].0;
    }
  }

  /** The page, limit and search written first are read back as they were. */
  lemma HeadComesBack(numberOf: string -> Option<int>, params: seq<Param>, page: int, limit: int, search: string,
                      head: seq<Param>, fp: seq<Param>)
    requires page >= 1 && limit >= 1 && ReadsIntegers(numberOf)
    requires params == head + fp
    requires head == [("page", IntToString(page)), ("limit", IntToString(limit))] + (if search != "" then [("search", search)] else [])
    requires forall i :: 0 <= i < |fp| ==> !Reserved(fp[i].0)
    ensures ParsedCount(numberOf, params, "page", DefaultPage) == page
    ensures ParsedCount(numberOf, params, "limit", DefaultLimit) == limit
    ensures ParamOr(params, "search", "") == search
    ensures forall i :: 0 <= i < |head| ==> Reserved(head[i].0)
  {
    assert params[0] == ("page", IntToString(page));
    assert GetParam(params, "page") == Some(IntToString(page));
    assert params[1..][0] == ("limit", IntToString(limit));
    assert GetParam(params, "limit") == Some(IntToString(limit));
    assert numberOf(IntToString(page)) == Some(page) && numberOf(IntToString(limit)) == Some(limit);
    SearchComesBack(params, search, IntToString(page), IntToString(limit), head, fp);
  }

  lemma SearchComesBack(params: seq<Param>, search: string, pageText: string, limitText: string, head: seq<Param>, fp: seq<Param>)
    requires params == head + fp
    requires head == [("page", pageText), ("limit", limitText)] + (if search != "" then [("search", search)] else [])
    requires forall i :: 0 <= i < |fp| ==> !Reserved(fp[i].0)
    ensures ParamOr(params, "search", "") == search
  {
    assert params[1..][1..] == params[2..];
    if search != "" {
      assert params[2..][0] == ("search", search);
    } else {
      assert params[2..] == fp;
      assert GetParam(fp, "search").None?;
    }
  }

  /** The parameters under reserved keys add nothing to the filters. */
  lemma {:induction false} SkipReserved(numberOf: string -> Option<int>, acc: Filters, head: seq<Param>, rest: seq<Param>)
    requires acc.Valid() && forall i :: 0 <= i < |head| ==> Reserved(head[i].0)
    ensures FiltersFrom(numberOf, acc, head + rest) == FiltersFrom(numberOf, acc, rest)
  {
    if head != [] {
      assert (head + rest)[0] == head[0];
      assert FilterStep(numberOf, acc, head[0]) == acc;
      assert FiltersFrom(numberOf, acc, head + rest)
             == FiltersFrom(numberOf, FilterStep(numberOf, acc, (head + rest)[0]), (head + rest)[1..]);
      assert (head + rest)[1..] == head[1..] + rest;
      SkipReserved(numberOf, acc, head[1..], rest);
    } else {
      assert head + rest == rest;
    }
  }

  /** Without omitted values, the filter pairs are the keys with their texts. */
  lemma {:induction false} FilterPairsShape(filters: Filters, keys: seq<string>, dateText: Date -> string)
    requires forall k | k in keys :: k in filters.entries && RoundTrips(k, filters.entries[k])
    ensures var r := FilterPairs(filters, keys, dateText);
            |r| == |keys| && forall i :: 0 <= i < |keys| ==> r[i] == (keys[i], JsString(filters.entries[keys[i]], dateText)) && !Reserved(r[i].0)
  {
    if keys != [] {
      FilterPairsShape(filters, keys[1..], dateText);
    }
  }

  /** The keys of the pairs, in order. */
  function KeysOf(pairs: seq<Param>): (r: seq<string>)
    ensures |r| == |pairs| && forall i :: 0 <= i < |pairs| ==> r[i] == pairs[i].0
  {
    if pairs == [] then [] else [pairs[0].0] + KeysOf(pairs[1..])
  }

  /** With distinct keys, setting each pair in turn appends it. */
  lemma SetAllDistinct(acc: OMap<string, string>, pairs: seq<Param>)
    requires acc.Valid()
    requires forall i, j :: 0 <= i < j < |pairs| ==> pairs[i].0 != pairs[j].0
    requires forall i :: 0 <= i < |pairs| ==> pairs[i].0 !in acc.entries
    ensures SetAll(acc, pairs).keys == acc.keys + KeysOf(pairs)
    ensures forall i :: 0 <= i < |pairs| ==> pairs[i].0 in SetAll(acc, pairs).entries && SetAll(acc, pairs).entries[pairs[i].0] == pairs[i].1
  {
    SetAllAppends(acc, pairs);
    SetAllEntries(acc, pairs);
  }

  lemma {:induction false} SetAllAppends(acc: OMap<string, string>, pairs: seq<Param>)
    requires acc.Valid()
    requires forall i, j :: 0 <= i < j < |pairs| ==> pairs[i].0 != pairs[j].0
    requires forall i :: 0 <= i < |pairs| ==> pairs[i].0 !in acc.entries
    ensures SetAll(acc, pairs).keys == acc.keys + KeysOf(pairs)
    decreases |pairs|
  {
    if pairs != [] {
      var next := acc.Set(pairs[0].0, pairs[0].1);
      assert next.keys == acc.keys + [pairs[0].0];
      assert forall i :: 0 <= i < |pairs[1..]| ==> pairs[1..][i].0 !in next.entries by {
        forall i | 0 <= i < |pairs[1..]| ensures pairs[1..][i].0 !in next.entries {
          assert pairs[1..][i] == pairs[i + 1];
        }
      }
      SetAllAppends(next, pairs[1..]);
      var rest := KeysOf(pairs[1..]);
      assert KeysOf(pairs) == [pairs[0].0] + rest;
      AppendAssociates(acc.keys, [pairs[0].0], rest);
    }
  }

  lemma {:induction false} SetAllEntries(acc: OMap<string, string>, pairs: seq<Param>)
    requires acc.Valid()
    requires forall i, j :: 0 <= i < j < |pairs| ==> pairs[i].0 != pairs[j].0
    ensures forall i :: 0 <= i < |pairs| ==> pairs[i].0 in SetAll(acc, pairs).entries && SetAll(acc, pairs).entries[pairs[i].0] == pairs[i].1
    decreases |pairs|
  {
    if pairs != [] {
      var next := acc.Set(pairs[0].0, pairs[0].1);
      SetAllEntries(next, pairs[1..]);
      var m := SetAll(acc, pairs);
      assert m == SetAll(next, pairs[1..]);
      forall i | 0 <= i < |pairs| ensures pairs[i].0 in m.entries && m.entries[pairs[i].0] == pairs[i].1 {
        if i > 0 {
          assert pairs[1..][i - 1] == pairs[i];
        } else {
          SetAllKeeps(next, pairs[1..], pairs[0].0);
        }
      }
    }
  }

  /** Setting other keys leaves an entry as it was. */
  lemma {:induction false} SetAllKeeps(acc: OMap<string, string>, pairs: seq<Param>, k: string)
    requires acc.Valid() && k in acc.entries
    requires forall i :: 0 <= i < |pairs| ==> pairs[i].0 != k
    ensures k in SetAll(acc, pairs).entries && SetAll(acc, pairs).entries[k] == acc.entries[k]
    decreases |pairs|
  {
    if pairs != [] {
      SetAllKeeps(acc.Set(pairs[0].0, pairs[0].1), pairs[1..], k);
    }
  }

  /** The first `i` entries of a filter record. */
  function FiltersPrefix(filters: Filters, i: nat): (r: Filters)
    requires filters.Valid() && i <= |filters.keys|
    ensures r.Valid()
  {
    var ks := filters.keys[..i];
    assert forall x, y :: 0 <= x < y < |ks| ==> ks[x] != ks[y];
    OMap(ks, map k | k in ks :: filters.entries[k])
  }

  lemma PrefixStep(filters: Filters, i: nat)
    requires filters.Valid() && i < |filters.keys|
    ensures filters.keys[i] !in FiltersPrefix(filters, i).entries
    ensures FiltersPrefix(filters, i).Set(filters.keys[i], filters.entries[filters.keys[i]]) == FiltersPrefix(filters, i + 1)
  {
    var k := filters.keys[i];
    assert forall x :: 0 <= x < i ==> filters.keys[x] != k;
    assert filters.keys[..i + 1] == filters.keys[..i] + [k];
  }

  lemma PrefixAll(filters: Filters)
    requires filters.Valid()
    ensures FiltersPrefix(filters, |filters.keys|) == filters
  {
    assert filters.keys[..|filters.keys|] == filters.keys;
  }

  /** Reading the round-tripping filter pairs from entry `i` on rebuilds the record. */
  lemma {:induction false} FiltersComeBack(numberOf: string -> Option<int>, filters: Filters, fp: seq<Param>, dateText: Date -> string, i: nat)
    requires filters.Valid() && i <= |filters.keys| && ReadsIntegers(numberOf)
    requires forall k | k in filters.entries :: RoundTrips(k, filters.entries[k])
    requires |fp| == |filters.keys|
    requires forall j :: 0 <= j < |fp| ==> fp[j] == (filters.keys[j], JsString(filters.entries[filters.keys[j]], dateText))
    ensures FiltersFrom(numberOf, FiltersPrefix(filters, i), fp[i..]) == filters
    decreases |filters.keys| - i
  {
    if i == |filters.keys| {
      PrefixAll(filters);
    } else {
      var k := filters.keys[i];
      ReadBack(numberOf, k, filters.entries[k], dateText);
      PrefixStep(filters, i);
      assert FilterStep(numberOf, FiltersPrefix(filters, i), fp[i]) == FiltersPrefix(filters, i + 1);
      assert fp[i..][1..] == fp[i + 1..];
      FiltersComeBack(numberOf, filters, fp, dateText, i + 1);
    }
  }

  /** One round-tripping value reads back as itself. */
  lemma ReadBack(numberOf: string -> Option<int>, k: string, v: Value, dateText: Date -> string)
    requires RoundTrips(k, v) && ReadsIntegers(numberOf)
    ensures FilterEntry(numberOf, k, JsString(v, dateText)) == Some(v)
  {
    if v.Int? {
      assert numberOf(IntToString(v.i)) == Some(v.i);
    }
  }

  /**
   * Only search or filters differ while page and limit are unchanged:
   * the case that is confirmed after a pause. Filters compare by their
   * JSON text, modelled as equality of the records.
   */
  predicate OnlySearchOrFiltersChanged(confirmed: State, next: State) {
    confirmed.page == next.page && confirmed.limit == next.limit
    && (confirmed.search != next.search || confirmed.filters != next.filters)
  }

  /**
   * The outcome of `confirmChanges` from the confirmed state `before` to
   * `next`: a change of search or filters alone keeps `before` confirmed
   * and arms the timer with `next`; any other change is confirmed at once
   * and leaves no timer.
   */
  predicate DebounceRule(before: State, next: State, confirmed: State, pending: Option<State>) {
    (OnlySearchOrFiltersChanged(before, next) ==> confirmed == before && pending == Some(next))
    && (!OnlySearchOrFiltersChanged(before, next) ==> confirmed == next && pending.None?)
  }

  /** The confirmed state lags behind the UI state. */
  predicate Debouncing(confirmed: State, ui: State) {
    confirmed != ui
  }

  /**
   * After a change judged by the debounce rule, the provider is
   * debouncing exactly when the timer is armed with a state other than
   * the one confirmed before the change.
   */
  lemma DebouncingIffWaiting(before: State, next: State, confirmed: State, pending: Option<State>)
    requires DebounceRule(before, next, confirmed, pending)
    ensures Debouncing(confirmed, next) <==> pending.Some? && next != before
    ensures Debouncing(confirmed, next) ==> pending == Some(next) && confirmed == before
  {
  }

  /**
   * The provider's state. `pending` is the confirmation timer of
   * `confirmChanges`, `searchPending` the trailing call of the debounced
   * search confirmation; a timer firing is its own method.
   */
  class UrlStateStore {
    var confirmed: State
    var ui: State
    var pending: Option<State>
    var searchPending: Option<State>

    ghost predicate Valid()
      reads this
    {
      ValidState(confirmed) && ValidState(ui)
      && (pending.Some? ==> ValidState(pending.value))
      && (searchPending.Some? ==> ValidState(searchPending.value))
    }

    /** Both states start as the parsed URL. */
    constructor (numberOf: string -> Option<int>, params: seq<Param>)
      ensures Valid()
      ensures confirmed == ParseState(numberOf, params) && ui == confirmed && pending.None? && searchPending.None?
    {
      confirmed := ParseState(numberOf, params);
      ui := ParseState(numberOf, params);
      pending := None;
      searchPending := None;
    }

    /** The state queries use. */
    function QueryState(): State
      reads this
    {
      confirmed
    }

    /** `isDebouncing`: the UI shows a state the queries do not use yet. */
    predicate IsDebouncing()
      reads this
    {
      Debouncing(confirmed, ui)
    }

    /**
     * `confirmChanges` as the callback of a render whose confirmed state
     * was `base`: the earlier timer is dropped; then confirm now, or arm
     * the timer.
     */
    method ConfirmAgainst(base: State, next: State)
      requires Valid() && ValidState(next)
      modifies this`confirmed, this`pending
      ensures Valid()
      ensures OnlySearchOrFiltersChanged(base, next) ==> confirmed == old(confirmed) && pending == Some(next)
      ensures !OnlySearchOrFiltersChanged(base, next) ==> confirmed == next && pending.None?
    {
      pending := None;
      if OnlySearchOrFiltersChanged(base, next) {
        pending := Some(next);
      } else {
        confirmed := next;
      }
    }

    /** `confirmChanges` of the latest render. */
    method ConfirmChanges(next: State)
      requires Valid() && ValidState(next)
      modifies this`confirmed, this`pending
      ensures Valid()
      ensures DebounceRule(old(confirmed), next, confirmed, pending)
    {
      ConfirmAgainst(confirmed, next);
    }

    /** The confirmation timer fires. */
    method TimerFires()
      requires Valid()
      modifies this`confirmed, this`pending
      ensures Valid() && pending.None?
      ensures confirmed == if old(pending).Some? then old(pending).value else old(confirmed)
    {
      if pending.Some? {
        confirmed := pending.value;
        pending := None;
      }
    }

    /** The debounced search confirmation fires with the last state it was given. */
    method SearchTimerFires()
      requires Valid()
      modifies this`confirmed, this`pending, this`searchPending
      ensures Valid() && searchPending.None?
      ensures old(searchPending).None? ==> confirmed == old(confirmed) && pending == old(pending)
    {
      if searchPending.Some? {
        var next := searchPending.value;
        searchPending := None;
        ConfirmChanges(next);
      }
    }

    method SetPage(page: int)
      requires Valid()
      modifies this`ui, this`confirmed, this`pending
      ensures Valid()
      ensures ui == old(ui).(page := if page < 1 then 1 else page)
      ensures DebounceRule(old(confirmed), ui, confirmed, pending)
      ensures ui.page != old(confirmed).page || ui.limit != old(confirmed).limit ==> confirmed == ui && pending.None?
    {
      ui := ui.(page := if page < 1 then 1 else page);
      ConfirmChanges(ui);
    }

    method SetLimit(limit: int)
      requires Valid()
      modifies this`ui, this`confirmed, this`pending
      ensures Valid()
      ensures ui == old(ui).(limit := if limit < 1 then 1 else limit, page := 1)
      ensures DebounceRule(old(confirmed), ui, confirmed, pending)
      ensures ui.page != old(confirmed).page || ui.limit != old(confirmed).limit ==> confirmed == ui && pending.None?
    {
      ui := ui.(limit := if limit < 1 then 1 else limit, page := 1);
      ConfirmChanges(ui);
    }

    /** The search goes to the UI at once; its confirmation waits for the debounced call. */
    method SetSearch(search: string)
      requires Valid()
      modifies this`ui, this`searchPending
      ensures Valid()
      ensures ui == old(ui).(search := search, page := 1) && searchPending == Some(ui)
    {
      ui := ui.(search := search, page := 1);
      searchPending := Some(ui);
    }

    /**
     * `setFilters` as the callback of a render whose UI and confirmed
     * states were `renderUi` and `renderConfirmed`: every call made from
     * one event handler reads those same two states.
     */
    method SetFiltersIn(renderUi: State, renderConfirmed: State, filters: Filters)
      requires Valid() && ValidState(renderUi) && filters.Valid()
      modifies this`ui, this`confirmed, this`pending
      ensures Valid()
      ensures ui == renderUi.(filters := filters, page := 1)
      ensures OnlySearchOrFiltersChanged(renderConfirmed, ui) ==> confirmed == old(confirmed) && pending == Some(ui)
      ensures !OnlySearchOrFiltersChanged(renderConfirmed, ui) ==> confirmed == ui && pending.None?
    {
      ui := renderUi.(filters := filters, page := 1);
      ConfirmAgainst(renderConfirmed, ui);
    }

    /** `setFilters` of the latest render. */
    method SetFilters(filters: Filters)
      requires Valid() && filters.Valid()
      modifies this`ui, this`confirmed, this`pending
      ensures Valid()
      ensures ui == old(ui).(filters := filters, page := 1)
      ensures DebounceRule(old(confirmed), ui, confirmed, pending)
    {
      SetFiltersIn(ui, confirmed, filters);
    }

    method ResetToFirstPage()
      requires Valid()
      modifies this`ui, this`confirmed, this`pending
      ensures Valid()
      ensures ui == old(ui).(page := 1)
      ensures DebounceRule(old(confirmed), ui, confirmed, pending)
    {
      ui := ui.(page := 1);
      ConfirmChanges(ui);
    }

    method ClearAllFilters()
      requires Valid()
      modifies this`ui, this`confirmed, this`pending
      ensures Valid()
      ensures ui == old(ui).(filters := EmptyMap(), page := 1)
      ensures DebounceRule(old(confirmed), ui, confirmed, pending)
    {
      ui := ui.(filters := EmptyMap(), page := 1);
      ConfirmChanges(ui);
    }

    method ClearSearch()
      requires Valid()
      modifies this`ui, this`confirmed, this`pending
      ensures Valid()
      ensures ui == old(ui).(search := "", page := 1)
      ensures DebounceRule(old(confirmed), ui, confirmed, pending)
    {
      ui := ui.(search := "", page := 1);
      ConfirmChanges(ui);
    }

    method NextPage()
      requires Valid()
      modifies this`ui, this`confirmed, this`pending
      ensures Valid()
      ensures ui == old(ui).(page := old(ui).page + 1)
      ensures DebounceRule(old(confirmed), ui, confirmed, pending)
      ensures ui.page != old(confirmed).page || ui.limit != old(confirmed).limit ==> confirmed == ui && pending.None?
    {
      ui := ui.(page := ui.page + 1);
      ConfirmChanges(ui);
    }

    method PrevPage()
      requires Valid()
      modifies this`ui, this`confirmed, this`pending
      ensures Valid()
      ensures ui == old(ui).(page := if old(ui).page - 1 < 1 then 1 else old(ui).page - 1)
      ensures DebounceRule(old(confirmed), ui, confirmed, pending)
      ensures ui.page != old(confirmed).page || ui.limit != old(confirmed).limit ==> confirmed == ui && pending.None?
    {
      ui := ui.(page := if ui.page - 1 < 1 then 1 else ui.page - 1);
      ConfirmChanges(ui);
    }

    /** Back/forward: both states become the parsed URL at once. */
    method PopState(numberOf: string -> Option<int>, params: seq<Param>)
      requires Valid()
      modifies this`ui, this`confirmed
      ensures Valid()
      ensures confirmed == ParseState(numberOf, params) && ui == confirmed && !IsDebouncing()
    {
      confirmed := ParseState(numberOf, params);
      ui := confirmed;
    }
  }

  /** A pagination change is confirmed at once, so it is never left pending. */
  lemma PageChangeConfirmsAtOnce(confirmed: State, next: State)
    requires confirmed.page != next.page || confirmed.limit != next.limit
    ensures !OnlySearchOrFiltersChanged(confirmed, next)
  {
  }
}
