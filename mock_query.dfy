/**
 * How the example's in-memory table answers a fetch: the generic filter
 * applied to each record (text search, date bounds, number bounds,
 * scalar matches), the comparator sort, and the page slice.
 */
module MockQuery {
  import opened Wrappers
  import opened JsStrings
  import opened Values
  import opened OrderedMaps
  import opened TableFooter
  import opened SeqFacts

  /**
   * The JavaScript coercions the filter applies. None of them is
   * interpreted: `number` is `Number(v)` (None for NaN), `time` is
   * `new Date(text).getTime()` (None for an Invalid Date), `dateText`
   * is `Date.prototype.toString`, used by `String(v)`.
   */
  datatype Coercions = Coercions(
    number: Value -> Option<real>,
    time: string -> Option<int>,
    dateText: Date -> string)

  /** `String(v)`. */
  function Text(c: Coercions, v: Value): string {
    JsString(v, c.dateText)
  }

  // ---------------------------------------------------------------- search

  /** `filters['search']?.toLowerCase?.()`, when that is a non-empty string. */
  function SearchTerm(filters: OMap<string, Value>): (r: Option<string>)
    ensures r.Some? ==> r.value != ""
  {
    if "search" in filters.entries && filters.entries["search"].Str? && filters.entries["search"].s != "" then
      Some(ToLower(filters.entries["search"].s))
    else None
  }

  /** Some string field of the record contains the term, ignoring case. */
  predicate MatchesSearch(record: Row, term: string) {
    exists k :: k in record && record[k].Str? && Contains(ToLower(record[k].s), term)
  }

  // ----------------------------------------------------------- date bounds

  /** A `start_<field>` or `end_<field>` key: the field, and whether it is a lower bound. */
  function DateBound(k: string): (r: Option<(string, bool)>)
    ensures r.None? <==> !StartsWith(k, "start_") && !StartsWith(k, "end_")
    ensures r.Some? && r.value.1 ==> k == "start_" + r.value.0
    ensures r.Some? && !r.value.1 ==> k == "end_" + r.value.0 && !StartsWith(k, "start_")
  {
    if StartsWith(k, "start_") then
      assert k == k[..6] + k[6..];
      Some((k[6..], true))
    else if StartsWith(k, "end_") then
      assert k == k[..4] + k[4..];
      Some((k[4..], false))
    else None
  }

  /**
   * A date bound rejects a record only when both the field and the bound
   * read as valid dates and the field lies on the wrong side; a falsy
   * field passes.
   */
  predicate DatePass(c: Coercions, record: Row, k: string, v: Value) {
    match DateBound(k)
    case None => true
    case Some((field, isStart)) =>
      var recVal := Get(record, field);
      if !Truthy(recVal) then true
      else
        match (c.time(Text(c, recVal)), c.time(Text(c, v)))
        case (Some(recDate), Some(filterDate)) =>
          if isStart then !(recDate < filterDate) else !(recDate > filterDate)
        case _ => true
  }

  // --------------------------------------------------------- number bounds

  /** A regular expression's `.` without the `s` flag does not match these. */
  predicate IsLineTerminator(ch: char) {
    ch == '\n' || ch == '\r' || ch == '\U{2028}' || ch == '\U{2029}'
  }

  predicate NoLineBreak(s: string) {
    forall i :: 0 <= i < |s| ==> !IsLineTerminator(s[i])
  }

  predicate IsUpper(ch: char) {
    'A' <= ch <= 'Z'
  }

  /**
   * The bound a key sets, tried in the order `^min_(.+)$`, `^max_(.+)$`,
   * `^min([A-Z].*)$`, `^max([A-Z].*)$`: the field (its first letter
   * lowered in the camel-case forms) and whether it is a minimum.
   */
  function RangeBound(k: string): (r: Option<(string, bool)>)
    ensures r.Some? ==> r.value.0 != ""
    ensures r.Some? && r.value.1 ==> StartsWith(k, "min")
    ensures r.Some? && !r.value.1 ==> StartsWith(k, "max")
    ensures StartsWith(k, "min_") && |k| > 4 && NoLineBreak(k[4..]) ==> r == Some((k[4..], true))
    ensures StartsWith(k, "min") && |k| > 3 && IsUpper(k[3]) && NoLineBreak(k[4..]) ==>
      r == Some(([ToLowerChar(k[3])] + k[4..], true))
    ensures !StartsWith(k, "min") && !StartsWith(k, "max") ==> r.None?
  {
    if StartsWith(k, "min_") && |k| > 4 && NoLineBreak(k[4..]) then Some((k[4..], true))
    else if StartsWith(k, "max_") && |k| > 4 && NoLineBreak(k[4..]) then Some((k[4..], false))
    else if StartsWith(k, "min") && |k| > 3 && IsUpper(k[3]) && NoLineBreak(k[4..]) then
      Some(([ToLowerChar(k[3])] + k[4..], true))
    else if StartsWith(k, "max") && |k| > 3 && IsUpper(k[3]) && NoLineBreak(k[4..]) then
      Some(([ToLowerChar(k[3])] + k[4..], false))
    else None
  }

  /** A number bound rejects a record only when both sides are numbers and the field is out of bounds. */
  predicate RangePass(c: Coercions, record: Row, k: string, v: Value) {
    match RangeBound(k)
    case None => true
    case Some((field, isMin)) =>
      match (c.number(Get(record, field)), c.number(v))
      case (Some(numRec), Some(numFilter)) =>
        if isMin then !(numRec < numFilter) else !(numRec > numFilter)
      case _ => true
  }

  // -------------------------------------------------------- scalar filters

  /** Keys the scalar pass skips: the search term and every key shaped like a bound. */
  predicate Reserved(k: string) {
    k == "search" || StartsWith(k, "start_") || StartsWith(k, "end_")
    || StartsWith(k, "min_") || StartsWith(k, "max_")
    || (StartsWith(k, "min") && |k| > 3 && IsUpper(k[3]))
    || (StartsWith(k, "max") && |k| > 3 && IsUpper(k[3]))
  }

  /**
   * Any other key must match the record's field of that name: a string
   * field contains the filter's text ignoring case, a number field equals
   * `Number(v)`, a boolean field equals the filter read as a boolean, and
   * anything else is compared with `===`. A nullish field, a nullish
   * filter value and an empty filter text impose nothing.
   */
  predicate ScalarPass(c: Coercions, record: Row, k: string, v: Value) {
    if Reserved(k) then true
    else
      var recVal := Get(record, k);
      if IsNullish(recVal) || IsNullish(v) || v == Str("") then true
      else
        match recVal
        case Str(s) => Contains(ToLower(s), ToLower(Text(c, v)))
        case Int(i) => c.number(v) == Some(i as real)
        case Bool(b) => b == (if v.Bool? then v.b else Text(c, v) == "true")
        case _ => SameValue(recVal, v)
  }

  /** Everything one filter entry demands of a record. */
  predicate EntryPass(c: Coercions, record: Row, k: string, v: Value) {
    DatePass(c, record, k, v) && RangePass(c, record, k, v) && ScalarPass(c, record, k, v)
  }

  /** The filter callback: the search term, then every entry. */
  predicate Passes(c: Coercions, record: Row, filters: OMap<string, Value>) {
    (SearchTerm(filters).None? || MatchesSearch(record, SearchTerm(filters).value))
    && forall k :: k in filters.entries ==> EntryPass(c, record, k, filters.entries[k])
  }

  /** The three passes the filter callback makes over the entries. */
  datatype Check = DateCheck | RangeCheck | ScalarCheck

  predicate CheckPasses(check: Check, c: Coercions, record: Row, k: string, v: Value) {
    match check
    case DateCheck => DatePass(c, record, k, v)
    case RangeCheck => RangePass(c, record, k, v)
    case ScalarCheck => ScalarPass(c, record, k, v)
  }

  /** One pass over the entries in insertion order, returning false at the first rejection. */
  method EveryEntryPasses(check: Check, c: Coercions, record: Row, filters: OMap<string, Value>) returns (ok: bool)
    requires filters.Valid()
    ensures ok <==> forall k :: k in filters.entries ==> CheckPasses(check, c, record, k, filters.entries[k])
  {
    var keys := filters.keys;
    for i := 0 to |keys|
      invariant forall j :: 0 <= j < i ==> CheckPasses(check, c, record, keys[j], filters.entries[keys[j]])
    {
      if !CheckPasses(check, c, record, keys[i], filters.entries[keys[i]]) {
        return false;
      }
    }
    forall k | k in filters.entries
      ensures CheckPasses(check, c, record, k, filters.entries[k])
    {
      var j :| 0 <= j < |keys| && keys[j] == k;
    }
    return true;
  }

  /**
   * The filter callback as the source runs it: the search test, then the
   * date loop, the number loop and the scalar loop over the entries, each
   * returning false at the first entry that rejects the record.
   */
  method KeepRecord(c: Coercions, record: Row, filters: OMap<string, Value>) returns (keep: bool)
    requires filters.Valid()
    ensures keep == Passes(c, record, filters)
  {
    var search := SearchTerm(filters);
    if search.Some? && !MatchesSearch(record, search.value) {
      return false;
    }
    var ok := EveryEntryPasses(DateCheck, c, record, filters);
    if !ok {
      return false;
    }
    ok := EveryEntryPasses(RangeCheck, c, record, filters);
    if !ok {
      return false;
    }
    ok := EveryEntryPasses(ScalarCheck, c, record, filters);
    if !ok {
      return false;
    }
    return true;
  }

  /** `records.filter(callback)`, defined from the right as the records are visited. */
  function Filtered(c: Coercions, records: seq<Row>, filters: OMap<string, Value>): (r: seq<Row>)
    ensures |r| <= |records|
    ensures IsSubsequence(r, records)
    ensures forall x {:trigger multiset(r)[x]} :: multiset(r)[x] == if Passes(c, x, filters) then multiset(records)[x] else 0
  {
    if records == [] then []
    else
      var last := records[|records| - 1];
      var keep := Passes(c, last, filters);
      var rest := Filtered(c, records[..|records| - 1], filters);
      SnocSubsequence(keep, records, rest);
      MultisetSnoc(records);
      rest + (if keep then [last] else [])
  }

  /** `records.filter(callback)` as the records are visited. */
  method FilterRecords(c: Coercions, records: seq<Row>, filters: OMap<string, Value>) returns (kept: seq<Row>)
    requires filters.Valid()
    ensures kept == Filtered(c, records, filters)
  {
    kept := [];
    for i := 0 to |records|
      invariant kept == Filtered(c, records[..i], filters)
    {
      var keep := KeepRecord(c, records[i], filters);
      if keep {
        kept := kept + [records[i]];
      }
      assert records[..i + 1][..i] == records[..i];
    }
    assert records[..|records|] == records;
  }

  /** The filter keeps exactly the records that pass, and no others. */
  lemma {:induction false} FilteredMembers(c: Coercions, records: seq<Row>, filters: OMap<string, Value>)
    ensures forall x :: x in Filtered(c, records, filters) <==> x in records && Passes(c, x, filters)
  {
    if records != [] {
      var init := records[..|records| - 1];
      FilteredMembers(c, init, filters);
      assert records == init + [records[|records| - 1]];
    }
  }

  /** When every record passes, the filter keeps them all, in order. */
  lemma {:induction false} FilteredKeepsAll(c: Coercions, records: seq<Row>, filters: OMap<string, Value>)
    requires forall i :: 0 <= i < |records| ==> Passes(c, records[i], filters)
    ensures Filtered(c, records, filters) == records
  {
    if records != [] {
      var init := records[..|records| - 1];
      assert forall i :: 0 <= i < |init| ==> init[i] == records[i];
      FilteredKeepsAll(c, init, filters);
      assert records == init + [records[|records| - 1]];
    }
  }

  /** No filters keep every record. */
  lemma NoFiltersKeepAll(c: Coercions, records: seq<Row>)
    ensures Filtered(c, records, EmptyMap()) == records
  {
    FilteredKeepsAll(c, records, EmptyMap());
  }

  /** A search alone keeps exactly the records with a string field containing the lowered term. */
  lemma SearchOnly(c: Coercions, record: Row, term: string)
    requires term != ""
    ensures var filters := EmptyMap<string, Value>().Set("search", Str(term));
      Passes(c, record, filters) <==>
      exists k :: k in record && record[k].Str? && Contains(ToLower(record[k].s), ToLower(term))
  {
    var filters := EmptyMap<string, Value>().Set("search", Str(term));
    assert Reserved("search");
    assert !StartsWith("search", "start_") by { assert "search"[..6][1] == 'e'; }
    assert !StartsWith("search", "end_") by { assert "search"[..4][0] == 's'; }
    assert !StartsWith("search", "min") by { assert "search"[..3][0] == 's'; }
    assert !StartsWith("search", "max") by { assert "search"[..3][0] == 's'; }
    assert EntryPass(c, record, "search", Str(term));
  }

  /** One scalar entry alone: the rules by the type of the record's field. */
  lemma ScalarOnly(c: Coercions, record: Row, k: string, v: Value)
    requires !Reserved(k) && !IsNullish(v) && v != Str("")
    ensures var filters := EmptyMap<string, Value>().Set(k, v);
      var recVal := Get(record, k);
      (IsNullish(recVal) ==> Passes(c, record, filters))
      && (recVal.Str? ==> (Passes(c, record, filters) <==> Contains(ToLower(recVal.s), ToLower(Text(c, v)))))
      && (recVal.Int? ==> (Passes(c, record, filters) <==> c.number(v) == Some(recVal.i as real)))
      && (recVal.Bool? && v.Str? ==> (Passes(c, record, filters) <==> (recVal.b <==> v.s == "true")))
      && (recVal.Bool? && v.Bool? ==> (Passes(c, record, filters) <==> recVal.b == v.b))
  {
    assert !StartsWith(k, "start_") && !StartsWith(k, "end_");
    assert DateBound(k).None?;
    assert RangeBound(k).None? by {
      if StartsWith(k, "min") || StartsWith(k, "max") {
        assert !StartsWith(k, "min_") && !StartsWith(k, "max_");
        assert !(|k| > 3 && IsUpper(k[3]));
      }
    }
  }

  /**
   * A nullish or empty value under an ordinary key filters nothing: adding
   * it keeps the same records.
   */
  lemma EmptyValueIgnored(c: Coercions, record: Row, filters: OMap<string, Value>, k: string, v: Value)
    requires filters.Valid() && k !in filters.entries
    requires !Reserved(k) && (IsNullish(v) || v == Str(""))
    ensures Passes(c, record, filters.Set(k, v)) <==> Passes(c, record, filters)
  {
    assert !StartsWith(k, "start_") && !StartsWith(k, "end_");
    assert DateBound(k).None?;
    assert RangeBound(k).None? by {
      if StartsWith(k, "min") || StartsWith(k, "max") {
        assert !(|k| > 3 && IsUpper(k[3]));
      }
    }
    assert EntryPass(c, record, k, v);
    var more := filters.Set(k, v);
    assert SearchTerm(more) == SearchTerm(filters);
    MoreFiltersKeepFewer(c, record, filters, k, v);
    if Passes(c, record, filters) {
      forall k2 | k2 in more.entries
        ensures EntryPass(c, record, k2, more.entries[k2])
      {
        if k2 != k {
          assert more.entries[k2] == filters.entries[k2];
        }
      }
    }
  }

  /** Filters only narrow: adding an entry other than the search never keeps more records. */
  lemma MoreFiltersKeepFewer(c: Coercions, record: Row, filters: OMap<string, Value>, k: string, v: Value)
    requires filters.Valid() && k !in filters.entries && k != "search"
    ensures Passes(c, record, filters.Set(k, v)) ==> Passes(c, record, filters)
  {
    var more := filters.Set(k, v);
    assert SearchTerm(more) == SearchTerm(filters);
    if Passes(c, record, more) {
      forall k2 | k2 in filters.entries
        ensures EntryPass(c, record, k2, filters.entries[k2])
      {
        assert more.entries[k2] == filters.entries[k2];
      }
    }
  }

  // ----------------------------------------------------------------- sort

  datatype SortDir = Asc | Desc

  /** `<` between two strings: character by character, a proper prefix first. */
  predicate StrLess(a: string, b: string)
    decreases |a|
  {
    if a == [] then b != []
    else if b == [] then false
    else a[0] < b[0] || (a[0] == b[0] && StrLess(a[1..], b[1..]))
  }

  lemma {:induction false} StrLessIrreflexive(a: string)
    ensures !StrLess(a, a)
    decreases |a|
  {
    if a != [] {
      StrLessIrreflexive(a[1..]);
    }
  }

  lemma {:induction false} StrLessAsymmetric(a: string, b: string)
    ensures !(StrLess(a, b) && StrLess(b, a))
    decreases |a|
  {
    if a != [] && b != [] {
      StrLessAsymmetric(a[1..], b[1..]);
    }
  }

  lemma {:induction false} StrLessTotal(a: string, b: string)
    ensures a == b || StrLess(a, b) || StrLess(b, a)
    decreases |a|
  {
    if a != [] && b != [] && a[0] == b[0] {
      StrLessTotal(a[1..], b[1..]);
      if a[1..] == b[1..] {
        assert a == [a[0]] + a[1..] && b == [b[0]] + b[1..];
      }
    }
  }

  lemma {:induction false} StrLessTransitive(a: string, b: string, c: string)
    requires StrLess(a, b) && StrLess(b, c)
    ensures StrLess(a, c)
    decreases |a|
  {
    if a != [] && a[0] == b[0] && b[0] == c[0] {
      StrLessTransitive(a[1..], b[1..], c[1..]);
    }
  }

  /** `av < bv` between two values of the same kind; other pairs are not ordered here. */
  predicate JsLess(a: Value, b: Value) {
    match (a, b)
    case (Int(x), Int(y)) => x < y
    case (Str(x), Str(y)) => StrLess(x, y)
    case (Bool(x), Bool(y)) => !x && y
    case _ => false
  }

  /** The sort comparator, for `asc` true when `sortDir === 'asc'`. */
  function Compare(av: Value, bv: Value, asc: bool): (r: int)
    ensures r == -1 || r == 0 || r == 1
  {
    if SameValue(av, bv) then 0
    else if IsNullish(av) then 1
    else if IsNullish(bv) then -1
    else if JsLess(av, bv) then (if asc then -1 else 1)
    else (if asc then 1 else -1)
  }

  /** The values a sort key can hold that the comparator orders: nullish, numbers, strings, booleans. */
  predicate SortableValue(v: Value) {
    v.Null? || v.Undefined? || v.Int? || v.Str? || v.Bool?
  }

  /** Two sort-key values the comparator can rank: sortable, and of one kind unless one is nullish. */
  predicate Orderable(a: Value, b: Value) {
    SortableValue(a) && SortableValue(b)
    && (IsNullish(a) || IsNullish(b) || (a.Int? && b.Int?) || (a.Str? && b.Str?) || (a.Bool? && b.Bool?))
  }

  /** The order the comparator sorts by: values before nullish ones, then ascending or descending. */
  predicate Before(a: Value, b: Value, asc: bool) {
    if IsNullish(a) then IsNullish(b)
    else if IsNullish(b) then true
    else if asc then !JsLess(b, a)
    else !JsLess(a, b)
  }

  lemma JsLessLaws(a: Value, b: Value)
    requires Orderable(a, b) && !IsNullish(a) && !IsNullish(b)
    ensures !JsLess(a, a)
    ensures !(JsLess(a, b) && JsLess(b, a))
    ensures a == b || JsLess(a, b) || JsLess(b, a)
  {
    if a.Str? {
      StrLessIrreflexive(a.s);
      StrLessAsymmetric(a.s, b.s);
      StrLessTotal(a.s, b.s);
    }
  }

  lemma JsLessTransitive(a: Value, b: Value, c: Value)
    requires Orderable(a, b) && Orderable(b, c) && !IsNullish(a) && !IsNullish(b) && !IsNullish(c)
    requires JsLess(a, b) && JsLess(b, c)
    ensures JsLess(a, c)
  {
    if a.Str? {
      StrLessTransitive(a.s, b.s, c.s);
    }
  }

  /** What the comparator's sign says about the order. */
  lemma CompareOrders(x: Value, e: Value, asc: bool)
    requires Orderable(x, e)
    ensures Compare(x, e, asc) <= 0 ==> Before(x, e, asc)
    ensures Compare(x, e, asc) > 0 ==> Before(e, x, asc)
  {
    if !IsNullish(x) && !IsNullish(e) {
      JsLessLaws(x, e);
    }
  }

  lemma BeforeTransitive(a: Value, b: Value, c: Value, asc: bool)
    requires Orderable(a, b) && Orderable(b, c)
    requires Before(a, b, asc) && Before(b, c, asc)
    ensures Before(a, c, asc)
  {
    if !IsNullish(a) && !IsNullish(b) && !IsNullish(c) {
      JsLessLaws(a, b);
      JsLessLaws(b, c);
      if asc && JsLess(c, a) {
        if a != b {
          JsLessTransitive(c, a, b);
        }
      } else if !asc && JsLess(a, c) {
        if b != c {
          JsLessTransitive(a, c, b);
        }
      }
    }
  }

  /**
   * One insertion step of a stable sort: `x`, which came first in the
   * input, goes in front of the first row the comparator does not put
   * before it.
   */
  function Insert(x: Row, s: seq<Row>, key: string, asc: bool): (r: seq<Row>)
    ensures multiset(r) == multiset(s) + multiset{x}
  {
    if s == [] || Compare(Get(x, key), Get(s[0], key), asc) <= 0 then [x] + s
    else
      assert s == [s[0]] + s[1..];
      [s[0]] + Insert(x, s[1..], key, asc)
  }

  /** `records.sort(comparator)` on `record[key]`, as a stable insertion sort. */
  function SortRows(s: seq<Row>, key: string, asc: bool): (r: seq<Row>)
    ensures multiset(r) == multiset(s)
  {
    if s == [] then []
    else
      assert s == [s[0]] + s[1..];
      Insert(s[0], SortRows(s[1..], key, asc), key, asc)
  }

  /** Every pair of rows is in comparator order. */
  predicate SortedBy(s: seq<Row>, key: string, asc: bool) {
    forall i, j :: 0 <= i < j < |s| ==> Before(Get(s[i], key), Get(s[j], key), asc)
  }

  /** Every two sort-key values of the rows can be ranked. */
  predicate Comparable(s: seq<Row>, key: string) {
    forall a, b :: a in s && b in s ==> Orderable(Get(a, key), Get(b, key))
  }

  /** `x` goes in front: it precedes the first row and so, by transitivity, every row. */
  lemma InsertInFront(x: Row, s: seq<Row>, key: string, asc: bool)
    requires s != [] && SortedBy(s, key, asc) && Comparable([x] + s, key)
    requires Compare(Get(x, key), Get(s[0], key), asc) <= 0
    ensures SortedBy([x] + s, key, asc)
  {
    CompareOrders(Get(x, key), Get(s[0], key), asc);
    var r := [x] + s;
    forall i, j | 0 <= i < j < |r| ensures Before(Get(r[i], key), Get(r[j], key), asc) {
      if i == 0 && j > 1 {
        assert r[j] == s[j - 1] && s[0] in s && s[j - 1] in s;
        BeforeTransitive(Get(x, key), Get(s[0], key), Get(s[j - 1], key), asc);
      } else if i > 0 {
        assert r[i] == s[i - 1] && r[j] == s[j - 1];
      }
    }
  }

  /** The rows of a sorted sequence after its first come after the first. */
  lemma HeadBeforeRest(x: Row, s: seq<Row>, t: seq<Row>, key: string, asc: bool)
    requires s != [] && SortedBy(s, key, asc) && Before(Get(s[0], key), Get(x, key), asc)
    requires multiset(t) == multiset(s[1..]) + multiset{x}
    ensures SortedBy(t, key, asc) ==> SortedBy([s[0]] + t, key, asc)
  {
    var rest := s[1..];
    forall j | 0 <= j < |t| ensures Before(Get(s[0], key), Get(t[j], key), asc) {
      assert t[j] in multiset(t);
      if t[j] != x {
        assert t[j] in multiset(rest);
        var m :| 0 <= m < |rest| && rest[m] == t[j];
        assert s[m + 1] == t[j];
      }
    }
    var r := [s[0]] + t;
    if SortedBy(t, key, asc) {
      forall i, j | 0 <= i < j < |r| ensures Before(Get(r[i], key), Get(r[j], key), asc) {
        if i == 0 {
          assert r[j] == t[j - 1];
        } else {
          assert r[i] == t[i - 1] && r[j] == t[j - 1];
        }
      }
    }
  }

  lemma {:induction false} InsertSorted(x: Row, s: seq<Row>, key: string, asc: bool)
    requires SortedBy(s, key, asc) && Comparable([x] + s, key)
    ensures SortedBy(Insert(x, s, key, asc), key, asc)
  {
    if s == [] {
    } else if Compare(Get(x, key), Get(s[0], key), asc) <= 0 {
      InsertInFront(x, s, key, asc);
    } else {
      CompareOrders(Get(x, key), Get(s[0], key), asc);
      var rest := s[1..];
      assert Comparable([x] + rest, key) by {
        forall a | a in [x] + rest ensures a in [x] + s {
          if a != x {
            assert a in rest;
          }
        }
      }
      assert SortedBy(rest, key, asc) by {
        forall i, j | 0 <= i < j < |rest| ensures Before(Get(rest[i], key), Get(rest[j], key), asc) {
          assert rest[i] == s[i + 1] && rest[j] == s[j + 1];
        }
      }
      InsertSorted(x, rest, key, asc);
      HeadBeforeRest(x, s, Insert(x, rest, key, asc), key, asc);
    }
  }

  /** Sorting rows whose keys can all be ranked puts every pair in comparator order. */
  lemma {:induction false} SortRowsSorted(s: seq<Row>, key: string, asc: bool)
    requires Comparable(s, key)
    ensures SortedBy(SortRows(s, key, asc), key, asc)
  {
    if s != [] {
      var rest := s[1..];
      assert Comparable(rest, key) by {
        forall a | a in rest ensures a in s {
        }
      }
      SortRowsSorted(rest, key, asc);
      var t := SortRows(rest, key, asc);
      assert Comparable([s[0]] + t, key) by {
        forall a | a in [s[0]] + t ensures a in s {
          if a != s[0] {
            assert a in multiset(t);
            assert a in multiset(rest);
          }
        }
      }
      InsertSorted(s[0], t, key, asc);
    }
  }

  /**
   * The sort reorders and never loses or duplicates a row; rows whose
   * sort field is null or missing come after every other row, and
   * number fields come ascending or descending as asked.
   */
  lemma SortOrder(s: seq<Row>, key: string, asc: bool)
    requires Comparable(s, key)
    ensures var r := SortRows(s, key, asc);
      multiset(r) == multiset(s)
      && (forall i, j :: 0 <= i < j < |r| && IsNullish(Get(r[i], key)) ==> IsNullish(Get(r[j], key)))
      && (forall i, j :: 0 <= i < j < |r| && Get(r[i], key).Int? && Get(r[j], key).Int? ==>
            if asc then Get(r[i], key).i <= Get(r[j], key).i else Get(r[i], key).i >= Get(r[j], key).i)
  {
    SortRowsSorted(s, key, asc);
  }

  // ---------------------------------------------------------------- paging

  /** How `slice` reads an integer index: negative counts from the end, and both clamp to the length. */
  function SliceIndex(i: int, n: nat): (r: nat)
    ensures r <= n
    ensures 0 <= i <= n ==> r == i
  {
    if i < 0 then (if n + i < 0 then 0 else n + i)
    else if i > n then n
    else i
  }

  /** `s.slice(start, end)`. */
  function JsSlice<T>(s: seq<T>, start: int, end: int): (r: seq<T>)
    ensures 0 <= start <= end ==> r == s[Min(start, |s|)..Min(end, |s|)]
  {
    var a := SliceIndex(start, |s|);
    var b := SliceIndex(end, |s|);
    if a < b then s[a..b] else []
  }

  /** A fetch request; `None` is a parameter left out. */
  datatype FetchParams = FetchParams(
    page: Option<int>,
    pageSize: Option<int>,
    sortBy: Option<string>,
    sortDir: Option<SortDir>,
    filters: Option<OMap<string, Value>>)

  datatype Response = Response(data: seq<Row>, pagination: Pagination)

  /** Page 1 and 50 rows a page unless the request says otherwise. */
  function PageOf(params: FetchParams): int {
    params.page.GetOr(1)
  }

  function PageSizeOf(params: FetchParams): int {
    params.pageSize.GetOr(50)
  }

  function FiltersOf(params: FetchParams): OMap<string, Value> {
    params.filters.GetOr(EmptyMap())
  }

  /** The filtered records in the requested order; a missing or empty `sortBy` keeps their order. */
  function Ordered(c: Coercions, records: seq<Row>, params: FetchParams): seq<Row> {
    var kept := Filtered(c, records, FiltersOf(params));
    if params.sortBy.Some? && params.sortBy.value != "" then
      SortRows(kept, params.sortBy.value, params.sortDir != Some(Desc))
    else kept
  }

  /** The answer to a fetch: one page of the ordered rows, and the pagination of all that passed. */
  function FetchOf(c: Coercions, records: seq<Row>, params: FetchParams): (r: Response)
    requires PageSizeOf(params) >= 1
    ensures r.pagination.page == PageOf(params) && r.pagination.pageSize == PageSizeOf(params)
    ensures r.pagination.total == |Filtered(c, records, FiltersOf(params))|
  {
    PageResponse(Ordered(c, records, params), |Filtered(c, records, FiltersOf(params))|, PageOf(params), PageSizeOf(params))
  }

  /** Page `page` of `ordered`, with the pagination of `total` rows: what the handler returns. */
  function PageResponse(ordered: seq<Row>, total: nat, page: int, pageSize: int): Response
    requires pageSize >= 1
  {
    var startIndex := (page - 1) * pageSize;
    Response(
      JsSlice(ordered, startIndex, startIndex + pageSize),
      Pagination(page, pageSize, total, CeilDiv(total, pageSize)))
  }

  /** The index of the first row of page `page` (counted from 1): `(page - 1) * pageSize`. */
  function PageStart(page: int, ps: int): (r: nat)
    requires page >= 1 && ps >= 1
  {
    MulMono(0, page - 1, ps);
    (page - 1) * ps
  }

  /** `FetchOf` from the filtered rows and their order, as the handler computes them. */
  lemma FetchOfSteps(c: Coercions, records: seq<Row>, params: FetchParams, kept: seq<Row>, ordered: seq<Row>)
    requires PageSizeOf(params) >= 1
    requires kept == Filtered(c, records, FiltersOf(params))
    requires ordered == if params.sortBy.Some? && params.sortBy.value != "" then SortRows(kept, params.sortBy.value, params.sortDir != Some(Desc)) else kept
    ensures FetchOf(c, records, params) == PageResponse(ordered, |kept|, PageOf(params), PageSizeOf(params))
  {
  }

  /** The arithmetic behind paging: where page `page` starts, ends, and whether it is full or past the end. */
  lemma PageBounds(n: nat, page: int, ps: int)
    requires ps >= 1 && page >= 1
    ensures PageStart(page, ps) + ps == page * ps
    ensures page < CeilDiv(n, ps) ==> PageStart(page, ps) + ps <= n
    ensures page > CeilDiv(n, ps) ==> PageStart(page, ps) >= n
  {
    var tp := CeilDiv(n, ps);
    if page < tp {
      MulMono(page, tp - 1, ps);
    }
    if page > tp {
      MulMono(tp, page - 1, ps);
    }
  }

  /** The page arithmetic on any sequence, for page numbers from 1 and a positive page size. */
  lemma PageSlice<T>(s: seq<T>, page: int, ps: int)
    requires ps >= 1 && page >= 1
    ensures var tp := CeilDiv(|s|, ps);
      var start := PageStart(page, ps);
      var d := JsSlice(s, start, start + ps);
      (start < |s| ==> d == s[start..Min(start + ps, |s|)])
      && (page < tp ==> |d| == ps)
      && (page > tp ==> d == [])
  {
    PageBounds(|s|, page, ps);
  }

  lemma MulMono(a: int, b: int, k: nat)
    requires a <= b
    ensures a * k <= b * k
  {
  }

  /** Sorting keeps the number of rows. */
  lemma OrderedLength(c: Coercions, records: seq<Row>, params: FetchParams)
    ensures |Ordered(c, records, params)| == |Filtered(c, records, FiltersOf(params))|
  {
    var kept := Filtered(c, records, FiltersOf(params));
    if params.sortBy.Some? && params.sortBy.value != "" {
      var s := SortRows(kept, params.sortBy.value, params.sortDir != Some(Desc));
      assert |s| == |multiset(s)| == |multiset(kept)| == |kept|;
    }
  }

  /**
   * The paging of a fetch: `totalPages` pages of `pageSize` hold every
   * row that passed and the last one is not empty; a page within range
   * holds the rows at `[(page − 1)·pageSize, page·pageSize)`, a full page
   * unless it is the last; a page past the end is empty.
   */
  lemma FetchPaging(c: Coercions, records: seq<Row>, params: FetchParams)
    requires PageSizeOf(params) >= 1 && PageOf(params) >= 1
    ensures var r := FetchOf(c, records, params);
      var p := r.pagination;
      var ordered := Ordered(c, records, params);
      var start := PageStart(p.page, p.pageSize);
      |ordered| == p.total
      && p.total <= p.totalPages * p.pageSize && (p.totalPages == 0 || (p.totalPages - 1) * p.pageSize < p.total)
      && (start < p.total ==> r.data == ordered[start..Min(start + p.pageSize, p.total)])
      && (p.page < p.totalPages ==> |r.data| == p.pageSize)
      && (p.page > p.totalPages ==> r.data == [])
  {
    FetchParts(c, records, params);
    var ordered := Ordered(c, records, params);
    var page, ps := PageOf(params), PageSizeOf(params);
    var total := |ordered|;
    var tp := CeilDiv(total, ps);
    var r := FetchOf(c, records, params);
    assert r.pagination == Pagination(page, ps, total, tp);
    assert total <= tp * ps && (tp == 0 || (tp - 1) * ps < total);
    assert r.data == JsSlice(ordered, PageStart(page, ps), PageStart(page, ps) + ps);
    PageSlice(ordered, page, ps);
  }

  /** A fetch for a page from 1 on is the page of the ordered rows that `PageStart` names. */
  lemma FetchParts(c: Coercions, records: seq<Row>, params: FetchParams)
    requires PageSizeOf(params) >= 1 && PageOf(params) >= 1
    ensures var ordered := Ordered(c, records, params);
      var page, ps := PageOf(params), PageSizeOf(params);
      FetchOf(c, records, params) == Response(
        JsSlice(ordered, PageStart(page, ps), PageStart(page, ps) + ps),
        Pagination(page, ps, |ordered|, CeilDiv(|ordered|, ps)))
  {
    OrderedLength(c, records, params);
  }

  lemma DivMod(i: nat, ps: int)
    requires ps >= 1
    ensures 0 <= (i / ps) * ps && (i / ps) * ps + i % ps == i && 0 <= i % ps < ps
  {
  }

  /** Position `i` of a sequence is on page `i / ps + 1`, at `i % ps`. */
  lemma SliceAt<T>(s: seq<T>, ps: int, i: nat)
    requires ps >= 1 && i < |s|
    ensures var d := JsSlice(s, (i / ps) * ps, (i / ps) * ps + ps);
      i % ps < |d| && d[i % ps] == s[i]
  {
    DivMod(i, ps);
    SliceAtOffset(s, ps, (i / ps) * ps, i % ps);
  }

  /** Position `off` of the slice of `ps` rows from `start` is position `start + off` of the whole. */
  lemma SliceAtOffset<T>(s: seq<T>, ps: int, start: nat, off: nat)
    requires ps >= 1 && off < ps && start + off < |s|
    ensures var d := JsSlice(s, start, start + ps);
      off < |d| && d[off] == s[start + off]
  {
    var d := JsSlice(s, start, start + ps);
    assert d == s[start..Min(start + ps, |s|)];
  }

  /** Index `i` lies in the range of page `i / pageSize + 1`. */
  lemma PageOfIndex(i: nat, ps: int)
    requires ps >= 1
    ensures PageStart(i / ps + 1, ps) <= i < PageStart(i / ps + 1, ps) + ps
  {
    DivMod(i, ps);
  }

  /**
   * The page asked for holds every row that passed whose index lies in
   * its range, at its offset from the page's start.
   */
  lemma RowOnItsPage(c: Coercions, records: seq<Row>, params: FetchParams, i: nat)
    requires PageSizeOf(params) >= 1 && PageOf(params) >= 1 && i < |Ordered(c, records, params)|
    requires PageStart(PageOf(params), PageSizeOf(params)) <= i < PageStart(PageOf(params), PageSizeOf(params)) + PageSizeOf(params)
    ensures var data := FetchOf(c, records, params).data;
      var off := i - PageStart(PageOf(params), PageSizeOf(params));
      off < |data| && data[off] == Ordered(c, records, params)[i]
  {
    var ordered, ps := Ordered(c, records, params), PageSizeOf(params);
    var start := PageStart(PageOf(params), ps);
    FetchParts(c, records, params);
    var data := FetchOf(c, records, params).data;
    assert data == JsSlice(ordered, start, start + ps);
    SliceAtOffset(ordered, ps, start, i - start);
  }

  /** A request with no parameters: page 1 of 50 over all records in stored order. */
  lemma FetchDefaults(c: Coercions, records: seq<Row>)
    ensures var r := FetchOf(c, records, FetchParams(None, None, None, None, None));
      r.data == records[..Min(50, |records|)]
      && r.pagination == Pagination(1, 50, |records|, CeilDiv(|records|, 50))
  {
    NoFiltersKeepAll(c, records);
  }
}
