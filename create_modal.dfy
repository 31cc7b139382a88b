/**
 * The create dialog: a list of draft rows, validated against the create
 * schema only once the user has pressed Create, then confirmed in a
 * second dialog that submits every draft.
 */
module CreateModal {
  import opened Wrappers
  import opened Values
  import opened Columns
  import opened SeqFacts

  /** A schema issue: its path (field names) and message. */
  datatype Issue = Issue(path: seq<string>, message: string)

  /** The create schema, seen through `safeParse`: the issues of a row; none means success. */
  datatype CreateSchema = CreateSchema(safeParse: Row -> seq<Issue>)

  /** A draft row: its id, the values typed so far and the message per failing field. */
  datatype FormItem = FormItem(id: string, data: Row, errors: map<string, string>)

  /** The field an issue is reported against: its first path element, if any. */
  predicate ReportsOn(issue: Issue, field: string) {
    |issue.path| > 0 && issue.path[0] == field
  }

  /**
   * Issue messages by field: every issue with a non-empty path writes its
   * message under its first path element, in order, so the last issue for
   * a field wins.
   */
  function FieldErrors(issues: seq<Issue>): (m: map<string, string>)
    ensures forall k :: k in m ==> exists j :: 0 <= j < |issues| && ReportsOn(issues[j], k)
  {
    if issues == [] then map[]
    else
      var init := issues[..|issues| - 1];
      var last := issues[|issues| - 1];
      assert forall j :: 0 <= j < |init| ==> init[j] == issues[j];
      if |last.path| > 0 then FieldErrors(init)[last.path[0] := last.message] else FieldErrors(init)
  }

  /** A field carries the message of the last issue reported on it. */
  lemma {:induction false} FieldErrorsLastWins(issues: seq<Issue>, k: string, j: nat)
    requires j < |issues| && ReportsOn(issues[j], k)
    requires forall j' :: j < j' < |issues| ==> !ReportsOn(issues[j'], k)
    ensures k in FieldErrors(issues) && FieldErrors(issues)[k] == issues[j].message
  {
    var n := |issues| - 1;
    var init := issues[..n];
    if j < n {
      assert forall j' :: 0 <= j' < n ==> init[j'] == issues[j'];
      FieldErrorsLastWins(init, k, j);
    }
  }

  /** Every field an issue reports on has a message. */
  lemma {:induction false} FieldErrorsCoverIssue(issues: seq<Issue>, k: string, j: nat)
    requires j < |issues| && ReportsOn(issues[j], k)
    ensures k in FieldErrors(issues)
  {
    var n := |issues| - 1;
    if ReportsOn(issues[n], k) {
      FieldErrorsLastWins(issues, k, n);
    } else {
      var init := issues[..n];
      assert init[j] == issues[j];
      FieldErrorsCoverIssue(init, k, j);
    }
  }

  /** `issues.some(issue => issue.path.length > 0 && issue.path[0] === field)`. */
  function SomeReportsOn(issues: seq<Issue>, field: string): (b: bool)
    ensures b <==> exists j :: 0 <= j < |issues| && ReportsOn(issues[j], field)
  {
    if issues == [] then false
    else ReportsOn(issues[0], field) || (assert forall j :: 1 <= j < |issues| ==> issues[1..][j - 1] == issues[j]; SomeReportsOn(issues[1..], field))
  }

  /** The `forEach` over the issues that fills the message map. */
  method CollectFieldErrors(issues: seq<Issue>) returns (m: map<string, string>)
    ensures m == FieldErrors(issues)
  {
    m := map[];
    for i := 0 to |issues|
      invariant m == FieldErrors(issues[..i])
    {
      assert issues[..i + 1][..i] == issues[..i];
      if |issues[i].path| > 0 {
        m := m[issues[i].path[0] := issues[i].message];
      }
    }
    assert issues[..|issues|] == issues;
  }

  /** The errors a row shows after validation: none when it parses, else its field messages. */
  function ErrorsFor(schema: CreateSchema, data: Row): map<string, string> {
    var issues := schema.safeParse(data);
    if issues == [] then map[] else FieldErrors(issues)
  }

  /** A row validated: its data kept, its errors recomputed. */
  function Validated(schema: CreateSchema, item: FormItem): (r: FormItem)
    ensures r.id == item.id && r.data == item.data
    ensures schema.safeParse(item.data) == [] ==> r.errors == map[]
  {
    item.(errors := ErrorsFor(schema, item.data))
  }

  /**
   * `updateItemField` on one row: the field is set; before the first
   * submit the errors stay as they were, afterwards the row is re-validated.
   */
  function UpdatedItem(schema: CreateSchema, hasInteracted: bool, item: FormItem, field: string, value: Value): (r: FormItem)
    ensures r.id == item.id && r.data == item.data[field := value]
    ensures !hasInteracted ==> r.errors == item.errors
    ensures hasInteracted ==> r.errors == ErrorsFor(schema, item.data[field := value])
  {
    var nextData := item.data[field := value];
    if !hasInteracted then item.(data := nextData)
    else Validated(schema, item.(data := nextData))
  }

  /** `isFieldRequired`: validating an empty row fails with an issue on that field. */
  function IsFieldRequired(schema: CreateSchema, field: string): bool {
    var issues := schema.safeParse(map[]);
    issues != [] && SomeReportsOn(issues, field)
  }

  /** A field is required exactly when an empty row, once validated, shows an error on it. */
  lemma RequiredIffEmptyRowFails(schema: CreateSchema, field: string, id: string)
    ensures IsFieldRequired(schema, field) <==> field in Validated(schema, FormItem(id, map[], map[])).errors
  {
    var issues := schema.safeParse(map[]);
    if IsFieldRequired(schema, field) {
      var j :| 0 <= j < |issues| && ReportsOn(issues[j], field);
      FieldErrorsCoverIssue(issues, field, j);
    }
  }

  /** Does the form show column `c`: not hidden, not read-only and not the id column? */
  predicate OnForm(c: Column, idColumn: Option<string>) {
    !HasKind(c, Hidden) && !IsReadonly(c) && !(idColumn.Some? && c.key == idColumn.value)
  }

  /** The columns the form shows, in column order. */
  function EditableColumns(columns: seq<Column>, idColumn: Option<string>): (r: seq<Column>)
    ensures IsSubsequence(r, columns)
    ensures forall c {:trigger multiset(r)[c]} :: multiset(r)[c] == if OnForm(c, idColumn) then multiset(columns)[c] else 0
    ensures forall c :: c in r <==> c in columns && OnForm(c, idColumn)
  {
    if columns == [] then []
    else
      var keep := OnForm(columns[0], idColumn);
      var rest := EditableColumns(columns[1..], idColumn);
      ConsSubsequence(keep, columns, rest);
      MultisetCons(columns);
      (if keep then [columns[0]] else []) + rest
  }

  /** The number of field errors across all rows. */
  function TotalErrors(items: seq<FormItem>): (n: nat)
    ensures n == 0 <==> forall i :: 0 <= i < |items| ==> items[i].errors == map[]
  {
    if items == [] then 0 else |items[0].errors| + TotalErrors(items[1..])
  }

  /** The Create button is disabled once errors are being shown and some row still has one. */
  function CreateDisabled(hasInteracted: bool, items: seq<FormItem>): (r: bool)
    ensures r <==> hasInteracted && exists i :: 0 <= i < |items| && items[i].errors != map[]
  {
    hasInteracted && TotalErrors(items) > 0
  }

  /** `res && res.data !== undefined`: the column's query answered a value. */
  predicate Queried(res: Option<Value>) {
    res.Some? && res.value != Undefined
  }

  /** No column after `i` with the same key has a queried value. */
  predicate LastQueried(columns: seq<Column>, results: seq<Option<Value>>, i: int)
    requires |results| == |columns| && 0 <= i < |columns|
  {
    Queried(results[i]) && forall j :: i < j < |columns| && columns[j].key == columns[i].key ==> !Queried(results[j])
  }

  /** No column before `i` with the same key has a queried value. */
  predicate FirstQueried(columns: seq<Column>, results: seq<Option<Value>>, i: int)
    requires |results| == |columns| && 0 <= i < |columns|
  {
    Queried(results[i]) && forall j :: 0 <= j < i && columns[j].key == columns[i].key ==> !Queried(results[j])
  }

  /**
   * The default row: each column's queried value, where there is one; a
   * later column with the same key overwrites an earlier one.
   */
  function DefaultRow(columns: seq<Column>, results: seq<Option<Value>>): (r: Row)
    requires |results| == |columns|
    ensures forall k :: k in r <==> exists i :: 0 <= i < |columns| && columns[i].key == k && Queried(results[i])
  {
    if columns == [] then map[]
    else
      var n := |columns| - 1;
      var base := DefaultRow(columns[..n], results[..n]);
      assert forall i :: 0 <= i < n ==> columns[..n][i] == columns[i] && results[..n][i] == results[i];
      if Queried(results[n]) then base[columns[n].key := results[n].value] else base
  }

  /** Each key of the default row holds the value of the last column with that key that has one. */
  lemma {:induction false} DefaultRowValues(columns: seq<Column>, results: seq<Option<Value>>, i: int)
    requires |results| == |columns| && 0 <= i < |columns| && LastQueried(columns, results, i)
    ensures DefaultRow(columns, results)[columns[i].key] == results[i].value
  {
    var n := |columns| - 1;
    if i < n {
      assert columns[i].key != columns[n].key || !Queried(results[n]);
      assert forall j :: 0 <= j < n ==> columns[..n][j] == columns[j] && results[..n][j] == results[j];
      assert LastQueried(columns[..n], results[..n], i);
      DefaultRowValues(columns[..n], results[..n], i);
    }
  }

  /**
   * The defaults effect on the first row: each queried value fills its
   * field only while that field is still undefined, so an undefined field
   * receives the first value queried for its key.
   */
  function FillDefaults(data: Row, columns: seq<Column>, results: seq<Option<Value>>): (r: Row)
    requires |results| == |columns|
    decreases |columns|
    ensures forall k | k in data && data[k] != Undefined :: k in r && r[k] == data[k]
    ensures forall k :: k in r <==> k in data || exists i :: 0 <= i < |columns| && columns[i].key == k && Queried(results[i])
  {
    if columns == [] then data
    else
      var c := columns[0];
      var next := if Queried(results[0]) && Get(data, c.key) == Undefined then data[c.key := results[0].value] else data;
      var r := FillDefaults(next, columns[1..], results[1..]);
      assert forall i :: 1 <= i < |columns| ==> columns[1..][i - 1] == columns[i] && results[1..][i - 1] == results[i];
      r
  }

  /** An undefined field receives the value of the first column with its key that has one. */
  lemma {:induction false} FillDefaultsFirstWins(data: Row, columns: seq<Column>, results: seq<Option<Value>>, i: int)
    requires |results| == |columns| && 0 <= i < |columns| && FirstQueried(columns, results, i)
    requires Get(data, columns[i].key) == Undefined
    ensures FillDefaults(data, columns, results)[columns[i].key] == results[i].value
    decreases |columns|
  {
    var c := columns[0];
    var next := if Queried(results[0]) && Get(data, c.key) == Undefined then data[c.key := results[0].value] else data;
    assert FillDefaults(data, columns, results) == FillDefaults(next, columns[1..], results[1..]);
    if i == 0 {
      assert next[c.key] == results[0].value != Undefined;
    } else {
      assert c.key != columns[i].key || !Queried(results[0]);
      assert Get(next, columns[i].key) == Undefined;
      assert FirstQueried(columns[1..], results[1..], i - 1) by {
        assert columns[1..][i - 1] == columns[i] && results[1..][i - 1] == results[i];
        assert forall j :: 1 <= j < |columns| ==> columns[1..][j - 1] == columns[j] && results[1..][j - 1] == results[j];
      }
      FillDefaultsFirstWins(next, columns[1..], results[1..], i - 1);
    }
  }

  /** A field no column has a value for keeps whatever it held. */
  lemma {:induction false} FillDefaultsUnqueried(data: Row, columns: seq<Column>, results: seq<Option<Value>>, k: string)
    requires |results| == |columns| && k in data
    requires forall i :: 0 <= i < |columns| && columns[i].key == k ==> !Queried(results[i])
    ensures FillDefaults(data, columns, results)[k] == data[k]
    decreases |columns|
  {
    if columns != [] {
      var c := columns[0];
      var next := if Queried(results[0]) && Get(data, c.key) == Undefined then data[c.key := results[0].value] else data;
      assert next[k] == data[k];
      assert forall j :: 1 <= j < |columns| ==> columns[1..][j - 1] == columns[j] && results[1..][j - 1] == results[j];
      FillDefaultsUnqueried(next, columns[1..], results[1..], k);
    }
  }

  predicate DistinctIds(items: seq<FormItem>) {
    forall i, j :: 0 <= i < j < |items| ==> items[i].id != items[j].id
  }

  function Ids(items: seq<FormItem>): set<string> {
    set i | 0 <= i < |items| :: items[i].id
  }

  /**
   * The dialog's state. Fresh row ids (from `crypto.randomUUID`) are
   * passed in; a new id must differ from the ids in use. `results` holds
   * each column's `useColumnQuery` answer, None for a column without one.
   */
  class CreateForm {
    const schema: CreateSchema
    const columns: seq<Column>
    const results: seq<Option<Value>>
    var formItems: seq<FormItem>
    var hasInteracted: bool
    var isConfirmOpen: bool

    /** The list is never empty and its ids are distinct. */
    ghost predicate Valid()
      reads this
    {
      |results| == |columns| && |formItems| >= 1 && DistinctIds(formItems)
    }

    function DefaultData(): Row
      reads this
      requires |results| == |columns|
    {
      DefaultRow(columns, results)
    }

    /** The form starts with one empty row and no errors. */
    constructor (schema: CreateSchema, columns: seq<Column>, results: seq<Option<Value>>, freshId: string)
      requires |results| == |columns|
      ensures Valid()
      ensures this.schema == schema && this.columns == columns && this.results == results
      ensures formItems == [FormItem(freshId, map[], map[])] && !hasInteracted && !isConfirmOpen
    {
      this.schema := schema;
      this.columns := columns;
      this.results := results;
      formItems := [FormItem(freshId, map[], map[])];
      hasInteracted := false;
      isConfirmOpen := false;
    }

    /** The defaults effect: fills the undefined fields of the first row. */
    method ApplyDefaults()
      requires Valid()
      modifies this`formItems
      ensures Valid()
      ensures formItems == [old(formItems)[0].(data := FillDefaults(old(formItems)[0].data, columns, results))] + old(formItems)[1..]
    {
      var first := formItems[0];
      var data := first.data;
      for i := 0 to |columns|
        invariant FillDefaults(data, columns[i..], results[i..]) == FillDefaults(first.data, columns, results)
      {
        assert columns[i..][1..] == columns[i + 1..] && results[i..][1..] == results[i + 1..];
        if Queried(results[i]) && Get(data, columns[i].key) == Undefined {
          data := data[columns[i].key := results[i].value];
        }
      }
      formItems := [first.(data := data)] + formItems[1..];
    }

    /** `addNewItem`: appends one row holding the defaults. */
    method AddNewItem(freshId: string)
      requires Valid() && freshId !in Ids(formItems)
      modifies this`formItems
      ensures Valid()
      ensures formItems == old(formItems) + [FormItem(freshId, DefaultData(), map[])]
    {
      formItems := formItems + [FormItem(freshId, DefaultRow(columns, results), map[])];
    }

    /** `removeItem`: drops the row with that id, unless it is the only row. */
    method RemoveItem(id: string)
      requires Valid()
      modifies this`formItems
      ensures Valid()
      ensures |old(formItems)| > 1 ==> formItems == RemoveById(old(formItems), id)
      ensures |old(formItems)| <= 1 ==> formItems == old(formItems)
    {
      if |formItems| > 1 {
        RemoveByIdKeepsOthers(formItems, id);
        formItems := RemoveById(formItems, id);
      }
    }

    /** `updateItemField`: only the row with that id changes. */
    method UpdateItemField(id: string, field: string, value: Value)
      requires Valid()
      modifies this`formItems
      ensures Valid()
      ensures |formItems| == |old(formItems)|
      ensures forall i :: 0 <= i < |formItems| ==>
                formItems[i] == if old(formItems)[i].id == id then UpdatedItem(schema, hasInteracted, old(formItems)[i], field, value)
                                else old(formItems)[i]
    {
      formItems := seq(|formItems|, i requires 0 <= i < |formItems| reads this =>
                       if formItems[i].id == id then UpdatedItem(schema, hasInteracted, formItems[i], field, value) else formItems[i]);
    }

    /** `validateAll`: every row re-validated, and whether any fails. */
    method ValidateAll() returns (anyErrors: bool, items: seq<FormItem>)
      requires Valid()
      ensures |items| == |formItems| && DistinctIds(items)
      ensures forall i :: 0 <= i < |items| ==> items[i] == Validated(schema, formItems[i])
      ensures anyErrors <==> exists i :: 0 <= i < |formItems| && schema.safeParse(formItems[i].data) != []
    {
      anyErrors := false;
      items := [];
      for i := 0 to |formItems|
        invariant |items| == i
        invariant forall j :: 0 <= j < i ==> items[j] == Validated(schema, formItems[j])
        invariant anyErrors <==> exists j :: 0 <= j < i && schema.safeParse(formItems[j].data) != []
      {
        var issues := schema.safeParse(formItems[i].data);
        var errors: map<string, string> := map[];
        if issues != [] {
          anyErrors := true;
          errors := CollectFieldErrors(issues);
        }
        items := items + [formItems[i].(errors := errors)];
      }
    }

    /** Create pressed: errors are revealed, and the confirmation opens only when every row passes. */
    method HandleConfirm()
      requires Valid()
      modifies this`formItems, this`hasInteracted, this`isConfirmOpen
      ensures Valid() && hasInteracted
      ensures |formItems| == |old(formItems)|
      ensures forall i :: 0 <= i < |formItems| ==> formItems[i] == Validated(schema, old(formItems)[i])
      ensures isConfirmOpen == (old(isConfirmOpen) || forall i :: 0 <= i < |formItems| ==> schema.safeParse(formItems[i].data) == [])
    {
      var anyErrors, items := ValidateAll();
      formItems := items;
      hasInteracted := true;
      if !anyErrors {
        isConfirmOpen := true;
      }
    }

    /** Cancel: back to one default row, errors hidden. */
    method HandleCancel(freshId: string)
      requires Valid()
      modifies this`formItems, this`hasInteracted
      ensures Valid()
      ensures formItems == [FormItem(freshId, DefaultData(), map[])] && !hasInteracted
    {
      formItems := [FormItem(freshId, DefaultRow(columns, results), map[])];
      hasInteracted := false;
    }

    /** The confirmation accepted: every row's data is submitted in order, then the form resets. */
    method FinalConfirm(freshId: string) returns (submitted: seq<Row>)
      requires Valid()
      modifies this`formItems, this`hasInteracted, this`isConfirmOpen
      ensures Valid()
      ensures |submitted| == |old(formItems)| && forall i :: 0 <= i < |submitted| ==> submitted[i] == old(formItems)[i].data
      ensures formItems == [FormItem(freshId, DefaultData(), map[])] && !hasInteracted && !isConfirmOpen
    {
      submitted := seq(|formItems|, i requires 0 <= i < |formItems| reads this => formItems[i].data);
      formItems := [FormItem(freshId, DefaultRow(columns, results), map[])];
      hasInteracted := false;
      isConfirmOpen := false;
    }

    method ConfirmCancel()
      modifies this`isConfirmOpen
      ensures !isConfirmOpen
    {
      isConfirmOpen := false;
    }
  }

  /** `prev.filter(item => item.id !== id)`. */
  function RemoveById(items: seq<FormItem>, id: string): (r: seq<FormItem>)
    ensures IsSubsequence(r, items)
    ensures forall x {:trigger multiset(r)[x]} :: multiset(r)[x] == if x.id != id then multiset(items)[x] else 0
    ensures forall x :: x in r <==> x in items && x.id != id
    ensures |r| <= |items|
  {
    if items == [] then []
    else
      var keep := items[0].id != id;
      var rest := RemoveById(items[1..], id);
      ConsSubsequence(keep, items, rest);
      MultisetCons(items);
      (if keep then [items[0]] else []) + rest
  }

  /** With distinct ids at most one row goes, so a list of two or more stays non-empty. */
  lemma {:induction false} RemoveByIdKeepsOthers(items: seq<FormItem>, id: string)
    requires DistinctIds(items)
    ensures DistinctIds(RemoveById(items, id))
    ensures |RemoveById(items, id)| >= |items| - 1
  {
    if items != [] {
      RemoveByIdKeepsOthers(items[1..], id);
      if items[0].id == id {
        assert forall x :: x in items[1..] ==> x.id != id by {
          forall x | x in items[1..] ensures x.id != id {
            var j :| 0 <= j < |items[1..]| && items[1..][j] == x;
            assert items[j + 1] == x;
          }
        }
        RemoveByIdMissing(items[1..], id);
        assert RemoveById(items, id) == items[1..];
      } else {
        var rest := RemoveById(items[1..], id);
        forall x | x in rest ensures x.id != items[0].id {
          var j :| 0 <= j < |items[1..]| && items[1..][j] == x;
          assert items[j + 1] == x;
        }
        ConsDistinctIds(items[0], rest);
      }
    }
  }

  /** A row whose id no other row has keeps the ids distinct when put in front. */
  lemma ConsDistinctIds(head: FormItem, rest: seq<FormItem>)
    requires DistinctIds(rest) && forall x :: x in rest ==> x.id != head.id
    ensures DistinctIds([head] + rest)
  {
    var r := [head] + rest;
    forall i, j | 0 <= i < j < |r| ensures r[i].id != r[j].id {
      assert r[j] == rest[j - 1] && rest[j - 1] in rest;
      if i > 0 {
        assert r[i] == rest[i - 1];
      }
    }
  }

  lemma {:induction false} RemoveByIdMissing(items: seq<FormItem>, id: string)
    requires forall x :: x in items ==> x.id != id
    ensures RemoveById(items, id) == items
  {
    if items != [] {
      RemoveByIdMissing(items[1..], id);
    }
  }
}
