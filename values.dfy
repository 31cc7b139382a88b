/**
 * The cell values a table row holds, as JavaScript sees them, and the
 * JavaScript conversions the table applies to them.
 */
module Values {
  import opened JsStrings
  import opened SeqFacts

  /**
   * A JavaScript Date as a calendar day (`month` is 0-based, as
   * `getMonth()` returns it), or an Invalid Date. Time of day and time
   * zones are not modelled.
   */
  datatype Date = Day(year: int, month: int, day: int) | InvalidDate

  /**
   * A cell value. `Arr` carries an identity: two arrays are the same
   * JavaScript object exactly when their ids agree, which is what
   * `Object.is`, `Map` and `Set` compare.
   */
  datatype Value =
    | Null
    | Undefined
    | Str(s: string)
    | Int(i: int)
    | Bool(b: bool)
    | DateVal(d: Date)
    | Arr(id: nat, items: seq<Value>)

  /** A row object: field name to value. */
  type Row = map<string, Value>

  /** `row[key]`: a missing field reads as undefined. */
  function Get(row: Row, key: string): Value {
    if key in row then row[key] else Undefined
  }

  predicate IsNullish(v: Value) {
    v.Null? || v.Undefined?
  }

  /** `a ?? b`. */
  function Coalesce(a: Value, b: Value): Value {
    if IsNullish(a) then b else a
  }

  /** JavaScript truthiness (`!!v`). */
  predicate Truthy(v: Value) {
    match v
      case Null => false
      case Undefined => false
      case Str(s) => s != ""
      case Int(i) => i != 0
      case Bool(b) => b
      case DateVal(_) => true
      case Arr(_, _) => true
  }

  /** `Object.is(a, b)`, and the key equality of `Map` and `Set`: arrays compare by identity. */
  predicate SameValue(a: Value, b: Value) {
    if a.Arr? && b.Arr? then a.id == b.id else a == b
  }

  /** `String(v)`; `dateText` is `Date.prototype.toString`. */
  function JsString(v: Value, dateText: Date -> string): string
    decreases v, 1
  {
    match v
      case Null => "null"
      case Undefined => "undefined"
      case Str(s) => s
      case Int(i) => IntToString(i)
      case Bool(b) => if b then "true" else "false"
      case DateVal(d) => dateText(d)
      case Arr(_, items) => JoinValues(items, ",", dateText)
  }

  /** `items.join(sep)`: null and undefined elements become empty text. */
  function JoinValues(items: seq<Value>, sep: string, dateText: Date -> string): string
    decreases items, 0
  {
    if items == [] then ""
    else
      var head := if IsNullish(items[0]) then "" else JsString(items[0], dateText);
      if |items| == 1 then head else head + sep + JoinValues(items[1..], sep, dateText)
  }

  /** Joining one more item adds the separator and that item's text. */
  lemma {:induction false} JoinValuesAppend(items: seq<Value>, x: Value, sep: string, dateText: Date -> string)
    requires items != []
    ensures JoinValues(items + [x], sep, dateText)
            == JoinValues(items, sep, dateText) + sep + (if IsNullish(x) then "" else JsString(x, dateText))
    decreases |items|
  {
    var head := if IsNullish(items[0]) then "" else JsString(items[0], dateText);
    var tx := if IsNullish(x) then "" else JsString(x, dateText);
    var all := items + [x];
    assert all[0] == items[0] && |all| > 1;
    assert JoinValues(all, sep, dateText) == head + sep + JoinValues(all[1..], sep, dateText);
    if |items| == 1 {
      assert all[1..] == [x];
      assert JoinValues([x], sep, dateText) == tx;
      assert JoinValues(items, sep, dateText) == head;
    } else {
      var rest := JoinValues(items[1..], sep, dateText);
      assert all[1..] == items[1..] + [x];
      JoinValuesAppend(items[1..], x, sep, dateText);
      assert JoinValues(items, sep, dateText) == head + sep + rest;
      AppendRegroups(head + sep, rest, sep, tx);
    }
  }
}
