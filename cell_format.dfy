/**
 * Cell display text and the normalisation under which two cell values
 * count as the same: null, undefined and '' agree, and a Date agrees with
 * any string that denotes the same calendar day.
 */
module CellFormat {
  import opened JsStrings
  import opened Values
  import opened DateUtils
  import opened Wrappers

  /** Display text of a cell value. */
  function FormatCellValue(lib: DateLib, v: Value): (r: string)
    ensures IsNullish(v) ==> r == ""
    ensures v.Int? && v.i >= 0 ==> AllDigits(r) && DigitsValue(r) == v.i
    ensures v.Int? && v.i < 0 ==> |r| >= 1 && r[0] == '-' && AllDigits(r[1..]) && DigitsValue(r[1..]) == -v.i
    ensures v.Bool? ==> r == (if v.b then "Active" else "Inactive")
    ensures v.Str? ==> r == v.s
    ensures v.DateVal? ==> r == lib.toLocaleDate(v.d)
    ensures v.Arr? ==> r == JoinValues(v.items, ", ", lib.toText)
  {
    match v
      case Null => ""
      case Undefined => ""
      case Bool(b) => if b then "Active" else "Inactive"
      case Int(i) =>
        if i >= 0 then NatToStringRoundTrip(i); IntToString(i)
        else NatToStringRoundTrip(-i); assert IntToString(i)[1..] == NatToString(-i); IntToString(i)
      case DateVal(d) => lib.toLocaleDate(d)
      case Arr(_, items) => JoinValues(items, ", ", lib.toText)
      case Str(s) => s
  }

  /** An array cell of one item shows that item's text alone, empty for null or undefined. */
  lemma ArrayCellOne(lib: DateLib, id: nat, x: Value)
    ensures FormatCellValue(lib, Arr(id, [x])) == if IsNullish(x) then "" else JsString(x, lib.toText)
  {
  }

  /** An array cell shows its items' texts with ', ' between them: one more item adds one more separated text. */
  lemma ArrayCellAppend(lib: DateLib, id: nat, items: seq<Value>, x: Value)
    requires items != []
    ensures FormatCellValue(lib, Arr(id, items + [x]))
            == FormatCellValue(lib, Arr(id, items)) + ", " + (if IsNullish(x) then "" else JsString(x, lib.toText))
  {
    JoinValuesAppend(items, x, ", ", lib.toText);
  }

  /** The comparison form of a value. */
  function Normalize(lib: DateLib, v: Value): Value {
    match v
      case Null => Str("")
      case Undefined => Str("")
      case DateVal(_) => Str(NormalizedDateText(lib, v))
      case Str(s) =>
        if IsKoreanDayPattern(s) || IsIsoDayPattern(s) then
          var n := NormalizedDateText(lib, v);
          if n != "" then Str(n) else v
        else v
      case _ => v
  }

  /** `areValuesEffectivelyEqual`: `Object.is` of the normalised values. */
  predicate EffectivelyEqual(lib: DateLib, a: Value, b: Value) {
    SameValue(Normalize(lib, a), Normalize(lib, b))
  }

  /** Effective equality is an equivalence, so dirty tracking is well defined. */
  lemma EffectivelyEqualIsEquivalence(lib: DateLib, a: Value, b: Value, c: Value)
    ensures EffectivelyEqual(lib, a, a)
    ensures EffectivelyEqual(lib, a, b) ==> EffectivelyEqual(lib, b, a)
    ensures EffectivelyEqual(lib, a, b) && EffectivelyEqual(lib, b, c) ==> EffectivelyEqual(lib, a, c)
  {
  }

  /** null, undefined and '' all compare equal. */
  lemma EmptyValuesAgree(lib: DateLib)
    ensures EffectivelyEqual(lib, Null, Undefined)
    ensures EffectivelyEqual(lib, Null, Str(""))
    ensures EffectivelyEqual(lib, Undefined, Str(""))
  {
    assert !IsIsoDayPattern("") && !IsKoreanDayPattern("");
  }

  /** Values that are neither empty, dates nor date-shaped text compare by `Object.is`. */
  lemma OtherValuesUnchanged(lib: DateLib, v: Value)
    requires !IsNullish(v) && !v.DateVal?
    requires v.Str? ==> !IsKoreanDayPattern(v.s) && !IsIsoDayPattern(v.s)
    ensures Normalize(lib, v) == v
  {
  }

  /** Every valid date normalises to its yyyy-MM-dd text. */
  lemma NormalizeDate(lib: DateLib, d: Date)
    requires IsValid(d)
    ensures Normalize(lib, DateVal(d)) == Str(FormatYmd(d))
  {
    assert NormalizedDateText(lib, DateVal(d)) == FormatYmd(d) by {
      assert Truthy(DateVal(d));
      assert ResolveDate(lib, DateVal(d), CommonFormats) == Some(d);
    }
  }

  /** ISO-shaped text that `parseISO` reads as `d` normalises to the yyyy-MM-dd text of `d`. */
  lemma NormalizeIsoText(lib: DateLib, t: string, d: Date)
    requires IsIsoDayPattern(t) && lib.parseIso(t) == d && IsValid(d)
    ensures Normalize(lib, Str(t)) == Str(FormatYmd(d))
  {
    assert NormalizedDateText(lib, Str(t)) == FormatYmd(d) by {
      assert |t| == 10;
      assert ResolveDate(lib, Str(t), CommonFormats) == Some(d);
    }
    FormatYmdNonEmpty(d);
  }

  /**
   * A Date and its yyyy-MM-dd text compare equal, whenever `parseISO`
   * reads that text back as the same day.
   */
  lemma DateAgreesWithIsoText(lib: DateLib, d: Date)
    requires IsValid(d) && 1 <= d.year <= 9999 && 0 <= d.month <= 11 && 1 <= d.day <= 31
    requires lib.parseIso(FormatYmd(d)) == d
    ensures EffectivelyEqual(lib, DateVal(d), Str(FormatYmd(d)))
  {
    FormatYmdIsIsoDay(d);
    NormalizeDate(lib, d);
    NormalizeIsoText(lib, FormatYmd(d), d);
  }

  /** Normalising a date twice changes nothing (under the same reading law). */
  lemma NormalizeDateIdempotent(lib: DateLib, d: Date)
    requires IsValid(d) && 1 <= d.year <= 9999 && 0 <= d.month <= 11 && 1 <= d.day <= 31
    requires lib.parseIso(FormatYmd(d)) == d
    ensures Normalize(lib, Normalize(lib, DateVal(d))) == Normalize(lib, DateVal(d))
  {
    DateAgreesWithIsoText(lib, d);
  }

  /** Arrays compare by identity: equal contents in a new array still differ. */
  lemma ArraysCompareByIdentity(lib: DateLib, i: nat, j: nat, items: seq<Value>)
    requires i != j
    ensures !EffectivelyEqual(lib, Arr(i, items), Arr(j, items))
  {
  }
}
