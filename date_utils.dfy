/**
 * Date parsing and formatting for cells: display formatting, parsing of
 * typed input, text for the editor and the yyyy-MM-dd form used to
 * compare dates. The date library (ISO and pattern parsing, pattern
 * formatting, `Date.prototype.toString`, `toLocaleDateString`) is a
 * parameter; formatting with the fixed pattern `yyyy-MM-dd` is written out.
 */
module DateUtils {
  import opened Wrappers
  import opened JsStrings
  import opened Values

  /**
   * The date library. `parse` and `format` yield None where they throw
   * (an invalid pattern); `fromTimestamp` is `new Date(n)` for a number.
   */
  datatype DateLib = DateLib(
    parseIso: string -> Date,
    parse: (string, string) -> Option<Date>,
    format: (Date, string) -> Option<string>,
    toText: Date -> string,
    toLocaleDate: Date -> string,
    fromTimestamp: int -> Date)

  predicate IsValid(d: Date) {
    d.Day?
  }

  /** The fallback patterns, tried in this order, including the Korean `yyyy. MM. dd`. */
  const CommonFormats: seq<string> :=
    ["yyyy-MM-dd", "yyyy. MM. dd", "yyyy. M. d", "MM/dd/yyyy", "dd/MM/yyyy", "MM-dd-yyyy"]

  /** The editor's fallback patterns: the same list without `MM-dd-yyyy`. */
  const EditingFormats: seq<string> :=
    ["yyyy-MM-dd", "yyyy. MM. dd", "yyyy. M. d", "MM/dd/yyyy", "dd/MM/yyyy"]

  /** `parse(input, fmt)` neither throws nor yields an Invalid Date. */
  predicate ParsesValid(lib: DateLib, input: string, fmt: string) {
    lib.parse(input, fmt).Some? && IsValid(lib.parse(input, fmt).value)
  }

  /** The first pattern in `fmts` that parses `input` to a valid date. */
  function FirstValid(lib: DateLib, input: string, fmts: seq<string>): (r: Option<Date>)
    ensures r.Some? ==> IsValid(r.value)
    ensures r.Some? <==> exists i :: 0 <= i < |fmts| && ParsesValid(lib, input, fmts[i])
  {
    if fmts == [] then None
    else if ParsesValid(lib, input, fmts[0]) then lib.parse(input, fmts[0])
    else
      var r := FirstValid(lib, input, fmts[1..]);
      assert forall i :: 1 <= i < |fmts| ==> fmts[i] == fmts[1..][i - 1];
      r
  }

  /** The fallback stops at the first pattern that yields a valid date. */
  lemma {:induction false} FirstValidIsFirst(lib: DateLib, input: string, fmts: seq<string>, i: nat)
    requires i < |fmts| && ParsesValid(lib, input, fmts[i])
    requires forall j :: 0 <= j < i ==> !ParsesValid(lib, input, fmts[j])
    ensures FirstValid(lib, input, fmts) == lib.parse(input, fmts[i])
  {
    if i > 0 {
      FirstValidIsFirst(lib, input, fmts[1..], i - 1);
    }
  }

  /**
   * The loop shared by every function of this file: try each pattern in
   * order, skip one that throws, stop at the first valid date.
   */
  method FindFirstValid(lib: DateLib, input: string, fmts: seq<string>) returns (r: Option<Date>)
    ensures r == FirstValid(lib, input, fmts)
  {
    var i := 0;
    while i < |fmts|
      invariant 0 <= i <= |fmts|
      invariant FirstValid(lib, input, fmts) == FirstValid(lib, input, fmts[i..])
    {
      assert fmts[i..][1..] == fmts[i + 1..];
      var parsed := lib.parse(input, fmts[i]);
      if parsed.Some? && IsValid(parsed.value) {
        return parsed;
      }
      i := i + 1;
    }
    return None;
  }

  /** The library's `toDate` for a non-string argument. */
  function ToDate(lib: DateLib, value: Value): Date {
    match value
      case DateVal(d) => d
      case Int(n) => lib.fromTimestamp(n)
      case _ => InvalidDate
  }

  /**
   * The valid date a truthy argument denotes: a string through `parseISO`
   * and then the fallback patterns; anything else as a Date.
   */
  function ResolveDate(lib: DateLib, value: Value, fmts: seq<string>): Option<Date> {
    if value.Str? then
      if IsValid(lib.parseIso(value.s)) then Some(lib.parseIso(value.s))
      else FirstValid(lib, value.s, fmts)
    else if IsValid(ToDate(lib, value)) then Some(ToDate(lib, value))
    else None
  }

  method ResolveDateText(lib: DateLib, value: Value, fmts: seq<string>) returns (r: Option<Date>)
    ensures r == ResolveDate(lib, value, fmts)
    ensures r.Some? ==> IsValid(r.value)
    ensures value.Str? && IsValid(lib.parseIso(value.s)) ==> r == Some(lib.parseIso(value.s))
    ensures value.Str? && !IsValid(lib.parseIso(value.s)) ==> r == FirstValid(lib, value.s, fmts)
  {
    if value.Str? {
      var date := lib.parseIso(value.s);
      if IsValid(date) {
        return Some(date);
      }
      r := FindFirstValid(lib, value.s, fmts);
    } else {
      var date := ToDate(lib, value);
      r := if IsValid(date) then Some(date) else None;
    }
  }

  /** `value?.toString() || ''` for a truthy argument. */
  function FallbackText(lib: DateLib, value: Value): string {
    JsString(value, lib.toText)
  }

  /** Display text: falsy gives '', an unreadable date its own text, else the pattern. */
  function FormatDateText(lib: DateLib, value: Value, dateFormat: string): string {
    if !Truthy(value) then ""
    else match ResolveDate(lib, value, CommonFormats)
      case None => FallbackText(lib, value)
      case Some(d) => lib.format(d, dateFormat).GetOr(FallbackText(lib, value))
  }

  method FormatDate(lib: DateLib, value: Value, dateFormat: string) returns (r: string)
    ensures r == FormatDateText(lib, value, dateFormat)
    ensures !Truthy(value) ==> r == ""
    ensures Truthy(value) && ResolveDate(lib, value, CommonFormats).None? ==> r == FallbackText(lib, value)
  {
    if !Truthy(value) {
      return "";
    }
    var date := ResolveDateText(lib, value, CommonFormats);
    if date.None? {
      return FallbackText(lib, value);
    }
    var text := lib.format(date.value, dateFormat);
    r := if text.Some? then text.value else FallbackText(lib, value);
  }

  /** Editor text: as FormatDateText, with the editor's shorter pattern list. */
  function EditingText(lib: DateLib, value: Value, dateFormat: string): string {
    if !Truthy(value) then ""
    else match ResolveDate(lib, value, EditingFormats)
      case None => FallbackText(lib, value)
      case Some(d) => lib.format(d, dateFormat).GetOr(FallbackText(lib, value))
  }

  method FormatDateForEditing(lib: DateLib, value: Value, dateFormat: string) returns (r: string)
    ensures r == EditingText(lib, value, dateFormat)
    ensures !Truthy(value) ==> r == ""
    ensures Truthy(value) && ResolveDate(lib, value, EditingFormats).None? ==> r == FallbackText(lib, value)
  {
    if !Truthy(value) {
      return "";
    }
    var date := ResolveDateText(lib, value, EditingFormats);
    if date.None? {
      return FallbackText(lib, value);
    }
    var text := lib.format(date.value, dateFormat);
    r := if text.Some? then text.value else FallbackText(lib, value);
  }

  /**
   * Typed input to a date: blank gives none; then the configured pattern
   * (a throwing pattern gives none at once), ISO, and the fallback patterns.
   */
  function ParsedInput(lib: DateLib, input: string, dateFormat: string): (r: Option<Date>)
    ensures r.Some? ==> IsValid(r.value)
  {
    if IsBlank(input) then None
    else match lib.parse(input, dateFormat)
      case None => None
      case Some(d) =>
        if IsValid(d) then Some(d)
        else if IsValid(lib.parseIso(input)) then Some(lib.parseIso(input))
        else FirstValid(lib, input, CommonFormats)
  }

  method ParseDateInput(lib: DateLib, input: string, dateFormat: string) returns (r: Option<Date>)
    ensures r == ParsedInput(lib, input, dateFormat)
    ensures r.None? ==> IsBlank(input) || lib.parse(input, dateFormat).None?
                        || !exists i :: 0 <= i < |CommonFormats| && ParsesValid(lib, input, CommonFormats[i])
  {
    if IsBlank(input) {
      return None;
    }
    var first := lib.parse(input, dateFormat);
    if first.None? {
      return None;
    }
    if IsValid(first.value) {
      return first;
    }
    var iso := lib.parseIso(input);
    if IsValid(iso) {
      return Some(iso);
    }
    r := FindFirstValid(lib, input, CommonFormats);
  }

  /** Blank input is accepted; other input must parse. */
  function IsValidDateInput(lib: DateLib, input: string, dateFormat: string): (ok: bool)
    ensures ok <==> AllWhitespace(input) || ParsedInput(lib, input, dateFormat).Some?
  {
    BlankIffAllWhitespace(input);
    IsBlank(input) || ParsedInput(lib, input, dateFormat).Some?
  }

  function Pad2(n: int): string {
    PadStart(IntToString(n), 2, '0')
  }

  /** `toLocalDateString`: local year, month and day, two-digit month and day. */
  function ToLocalDateString(d: Date): string {
    match d
      case InvalidDate => "NaN-NaN-NaN"
      case Day(y, m, dd) => DayText(IntToString(y), Pad2(m + 1), Pad2(dd))
  }

  /** `${year}-${month}-${day}`. */
  function DayText(year: string, month: string, day: string): string {
    year + "-" + month + "-" + day
  }

  /**
   * `format(d, 'yyyy-MM-dd')` for a valid date: year of era (`1 - y` for
   * years before 1) padded to four digits, month and day to two.
   */
  function FormatYmd(d: Date): string
    requires IsValid(d)
  {
    var era := if d.year > 0 then d.year else 1 - d.year;
    DayText(PadStart(NatToString(era), 4, '0'), Pad2(d.month + 1), Pad2(d.day))
  }

  /** The yyyy-MM-dd text of a valid date is never empty. */
  lemma FormatYmdNonEmpty(d: Date)
    requires IsValid(d)
    ensures |FormatYmd(d)| >= 2
  {
    var era := if d.year > 0 then d.year else 1 - d.year;
    var year, month, day := PadStart(NatToString(era), 4, '0'), Pad2(d.month + 1), Pad2(d.day);
    DayTextLength(year, month, day);
  }

  lemma DayTextLength(year: string, month: string, day: string)
    ensures |DayText(year, month, day)| == |year| + |month| + |day| + 2
  {
  }

  /** Two-digit padding of a number below 100 reads back as that number. */
  lemma Pad2Value(n: nat)
    requires n < 100
    ensures |Pad2(n)| == 2 && AllDigits(Pad2(n)) && DigitsValue(Pad2(n)) == n
  {
    PowersOfTen();
    var s := PaddedField(n, 2);
    assert IntToString(n) == NatToString(n);
    NatToStringRoundTrip(n);
    if n < 10 {
      assert s == "0" + NatToString(n);
      assert s[..1] == "0";
    }
  }

  /**
   * `toLocalDateString` of a date with a four-digit year: the ISO day
   * shape, whose fields read back as the year, the month index plus one
   * and the day.
   */
  lemma LocalDateStringFields(d: Date)
    requires IsValid(d) && 1000 <= d.year <= 9999 && 0 <= d.month <= 11 && 1 <= d.day <= 31
    ensures IsIsoDayPattern(ToLocalDateString(d))
    ensures DigitsValue(ToLocalDateString(d)[..4]) == d.year
    ensures DigitsValue(ToLocalDateString(d)[5..7]) == d.month + 1
    ensures DigitsValue(ToLocalDateString(d)[8..]) == d.day
  {
    var y, m, dd := IntToString(d.year), Pad2(d.month + 1), Pad2(d.day);
    assert |y| == 4 by {
      PowersOfTen();
      NatToStringAtLeast(d.year, 1000, 4);
      NatToStringAtMost(d.year, 4);
    }
    Pad2Value(d.month + 1);
    Pad2Value(d.day);
    NatToStringRoundTrip(d.year);
    IsoDayOfFields(y, m, dd);
    DayTextFields(y, m, dd);
  }

  lemma DayTextFields(y: string, m: string, dd: string)
    requires |y| == 4 && |m| == 2 && |dd| == 2
    ensures DayText(y, m, dd)[..4] == y && DayText(y, m, dd)[5..7] == m && DayText(y, m, dd)[8..] == dd
  {
  }

  /** The two renderings agree on dates with a four-digit year. */
  lemma LocalDateStringMatchesFormat(d: Date)
    requires IsValid(d) && 1000 <= d.year <= 9999
    ensures ToLocalDateString(d) == FormatYmd(d)
  {
    assert |NatToString(d.year)| >= 4 by {
      PowersOfTen();
      NatToStringAtLeast(d.year, 1000, 4);
    }
  }

  /** A number at least 10^(k-1) has at least k digits. */
  lemma {:induction false} NatToStringAtLeast(n: nat, low: nat, k: nat)
    requires k >= 1 && low == Pow10(k - 1) && n >= low
    ensures |NatToString(n)| >= k
  {
    if k > 1 {
      NatToStringAtLeast(n / 10, Pow10(k - 2), k - 1);
    }
  }

  function Pow10(k: nat): (p: nat)
    ensures p >= 1
  {
    if k == 0 then 1 else 10 * Pow10(k - 1)
  }

  /** The `yyyy-MM-dd` shape (`/^\d{4}-\d{2}-\d{2}$/`). */
  predicate IsIsoDayPattern(s: string) {
    |s| == 10 && AllDigits(s[..4]) && s[4] == '-' && AllDigits(s[5..7]) && s[7] == '-' && AllDigits(s[8..])
  }

  /** One or two digits followed by the end of the text. */
  predicate IsShortNumber(s: string) {
    1 <= |s| <= 2 && AllDigits(s)
  }

  /** One or two digits, a dot, optional whitespace, then the rest matches `tail`. */
  predicate ShortNumberDot(s: string, k: nat) {
    k <= 2 && k + 1 <= |s| && k >= 1 && AllDigits(s[..k]) && s[k] == '.'
  }

  /** The Korean day shape (`/^\d{4}\.\s*\d{1,2}\.\s*\d{1,2}$/`). */
  predicate IsKoreanDayPattern(s: string) {
    |s| >= 5 && AllDigits(s[..4]) && s[4] == '.' &&
    var t := TrimStart(s[5..]);
    (ShortNumberDot(t, 1) && IsShortNumber(TrimStart(t[2..])))
    || (ShortNumberDot(t, 2) && IsShortNumber(TrimStart(t[3..])))
  }

  /** yyyy-MM-dd of a date in the years 1..9999 has the ISO day shape. */
  lemma FormatYmdIsIsoDay(d: Date)
    requires IsValid(d) && 1 <= d.year <= 9999 && 0 <= d.month <= 11 && 1 <= d.day <= 31
    ensures IsIsoDayPattern(FormatYmd(d))
  {
    PowersOfTen();
    var y := PaddedField(d.year, 4);
    var m := PaddedField(d.month + 1, 2);
    var dd := PaddedField(d.day, 2);
    assert IntToString(d.month + 1) == NatToString(d.month + 1);
    assert IntToString(d.day) == NatToString(d.day);
    assert FormatYmd(d) == DayText(y, m, dd);
    IsoDayOfFields(y, m, dd);
  }

  lemma PowersOfTen()
    ensures Pow10(1) == 10 && Pow10(2) == 100 && Pow10(3) == 1000 && Pow10(4) == 10000
  {
  }

  /** A number below 10^width, zero-padded to `width`, is `width` digits. */
  lemma PaddedField(n: nat, width: nat) returns (s: string)
    requires width >= 1 && n < Pow10(width)
    ensures s == PadStart(NatToString(n), width, '0')
    ensures |s| == width && AllDigits(s)
  {
    NatToStringAtMost(n, width);
    PaddedDigits(NatToString(n), width);
    s := PadStart(NatToString(n), width, '0');
  }

  lemma IsoDayOfFields(y: string, m: string, dd: string)
    requires |y| == 4 && |m| == 2 && |dd| == 2
    requires AllDigits(y) && AllDigits(m) && AllDigits(dd)
    ensures IsIsoDayPattern(DayText(y, m, dd))
  {
    var s := DayText(y, m, dd);
    assert s[..4] == y && s[5..7] == m && s[8..] == dd;
  }

  lemma PaddedDigits(s: string, width: nat)
    requires AllDigits(s)
    ensures AllDigits(PadStart(s, width, '0'))
  {
    var r := PadStart(s, width, '0');
    forall i | 0 <= i < |r| ensures IsDigit(r[i]) {
      if i >= |r| - |s| {
        assert r[i] == r[|r| - |s|..][i - (|r| - |s|)];
      }
    }
  }

  /** A number below 10^k has at most k digits. */
  lemma {:induction false} NatToStringAtMost(n: nat, k: nat)
    requires k >= 1 && n < Pow10(k)
    ensures |NatToString(n)| <= k
  {
    if n >= 10 {
      assert k >= 2;
      NatToStringAtMost(n / 10, k - 1);
    }
  }

  /** `normalizeDateString`: the yyyy-MM-dd form of whatever date the argument denotes. */
  function NormalizedDateText(lib: DateLib, value: Value): string {
    if !Truthy(value) then ""
    else match ResolveDate(lib, value, CommonFormats)
      case None => FallbackText(lib, value)
      case Some(d) => FormatYmd(d)
  }

  method NormalizeDateString(lib: DateLib, value: Value) returns (r: string)
    ensures r == NormalizedDateText(lib, value)
    ensures !Truthy(value) ==> r == ""
    ensures Truthy(value) && ResolveDate(lib, value, CommonFormats).None? ==> r == FallbackText(lib, value)
    ensures Truthy(value) && ResolveDate(lib, value, CommonFormats).Some? ==> r == FormatYmd(ResolveDate(lib, value, CommonFormats).value)
  {
    if !Truthy(value) {
      return "";
    }
    var date := ResolveDateText(lib, value, CommonFormats);
    r := if date.Some? then FormatYmd(date.value) else FallbackText(lib, value);
  }

  /**
   * Opening a date cell for editing and committing the text unchanged
   * gives back the same date, whenever the library reads its own output
   * for the column's pattern.
   */
  lemma EditingTextRoundTrip(lib: DateLib, d: Date, dateFormat: string)
    requires IsValid(d)
    requires lib.format(d, dateFormat).Some?
    requires !IsBlank(lib.format(d, dateFormat).value)
    requires lib.parse(lib.format(d, dateFormat).value, dateFormat) == Some(d)
    ensures ParsedInput(lib, EditingText(lib, DateVal(d), dateFormat), dateFormat) == Some(d)
  {
  }
}
