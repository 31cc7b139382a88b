/**
 * Currency input helpers: the validator a currency cell applies while
 * the user types, the cleaning step before parsing, and the text given
 * to the editor for an existing amount.
 */
module CurrencyUtils {
  import opened Wrappers
  import opened JsStrings

  predicate IsSign(c: char) {
    c == '+' || c == '-'
  }

  /** The characters `[^0-9+\-.]` does not remove. */
  predicate Kept(c: char) {
    IsDigit(c) || IsSign(c) || c == '.'
  }

  /** The tail of `/^[+-]?\d*\.?\d*$/` after the dot: only digits may follow. */
  predicate AfterDot(s: string) {
    AllDigits(s)
  }

  /** After the sign: digits, then possibly a dot and the part after it. */
  predicate AfterSign(s: string)
    decreases |s|
  {
    s == [] || (IsDigit(s[0]) && AfterSign(s[1..])) || (s[0] == '.' && AfterDot(s[1..]))
  }

  /** `/^[+-]?\d*\.?\d*$/.test(s)`, read left to right by the regular expression's states. */
  predicate MatchesCurrencyPattern(s: string) {
    if s != [] && IsSign(s[0]) then AfterSign(s[1..]) else AfterSign(s)
  }

  /** `isValidCurrencyInput`. */
  predicate IsValidCurrencyInput(input: string) {
    input == "" || MatchesCurrencyPattern(input)
  }

  /** How many times `c` occurs in `s`. */
  function Count(s: string, c: char): (n: nat)
    ensures n <= |s|
  {
    if s == [] then 0 else (if s[0] == c then 1 else 0) + Count(s[1..], c)
  }

  /**
   * The shape the pattern describes, stated without the pattern: only
   * digits and dots, a sign allowed as the first character, and at most
   * one dot.
   */
  predicate CurrencyShape(s: string) {
    (forall i :: 0 <= i < |s| ==> IsDigit(s[i]) || s[i] == '.' || (i == 0 && IsSign(s[i])))
    && Count(s, '.') <= 1
  }

  /** Digits and dots with no dot at all: exactly all digits. */
  lemma {:induction false} NoDotAllDigits(s: string)
    ensures (AllDigits(s)) <==> (forall i :: 0 <= i < |s| ==> IsDigit(s[i]) || s[i] == '.') && Count(s, '.') == 0
  {
    if s != [] {
      NoDotAllDigits(s[1..]);
      assert forall i :: 1 <= i < |s| ==> s[i] == s[1..][i - 1];
    }
  }

  /** After the sign the pattern accepts exactly digits and dots with at most one dot. */
  lemma {:induction false} AfterSignShape(s: string)
    ensures AfterSign(s) <==> (forall i :: 0 <= i < |s| ==> IsDigit(s[i]) || s[i] == '.') && Count(s, '.') <= 1
    decreases |s|
  {
    if s != [] {
      AfterSignShape(s[1..]);
      NoDotAllDigits(s[1..]);
      assert forall i :: 1 <= i < |s| ==> s[i] == s[1..][i - 1];
    }
  }

  /** The validator accepts a non-empty string exactly when it has the currency shape. */
  lemma PatternIsShape(s: string)
    ensures MatchesCurrencyPattern(s) <==> CurrencyShape(s)
  {
    if s != [] && IsSign(s[0]) {
      AfterSignShape(s[1..]);
      assert forall i :: 1 <= i < |s| ==> s[i] == s[1..][i - 1];
      assert Count(s, '.') == Count(s[1..], '.');
    } else {
      AfterSignShape(s);
    }
  }

  /** A couple of inputs the validator accepts and rejects. */
  lemma ValidatorExamples()
    ensures IsValidCurrencyInput("") && IsValidCurrencyInput("-") && IsValidCurrencyInput("+12.5")
    ensures IsValidCurrencyInput(".") && IsValidCurrencyInput("12.")
    ensures !IsValidCurrencyInput("1.2.3") && !IsValidCurrencyInput("1,000") && !IsValidCurrencyInput("1-2")
  {
    assert AfterSign("12.5") by {
      assert AfterSign("2.5") by { assert AfterSign(".5"); }
    }
    assert AfterSign("12.") by {
      assert AfterSign("2.") by { assert AfterSign("."); }
    }
    assert !AfterSign("1.2.3") by {
      assert !AfterDot("2.3") by { assert "2.3"[1] == '.'; }
      assert !AfterSign(".2.3");
    }
    assert !AfterSign("1,000") by {
      assert !AfterSign(",000");
    }
    assert !AfterSign("1-2") by {
      assert !AfterSign("-2");
    }
  }

  /** `input.replace(/[^0-9+\-.]/g, '')`. */
  function Cleaned(s: string): (r: string)
    ensures |r| <= |s|
    ensures forall i :: 0 <= i < |r| ==> Kept(r[i])
  {
    if s == [] then [] else (if Kept(s[0]) then [s[0]] else []) + Cleaned(s[1..])
  }

  /** Cleaning keeps every character a valid input can contain: a valid input is left unchanged. */
  lemma {:induction false} CleanedKeepsKept(s: string)
    requires forall i :: 0 <= i < |s| ==> Kept(s[i])
    ensures Cleaned(s) == s
  {
    if s != [] {
      CleanedKeepsKept(s[1..]);
      assert [s[0]] + s[1..] == s;
    }
  }

  lemma ValidInputIsClean(s: string)
    requires IsValidCurrencyInput(s)
    ensures Cleaned(s) == s
  {
    PatternIsShape(s);
    CleanedKeepsKept(s);
  }

  /** Cleaning twice is cleaning once. */
  lemma CleanedIdempotent(s: string)
    ensures Cleaned(Cleaned(s)) == Cleaned(s)
  {
    CleanedKeepsKept(Cleaned(s));
  }

  /**
   * `parseCurrencyInput`: 0 for blank input, else `parseFloat` of the
   * cleaned text, 0 when that is NaN. `parseFloat` is a parameter and
   * returns `None` for NaN.
   */
  function ParseCurrencyInput(parseFloat: string -> Option<real>, input: string): (r: real)
    ensures AllWhitespace(input) ==> r == 0.0
    ensures !AllWhitespace(input) ==> r == parseFloat(Cleaned(input)).GetOr(0.0)
  {
    BlankIffAllWhitespace(input);
    if input == "" || IsBlank(input) then 0.0
    else
      match parseFloat(Cleaned(input))
      case None => 0.0
      case Some(x) => x
  }

  /** Separators and currency symbols never reach `parseFloat`. */
  lemma ParseSeesCleanedText(parseFloat: string -> Option<real>, input: string)
    requires Cleaned(input) != ""
    ensures ParseCurrencyInput(parseFloat, input) == ParseCurrencyInput(parseFloat, Cleaned(input))
  {
    CleanedIdempotent(input);
    assert Kept(Cleaned(input)[0]);
    assert !AllWhitespace(Cleaned(input));
    CleanedHasNoSpace(input);
  }

  /** Cleaned text that is not empty is not blank, so neither is its source. */
  lemma {:induction false} CleanedHasNoSpace(s: string)
    requires Cleaned(s) != ""
    ensures !AllWhitespace(s)
  {
    if Kept(s[0]) {
      assert !IsWhitespace(s[0]);
    } else {
      CleanedHasNoSpace(s[1..]);
      assert !IsWhitespace(s[1..][0]) || !AllWhitespace(s[1..]);
    }
  }

  /** The value a currency cell holds: a number (maybe NaN), a text, null or undefined. */
  datatype Amount = Number(x: real) | NaN | Text(s: string) | NullAmount | UndefinedAmount

  /**
   * `formatCurrencyForEditing`: '' for null, undefined, '' and anything
   * that parses to NaN, else `String(number)` (a parameter).
   */
  function FormatCurrencyForEditing(parseFloat: string -> Option<real>, numberText: real -> string, value: Amount): (r: string)
    ensures value.NullAmount? || value.UndefinedAmount? || value == Text("") || value.NaN? ==> r == ""
    ensures value.Text? && parseFloat(value.s).None? ==> r == ""
    ensures value.Number? ==> r == numberText(value.x)
    ensures value.Text? && value.s != "" && parseFloat(value.s).Some? ==> r == numberText(parseFloat(value.s).value)
  {
    match value
    case NullAmount => ""
    case UndefinedAmount => ""
    case NaN => ""
    case Number(x) => numberText(x)
    case Text(s) =>
      if s == "" then ""
      else
        match parseFloat(s)
        case None => ""
        case Some(x) => numberText(x)
  }
}
