/**
 * Python's `float()` applied to text. The scripts only rely on a few of its
 * laws, so the model takes `float()` as a parameter `parse` and states those
 * laws in `FloatLike`. `DecimalFloat` is a concrete parser for plain decimal
 * literals that obeys them.
 */
module FloatText {
  import opened Wrappers
  import opened PyText

  /** An ASCII decimal digit. */
  predicate IsDigit(c: char) {
    '0' <= c <= '9'
  }

  /**
   * The laws of `float()` the model relies on: empty text is not a number,
   * text holding a comma is not a number, and text without a minus sign
   * never denotes a negative number.
   */
  ghost predicate FloatLike(parse: string -> Option<real>) {
    && parse("") == None
    && (forall s :: ',' in s ==> parse(s) == None)
    && (forall s :: '-' !in s && parse(s).Some? ==> parse(s).value >= 0.0)
  }

  predicate AllDigits(s: string) {
    forall i :: 0 <= i < |s| ==> IsDigit(s[i])
  }

  function DigitValue(c: char): nat
    requires IsDigit(c)
  {
    (c as int) - ('0' as int)
  }

  /** The value of a string of decimal digits, most significant first. */
  function DigitsValue(s: string): nat
    requires AllDigits(s)
  {
    if s == [] then 0 else DigitsValue(s[..|s| - 1]) * 10 + DigitValue(s[|s| - 1])
  }

  function Pow10(n: nat): (p: nat)
    ensures p >= 1
  {
    if n == 0 then 1 else 10 * Pow10(n - 1)
  }

  /**
   * An unsigned decimal literal: digits, optionally with one `.`, and at
   * least one digit (`5`, `5.`, `.5`, `40.7128`).
   */
  function UnsignedDecimal(s: string): (r: Option<real>)
    ensures r.Some? ==> r.value >= 0.0
    ensures r.Some? ==> forall i :: 0 <= i < |s| ==> IsDigit(s[i]) || s[i] == '.'
    ensures r.Some? ==> |s| > 0
  {
    if '.' in s then
      var k := FirstIndex(s, '.');
      var whole, fraction := s[..k], s[k + 1..];
      if AllDigits(whole) && AllDigits(fraction) && |whole| + |fraction| > 0 then
        assert s == whole + ['.'] + fraction;
        Some(DigitsValue(whole) as real + DigitsValue(fraction) as real / Pow10(|fraction|) as real)
      else None
    else if AllDigits(s) && |s| > 0 then Some(DigitsValue(s) as real)
    else None
  }

  /**
   * A decimal literal with an optional leading sign. It agrees with
   * `float()` on such literals and rejects everything else (exponents,
   * `inf`, `nan`, underscores and surrounding white space among them).
   */
  function DecimalFloat(s: string): (r: Option<real>)
    ensures r.Some? ==> |s| > 0
    ensures r.Some? ==> forall i :: 0 <= i < |s| ==> IsDigit(s[i]) || s[i] == '.' || (i == 0 && s[i] in "+-")
    ensures r.Some? && s[0] != '-' ==> r.value >= 0.0
  {
    if |s| > 0 && s[0] == '-' then
      match UnsignedDecimal(s[1..])
      case Some(v) => Some(-v)
      case None => None
    else if |s| > 0 && s[0] == '+' then UnsignedDecimal(s[1..])
    else UnsignedDecimal(s)
  }

  /** The concrete parser obeys the laws the model assumes of `float()`. */
  lemma DecimalFloatIsFloatLike()
    ensures FloatLike(DecimalFloat)
  {
    forall s | ',' in s
      ensures DecimalFloat(s) == None
    {
      var i :| 0 <= i < |s| && s[i] == ',';
    }
    forall s | '-' !in s && DecimalFloat(s).Some?
      ensures DecimalFloat(s).value >= 0.0
    {
      assert s[0] in s;
    }
  }
}
