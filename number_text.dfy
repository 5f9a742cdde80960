/**
 * The two implicit JavaScript conversions the item-id round trip relies on:
 * a non-negative integer concatenated to a string turns into its decimal
 * text, and a string used in arithmetic (`start -= 1`) turns into a number:
 * the number a string of decimal digits spells, or `NaN`.
 */
module NumberText {

  predicate IsDigit(c: char) {
    '0' <= c <= '9'
  }

  predicate IsDigits(s: string) {
    forall i :: 0 <= i < |s| ==> IsDigit(s[i])
  }

  /** The character that spells the digit `d`. */
  function Digit(d: nat): (c: char)
    requires d < 10
    ensures IsDigit(c)
    ensures c as int - '0' as int == d
  {
    ('0' as int + d) as char
  }

  /**
   * Decimal text of `n`, as `String(n)` writes it for an integer below 2^53
   * (`Number.MAX_SAFE_INTEGER + 1`): at least one digit, no leading zero.
   */
  function DecimalText(n: nat): (s: string)
    ensures |s| > 0 && IsDigits(s)
    ensures s[0] == '0' ==> n == 0
    ensures n < 10 <==> |s| == 1
    decreases n
  {
    if n < 10 then [Digit(n)] else DecimalText(n / 10) + [Digit(n % 10)]
  }

  /** The number a string of decimal digits spells, as `Number(s)` reads it. */
  function DigitsValue(s: string): nat
    requires IsDigits(s)
    decreases |s|
  {
    if s == [] then 0
    else 10 * DigitsValue(s[..|s| - 1]) + (s[|s| - 1] as int - '0' as int)
  }

  /** Reading back the decimal text of `n` gives `n`. */
  lemma {:induction false} DigitsValueOfDecimalText(n: nat)
    ensures DigitsValue(DecimalText(n)) == n
  {
    if n >= 10 {
      var s := DecimalText(n);
      assert s[..|s| - 1] == DecimalText(n / 10);
      DigitsValueOfDecimalText(n / 10);
    }
  }

  /** Two numbers have the same decimal text exactly when they are equal. */
  lemma DecimalTextInjective(a: nat, b: nat)
    ensures DecimalText(a) == DecimalText(b) <==> a == b
  {
    DigitsValueOfDecimalText(a);
    DigitsValueOfDecimalText(b);
  }

  /** A JavaScript number as positions can become one: an integer, or `NaN`. */
  datatype JsNumber = NaN | Num(value: int)

  /**
   * `Number(s)`, the conversion `start -= 1` applies to a position's text,
   * for the texts element ids can produce: a string of decimal digits reads
   * as the number it spells (the empty string as 0), anything else as `NaN`.
   */
  function ToNumber(s: string): (n: JsNumber)
    ensures n.Num? ==> n.value >= 0
  {
    if IsDigits(s) then Num(DigitsValue(s)) else NaN
  }

  /**
   * The decimal text of `n` reads back as `n`; the empty string reads as 0;
   * and a text holding a character that is not a digit reads as `NaN`.
   */
  lemma ToNumberCases(n: nat, s: string, i: nat)
    ensures ToNumber(DecimalText(n)) == Num(n)
    ensures ToNumber("") == Num(0)
    ensures i < |s| && !IsDigit(s[i]) ==> ToNumber(s) == NaN
  {
    DigitsValueOfDecimalText(n);
  }
}
