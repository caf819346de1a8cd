/**
 * Kotlin's 32-bit `Int` and the two conversions the wire protocol relies on:
 * `Int.toString()` (string templates such as "$player") and `String.toInt()`.
 * Payloads are ASCII text, so only the ASCII digits '0'..'9' are digits here.
 */
module Ints {

  const MIN_INT: int := -0x8000_0000
  const MAX_INT: int := 0x7fff_ffff

  /** Kotlin's `Int`. */
  type Int32 = x: int | MIN_INT <= x <= MAX_INT

  datatype Option<+T> = None | Some(value: T)

  predicate IsDigit(c: char) {
    '0' <= c <= '9'
  }

  predicate AllDigits(s: string) {
    forall i | 0 <= i < |s| :: IsDigit(s[i])
  }

  function DigitChar(d: nat): (c: char)
    requires d < 10
    ensures IsDigit(c) && c as int - '0' as int == d
  {
    (d + '0' as int) as char
  }

  function DigitValue(c: char): (d: nat)
    requires IsDigit(c)
    ensures d < 10 && DigitChar(d) == c
  {
    c as int - '0' as int
  }

  /** The decimal digits of `n`, most significant first, without leading zeros. */
  function NatToDigits(n: nat): (s: string)
    ensures |s| > 0 && AllDigits(s)
    ensures s[0] == '0' ==> s == "0"
    decreases n
  {
    if n < 10 then [DigitChar(n)] else NatToDigits(n / 10) + [DigitChar(n % 10)]
  }

  /** The value of a string of decimal digits, read most significant first. */
  function DigitsValue(s: string): nat
    requires AllDigits(s)
  {
    if s == [] then 0 else DigitsValue(s[..|s| - 1]) * 10 + DigitValue(s[|s| - 1])
  }

  lemma {:induction false} DigitsValueOfNatToDigits(n: nat)
    ensures DigitsValue(NatToDigits(n)) == n
    decreases n
  {
    if n >= 10 {
      var s := NatToDigits(n);
      assert s[..|s| - 1] == NatToDigits(n / 10);
      DigitsValueOfNatToDigits(n / 10);
    }
  }

  /** `Int.toString()`: a '-' sign for negative values, then the digits of the magnitude. */
  function IntToString(x: Int32): (s: string)
    ensures |s| > 0
    ensures s[0] == '-' <==> x < 0
    ensures AllDigits(if x < 0 then s[1..] else s)
  {
    if x < 0 then "-" + NatToDigits(-(x as int)) else NatToDigits(x)
  }

  /**
   * `String.toInt()`: an optional leading '+' or '-', then at least one digit,
   * and a value that fits in an `Int`. `None` stands for the
   * NumberFormatException thrown on anything else.
   */
  function ParseInt(s: string): (r: Option<Int32>)
    ensures r.Some? ==> |s| > 0 && (IsDigit(s[0]) || (|s| > 1 && (s[0] == '-' || s[0] == '+')))
    ensures r.Some? ==> AllDigits(s[1..])
    ensures |s| > 0 && AllDigits(s) ==>
      if DigitsValue(s) <= MAX_INT then r.Some? && r.value == DigitsValue(s) else r.None?
    ensures |s| > 1 && s[0] == '+' && AllDigits(s[1..]) ==>
      if DigitsValue(s[1..]) <= MAX_INT then r.Some? && r.value == DigitsValue(s[1..]) else r.None?
    ensures |s| > 1 && s[0] == '-' && AllDigits(s[1..]) ==>
      if -(DigitsValue(s[1..]) as int) >= MIN_INT then r.Some? && r.value == -(DigitsValue(s[1..]) as int) else r.None?
  {
    if s == [] then None
    else if s[0] == '-' || s[0] == '+' then
      if |s| == 1 || !AllDigits(s[1..]) then None
      else
        var v: int := if s[0] == '-' then -(DigitsValue(s[1..]) as int) else DigitsValue(s[1..]);
        if MIN_INT <= v <= MAX_INT then Some(v) else None
    else if !AllDigits(s) then None
    else if DigitsValue(s) <= MAX_INT then Some(DigitsValue(s))
    else None
  }

  /** Parsing what `IntToString` rendered gives back the same `Int`. */
  lemma ParseIntToString(x: Int32)
    ensures ParseInt(IntToString(x)) == Some(x)
  {
    var s := IntToString(x);
    if x < 0 {
      assert s[1..] == NatToDigits(-(x as int));
      DigitsValueOfNatToDigits(-(x as int));
    } else {
      DigitsValueOfNatToDigits(x);
    }
  }

  /** Rendered numbers never contain the field separator or the closing parenthesis. */
  lemma IntToStringHasNoDelimiters(x: Int32)
    ensures ',' !in IntToString(x) && ')' !in IntToString(x)
  {
    var s := IntToString(x);
    forall i | 0 <= i < |s|
      ensures s[i] != ',' && s[i] != ')'
    {
      if x < 0 && i > 0 {
        assert s[i] == s[1..][i - 1];
      }
    }
  }
}
