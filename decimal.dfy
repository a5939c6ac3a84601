/**
 * Two-decimal text for amounts held in cents.
 *
 * The charge script formats every amount with `string.format("%.2f", x)` and the
 * Redis client reads it back with `parseFloat`. Amounts here are whole cents, so
 * the formatting never rounds and the two steps are inverse to each other.
 */
module Decimal {
  import opened Wrappers

  predicate IsDigit(c: char) {
    '0' <= c <= '9'
  }

  predicate AllDigits(s: string) {
    forall i :: 0 <= i < |s| ==> IsDigit(s[i])
  }

  function DigitValue(c: char): (d: nat)
    requires IsDigit(c)
    ensures d < 10
  {
    c as int - '0' as int
  }

  function DigitChar(d: nat): (c: char)
    requires d < 10
    ensures IsDigit(c) && DigitValue(c) == d
  {
    ('0' as int + d) as char
  }

  /** Decimal digits of `n`, most significant first, without leading zeros. */
  function NatToString(n: nat): (s: string)
    ensures s != [] && AllDigits(s)
    ensures n < 10 <==> |s| == 1
  {
    if n < 10 then [DigitChar(n)] else NatToString(n / 10) + [DigitChar(n % 10)]
  }

  /** The value of a string of decimal digits (the empty string reads as 0). */
  function StringToNat(s: string): (n: nat)
    requires AllDigits(s)
  {
    if s == [] then 0 else StringToNat(s[..|s| - 1]) * 10 + DigitValue(s[|s| - 1])
  }

  lemma {:induction false} StringToNatOfNatToString(n: nat)
    ensures StringToNat(NatToString(n)) == n
  {
    if n >= 10 {
      var s := NatToString(n);
      assert s[..|s| - 1] == NatToString(n / 10);
      StringToNatOfNatToString(n / 10);
    }
  }

  /** `string.format("%.2f", c / 100)`: optional minus sign, integer part, a point, two digits. */
  function FormatCents(c: int): (s: string)
    ensures |s| >= 4 && s[|s| - 3] == '.'
    ensures IsDigit(s[|s| - 2]) && IsDigit(s[|s| - 1])
    ensures (s[0] == '-') <==> c < 0
  {
    var a := if c < 0 then -c else c;
    (if c < 0 then "-" else "") + NatToString(a / 100) + "." + [DigitChar(a % 100 / 10), DigitChar(a % 10)]
  }

  /** Reads "<digits>.<digit><digit>" as a number of cents; None for any other text. */
  function ParseUnsignedCents(t: string): (r: Option<nat>)
    ensures r.Some? ==> |t| >= 4 && t[|t| - 3] == '.'
  {
    if |t| >= 4 && t[|t| - 3] == '.' && AllDigits(t[..|t| - 3]) && IsDigit(t[|t| - 2]) && IsDigit(t[|t| - 1]) then
      Some(StringToNat(t[..|t| - 3]) * 100 + DigitValue(t[|t| - 2]) * 10 + DigitValue(t[|t| - 1]))
    else
      None
  }

  /**
   * `parseFloat` on text of the shape `[-]<digits>.<digit><digit>`, scaled to cents.
   * None stands for NaN; parseFloat's more lenient reading of other text is not modelled.
   */
  function ParseCents(s: string): (r: Option<int>)
    ensures r.Some? ==> |s| >= 4 && s[|s| - 3] == '.' && IsDigit(s[|s| - 2]) && IsDigit(s[|s| - 1])
    ensures r.Some? && r.value < 0 ==> s[0] == '-'
  {
    if s != [] && s[0] == '-' then
      match ParseUnsignedCents(s[1..])
      case Some(n) => Some(-(n as int))
      case None => None
    else
      ParseUnsignedCents(s)
  }

  /** Formatting an amount and parsing it back gives the amount again. */
  lemma ParseCentsOfFormatCents(c: int)
    ensures ParseCents(FormatCents(c)) == Some(c)
  {
    var a := if c < 0 then -c else c;
    var digits := NatToString(a / 100);
    var t := digits + "." + [DigitChar(a % 100 / 10), DigitChar(a % 10)];
    assert t[..|t| - 3] == digits;
    StringToNatOfNatToString(a / 100);
    assert ParseUnsignedCents(t) == Some(a);
    if c < 0 {
      assert FormatCents(c) == "-" + t;
      assert FormatCents(c)[1..] == t;
    } else {
      assert FormatCents(c) == t;
      assert IsDigit(t[0]);
    }
  }
}
