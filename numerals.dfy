/** Decimal numerals: Python's `int(text)` as the filter values use it, and fixed-width digit
    fields as dates and times are written. */
module Numerals {
  import opened Base

  predicate IsDigit(c: char)
  {
    '0' <= c <= '9'
  }

  predicate AllDigits(s: string)
  {
    forall i :: 0 <= i < |s| ==> IsDigit(s[i])
  }

  function DigitValue(c: char): (d: nat)
    requires IsDigit(c)
    ensures d < 10
  {
    c as int - '0' as int
  }

  function DigitChar(d: nat): (c: char)
    requires d < 10
    ensures IsDigit(c) && DigitValue(c) == d
  {
    ('0' as int + d) as char
  }

  /** The value of a string of decimal digits, most significant digit first. */
  function DigitsValue(s: string): nat
    requires AllDigits(s)
  {
    if s == [] then 0 else DigitsValue(s[..|s| - 1]) * 10 + DigitValue(s[|s| - 1])
  }

  function Pow10(k: nat): (p: nat)
    ensures p >= 1
  {
    if k == 0 then 1 else 10 * Pow10(k - 1)
  }

  /** The shortest decimal numeral of `n`. */
  function NatToDigits(n: nat): (s: string)
    ensures |s| >= 1 && AllDigits(s)
  {
    if n < 10 then [DigitChar(n)] else NatToDigits(n / 10) + [DigitChar(n % 10)]
  }

  /** `n` written with exactly `width` digits, padded with leading zeros. */
  function PaddedDigits(n: nat, width: nat): (s: string)
    ensures |s| == width && AllDigits(s)
  {
    if width == 0 then [] else PaddedDigits(n / 10, width - 1) + [DigitChar(n % 10)]
  }

  lemma {:induction false} NatToDigitsValue(n: nat)
    ensures DigitsValue(NatToDigits(n)) == n
  {
    var s := NatToDigits(n);
    if n >= 10 {
      NatToDigitsValue(n / 10);
      assert s[..|s| - 1] == NatToDigits(n / 10);
    }
  }

  /** Reading back a padded field gives the number, as long as it fits the width. */
  lemma {:induction false} PaddedDigitsValue(n: nat, width: nat)
    requires n < Pow10(width)
    ensures DigitsValue(PaddedDigits(n, width)) == n
  {
    if width == 0 {
      assert n == 0;
    } else {
      var q, d := n / 10, n % 10;
      assert n == q * 10 + d;
      assert q < Pow10(width - 1);
      PaddedDigitsValue(q, width - 1);
      var s := PaddedDigits(n, width);
      assert s == PaddedDigits(q, width - 1) + [DigitChar(d)];
      assert s[..|s| - 1] == PaddedDigits(q, width - 1);
      assert DigitsValue(s) == DigitsValue(PaddedDigits(q, width - 1)) * 10 + d;
    }
  }

  /** Python's `int(text)` on a filter value: an optional sign followed by one or more ASCII
      digits; anything else raises ValueError, here `None`. */
  function ParseInt(text: string): Option<int>
  {
    if |text| > 0 && (text[0] == '-' || text[0] == '+') then
      if |text| > 1 && AllDigits(text[1..]) then
        var magnitude: int := DigitsValue(text[1..]);
        Some(if text[0] == '-' then -magnitude else magnitude)
      else None
    else if |text| > 0 && AllDigits(text) then Some(DigitsValue(text))
    else None
  }

  /** Python's `str(n)` for an integer. */
  function IntToString(n: int): string
  {
    if n < 0 then "-" + NatToDigits(-n) else NatToDigits(n)
  }

  /** Every integer written out by `str` reads back through `int`. */
  lemma IntRoundTrip(n: int)
    ensures ParseInt(IntToString(n)) == Some(n)
  {
    if n < 0 {
      var digits := NatToDigits(-n);
      var text := "-" + digits;
      assert text[0] == '-' && text[1..] == digits;
      NatToDigitsValue(-n);
      assert ParseInt(text) == Some(n);
    } else {
      var digits := NatToDigits(n);
      assert IsDigit(digits[0]);
      NatToDigitsValue(n);
      assert ParseInt(digits) == Some(DigitsValue(digits));
    }
  }
}
