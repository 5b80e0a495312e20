/**
 * The text `std::ostream` writes for an `int`: an optional minus sign and
 * the decimal digits, most significant first, without leading zeros. The
 * inverse parse is defined only to state that the text determines the
 * number.
 */
module Decimal {

  predicate IsDigit(c: char)
  {
    '0' <= c <= '9'
  }

  /** A non-empty run of decimal digits. */
  predicate IsDigits(s: string)
  {
    0 < |s| && forall k :: 0 <= k < |s| ==> IsDigit(s[k])
  }

  /** The character of the digit `d`. */
  function DigitChar(d: int): (c: char)
    requires 0 <= d < 10
    ensures IsDigit(c) && c as int - '0' as int == d
  {
    ('0' as int + d) as char
  }

  /** The digits of `n`, most significant first; `"0"` for zero. */
  function NatToString(n: nat): (s: string)
    ensures IsDigits(s)
    ensures s[0] == '0' ==> n == 0 && |s| == 1
    ensures n < 10 <==> |s| == 1
    decreases n
  {
    if n < 10 then [DigitChar(n)] else NatToString(n / 10) + [DigitChar(n % 10)]
  }

  /** `out << n` for an `int` `n`. */
  function IntToString(n: int): (s: string)
    ensures 0 <= n ==> IsDigits(s)
    ensures n < 0 ==> 1 < |s| && s[0] == '-' && IsDigits(s[1..])
  {
    if n < 0 then "-" + NatToString(-n) else NatToString(n)
  }

  /** The value of a run of digits. */
  function DigitsValue(s: string): (v: int)
    requires forall k :: 0 <= k < |s| ==> IsDigit(s[k])
    ensures 0 <= v
    decreases |s|
  {
    if |s| == 0 then 0
    else
      assert IsDigit(s[|s| - 1]);
      DigitsValue(s[..|s| - 1]) * 10 + (s[|s| - 1] as int - '0' as int)
  }

  /** Reads back the text of an `int`. */
  function ParseInt(s: string): int
    requires IsDigits(s) || (0 < |s| && s[0] == '-' && IsDigits(s[1..]))
  {
    if s[0] == '-' then -DigitsValue(s[1..]) else DigitsValue(s)
  }

  /** The digits of `n` read back as `n`. */
  lemma {:induction false} NatToStringRoundTrip(n: nat)
    ensures DigitsValue(NatToString(n)) == n
    decreases n
  {
    var s := NatToString(n);
    if n < 10 {
      assert s[..|s| - 1] == [];
    } else {
      NatToStringRoundTrip(n / 10);
      assert s[..|s| - 1] == NatToString(n / 10);
    }
  }

  /** The text of an `int` read back is the `int`: the text determines the number. */
  lemma IntToStringRoundTrip(n: int)
    ensures ParseInt(IntToString(n)) == n
  {
    if n < 0 {
      NatToStringRoundTrip(-n);
      assert IntToString(n)[1..] == NatToString(-n);
    } else {
      NatToStringRoundTrip(n);
    }
  }

  /** Distinct numbers are written differently. */
  lemma IntToStringInjective(m: int, n: int)
    requires IntToString(m) == IntToString(n)
    ensures m == n
  {
    IntToStringRoundTrip(m);
    IntToStringRoundTrip(n);
  }

  /** Numbers below 1000 take at most three digits. */
  lemma {:induction false} NatToStringShort(n: nat)
    requires n < 1000
    ensures |NatToString(n)| <= 3
  {
    if n >= 10 {
      if n / 10 >= 10 {
        assert n / 10 / 10 < 10;
      }
    }
  }
}
