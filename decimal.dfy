/**
 * Decimal text of a non-negative count, as Long.toString writes it: the
 * value the reserved size attribute carries.
 */
module Decimal {

  predicate IsDigit(c: char)
  {
    '0' <= c <= '9'
  }

  function DigitChar(d: nat): (c: char)
    requires d < 10
    ensures IsDigit(c) && (c as int) - ('0' as int) == d
  {
    ('0' as int + d) as char
  }

  /** The decimal numeral of n, most significant digit first, no leading zero. */
  function NatToString(n: nat): string
    decreases n
  {
    if n < 10 then [DigitChar(n)] else NatToString(n / 10) + [DigitChar(n % 10)]
  }

  predicate IsNumeral(s: string)
  {
    |s| > 0 && (forall i :: 0 <= i < |s| ==> IsDigit(s[i])) && (s[0] == '0' ==> |s| == 1)
  }

  /** Reads a numeral back (the inverse of NatToString). */
  function StringToNat(s: string): nat
    requires forall i :: 0 <= i < |s| ==> IsDigit(s[i])
    decreases |s|
  {
    if s == [] then 0
    else
      var last := s[|s| - 1];
      assert IsDigit(last);
      StringToNat(s[..|s| - 1]) * 10 + ((last as int) - ('0' as int))
  }

  lemma {:induction false} NatToStringIsNumeral(n: nat)
    ensures IsNumeral(NatToString(n))
    ensures n >= 10 ==> NatToString(n)[0] != '0'
    decreases n
  {
    if n >= 10 {
      NatToStringIsNumeral(n / 10);
      var s := NatToString(n);
      assert s[..|s| - 1] == NatToString(n / 10);
      assert s[0] == NatToString(n / 10)[0];
    }
  }

  /** Round trip: the numeral written for n reads back as n. */
  lemma {:induction false} StringToNatNatToString(n: nat)
    ensures IsNumeral(NatToString(n)) && StringToNat(NatToString(n)) == n
    decreases n
  {
    NatToStringIsNumeral(n);
    if n >= 10 {
      StringToNatNatToString(n / 10);
      var s := NatToString(n);
      assert s[..|s| - 1] == NatToString(n / 10);
    }
  }
}
