/** ASCII digits and the decimal rendering of integers, as Ruby's `Integer#to_s`
    produces it, together with the reader that inverts it. */
module Decimal {
  import opened Outcome

  /** Ruby's `\d` outside Unicode mode: the ASCII digits only. */
  predicate IsDigit(c: char) {
    '0' <= c <= '9'
  }

  /** Every character of `s` is a digit (the empty string qualifies). */
  predicate AllDigits(s: string) {
    forall i :: 0 <= i < |s| ==> IsDigit(s[i])
  }

  /** A non-empty run of digits: the text `\d+` matches. */
  predicate IsDigitRun(s: string) {
    |s| > 0 && AllDigits(s)
  }

  function DigitChar(d: nat): (c: char)
    requires d < 10
    ensures IsDigit(c)
  {
    "0123456789"[d]
  }

  function DigitValue(c: char): (d: nat)
    requires IsDigit(c)
    ensures d < 10
  {
    (c as int - '0' as int) as nat
  }

  /** The number a string of digits denotes, most significant digit first. */
  function DigitsValue(s: string): nat
    requires AllDigits(s)
  {
    if |s| == 0 then 0
    else DigitsValue(s[..|s| - 1]) * 10 + DigitValue(s[|s| - 1])
  }

  /** Canonical decimal text of a natural number: digits only, no leading zero. */
  function NatToString(n: nat): (r: string)
    ensures IsDigitRun(r)
    ensures |r| > 1 ==> r[0] != '0'
    decreases n
  {
    if n < 10 then [DigitChar(n)]
    else NatToString(n / 10) + [DigitChar(n % 10)]
  }

  /** Ruby's `Integer#to_s`: a minus sign before the magnitude of a negative number. */
  function IntToString(n: int): (r: string)
    ensures n >= 0 ==> IsDigitRun(r)
    ensures n < 0 ==> |r| > 1 && r[0] == '-' && IsDigitRun(r[1..])
    ensures var m := if n < 0 then r[1..] else r; |m| > 1 ==> m[0] != '0'
  {
    if n < 0 then "-" + NatToString(-n) else NatToString(n)
  }

  /** Reads a non-empty run of digits; anything else is rejected. */
  function ParseNat(s: string): (r: Option<nat>)
    ensures r.Some? <==> IsDigitRun(s)
  {
    if IsDigitRun(s) then Some(DigitsValue(s)) else None
  }

  /** Reads an optional minus sign followed by a run of digits. */
  function ParseInt(s: string): (r: Option<int>)
    ensures r.Some? <==> IsDigitRun(s) || (|s| > 1 && s[0] == '-' && IsDigitRun(s[1..]))
  {
    if |s| > 0 && s[0] == '-' then
      match ParseNat(s[1..])
      case Some(n) => Some(0 - n as int)
      case None => None
    else
      match ParseNat(s)
      case Some(n) => Some(n)
      case None => None
  }

  lemma DigitCharValue(d: nat)
    requires d < 10
    ensures DigitValue(DigitChar(d)) == d
  {
  }

  /** Reading back the canonical text of `n` yields `n`. */
  lemma {:induction false} NatRoundTrip(n: nat)
    ensures ParseNat(NatToString(n)) == Some(n)
    decreases n
  {
    var s := NatToString(n);
    if n < 10 {
      DigitCharValue(n);
      assert s[..|s| - 1] == [];
      assert DigitsValue(s) == DigitsValue([]) * 10 + n;
    } else {
      NatRoundTrip(n / 10);
      DigitCharValue(n % 10);
      assert s[..|s| - 1] == NatToString(n / 10);
    }
  }

  /** `IntToString` loses nothing: its text reads back as the same integer. */
  lemma IntRoundTrip(n: int)
    ensures ParseInt(IntToString(n)) == Some(n)
  {
    if n < 0 {
      NatRoundTrip(-n);
      assert IntToString(n)[1..] == NatToString(-n);
    } else {
      NatRoundTrip(n);
    }
  }
}
