/** Decimal rendering of a natural number, as a template literal renders
    one, with its parse back for the round trip. */
module Decimal {

  predicate IsDigit(c: char)
  {
    '0' <= c <= '9'
  }

  function DigitChar(d: nat): (c: char)
    requires d < 10
    ensures IsDigit(c) && c as int - '0' as int == d
  {
    ('0' as int + d) as char
  }

  /** Shortest base-10 spelling of `n`; `NatToStringDigits` says what it
      is made of. */
  function NatToString(n: nat): (s: string)
    ensures |s| >= 1
    ensures s[0] == '0' ==> n == 0
    decreases n
  {
    if n < 10 then [DigitChar(n)]
    else NatToString(n / 10) + [DigitChar(n % 10)]
  }

  /** The spelling holds digits only. */
  lemma {:induction false} NatToStringDigits(n: nat)
    ensures forall k :: 0 <= k < |NatToString(n)| ==> IsDigit(NatToString(n)[k])
    decreases n
  {
    if n >= 10 {
      NatToStringDigits(n / 10);
      var s := NatToString(n);
      assert s == NatToString(n / 10) + [DigitChar(n % 10)];
    }
  }

  /** The value of a string read as base-10 digits. */
  function ParseDigits(s: string): int
  {
    if s == [] then 0
    else ParseDigits(s[..|s| - 1]) * 10 + (s[|s| - 1] as int - '0' as int)
  }

  /** Parsing what `NatToString` writes gives the number back. */
  lemma {:induction false} ParseNatToString(n: nat)
    ensures ParseDigits(NatToString(n)) == n
    decreases n
  {
    var s := NatToString(n);
    if n >= 10 {
      ParseNatToString(n / 10);
      assert s[..|s| - 1] == NatToString(n / 10);
    }
  }

  /** Distinct numbers are written differently. */
  lemma NatToStringInjective(a: nat, b: nat)
    ensures NatToString(a) == NatToString(b) ==> a == b
  {
    ParseNatToString(a);
    ParseNatToString(b);
  }
}
