/** Decimal printing of naturals and reading them back. */
module Decimal {
  predicate IsDigit(c: char) {
    '0' <= c <= '9'
  }

  function DigitValue(c: char): nat
    requires IsDigit(c)
  {
    c as int - '0' as int
  }

  function DigitChar(d: nat): (c: char)
    requires d < 10
    ensures IsDigit(c) && DigitValue(c) == d
  {
    (('0' as int) + d) as char
  }

  /** As %u prints it: no leading zeroes, "0" for zero. */
  function Print(n: nat): (s: string)
    ensures s != [] && forall c :: c in s ==> IsDigit(c)
  {
    if n < 10 then [DigitChar(n)] else Print(n / 10) + [DigitChar(n % 10)]
  }

  /** The value of a string of digits. */
  function Value(s: string): nat
    requires forall c :: c in s ==> IsDigit(c)
  {
    if s == [] then 0 else 10 * Value(s[..|s| - 1]) + DigitValue(s[|s| - 1])
  }

  lemma {:induction false} PrintValue(n: nat)
    ensures Value(Print(n)) == n
  {
    if n < 10 {
      assert Print(n)[..0] == [];
    } else {
      PrintValue(n / 10);
      var s := Print(n);
      assert s[..|s| - 1] == Print(n / 10);
    }
  }

  /** A number below a power of ten prints in at most that many digits. */
  lemma {:induction false} PrintLength(n: nat, digits: nat)
    requires 0 < digits && n < Pow10(digits)
    ensures |Print(n)| <= digits
  {
    if n >= 10 {
      assert digits > 1;
      PrintLength(n / 10, digits - 1);
    }
  }

  function Pow10(e: nat): nat {
    if e == 0 then 1 else 10 * Pow10(e - 1)
  }

  /** How many leading characters are digits. */
  function DigitSpan(s: string): (n: nat)
    ensures n <= |s|
    ensures forall c :: c in s[..n] ==> IsDigit(c)
    ensures n < |s| ==> !IsDigit(s[n])
  {
    if s == [] || !IsDigit(s[0]) then 0
    else
      var n := 1 + DigitSpan(s[1..]);
      assert s[..n] == [s[0]] + s[1..][..n - 1];
      n
  }

  /** Digits followed by something else are read back whole. */
  lemma {:induction false} SpanOfDigits(d: string, rest: string)
    requires forall c :: c in d ==> IsDigit(c)
    requires rest == [] || !IsDigit(rest[0])
    ensures DigitSpan(d + rest) == |d|
  {
    if d == [] {
      assert d + rest == rest;
    } else {
      assert (d + rest)[1..] == d[1..] + rest;
      SpanOfDigits(d[1..], rest);
    }
  }
}
