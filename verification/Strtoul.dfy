/** strtoul in base 10, for an unsigned long of any range. */
module Strtoul {
  import Decimal

  predicate IsSpace(c: char) {
    c == ' ' || c == '\t' || c == '\n' || c == '\r' || c == 11 as char || c == 12 as char
  }

  /** The white space of the C locale: blank, and the codes 9 to 13. */
  lemma SpaceCodes(c: char)
    ensures IsSpace(c) <==> c == ' ' || 9 <= c as int <= 13
  {}

  function SpaceSpan(s: string): (n: nat)
    ensures n <= |s|
  {
    if s == "" || !IsSpace(s[0]) then 0 else 1 + SpaceSpan(s[1..])
  }

  /** A number as strtoul finds it: white space, a sign, decimal digits, then
      the text it does not look at. */
  datatype Written = Written(negative: bool, digits: string, rest: string)

  function Scan(s: string): (w: Written)
    ensures forall c :: c in w.digits ==> Decimal.IsDigit(c)
  {
    var t := s[SpaceSpan(s)..];
    var negative := t != "" && t[0] == '-';
    var u := if t != "" && (t[0] == '-' || t[0] == '+') then t[1..] else t;
    Written(negative, u[..Decimal.DigitSpan(u)], u[Decimal.DigitSpan(u)..])
  }

  /** strtoul in base 10 for an unsigned long of the given range: saturating, then negated
      modulo the range. */
  function StrToUl(w: Written, ulongMax: nat): (v: nat)
    requires forall c :: c in w.digits ==> Decimal.IsDigit(c)
    ensures v <= ulongMax
  {
    var value := Decimal.Value(w.digits);
    if value > ulongMax then ulongMax
    else if w.negative && value > 0 then ulongMax + 1 - value
    else value
  }

  lemma NoDigits()
    ensures Decimal.Value("") == 0
  {}

  lemma ScanDigits(digits: string, rest: string)
    requires digits != "" && forall c :: c in digits ==> Decimal.IsDigit(c)
    requires rest == "" || !Decimal.IsDigit(rest[0])
    ensures Scan(digits + rest) == Written(false, digits, rest)
    ensures Scan("-" + (digits + rest)) == Written(true, digits, rest)
  {
    var s := digits + rest;
    assert digits[0] in digits;
    assert s[0] == digits[0];
    Decimal.SpanOfDigits(digits, rest);
    assert s[..|digits|] == digits && s[|digits|..] == rest;
    NoSpace(s);
    var t := "-" + s;
    NoSpace(t);
    assert t[1..] == s;
  }

  lemma NoSpace(s: string)
    requires s != "" && !IsSpace(s[0])
    ensures s[SpaceSpan(s)..] == s
  {}

  /** The integer that was written. */
  function Meant(w: Written): int
    requires forall c :: c in w.digits ==> Decimal.IsDigit(c)
  {
    var value: int := Decimal.Value(w.digits);
    if w.negative then -value else value
  }
}
