/** Which cookie header values the HTTP transport accepts, measured against well-formed ones (the
    cookie-string of section 4.2.1 of RFC 6265). */
module SessionCookie {
  import opened Common
  import opened Strtoul
  import opened HttpText
  import Decimal

  /** A cookie pair may begin here: at the start, or after a semicolon and spaces. */
  predicate PairStart(before: string) {
    before == "" ||
    (var last := before[|before| - 1];
     last == ';' || (last == ' ' && PairStart(before[..|before| - 1])))
  }

  /** Digits, and then the end or the next pair. */
  predicate Tail(digits: string, rest: string) {
    && digits != "" && (forall c :: c in digits ==> Decimal.IsDigit(c))
    && (rest == "" || rest[0] == ';')
  }

  /** The value is what precedes a session pair, the pair, and what follows it. */
  predicate Splits(value: string, before: string, digits: string, rest: string) {
    value == before + (COOKIE_KEY + (digits + rest)) && PairStart(before) && Tail(digits, rest)
  }

  /** The header value holds a session cookie with this id: a pair of exactly that name, one or more
      digits, and then the end or the next pair. */
  ghost predicate WellFormed(value: string, id: nat) {
    exists before, digits, rest ::
      Splits(value, before, digits, rest) && Decimal.Value(digits) == id
  }

  /** And "session=" stands nowhere ahead of that pair. */
  ghost predicate FirstWellFormed(value: string, id: nat) {
    exists before, digits, rest ::
      Splits(value, before, digits, rest) && FindKey(before, 0).None? && Decimal.Value(digits) == id
  }

  lemma FirstIsWellFormed(value: string, id: nat)
    requires FirstWellFormed(value, id)
    ensures WellFormed(value, id)
  {
    var before, digits, rest :|
      Splits(value, before, digits, rest) && FindKey(before, 0).None? && Decimal.Value(digits) == id;
    assert Splits(value, before, digits, rest);
  }

  /** The text after the key. */
  function Field(value: string): string {
    var p := FindKey(value, 0);
    if p.None? then "" else value[p.value + 8..]
  }

  /** The guard for accepting a value lets it through, although the key stands inside another name,
      or something other than a digit follows it, or the digits run into other text, or the number
      is no id. */
  predicate Flawed(value: string, ulongMax: nat) {
    var p := FindKey(value, 0);
    var w := Scan(Field(value));
    && p.Some? && w.digits != "" && StrToUl(w, ulongMax) <= UINT32_MAX
    && (|| !PairStart(value[..p.value])
        || !Decimal.IsDigit(Field(value)[0])
        || (w.rest != "" && w.rest[0] != ';')
        || Decimal.Value(w.digits) > UINT32_MAX)
  }

  lemma ScanNonEmpty(s: string)
    ensures Scan(s).digits != "" ==> s != ""
  {}

  /** A value with the key is what precedes its first occurrence, the key, and the field. */
  lemma SplitAtKey(value: string)
    requires FindKey(value, 0).Some?
    ensures value == value[..FindKey(value, 0).value] + (COOKIE_KEY + Field(value))
    ensures FindKey(value[..FindKey(value, 0).value], 0).None?
  {
    var p := FindKey(value, 0).value;
    assert value[p..] == COOKIE_KEY + Field(value);
    forall k: nat | k + 8 <= p ensures !KeyAt(value[..p], k) {
      assert value == value[..p] + value[p..];
      KeyBefore(value[..p], value[p..], k);
    }
  }

  /** The parts of such a value are those the code finds. */
  lemma SplitFound(value: string, before: string, digits: string, rest: string)
    requires Splits(value, before, digits, rest) && FindKey(before, 0).None?
    ensures FindKey(value, 0) == Some(|before|) && value[..|before|] == before
    ensures Field(value) == digits + rest && Scan(Field(value)) == Written(false, digits, rest)
    ensures Decimal.IsDigit(Field(value)[0])
  {
    FindAfter(before, digits + rest);
    AfterKey(before, digits + rest);
    ScanDigits(digits, rest);
    assert digits[0] in digits;
  }

  /** A field that begins with a digit is read as digits from its start. */
  lemma ScanFromDigit(s: string)
    requires s != "" && Decimal.IsDigit(s[0])
    ensures !Scan(s).negative && Scan(s).digits != "" && s == Scan(s).digits + Scan(s).rest
  {
    NoSpace(s);
  }

  lemma UnflawedIsWellFormed(value: string, ulongMax: nat)
    requires UINT32_MAX <= ulongMax && CookieId(value, ulongMax).Some? && !Flawed(value, ulongMax)
    ensures FirstWellFormed(value, CookieId(value, ulongMax).value)
  {
    var w := Scan(Field(value));
    ScanNonEmpty(Field(value));
    SplitAtKey(value);
    ScanFromDigit(Field(value));
    assert Splits(value, value[..FindKey(value, 0).value], w.digits, w.rest);
  }

  lemma WellFormedIsUnflawed(value: string, ulongMax: nat)
    requires CookieId(value, ulongMax).Some? && FirstWellFormed(value, CookieId(value, ulongMax).value)
    ensures !Flawed(value, ulongMax)
  {
    var before, digits, rest :|
      Splits(value, before, digits, rest) && FindKey(before, 0).None? &&
      Decimal.Value(digits) == CookieId(value, ulongMax).value;
    SplitFound(value, before, digits, rest);
  }

  /** For every header value: what is accepted is a well-formed session cookie with that id, at the
      first occurrence of the key, if and only if the value is not flawed. */
  lemma AcceptsWellFormed(value: string, ulongMax: nat)
    requires UINT32_MAX <= ulongMax
    ensures (CookieId(value, ulongMax).Some? ==> FirstWellFormed(value, CookieId(value, ulongMax).value))
            <==> !Flawed(value, ulongMax)
    ensures CookieId(value, ulongMax).Some? && !Flawed(value, ulongMax) ==>
              WellFormed(value, CookieId(value, ulongMax).value)
  {
    if CookieId(value, ulongMax).Some? {
      if FirstWellFormed(value, CookieId(value, ulongMax).value) {
        WellFormedIsUnflawed(value, ulongMax);
      }
      if !Flawed(value, ulongMax) {
        UnflawedIsWellFormed(value, ulongMax);
        FirstIsWellFormed(value, CookieId(value, ulongMax).value);
      }
    }
  }

  // Which well-formed session cookies are accepted.

  /** Every session pair with an id in range is read back after this text. */
  ghost predicate ReadsBack(before: string, ulongMax: nat) {
    forall digits, rest :: Tail(digits, rest) && Decimal.Value(digits) <= UINT32_MAX ==>
      CookieId(before + (COOKIE_KEY + (digits + rest)), ulongMax) == Some(Decimal.Value(digits))
  }

  /** Before a semicolon, reading does not look at what follows it. */
  lemma {:induction false} SpacesStop(s: string, more: string)
    requires ';' in s
    ensures SpaceSpan(s + more) == SpaceSpan(s) && ';' in s[SpaceSpan(s)..]
  {
    if IsSpace(s[0]) {
      assert (s + more)[1..] == s[1..] + more;
      SpacesStop(s[1..], more);
      assert s[1..][SpaceSpan(s[1..])..] == s[SpaceSpan(s)..];
    } else {
      assert s[0..] == s;
    }
  }

  lemma {:induction false} DigitsStop(s: string, more: string)
    requires ';' in s
    ensures Decimal.DigitSpan(s + more) == Decimal.DigitSpan(s)
  {
    if Decimal.IsDigit(s[0]) {
      assert (s + more)[1..] == s[1..] + more;
      DigitsStop(s[1..], more);
    }
  }

  lemma ScanStops(s: string, more: string)
    requires ';' in s
    ensures Scan(s + more).negative == Scan(s).negative && Scan(s + more).digits == Scan(s).digits
  {
    SpacesStop(s, more);
    var n := SpaceSpan(s);
    assert (s + more)[n..] == s[n..] + more;
    var u := Unsigned(s[n..]);
    UnsignedStops(s[n..], more);
    DigitsStop(u, more);
    assert (u + more)[..Decimal.DigitSpan(u)] == u[..Decimal.DigitSpan(u)];
  }

  function Unsigned(t: string): string {
    if t != "" && (t[0] == '-' || t[0] == '+') then t[1..] else t
  }

  lemma UnsignedStops(t: string, more: string)
    requires ';' in t
    ensures Unsigned(t + more) == Unsigned(t) + more && ';' in Unsigned(t)
  {
    assert (t + more)[1..] == t[1..] + more;
    assert t == [t[0]] + t[1..];
  }

  /** Text that may be followed by a pair ends, up to spaces, where a pair ends. */
  lemma {:induction false} PairEnds(before: string, k: nat)
    requires PairStart(before) && k < |before| && before[k] != ' '
    ensures ';' in before[k..]
  {
    var n := |before| - 1;
    if before[n] == ';' {
      assert before[k..][n - k] == ';';
    } else {
      PairEnds(before[..n], k);
      assert before[..n][k..] == before[k..][..n - k];
    }
  }

  /** After text that holds the key, what is read does not depend on the session pair. */
  lemma InnerKeyDecides(before: string, more: string, ulongMax: nat)
    requires PairStart(before) && FindKey(before, 0).Some?
    ensures CookieId(before + more, ulongMax) == CookieId(before, ulongMax)
  {
    var p := FindKey(before, 0).value;
    FirstKeyStays(before, more);
    SemicolonAfterKey(before, p);
    assert (before + more)[p + 8..] == before[p + 8..] + more;
    IdStops(before[p + 8..], more, ulongMax);
  }

  lemma SemicolonAfterKey(before: string, p: nat)
    requires PairStart(before) && KeyAt(before, p)
    ensures ';' in before[p + 8..]
  {
    KeyChars(before, p);
    PairEnds(before, p + 7);
    assert before[p + 7..] == [before[p + 7]] + before[p + 8..];
  }

  lemma IdStops(field: string, more: string, ulongMax: nat)
    requires ';' in field
    ensures IdIn(field + more, ulongMax) == IdIn(field, ulongMax)
  {
    ScanStops(field, more);
    SameRead(Scan(field + more), Scan(field), ulongMax);
  }

  lemma SameRead(w: Written, v: Written, ulongMax: nat)
    requires w.negative == v.negative && w.digits == v.digits
    requires forall c :: c in w.digits ==> Decimal.IsDigit(c)
    ensures StrToUl(w, ulongMax) == StrToUl(v, ulongMax)
  {}

  lemma FirstKeyStays(before: string, more: string)
    requires FindKey(before, 0).Some?
    ensures FindKey(before + more, 0) == FindKey(before, 0)
  {
    var p := FindKey(before, 0).value;
    KeyBefore(before, more, p);
    forall k: nat | k < p ensures !KeyAt(before + more, k) {
      KeyBefore(before, more, k);
    }
  }

  /** Acceptance is exact: behind given cookies every well-formed session cookie with an id in range
      is accepted as that id if and only if those cookies do not contain the key. */
  lemma WellFormedAccepted(before: string, ulongMax: nat)
    requires UINT32_MAX <= ulongMax && PairStart(before)
    ensures ReadsBack(before, ulongMax) <==> FindKey(before, 0).None?
  {
    if FindKey(before, 0).None? {
      forall digits, rest | Tail(digits, rest) && Decimal.Value(digits) <= UINT32_MAX
        ensures CookieId(before + (COOKIE_KEY + (digits + rest)), ulongMax) == Some(Decimal.Value(digits))
      {
        SplitFound(before + (COOKIE_KEY + (digits + rest)), before, digits, rest);
      }
    } else {
      KeyAheadFails(before, ulongMax);
    }
  }

  lemma KeyAheadFails(before: string, ulongMax: nat)
    requires PairStart(before) && FindKey(before, 0).Some?
    ensures !ReadsBack(before, ulongMax)
  {
    var a, b := Decimal.Print(0), Decimal.Print(1);
    Decimal.PrintValue(0);
    Decimal.PrintValue(1);
    InnerKeyDecides(before, COOKIE_KEY + (a + ""), ulongMax);
    InnerKeyDecides(before, COOKIE_KEY + (b + ""), ulongMax);
    assert Tail(a, "") && Tail(b, "");
  }

  /** A well-formed session cookie behind a cookie whose name ends in the key, as in
      "mysession=1; session=5": the other cookie's number is taken for the id. */
  lemma ShadowedByInnerKey(other: uint32, id: uint32, ulongMax: nat)
    requires UINT32_MAX <= ulongMax
    ensures
      var value := "my" + (CookieText(other) + ("; " + CookieText(id)));
      CookieId(value, ulongMax) == Some(other) && WellFormed(value, id)
  {
    NoKeyInMy();
    CookieRoundTrip(other, "my", "; " + CookieText(id), ulongMax);
    PairAfter("my" + CookieText(other));
    PrintedIsWellFormed("my" + CookieText(other) + "; ", id);
    Regroup("my", CookieText(other), "; ", CookieText(id));
  }

  lemma NoKeyInMy()
    ensures FindKey("my", 0).None?
  {}

  lemma PrintedIsWellFormed(before: string, id: uint32)
    requires PairStart(before)
    ensures WellFormed(before + CookieText(id), id)
  {
    var digits := Decimal.Print(id);
    Decimal.PrintValue(id);
    assert digits + "" == digits;
    assert Splits(before + CookieText(id), before, digits, "");
  }

  lemma Regroup(a: string, b: string, c: string, d: string)
    ensures a + (b + (c + d)) == a + b + c + d
  {}

  lemma PairAfter(s: string)
    ensures PairStart(s + "; ")
  {
    assert (s + "; ")[..|s| + 1] == s + ";";
  }

  /** Text stuck to the digits is ignored. */
  lemma TrailingTextAccepted(ulongMax: nat)
    requires UINT32_MAX <= ulongMax
    ensures CookieId("session=5abc", ulongMax) == Some(5)
    ensures !WellFormed("session=5abc", 5)
  {
    var field := "5" + "abc";
    assert "session=5abc" == "" + (COOKIE_KEY + field);
    FindAfter("", field);
    AfterKey("", field);
    Five("abc");
    OnlyFirst("session=5abc", 0);
    AcceptsWellFormed("session=5abc", ulongMax);
  }

  /** A key that ends another cookie's name is taken for the session's. */
  lemma InnerKeyAccepted(ulongMax: nat)
    requires UINT32_MAX <= ulongMax
    ensures CookieId("mysession=5", ulongMax) == Some(5)
    ensures !WellFormed("mysession=5", 5)
  {
    var field := "5" + "";
    assert "mysession=5" == "my" + (COOKIE_KEY + field);
    FindAfter("my", field);
    AfterKey("my", field);
    Five("");
    assert "mysession=5"[..2] == "my";
    OnlyFirst("mysession=5", 2);
    AcceptsWellFormed("mysession=5", ulongMax);
  }

  /** White space and a sign are skipped. */
  lemma PaddingAccepted(ulongMax: nat)
    requires UINT32_MAX <= ulongMax
    ensures CookieId("session= +5", ulongMax) == Some(5)
    ensures !WellFormed("session= +5", 5)
  {
    var field := " +5";
    assert "session= +5" == "" + (COOKIE_KEY + field);
    FindAfter("", field);
    AfterKey("", field);
    PaddedFive();
    OnlyFirst("session= +5", 0);
    AcceptsWellFormed("session= +5", ulongMax);
  }

  /** A value too short to hold a second key is well formed at the first one or not at all. */
  lemma OnlyFirst(value: string, p: nat)
    requires FindKey(value, 0) == Some(p) && |value| < p + 16
    ensures forall id :: WellFormed(value, id) ==> FirstWellFormed(value, id)
  {
    forall id | WellFormed(value, id) ensures FirstWellFormed(value, id) {
      var before, digits, rest :| Splits(value, before, digits, rest) && Decimal.Value(digits) == id;
      KeyThere(before, digits + rest);
      if p < |before| {
        if |before| < p + 8 {
          NoOverlap(value, p, |before|);
        }
      }
      assert |before| == p && before == value[..p];
      SplitAtKey(value);
    }
  }

  lemma PaddedFive()
    ensures Scan(" +5") == Written(false, "5", "") && Decimal.Value("5") == 5
  {
    Five("");
    assert " +5"[1..] == "+5" && "+5"[1..] == "5" + "";
    NoSpace("+5");
  }

  lemma Five(rest: string)
    requires rest == "" || !Decimal.IsDigit(rest[0])
    ensures Scan("5" + rest) == Written(false, "5", rest) && Decimal.Value("5") == 5
  {
    ScanDigits("5", rest);
    assert "5"[..0] == "";
  }
}
