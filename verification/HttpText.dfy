/** The texts the HTTP transport reads and writes: header names, request paths and the session
    cookie. Strings are C strings without their terminating NUL. */
module HttpText {
  import opened Common
  import Decimal
  import opened Strtoul

  // Header names.

  function LowerChar(c: char): char {
    if 'A' <= c <= 'Z' then ((c as int) + ('a' as int - 'A' as int)) as char else c
  }

  function Lower(s: string): string {
    seq(|s|, i requires 0 <= i < |s| => LowerChar(s[i]))
  }

  /** Letters differ in case at most; nothing else is folded. */
  lemma LowerFolds(a: char, b: char)
    ensures LowerChar(a) == LowerChar(b)
            <==> a == b
                 || ('A' <= a <= 'Z' && b as int == a as int + 32)
                 || ('A' <= b <= 'Z' && a as int == b as int + 32)
  {}

  method StrIeq(a: string, b: string) returns (eq: bool)
    ensures eq <==> Lower(a) == Lower(b)
  {
    var i := 0;
    while i < |a| && i < |b|
      invariant 0 <= i <= |a| && i <= |b|
      invariant forall k :: 0 <= k < i ==> Lower(a)[k] == Lower(b)[k]
    {
      if LowerChar(a[i]) != LowerChar(b[i]) {
        assert Lower(a)[i] != Lower(b)[i];
        return false;
      }
      i := i + 1;
    }
    eq := i == |a| && i == |b|;
    if Lower(a) == Lower(b) {
      assert |Lower(a)| == |Lower(b)|;
    }
  }

  // Request paths.

  const EP_NAME_MAX := 16

  predicate NoNul(s: string) {
    forall i :: 0 <= i < |s| ==> s[i] != '\0'
  }

  /** The string a buffer holds, up to its first NUL. */
  function CString(buf: string): string {
    if buf == [] || buf[0] == '\0' then "" else [buf[0]] + CString(buf[1..])
  }

  lemma {:induction false} CStringOf(s: string, buf: string)
    requires NoNul(s) && |s| < |buf| && buf[..|s|] == s && buf[|s|] == '\0'
    ensures CString(buf) == s
  {
    if s != [] {
      assert buf[0] == buf[..|s|][0] == s[0];
      assert buf[1..][..|s| - 1] == buf[..|s|][1..] == s[1..];
      CStringOf(s[1..], buf[1..]);
      assert s == [s[0]] + s[1..];
    }
  }

  /** The path without one leading slash. */
  function Unslashed(url: string): string {
    if url != "" && url[0] == '/' then url[1..] else url
  }

  /** The length of the part before the query. */
  function PathLength(p: string): (n: nat)
    ensures n <= |p| && '?' !in p[..n]
    ensures n < |p| ==> p[n] == '?'
  {
    if p == "" || p[0] == '?' then 0
    else
      var n := 1 + PathLength(p[1..]);
      assert p[..n] == [p[0]] + p[1..][..n - 1];
      n
  }

  /** The endpoint named by a request path, for a buffer of the given size. */
  function EpName(url: string, cap: nat): string {
    var p := Unslashed(url);
    if PathLength(p) < cap then p[..PathLength(p)] else ""
  }

  method EpNameFromUrl(url: string, out: array<char>)
    requires out.Length > 0 && NoNul(url)
    modifies out
    ensures CString(out[..]) == EpName(url, out.Length)
  {
    var p := if |url| > 0 && url[0] == '/' then url[1..] else url;
    ghost var n := PathLength(p);
    var i := 0;
    while i < |p| && p[i] != '?'
      invariant 0 <= i <= n && i < out.Length
      invariant out[..i] == p[..i]
    {
      assert i < n;
      if i >= out.Length - 1 {
        out[0] := '\0';
        return;
      }
      out[i] := p[i];
      i := i + 1;
    }
    assert i == n;
    out[i] := '\0';
    assert out[..][..i] == p[..i];
    CStringOf(p[..i], out[..]);
  }

  lemma {:induction false} PathOf(name: string, rest: string)
    requires '?' !in name && (rest == "" || rest[0] == '?')
    ensures PathLength(name + rest) == |name|
  {
    if name == "" {
      assert name + rest == rest;
    } else {
      assert name[0] in name;
      assert (name + rest)[1..] == name[1..] + rest;
      PathOf(name[1..], rest);
    }
  }

  /** The URL of a name, with or without a query, leads back to the name exactly when the name
      has no question mark and fits the buffer. */
  lemma RouteRoundTrip(name: string, query: string)
    ensures EpName("/" + name, EP_NAME_MAX) == name <==> '?' !in name && |name| <= 15
    ensures '?' !in name && |name| <= 15 ==> EpName("/" + name + "?" + query, EP_NAME_MAX) == name
  {
    assert Unslashed("/" + name) == name;
    if '?' !in name {
      assert name + "" == name;
      PathOf(name, "");
      assert Unslashed("/" + name + "?" + query) == name + ("?" + query);
      PathOf(name, "?" + query);
      assert (name + ("?" + query))[..|name|] == name;
    } else {
      assert '?' !in EpName("/" + name, EP_NAME_MAX);
    }
  }

  /** The paths that lead to an endpoint: its name after at most one slash, whole, before the
      end or a query. A longer path is never cut down to it. */
  lemma RoutesExactly(url: string, name: string)
    requires name != "" && |name| <= 15 && '?' !in name && name[0] != '/'
    ensures EpName(url, EP_NAME_MAX) == name
            <==> exists rest :: (rest == "" || rest[0] == '?') && (url == name + rest || url == "/" + name + rest)
  {
    if EpName(url, EP_NAME_MAX) == name {
      RouteShape(url, name);
    }
    forall rest | (rest == "" || rest[0] == '?') && (url == name + rest || url == "/" + name + rest)
      ensures EpName(url, EP_NAME_MAX) == name
    {
      RouteTaken(url, name, rest);
    }
  }

  lemma RouteShape(url: string, name: string)
    requires name != "" && EpName(url, EP_NAME_MAX) == name
    ensures exists rest :: (rest == "" || rest[0] == '?') && (url == name + rest || url == "/" + name + rest)
  {
    var p := Unslashed(url);
    var rest := p[PathLength(p)..];
    assert p == name + rest;
    assert url == p || url == "/" + p;
    assert "/" + (name + rest) == "/" + name + rest;
  }

  lemma RouteTaken(url: string, name: string, rest: string)
    requires name != "" && |name| <= 15 && '?' !in name && name[0] != '/'
    requires (rest == "" || rest[0] == '?') && (url == name + rest || url == "/" + name + rest)
    ensures EpName(url, EP_NAME_MAX) == name
  {
    assert Unslashed(url) == name + rest;
    PathOf(name, rest);
    assert (name + rest)[..|name|] == name;
  }

  // The session cookie.

  const COOKIE_KEY := "session="

  predicate KeyAt(s: string, i: nat) {
    i + 8 <= |s| && s[i..i + 8] == COOKIE_KEY
  }

  /** strstr(s, "session="), searching from i. */
  function FindKey(s: string, i: nat): (r: Option<nat>)
    ensures r.Some? ==> i <= r.value && KeyAt(s, r.value) && forall k: nat :: i <= k < r.value ==> !KeyAt(s, k)
    ensures r.None? ==> forall k: nat :: i <= k ==> !KeyAt(s, k)
    decreases |s| - i
  {
    if i >= |s| then None
    else if KeyAt(s, i) then Some(i)
    else FindKey(s, i + 1)
  }

  /** The id in the text after "session=". */
  function IdIn(field: string, ulongMax: nat): (r: Option<uint32>) {
    var w := Scan(field);
    if w.digits == "" || StrToUl(w, ulongMax) > UINT32_MAX then None else Some(StrToUl(w, ulongMax))
  }

  function CookieId(value: string, ulongMax: nat): Option<uint32> {
    var p := FindKey(value, 0);
    if p.None? then None else IdIn(value[p.value + 8..], ulongMax)
  }

  /** A captured header; the server may leave either pointer NULL. */
  datatype Header = Header(name: Option<string>, value: Option<string>)

  predicate IsCookie(h: Header) {
    h.name.Some? && h.value.Some? && Lower(h.name.value) == Lower("Cookie")
  }

  /** Only the first cookie header counts. headers is None unless capture succeeded. */
  function CookieIn(headers: Option<seq<Header>>, ulongMax: nat): Option<uint32>
    decreases if headers.Some? then |headers.value| else 0
  {
    if headers.None? || headers.value == [] then None
    else if IsCookie(headers.value[0]) then CookieId(headers.value[0].value.value, ulongMax)
    else CookieIn(Some(headers.value[1..]), ulongMax)
  }

  /** The result is that of the first header that is a cookie, whatever stands before and behind it;
      without one, or without captured headers, there is none. */
  lemma {:induction false} FirstCookieCounts(hs: seq<Header>, i: nat, ulongMax: nat)
    requires i <= |hs| && (forall k :: 0 <= k < i ==> !IsCookie(hs[k])) && (i < |hs| ==> IsCookie(hs[i]))
    ensures CookieIn(Some(hs), ulongMax) == if i < |hs| then CookieId(hs[i].value.value, ulongMax) else None
    ensures CookieIn(None, ulongMax) == None
  {
    if i > 0 {
      assert hs[1..][..i - 1] == hs[1..i];
      FirstCookieCounts(hs[1..], i - 1, ulongMax);
    }
  }

  method GetCookieSession(headers: Option<seq<Header>>, ulongMax: nat) returns (id: Option<uint32>)
    ensures id == CookieIn(headers, ulongMax)
  {
    if headers.None? {
      return None;
    }
    var hs := headers.value;
    assert hs == hs[0..];
    for i := 0 to |hs|
      invariant CookieIn(Some(hs), ulongMax) == CookieIn(Some(hs[i..]), ulongMax)
    {
      assert hs[i..][0] == hs[i] && hs[i..][1..] == hs[i + 1..];
      if hs[i].name.None? || hs[i].value.None? {
        continue;
      }
      var isCookie := StrIeq(hs[i].name.value, "Cookie");
      if !isCookie {
        continue;
      }
      var p := FindKey(hs[i].value.value, 0);
      if p.None? {
        return None;
      }
      var w := Scan(hs[i].value.value[p.value + 8..]);
      var v := StrToUl(w, ulongMax);
      if w.digits == "" || v > UINT32_MAX {
        return None;
      }
      return Some(v);
    }
    id := None;
  }

  /** The cookie the transport sets. */
  function CookieText(id: uint32): string {
    COOKIE_KEY + Decimal.Print(id)
  }

  const COOKIE_SIZE := 24

  lemma CookieFits(id: uint32)
    ensures |CookieText(id)| < COOKIE_SIZE
  {
    assert Decimal.Pow10(10) == 10 * Decimal.Pow10(9) && Decimal.Pow10(9) == 10 * Decimal.Pow10(8);
    assert Decimal.Pow10(8) == 10 * Decimal.Pow10(7) && Decimal.Pow10(7) == 10 * Decimal.Pow10(6);
    assert Decimal.Pow10(6) == 1000000;
    Decimal.PrintLength(id, 10);
  }

  /** No key ends inside another one, so the text before the key cannot supply part of it. */
  lemma FindAfter(before: string, rest: string)
    requires FindKey(before, 0).None?
    ensures FindKey(before + (COOKIE_KEY + rest), 0) == Some(|before|)
  {
    var s := before + (COOKIE_KEY + rest);
    KeyThere(before, rest);
    forall k: nat | k < |before| ensures !KeyAt(s, k) {
      if k + 8 <= |before| {
        KeyBefore(before, COOKIE_KEY + rest, k);
      } else if KeyAt(s, k) {
        NoOverlap(s, k, |before|);
      }
    }
  }

  lemma KeyThere(before: string, rest: string)
    ensures KeyAt(before + (COOKIE_KEY + rest), |before|)
  {
    var s := before + (COOKIE_KEY + rest);
    assert s[|before|..] == COOKIE_KEY + rest;
    assert s[|before|..|before| + 8] == s[|before|..][..8];
  }

  lemma KeyBefore(before: string, rest: string, k: nat)
    requires k + 8 <= |before|
    ensures KeyAt(before + rest, k) == KeyAt(before, k)
  {
    assert (before + rest)[k..k + 8] == before[k..k + 8];
  }

  lemma NoOverlap(s: string, i: nat, j: nat)
    requires i < j < i + 8 && KeyAt(s, i)
    ensures !KeyAt(s, j)
  {
    KeyChars(s, i);
    KeyChars(s, j);
  }

  lemma KeyChars(s: string, i: nat)
    ensures KeyAt(s, i) ==> s[i] == 's' && s[i + 1] == 'e' && s[i + 2] == 's' && s[i + 3] == 's'
    ensures KeyAt(s, i) ==> s[i + 4] == 'i' && s[i + 5] == 'o' && s[i + 6] == 'n' && s[i + 7] == '='
  {
    if KeyAt(s, i) {
      var key := s[i..i + 8];
      assert key[0] == s[i] && key[1] == s[i + 1] && key[2] == s[i + 2] && key[3] == s[i + 3];
      assert key[4] == s[i + 4] && key[5] == s[i + 5] && key[6] == s[i + 6] && key[7] == s[i + 7];
    }
  }

  /** Round trip: every id printed into a cookie is parsed back to itself, also among other
      cookies, for any width of unsigned long that holds an id. */
  lemma CookieRoundTrip(id: uint32, before: string, rest: string, ulongMax: nat)
    requires UINT32_MAX <= ulongMax
    requires FindKey(before, 0).None? && (rest == "" || !Decimal.IsDigit(rest[0]))
    ensures CookieId(before + (CookieText(id) + rest), ulongMax) == Some(id)
  {
    var field := Decimal.Print(id) + rest;
    assert CookieText(id) + rest == COOKIE_KEY + field;
    FindAfter(before, field);
    AfterKey(before, field);
    FieldRoundTrip(id, rest, ulongMax);
  }

  lemma AfterKey(before: string, field: string)
    ensures (before + (COOKIE_KEY + field))[|before| + 8..] == field
  {
    assert (before + (COOKIE_KEY + field))[|before|..] == COOKIE_KEY + field;
  }

  lemma FieldRoundTrip(id: uint32, rest: string, ulongMax: nat)
    requires UINT32_MAX <= ulongMax && (rest == "" || !Decimal.IsDigit(rest[0]))
    ensures IdIn(Decimal.Print(id) + rest, ulongMax) == Some(id)
  {
    ScanDigits(Decimal.Print(id), rest);
    Decimal.PrintValue(id);
  }

  /** The numbers strtoul saturates or wraps into the range of an id. */
  predicate Aliases(w: Written, ulongMax: nat)
    requires forall c :: c in w.digits ==> Decimal.IsDigit(c)
  {
    var value := Decimal.Value(w.digits);
    if value > ulongMax then ulongMax == UINT32_MAX
    else w.negative && value > ulongMax - UINT32_MAX
  }

  /** How the number after the key is read, whatever pads or follows it: the id is the integer
      written there exactly when it does not saturate or wrap into the range of an id. */
  lemma AcceptsAsWritten(field: string, ulongMax: nat)
    requires UINT32_MAX <= ulongMax
    ensures (IdIn(field, ulongMax).Some? ==> IdIn(field, ulongMax).value == Meant(Scan(field)))
            <==> !Aliases(Scan(field), ulongMax)
  {
    NoDigits();
  }

  /** Digits alone are never taken for another id exactly when unsigned long is wider than an id. */
  lemma DigitsNeverAlias(ulongMax: nat)
    requires UINT32_MAX <= ulongMax
    ensures (forall digits :: digits != "" && (forall c :: c in digits ==> Decimal.IsDigit(c)) ==>
              (IdIn(digits, ulongMax) == if Decimal.Value(digits) <= UINT32_MAX then Some(Decimal.Value(digits)) else None))
            <==> UINT32_MAX < ulongMax
  {
    forall digits | digits != "" && forall c :: c in digits ==> Decimal.IsDigit(c)
      ensures Scan(digits) == Written(false, digits, "")
    {
      assert digits + "" == digits;
      ScanDigits(digits, "");
    }
    if ulongMax == UINT32_MAX {
      var digits := Decimal.Print(UINT32_MAX + 1);
      Decimal.PrintValue(UINT32_MAX + 1);
      assert IdIn(digits, ulongMax) == Some(UINT32_MAX);
    }
  }

  /** With a 64-bit unsigned long a large negative number still wraps onto an id. */
  lemma NegativeAliases()
    ensures IdIn("-" + Decimal.Print(0xFFFF_FFFF_FFFF_FFFB), 0xFFFF_FFFF_FFFF_FFFF) == Some(5)
  {
    var digits := Decimal.Print(0xFFFF_FFFF_FFFF_FFFB);
    Decimal.PrintValue(0xFFFF_FFFF_FFFF_FFFB);
    assert digits + "" == digits;
    ScanDigits(digits, "");
  }
}
