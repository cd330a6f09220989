/** JSON texts made of objects, arrays, strings without escapes (section 7 of RFC 8259, over
    bytes) and unsigned numbers: printing and parsing. */
module Json {
  import opened Common
  import Decimal

  datatype Value =
    | Str(text: string)
    | Num(n: nat)
    | Arr(items: seq<Value>)
    | Obj(members: seq<Member>)

  datatype Member = Member(key: string, value: Value)

  /** Characters a string literal may hold unescaped. */
  predicate PlainChar(c: char) {
    c >= ' ' && c != '"' && c != '\\'
  }

  predicate Plain(s: string) {
    forall i :: 0 <= i < |s| ==> PlainChar(s[i])
  }

  predicate WellFormed(v: Value)
    decreases v, 1
  {
    match v
    case Str(text) => Plain(text)
    case Num(_) => true
    case Arr(items) => WellFormedItems(items)
    case Obj(members) => WellFormedMembers(members)
  }

  predicate WellFormedItems(items: seq<Value>)
    decreases items, 0
  {
    items == [] || (WellFormed(items[0]) && WellFormedItems(items[1..]))
  }

  predicate WellFormedMembers(members: seq<Member>)
    decreases members, 0
  {
    members == [] ||
    (Plain(members[0].key) && WellFormed(members[0].value) && WellFormedMembers(members[1..]))
  }

  lemma {:induction false} AllMembers(members: seq<Member>)
    requires forall i :: 0 <= i < |members| ==> Plain(members[i].key) && WellFormed(members[i].value)
    ensures WellFormedMembers(members)
  {
    if members != [] {
      AllMembers(members[1..]);
    }
  }

  lemma {:induction false} AllItems(items: seq<Value>)
    requires forall i :: 0 <= i < |items| ==> WellFormed(items[i])
    ensures WellFormedItems(items)
  {
    if items != [] {
      AllItems(items[1..]);
    }
  }

  /** A string literal, then the rest of the text. */
  function QuoteTo(s: string, rest: string): string {
    "\"" + (s + ("\"" + rest))
  }

  /** The text of a value, then the rest of the text. */
  function PrintTo(v: Value, rest: string): string
    decreases v, 1
  {
    match v
    case Str(text) => QuoteTo(text, rest)
    case Num(n) => Decimal.Print(n) + rest
    case Arr(items) => "[" + ItemsTo(items, rest)
    case Obj(members) => "{" + MembersTo(members, rest)
  }

  /** Items, the closing bracket and the rest. */
  function ItemsTo(items: seq<Value>, rest: string): string
    decreases items, 0
  {
    if items == [] then "]" + rest
    else if |items| == 1 then PrintTo(items[0], "]" + rest)
    else PrintTo(items[0], "," + ItemsTo(items[1..], rest))
  }

  /** Members, the closing brace and the rest. */
  function MembersTo(members: seq<Member>, rest: string): string
    decreases members, 0
  {
    if members == [] then "}" + rest
    else
      QuoteTo(members[0].key, ":" + PrintTo(members[0].value,
        if |members| == 1 then "}" + rest else "," + MembersTo(members[1..], rest)))
  }

  function Print(v: Value): string {
    PrintTo(v, "")
  }

  lemma MembersOne(m: Member, rest: string)
    ensures MembersTo([m], rest) == QuoteTo(m.key, ":" + PrintTo(m.value, "}" + rest))
  {
    assert [m][0] == m;
  }

  lemma MembersMore(m: Member, more: seq<Member>, rest: string)
    requires more != []
    ensures MembersTo([m] + more, rest) == QuoteTo(m.key, ":" + PrintTo(m.value, "," + MembersTo(more, rest)))
  {
    assert ([m] + more)[1..] == more;
  }

  /** The characters up to the closing quote, and what follows it. */
  function ReadChars(s: string): (r: Option<(string, string)>)
    ensures r.Some? ==> |r.value.1| < |s|
  {
    if s == [] then None
    else if s[0] == '"' then Some(([], s[1..]))
    else if !PlainChar(s[0]) then None
    else
      var r := ReadChars(s[1..]);
      if r.None? then None else Some(([s[0]] + r.value.0, r.value.1))
  }

  /** A value at the start of the text, and the text after it. */
  function Read(s: string): (r: Option<(Value, string)>)
    ensures r.Some? ==> |r.value.1| < |s|
    decreases |s|, 0
  {
    if s == [] then None
    else if s[0] == '"' then
      var r := ReadChars(s[1..]);
      if r.None? then None else Some((Str(r.value.0), r.value.1))
    else if s[0] == '[' then
      if |s| > 1 && s[1] == ']' then Some((Arr([]), s[2..]))
      else
        var r := ReadItems(s[1..]);
        if r.None? then None else Some((Arr(r.value.0), r.value.1))
    else if s[0] == '{' then
      if |s| > 1 && s[1] == '}' then Some((Obj([]), s[2..]))
      else
        var r := ReadMembers(s[1..]);
        if r.None? then None else Some((Obj(r.value.0), r.value.1))
    else
      var n := Decimal.DigitSpan(s);
      if n == 0 then None else Some((Num(Decimal.Value(s[..n])), s[n..]))
  }

  /** One or more items, separated by commas, and the closing bracket. */
  function ReadItems(s: string): (r: Option<(seq<Value>, string)>)
    ensures r.Some? ==> |r.value.1| < |s|
    decreases |s|, 1
  {
    var v := Read(s);
    if v.None? || v.value.1 == [] then None
    else if v.value.1[0] == ']' then Some(([v.value.0], v.value.1[1..]))
    else if v.value.1[0] != ',' then None
    else
      var more := ReadItems(v.value.1[1..]);
      if more.None? then None else Some(([v.value.0] + more.value.0, more.value.1))
  }

  function ReadMembers(s: string): (r: Option<(seq<Member>, string)>)
    ensures r.Some? ==> |r.value.1| < |s|
    decreases |s|, 1
  {
    if s == [] || s[0] != '"' then None
    else
      var key := ReadChars(s[1..]);
      if key.None? || key.value.1 == [] || key.value.1[0] != ':' then None
      else
        var v := Read(key.value.1[1..]);
        if v.None? || v.value.1 == [] then None
        else
          var m := Member(key.value.0, v.value.0);
          if v.value.1[0] == '}' then Some(([m], v.value.1[1..]))
          else if v.value.1[0] != ',' then None
          else
            var more := ReadMembers(v.value.1[1..]);
            if more.None? then None else Some(([m] + more.value.0, more.value.1))
  }

  /** A whole text that is one value. */
  function Parse(s: string): Option<Value> {
    var r := Read(s);
    if r.Some? && r.value.1 == [] then Some(r.value.0) else None
  }

  lemma {:induction false} ReadCharsBack(text: string, rest: string)
    requires Plain(text)
    ensures ReadChars(text + ("\"" + rest)) == Some((text, rest))
  {
    var s := text + ("\"" + rest);
    if text == [] {
      assert s == "\"" + rest;
      assert s[1..] == rest;
    } else {
      assert s[0] == text[0];
      assert s[1..] == text[1..] + ("\"" + rest);
      ReadCharsBack(text[1..], rest);
      assert [text[0]] + text[1..] == text;
    }
  }

  lemma QuotedBack(text: string, rest: string)
    requires Plain(text)
    ensures QuoteTo(text, rest)[0] == '"'
    ensures ReadChars(QuoteTo(text, rest)[1..]) == Some((text, rest))
  {
    assert QuoteTo(text, rest)[1..] == text + ("\"" + rest);
    ReadCharsBack(text, rest);
  }

  /** A printed value never starts with a closing bracket or brace. */
  lemma PrintStart(v: Value, rest: string)
    ensures PrintTo(v, rest) != [] && PrintTo(v, rest)[0] != ']' && PrintTo(v, rest)[0] != '}'
  {
    match v
    case Num(n) =>
      assert Decimal.Print(n)[0] in Decimal.Print(n);
    case _ =>
  }

  lemma ItemsStart(items: seq<Value>, rest: string)
    requires items != []
    ensures ItemsTo(items, rest) != [] && ItemsTo(items, rest)[0] != ']'
  {
    PrintStart(items[0], if |items| == 1 then "]" + rest else "," + ItemsTo(items[1..], rest));
  }

  /** What may follow a value without being taken for part of it. */
  predicate Stops(rest: string) {
    rest == [] || !Decimal.IsDigit(rest[0])
  }

  lemma NumberBack(n: nat, rest: string)
    requires Stops(rest)
    ensures Read(Decimal.Print(n) + rest) == Some((Num(n), rest))
  {
    var d := Decimal.Print(n);
    var s := d + rest;
    Decimal.SpanOfDigits(d, rest);
    Decimal.PrintValue(n);
    assert d[0] in d;
    assert s[0] == d[0];
    assert s[..|d|] == d && s[|d|..] == rest;
  }

  /** Parser after printer, for every value and whatever follows. */
  lemma {:induction false} ReadBack(v: Value, rest: string)
    requires WellFormed(v) && Stops(rest)
    ensures Read(PrintTo(v, rest)) == Some((v, rest))
    decreases v, 1
  {
    match v
    case Str(text) => QuotedBack(text, rest);
    case Num(n) => NumberBack(n, rest);
    case Arr(items) =>
      assert ("[" + ItemsTo(items, rest))[1..] == ItemsTo(items, rest);
      if items == [] {
        assert ("[" + ("]" + rest))[2..] == rest;
      } else {
        ItemsBack(items, rest);
        ItemsStart(items, rest);
      }
    case Obj(members) =>
      assert ("{" + MembersTo(members, rest))[1..] == MembersTo(members, rest);
      if members == [] {
        assert ("{" + ("}" + rest))[2..] == rest;
      } else {
        MembersBack(members, rest);
      }
  }

  lemma {:induction false} ItemsBack(items: seq<Value>, rest: string)
    requires items != [] && WellFormedItems(items)
    ensures ReadItems(ItemsTo(items, rest)) == Some((items, rest))
    decreases items, 0
  {
    if |items| == 1 {
      ReadBack(items[0], "]" + rest);
      assert ("]" + rest)[1..] == rest;
      assert items == [items[0]];
    } else {
      var tail := ItemsTo(items[1..], rest);
      ReadBack(items[0], "," + tail);
      assert ("," + tail)[1..] == tail;
      ItemsBack(items[1..], rest);
      assert items == [items[0]] + items[1..];
    }
  }

  lemma {:induction false} MembersBack(members: seq<Member>, rest: string)
    requires members != [] && WellFormedMembers(members)
    ensures ReadMembers(MembersTo(members, rest)) == Some((members, rest))
    decreases members, 0
  {
    var m := members[0];
    var tail := if |members| == 1 then "}" + rest else "," + MembersTo(members[1..], rest);
    QuotedBack(m.key, ":" + PrintTo(m.value, tail));
    assert (":" + PrintTo(m.value, tail))[1..] == PrintTo(m.value, tail);
    ReadBack(m.value, tail);
    assert Member(m.key, m.value) == m;
    if |members| == 1 {
      assert tail[1..] == rest;
      assert members == [m];
    } else {
      assert tail[1..] == MembersTo(members[1..], rest);
      MembersBack(members[1..], rest);
      assert members == [m] + members[1..];
    }
  }

  /** Round trip: every well-formed value is recovered from its text. */
  lemma RoundTrip(v: Value)
    requires WellFormed(v)
    ensures Parse(Print(v)) == Some(v)
  {
    ReadBack(v, []);
  }

  // What the parser reads needs no escapes.

  lemma {:induction false} CharsPlain(s: string)
    requires ReadChars(s).Some?
    ensures Plain(ReadChars(s).value.0)
    decreases |s|
  {
    if s[0] != '"' {
      CharsPlain(s[1..]);
    }
  }

  lemma {:induction false} ReadWellFormed(s: string)
    requires Read(s).Some?
    ensures WellFormed(Read(s).value.0)
    decreases |s|, 0
  {
    if s[0] == '"' {
      CharsPlain(s[1..]);
    } else if s[0] == '[' {
      if !(|s| > 1 && s[1] == ']') {
        ItemsWellFormed(s[1..]);
      }
    } else if s[0] == '{' {
      if !(|s| > 1 && s[1] == '}') {
        MembersWellFormed(s[1..]);
      }
    }
  }

  lemma {:induction false} ItemsWellFormed(s: string)
    requires ReadItems(s).Some?
    ensures WellFormedItems(ReadItems(s).value.0)
    decreases |s|, 1
  {
    ReadWellFormed(s);
    var v := Read(s).value;
    if v.1[0] == ',' {
      ItemsWellFormed(v.1[1..]);
      var more := ReadItems(v.1[1..]).value.0;
      assert ([v.0] + more)[1..] == more;
    }
  }

  lemma {:induction false} MembersWellFormed(s: string)
    requires ReadMembers(s).Some?
    ensures WellFormedMembers(ReadMembers(s).value.0)
    decreases |s|, 1
  {
    CharsPlain(s[1..]);
    var key := ReadChars(s[1..]).value;
    ReadWellFormed(key.1[1..]);
    var v := Read(key.1[1..]).value;
    if v.1[0] == ',' {
      MembersWellFormed(v.1[1..]);
      var more := ReadMembers(v.1[1..]).value.0;
      assert ([Member(key.0, v.0)] + more)[1..] == more;
    }
  }

  /** What is parsed could have been printed. */
  lemma ParseWellFormed(s: string)
    requires Parse(s).Some?
    ensures WellFormed(Parse(s).value)
  {
    ReadWellFormed(s);
  }
}
