/** The application section of the proto-ver text, and the text itself. */
module AppInfo {
  import opened Common
  import Json

  /** Buffer sizes, terminating NUL included. */
  const APP_INFO_SIZE := 256
  const VERSION_SIZE := 448

  /** The capabilities of the built-in section, by network type. */
  function NetworkCaps(thread: bool): string {
    if thread then "\"thread_prov\",\"thread_scan\"" else "\"wifi_prov\",\"wifi_scan\""
  }

  /** No character that would end or escape a JSON string literal. */
  predicate TokenOk(s: string) {
    forall i :: 0 <= i < |s| ==> s[i] >= ' ' && s[i] != '"' && s[i] != '\\'
  }

  function Head(appLabel: string, version: string): string {
    "\"" + appLabel + "\":{\"ver\":\"" + version + "\",\"cap\":["
  }

  /** The i-th capability as it is appended. */
  function CapPiece(i: nat, cap: string): string {
    (if i == 0 then "" else ",") + "\"" + cap + "\""
  }

  function CapText(caps: seq<string>): string {
    if caps == [] then ""
    else CapText(caps[..|caps| - 1]) + CapPiece(|caps| - 1, caps[|caps| - 1])
  }

  /** The whole section, with the comma that precedes the built-in one. */
  function Section(appLabel: string, version: string, caps: seq<string>): string {
    Head(appLabel, version) + CapText(caps) + "]},"
  }

  datatype Info = Info(inited: bool, started: bool, section: string)

  /** A pointer to count capability pointers, any of which may be NULL. */
  type Caps = Option<seq<Option<string>>>

  predicate CapsOk(caps: seq<Option<string>>) {
    forall i :: 0 <= i < |caps| ==> caps[i].Some? && TokenOk(caps[i].value)
  }

  function Values(caps: seq<Option<string>>): seq<string>
    requires CapsOk(caps)
  {
    seq(|caps|, i requires 0 <= i < |caps| => caps[i].value)
  }

  /** A NULL array stands for no capabilities. */
  function Given(caps: Caps): seq<Option<string>> {
    if caps.None? then [] else caps.value
  }

  /** The arguments pass validation. */
  predicate Acceptable(appLabel: Option<string>, version: Option<string>, caps: Caps, count: nat) {
    && appLabel.Some? && appLabel.value != "" && version.Some?
    && (count > 0 ==> caps.Some?)
    && TokenOk(appLabel.value) && TokenOk(version.value) && CapsOk(Given(caps))
  }

  function SetInfo(a: Info, appLabel: Option<string>, version: Option<string>, caps: Caps, count: nat): (Info, Status) {
    if appLabel.None? || appLabel.value == "" || version.None? || (count > 0 && caps.None?) then (a, Err(EINVAL))
    else if !a.inited || a.started then (a, Err(EPERM))
    else if !Acceptable(appLabel, version, caps, count) then (a, Err(EINVAL))
    else
      var section := Section(appLabel.value, version.value, Values(Given(caps)));
      if |section| < APP_INFO_SIZE then (a.(section := section), Ok(()))
      else (a.(section := ""), Err(ENOMEM))
  }

  function Tail(secVer: nat, noPop: bool, thread: bool): string {
    "\"prov\":{\"ver\":\"v1.1\",\"sec_ver\":" + (if secVer == 1 then "1" else "0") +
    ",\"cap\":[" + NetworkCaps(thread) + (if noPop then ",\"no_pop\"" else "") + "]}}"
  }

  function VersionText(section: string, secVer: nat, noPop: bool, thread: bool): string {
    "{" + section + Tail(secVer, noPop, thread)
  }

  /** What snprintf leaves in a buffer of the given size. */
  function Truncated(text: string, size: nat): string
    requires size > 0
  {
    if |text| < size then text else text[..size - 1]
  }

  /** The text of any section that was rendered always fits its buffer. */
  lemma VersionFits(section: string, secVer: nat, noPop: bool, thread: bool)
    requires |section| < APP_INFO_SIZE
    ensures |VersionText(section, secVer, noPop, thread)| < VERSION_SIZE
    ensures Truncated(VersionText(section, secVer, noPop, thread), VERSION_SIZE)
            == VersionText(section, secVer, noPop, thread)
  {}

  // The text as a JSON value.

  function Strings(caps: seq<string>): seq<Json.Value> {
    seq(|caps|, i requires 0 <= i < |caps| => Json.Str(caps[i]))
  }

  function AppMember(appLabel: string, version: string, caps: seq<string>): Json.Member {
    Json.Member(appLabel, Json.Obj([Json.Member("ver", Json.Str(version)),
                                 Json.Member("cap", Json.Arr(Strings(caps)))]))
  }

  function BuiltinCaps(noPop: bool, thread: bool): seq<string> {
    (if thread then ["thread_prov", "thread_scan"] else ["wifi_prov", "wifi_scan"]) +
    (if noPop then ["no_pop"] else [])
  }

  function ProvMember(secVer: nat, noPop: bool, thread: bool): Json.Member {
    Json.Member("prov", Json.Obj([Json.Member("ver", Json.Str("v1.1")),
                                  Json.Member("sec_ver", Json.Num(if secVer == 1 then 1 else 0)),
                                  Json.Member("cap", Json.Arr(Strings(BuiltinCaps(noPop, thread))))]))
  }

  lemma Assoc(a: string, b: string, c: string)
    ensures (a + b) + c == a + (b + c)
  {}

  /** Capabilities from the i-th on, as CapText appends them, then the rest. */
  function CapsFrom(caps: seq<string>, i: nat, rest: string): string
    requires i <= |caps|
    decreases |caps| - i
  {
    if i == |caps| then rest else CapPiece(i, caps[i]) + CapsFrom(caps, i + 1, rest)
  }

  lemma {:induction false} CapsFromStart(caps: seq<string>, i: nat, rest: string)
    requires i <= |caps|
    ensures CapText(caps[..i]) + CapsFrom(caps, i, rest) == CapText(caps) + rest
    decreases |caps| - i
  {
    if i == |caps| {
      assert caps[..i] == caps;
    } else {
      CapsFromStart(caps, i + 1, rest);
      assert caps[..i + 1][..i] == caps[..i];
      Assoc(CapText(caps[..i]), CapPiece(i, caps[i]), CapsFrom(caps, i + 1, rest));
    }
  }

  lemma PieceText(i: nat, cap: string, rest: string)
    ensures CapPiece(i, cap) + rest == (if i == 0 then "" else ",") + Json.QuoteTo(cap, rest)
  {}

  lemma {:induction false} CapsFromPrints(caps: seq<string>, i: nat, rest: string)
    requires i < |caps|
    ensures CapsFrom(caps, i, "]" + rest)
            == (if i == 0 then "" else ",") + Json.ItemsTo(Strings(caps)[i..], rest)
    decreases |caps| - i
  {
    var items := Strings(caps)[i..];
    assert items[0] == Json.Str(caps[i]);
    PieceText(i, caps[i], CapsFrom(caps, i + 1, "]" + rest));
    if i + 1 < |caps| {
      CapsFromPrints(caps, i + 1, rest);
      assert items[1..] == Strings(caps)[i + 1..];
    }
  }

  /** The comma-separated capability list, closed, is the printed JSON array. */
  lemma CapTextPrints(caps: seq<string>, rest: string)
    ensures CapText(caps) + ("]" + rest) == Json.ItemsTo(Strings(caps), rest)
  {
    CapsFromStart(caps, 0, "]" + rest);
    assert caps[..0] == [];
    if caps != [] {
      CapsFromPrints(caps, 0, rest);
      assert Strings(caps)[0..] == Strings(caps);
    }
  }

  // The literal pieces of the format strings, spelled out before any rest.

  lemma OpenVer(x: string)
    ensures "\":{\"ver\":\"" + x == "\"" + (":" + ("{" + Json.QuoteTo("ver", ":" + ("\"" + x))))
  {}

  lemma OpenCap(x: string)
    ensures "\",\"cap\":[" + x == "\"" + ("," + Json.QuoteTo("cap", ":" + ("[" + x)))
  {}

  lemma CloseSection(x: string)
    ensures "]}," + x == "]" + ("}" + ("," + x))
  {}

  lemma Nest(a: string, b: string, c: string, d: string, e: string, x: string)
    ensures (a + b + c + d + e) + x == a + (b + (c + (d + (e + x))))
  {
    Assoc(a + b + c + d, e, x);
    Assoc(a + b + c, d, e + x);
    Assoc(a + b, c, d + (e + x));
    Assoc(a, b, c + (d + (e + x)));
  }

  /** The section before any rest is its member printed before a comma and the rest. */
  lemma SectionPrints(appLabel: string, version: string, caps: seq<string>, rest: string)
    ensures Section(appLabel, version, caps) + rest
            == Json.QuoteTo(appLabel, ":" + Json.PrintTo(AppMember(appLabel, version, caps).value, "," + rest))
  {
    var after := "}" + ("," + rest);
    var capsText := Json.ItemsTo(Strings(caps), after);
    Assoc(Head(appLabel, version) + CapText(caps), "]},", rest);
    Assoc(Head(appLabel, version), CapText(caps), "]}," + rest);
    CloseSection(rest);
    CapTextPrints(caps, after);
    Nest("\"", appLabel, "\":{\"ver\":\"", version, "\",\"cap\":[", capsText);
    OpenCap(capsText);
    OpenVer(version + ("\"" + ("," + Json.QuoteTo("cap", ":" + ("[" + capsText)))));
    AppMemberText(appLabel, version, caps, "," + rest);
  }

  lemma AppMemberText(appLabel: string, version: string, caps: seq<string>, rest: string)
    ensures Json.PrintTo(AppMember(appLabel, version, caps).value, rest)
            == "{" + Json.QuoteTo("ver", ":" + Json.QuoteTo(version, "," +
                 Json.QuoteTo("cap", ":" + ("[" + Json.ItemsTo(Strings(caps), "}" + rest)))))
  {
    var ver, cap := Json.Member("ver", Json.Str(version)), Json.Member("cap", Json.Arr(Strings(caps)));
    assert [ver, cap] == [ver] + [cap];
    Json.MembersMore(ver, [cap], rest);
    Json.MembersOne(cap, rest);
    assert AppMember(appLabel, version, caps).value == Json.Obj([ver, cap]);
    assert Json.PrintTo(ver.value, "," + Json.MembersTo([cap], rest)) == Json.QuoteTo(version, "," + Json.MembersTo([cap], rest));
    assert Json.PrintTo(cap.value, "}" + rest) == "[" + Json.ItemsTo(Strings(caps), "}" + rest);
  }

  lemma CapTextSnoc(caps: seq<string>, cap: string)
    ensures CapText(caps + [cap]) == CapText(caps) + CapPiece(|caps|, cap)
  {
    assert (caps + [cap])[..|caps|] == caps;
  }

  lemma TwoCaps(a: string, b: string)
    ensures CapText([a, b]) == ("\"" + a + "\"") + (",\"" + b + "\"")
  {
    assert [a, b] == [a] + [b] && [a] == [] + [a];
    CapTextSnoc([], a);
    CapTextSnoc([a], b);
  }

  lemma WifiCapsLiteral()
    ensures ("\"" + "wifi_prov" + "\"") + (",\"" + "wifi_scan" + "\"") == "\"wifi_prov\",\"wifi_scan\""
  {}

  lemma ThreadCapsLiteral()
    ensures ("\"" + "thread_prov" + "\"") + (",\"" + "thread_scan" + "\"") == "\"thread_prov\",\"thread_scan\""
  {}

  lemma NetworkCapsText(thread: bool)
    ensures CapText(BuiltinCaps(false, thread)) == NetworkCaps(thread)
  {
    var caps := BuiltinCaps(false, thread);
    assert caps == [caps[0], caps[1]];
    TwoCaps(caps[0], caps[1]);
    WifiCapsLiteral();
    ThreadCapsLiteral();
  }

  lemma BuiltinCapsText(noPop: bool, thread: bool)
    ensures CapText(BuiltinCaps(noPop, thread)) == NetworkCaps(thread) + if noPop then ",\"no_pop\"" else ""
  {
    NetworkCapsText(thread);
    if noPop {
      CapTextSnoc(BuiltinCaps(false, thread), "no_pop");
      NoPopPiece();
      assert BuiltinCaps(true, thread) == BuiltinCaps(false, thread) + ["no_pop"];
    }
  }

  lemma NoPopPiece()
    ensures CapPiece(2, "no_pop") == ",\"no_pop\""
  {}

  lemma OpenProv(x: string)
    ensures "\"prov\":{\"ver\":\"v1.1\",\"sec_ver\":" + x
            == Json.QuoteTo("prov", ":" + ("{" + Json.QuoteTo("ver", ":" + Json.QuoteTo("v1.1", "," +
                 Json.QuoteTo("sec_ver", ":" + x)))))
  {}

  lemma OpenProvCap(x: string)
    ensures ",\"cap\":[" + x == "," + Json.QuoteTo("cap", ":" + ("[" + x))
  {}

  lemma ProvMemberText(secVer: nat, noPop: bool, thread: bool, rest: string)
    ensures Json.PrintTo(ProvMember(secVer, noPop, thread).value, rest)
            == "{" + Json.QuoteTo("ver", ":" + Json.QuoteTo("v1.1", "," +
                 Json.QuoteTo("sec_ver", ":" + ((if secVer == 1 then "1" else "0") + ("," +
                 Json.QuoteTo("cap", ":" + ("[" + Json.ItemsTo(Strings(BuiltinCaps(noPop, thread)), "}" + rest))))))))
  {
    var a := Json.Member("ver", Json.Str("v1.1"));
    var b := Json.Member("sec_ver", Json.Num(if secVer == 1 then 1 else 0));
    var c := Json.Member("cap", Json.Arr(Strings(BuiltinCaps(noPop, thread))));
    assert [a, b, c] == [a] + [b, c] && [b, c] == [b] + [c];
    Json.MembersMore(a, [b, c], rest);
    Json.MembersMore(b, [c], rest);
    Json.MembersOne(c, rest);
    assert ProvMember(secVer, noPop, thread).value == Json.Obj([a, b, c]);
    SecVerText(secVer, "," + Json.MembersTo([c], rest));
    assert Json.PrintTo(a.value, "," + Json.MembersTo([b, c], rest)) == Json.QuoteTo("v1.1", "," + Json.MembersTo([b, c], rest));
    assert Json.PrintTo(c.value, "}" + rest) == "[" + Json.ItemsTo(Strings(BuiltinCaps(noPop, thread)), "}" + rest);
  }

  lemma SecVerText(secVer: nat, rest: string)
    ensures Json.PrintTo(Json.Num(if secVer == 1 then 1 else 0), rest) == (if secVer == 1 then "1" else "0") + rest
  {}

  /** The built-in tail is its member printed, and the closing brace. */
  lemma TailPrints(secVer: nat, noPop: bool, thread: bool)
    ensures Tail(secVer, noPop, thread)
            == Json.QuoteTo("prov", ":" + Json.PrintTo(ProvMember(secVer, noPop, thread).value, "}"))
  {
    var number := if secVer == 1 then "1" else "0";
    var noPopText := if noPop then ",\"no_pop\"" else "";
    var capsText := CapText(BuiltinCaps(noPop, thread));
    BuiltinCapsText(noPop, thread);
    CapTextPrints(BuiltinCaps(noPop, thread), "}" + "}");
    ProvMemberText(secVer, noPop, thread, "}");
    var open := "\"prov\":{\"ver\":\"v1.1\",\"sec_ver\":";
    TailNest(open, number, ",\"cap\":[", NetworkCaps(thread), noPopText);
    OpenProv(number + (",\"cap\":[" + (capsText + "]}}")));
    OpenProvCap(capsText + "]}}");
    assert "]}}" == "]" + ("}" + "}");
  }

  lemma TailNest(a: string, b: string, c: string, d: string, e: string)
    ensures a + b + c + d + e + "]}}" == a + (b + (c + ((d + e) + "]}}")))
  {
    Assoc(a + b + c, d, e);
    Assoc(a + b + c, d + e, "]}}");
    Assoc(a + b, c, (d + e) + "]}}");
    Assoc(a, b, c + ((d + e) + "]}}"));
  }

  /** The text with an application section, as a value. */
  function VersionValue(appLabel: string, version: string, caps: seq<string>, secVer: nat, noPop: bool, thread: bool): Json.Value {
    Json.Obj([AppMember(appLabel, version, caps), ProvMember(secVer, noPop, thread)])
  }

  lemma VersionPrints(appLabel: string, version: string, caps: seq<string>, secVer: nat, noPop: bool, thread: bool)
    ensures VersionText(Section(appLabel, version, caps), secVer, noPop, thread)
            == Json.Print(VersionValue(appLabel, version, caps, secVer, noPop, thread))
  {
    var app, prov := AppMember(appLabel, version, caps), ProvMember(secVer, noPop, thread);
    var tail := Tail(secVer, noPop, thread);
    Assoc("{", Section(appLabel, version, caps), tail);
    SectionPrints(appLabel, version, caps, tail);
    TailPrints(secVer, noPop, thread);
    assert [app, prov] == [app] + [prov];
    Json.MembersMore(app, [prov], "");
    Json.MembersOne(prov, "");
    assert "}" + "" == "}";
    assert VersionValue(appLabel, version, caps, secVer, noPop, thread) == Json.Obj([app, prov]);
  }

  predicate TokensOk(caps: seq<string>) {
    forall i :: 0 <= i < |caps| ==> TokenOk(caps[i])
  }

  lemma StringsWellFormed(caps: seq<string>)
    requires TokensOk(caps)
    ensures Json.WellFormed(Json.Arr(Strings(caps)))
  {
    forall i | 0 <= i < |caps| ensures Json.WellFormed(Strings(caps)[i]) {
      assert Json.Plain(caps[i]);
    }
    Json.AllItems(Strings(caps));
  }

  lemma BuiltinCapsOk(noPop: bool, thread: bool)
    ensures TokensOk(BuiltinCaps(noPop, thread))
  {
    assert TokenOk("thread_prov") && TokenOk("thread_scan") && TokenOk("wifi_prov")
        && TokenOk("wifi_scan") && TokenOk("no_pop");
  }

  lemma AppWellFormed(appLabel: string, version: string, caps: seq<string>)
    requires TokenOk(version) && TokensOk(caps)
    ensures Json.WellFormed(AppMember(appLabel, version, caps).value)
  {
    StringsWellFormed(caps);
    assert Json.WellFormed(Json.Str(version));
    Json.AllMembers(AppMember(appLabel, version, caps).value.members);
  }

  lemma ProvWellFormed(secVer: nat, noPop: bool, thread: bool)
    ensures Json.WellFormed(ProvMember(secVer, noPop, thread).value)
  {
    BuiltinCapsOk(noPop, thread);
    StringsWellFormed(BuiltinCaps(noPop, thread));
    Json.AllMembers(ProvMember(secVer, noPop, thread).value.members);
  }

  lemma VersionWellFormed(appLabel: string, version: string, caps: seq<string>, secVer: nat, noPop: bool, thread: bool)
    requires TokenOk(appLabel) && TokenOk(version) && TokensOk(caps)
    ensures Json.WellFormed(VersionValue(appLabel, version, caps, secVer, noPop, thread))
  {
    AppWellFormed(appLabel, version, caps);
    ProvWellFormed(secVer, noPop, thread);
    Json.AllMembers(VersionValue(appLabel, version, caps, secVer, noPop, thread).members);
  }

  /** Round trip: a JSON parser recovers every accepted label, version and capability list, and
      the built-in section, from the advertised text. */
  lemma InfoRoundTrip(appLabel: string, version: string, caps: seq<string>, secVer: nat, noPop: bool, thread: bool)
    requires TokenOk(appLabel) && TokenOk(version) && TokensOk(caps)
    ensures Json.Parse(VersionText(Section(appLabel, version, caps), secVer, noPop, thread))
            == Some(VersionValue(appLabel, version, caps, secVer, noPop, thread))
  {
    VersionPrints(appLabel, version, caps, secVer, noPop, thread);
    VersionWellFormed(appLabel, version, caps, secVer, noPop, thread);
    Json.RoundTrip(VersionValue(appLabel, version, caps, secVer, noPop, thread));
  }

  lemma ItemPlain(caps: seq<string>, i: nat)
    requires i < |caps| && Json.WellFormedItems(Strings(caps))
    ensures TokenOk(caps[i])
    decreases i
  {
    var items := Strings(caps);
    if i == 0 {
      assert Json.WellFormed(items[0]) && items[0] == Json.Str(caps[0]);
    } else {
      assert items[1..] == Strings(caps[1..]);
      ItemPlain(caps[1..], i - 1);
    }
  }

  lemma ValueTokens(appLabel: string, version: string, caps: seq<string>, secVer: nat, noPop: bool, thread: bool)
    requires Json.WellFormed(VersionValue(appLabel, version, caps, secVer, noPop, thread))
    ensures TokenOk(appLabel) && TokenOk(version) && TokensOk(caps)
  {
    var members := VersionValue(appLabel, version, caps, secVer, noPop, thread).members;
    assert Json.WellFormedMembers(members) && members[0].key == appLabel;
    assert Json.Plain(appLabel);
    var fields := members[0].value.members;
    assert Json.WellFormed(members[0].value) && Json.WellFormedMembers(fields);
    assert Json.Plain(version) by {
      assert fields[0].value == Json.Str(version) && Json.WellFormed(fields[0].value);
    }
    assert fields[1..][0] == fields[1] && Json.WellFormedMembers(fields[1..]);
    assert Json.WellFormed(fields[1].value);
    forall i | 0 <= i < |caps| ensures TokenOk(caps[i]) {
      ItemPlain(caps, i);
    }
  }

  /** Validation refuses exactly what has to be refused: the tokens pass if and only if a parser
      recovers them from the text. */
  lemma ValidationExact(appLabel: string, version: string, caps: seq<string>, secVer: nat, noPop: bool, thread: bool)
    ensures TokenOk(appLabel) && TokenOk(version) && TokensOk(caps)
            <==> Json.Parse(VersionText(Section(appLabel, version, caps), secVer, noPop, thread))
                 == Some(VersionValue(appLabel, version, caps, secVer, noPop, thread))
  {
    var text := VersionText(Section(appLabel, version, caps), secVer, noPop, thread);
    var value := VersionValue(appLabel, version, caps, secVer, noPop, thread);
    if TokenOk(appLabel) && TokenOk(version) && TokensOk(caps) {
      InfoRoundTrip(appLabel, version, caps, secVer, noPop, thread);
    }
    if Json.Parse(text) == Some(value) {
      Json.ParseWellFormed(text);
      ValueTokens(appLabel, version, caps, secVer, noPop, thread);
    }
  }

  lemma StringsInjective(a: seq<string>, b: seq<string>)
    requires Strings(a) == Strings(b)
    ensures a == b
  {
    assert |a| == |Strings(a)| == |b|;
    forall i | 0 <= i < |a| ensures a[i] == b[i] {
      assert Strings(a)[i] == Strings(b)[i];
    }
  }

  /** Rendering is injective: two accepted sections with one advertised text are one section. */
  lemma InfoInjective(l1: string, v1: string, c1: seq<string>, l2: string, v2: string, c2: seq<string>,
                      secVer: nat, noPop: bool, thread: bool)
    requires TokenOk(l1) && TokenOk(v1) && TokensOk(c1)
    requires TokenOk(l2) && TokenOk(v2) && TokensOk(c2)
    requires VersionText(Section(l1, v1, c1), secVer, noPop, thread) == VersionText(Section(l2, v2, c2), secVer, noPop, thread)
    ensures l1 == l2 && v1 == v2 && c1 == c2
  {
    InfoRoundTrip(l1, v1, c1, secVer, noPop, thread);
    InfoRoundTrip(l2, v2, c2, secVer, noPop, thread);
    var m1, m2 := AppMember(l1, v1, c1), AppMember(l2, v2, c2);
    assert [m1, ProvMember(secVer, noPop, thread)][0] == [m2, ProvMember(secVer, noPop, thread)][0];
    assert m1.value.members[0] == m2.value.members[0] && m1.value.members[1] == m2.value.members[1];
    StringsInjective(c1, c2);
  }

  /** Without an application section the text is the built-in member alone. */
  lemma BareRoundTrip(secVer: nat, noPop: bool, thread: bool)
    ensures Json.Parse(VersionText("", secVer, noPop, thread)) == Some(Json.Obj([ProvMember(secVer, noPop, thread)]))
  {
    var prov := ProvMember(secVer, noPop, thread);
    TailPrints(secVer, noPop, thread);
    Json.MembersOne(prov, "");
    assert "}" + "" == "}";
    assert "{" + "" == "{";
    ProvWellFormed(secVer, noPop, thread);
    Json.AllMembers([prov]);
    Json.RoundTrip(Json.Obj([prov]));
  }

  /** The names of the advertised object are unique, as section 4 of RFC 8259 asks, exactly when
      the application's label is not that of the built-in section: "prov" is accepted too. */
  lemma UniqueNames(appLabel: string, version: string, caps: seq<string>, secVer: nat, noPop: bool, thread: bool)
    ensures
      var ms := VersionValue(appLabel, version, caps, secVer, noPop, thread).members;
      (forall i, j :: 0 <= i < j < |ms| ==> ms[i].key != ms[j].key) <==> appLabel != "prov"
  {
    var ms := VersionValue(appLabel, version, caps, secVer, noPop, thread).members;
    assert ms[0].key == appLabel && ms[1].key == "prov";
  }

  // How long a section is, and what an application achieves by setting it.

  function Characters(caps: seq<string>): nat {
    if caps == [] then 0 else Characters(caps[..|caps| - 1]) + |caps[|caps| - 1]|
  }

  /** Punctuation and keys, the caller's characters, two quotes a capability and the commas. */
  function SectionSize(appLabel: string, version: string, caps: seq<string>): nat {
    23 + |appLabel| + |version| + Characters(caps) + 2 * |caps| + if caps == [] then 0 else |caps| - 1
  }

  lemma {:induction false} CapTextSize(caps: seq<string>)
    ensures |CapText(caps)| == Characters(caps) + 2 * |caps| + if caps == [] then 0 else |caps| - 1
  {
    if caps != [] {
      CapTextSize(caps[..|caps| - 1]);
    }
  }

  lemma SectionHasSize(appLabel: string, version: string, caps: seq<string>)
    ensures |Section(appLabel, version, caps)| == SectionSize(appLabel, version, caps)
  {
    CapTextSize(caps);
  }

  /** What a client that parses the text should find. */
  function Advertised(appLabel: string, version: string, caps: seq<string>, secVer: nat, noPop: bool, thread: bool): Json.Value {
    if SectionSize(appLabel, version, caps) <= 255 then VersionValue(appLabel, version, caps, secVer, noPop, thread)
    else Json.Obj([ProvMember(secVer, noPop, thread)])
  }

  /** A call that passes validation on an initialised, stopped manager succeeds exactly when the
      characters asked for leave room for the punctuation. Then a client parses back exactly what
      was asked for; otherwise it finds the built-in section alone, whatever was set before. */
  lemma RenderOutcome(a: Info, appLabel: Option<string>, version: Option<string>, caps: Caps, count: nat,
                      secVer: nat, noPop: bool, thread: bool)
    requires a.inited && !a.started && Acceptable(appLabel, version, caps, count)
    ensures
      var (a', status) := SetInfo(a, appLabel, version, caps, count);
      var values := Values(Given(caps));
      && status == (if SectionSize(appLabel.value, version.value, values) <= 255 then Ok(()) else Err(ENOMEM))
      && a' == a.(section := a'.section)
      && Json.Parse(VersionText(a'.section, secVer, noPop, thread))
         == Some(Advertised(appLabel.value, version.value, values, secVer, noPop, thread))
  {
    var values := Values(Given(caps));
    SectionHasSize(appLabel.value, version.value, values);
    if SectionSize(appLabel.value, version.value, values) <= 255 {
      InfoRoundTrip(appLabel.value, version.value, values, secVer, noPop, thread);
    } else {
      BareRoundTrip(secVer, noPop, thread);
    }
  }

  /** No pointer is missing and the label is not empty. */
  predicate Supplied(appLabel: Option<string>, version: Option<string>, caps: Caps, count: nat) {
    && appLabel.Some? && |appLabel.value| > 0 && version.Some? && (count > 0 ==> caps.Some?)
    && forall i :: 0 <= i < |Given(caps)| ==> Given(caps)[i].Some?
  }

  /** The capabilities supplied. */
  function Texts(caps: seq<Option<string>>): seq<string>
    requires forall i :: 0 <= i < |caps| ==> caps[i].Some?
  {
    seq(|caps|, i requires 0 <= i < |caps| => caps[i].value)
  }

  /** On an initialised, stopped manager a call is accepted if and only if every pointer is there, the
      label is not empty, the characters fit, and a parser would recover what is asked for. On any
      other manager nothing is accepted, and nothing changes. */
  lemma AcceptsExactly(a: Info, appLabel: Option<string>, version: Option<string>, caps: Caps, count: nat,
                       secVer: nat, noPop: bool, thread: bool)
    ensures
      var (a', status) := SetInfo(a, appLabel, version, caps, count);
      && (status == Ok(()) <==>
           && a.inited && !a.started && Supplied(appLabel, version, caps, count)
           && var (l, v, c) := (appLabel.value, version.value, Texts(Given(caps)));
           && SectionSize(l, v, c) <= 255
           && Json.Parse(VersionText(Section(l, v, c), secVer, noPop, thread))
              == Some(VersionValue(l, v, c, secVer, noPop, thread)))
      && (status != Ok(()) && status != Err(ENOMEM) ==> a' == a)
  {
    if a.inited && !a.started && Supplied(appLabel, version, caps, count) {
      var (l, v, c) := (appLabel.value, version.value, Texts(Given(caps)));
      ValidationExact(l, v, c, secVer, noPop, thread);
      SectionHasSize(l, v, c);
      TokensGiven(Given(caps));
    }
  }

  lemma TokensGiven(caps: seq<Option<string>>)
    requires forall i :: 0 <= i < |caps| ==> caps[i].Some?
    ensures TokensOk(Texts(caps)) <==> CapsOk(caps)
    ensures CapsOk(caps) ==> Values(caps) == Texts(caps)
  {
    if TokensOk(Texts(caps)) {
      forall i | 0 <= i < |caps| ensures TokenOk(caps[i].value) {
        assert TokenOk(Texts(caps)[i]);
      }
    }
  }

  datatype InfoCall = InfoCall(appLabel: Option<string>, version: Option<string>, caps: Caps, count: nat) {
    predicate Valid() {
      Acceptable(appLabel, version, caps, count)
    }
  }

  /** The section after init and these calls. */
  function SetAll(calls: seq<InfoCall>): Info {
    if calls == [] then Info(true, false, "")
    else
      var last := calls[|calls| - 1];
      SetInfo(SetAll(calls[..|calls| - 1]), last.appLabel, last.version, last.caps, last.count).0
  }

  /** The last call that passes validation. */
  function LastValid(calls: seq<InfoCall>): (r: Option<InfoCall>)
    ensures r.Some? ==> r.value.Valid()
  {
    if calls == [] then None
    else if calls[|calls| - 1].Valid() then Some(calls[|calls| - 1])
    else LastValid(calls[..|calls| - 1])
  }

  lemma {:induction false} SetAllOpen(calls: seq<InfoCall>)
    ensures SetAll(calls).inited && !SetAll(calls).started
  {
    if calls != [] {
      SetAllOpen(calls[..|calls| - 1]);
    }
  }

  /** After init and any calls, the text says what the last call that passed validation asked for,
      if it fits; a call that fails validation changes nothing. */
  lemma {:induction false} AdvertisesLast(calls: seq<InfoCall>, secVer: nat, noPop: bool, thread: bool)
    ensures
      var c := LastValid(calls);
      Json.Parse(VersionText(SetAll(calls).section, secVer, noPop, thread))
      == Some(if c.None? then Json.Obj([ProvMember(secVer, noPop, thread)])
              else Advertised(c.value.appLabel.value, c.value.version.value, Values(Given(c.value.caps)), secVer, noPop, thread))
  {
    if calls == [] {
      BareRoundTrip(secVer, noPop, thread);
    } else {
      var last, before := calls[|calls| - 1], calls[..|calls| - 1];
      SetAllOpen(before);
      if last.Valid() {
        RenderOutcome(SetAll(before), last.appLabel, last.version, last.caps, last.count, secVer, noPop, thread);
      } else {
        AdvertisesLast(before, secVer, noPop, thread);
      }
    }
  }

  lemma {:induction false} CapTextGrows(caps: seq<string>, i: nat)
    requires i <= |caps|
    ensures |CapText(caps[..i])| <= |CapText(caps)|
    ensures i < |caps| ==> |CapText(caps[..i])| + |CapPiece(i, caps[i])| <= |CapText(caps)|
    decreases |caps| - i
  {
    if i == |caps| {
      assert caps[..i] == caps;
    } else {
      CapTextGrows(caps, i + 1);
      assert caps[..i + 1][..i] == caps[..i];
    }
  }

  /** The manager's text buffers. */
  class VersionBuilder {
    var inited: bool
    var started: bool
    var appInfo: string
    var versionJson: string

    ghost function State(): Info
      reads this
    {
      Info(inited, started, appInfo)
    }

    /** Every section that is kept was rendered within its buffer. */
    ghost predicate Valid()
      reads this
    {
      |appInfo| < APP_INFO_SIZE
    }

    constructor ()
      ensures Valid() && State() == Info(false, false, "")
    {
      inited, started, appInfo, versionJson := false, false, "", "";
    }

    /** The part of init that forgets the previous cycle's section. */
    method ResetForInit()
      modifies this
      ensures Valid() && State() == Info(true, false, "")
    {
      appInfo := "";
      inited, started := true, false;
    }

    method JsonTokenOk(s: string) returns (ok: bool)
      ensures ok == TokenOk(s)
    {
      var i := 0;
      while i < |s|
        invariant 0 <= i <= |s| && TokenOk(s[..i])
      {
        if s[i] < ' ' || s[i] == '"' || s[i] == '\\' {
          return false;
        }
        i := i + 1;
        assert s[..i] == s[..i - 1] + [s[i - 1]];
      }
      assert s[..i] == s;
      ok := true;
    }

    /** snprintf at the running offset; false if the piece does not fit. */
    method Append(piece: string) returns (ok: bool)
      modifies this`appInfo
      ensures ok == (|old(appInfo)| + |piece| < APP_INFO_SIZE)
      ensures ok ==> appInfo == old(appInfo) + piece
    {
      if |appInfo| + |piece| >= APP_INFO_SIZE {
        return false;
      }
      appInfo := appInfo + piece;
      ok := true;
    }

    method RenderSection(appLabel: string, version: string, caps: seq<string>) returns (ok: bool)
      modifies this`appInfo
      ensures ok == (|Section(appLabel, version, caps)| < APP_INFO_SIZE)
      ensures appInfo == if ok then Section(appLabel, version, caps) else ""
    {
      appInfo := "";
      ok := Append(Head(appLabel, version));
      if ok {
        ok := AppendCaps(caps);
      }
      if ok {
        ok := Append("]},");
      }
      if !ok {
        appInfo := "";
      }
    }

    method AppendCaps(caps: seq<string>) returns (ok: bool)
      requires Valid()
      modifies this`appInfo
      ensures ok == (|old(appInfo)| + |CapText(caps)| < APP_INFO_SIZE)
      ensures ok ==> appInfo == old(appInfo) + CapText(caps)
    {
      ok := true;
      var i := 0;
      while ok && i < |caps|
        invariant 0 <= i <= |caps|
        invariant ok ==> appInfo == old(appInfo) + CapText(caps[..i]) && Valid()
        invariant !ok ==> |old(appInfo)| + |CapText(caps)| >= APP_INFO_SIZE
      {
        CapTextGrows(caps, i);
        assert caps[..i + 1][..i] == caps[..i];
        ok := Append(CapPiece(i, caps[i]));
        i := i + 1;
      }
      assert caps[..|caps|] == caps;
    }

    method SetAppInfo(appLabel: Option<string>, version: Option<string>, caps: Caps, count: nat) returns (r: Status)
      requires Valid() && (caps.Some? ==> count == |caps.value|)
      modifies this`appInfo
      ensures Valid() && (State(), r) == SetInfo(old(State()), appLabel, version, caps, count)
    {
      if appLabel.None? || appLabel.value == "" || version.None? {
        return Err(EINVAL);
      }
      if count > 0 && caps.None? {
        return Err(EINVAL);
      }
      if !inited || started {
        return Err(EPERM);
      }
      var labelOk := JsonTokenOk(appLabel.value);
      var versionOk := JsonTokenOk(version.value);
      if !labelOk || !versionOk {
        return Err(EINVAL);
      }
      var given := if caps.None? then [] else caps.value;
      var values: seq<string> := [];
      var i := 0;
      while i < |given|
        invariant 0 <= i <= |given|
        invariant CapsOk(given[..i]) && values == Values(given[..i])
        invariant State() == old(State()) && given == Given(caps)
      {
        assert given[i].None? || !TokenOk(given[i].value) ==> !CapsOk(given);
        if given[i].None? {
          return Err(EINVAL);
        }
        var ok := JsonTokenOk(given[i].value);
        if !ok {
          return Err(EINVAL);
        }
        i := i + 1;
        values := values + [given[i - 1].value];
      }
      assert given[..i] == given;
      var fits := RenderSection(appLabel.value, version.value, values);
      r := if fits then Ok(()) else Err(ENOMEM);
    }

    /** security is the scheme number; pop the configured proof of possession, NULL counting as empty. */
    method BuildVersionJson(security1: bool, pop: Bytes, thread: bool)
      requires Valid()
      modifies this`versionJson
      ensures versionJson == VersionText(appInfo, if security1 then 1 else 0, security1 && pop == [], thread)
    {
      var secVer := if security1 then 1 else 0;
      var noPop := security1 && |pop| == 0;
      VersionFits(appInfo, secVer, noPop, thread);
      versionJson := Truncated(VersionText(appInfo, secVer, noPop, thread), VERSION_SIZE);
    }
  }
}
