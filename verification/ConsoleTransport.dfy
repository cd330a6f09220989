/** The console transport: one shell command per request, with an explicit session id and the
    request and response as hex. */
module ConsoleTransport {
  import opened Common
  import opened Keystream
  import opened Protocomm
  import opened Strtoul
  import Decimal

  /** The whole token must be a number in the range of an id. */
  function SessionId(token: string, ulongMax: nat): (r: Option<uint32>) {
    var w := Scan(token);
    if w.digits == "" || w.rest != "" || Decimal.Value(w.digits) > ulongMax || StrToUl(w, ulongMax) > UINT32_MAX
    then None
    else Some(StrToUl(w, ulongMax))
  }

  /** An accepted token names the id that was written unless it is a negative number that wraps
      into the range of an id; a number too large for unsigned long is refused here. */
  lemma AcceptsAsWritten(token: string, ulongMax: nat)
    requires UINT32_MAX <= ulongMax
    ensures
      var w := Scan(token);
      var value := Decimal.Value(w.digits);
      (SessionId(token, ulongMax).Some? ==> SessionId(token, ulongMax).value == Meant(w))
      <==> !(w.rest == "" && w.negative && ulongMax - UINT32_MAX < value <= ulongMax)
  {
    NoDigits();
  }

  /** With a 64-bit unsigned long a large negative number is accepted as an id. */
  lemma NegativeAliases()
    ensures SessionId("-" + Decimal.Print(0xFFFF_FFFF_FFFF_FFFB), 0xFFFF_FFFF_FFFF_FFFF) == Some(5)
  {
    var digits := Decimal.Print(0xFFFF_FFFF_FFFF_FFFB);
    Decimal.PrintValue(0xFFFF_FFFF_FFFF_FFFB);
    assert digits + "" == digits;
    ScanDigits(digits, "");
  }

  /** Every id is parsed back from its decimal text. */
  lemma TokenRoundTrip(id: uint32, ulongMax: nat)
    requires UINT32_MAX <= ulongMax
    ensures SessionId(Decimal.Print(id), ulongMax) == Some(id)
  {
    var digits := Decimal.Print(id);
    assert digits + "" == digits;
    ScanDigits(digits, "");
    Decimal.PrintValue(id);
  }

  // Hex.

  function HexChar(d: bv8): char
    requires d < 16
  {
    if d < 10 then ('0' as int + d as int) as char else ('a' as int + (d as int - 10)) as char
  }

  function HexValue(c: char): Option<bv8> {
    if '0' <= c <= '9' then Some((c as int - '0' as int) as bv8)
    else if 'a' <= c <= 'f' then Some((c as int - 'a' as int + 10) as bv8)
    else if 'A' <= c <= 'F' then Some((c as int - 'A' as int + 10) as bv8)
    else None
  }

  function Hex(b: Bytes): string {
    if b == [] then "" else [HexChar(b[0] / 16), HexChar(b[0] % 16)] + Hex(b[1..])
  }

  function Unhex(s: string): Option<Bytes> {
    if s == "" then Some([])
    else if |s| == 1 then None
    else
      var hi, lo, rest := HexValue(s[0]), HexValue(s[1]), Unhex(s[2..]);
      if hi.None? || lo.None? || rest.None? then None else Some([hi.value * 16 + lo.value] + rest.value)
  }

  lemma NibbleBack(d: bv8)
    requires d < 16
    ensures HexValue(HexChar(d)) == Some(d)
  {}

  lemma Nibbles(b: bv8)
    ensures b / 16 < 16 && b % 16 < 16 && (b / 16) * 16 + b % 16 == b
  {}

  lemma {:induction false} HexRoundTrip(b: Bytes)
    ensures Unhex(Hex(b)) == Some(b)
  {
    if b != [] {
      Nibbles(b[0]);
      NibbleBack(b[0] / 16);
      NibbleBack(b[0] % 16);
      HexRoundTrip(b[1..]);
      assert Hex(b)[2..] == Hex(b[1..]);
      assert b == [b[0]] + b[1..];
    }
  }

  /** Exactly the hexadecimal digits have a value, of either case. */
  lemma HexValues(c: char)
    ensures HexValue(c).Some? <==> '0' <= c <= '9' || 'a' <= c <= 'f' || 'A' <= c <= 'F'
    ensures HexValue(c).Some? ==> HexValue(c).value < 16
    ensures 'a' <= c <= 'f' ==> HexValue((c as int - 32) as char) == HexValue(c)
  {}

  lemma Compose(hi: bv8, lo: bv8, x: bv8)
    requires hi < 16 && lo < 16
    ensures hi == x / 16 && lo == x % 16 <==> x == hi * 16 + lo
  {}

  /** The i-th pair of digits spells the byte, the high half first. */
  predicate SpellsByte(s: string, i: nat, x: bv8) {
    2 * i + 1 < |s| && HexValue(s[2 * i]) == Some(x / 16) && HexValue(s[2 * i + 1]) == Some(x % 16)
  }

  predicate Spells(s: string, b: Bytes) {
    |s| == 2 * |b| && forall i :: 0 <= i < |b| ==> SpellsByte(s, i, b[i])
  }

  lemma SpellsTail(s: string, b: Bytes)
    requires |s| >= 2 && b != []
    ensures Spells(s, b) <==> SpellsByte(s, 0, b[0]) && Spells(s[2..], b[1..])
  {
    forall i: nat | i + 1 < |b| ensures SpellsByte(s[2..], i, b[1..][i]) == SpellsByte(s, i + 1, b[i + 1]) {
      assert |s[2..]| == |s| - 2;
    }
    if Spells(s[2..], b[1..]) && SpellsByte(s, 0, b[0]) {
      forall i | 0 <= i < |b| ensures SpellsByte(s, i, b[i]) {
        if i > 0 {
          assert SpellsByte(s[2..], i - 1, b[1..][i - 1]);
        }
      }
    }
  }

  lemma PairSpells(s: string, x: bv8)
    requires |s| >= 2
    ensures SpellsByte(s, 0, x)
            <==> HexValue(s[0]).Some? && HexValue(s[1]).Some? && x == HexValue(s[0]).value * 16 + HexValue(s[1]).value
  {
    var hi, lo := HexValue(s[0]), HexValue(s[1]);
    if hi.Some? && lo.Some? {
      HexSmall(s[0]);
      HexSmall(s[1]);
      Compose(hi.value, lo.value, x);
    }
  }

  lemma HexSmall(c: char)
    requires HexValue(c).Some?
    ensures HexValue(c).value < 16
  {}

  /** Hex is read digit by digit, two for each byte, and nothing else is accepted. */
  lemma {:induction false} UnhexExactly(s: string, b: Bytes)
    ensures Unhex(s) == Some(b) <==> Spells(s, b)
  {
    if |s| >= 2 && b != [] {
      UnhexExactly(s[2..], b[1..]);
      SpellsTail(s, b);
      PairSpells(s, b[0]);
      assert b == [b[0]] + b[1..];
    }
  }

  // The command.

  /** One command line, with the environment's choices: allocation of the two buffers, a new
      session's key pair, and what the dispatcher is given besides name and body. */
  datatype Command = Command(
    ep: string,
    token: string,
    hex: string,
    inAlloc: bool,
    outAlloc: bool,
    key: Option<Bytes>,
    rq: Request,
    encoded: Bytes)

  datatype Shell = Shell(session: Option<uint32>, device: Option<Device>)

  function Start(device: Device): Shell {
    Shell(None, Some(device))
  }

  /** The request carried by a command line that is not refused outright. */
  function Accepted(cmd: Command, ulongMax: nat): Result<(uint32, Bytes)> {
    var id := SessionId(cmd.token, ulongMax);
    if id.None? || |cmd.hex| % 2 != 0 then Err(EINVAL)
    else if !cmd.inAlloc then Err(ENOMEM)
    else if Unhex(cmd.hex).None? then Err(EINVAL)
    else Ok((id.value, Unhex(cmd.hex).value))
  }

  function Printed(a: Answer, cmd: Command): Result<string> {
    if a.response.Err? then Err(ENOEXEC)
    else if !cmd.outAlloc then Err(ENOMEM)
    else Ok(Hex(if a.response.value.Raw? then a.response.value.body else cmd.encoded))
  }

  function Do(su: Suite, ulongMax: nat, s: Shell, cmd: Command): (Shell, Result<string>) {
    if s.device.None? then (s, Err(ENOEXEC))
    else
      var request := Accepted(cmd, ulongMax);
      if request.Err? then (s, Err(request.error))
      else
        var (id, body) := request.value;
        var base := if s.session == Some(id) then s.device.value else Open(su, s.device.value, cmd.key);
        var (d, a) := Dispatch(su, base, cmd.rq.(name := cmd.ep, body := body));
        (Shell(Some(id), Some(d)), Printed(a, cmd))
  }

  function Execute(su: Suite, ulongMax: nat, s: Shell, cmds: seq<Command>): Shell {
    if cmds == [] then s
    else
      var n := |cmds| - 1;
      Do(su, ulongMax, Execute(su, ulongMax, s, cmds[..n]), cmds[n]).0
  }

  /** The id of the last command that was not refused outright. */
  function LastId(cmds: seq<Command>, ulongMax: nat): Option<uint32> {
    if cmds == [] then None
    else
      var n := |cmds| - 1;
      var request := Accepted(cmds[n], ulongMax);
      if request.Ok? then Some(request.value.0) else LastId(cmds[..n], ulongMax)
  }

  lemma {:induction false} SessionIsLastId(su: Suite, ulongMax: nat, device: Device, cmds: seq<Command>)
    ensures
      var s := Execute(su, ulongMax, Start(device), cmds);
      s.device.Some? && s.session == LastId(cmds, ulongMax)
  {
    if cmds != [] {
      SessionIsLastId(su, ulongMax, device, cmds[..|cmds| - 1]);
    }
  }

  /** After any commands, a command runs on the existing security context exactly when its id is
      that of the last command not refused, and otherwise on a newly opened one; a refused
      command leaves session and device as they were. */
  lemma {:induction false} ContextByIdentity(su: Suite, ulongMax: nat, device: Device, cmds: seq<Command>, cmd: Command)
    ensures
      var s := Execute(su, ulongMax, Start(device), cmds);
      var (s', out) := Do(su, ulongMax, s, cmd);
      var request := Accepted(cmd, ulongMax);
      && s.device.Some?
      && (request.Err? ==> s' == s && out == Err(request.error))
      && (request.Ok? ==>
           var (id, body) := request.value;
           var base := if LastId(cmds, ulongMax) == Some(id) then s.device.value
                       else Open(su, s.device.value, cmd.key);
           var (d, a) := Dispatch(su, base, cmd.rq.(name := cmd.ep, body := body));
           s'.device == Some(d) && out == Printed(a, cmd))
  {
    SessionIsLastId(su, ulongMax, device, cmds);
  }

  /** A command line that carries an id and a body in decimal and hex is dispatched with exactly them,
      and one that is dispatched carries the body digit by digit. */
  lemma CommandCarries(cmd: Command, id: uint32, body: Bytes, ulongMax: nat)
    requires UINT32_MAX <= ulongMax
    ensures cmd.token == Decimal.Print(id) && cmd.hex == Hex(body) && cmd.inAlloc ==>
              Accepted(cmd, ulongMax) == Ok((id, body))
    ensures Accepted(cmd, ulongMax) == Ok((id, body)) ==>
              SessionId(cmd.token, ulongMax) == Some(id) && Spells(cmd.hex, body)
  {
    if cmd.token == Decimal.Print(id) && cmd.hex == Hex(body) && cmd.inAlloc {
      WrittenIsAccepted(cmd, id, body, ulongMax);
    }
    if Accepted(cmd, ulongMax) == Ok((id, body)) {
      UnhexExactly(cmd.hex, body);
    }
  }

  lemma WrittenIsAccepted(cmd: Command, id: uint32, body: Bytes, ulongMax: nat)
    requires UINT32_MAX <= ulongMax
    requires cmd.token == Decimal.Print(id) && cmd.hex == Hex(body) && cmd.inAlloc
    ensures Accepted(cmd, ulongMax) == Ok((id, body))
  {
    TokenRoundTrip(id, ulongMax);
    HexRoundTrip(body);
    HexEven(body);
  }

  lemma {:induction false} HexEven(b: Bytes)
    ensures |Hex(b)| == 2 * |b|
  {
    if b != [] {
      HexEven(b[1..]);
    }
  }

  /** What is printed gives back the bytes of the answer; nothing is printed exactly if the dispatch or
      the allocation failed. */
  lemma PrintsAnswer(a: Answer, cmd: Command)
    ensures
      match a.response {
        case Err(_) => Printed(a, cmd) == Err(ENOEXEC)
        case Ok(r) =>
          var body := match r case Raw(b) => b case Session(_) => cmd.encoded;
          if cmd.outAlloc then Printed(a, cmd).Ok? && Unhex(Printed(a, cmd).value) == Some(body)
          else Printed(a, cmd) == Err(ENOMEM)
      }
  {
    HexRoundTrip(if a.response.Ok? && a.response.value.Raw? then a.response.value.body else cmd.encoded);
  }

  class ConsoleState {
    const ulongMax: nat
    var pc: ProtocommInstance?
    var curSession: uint32
    var haveSession: bool

    ghost predicate Valid()
      reads this, pc, if pc == null then null else pc.secCtx
    {
      pc != null ==> pc.Valid()
    }

    ghost function State(): Shell
      requires Valid()
      reads this, pc, if pc == null then null else pc.endpoints, if pc == null then null else pc.secCtx
    {
      Shell(if haveSession then Some(curSession) else None,
            if pc == null then None else Some(pc.State()))
    }

    constructor (ulongMax: nat)
      ensures Valid() && State() == Shell(None, None) && this.ulongMax == ulongMax
    {
      this.ulongMax := ulongMax;
      pc, curSession, haveSession := null, 0, false;
    }

    method StartConsole(pc: ProtocommInstance)
      requires pc.Valid()
      modifies this
      ensures Valid() && this.pc == pc && State() == Start(pc.State())
    {
      this.pc := pc;
      haveSession := false;
      curSession := 0;
    }

    method StopConsole()
      requires Valid()
      modifies this, if pc == null then {} else {pc}
      ensures Valid() && State() == Shell(None, None)
      ensures old(pc) != null ==> old(pc).Valid() && old(pc).State() == old(pc.State()).(ctx := None)
    {
      if pc != null {
        pc.CloseSession();
      }
      pc := null;
      haveSession := false;
    }

    method ParseLine(cmd: Command) returns (r: Result<(uint32, Bytes)>)
      ensures r == Accepted(cmd, ulongMax)
    {
      var w := Scan(cmd.token);
      if w.digits == "" || w.rest != "" || Decimal.Value(w.digits) > ulongMax || StrToUl(w, ulongMax) > UINT32_MAX {
        return Err(EINVAL);
      }
      var session := StrToUl(w, ulongMax);
      if |cmd.hex| % 2 != 0 {
        return Err(EINVAL);
      }
      if !cmd.inAlloc {
        return Err(ENOMEM);
      }
      var body := Unhex(cmd.hex);
      if body.None? {
        return Err(EINVAL);
      }
      r := Ok((session, body.value));
    }

    method NetProv(cmd: Command) returns (out: Result<string>)
      requires Valid()
      modifies this, if pc == null then {} else {pc, pc.secCtx}
      ensures Valid() && pc == old(pc)
      ensures pc != null ==> (State(), out) == Do(pc.su, ulongMax, old(State()), cmd)
      ensures pc == null ==> State() == old(State()) && out == Err(ENOEXEC)
    {
      if pc == null {
        return Err(ENOEXEC);
      }
      var parsed := ParseLine(cmd);
      if parsed.Err? {
        return Err(parsed.error);
      }
      var (session, body) := parsed.value;
      if !haveSession || session != curSession {
        pc.OpenSession(cmd.key);
        curSession := session;
        haveSession := true;
      }
      var a := pc.ReqHandle(cmd.rq.(name := cmd.ep, body := body));
      out := PrintAnswer(a, cmd);
    }

    method PrintAnswer(a: Answer, cmd: Command) returns (out: Result<string>)
      ensures out == Printed(a, cmd)
    {
      if a.response.Err? {
        return Err(ENOEXEC);
      }
      if !cmd.outAlloc {
        return Err(ENOMEM);
      }
      out := Ok(Hex(if a.response.value.Raw? then a.response.value.body else cmd.encoded));
    }
  }
}
