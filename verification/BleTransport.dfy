/** The BLE transport with one connection: a session per connection, and one cached response per
    endpoint that reads return. */
module BleTransport {
  import opened Common
  import opened Keystream
  import opened Protocomm

  datatype AttError = NotSupported | Unlikely | InsufficientResources | InvalidOffset

  /** One write to an endpoint's characteristic; prepared parts are only queued by the stack. */
  datatype Write = Write(value: Bytes, prepare: bool, offset: nat, rq: Request, encoded: Bytes)

  datatype WriteResult = Accepted(len: nat) | Refused(error: AttError)

  /** An endpoint's characteristic: its name and the cached response. */
  datatype Io = Io(name: string, resp: Bytes)

  datatype Gatt = Gatt(io: seq<Io>, device: Device)

  function Emptied(io: seq<Io>): (r: seq<Io>)
    ensures |r| == |io|
  {
    seq(|io|, i requires 0 <= i < |io| => io[i].(resp := []))
  }

  function Start(device: Device): Gatt {
    Gatt(seq(|device.table|, i requires 0 <= i < |device.table| => Io(device.table[i].name, [])), device)
  }

  function Connected(su: Suite, g: Gatt, failed: bool, key: Option<Bytes>): Gatt {
    if failed then g else g.(device := Open(su, g.device, key))
  }

  function Disconnected(g: Gatt): Gatt {
    g.(io := Emptied(g.io), device := g.device.(ctx := None))
  }

  /** The response to keep, if there is one and it fits. */
  function Kept(a: Answer, w: Write, max: nat): Option<Bytes> {
    if a.response.Err? then None
    else
      var wire := if a.response.value.Raw? then a.response.value.body else w.encoded;
      if |wire| > max then None else Some(wire)
  }

  function Written(a: Answer, w: Write, max: nat): WriteResult {
    if a.response.Err? then Refused(Unlikely)
    else if Kept(a, w, max).None? then Refused(InsufficientResources)
    else Accepted(|w.value|)
  }

  predicate Processed(w: Write) {
    !w.prepare && w.offset == 0
  }

  function WriteEp(su: Suite, max: nat, g: Gatt, i: nat, w: Write): (Gatt, WriteResult)
    requires i < |g.io|
  {
    if w.prepare then (g, Accepted(|w.value|))
    else if w.offset != 0 then (g, Refused(NotSupported))
    else
      var (d, a) := Dispatch(su, g.device, w.rq.(name := g.io[i].name, body := w.value));
      var kept := Kept(a, w, max);
      (Gatt(g.io[i := g.io[i].(resp := if kept.Some? then kept.value else [])], d), Written(a, w, max))
  }

  function ReadEp(g: Gatt, i: nat, len: nat, offset: nat): Option<Bytes>
    requires i < |g.io|
  {
    var r := g.io[i].resp;
    if offset > |r| then None
    else Some(r[offset..if offset + len <= |r| then offset + len else |r|])
  }

  // Whole runs.

  datatype Op =
    | Connect(failed: bool, key: Option<Bytes>)
    | Disconnect
    | WriteTo(i: nat, w: Write)

  /** What happened, with the answer the endpoint gave to a processed write. */
  datatype Entry = Joined | Left | Answered(i: nat, w: Write, answer: Answer) | Nothing

  datatype Run = Run(gatt: Gatt, log: seq<Entry>)

  function Step(su: Suite, max: nat, r: Run, op: Op): (r': Run)
    ensures |r'.gatt.io| == |r.gatt.io|
  {
    match op
    case Connect(failed, key) => Run(Connected(su, r.gatt, failed, key), r.log + [if failed then Nothing else Joined])
    case Disconnect => Run(Disconnected(r.gatt), r.log + [Left])
    case WriteTo(i, w) =>
      if i >= |r.gatt.io| then r
      else
        var entry := if Processed(w)
                     then Answered(i, w, Dispatch(su, r.gatt.device, w.rq.(name := r.gatt.io[i].name, body := w.value)).1)
                     else Nothing;
        Run(WriteEp(su, max, r.gatt, i, w).0, r.log + [entry])
  }

  function Execute(su: Suite, max: nat, device: Device, ops: seq<Op>): (r: Run)
    ensures |r.gatt.io| == |device.table|
  {
    if ops == [] then Run(Start(device), [])
    else Step(su, max, Execute(su, max, device, ops[..|ops| - 1]), ops[|ops| - 1])
  }

  /** The response to the most recent processed write to this endpoint in this connection; empty
      if there is none, or if the write failed or its response was too long to keep. */
  function LastResponse(log: seq<Entry>, i: nat, max: nat): Bytes {
    if log == [] then []
    else
      var last, before := log[|log| - 1], log[..|log| - 1];
      match last
      case Left => []
      case Answered(j, w, a) =>
        if j != i then LastResponse(before, i, max)
        else
          var kept := Kept(a, w, max);
          if kept.Some? then kept.value else []
      case _ => LastResponse(before, i, max)
  }

  /** A connection is up. */
  predicate Up(log: seq<Entry>) {
    log != [] &&
    (log[|log| - 1].Joined? || (!log[|log| - 1].Left? && Up(log[..|log| - 1])))
  }

  ghost predicate Inv(r: Run, max: nat) {
    && (forall i: nat :: i < |r.gatt.io| ==> r.gatt.io[i].resp == LastResponse(r.log, i, max) && |r.gatt.io[i].resp| <= max)
    && (!Up(r.log) ==> r.gatt.device.ctx.None?)
  }

  lemma NoContextStays(su: Suite, d: Device, rq: Request)
    requires d.ctx.None?
    ensures Dispatch(su, d, rq).0.ctx.None?
  {}

  /** How one entry changes what the log says. */
  lemma LogGrows(log: seq<Entry>, e: Entry, i: nat, max: nat)
    ensures Up(log + [e]) == (e.Joined? || (!e.Left? && Up(log)))
    ensures LastResponse(log + [e], i, max)
            == if e.Left? then []
               else if e.Answered? && e.i == i then
                 (if Kept(e.answer, e.w, max).Some? then Kept(e.answer, e.w, max).value else [])
               else LastResponse(log, i, max)
  {
    assert (log + [e])[..|log|] == log;
  }

  lemma ConnectKeepsInv(su: Suite, max: nat, r: Run, failed: bool, key: Option<Bytes>)
    requires Inv(r, max)
    ensures Inv(Step(su, max, r, Connect(failed, key)), max)
  {
    var e := if failed then Nothing else Joined;
    forall i: nat | i < |r.gatt.io| ensures LastResponse(r.log + [e], i, max) == LastResponse(r.log, i, max) {
      LogGrows(r.log, e, i, max);
    }
    LogGrows(r.log, e, 0, max);
  }

  lemma DisconnectKeepsInv(su: Suite, max: nat, r: Run)
    requires Inv(r, max)
    ensures Inv(Step(su, max, r, Disconnect), max)
  {
    forall i: nat | i < |r.gatt.io| ensures LastResponse(r.log + [Left], i, max) == [] {
      LogGrows(r.log, Left, i, max);
    }
  }

  lemma WriteKeepsInv(su: Suite, max: nat, r: Run, i: nat, w: Write)
    requires Inv(r, max) && i < |r.gatt.io|
    ensures Inv(Step(su, max, r, WriteTo(i, w)), max)
  {
    var r' := Step(su, max, r, WriteTo(i, w));
    var e := r'.log[|r.log|];
    assert r'.log == r.log + [e];
    forall j: nat | j < |r.gatt.io|
      ensures r'.gatt.io[j].resp == LastResponse(r'.log, j, max) && |r'.gatt.io[j].resp| <= max
    {
      LogGrows(r.log, e, j, max);
    }
    LogGrows(r.log, e, i, max);
    if Processed(w) && !Up(r.log) {
      NoContextStays(su, r.gatt.device, w.rq.(name := r.gatt.io[i].name, body := w.value));
    }
  }

  lemma StepKeepsInv(su: Suite, max: nat, r: Run, op: Op)
    requires Inv(r, max)
    ensures Inv(Step(su, max, r, op), max)
  {
    match op
    case Connect(failed, key) => ConnectKeepsInv(su, max, r, failed, key);
    case Disconnect => DisconnectKeepsInv(su, max, r);
    case WriteTo(i, w) =>
      if i < |r.gatt.io| {
        WriteKeepsInv(su, max, r, i, w);
      }
  }

  lemma {:induction false} ExecuteKeepsInv(su: Suite, max: nat, device: Device, ops: seq<Op>)
    requires device.ctx.None?
    ensures Inv(Execute(su, max, device, ops), max)
  {
    if ops != [] {
      ExecuteKeepsInv(su, max, device, ops[..|ops| - 1]);
      StepKeepsInv(su, max, Execute(su, max, device, ops[..|ops| - 1]), ops[|ops| - 1]);
    }
  }

  /** After any run, a read returns the response of this connection's most recent processed write
      to that endpoint, never one of an earlier connection or another endpoint; and without a
      connection there is no security context to serve from. */
  lemma ReadsLastResponse(su: Suite, max: nat, device: Device, ops: seq<Op>, i: nat)
    requires device.ctx.None? && i < |device.table|
    ensures
      var r := Execute(su, max, device, ops);
      && ReadEp(r.gatt, i, max, 0) == Some(LastResponse(r.log, i, max))
      && (!Up(r.log) ==> r.gatt.device.ctx.None?)
  {
    ExecuteKeepsInv(su, max, device, ops);
    var resp := Execute(su, max, device, ops).gatt.io[i].resp;
    assert resp[0..|resp|] == resp;
  }

  /** The characteristics keep the names and the order of the endpoint table over every run, so a write
      reaches the endpoint its characteristic stands for. */
  lemma {:induction false} NamesStay(su: Suite, max: nat, device: Device, ops: seq<Op>)
    ensures
      var g := Execute(su, max, device, ops).gatt;
      && g.device.table == device.table && |g.io| == |device.table|
      && forall i :: 0 <= i < |g.io| ==> g.io[i].name == device.table[i].name
  {
    if ops != [] {
      NamesStay(su, max, device, ops[..|ops| - 1]);
    }
  }

  lemma WriteReachesOwn(su: Suite, max: nat, device: Device, ops: seq<Op>, i: nat)
    requires Fits(device.table) && i < |device.table|
    ensures
      var g := Execute(su, max, device, ops).gatt;
      Find(g.device.table, g.io[i].name) == Some(i)
  {
    NamesStay(su, max, device, ops);
    var k := Find(device.table, device.table[i].name);
    assert k.Some?;
  }

  /** A processed write is dispatched to its own endpoint with its own value; reading the characteristic
      then gives the bytes of the answer, or nothing if it failed or is too long, and the write says
      which. The other characteristics stay as they were. */
  lemma WriteThenRead(su: Suite, max: nat, g: Gatt, i: nat, w: Write)
    requires i < |g.io| && !w.prepare && w.offset == 0
    ensures
      var (g', result) := WriteEp(su, max, g, i, w);
      var (d, a) := Dispatch(su, g.device, w.rq.(name := g.io[i].name, body := w.value));
      && g'.device == d && |g'.io| == |g.io|
      && (forall j :: 0 <= j < |g.io| && j != i ==> g'.io[j] == g.io[j])
      && match a.response {
           case Err(_) => ReadEp(g', i, max, 0) == Some([]) && result == Refused(Unlikely)
           case Ok(r) =>
             var body := match r case Raw(b) => b case Session(_) => w.encoded;
             if |body| <= max then ReadEp(g', i, max, 0) == Some(body) && result == Accepted(|w.value|)
             else ReadEp(g', i, max, 0) == Some([]) && result == Refused(InsufficientResources)
         }
  {
    var resp := WriteEp(su, max, g, i, w).0.io[i].resp;
    assert resp[0..|resp|] == resp;
  }

  /** A prepared write and one at an offset change nothing; the one is taken, the other refused. */
  lemma UnprocessedWrite(su: Suite, max: nat, g: Gatt, i: nat, w: Write)
    requires i < |g.io| && (w.prepare || w.offset != 0)
    ensures WriteEp(su, max, g, i, w) == (g, if w.prepare then Accepted(|w.value|) else Refused(NotSupported))
  {}

  /** The attribute read as the stack performs it over several requests of at most len bytes. */
  function LongRead(g: Gatt, i: nat, len: nat, offset: nat): Bytes
    requires i < |g.io| && offset <= |g.io[i].resp| && len > 0
    decreases |g.io[i].resp| - offset
  {
    var part := ReadEp(g, i, len, offset).value;
    if |part| < len then part else part + LongRead(g, i, len, offset + len)
  }

  /** A long read puts the whole response together, for any length of its parts. */
  lemma {:induction false} LongReadWhole(g: Gatt, i: nat, len: nat, offset: nat)
    requires i < |g.io| && offset <= |g.io[i].resp| && len > 0
    ensures LongRead(g, i, len, offset) == g.io[i].resp[offset..]
    decreases |g.io[i].resp| - offset
  {
    var part := ReadEp(g, i, len, offset).value;
    if |part| == len {
      LongReadWhole(g, i, len, offset + len);
      assert part + g.io[i].resp[offset + len..] == g.io[i].resp[offset..];
    }
  }

  class BleService {
    const max: nat
    const io: array<Io>
    var n: nat
    const pc: ProtocommInstance

    ghost predicate Valid()
      reads this, pc, pc.secCtx
    {
      io.Length == MAX_ENDPOINTS && n <= MAX_ENDPOINTS && pc.Valid()
    }

    ghost function State(): Gatt
      requires Valid()
      reads this, io, pc, pc.endpoints, pc.secCtx
    {
      Gatt(io[..n], pc.State())
    }

    constructor (max: nat, pc: ProtocommInstance)
      requires pc.Valid()
      ensures Valid() && fresh(io) && this.pc == pc && this.max == max && n == 0
    {
      this.max := max;
      this.pc := pc;
      io := new Io[MAX_ENDPOINTS](_ => Io("", []));
      n := 0;
    }

    /** One characteristic per endpoint, in table order, with nothing cached. */
    method BuildService()
      requires Valid()
      modifies this, io
      ensures Valid() && pc.State() == old(pc.State()) && State() == Start(pc.State())
    {
      n := pc.nEndpoints;
      var count := n;
      ghost var table := pc.State().table;
      for i := 0 to count
        invariant n == count && count == |table| && pc.State() == old(pc.State())
        invariant forall k :: 0 <= k < i ==> io[k] == Io(table[k].name, [])
      {
        assert table[i] == pc.endpoints[i];
        io[i] := Io(pc.endpoints[i].name, []);
      }
    }

    method OnConnected(failed: bool, key: Option<Bytes>)
      requires Valid()
      modifies pc`secCtx
      ensures Valid() && State() == Connected(pc.su, old(State()), failed, key)
    {
      if failed {
        return;
      }
      pc.OpenSession(key);
    }

    method OnDisconnected()
      requires Valid()
      modifies pc`secCtx, io
      ensures Valid() && State() == Disconnected(old(State()))
    {
      pc.CloseSession();
      ghost var closed := pc.State();
      for i := 0 to MAX_ENDPOINTS
        invariant n == old(n) && pc.secCtx == null && pc.State() == closed
        invariant forall k :: 0 <= k < MAX_ENDPOINTS ==>
                    io[k] == if k < i then old(io[k]).(resp := []) else old(io[k])
      {
        io[i] := io[i].(resp := []);
      }
    }

    method OnWrite(i: nat, w: Write) returns (r: WriteResult)
      requires Valid() && i < n
      modifies io, pc.secCtx
      ensures Valid()
      ensures (State(), r) == WriteEp(pc.su, max, old(State()), i, w)
    {
      if w.prepare {
        return Accepted(|w.value|);
      }
      if w.offset != 0 {
        return Refused(NotSupported);
      }
      var a := pc.ReqHandle(w.rq.(name := io[i].name, body := w.value));
      if a.response.Err? {
        io[i] := io[i].(resp := []);
        return Refused(Unlikely);
      }
      var out := if a.response.value.Raw? then a.response.value.body else w.encoded;
      if |out| > max {
        io[i] := io[i].(resp := []);
        return Refused(InsufficientResources);
      }
      io[i] := io[i].(resp := out);
      r := Accepted(|w.value|);
    }
  }
}
