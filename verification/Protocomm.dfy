/** The protocomm core: endpoint table, session open and close, request dispatch, and the
    record of what a device does over a whole run. */
module Protocomm {
  import opened Common
  import opened Keystream
  import opened Security1

  const MAX_ENDPOINTS := 8
  const EP_NAME_MAX := 16

  datatype Kind = Data | Security | Version

  datatype Endpoint = Endpoint(name: string, kind: Kind)

  /** Index of the first endpoint with this name. */
  function Find(table: seq<Endpoint>, name: string): (r: Option<nat>)
    ensures r.Some? ==> r.value < |table| && table[r.value].name == name
    ensures r.Some? ==> forall k :: 0 <= k < r.value ==> table[k].name != name
    ensures r.None? ==> forall k :: 0 <= k < |table| ==> table[k].name != name
  {
    if table == [] then None
    else if table[0].name == name then Some(0)
    else
      var rest := Find(table[1..], name);
      if rest.None? then None else Some(rest.value + 1)
  }

  function Add(table: seq<Endpoint>, name: string, kind: Kind): (seq<Endpoint>, Status) {
    if |name| >= EP_NAME_MAX then (table, Err(ENAMETOOLONG))
    else if Find(table, name).Some? then (table, Err(EALREADY))
    else if |table| >= MAX_ENDPOINTS then (table, Err(ENOMEM))
    else (table + [Endpoint(name, kind)], Ok(()))
  }

  /** What the endpoint's handler does with the one request it is given. */
  datatype HandlerReply = Reply(body: Bytes) | Fail(error: Errno)

  /** Which allocations and PSA calls of one data request succeed. */
  datatype Faults = Faults(reqAlloc: bool, decrypt: bool, respAlloc: bool, encrypt: bool)

  /** One request as the transport hands it over: the raw body and what it decodes to as a
      session message, with the environment's choices. */
  datatype Request = Request(
    name: string,
    body: Bytes,
    msg: SessionMsg,
    psa: Psa,
    faults: Faults,
    reply: HandlerReply)

  datatype Response = Raw(body: Bytes) | Session(reply: SessionReply)

  /** The context afterwards, the response, and the plaintext the handler was called with. */
  datatype Outcome<+R> = Outcome(ctx: Sec1, response: Result<R>, seen: Option<Bytes>)

  function EncryptReply(su: Suite, s: Sec1, plain: Bytes, f: Faults, reply: HandlerReply): Outcome<Bytes> {
    if reply.Fail? then Outcome(s, Err(reply.error), Some(plain))
    else if reply.body == [] then Outcome(s, Ok([]), Some(plain))
    else if !f.respAlloc then Outcome(s, Err(ENOMEM), Some(plain))
    else
      var (s', out) := Crypt(su, s, reply.body, f.encrypt);
      Outcome(s', out, Some(plain))
  }

  function HandleData(su: Suite, s: Sec1, body: Bytes, f: Faults, reply: HandlerReply): Outcome<Bytes> {
    if body == [] then EncryptReply(su, s, [], f, reply)
    else if !f.reqAlloc then Outcome(s, Err(ENOMEM), None)
    else
      var (s', plain) := Crypt(su, s, body, f.decrypt);
      if plain.Err? then Outcome(s', Err(plain.error), None)
      else EncryptReply(su, s', plain.value, f, reply)
  }

  /** The device: its endpoint table, its proof of possession and the open session, if any. */
  datatype Device = Device(table: seq<Endpoint>, pop: Bytes, version: Bytes, ctx: Option<Sec1>)

  datatype Answer = Answer(response: Result<Response>, seen: Option<Bytes>)

  function Dispatch(su: Suite, d: Device, rq: Request): (Device, Answer) {
    var ep := Find(d.table, rq.name);
    if ep.None? then (d, Answer(Err(ENOENT), None))
    else match d.table[ep.value].kind
      case Version =>
        (d, Answer(if rq.faults.respAlloc then Ok(Raw(d.version)) else Err(ENOMEM), None))
      case Security =>
        if d.ctx.None? then (d, Answer(Err(EINVAL), None))
        else
          var (s, r) := Handshake(su, d.ctx.value, rq.msg, rq.psa);
          (d.(ctx := Some(s)),
           Answer(if r.Ok? then Ok(Session(r.value)) else Err(r.error), None))
      case Data =>
        if d.ctx.None? then (d, Answer(Err(EACCES), None))
        else
          var o := HandleData(su, d.ctx.value, rq.body, rq.faults, rq.reply);
          (d.(ctx := Some(o.ctx)),
           Answer(if o.response.Ok? then Ok(Raw(o.response.value)) else Err(o.response.error), o.seen))
  }

  /** Opening drops the old context; the new one is None if the scheme's init fails. */
  function Open(su: Suite, d: Device, key: Option<Bytes>): Device {
    d.(ctx := if key.Some? then Some(Fresh(su, d.pop, key.value)) else None)
  }

  /** The table a device may have: within its capacity, names distinct and short enough. */
  predicate Fits(table: seq<Endpoint>) {
    && |table| <= MAX_ENDPOINTS
    && (forall i, j :: 0 <= i < j < |table| ==> table[i].name != table[j].name)
    && (forall i :: 0 <= i < |table| ==> |table[i].name| < EP_NAME_MAX)
  }

  /** An addition that works appends its entry, one that does not leaves the table alone; it works if
      and only if the table then still is one that a device may have. */
  lemma AddKeepsFits(table: seq<Endpoint>, name: string, kind: Kind)
    requires Fits(table)
    ensures
      var (table', status) := Add(table, name, kind);
      && Fits(table')
      && (status == Ok(()) <==> Fits(table + [Endpoint(name, kind)]))
      && table' == if status == Ok(()) then table + [Endpoint(name, kind)] else table
  {
    var longer := table + [Endpoint(name, kind)];
    if Find(table, name).Some? {
      var k := Find(table, name).value;
      assert longer[k].name == longer[|table|].name;
    }
    assert longer[|table|] == Endpoint(name, kind);
    if Find(table, name).None? && |table| < MAX_ENDPOINTS && |name| < EP_NAME_MAX {
      forall i, j | 0 <= i < j < |longer| ensures longer[i].name != longer[j].name {
        assert longer[i] == table[i];
        assert j < |table| ==> longer[j] == table[j];
      }
    }
  }

  /** The name belongs to an endpoint of this kind. */
  predicate Names(d: Device, name: string, kind: Kind) {
    var ep := Find(d.table, name);
    ep.Some? && d.table[ep.value].kind == kind
  }

  /** The version endpoint sends the version text as it is, whatever session is open. */
  lemma VersionAnswer(su: Suite, d: Device, rq: Request)
    requires Names(d, rq.name, Version)
    ensures Dispatch(su, d, rq) == (d, Answer(if rq.faults.respAlloc then Ok(Raw(d.version)) else Err(ENOMEM), None))
  {}

  /** The session endpoint hands the message to the open context and answers what it answers. */
  lemma SessionAnswer(su: Suite, d: Device, rq: Request)
    requires Names(d, rq.name, Security) && d.ctx.Some?
    ensures
      var (s, r) := Handshake(su, d.ctx.value, rq.msg, rq.psa);
      Dispatch(su, d, rq) == (d.(ctx := Some(s)), Answer(if r.Ok? then Ok(Session(r.value)) else Err(r.error), None))
  {}

  /** The error of a handler that ran is the answer; a handler that did not run leaves an error too. */
  lemma HandlerFails(su: Suite, d: Device, rq: Request)
    requires Names(d, rq.name, Data) && rq.reply.Fail?
    ensures
      var a := Dispatch(su, d, rq).1;
      a.response.Err? && (a.seen.Some? ==> a.response == Err(rq.reply.error))
  {}

  /** Without an endpoint, or without a session to serve it, a request is refused, reaches no handler
      and changes nothing. */
  lemma NothingServed(su: Suite, d: Device, rq: Request)
    requires Find(d.table, rq.name).None? || (d.ctx.None? && !Names(d, rq.name, Version))
    ensures
      var error := if Find(d.table, rq.name).None? then ENOENT
                   else if Names(d, rq.name, Security) then EINVAL
                   else EACCES;
      Dispatch(su, d, rq) == (d, Answer(Err(error), None))
  {}

  class ProtocommInstance {
    const su: Suite
    const endpoints: array<Endpoint>
    var nEndpoints: nat
    var pop: Bytes
    var version: Bytes
    var secCtx: Sec1Context?

    ghost predicate Valid()
      reads this, secCtx
    {
      && endpoints.Length == MAX_ENDPOINTS
      && nEndpoints <= MAX_ENDPOINTS
      && (secCtx != null ==> secCtx.Valid() && secCtx.su == su)
    }

    ghost function State(): Device
      requires Valid()
      reads this, endpoints, secCtx
    {
      Device(endpoints[..nEndpoints], pop, version,
             if secCtx == null then None else Some(secCtx.State()))
    }

    constructor (su: Suite, pop: Bytes, version: Bytes)
      ensures Valid() && fresh(endpoints) && this.su == su
      ensures State() == Device([], pop, version, None)
    {
      this.su := su;
      endpoints := new Endpoint[MAX_ENDPOINTS](_ => Endpoint("", Data));
      nEndpoints := 0;
      this.pop := pop;
      this.version := version;
      secCtx := null;
    }

    method FindEp(name: string) returns (r: Option<nat>)
      requires Valid()
      ensures r == Find(State().table, name)
    {
      var i := 0;
      var table := endpoints[..nEndpoints];
      while i < nEndpoints
        invariant 0 <= i <= nEndpoints
        invariant forall k :: 0 <= k < i ==> endpoints[k].name != name
      {
        if endpoints[i].name == name {
          assert table[i].name == name;
          return Some(i);
        }
        i := i + 1;
      }
      r := None;
      assert forall k :: 0 <= k < |table| ==> table[k].name != name;
    }

    method AddEp(name: string, kind: Kind) returns (r: Status)
      requires Valid()
      modifies this`nEndpoints, endpoints
      ensures Valid()
      ensures State() == old(State()).(table := Add(old(State()).table, name, kind).0)
      ensures r == Add(old(State()).table, name, kind).1
    {
      if |name| >= EP_NAME_MAX {
        return Err(ENAMETOOLONG);
      }
      var there := FindEp(name);
      if there.Some? {
        return Err(EALREADY);
      }
      if nEndpoints >= MAX_ENDPOINTS {
        return Err(ENOMEM);
      }
      endpoints[nEndpoints] := Endpoint(name, kind);
      nEndpoints := nEndpoints + 1;
      r := Ok(());
    }

    method CloseSession()
      requires Valid()
      modifies this`secCtx
      ensures Valid()
      ensures State() == old(State()).(ctx := None)
    {
      secCtx := null;
    }

    method OpenSession(key: Option<Bytes>)
      requires Valid()
      modifies this`secCtx
      ensures Valid() && (secCtx != null ==> fresh(secCtx))
      ensures State() == Open(su, old(State()), key)
    {
      CloseSession();
      if key.Some? {
        secCtx := new Sec1Context(su, pop, key.value);
      }
    }

    method OnData(body: Bytes, f: Faults, reply: HandlerReply) returns (r: Result<Bytes>, seen: Option<Bytes>)
      requires Valid() && secCtx != null
      modifies secCtx
      ensures Valid()
      ensures Outcome(secCtx.State(), r, seen) == HandleData(su, old(secCtx.State()), body, f, reply)
    {
      var plain: Bytes := [];
      if |body| > 0 {
        if !f.reqAlloc {
          return Err(ENOMEM), None;
        }
        var d := secCtx.Encrypt(body, f.decrypt);
        if d.Err? {
          return Err(d.error), None;
        }
        plain := d.value;
      }
      seen := Some(plain);
      if reply.Fail? {
        return Err(reply.error), seen;
      }
      if |reply.body| == 0 {
        return Ok([]), seen;
      }
      if !f.respAlloc {
        return Err(ENOMEM), seen;
      }
      r := secCtx.Encrypt(reply.body, f.encrypt);
    }

    method ReqHandle(rq: Request) returns (a: Answer)
      requires Valid()
      modifies secCtx
      ensures Valid()
      ensures (State(), a) == Dispatch(su, old(State()), rq)
    {
      var ep := FindEp(rq.name);
      if ep.None? {
        return Answer(Err(ENOENT), None);
      }
      match endpoints[ep.value].kind {
        case Version =>
          a := Answer(if rq.faults.respAlloc then Ok(Raw(version)) else Err(ENOMEM), None);
        case Security =>
          if secCtx == null {
            return Answer(Err(EINVAL), None);
          }
          var r := secCtx.OnMessage(rq.msg, rq.psa);
          a := Answer(if r.Ok? then Ok(Session(r.value)) else Err(r.error), None);
        case Data =>
          if secCtx == null {
            return Answer(Err(EACCES), None);
          }
          var r, seen := OnData(rq.body, rq.faults, rq.reply);
          a := Answer(if r.Ok? then Ok(Raw(r.value)) else Err(r.error), seen);
      }
    }
  }
}
