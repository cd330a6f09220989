/** The HTTP transport: request reassembly in one shared buffer under several clients, and the
    cookie that ties a request to the open security session. */
module SoftAp {
  import opened Common
  import opened Keystream
  import opened Protocomm
  import HttpText

  const REQ_BUF_LEN := 4096
  const RESP_BUF_LEN := 4096

  datatype Transaction = Aborted | Complete | More | Final

  /** One callback of the HTTP server. first marks the first callback of a request; headers are
      the captured ones, None unless capture succeeded; name is the endpoint of a built-in
      resource, None for the fallback one. key, id and encoded are the environment's choices: a
      new session's key pair, the random session id, the encoded form of a session reply. rq holds
      what the dispatcher is given besides the name and the body. */
  datatype Event = Event(
    client: nat,
    status: Transaction,
    first: bool,
    headers: Option<seq<HttpText.Header>>,
    data: Bytes,
    name: Option<string>,
    url: string,
    key: Option<Bytes>,
    id: uint32,
    rq: Request,
    encoded: Bytes)
  {
    predicate Ends() {
      status.Aborted? || status.Complete?
    }

    function Endpoint(): string {
      if name.Some? then name.value else HttpText.EpName(url, HttpText.EP_NAME_MAX)
    }
  }

  datatype Reply =
    | Pending
    | Rejected(error: Errno)
    | ServerError
    | Sent(body: Bytes, cookie: string)

  datatype Http = Http(
    buffer: Bytes,
    owner: Option<nat>,
    cookie: Option<uint32>,
    session: Option<uint32>,
    device: Device)

  function Idle(h: Http): Http {
    h.(buffer := [], owner := None, cookie := None)
  }

  function Start(device: Device): Http {
    Http([], None, None, None, device)
  }

  function WithSession(su: Suite, h: Http, ev: Event): Http {
    if h.cookie.Some? && h.session == h.cookie then h
    else h.(session := Some(ev.id), device := Open(su, h.device, ev.key))
  }

  function Wire(r: Response, encoded: Bytes): Bytes {
    if r.Raw? then r.body else encoded
  }

  /** What goes back to the client: the response and the cookie of the session it belongs to. */
  function Answered(a: Answer, encoded: Bytes, session: uint32): Reply {
    if a.response.Err? || |Wire(a.response.value, encoded)| > RESP_BUF_LEN then ServerError
    else Sent(Wire(a.response.value, encoded), HttpText.CookieText(session))
  }

  function Serve(su: Suite, h: Http, ev: Event): (Http, Reply) {
    var ready := WithSession(su, h, ev);
    var (d, a) := Dispatch(su, ready.device, ev.rq.(name := ev.Endpoint(), body := h.buffer));
    (Idle(ready).(device := d), Answered(a, ev.encoded, ready.session.value))
  }

  function Callback(su: Suite, ulongMax: nat, h: Http, ev: Event): (Http, Reply) {
    if ev.Ends() then (if h.owner == Some(ev.client) then Idle(h) else h, Pending)
    else if h.owner.Some? && h.owner != Some(ev.client) then (h, Rejected(EBUSY))
    else if |h.buffer| + |ev.data| > REQ_BUF_LEN then (Idle(h), Rejected(ENOMEM))
    else if ev.status.More? then (Taken(ulongMax, h, ev), Pending)
    else Serve(su, Taken(ulongMax, h, ev), ev)
  }

  /** The callback's chunk is buffered and, if it carries the headers, its cookie kept. */
  function Taken(ulongMax: nat, h: Http, ev: Event): Http {
    h.(buffer := h.buffer + ev.data,
       owner := Some(ev.client),
       cookie := if ev.headers.Some? then HttpText.CookieIn(ev.headers, ulongMax) else h.cookie)
  }

  // Whole runs, and what they say of a request without looking at the transport's state.

  datatype Op = Restart(device: Device) | Call(ev: Event)

  datatype Entry = Started | Called(ev: Event, reply: Reply)

  datatype Run = Run(http: Http, log: seq<Entry>)

  function Step(su: Suite, ulongMax: nat, r: Run, op: Op): Run {
    match op
    case Restart(device) => Run(Start(device), r.log + [Started])
    case Call(ev) =>
      var (h, reply) := Callback(su, ulongMax, r.http, ev);
      Run(h, r.log + [Called(ev, reply)])
  }

  function Execute(su: Suite, ulongMax: nat, r: Run, ops: seq<Op>): Run
    decreases |ops|
  {
    if ops == [] then r else Execute(su, ulongMax, Step(su, ulongMax, r, ops[0]), ops[1..])
  }

  /** The client has begun a request that has neither ended nor failed. */
  predicate Alive(log: seq<Entry>, c: nat) {
    if log == [] then false
    else
      var last := log[|log| - 1];
      if last.Started? then false
      else if last.ev.client != c then Alive(log[..|log| - 1], c)
      else last.ev.status.More? && last.reply.Pending?
  }

  /** The chunks of the client's latest request, in order. */
  function Chunks(log: seq<Entry>, c: nat): seq<Bytes> {
    if log == [] then []
    else
      var last, before := log[|log| - 1], log[..|log| - 1];
      if last.Started? then []
      else if last.ev.client != c then Chunks(before, c)
      else (if last.ev.first then [] else Chunks(before, c)) + [last.ev.data]
  }

  /** The cookie that came with the first callback of the client's latest request. */
  function Cookie(log: seq<Entry>, c: nat, ulongMax: nat): Option<uint32> {
    if log == [] then None
    else
      var last, before := log[|log| - 1], log[..|log| - 1];
      if last.Started? then None
      else if last.ev.client == c && last.ev.first then HttpText.CookieIn(last.ev.headers, ulongMax)
      else Cookie(before, c, ulongMax)
  }

  /** How the server calls back: a request begins with its first callback, goes on only while it
      has not failed, and carries its headers in the first callback alone. */
  predicate Allowed(log: seq<Entry>, op: Op) {
    op.Call? && !op.ev.Ends() ==>
      && (op.ev.first <==> !Alive(log, op.ev.client))
      && (op.ev.headers.Some? ==> op.ev.first)
  }

  predicate Disciplined(su: Suite, ulongMax: nat, r: Run, ops: seq<Op>)
    decreases |ops|
  {
    ops == [] ||
    (Allowed(r.log, ops[0]) && Disciplined(su, ulongMax, Step(su, ulongMax, r, ops[0]), ops[1..]))
  }

  ghost predicate Inv(r: Run, ulongMax: nat) {
    && (forall c: nat :: Alive(r.log, c) <==> r.http.owner == Some(c))
    && |r.http.buffer| <= REQ_BUF_LEN
    && (r.http.owner.None? ==> r.http.buffer == [] && r.http.cookie.None?)
    && (r.http.owner.Some? ==>
         && r.http.buffer == Concat(Chunks(r.log, r.http.owner.value))
         && r.http.cookie == Cookie(r.log, r.http.owner.value, ulongMax))
  }

  /** How one entry changes what the log says of each client. */
  lemma LogGrows(log: seq<Entry>, ev: Event, reply: Reply, c: nat, ulongMax: nat)
    ensures
      var log' := log + [Called(ev, reply)];
      && Alive(log', c) == (if ev.client == c then ev.status.More? && reply.Pending? else Alive(log, c))
      && Chunks(log', c) == (if ev.client == c then (if ev.first then [] else Chunks(log, c)) + [ev.data] else Chunks(log, c))
      && Cookie(log', c, ulongMax)
         == (if ev.client == c && ev.first then HttpText.CookieIn(ev.headers, ulongMax) else Cookie(log, c, ulongMax))
  {
    assert (log + [Called(ev, reply)])[..|log|] == log;
  }

  lemma StepKeepsInv(su: Suite, ulongMax: nat, r: Run, op: Op)
    requires Inv(r, ulongMax) && Allowed(r.log, op)
    ensures Inv(Step(su, ulongMax, r, op), ulongMax)
  {
    var r' := Step(su, ulongMax, r, op);
    match op
    case Restart(device) =>
      forall c: nat ensures !Alive(r'.log, c) {}
    case Call(ev) =>
      var reply := Callback(su, ulongMax, r.http, ev).1;
      forall c: nat ensures Alive(r'.log, c) <==> r'.http.owner == Some(c) {
        LogGrows(r.log, ev, reply, c, ulongMax);
      }
      if r'.http.owner.Some? {
        LogGrows(r.log, ev, reply, r'.http.owner.value, ulongMax);
        ConcatAppend(Chunks(r.log, ev.client), ev.data);
        ConcatAppend([], ev.data);
        assert [] + [ev.data] == [ev.data];
      }
  }

  lemma {:induction false} ExecuteKeepsInv(su: Suite, ulongMax: nat, r: Run, ops: seq<Op>)
    requires Inv(r, ulongMax) && Disciplined(su, ulongMax, r, ops)
    ensures Inv(Execute(su, ulongMax, r, ops), ulongMax)
    decreases |ops|
  {
    if ops != [] {
      StepKeepsInv(su, ulongMax, r, ops[0]);
      ExecuteKeepsInv(su, ulongMax, Step(su, ulongMax, r, ops[0]), ops[1..]);
    }
  }

  /** The body of the request that the callback belongs to, so far. */
  function BodyOf(log: seq<Entry>, ev: Event): Bytes {
    Concat(Chunks(log + [Called(ev, Pending)], ev.client))
  }

  function CookieOf(log: seq<Entry>, ev: Event, ulongMax: nat): Option<uint32> {
    Cookie(log + [Called(ev, Pending)], ev.client, ulongMax)
  }

  ghost predicate OtherAlive(log: seq<Entry>, c: nat) {
    exists o: nat :: o != c && Alive(log, o)
  }

  /** The outcome of a final callback, told from the record alone: the dispatcher is given the
      concatenation of that request's chunks and of no other, on the existing security context
      exactly when the request's cookie is the current session's id, on a newly opened one
      otherwise; unless another client's request is in progress or the body is over 4096 bytes. */
  ghost predicate FinalOutcome(su: Suite, ulongMax: nat, r: Run, ev: Event) {
    var (h, reply) := Callback(su, ulongMax, r.http, ev);
    var cookie := CookieOf(r.log, ev, ulongMax);
    if OtherAlive(r.log, ev.client) then h == r.http && reply == Rejected(EBUSY)
    else if |BodyOf(r.log, ev)| > REQ_BUF_LEN then h == Idle(r.http) && reply == Rejected(ENOMEM)
    else
      var resumed := cookie.Some? && r.http.session == cookie;
      var session := if resumed then cookie.value else ev.id;
      var base := if resumed then r.http.device else Open(su, r.http.device, ev.key);
      var (d, a) := Dispatch(su, base, ev.rq.(name := ev.Endpoint(), body := BodyOf(r.log, ev)));
      && h == Http([], None, None, Some(session), d)
      && reply == Answered(a, ev.encoded, session)
  }

  lemma InvGivesOutcome(su: Suite, ulongMax: nat, r: Run, ev: Event)
    requires Inv(r, ulongMax) && Allowed(r.log, Call(ev)) && ev.status.Final?
    ensures FinalOutcome(su, ulongMax, r, ev)
  {
    LogGrows(r.log, ev, Pending, ev.client, ulongMax);
    ConcatAppend(Chunks(r.log, ev.client), ev.data);
    ConcatAppend([], ev.data);
    assert [] + [ev.data] == [ev.data];
    var mine := r.http.owner == Some(ev.client);
    if r.http.owner.Some? && !mine {
      assert Alive(r.log, r.http.owner.value);
    } else {
      assert r.http.buffer + ev.data == BodyOf(r.log, ev);
    }
  }

  /** Reassembly and session identity, for every interleaving of callbacks from any number of
      clients that keeps to the server's discipline. */
  lemma Reassembly(su: Suite, ulongMax: nat, device: Device, ops: seq<Op>, ev: Event)
    requires Disciplined(su, ulongMax, Run(Start(device), []), ops)
    requires ev.status.Final? && Allowed(Execute(su, ulongMax, Run(Start(device), []), ops).log, Call(ev))
    ensures FinalOutcome(su, ulongMax, Execute(su, ulongMax, Run(Start(device), []), ops), ev)
  {
    ExecuteKeepsInv(su, ulongMax, Run(Start(device), []), ops);
    InvGivesOutcome(su, ulongMax, Execute(su, ulongMax, Run(Start(device), []), ops), ev);
  }

  /** What the client is sent for the answer of the dispatcher. */
  predicate SendsAnswer(reply: Reply, response: Result<Response>, encoded: Bytes, session: uint32) {
    match response
    case Err(_) => reply == ServerError
    case Ok(Raw(body)) =>
      reply == if |body| <= 4096 then Sent(body, "session=" + HttpText.Decimal.Print(session)) else ServerError
    case Ok(Session(_)) =>
      reply == if |encoded| <= 4096 then Sent(encoded, "session=" + HttpText.Decimal.Print(session)) else ServerError
  }

  /** In every disciplined run, a final callback that is dispatched sends the bytes of the answer, as they
      are, with the id of the session it ran on, or a server error exactly if the dispatch failed or
      the bytes are more than 4096. */
  lemma SendsWhatIsAnswered(su: Suite, ulongMax: nat, device: Device, ops: seq<Op>, ev: Event)
    requires Disciplined(su, ulongMax, Run(Start(device), []), ops)
    requires ev.status.Final? && Allowed(Execute(su, ulongMax, Run(Start(device), []), ops).log, Call(ev))
    requires
      var log := Execute(su, ulongMax, Run(Start(device), []), ops).log;
      !OtherAlive(log, ev.client) && |BodyOf(log, ev)| <= REQ_BUF_LEN
    ensures
      var r := Execute(su, ulongMax, Run(Start(device), []), ops);
      var cookie := CookieOf(r.log, ev, ulongMax);
      var resumed := cookie.Some? && r.http.session == cookie;
      var base := if resumed then r.http.device else Open(su, r.http.device, ev.key);
      SendsAnswer(Callback(su, ulongMax, r.http, ev).1,
                  Dispatch(su, base, ev.rq.(name := ev.Endpoint(), body := BodyOf(r.log, ev))).1.response,
                  ev.encoded, if resumed then cookie.value else ev.id)
  {
    Reassembly(su, ulongMax, device, ops, ev);
  }

  /** At most one request is in progress, and nothing is buffered between requests. */
  lemma OneRequest(su: Suite, ulongMax: nat, device: Device, ops: seq<Op>, a: nat, b: nat)
    requires Disciplined(su, ulongMax, Run(Start(device), []), ops)
    ensures
      var r := Execute(su, ulongMax, Run(Start(device), []), ops);
      && (Alive(r.log, a) && Alive(r.log, b) ==> a == b)
      && (Alive(r.log, a) ==> r.http.buffer == Concat(Chunks(r.log, a)) && |r.http.buffer| <= REQ_BUF_LEN)
      && ((forall c: nat :: !Alive(r.log, c)) ==> r.http.buffer == [])
  {
    ExecuteKeepsInv(su, ulongMax, Run(Start(device), []), ops);
  }

  /** A client that sends back the cookie it was given, alone or among others, stays on the
      session that gave it, as long as no other request has opened one. */
  lemma EchoResumes(su: Suite, ulongMax: nat, h: Http, ev: Event, next: Event, before: string, rest: string)
    requires UINT32_MAX <= ulongMax && h.owner.None? && h.buffer == []
    requires ev.status.Final? && next.status.Final? && |next.data| <= REQ_BUF_LEN
    requires Callback(su, ulongMax, h, ev).1.Sent?
    requires HttpText.FindKey(before, 0).None? && (rest == "" || !HttpText.Decimal.IsDigit(rest[0]))
    requires next.headers == Some([HttpText.Header(Some("cookie"),
                                    Some(before + (Callback(su, ulongMax, h, ev).1.cookie + rest)))])
    ensures
      var h1 := Callback(su, ulongMax, h, ev).0;
      Callback(su, ulongMax, h1, next).0.device
      == Dispatch(su, h1.device, next.rq.(name := next.Endpoint(), body := next.data)).0
  {
    var (h1, reply) := Callback(su, ulongMax, h, ev);
    var id := h1.session.value;
    assert reply.cookie == HttpText.CookieText(id);
    var hs := next.headers.value;
    assert HttpText.Lower("cookie") == HttpText.Lower("Cookie");
    assert HttpText.IsCookie(hs[0]);
    HttpText.CookieRoundTrip(id, before, rest, ulongMax);
    assert HttpText.CookieIn(next.headers, ulongMax) == Some(id);
    assert h1.buffer + next.data == next.data;
  }

  // Independence of chunking.

  /** The first callback alone carries the headers; the last is final. */
  function Chunk(ev: Event, data: Bytes, first: bool, last: bool): Event {
    ev.(data := data, first := first, headers := if first then ev.headers else None,
        status := if last then Final else More)
  }

  /** The callbacks of one request without another client's in between; it stops at an error. */
  function Feed(su: Suite, ulongMax: nat, h: Http, ev: Event, chunks: seq<Bytes>, first: bool): (Http, Reply)
    requires chunks != []
    decreases |chunks|
  {
    var last := |chunks| == 1;
    var (h', reply) := Callback(su, ulongMax, h, Chunk(ev, chunks[0], first, last));
    if last || reply.Rejected? then (h', reply) else Feed(su, ulongMax, h', ev, chunks[1..], false)
  }

  lemma {:induction false} FeedFrom(su: Suite, ulongMax: nat, h: Http, ev: Event, chunks: seq<Bytes>, first: bool)
    requires chunks != [] && |h.buffer| <= REQ_BUF_LEN && (h.owner.None? || h.owner == Some(ev.client))
    ensures Feed(su, ulongMax, h, ev, chunks, first)
            == Callback(su, ulongMax, h, Chunk(ev, Concat(chunks), first, true))
    decreases |chunks|
  {
    if |chunks| == 1 {
      assert chunks[1..] == [];
      assert Concat(chunks) == chunks[0];
    } else {
      var h' := Callback(su, ulongMax, h, Chunk(ev, chunks[0], first, false)).0;
      if |h.buffer| + |chunks[0]| <= REQ_BUF_LEN {
        FeedFrom(su, ulongMax, h', ev, chunks[1..], false);
        assert h'.buffer + Concat(chunks[1..]) == h.buffer + Concat(chunks);
      }
    }
  }

  /** Chunking does not matter: state and reply are those of the whole body sent at once. */
  lemma ChunkingIrrelevant(su: Suite, ulongMax: nat, h: Http, ev: Event, a: seq<Bytes>, b: seq<Bytes>)
    requires h.owner.None? && h.buffer == [] && a != [] && b != [] && Concat(a) == Concat(b)
    ensures Feed(su, ulongMax, h, ev, a, true) == Feed(su, ulongMax, h, ev, b, true)
    ensures Feed(su, ulongMax, h, ev, a, true).1.Rejected? <==> |Concat(a)| > REQ_BUF_LEN
  {
    FeedFrom(su, ulongMax, h, ev, a, true);
    FeedFrom(su, ulongMax, h, ev, b, true);
  }

  class HttpTransport {
    const ulongMax: nat
    const reqBuf: array<bv8>
    var reqLen: nat
    var reqClient: Option<nat>
    var reqCookiePresent: bool
    var reqCookieId: uint32
    var sessionValid: bool
    var sessionId: uint32
    var pc: ProtocommInstance

    ghost predicate Valid()
      reads this, pc, pc.secCtx
    {
      reqBuf.Length == REQ_BUF_LEN && reqLen <= REQ_BUF_LEN && pc.Valid()
    }

    ghost function State(): Http
      requires Valid()
      reads this, reqBuf, pc, pc.endpoints, pc.secCtx
    {
      Http(reqBuf[..reqLen], reqClient,
           if reqCookiePresent then Some(reqCookieId) else None,
           if sessionValid then Some(sessionId) else None,
           pc.State())
    }

    constructor (ulongMax: nat, pc: ProtocommInstance)
      requires pc.Valid()
      ensures Valid() && fresh(reqBuf) && this.pc == pc && this.ulongMax == ulongMax
      ensures State() == Start(pc.State())
    {
      this.ulongMax := ulongMax;
      this.pc := pc;
      reqBuf := new bv8[REQ_BUF_LEN](_ => 0);
      reqLen, reqClient := 0, None;
      reqCookiePresent, reqCookieId := false, 0;
      sessionValid, sessionId := false, 0;
    }

    method HttpStart(pc: ProtocommInstance)
      requires Valid() && pc.Valid()
      modifies this
      ensures Valid() && this.pc == pc && State() == Start(pc.State())
    {
      this.pc := pc;
      reqLen := 0;
      reqCookiePresent := false;
      reqClient := None;
      sessionValid := false;
    }

    method ResetRequest()
      requires Valid()
      modifies this`reqLen, this`reqCookiePresent, this`reqClient
      ensures Valid() && State() == Idle(old(State()))
    {
      reqLen := 0;
      reqCookiePresent := false;
      reqClient := None;
    }

    method StartNewSession(key: Option<Bytes>, id: uint32)
      requires Valid()
      modifies this`sessionValid, this`sessionId, pc`secCtx
      ensures Valid() && (pc.secCtx != null ==> fresh(pc.secCtx))
      ensures State() == old(State()).(session := Some(id), device := Open(pc.su, old(pc.State()), key))
    {
      pc.OpenSession(key);
      sessionId := id;
      sessionValid := true;
    }

    method OnCallback(ev: Event) returns (reply: Reply)
      requires Valid() && HttpText.NoNul(ev.url)
      modifies this, reqBuf, pc`secCtx, pc.secCtx
      ensures Valid() && pc == old(pc)
      ensures (State(), reply) == Callback(pc.su, ulongMax, old(State()), ev)
    {
      if ev.status.Aborted? || ev.status.Complete? {
        if reqClient == Some(ev.client) {
          ResetRequest();
        }
        return Pending;
      }
      if reqClient != None && reqClient != Some(ev.client) {
        return Rejected(EBUSY);
      }
      Latch(ev);
      if |ev.data| + reqLen > REQ_BUF_LEN {
        ResetRequest();
        return Rejected(ENOMEM);
      }
      CopyIn(ev.data);
      if !ev.status.Final? {
        return Pending;
      }
      EnsureSession(ev);
      reply := Finish(ev);
    }

    /** Own the request and, on the callback that carries the headers, keep its cookie. */
    method Latch(ev: Event)
      requires Valid()
      modifies this`reqClient, this`reqCookiePresent, this`reqCookieId
      ensures Valid()
      ensures State() == old(State()).(
                owner := Some(ev.client),
                cookie := if ev.headers.Some? then HttpText.CookieIn(ev.headers, ulongMax) else old(State()).cookie)
    {
      reqClient := Some(ev.client);
      if ev.headers.Some? {
        var id := HttpText.GetCookieSession(ev.headers, ulongMax);
        reqCookiePresent := id.Some?;
        if id.Some? {
          reqCookieId := id.value;
        }
      }
    }

    /** memcpy at the running length. */
    method CopyIn(data: Bytes)
      requires Valid() && reqLen + |data| <= REQ_BUF_LEN
      modifies this`reqLen, reqBuf
      ensures Valid() && State() == old(State()).(buffer := old(State()).buffer + data)
    {
      var len := reqLen;
      ghost var was := reqBuf[..len];
      for i := 0 to |data|
        invariant reqLen == len && reqBuf[..len] == was
        invariant reqBuf[len..len + i] == data[..i]
      {
        reqBuf[len + i] := data[i];
        assert reqBuf[len..len + i + 1] == reqBuf[len..len + i] + [data[i]];
        assert data[..i + 1] == data[..i] + [data[i]];
      }
      assert data[..|data|] == data;
      assert reqBuf[..len + |data|] == reqBuf[..len] + reqBuf[len..len + |data|];
      reqLen := len + |data|;
    }

    method EnsureSession(ev: Event)
      requires Valid()
      modifies this`sessionValid, this`sessionId, pc`secCtx
      ensures Valid() && (pc.secCtx != null ==> pc.secCtx == old(pc.secCtx) || fresh(pc.secCtx))
      ensures sessionValid && State() == WithSession(pc.su, old(State()), ev)
    {
      if reqCookiePresent && sessionValid && reqCookieId == sessionId {
        return;
      }
      StartNewSession(ev.key, ev.id);
    }

    /** The body is complete and its session picked: dispatch and answer. */
    method Finish(ev: Event) returns (reply: Reply)
      requires Valid() && sessionValid && HttpText.NoNul(ev.url)
      modifies this`reqLen, this`reqCookiePresent, this`reqClient, pc.secCtx
      ensures Valid()
      ensures
        var (d, a) := Dispatch(pc.su, old(pc.State()), ev.rq.(name := ev.Endpoint(), body := old(State()).buffer));
        && State() == Idle(old(State())).(device := d)
        && reply == Answered(a, ev.encoded, old(sessionId))
    {
      var name := EndpointName(ev);
      var body := reqBuf[..reqLen];
      var a := pc.ReqHandle(ev.rq.(name := name, body := body));
      ResetRequest();
      if a.response.Err? {
        return ServerError;
      }
      var out := Wire(a.response.value, ev.encoded);
      if |out| > RESP_BUF_LEN {
        return ServerError;
      }
      reply := Sent(out, HttpText.CookieText(sessionId));
    }

    method EndpointName(ev: Event) returns (name: string)
      requires HttpText.NoNul(ev.url)
      ensures name == ev.Endpoint()
    {
      if ev.name.Some? {
        return ev.name.value;
      }
      var out := new char[HttpText.EP_NAME_MAX];
      HttpText.EpNameFromUrl(ev.url, out);
      name := HttpText.CString(out[..]);
    }
  }
}
