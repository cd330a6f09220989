/** A client's whole session over HTTP: the handshake on the session endpoint and a conversation with the
    data endpoints, request by request, through the transport's callbacks. */
module HttpConversation {
  import opened Common
  import opened Keystream
  import opened Security1
  import opened ProvClient
  import opened Protocomm
  import opened LockStep
  import Http = SoftAp
  import HttpText

  /** What a request needs besides its endpoint, body and cookie. */
  datatype Context = Context(client: nat, key: Option<Bytes>, id: uint32, encoded: Bytes)

  /** Endpoints with a resource of their own; the others are reached by path. */
  predicate HasResource(name: string) {
    name in ["proto-ver", "prov-session", "prov-scan", "prov-config", "prov-ctrl"]
  }

  predicate Routed(name: string) {
    HasResource(name) || ('?' !in name && |name| <= 15)
  }

  /** A request sent as one callback. */
  function Post(rq: Request, cookie: Option<string>, x: Context): Http.Event {
    Http.Event(x.client, Http.Final, true,
               Some(if cookie.Some? then [HttpText.Header(Some("Cookie"), cookie)] else []),
               rq.body, if HasResource(rq.name) then Some(rq.name) else None, "/" + rq.name,
               x.key, x.id, rq, x.encoded)
  }

  lemma PostEndpoint(rq: Request, cookie: Option<string>, x: Context)
    requires Routed(rq.name)
    ensures Post(rq, cookie, x).Endpoint() == rq.name
  {
    HttpText.RouteRoundTrip(rq.name, "");
  }

  /** No request is in progress. */
  predicate Free(h: Http.Http) {
    h.owner.None? && h.buffer == [] && h.cookie.None?
  }

  lemma CookieRead(id: uint32, ulongMax: nat)
    requires UINT32_MAX <= ulongMax
    ensures HttpText.CookieIn(Some([HttpText.Header(Some("Cookie"), Some(HttpText.CookieText(id)))]), ulongMax) == Some(id)
  {
    var hs := [HttpText.Header(Some("Cookie"), Some(HttpText.CookieText(id)))];
    assert HttpText.IsCookie(hs[0]);
    HttpText.FirstCookieCounts(hs, 0, ulongMax);
    HttpText.CookieRoundTrip(id, "", "", ulongMax);
    assert "" + (HttpText.CookieText(id) + "") == HttpText.CookieText(id);
  }

  /** With the cookie of the current session, a request that fits is dispatched on its device. */
  lemma PostServes(su: Suite, ulongMax: nat, h: Http.Http, rq: Request, id: uint32, x: Context)
    requires UINT32_MAX <= ulongMax && Free(h) && h.session == Some(id) && Routed(rq.name)
    requires |rq.body| <= Http.REQ_BUF_LEN
    ensures
      var (d, a) := Dispatch(su, h.device, rq);
      Http.Callback(su, ulongMax, h, Post(rq, Some(HttpText.CookieText(id)), x))
      == (h.(device := d), Http.Answered(a, x.encoded, id))
  {
    PostEndpoint(rq, Some(HttpText.CookieText(id)), x);
    CookieRead(id, ulongMax);
    assert h.buffer + rq.body == rq.body;
    assert rq.(name := rq.name, body := rq.body) == rq;
  }

  /** Without a cookie, it opens a session. */
  lemma PostOpens(su: Suite, ulongMax: nat, h: Http.Http, rq: Request, x: Context)
    requires Free(h) && Routed(rq.name) && |rq.body| <= Http.REQ_BUF_LEN
    ensures
      var (d, a) := Dispatch(su, Open(su, h.device, x.key), rq);
      Http.Callback(su, ulongMax, h, Post(rq, None, x))
      == (h.(session := Some(x.id), device := d), Http.Answered(a, x.encoded, x.id))
  {
    PostEndpoint(rq, None, x);
    HttpText.FirstCookieCounts([], 0, ulongMax);
    assert h.buffer + rq.body == rq.body;
    assert rq.(name := rq.name, body := rq.body) == rq;
  }

  // One exchange.

  /** The client encrypts and posts; the transport serves; the client decrypts what it is sent. */
  function HttpExchange(su: Suite, ulongMax: nat, c: Client, h: Http.Http, q: Ask, cookie: string, x: Context)
    : (Client, Http.Http, Option<Bytes>)
  {
    var (c1, sent) := ClientXform(su, c, q.plain, true);
    if sent.Err? then (c, h, None)
    else
      var (h', reply) := Http.Callback(su, ulongMax, h, Post(ToRequest(q, sent.value), Some(cookie), x));
      if reply.Sent? then
        var (c2, back) := ClientXform(su, c1, reply.body, true);
        (c2, h', if back.Ok? then Some(back.value) else None)
      else (c1, h', None)
  }

  /** The transport takes requests and sends responses of at most 4096 bytes. */
  function OverHttp(q: Ask): Ask {
    q.(arrives := |q.plain| <= 4096, delivered := q.reply.Fail? || |q.reply.body| <= 4096)
  }

  /** A data endpoint answers with as many bytes as its handler, or with an error. */
  lemma DataAnswerSize(su: Suite, d: Device, rq: Request)
    requires IsDataEndpoint(d, rq.name) || IsUnknown(d, rq.name)
    ensures
      var a := Dispatch(su, d, rq).1;
      a.response.Ok? ==> a.response.value.Raw? && rq.reply.Reply? && |a.response.value.body| == |rq.reply.body|
  {}

  /** An exchange over HTTP under the session's cookie is the exchange of the two ends. */
  lemma HttpIsExchange(su: Suite, ulongMax: nat, c: Client, h: Http.Http, q: Ask, id: uint32, x: Context)
    requires UINT32_MAX <= ulongMax && Free(h) && h.session == Some(id) && Routed(q.name)
    requires IsDataEndpoint(h.device, q.name) || IsUnknown(h.device, q.name)
    ensures
      var (p, got) := Exchange(su, Pair(c, h.device), OverHttp(q));
      HttpExchange(su, ulongMax, c, h, q, HttpText.CookieText(id), x) == (p.client, h.(device := p.device), got.recovered)
  {
    var (c1, sent) := ClientXform(su, c, q.plain, true);
    if sent.Ok? {
      var rq := ToRequest(q, sent.value);
      assert ToRequest(OverHttp(q), sent.value) == rq;
      DataAnswerSize(su, h.device, rq);
      if |q.plain| <= 4096 {
        PostServes(su, ulongMax, h, rq, id, x);
      } else {
        assert Http.Callback(su, ulongMax, h, Post(rq, Some(HttpText.CookieText(id)), x)) == (h, Http.Rejected(ENOMEM));
      }
    }
  }

  // A conversation.

  function HttpConverse(su: Suite, ulongMax: nat, c: Client, h: Http.Http, asks: seq<Ask>, cookie: string, x: Context)
    : (Client, Http.Http, seq<Option<Bytes>>)
    decreases |asks|
  {
    if asks == [] then (c, h, [])
    else
      var (c1, h1, got) := HttpExchange(su, ulongMax, c, h, asks[0], cookie, x);
      var (c2, h2, rest) := HttpConverse(su, ulongMax, c1, h1, asks[1..], cookie, x);
      (c2, h2, [got] + rest)
  }

  /** What the client gets back for each request. */
  function Recovered(d: Device, asks: seq<Ask>): seq<Option<Bytes>> {
    seq(|asks|, i requires 0 <= i < |asks| => Owed(d, OverHttp(asks[i])).recovered)
  }

  function HttpCost(d: Device, asks: seq<Ask>): nat {
    if asks == [] then 0 else Cost(d, OverHttp(asks[0])) + HttpCost(d, asks[1..])
  }

  /** The request is fair as HTTP carries it, and reaches the endpoint it names. */
  predicate FairOverHttp(d: Device, q: Ask) {
    Fair(d, OverHttp(q)) && Routed(q.name)
  }

  lemma {:induction false} SameTable(d: Device, d': Device, asks: seq<Ask>)
    requires d.table == d'.table
    ensures Recovered(d, asks) == Recovered(d', asks) && HttpCost(d, asks) == HttpCost(d', asks)
    ensures (forall q :: q in asks ==> FairOverHttp(d, q)) ==> (forall q :: q in asks ==> FairOverHttp(d', q))
  {
    forall q: Ask ensures FairOverHttp(d, q) == FairOverHttp(d', q) && Owed(d, OverHttp(q)) == Owed(d', OverHttp(q)) {
      LockStep.SameTable(d, d', OverHttp(q));
    }
    if asks != [] {
      SameTable(d, d', asks[1..]);
      LockStep.SameTable(d, d', OverHttp(asks[0]));
    }
  }

  lemma FairHttpExchange(su: Suite, ulongMax: nat, c: Client, h: Http.Http, q: Ask, id: uint32, x: Context)
    requires UINT32_MAX <= ulongMax && Free(h) && h.session == Some(id)
    requires InStep(Pair(c, h.device)) && FairOverHttp(h.device, q)
    ensures
      var (c', h', got) := HttpExchange(su, ulongMax, c, h, q, HttpText.CookieText(id), x);
      && InStep(Pair(c', h'.device)) && h' == h.(device := h'.device) && h'.device.table == h.device.table
      && got == Owed(h.device, OverHttp(q)).recovered
      && c'.cipher.value == c.cipher.value.Advance(Cost(h.device, OverHttp(q)))
  {
    HttpIsExchange(su, ulongMax, c, h, q, id, x);
    FairExchange(su, Pair(c, h.device), OverHttp(q));
  }

  /** Along every conversation of requests and responses that fit, client and device stay in step and the
      client recovers from each reply exactly what the handler answered. */
  lemma {:induction false} HttpInStep(su: Suite, ulongMax: nat, c: Client, h: Http.Http, asks: seq<Ask>, id: uint32, x: Context)
    requires UINT32_MAX <= ulongMax && Free(h) && h.session == Some(id) && InStep(Pair(c, h.device))
    requires forall q :: q in asks ==> FairOverHttp(h.device, q)
    ensures
      var (c', h', got) := HttpConverse(su, ulongMax, c, h, asks, HttpText.CookieText(id), x);
      && InStep(Pair(c', h'.device))
      && got == Recovered(h.device, asks)
      && c'.cipher.value == c.cipher.value.Advance(HttpCost(h.device, asks))
    decreases |asks|
  {
    if asks != [] {
      FairHttpExchange(su, ulongMax, c, h, asks[0], id, x);
      var (c1, h1, _) := HttpExchange(su, ulongMax, c, h, asks[0], HttpText.CookieText(id), x);
      SameTable(h.device, h1.device, asks[1..]);
      HttpInStep(su, ulongMax, c1, h1, asks[1..], id, x);
    }
  }

  // The handshake.

  const SESSION_EP := "prov-session"

  /** The replies a handshake can use. */
  predicate Sized(r: SessionReply) {
    match r
    case Response0(pubkey, random) => |pubkey| == PUBKEY_LEN && |random| == RANDOM_LEN
    case Response1(verify) => |verify| == PUBKEY_LEN
  }

  /** Session replies as bytes: what is encoded is decoded, and fits a response. */
  datatype Codec = Codec(encode: SessionReply -> Bytes, decode: Bytes -> Option<SessionReply>) {
    ghost predicate Faithful() {
      forall r :: Sized(r) ==> decode(encode(r)) == Some(r) && |encode(r)| <= 4096
    }
  }

  /** Such a codec exists. */
  lemma CodecExists() returns (codec: Codec)
    ensures codec.Faithful()
  {
    var encode := (r: SessionReply) =>
      match r case Response0(pubkey, random) => pubkey + random case Response1(verify) => verify;
    var decode := (b: Bytes) =>
      if |b| == 48 then Some(Response0(b[..32], b[32..])) else if |b| == 32 then Some(Response1(b)) else None;
    codec := Codec(encode, decode);
    forall r: SessionReply | Sized(r) ensures decode(encode(r)) == Some(r) && |encode(r)| <= 4096 {
      if r.Response0? {
        assert (r.devicePubkey + r.deviceRandom)[..32] == r.devicePubkey;
        assert (r.devicePubkey + r.deviceRandom)[32..] == r.deviceRandom;
      }
    }
  }

  /** A session message with the bytes that carry it. */
  datatype Message = Message(msg: SessionMsg, body: Bytes, psa: Psa)

  function SessionRequest(m: Message): Request {
    Request(SESSION_EP, m.body, m.msg, m.psa, Faults(true, true, true, true), Reply([]))
  }

  /** The encoded form of the session reply the request will get, if it gets one. */
  function Encoded(su: Suite, ulongMax: nat, h: Http.Http, ev: Http.Event, codec: Codec): Bytes {
    var a := Dispatch(su, Http.WithSession(su, Http.Taken(ulongMax, h, ev), ev).device, ev.rq).1;
    if a.response.Ok? && a.response.value.Session? then codec.encode(a.response.value.reply) else []
  }

  /** The client posts a session message and decodes the reply it is sent; it keeps the cookie. */
  function SessionPost(su: Suite, ulongMax: nat, h: Http.Http, m: Message, cookie: Option<string>, x: Context, codec: Codec)
    : (Http.Http, Option<SessionReply>, string)
  {
    var rq := SessionRequest(m);
    var x' := x.(encoded := Encoded(su, ulongMax, h, Post(rq, cookie, x), codec));
    var (h', reply) := Http.Callback(su, ulongMax, h, Post(rq, cookie, x'));
    if reply.Sent? then (h', codec.decode(reply.body), reply.cookie) else (h', None, "")
  }

  lemma OpeningPost(su: Suite, ulongMax: nat, h: Http.Http, m: Message, x: Context, codec: Codec, key: Bytes)
    requires Free(h) && |m.body| <= 4096 && codec.Faithful() && x.key == Some(key)
    requires Names(h.device, SESSION_EP, Security)
    ensures
      var (s, r) := Handshake(su, Fresh(su, h.device.pop, key), m.msg, m.psa);
      r.Ok? && Sized(r.value) ==>
      var (h', reply, cookie) := SessionPost(su, ulongMax, h, m, None, x, codec);
      && h' == h.(session := Some(x.id), device := h.device.(ctx := Some(s)))
      && reply == Some(r.value) && cookie == HttpText.CookieText(x.id)
  {
    var rq := SessionRequest(m);
    var x' := x.(encoded := Encoded(su, ulongMax, h, Post(rq, None, x), codec));
    HttpText.FirstCookieCounts([], 0, ulongMax);
    PostOpens(su, ulongMax, h, rq, x');
    SessionAnswer(su, Open(su, h.device, x.key), rq);
  }

  lemma ResumingPost(su: Suite, ulongMax: nat, h: Http.Http, m: Message, id: uint32, x: Context, codec: Codec)
    requires UINT32_MAX <= ulongMax && Free(h) && h.session == Some(id) && |m.body| <= 4096 && codec.Faithful()
    requires Names(h.device, SESSION_EP, Security) && h.device.ctx.Some?
    ensures
      var (s, r) := Handshake(su, h.device.ctx.value, m.msg, m.psa);
      r.Ok? && Sized(r.value) ==>
      var (h', reply, _) := SessionPost(su, ulongMax, h, m, Some(HttpText.CookieText(id)), x, codec);
      && h' == h.(device := h.device.(ctx := Some(s)))
      && reply == Some(r.value)
  {
    var rq := SessionRequest(m);
    var cookie := Some(HttpText.CookieText(id));
    var x' := x.(encoded := Encoded(su, ulongMax, h, Post(rq, cookie, x), codec));
    CookieRead(id, ulongMax);
    PostServes(su, ulongMax, h, rq, id, x');
    SessionAnswer(su, h.device, rq);
  }

  /** The client's handshake through the transport: the first message without a cookie, the second with
      the cookie that came back. The bytes of the messages are the client's encoder's. */
  function HttpHandshake(su: Suite, ulongMax: nat, c: Client, h: Http.Http, pop: Bytes, ce: Psa, e0: Psa, e1: Psa,
                         body0: Bytes, body1: Bytes, x: Context, codec: Codec)
    : (Client, Http.Http, Status, string)
  {
    if ce.random.None? then (c, h, Err(EIO), "")
    else
      var c0 := c.(priv := ce.random.value, pub := su.Public(ce.random.value));
      var (h0, r0, cookie) := SessionPost(su, ulongMax, h, Message(Command0(c0.pub), body0, e0), None, x, codec);
      if r0.None? then (c0, h0, Err(EIO), "")
      else if !r0.value.Response0? || |r0.value.devicePubkey| != PUBKEY_LEN
              || |r0.value.deviceRandom| != RANDOM_LEN then (c0, h0, Err(EPROTO), "")
      else
        var (c1, d) := ClientDerive(su, c0.(devicePub := r0.value.devicePubkey), pop, r0.value.deviceRandom, ce);
        if d.Err? then (c1, h0, Err(d.error), "")
        else
          var (c2, verify) := ClientXform(su, c1, c1.devicePub, ce.verify);
          if verify.Err? then (c2, h0, Err(verify.error), "")
          else
            var (h1, r1, _) :=
              SessionPost(su, ulongMax, h0, Message(Command1(verify.value), body1, e1), Some(cookie), x, codec);
            if r1.None? then (c2, h1, Err(EIO), "")
            else
              var (c3, status) := CheckResponse1(su, c2, r1.value, ce.answer);
              (c3, h1, status, cookie)
  }

  /** Through the transport, as between the two ends: whenever the handshake of the two ends returns 0, so
      does the one over HTTP, with the same ends, under the new session's cookie. */
  lemma HttpIsHandshake(su: Suite, ulongMax: nat, c: Client, h: Http.Http, pop: Bytes, ce: Psa, e0: Psa, e1: Psa,
                        body0: Bytes, body1: Bytes, x: Context, codec: Codec, key: Bytes)
    requires UINT32_MAX <= ulongMax && Free(h) && |body0| <= 4096 && |body1| <= 4096 && codec.Faithful()
    requires x.key == Some(key) && Names(h.device, SESSION_EP, Security)
    requires ClientHandshake(su, c, Fresh(su, h.device.pop, key), pop, ce, e0, e1).2 == Ok(())
    ensures
      var (c', s', _) := ClientHandshake(su, c, Fresh(su, h.device.pop, key), pop, ce, e0, e1);
      HttpHandshake(su, ulongMax, c, h, pop, ce, e0, e1, body0, body1, x, codec)
      == (c', h.(session := Some(x.id), device := h.device.(ctx := Some(s'))), Ok(()), HttpText.CookieText(x.id))
  {
    var s := Fresh(su, h.device.pop, key);
    var c0 := c.(priv := ce.random.value, pub := su.Public(ce.random.value));
    var m0 := Message(Command0(c0.pub), body0, e0);
    OpeningPost(su, ulongMax, h, m0, x, codec, key);
    var (s0, r0) := Handshake(su, s, m0.msg, e0);
    var h0 := h.(session := Some(x.id), device := h.device.(ctx := Some(s0)));
    var c1 := ClientDerive(su, c0.(devicePub := r0.value.devicePubkey), pop, r0.value.deviceRandom, ce).0;
    SecondMessage(su, ulongMax, c1, h0, s0, ce, e1, body1, x, codec);
  }

  lemma SecondMessage(su: Suite, ulongMax: nat, c1: Client, h0: Http.Http, s0: Sec1, ce: Psa, e1: Psa,
                      body1: Bytes, x: Context, codec: Codec)
    requires UINT32_MAX <= ulongMax && Free(h0) && |body1| <= 4096 && codec.Faithful()
    requires h0.session == Some(x.id) && h0.device.ctx == Some(s0) && Names(h0.device, SESSION_EP, Security)
    requires VerifyExchange(su, c1, s0, ce, e1).2 == Ok(())
    ensures
      var (c2, verify) := ClientXform(su, c1, c1.devicePub, ce.verify);
      var (c3, s1, _) := VerifyExchange(su, c1, s0, ce, e1);
      && verify.Ok?
      && var (h1, r1, _) := SessionPost(su, ulongMax, h0, Message(Command1(verify.value), body1, e1),
                                        Some(HttpText.CookieText(x.id)), x, codec);
      && r1.Some? && h1 == h0.(device := h0.device.(ctx := Some(s1)))
      && CheckResponse1(su, c2, r1.value, ce.answer) == (c3, Ok(()))
  {
    var verify := ClientXform(su, c1, c1.devicePub, ce.verify).1;
    ResumingPost(su, ulongMax, h0, Message(Command1(verify.value), body1, e1), x.id, x, codec);
  }

  /** A client's whole session over HTTP, from any earlier session of the transport: with one proof of
      possession of at most 63 bytes and no failing call the handshake returns 0, and along every
      conversation of requests and responses of at most 4096 bytes the client recovers from each reply
      exactly what the handler answered, both ends in step. */
  lemma HttpSessionRoundTrip(su: Suite, ulongMax: nat, c: Client, h: Http.Http, ce: Psa, e0: Psa, e1: Psa,
                             body0: Bytes, body1: Bytes, x: Context, codec: Codec, key: Bytes, asks: seq<Ask>)
    requires UINT32_MAX <= ulongMax && Free(h) && |body0| <= 4096 && |body1| <= 4096 && codec.Faithful()
    requires x.key == Some(key) && Names(h.device, SESSION_EP, Security)
    requires su.Symmetric() && |h.device.pop| < POP_MAX
    requires Healthy(ce) && Healthy(e0) && Healthy(e1) && |e0.random.value| == RANDOM_LEN
    requires forall q :: q in asks ==> FairOverHttp(h.device, q)
    ensures
      var (c1, h1, status, cookie) :=
        HttpHandshake(su, ulongMax, c, h, h.device.pop, ce, e0, e1, body0, body1, x, codec);
      var (c2, h2, got) := HttpConverse(su, ulongMax, c1, h1, asks, cookie, x);
      && status == Ok(())
      && InStep(Pair(c2, h2.device))
      && c2.cipher.value.pos == 64 + HttpCost(h.device, asks)
      && got == Recovered(h.device, asks)
  {
    MatchingPopSucceeds(su, c, h.device.pop, key, ce, e0, e1);
    HttpIsHandshake(su, ulongMax, c, h, h.device.pop, ce, e0, e1, body0, body1, x, codec, key);
    var (c1, s1, _) := ClientHandshake(su, c, Fresh(su, h.device.pop, key), h.device.pop, ce, e0, e1);
    var h1 := h.(session := Some(x.id), device := h.device.(ctx := Some(s1)));
    SameTable(h.device, h1.device, asks);
    HttpInStep(su, ulongMax, c1, h1, asks, x.id, x);
  }
}
