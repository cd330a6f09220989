/** Client and device after the handshake: an unbounded conversation over one keystream. */
module LockStep {
  import opened Common
  import opened Keystream
  import opened Security1
  import opened ProvClient
  import opened Protocomm

  datatype Pair = Pair(client: Client, device: Device)

  /** One thing the client asks, with what the handler answers and which parts of the path
      work: the transport takes the request, the device's allocations and PSA calls, and the
      transport delivers the response. */
  datatype Ask = Ask(name: string, plain: Bytes, arrives: bool, faults: Faults, delivered: bool, reply: HandlerReply)

  /** What the handler was given and what the client decrypted. */
  datatype Got = Got(seen: Option<Bytes>, recovered: Option<Bytes>)

  function ToRequest(q: Ask, body: Bytes): Request {
    Request(q.name, body, Undecodable,
            Psa(None, false, false, false, false, false, false, false, false), q.faults, q.reply)
  }

  /** The client encrypts, the device serves, the client decrypts what comes back. */
  function Exchange(su: Suite, p: Pair, q: Ask): (Pair, Got) {
    var (c1, sent) := ClientXform(su, p.client, q.plain, true);
    if sent.Err? then (p, Got(None, None))
    else if !q.arrives then (Pair(c1, p.device), Got(None, None))
    else
      var (d, a) := Dispatch(su, p.device, ToRequest(q, sent.value));
      if q.delivered && a.response.Ok? && a.response.value.Raw? then
        var (c2, back) := ClientXform(su, c1, a.response.value.body, true);
        (Pair(c2, d), Got(a.seen, if back.Ok? then Some(back.value) else None))
      else (Pair(c1, d), Got(a.seen, None))
  }

  function Converse(su: Suite, p: Pair, asks: seq<Ask>): (Pair, seq<Got>)
    decreases |asks|
  {
    if asks == [] then (p, [])
    else
      var (p1, got) := Exchange(su, p, asks[0]);
      var (p2, rest) := Converse(su, p1, asks[1..]);
      (p2, [got] + rest)
  }

  /** Both ends hold the same key, IV and keystream position, and the device is done with the
      handshake. */
  predicate InStep(p: Pair) {
    && p.client.cipher.Some?
    && p.device.ctx.Some?
    && p.device.ctx.value.phase == Done
    && p.device.ctx.value.cipher == p.client.cipher
  }

  predicate IsDataEndpoint(d: Device, name: string) {
    var ep := Find(d.table, name);
    ep.Some? && d.table[ep.value].kind == Data
  }

  predicate IsUnknown(d: Device, name: string) {
    Find(d.table, name).None?
  }

  /** The handler runs: the request arrives, the endpoint exists and the plaintext could be
      recovered. */
  predicate HandlerRuns(d: Device, q: Ask) {
    q.arrives && IsDataEndpoint(d, q.name) && (q.plain == [] || (q.faults.reqAlloc && q.faults.decrypt))
  }

  /** The handler's response is non-empty and gets encrypted. */
  predicate ResponseEncrypted(d: Device, q: Ask) {
    && HandlerRuns(d, q)
    && q.reply.Reply? && q.reply.body != []
    && q.faults.respAlloc && q.faults.encrypt
  }

  /** What a caller can check of one request: every encrypted byte reaches the other end. */
  predicate Clean(d: Device, q: Ask) {
    && (q.plain != [] ==> HandlerRuns(d, q))
    && (ResponseEncrypted(d, q) ==> q.delivered)
  }

  /** What a request is owed: the handler sees the plaintext; the client gets back the handler's
      response, the empty response included, or nothing on an error. */
  function Owed(d: Device, q: Ask): Got {
    if !HandlerRuns(d, q) then Got(None, None)
    else
      Got(Some(q.plain),
          if q.reply.Fail? || !q.delivered then None
          else if q.reply.body == [] then Some([])
          else if ResponseEncrypted(d, q) then Some(q.reply.body)
          else None)
  }

  /** Keystream bytes one clean request uses. */
  function Cost(d: Device, q: Ask): nat {
    |q.plain| + if ResponseEncrypted(d, q) then |q.reply.body| else 0
  }

  function TotalCost(d: Device, asks: seq<Ask>): nat {
    if asks == [] then 0 else Cost(d, asks[0]) + TotalCost(d, asks[1..])
  }

  /** What each request of a conversation is owed. */
  function AllOwed(d: Device, asks: seq<Ask>): seq<Got> {
    seq(|asks|, i requires 0 <= i < |asks| => Owed(d, asks[i]))
  }

  /** A request for a data endpoint, or for no endpoint at all, every byte of which arrives. */
  predicate Fair(d: Device, q: Ask) {
    Clean(d, q) && (IsDataEndpoint(d, q.name) || IsUnknown(d, q.name))
  }

  /** Decryption of the request, as a fact about one cipher. */
  lemma RoundTrip(su: Suite, c: Cipher, data: Bytes)
    ensures Xform(su, c, Xform(su, c, data)) == data
  {
    XformInverse(su, c, c, data);
  }

  /** The data path from two ends in step, up to the handler's answer. */
  lemma ServeInStep(su: Suite, p: Pair, q: Ask)
    requires InStep(p) && IsDataEndpoint(p.device, q.name) && q.arrives
    ensures
      var c := p.client.cipher.value;
      var (d, a) := Dispatch(su, p.device, ToRequest(q, Xform(su, c, q.plain)));
      if !HandlerRuns(p.device, q) then
        d == p.device && a.response.Err? && a.seen == None
      else
        && a.seen == Some(q.plain)
        && d.ctx == Some(p.device.ctx.value.(cipher := Some(c.Advance(Cost(p.device, q)))))
        && d == p.device.(ctx := d.ctx)
        && (ResponseEncrypted(p.device, q) ==>
              a.response == Ok(Raw(Xform(su, c.Advance(|q.plain|), q.reply.body))))
        && (q.reply.Reply? && q.reply.body == [] ==> a.response == Ok(Raw([])))
        && (!ResponseEncrypted(p.device, q) && !(q.reply.Reply? && q.reply.body == []) ==> a.response.Err?)
  {
    RoundTrip(su, p.client.cipher.value, q.plain);
    if q.plain == [] {
      assert Xform(su, p.client.cipher.value, q.plain) == [];
    }
  }

  /** One exchange from two ends in step. They stay in step exactly when the request is clean;
      then the handler sees the client's plaintext and the client recovers the response. */
  lemma ExchangeInStep(su: Suite, p: Pair, q: Ask)
    requires InStep(p) && (IsDataEndpoint(p.device, q.name) || IsUnknown(p.device, q.name))
    ensures InStep(Exchange(su, p, q).0) <==> Clean(p.device, q)
    ensures Exchange(su, p, q).1 == Owed(p.device, q)
    ensures Exchange(su, p, q).0.device.table == p.device.table
    ensures Clean(p.device, q) ==>
              Exchange(su, p, q).0.client.cipher == Some(p.client.cipher.value.Advance(Cost(p.device, q)))
  {
    var c := p.client.cipher.value;
    if q.arrives && IsDataEndpoint(p.device, q.name) {
      ServeInStep(su, p, q);
      if ResponseEncrypted(p.device, q) {
        RoundTrip(su, c.Advance(|q.plain|), q.reply.body);
      }
    }
  }

  lemma SameTable(d: Device, d': Device, q: Ask)
    requires d.table == d'.table
    ensures Owed(d, q) == Owed(d', q) && Cost(d, q) == Cost(d', q) && Fair(d, q) == Fair(d', q)
  {}

  lemma {:induction false} SameTotal(d: Device, d': Device, asks: seq<Ask>)
    requires d.table == d'.table
    ensures TotalCost(d, asks) == TotalCost(d', asks)
    ensures AllOwed(d, asks) == AllOwed(d', asks)
    ensures (forall q :: q in asks ==> Fair(d, q)) ==> (forall q :: q in asks ==> Fair(d', q))
  {
    forall q: Ask ensures Fair(d, q) == Fair(d', q) && Owed(d, q) == Owed(d', q) {
      SameTable(d, d', q);
    }
    if asks != [] {
      SameTotal(d, d', asks[1..]);
      SameTable(d, d', asks[0]);
    }
  }

  /** The step of the conversation proof: all that is kept is the table and the offset. */
  lemma FairExchange(su: Suite, p: Pair, q: Ask)
    requires InStep(p) && Fair(p.device, q)
    ensures
      var (p1, got) := Exchange(su, p, q);
      && InStep(p1)
      && got == Owed(p.device, q)
      && p1.device.table == p.device.table
      && p1.client.cipher.value == p.client.cipher.value.Advance(Cost(p.device, q))
  {
    ExchangeInStep(su, p, q);
  }

  /** Lock-step round trip: along every clean conversation both ends stay at one keystream
      offset, each handler sees exactly what the client asked, the client recovers exactly what
      each handler answered, and the offset grows by the bytes exchanged. */
  lemma {:induction false} ConversationInStep(su: Suite, p: Pair, asks: seq<Ask>)
    requires InStep(p)
    requires forall q :: q in asks ==> Fair(p.device, q)
    ensures InStep(Converse(su, p, asks).0)
    ensures Converse(su, p, asks).1 == AllOwed(p.device, asks)
    ensures Converse(su, p, asks).0.client.cipher.value
              == p.client.cipher.value.Advance(TotalCost(p.device, asks))
    decreases |asks|
  {
    if asks != [] {
      FairExchange(su, p, asks[0]);
      ConverseOn(su, p, asks, Exchange(su, p, asks[0]).0);
    }
  }

  lemma {:induction false} ConverseOn(su: Suite, p: Pair, asks: seq<Ask>, p1: Pair)
    requires asks != [] && p1 == Exchange(su, p, asks[0]).0
    requires InStep(p) && InStep(p1) && p1.device.table == p.device.table
    requires forall q :: q in asks ==> Fair(p.device, q)
    ensures Converse(su, p, asks).0 == Converse(su, p1, asks[1..]).0
    ensures Converse(su, p, asks).1 == [Exchange(su, p, asks[0]).1] + AllOwed(p.device, asks[1..])
    ensures InStep(Converse(su, p1, asks[1..]).0)
    ensures Converse(su, p1, asks[1..]).0.client.cipher.value
              == p1.client.cipher.value.Advance(TotalCost(p.device, asks[1..]))
    decreases |asks|, 0
  {
    SameTotal(p.device, p1.device, asks[1..]);
    ConversationInStep(su, p1, asks[1..]);
  }

  /** From opening the session to the end of the conversation: one proof of possession of at
      most 63 bytes, a handshake without failing calls, then any clean requests. */
  lemma SessionRoundTrip(su: Suite, client: Client, device: Device, key: Bytes,
                         ce: Psa, e0: Psa, e1: Psa, asks: seq<Ask>)
    requires su.Symmetric() && |device.pop| < POP_MAX
    requires Healthy(ce) && Healthy(e0) && Healthy(e1) && |e0.random.value| == RANDOM_LEN
    requires forall q :: q in asks ==> Fair(device, q)
    ensures
      var begun := Open(su, device, Some(key));
      var (c, s, status) := ClientHandshake(su, client, begun.ctx.value, device.pop, ce, e0, e1);
      var (p, got) := Converse(su, Pair(c, begun.(ctx := Some(s))), asks);
      && status == Ok(())
      && InStep(p)
      && p.client.cipher.value.pos == 64 + TotalCost(device, asks)
      && got == AllOwed(device, asks)
  {
    MatchingPopSucceeds(su, client, device.pop, key, ce, e0, e1);
    var (c, s, status) := ClientHandshake(su, client, Fresh(su, device.pop, key), device.pop, ce, e0, e1);
    var p := Pair(c, device.(ctx := Some(s)));
    SameTotal(device, p.device, asks);
    ConversationInStep(su, p, asks);
  }
}
