/** The data gate over HTTP: what the callbacks do to the device is a run of the device, and data
    moves only under the cookie of the session that was authenticated. */
module HttpGate {
  import opened Common
  import opened Keystream
  import opened Protocomm
  import Http = SoftAp
  import opened DeviceGate
  import Runs = DeviceRuns

  /** The callback completes a request that is dispatched. */
  predicate Dispatches(h: Http.Http, ev: Http.Event) {
    && ev.status.Final?
    && (h.owner.None? || h.owner == Some(ev.client))
    && |h.buffer| + |ev.data| <= Http.REQ_BUF_LEN
  }

  /** A new session is opened for it. */
  predicate Opens(ulongMax: nat, h: Http.Http, ev: Http.Event) {
    var taken := Http.Taken(ulongMax, h, ev);
    Dispatches(h, ev) && !(taken.cookie.Some? && taken.session == taken.cookie)
  }

  function RequestOf(ulongMax: nat, h: Http.Http, ev: Http.Event): Request {
    ev.rq.(name := ev.Endpoint(), body := Http.Taken(ulongMax, h, ev).buffer)
  }

  /** What one callback does to the device. */
  function CallbackOps(ulongMax: nat, h: Http.Http, ev: Http.Event): seq<Runs.Op> {
    if Dispatches(h, ev) then Ops(Opens(ulongMax, h, ev), ev.key, RequestOf(ulongMax, h, ev)) else []
  }

  /** The device after a callback is the device after its operations; the session's id changes
      exactly when one is opened. */
  lemma SameDevice(su: Suite, ulongMax: nat, h: Http.Http, r: Runs.Run, ev: Http.Event)
    requires h.device == r.device
    ensures Http.Callback(su, ulongMax, h, ev).0.device == Runs.Execute(su, r, CallbackOps(ulongMax, h, ev)).device
    ensures Http.Callback(su, ulongMax, h, ev).0.session
            == if Opens(ulongMax, h, ev) then Some(ev.id) else h.session
  {
    if Dispatches(h, ev) {
      OpsDevice(su, r, Opens(ulongMax, h, ev), ev.key, RequestOf(ulongMax, h, ev));
    }
  }

  /** The transport after any callbacks. */
  function AfterCallbacks(su: Suite, ulongMax: nat, h: Http.Http, evs: seq<Http.Event>): Http.Http
    decreases |evs|
  {
    if evs == [] then h else AfterCallbacks(su, ulongMax, Http.Callback(su, ulongMax, h, evs[0]).0, evs[1..])
  }

  /** What they do to the device, one after another. */
  function AllOps(su: Suite, ulongMax: nat, h: Http.Http, evs: seq<Http.Event>): seq<Runs.Op>
    decreases |evs|
  {
    if evs == [] then []
    else CallbackOps(ulongMax, h, evs[0]) + AllOps(su, ulongMax, Http.Callback(su, ulongMax, h, evs[0]).0, evs[1..])
  }

  /** Every run of callbacks, disciplined or not, leaves the transport's device where a run of opens
      and requests leaves it. */
  lemma {:induction false} IsDeviceRun(su: Suite, ulongMax: nat, h: Http.Http, r: Runs.Run, evs: seq<Http.Event>)
    requires h.device == r.device
    ensures AfterCallbacks(su, ulongMax, h, evs).device == Runs.Execute(su, r, AllOps(su, ulongMax, h, evs)).device
    decreases |evs|
  {
    if evs != [] {
      var ops := CallbackOps(ulongMax, h, evs[0]);
      var h1 := Http.Callback(su, ulongMax, h, evs[0]).0;
      SameDevice(su, ulongMax, h, r, evs[0]);
      ExecuteAppend(su, r, ops, AllOps(su, ulongMax, h1, evs[1..]));
      IsDeviceRun(su, ulongMax, h1, Runs.Execute(su, r, ops), evs[1..]);
    }
  }

  /** The transport's run, the device's run beside it, and the id drawn when the session was last
      opened. */
  datatype Joint = Joint(http: Http.Run, device: Runs.Run, session: Option<uint32>)

  function Begin(table: seq<Endpoint>, pop: Bytes, version: Bytes): Joint {
    var run := Runs.Start(table, pop, version);
    Joint(Http.Run(Http.Start(run.device), []), run, None)
  }

  function Next(su: Suite, ulongMax: nat, j: Joint, ev: Http.Event): Joint {
    Joint(Http.Step(su, ulongMax, j.http, Http.Call(ev)),
          Runs.Execute(su, j.device, CallbackOps(ulongMax, j.http.http, ev)),
          if Opens(ulongMax, j.http.http, ev) then Some(ev.id) else j.session)
  }

  function Execute(su: Suite, ulongMax: nat, j: Joint, evs: seq<Http.Event>): Joint
    decreases |evs|
  {
    if evs == [] then j else Execute(su, ulongMax, Next(su, ulongMax, j, evs[0]), evs[1..])
  }

  /** The server keeps to its discipline. */
  predicate Disciplined(su: Suite, ulongMax: nat, j: Joint, evs: seq<Http.Event>)
    decreases |evs|
  {
    evs == [] ||
    (Http.Allowed(j.http.log, Http.Call(evs[0])) && Disciplined(su, ulongMax, Next(su, ulongMax, j, evs[0]), evs[1..]))
  }

  ghost predicate Inv(j: Joint, ulongMax: nat) {
    && Http.Inv(j.http, ulongMax)
    && Runs.Inv(j.device)
    && j.http.http.device == j.device.device
    && j.http.http.session == j.session
  }

  lemma NextKeepsInv(su: Suite, ulongMax: nat, j: Joint, ev: Http.Event)
    requires Inv(j, ulongMax) && Http.Allowed(j.http.log, Http.Call(ev))
    ensures Inv(Next(su, ulongMax, j, ev), ulongMax)
  {
    Http.StepKeepsInv(su, ulongMax, j.http, Http.Call(ev));
    Runs.ExecuteKeepsInv(su, j.device, CallbackOps(ulongMax, j.http.http, ev));
    SameDevice(su, ulongMax, j.http.http, j.device, ev);
  }

  lemma {:induction false} ExecuteKeepsInv(su: Suite, ulongMax: nat, j: Joint, evs: seq<Http.Event>)
    requires Inv(j, ulongMax) && Disciplined(su, ulongMax, j, evs)
    ensures Inv(Execute(su, ulongMax, j, evs), ulongMax)
    decreases |evs|
  {
    if evs != [] {
      NextKeepsInv(su, ulongMax, j, evs[0]);
      ExecuteKeepsInv(su, ulongMax, Next(su, ulongMax, j, evs[0]), evs[1..]);
    }
  }

  /** Data gate over HTTP: in every disciplined run, if a callback makes a handler see non-empty
      plaintext or a non-empty data response leave, then its request carried the cookie of the
      session opened last, and since that opening the last accepted Command0 was followed by a
      verified Command1. The device's run told of is the transport's own. */
  lemma HttpDataGate(su: Suite, ulongMax: nat, table: seq<Endpoint>, pop: Bytes, version: Bytes,
                     evs: seq<Http.Event>, ev: Http.Event)
    requires Disciplined(su, ulongMax, Begin(table, pop, version), evs)
    requires Http.Allowed(Execute(su, ulongMax, Begin(table, pop, version), evs).http.log, Http.Call(ev))
    ensures
      var j := Execute(su, ulongMax, Begin(table, pop, version), evs);
      && j.http.http.device == j.device.device && j.http.http.session == j.session
      && (HasData(Added(su, j.device, CallbackOps(ulongMax, j.http.http, ev))) ==>
            && j.session.Some? && Http.CookieOf(j.http.log, ev, ulongMax) == j.session
            && Runs.Authenticated(j.device.log))
  {
    ExecuteKeepsInv(su, ulongMax, Begin(table, pop, version), evs);
    var j := Execute(su, ulongMax, Begin(table, pop, version), evs);
    if Dispatches(j.http.http, ev) {
      DataNeedsSession(su, j.device, Opens(ulongMax, j.http.http, ev), ev.key, RequestOf(ulongMax, j.http.http, ev));
      Http.LogGrows(j.http.log, ev, Http.Pending, ev.client, ulongMax);
    }
  }
}
