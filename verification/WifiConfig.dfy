/** The Wi-Fi configuration handler: staged credentials, the in-flight snapshot, the attempt
    budget, the deferred retry and the credential store. */
module WifiConfig {
  import opened Common

  const SSID_MAX := 32
  const PASS_MAX := 63
  const BSSID_LEN := 6

  /** Connect parameters. An empty SSID means none. */
  datatype Cred = Cred(ssid: Bytes, pass: Bytes, bssid: Option<Bytes>, channel: bv8)

  const NO_CRED := Cred([], [], None, 0)

  datatype SecurityType = Open | Psk

  /** An entry of the persistent store. */
  datatype Entry = Entry(security: SecurityType, pass: Bytes, bssid: Option<Bytes>, channel: bv8)

  function EntryOf(c: Cred): Entry {
    Entry(if c.pass == [] then Open else Psk, c.pass, c.bssid, c.channel)
  }

  datatype StationState = Connected | Connecting | Disconnected | ConnectionFailed

  datatype FailReason = AuthError | NetworkNotFound

  /** The connect failure cause: access point not found, or anything else. */
  datatype Cause = ApNotFound | OtherCause

  function ReasonOf(cause: Cause): FailReason {
    if cause == ApNotFound then NetworkNotFound else AuthError
  }

  /** What the handler shows the outside: connect requests and application events. */
  datatype Out = Connect(cred: Cred) | Recv(cred: Cred) | Success | Failure(reason: FailReason)

  datatype Wifi = Wifi(
    staged: Cred,
    inflight: Cred,
    attemptsMax: uint32,
    completed: uint32,
    attemptFailed: bool,
    lastCause: Cause,
    retry: bool,
    sta: StationState,
    failReason: FailReason,
    registered: bool,
    store: map<Bytes, Entry>,
    out: seq<Out>)

  /** What the surroundings do during an Apply: an interface exists, each store operation
      succeeds, the connect request is taken. */
  datatype ApplyEnv = ApplyEnv(iface: bool, delete: bool, put: bool, connect: bool, undo: bool)

  datatype WifiStatus = Accepted | InvalidArgument | InternalError

  function Delete(store: map<Bytes, Entry>, ssid: Bytes, works: bool): map<Bytes, Entry> {
    if works then store - {ssid} else store
  }

  function FinalFailure(w: Wifi, delete: bool): Wifi {
    w.(sta := ConnectionFailed, attemptFailed := false, failReason := ReasonOf(w.lastCause),
       store := Delete(w.store, w.inflight.ssid, delete), inflight := NO_CRED,
       out := w.out + [Failure(ReasonOf(w.lastCause))])
  }

  predicate AcceptableSet(c: Cred) {
    0 < |c.ssid| <= SSID_MAX && |c.pass| <= PASS_MAX
  }

  /** The staging part of SetWifiConfig. A BSSID of any other length than six counts as none. */
  function Staged(ssid: Bytes, pass: Bytes, bssid: Bytes, channel: bv8): Cred {
    Cred(ssid, pass, if |bssid| == BSSID_LEN then Some(bssid) else None, channel)
  }

  function SetConfig(w: Wifi, c: Cred): (Wifi, WifiStatus) {
    if AcceptableSet(c) then (w.(staged := c), Accepted) else (w, InvalidArgument)
  }

  /** The store refuses an empty SSID. */
  predicate Stores(w: Wifi, e: ApplyEnv) {
    e.iface && e.put && w.staged.ssid != []
  }

  /** The attempt starts: a fresh snapshot and a fresh budget, and the first request goes out. */
  function Begin(w: Wifi): Wifi {
    w.(sta := Connecting, retry := false, inflight := w.staged, completed := 0,
       attemptFailed := false, out := w.out + [Recv(w.staged), Connect(w.staged)])
  }

  /** The request was refused on the spot: reported like an asynchronous failure. */
  function Refused(w: Wifi, undo: bool): Wifi {
    w.(sta := ConnectionFailed, failReason := AuthError, inflight := NO_CRED,
       store := Delete(w.store, w.staged.ssid, undo), out := w.out + [Failure(AuthError)])
  }

  function Apply(w: Wifi, e: ApplyEnv): (Wifi, WifiStatus) {
    if !e.iface then (w, InternalError)
    else
      var cleared := w.(store := Delete(w.store, w.staged.ssid, e.delete));
      if !Stores(w, e) then (cleared, InternalError)
      else
        var tried := Begin(cleared.(store := cleared.store[w.staged.ssid := EntryOf(w.staged)]));
        (if e.connect then tried else Refused(tried, e.undo), Accepted)
  }

  /** The programmatic path: stage without BSSID or channel, then apply. */
  function SetAndApply(w: Wifi, ssid: Bytes, psk: Bytes, e: ApplyEnv): (Wifi, Status) {
    if !AcceptableSet(Cred(ssid, psk, None, 0)) then (w, Err(EINVAL))
    else
      var (w', status) := Apply(w.(staged := Cred(ssid, psk, None, 0)), e);
      (w', if status == Accepted then Ok(()) else Err(EIO))
  }

  /** The retry work item runs, if it is scheduled. */
  function RetryFires(w: Wifi, connect: bool, delete: bool): Wifi {
    if !w.retry then w
    else
      var idle := w.(retry := false);
      if w.inflight.ssid == [] then idle
      else
        var asked := idle.(out := w.out + [Connect(w.inflight)]);
        if connect then asked else FinalFailure(asked, delete)
  }

  /** A connect result arrives, whether or not one is expected. The attempt count is 32 bits. */
  function ConnectResult(w: Wifi, connected: bool, cause: Cause, delete: bool): Wifi {
    if !w.registered || w.inflight.ssid == [] then w
    else if connected then
      w.(sta := Connected, attemptFailed := false, inflight := NO_CRED, out := w.out + [Success])
    else
      var failed := w.(lastCause := cause);
      if w.attemptsMax > 0 then
        var counted := failed.(completed := (w.completed + 1) % (UINT32_MAX + 1));
        if counted.completed < w.attemptsMax then
          counted.(attemptFailed := true, sta := Connecting, retry := true)
        else FinalFailure(counted, delete)
      else FinalFailure(failed, delete)
  }

  function Reset(w: Wifi): Wifi {
    w.(inflight := NO_CRED, retry := false, staged := NO_CRED, completed := 0,
       attemptFailed := false, sta := Disconnected, failReason := AuthError)
  }

  /** Staged credentials survive a stop and restart of the service. */
  function Init(w: Wifi, attempts: uint32): Wifi {
    w.(sta := Disconnected, attemptsMax := attempts, completed := 0, attemptFailed := false,
       retry := false, registered := true)
  }

  function Deinit(w: Wifi): Wifi {
    w.(inflight := NO_CRED, retry := false, registered := false)
  }

  function Remaining(w: Wifi): nat {
    if w.attemptsMax <= w.completed then 0 else w.attemptsMax - w.completed
  }

  /** The oneof of a status reply. */
  datatype Detail = NoDetail | ConnectedDetail | FailDetail(reason: FailReason) | RetryDetail(remaining: nat)

  datatype StatusReply = StatusReply(sta: StationState, detail: Detail)

  function GetStatus(w: Wifi): StatusReply {
    StatusReply(w.sta,
                if w.sta == Connected then ConnectedDetail
                else if w.sta == ConnectionFailed then FailDetail(w.failReason)
                else if w.sta == Connecting && w.attemptFailed then RetryDetail(Remaining(w))
                else NoDetail)
  }

  /** The handler's static state and its entry points. */
  class WifiHandler {
    var staged: Cred
    var inflight: Cred
    var attemptsMax: uint32
    var attemptsCompleted: uint32
    var attemptFailed: bool
    var lastConnStatus: Cause
    var retryScheduled: bool
    var staState: StationState
    var failReason: FailReason
    var cbRegistered: bool
    var store: map<Bytes, Entry>
    var trace: seq<Out>

    ghost function State(): Wifi
      reads this
    {
      Wifi(staged, inflight, attemptsMax, attemptsCompleted, attemptFailed, lastConnStatus,
           retryScheduled, staState, failReason, cbRegistered, store, trace)
    }

    constructor (store: map<Bytes, Entry>)
      ensures State() == Boot(store)
    {
      staged, inflight := NO_CRED, NO_CRED;
      attemptsMax, attemptsCompleted, attemptFailed := 0, 0, false;
      lastConnStatus, retryScheduled := OtherCause, false;
      staState, failReason, cbRegistered := Connected, AuthError, false;
      this.store := store;
      trace := [];
    }

    method ClearInflight()
      modifies this`inflight
      ensures inflight == NO_CRED
    {
      inflight := NO_CRED;
    }

    method ConnectFromInflight(taken: bool) returns (ok: bool)
      modifies this`trace
      ensures ok == taken && trace == old(trace) + [Connect(inflight)]
    {
      trace := trace + [Connect(inflight)];
      ok := taken;
    }

    method OnFinalFailure(delete: bool)
      modifies this
      ensures State() == FinalFailure(old(State()), delete)
    {
      staState := ConnectionFailed;
      attemptFailed := false;
      if lastConnStatus == ApNotFound {
        failReason := NetworkNotFound;
      } else {
        failReason := AuthError;
      }
      store := Delete(store, inflight.ssid, delete);
      ClearInflight();
      trace := trace + [Failure(failReason)];
    }

    method RetryWorkHandler(connect: bool, delete: bool)
      requires retryScheduled
      modifies this
      ensures State() == RetryFires(old(State()), connect, delete)
    {
      retryScheduled := false;
      if |inflight.ssid| == 0 {
        return;
      }
      var ok := ConnectFromInflight(connect);
      if !ok {
        OnFinalFailure(delete);
      }
    }

    method OnConnectResult(connected: bool, cause: Cause, delete: bool)
      requires cbRegistered
      modifies this
      ensures State() == ConnectResult(old(State()), connected, cause, delete)
    {
      if |inflight.ssid| == 0 {
        return;
      }
      if connected {
        staState := Connected;
        attemptFailed := false;
        ClearInflight();
        trace := trace + [Success];
        return;
      }
      lastConnStatus := cause;
      if attemptsMax > 0 {
        attemptsCompleted := (attemptsCompleted + 1) % (UINT32_MAX + 1);
        if attemptsCompleted < attemptsMax {
          attemptFailed := true;
          staState := Connecting;
          retryScheduled := true;
          return;
        }
      }
      OnFinalFailure(delete);
    }

    method ConfigInit(attempts: uint32)
      modifies this
      ensures State() == Init(old(State()), attempts)
    {
      staState := Disconnected;
      attemptsMax := attempts;
      attemptsCompleted := 0;
      attemptFailed := false;
      retryScheduled := false;
      cbRegistered := true;
    }

    method ConfigDeinit()
      modifies this
      ensures State() == Deinit(old(State()))
    {
      ClearInflight();
      retryScheduled := false;
      cbRegistered := false;
    }

    method ConfigReset()
      modifies this
      ensures State() == Reset(old(State()))
    {
      ClearInflight();
      retryScheduled := false;
      staged := NO_CRED;
      attemptsCompleted := 0;
      attemptFailed := false;
      staState := Disconnected;
      failReason := AuthError;
    }

    method RemainingAttempts() returns (n: nat)
      ensures n == Remaining(State())
    {
      if attemptsMax <= attemptsCompleted {
        return 0;
      }
      n := attemptsMax - attemptsCompleted;
    }

    method DoSetConfig(ssid: Bytes, pass: Bytes, bssid: Bytes, channel: bv8) returns (r: WifiStatus)
      modifies this
      ensures (State(), r) == SetConfig(old(State()), Staged(ssid, pass, bssid, channel))
    {
      if |ssid| == 0 || |ssid| > SSID_MAX {
        return InvalidArgument;
      }
      if |pass| > PASS_MAX {
        return InvalidArgument;
      }
      staged := staged.(ssid := ssid);
      staged := staged.(pass := pass);
      staged := staged.(bssid := if |bssid| == BSSID_LEN then Some(bssid) else None);
      staged := staged.(channel := channel);
      r := Accepted;
    }

    method BeginAttempt(connect: bool) returns (ok: bool)
      modifies this
      ensures ok == connect && State() == Begin(old(State()))
    {
      trace := trace + [Recv(staged)];
      staState := Connecting;
      retryScheduled := false;
      inflight := staged;
      attemptsCompleted := 0;
      attemptFailed := false;
      ok := ConnectFromInflight(connect);
      assert trace == old(trace) + [Recv(staged), Connect(staged)];
    }

    method RefuseAttempt(undo: bool)
      modifies this
      ensures State() == Refused(old(State()), undo)
    {
      staState := ConnectionFailed;
      failReason := AuthError;
      ClearInflight();
      store := Delete(store, staged.ssid, undo);
      trace := trace + [Failure(AuthError)];
    }

    method DoApplyConfig(e: ApplyEnv) returns (r: WifiStatus)
      modifies this
      ensures (State(), r) == Apply(old(State()), e)
    {
      if !e.iface {
        return InternalError;
      }
      store := Delete(store, staged.ssid, e.delete);
      if !e.put || |staged.ssid| == 0 {
        return InternalError;
      }
      store := store[staged.ssid := EntryOf(staged)];
      var ok := BeginAttempt(e.connect);
      if !ok {
        RefuseAttempt(e.undo);
      }
      r := Accepted;
    }

    method DoSetAndApply(ssid: Bytes, psk: Bytes, e: ApplyEnv) returns (r: Status)
      modifies this
      ensures (State(), r) == SetAndApply(old(State()), ssid, psk, e)
    {
      if |ssid| == 0 || |ssid| > SSID_MAX || |psk| > PASS_MAX {
        return Err(EINVAL);
      }
      staged := Cred(ssid, psk, None, 0);
      var status := DoApplyConfig(e);
      r := if status == Accepted then Ok(()) else Err(EIO);
    }

    method EncodeGetStatus() returns (r: StatusReply)
      ensures r == GetStatus(State())
    {
      if staState == Connected {
        r := StatusReply(staState, ConnectedDetail);
      } else if staState == ConnectionFailed {
        r := StatusReply(staState, FailDetail(failReason));
      } else if staState == Connecting && attemptFailed {
        var n := RemainingAttempts();
        r := StatusReply(staState, RetryDetail(n));
      } else {
        r := StatusReply(staState, NoDetail);
      }
    }
  }

  /** The zero-initialised statics at power-up, with whatever the store holds. The station state
      whose value is zero is Connected. */
  function Boot(store: map<Bytes, Entry>): Wifi {
    Wifi(NO_CRED, NO_CRED, 0, 0, false, OtherCause, false, Connected, AuthError, false, store, [])
  }
}
