/** The manager: lifecycle, event emission and the scheduled teardown, over the Wi-Fi handler. */
module Manager {
  import opened Common
  import WifiConfig
  import WifiRuns

  datatype Event = INIT | START | RECV | FAIL | SUCCESS | END | DEINIT

  datatype Mgr = Mgr(
    inited: bool,
    started: bool,
    autoStop: bool,
    cleanupDelay: uint32,
    teardown: bool,
    attempts: uint32,
    wifi: WifiConfig.Wifi,
    events: seq<Event>)

  datatype StartEnv = AllWorks | NoMemory | SchemeFails

  /** Calls of the public interface, callbacks and requests, each atomic and not re-entered. */
  datatype Call =
    | Init(scheme: bool, attempts: uint32, settings: bool)
    | Deinit
    | StartProvisioning(launch: StartEnv)
    | StopProvisioning
    | DisableAutoStop(delay: uint32)
    | TeardownFires
    | Request(step: WifiRuns.Step)
    | ConfigureSta(ssid: Bytes, psk: Bytes, env: WifiConfig.ApplyEnv)
    | ResetSm
    | EraseCredentials(works: bool)

  /** Steps the Wi-Fi handler takes on its own or at the transport's request. */
  predicate FromOutside(s: WifiRuns.Step) {
    s.Set? || s.DoApply? || s.DoReset? || s.Result? || s.Retry?
  }

  function EmitEvent(m: Mgr, e: Event): Mgr {
    m.(events := m.events + [e],
       teardown := m.teardown || (e == SUCCESS && m.started && m.autoStop))
  }

  function Deliver(m: Mgr, out: seq<WifiConfig.Out>): Mgr
    decreases |out|
  {
    if out == [] then m
    else
      match out[0]
      case Connect(_) => Deliver(m, out[1..])
      case Recv(_) => Deliver(EmitEvent(m, RECV), out[1..])
      case Success => Deliver(EmitEvent(m, SUCCESS), out[1..])
      case Failure(_) => Deliver(EmitEvent(m, FAIL), out[1..])
  }

  /** What the handler shows beyond its first n entries. */
  function Newly(out: seq<WifiConfig.Out>, n: nat): seq<WifiConfig.Out> {
    if n <= |out| then out[n..] else []
  }

  /** The Wi-Fi handler moves to w and what it newly shows is delivered. */
  function Adopt(m: Mgr, w: WifiConfig.Wifi): Mgr {
    Deliver(m.(wifi := w), Newly(w.out, |m.wifi.out|))
  }

  function DoTeardown(m: Mgr): Mgr {
    if !m.started then m
    else EmitEvent(m.(wifi := WifiConfig.Deinit(m.wifi), started := false), END)
  }

  function Next(m: Mgr, c: Call): (Mgr, Status) {
    match c
    case Init(scheme, attempts, settings) =>
      if m.inited then (m, Err(EALREADY))
      else if !scheme then (m, Err(EINVAL))
      else
        var anew := m.(attempts := attempts, autoStop := true, cleanupDelay := 0, teardown := false);
        if !settings then (anew, Err(EIO))
        else (EmitEvent(anew.(inited := true), INIT), Ok(()))
    case Deinit =>
      if !m.inited then (m, Ok(()))
      else (EmitEvent(DoTeardown(m.(teardown := false)).(inited := false), DEINIT), Ok(()))
    case StartProvisioning(launch) =>
      if !m.inited then (m, Err(EPERM))
      else if m.started then (m, Err(EALREADY))
      else
        (match launch
         case NoMemory => (m, Err(ENOMEM))
         case SchemeFails => (m.(wifi := WifiConfig.Deinit(WifiConfig.Init(m.wifi, m.attempts))), Err(EIO))
         case AllWorks =>
           (EmitEvent(m.(wifi := WifiConfig.Init(m.wifi, m.attempts), started := true), START), Ok(())))
    case StopProvisioning =>
      if !m.started then (m, Ok(()))
      else if m.cleanupDelay > 0 then (m.(teardown := true), Ok(()))
      else (DoTeardown(m.(teardown := false)), Ok(()))
    case DisableAutoStop(delay) =>
      if !m.inited then (m, Err(EPERM))
      else (m.(autoStop := false, cleanupDelay := delay, teardown := false), Ok(()))
    case TeardownFires =>
      (if m.teardown then DoTeardown(m.(teardown := false)) else m, Ok(()))
    case Request(step) =>
      (if FromOutside(step) then Adopt(m, WifiRuns.Next(m.wifi, step)) else m, Ok(()))
    case ConfigureSta(ssid, psk, env) =>
      if !m.started then (m, Err(EPERM))
      else if ssid == [] then (m, Err(EINVAL))
      else
        var (w, status) := WifiConfig.SetAndApply(m.wifi, ssid, psk, env);
        (Adopt(m, w), status)
    case ResetSm =>
      if !m.started then (m, Err(EPERM)) else (m.(wifi := WifiConfig.Reset(m.wifi)), Ok(()))
    case EraseCredentials(works) =>
      if !m.inited then (m, Err(EPERM))
      else if !works then (m, Err(EIO))
      else (m.(wifi := WifiRuns.Next(m.wifi, WifiRuns.Erase(true))), Ok(()))
  }

  function Execute(m: Mgr, calls: seq<Call>): Mgr
    decreases |calls|
  {
    if calls == [] then m else Execute(Next(m, calls[0]).0, calls[1..])
  }

  function PowerUp(store: map<Bytes, WifiConfig.Entry>): Mgr {
    Mgr(false, false, false, 0, false, 0, WifiConfig.Boot(store), [])
  }

  class ProvisioningManager {
    var inited: bool
    var started: bool
    var autoStop: bool
    var cleanupDelay: uint32
    var teardownScheduled: bool
    var attempts: uint32
    const wifi: WifiConfig.WifiHandler
    ghost var events: seq<Event>

    ghost function State(): Mgr
      reads this, wifi
    {
      Mgr(inited, started, autoStop, cleanupDelay, teardownScheduled, attempts, wifi.State(), events)
    }

    constructor (store: map<Bytes, WifiConfig.Entry>)
      ensures State() == PowerUp(store) && fresh(wifi)
    {
      inited, started, autoStop, cleanupDelay := false, false, false, 0;
      teardownScheduled, attempts := false, 0;
      wifi := new WifiConfig.WifiHandler(store);
      events := [];
    }

    method Emit(e: Event)
      modifies this`events, this`teardownScheduled
      ensures State() == EmitEvent(old(State()), e)
    {
      events := events + [e];
      if e == SUCCESS {
        if started && autoStop {
          teardownScheduled := true;
        }
      }
    }

    /** The calls of network_prov_emit_event the handler made after the first n entries. */
    method EmitFrom(n: nat)
      modifies this`events, this`teardownScheduled
      ensures State() == Deliver(old(State()), Newly(wifi.trace, n))
    {
      var out := Newly(wifi.trace, n);
      var i := 0;
      while i < |out|
        invariant 0 <= i <= |out|
        invariant Deliver(State(), out[i..]) == Deliver(old(State()), out)
      {
        assert out[i..][1..] == out[i + 1..];
        match out[i] {
          case Connect(_) =>
          case Recv(_) => Emit(RECV);
          case Success => Emit(SUCCESS);
          case Failure(_) => Emit(FAIL);
        }
        i := i + 1;
      }
    }

    method Teardown()
      modifies this, wifi
      ensures State() == DoTeardown(old(State()))
    {
      if !started {
        return;
      }
      wifi.ConfigDeinit();
      started := false;
      Emit(END);
    }

    method MgrInit(scheme: bool, attempts: uint32, settings: bool) returns (r: Status)
      modifies this
      ensures (State(), r) == Next(old(State()), Init(scheme, attempts, settings))
    {
      if inited {
        return Err(EALREADY);
      }
      if !scheme {
        return Err(EINVAL);
      }
      this.attempts := attempts;
      autoStop := true;
      cleanupDelay := 0;
      teardownScheduled := false;
      if !settings {
        return Err(EIO);
      }
      inited := true;
      Emit(INIT);
      r := Ok(());
    }

    method MgrDeinit()
      modifies this, wifi
      ensures State() == Next(old(State()), Deinit).0
    {
      if !inited {
        return;
      }
      teardownScheduled := false;
      if started {
        Teardown();
      }
      inited := false;
      Emit(DEINIT);
    }

    method Start(env: StartEnv) returns (r: Status)
      modifies this, wifi
      ensures (State(), r) == Next(old(State()), StartProvisioning(env))
    {
      if !inited {
        return Err(EPERM);
      }
      if started {
        return Err(EALREADY);
      }
      if env == NoMemory {
        return Err(ENOMEM);
      }
      wifi.ConfigInit(attempts);
      if env == SchemeFails {
        wifi.ConfigDeinit();
        return Err(EIO);
      }
      started := true;
      Emit(START);
      r := Ok(());
    }

    method Stop()
      modifies this, wifi
      ensures State() == Next(old(State()), StopProvisioning).0
    {
      if !started {
        return;
      }
      teardownScheduled := false;
      if cleanupDelay > 0 {
        teardownScheduled := true;
        return;
      }
      Teardown();
    }

    method DisableAuto(delay: uint32) returns (r: Status)
      modifies this
      ensures (State(), r) == Next(old(State()), DisableAutoStop(delay))
    {
      if !inited {
        return Err(EPERM);
      }
      autoStop := false;
      cleanupDelay := delay;
      teardownScheduled := false;
      r := Ok(());
    }

    method TeardownWork()
      requires teardownScheduled
      modifies this, wifi
      ensures State() == Next(old(State()), TeardownFires).0
    {
      teardownScheduled := false;
      Teardown();
    }

    /** Runs the Wi-Fi handler's own entry point for the step. */
    method RunWifi(s: WifiRuns.Step)
      requires FromOutside(s)
      modifies wifi
      ensures wifi.State() == WifiRuns.Next(old(wifi.State()), s)
    {
      match s {
        case Set(ssid, pass, bssid, channel) =>
          if wifi.cbRegistered { var _ := wifi.DoSetConfig(ssid, pass, bssid, channel); }
        case DoApply(e) =>
          if wifi.cbRegistered { var _ := wifi.DoApplyConfig(e); }
        case DoReset =>
          if wifi.cbRegistered { wifi.ConfigReset(); }
        case Result(connected, cause, delete) =>
          if wifi.cbRegistered { wifi.OnConnectResult(connected, cause, delete); }
        case Retry(connect, delete) =>
          if wifi.retryScheduled { wifi.RetryWorkHandler(connect, delete); }
      }
    }

    method OnWifi(s: WifiRuns.Step)
      requires FromOutside(s)
      modifies this, wifi
      ensures State() == Next(old(State()), Request(s)).0
    {
      var n := |wifi.trace|;
      RunWifi(s);
      EmitFrom(n);
    }

    method Configure(ssid: Bytes, psk: Bytes, e: WifiConfig.ApplyEnv) returns (r: Status)
      modifies this, wifi
      ensures (State(), r) == Next(old(State()), ConfigureSta(ssid, psk, e))
    {
      if !started {
        return Err(EPERM);
      }
      if |ssid| == 0 {
        return Err(EINVAL);
      }
      var n := |wifi.trace|;
      r := wifi.DoSetAndApply(ssid, psk, e);
      EmitFrom(n);
    }

    method ResetStateMachine() returns (r: Status)
      modifies wifi
      ensures (State(), r) == Next(old(State()), ResetSm)
    {
      if !started {
        return Err(EPERM);
      }
      wifi.ConfigReset();
      r := Ok(());
    }

    method EraseAll(works: bool) returns (r: Status)
      modifies wifi
      ensures (State(), r) == Next(old(State()), EraseCredentials(works))
    {
      if !inited {
        return Err(EPERM);
      }
      if !works {
        return Err(EIO);
      }
      wifi.store := map[];
      r := Ok(());
    }
  }
}
