/** When the manager tears the service down, with which budget it runs and what the application is told,
    from its calls and events alone. */
module AutoStop {
  import opened Common
  import opened Manager
  import opened EventLanguage
  import WifiConfig
  import WifiRuns
  import WifiTold

  /** The events of a call. */
  function Adds(m: Mgr, c: Call): seq<Event> {
    var events := Next(m, c).0.events;
    if |m.events| <= |events| then events[|m.events|..] else []
  }

  predicate Answered(m: Mgr, c: Call) {
    Next(m, c).1 == Ok(())
  }

  /** A service runs: the last service event is a start. */
  predicate ServiceUp(events: seq<Event>) {
    events != [] &&
    (var last := events[|events| - 1];
     last == START || (last != END && ServiceUp(events[..|events| - 1])))
  }

  /** The application opted out of stopping by itself since the last init. */
  predicate OptedOut(store: map<Bytes, WifiConfig.Entry>, calls: seq<Call>) {
    calls != [] &&
    (var last, before := calls[|calls| - 1], calls[..|calls| - 1];
     var m := ExecuteAll(store, before);
     if last.Init? && Answered(m, last) then false
     else if last.DisableAutoStop? && Answered(m, last) then true
     else OptedOut(store, before))
  }

  /** The cleanup delay it asked for since then. */
  function Delay(store: map<Bytes, WifiConfig.Entry>, calls: seq<Call>): nat {
    if calls == [] then 0
    else
      var last, before := calls[|calls| - 1], calls[..|calls| - 1];
      var m := ExecuteAll(store, before);
      if last.Init? && Answered(m, last) then 0
      else if last.DisableAutoStop? && Answered(m, last) then last.delay
      else Delay(store, before)
  }

  /** The attempt budget given at the last init. */
  function Budget(store: map<Bytes, WifiConfig.Entry>, calls: seq<Call>): nat {
    if calls == [] then 0
    else
      var last, before := calls[|calls| - 1], calls[..|calls| - 1];
      if last.Init? && Answered(ExecuteAll(store, before), last) then last.attempts else Budget(store, before)
  }

  /** A teardown is scheduled after a call, given whether one was before, the cleanup delay asked for
      and whether the application opted out: by a success, or by a stop with a delay, until it fires
      or a call cancels it. */
  predicate SchedulesAfter(m: Mgr, c: Call, before: bool, delay: nat, optedOut: bool) {
    match c
    case TeardownFires => false
    case Deinit => false
    case Init(_, _, _) => !Answered(m, c) && before
    case DisableAutoStop(_) => !Answered(m, c) && before
    case StopProvisioning => ServiceUp(m.events) && delay > 0
    case _ => before || (SUCCESS in Adds(m, c) && !optedOut)
  }

  predicate Scheduled(store: map<Bytes, WifiConfig.Entry>, calls: seq<Call>) {
    calls != [] &&
    (var last, before := calls[|calls| - 1], calls[..|calls| - 1];
     SchedulesAfter(ExecuteAll(store, before), last, Scheduled(store, before), Delay(store, before),
                    OptedOut(store, before)))
  }

  function ExecuteAll(store: map<Bytes, WifiConfig.Entry>, calls: seq<Call>): Mgr {
    Execute(PowerUp(store), calls)
  }

  lemma {:induction false} ExecuteSnoc(m: Mgr, calls: seq<Call>, c: Call)
    ensures Execute(m, calls + [c]) == Next(Execute(m, calls), c).0
    decreases |calls|
  {
    if calls == [] {
      assert calls + [c] == [c];
    } else {
      assert (calls + [c])[1..] == calls[1..] + [c];
      ExecuteSnoc(Next(m, calls[0]).0, calls[1..], c);
    }
  }

  lemma UpOne(events: seq<Event>, e: Event)
    ensures ServiceUp(events + [e]) == (e == START || (e != END && ServiceUp(events)))
  {
    assert (events + [e])[..|events|] == events;
  }

  /** The mode of the trace tells whether a service runs. */
  lemma {:induction false} UpIsServing(events: seq<Event>)
    requires Reads(events).Some?
    ensures ServiceUp(events) <==> Reads(events).value == Serving || Reads(events).value == Trying
  {
    if events != [] {
      UpIsServing(events[..|events| - 1]);
    }
  }

  // What one call does to the flags.

  lemma DeliverAll(m: Mgr, out: seq<WifiConfig.Out>)
    ensures
      var d := Deliver(m, out);
      && d == m.(events := d.events, teardown := d.teardown)
      && |d.events| >= |m.events| && d.events[..|m.events|] == m.events
      && (d.teardown <==> m.teardown || (SUCCESS in d.events[|m.events|..] && m.started && m.autoStop))
    decreases |out|, 0
  {
    if out != [] {
      match out[0]
      case Connect(_) => DeliverAll(m, out[1..]);
      case Recv(_) => DeliverEvent(m, RECV, out[1..]);
      case Success => DeliverEvent(m, SUCCESS, out[1..]);
      case Failure(_) => DeliverEvent(m, FAIL, out[1..]);
    } else {
      assert m.events[|m.events|..] == [];
    }
  }

  lemma DeliverEvent(m: Mgr, e: Event, rest: seq<WifiConfig.Out>)
    ensures
      var d := Deliver(EmitEvent(m, e), rest);
      && d == m.(events := d.events, teardown := d.teardown)
      && |d.events| >= |m.events| && d.events[..|m.events|] == m.events
      && (d.teardown <==> m.teardown || (SUCCESS in d.events[|m.events|..] && m.started && m.autoStop))
    decreases |rest|, 1
  {
    var m1 := EmitEvent(m, e);
    DeliverAll(m1, rest);
    var d := Deliver(m1, rest);
    assert d.events[..|m.events|] == d.events[..|m1.events|][..|m.events|] == m.events;
    assert d.events[|m.events|] == d.events[..|m1.events|][|m.events|] == e;
    assert d.events[|m.events|..] == [e] + d.events[|m1.events|..];
  }

  lemma AdoptFlags(m: Mgr, w: WifiConfig.Wifi)
    ensures
      var d := Adopt(m, w);
      && d == m.(wifi := w, events := d.events, teardown := d.teardown)
      && |d.events| >= |m.events| && d.events[..|m.events|] == m.events
      && (d.teardown <==> m.teardown || (SUCCESS in d.events[|m.events|..] && m.started && m.autoStop))
  {
    DeliverAll(m.(wifi := w), Newly(w.out, |m.wifi.out|));
  }

  /** Outside a service a call of the transport or the network adds nothing. */
  lemma IdleRequest(m: Mgr, step: WifiRuns.Step)
    requires Inv(m) && !m.started
    ensures Next(m, Request(step)).0 == m
  {
    if FromOutside(step) {
      IdleStep(m.wifi, step);
      assert Newly(m.wifi.out, |m.wifi.out|) == [];
      assert m.(wifi := m.wifi) == m;
    }
  }

  lemma UpIsStarted(m: Mgr)
    requires Inv(m)
    ensures ServiceUp(m.events) == m.started
  {
    UpIsServing(m.events);
  }

  lemma RequestSchedules(m: Mgr, step: WifiRuns.Step, delay: nat)
    requires Inv(m)
    ensures Next(m, Request(step)).0.teardown == SchedulesAfter(m, Request(step), m.teardown, delay, !m.autoStop)
  {
    if !m.started {
      IdleRequest(m, step);
    } else if FromOutside(step) {
      AdoptFlags(m, WifiRuns.Next(m.wifi, step));
    }
  }

  lemma ConfigureSchedules(m: Mgr, c: Call, delay: nat)
    requires Inv(m) && c.ConfigureSta?
    ensures Next(m, c).0.teardown == SchedulesAfter(m, c, m.teardown, delay, !m.autoStop)
  {
    if m.started && c.ssid != [] {
      AdoptFlags(m, WifiConfig.SetAndApply(m.wifi, c.ssid, c.psk, c.env).0);
    }
  }

  /** The flags after any one call. */
  lemma NextSchedules(m: Mgr, c: Call, delay: nat, optedOut: bool)
    requires Inv(m)
    requires m.inited ==> delay == m.cleanupDelay && optedOut == !m.autoStop
    ensures Next(m, c).0.teardown == SchedulesAfter(m, c, m.teardown, delay, optedOut)
  {
    UpIsStarted(m);
    match c
    case Request(step) =>
      RequestSchedules(m, step, delay);
      if !m.inited { IdleRequest(m, step); }
    case ConfigureSta(_, _, _) => ConfigureSchedules(m, c, delay);
    case StartProvisioning(_) => assert [START][0] == START;
    case _ =>
  }

  lemma NextSettings(m: Mgr, c: Call)
    requires Inv(m)
    ensures
      var m' := Next(m, c).0;
      && (c.Init? && Answered(m, c) ==> m'.autoStop && m'.cleanupDelay == 0 && m'.attempts == c.attempts)
      && (c.DisableAutoStop? && Answered(m, c) ==>
            !m'.autoStop && m'.cleanupDelay == c.delay && m'.attempts == m.attempts)
      && (m'.inited && !((c.Init? || c.DisableAutoStop?) && Answered(m, c)) ==>
            m.inited && m'.autoStop == m.autoStop && m'.cleanupDelay == m.cleanupDelay && m'.attempts == m.attempts)
  {
    match c
    case Request(step) =>
      if FromOutside(step) { AdoptFlags(m, WifiRuns.Next(m.wifi, step)); }
    case ConfigureSta(_, _, _) => AdoptFlags(m, WifiConfig.SetAndApply(m.wifi, c.ssid, c.psk, c.env).0);
    case _ =>
  }

  lemma NextBudget(m: Mgr, c: Call)
    requires Inv(m)
    requires m.started ==> m.wifi.attemptsMax == m.attempts
    ensures Next(m, c).0.started ==> Next(m, c).0.wifi.attemptsMax == Next(m, c).0.attempts
  {
    match c
    case Request(step) =>
      if FromOutside(step) {
        AdoptFlags(m, WifiRuns.Next(m.wifi, step));
        StepKeepsBudget(m.wifi, step);
      }
    case ConfigureSta(_, _, _) =>
      AdoptFlags(m, WifiConfig.SetAndApply(m.wifi, c.ssid, c.psk, c.env).0);
      ApplyKeepsBudget(m.wifi, c.ssid, c.psk, c.env);
    case _ =>
  }

  lemma StepKeepsBudget(w: WifiConfig.Wifi, s: WifiRuns.Step)
    requires FromOutside(s)
    ensures WifiRuns.Next(w, s).attemptsMax == w.attemptsMax
  {}

  lemma ApplyKeepsBudget(w: WifiConfig.Wifi, ssid: Bytes, psk: Bytes, e: WifiConfig.ApplyEnv)
    ensures WifiConfig.SetAndApply(w, ssid, psk, e).0.attemptsMax == w.attemptsMax
  {}

  /** What is told of the flags after some calls. */
  ghost predicate Told(store: map<Bytes, WifiConfig.Entry>, calls: seq<Call>) {
    var m := ExecuteAll(store, calls);
    && Inv(m)
    && m.teardown == Scheduled(store, calls)
    && (m.inited ==> m.autoStop == !OptedOut(store, calls)
                     && m.cleanupDelay == Delay(store, calls) && m.attempts == Budget(store, calls))
    && (m.started ==> m.wifi.attemptsMax == m.attempts)
  }

  lemma {:induction false} RunTold(store: map<Bytes, WifiConfig.Entry>, calls: seq<Call>)
    ensures Told(store, calls)
  {
    if calls != [] {
      var last, before := calls[|calls| - 1], calls[..|calls| - 1];
      RunTold(store, before);
      assert before + [last] == calls;
      ExecuteSnoc(PowerUp(store), before, last);
      var m := ExecuteAll(store, before);
      NextKeepsInv(m, last);
      NextSchedules(m, last, Delay(store, before), OptedOut(store, before));
      NextSettings(m, last);
      NextBudget(m, last);
    }
  }

  /** In every run a teardown is scheduled exactly when calls and events say so, and a service runs with
      the budget given at the last init. */
  lemma TeardownTold(store: map<Bytes, WifiConfig.Entry>, calls: seq<Call>)
    ensures
      var m := ExecuteAll(store, calls);
      && (m.teardown <==> Scheduled(store, calls))
      && (m.started <==> ServiceUp(m.events))
      && (m.started ==> m.wifi.attemptsMax == Budget(store, calls))
  {
    RunTold(store, calls);
    UpIsStarted(ExecuteAll(store, calls));
  }

  /** A success reported by a service whose application has not opted out schedules the teardown. */
  lemma SuccessSchedules(store: map<Bytes, WifiConfig.Entry>, calls: seq<Call>, c: Call)
    requires SUCCESS in Adds(ExecuteAll(store, calls), c) && !OptedOut(store, calls)
    requires c.Request? || c.ConfigureSta?
    ensures Next(ExecuteAll(store, calls), c).0.teardown
  {
    RunTold(store, calls);
    NextSchedules(ExecuteAll(store, calls), c, Delay(store, calls), OptedOut(store, calls));
  }

  /** A scheduled teardown that fires reports the end and leaves the service stopped, with nothing
      scheduled. */
  lemma TeardownEnds(store: map<Bytes, WifiConfig.Entry>, calls: seq<Call>)
    requires Scheduled(store, calls)
    ensures
      var m := ExecuteAll(store, calls);
      var m' := Next(m, TeardownFires).0;
      && Adds(m, TeardownFires) == [END] && !m'.started && m'.inited && !m'.teardown && !m'.wifi.registered
  {
    RunTold(store, calls);
    FiresEnd(ExecuteAll(store, calls));
  }

  lemma FiresEnd(m: Mgr)
    requires m.teardown && m.started && m.inited
    ensures
      var m' := Next(m, TeardownFires).0;
      && Adds(m, TeardownFires) == [END] && !m'.started && m'.inited && !m'.teardown && !m'.wifi.registered
  {
    Suffix(m.events, END);
  }

  lemma Suffix(events: seq<Event>, e: Event)
    ensures (events + [e])[|events|..] == [e]
  {}

  /** Attempt bound in the manager's terms: at every point of every run of calls, the connect requests
      since the last Apply are at most max(1, the attempts given at init), and a reported remainder
      lies strictly between 0 and that number. */
  lemma AttemptsWithinInit(store: map<Bytes, WifiConfig.Entry>, calls: seq<Call>, c: Call)
    requires ExecuteAll(store, calls).started && (c.Request? || c.ConfigureSta?)
    ensures
      var m := ExecuteAll(store, calls);
      var m' := Next(m, c).0;
      var budget := Budget(store, calls);
      && (m'.wifi.out != m.wifi.out ==> WifiRuns.Calls(m'.wifi.out) <= if budget == 0 then 1 else budget)
      && m'.wifi.completed <= budget
      && (WifiConfig.GetStatus(m'.wifi).detail.RetryDetail? ==>
            1 <= WifiConfig.GetStatus(m'.wifi).detail.remaining <= budget - 1)
  {
    RunTold(store, calls);
    StatusWithin(ExecuteAll(store, calls).wifi);
    BoundedCall(ExecuteAll(store, calls), c);
  }

  lemma BoundedCall(m: Mgr, c: Call)
    requires Inv(m) && m.started && (c.Request? || c.ConfigureSta?)
    ensures
      var w' := Next(m, c).0.wifi;
      w' == m.wifi || Bounded(m.wifi, w')
  {
    match c
    case Request(step) =>
      if FromOutside(step) {
        AdoptFlags(m, WifiRuns.Next(m.wifi, step));
        BoundedStep(m.wifi, step);
      }
    case ConfigureSta(ssid, psk, e) =>
      AdoptFlags(m, WifiConfig.SetAndApply(m.wifi, ssid, psk, e).0);
      BoundedStep(m.wifi, WifiRuns.Configure(ssid, psk, e));
      assert m.wifi.registered;
      assert WifiConfig.SetAndApply(m.wifi, ssid, psk, e).0 == WifiRuns.Next(m.wifi, WifiRuns.Configure(ssid, psk, e));
  }

  predicate Bounded(w: WifiConfig.Wifi, w': WifiConfig.Wifi) {
    && w'.attemptsMax == w.attemptsMax && w'.registered && w'.completed <= w.attemptsMax
    && (w'.out != w.out ==> WifiRuns.Calls(w'.out) <= if w.attemptsMax == 0 then 1 else w.attemptsMax)
    && (WifiConfig.GetStatus(w').detail.RetryDetail? ==>
          1 <= WifiConfig.GetStatus(w').detail.remaining <= w.attemptsMax - 1)
  }

  lemma StatusWithin(w: WifiConfig.Wifi)
    requires WifiRuns.Inv(w) && w.registered
    ensures WifiConfig.GetStatus(w).detail.RetryDetail? ==>
              1 <= WifiConfig.GetStatus(w).detail.remaining <= w.attemptsMax - 1
  {
    if WifiConfig.GetStatus(w).detail.RetryDetail? {
      WifiRuns.ReportedRemaining(w);
    }
  }

  lemma BoundedStep(w: WifiConfig.Wifi, s: WifiRuns.Step)
    requires WifiRuns.Inv(w) && w.registered && (FromOutside(s) || s.Configure?)
    ensures Bounded(w, WifiRuns.Next(w, s))
  {
    WifiRuns.NextKeepsInv(w, s);
    SameService(w, s);
    if s.Configure? {
      ApplyKeepsBudget(w, s.ssid, s.psk, s.env);
    } else {
      StepKeepsBudget(w, s);
    }
    StatusWithin(WifiRuns.Next(w, s));
  }

  /** The manager is initialised: the last of its own events is an init. */
  predicate Initialised(events: seq<Event>) {
    events != [] &&
    (var last := events[|events| - 1];
     last == INIT || (last != DEINIT && Initialised(events[..|events| - 1])))
  }

  lemma {:induction false} InitialisedIsUp(events: seq<Event>)
    requires Reads(events).Some?
    ensures Initialised(events) <==> Reads(events).value != Down
  {
    if events != [] {
      InitialisedIsUp(events[..|events| - 1]);
    }
  }

  /** How calls are answered, from the events alone. */
  predicate RightlyAnswered(m: Mgr, c: Call) {
    match c
    case Init(scheme, _, settings) => Answered(m, c) <==> !Initialised(m.events) && scheme && settings
    case StartProvisioning(launch) =>
      Answered(m, c) <==> Initialised(m.events) && !ServiceUp(m.events) && launch == AllWorks
    case DisableAutoStop(_) => Answered(m, c) <==> Initialised(m.events)
    case ConfigureSta(ssid, psk, e) =>
      Answered(m, c) <==> ServiceUp(m.events) && 1 <= |ssid| <= 32 && |psk| <= 63 && e.iface && e.put
    case ResetSm => Answered(m, c) <==> ServiceUp(m.events)
    case EraseCredentials(works) => Answered(m, c) <==> Initialised(m.events) && works
    case _ => Answered(m, c)
  }

  /** In every run calls are answered with success exactly in the states they are for, and a start, an
      init, a stop without delay and a deinit have the effect they name. */
  lemma CallsAnswered(store: map<Bytes, WifiConfig.Entry>, calls: seq<Call>, c: Call)
    ensures
      var m := ExecuteAll(store, calls);
      var m' := Next(m, c).0;
      && RightlyAnswered(m, c)
      && (c.Init? && Answered(m, c) ==> Initialised(m'.events))
      && (c.StartProvisioning? && Answered(m, c) ==> ServiceUp(m'.events))
      && (c.StopProvisioning? && Delay(store, calls) == 0 ==> !ServiceUp(m'.events))
      && (c.Deinit? ==> !Initialised(m'.events) && !ServiceUp(m'.events))
  {
    RunTold(store, calls);
    var m := ExecuteAll(store, calls);
    NextKeepsInv(m, c);
    UpIsStarted(m);
    UpIsStarted(Next(m, c).0);
    InitialisedIsUp(m.events);
    InitialisedIsUp(Next(m, c).0.events);
    if c.ConfigureSta? {
      WifiTold.ConfigureAnswered(m.wifi, c.ssid, c.psk, c.env);
    }
  }

  // The handler's run inside the manager's.

  /** What one call makes of the handler. */
  function StepsOf(m: Mgr, c: Call): seq<WifiRuns.Step> {
    match c
    case StartProvisioning(launch) =>
      if !Initialised(m.events) || ServiceUp(m.events) || launch == NoMemory then []
      else if launch == AllWorks then [WifiRuns.Start(m.attempts)]
      else [WifiRuns.Start(m.attempts), WifiRuns.Stop]
    case StopProvisioning => if ServiceUp(m.events) && m.cleanupDelay == 0 then [WifiRuns.Stop] else []
    case Deinit => if ServiceUp(m.events) then [WifiRuns.Stop] else []
    case TeardownFires => if m.teardown then [WifiRuns.Stop] else []
    case Request(step) => if FromOutside(step) then [step] else []
    case ConfigureSta(ssid, psk, e) =>
      if ServiceUp(m.events) && ssid != [] then [WifiRuns.Configure(ssid, psk, e)] else []
    case ResetSm => if ServiceUp(m.events) then [WifiRuns.DoReset] else []
    case EraseCredentials(works) => if Initialised(m.events) then [WifiRuns.Erase(works)] else []
    case _ => []
  }

  function AllSteps(m: Mgr, calls: seq<Call>): seq<WifiRuns.Step>
    decreases |calls|
  {
    if calls == [] then [] else StepsOf(m, calls[0]) + AllSteps(Next(m, calls[0]).0, calls[1..])
  }

  lemma RunOne(w: WifiConfig.Wifi, s: WifiRuns.Step)
    ensures WifiRuns.Execute(w, [s]) == WifiRuns.Next(w, s)
  {
    assert [s][1..] == [];
    assert WifiRuns.Execute(w, [s]) == WifiRuns.Execute(WifiRuns.Next(w, s), []);
  }

  lemma {:induction false} RunAppend(w: WifiConfig.Wifi, a: seq<WifiRuns.Step>, b: seq<WifiRuns.Step>)
    ensures WifiRuns.Execute(w, a + b) == WifiRuns.Execute(WifiRuns.Execute(w, a), b)
    decreases |a|
  {
    if a == [] {
      assert a + b == b;
    } else {
      assert (a + b)[1..] == a[1..] + b;
      RunAppend(WifiRuns.Next(w, a[0]), a[1..], b);
    }
  }

  lemma StartRuns(m: Mgr, launch: StartEnv)
    requires Inv(m)
    ensures Next(m, StartProvisioning(launch)).0.wifi == WifiRuns.Execute(m.wifi, StepsOf(m, StartProvisioning(launch)))
  {
    UpIsStarted(m);
    InitialisedIsUp(m.events);
    var start := WifiRuns.Start(m.attempts);
    RunOne(m.wifi, start);
    RunOne(WifiRuns.Next(m.wifi, start), WifiRuns.Stop);
    RunAppend(m.wifi, [start], [WifiRuns.Stop]);
    assert [start] + [WifiRuns.Stop] == [start, WifiRuns.Stop];
  }

  lemma RequestRuns(m: Mgr, step: WifiRuns.Step)
    ensures Next(m, Request(step)).0.wifi == WifiRuns.Execute(m.wifi, StepsOf(m, Request(step)))
  {
    if FromOutside(step) {
      AdoptFlags(m, WifiRuns.Next(m.wifi, step));
      RunOne(m.wifi, step);
    }
  }

  lemma ConfigureRuns(m: Mgr, c: Call)
    requires Inv(m) && c.ConfigureSta?
    ensures Next(m, c).0.wifi == WifiRuns.Execute(m.wifi, StepsOf(m, c))
  {
    UpIsStarted(m);
    AdoptFlags(m, WifiConfig.SetAndApply(m.wifi, c.ssid, c.psk, c.env).0);
    RunOne(m.wifi, WifiRuns.Configure(c.ssid, c.psk, c.env));
  }

  lemma NextRuns(m: Mgr, c: Call)
    requires Inv(m)
    ensures Next(m, c).0.wifi == WifiRuns.Execute(m.wifi, StepsOf(m, c))
  {
    UpIsStarted(m);
    InitialisedIsUp(m.events);
    match c
    case StartProvisioning(launch) => StartRuns(m, launch);
    case Request(step) => RequestRuns(m, step);
    case ConfigureSta(_, _, _) => ConfigureRuns(m, c);
    case ResetSm => RunOne(m.wifi, WifiRuns.DoReset);
    case EraseCredentials(works) => RunOne(m.wifi, WifiRuns.Erase(works));
    case _ => RunOne(m.wifi, WifiRuns.Stop);
  }

  lemma {:induction false} ExecuteRuns(m: Mgr, calls: seq<Call>)
    requires Inv(m)
    ensures Execute(m, calls).wifi == WifiRuns.Execute(m.wifi, AllSteps(m, calls))
    decreases |calls|
  {
    if calls != [] {
      var next := Next(m, calls[0]).0;
      NextRuns(m, calls[0]);
      NextKeepsInv(m, calls[0]);
      RunAppend(m.wifi, StepsOf(m, calls[0]), AllSteps(next, calls[1..]));
      ExecuteRuns(next, calls[1..]);
    }
  }

  /** Every run of the manager is, for the Wi-Fi handler, a run of starts, stops, requests, resets and
      erasures from power-up: whatever holds of all runs of the handler holds inside the manager. */
  lemma HandlerRunsInside(store: map<Bytes, WifiConfig.Entry>, calls: seq<Call>)
    ensures ExecuteAll(store, calls).wifi
            == WifiRuns.Execute(WifiConfig.Boot(store), AllSteps(PowerUp(store), calls))
  {
    ExecuteRuns(PowerUp(store), calls);
  }

  // What the application is told of attempts.

  /** The events that speak of attempts. */
  function Visible(events: seq<Event>): seq<Event> {
    if events == [] then []
    else
      Visible(events[..|events| - 1]) +
      (var e := events[|events| - 1]; if e == RECV || e == SUCCESS || e == FAIL then [e] else [])
  }

  /** The application event for what the handler shows. */
  function Meaning(x: WifiConfig.Out): seq<Event> {
    match x
    case Connect(_) => []
    case Recv(_) => [RECV]
    case Success => [SUCCESS]
    case Failure(_) => [FAIL]
  }

  function Meanings(out: seq<WifiConfig.Out>): seq<Event> {
    if out == [] then [] else Meaning(out[0]) + Meanings(out[1..])
  }

  lemma VisibleOne(events: seq<Event>, e: Event)
    ensures Visible(events + [e]) == Visible(events) + if e == RECV || e == SUCCESS || e == FAIL then [e] else []
  {
    assert (events + [e])[..|events|] == events;
  }

  lemma {:induction false} MeaningsAppend(a: seq<WifiConfig.Out>, b: seq<WifiConfig.Out>)
    ensures Meanings(a + b) == Meanings(a) + Meanings(b)
  {
    if a == [] {
      assert a + b == b;
    } else {
      assert (a + b)[1..] == a[1..] + b;
      MeaningsAppend(a[1..], b);
      Join3(Meaning(a[0]), Meanings(a[1..]), Meanings(b));
    }
  }

  lemma Join3(a: seq<Event>, b: seq<Event>, c: seq<Event>)
    ensures (a + b) + c == a + (b + c)
  {}

  /** The manager once one output is delivered. */
  function Delivered(m: Mgr, x: WifiConfig.Out): Mgr {
    match x
    case Connect(_) => m
    case Recv(_) => EmitEvent(m, RECV)
    case Success => EmitEvent(m, SUCCESS)
    case Failure(_) => EmitEvent(m, FAIL)
  }

  lemma DeliveredShows(m: Mgr, x: WifiConfig.Out)
    ensures Visible(Delivered(m, x).events) == Visible(m.events) + Meaning(x)
  {
    VisibleOne(m.events, RECV);
    VisibleOne(m.events, SUCCESS);
    VisibleOne(m.events, FAIL);
  }

  lemma DeliverUnfolds(m: Mgr, out: seq<WifiConfig.Out>)
    requires out != []
    ensures Deliver(m, out) == Deliver(Delivered(m, out[0]), out[1..])
  {}

  /** Delivery shows the application what the handler shows. */
  lemma {:induction false} DeliverShows(m: Mgr, out: seq<WifiConfig.Out>)
    ensures Visible(Deliver(m, out).events) == Visible(m.events) + Meanings(out)
    decreases |out|
  {
    if out != [] {
      DeliverUnfolds(m, out);
      DeliveredShows(m, out[0]);
      DeliverShows(Delivered(m, out[0]), out[1..]);
      Join3(Visible(m.events), Meaning(out[0]), Meanings(out[1..]));
    }
  }

  lemma AdoptShows(m: Mgr, s: WifiRuns.Step)
    requires WifiRuns.Inv(m.wifi) && Visible(m.events) == Meanings(m.wifi.out)
    ensures
      var d := Adopt(m, WifiRuns.Next(m.wifi, s));
      Visible(d.events) == Meanings(d.wifi.out)
  {
    var w' := WifiRuns.Next(m.wifi, s);
    StepOutput(m.wifi, s);
    AdoptFlags(m, w');
    DeliverShows(m.(wifi := w'), Newly(w'.out, |m.wifi.out|));
    MeaningsAppend(m.wifi.out, Newly(w'.out, |m.wifi.out|));
  }

  lemma TeardownShows(m: Mgr)
    ensures DoTeardown(m).wifi.out == m.wifi.out && Visible(DoTeardown(m).events) == Visible(m.events)
  {
    VisibleOne(m.events, END);
  }

  lemma DeinitShows(m: Mgr)
    ensures Next(m, Deinit).0.wifi.out == m.wifi.out && Visible(Next(m, Deinit).0.events) == Visible(m.events)
  {
    var down := DoTeardown(m.(teardown := false));
    TeardownShows(m.(teardown := false));
    VisibleOne(down.events, DEINIT);
  }

  lemma NextShows(m: Mgr, c: Call)
    requires Inv(m) && Visible(m.events) == Meanings(m.wifi.out)
    ensures Visible(Next(m, c).0.events) == Meanings(Next(m, c).0.wifi.out)
  {
    match c
    case Request(step) => RequestShows(m, step);
    case ConfigureSta(ssid, psk, e) => ConfigureShows(m, c);
    case _ => OwnShows(m, c);
  }

  /** The manager's own events speak of no attempt. */
  predicate SameShown(m: Mgr, m': Mgr) {
    m'.wifi.out == m.wifi.out && Visible(m'.events) == Visible(m.events)
  }

  lemma InitShows(m: Mgr, c: Call)
    requires c.Init?
    ensures SameShown(m, Next(m, c).0)
  {
    VisibleOne(m.events, INIT);
  }

  lemma StartShows(m: Mgr, launch: StartEnv)
    ensures SameShown(m, Next(m, StartProvisioning(launch)).0)
  {
    VisibleOne(m.events, START);
  }

  lemma OwnShows(m: Mgr, c: Call)
    requires !c.Request? && !c.ConfigureSta?
    ensures SameShown(m, Next(m, c).0)
  {
    match c
    case Init(_, _, _) => InitShows(m, c);
    case Deinit => DeinitShows(m);
    case StartProvisioning(launch) => StartShows(m, launch);
    case StopProvisioning => TeardownShows(m.(teardown := false));
    case TeardownFires => TeardownShows(m.(teardown := false));
    case _ =>
  }

  lemma RequestShows(m: Mgr, step: WifiRuns.Step)
    requires Inv(m) && Visible(m.events) == Meanings(m.wifi.out)
    ensures Visible(Next(m, Request(step)).0.events) == Meanings(Next(m, Request(step)).0.wifi.out)
  {
    if FromOutside(step) {
      AdoptShows(m, step);
    }
  }

  lemma ConfigureShows(m: Mgr, c: Call)
    requires Inv(m) && Visible(m.events) == Meanings(m.wifi.out) && c.ConfigureSta?
    ensures Visible(Next(m, c).0.events) == Meanings(Next(m, c).0.wifi.out)
  {
    if m.started {
      AdoptShows(m, WifiRuns.Configure(c.ssid, c.psk, c.env));
    }
  }

  lemma {:induction false} RunShows(m: Mgr, calls: seq<Call>)
    requires Inv(m) && Visible(m.events) == Meanings(m.wifi.out)
    ensures Visible(Execute(m, calls).events) == Meanings(Execute(m, calls).wifi.out)
    decreases |calls|
  {
    if calls != [] {
      NextShows(m, calls[0]);
      NextKeepsInv(m, calls[0]);
      RunShows(Next(m, calls[0]).0, calls[1..]);
    }
  }

  /** In every run the application is told of each taken Apply, each success and each failure, once, in
      order, and each as what it is. */
  lemma EventsTell(store: map<Bytes, WifiConfig.Entry>, calls: seq<Call>)
    ensures
      var m := ExecuteAll(store, calls);
      Visible(m.events) == Meanings(m.wifi.out)
  {
    RunShows(PowerUp(store), calls);
  }
}
