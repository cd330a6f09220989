/** The small machine the Wi-Fi handler refines: at most one job, with its credentials and the
    attempts it has left. */
module WifiRefinement {
  import opened Common
  import opened WifiConfig
  import opened WifiRuns

  /** Trying carries the cause of the latest failed attempt, if any failed, and whether a retry is
      owed. */
  datatype Job =
    | Idle
    | Trying(cred: Cred, left: nat, failed: Option<Cause>, owed: bool)
    | Done
    | Failed(reason: FailReason)

  datatype Machine = Machine(budget: nat, job: Job)

  /** What can happen to a job. */
  datatype Event =
    | Nothing
    | Launch(cred: Cred, taken: bool)
    | Answered(connected: bool, cause: Cause)
    | Timer(taken: bool)
    | Clear
    | Rebudget(budget: nat)

  function React(m: Machine, e: Event): (Machine, seq<Out>) {
    match e
    case Nothing => (m, [])
    case Launch(cred, taken) =>
      if taken then
        (m.(job := Trying(cred, if m.budget == 0 then 1 else m.budget, None, false)),
         [Recv(cred), Connect(cred)])
      else (m.(job := Failed(AuthError)), [Recv(cred), Connect(cred), Failure(AuthError)])
    case Answered(connected, cause) =>
      if !m.job.Trying? then (m, [])
      else if connected then (m.(job := Done), [Success])
      else if m.job.left > 1 then
        (m.(job := Trying(m.job.cred, m.job.left - 1, Some(cause), true)), [])
      else (m.(job := Failed(ReasonOf(cause))), [Failure(ReasonOf(cause))])
    case Timer(taken) =>
      if !m.job.Trying? || !m.job.owed || m.job.failed.None? then (m, [])
      else if taken then (m.(job := m.job.(owed := false)), [Connect(m.job.cred)])
      else
        (m.(job := Failed(ReasonOf(m.job.failed.value))),
         [Connect(m.job.cred), Failure(ReasonOf(m.job.failed.value))])
    case Clear => (m.(job := Idle), [])
    case Rebudget(budget) => (Machine(budget, Idle), [])
  }

  /** The job a concrete state stands for. */
  function JobOf(w: Wifi): Job
    requires w.completed <= w.attemptsMax
  {
    if !w.registered then Idle
    else if Inflight(w) then
      Trying(w.inflight, if w.attemptsMax == 0 then 1 else w.attemptsMax - w.completed,
             if w.attemptFailed then Some(w.lastCause) else None, w.retry)
    else match w.sta
      case Connected => Done
      case ConnectionFailed => Failed(w.failReason)
      case _ => Idle
  }

  function Abstract(w: Wifi): Machine
    requires w.completed <= w.attemptsMax
  {
    Machine(w.attemptsMax, JobOf(w))
  }

  /** The event a concrete step is. An Apply that stores nothing is no event. */
  function EventOf(w: Wifi, s: Step): Event {
    match s
    case Set(_, _, _, _) => Nothing
    case DoApply(e) => if w.registered && Stores(w, e) then Launch(w.staged, e.connect) else Nothing
    case Configure(ssid, psk, e) =>
      var c := Cred(ssid, psk, None, 0);
      if w.registered && AcceptableSet(c) && e.iface && e.put then Launch(c, e.connect) else Nothing
    case DoReset => if w.registered then Clear else Nothing
    case Result(connected, cause, _) => Answered(connected, cause)
    case Retry(connect, _) => if w.retry then Timer(connect) else Nothing
    case Start(attempts) => if w.registered then Nothing else Rebudget(attempts)
    case Stop => Clear
    case Erase(_) => Nothing
  }

  /** The step from w to w' is this reaction of the abstract machine, with its outputs. */
  ghost predicate Simulates(w: Wifi, w': Wifi, e: Event) {
    && w.completed <= w.attemptsMax && w'.completed <= w'.attemptsMax
    && Abstract(w') == React(Abstract(w), e).0
    && w'.out == w.out + React(Abstract(w), e).1
  }

  lemma ApplySimulates(w: Wifi, e: ApplyEnv)
    requires Inv(w) && w.registered
    ensures Simulates(w, Apply(w, e).0, if Stores(w, e) then Launch(w.staged, e.connect) else Nothing)
  {
    var c := w.staged;
    assert (w.out + [Recv(c), Connect(c)]) + [Failure(AuthError)]
        == w.out + [Recv(c), Connect(c), Failure(AuthError)];
  }

  lemma RetrySimulates(w: Wifi, connect: bool, delete: bool)
    requires Inv(w)
    ensures Simulates(w, RetryFires(w, connect, delete), if w.retry then Timer(connect) else Nothing)
  {
    var x, y := Connect(w.inflight), Failure(ReasonOf(w.lastCause));
    assert (w.out + [x]) + [y] == w.out + [x, y];
  }

  lemma SuccessSimulates(w: Wifi, cause: Cause, delete: bool)
    requires Inv(w)
    ensures Simulates(w, ConnectResult(w, true, cause, delete), Answered(true, cause))
  {}

  lemma FailureSimulates(w: Wifi, cause: Cause, delete: bool)
    requires Inv(w)
    ensures Simulates(w, ConnectResult(w, false, cause, delete), Answered(false, cause))
  {
    if Inflight(w) && w.attemptsMax > 0 {
      assert (w.completed + 1) % (UINT32_MAX + 1) == w.completed + 1;
    }
  }

  lemma ResultSimulates(w: Wifi, connected: bool, cause: Cause, delete: bool)
    requires Inv(w)
    ensures Simulates(w, ConnectResult(w, connected, cause, delete), Answered(connected, cause))
  {
    if connected {
      SuccessSimulates(w, cause, delete);
    } else {
      FailureSimulates(w, cause, delete);
    }
  }

  lemma SetSimulates(w: Wifi, ssid: Bytes, pass: Bytes, bssid: Bytes, channel: bv8)
    requires Inv(w)
    ensures Simulates(w, Next(w, Set(ssid, pass, bssid, channel)), Nothing)
  {}

  lemma ResetSimulates(w: Wifi)
    requires Inv(w)
    ensures Simulates(w, Next(w, DoReset), if w.registered then Clear else Nothing)
  {}

  lemma StartSimulates(w: Wifi, attempts: uint32)
    requires Inv(w)
    ensures Simulates(w, Next(w, Start(attempts)), if w.registered then Nothing else Rebudget(attempts))
  {}

  lemma StopSimulates(w: Wifi)
    requires Inv(w)
    ensures Simulates(w, Next(w, Stop), Clear)
  {}

  lemma EraseSimulates(w: Wifi, works: bool)
    requires Inv(w)
    ensures Simulates(w, Next(w, Erase(works)), Nothing)
  {}

  lemma ConfigureSimulates(w: Wifi, ssid: Bytes, psk: Bytes, e: ApplyEnv)
    requires Inv(w)
    ensures Simulates(w, Next(w, Configure(ssid, psk, e)), EventOf(w, Configure(ssid, psk, e)))
  {
    if w.registered && AcceptableSet(Cred(ssid, psk, None, 0)) {
      ApplySimulates(w.(staged := Cred(ssid, psk, None, 0)), e);
    }
  }

  /** Refinement, step by step. */
  lemma StepSimulates(w: Wifi, s: Step)
    requires Inv(w)
    ensures Simulates(w, Next(w, s), EventOf(w, s))
  {
    match s
    case DoApply(e) =>
      if w.registered { ApplySimulates(w, e); }
    case Configure(ssid, psk, e) => ConfigureSimulates(w, ssid, psk, e);
    case Result(connected, cause, delete) => ResultSimulates(w, connected, cause, delete);
    case Retry(connect, delete) => RetrySimulates(w, connect, delete);
    case Set(ssid, pass, bssid, channel) => SetSimulates(w, ssid, pass, bssid, channel);
    case DoReset => ResetSimulates(w);
    case Start(attempts) => StartSimulates(w, attempts);
    case Stop => StopSimulates(w);
    case Erase(works) => EraseSimulates(w, works);
  }

  function Events(w: Wifi, steps: seq<Step>): seq<Event>
    decreases |steps|
  {
    if steps == [] then [] else [EventOf(w, steps[0])] + Events(Next(w, steps[0]), steps[1..])
  }

  function ReactAll(m: Machine, events: seq<Event>): (Machine, seq<Out>)
    decreases |events|
  {
    if events == [] then (m, [])
    else
      var (m1, out) := React(m, events[0]);
      var (m2, rest) := ReactAll(m1, events[1..]);
      (m2, out + rest)
  }

  lemma ReactCons(m: Machine, e: Event, rest: seq<Event>)
    ensures
      var (m1, out) := React(m, e);
      ReactAll(m, [e] + rest) == (ReactAll(m1, rest).0, out + ReactAll(m1, rest).1)
  {
    assert ([e] + rest)[1..] == rest;
  }

  /** State and outputs of a run from w to w' are those of the abstract machine on events. */
  ghost predicate RunOf(w: Wifi, w': Wifi, events: seq<Event>) {
    && w.completed <= w.attemptsMax && w'.completed <= w'.attemptsMax
    && Abstract(w') == ReactAll(Abstract(w), events).0
    && w'.out == w.out + ReactAll(Abstract(w), events).1
  }

  lemma RunCons(w: Wifi, w1: Wifi, w2: Wifi, e: Event, rest: seq<Event>)
    requires Simulates(w, w1, e) && RunOf(w1, w2, rest)
    ensures RunOf(w, w2, [e] + rest)
  {
    ReactCons(Abstract(w), e, rest);
  }

  /** Refinement of whole runs: state and output trace of every interleaving are those of the
      abstract machine on the corresponding events. */
  lemma {:induction false} RunSimulates(w: Wifi, steps: seq<Step>)
    requires Inv(w)
    ensures RunOf(w, Execute(w, steps), Events(w, steps))
    decreases |steps|
  {
    if steps != [] {
      NextKeepsInv(w, steps[0]);
      StepSimulates(w, steps[0]);
      RunSimulates(Next(w, steps[0]), steps[1..]);
      RunCons(w, Next(w, steps[0]), Execute(Next(w, steps[0]), steps[1..]), EventOf(w, steps[0]),
              Events(Next(w, steps[0]), steps[1..]));
    }
  }

  /** What a status poll says of a job. */
  function JobStatus(j: Job): StatusReply {
    match j
    case Idle => StatusReply(Disconnected, NoDetail)
    case Trying(_, left, failed, _) => StatusReply(Connecting, if failed.Some? then RetryDetail(left) else NoDetail)
    case Done => StatusReply(Connected, ConnectedDetail)
    case Failed(reason) => StatusReply(ConnectionFailed, FailDetail(reason))
  }

  /** In every run from power-up, while the service runs, Connecting means exactly that a snapshot
      is in flight, and the status reply is a function of the abstract job; the output trace is
      the abstract machine's. */
  lemma StatusRefines(store: map<Bytes, Entry>, steps: seq<Step>)
    ensures
      var w := Execute(Boot(store), steps);
      && w.out == ReactAll(Machine(0, Idle), Events(Boot(store), steps)).1
      && (w.registered ==>
        && (w.sta == Connecting <==> Inflight(w))
        && GetStatus(w) == JobStatus(ReactAll(Machine(0, Idle), Events(Boot(store), steps)).0.job))
  {
    ExecuteKeepsInv(Boot(store), steps);
    RunSimulates(Boot(store), steps);
  }
}
