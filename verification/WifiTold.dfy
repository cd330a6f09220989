/** What clients and the application are answered and told by the Wi-Fi handler, from the requests and
    results of a run alone. */
module WifiTold {
  import opened Common
  import opened WifiConfig
  import opened WifiRuns

  // Answers.

  /** A Set is accepted exactly on its lengths, and an Apply exactly when it begins an attempt: when
      there is an interface, the store takes the entry and something is staged. */
  lemma RequestsAnswered(w: Wifi, ssid: Bytes, pass: Bytes, bssid: Bytes, channel: bv8, e: ApplyEnv)
    ensures SetConfig(w, Staged(ssid, pass, bssid, channel)).1
            == if 1 <= |ssid| <= 32 && |pass| <= 63 then Accepted else InvalidArgument
    ensures Apply(w, e).1 == (if e.iface && e.put && w.staged.ssid != [] then Accepted else InternalError)
    ensures Apply(w, e).1 == Accepted <==> Apply(w, e).0.out != w.out
  {
    assert |w.out + [Recv(w.staged), Connect(w.staged)]| > |w.out|;
  }

  /** The programmatic path is answered with success exactly when the lengths are in range and the Apply
      begins an attempt on what was given. */
  lemma ConfigureAnswered(w: Wifi, ssid: Bytes, psk: Bytes, e: ApplyEnv)
    ensures SetAndApply(w, ssid, psk, e).1
            == (if !(1 <= |ssid| <= 32 && |psk| <= 63) then Err(EINVAL)
                else if e.iface && e.put then Ok(())
                else Err(EIO))
    ensures SetAndApply(w, ssid, psk, e).1 == Ok(()) <==> SetAndApply(w, ssid, psk, e).0.out != w.out
  {
    var staged := w.(staged := Cred(ssid, psk, None, 0));
    RequestsAnswered(staged, ssid, psk, [], 0, e);
  }

  /** Set, reset, start and stop leave the store as it was, also the entry of an attempt in flight. */
  lemma QuietKeepsStore(w: Wifi, s: Step)
    requires s.Set? || s.DoReset? || s.Start? || s.Stop?
    ensures Next(w, s).store == w.store
  {}

  // The cause of a failure.

  /** The cause of the last failed attempt: the last failing result that met an attempt. */
  function LastCause(store: map<Bytes, Entry>, steps: seq<Step>): Cause {
    if steps == [] then OtherCause
    else
      var last, before := steps[|steps| - 1], steps[..|steps| - 1];
      if last.Result? && !last.connected && Inflight(Execute(Boot(store), before)) then last.cause
      else LastCause(store, before)
  }

  lemma NextCause(w: Wifi, s: Step)
    requires Inv(w)
    ensures Next(w, s).lastCause == if s.Result? && !s.connected && Inflight(w) then s.cause else w.lastCause
  {}

  lemma {:induction false} CauseTold(store: map<Bytes, Entry>, steps: seq<Step>)
    ensures Execute(Boot(store), steps).lastCause == LastCause(store, steps)
  {
    if steps != [] {
      var last, before := steps[|steps| - 1], steps[..|steps| - 1];
      CauseTold(store, before);
      assert before + [last] == steps;
      ExecuteSnoc(Boot(store), before, last);
      ExecuteKeepsInv(Boot(store), before);
      NextCause(Execute(Boot(store), before), last);
    }
  }

  /** The failure, if the step reports one. */
  function Reported(w: Wifi, w': Wifi): Option<FailReason> {
    if |w'.out| > |w.out| && w'.out[|w'.out| - 1].Failure? then Some(w'.out[|w'.out| - 1].reason) else None
  }

  predicate RightReason(w: Wifi, w': Wifi, notFound: bool) {
    Reported(w, w').Some? ==>
      && (Reported(w, w').value == NetworkNotFound <==> notFound)
      && GetStatus(w') == StatusReply(ConnectionFailed, FailDetail(Reported(w, w').value))
  }

  lemma ResultReason(w: Wifi, connected: bool, cause: Cause, delete: bool)
    ensures RightReason(w, ConnectResult(w, connected, cause, delete), cause == ApNotFound)
  {}

  lemma RetryReason(w: Wifi, connect: bool, delete: bool)
    ensures RightReason(w, RetryFires(w, connect, delete), w.lastCause == ApNotFound)
  {}

  lemma ApplyReason(w: Wifi, e: ApplyEnv)
    ensures RightReason(w, Apply(w, e).0, false)
  {}

  /** In every run a reported failure says "network not found" if and only if the last failed attempt did
      not find the access point; a request refused on the spot says "authentication"; and the status
      poll gives the same reason. */
  lemma FailureReason(store: map<Bytes, Entry>, steps: seq<Step>, s: Step)
    ensures
      var w := Execute(Boot(store), steps);
      RightReason(w, Next(w, s), !s.DoApply? && !s.Configure? && LastCause(store, steps + [s]) == ApNotFound)
  {
    var w := Execute(Boot(store), steps);
    CauseTold(store, steps);
    CauseTold(store, steps + [s]);
    ExecuteSnoc(Boot(store), steps, s);
    ExecuteKeepsInv(Boot(store), steps);
    NextCause(w, s);
    match s
    case DoApply(e) => ApplyReason(w, e);
    case Configure(ssid, psk, e) => ApplyReason(w.(staged := Cred(ssid, psk, None, 0)), e);
    case Retry(connect, delete) => RetryReason(w, connect, delete);
    case Result(connected, cause, delete) => ResultReason(w, connected, cause, delete);
    case _ => QuietKeepsInv(w, s);
  }

  // The attempts that remain.

  /** The budget of the last start. */
  function BudgetTold(steps: seq<Step>): nat {
    if steps == [] then 0
    else
      var last, before := steps[|steps| - 1], steps[..|steps| - 1];
      if last.Start? && !Running(before) then last.attempts else BudgetTold(before)
  }

  /** Failing results that met an attempt, since the last start, reset or Apply that was taken. */
  function FailuresTold(store: map<Bytes, Entry>, steps: seq<Step>): nat {
    if steps == [] then 0
    else
      var last, before := steps[|steps| - 1], steps[..|steps| - 1];
      var w := Execute(Boot(store), before);
      var n := FailuresTold(store, before);
      match last
      case Start(_) => if Running(before) then n else 0
      case DoReset => if Running(before) then 0 else n
      case DoApply(_) => if Next(w, last).out != w.out then 0 else n
      case Configure(_, _, _) => if Next(w, last).out != w.out then 0 else n
      case Result(connected, _, _) => if !connected && Inflight(w) && BudgetTold(before) > 0 then n + 1 else n
      case _ => n
  }

  lemma NextAttempts(w: Wifi, s: Step)
    requires Inv(w)
    ensures Next(w, s).attemptsMax == if s.Start? && !w.registered then s.attempts else w.attemptsMax
    ensures Next(w, s).completed
            == match s {
                 case Start(_) => if w.registered then w.completed else 0
                 case DoReset => if w.registered then 0 else w.completed
                 case DoApply(_) => if Next(w, s).out != w.out then 0 else w.completed
                 case Configure(_, _, _) => if Next(w, s).out != w.out then 0 else w.completed
                 case Result(connected, _, _) =>
                   if !connected && Inflight(w) && w.attemptsMax > 0 then w.completed + 1 else w.completed
                 case _ => w.completed
               }
  {
    match s
    case DoApply(e) => ApplyAttempts(w, e);
    case Configure(ssid, psk, e) => ApplyAttempts(w.(staged := Cred(ssid, psk, None, 0)), e);
    case Result(connected, cause, delete) => ResultAttempts(w, connected, cause, delete);
    case _ =>
  }

  lemma ApplyAttempts(w: Wifi, e: ApplyEnv)
    ensures Apply(w, e).0.attemptsMax == w.attemptsMax
    ensures Apply(w, e).0.completed == if Apply(w, e).0.out != w.out then 0 else w.completed
  {
    RequestsAnswered(w, [], [], [], 0, e);
  }

  lemma ResultAttempts(w: Wifi, connected: bool, cause: Cause, delete: bool)
    requires Inv(w)
    ensures ConnectResult(w, connected, cause, delete).attemptsMax == w.attemptsMax
    ensures ConnectResult(w, connected, cause, delete).completed
            == if !connected && Inflight(w) && w.attemptsMax > 0 then w.completed + 1 else w.completed
  {
    if Inflight(w) && w.attemptsMax > 0 {
      assert (w.completed + 1) % (UINT32_MAX + 1) == w.completed + 1;
    }
  }

  lemma {:induction false} AttemptsTold(store: map<Bytes, Entry>, steps: seq<Step>)
    ensures
      var w := Execute(Boot(store), steps);
      w.attemptsMax == BudgetTold(steps) && w.completed == FailuresTold(store, steps)
  {
    if steps != [] {
      var last, before := steps[|steps| - 1], steps[..|steps| - 1];
      AttemptsTold(store, before);
      StagedIsLastSet(store, before);
      assert before + [last] == steps;
      ExecuteSnoc(Boot(store), before, last);
      ExecuteKeepsInv(Boot(store), before);
      NextAttempts(Execute(Boot(store), before), last);
    }
  }

  /** In every run the attempts said to remain are the budget of the last start less the failed attempts
      since the last start, reset or Apply that was taken. */
  lemma RemainingTold(store: map<Bytes, Entry>, steps: seq<Step>)
    ensures Remaining(Execute(Boot(store), steps)) == BudgetTold(steps) - FailuresTold(store, steps)
  {
    AttemptsTold(store, steps);
    ExecuteKeepsInv(Boot(store), steps);
  }
}
