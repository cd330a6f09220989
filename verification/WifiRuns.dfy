/** Runs of the Wi-Fi handler under every interleaving of requests, connect results and retry
    firings: the invariant, the attempt bound, forced outcomes and the effect on the store. */
module WifiRuns {
  import opened Common
  import opened WifiConfig

  datatype Step =
    | Set(ssid: Bytes, pass: Bytes, bssid: Bytes, channel: bv8)
    | DoApply(env: ApplyEnv)
    | Configure(ssid: Bytes, psk: Bytes, env: ApplyEnv)
    | DoReset
    | Result(connected: bool, cause: Cause, delete: bool)
    | Retry(connect: bool, delete: bool)
    | Start(attempts: uint32)
    | Stop
    | Erase(works: bool)

  /** Requests reach the handler only while the service runs; it is started only when stopped. The
      manager may erase the whole store at any time. */
  function Next(w: Wifi, s: Step): Wifi {
    match s
    case Set(ssid, pass, bssid, channel) =>
      if w.registered then SetConfig(w, Staged(ssid, pass, bssid, channel)).0 else w
    case DoApply(e) => if w.registered then Apply(w, e).0 else w
    case Configure(ssid, psk, e) => if w.registered then SetAndApply(w, ssid, psk, e).0 else w
    case DoReset => if w.registered then Reset(w) else w
    case Result(connected, cause, delete) => ConnectResult(w, connected, cause, delete)
    case Retry(connect, delete) => RetryFires(w, connect, delete)
    case Start(attempts) => if w.registered then w else Init(w, attempts)
    case Stop => Deinit(w)
    case Erase(works) => if works then w.(store := map[]) else w
  }

  function Execute(w: Wifi, steps: seq<Step>): Wifi
    decreases |steps|
  {
    if steps == [] then w else Execute(Next(w, steps[0]), steps[1..])
  }

  /** The credentials of the last accepted Apply. */
  function LastRecv(out: seq<Out>): Option<Cred> {
    if out == [] then None
    else
      var last := out[|out| - 1];
      if last.Recv? then Some(last.cred) else LastRecv(out[..|out| - 1])
  }

  /** The last accepted Apply has no outcome yet. */
  function AttemptOpen(out: seq<Out>): bool {
    if out == [] then false
    else match out[|out| - 1]
      case Recv(_) => true
      case Connect(_) => AttemptOpen(out[..|out| - 1])
      case _ => false
  }

  /** Connect requests issued since the last accepted Apply. */
  function Calls(out: seq<Out>): nat {
    if out == [] then 0
    else match out[|out| - 1]
      case Recv(_) => 0
      case Connect(_) => Calls(out[..|out| - 1]) + 1
      case _ => Calls(out[..|out| - 1])
  }

  /** Every connect request carries the credentials frozen by the last Apply, and it and every
      outcome belong to an attempt still open. */
  ghost predicate Orderly(out: seq<Out>) {
    out != [] ==>
      var before, last := out[..|out| - 1], out[|out| - 1];
      && Orderly(before)
      && (last.Connect? ==> AttemptOpen(before) && LastRecv(before) == Some(last.cred))
      && (last.Success? || last.Failure? ==> AttemptOpen(before))
  }

  lemma One(out: seq<Out>, x: Out)
    ensures LastRecv(out + [x]) == if x.Recv? then Some(x.cred) else LastRecv(out)
    ensures AttemptOpen(out + [x]) == (x.Recv? || (x.Connect? && AttemptOpen(out)))
    ensures Calls(out + [x]) == if x.Recv? then 0 else if x.Connect? then Calls(out) + 1 else Calls(out)
    ensures Orderly(out + [x]) <==>
              && Orderly(out)
              && (x.Connect? ==> AttemptOpen(out) && LastRecv(out) == Some(x.cred))
              && (x.Success? || x.Failure? ==> AttemptOpen(out))
  {
    assert (out + [x])[..|out|] == out;
  }

  lemma Two(out: seq<Out>, c: Cred)
    requires Orderly(out)
    ensures var o := out + [Recv(c), Connect(c)];
      Orderly(o) && AttemptOpen(o) && LastRecv(o) == Some(c) && Calls(o) == 1
  {
    One(out, Recv(c));
    One(out + [Recv(c)], Connect(c));
    assert out + [Recv(c), Connect(c)] == (out + [Recv(c)]) + [Connect(c)];
  }

  predicate Inflight(w: Wifi) {
    w.inflight.ssid != []
  }

  /** What holds while an attempt is in flight. */
  ghost predicate Attempt(w: Wifi) {
    && AttemptOpen(w.out) && LastRecv(w.out) == Some(w.inflight)
    && (w.completed < w.attemptsMax || w.completed == w.attemptsMax == 0)
    && (w.attemptFailed <==> w.completed > 0)
    && (w.retry ==> w.completed > 0)
    && Calls(w.out) + (if w.retry then 1 else 0) <= 1 + w.completed
  }

  /** The invariant of every run. While the service runs, Connecting means exactly that a
      snapshot is in flight; outside it, nothing is. */
  ghost predicate Inv(w: Wifi) {
    && Orderly(w.out)
    && w.completed <= w.attemptsMax
    && (w.registered ==> (w.sta == Connecting <==> Inflight(w)))
    && (!w.registered ==> !Inflight(w) && !w.retry)
    && (Inflight(w) ==> Attempt(w))
    && (!Inflight(w) ==> w.inflight == NO_CRED)
  }

  lemma FinalFailureKeepsInv(w: Wifi, delete: bool)
    requires Orderly(w.out) && AttemptOpen(w.out) && w.completed <= w.attemptsMax && w.registered
    ensures Inv(FinalFailure(w, delete))
    ensures Calls(FinalFailure(w, delete).out) == Calls(w.out)
  {
    One(w.out, Failure(ReasonOf(w.lastCause)));
  }

  lemma ApplyKeepsInv(w: Wifi, e: ApplyEnv)
    requires Inv(w) && w.registered
    ensures Inv(Apply(w, e).0)
    ensures Apply(w, e).0.out != w.out ==> Calls(Apply(w, e).0.out) == 1
  {
    if Stores(w, e) {
      Two(w.out, w.staged);
      One(w.out + [Recv(w.staged), Connect(w.staged)], Failure(AuthError));
    }
  }

  lemma RetryKeepsInv(w: Wifi, connect: bool, delete: bool)
    requires Inv(w)
    ensures Inv(RetryFires(w, connect, delete))
    ensures Inflight(w) ==> Calls(RetryFires(w, connect, delete).out) <= 1 + w.completed
  {
    if w.retry && Inflight(w) {
      One(w.out, Connect(w.inflight));
      if !connect {
        FinalFailureKeepsInv(w.(retry := false, out := w.out + [Connect(w.inflight)]), delete);
      }
    }
  }

  lemma SuccessKeepsInv(w: Wifi, cause: Cause, delete: bool)
    requires Inv(w) && Inflight(w)
    ensures Inv(ConnectResult(w, true, cause, delete))
    ensures Calls(ConnectResult(w, true, cause, delete).out) == Calls(w.out)
  {
    One(w.out, Success);
  }

  lemma FailureKeepsInv(w: Wifi, cause: Cause, delete: bool)
    requires Inv(w) && Inflight(w)
    ensures Inv(ConnectResult(w, false, cause, delete))
    ensures Calls(ConnectResult(w, false, cause, delete).out) == Calls(w.out)
  {
    var failed := w.(lastCause := cause);
    if w.attemptsMax == 0 {
      FinalFailureKeepsInv(failed, delete);
    } else {
      assert (w.completed + 1) % (UINT32_MAX + 1) == w.completed + 1;
      if w.completed + 1 == w.attemptsMax {
        FinalFailureKeepsInv(failed.(completed := w.completed + 1), delete);
      }
    }
  }

  lemma ResultKeepsInv(w: Wifi, connected: bool, cause: Cause, delete: bool)
    requires Inv(w)
    ensures Inv(ConnectResult(w, connected, cause, delete))
    ensures Calls(ConnectResult(w, connected, cause, delete).out) == Calls(w.out)
  {
    if Inflight(w) {
      if connected { SuccessKeepsInv(w, cause, delete); } else { FailureKeepsInv(w, cause, delete); }
    }
  }

  lemma NextKeepsInv(w: Wifi, s: Step)
    requires Inv(w)
    ensures Inv(Next(w, s))
    ensures Next(w, s).out != w.out ==> Calls(Next(w, s).out) <= if w.attemptsMax == 0 then 1 else w.attemptsMax
  {
    match s
    case DoApply(e) =>
      if w.registered { ApplyKeepsInv(w, e); }
    case Configure(ssid, psk, e) =>
      if w.registered { ApplyKeepsInv(w.(staged := Cred(ssid, psk, None, 0)), e); }
    case Retry(connect, delete) => RetryKeepsInv(w, connect, delete);
    case Result(connected, cause, delete) => ResultKeepsInv(w, connected, cause, delete);
    case _ => QuietKeepsInv(w, s);
  }

  /** Set, reset, start, stop and erase show nothing outside. */
  lemma QuietKeepsInv(w: Wifi, s: Step)
    requires Inv(w) && (s.Set? || s.DoReset? || s.Start? || s.Stop? || s.Erase?)
    ensures Inv(Next(w, s)) && Next(w, s).out == w.out
  {}

  lemma {:induction false} ExecuteKeepsInv(w: Wifi, steps: seq<Step>)
    requires Inv(w)
    ensures Inv(Execute(w, steps))
    decreases |steps|
  {
    if steps != [] {
      NextKeepsInv(w, steps[0]);
      ExecuteKeepsInv(Next(w, steps[0]), steps[1..]);
    }
  }

  /** A reported number of attempts remaining lies strictly between 0 and the budget. */
  lemma ReportedRemaining(w: Wifi)
    requires Inv(w) && w.registered && GetStatus(w).detail.RetryDetail?
    ensures 1 <= GetStatus(w).detail.remaining <= w.attemptsMax - 1
  {}

  /** Attempt bound, at every point of every run: the step taken next never brings the connect
      requests since the last Apply above max(1, attempts), even with spurious results, and the
      attempt count never passes the budget, so its 32 bits never wrap. */
  lemma AttemptBound(store: map<Bytes, Entry>, steps: seq<Step>, s: Step)
    ensures
      var w := Execute(Boot(store), steps);
      var w' := Next(w, s);
      && (w'.out != w.out ==> Calls(w'.out) <= if w.attemptsMax == 0 then 1 else w.attemptsMax)
      && w'.completed <= w'.attemptsMax
      && (w'.registered && GetStatus(w').detail.RetryDetail? ==>
            1 <= GetStatus(w').detail.remaining <= w'.attemptsMax - 1)
  {
    ExecuteKeepsInv(Boot(store), steps);
    var w := Execute(Boot(store), steps);
    NextKeepsInv(w, s);
    if Next(w, s).registered && GetStatus(Next(w, s)).detail.RetryDetail? {
      ReportedRemaining(Next(w, s));
    }
  }

  lemma {:induction false} OrderlyAt(out: seq<Out>, i: nat)
    requires Orderly(out) && i < |out|
    ensures out[i].Connect? ==> LastRecv(out[..i]) == Some(out[i].cred) && AttemptOpen(out[..i])
    ensures out[i].Success? || out[i].Failure? ==> AttemptOpen(out[..i])
  {
    if i < |out| - 1 {
      OrderlyAt(out[..|out| - 1], i);
      assert out[..|out| - 1][..i] == out[..i];
    }
  }

  /** Frozen snapshot: whatever Set does meanwhile, every connect request of every run carries
      exactly the credentials of the Apply before it, and every outcome answers an open Apply. */
  lemma FrozenSnapshot(store: map<Bytes, Entry>, steps: seq<Step>, i: nat)
    requires i < |Execute(Boot(store), steps).out|
    ensures
      var out := Execute(Boot(store), steps).out;
      && (out[i].Connect? ==> LastRecv(out[..i]) == Some(out[i].cred) && AttemptOpen(out[..i]))
      && (out[i].Success? || out[i].Failure? ==> AttemptOpen(out[..i]))
  {
    ExecuteKeepsInv(Boot(store), steps);
    OrderlyAt(Execute(Boot(store), steps).out, i);
  }

  // What an Apply applies, told from the requests alone.

  /** The service runs: whether the last start or stop was a start. */
  predicate Running(steps: seq<Step>) {
    steps != [] &&
    (var last := steps[|steps| - 1];
     last.Start? || (!last.Stop? && Running(steps[..|steps| - 1])))
  }

  /** The credentials of the last request that set any and was accepted, unless a reset followed. */
  function LastSet(steps: seq<Step>): Cred {
    if steps == [] then NO_CRED
    else
      var last, before := steps[|steps| - 1], steps[..|steps| - 1];
      if !Running(before) then LastSet(before)
      else match last
        case Set(ssid, pass, bssid, channel) =>
          if 1 <= |ssid| <= 32 && |pass| <= 63
          then Cred(ssid, pass, if |bssid| == 6 then Some(bssid) else None, channel)
          else LastSet(before)
        case Configure(ssid, psk, _) =>
          if 1 <= |ssid| <= 32 && |psk| <= 63 then Cred(ssid, psk, None, 0) else LastSet(before)
        case DoReset => NO_CRED
        case _ => LastSet(before)
  }

  lemma {:induction false} ExecuteSnoc(w: Wifi, steps: seq<Step>, s: Step)
    ensures Execute(w, steps + [s]) == Next(Execute(w, steps), s)
    decreases |steps|
  {
    if steps == [] {
      assert steps + [s] == [s];
    } else {
      assert (steps + [s])[1..] == steps[1..] + [s];
      ExecuteSnoc(Next(w, steps[0]), steps[1..], s);
    }
  }

  lemma {:induction false} StagedIsLastSet(store: map<Bytes, Entry>, steps: seq<Step>)
    ensures Execute(Boot(store), steps).staged == LastSet(steps)
    ensures Execute(Boot(store), steps).registered == Running(steps)
  {
    if steps != [] {
      var before, last := steps[..|steps| - 1], steps[|steps| - 1];
      StagedIsLastSet(store, before);
      assert before + [last] == steps;
      ExecuteSnoc(Boot(store), before, last);
      NextStages(Execute(Boot(store), before), last);
    }
  }

  lemma NextStages(w: Wifi, s: Step)
    ensures Next(w, s).registered == (s.Start? || (!s.Stop? && w.registered))
    ensures Next(w, s).staged ==
              (if !w.registered then w.staged
               else match s {
                 case Set(ssid, pass, bssid, channel) =>
                   if AcceptableSet(Staged(ssid, pass, bssid, channel)) then Staged(ssid, pass, bssid, channel) else w.staged
                 case Configure(ssid, psk, _) =>
                   if AcceptableSet(Cred(ssid, psk, None, 0)) then Cred(ssid, psk, None, 0) else w.staged
                 case DoReset => NO_CRED
                 case _ => w.staged
               })
  {}

  /** After any run, an Apply that is taken stores and tries exactly the credentials last set,
      through failed attempts, stops and restarts of the service. */
  lemma AppliesLastSet(store: map<Bytes, Entry>, steps: seq<Step>, e: ApplyEnv)
    requires e.iface && e.put && e.connect
    ensures
      var w := Execute(Boot(store), steps);
      var w' := Next(w, DoApply(e));
      var c := LastSet(steps);
      if Running(steps) && c.ssid != [] then
        && w'.out == w.out + [Recv(c), Connect(c)]
        && w'.inflight == c
        && w'.store == w.store[c.ssid := Entry(if c.pass == [] then Open else Psk, c.pass, c.bssid, c.channel)]
      else w'.out == w.out
  {
    StagedIsLastSet(store, steps);
    var w := Execute(Boot(store), steps);
    assert Delete(w.store, w.staged.ssid, true)[w.staged.ssid := EntryOf(w.staged)]
        == w.store[w.staged.ssid := EntryOf(w.staged)];
  }

  /** The credentials set since the service last started, unless a reset followed. */
  function CurrentSet(steps: seq<Step>): Cred {
    if steps == [] then NO_CRED
    else
      var last, before := steps[|steps| - 1], steps[..|steps| - 1];
      if last.Start? && !Running(before) then NO_CRED
      else if Running(before) && Accepts(last) then LastSet(steps)
      else CurrentSet(before)
  }

  /** The request changes what is staged: a reset, or a Set whose lengths are accepted. */
  predicate Accepts(s: Step) {
    match s
    case Set(ssid, pass, _, _) => 1 <= |ssid| <= 32 && |pass| <= 63
    case Configure(ssid, psk, _) => 1 <= |ssid| <= 32 && |psk| <= 63
    case DoReset => true
    case _ => false
  }

  /** Since the service last started, a Set was accepted or a reset received. */
  predicate Touched(steps: seq<Step>) {
    steps != [] &&
    (var last, before := steps[|steps| - 1], steps[..|steps| - 1];
     if last.Start? && !Running(before) then false
     else Touched(before) || (Running(before) && Accepts(last)))
  }

  /** What was staged when the service last started. */
  function Carried(steps: seq<Step>): Cred {
    if steps == [] then NO_CRED
    else
      var last, before := steps[|steps| - 1], steps[..|steps| - 1];
      if last.Start? && !Running(before) then LastSet(before) else Carried(before)
  }

  lemma {:induction false} LastSetCases(steps: seq<Step>)
    ensures LastSet(steps) == NO_CRED || LastSet(steps).ssid != []
    ensures LastSet(steps) == if Touched(steps) then CurrentSet(steps) else Carried(steps)
    ensures Touched(steps) || CurrentSet(steps) == NO_CRED
  {
    if steps != [] {
      LastSetCases(steps[..|steps| - 1]);
    }
  }

  /** Staged credentials outlive the service. An Apply that is taken tries what was set in the
      current service if and only if a Set was accepted or a reset received since it started, or
      nothing was staged when it started. */
  lemma AppliesCurrentSet(store: map<Bytes, Entry>, steps: seq<Step>, e: ApplyEnv)
    requires e.iface && e.put && e.connect && Running(steps)
    ensures
      var w := Execute(Boot(store), steps);
      var w' := Next(w, DoApply(e));
      var c := CurrentSet(steps);
      (if c.ssid != [] then w'.out == w.out + [Recv(c), Connect(c)] else w'.out == w.out)
      <==> Touched(steps) || Carried(steps) == NO_CRED
  {
    AppliesLastSet(store, steps, e);
    LastSetCases(steps);
    var out := Execute(Boot(store), steps).out;
    var c, d := LastSet(steps), CurrentSet(steps);
    assert (out + [Recv(c), Connect(c)])[|out|] == Recv(c);
    assert (out + [Recv(d), Connect(d)])[|out|] == Recv(d);
  }

  /** A run where they differ: a service that is stopped and started again applies what the earlier
      one was given, without a Set of its own. */
  lemma RestartApplies(store: map<Bytes, Entry>, ssid: Bytes, pass: Bytes, e: ApplyEnv) returns (steps: seq<Step>)
    requires 1 <= |ssid| <= 32 && |pass| <= 63 && e.iface && e.put && e.connect
    ensures Running(steps) && CurrentSet(steps) == NO_CRED
    ensures Next(Execute(Boot(store), steps), DoApply(e)).inflight == Cred(ssid, pass, None, 0)
  {
    var a, b, c, d := Start(1), Set(ssid, pass, [], 0), Stop, Start(1);
    steps := [a, b, c, d];
    assert steps[..3] == [a, b, c] && [a, b, c][..2] == [a, b] && [a, b][..1] == [a] && [a][..0] == [];
    assert Running([a]) && !Running([a, b, c]);
    assert LastSet([a, b]) == Cred(ssid, pass, None, 0);
    assert LastSet([a, b, c]) == LastSet([a, b]) && LastSet(steps) == LastSet([a, b, c]);
    AppliesLastSet(store, steps, e);
  }

  // Outcomes are forced.

  /** Steps that neither restart, abandon nor replace an attempt. */
  predicate Undisturbed(s: Step) {
    s.Set? || s.Result? || s.Retry? || s.Erase?
  }

  /** Outcomes reported. */
  function Outcomes(out: seq<Out>): nat {
    if out == [] then 0
    else
      var last := out[|out| - 1];
      Outcomes(out[..|out| - 1]) + if last.Success? || last.Failure? then 1 else 0
  }

  lemma OneOutcome(out: seq<Out>, x: Out)
    ensures Outcomes(out + [x]) == Outcomes(out) + if x.Success? || x.Failure? then 1 else 0
  {
    assert (out + [x])[..|out|] == out;
  }

  /** An undisturbed step reports an outcome exactly when it ends the attempt. */
  lemma EndsWithOutcome(w: Wifi, s: Step)
    requires Inv(w) && Undisturbed(s)
    ensures Outcomes(Next(w, s).out) == Outcomes(w.out) + if Inflight(w) && !Inflight(Next(w, s)) then 1 else 0
  {
    var asked := w.out + [Connect(w.inflight)];
    OneOutcome(w.out, Success);
    OneOutcome(w.out, Connect(w.inflight));
    match s
    case Retry(_, _) => OneOutcome(asked, Failure(ReasonOf(w.lastCause)));
    case Result(_, cause, _) => OneOutcome(w.out, Failure(ReasonOf(cause)));
    case _ =>
  }

  function Results(steps: seq<Step>): nat {
    if steps == [] then 0 else (if steps[0].Result? then 1 else 0) + Results(steps[1..])
  }

  /** Answers the attempt in flight can still take: the ranking. */
  function Left(w: Wifi): nat {
    if !Inflight(w) then 0 else if w.attemptsMax <= w.completed then 1 else w.attemptsMax - w.completed
  }

  /** Each answer lowers the ranking, nothing undisturbed raises it, and what is over stays over. */
  lemma RankFalls(w: Wifi, s: Step)
    requires Inv(w) && Undisturbed(s)
    ensures !Inflight(w) ==> !Inflight(Next(w, s))
    ensures Inflight(Next(w, s)) ==> Left(Next(w, s)) + (if s.Result? then 1 else 0) <= Left(w)
  {}

  /** An attempt is over after as many answers as it has attempts left, however retries, spurious
      results, further Sets and erasures interleave; and exactly one outcome is reported when it is
      over, none before and none after. */
  lemma {:induction false} OutcomeForced(w: Wifi, steps: seq<Step>)
    requires Inv(w)
    requires forall s :: s in steps ==> Undisturbed(s)
    ensures !Inflight(w) ==> !Inflight(Execute(w, steps))
    ensures Results(steps) >= Left(w) ==> !Inflight(Execute(w, steps))
    ensures Outcomes(Execute(w, steps).out)
            == Outcomes(w.out) + if Inflight(w) && !Inflight(Execute(w, steps)) then 1 else 0
    decreases |steps|
  {
    if steps != [] {
      NextKeepsInv(w, steps[0]);
      RankFalls(w, steps[0]);
      EndsWithOutcome(w, steps[0]);
      OutcomeForced(Next(w, steps[0]), steps[1..]);
    }
  }

  /** An attempt never stalls when results answer requests: if every result comes while a request
      is unanswered, then in flight either a request awaits its answer or a retry is scheduled. */
  ghost predicate Exact(w: Wifi) {
    Inflight(w) ==> Calls(w.out) + (if w.retry then 1 else 0) == 1 + w.completed
  }

  lemma ApplyExact(w: Wifi, e: ApplyEnv)
    requires Inv(w) && Exact(w) && w.registered
    ensures Exact(Apply(w, e).0)
  {
    if Stores(w, e) {
      Two(w.out, w.staged);
    }
  }

  lemma RetryExact(w: Wifi, connect: bool, delete: bool)
    requires Inv(w) && Exact(w)
    ensures Exact(RetryFires(w, connect, delete))
  {
    if Inflight(w) {
      One(w.out, Connect(w.inflight));
    }
  }

  lemma ResultExact(w: Wifi, connected: bool, cause: Cause, delete: bool)
    requires Inv(w) && Exact(w)
    requires Inflight(w) ==> Calls(w.out) > w.completed
    ensures Exact(ConnectResult(w, connected, cause, delete))
  {}

  lemma NoStall(w: Wifi, s: Step)
    requires Inv(w) && Exact(w)
    requires s.Result? && Inflight(w) ==> Calls(w.out) > w.completed
    ensures Exact(Next(w, s))
    ensures Inflight(Next(w, s)) ==>
              Next(w, s).retry || Calls(Next(w, s).out) == Next(w, s).completed + 1
  {
    match s
    case DoApply(e) =>
      if w.registered { ApplyExact(w, e); }
    case Configure(ssid, psk, e) =>
      if w.registered { ApplyExact(w.(staged := Cred(ssid, psk, None, 0)), e); }
    case Retry(connect, delete) => RetryExact(w, connect, delete);
    case Result(connected, cause, delete) => ResultExact(w, connected, cause, delete);
    case _ =>
  }

  /** Along the run, results that meet an attempt answer one of its requests. */
  predicate Prompt(w: Wifi, steps: seq<Step>)
    decreases |steps|
  {
    steps == [] ||
    (&& (steps[0].Result? && Inflight(w) ==> Calls(w.out) > w.completed)
     && Prompt(Next(w, steps[0]), steps[1..]))
  }

  lemma {:induction false} ExactThroughout(w: Wifi, steps: seq<Step>)
    requires Inv(w) && Exact(w) && Prompt(w, steps)
    ensures Exact(Execute(w, steps))
    decreases |steps|
  {
    if steps != [] {
      NoStall(w, steps[0]);
      NextKeepsInv(w, steps[0]);
      ExactThroughout(Next(w, steps[0]), steps[1..]);
    }
  }

  /** In every run whose results answer requests, an attempt in flight always has exactly one of
      an unanswered request and a scheduled retry. */
  lemma NeverStalls(store: map<Bytes, Entry>, steps: seq<Step>)
    requires Prompt(Boot(store), steps)
    ensures
      var w := Execute(Boot(store), steps);
      Inflight(w) ==> (w.retry && Calls(w.out) == w.completed) || (!w.retry && Calls(w.out) == w.completed + 1)
  {
    ExactThroughout(Boot(store), steps);
  }
}
