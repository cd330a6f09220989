/** What is reported, staged and left behind by the Thread handler, told from the writes of its threads,
    and what a control command achieves. */
module ThreadControl {
  import opened ThreadConfig
  import opened ThreadRuns

  // The reported state, the failure reason and the staging flag, told from who wrote last.

  /** The state a step reports, if it reports one. */
  function Reports(s: Thread, a: Action): (r: seq<NetworkState>)
    ensures |r| <= 1
  {
    match a
    case ApplyRuns(_, _) =>
      if s.apply.WriteAttaching? then [Attaching]
      else if s.apply.WriteAttached? then [Attached]
      else if s.apply.WriteFailed? then [AttachingFailed]
      else []
    case CallbackRuns => if s.callback.CbWriteAttached? then [Attached] else []
    case TimeoutRuns => if s.timeout.ToWriteFailed? then [AttachingFailed] else []
    case CtrlRuns => if s.ctrl.WriteDettached? then [Dettached] else []
    case AppRuns => if s.app.WriteDettached? then [Dettached] else []
    case _ => []
  }

  /** Everything reported along a run. */
  function Reported(s: Thread, actions: seq<Action>): seq<NetworkState>
    decreases |actions|
  {
    if actions == [] then [] else Reports(s, actions[0]) + Reported(Next(s, actions[0]), actions[1..])
  }

  function Last(before: NetworkState, reported: seq<NetworkState>): NetworkState {
    if reported == [] then before else reported[|reported| - 1]
  }

  lemma ApplyReports(s: Thread, setFails: bool, attachedAfter: bool)
    ensures ApplyStep(s, setFails, attachedAfter).tc.state
            == Last(s.tc.state, Reports(s, ApplyRuns(setFails, attachedAfter)))
  {
    if !(s.apply.WriteAttaching? || s.apply.WriteAttached? || s.apply.WriteFailed?) {
      ApplySilent(s, setFails, attachedAfter);
    }
  }

  lemma ApplySilent(s: Thread, setFails: bool, attachedAfter: bool)
    requires !(s.apply.WriteAttaching? || s.apply.WriteAttached? || s.apply.WriteFailed?)
    ensures ApplyStep(s, setFails, attachedAfter).tc.state == s.tc.state
  {}

  lemma NextReports(s: Thread, a: Action)
    ensures Next(s, a).tc.state == Last(s.tc.state, Reports(s, a))
  {
    match a
    case ApplyRuns(setFails, attachedAfter) => ApplyReports(s, setFails, attachedAfter);
    case _ =>
  }

  lemma {:induction false} StateIsReported(s: Thread, actions: seq<Action>)
    ensures Execute(s, actions).tc.state == Last(s.tc.state, Reported(s, actions))
    decreases |actions|
  {
    if actions != [] {
      NextReports(s, actions[0]);
      StateIsReported(Next(s, actions[0]), actions[1..]);
    }
  }

  /** A dataset is staged: one was set, and no reset or erasure has dropped it since. */
  function Staged(s: Thread, before: bool, actions: seq<Action>): bool
    decreases |actions|
  {
    if actions == [] then before
    else
      var a := actions[0];
      Staged(Next(s, a),
             if a.Stage? && s.apply == ApplyIdle && s.ctrl == ControlIdle then true
             else if (a.CtrlRuns? && s.ctrl.Unstage?) || (a.AppRuns? && s.app.Unstage?) then false
             else before,
             actions[1..])
  }

  lemma NextStages(s: Thread, a: Action)
    ensures Next(s, a).tc.staged
            == (if a.Stage? && s.apply == ApplyIdle && s.ctrl == ControlIdle then true
                else if (a.CtrlRuns? && s.ctrl.Unstage?) || (a.AppRuns? && s.app.Unstage?) then false
                else s.tc.staged)
  {}

  lemma {:induction false} StagedIsTold(s: Thread, actions: seq<Action>)
    ensures Execute(s, actions).tc.staged == Staged(s, s.tc.staged, actions)
    decreases |actions|
  {
    if actions != [] {
      NextStages(s, actions[0]);
      StagedIsTold(Next(s, actions[0]), actions[1..]);
    }
  }

  /** The failure reason a step gives: a rejected dataset, or no network within the time. */
  function Reasons(s: Thread, a: Action): (r: seq<Reason>)
    ensures |r| <= 1
  {
    if a.ApplyRuns? && s.apply.WriteInvalid? then [DatasetInvalid]
    else if a.TimeoutRuns? && s.timeout.ToWriteReason? then [ThreadNetworkNotFound]
    else []
  }

  function LastReason(s: Thread, before: Reason, actions: seq<Action>): Reason
    decreases |actions|
  {
    if actions == [] then before
    else
      var r := Reasons(s, actions[0]);
      LastReason(Next(s, actions[0]), if r == [] then before else r[0], actions[1..])
  }

  lemma NextReasons(s: Thread, a: Action)
    ensures Next(s, a).tc.reason == if Reasons(s, a) == [] then s.tc.reason else Reasons(s, a)[0]
  {
    match a
    case ApplyRuns(setFails, attachedAfter) =>
      if !s.apply.WriteInvalid? { ApplyGivesNoReason(s, setFails, attachedAfter); }
    case _ =>
  }

  lemma ApplyGivesNoReason(s: Thread, setFails: bool, attachedAfter: bool)
    requires !s.apply.WriteInvalid?
    ensures ApplyStep(s, setFails, attachedAfter).tc.reason == s.tc.reason
  {}

  lemma {:induction false} ReasonIsLast(s: Thread, actions: seq<Action>)
    ensures Execute(s, actions).tc.reason == LastReason(s, s.tc.reason, actions)
    decreases |actions|
  {
    if actions != [] {
      NextReasons(s, actions[0]);
      ReasonIsLast(Next(s, actions[0]), actions[1..]);
    }
  }

  /** At every point of every run: state and failure reason are the ones last given, a dataset is staged
      exactly if one was set and not dropped since, and an Apply can begin only then. */
  lemma RunTells(attached: bool, notify: bool, actions: seq<Action>)
    ensures
      var s := Execute(Start(attached, notify), actions);
      && s.tc.state == Last(Dettached, Reported(Start(attached, notify), actions))
      && s.tc.reason == LastReason(Start(attached, notify), DatasetInvalid, actions)
      && s.tc.staged == Staged(Start(attached, notify), false, actions)
      && (Next(s, StartApply).apply != s.apply ==> Staged(Start(attached, notify), false, actions))
  {
    StateIsReported(Start(attached, notify), actions);
    ReasonIsLast(Start(attached, notify), actions);
    StagedIsTold(Start(attached, notify), actions);
  }

  // A control command run to its end.

  /** No thread is inside the handler but the one that runs the command. */
  predicate Alone(s: Thread) {
    s.apply == ApplyIdle && s.callback == CallbackIdle && s.timeout == TimeoutIdle && s.ctrl == ControlIdle
  }

  /** What a reset or an erasure has achieved when it stands at pc. */
  predicate Cleared(s: Thread, pc: ControlPc) {
    && !pc.Unregister? && !(pc.Cancel? && pc.cmd == Deinit)
    && (!pc.Cancel? ==> !s.tc.armed)
    && (!pc.Cancel? && !pc.Unstage? ==> !s.tc.staged)
    && (!pc.Cancel? && !pc.Unstage? && !pc.ClearPending? ==> !s.tc.pending)
    && (pc.EnterDisable? || pc.Disable? || pc.LeaveDisable? || pc.ControlIdle? ==> s.tc.state == Dettached)
    && (pc.LeaveDisable? || pc.ControlIdle? ==> !s.ot.attached)
    && (pc.Disable? || pc.LeaveDisable? <==> s.ot.mutex == AppOwns)
    && (s.ot.mutex == Free || s.ot.mutex == AppOwns)
  }

  function Times(n: nat): seq<Action> {
    seq(n, _ => AppRuns)
  }

  /** Steps a reset or an erasure still has to take. */
  function StepsLeft(pc: ControlPc): nat {
    match pc
    case Cancel(_) => 7
    case Unstage => 6
    case ClearPending => 5
    case WriteDettached => 4
    case EnterDisable => 3
    case Disable => 2
    case LeaveDisable => 1
    case _ => 0
  }

  lemma {:induction false} ClearsOn(s: Thread, n: nat)
    requires Alone(s) && Cleared(s, s.app) && n >= StepsLeft(s.app) > 0
    ensures
      var t := Execute(s, Times(n));
      t.app == ControlIdle && Alone(t) && Cleared(t, ControlIdle) && t.ot.mutex == Free
    decreases n
  {
    var next := Next(s, AppRuns);
    assert Times(n)[1..] == Times(n - 1);
    if StepsLeft(s.app) > 1 {
      ClearsOn(next, n - 1);
    } else {
      StaysIdle(next, n - 1);
    }
  }

  lemma {:induction false} StaysIdle(s: Thread, n: nat)
    requires s.app == ControlIdle
    ensures Execute(s, Times(n)) == s
  {
    if n > 0 {
      assert Times(n)[1..] == Times(n - 1);
      StaysIdle(s, n - 1);
    }
  }

  /** A reset or an erasure that runs to its end by itself, from any state whatever is staged, pending
      or attached, leaves nothing staged, pending or armed, Thread disabled, and reports Dettached. */
  lemma ControlClears(s: Thread, cmd: Command, n: nat)
    requires Alone(s) && s.app == ControlIdle && s.ot.mutex == Free && cmd != Deinit && n >= 7
    ensures
      var t := Execute(s, [StartApp(cmd)] + Times(n));
      && t.app == ControlIdle && Alone(t) && t.ot.mutex == Free
      && !t.tc.staged && !t.tc.pending && !t.tc.armed && t.tc.state == Dettached && !t.ot.attached
  {
    assert ([StartApp(cmd)] + Times(n))[1..] == Times(n);
    ClearsOn(Next(s, StartApp(cmd)), n);
  }

  /** A deinit that runs to its end by itself leaves the timer off and the callback unregistered, and
      the rest as it was. */
  lemma DeinitUnregisters(s: Thread)
    requires s.app == ControlIdle && s.ot.mutex == Free
    ensures
      var t := Execute(s, [StartApp(Deinit), AppRuns, AppRuns]);
      t == s.(tc := s.tc.(armed := false, registered := false), h := Disturb(s.h))
  {
    var a := [StartApp(Deinit), AppRuns, AppRuns];
    assert a[1..] == [AppRuns, AppRuns] && a[1..][1..] == [AppRuns] && a[1..][1..][1..] == [];
    var s1 := Next(s, StartApp(Deinit));
    var s2 := Next(s1, AppRuns);
    assert Execute(s2, [AppRuns]) == Execute(Next(s2, AppRuns), []);
    assert Execute(s1, [AppRuns, AppRuns]) == Execute(s2, [AppRuns]);
  }
}
