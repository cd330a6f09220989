/** What every interleaving of the Thread handler's threads guarantees. */
module ThreadRuns {
  import opened Common
  import opened ThreadConfig

  function Recvs(events: seq<Event>): nat {
    if events == [] then 0
    else Recvs(events[..|events| - 1]) + if events[|events| - 1] == CredRecv then 1 else 0
  }

  function Outcomes(events: seq<Event>): nat {
    if events == [] then 0
    else Outcomes(events[..|events| - 1]) + if events[|events| - 1] == CredRecv then 0 else 1
  }

  /** In every prefix, outcomes never outnumber credentials received. */
  ghost predicate Dominated(events: seq<Event>) {
    events != [] ==> Dominated(events[..|events| - 1]) && Outcomes(events) <= Recvs(events)
  }

  lemma OneEvent(events: seq<Event>, e: Event)
    ensures Recvs(events + [e]) == Recvs(events) + if e == CredRecv then 1 else 0
    ensures Outcomes(events + [e]) == Outcomes(events) + if e == CredRecv then 0 else 1
    ensures Dominated(events + [e]) <==>
              Dominated(events) && Outcomes(events + [e]) <= Recvs(events + [e])
  {
    assert (events + [e])[..|events|] == events;
  }

  /** A credentials event of the Apply under way that is not yet pending or failed. */
  function Held(pc: ApplyPc): nat {
    if pc.EmitFail? || pc.WriteAttaching? || pc.StorePending? then 1 else 0
  }

  /** Credentials events without an outcome. */
  function Open(s: Thread): nat {
    Claims(s) + Pending(s) + Held(s.apply) + s.h.dropped
  }

  /** Conservation: every credentials event is reported, claimed, pending, still held by the Apply
      that emitted it, or was dropped by a later Apply or a control command. */
  ghost predicate Conserved(s: Thread) {
    && Dominated(s.h.events)
    && Recvs(s.h.events) == Outcomes(s.h.events) + Open(s)
  }

  predicate HoldsMutex(pc: ControlPc) {
    pc.Disable? || pc.LeaveDisable?
  }

  predicate MutexInv(s: Thread) {
    && (s.ot.mutex == ApplyOwns <==>
          s.apply.Enable? || s.apply.LeaveFirst? || s.apply.ReadRole? || s.apply.LeaveSecond?)
    && (s.ot.mutex == CallbackOwns <==> s.callback != CallbackIdle)
    && (s.ot.mutex == CtrlOwns <==> HoldsMutex(s.ctrl))
    && (s.ot.mutex == AppOwns <==> HoldsMutex(s.app))
    && (s.apply == ApplyIdle || s.ctrl == ControlIdle)
    && (s.apply.LeaveSecond? ==> s.apply.attached == s.ot.attached)
  }

  /** A claimant about to cancel the timer cannot be cancelling a newer attempt's: either nothing
      is pending, or the newer Apply still has its locked re-check ahead of it. */
  predicate CancelSafe(s: Thread) {
    && (s.apply.WriteAttached? || s.apply.CancelTimer? || s.apply.EmitSuccess? ==> !s.tc.pending)
    && ((s.callback.CbWriteAttached? || s.callback.CbCancelTimer?) && s.tc.pending ==> s.apply == EnterSecond)
  }

  /** A control command has cancelled the timer and not yet dealt with pending. */
  predicate Clearing(pc: ControlPc) {
    pc.Unstage? || pc.ClearPending? || pc.Unregister?
  }

  /** No orphaned attempt. */
  predicate Covered(s: Thread) {
    s.tc.pending && s.tc.registered ==>
      || s.tc.armed
      || s.timeout == ToClaim
      || s.apply.EnterSecond? || s.apply.ReadRole? || s.apply.LeaveSecond? || s.apply.Claim? || s.apply.Rearm?
      || Clearing(s.ctrl) || Clearing(s.app)
  }

  /** No lost attach. */
  predicate AttachSeen(s: Thread) {
    s.tc.pending && s.tc.registered && s.ot.attached ==>
      || s.ot.notify
      || s.callback == CheckRole || s.callback == CbClaim
      || s.apply.EnterSecond? || s.apply.ReadRole? || s.apply == LeaveSecond(true) || s.apply.Claim?
  }

  function StateFor(e: Event): NetworkState {
    if e == CredSuccess then Attached else AttachingFailed
  }

  /** The failure of a rejected dataset, still to be reported. */
  function Rejected(pc: ApplyPc): nat {
    if pc.WriteInvalid? || pc.EmitRecvFailed? || pc.EmitFail? then 1 else 0
  }

  /** While nothing disturbs the attempt: how many outcomes it has and will have, and, if no older
      outcome was still to come when it began, that the reported state follows its own. */
  ghost predicate Watched(s: Thread) {
    s.h.calm ==>
      && s.ctrl == ControlIdle && s.app == ControlIdle && s.tc.registered
      && (s.apply == ApplyIdle || Rejected(s.apply) == 1 || s.apply.EnterSecond? || s.apply.ReadRole? || s.apply.LeaveSecond? ||
          s.apply.Claim? || s.apply.WriteAttached? || s.apply.CancelTimer? || s.apply.EmitSuccess? ||
          s.apply.Rearm?)
      && s.h.since + Claims(s) + Pending(s) + Rejected(s.apply) == 1 + s.h.stale
      && (s.h.stale == 0 ==>
            && (Rejected(s.apply) == 1 ==> s.tc.state == AttachingFailed)
            && (s.apply.CancelTimer? || s.apply.EmitSuccess? ==> s.tc.state == Attached)
            && (s.callback.CbCancelTimer? || s.callback.CbEmitSuccess? ==> s.tc.state == Attached)
            && (s.timeout.ToWriteReason? || s.timeout.ToEmitFail? ==> s.tc.state == AttachingFailed)
            && (s.h.since == 1 ==>
                  && s.h.events != []
                  && s.h.events[|s.h.events| - 1] != CredRecv
                  && s.tc.state == StateFor(s.h.events[|s.h.events| - 1])))
  }

  ghost predicate Inv(s: Thread) {
    Conserved(s) && MutexInv(s) && CancelSafe(s) && Covered(s) && AttachSeen(s) && Watched(s)
  }

  // One lemma per part of the invariant and per thread.

  /** The event a step emits, if any. */
  function Emits(s: Thread, a: Action): Option<Event> {
    if a.ApplyRuns? && (s.apply.EmitRecv? || s.apply.EmitRecvFailed?) then Some(CredRecv)
    else if a.ApplyRuns? && s.apply.EmitFail? then Some(CredFail)
    else if a.ApplyRuns? && s.apply.EmitSuccess? then Some(CredSuccess)
    else if a.CallbackRuns? && s.callback.CbEmitSuccess? then Some(CredSuccess)
    else if a.TimeoutRuns? && s.timeout.ToEmitFail? then Some(CredFail)
    else None
  }

  lemma NextEvents(s: Thread, a: Action)
    ensures Next(s, a).h.events == match Emits(s, a) { case None => s.h.events case Some(e) => s.h.events + [e] }
  {}

  /** Each event moves the balance by one, and no other step moves it. */
  lemma ApplyOpen(s: Thread, setFails: bool, attachedAfter: bool)
    ensures Open(ApplyStep(s, setFails, attachedAfter)) ==
              match Emits(s, ApplyRuns(setFails, attachedAfter)) {
                case None => Open(s)
                case Some(e) => if e == CredRecv then Open(s) + 1 else Open(s) - 1
              }
  {
    if s.apply.EmitRecv? || s.apply.EmitRecvFailed? || s.apply.EmitFail? || s.apply.EmitSuccess? {
      ApplyEmitOpen(s, setFails, attachedAfter);
    } else {
      ApplySilentOpen(s, setFails, attachedAfter);
    }
  }

  lemma ApplyEmitOpen(s: Thread, setFails: bool, attachedAfter: bool)
    requires s.apply.EmitRecv? || s.apply.EmitRecvFailed? || s.apply.EmitFail? || s.apply.EmitSuccess?
    ensures Open(ApplyStep(s, setFails, attachedAfter))
            == if s.apply.EmitRecv? || s.apply.EmitRecvFailed? then Open(s) + 1 else Open(s) - 1
  {}

  lemma ApplySilentOpen(s: Thread, setFails: bool, attachedAfter: bool)
    requires !(s.apply.EmitRecv? || s.apply.EmitRecvFailed? || s.apply.EmitFail? || s.apply.EmitSuccess?)
    ensures Open(ApplyStep(s, setFails, attachedAfter)) == Open(s)
  {
    if s.apply.StorePending? || s.apply.Claim? {
      ApplyShiftOpen(s);
    } else {
      ApplyIdleOpen(s, setFails, attachedAfter);
    }
  }

  /** The attempt passes from the Apply to pending, and from pending to a claim. */
  lemma ApplyShiftOpen(s: Thread)
    requires s.apply.StorePending? || s.apply.Claim?
    ensures Open(ApplyStep(s, false, false)) == Open(s)
  {}

  lemma ApplyIdleOpen(s: Thread, setFails: bool, attachedAfter: bool)
    requires Emits(s, ApplyRuns(setFails, attachedAfter)).None? && !s.apply.StorePending? && !s.apply.Claim?
    ensures
      var s' := ApplyStep(s, setFails, attachedAfter);
      Claims(s') == Claims(s) && s'.tc.pending == s.tc.pending && Held(s'.apply) == Held(s.apply)
      && s'.h.dropped == s.h.dropped
  {
    if s.apply.EnterFirst? || s.apply.Enable? || s.apply.LeaveFirst? || s.apply.WriteFailed? || s.apply.WriteInvalid? {
      ApplyEarlyOpen(s, setFails, attachedAfter);
    }
  }

  lemma ApplyEarlyOpen(s: Thread, setFails: bool, attachedAfter: bool)
    requires s.apply.EnterFirst? || s.apply.Enable? || s.apply.LeaveFirst? || s.apply.WriteFailed? || s.apply.WriteInvalid?
    ensures
      var s' := ApplyStep(s, setFails, attachedAfter);
      && !(s'.apply.WriteAttached? || s'.apply.CancelTimer? || s'.apply.EmitSuccess?) && Held(s'.apply) == Held(s.apply)
      && s'.callback == s.callback && s'.timeout == s.timeout && s'.tc.pending == s.tc.pending
      && s'.h.dropped == s.h.dropped
  {}

  lemma CallbackOpen(s: Thread)
    ensures Open(CallbackStep(s)) == if s.callback.CbEmitSuccess? then Open(s) - 1 else Open(s)
  {}

  lemma TimeoutOpen(s: Thread)
    ensures Open(TimeoutStep(s)) == if s.timeout.ToEmitFail? then Open(s) - 1 else Open(s)
  {}

  lemma ControlOpen(s: Thread, pc: ControlPc, me: Owner)
    ensures Open(ControlStep(s, pc, me).0) == Open(s)
  {}

  lemma NextOpen(s: Thread, a: Action)
    ensures Open(Next(s, a)) ==
              match Emits(s, a) {
                case None => Open(s)
                case Some(e) => if e == CredRecv then Open(s) + 1 else Open(s) - 1
              }
  {
    match a
    case ApplyRuns(setFails, attachedAfter) => ApplyOpen(s, setFails, attachedAfter);
    case CallbackRuns => CallbackOpen(s);
    case TimeoutRuns => TimeoutOpen(s);
    case CtrlRuns => ControlOpen(s, s.ctrl, CtrlOwns);
    case AppRuns => ControlOpen(s, s.app, AppOwns);
    case _ =>
  }

  lemma NextConserved(s: Thread, a: Action)
    requires Conserved(s)
    ensures Conserved(Next(s, a))
  {
    NextEvents(s, a);
    NextOpen(s, a);
    if Emits(s, a).Some? {
      OneEvent(s.h.events, Emits(s, a).value);
    }
  }

  lemma NextMutex(s: Thread, a: Action)
    requires MutexInv(s)
    ensures MutexInv(Next(s, a))
  {}

  lemma NextCancelSafe(s: Thread, a: Action)
    requires MutexInv(s) && CancelSafe(s)
    ensures CancelSafe(Next(s, a))
  {}

  lemma ApplyCovered(s: Thread, setFails: bool, attachedAfter: bool)
    requires MutexInv(s) && CancelSafe(s) && Covered(s)
    ensures Covered(ApplyStep(s, setFails, attachedAfter))
  {}

  lemma CallbackCovered(s: Thread)
    requires MutexInv(s) && CancelSafe(s) && Covered(s)
    ensures Covered(CallbackStep(s))
  {}

  lemma TimeoutCovered(s: Thread)
    requires Covered(s)
    ensures Covered(TimeoutStep(s))
  {}

  lemma ControlCovered(s: Thread, a: Action)
    requires Covered(s) && (a.CtrlRuns? || a.AppRuns?)
    ensures Covered(Next(s, a))
  {}

  lemma NextCovered(s: Thread, a: Action)
    requires MutexInv(s) && CancelSafe(s) && Covered(s)
    ensures Covered(Next(s, a))
  {
    match a
    case ApplyRuns(setFails, attachedAfter) => ApplyCovered(s, setFails, attachedAfter);
    case CallbackRuns => CallbackCovered(s);
    case TimeoutRuns => TimeoutCovered(s);
    case CtrlRuns => ControlCovered(s, a);
    case AppRuns => ControlCovered(s, a);
    case _ =>
  }

  lemma ApplyAttachSeen(s: Thread, setFails: bool, attachedAfter: bool)
    requires MutexInv(s) && AttachSeen(s)
    ensures AttachSeen(ApplyStep(s, setFails, attachedAfter))
  {}

  lemma CallbackAttachSeen(s: Thread)
    requires MutexInv(s) && AttachSeen(s)
    ensures AttachSeen(CallbackStep(s))
  {}

  lemma ControlAttachSeen(s: Thread, a: Action)
    requires MutexInv(s) && AttachSeen(s) && (a.CtrlRuns? || a.AppRuns?)
    ensures AttachSeen(Next(s, a))
  {}

  lemma NextAttachSeen(s: Thread, a: Action)
    requires MutexInv(s) && AttachSeen(s)
    ensures AttachSeen(Next(s, a))
  {
    match a
    case ApplyRuns(setFails, attachedAfter) => ApplyAttachSeen(s, setFails, attachedAfter);
    case CallbackRuns => CallbackAttachSeen(s);
    case CtrlRuns => ControlAttachSeen(s, a);
    case AppRuns => ControlAttachSeen(s, a);
    case _ =>
  }

  lemma ApplyWatched(s: Thread, setFails: bool, attachedAfter: bool)
    requires MutexInv(s) && Watched(s)
    ensures Watched(ApplyStep(s, setFails, attachedAfter))
  {}

  lemma CallbackWatched(s: Thread)
    requires Watched(s)
    ensures Watched(CallbackStep(s))
  {}

  lemma TimeoutWatched(s: Thread)
    requires Watched(s)
    ensures Watched(TimeoutStep(s))
  {}

  lemma NextWatched(s: Thread, a: Action)
    requires MutexInv(s) && Watched(s)
    ensures Watched(Next(s, a))
  {
    match a
    case ApplyRuns(setFails, attachedAfter) => ApplyWatched(s, setFails, attachedAfter);
    case CallbackRuns => CallbackWatched(s);
    case TimeoutRuns => TimeoutWatched(s);
    case _ =>
  }

  lemma NextKeepsInv(s: Thread, a: Action)
    requires Inv(s)
    ensures Inv(Next(s, a))
  {
    NextConserved(s, a);
    NextMutex(s, a);
    NextCancelSafe(s, a);
    NextCovered(s, a);
    NextAttachSeen(s, a);
    NextWatched(s, a);
  }

  lemma {:induction false} ExecuteKeepsInv(s: Thread, actions: seq<Action>)
    requires Inv(s)
    ensures Inv(Execute(s, actions))
    decreases |actions|
  {
    if actions != [] {
      NextKeepsInv(s, actions[0]);
      ExecuteKeepsInv(Next(s, actions[0]), actions[1..]);
    }
  }

  lemma {:induction false} DominatedPrefix(events: seq<Event>, n: nat)
    requires Dominated(events) && n <= |events|
    ensures Outcomes(events[..n]) <= Recvs(events[..n])
  {
    if n == |events| {
      assert events[..n] == events;
    } else {
      DominatedPrefix(events[..|events| - 1], n);
      assert events[..|events| - 1][..n] == events[..n];
    }
  }

  /** Claim safety: under every interleaving, in every prefix of the trace, the outcomes reported
      never exceed the credentials received. */
  lemma ClaimSafety(attached: bool, notify: bool, actions: seq<Action>, n: nat)
    requires n <= |Execute(Start(attached, notify), actions).h.events|
    ensures
      var events := Execute(Start(attached, notify), actions).h.events;
      Outcomes(events[..n]) <= Recvs(events[..n])
  {
    ExecuteKeepsInv(Start(attached, notify), actions);
    DominatedPrefix(Execute(Start(attached, notify), actions).h.events, n);
  }

  /** Exactly which credentials events have no outcome yet, at every point of every interleaving. */
  lemma EventsConserved(attached: bool, notify: bool, actions: seq<Action>)
    ensures
      var s := Execute(Start(attached, notify), actions);
      Recvs(s.h.events)
        == Outcomes(s.h.events) + Claims(s) + Pending(s) + Held(s.apply) + s.h.dropped
  {
    ExecuteKeepsInv(Start(attached, notify), actions);
  }

  /** No orphaned attempt and no lost attach, at every point of every interleaving. */
  lemma NothingLost(attached: bool, notify: bool, actions: seq<Action>)
    ensures
      var s := Execute(Start(attached, notify), actions);
      Covered(s) && AttachSeen(s)
  {
    ExecuteKeepsInv(Start(attached, notify), actions);
  }

  /** Nothing is left to run: no thread is inside the handler and the timer is not armed. */
  predicate Quiet(s: Thread) {
    s.apply == ApplyIdle && s.callback == CallbackIdle && s.timeout == TimeoutIdle && !s.tc.armed
  }

  /** An Apply with no later Apply, control command or deinit, its dataset taken or rejected, once
      everything has come to rest: outcomes reported since it became pending, or was found
      rejected, number one more than the older outcomes still to come at that moment. So it ends in
      exactly one outcome if and only if there was none, and then the reported state is that
      outcome's. */
  lemma OneOutcome(attached: bool, notify: bool, actions: seq<Action>)
    ensures
      var s := Execute(Start(attached, notify), actions);
      s.h.calm && Quiet(s) ==>
        && !s.tc.pending
        && s.h.since == 1 + s.h.stale
        && (s.h.since == 1 <==> s.h.stale == 0)
        && (s.h.stale == 0 ==>
              && s.h.events != []
              && s.h.events[|s.h.events| - 1] != CredRecv
              && s.tc.state == StateFor(s.h.events[|s.h.events| - 1]))
  {
    ExecuteKeepsInv(Start(attached, notify), actions);
  }

  /** Steps the handler's own threads and timer take, as against requests and radio events. */
  predicate Internal(a: Action) {
    a.ApplyRuns? || a.CallbackRuns? || a.TimerFires? || a.TimeoutRuns?
  }

  function ApplyRank(pc: ApplyPc): nat {
    match pc
    case EnterSecond => 10
    case ReadRole => 9
    case LeaveSecond(_) => 8
    case Rearm => 7
    case Claim => 4
    case WriteAttached => 3
    case CancelTimer => 2
    case EmitSuccess => 1
    case WriteInvalid => 3
    case EmitRecvFailed => 2
    case EmitFail => 1
    case _ => 0
  }

  function CallbackRank(pc: CallbackPc): nat {
    match pc
    case CallbackIdle => 0
    case CheckRole => 6
    case CbClaim => 5
    case CbWriteAttached => 4
    case CbCancelTimer => 3
    case CbEmitSuccess => 2
    case CbLeave => 1
  }

  function TimeoutRank(pc: TimeoutPc): nat {
    match pc
    case TimeoutIdle => 0
    case ToClaim => 4
    case ToWriteFailed => 3
    case ToWriteReason => 2
    case ToEmitFail => 1
  }

  function Rank(s: Thread): nat {
    ApplyRank(s.apply) + CallbackRank(s.callback) + TimeoutRank(s.timeout) + if s.tc.armed then 5 else 0
  }

  /** The undisturbed attempt comes to rest: until then some thread can move, and every move of a
      thread or of the timer lowers the rank. */
  lemma ComesToRest(s: Thread, a: Action)
    requires Inv(s) && s.h.calm && Internal(a)
    ensures Next(s, a) != s ==> Rank(Next(s, a)) < Rank(s)
    ensures !Quiet(s) ==>
              || ApplyStep(s, false, false) != s
              || CallbackStep(s) != s
              || TimeoutStep(s) != s
              || Next(s, TimerFires) != s
  {
    RankDrops(s, a);
    if !Quiet(s) {
      SomeThreadMoves(s);
    }
  }

  lemma RankDrops(s: Thread, a: Action)
    requires MutexInv(s) && Watched(s) && s.h.calm && Internal(a)
    ensures Next(s, a) != s ==> Rank(Next(s, a)) < Rank(s)
  {}

  lemma SomeThreadMoves(s: Thread)
    requires MutexInv(s) && Watched(s) && s.h.calm && !Quiet(s)
    ensures
      || ApplyStep(s, false, false) != s
      || CallbackStep(s) != s
      || TimeoutStep(s) != s
      || Next(s, TimerFires) != s
  {}
}
