/** The Thread configuration handler as the threads really run it: transport, OpenThread,
    system workqueue and application, interleaved at the granularity of single writes. */
module ThreadConfig {
  datatype NetworkState = Dettached | Attaching | Attached | AttachingFailed

  datatype Reason = DatasetInvalid | ThreadNetworkNotFound

  datatype Event = CredRecv | CredSuccess | CredFail

  /** Where do_apply_config stands. From Enable to LeaveFirst, and from ReadRole to LeaveSecond,
      the thread holds the OpenThread mutex. Claim is the compare-and-swap. */
  datatype ApplyPc =
    | ApplyIdle
    | EnterFirst
    | Enable
    | LeaveFirst(failed: bool)
    | WriteFailed
    | WriteInvalid
    | EmitRecvFailed
    | EmitFail
    | EmitRecv
    | WriteAttaching
    | StorePending
    | EnterSecond
    | ReadRole
    | LeaveSecond(attached: bool)
    | Claim
    | WriteAttached
    | CancelTimer
    | EmitSuccess
    | Rearm

  /** The OpenThread thread's state-change callback; it holds the mutex throughout. */
  datatype CallbackPc = CallbackIdle | CheckRole | CbClaim | CbWriteAttached | CbCancelTimer | CbEmitSuccess | CbLeave

  /** The timeout handler on the workqueue. */
  datatype TimeoutPc = TimeoutIdle | ToClaim | ToWriteFailed | ToWriteReason | ToEmitFail

  datatype Command = Reset | Erase | Deinit

  /** A control command; Disable and LeaveDisable hold the mutex. */
  datatype ControlPc =
    | ControlIdle
    | Cancel(cmd: Command)
    | Unstage
    | ClearPending
    | WriteDettached
    | EnterDisable
    | Disable
    | LeaveDisable
    | Unregister

  datatype Owner = Free | ApplyOwns | CallbackOwns | CtrlOwns | AppOwns

  /** The handler's static struct, shared by all threads. */
  datatype Tc = Tc(staged: bool, state: NetworkState, reason: Reason, pending: bool, armed: bool, registered: bool)

  /** OpenThread: its mutex, whether the role counts as attached, and a change still to notify. */
  datatype Radio = Radio(mutex: Owner, attached: bool, notify: bool)

  /** The events emitted, the pending attempts overwritten or reset, and, about the last Apply since
      it stored pending or found its dataset rejected: the outcomes since, the older ones then still
      to come, whether nothing disturbed it, whether no older timer was left when it became pending,
      and whether its re-check read the node attached. */
  datatype History = History(events: seq<Event>, dropped: nat, since: nat, stale: nat, calm: bool,
                             clean: bool, seen: bool)

  datatype Thread = Thread(
    tc: Tc,
    ot: Radio,
    apply: ApplyPc,
    callback: CallbackPc,
    timeout: TimeoutPc,
    ctrl: ControlPc,
    app: ControlPc,
    h: History)

  /** Outcomes claimed but not yet reported. */
  function Claims(s: Thread): nat {
    (if s.apply.WriteAttached? || s.apply.CancelTimer? || s.apply.EmitSuccess? then 1 else 0) +
    (if s.callback.CbWriteAttached? || s.callback.CbCancelTimer? || s.callback.CbEmitSuccess? then 1 else 0) +
    (if s.timeout.ToWriteFailed? || s.timeout.ToWriteReason? || s.timeout.ToEmitFail? then 1 else 0)
  }

  function Pending(s: Thread): nat {
    if s.tc.pending then 1 else 0
  }

  /** From here on the outcomes belong to this Apply and to the stale older ones. */
  function Mark(s: Thread, stale: nat, clean: bool): History {
    s.h.(since := 0, stale := stale, calm := s.app == ControlIdle && s.tc.registered, clean := clean, seen := false)
  }

  /** An older attempt's timer is armed, or has fired and is about to claim. */
  predicate OldTimer(s: Thread) {
    s.tc.armed || s.timeout == ToClaim
  }

  function Emit(h: History, e: Event): History {
    h.(events := h.events + [e], since := if e == CredRecv then h.since else h.since + 1)
  }

  /** An attempt still pending is dropped when pending is overwritten. */
  function Drop(h: History, pending: bool): History {
    h.(dropped := h.dropped + if pending then 1 else 0)
  }

  datatype Action =
    | Stage
    | StartApply
    | ApplyRuns(setFails: bool, attachedAfter: bool)
    | RoleChanges(attached: bool)
    | Notified
    | CallbackRuns
    | TimerFires
    | TimeoutRuns
    | StartCtrl(cmd: Command)
    | CtrlRuns
    | StartApp(cmd: Command)
    | AppRuns

  function SetRole(ot: Radio, attached: bool): Radio {
    ot.(attached := attached, notify := ot.notify || attached != ot.attached)
  }

  /** One write, read or compare-and-swap of do_apply_config. Bringing Thread up may or may not
      change the role; a change is notified later. */
  function ApplyStep(s: Thread, setFails: bool, attachedAfter: bool): Thread {
    match s.apply
    case ApplyIdle => s
    case EnterFirst => if s.ot.mutex == Free then s.(ot := s.ot.(mutex := ApplyOwns), apply := Enable) else s
    case Enable =>
      s.(ot := if setFails then s.ot else SetRole(s.ot, attachedAfter), apply := LeaveFirst(setFails))
    case LeaveFirst(failed) =>
      s.(ot := s.ot.(mutex := Free), apply := if failed then WriteFailed else EmitRecv)
    case WriteFailed =>
      s.(tc := s.tc.(state := AttachingFailed), h := Mark(s, Claims(s) + Pending(s), false), apply := WriteInvalid)
    case WriteInvalid => s.(tc := s.tc.(reason := DatasetInvalid), apply := EmitRecvFailed)
    case EmitRecvFailed => s.(h := Emit(s.h, CredRecv), apply := EmitFail)
    case EmitFail => s.(h := Emit(s.h, CredFail), apply := ApplyIdle)
    case EmitRecv => s.(h := Emit(s.h, CredRecv), apply := WriteAttaching)
    case WriteAttaching => s.(tc := s.tc.(state := Attaching), apply := StorePending)
    case StorePending =>
      s.(tc := s.tc.(pending := true),
         h := Drop(Mark(s, Claims(s), !OldTimer(s)), s.tc.pending),
         apply := EnterSecond)
    case EnterSecond => if s.ot.mutex == Free then s.(ot := s.ot.(mutex := ApplyOwns), apply := ReadRole) else s
    case ReadRole => s.(h := s.h.(seen := s.ot.attached), apply := LeaveSecond(s.ot.attached))
    case LeaveSecond(attached) =>
      s.(ot := s.ot.(mutex := Free), apply := if attached then Claim else Rearm)
    case Claim =>
      if s.tc.pending then s.(tc := s.tc.(pending := false), apply := WriteAttached)
      else s.(apply := ApplyIdle)
    case WriteAttached => s.(tc := s.tc.(state := Attached), apply := CancelTimer)
    case CancelTimer => s.(tc := s.tc.(armed := false), apply := EmitSuccess)
    case EmitSuccess => s.(h := Emit(s.h, CredSuccess), apply := ApplyIdle)
    case Rearm => s.(tc := s.tc.(armed := true), apply := ApplyIdle)
  }

  function CallbackStep(s: Thread): Thread {
    match s.callback
    case CallbackIdle => s
    case CheckRole => s.(callback := if s.ot.attached then CbClaim else CbLeave)
    case CbClaim =>
      if s.tc.pending then s.(tc := s.tc.(pending := false), callback := CbWriteAttached)
      else s.(callback := CbLeave)
    case CbWriteAttached => s.(tc := s.tc.(state := Attached), callback := CbCancelTimer)
    case CbCancelTimer => s.(tc := s.tc.(armed := false), callback := CbEmitSuccess)
    case CbEmitSuccess => s.(h := Emit(s.h, CredSuccess), callback := CbLeave)
    case CbLeave => s.(ot := s.ot.(mutex := Free), callback := CallbackIdle)
  }

  function TimeoutStep(s: Thread): Thread {
    match s.timeout
    case TimeoutIdle => s
    case ToClaim =>
      if s.tc.pending then s.(tc := s.tc.(pending := false), timeout := ToWriteFailed)
      else s.(timeout := TimeoutIdle)
    case ToWriteFailed => s.(tc := s.tc.(state := AttachingFailed), timeout := ToWriteReason)
    case ToWriteReason => s.(tc := s.tc.(reason := ThreadNetworkNotFound), timeout := ToEmitFail)
    case ToEmitFail => s.(h := Emit(s.h, CredFail), timeout := TimeoutIdle)
  }

  /** One write of a control command run by the thread that would own the mutex as me. */
  function ControlStep(s: Thread, pc: ControlPc, me: Owner): (Thread, ControlPc) {
    match pc
    case ControlIdle => (s, pc)
    case Cancel(cmd) => (s.(tc := s.tc.(armed := false)), if cmd == Deinit then Unregister else Unstage)
    case Unstage => (s.(tc := s.tc.(staged := false)), ClearPending)
    case ClearPending => (s.(tc := s.tc.(pending := false), h := Drop(s.h, s.tc.pending)), WriteDettached)
    case WriteDettached => (s.(tc := s.tc.(state := Dettached)), EnterDisable)
    case EnterDisable =>
      if s.ot.mutex == Free then (s.(ot := s.ot.(mutex := me)), Disable) else (s, pc)
    case Disable => (s.(ot := SetRole(s.ot, false)), LeaveDisable)
    case LeaveDisable => (s.(ot := s.ot.(mutex := Free)), ControlIdle)
    case Unregister =>
      if s.ot.mutex == Free then (s.(tc := s.tc.(registered := false)), ControlIdle) else (s, pc)
  }

  function Disturb(h: History): History {
    h.(calm := false)
  }

  /** The transport thread runs one request at a time, so an Apply and a prov-ctrl command never
      overlap; the application's commands overlap with everything. */
  function Next(s: Thread, a: Action): Thread {
    match a
    case Stage =>
      if s.apply == ApplyIdle && s.ctrl == ControlIdle then s.(tc := s.tc.(staged := true)) else s
    case StartApply =>
      if s.apply == ApplyIdle && s.ctrl == ControlIdle && s.tc.staged then
        s.(apply := EnterFirst, h := Disturb(s.h))
      else s
    case ApplyRuns(setFails, attachedAfter) => ApplyStep(s, setFails, attachedAfter)
    case RoleChanges(attached) =>
      if s.ot.mutex == Free then s.(ot := SetRole(s.ot, attached)) else s
    // Owed after the node attaches or detaches, possible at any time: roles also change between
    // child, router and leader.
    case Notified =>
      if s.ot.mutex == Free && s.tc.registered && s.callback == CallbackIdle then
        s.(ot := s.ot.(mutex := CallbackOwns, notify := false), callback := CheckRole)
      else s
    case CallbackRuns => CallbackStep(s)
    case TimerFires =>
      if s.tc.armed && s.timeout == TimeoutIdle then s.(tc := s.tc.(armed := false), timeout := ToClaim)
      else s
    case TimeoutRuns => TimeoutStep(s)
    case StartCtrl(cmd) =>
      if s.apply == ApplyIdle && s.ctrl == ControlIdle && cmd == Reset then
        s.(ctrl := Cancel(cmd), h := Disturb(s.h))
      else s
    case CtrlRuns => var (s', pc) := ControlStep(s, s.ctrl, CtrlOwns); s'.(ctrl := pc)
    case StartApp(cmd) =>
      if s.app == ControlIdle then s.(app := Cancel(cmd), h := Disturb(s.h)) else s
    case AppRuns => var (s', pc) := ControlStep(s, s.app, AppOwns); s'.(app := pc)
  }

  function Execute(s: Thread, actions: seq<Action>): Thread
    decreases |actions|
  {
    if actions == [] then s else Execute(Next(s, actions[0]), actions[1..])
  }

  /** After init; Thread may already be attached from an earlier boot. */
  function Start(attached: bool, notify: bool): Thread {
    Thread(Tc(false, Dettached, DatasetInvalid, false, false, true), Radio(Free, attached, notify),
           ApplyIdle, CallbackIdle, TimeoutIdle, ControlIdle, ControlIdle, History([], 0, 0, 0, false, false, false))
  }

  /** The handler and its threads; each method is one step of one thread. */
  class ThreadHandler {
    var tc: Tc
    var ot: Radio
    var apply: ApplyPc
    var callback: CallbackPc
    var timeout: TimeoutPc
    var ctrl: ControlPc
    var app: ControlPc
    ghost var history: History

    ghost function State(): Thread
      reads this
    {
      Thread(tc, ot, apply, callback, timeout, ctrl, app, history)
    }

    constructor (attached: bool, notify: bool)
      ensures State() == Start(attached, notify)
    {
      tc := Tc(false, Dettached, DatasetInvalid, false, false, true);
      ot := Radio(Free, attached, notify);
      apply, callback, timeout, ctrl, app := ApplyIdle, CallbackIdle, TimeoutIdle, ControlIdle, ControlIdle;
      history := History([], 0, 0, 0, false, false, false);
    }

    /** atomic_cas(&pending, 1, 0). */
    method CompareAndSwap() returns (won: bool)
      modifies this`tc
      ensures won == old(tc).pending && tc == old(tc).(pending := false)
    {
      won := tc.pending;
      if won {
        tc := tc.(pending := false);
      }
    }

    method EmitEvent(e: Event)
      modifies this`history
      ensures history == Emit(old(history), e)
    {
      history := history.(events := history.events + [e],
                          since := if e == CredRecv then history.since else history.since + 1);
    }

    method Lock(me: Owner) returns (ok: bool)
      modifies this`ot
      ensures ok == (old(ot).mutex == Free)
      ensures ot == if ok then old(ot).(mutex := me) else old(ot)
    {
      ok := ot.mutex == Free;
      if ok {
        ot := ot.(mutex := me);
      }
    }

    method Unlock()
      modifies this`ot
      ensures ot == old(ot).(mutex := Free)
    {
      ot := ot.(mutex := Free);
    }

    /** do_apply_config up to its error path. */
    method RunApplyFirst(setFails: bool, attachedAfter: bool)
      requires apply.EnterFirst? || apply.Enable? || apply.LeaveFirst? || apply.WriteFailed? ||
               apply.WriteInvalid? || apply.EmitRecvFailed? || apply.EmitFail?
      modifies this`tc, this`ot, this`apply, this`history
      ensures State() == ApplyStep(old(State()), setFails, attachedAfter)
    {
      match apply {
        case EnterFirst =>
          var ok := Lock(ApplyOwns);
          if ok { apply := Enable; }
        case Enable =>
          if !setFails {
            ot := SetRole(ot, attachedAfter);
          }
          apply := LeaveFirst(setFails);
        case LeaveFirst(failed) => Unlock(); apply := if failed then WriteFailed else EmitRecv;
        case WriteFailed =>
          history := Mark(State(), Claims(State()) + Pending(State()), false);
          tc := tc.(state := AttachingFailed);
          apply := WriteInvalid;
        case WriteInvalid => tc := tc.(reason := DatasetInvalid); apply := EmitRecvFailed;
        case EmitRecvFailed => EmitEvent(CredRecv); apply := EmitFail;
        case EmitFail => EmitEvent(CredFail); apply := ApplyIdle;
      }
    }

    /** do_apply_config from reporting the credentials on, and on_attached when it calls it. */
    method RunApplySecond()
      requires apply.EmitRecv? || apply.WriteAttaching? || apply.StorePending? || apply.EnterSecond? ||
               apply.ReadRole? || apply.LeaveSecond? || apply.Claim? || apply.WriteAttached? ||
               apply.CancelTimer? || apply.EmitSuccess? || apply.Rearm?
      modifies this`tc, this`ot, this`apply, this`history
      ensures State() == ApplyStep(old(State()), false, false)
    {
      match apply {
        case EmitRecv => EmitEvent(CredRecv); apply := WriteAttaching;
        case WriteAttaching => tc := tc.(state := Attaching); apply := StorePending;
        case StorePending =>
          history := Drop(Mark(State(), Claims(State()), !OldTimer(State())), tc.pending);
          tc := tc.(pending := true);
          apply := EnterSecond;
        case EnterSecond =>
          var ok := Lock(ApplyOwns);
          if ok { apply := ReadRole; }
        case ReadRole =>
          history := history.(seen := ot.attached);
          apply := LeaveSecond(ot.attached);
        case LeaveSecond(attached) => Unlock(); apply := if attached then Claim else Rearm;
        case Claim =>
          var won := CompareAndSwap();
          apply := if won then WriteAttached else ApplyIdle;
        case WriteAttached => tc := tc.(state := Attached); apply := CancelTimer;
        case CancelTimer => tc := tc.(armed := false); apply := EmitSuccess;
        case EmitSuccess => EmitEvent(CredSuccess); apply := ApplyIdle;
        case Rearm => tc := tc.(armed := true); apply := ApplyIdle;
      }
    }

    method RunCallback()
      modifies this`tc, this`ot, this`callback, this`history
      ensures State() == CallbackStep(old(State()))
    {
      match callback {
        case CallbackIdle =>
        case CheckRole => callback := if ot.attached then CbClaim else CbLeave;
        case CbClaim =>
          var won := CompareAndSwap();
          callback := if won then CbWriteAttached else CbLeave;
        case CbWriteAttached => tc := tc.(state := Attached); callback := CbCancelTimer;
        case CbCancelTimer => tc := tc.(armed := false); callback := CbEmitSuccess;
        case CbEmitSuccess => EmitEvent(CredSuccess); callback := CbLeave;
        case CbLeave => Unlock(); callback := CallbackIdle;
      }
    }

    method RunTimeout()
      modifies this`tc, this`timeout, this`history
      ensures State() == TimeoutStep(old(State()))
    {
      match timeout {
        case TimeoutIdle =>
        case ToClaim =>
          var won := CompareAndSwap();
          timeout := if won then ToWriteFailed else TimeoutIdle;
        case ToWriteFailed => tc := tc.(state := AttachingFailed); timeout := ToWriteReason;
        case ToWriteReason => tc := tc.(reason := ThreadNetworkNotFound); timeout := ToEmitFail;
        case ToEmitFail => EmitEvent(CredFail); timeout := TimeoutIdle;
      }
    }

    method RunControl(pc: ControlPc, me: Owner) returns (next: ControlPc)
      modifies this`tc, this`ot, this`history
      ensures (State(), next) == ControlStep(old(State()), pc, me)
    {
      next := pc;
      match pc {
        case ControlIdle =>
        case Cancel(cmd) => tc := tc.(armed := false); next := if cmd == Deinit then Unregister else Unstage;
        case Unstage => tc := tc.(staged := false); next := ClearPending;
        case ClearPending =>
          history := Drop(history, tc.pending);
          tc := tc.(pending := false);
          next := WriteDettached;
        case WriteDettached => tc := tc.(state := Dettached); next := EnterDisable;
        case EnterDisable =>
          var ok := Lock(me);
          if ok { next := Disable; }
        case Disable => ot := SetRole(ot, false); next := LeaveDisable;
        case LeaveDisable => Unlock(); next := ControlIdle;
        case Unregister =>
          if ot.mutex == Free { tc := tc.(registered := false); next := ControlIdle; }
      }
    }

    /** The environment's moves: a request or command arrives, the role changes, OpenThread
        notifies, the timer fires. */
    method Happens(a: Action)
      requires !a.ApplyRuns? && !a.CallbackRuns? && !a.TimeoutRuns? && !a.CtrlRuns? && !a.AppRuns?
      modifies this
      ensures State() == Next(old(State()), a)
    {
      match a {
        case Stage => if apply == ApplyIdle && ctrl == ControlIdle { tc := tc.(staged := true); }
        case StartApply =>
          if apply == ApplyIdle && ctrl == ControlIdle && tc.staged {
            apply := EnterFirst;
            history := Disturb(history);
          }
        case RoleChanges(attached) =>
          if ot.mutex == Free { ot := SetRole(ot, attached); }
        case Notified =>
          if ot.mutex == Free && tc.registered && callback == CallbackIdle {
            ot := ot.(mutex := CallbackOwns, notify := false);
            callback := CheckRole;
          }
        case TimerFires =>
          if tc.armed && timeout == TimeoutIdle { tc := tc.(armed := false); timeout := ToClaim; }
        case StartCtrl(cmd) =>
          if apply == ApplyIdle && ctrl == ControlIdle && cmd == Reset {
            ctrl := Cancel(cmd);
            history := Disturb(history);
          }
        case StartApp(cmd) =>
          if app == ControlIdle { app := Cancel(cmd); history := Disturb(history); }
      }
    }

    /** Any thread takes its next step. */
    method Run(a: Action)
      modifies this
      ensures State() == Next(old(State()), a)
    {
      match a {
        case ApplyRuns(setFails, attachedAfter) =>
          if apply.EnterFirst? || apply.Enable? || apply.LeaveFirst? || apply.WriteFailed? ||
             apply.WriteInvalid? || apply.EmitRecvFailed? || apply.EmitFail? {
            RunApplyFirst(setFails, attachedAfter);
          } else if !apply.ApplyIdle? {
            RunApplySecond();
          }
        case CallbackRuns => RunCallback();
        case TimeoutRuns => RunTimeout();
        case CtrlRuns => ctrl := RunControl(ctrl, CtrlOwns);
        case AppRuns => app := RunControl(app, AppOwns);
        case _ => Happens(a);
      }
    }
  }
}
