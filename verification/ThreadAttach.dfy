/** An attach before the re-check of an Apply: when the Apply is sure to report it. */
module ThreadAttach {
  import opened ThreadConfig
  import opened ThreadRuns
  import opened ThreadMishaps

  /** The re-check has read attached, or is still ahead. */
  predicate MaySee(s: Thread) {
    s.h.seen || s.apply.EnterSecond? || s.apply.ReadRole? || s.apply == LeaveSecond(true)
  }

  /** An undisturbed Apply that found no older timer when it became pending and may still see the
      attach, or has seen it: no timer is left that could take its outcome, and the outcome it has,
      if no older one was still to come, is a success. */
  ghost predicate Caught(s: Thread) {
    s.h.calm && s.h.clean ==>
      && (s.apply == LeaveSecond(true) || s.apply.Claim? ==> s.h.seen)
      && (s.apply == LeaveSecond(false) || s.apply.Rearm? ==> !s.h.seen)
      && Rejected(s.apply) == 0
      && (MaySee(s) ==>
            && !OldTimer(s)
            && (s.h.stale == 0 ==>
                  && s.timeout == TimeoutIdle
                  && (s.h.since == 1 ==> s.h.events != [] && s.h.events[|s.h.events| - 1] == CredSuccess)))
  }

  lemma ApplyCaught(s: Thread, setFails: bool, attachedAfter: bool)
    requires MutexInv(s) && Watched(s) && Caught(s)
    ensures Caught(ApplyStep(s, setFails, attachedAfter))
  {}

  lemma CallbackCaught(s: Thread)
    requires MutexInv(s) && Watched(s) && Caught(s)
    ensures Caught(CallbackStep(s))
  {}

  lemma TimeoutCaught(s: Thread)
    requires Watched(s) && Caught(s)
    ensures Caught(TimeoutStep(s))
  {}

  lemma NextCaught(s: Thread, a: Action)
    requires MutexInv(s) && Watched(s) && Caught(s)
    ensures Caught(Next(s, a))
  {
    match a
    case ApplyRuns(setFails, attachedAfter) => ApplyCaught(s, setFails, attachedAfter);
    case CallbackRuns => CallbackCaught(s);
    case TimeoutRuns => TimeoutCaught(s);
    case _ =>
  }

  lemma {:induction false} ExecuteCaught(s: Thread, actions: seq<Action>)
    requires Inv(s) && Caught(s)
    ensures Inv(Execute(s, actions)) && Caught(Execute(s, actions))
    decreases |actions|
  {
    if actions != [] {
      NextKeepsInv(s, actions[0]);
      NextCaught(s, actions[0]);
      ExecuteCaught(Next(s, actions[0]), actions[1..]);
    }
  }

  /** The attempt is over and its outcome is the success the node's attach deserves. */
  predicate ReportsAttach(s: Thread) {
    && !s.tc.pending && s.h.since == 1
    && s.h.events != [] && s.h.events[|s.h.events| - 1] == CredSuccess
    && s.tc.state == Attached
  }

  /** In every run: an undisturbed Apply whose re-check read attached ends in exactly one outcome, a
      success, with the reported state attached, if no older outcome was still to come and no older
      timer was armed or had fired when it became pending. */
  lemma AttachCaught(attached: bool, notify: bool, actions: seq<Action>)
    ensures
      var s := Execute(Start(attached, notify), actions);
      s.h.calm && Quiet(s) && s.h.seen && s.h.stale == 0 && s.h.clean ==> ReportsAttach(s)
  {
    ExecuteCaught(Start(attached, notify), actions);
    ExecuteKeepsInv(Start(attached, notify), actions);
    OneOutcome(attached, notify, actions);
  }

  // The condition is exact.

  /** No later Apply, control command or deinit begins. */
  predicate Undisturbed(a: Action) {
    !a.StartApply? && !a.StartCtrl? && !a.StartApp?
  }

  predicate AllUndisturbed(actions: seq<Action>) {
    forall a :: a in actions ==> Undisturbed(a)
  }

  /** Whatever the threads, the timer and the radio do from here, an attach seen by the re-check is
      reported. */
  ghost predicate SureToReport(s: Thread) {
    forall actions :: AllUndisturbed(actions) && Quiet(Execute(s, actions)) && Execute(s, actions).h.seen ==>
      ReportsAttach(Execute(s, actions))
  }

  /** An Apply is about to store pending; no control command is under way, no outcome of an older
      attempt is claimed and unreported. */
  predicate AboutToStore(s: Thread) {
    s.apply == StorePending && s.app == ControlIdle && s.tc.registered && Claims(s) == 0
  }

  /** What the Apply noted when it became pending stays noted. */
  predicate Noted(s: Thread, clean: bool) {
    && s.h.calm && s.h.clean == clean && s.h.stale == 0
    && (s.apply == ApplyIdle || s.apply.EnterSecond? || s.apply.ReadRole? || s.apply.LeaveSecond? ||
        s.apply.Claim? || s.apply.WriteAttached? || s.apply.CancelTimer? || s.apply.EmitSuccess? || s.apply.Rearm?)
  }

  lemma NextNoted(s: Thread, a: Action, clean: bool)
    requires Noted(s, clean) && Undisturbed(a)
    ensures Noted(Next(s, a), clean)
  {}

  lemma {:induction false} ExecuteNoted(s: Thread, actions: seq<Action>, clean: bool)
    requires Noted(s, clean) && AllUndisturbed(actions)
    ensures Noted(Execute(s, actions), clean)
    decreases |actions|
  {
    if actions != [] {
      NextNoted(s, actions[0], clean);
      ExecuteNoted(Next(s, actions[0]), actions[1..], clean);
    }
  }

  lemma CleanIsSure(s: Thread)
    requires Inv(s) && Caught(s) && Noted(s, true)
    ensures SureToReport(s)
  {
    forall actions | AllUndisturbed(actions) && Quiet(Execute(s, actions)) && Execute(s, actions).h.seen
      ensures ReportsAttach(Execute(s, actions))
    {
      ExecuteCaught(s, actions);
      ExecuteNoted(s, actions, true);
    }
  }

  lemma GoOn(start: Thread, t: Trail, a: Action) returns (t': Trail)
    requires Leads(start, t) && AllUndisturbed(t.actions) && Undisturbed(a)
    ensures Leads(start, t') && AllUndisturbed(t'.actions) && t'.s == Next(t.s, a)
  {
    t' := Trail(t.actions + [a], Next(t.s, a));
    ExecuteAppend(start, t.actions, [a]);
  }

  /** The older timer takes the outcome just stored. */
  lemma OldTimerClaims(start: Thread, t: Trail) returns (t': Trail)
    requires Leads(start, t) && AllUndisturbed(t.actions)
    requires t.s.tc.pending && OldTimer(t.s) && Claims(t.s) == 0
    ensures Leads(start, t') && AllUndisturbed(t'.actions)
    ensures !t'.s.tc.pending && t'.s.tc.state == AttachingFailed && t'.s.timeout == TimeoutIdle
    ensures t'.s.h == Emit(t.s.h, CredFail) && t'.s.apply == t.s.apply && t'.s.callback == t.s.callback
    ensures t'.s.ot == t.s.ot && t'.s.app == t.s.app && t'.s.ctrl == t.s.ctrl
  {
    t' := t;
    if t.s.timeout != ToClaim {
      t' := GoOn(start, t', TimerFires);
    }
    t' := GoOn(start, t', TimeoutRuns);
    t' := GoOn(start, t', TimeoutRuns);
    t' := GoOn(start, t', TimeoutRuns);
    t' := GoOn(start, t', TimeoutRuns);
  }

  /** A timer left armed fires in vain. */
  lemma OldTimerSpent(start: Thread, t: Trail) returns (t': Trail)
    requires Leads(start, t) && AllUndisturbed(t.actions)
    requires !t.s.tc.pending && t.s.timeout == TimeoutIdle
    ensures Leads(start, t') && AllUndisturbed(t'.actions)
    ensures t'.s == t.s.(tc := t.s.tc.(armed := false))
  {
    t' := t;
    if t.s.tc.armed {
      t' := GoOn(start, t', TimerFires);
      t' := GoOn(start, t', TimeoutRuns);
    }
  }

  /** A callback without a claim leaves. */
  lemma CallbackLeaves(start: Thread, t: Trail) returns (t': Trail)
    requires Leads(start, t) && AllUndisturbed(t.actions)
    requires MutexInv(t.s) && !t.s.tc.pending
    requires t.s.callback != CbWriteAttached && t.s.callback != CbCancelTimer && t.s.callback != CbEmitSuccess
    requires t.s.apply == EnterSecond && t.s.app == ControlIdle
    ensures Leads(start, t') && AllUndisturbed(t'.actions)
    ensures t'.s == t.s.(ot := t.s.ot.(mutex := Free), callback := CallbackIdle)
  {
    t' := t;
    if t'.s.callback == CheckRole {
      t' := GoOn(start, t', CallbackRuns);
    }
    if t'.s.callback == CbClaim {
      t' := GoOn(start, t', CallbackRuns);
    }
    if t'.s.callback == CbLeave {
      t' := GoOn(start, t', CallbackRuns);
    }
  }

  /** The node is or gets attached; the re-check reads it and loses the claim. */
  lemma RecheckLoses(start: Thread, t: Trail) returns (t': Trail)
    requires Leads(start, t) && AllUndisturbed(t.actions)
    requires t.s.apply == EnterSecond && t.s.ot.mutex == Free && !t.s.tc.pending
    ensures Leads(start, t') && AllUndisturbed(t'.actions)
    ensures t'.s == t.s.(ot := SetRole(t.s.ot, true), apply := ApplyIdle, h := t.s.h.(seen := true))
  {
    t' := GoOn(start, t, RoleChanges(true));
    t' := GoOn(start, t', ApplyRuns(false, false));
    t' := GoOn(start, t', ApplyRuns(false, false));
    t' := GoOn(start, t', ApplyRuns(false, false));
    t' := GoOn(start, t', ApplyRuns(false, false));
  }

  /** From every state in which pending has just been stored over an older timer, some continuation
      reports a failure although the re-check reads attached; a node already attached stays so. */
  lemma OldTimerCanMisreport(s: Thread) returns (actions: seq<Action>)
    requires MutexInv(s) && s.apply == EnterSecond && s.app == ControlIdle
    requires s.tc.pending && OldTimer(s) && Claims(s) == 0 && s.h.since == 0
    ensures AllUndisturbed(actions)
    ensures
      var t := Execute(s, actions);
      && Quiet(t) && t.h.seen && t.ot.attached && t.h.since == 1
      && t.h.events == s.h.events + [CredFail] && t.tc.state == AttachingFailed
  {
    var t := OldTimerClaims(s, Trail([], s));
    t := OldTimerSpent(s, t);
    t := CallbackLeaves(s, t);
    t := RecheckLoses(s, t);
    actions := t.actions;
  }

  /** At the moment an Apply stores pending with nothing older left to report, an attach seen by its
      re-check is sure to be reported if and only if no older timer is armed or has fired. */
  lemma AttachReportedExactly(attached: bool, notify: bool, actions: seq<Action>)
    requires AboutToStore(Execute(Start(attached, notify), actions))
    ensures
      var s := Execute(Start(attached, notify), actions);
      SureToReport(Next(s, ApplyRuns(false, false))) <==> !OldTimer(s)
  {
    ExecuteCaught(Start(attached, notify), actions);
    var s := Execute(Start(attached, notify), actions);
    var stored := Next(s, ApplyRuns(false, false));
    NextKeepsInv(s, ApplyRuns(false, false));
    NextCaught(s, ApplyRuns(false, false));
    if OldTimer(s) {
      var more := OldTimerCanMisreport(stored);
      assert !ReportsAttach(Execute(stored, more));
    } else {
      CleanIsSure(stored);
    }
  }
}
