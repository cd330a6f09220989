/** Runs of the Thread handler, built action by action, in which an Apply is reported twice or the
    reported state is not its outcome's. */
module ThreadMishaps {
  import opened ThreadConfig
  import opened ThreadRuns

  lemma {:induction false} ExecuteAppend(s: Thread, a: seq<Action>, b: seq<Action>)
    ensures Execute(s, a + b) == Execute(Execute(s, a), b)
    decreases |a|
  {
    if a == [] {
      assert a + b == b;
    } else {
      assert (a + b)[1..] == a[1..] + b;
      ExecuteAppend(Next(s, a[0]), a[1..], b);
    }
  }

  /** A run from start to s, as a ghost value that can be extended. */
  datatype Trail = Trail(actions: seq<Action>, s: Thread)

  ghost predicate Leads(start: Thread, t: Trail) {
    Execute(start, t.actions) == t.s
  }

  lemma Go(start: Thread, t: Trail, a: Action) returns (t': Trail)
    requires Leads(start, t)
    ensures Leads(start, t') && t'.s == Next(t.s, a)
  {
    t' := Trail(t.actions + [a], Next(t.s, a));
    ExecuteAppend(start, t.actions, [a]);
  }

  /** An Apply on a detached node with free threads, up to becoming pending. */
  lemma GoPending(start: Thread, t: Trail) returns (t': Trail)
    requires Leads(start, t)
    requires t.s.apply == ApplyIdle && t.s.ctrl == ControlIdle && t.s.tc.staged
    requires t.s.ot == Radio(Free, false, false)
    ensures Leads(start, t')
    ensures t'.s == t.s.(tc := t.s.tc.(state := Attaching, pending := true), apply := EnterSecond,
                         h := History(t.s.h.events + [CredRecv],
                                      t.s.h.dropped + if t.s.tc.pending then 1 else 0, 0, Claims(t.s),
                                      t.s.app == ControlIdle && t.s.tc.registered, !OldTimer(t.s), false))
  {
    t' := GoEnabled(start, t, false);
    t' := GoStored(start, t');
  }

  /** And on to arming its timer. */
  lemma GoArmed(start: Thread, t: Trail) returns (t': Trail)
    requires Leads(start, t) && t.s.apply == EnterSecond && t.s.ot == Radio(Free, false, false)
    ensures Leads(start, t')
    ensures t'.s == t.s.(tc := t.s.tc.(armed := true), apply := ApplyIdle, h := t.s.h.(seen := false))
  {
    t' := Go(start, t, ApplyRuns(false, false));
    t' := Go(start, t', ApplyRuns(false, false));
    t' := Go(start, t', ApplyRuns(false, false));
    t' := Go(start, t', ApplyRuns(false, false));
  }

  /** The node attaches and the callback claims and reports the success. */
  lemma GoAttach(start: Thread, t: Trail) returns (t': Trail)
    requires Leads(start, t) && t.s.callback == CallbackIdle && t.s.tc.pending && t.s.tc.registered
    requires t.s.ot == Radio(Free, false, false)
    ensures Leads(start, t')
    ensures t'.s == t.s.(tc := t.s.tc.(state := Attached, pending := false, armed := false),
                         ot := Radio(Free, true, false), h := Emit(t.s.h, CredSuccess))
  {
    t' := Go(start, t, RoleChanges(true));
    t' := GoClaimedByCallback(start, t');
    t' := GoReported(start, t');
  }

  /** From the start to the first Apply's timeout having claimed its outcome. */
  lemma GoClaimed(start: Thread) returns (t: Trail)
    requires start == Start(false, false)
    ensures Leads(start, t)
    ensures t.s == start.(tc := start.tc.(staged := true, state := Attaching), timeout := ToWriteFailed,
                          h := History([CredRecv], 0, 0, 0, true, true, false))
  {
    t := GoFired(start);
    t := Go(start, t, TimeoutRuns);
  }

  /** The condition of OneOutcome is needed. The first Apply's timeout claims its outcome; before
      it can write and report, the client applies again and the node attaches. At rest, with the
      second Apply undisturbed, two outcomes have been reported since it became pending and the
      status poll says the attach failed although the node is attached. */
  lemma StaleTimeoutMisreports() returns (actions: seq<Action>)
    ensures
      var s := Execute(Start(false, false), actions);
      && s.h.calm && Quiet(s) && !s.tc.pending
      && s.h.stale == 1 && s.h.since == 2
      && s.ot.attached && s.tc.state == AttachingFailed
  {
    var start := Start(false, false);
    var t := GoClaimed(start);
    t := GoPending(start, t);
    t := GoArmed(start, t);
    t := GoAttach(start, t);
    t := Go(start, t, TimeoutRuns);
    t := Go(start, t, TimeoutRuns);
    t := Go(start, t, TimeoutRuns);
    actions := t.actions;
  }

  /** An Apply whose dataset is rejected, from a free mutex to its end. */
  lemma GoRejected(start: Thread, t: Trail) returns (t': Trail)
    requires Leads(start, t)
    requires t.s.apply == ApplyIdle && t.s.ctrl == ControlIdle && t.s.tc.staged && t.s.ot.mutex == Free
    ensures Leads(start, t')
    ensures t'.s == t.s.(tc := t.s.tc.(state := AttachingFailed, reason := DatasetInvalid),
                         h := History(t.s.h.events + [CredRecv, CredFail], t.s.h.dropped, 1,
                                      Claims(t.s) + Pending(t.s), t.s.app == ControlIdle && t.s.tc.registered,
                                      false, false))
  {
    t' := Go(start, t, StartApply);
    t' := Go(start, t', ApplyRuns(true, false));
    t' := Go(start, t', ApplyRuns(true, false));
    t' := Go(start, t', ApplyRuns(true, false));
    t' := Go(start, t', ApplyRuns(true, false));
    t' := Go(start, t', ApplyRuns(true, false));
    t' := Go(start, t', ApplyRuns(true, false));
    t' := Go(start, t', ApplyRuns(true, false));
    assert (t.s.h.events + [CredRecv]) + [CredFail] == t.s.h.events + [CredRecv, CredFail];
  }

  /** The condition also fails without any race: a rejected dataset leaves the older attempt
      pending. It attaches, and at rest the last Apply has reported a failure, yet the status poll
      says attached. */
  lemma RejectedApplyMisreports() returns (actions: seq<Action>)
    ensures
      var s := Execute(Start(false, false), actions);
      && s.h.calm && Quiet(s) && s.h.dropped == 0
      && s.h.stale == 1 && s.h.since == 2
      && s.h.events == [CredRecv, CredRecv, CredFail, CredSuccess]
      && s.tc.state == Attached
  {
    var start := Start(false, false);
    var t := Go(start, Trail([], start), Stage);
    t := GoPending(start, t);
    t := GoArmed(start, t);
    t := GoRejected(start, t);
    t := GoAttach(start, t);
    actions := t.actions;
  }

  /** A callback may hold the claim as well: it takes the first attempt's outcome while the client
      applies again. Two successes are reported since the second Apply became pending. */
  lemma StaleCallbackRepeats() returns (actions: seq<Action>)
    ensures
      var s := Execute(Start(false, false), actions);
      && s.h.calm && Quiet(s) && s.h.dropped == 0
      && s.h.stale == 1 && s.h.since == 2
      && s.h.events == [CredRecv, CredRecv, CredSuccess, CredSuccess]
  {
    var start := Start(false, false);
    var t := Go(start, Trail([], start), Stage);
    t := GoPending(start, t);
    t := GoArmed(start, t);
    t := GoEnabled(start, t, true);
    t := GoClaimedByCallback(start, t);
    t := GoStored(start, t);
    t := GoReported(start, t);
    t := GoSeen(start, t);
    actions := t.actions;
  }

  /** An Apply from a free mutex to having brought Thread up, perhaps attached. */
  lemma GoEnabled(start: Thread, t: Trail, attached: bool) returns (t': Trail)
    requires Leads(start, t)
    requires t.s.apply == ApplyIdle && t.s.ctrl == ControlIdle && t.s.tc.staged && t.s.ot == Radio(Free, false, false)
    ensures Leads(start, t')
    ensures t'.s == t.s.(ot := Radio(Free, attached, attached), apply := EmitRecv, h := t.s.h.(calm := false))
  {
    t' := Go(start, t, StartApply);
    t' := Go(start, t', ApplyRuns(false, attached));
    t' := Go(start, t', ApplyRuns(false, attached));
    t' := Go(start, t', ApplyRuns(false, attached));
  }

  /** And on to storing pending. */
  lemma GoStored(start: Thread, t: Trail) returns (t': Trail)
    requires Leads(start, t) && t.s.apply == EmitRecv
    ensures Leads(start, t')
    ensures t'.s == t.s.(tc := t.s.tc.(state := Attaching, pending := true), apply := EnterSecond,
                         h := History(t.s.h.events + [CredRecv],
                                      t.s.h.dropped + if t.s.tc.pending then 1 else 0, 0, Claims(t.s),
                                      t.s.app == ControlIdle && t.s.tc.registered, !OldTimer(t.s), false))
  {
    t' := Go(start, t, ApplyRuns(false, false));
    t' := Go(start, t', ApplyRuns(false, false));
    t' := Go(start, t', ApplyRuns(false, false));
  }

  /** A callback that holds the claim, to its end. */
  lemma GoReported(start: Thread, t: Trail) returns (t': Trail)
    requires Leads(start, t) && t.s.callback == CbWriteAttached
    ensures Leads(start, t')
    ensures t'.s == t.s.(tc := t.s.tc.(state := Attached, armed := false), ot := t.s.ot.(mutex := Free),
                         callback := CallbackIdle, h := Emit(t.s.h, CredSuccess))
  {
    t' := Go(start, t, CallbackRuns);
    t' := Go(start, t', CallbackRuns);
    t' := Go(start, t', CallbackRuns);
    t' := Go(start, t', CallbackRuns);
  }

  /** The re-check of an attached node: it claims and reports the success, or finds the claim taken. */
  lemma GoSeen(start: Thread, t: Trail) returns (t': Trail)
    requires Leads(start, t) && t.s.apply == EnterSecond && t.s.ot.mutex == Free && t.s.ot.attached
    ensures Leads(start, t')
    ensures var h := t.s.h.(seen := true);
            t'.s == if t.s.tc.pending
                    then t.s.(tc := t.s.tc.(state := Attached, pending := false, armed := false),
                              apply := ApplyIdle, h := Emit(h, CredSuccess))
                    else t.s.(apply := ApplyIdle, h := h)
  {
    t' := GoRecheck(start, t);
    t' := Go(start, t', ApplyRuns(false, false));
    if t.s.tc.pending {
      t' := Go(start, t', ApplyRuns(false, false));
      t' := Go(start, t', ApplyRuns(false, false));
      t' := Go(start, t', ApplyRuns(false, false));
    }
  }

  lemma GoRecheck(start: Thread, t: Trail) returns (t': Trail)
    requires Leads(start, t) && t.s.apply == EnterSecond && t.s.ot.mutex == Free && t.s.ot.attached
    ensures Leads(start, t') && t'.s == t.s.(apply := Claim, h := t.s.h.(seen := true))
  {
    t' := Go(start, t, ApplyRuns(false, false));
    t' := Go(start, t', ApplyRuns(false, false));
    t' := Go(start, t', ApplyRuns(false, false));
  }

  /** A timeout that is about to claim takes the pending outcome and reports the failure. */
  lemma GoTimeout(start: Thread, t: Trail) returns (t': Trail)
    requires Leads(start, t) && t.s.timeout == ToClaim && t.s.tc.pending
    ensures Leads(start, t')
    ensures t'.s == t.s.(tc := t.s.tc.(state := AttachingFailed, reason := ThreadNetworkNotFound, pending := false),
                         timeout := TimeoutIdle, h := Emit(t.s.h, CredFail))
  {
    t' := Go(start, t, TimeoutRuns);
    t' := Go(start, t', TimeoutRuns);
    t' := Go(start, t', TimeoutRuns);
    t' := Go(start, t', TimeoutRuns);
  }

  /** From the start to the first attempt's timer having fired. */
  lemma GoFired(start: Thread) returns (t: Trail)
    requires start == Start(false, false)
    ensures Leads(start, t)
    ensures t.s == start.(tc := start.tc.(staged := true, state := Attaching, pending := true), timeout := ToClaim,
                          h := History([CredRecv], 0, 0, 0, true, true, false))
  {
    t := Go(start, Trail([], start), Stage);
    t := GoPending(start, t);
    t := GoArmed(start, t);
    t := Go(start, t, TimerFires);
  }

  /** OpenThread notifies of an attached node and the callback wins the claim. */
  lemma GoClaimedByCallback(start: Thread, t: Trail) returns (t': Trail)
    requires Leads(start, t) && t.s.callback == CallbackIdle && t.s.tc.pending && t.s.tc.registered
    requires t.s.ot == Radio(Free, true, true)
    ensures Leads(start, t')
    ensures t'.s == t.s.(tc := t.s.tc.(pending := false), ot := Radio(CallbackOwns, true, false),
                         callback := CbWriteAttached)
  {
    t' := Go(start, t, Notified);
    t' := Go(start, t', CallbackRuns);
    t' := Go(start, t', CallbackRuns);
  }

  /** An older timer can take the new attempt although nothing older is still to be reported. The
      node attaches while the second Apply brings Thread up, before it stores pending; the first
      attempt's timeout, already fired, claims the second attempt; the re-check reads attached and
      loses. Exactly one outcome is reported since, a failure, and the status says so. */
  lemma LateTimeoutMisreports() returns (actions: seq<Action>)
    ensures
      var s := Execute(Start(false, false), actions);
      && s.h.calm && Quiet(s) && s.h.dropped == 0 && s.h.seen
      && s.h.stale == 0 && s.h.since == 1
      && s.h.events == [CredRecv, CredSuccess, CredRecv, CredFail]
      && s.ot.attached && s.tc.state == AttachingFailed
  {
    var start := Start(false, false);
    var t := GoFired(start);
    t := GoEnabled(start, t, true);
    t := GoClaimedByCallback(start, t);
    t := GoReported(start, t);
    t := GoStored(start, t);
    t := GoTimeout(start, t);
    t := GoSeen(start, t);
    actions := t.actions;
  }
}
