/** The credential store over runs of the Wi-Fi handler, with erasures by the manager at any time. */
module WifiStore {
  import opened Common
  import opened WifiConfig
  import opened WifiRuns

  /** Every store operation of the step succeeds. */
  predicate StoreWorks(s: Step) {
    match s
    case DoApply(e) => e.delete && e.put && e.undo
    case Configure(_, _, e) => e.delete && e.put && e.undo
    case Result(_, _, delete) => delete
    case Retry(_, delete) => delete
    case _ => true
  }

  /** The store was erased since the last Apply that was taken. */
  predicate Wiped(store: map<Bytes, Entry>, steps: seq<Step>) {
    steps != [] &&
    (var last, before := steps[|steps| - 1], steps[..|steps| - 1];
     var w := Execute(Boot(store), before);
     if last.Erase? && last.works then true
     else if (last.DoApply? || last.Configure?) && Next(w, last).out != w.out then false
     else Wiped(store, before))
  }

  /** The entry of the attempt in flight: exactly as applied, or gone if the store was erased. */
  predicate Stored(w: Wifi, wiped: bool) {
    Inflight(w) ==>
      if wiped then w.inflight.ssid !in w.store
      else w.inflight.ssid in w.store && w.store[w.inflight.ssid] == EntryOf(w.inflight)
  }

  lemma ApplyStored(w: Wifi, e: ApplyEnv, wiped: bool)
    requires Inv(w) && Stored(w, wiped) && e.delete && e.put && e.undo
    ensures Stored(Apply(w, e).0, wiped && Apply(w, e).0.out == w.out)
  {}

  lemma NextStored(w: Wifi, s: Step, wiped: bool)
    requires Inv(w) && Stored(w, wiped) && StoreWorks(s) && !s.DoApply? && !s.Configure?
    ensures Stored(Next(w, s), wiped || (s.Erase? && s.works))
  {}

  lemma {:induction false} RunStored(store: map<Bytes, Entry>, steps: seq<Step>)
    requires forall s :: s in steps ==> StoreWorks(s)
    ensures Stored(Execute(Boot(store), steps), Wiped(store, steps))
  {
    if steps != [] {
      var last, before := steps[|steps| - 1], steps[..|steps| - 1];
      assert last in steps && steps == before + [last];
      RunStored(store, before);
      ExecuteKeepsInv(Boot(store), before);
      ExecuteSnoc(Boot(store), before, last);
      LastStored(Execute(Boot(store), before), last, Wiped(store, before));
    }
  }

  lemma LastStored(w: Wifi, s: Step, wiped: bool)
    requires Inv(w) && Stored(w, wiped) && StoreWorks(s)
    ensures Stored(Next(w, s), (s.Erase? && s.works) ||
                               (wiped && !((s.DoApply? || s.Configure?) && Next(w, s).out != w.out)))
  {
    match s
    case DoApply(e) => ApplyStored(w, e, wiped);
    case Configure(ssid, psk, e) => ApplyStored(w.(staged := Cred(ssid, psk, None, 0)), e, wiped);
    case _ => NextStored(w, s, wiped);
  }

  /** The step reports an outcome of this kind. */
  predicate Ends(w: Wifi, w': Wifi, success: bool) {
    && |w'.out| > |w.out|
    && (if success then w'.out[|w'.out| - 1].Success? else w'.out[|w'.out| - 1].Failure?)
  }

  /** What the step that ends an attempt leaves in the store. */
  predicate ExactStore(w: Wifi, w': Wifi, wiped: bool) {
    && (Ends(w, w', true) ==>
          && LastRecv(w'.out).Some?
          && var c := LastRecv(w'.out).value;
          && w'.store == w.store
          && (c.ssid in w'.store <==> !wiped)
          && (!wiped ==> w'.store[c.ssid] == Entry(if c.pass == [] then Open else Psk, c.pass, c.bssid, c.channel)))
    && (Ends(w, w', false) ==>
          && LastRecv(w'.out).Some?
          && w'.store == w.store - {LastRecv(w'.out).value.ssid})
  }

  lemma RetryStore(w: Wifi, connect: bool, wiped: bool)
    requires Inv(w)
    ensures ExactStore(w, RetryFires(w, connect, true), wiped)
  {
    if Inflight(w) {
      One(w.out, Connect(w.inflight));
      One(w.out + [Connect(w.inflight)], Failure(ReasonOf(w.lastCause)));
    }
  }

  lemma ResultStore(w: Wifi, connected: bool, cause: Cause, wiped: bool)
    requires Inv(w) && Stored(w, wiped)
    ensures ExactStore(w, ConnectResult(w, connected, cause, true), wiped)
  {
    if Inflight(w) {
      One(w.out, Success);
      One(w.out, Failure(ReasonOf(cause)));
    }
  }

  lemma ApplyStore(w: Wifi, e: ApplyEnv, wiped: bool)
    requires Inv(w) && e.delete && e.undo
    ensures ExactStore(w, Apply(w, e).0, wiped)
  {
    if Stores(w, e) {
      Two(w.out, w.staged);
      One(w.out + [Recv(w.staged), Connect(w.staged)], Failure(AuthError));
    }
  }

  /** When store operations succeed: the step that reports Success leaves the store alone and finds
      the applied credentials in it, exactly, if and only if the store was not erased since the
      Apply; the step that reports a failure leaves that SSID absent and every other entry as it
      was. */
  lemma OutcomeStore(store: map<Bytes, Entry>, steps: seq<Step>, s: Step)
    requires StoreWorks(s) && forall t :: t in steps ==> StoreWorks(t)
    ensures
      var w := Execute(Boot(store), steps);
      ExactStore(w, Next(w, s), Wiped(store, steps))
  {
    ExecuteKeepsInv(Boot(store), steps);
    RunStored(store, steps);
    var w, wiped := Execute(Boot(store), steps), Wiped(store, steps);
    match s
    case DoApply(e) => ApplyStore(w, e, wiped);
    case Configure(ssid, psk, e) => ApplyStore(w.(staged := Cred(ssid, psk, None, 0)), e, wiped);
    case Retry(connect, _) => RetryStore(w, connect, wiped);
    case Result(connected, cause, _) => ResultStore(w, connected, cause, wiped);
    case _ =>
  }

  // An Apply that fails.

  /** An Apply answered with an error keeps the store if and only if it found no interface, or could
      not delete, or there was no entry for the staged SSID; otherwise exactly that entry is lost. */
  lemma FailedApplyStore(w: Wifi, e: ApplyEnv)
    requires Apply(w, e).1 == InternalError
    ensures Apply(w, e).0.store == w.store <==> !e.iface || !e.delete || w.staged.ssid !in w.store
    ensures Apply(w, e).0.store == w.store || Apply(w, e).0.store == w.store - {w.staged.ssid}
    ensures Apply(w, e).0 == w.(store := Apply(w, e).0.store)
  {
    if w.staged.ssid in w.store {
      assert w.staged.ssid !in w.store - {w.staged.ssid};
    } else {
      assert w.store - {w.staged.ssid} == w.store;
    }
  }

  /** A run that loses a working entry: new credentials for a stored SSID whose write fails. */
  lemma FailedApplyLoses(ssid: Bytes, pass: Bytes, entry: Entry) returns (steps: seq<Step>)
    requires 1 <= |ssid| <= 32 && |pass| <= 63
    ensures Execute(Boot(map[ssid := entry]), steps).store == map[]
    ensures Execute(Boot(map[ssid := entry]), steps).out == []
  {
    var a, b, c := Start(1), Set(ssid, pass, [], 0), DoApply(ApplyEnv(true, true, false, true, true));
    steps := [a, b, c];
    assert steps[1..] == [b, c] && [b, c][1..] == [c] && [c][1..] == [];
    var w0 := Boot(map[ssid := entry]);
    var w1 := Next(w0, a);
    var w2 := Next(w1, b);
    assert Execute(w2, [c]) == Execute(Next(w2, c), []);
    FailedApplyStore(w2, c.env);
    assert w2.store - {ssid} == map[];
  }

  // SSIDs that are never applied.

  /** No Apply of the run is made with this SSID staged. */
  predicate NeverApplied(w: Wifi, steps: seq<Step>, ssid: Bytes)
    decreases |steps|
  {
    steps == [] ||
    (&& (steps[0].DoApply? ==> w.staged.ssid != ssid)
     && (steps[0].Configure? ==> steps[0].ssid != ssid)
     && NeverApplied(Next(w, steps[0]), steps[1..], ssid))
  }

  predicate SameEntry(a: map<Bytes, Entry>, b: map<Bytes, Entry>, ssid: Bytes) {
    (ssid in a <==> ssid in b) && (ssid in a ==> a[ssid] == b[ssid])
  }

  /** The step leaves this SSID's entry, unless it erases the store, and keeps away from it. */
  predicate Spares(w: Wifi, w': Wifi, ssid: Bytes, erased: bool) {
    && w'.inflight.ssid != ssid
    && (if erased then ssid !in w'.store else SameEntry(w'.store, w.store, ssid))
  }

  lemma ApplySpares(w: Wifi, e: ApplyEnv, ssid: Bytes)
    requires w.inflight.ssid != ssid && ssid != [] && w.staged.ssid != ssid
    ensures Spares(w, Apply(w, e).0, ssid, false)
  {}

  lemma ResultSpares(w: Wifi, connected: bool, cause: Cause, delete: bool, ssid: Bytes)
    requires w.inflight.ssid != ssid && ssid != []
    ensures Spares(w, ConnectResult(w, connected, cause, delete), ssid, false)
  {}

  lemma RetrySpares(w: Wifi, connect: bool, delete: bool, ssid: Bytes)
    requires w.inflight.ssid != ssid && ssid != []
    ensures Spares(w, RetryFires(w, connect, delete), ssid, false)
  {}

  lemma OtherKept(w: Wifi, s: Step, ssid: Bytes)
    requires w.inflight.ssid != ssid && ssid != []
    requires s.DoApply? ==> w.staged.ssid != ssid
    requires s.Configure? ==> s.ssid != ssid
    ensures Spares(w, Next(w, s), ssid, s.Erase? && s.works)
  {
    match s
    case DoApply(e) => ApplySpares(w, e, ssid);
    case Configure(other, psk, e) => ApplySpares(w.(staged := Cred(other, psk, None, 0)), e, ssid);
    case Result(connected, cause, delete) => ResultSpares(w, connected, cause, delete, ssid);
    case Retry(connect, delete) => RetrySpares(w, connect, delete, ssid);
    case _ =>
  }

  /** Some step erases the store. */
  predicate Erases(steps: seq<Step>) {
    steps != [] && ((steps[0].Erase? && steps[0].works) || Erases(steps[1..]))
  }

  /** SSIDs never applied keep their entries over the whole run if and only if they had none or the
      store is never erased, whether or not store operations succeed. */
  lemma {:induction false} OthersKept(w: Wifi, steps: seq<Step>, ssid: Bytes)
    requires NeverApplied(w, steps, ssid) && w.inflight.ssid != ssid && ssid != []
    ensures SameEntry(Execute(w, steps).store, w.store, ssid) <==> ssid !in w.store || !Erases(steps)
    ensures Erases(steps) ==> ssid !in Execute(w, steps).store
    decreases |steps|
  {
    if steps != [] {
      OtherKept(w, steps[0], ssid);
      OthersKept(Next(w, steps[0]), steps[1..], ssid);
    }
  }
}
