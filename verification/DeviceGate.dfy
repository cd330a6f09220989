/** Which requests can leave data records on a device's run: the part of the data gate that every
    transport shares. */
module DeviceGate {
  import opened Common
  import opened Keystream
  import opened Security1
  import opened Protocomm
  import Runs = DeviceRuns

  lemma ServeOne(su: Suite, r: Runs.Run, rq: Request)
    ensures Runs.Execute(su, r, [Runs.Serve(rq)])
            == Runs.Run(Dispatch(su, r.device, rq).0, r.log + Runs.ServeRecords(su, r.device, rq))
  {
    One(su, r, Runs.Serve(rq));
  }

  lemma One(su: Suite, r: Runs.Run, op: Runs.Op)
    ensures Runs.Execute(su, r, [op]) == Runs.Step(su, r, op)
  {
    assert [op][1..] == [];
    assert Runs.Execute(su, r, [op]) == Runs.Execute(su, Runs.Step(su, r, op), []);
  }

  lemma {:induction false} ExecuteAppend(su: Suite, r: Runs.Run, a: seq<Runs.Op>, b: seq<Runs.Op>)
    ensures Runs.Execute(su, r, a + b) == Runs.Execute(su, Runs.Execute(su, r, a), b)
    decreases |a|
  {
    if a == [] {
      assert a + b == b;
    } else {
      assert (a + b)[1..] == a[1..] + b;
      ExecuteAppend(su, Runs.Step(su, r, a[0]), a[1..], b);
    }
  }

  /** The operations of one request: a session is opened for it, or the open one goes on. */
  function Ops(opens: bool, key: Option<Bytes>, rq: Request): seq<Runs.Op> {
    (if opens then [Runs.OpenSession(key)] else []) + [Runs.Serve(rq)]
  }

  /** The device the request is dispatched on. */
  function Base(su: Suite, d: Device, opens: bool, key: Option<Bytes>): Device {
    if opens then Open(su, d, key) else d
  }

  lemma OpsDevice(su: Suite, r: Runs.Run, opens: bool, key: Option<Bytes>, rq: Request)
    ensures
      var base := Base(su, r.device, opens, key);
      Runs.Execute(su, r, Ops(opens, key, rq))
      == Runs.Run(Dispatch(su, base, rq).0,
                  r.log + (if opens then [Runs.Opened] else []) + Runs.ServeRecords(su, base, rq))
  {
    if opens {
      ExecuteAppend(su, r, [Runs.OpenSession(key)], [Runs.Serve(rq)]);
      One(su, r, Runs.OpenSession(key));
      ServeOne(su, Runs.Run(Open(su, r.device, key), r.log + [Runs.Opened]), rq);
    } else {
      assert Ops(opens, key, rq) == [Runs.Serve(rq)];
      ServeOne(su, r, rq);
      assert r.log + [] == r.log;
    }
  }

  predicate IsData(x: Runs.Record) {
    x.HandlerSaw? || x.ResponseLeft?
  }

  /** A handler saw non-empty plaintext, or a non-empty data response left. */
  predicate HasData(records: seq<Runs.Record>) {
    exists i :: 0 <= i < |records| && IsData(records[i])
  }

  /** The records that these operations add. */
  function Added(su: Suite, r: Runs.Run, ops: seq<Runs.Op>): seq<Runs.Record> {
    var log := Runs.Execute(su, r, ops).log;
    if |r.log| <= |log| then log[|r.log|..] else []
  }

  /** A context before its handshake serves no data. */
  lemma FreshServesNothing(su: Suite, d: Device, rq: Request)
    requires d.ctx.Some? ==> d.ctx.value.phase == Init
    ensures !HasData(Runs.ServeRecords(su, d, rq))
  {}

  /** If a request leaves data records, the first record it leaves is one. */
  lemma DataFirst(su: Suite, d: Device, rq: Request)
    requires HasData(Runs.ServeRecords(su, d, rq))
    ensures IsData(Runs.ServeRecords(su, d, rq)[0])
  {}

  lemma OpenAdds(su: Suite, r: Runs.Run, key: Option<Bytes>, rq: Request)
    ensures !HasData(Added(su, r, Ops(true, key, rq)))
  {
    OpsDevice(su, r, true, key, rq);
    FreshServesNothing(su, Open(su, r.device, key), rq);
    var records := Runs.ServeRecords(su, Open(su, r.device, key), rq);
    assert Added(su, r, Ops(true, key, rq)) == [Runs.Opened] + records;
    forall i | 0 <= i < |[Runs.Opened] + records| ensures !IsData(([Runs.Opened] + records)[i]) {
      if i > 0 {
        assert !IsData(records[i - 1]);
      }
    }
  }

  lemma ResumeAdds(su: Suite, r: Runs.Run, key: Option<Bytes>, rq: Request)
    requires Runs.Inv(r)
    ensures HasData(Added(su, r, Ops(false, key, rq))) ==> Runs.Authenticated(r.log) && r.device.ctx.Some?
  {
    OpsDevice(su, r, false, key, rq);
    assert r.log + [] == r.log;
    var records := Runs.ServeRecords(su, r.device, rq);
    assert Added(su, r, Ops(false, key, rq)) == records;
    Runs.ExecuteKeepsInv(su, r, Ops(false, key, rq));
    if HasData(records) {
      DataFirst(su, r.device, rq);
      Runs.SoundAt(r.log + records, |r.log|);
      assert (r.log + records)[..|r.log|] == r.log;
    }
  }

  /** A request leaves data records only if it goes on with an authenticated session. */
  lemma DataNeedsSession(su: Suite, r: Runs.Run, opens: bool, key: Option<Bytes>, rq: Request)
    requires Runs.Inv(r)
    ensures HasData(Added(su, r, Ops(opens, key, rq))) ==>
              !opens && Runs.Authenticated(r.log) && r.device.ctx.Some?
  {
    if opens {
      OpenAdds(su, r, key, rq);
    } else {
      ResumeAdds(su, r, key, rq);
    }
  }
}
