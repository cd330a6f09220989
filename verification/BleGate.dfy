/** The data gate over BLE: its runs as runs of the device, and data only in the connection that was
    authenticated. */
module BleGate {
  import opened Common
  import opened Keystream
  import opened Protocomm
  import opened DeviceGate
  import Runs = DeviceRuns
  import Ble = BleTransport

  /** What one event does to the device. */
  function EventOps(g: Ble.Gatt, op: Ble.Op): seq<Runs.Op> {
    match op
    case Connect(failed, key) => if failed then [] else [Runs.OpenSession(key)]
    case Disconnect => [Runs.CloseSession]
    case WriteTo(i, w) =>
      if i < |g.io| && Ble.Processed(w)
      then Ops(false, None, w.rq.(name := g.io[i].name, body := w.value))
      else []
  }

  function AllOps(su: Suite, max: nat, device: Device, ops: seq<Ble.Op>): seq<Runs.Op> {
    if ops == [] then []
    else
      var last, before := ops[|ops| - 1], ops[..|ops| - 1];
      AllOps(su, max, device, before) + EventOps(Ble.Execute(su, max, device, before).gatt, last)
  }

  lemma SameDevice(su: Suite, max: nat, b: Ble.Run, r: Runs.Run, op: Ble.Op)
    requires b.gatt.device == r.device
    ensures Ble.Step(su, max, b, op).gatt.device == Runs.Execute(su, r, EventOps(b.gatt, op)).device
  {
    match op
    case Connect(_, key) => One(su, r, Runs.OpenSession(key));
    case Disconnect => One(su, r, Runs.CloseSession);
    case WriteTo(i, w) =>
      if i < |b.gatt.io| {
        OpsDevice(su, r, false, None, w.rq.(name := b.gatt.io[i].name, body := w.value));
      }
  }

  /** Every run of connections and writes leaves the device where a run of opens, closes and requests
      leaves it. */
  lemma {:induction false} IsDeviceRun(su: Suite, max: nat, r: Runs.Run, ops: seq<Ble.Op>)
    ensures Ble.Execute(su, max, r.device, ops).gatt.device
            == Runs.Execute(su, r, AllOps(su, max, r.device, ops)).device
  {
    if ops != [] {
      var last, before := ops[|ops| - 1], ops[..|ops| - 1];
      IsDeviceRun(su, max, r, before);
      var b := Ble.Execute(su, max, r.device, before);
      var done := AllOps(su, max, r.device, before);
      SameDevice(su, max, b, Runs.Execute(su, r, done), last);
      ExecuteAppend(su, r, done, EventOps(b.gatt, last));
    }
  }

  /** Data gate over BLE: after any connections and writes, a write makes a handler see non-empty
      plaintext or a non-empty data response leave only while a connection is up, in which the last
      accepted Command0 was followed by a verified Command1. */
  lemma BleDataGate(su: Suite, max: nat, table: seq<Endpoint>, pop: Bytes, version: Bytes,
                    ops: seq<Ble.Op>, op: Ble.Op)
    ensures
      var start := Runs.Start(table, pop, version);
      var b := Ble.Execute(su, max, start.device, ops);
      var run := Runs.Execute(su, start, AllOps(su, max, start.device, ops));
      && b.gatt.device == run.device
      && (HasData(Added(su, run, EventOps(b.gatt, op))) ==> Ble.Up(b.log) && Runs.Authenticated(run.log))
  {
    var start := Runs.Start(table, pop, version);
    var b := Ble.Execute(su, max, start.device, ops);
    var done := AllOps(su, max, start.device, ops);
    var run := Runs.Execute(su, start, done);
    IsDeviceRun(su, max, start, ops);
    Ble.ExecuteKeepsInv(su, max, start.device, ops);
    Runs.ExecuteKeepsInv(su, start, done);
    match op
    case Connect(_, key) => One(su, run, Runs.OpenSession(key));
    case Disconnect => One(su, run, Runs.CloseSession);
    case WriteTo(i, w) =>
      if i < |b.gatt.io| && Ble.Processed(w) {
        DataNeedsSession(su, run, false, None, w.rq.(name := b.gatt.io[i].name, body := w.value));
      }
  }
}
