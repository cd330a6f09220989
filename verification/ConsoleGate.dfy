/** The data gate over the console: its runs as runs of the device, and data only under the id of the
    session that was authenticated. */
module ConsoleGate {
  import opened Common
  import opened Keystream
  import opened Protocomm
  import opened DeviceGate
  import Runs = DeviceRuns
  import Console = ConsoleTransport

  /** What one command does to the device. */
  function CommandOps(ulongMax: nat, s: Console.Shell, cmd: Console.Command): seq<Runs.Op> {
    var request := Console.Accepted(cmd, ulongMax);
    if s.device.None? || request.Err? then []
    else
      Ops(s.session != Some(request.value.0), cmd.key, cmd.rq.(name := cmd.ep, body := request.value.1))
  }

  function AllOps(su: Suite, ulongMax: nat, device: Device, cmds: seq<Console.Command>): seq<Runs.Op> {
    if cmds == [] then []
    else
      var last, before := cmds[|cmds| - 1], cmds[..|cmds| - 1];
      AllOps(su, ulongMax, device, before) +
      CommandOps(ulongMax, Console.Execute(su, ulongMax, Console.Start(device), before), last)
  }

  lemma SameDevice(su: Suite, ulongMax: nat, s: Console.Shell, r: Runs.Run, cmd: Console.Command)
    requires s.device == Some(r.device)
    ensures Console.Do(su, ulongMax, s, cmd).0.device == Some(Runs.Execute(su, r, CommandOps(ulongMax, s, cmd)).device)
  {
    var request := Console.Accepted(cmd, ulongMax);
    if request.Ok? {
      OpsDevice(su, r, s.session != Some(request.value.0), cmd.key, cmd.rq.(name := cmd.ep, body := request.value.1));
    }
  }

  /** Every run of commands leaves the console's device where a run of opens and requests leaves it. */
  lemma {:induction false} IsDeviceRun(su: Suite, ulongMax: nat, r: Runs.Run, cmds: seq<Console.Command>)
    ensures Console.Execute(su, ulongMax, Console.Start(r.device), cmds).device
            == Some(Runs.Execute(su, r, AllOps(su, ulongMax, r.device, cmds)).device)
  {
    if cmds != [] {
      var last, before := cmds[|cmds| - 1], cmds[..|cmds| - 1];
      IsDeviceRun(su, ulongMax, r, before);
      var s := Console.Execute(su, ulongMax, Console.Start(r.device), before);
      var ops := AllOps(su, ulongMax, r.device, before);
      SameDevice(su, ulongMax, s, Runs.Execute(su, r, ops), last);
      ExecuteAppend(su, r, ops, CommandOps(ulongMax, s, last));
    }
  }

  /** Data gate over the console: after any commands, one makes a handler see non-empty plaintext or a
      non-empty data response leave only if it carries the id of the last command not refused, and
      since the session was opened under that id the last accepted Command0 was followed by a
      verified Command1. */
  lemma ConsoleDataGate(su: Suite, ulongMax: nat, table: seq<Endpoint>, pop: Bytes, version: Bytes,
                        cmds: seq<Console.Command>, cmd: Console.Command)
    ensures
      var start := Runs.Start(table, pop, version);
      var s := Console.Execute(su, ulongMax, Console.Start(start.device), cmds);
      var run := Runs.Execute(su, start, AllOps(su, ulongMax, start.device, cmds));
      && s.device == Some(run.device)
      && (HasData(Added(su, run, CommandOps(ulongMax, s, cmd))) ==>
            && Console.Accepted(cmd, ulongMax).Ok?
            && Console.LastId(cmds, ulongMax) == Some(Console.Accepted(cmd, ulongMax).value.0)
            && Runs.Authenticated(run.log))
  {
    var start := Runs.Start(table, pop, version);
    var s := Console.Execute(su, ulongMax, Console.Start(start.device), cmds);
    var ops := AllOps(su, ulongMax, start.device, cmds);
    IsDeviceRun(su, ulongMax, start, cmds);
    Console.SessionIsLastId(su, ulongMax, start.device, cmds);
    Runs.ExecuteKeepsInv(su, start, ops);
    var request := Console.Accepted(cmd, ulongMax);
    if request.Ok? {
      DataNeedsSession(su, Runs.Execute(su, start, ops), s.session != Some(request.value.0), cmd.key,
                       cmd.rq.(name := cmd.ep, body := request.value.1));
    }
  }
}
