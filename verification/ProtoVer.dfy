/** What a client learns from the proto-ver endpoint of a started service. */
module ProtoVer {
  import opened Common
  import opened Keystream
  import opened Protocomm
  import Runs = DeviceRuns
  import CustomEndpoints
  import AppInfo
  import Json

  /** The characters of a text of bytes. */
  function TextOf(b: Bytes): string {
    seq(|b|, i requires 0 <= i < |b| => (b[i] as int) as char)
  }

  /** The value the text should have after these calls of set_app_info. */
  function Expected(calls: seq<AppInfo.InfoCall>, secVer: nat, noPop: bool, thread: bool): Json.Value {
    var c := AppInfo.LastValid(calls);
    if c.None? then Json.Obj([AppInfo.ProvMember(secVer, noPop, thread)])
    else
      AppInfo.Advertised(c.value.appLabel.value, c.value.version.value, AppInfo.Values(AppInfo.Given(c.value.caps)),
                         secVer, noPop, thread)
  }

  lemma VersionIsFirst(created: seq<string>)
    ensures Find(CustomEndpoints.BUILTINS + CustomEndpoints.CustomEntries(created), "proto-ver") == Some(0)
  {}

  /** From init to the client: whatever endpoints the application created, whatever it set as its
      information, and after any run of the started service, parsing the answer to "proto-ver" gives
      what the last valid call of set_app_info asked for. */
  lemma ClientLearns(su: Suite, capacity: nat, names: seq<Option<string>>, calls: seq<AppInfo.InfoCall>,
                     secVer: nat, noPop: bool, thread: bool, pop: Bytes, version: Bytes,
                     ops: seq<Runs.Op>, rq: Request)
    requires capacity <= CustomEndpoints.MAX_CUSTOM
    requires TextOf(version) == AppInfo.VersionText(AppInfo.SetAll(calls).section, secVer, noPop, thread)
    requires rq.name == "proto-ver" && rq.faults.respAlloc
    ensures
      var created := CustomEndpoints.CreateAll(CustomEndpoints.Registry(true, false, []), capacity, names).created;
      var (table, status) :=
        CustomEndpoints.RegisterAll([], CustomEndpoints.BUILTINS + CustomEndpoints.CustomEntries(created));
      var d := Runs.Execute(su, Runs.Start(table, pop, version), ops).device;
      var (d', a) := Dispatch(su, d, rq);
      && status == Ok(()) && d' == d && a.seen == None
      && a.response.Ok? && a.response.value.Raw?
      && Json.Parse(TextOf(a.response.value.body)) == Some(Expected(calls, secVer, noPop, thread))
  {
    var created := CustomEndpoints.CreateAll(CustomEndpoints.Registry(true, false, []), capacity, names).created;
    CustomEndpoints.StartRegisters(capacity, names, 0);
    VersionIsFirst(created);
    var table := CustomEndpoints.BUILTINS + CustomEndpoints.CustomEntries(created);
    Runs.VersionAnswered(su, table, pop, version, ops, rq);
    AppInfo.AdvertisesLast(calls, secVer, noPop, thread);
  }
}
