/** Application-defined endpoints and what a service start registers. */
module CustomEndpoints {
  import opened Common
  import opened Protocomm

  const EP_VERSION := "proto-ver"
  const EP_SESSION := "prov-session"
  const EP_SCAN := "prov-scan"
  const EP_CONFIG := "prov-config"
  const EP_CTRL := "prov-ctrl"

  const BUILTINS: seq<Endpoint> :=
    [Endpoint(EP_VERSION, Version), Endpoint(EP_SESSION, Security), Endpoint(EP_SCAN, Data),
     Endpoint(EP_CONFIG, Data), Endpoint(EP_CTRL, Data)]

  /** The largest number of custom slots the configuration allows. */
  const MAX_CUSTOM := 3

  predicate IsBuiltin(name: string) {
    name == EP_VERSION || name == EP_SESSION || name == EP_SCAN || name == EP_CONFIG || name == EP_CTRL
  }

  /** The manager's flags and the names created since init, in slot order. */
  datatype Registry = Registry(inited: bool, started: bool, created: seq<string>)

  function Create(r: Registry, capacity: nat, name: Option<string>): (Registry, Status) {
    if name.None? || name.value == "" || |name.value| >= EP_NAME_MAX then (r, Err(EINVAL))
    else if !r.inited || r.started then (r, Err(EPERM))
    else if IsBuiltin(name.value) || name.value in r.created then (r, Err(EALREADY))
    else if |r.created| >= capacity then (r, Err(ENOSPC))
    else (r.(created := r.created + [name.value]), Ok(()))
  }

  function CreateAll(r: Registry, capacity: nat, names: seq<Option<string>>): Registry
    decreases |names|
  {
    if names == [] then r else CreateAll(Create(r, capacity, names[0]).0, capacity, names[1..])
  }

  function CustomEntries(created: seq<string>): seq<Endpoint> {
    seq(|created|, i requires 0 <= i < |created| => Endpoint(created[i], Data))
  }

  /** Registration in order, stopping at the first error. */
  function RegisterAll(table: seq<Endpoint>, entries: seq<Endpoint>): (seq<Endpoint>, Status)
    decreases |entries|
  {
    if entries == [] then (table, Ok(()))
    else
      var (t, status) := Add(table, entries[0].name, entries[0].kind);
      if status.Err? then (t, status) else RegisterAll(t, entries[1..])
  }

  predicate Distinct(table: seq<Endpoint>) {
    forall i, j :: 0 <= i < j < |table| ==> table[i].name != table[j].name
  }

  lemma {:induction false} RegistersAll(table: seq<Endpoint>, entries: seq<Endpoint>)
    requires Fits(table + entries)
    ensures RegisterAll(table, entries) == (table + entries, Ok(()))
    decreases |entries|
  {
    if entries == [] {
      assert table + entries == table;
    } else {
      var e := entries[0];
      assert (table + entries)[|table|] == e;
      assert forall k :: 0 <= k < |table| ==> (table + entries)[k] == table[k];
      assert (table + [e]) + entries[1..] == table + entries;
      assert Endpoint(e.name, e.kind) == e;
      RegistersAll(table + [e], entries[1..]);
    }
  }

  /** What every sequence of creates keeps. */
  ghost predicate Sound(r: Registry, capacity: nat) {
    && |r.created| <= capacity
    && (forall i, j :: 0 <= i < j < |r.created| ==> r.created[i] != r.created[j])
    && (forall i :: 0 <= i < |r.created| ==>
          0 < |r.created[i]| < EP_NAME_MAX && !IsBuiltin(r.created[i]))
  }

  lemma {:induction false} CreatesKeepSound(r: Registry, capacity: nat, names: seq<Option<string>>)
    requires Sound(r, capacity)
    ensures Sound(CreateAll(r, capacity, names), capacity)
    decreases |names|
  {
    if names != [] {
      CreatesKeepSound(Create(r, capacity, names[0]).0, capacity, names[1..]);
    }
  }

  /** The names that may be created at all, in the order of the calls. */
  function Wanted(names: seq<Option<string>>): seq<string> {
    if names == [] then []
    else
      (if names[0].Some? && 1 <= |names[0].value| <= 15 && !IsBuiltin(names[0].value) then [names[0].value] else []) +
      Wanted(names[1..])
  }

  /** The first occurrences of names not seen before. */
  function FirstOf(seen: seq<string>, names: seq<string>): seq<string>
    decreases |names|
  {
    if names == [] then []
    else if names[0] in seen then FirstOf(seen, names[1..])
    else [names[0]] + FirstOf(seen + [names[0]], names[1..])
  }

  function Take(names: seq<string>, n: int): seq<string> {
    if n <= 0 then [] else if |names| <= n then names else names[..n]
  }

  /** A call is answered with success exactly when it adds its name. */
  lemma CreateAnswers(r: Registry, capacity: nat, name: Option<string>)
    ensures
      var (r', status) := Create(r, capacity, name);
      && (status == Ok(()) <==> r' != r)
      && (status == Ok(()) ==> name.Some? && r' == r.(created := r.created + [name.value]))
  {
    if name.Some? {
      assert |r.created + [name.value]| > |r.created|;
    }
  }

  /** Which names are created: of the names that may be, each first occurrence, in the order of the
      calls, until the slots are used up. */
  lemma {:induction false} CreatedExactly(r: Registry, capacity: nat, names: seq<Option<string>>)
    requires r.inited && !r.started && |r.created| <= capacity
    ensures CreateAll(r, capacity, names).created
            == r.created + Take(FirstOf(r.created, Wanted(names)), capacity - |r.created|)
    decreases |names|
  {
    if names != [] {
      var next := Create(r, capacity, names[0]).0;
      CreatedExactly(next, capacity, names[1..]);
      var rest := Wanted(names[1..]);
      if names[0].Some? && 1 <= |names[0].value| <= 15 && !IsBuiltin(names[0].value) {
        assert Wanted(names) == [names[0].value] + rest;
        assert Wanted(names)[1..] == rest;
        if names[0].value !in r.created && |r.created| < capacity {
          TakeOne(names[0].value, FirstOf(next.created, rest), capacity - |r.created|);
          Assoc(r.created, [names[0].value], Take(FirstOf(next.created, rest), capacity - |r.created| - 1));
        }
      } else {
        assert Wanted(names) == rest;
      }
    }
  }

  lemma TakeOne(name: string, names: seq<string>, n: int)
    requires n > 0
    ensures Take([name] + names, n) == [name] + Take(names, n - 1)
  {}

  lemma Assoc(a: seq<string>, b: seq<string>, c: seq<string>)
    ensures (a + b) + c == a + (b + c)
  {}

  lemma SoundFits(r: Registry, capacity: nat)
    requires Sound(r, capacity) && capacity <= MAX_CUSTOM
    ensures Fits(BUILTINS + CustomEntries(r.created))
  {
    var table := BUILTINS + CustomEntries(r.created);
    forall i, j | 0 <= i < j < |table| ensures table[i].name != table[j].name {
      if j >= 5 {
        assert table[j].name == r.created[j - 5];
        if i >= 5 {
          assert table[i].name == r.created[i - 5];
        } else {
          assert IsBuiltin(table[i].name);
        }
      }
    }
    forall i | 0 <= i < |table| ensures |table[i].name| < EP_NAME_MAX {
      if i >= 5 {
        assert table[i].name == r.created[i - 5];
      }
    }
  }

  lemma FindsOwn(table: seq<Endpoint>, i: nat)
    requires Distinct(table) && i < |table|
    ensures Find(table, table[i].name) == Some(i)
  {
    var k := Find(table, table[i].name);
    assert k.Some?;
  }

  /** After init and any sequence of creates, within at most three slots, registration at start
      never fails: the table is the five built-ins followed by the created names in order, all
      distinct, and looking up each name finds its own entry. */
  lemma StartRegisters(capacity: nat, names: seq<Option<string>>, i: nat)
    requires capacity <= MAX_CUSTOM
    ensures
      var created := CreateAll(Registry(true, false, []), capacity, names).created;
      var table := BUILTINS + CustomEntries(created);
      && RegisterAll([], table) == (table, Ok(()))
      && Distinct(table)
      && (i < |table| ==> Find(table, table[i].name) == Some(i))
  {
    var r := CreateAll(Registry(true, false, []), capacity, names);
    CreatesKeepSound(Registry(true, false, []), capacity, names);
    SoundFits(r, capacity);
    var table := BUILTINS + CustomEntries(r.created);
    assert [] + table == table;
    RegistersAll([], table);
    if i < |table| {
      FindsOwn(table, i);
    }
  }

  datatype Slot = Slot(name: string, created: bool)

  function SlotNames(slots: seq<Slot>): seq<string> {
    seq(|slots|, i requires 0 <= i < |slots| => slots[i].name)
  }

  /** The manager's custom slots. */
  class CustomTable {
    const slots: array<Slot>
    var inited: bool
    var started: bool
    ghost var used: nat

    /** The created slots come first, and hold names that start can register. */
    ghost predicate Valid()
      reads this, slots
    {
      && used <= slots.Length
      && (forall i :: 0 <= i < used ==> slots[i].created)
      && (forall i :: used <= i < slots.Length ==> !slots[i].created)
      && Sound(Registry(inited, started, SlotNames(slots[..used])), slots.Length)
    }

    ghost function Names(): seq<string>
      requires Valid()
      reads this, slots
    {
      SlotNames(slots[..used])
    }

    ghost function State(): Registry
      requires Valid()
      reads this, slots
    {
      Registry(inited, started, Names())
    }

    constructor (capacity: nat)
      ensures Valid() && fresh(slots) && slots.Length == capacity
      ensures State() == Registry(false, false, [])
    {
      slots := new Slot[capacity](_ => Slot("", false));
      inited, started := false, false;
      used := 0;
    }

    /** The part of init that forgets the previous cycle's endpoints. */
    method ResetForInit()
      modifies this, slots
      ensures Valid() && State() == Registry(true, false, [])
    {
      forall i | 0 <= i < slots.Length {
        slots[i] := Slot("", false);
      }
      used := 0;
      inited, started := true, false;
    }

    method FindCustom(name: string) returns (r: Option<nat>)
      requires Valid()
      ensures r.Some? <==> name in Names()
      ensures r.Some? ==> r.value < used && Names()[r.value] == name
    {
      var i := 0;
      while i < slots.Length
        invariant 0 <= i <= slots.Length
        invariant forall k :: 0 <= k < i && k < used ==> slots[k].name != name
      {
        if slots[i].created && slots[i].name == name {
          assert Names()[i] == name;
          return Some(i);
        }
        i := i + 1;
      }
      r := None;
      assert forall k :: 0 <= k < |Names()| ==> Names()[k] != name;
    }

    method EndpointCreate(name: Option<string>) returns (r: Status)
      requires Valid()
      modifies this`used, slots
      ensures Valid()
      ensures (State(), r) == Create(old(State()), slots.Length, name)
    {
      if name.None? || name.value == "" || |name.value| >= EP_NAME_MAX {
        return Err(EINVAL);
      }
      if !inited {
        return Err(EPERM);
      }
      if started {
        return Err(EPERM);
      }
      var there := FindCustom(name.value);
      if IsBuiltin(name.value) || there.Some? {
        return Err(EALREADY);
      }
      var i := 0;
      while i < slots.Length
        invariant 0 <= i <= used <= slots.Length
        invariant Valid() && slots[..] == old(slots[..])
      {
        if !slots[i].created {
          assert i == used;
          slots[i] := Slot(name.value, true);
          used := used + 1;
          assert SlotNames(slots[..used]) == old(Names()) + [name.value];
          return Ok(());
        }
        i := i + 1;
      }
      r := Err(ENOSPC);
      assert Names() == old(Names());
    }

    /** The registration part of start_provisioning on a new protocomm instance. */
    method RegisterEndpoints(pc: ProtocommInstance) returns (r: Status)
      requires Valid() && pc.Valid() && pc.endpoints != slots as object
      requires pc.State().table == [] && slots.Length <= MAX_CUSTOM
      modifies pc`nEndpoints, pc.endpoints
      ensures pc.Valid() && Valid()
      ensures r == Ok(())
      ensures pc.State().table == BUILTINS + CustomEntries(Names())
    {
      ghost var created := Names();
      SoundFits(State(), slots.Length);
      r := RegisterBuiltins(pc, created);
      var i := 0;
      while i < slots.Length
        invariant 0 <= i <= slots.Length
        invariant pc.Valid() && Valid() && Names() == created && r == Ok(())
        invariant pc.State().table == Registered(created, if i < used then i else used)
      {
        if slots[i].created {
          assert created[i] == slots[i].name;
          r := RegisterCustom(pc, created, i, slots[i].name);
        }
        i := i + 1;
      }
    }
  }

  /** The table once the built-ins and the first n created names are in. */
  function Registered(created: seq<string>, n: nat): seq<Endpoint>
    requires n <= |created|
  {
    (BUILTINS + CustomEntries(created))[..5 + n]
  }

  method RegisterCustom(pc: ProtocommInstance, ghost created: seq<string>, ghost n: nat, name: string) returns (r: Status)
    requires pc.Valid() && n < |created| && name == created[n]
    requires Fits(BUILTINS + CustomEntries(created)) && pc.State().table == Registered(created, n)
    modifies pc`nEndpoints, pc.endpoints
    ensures pc.Valid() && r == Ok(()) && pc.State().table == Registered(created, n + 1)
  {
    NextFits(BUILTINS + CustomEntries(created), 5 + n);
    r := pc.AddEp(name, Data);
  }

  /** The five built-in endpoints, ahead of whatever names were created. */
  method RegisterBuiltins(pc: ProtocommInstance, ghost created: seq<string>) returns (r: Status)
    requires pc.Valid() && pc.State().table == [] && Fits(BUILTINS + CustomEntries(created))
    modifies pc`nEndpoints, pc.endpoints
    ensures pc.Valid() && r == Ok(()) && pc.State().table == Registered(created, 0)
  {
    var builtins := BUILTINS;
    var i := 0;
    r := Ok(());
    while i < 5
      invariant 0 <= i <= 5
      invariant pc.Valid() && pc.State().table == (BUILTINS + CustomEntries(created))[..i] && r == Ok(())
    {
      NextFits(BUILTINS + CustomEntries(created), i);
      r := pc.AddEp(builtins[i].name, builtins[i].kind);
      i := i + 1;
    }
  }

  /** The next entry of a table that fits is accepted. */
  lemma NextFits(all: seq<Endpoint>, i: nat)
    requires Fits(all) && i < |all|
    ensures Add(all[..i], all[i].name, all[i].kind) == (all[..i + 1], Ok(()))
  {
    assert forall k :: 0 <= k < i ==> all[..i][k] == all[k];
    assert all[..i] + [all[i]] == all[..i + 1];
  }
}
