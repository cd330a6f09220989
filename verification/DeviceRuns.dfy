/** Whole runs of a device: session opens and closes, handshake and data messages in any
    order. What the run's record says about the keystream and about who was served. */
module DeviceRuns {
  import opened Common
  import opened Keystream
  import opened Security1
  import opened Protocomm

  datatype Op = OpenSession(key: Option<Bytes>) | CloseSession | Serve(rq: Request)

  /** What an observer of the device records. A transform carries the keystream position at
      which it starts. */
  datatype Record =
    | Opened
    | Closed
    | Agreed
    | Verified(at: nat, done: bool)
    | HandlerSaw(at: nat, plain: Bytes)
    | ResponseLeft(at: nat, body: Bytes)
  {
    predicate IsTransform() {
      Verified? || HandlerSaw? || ResponseLeft?
    }

    /** Keystream bytes used: 32 for a Command1, 32 more if it is accepted, and every byte
        decrypted or encrypted. */
    function Used(): nat {
      match this
      case Verified(_, done) => if done then 64 else 32
      case HandlerSaw(_, plain) => |plain|
      case ResponseLeft(_, body) => |body|
      case _ => 0
    }
  }

  /** The record one handshake message leaves: a key agreement when Command0 is accepted, a
      verification when Command1 is checked against the keystream. */
  function HandshakeRecords(su: Suite, s: Sec1, rq: Request): seq<Record> {
    match rq.msg
    case Command0(pubkey) =>
      if |pubkey| == PUBKEY_LEN && rq.psa.random.Some?
         && Derive(su, s.(clientPub := pubkey, iv := rq.psa.random.value), rq.psa).1.Ok? then [Agreed]
      else []
    case Command1(verify) =>
      if s.phase == Cmd0Done && |verify| == PUBKEY_LEN && s.cipher.Some? && rq.psa.verify then
        [Verified(s.cipher.value.pos,
                  Xform(su, s.cipher.value, verify) == s.pub && rq.psa.answer)]
      else []
    case _ => []
  }

  /** The record a data request leaves: a non-empty plaintext given to the handler, then a
      non-empty response. */
  function DataRecords(s: Sec1, a: Answer): seq<Record> {
    var at := if s.cipher.Some? then s.cipher.value.pos else 0;
    var saw := if a.seen.Some? then a.seen.value else [];
    (if saw != [] then [HandlerSaw(at, saw)] else []) +
    (if a.response.Ok? && a.response.value.Raw? && a.response.value.body != []
     then [ResponseLeft(at + |saw|, a.response.value.body)] else [])
  }

  /** The records one request leaves. */
  function ServeRecords(su: Suite, d: Device, rq: Request): seq<Record> {
    var ep := Find(d.table, rq.name);
    if ep.None? || d.ctx.None? then []
    else match d.table[ep.value].kind
      case Version => []
      case Security => HandshakeRecords(su, d.ctx.value, rq)
      case Data => DataRecords(d.ctx.value, Dispatch(su, d, rq).1)
  }

  datatype Run = Run(device: Device, log: seq<Record>)

  function Step(su: Suite, r: Run, op: Op): Run {
    match op
    case OpenSession(key) => Run(Open(su, r.device, key), r.log + [Opened])
    case CloseSession => Run(r.device.(ctx := None), r.log + [Closed])
    case Serve(rq) =>
      Run(Dispatch(su, r.device, rq).0, r.log + ServeRecords(su, r.device, rq))
  }

  function Execute(su: Suite, r: Run, ops: seq<Op>): Run
    decreases |ops|
  {
    if ops == [] then r else Execute(su, Step(su, r, ops[0]), ops[1..])
  }

  /** Keystream bytes accounted for since the last key agreement. */
  function Tally(log: seq<Record>): nat {
    if log == [] then 0
    else
      var last := log[|log| - 1];
      if last.Agreed? then 0 else Tally(log[..|log| - 1]) + last.Used()
  }

  /** The last accepted Command0 of the current context was followed by a Command1 that
      decrypted to the device's public key and was answered. */
  function Authenticated(log: seq<Record>): bool {
    if log == [] then false
    else match log[|log| - 1]
      case Opened => false
      case Closed => false
      case Agreed => false
      case Verified(_, done) => done || Authenticated(log[..|log| - 1])
      case _ => Authenticated(log[..|log| - 1])
  }

  /** Every transform starts exactly where the keystream accounting stands, and data moves only
      once the session is authenticated. */
  ghost predicate Sound(log: seq<Record>) {
    log != [] ==>
      var before, last := log[..|log| - 1], log[|log| - 1];
      && Sound(before)
      && (last.IsTransform() ==> last.at == Tally(before))
      && (last.HandlerSaw? || last.ResponseLeft? ==> Authenticated(before))
  }

  /** What the log says about the open context. */
  ghost predicate Tracks(s: Sec1, log: seq<Record>) {
    && WellFormed(s)
    && (s.phase == Done ==> Authenticated(log))
    && (s.cipher.Some? ==> s.cipher.value.pos == Tally(log))
  }

  /** The invariant of every run. */
  ghost predicate Inv(r: Run) {
    && Sound(r.log)
    && (r.device.ctx.Some? ==> Tracks(r.device.ctx.value, r.log))
  }

  /** One more entry. */
  lemma Append(log: seq<Record>, x: Record)
    ensures Tally(log + [x]) == if x.Agreed? then 0 else Tally(log) + x.Used()
    ensures Authenticated(log + [x]) ==
              (if x.Opened? || x.Closed? || x.Agreed? then false
               else (x.Verified? && x.done) || Authenticated(log))
    ensures Sound(log + [x]) <==>
              && Sound(log)
              && (x.IsTransform() ==> x.at == Tally(log))
              && (x.HandlerSaw? || x.ResponseLeft? ==> Authenticated(log))
  {
    assert (log + [x])[..|log|] == log;
  }

  /** How a handshake message moves the context, by the record it leaves. */
  lemma HandshakeEffect(su: Suite, s: Sec1, rq: Request)
    requires WellFormed(s)
    ensures
      var s' := Handshake(su, s, rq.msg, rq.psa).0;
      var records := HandshakeRecords(su, s, rq);
      && WellFormed(s')
      && (records == [] ==> s'.phase == s.phase && (s'.cipher == s.cipher || s'.cipher.None?))
      && (records != [] ==>
            && records == [records[0]] && s'.cipher.Some?
            && (records[0].Agreed? || records[0].Verified?)
            && (records[0].Agreed? ==> s'.phase == Cmd0Done && s'.cipher.value.pos == 0)
            && (records[0].Verified? ==>
                  && s.cipher.Some? && records[0].at == s.cipher.value.pos
                  && s'.cipher.value.pos == s.cipher.value.pos + records[0].Used()
                  && (s'.phase == Done ==> records[0].done)))
  {}

  lemma HandshakeStep(su: Suite, s: Sec1, log: seq<Record>, rq: Request)
    requires Sound(log) && Tracks(s, log)
    ensures
      var log' := log + HandshakeRecords(su, s, rq);
      Sound(log') && Tracks(Handshake(su, s, rq.msg, rq.psa).0, log')
  {
    var records := HandshakeRecords(su, s, rq);
    HandshakeEffect(su, s, rq);
    if records == [] {
      assert log + records == log;
    } else {
      assert log + records == log + [records[0]];
      Append(log, records[0]);
    }
  }

  /** From s to s' only the keystream moved, by n bytes, and only on a finished handshake. */
  predicate Moved(s: Sec1, s': Sec1, n: nat) {
    if n == 0 then s' == s
    else s.phase == Done && s.cipher.Some? && s' == s.(cipher := Some(s.cipher.value.Advance(n)))
  }

  function Plain(seen: Option<Bytes>): Bytes {
    if seen.Some? then seen.value else []
  }

  function Body(r: Result<Bytes>): Bytes {
    if r.Ok? then r.value else []
  }

  /** A data request moves the keystream by what the handler saw and what is sent back. */
  lemma DataEffect(su: Suite, s: Sec1, rq: Request)
    ensures
      var o := HandleData(su, s, rq.body, rq.faults, rq.reply);
      Moved(s, o.ctx, |Plain(o.seen)| + |Body(o.response)|)
  {}

  /** The record of a transform, if any bytes move. */
  function Part(x: Record): seq<Record> {
    if x.Used() > 0 then [x] else []
  }

  /** One transform of an authenticated context at its current position. */
  lemma DataAppend(log: seq<Record>, x: Record)
    requires Sound(log) && (x.HandlerSaw? || x.ResponseLeft?)
    requires x.Used() > 0 ==> Authenticated(log) && x.at == Tally(log)
    ensures Sound(log + Part(x))
    ensures Tally(log + Part(x)) == Tally(log) + x.Used()
    ensures Authenticated(log + Part(x)) == Authenticated(log)
  {
    if x.Used() == 0 {
      assert log + Part(x) == log;
    } else {
      Append(log, x);
    }
  }

  /** What the handler saw, then what left. */
  lemma DataParts(s: Sec1, log: seq<Record>, a: Answer, at: nat)
    requires a.response.Ok? ==> a.response.value.Raw?
    requires s.cipher.Some? ==> at == s.cipher.value.pos
    requires s.cipher.None? ==> at == 0
    ensures
      var saw := HandlerSaw(at, Plain(a.seen));
      var left := ResponseLeft(at + |Plain(a.seen)|, if a.response.Ok? then a.response.value.body else []);
      log + DataRecords(s, a) == log + Part(saw) + Part(left)
  {}

  lemma MovedTracks(s: Sec1, s': Sec1, n: nat, log: seq<Record>, log': seq<Record>)
    requires Tracks(s, log) && Moved(s, s', n)
    requires Tally(log') == Tally(log) + n && Authenticated(log') == Authenticated(log)
    ensures Tracks(s', log')
  {}

  /** What a handler saw, then a response, of a context that moved by both. */
  lemma DataMoves(s: Sec1, s': Sec1, log: seq<Record>, x: Record, y: Record)
    requires Sound(log) && Tracks(s, log)
    requires x.HandlerSaw? && y.ResponseLeft? && Moved(s, s', x.Used() + y.Used())
    requires s.cipher.Some? ==> x.at == s.cipher.value.pos
    requires y.at == x.at + x.Used()
    ensures Sound(log + Part(x) + Part(y)) && Tracks(s', log + Part(x) + Part(y))
  {
    DataAppend(log, x);
    DataAppend(log + Part(x), y);
    MovedTracks(s, s', x.Used() + y.Used(), log, log + Part(x) + Part(y));
  }

  lemma DataStep(s: Sec1, s': Sec1, log: seq<Record>, a: Answer, saw: Bytes, out: Bytes)
    requires Sound(log) && Tracks(s, log)
    requires Moved(s, s', |saw| + |out|)
    requires saw == Plain(a.seen) && (a.response.Ok? ==> a.response.value.Raw?)
    requires out == if a.response.Ok? then a.response.value.body else []
    ensures Sound(log + DataRecords(s, a)) && Tracks(s', log + DataRecords(s, a))
  {
    var at := if s.cipher.Some? then s.cipher.value.pos else 0;
    DataParts(s, log, a, at);
    DataMoves(s, s', log, HandlerSaw(at, saw), ResponseLeft(at + |saw|, out));
  }

  lemma StepKeepsInv(su: Suite, r: Run, op: Op)
    requires Inv(r)
    ensures Inv(Step(su, r, op))
  {
    match op
    case OpenSession(_) => Append(r.log, Opened);
    case CloseSession => Append(r.log, Closed);
    case Serve(rq) =>
      var ep := Find(r.device.table, rq.name);
      if ep.Some? && r.device.ctx.Some? && r.device.table[ep.value].kind == Security {
        HandshakeStep(su, r.device.ctx.value, r.log, rq);
      } else if ep.Some? && r.device.ctx.Some? && r.device.table[ep.value].kind == Data {
        var s := r.device.ctx.value;
        var o := HandleData(su, s, rq.body, rq.faults, rq.reply);
        DataEffect(su, s, rq);
        DataStep(s, o.ctx, r.log, Dispatch(su, r.device, rq).1, Plain(o.seen), Body(o.response));
      } else {
        assert r.log + [] == r.log;
      }
  }

  lemma {:induction false} ExecuteKeepsInv(su: Suite, r: Run, ops: seq<Op>)
    requires Inv(r)
    ensures Inv(Execute(su, r, ops))
    decreases |ops|
  {
    if ops != [] {
      StepKeepsInv(su, r, ops[0]);
      ExecuteKeepsInv(su, Step(su, r, ops[0]), ops[1..]);
    }
  }

  lemma {:induction false} SoundPrefix(log: seq<Record>, n: nat)
    requires Sound(log) && n <= |log|
    ensures Sound(log[..n])
  {
    if n < |log| {
      SoundPrefix(log[..|log| - 1], n);
      assert log[..|log| - 1][..n] == log[..n];
    } else {
      assert log[..n] == log;
    }
  }

  /** The last entry of a sound prefix, spelled out. */
  lemma SoundAt(log: seq<Record>, i: nat)
    requires Sound(log) && i < |log|
    ensures log[i].IsTransform() ==> log[i].at == Tally(log[..i])
    ensures log[i].HandlerSaw? || log[i].ResponseLeft? ==> Authenticated(log[..i])
  {
    SoundPrefix(log, i + 1);
    assert log[..i + 1][..i] == log[..i];
  }

  lemma {:induction false} TallyGrows(log: seq<Record>, i: nat, j: nat)
    requires i < j <= |log| && !log[i].Agreed?
    requires forall k :: i < k < j ==> !log[k].Agreed?
    ensures Tally(log[..i]) + log[i].Used() <= Tally(log[..j])
  {
    assert log[..j][..j - 1] == log[..j - 1];
    if i + 1 < j {
      TallyGrows(log, i, j - 1);
    }
  }

  function Start(table: seq<Endpoint>, pop: Bytes, version: Bytes): Run {
    Run(Device(table, pop, version, None), [])
  }

  lemma {:induction false} ExecuteKeepsVersion(su: Suite, r: Run, ops: seq<Op>)
    ensures
      var d := Execute(su, r, ops).device;
      d.table == r.device.table && d.version == r.device.version && d.pop == r.device.pop
    decreases |ops|
  {
    if ops != [] {
      StepKeepsVersion(su, r, ops[0]);
      ExecuteKeepsVersion(su, Step(su, r, ops[0]), ops[1..]);
    }
  }

  lemma StepKeepsVersion(su: Suite, r: Run, op: Op)
    ensures
      var d := Step(su, r, op).device;
      d.table == r.device.table && d.version == r.device.version && d.pop == r.device.pop
  {}

  /** After any run, the version endpoint answers exactly the version text the service was started
      with, whatever session is open and whatever the proof of possession, and changes nothing. */
  lemma VersionAnswered(su: Suite, table: seq<Endpoint>, pop: Bytes, version: Bytes, ops: seq<Op>, rq: Request)
    requires Names(Device(table, pop, version, None), rq.name, Version) && rq.faults.respAlloc
    ensures
      var d := Execute(su, Start(table, pop, version), ops).device;
      Dispatch(su, d, rq) == (d, Answer(Ok(Raw(version)), None))
  {
    ExecuteKeepsVersion(su, Start(table, pop, version), ops);
    VersionAnswer(su, Execute(su, Start(table, pop, version), ops).device, rq);
  }

  /** Data gate: in every run from a started service, no handler is given a non-empty plaintext
      and no non-empty data response leaves unless the current context's last accepted Command0
      was followed by a verified Command1. */
  lemma DataGate(su: Suite, table: seq<Endpoint>, pop: Bytes, version: Bytes, ops: seq<Op>, i: nat)
    requires
      var log := Execute(su, Start(table, pop, version), ops).log;
      i < |log| && (log[i].HandlerSaw? || log[i].ResponseLeft?)
    ensures Authenticated(Execute(su, Start(table, pop, version), ops).log[..i])
  {
    ExecuteKeepsInv(su, Start(table, pop, version), ops);
    SoundAt(Execute(su, Start(table, pop, version), ops).log, i);
  }

  /** Keystream conservation: the armed cipher stands exactly where the record since the last
      accepted Command0 puts it. */
  lemma KeystreamConserved(su: Suite, table: seq<Endpoint>, pop: Bytes, version: Bytes, ops: seq<Op>)
    ensures
      var r := Execute(su, Start(table, pop, version), ops);
      r.device.ctx.Some? && r.device.ctx.value.cipher.Some? ==>
        r.device.ctx.value.cipher.value.pos == Tally(r.log)
  {
    ExecuteKeepsInv(su, Start(table, pop, version), ops);
  }

  /** No keystream position is used twice: two transforms with no key agreement between them
      use disjoint spans, in order, each starting where the accounting stands. */
  lemma NoKeystreamReuse(su: Suite, table: seq<Endpoint>, pop: Bytes, version: Bytes, ops: seq<Op>,
                         i: nat, j: nat)
    requires
      var log := Execute(su, Start(table, pop, version), ops).log;
      && i < j < |log| && log[i].IsTransform() && log[j].IsTransform()
      && (forall k :: i < k < j ==> !log[k].Agreed?)
    ensures
      var log := Execute(su, Start(table, pop, version), ops).log;
      && log[i].at == Tally(log[..i])
      && log[i].at + log[i].Used() <= log[j].at
  {
    ExecuteKeepsInv(su, Start(table, pop, version), ops);
    var log := Execute(su, Start(table, pop, version), ops).log;
    SoundAt(log, i);
    SoundAt(log, j);
    TallyGrows(log, i, j);
  }
}
