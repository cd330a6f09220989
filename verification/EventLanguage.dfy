/** The event traces an application can see over any number of lifecycles. */
module EventLanguage {
  import opened Common
  import opened Manager
  import WifiConfig
  import WifiRuns
  import WifiRefinement

  /** A full word of (INIT (START (RECV (SUCCESS | FAIL)?)* END)* DEINIT)*, as its parse: cycles of
      services of attempts. */
  datatype Attempt = Unanswered | Succeeded | FailedOnce

  type Service = seq<Attempt>

  type Cycle = seq<Service>

  function RenderAttempt(a: Attempt): seq<Event> {
    match a
    case Unanswered => [RECV]
    case Succeeded => [RECV, SUCCESS]
    case FailedOnce => [RECV, FAIL]
  }

  function RenderAttempts(s: Service): seq<Event> {
    if s == [] then [] else RenderAttempts(s[..|s| - 1]) + RenderAttempt(s[|s| - 1])
  }

  function RenderServices(c: Cycle): seq<Event> {
    if c == [] then []
    else RenderServices(c[..|c| - 1]) + ([START] + RenderAttempts(c[|c| - 1]) + [END])
  }

  function Render(word: seq<Cycle>): seq<Event> {
    if word == [] then []
    else Render(word[..|word| - 1]) + ([INIT] + RenderServices(word[|word| - 1]) + [DEINIT])
  }

  /** Where a trace stands in the language. */
  datatype Mode = Down | Up | Serving | Trying

  function Delta(m: Mode, e: Event): Option<Mode> {
    match (m, e)
    case (Down, INIT) => Some(Up)
    case (Up, START) => Some(Serving)
    case (Up, DEINIT) => Some(Down)
    case (Serving, RECV) => Some(Trying)
    case (Serving, END) => Some(Up)
    case (Trying, RECV) => Some(Trying)
    case (Trying, SUCCESS) => Some(Serving)
    case (Trying, FAIL) => Some(Serving)
    case (Trying, END) => Some(Up)
    case _ => None
  }

  /** Reads a trace from the left; None once it leaves the language. */
  function Reads(events: seq<Event>): Option<Mode> {
    if events == [] then Some(Down)
    else
      var before := Reads(events[..|events| - 1]);
      if before.None? then None else Delta(before.value, events[|events| - 1])
  }

  lemma ReadsOne(events: seq<Event>, e: Event)
    ensures Reads(events + [e]) == if Reads(events).None? then None else Delta(Reads(events).value, e)
  {
    assert (events + [e])[..|events|] == events;
  }

  // Every run of the manager stays in the language.

  /** The invariant of every run: the trace is in the language at the mode the flags say, the
      handler is live exactly while the service runs, an attempt is in flight only in mode Trying,
      and a scheduled teardown implies a running service. */
  ghost predicate Inv(m: Mgr) {
    && WifiRuns.Inv(m.wifi)
    && (m.started ==> m.inited)
    && (m.wifi.registered <==> m.started)
    && (m.teardown ==> m.started)
    && Reads(m.events).Some?
    && var mode := Reads(m.events).value;
       && (!m.inited <==> mode == Down)
       && (m.inited && !m.started <==> mode == Up)
       && (WifiRuns.Inflight(m.wifi) ==> mode == Trying)
  }

  /** The lists of outputs one step of the handler can add. */
  predicate OneStepOutput(out: seq<WifiConfig.Out>) {
    || out == []
    || (|out| == 1 && (out[0].Connect? || out[0].Success? || out[0].Failure?))
    || (|out| == 2 && out[0].Recv? && out[1].Connect?)
    || (|out| == 2 && out[0].Connect? && out[1].Failure?)
    || (|out| == 3 && out[0].Recv? && out[1].Connect? && out[2].Failure?)
  }

  /** The outputs one reaction of the abstract machine can have. */
  lemma ReactOutput(m: WifiRefinement.Machine, e: WifiRefinement.Event)
    ensures
      var (m', out) := WifiRefinement.React(m, e);
      && OneStepOutput(out)
      && (out != [] && !out[0].Recv? ==> m.job.Trying?)
      && (out != [] && (out[|out| - 1].Success? || out[|out| - 1].Failure?) ==> !m'.job.Trying?)
      && (out == [] && m'.job.Trying? ==> m.job.Trying?)
  {}

  lemma StepOutput(w: WifiConfig.Wifi, s: WifiRuns.Step)
    requires WifiRuns.Inv(w)
    ensures
      var w' := WifiRuns.Next(w, s);
      var out := Newly(w'.out, |w.out|);
      && w'.out == w.out + out && OneStepOutput(out)
      && (out != [] && !out[0].Recv? ==> WifiRuns.Inflight(w))
      && (out != [] && (out[|out| - 1].Success? || out[|out| - 1].Failure?) ==> !WifiRuns.Inflight(w'))
      && (out == [] && WifiRuns.Inflight(w') ==> WifiRuns.Inflight(w))
  {
    WifiRefinement.StepSimulates(w, s);
    WifiRuns.NextKeepsInv(w, s);
    ReactOutput(WifiRefinement.Abstract(w), WifiRefinement.EventOf(w, s));
    var w' := WifiRuns.Next(w, s);
    var added := WifiRefinement.React(WifiRefinement.Abstract(w), WifiRefinement.EventOf(w, s)).1;
    assert w'.out[|w.out|..] == added;
    InflightIsTrying(w);
    InflightIsTrying(w');
  }

  lemma InflightIsTrying(w: WifiConfig.Wifi)
    requires WifiRuns.Inv(w)
    ensures WifiRuns.Inflight(w) <==> WifiRefinement.Abstract(w).job.Trying?
  {}

  /** Delivery reads on in the language. */
  lemma {:induction false} DeliverReads(m: Mgr, out: seq<WifiConfig.Out>)
    requires OneStepOutput(out) && m.inited && m.started && Reads(m.events).Some?
    requires Reads(m.events).value == Serving || Reads(m.events).value == Trying
    requires out != [] && !out[0].Recv? ==> Reads(m.events).value == Trying
    ensures
      var d := Deliver(m, out);
      && d == m.(events := d.events, teardown := d.teardown)
      && Reads(d.events).Some?
      && Reads(d.events).value ==
           (if out == [] then Reads(m.events).value
            else if out[|out| - 1].Success? || out[|out| - 1].Failure? then Serving
            else Trying)
    decreases |out|
  {
    if |out| == 1 {
      assert out == [out[0]];
      DeliverOne(m, out[0]);
    } else if |out| > 1 {
      Unroll(m, out);
      DeliverOne(m, out[0]);
      DeliverReads(Deliver(m, [out[0]]), out[1..]);
    }
  }

  lemma DeliverOne(m: Mgr, x: WifiConfig.Out)
    requires m.inited && m.started && Reads(m.events).Some?
    requires Reads(m.events).value == Serving || Reads(m.events).value == Trying
    requires !x.Recv? ==> Reads(m.events).value == Trying
    ensures
      var d := Deliver(m, [x]);
      && d == m.(events := d.events, teardown := d.teardown)
      && Reads(d.events) == Some(if x.Success? || x.Failure? then Serving else Trying)
  {
    assert [x][1..] == [];
    match x
    case Connect(_) =>
    case Recv(_) => ReadsOne(m.events, RECV);
    case Success => ReadsOne(m.events, SUCCESS);
    case Failure(_) => ReadsOne(m.events, FAIL);
  }

  /** Delivery of two or more outputs, one at a time. */
  lemma Unroll(m: Mgr, out: seq<WifiConfig.Out>)
    requires |out| >= 2
    ensures Deliver(m, out) == Deliver(Deliver(m, [out[0]]), out[1..])
    ensures Deliver(m, [out[0]]) == match out[0] {
              case Connect(_) => m
              case Recv(_) => EmitEvent(m, RECV)
              case Success => EmitEvent(m, SUCCESS)
              case Failure(_) => EmitEvent(m, FAIL)
            }
  {
    assert [out[0]][1..] == [];
  }

  lemma AdoptKeepsInv(m: Mgr, s: WifiRuns.Step)
    requires Inv(m) && m.started
    requires FromOutside(s) || s.Configure?
    ensures Inv(Adopt(m, WifiRuns.Next(m.wifi, s)))
  {
    var w' := WifiRuns.Next(m.wifi, s);
    StepOutput(m.wifi, s);
    WifiRuns.NextKeepsInv(m.wifi, s);
    SameService(m.wifi, s);
    DeliverReads(m.(wifi := w'), Newly(w'.out, |m.wifi.out|));
  }

  lemma SameService(w: WifiConfig.Wifi, s: WifiRuns.Step)
    requires FromOutside(s) || s.Configure?
    ensures WifiRuns.Next(w, s).registered == w.registered
  {}

  /** Outside a service the handler's callbacks do nothing. */
  lemma IdleStep(w: WifiConfig.Wifi, s: WifiRuns.Step)
    requires WifiRuns.Inv(w) && !w.registered && FromOutside(s)
    ensures WifiRuns.Next(w, s) == w
  {}

  lemma TeardownKeepsInv(m: Mgr)
    requires Inv(m.(teardown := false)) && !m.teardown
    ensures Inv(DoTeardown(m)) && !DoTeardown(m).started && DoTeardown(m).inited == m.inited
    ensures !DoTeardown(m).teardown
  {
    WifiRuns.NextKeepsInv(m.wifi, WifiRuns.Stop);
    ReadsOne(m.events, END);
  }

  lemma DeinitKeepsInv(m: Mgr)
    requires Inv(m)
    ensures Inv(Next(m, Deinit).0)
  {
    if m.inited {
      TeardownKeepsInv(m.(teardown := false));
      ReadsOne(DoTeardown(m.(teardown := false)).events, DEINIT);
    }
  }

  lemma StartKeepsInv(m: Mgr, launch: StartEnv)
    requires Inv(m)
    ensures Inv(Next(m, StartProvisioning(launch)).0)
  {
    if m.inited && !m.started {
      WifiRuns.NextKeepsInv(m.wifi, WifiRuns.Start(m.attempts));
      WifiRuns.NextKeepsInv(WifiConfig.Init(m.wifi, m.attempts), WifiRuns.Stop);
      ReadsOne(m.events, START);
    }
  }

  lemma NextKeepsInv(m: Mgr, c: Call)
    requires Inv(m)
    ensures Inv(Next(m, c).0)
  {
    match c
    case Init(_, _, _) => ReadsOne(m.events, INIT);
    case Deinit => DeinitKeepsInv(m);
    case StartProvisioning(launch) => StartKeepsInv(m, launch);
    case StopProvisioning =>
      if m.started { TeardownKeepsInv(m.(teardown := false)); }
    case TeardownFires =>
      if m.teardown { TeardownKeepsInv(m.(teardown := false)); }
    case Request(step) =>
      if FromOutside(step) {
        if m.started {
          AdoptKeepsInv(m, step);
        } else {
          IdleStep(m.wifi, step);
        }
      }
    case ConfigureSta(ssid, psk, e) =>
      if m.started {
        AdoptKeepsInv(m, WifiRuns.Configure(ssid, psk, e));
      }
    case ResetSm =>
      if m.started { WifiRuns.NextKeepsInv(m.wifi, WifiRuns.DoReset); }
    case _ =>
  }

  lemma {:induction false} ExecuteKeepsInv(m: Mgr, calls: seq<Call>)
    requires Inv(m)
    ensures Inv(Execute(m, calls))
    decreases |calls|
  {
    if calls != [] {
      NextKeepsInv(m, calls[0]);
      ExecuteKeepsInv(Next(m, calls[0]).0, calls[1..]);
    }
  }

  /** A scheduled teardown implies a running service, in every run. */
  lemma TeardownBelongsToService(store: map<Bytes, WifiConfig.Entry>, calls: seq<Call>)
    ensures Execute(PowerUp(store), calls).teardown ==> Execute(PowerUp(store), calls).started
  {
    ExecuteKeepsInv(PowerUp(store), calls);
  }

  // The automaton reads exactly the prefixes of the rendered words.

  /** The parse of a prefix: finished cycles, and what is open. */
  datatype Parse = Parse(word: seq<Cycle>, services: Cycle, attempts: Service, mode: Mode)

  function Text(p: Parse): seq<Event> {
    Render(p.word) +
    (if p.mode == Down then []
     else [INIT] + RenderServices(p.services) +
          (if p.mode == Up then [] else [START] + RenderAttempts(p.attempts)))
  }

  predicate Proper(p: Parse) {
    && (p.mode == Down ==> p.services == [])
    && (p.mode == Down || p.mode == Up ==> p.attempts == [])
    && (p.mode == Trying ==> p.attempts != [] && p.attempts[|p.attempts| - 1] == Unanswered)
  }

  function Shift(p: Parse, e: Event): Parse
    requires Proper(p) && Delta(p.mode, e).Some?
  {
    match e
    case INIT => p.(mode := Up)
    case START => p.(mode := Serving)
    case RECV => p.(attempts := p.attempts + [Unanswered], mode := Trying)
    case SUCCESS => p.(attempts := p.attempts[..|p.attempts| - 1] + [Succeeded], mode := Serving)
    case FAIL => p.(attempts := p.attempts[..|p.attempts| - 1] + [FailedOnce], mode := Serving)
    case END => p.(services := p.services + [p.attempts], attempts := [], mode := Up)
    case DEINIT => p.(word := p.word + [p.services], services := [], mode := Down)
  }

  lemma SnocAttempt(attempts: Service, a: Attempt)
    ensures RenderAttempts(attempts + [a]) == RenderAttempts(attempts) + RenderAttempt(a)
  {
    assert (attempts + [a])[..|attempts|] == attempts;
  }

  lemma SnocService(services: Cycle, s: Service)
    ensures RenderServices(services + [s]) == RenderServices(services) + ([START] + RenderAttempts(s) + [END])
  {
    assert (services + [s])[..|services|] == services;
  }

  lemma SnocCycle(word: seq<Cycle>, c: Cycle)
    ensures Render(word + [c]) == Render(word) + ([INIT] + RenderServices(c) + [DEINIT])
  {
    assert (word + [c])[..|word|] == word;
  }

  lemma TextEnd(p: Parse)
    requires p.mode == Serving || p.mode == Trying
    ensures Text(p.(services := p.services + [p.attempts], attempts := [], mode := Up)) == Text(p) + [END]
  {
    SnocService(p.services, p.attempts);
    RegroupEnd(Render(p.word), [INIT], RenderServices(p.services), [START], RenderAttempts(p.attempts));
  }

  lemma RegroupEnd(w: seq<Event>, i: seq<Event>, done: seq<Event>, st: seq<Event>, a: seq<Event>)
    ensures w + (i + (done + (st + a + [END])) + []) == w + (i + done + (st + a)) + [END]
  {}

  lemma TextDeinit(p: Parse)
    requires p.mode == Up
    ensures Text(p.(word := p.word + [p.services], services := [], mode := Down)) == Text(p) + [DEINIT]
  {
    SnocCycle(p.word, p.services);
  }

  lemma TextStart(p: Parse)
    requires p.mode == Up && p.attempts == []
    ensures Text(p.(mode := Serving)) == Text(p) + [START]
  {}

  lemma TextRecv(p: Parse)
    requires p.mode == Serving || p.mode == Trying
    ensures Text(p.(attempts := p.attempts + [Unanswered], mode := Trying)) == Text(p) + [RECV]
  {
    SnocAttempt(p.attempts, Unanswered);
  }

  /** An outcome turns the last, unanswered attempt into an answered one. */
  lemma TextOutcome(p: Parse, before: Service, a: Attempt, e: Event)
    requires p.mode == Trying && p.attempts == before + [Unanswered]
    requires RenderAttempt(a) == RenderAttempt(Unanswered) + [e]
    ensures Text(p.(attempts := before + [a], mode := Serving)) == Text(p) + [e]
  {
    SnocAttempt(before, Unanswered);
    SnocAttempt(before, a);
  }

  lemma ShiftText(p: Parse, e: Event)
    requires Proper(p) && Delta(p.mode, e).Some?
    ensures Text(Shift(p, e)) == Text(p) + [e]
  {
    match e
    case INIT =>
    case START => TextStart(p);
    case RECV => TextRecv(p);
    case SUCCESS => TextOutcome(p, p.attempts[..|p.attempts| - 1], Succeeded, e);
    case FAIL => TextOutcome(p, p.attempts[..|p.attempts| - 1], FailedOnce, e);
    case END => TextEnd(p);
    case DEINIT => TextDeinit(p);
  }

  lemma ShiftProper(p: Parse, e: Event)
    requires Proper(p) && Delta(p.mode, e).Some?
    ensures Proper(Shift(p, e)) && Shift(p, e).mode == Delta(p.mode, e).value
  {}

  /** The parse spells what was read. */
  predicate Parsed(p: Parse, events: seq<Event>) {
    Proper(p) && Reads(events) == Some(p.mode) && Text(p) == events
  }

  lemma Extend(q: Parse, events: seq<Event>) returns (p: Parse)
    requires events != [] && Parsed(q, events[..|events| - 1]) && Reads(events).Some?
    ensures Parsed(p, events)
  {
    var e := events[|events| - 1];
    ShiftText(q, e);
    ShiftProper(q, e);
    p := Shift(q, e);
    SplitLast(events);
  }

  lemma SplitLast(events: seq<Event>)
    requires events != []
    ensures events == events[..|events| - 1] + [events[|events| - 1]]
  {}

  lemma {:induction false} Parses(events: seq<Event>) returns (p: Parse)
    requires Reads(events).Some?
    ensures Parsed(p, events)
  {
    if events == [] {
      p := Parse([], [], [], Down);
      EmptyText();
    } else {
      p := Parses(events[..|events| - 1]);
      p := Extend(p, events);
    }
  }

  lemma EmptyText()
    ensures Text(Parse([], [], [], Down)) == []
  {}

  /** What ends an open trace. */
  function Ending(m: Mode): seq<Event> {
    match m
    case Down => []
    case Up => [DEINIT]
    case _ => [END, DEINIT]
  }

  /** The word that closes what is open. */
  function Closed(p: Parse): seq<Cycle> {
    match p.mode
    case Down => p.word
    case Up => p.word + [p.services]
    case _ => p.word + [p.services + [p.attempts]]
  }

  lemma ClosedUp(p: Parse)
    requires p.mode == Up
    ensures Render(Closed(p)) == Text(p) + [DEINIT]
  {
    TextDeinit(p);
    var down := p.(word := p.word + [p.services], services := [], mode := Down);
    assert Text(down) == Render(down.word);
  }

  lemma ClosedOpen(p: Parse)
    requires p.mode == Serving || p.mode == Trying
    ensures Render(Closed(p)) == Text(p) + [END, DEINIT]
  {
    var ended := p.(services := p.services + [p.attempts], attempts := [], mode := Up);
    TextEnd(p);
    ClosedUp(ended);
    Join(Text(p), END, DEINIT);
  }

  lemma Join(t: seq<Event>, x: Event, y: Event)
    ensures (t + [x]) + [y] == t + [x, y]
  {}

  lemma ClosedExtends(p: Parse)
    requires Proper(p)
    ensures Render(Closed(p)) == Text(p) + Ending(p.mode)
  {
    match p.mode
    case Down => assert Text(p) == Render(p.word);
    case Up => ClosedUp(p);
    case _ => ClosedOpen(p);
  }

  /** Whole-system event language: the trace of every run is a prefix of a word in
      (INIT (START (RECV (SUCCESS | FAIL)?)* END)* DEINIT)*, and a whole word if the manager is
      down. */
  lemma TraceInLanguage(store: map<Bytes, WifiConfig.Entry>, calls: seq<Call>) returns (word: seq<Cycle>)
    ensures Execute(PowerUp(store), calls).events <= Render(word)
    ensures !Execute(PowerUp(store), calls).inited ==> Execute(PowerUp(store), calls).events == Render(word)
  {
    ExecuteKeepsInv(PowerUp(store), calls);
    var m := Execute(PowerUp(store), calls);
    var p := Parses(m.events);
    ClosedExtends(p);
    word := Closed(p);
  }
}
