/** The scan caches: results appended while a scan runs, read back by pages. The Wi-Fi and the
    Thread handler keep the same cache of a different entry type. */
module ScanCaches {
  /** Entries one reply message has room for. */
  const PAGE := 4

  datatype Scan<E> = Scan(entries: seq<E>, finished: bool)

  /** A result that no longer fits is dropped. */
  function Add<E>(s: Scan<E>, max: nat, e: E): Scan<E> {
    if |s.entries| >= max then s else s.(entries := s.entries + [e])
  }

  datatype Begun = NoInterface | RequestFails | Accepted

  function Start<E>(s: Scan<E>, how: Begun): (Scan<E>, bool) {
    match how
    case NoInterface => (s, false)
    case RequestFails => (Scan([], true), false)
    case Accepted => (Scan([], false), true)
  }

  /** A start is answered with success exactly if the request was taken; without an interface nothing
      changes, otherwise the cache is emptied, and the scan counts as over exactly if it was refused. */
  lemma StartAnswers<E>(s: Scan<E>, how: Begun)
    ensures
      var (s', ok) := Start(s, how);
      && (ok <==> how == Accepted)
      && s' == if how == NoInterface then s else Scan([], !ok)
  {}

  function Min(a: nat, b: nat): nat {
    if a <= b then a else b
  }

  function Page<E>(s: Scan<E>, start: nat, want: nat): (page: seq<E>)
    ensures |page| <= PAGE && |page| <= want
  {
    if start >= |s.entries| then []
    else s.entries[start..start + Min(|s.entries| - start, Min(PAGE, want))]
  }

  // A client that collects pages, each from where the last one ended, while results arrive.

  datatype Step<E> = Begin(how: Begun) | Arrive(e: E) | Done | Fetch(want: nat)

  datatype Collect<E> = Collect(scan: Scan<E>, got: seq<E>)

  /** A client that starts a scan collects anew. */
  function Next<E>(c: Collect<E>, max: nat, step: Step<E>): Collect<E> {
    match step
    case Begin(how) => Collect(Start(c.scan, how).0, [])
    case Arrive(e) => c.(scan := Add(c.scan, max, e))
    case Done => c.(scan := c.scan.(finished := true))
    case Fetch(want) => c.(got := c.got + Page(c.scan, |c.got|, want))
  }

  function Execute<E>(c: Collect<E>, max: nat, steps: seq<Step<E>>): Collect<E>
    decreases |steps|
  {
    if steps == [] then c else Execute(Next(c, max, steps[0]), max, steps[1..])
  }

  /** What was delivered since a scan was last requested, after what had been before. */
  function Delivered<E>(before: seq<E>, steps: seq<Step<E>>): seq<E>
    decreases |steps|
  {
    if steps == [] then before
    else
      match steps[0]
      case Begin(how) => Delivered(if how == NoInterface then before else [], steps[1..])
      case Arrive(e) => Delivered(before + [e], steps[1..])
      case _ => Delivered(before, steps[1..])
  }

  /** The scan is over: its end was signalled, or its request was refused. */
  function Over<E>(before: bool, steps: seq<Step<E>>): bool
    decreases |steps|
  {
    if steps == [] then before
    else
      match steps[0]
      case Begin(how) => Over(if how == NoInterface then before else how == RequestFails, steps[1..])
      case Done => Over(true, steps[1..])
      case _ => Over(before, steps[1..])
  }

  predicate Prefix<E(==)>(a: seq<E>, b: seq<E>) {
    |a| <= |b| && a == b[..|a|]
  }

  function First<E>(all: seq<E>, max: nat): seq<E> {
    all[..Min(|all|, max)]
  }

  lemma PageExtends<E>(s: Scan<E>, got: seq<E>, want: nat)
    requires Prefix(got, s.entries)
    ensures got + Page(s, |got|, want) == s.entries[..Min(|s.entries|, |got| + Min(PAGE, want))]
  {}

  lemma AddsFirst<E>(s: Scan<E>, max: nat, all: seq<E>, e: E)
    requires s.entries == First(all, max)
    ensures Add(s, max, e).entries == First(all + [e], max)
    ensures Prefix(s.entries, Add(s, max, e).entries)
  {}

  lemma {:induction false} CollectFrom<E>(c: Collect<E>, max: nat, steps: seq<Step<E>>, all: seq<E>)
    requires c.scan.entries == First(all, max) && Prefix(c.got, c.scan.entries)
    ensures
      var c' := Execute(c, max, steps);
      && c'.scan.entries == First(Delivered(all, steps), max)
      && Prefix(c'.got, c'.scan.entries)
      && c'.scan.finished == Over(c.scan.finished, steps)
    decreases |steps|
  {
    if steps != [] {
      var next := Next(c, max, steps[0]);
      match steps[0] {
        case Begin(how) => CollectFrom(next, max, steps[1..], if how == NoInterface then all else []);
        case Arrive(e) =>
          AddsFirst(c.scan, max, all, e);
          CollectFrom(next, max, steps[1..], all + [e]);
        case Done => CollectFrom(next, max, steps[1..], all);
        case Fetch(want) =>
          PageExtends(c.scan, c.got, want);
          CollectFrom(next, max, steps[1..], all);
      }
    }
  }

  /** Over any scans: the cache holds the first results, up to its size, delivered since the last
      request of a scan, and tells whether that scan is over; pages taken since the last start, while
      results still arrive, are a prefix of them, without gap or repeat. */
  lemma PagesArePrefix<E>(max: nat, steps: seq<Step<E>>)
    ensures
      var c := Execute(Collect(Scan([], false), []), max, steps);
      && c.scan.entries == First(Delivered([], steps), max)
      && Prefix(c.got, c.scan.entries)
      && c.scan.finished == Over(false, steps)
  {
    CollectFrom(Collect(Scan([], false), []), max, steps, []);
  }

  function Fetches<E>(wants: seq<nat>): seq<Step<E>> {
    seq(|wants|, i requires 0 <= i < |wants| => Fetch(wants[i]))
  }

  function Capacity(wants: seq<nat>): nat {
    if wants == [] then 0 else Min(PAGE, wants[0]) + Capacity(wants[1..])
  }

  lemma {:induction false} CapacityGrows(wants: seq<nat>)
    requires forall i :: 0 <= i < |wants| ==> wants[i] >= 1
    ensures Capacity(wants) >= |wants|
  {
    if wants != [] {
      CapacityGrows(wants[1..]);
    }
  }

  /** Once results have stopped, fetches take exactly the next entries they have room for. */
  lemma {:induction false} FetchesTake<E>(c: Collect<E>, max: nat, wants: seq<nat>)
    requires Prefix(c.got, c.scan.entries)
    ensures Execute(c, max, Fetches(wants))
            == c.(got := c.scan.entries[..Min(|c.scan.entries|, |c.got| + Capacity(wants))])
    decreases |wants|
  {
    if wants != [] {
      var next := Next(c, max, Fetch(wants[0]));
      PageExtends(c.scan, c.got, wants[0]);
      FetchesTake(next, max, wants[1..]);
      var steps: seq<Step<E>> := Fetches(wants);
      assert steps[1..] == Fetches(wants[1..]);
      assert steps[0] == Fetch(wants[0]);
    }
  }

  lemma {:induction false} ExecuteAppend<E>(c: Collect<E>, max: nat, a: seq<Step<E>>, b: seq<Step<E>>)
    ensures Execute(c, max, a + b) == Execute(Execute(c, max, a), max, b)
    decreases |a|
  {
    if a == [] {
      assert a + b == b;
    } else {
      assert (a + b)[1..] == a[1..] + b;
      ExecuteAppend(Next(c, max, a[0]), max, a[1..], b);
    }
  }

  /** Whatever was fetched during the scan, as many further non-empty requests as there are
      entries collect exactly the first min(k, max) results of the last scan, in order. */
  lemma PagingComplete<E>(max: nat, steps: seq<Step<E>>, wants: seq<nat>)
    requires forall i :: 0 <= i < |wants| ==> wants[i] >= 1
    requires |wants| >= |First(Delivered([], steps), max)|
    ensures
      var c := Execute(Collect(Scan([], false), []), max, steps + Fetches(wants));
      c.got == First(Delivered([], steps), max)
  {
    var start: Collect<E> := Collect(Scan([], false), []);
    PagesArePrefix(max, steps);
    ExecuteAppend(start, max, steps, Fetches(wants));
    FetchesTake(Execute(start, max, steps), max, wants);
    CapacityGrows(wants);
  }

  /** A request that comes back empty says that all entries are collected. */
  lemma EmptyPageMeansAll<E>(max: nat, steps: seq<Step<E>>, want: nat)
    requires want >= 1
    ensures
      var c := Execute(Collect(Scan([], false), []), max, steps);
      Page(c.scan, |c.got|, want) == [] <==> c.got == First(Delivered([], steps), max)
  {
    PagesArePrefix(max, steps);
  }

  class ScanCache<E(0)> {
    const entries: array<E>
    var count: nat
    var finished: bool

    ghost predicate Valid()
      reads this
    {
      count <= entries.Length
    }

    ghost function State(): Scan<E>
      requires Valid()
      reads this, entries
    {
      Scan(entries[..count], finished)
    }

    constructor (max: nat)
      ensures Valid() && fresh(entries) && entries.Length == max && State() == Scan([], false)
    {
      entries := new E[max];
      count := 0;
      finished := false;
    }

    method OnResult(e: E)
      requires Valid()
      modifies this`count, entries
      ensures Valid() && State() == Add(old(State()), entries.Length, e)
    {
      if count >= entries.Length {
        return;
      }
      entries[count] := e;
      count := count + 1;
    }

    method OnDone()
      requires Valid()
      modifies this`finished
      ensures Valid() && State() == old(State()).(finished := true)
    {
      finished := true;
    }

    method StartScan(how: Begun) returns (ok: bool)
      requires Valid()
      modifies this`count, this`finished
      ensures Valid() && (State(), ok) == Start(old(State()), how)
    {
      if how == NoInterface {
        return false;
      }
      count := 0;
      finished := false;
      if how == RequestFails {
        finished := true;
        return false;
      }
      ok := true;
    }

    /** Copy the requested entries into the reply, entry by entry. */
    method Result(start: nat, want: nat) returns (page: seq<E>)
      requires Valid()
      ensures page == Page(State(), start, want)
    {
      page := [];
      var i := start;
      while i < count && |page| < PAGE && |page| < want
        invariant start <= i && i - start == |page| && |page| <= PAGE && |page| <= want
        invariant i <= count || i == start
        invariant i <= count ==> page == entries[start..i]
      {
        page := page + [entries[i]];
        i := i + 1;
      }
    }
  }
}
