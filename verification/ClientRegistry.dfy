/**
  The connection client registry: one client per connection id, built once
  however many callers ask for it at the same time.

  `create()` settling, its `then` storing the client, each caller going on and
  the slot being cleared are separate steps that may come in any order the
  promises allow.
 */
module ClientRegistry {
  import opened Wrappers

  /** A registered driver; `disposes` if it has a dispose hook. */
  datatype Driver = Driver(id: nat, disposes: bool)

  /** `build` records which call of `create()` made the client. */
  datatype Cached = Cached(kind: string, client: nat, build: nat)

  datatype Tables = Tables(drivers: map<string, Driver>, cache: map<string, Cached>, inflight: map<string, nat>)

  /** How an acquire begins. */
  datatype Start = Serve(cached: Cached) | Join(build: nat) | NoDriver | Create(driver: Driver)

  function HowToStart(t: Tables, connection: string, kind: string): Start {
    if connection in t.cache then Serve(t.cache[connection])
    else if connection in t.inflight then Join(t.inflight[connection])
    else if kind !in t.drivers then NoDriver
    else Create(t.drivers[kind])
  }

  function Claimed(t: Tables, connection: string, build: nat): Tables {
    t.(inflight := t.inflight[connection := build])
  }

  function Stored(t: Tables, connection: string, cached: Cached): Tables {
    t.(cache := t.cache[connection := cached])
  }

  function Released(t: Tables, connection: string, build: nat): Tables {
    if connection in t.inflight && t.inflight[connection] == build then t.(inflight := t.inflight - {connection}) else t
  }

  function Closed(t: Tables, connection: string): Tables {
    t.(cache := t.cache - {connection})
  }

  /** Which driver disposes of which client when a connection is closed, if any does. */
  function ToDispose(t: Tables, connection: string): Option<(Driver, Cached)> {
    if connection in t.cache && t.cache[connection].kind in t.drivers
       && t.drivers[t.cache[connection].kind].disposes
    then Some((t.drivers[t.cache[connection].kind], t.cache[connection]))
    else None
  }

  class Registry {
    var drivers: map<string, Driver>
    var clientCache: map<string, Cached>
    var clientInflight: map<string, nat>

    function View(): Tables
      reads this
    {
      Tables(drivers, clientCache, clientInflight)
    }

    constructor ()
      ensures View() == Tables(map[], map[], map[])
    {
      drivers, clientCache, clientInflight := map[], map[], map[];
    }

    method Register(kind: string, driver: Driver)
      modifies this
      ensures View() == old(View()).(drivers := old(drivers)[kind := driver])
    {
      drivers := drivers[kind := driver];
    }

    /** `acquireClient` up to its await; `build` names the create() it would start. */
    method BeginAcquire(connection: string, kind: string, build: nat) returns (start: Start)
      modifies this
      ensures start == HowToStart(old(View()), connection, kind)
      ensures View() == if start.Create? then Claimed(old(View()), connection, build) else old(View())
    {
      if connection in clientCache { return Serve(clientCache[connection]); }
      if connection in clientInflight { return Join(clientInflight[connection]); }
      if kind !in drivers { return NoDriver; }
      start := Create(drivers[kind]);
      clientInflight := clientInflight[connection := build];
    }

    method StoreClient(connection: string, cached: Cached)
      modifies this
      ensures View() == Stored(old(View()), connection, cached)
    {
      clientCache := clientCache[connection := cached];
    }

    method ReleaseSlot(connection: string, build: nat)
      modifies this
      ensures View() == Released(old(View()), connection, build)
    {
      if connection in clientInflight && clientInflight[connection] == build {
        clientInflight := clientInflight - {connection};
      }
    }

    method BeginClose(connection: string) returns (dispose: Option<(Driver, Cached)>)
      modifies this
      ensures dispose == ToDispose(old(View()), connection)
      ensures View() == Closed(old(View()), connection)
    {
      if connection !in clientCache { return None; }
      var cached := clientCache[connection];
      clientCache := clientCache - {connection};
      dispose := None;
      if cached.kind in drivers && drivers[cached.kind].disposes {
        dispose := Some((drivers[cached.kind], cached));
      }
    }

    method Reset()
      modifies this
      ensures View() == Tables(map[], map[], map[])
    {
      drivers, clientCache, clientInflight := map[], map[], map[];
    }
  }

  /*
   * All interleavings.
   */

  datatype Outcome = Creating | Created(client: nat) | Failed

  /** One call of `create()`: `stored` once its `then` ran, `released` once its
      slot clean-up ran. */
  datatype Build = Build(connection: string, kind: string, driver: Driver, outcome: Outcome, stored: bool,
                         released: bool)

  datatype Caller = Caller(connection: string, build: nat)

  datatype Handed = Handed(connection: string, client: nat)

  datatype Disposal = Disposal(driver: Driver, kind: string, client: nat, build: nat)

  datatype State = State(tables: Tables, builds: map<nat, Build>, callers: map<nat, Caller>, handed: seq<Handed>,
                         disposals: seq<Disposal>)

  datatype Step =
    | Register(kind: string, driver: Driver)
    | Acquire(caller: nat, connection: string, kind: string, build: nat)
    | Settle(build: nat, outcome: Outcome)
    | Store(build: nat)
    | Continue(caller: nat)
    | Release(build: nat)
    | Close(connection: string)
    | Reset

  /** The promise callers wait for has settled: the client is stored, or `create()` failed. */
  predicate Settled(b: Build) {
    b.stored || b.outcome == Failed
  }

  predicate Enabled(s: State, step: Step) {
    match step
    case Register(_, _) => true
    case Acquire(c, _, _, b) => c !in s.callers && b !in s.builds
    case Settle(b, o) => b in s.builds && s.builds[b].outcome == Creating && o != Creating
    case Store(b) => b in s.builds && s.builds[b].outcome.Created? && !s.builds[b].stored
    case Continue(c) => c in s.callers && s.callers[c].build in s.builds && Settled(s.builds[s.callers[c].build])
    case Release(b) => b in s.builds && Settled(s.builds[b]) && !s.builds[b].released
    case Close(_) => true
    case Reset => true
  }

  function Apply(s: State, step: Step): State
    requires Enabled(s, step)
  {
    match step
    case Register(kind, driver) => s.(tables := s.tables.(drivers := s.tables.drivers[kind := driver]))
    case Acquire(c, connection, kind, b) =>
      (match HowToStart(s.tables, connection, kind)
       case Serve(cached) => s.(handed := s.handed + [Handed(connection, cached.client)])
       case Join(running) => s.(callers := s.callers[c := Caller(connection, running)])
       case NoDriver => s
       case Create(driver) => s.(tables := Claimed(s.tables, connection, b),
                                 builds := s.builds[b := Build(connection, kind, driver, Creating, false, false)],
                                 callers := s.callers[c := Caller(connection, b)]))
    case Settle(b, o) => s.(builds := s.builds[b := s.builds[b].(outcome := o)])
    case Store(b) =>
      var build := s.builds[b];
      s.(tables := Stored(s.tables, build.connection, Cached(build.kind, build.outcome.client, b)),
         builds := s.builds[b := build.(stored := true)])
    case Continue(c) =>
      var caller := s.callers[c];
      var o := s.builds[caller.build].outcome;
      var t := s.(callers := s.callers - {c});
      if o.Created? then t.(handed := s.handed + [Handed(caller.connection, o.client)]) else t
    case Release(b) =>
      s.(tables := Released(s.tables, s.builds[b].connection, b),
         builds := s.builds[b := s.builds[b].(released := true)])
    case Close(connection) =>
      var d := ToDispose(s.tables, connection);
      s.(tables := Closed(s.tables, connection),
         disposals := if d.None? then s.disposals
                      else s.disposals + [Disposal(d.value.0, d.value.1.kind, d.value.1.client, d.value.1.build)])
    case Reset => s.(tables := Tables(map[], map[], map[]))
  }

  ghost predicate Init(s: State) {
    s == State(s.tables, map[], map[], [], []) && s.tables.cache == map[] && s.tables.inflight == map[]
  }

  /** The client was made by that call of `create()`, for a connection of that kind. */
  ghost predicate MadeBy(s: State, kind: string, client: nat, build: nat) {
    build in s.builds && s.builds[build].outcome == Created(client) && s.builds[build].kind == kind
  }

  ghost predicate CacheOk(s: State, connection: string) {
    connection in s.tables.cache ==>
      var c := s.tables.cache[connection];
      MadeBy(s, c.kind, c.client, c.build) && s.builds[c.build].connection == connection && s.builds[c.build].stored
  }

  ghost predicate SlotOk(s: State, connection: string) {
    connection in s.tables.inflight ==>
      var b := s.tables.inflight[connection];
      b in s.builds && s.builds[b].connection == connection && !s.builds[b].released
  }

  ghost predicate CallerOk(s: State, c: nat) {
    c in s.callers ==>
      s.callers[c].build in s.builds && s.builds[s.callers[c].build].connection == s.callers[c].connection
  }

  ghost predicate BuildOk(s: State, b: nat) {
    b in s.builds ==>
      && (s.builds[b].stored ==> s.builds[b].outcome.Created?)
      && (s.builds[b].released ==> Settled(s.builds[b]))
  }

  ghost predicate DisposalOk(s: State, i: nat) {
    i < |s.disposals| ==> var d := s.disposals[i]; MadeBy(s, d.kind, d.client, d.build)
  }

  ghost predicate Inv(s: State) {
    && (forall k {:trigger CacheOk(s, k)} :: CacheOk(s, k))
    && (forall k {:trigger SlotOk(s, k)} :: SlotOk(s, k))
    && (forall c: nat {:trigger CallerOk(s, c)} :: CallerOk(s, c))
    && (forall b: nat {:trigger BuildOk(s, b)} :: BuildOk(s, b))
    && (forall i: nat {:trigger DisposalOk(s, i)} :: DisposalOk(s, i))
  }

  lemma StepKeepsInv(s: State, step: Step)
    requires Inv(s) && Enabled(s, step)
    ensures Inv(Apply(s, step))
  {
    var t := Apply(s, step);
    forall k ensures CacheOk(t, k) { assert CacheOk(s, k); }
    forall k ensures SlotOk(t, k) { assert SlotOk(s, k); }
    forall c: nat ensures CallerOk(t, c) {
      assert CallerOk(s, c);
      if step.Acquire? { assert SlotOk(s, step.connection); }
    }
    forall b: nat ensures BuildOk(t, b) { assert BuildOk(s, b); }
    forall i: nat ensures DisposalOk(t, i) {
      assert DisposalOk(s, i);
      if step.Close? { assert CacheOk(s, step.connection); }
    }
  }

  /*
   * Runs without close or reset.
   */

  /** An unreleased call still owns its slot. */
  ghost predicate OwnsSlot(s: State, b: nat) {
    b in s.builds && !s.builds[b].released ==>
      s.builds[b].connection in s.tables.inflight && s.tables.inflight[s.builds[b].connection] == b
  }

  /** A stored client is still the cached one. */
  ghost predicate StaysCached(s: State, b: nat) {
    b in s.builds && s.builds[b].stored && s.builds[b].outcome.Created? ==>
      && s.builds[b].connection in s.tables.cache
      && s.tables.cache[s.builds[b].connection].client == s.builds[b].outcome.client
  }

  /** A connection has at most one call of `create()` that has not failed. */
  ghost predicate OnlyOne(s: State, a: nat, b: nat) {
    a in s.builds && b in s.builds && s.builds[a].connection == s.builds[b].connection ==>
      s.builds[a].outcome == Failed || s.builds[b].outcome == Failed || a == b
  }

  ghost predicate HandedOk(s: State, i: nat) {
    i < |s.handed| ==>
      && s.handed[i].connection in s.tables.cache
      && s.tables.cache[s.handed[i].connection].client == s.handed[i].client
  }

  ghost predicate Kept(s: State) {
    && (forall b: nat {:trigger OwnsSlot(s, b)} :: OwnsSlot(s, b))
    && (forall b: nat {:trigger StaysCached(s, b)} :: StaysCached(s, b))
    && (forall a: nat, b: nat {:trigger OnlyOne(s, a, b)} :: OnlyOne(s, a, b))
    && (forall i: nat {:trigger HandedOk(s, i)} :: HandedOk(s, i))
  }

  lemma StepKeepsKept(s: State, step: Step)
    requires Inv(s) && Kept(s) && Enabled(s, step) && !step.Close? && !step.Reset?
    ensures Kept(Apply(s, step))
  {
    var t := Apply(s, step);
    forall b: nat ensures OwnsSlot(t, b) {
      assert OwnsSlot(s, b);
    }
    forall b: nat ensures StaysCached(t, b) {
      assert StaysCached(s, b) && BuildOk(s, b);
      if step.Store? { assert OnlyOne(s, step.build, b); }
    }
    forall a: nat, b: nat ensures OnlyOne(t, a, b) {
      assert OnlyOne(s, a, b);
      NewBuildIsAlone(s, step, a);
      NewBuildIsAlone(s, step, b);
    }
    forall i: nat ensures HandedOk(t, i) { StepKeepsHanded(s, step, i); }
  }

  /** When a call of `create()` starts, all earlier ones of its connection have failed. */
  lemma NewBuildIsAlone(s: State, step: Step, a: nat)
    requires Inv(s) && Kept(s) && Enabled(s, step)
    ensures step.Acquire? && HowToStart(s.tables, step.connection, step.kind).Create? ==>
        (a in s.builds && s.builds[a].connection == step.connection ==> s.builds[a].outcome == Failed)
  {
    assert OwnsSlot(s, a) && StaysCached(s, a) && BuildOk(s, a);
  }

  lemma StepKeepsHanded(s: State, step: Step, i: nat)
    requires Inv(s) && Kept(s) && Enabled(s, step) && !step.Close? && !step.Reset?
    ensures HandedOk(Apply(s, step), i)
  {
    assert HandedOk(s, i);
    match step
    case Continue(c) =>
      var b := s.callers[c].build;
      assert CallerOk(s, c) && BuildOk(s, b) && StaysCached(s, b);
    case Store(b) =>
      var k := s.builds[b].connection;
      assert CacheOk(s, k);
      assert OnlyOne(s, if k in s.tables.cache then s.tables.cache[k].build else b, b);
    case _ =>
  }

  ghost predicate Run(states: seq<State>, steps: seq<Step>) {
    && |states| == |steps| + 1 && Init(states[0])
    && forall i :: 0 <= i < |steps| ==> Enabled(states[i], steps[i]) && states[i + 1] == Apply(states[i], steps[i])
  }

  ghost predicate NeverCloses(steps: seq<Step>) {
    forall step :: step in steps ==> !step.Close? && !step.Reset?
  }

  lemma {:induction false} RunKeepsInv(states: seq<State>, steps: seq<Step>, i: nat)
    requires Run(states, steps) && i < |states|
    ensures Inv(states[i])
  {
    if i > 0 {
      RunKeepsInv(states, steps, i - 1);
      assert states[i - 1 + 1] == Apply(states[i - 1], steps[i - 1]);
      StepKeepsInv(states[i - 1], steps[i - 1]);
    }
  }

  lemma {:induction false} RunKeepsKept(states: seq<State>, steps: seq<Step>, i: nat)
    requires Run(states, steps) && i < |states| && NeverCloses(steps[..i])
    ensures Kept(states[i])
  {
    if i > 0 {
      assert steps[..i] == steps[..i - 1] + [steps[i - 1]];
      RunKeepsKept(states, steps, i - 1);
      RunKeepsInv(states, steps, i - 1);
      assert states[i - 1 + 1] == Apply(states[i - 1], steps[i - 1]);
      StepKeepsKept(states[i - 1], steps[i - 1]);
    }
  }

  /** Without close or reset a connection has at most one `create()` that is in
      flight or has succeeded, ever: two that have not failed are the same call. */
  lemma SingleBuild(states: seq<State>, steps: seq<Step>, i: nat, a: nat, b: nat)
    requires Run(states, steps) && i < |states| && NeverCloses(steps[..i])
    requires a in states[i].builds && states[i].builds[a].outcome != Failed
    requires b in states[i].builds && states[i].builds[b].outcome != Failed
    requires states[i].builds[a].connection == states[i].builds[b].connection
    ensures a == b
  {
    RunKeepsKept(states, steps, i);
    assert OnlyOne(states[i], a, b);
  }

  /** ... and every caller that got a client for it got the same one. */
  lemma SameClientForAll(states: seq<State>, steps: seq<Step>, i: nat, j: nat, k: nat)
    requires Run(states, steps) && i < |states| && NeverCloses(steps[..i])
    requires j < |states[i].handed| && k < |states[i].handed|
    requires states[i].handed[j].connection == states[i].handed[k].connection
    ensures states[i].handed[j].client == states[i].handed[k].client
  {
    RunKeepsKept(states, steps, i);
    assert HandedOk(states[i], j) && HandedOk(states[i], k);
  }

  /** A failed `create()` leaves the connection retryable: once the calls made
      for it have been cleaned up and none was stored, the next acquire starts
      a new one. */
  lemma FailedBuildRetries(states: seq<State>, steps: seq<Step>, i: nat, c: nat, connection: string, kind: string,
                           b: nat)
    requires Run(states, steps) && i < |states|
    requires Enabled(states[i], Acquire(c, connection, kind, b)) && kind in states[i].tables.drivers
    requires forall a :: a in states[i].builds && states[i].builds[a].connection == connection ==>
        states[i].builds[a].outcome == Failed && states[i].builds[a].released
    ensures var t := Apply(states[i], Acquire(c, connection, kind, b));
            && b in t.builds && t.builds[b].outcome == Creating && t.builds[b].connection == connection
            && t.builds[b].driver == states[i].tables.drivers[kind]
  {
    RunKeepsInv(states, steps, i);
    assert SlotOk(states[i], connection) && CacheOk(states[i], connection);
  }

  /** In every interleaving, closing and resetting included, a client is only
      disposed of through the kind it was built for. */
  lemma DisposedThroughOwnKind(states: seq<State>, steps: seq<Step>, i: nat, k: nat)
    requires Run(states, steps) && i < |states| && k < |states[i].disposals|
    ensures var s, d := states[i], states[i].disposals[k];
            && d.build in s.builds && s.builds[d.build].outcome == Created(d.client)
            && s.builds[d.build].kind == d.kind
  {
    RunKeepsInv(states, steps, i);
    assert DisposalOk(states[i], k);
  }

  /*
   * Through its kind is through the driver registered for the kind now.
   */

  /** The run's `a`-th step starts that call of `create()`. */
  ghost predicate StartsAt(states: seq<State>, a: nat, build: nat)
    requires a + 1 < |states|
  {
    build !in states[a].builds && build in states[a + 1].builds
  }

  /** A build keeps its kind and its driver. */
  lemma {:induction false} BuildKeepsDriver(states: seq<State>, steps: seq<Step>, i: nat, j: nat, build: nat)
    requires Run(states, steps) && i <= j < |states| && build in states[i].builds
    ensures build in states[j].builds
    ensures states[j].builds[build].kind == states[i].builds[build].kind
    ensures states[j].builds[build].driver == states[i].builds[build].driver
    decreases j - i
  {
    if i < j {
      BuildKeepsDriver(states, steps, i, j - 1, build);
      assert states[j - 1 + 1] == Apply(states[j - 1], steps[j - 1]);
    }
  }

  lemma {:induction false} BuildHasStart(states: seq<State>, steps: seq<Step>, i: nat, build: nat) returns (a: nat)
    requires Run(states, steps) && i < |states| && build in states[i].builds
    ensures a < i && StartsAt(states, a, build)
  {
    if build in states[i - 1].builds {
      a := BuildHasStart(states, steps, i - 1, build);
    } else {
      a := i - 1;
    }
  }

  /** At step `i` the last registration of the kind since step `a` is of another driver. */
  ghost predicate Replaced(steps: seq<Step>, a: nat, i: nat, kind: string, driver: Driver)
    requires a <= i <= |steps|
  {
    exists j: nat :: ReplacedAt(steps, a, i, kind, driver, j)
  }

  /** Step `j` registers another driver and no later one registers any. */
  ghost predicate ReplacedAt(steps: seq<Step>, a: nat, i: nat, kind: string, driver: Driver, j: nat)
    requires a <= i <= |steps|
  {
    a <= j < i && RegistersOther(steps[j], kind, driver) && forall k :: j < k < i ==> !Registers(steps[k], kind)
  }

  lemma OneMoreStep(steps: seq<Step>, a: nat, i: nat, kind: string, driver: Driver)
    requires a < i <= |steps|
    ensures Replaced(steps, a, i, kind, driver) <==>
        if Registers(steps[i - 1], kind) then steps[i - 1].driver != driver else Replaced(steps, a, i - 1, kind, driver)
  {
    if Registers(steps[i - 1], kind) {
      assert steps[i - 1].driver != driver ==> ReplacedAt(steps, a, i, kind, driver, i - 1);
    } else {
      if Replaced(steps, a, i, kind, driver) {
        var j: nat :| ReplacedAt(steps, a, i, kind, driver, j);
        assert ReplacedAt(steps, a, i - 1, kind, driver, j);
      }
      if Replaced(steps, a, i - 1, kind, driver) {
        var j: nat :| ReplacedAt(steps, a, i - 1, kind, driver, j);
        assert ReplacedAt(steps, a, i, kind, driver, j);
      }
    }
  }

  predicate Registers(step: Step, kind: string) {
    step.Register? && step.kind == kind
  }

  predicate RegistersOther(step: Step, kind: string, driver: Driver) {
    Registers(step, kind) && step.driver != driver
  }

  /** The driver in force, if any, is the one it was unless another was registered last. */
  lemma {:induction false} DriverInForce(states: seq<State>, steps: seq<Step>, a: nat, i: nat, kind: string,
                                         driver: Driver)
    requires Run(states, steps) && a <= i < |states|
    requires kind in states[a].tables.drivers && states[a].tables.drivers[kind] == driver
    ensures kind in states[i].tables.drivers ==>
        (states[i].tables.drivers[kind] == driver <==> !Replaced(steps, a, i, kind, driver))
    decreases i - a
  {
    if a < i {
      DriverInForce(states, steps, a, i - 1, kind, driver);
      assert states[i - 1 + 1] == Apply(states[i - 1], steps[i - 1]);
      OneMoreStep(steps, a, i, kind, driver);
    }
  }

  /** A client is cached for the connection and the driver now registered for its kind has a dispose hook. */
  ghost predicate HookInForce(t: Tables, connection: string) {
    connection in t.cache && var kind := t.cache[connection].kind; kind in t.drivers && t.drivers[kind].disposes
  }

  /** Closing disposes of one client if there is a hook for it, and of none
      otherwise; either way the connection is no longer cached. */
  lemma CloseDisposesIff(s: State, connection: string)
    ensures var t := Apply(s, Close(connection));
            && |t.disposals| == |s.disposals| + (if HookInForce(s.tables, connection) then 1 else 0)
            && s.disposals <= t.disposals
            && t.tables == s.tables.(cache := s.tables.cache - {connection})
            && t.handed == s.handed && t.callers == s.callers && t.builds == s.builds
  {
  }

  /** In every run, the driver that built a client is the one that disposes of it
      on close if and only if, since the build began, no other driver was
      registered for its kind that is still in force. */
  lemma BuilderDisposesUnlessReplaced(states: seq<State>, steps: seq<Step>, i: nat, connection: string, a: nat)
    requires Run(states, steps) && i < |states| && HookInForce(states[i].tables, connection)
    requires a < i && StartsAt(states, a, states[i].tables.cache[connection].build)
    ensures var s, c := states[i], states[i].tables.cache[connection];
            var t := Apply(s, Close(connection));
            && c.build in s.builds && s.builds[c.build].kind == c.kind && |t.disposals| == |s.disposals| + 1
            && t.disposals[|s.disposals|].client == c.client
            && (t.disposals[|s.disposals|].driver == s.builds[c.build].driver <==>
                !Replaced(steps, a, i, c.kind, s.builds[c.build].driver))
  {
    RunKeepsInv(states, steps, i);
    assert CacheOk(states[i], connection);
    var c := states[i].tables.cache[connection];
    assert c.build in states[i].builds;
    assert states[a + 1] == Apply(states[a], steps[a]);
    BuildKeepsDriver(states, steps, a + 1, i, c.build);
    DriverInForce(states, steps, a, i, c.kind, states[i].builds[c.build].driver);
  }

  /** A run in which a client is built and stored. */
  lemma BuiltRun(connection: string, kind: string, driver: Driver, client: nat)
    returns (states: seq<State>, steps: seq<Step>)
    ensures steps == [Register(kind, driver), Acquire(0, connection, kind, 0), Settle(0, Created(client)), Store(0)]
    ensures Run(states, steps)
    ensures var s := states[4];
            && s.tables.cache == map[connection := Cached(kind, client, 0)] && s.disposals == []
            && s.builds == map[0 := Build(connection, kind, driver, Created(client), true, false)]
  {
    steps := [Register(kind, driver), Acquire(0, connection, kind, 0), Settle(0, Created(client)), Store(0)];
    var s0 := State(Tables(map[], map[], map[]), map[], map[], [], []);
    var s1 := Apply(s0, steps[0]);
    var s2 := Apply(s1, steps[1]);
    var s3 := Apply(s2, steps[2]);
    states := [s0, s1, s2, s3, Apply(s3, steps[3])];
  }

  /** It does happen: register, acquire, register again with another driver, close. */
  lemma WrongDriverDisposes(connection: string, kind: string, first: Driver, second: Driver, client: nat)
    returns (states: seq<State>, steps: seq<Step>)
    requires first != second && second.disposes
    ensures steps == [Register(kind, first), Acquire(0, connection, kind, 0), Settle(0, Created(client)), Store(0)] +
                     [Register(kind, second), Close(connection)]
    ensures Run(states, steps)
    ensures 0 in states[6].builds
    ensures states[6].builds[0].driver == first && states[6].builds[0].outcome == Created(client)
    ensures states[6].disposals == [Disposal(second, kind, client, 0)]
  {
    var built, before := BuiltRun(connection, kind, first, client);
    var replaced := Apply(built[4], Register(kind, second));
    states := built + [replaced, Apply(replaced, Close(connection))];
    steps := before + [Register(kind, second), Close(connection)];
    forall i | 0 <= i < |steps| ensures Enabled(states[i], steps[i]) && states[i + 1] == Apply(states[i], steps[i]) {
      if i < 4 { assert built[i + 1] == Apply(built[i], before[i]); }
    }
  }

  /*
   * What callers get, over whole runs.
   */

  /** The step may change what is cached for the connection. */
  ghost predicate Touches(s: State, step: Step, connection: string) {
    match step
    case Store(b) => b in s.builds && s.builds[b].connection == connection
    case Close(c) => c == connection
    case Reset => true
    case _ => false
  }

  lemma {:induction false} CacheStays(states: seq<State>, steps: seq<Step>, j: nat, i: nat, connection: string)
    requires Run(states, steps) && j <= i < |states|
    requires forall k :: j <= k < i ==> !Touches(states[k], steps[k], connection)
    ensures connection in states[i].tables.cache <==> connection in states[j].tables.cache
    ensures connection in states[i].tables.cache ==>
        states[i].tables.cache[connection] == states[j].tables.cache[connection]
    decreases i - j
  {
    if j < i {
      CacheStays(states, steps, j, i - 1, connection);
      assert states[i - 1 + 1] == Apply(states[i - 1], steps[i - 1]);
      assert !Touches(states[i - 1], steps[i - 1], connection);
    }
  }

  /** Once a client is stored every acquire is handed it at once and creates
      nothing, whatever is registered, until the connection is closed or the
      registry reset. */
  lemma HandedWhileCached(states: seq<State>, steps: seq<Step>, j: nat, i: nat, b: nat, c: nat, connection: string,
                          kind: string, a: nat)
    requires Run(states, steps) && j < i < |steps|
    requires steps[j] == Store(b) && states[j].builds[b].connection == connection
    requires forall k :: j < k < i ==> !Touches(states[k], steps[k], connection)
    requires steps[i] == Acquire(c, connection, kind, a)
    ensures states[i + 1] ==
            states[i].(handed := states[i].handed + [Handed(connection, states[j].builds[b].outcome.client)])
  {
    assert states[j + 1] == Apply(states[j], steps[j]);
    CacheStays(states, steps, j + 1, i, connection);
  }

  ghost predicate Stores(s: State, step: Step, connection: string) {
    step.Store? && step.build in s.builds && s.builds[step.build].connection == connection
  }

  lemma {:induction false} StaysUncached(states: seq<State>, steps: seq<Step>, j: nat, i: nat, connection: string)
    requires Run(states, steps) && j <= i < |states| && connection !in states[j].tables.cache
    requires forall k :: j <= k < i ==> !Stores(states[k], steps[k], connection)
    ensures connection !in states[i].tables.cache
    decreases i - j
  {
    if j < i {
      StaysUncached(states, steps, j, i - 1, connection);
      assert states[i - 1 + 1] == Apply(states[i - 1], steps[i - 1]);
      assert !Stores(states[i - 1], steps[i - 1], connection);
    }
  }

  /** A closed connection hands nothing out until another client is stored for
      it; after a reset none does. */
  lemma ClosingForgets(states: seq<State>, steps: seq<Step>, j: nat, i: nat, c: nat, connection: string, kind: string,
                       a: nat)
    requires Run(states, steps) && j < i < |steps|
    requires steps[j] == Close(connection) || steps[j] == Reset
    requires forall k :: j < k < i ==> !Stores(states[k], steps[k], connection)
    requires steps[i] == Acquire(c, connection, kind, a)
    ensures states[i + 1].handed == states[i].handed
  {
    assert states[j + 1] == Apply(states[j], steps[j]);
    StaysUncached(states, steps, j + 1, i, connection);
  }

  lemma {:induction false} StaysBare(states: seq<State>, steps: seq<Step>, j: nat, i: nat, connection: string,
                                     kind: string)
    requires Run(states, steps) && j <= i < |states|
    requires connection !in states[j].tables.inflight && kind !in states[j].tables.drivers
    requires forall k :: j <= k < i && steps[k].Acquire? ==> steps[k].connection != connection
    requires forall k :: j <= k < i ==> !Registers(steps[k], kind)
    ensures connection !in states[i].tables.inflight && kind !in states[i].tables.drivers
    decreases i - j
  {
    if j < i {
      StaysBare(states, steps, j, i - 1, connection, kind);
      assert states[i - 1 + 1] == Apply(states[i - 1], steps[i - 1]);
      assert !Registers(steps[i - 1], kind);
    }
  }

  /** After a reset the first acquire of a connection fails, without a trace,
      if no driver has been registered for its kind and no earlier build of it
      has been stored since. */
  lemma ResetForgetsDrivers(states: seq<State>, steps: seq<Step>, j: nat, i: nat, c: nat, connection: string,
                            kind: string, a: nat)
    requires Run(states, steps) && j < i < |steps| && steps[j] == Reset
    requires forall k :: j < k < i ==> !Stores(states[k], steps[k], connection) && !Registers(steps[k], kind)
    requires forall k :: j < k < i && steps[k].Acquire? ==> steps[k].connection != connection
    requires steps[i] == Acquire(c, connection, kind, a)
    ensures states[i + 1] == states[i]
  {
    assert states[j + 1] == Apply(states[j], steps[j]);
    StaysUncached(states, steps, j + 1, i, connection);
    StaysBare(states, steps, j + 1, i, connection, kind);
  }

  lemma {:induction false} KeepsWaiting(states: seq<State>, steps: seq<Step>, j: nat, i: nat, c: nat)
    requires Run(states, steps) && j <= i < |states| && c in states[j].callers
    requires Continue(c) !in steps[j..i]
    ensures c in states[i].callers && states[i].callers[c] == states[j].callers[c]
    decreases i - j
  {
    if j < i {
      assert steps[j..i] == steps[j..i - 1] + [steps[i - 1]];
      KeepsWaiting(states, steps, j, i - 1, c);
      assert states[i - 1 + 1] == Apply(states[i - 1], steps[i - 1]);
    }
  }

  /** A caller that has to wait joins the build in flight, or starts one with the
      registered driver; when it goes on it is handed, once, the client that
      build made, or nothing if it failed. */
  lemma CallerIsAnswered(states: seq<State>, steps: seq<Step>, j: nat, i: nat, c: nat, connection: string,
                         kind: string, a: nat)
    requires Run(states, steps) && j < i < |steps|
    requires steps[j] == Acquire(c, connection, kind, a) && connection !in states[j].tables.cache
    requires connection in states[j].tables.inflight || kind in states[j].tables.drivers
    requires steps[i] == Continue(c) && Continue(c) !in steps[j + 1..i]
    ensures var inflight := states[j].tables.inflight;
            var build := if connection in inflight then inflight[connection] else a;
            && build in states[i].builds && c !in states[i + 1].callers
            && states[i + 1].handed ==
               match states[i].builds[build].outcome
               case Created(client) => states[i].handed + [Handed(connection, client)]
               case _ => states[i].handed
  {
    assert states[j + 1] == Apply(states[j], steps[j]);
    KeepsWaiting(states, steps, j + 1, i, c);
    assert states[i + 1] == Apply(states[i], steps[i]);
  }

  /** A `create()` that fails lets its slot be cleaned up and its callers go on
      at once; one that succeeds, once its client is stored. */
  lemma SettlingUnblocks(s: State, b: nat, o: Outcome, c: nat)
    requires Enabled(s, Settle(b, o)) && !s.builds[b].released && !s.builds[b].stored
    requires c in s.callers && s.callers[c].build == b
    ensures var t := Apply(s, Settle(b, o));
            if o == Failed then Enabled(t, Release(b)) && Enabled(t, Continue(c))
            else
              && !Enabled(t, Release(b)) && !Enabled(t, Continue(c)) && Enabled(t, Store(b))
              && Enabled(Apply(t, Store(b)), Release(b)) && Enabled(Apply(t, Store(b)), Continue(c))
  {
  }
}
