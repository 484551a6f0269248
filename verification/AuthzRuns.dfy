/**
  The `Authorizer` while closures are being built. A build looks the role table,
  its principal's grants and perhaps its owner's grants up one after the other.
  Each look-up that misses the cache is a read with two awaits' worth of time in
  it: the store answers, or throws, at one moment, and the answer is cached at a
  later one. Other builds, writes to the store and invalidations happen in
  between.
 */
module AuthzRuns {
  import opened Authz
  import opened Scopes
  import opened Wrappers

  datatype Part = Roles | Own | Owner

  /** Where a build is. `seen` is the store when it answered the read, `spoiled`
      whether a write has changed that answer since. */
  datatype Phase = Want(part: Part) | Asked(part: Part) | Answered(part: Part, seen: Store, spoiled: bool) | Done

  /** A build with what it has looked up so far. `spoiled` is history: something
      it took was dirty, came from a read that threw or was spoiled, or has been
      overwritten in the store since. */
  datatype Build = Build(p: Principal, tenant: Option<string>, phase: Phase, catalog: Catalog, grants: seq<Grant>,
                         owner: Option<seq<Grant>>, spoiled: bool)

  /** `rolesDirty` and `usersDirty` are history: what a write changed, or a read
      that threw or was spoiled left in the cache, since the last invalidation
      that concerned it. They record events and never look into the caches. */
  datatype World = World(store: Store, caches: Caches, builds: map<nat, Build>, rolesDirty: bool,
                         usersDirty: set<string>)

  datatype Step =
    | Write(store: Store)
    | Invalidate(userId: Option<string>)
    | Start(b: nat, p: Principal, tenant: Option<string>)
    | Look(b: nat)      // the cache, or a read is sent
    | Answer(b: nat)    // the store answers the read, or throws
    | Finish(b: nat)    // the answer is cached and the build goes on

  /** The ids whose grants differ between two stores. */
  function Changed(s: Store, t: Store): set<string> {
    set id | id in s.grants.Keys + t.grants.Keys && GrantsOf(s, id) != GrantsOf(t, id)
  }

  predicate Enabled(w: World, step: Step) {
    match step
    case Write(_) => true
    case Invalidate(_) => true
    case Start(b, _, _) => b !in w.builds
    case Look(b) => b in w.builds && w.builds[b].phase.Want?
    case Answer(b) => b in w.builds && w.builds[b].phase.Asked?
    case Finish(b) => b in w.builds && w.builds[b].phase.Answered?
  }

  function After(setup: Setup, p: Principal, part: Part): Phase {
    match part
    case Roles => Want(Own)
    case Own => if HasOwner(setup, p) then Want(Owner) else Done
    case Owner => Done
  }

  predicate RolesTaken(b: Build) {
    b.phase == Done || b.phase.part != Roles
  }

  predicate OwnTaken(b: Build) {
    b.phase == Done || b.phase.part == Owner
  }

  /** The build has looked its principal's grants up in the store or the cache. */
  predicate LookedUp(setup: Setup, b: Build) {
    (OwnTaken(b) && !Carries(setup, b.p)) || (b.phase == Done && HasOwner(setup, b.p))
  }

  /** What a write from `s` to `t` does to a build on its way. */
  function Overwritten(setup: Setup, s: Store, t: Store, b: Build): Build {
    var rows, grants := s.rows != t.rows, b.p.id in Changed(s, t);
    var phase := if b.phase.Answered? && (if b.phase.part == Roles then rows else grants)
                 then b.phase.(spoiled := true) else b.phase;
    b.(phase := phase,
       spoiled := b.spoiled || (setup.hasStore && rows && RolesTaken(b)) || (grants && LookedUp(setup, b)))
  }

  function TookRoles(setup: Setup, b: Build, catalog: Catalog, bad: bool): Build {
    b.(phase := After(setup, b.p, Roles), catalog := catalog, spoiled := b.spoiled || bad)
  }

  function TookOwn(setup: Setup, b: Build, grants: seq<Grant>, bad: bool): Build {
    b.(phase := After(setup, b.p, Own), grants := grants, spoiled := b.spoiled || bad)
  }

  function TookOwner(b: Build, grants: seq<Grant>, bad: bool): Build {
    b.(phase := Done, owner := Some(grants), spoiled := b.spoiled || bad)
  }

  function Looked(setup: Setup, w: World, b: nat): World
    requires b in w.builds && w.builds[b].phase.Want?
  {
    var build := w.builds[b];
    var id := build.p.id;
    match build.phase.part
    case Roles =>
      if w.caches.catalog.Some? then
        w.(builds := w.builds[b := TookRoles(setup, build, w.caches.catalog.value, w.rolesDirty)])
      else if !setup.hasStore then
        w.(caches := CatalogFilled(setup, w.caches, None),
           builds := w.builds[b := TookRoles(setup, build, CatalogFrom(setup, None), false)])
      else w.(builds := w.builds[b := build.(phase := Asked(Roles))])
    case Own =>
      if Carries(setup, build.p) then w.(builds := w.builds[b := TookOwn(setup, build, Synthesize(build.p), false)])
      else if id in w.caches.grants then
        w.(builds := w.builds[b := TookOwn(setup, build, w.caches.grants[id], id in w.usersDirty)])
      else w.(builds := w.builds[b := build.(phase := Asked(Own))])
    case Owner =>
      if id in w.caches.grants then
        w.(builds := w.builds[b := TookOwner(build, w.caches.grants[id], id in w.usersDirty)])
      else w.(builds := w.builds[b := build.(phase := Asked(Owner))])
  }

  function Finished(setup: Setup, w: World, b: nat): World
    requires b in w.builds && w.builds[b].phase.Answered?
  {
    var build := w.builds[b];
    var (part, seen, id) := (build.phase.part, build.phase.seen, build.p.id);
    var bad := build.phase.spoiled || seen.down;
    match part
    case Roles =>
      w.(caches := CatalogFilled(setup, w.caches, AnswerRows(seen)), rolesDirty := w.rolesDirty || bad,
         builds := w.builds[b := TookRoles(setup, build, CatalogFrom(setup, AnswerRows(seen)), bad)])
    case Own =>
      w.(caches := GrantsFilled(w.caches, id, AnswerGrants(seen, id)),
         usersDirty := if bad then w.usersDirty + {id} else w.usersDirty,
         builds := w.builds[b := TookOwn(setup, build, GrantsFrom(AnswerGrants(seen, id)), bad)])
    case Owner =>
      w.(caches := OwnerFilled(w.caches, id, AnswerGrants(seen, id)),
         usersDirty := if build.phase.spoiled then w.usersDirty + {id} else w.usersDirty,
         builds := w.builds[b := TookOwner(build, GrantsFrom(AnswerGrants(seen, id)), bad)])
  }

  function Happen(setup: Setup, w: World, step: Step): World
    requires Enabled(w, step)
  {
    match step
    case Write(store) =>
      World(store, w.caches, map b | b in w.builds :: Overwritten(setup, w.store, store, w.builds[b]),
            w.rolesDirty || (setup.hasStore && store.rows != w.store.rows),
            w.usersDirty + Changed(w.store, store))
    case Invalidate(userId) =>
      w.(caches := Invalidated(w.caches, userId), rolesDirty := false,
         usersDirty := if userId.Some? && userId.value != "" then w.usersDirty - {userId.value} else {})
    case Start(b, p, tenant) =>
      w.(builds := w.builds[b := Build(p, tenant, Want(Roles), map[], [], None, false)])
    case Look(b) => Looked(setup, w, b)
    case Answer(b) =>
      w.(builds := w.builds[b := w.builds[b].(phase := Answered(w.builds[b].phase.part, w.store, false))])
    case Finish(b) => Finished(setup, w, b)
  }

  /** What a finished build returns. */
  function ClosureOf(b: Build): Closure {
    Closure(b.catalog, b.grants, b.owner, if b.tenant.Some? then b.tenant else b.p.tenantId)
  }

  /*
   * What every step keeps.
   */

  ghost predicate RolesOk(setup: Setup, w: World) {
    w.caches.catalog.Some? && !w.rolesDirty ==> w.caches.catalog.value == CurrentCatalog(setup, w.store)
  }

  ghost predicate GrantsOk(w: World, id: string) {
    id in w.caches.grants && id !in w.usersDirty ==> w.caches.grants[id] == GrantsOf(w.store, id)
  }

  /** A read on its way is of a part that is looked up, and unless spoiled answered what the store still holds. */
  ghost predicate PhaseOk(setup: Setup, store: Store, b: Build) {
    && (b.phase != Done && b.phase.part == Owner ==> HasOwner(setup, b.p))
    && (b.phase.Asked? || b.phase.Answered? ==>
          setup.hasStore && (b.phase.part == Own ==> !Carries(setup, b.p)))
    && (b.phase.Answered? && !b.phase.spoiled ==>
          if b.phase.part == Roles then b.phase.seen.rows == store.rows
          else GrantsOf(b.phase.seen, b.p.id) == GrantsOf(store, b.p.id))
  }

  /** What an unspoiled build has taken is what the store holds. */
  ghost predicate TakenOk(setup: Setup, store: Store, b: Build) {
    !b.spoiled ==>
      && (RolesTaken(b) ==> b.catalog == CurrentCatalog(setup, store))
      && (OwnTaken(b) ==> b.grants == OwnGrants(setup, store, b.p))
      && (b.phase == Done ==> b.owner == if HasOwner(setup, b.p) then Some(GrantsOf(store, b.p.id)) else None)
  }

  ghost predicate BuildOk(setup: Setup, w: World, n: nat) {
    n in w.builds ==>
      var b := w.builds[n];
      PhaseOk(setup, w.store, b) && TakenOk(setup, w.store, b) && (b.phase != Done ==> b.owner == None)
  }

  ghost predicate Inv(setup: Setup, w: World) {
    && RolesOk(setup, w)
    && (forall id {:trigger GrantsOk(w, id)} :: GrantsOk(w, id))
    && (forall n: nat {:trigger BuildOk(setup, w, n)} :: BuildOk(setup, w, n))
  }

  lemma StepKeepsGrants(setup: Setup, w: World, step: Step, id: string)
    requires Inv(setup, w) && Enabled(w, step)
    ensures GrantsOk(Happen(setup, w, step), id)
  {
    assert GrantsOk(w, id);
    if step.Write? {
      assert id !in Changed(w.store, step.store) ==> GrantsOf(w.store, id) == GrantsOf(step.store, id);
    } else if step.Finish? {
      assert BuildOk(setup, w, step.b);
    }
  }

  lemma StepKeepsBuild(setup: Setup, w: World, step: Step, n: nat)
    requires Inv(setup, w) && Enabled(w, step)
    ensures BuildOk(setup, Happen(setup, w, step), n)
  {
    match step
    case Write(store) => WriteKeepsBuild(setup, w, store, n);
    case Look(b) => LookKeepsBuild(setup, w, b, n);
    case Finish(b) => FinishKeepsBuild(setup, w, b, n);
    case _ => assert BuildOk(setup, w, n);
  }

  lemma LookKeepsBuild(setup: Setup, w: World, b: nat, n: nat)
    requires Inv(setup, w) && Enabled(w, Look(b))
    ensures BuildOk(setup, Looked(setup, w, b), n)
  {
    assert BuildOk(setup, w, n);
    if b == n {
      match w.builds[b].phase.part
      case Roles =>
      case Own => LookAtGrants(setup, w, b);
      case Owner => LookAtGrants(setup, w, b);
    }
  }

  lemma LookAtGrants(setup: Setup, w: World, b: nat)
    requires Inv(setup, w) && Enabled(w, Look(b)) && w.builds[b].phase.part != Roles
    ensures BuildOk(setup, Looked(setup, w, b), b)
  {
    assert BuildOk(setup, w, b) && GrantsOk(w, w.builds[b].p.id);
  }

  lemma FinishKeepsBuild(setup: Setup, w: World, b: nat, n: nat)
    requires Inv(setup, w) && Enabled(w, Finish(b))
    ensures BuildOk(setup, Finished(setup, w, b), n)
  {
    assert BuildOk(setup, w, n);
    if b == n { FinishKeepsOwn(setup, w, b); }
  }

  lemma FinishKeepsOwn(setup: Setup, w: World, b: nat)
    requires Inv(setup, w) && Enabled(w, Finish(b))
    ensures BuildOk(setup, Finished(setup, w, b), b)
  {
    assert BuildOk(setup, w, b);
  }

  lemma WriteKeepsBuild(setup: Setup, w: World, store: Store, n: nat)
    requires Inv(setup, w)
    ensures BuildOk(setup, Happen(setup, w, Write(store)), n)
  {
    assert BuildOk(setup, w, n);
    if n in w.builds {
      var id := w.builds[n].p.id;
      assert id !in Changed(w.store, store) ==> GrantsOf(w.store, id) == GrantsOf(store, id);
    }
  }

  lemma StepKeepsInv(setup: Setup, w: World, step: Step)
    requires Inv(setup, w) && Enabled(w, step)
    ensures Inv(setup, Happen(setup, w, step))
  {
    var t := Happen(setup, w, step);
    if step.Finish? { assert BuildOk(setup, w, step.b); }
    assert RolesOk(setup, t);
    forall id ensures GrantsOk(t, id) { StepKeepsGrants(setup, w, step, id); }
    forall n: nat ensures BuildOk(setup, t, n) { StepKeepsBuild(setup, w, step, n); }
  }

  ghost predicate Init(w: World) {
    w == World(w.store, Caches(None, map[]), map[], false, {})
  }

  ghost predicate Run(setup: Setup, worlds: seq<World>, steps: seq<Step>) {
    && |worlds| == |steps| + 1 && Init(worlds[0])
    && forall i :: 0 <= i < |steps| ==>
        Enabled(worlds[i], steps[i]) && worlds[i + 1] == Happen(setup, worlds[i], steps[i])
  }

  lemma {:induction false} RunKeepsInv(setup: Setup, worlds: seq<World>, steps: seq<Step>, i: nat)
    requires Run(setup, worlds, steps) && i < |worlds|
    ensures Inv(setup, worlds[i])
  {
    if i > 0 {
      RunKeepsInv(setup, worlds, steps, i - 1);
      assert worlds[i - 1 + 1] == Happen(setup, worlds[i - 1], steps[i - 1]);
      StepKeepsInv(setup, worlds[i - 1], steps[i - 1]);
    }
  }

  /** In every run, reads that throw and reads overlapped by writes included: a
      closure whose build was not spoiled decides every request as the uncached
      policy over the store as it is now; for an API key that is its carried
      roles and its owner's live grants. */
  lemma ClosuresAreCurrent(setup: Setup, worlds: seq<World>, steps: seq<Step>, i: nat, n: nat, permission: string,
                           resource: Resource)
    requires Run(setup, worlds, steps) && i < |worlds|
    requires n in worlds[i].builds && worlds[i].builds[n].phase == Done && !worlds[i].builds[n].spoiled
    ensures var (w, b) := (worlds[i], worlds[i].builds[n]);
            var k := ClosureOf(b);
            Decides(k, permission, resource) <==>
              Uncached(setup, w.store, b.p, permission, RequestScope(k, resource))
  {
    RunKeepsInv(setup, worlds, steps, i);
    assert BuildOk(setup, worlds[i], n);
  }

  /*
   * Which runs leave a build unspoiled.
   */

  /** The read of build `n`, if it has one answered that can reach closures of
      `id`, is neither failed nor spoiled. */
  ghost predicate ReadIsGood(w: World, id: string, n: nat) {
    n in w.builds && w.builds[n].phase.Answered? && Reaches(w.builds[n], id) ==>
      !w.builds[n].phase.spoiled && !w.builds[n].phase.seen.down
  }

  /** What the build is reading is shared by closures of `id`. */
  predicate Reaches(b: Build, id: string)
    requires b.phase != Done
  {
    b.phase.part == Roles || b.p.id == id
  }

  ghost predicate GoodFor(w: World, id: string) {
    && !w.rolesDirty && id !in w.usersDirty
    && forall n: nat {:trigger ReadIsGood(w, id, n)} :: ReadIsGood(w, id, n)
  }

  /** A step that does not concern `id`: a write leaves the role table and the
      user's grants as they are, and no read that reaches `id` throws. */
  ghost predicate Quiet(w: World, step: Step, id: string) {
    match step
    case Write(store) => store.rows == w.store.rows && id !in Changed(w.store, store)
    case Answer(b) => b in w.builds && w.builds[b].phase.Asked? && Reaches(w.builds[b], id) ==> !w.store.down
    case _ => true
  }

  lemma QuietStepKeepsGood(setup: Setup, w: World, step: Step, id: string)
    requires GoodFor(w, id) && Enabled(w, step) && Quiet(w, step, id)
    ensures GoodFor(Happen(setup, w, step), id)
  {
    var t := Happen(setup, w, step);
    if step.Finish? { assert ReadIsGood(w, id, step.b); }
    forall n: nat ensures ReadIsGood(t, id, n) { assert ReadIsGood(w, id, n); }
  }

  ghost predicate QuietFrom(worlds: seq<World>, steps: seq<Step>, j: nat, i: nat, id: string)
    requires j <= i <= |steps| < |worlds|
  {
    forall k :: j <= k < i ==> Quiet(worlds[k], steps[k], id)
  }

  lemma {:induction false} QuietRunStaysGood(setup: Setup, worlds: seq<World>, steps: seq<Step>, j: nat, i: nat,
                                             id: string, n: nat)
    requires Run(setup, worlds, steps) && j <= i < |worlds| && QuietFrom(worlds, steps, j, i, id)
    requires GoodFor(worlds[j], id) && n !in worlds[j].builds
    ensures GoodFor(worlds[i], id)
    ensures n in worlds[i].builds && worlds[i].builds[n].p.id == id ==> !worlds[i].builds[n].spoiled
    decreases i - j
  {
    if j < i {
      QuietRunStaysGood(setup, worlds, steps, j, i - 1, id, n);
      assert worlds[i - 1 + 1] == Happen(setup, worlds[i - 1], steps[i - 1]);
      QuietStepKeepsGood(setup, worlds[i - 1], steps[i - 1], id);
      if steps[i - 1].Finish? { assert ReadIsGood(worlds[i - 1], id, steps[i - 1].b); }
    }
  }

  /** An invalidation that concerns the user: of that user, or of all. */
  predicate Invalidates(step: Step, id: string) {
    step.Invalidate? && (step.userId == None || step.userId == Some("") || step.userId == Some(id))
  }

  /** A read that reaches `id` has been answered and waits to be cached. */
  predicate AwaitsCaching(w: World, id: string, n: nat) {
    n in w.builds && w.builds[n].phase.Answered? && Reaches(w.builds[n], id)
  }

  /** In every run: after an invalidation of the user, with no earlier answer left
      to be cached, the user's closures decide exactly as the uncached policy,
      as long as no read for the user or of the role table throws and no write
      changes the user's grants or the role table. Other users' reads may fail,
      and writes to them may go uninvalidated. The same holds from the start. */
  lemma CurrentSinceInvalidation(setup: Setup, worlds: seq<World>, steps: seq<Step>, j: nat, i: nat, n: nat,
                                 permission: string, resource: Resource)
    requires Run(setup, worlds, steps) && j <= i < |worlds|
    requires n !in worlds[j].builds && n in worlds[i].builds && worlds[i].builds[n].phase == Done
    requires j == 0 || Invalidates(steps[j - 1], worlds[i].builds[n].p.id)
    requires forall m :: !AwaitsCaching(worlds[j], worlds[i].builds[n].p.id, m)
    requires QuietFrom(worlds, steps, j, i, worlds[i].builds[n].p.id)
    ensures var (w, b) := (worlds[i], worlds[i].builds[n]);
            Decides(ClosureOf(b), permission, resource) <==>
              Uncached(setup, w.store, b.p, permission, RequestScope(ClosureOf(b), resource))
  {
    var id := worlds[i].builds[n].p.id;
    if j > 0 { assert worlds[j - 1 + 1] == Happen(setup, worlds[j - 1], steps[j - 1]); }
    forall m: nat ensures ReadIsGood(worlds[j], id, m) { assert !AwaitsCaching(worlds[j], id, m); }
    QuietRunStaysGood(setup, worlds, steps, j, i, id, n);
    ClosuresAreCurrent(setup, worlds, steps, i, n, permission, resource);
  }

  /*
   * The documented discipline: invalidate after every write.
   */

  /** The invalidation concerns everyone whose grants the write changed. */
  predicate Covers(s: Store, t: Store, userId: Option<string>) {
    userId == None || userId == Some("") || Changed(s, t) <= {userId.value}
  }

  /** The store is never down, a write comes when no answer waits to be cached,
      and the next step is an invalidation that covers it. */
  ghost predicate Disciplined(worlds: seq<World>, steps: seq<Step>, i: nat)
    requires i < |steps| < |worlds|
  {
    steps[i].Write? ==>
      && !steps[i].store.down
      && (forall n :: n in worlds[i].builds ==> !worlds[i].builds[n].phase.Answered?)
      && (i + 1 < |steps| ==>
            steps[i + 1].Invalidate? && Covers(worlds[i].store, steps[i].store, steps[i + 1].userId))
  }

  ghost predicate Discipline(worlds: seq<World>, steps: seq<Step>)
    requires |worlds| == |steps| + 1
  {
    !worlds[0].store.down && forall i :: 0 <= i < |steps| ==> Disciplined(worlds, steps, i)
  }

  /** Nothing dirty in the caches, no bad answer on its way, and the store is up. */
  ghost predicate Clean(w: World) {
    !w.store.down && forall id {:trigger GoodFor(w, id)} :: GoodFor(w, id)
  }

  lemma CleanStep(setup: Setup, w: World, step: Step)
    requires Clean(w) && Enabled(w, step) && !step.Write?
    ensures Clean(Happen(setup, w, step))
  {
    forall id ensures GoodFor(Happen(setup, w, step), id) {
      assert GoodFor(w, id);
      QuietStepKeepsGood(setup, w, step, id);
    }
  }

  /** A write followed by the invalidation of whom it concerns leaves nothing
      dirty, when nothing else was and no read was on its way. */
  lemma WriteThenInvalidate(setup: Setup, w: World, store: Store, userId: Option<string>)
    requires Clean(w) && !store.down && forall n :: n in w.builds ==> !w.builds[n].phase.Answered?
    requires Covers(w.store, store, userId)
    ensures Clean(Happen(setup, Happen(setup, w, Write(store)), Invalidate(userId)))
  {
    var t := Happen(setup, Happen(setup, w, Write(store)), Invalidate(userId));
    forall id ensures GoodFor(t, id) {
      assert GoodFor(w, id);
      forall n: nat ensures ReadIsGood(t, id, n) { assert ReadIsGood(w, id, n); }
    }
  }

  lemma {:induction false} DisciplineKeepsClean(setup: Setup, worlds: seq<World>, steps: seq<Step>, i: nat)
    requires Run(setup, worlds, steps) && Discipline(worlds, steps) && i < |worlds|
    requires i == 0 || !steps[i - 1].Write?
    ensures Clean(worlds[i])
  {
    if i == 0 {
      forall id ensures GoodFor(worlds[0], id) {
        forall n: nat ensures ReadIsGood(worlds[0], id, n) { }
      }
    } else {
      assert worlds[i - 1 + 1] == Happen(setup, worlds[i - 1], steps[i - 1]);
      if i > 1 && steps[i - 2].Write? {
        assert Disciplined(worlds, steps, i - 2);
        assert worlds[i - 2 + 1] == Happen(setup, worlds[i - 2], steps[i - 2]);
        assert i == 2 || !steps[i - 3].Write? by {
          if i > 2 { assert Disciplined(worlds, steps, i - 3); }
        }
        DisciplineKeepsClean(setup, worlds, steps, i - 2);
        WriteThenInvalidate(setup, worlds[i - 2], steps[i - 2].store, steps[i - 1].userId);
      } else {
        DisciplineKeepsClean(setup, worlds, steps, i - 1);
        CleanStep(setup, worlds[i - 1], steps[i - 1]);
      }
    }
  }

  /** In every run of that discipline, every closure begun after a write's
      invalidation decides exactly as the uncached policy until the next write. */
  lemma DisciplineKeepsClosuresCurrent(setup: Setup, worlds: seq<World>, steps: seq<Step>, j: nat, i: nat, n: nat,
                                       permission: string, resource: Resource)
    requires Run(setup, worlds, steps) && Discipline(worlds, steps) && j <= i < |worlds|
    requires (j == 0 || !steps[j - 1].Write?) && forall k :: j <= k < i ==> !steps[k].Write?
    requires n !in worlds[j].builds && n in worlds[i].builds && worlds[i].builds[n].phase == Done
    ensures var (w, b) := (worlds[i], worlds[i].builds[n]);
            Decides(ClosureOf(b), permission, resource) <==>
              Uncached(setup, w.store, b.p, permission, RequestScope(ClosureOf(b), resource))
  {
    var id := worlds[i].builds[n].p.id;
    forall k | j <= k < i ensures Quiet(worlds[k], steps[k], id) {
      assert k == 0 || !steps[k - 1].Write?;
      DisciplineKeepsClean(setup, worlds, steps, k);
    }
    DisciplineKeepsClean(setup, worlds, steps, j);
    assert GoodFor(worlds[j], id);
    QuietRunStaysGood(setup, worlds, steps, j, i, id, n);
    ClosuresAreCurrent(setup, worlds, steps, i, n, permission, resource);
  }

  /*
   * Outside those runs closures can be out of date, and wrong, for good.
   */

  lemma Extend(setup: Setup, worlds0: seq<World>, steps0: seq<Step>, step: Step)
    returns (worlds: seq<World>, steps: seq<Step>)
    requires Run(setup, worlds0, steps0) && Enabled(worlds0[|worlds0| - 1], step)
    ensures Run(setup, worlds, steps) && steps == steps0 + [step] && worlds[0] == worlds0[0]
    ensures worlds[|worlds| - 1] == Happen(setup, worlds0[|worlds0| - 1], step)
  {
    worlds, steps := worlds0 + [Happen(setup, worlds0[|worlds0| - 1], step)], steps0 + [step];
  }

  /** From the catalog and the grants in the cache a user's closure is built
      without a read. */
  lemma BuildFromCache(setup: Setup, worlds0: seq<World>, steps0: seq<Step>, n: nat, p: Principal)
    returns (worlds: seq<World>, steps: seq<Step>)
    requires Run(setup, worlds0, steps0) && n !in worlds0[|worlds0| - 1].builds
    requires !HasOwner(setup, p) && var w := worlds0[|worlds0| - 1];
             w.caches.catalog.Some? && (Carries(setup, p) || p.id in w.caches.grants)
    ensures Run(setup, worlds, steps) && worlds[0] == worlds0[0]
    ensures steps == steps0 + [Start(n, p, None), Look(n), Look(n)]
    ensures var w, t := worlds0[|worlds0| - 1], worlds[|worlds| - 1];
            var grants := if Carries(setup, p) then Synthesize(p) else w.caches.grants[p.id];
            && n in t.builds && t == w.(builds := w.builds[n := t.builds[n]])
            && t.builds[n].p == p && t.builds[n].phase == Done
            && ClosureOf(t.builds[n]) == Closure(w.caches.catalog.value, grants, None, p.tenantId)
  {
    worlds, steps := Extend(setup, worlds0, steps0, Start(n, p, None));
    worlds, steps := Extend(setup, worlds, steps, Look(n));
    worlds, steps := Extend(setup, worlds, steps, Look(n));
  }

  function NoBuilds(store: Store): World {
    World(store, Caches(None, map[]), map[], false, {})
  }

  function Down(store: Store): Store {
    store.(down := true)
  }

  /** The store is down at the first build and up again afterwards. */
  lemma CacheDefaults(setup: Setup, store: Store, first: Principal) returns (worlds: seq<World>, steps: seq<Step>)
    requires setup.hasStore && !store.down
    ensures Run(setup, worlds, steps) && worlds[0] == NoBuilds(Down(store))
    ensures steps == [Start(0, first, None), Look(0), Answer(0), Finish(0), Write(store)]
    ensures var w := worlds[|worlds| - 1];
            w.store == store && w.caches.catalog == Some(CatalogOf(setup.defaults)) && w.builds.Keys == {0}
  {
    worlds, steps := [NoBuilds(Down(store))], [];
    worlds, steps := Extend(setup, worlds, steps, Start(0, first, None));
    worlds, steps := Extend(setup, worlds, steps, Look(0));
    worlds, steps := Extend(setup, worlds, steps, Answer(0));
    worlds, steps := Extend(setup, worlds, steps, Finish(0));
    worlds, steps := Extend(setup, worlds, steps, Write(store));
  }

  /** A read of the role table that throws is cached like one that found it
      empty: with the store up again, later closures decide by the built-in roles
      whatever the store's table says. No write calls for an invalidation. */
  lemma FailedReadSticks(setup: Setup, store: Store, first: Principal, p: Principal)
    returns (worlds: seq<World>, steps: seq<Step>)
    requires setup.hasStore && !store.down && Carries(setup, p) && !HasOwner(setup, p)
    ensures Run(setup, worlds, steps) && worlds[0] == NoBuilds(Down(store))
    ensures steps == [Start(0, first, None), Look(0), Answer(0), Finish(0), Write(store)] +
                     [Start(1, p, None), Look(1), Look(1)]
    ensures var w := worlds[|worlds| - 1];
            && w.store == store && 1 in w.builds && w.builds[1].phase == Done && w.builds[1].p == p
            && ClosureOf(w.builds[1]) == Closure(CatalogOf(setup.defaults), Synthesize(p), None, p.tenantId)
  {
    worlds, steps := CacheDefaults(setup, store, first);
    worlds, steps := BuildFromCache(setup, worlds, steps, 1, p);
  }

  /** A user's first build up to its own grants being asked for. */
  lemma AskForGrants(setup: Setup, store: Store, p: Principal) returns (worlds: seq<World>, steps: seq<Step>)
    requires setup.hasStore && !store.down && !Carries(setup, p)
    ensures Run(setup, worlds, steps) && worlds[0] == NoBuilds(store)
    ensures steps == [Start(0, p, None), Look(0), Answer(0), Finish(0), Look(0)]
    ensures var w := worlds[|worlds| - 1];
            && w == World(store, Caches(Some(CurrentCatalog(setup, store)), map[]), w.builds, false, {})
            && w.builds == map[0 := Build(p, None, Asked(Own), CurrentCatalog(setup, store), [], None, false)]
  {
    worlds, steps := [NoBuilds(store)], [];
    worlds, steps := Extend(setup, worlds, steps, Start(0, p, None));
    worlds, steps := Extend(setup, worlds, steps, Look(0));
    worlds, steps := Extend(setup, worlds, steps, Answer(0));
    worlds, steps := Extend(setup, worlds, steps, Finish(0));
    worlds, steps := Extend(setup, worlds, steps, Look(0));
  }

  lemma CacheNoGrants(setup: Setup, store: Store, p: Principal) returns (worlds: seq<World>, steps: seq<Step>)
    requires setup.hasStore && !store.down && !Carries(setup, p)
    ensures Run(setup, worlds, steps) && worlds[0] == NoBuilds(store)
    ensures steps == [Start(0, p, None), Look(0), Answer(0), Finish(0), Look(0)] +
                     [Write(Down(store)), Answer(0), Finish(0), Write(store)]
    ensures var w := worlds[|worlds| - 1];
            w.store == store && w.builds.Keys == {0} &&
            w.caches == Caches(Some(CurrentCatalog(setup, store)), map[p.id := []])
  {
    worlds, steps := AskForGrants(setup, store, p);
    worlds, steps := Extend(setup, worlds, steps, Write(Down(store)));
    worlds, steps := Extend(setup, worlds, steps, Answer(0));
    worlds, steps := Extend(setup, worlds, steps, Finish(0));
    worlds, steps := Extend(setup, worlds, steps, Write(store));
  }

  /** A user's read that throws is cached as no grants: after one moment of the
      store being down the user's closures allow nothing. They are wrong on
      exactly the requests that the user's grants in the store allow. */
  lemma FailedGrantReadSticks(setup: Setup, store: Store, p: Principal)
    returns (worlds: seq<World>, steps: seq<Step>)
    requires setup.hasStore && !store.down && !Carries(setup, p)
    ensures Run(setup, worlds, steps) && worlds[0] == NoBuilds(store)
    ensures steps == [Start(0, p, None), Look(0), Answer(0), Finish(0), Look(0)] +
                     [Write(Down(store)), Answer(0), Finish(0), Write(store)] +
                     [Start(1, p, None), Look(1), Look(1)]
    ensures var w := worlds[|worlds| - 1];
            && w.store == store && w.builds.Keys == {0, 1} && w.builds[1].phase == Done && w.builds[1].p == p
            && w.caches == Caches(Some(CurrentCatalog(setup, store)), map[p.id := []])
            && var k := ClosureOf(w.builds[1]);
               forall permission, resource ::
                 !Decides(k, permission, resource) &&
                 (Uncached(setup, store, p, permission, RequestScope(k, resource)) <==>
                  Allows(GrantsOf(store, p.id), CurrentCatalog(setup, store), permission, RequestScope(k, resource)))
  {
    worlds, steps := CacheNoGrants(setup, store, p);
    worlds, steps := BuildFromCache(setup, worlds, steps, 1, p);
  }

  /** The same cache serves owners: API keys of that user are denied everything too. */
  lemma FailedGrantReadDeniesKeys(setup: Setup, store: Store, p: Principal, key: Principal)
    returns (worlds: seq<World>, steps: seq<Step>)
    requires setup.hasStore && !store.down && !Carries(setup, p) && key.kind == ApiKey && key.id == p.id
    ensures Run(setup, worlds, steps) && worlds[0] == NoBuilds(store)
    ensures var w := worlds[|worlds| - 1];
            && w.store == store && 2 in w.builds && w.builds[2].phase == Done && w.builds[2].p == key
            && forall permission, resource :: !Decides(ClosureOf(w.builds[2]), permission, resource)
  {
    worlds, steps := FailedGrantReadSticks(setup, store, p);
    worlds, steps := Extend(setup, worlds, steps, Start(2, key, None));
    worlds, steps := Extend(setup, worlds, steps, Look(2));
    worlds, steps := Extend(setup, worlds, steps, Look(2));
    worlds, steps := Extend(setup, worlds, steps, Look(2));
  }

  function Regranted(store: Store, id: string, grants: seq<Grant>): Store {
    store.(grants := store.grants[id := grants])
  }

  /** The store answers, the grants are changed and the user invalidated, and
      only then is the old answer cached. */
  lemma FillLate(setup: Setup, store: Store, p: Principal, grants: seq<Grant>)
    returns (worlds: seq<World>, steps: seq<Step>)
    requires setup.hasStore && !store.down && !Carries(setup, p) && p.id != ""
    ensures Run(setup, worlds, steps) && worlds[0] == NoBuilds(store)
    ensures steps == [Start(0, p, None), Look(0), Answer(0), Finish(0), Look(0)] +
                     [Answer(0), Write(Regranted(store, p.id, grants)), Invalidate(Some(p.id)), Finish(0)]
    ensures var w := worlds[|worlds| - 1];
            && w.store == Regranted(store, p.id, grants) && w.builds.Keys == {0}
            && w.caches == Caches(None, map[p.id := GrantsOf(store, p.id)])
  {
    worlds, steps := AskForGrants(setup, store, p);
    worlds, steps := Extend(setup, worlds, steps, Answer(0));
    worlds, steps := Extend(setup, worlds, steps, Write(Regranted(store, p.id, grants)));
    worlds, steps := Extend(setup, worlds, steps, Invalidate(Some(p.id)));
    worlds, steps := Extend(setup, worlds, steps, Finish(0));
  }

  /** A build that finds its grants cached and reads the role table. */
  lemma BuildWithRead(setup: Setup, worlds0: seq<World>, steps0: seq<Step>, n: nat, p: Principal)
    returns (worlds: seq<World>, steps: seq<Step>)
    requires Run(setup, worlds0, steps0) && n !in worlds0[|worlds0| - 1].builds
    requires !HasOwner(setup, p) && !Carries(setup, p)
    requires var w := worlds0[|worlds0| - 1]; w.caches.catalog.None? && p.id in w.caches.grants && !w.store.down
    ensures Run(setup, worlds, steps) && worlds[0] == worlds0[0]
    ensures steps == steps0 + [Start(n, p, None), Look(n), Answer(n), Finish(n), Look(n)]
    ensures var w, t := worlds0[|worlds0| - 1], worlds[|worlds| - 1];
            && t.store == w.store && n in t.builds && t.builds[n].p == p && t.builds[n].phase == Done
            && ClosureOf(t.builds[n]) ==
               Closure(CurrentCatalog(setup, w.store), w.caches.grants[p.id], None, p.tenantId)
  {
    worlds, steps := Extend(setup, worlds0, steps0, Start(n, p, None));
    worlds, steps := Extend(setup, worlds, steps, Look(n));
    worlds, steps := Extend(setup, worlds, steps, Answer(n));
    worlds, steps := Extend(setup, worlds, steps, Finish(n));
    worlds, steps := Extend(setup, worlds, steps, Look(n));
  }

  /** A read that a write overtakes goes stale for good: later closures decide by
      the old grants with no invalidation left to come. */
  lemma LateFillGoesStale(setup: Setup, store: Store, p: Principal, grants: seq<Grant>)
    returns (worlds: seq<World>, steps: seq<Step>)
    requires setup.hasStore && !store.down && !Carries(setup, p) && p.id != ""
    ensures Run(setup, worlds, steps) && worlds[0] == NoBuilds(store)
    ensures steps == [Start(0, p, None), Look(0), Answer(0), Finish(0), Look(0)] +
                     [Answer(0), Write(Regranted(store, p.id, grants)), Invalidate(Some(p.id)), Finish(0)] +
                     [Start(1, p, None), Look(1), Answer(1), Finish(1), Look(1)]
    ensures var w := worlds[|worlds| - 1];
            && w.store == Regranted(store, p.id, grants) && OwnGrants(setup, w.store, p) == grants
            && 1 in w.builds && w.builds[1].phase == Done && w.builds[1].p == p
            && ClosureOf(w.builds[1]) ==
               Closure(CurrentCatalog(setup, w.store), GrantsOf(store, p.id), None, p.tenantId)
  {
    worlds, steps := FillLate(setup, store, p, grants);
    worlds, steps := BuildWithRead(setup, worlds, steps, 1, p);
  }

  /** A role with all permissions, granted everywhere, allows every request. */
  lemma GlobalRoleAllows(rows: seq<RolePermission>, role: string, permission: string, scope: string)
    requires RolePermission(role, "*") in rows
    ensures Allows([Grant(role, GLOBAL_SCOPE)], CatalogOf(rows), permission, scope)
  {
    CatalogDescribes(rows);
    CoversReflexive(scope);
    assert RolePermission(role, "*").role == role;
    assert Grant(role, GLOBAL_SCOPE) in [Grant(role, GLOBAL_SCOPE)];
  }

  /** A revocation is lost for good: the user's only grant, of a role that may
      do everything everywhere, is revoked and the user invalidated, the store
      allows the user nothing any more, and later closures allow everything. */
  lemma RevokedStillAllowed(setup: Setup, store: Store, p: Principal, role: string)
    returns (worlds: seq<World>, steps: seq<Step>)
    requires setup.hasStore && !store.down && !Carries(setup, p) && p.id != ""
    requires GrantsOf(store, p.id) == [Grant(role, GLOBAL_SCOPE)] && RolePermission(role, "*") in store.rows
    ensures Run(setup, worlds, steps) && worlds[0] == NoBuilds(store)
    ensures Write(Regranted(store, p.id, [])) in steps && Invalidate(Some(p.id)) in steps
    ensures var w := worlds[|worlds| - 1];
            && w.store == Regranted(store, p.id, []) && 1 in w.builds && w.builds[1].phase == Done
            && w.builds[1].p == p
            && var k := ClosureOf(w.builds[1]);
               forall permission, resource ::
                 Decides(k, permission, resource) &&
                 !Uncached(setup, w.store, p, permission, RequestScope(k, resource))
  {
    worlds, steps := LateFillGoesStale(setup, store, p, []);
    var w := worlds[|worlds| - 1];
    var k := ClosureOf(w.builds[1]);
    assert steps[6] == Write(Regranted(store, p.id, [])) && steps[7] == Invalidate(Some(p.id));
    forall permission, resource
      ensures Decides(k, permission, resource)
      ensures !Uncached(setup, w.store, p, permission, RequestScope(k, resource))
    {
      GlobalRoleAllows(store.rows, role, permission, RequestScope(k, resource));
    }
  }

  function Retabled(store: Store, rows: seq<RolePermission>): Store {
    store.(rows := rows)
  }

  lemma FillRolesLate(setup: Setup, store: Store, p: Principal, rows: seq<RolePermission>)
    returns (worlds: seq<World>, steps: seq<Step>)
    requires setup.hasStore && !store.down
    ensures Run(setup, worlds, steps) && worlds[0] == NoBuilds(store)
    ensures steps == [Start(0, p, None), Look(0), Answer(0)] +
                     [Write(Retabled(store, rows)), Invalidate(None), Finish(0)]
    ensures var w := worlds[|worlds| - 1];
            w.store == Retabled(store, rows) && w.builds.Keys == {0} &&
            w.caches.catalog == Some(CurrentCatalog(setup, store))
  {
    worlds, steps := [NoBuilds(store)], [];
    worlds, steps := Extend(setup, worlds, steps, Start(0, p, None));
    worlds, steps := Extend(setup, worlds, steps, Look(0));
    worlds, steps := Extend(setup, worlds, steps, Answer(0));
    worlds, steps := Extend(setup, worlds, steps, Write(Retabled(store, rows)));
    worlds, steps := Extend(setup, worlds, steps, Invalidate(None));
    worlds, steps := Extend(setup, worlds, steps, Finish(0));
  }

  /** A read of the role table goes stale the same way: the store answers, the
      table is rewritten and everything invalidated, and only then is the old
      answer cached. */
  lemma LateRolesGoStale(setup: Setup, store: Store, p: Principal, rows: seq<RolePermission>)
    returns (worlds: seq<World>, steps: seq<Step>)
    requires setup.hasStore && !store.down && Carries(setup, p) && !HasOwner(setup, p)
    ensures Run(setup, worlds, steps) && worlds[0] == NoBuilds(store)
    ensures steps == [Start(0, p, None), Look(0), Answer(0)] +
                     [Write(Retabled(store, rows)), Invalidate(None), Finish(0)] +
                     [Start(1, p, None), Look(1), Look(1)]
    ensures var w := worlds[|worlds| - 1];
            && w.store == Retabled(store, rows) && 1 in w.builds && w.builds[1].phase == Done && w.builds[1].p == p
            && ClosureOf(w.builds[1]) == Closure(CurrentCatalog(setup, store), Synthesize(p), None, p.tenantId)
  {
    worlds, steps := FillRolesLate(setup, store, p, rows);
    worlds, steps := BuildFromCache(setup, worlds, steps, 1, p);
  }

  /** The scope a principal's carried roles are granted at. */
  function OwnScope(p: Principal): string {
    ScopeToString(ScopeInput(p.tenantId, p.environment, None))
  }

  /** One carried role allows what its rows say, within the principal's scope. */
  lemma CarriedRoleAllows(rows: seq<RolePermission>, p: Principal, role: string, permission: string, scope: string)
    requires p.roles == [role]
    ensures RolePermission(role, "*") in rows ==>
              (Allows(Synthesize(p), CatalogOf(rows), permission, scope) <==> ScopeCovers(OwnScope(p), scope))
    ensures (forall r :: r in rows ==> r.role != role) ==> !Allows(Synthesize(p), CatalogOf(rows), permission, scope)
  {
    CatalogDescribes(rows);
    assert Synthesize(p) == [Grant(role, OwnScope(p))];
    assert Grant(role, OwnScope(p)) in Synthesize(p);
    if RolePermission(role, "*") in rows { assert RolePermission(role, "*").role == role; }
  }

  /** A role that could do everything is taken out of the table and everything
      is invalidated: a service that carries it may still do everything in its
      scope, where the store now allows it nothing. */
  lemma RemovedRoleStillAllows(setup: Setup, store: Store, p: Principal, role: string, rows: seq<RolePermission>)
    returns (worlds: seq<World>, steps: seq<Step>)
    requires setup.hasStore && !store.down && Carries(setup, p) && !HasOwner(setup, p) && p.roles == [role]
    requires RolePermission(role, "*") in store.rows && rows != [] && forall r :: r in rows ==> r.role != role
    ensures Run(setup, worlds, steps) && worlds[0] == NoBuilds(store)
    ensures Write(Retabled(store, rows)) in steps && Invalidate(None) in steps
    ensures var w := worlds[|worlds| - 1];
            && w.store == Retabled(store, rows) && 1 in w.builds && w.builds[1].phase == Done && w.builds[1].p == p
            && var k := ClosureOf(w.builds[1]);
               forall permission, resource ::
                 (Decides(k, permission, resource) <==> ScopeCovers(OwnScope(p), RequestScope(k, resource))) &&
                 !Uncached(setup, w.store, p, permission, RequestScope(k, resource))
  {
    worlds, steps := LateRolesGoStale(setup, store, p, rows);
    var w := worlds[|worlds| - 1];
    var k := ClosureOf(w.builds[1]);
    assert steps[3] == Write(Retabled(store, rows)) && steps[4] == Invalidate(None);
    forall permission, resource
      ensures Decides(k, permission, resource) <==> ScopeCovers(OwnScope(p), RequestScope(k, resource))
      ensures !Uncached(setup, w.store, p, permission, RequestScope(k, resource))
    {
      CarriedRoleAllows(store.rows, p, role, permission, RequestScope(k, resource));
      CarriedRoleAllows(rows, p, role, permission, RequestScope(k, resource));
    }
  }

  /** The built-in table stays in force after a read that threw: a role only it
      knows may still do everything, where the store's own table allows nothing. */
  lemma DefaultsStillAllow(setup: Setup, store: Store, first: Principal, p: Principal, role: string)
    returns (worlds: seq<World>, steps: seq<Step>)
    requires setup.hasStore && !store.down && Carries(setup, p) && !HasOwner(setup, p) && p.roles == [role]
    requires RolePermission(role, "*") in setup.defaults
    requires store.rows != [] && forall r :: r in store.rows ==> r.role != role
    ensures Run(setup, worlds, steps) && worlds[0] == NoBuilds(Down(store))
    ensures var w := worlds[|worlds| - 1];
            && w.store == store && 1 in w.builds && w.builds[1].phase == Done && w.builds[1].p == p
            && var k := ClosureOf(w.builds[1]);
               forall permission, resource ::
                 (Decides(k, permission, resource) <==> ScopeCovers(OwnScope(p), RequestScope(k, resource))) &&
                 !Uncached(setup, w.store, p, permission, RequestScope(k, resource))
  {
    worlds, steps := FailedReadSticks(setup, store, first, p);
    var w := worlds[|worlds| - 1];
    var k := ClosureOf(w.builds[1]);
    forall permission, resource
      ensures Decides(k, permission, resource) <==> ScopeCovers(OwnScope(p), RequestScope(k, resource))
      ensures !Uncached(setup, w.store, p, permission, RequestScope(k, resource))
    {
      CarriedRoleAllows(setup.defaults, p, role, permission, RequestScope(k, resource));
      CarriedRoleAllows(store.rows, p, role, permission, RequestScope(k, resource));
    }
  }
}
