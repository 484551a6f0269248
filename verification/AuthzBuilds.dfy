/**
  One build of a closure with nothing in between: the steps of a run add up to
  what `authorizeClosure` does as a whole.
 */
module AuthzBuilds {
  import opened Authz
  import opened AuthzRuns
  import opened Wrappers

  /** Build `n` of the last world of a run has yet to take this part. */
  ghost predicate Wants(setup: Setup, worlds: seq<World>, steps: seq<Step>, n: nat, part: Part) {
    Run(setup, worlds, steps) && var w := worlds[|steps|]; n in w.builds && w.builds[n].phase == Want(part)
  }

  /** From `w` to `t` only the caches and the build changed. */
  ghost predicate BuiltOn(w: World, t: World, n: nat, caches: Caches, build: Build) {
    n in t.builds && t.store == w.store && t.caches == caches && t.builds == w.builds[n := t.builds[n]] &&
    t.builds[n] == build.(spoiled := t.builds[n].spoiled)
  }

  lemma RolesPart(setup: Setup, worlds0: seq<World>, steps0: seq<Step>, n: nat)
    returns (worlds: seq<World>, steps: seq<Step>)
    requires Wants(setup, worlds0, steps0, n, Roles)
    ensures Wants(setup, worlds, steps, n, Own) && steps0 <= steps && worlds[0] == worlds0[0]
    ensures var w := worlds0[|steps0|];
            var (caches, catalog) := LoadCatalog(setup, w.store, w.caches);
            BuiltOn(w, worlds[|steps|], n, caches, w.builds[n].(phase := Want(Own), catalog := catalog))
  {
    var w := worlds0[|steps0|];
    worlds, steps := Extend(setup, worlds0, steps0, Look(n));
    if w.caches.catalog.None? && setup.hasStore {
      worlds, steps := Extend(setup, worlds, steps, Answer(n));
      worlds, steps := Extend(setup, worlds, steps, Finish(n));
    }
  }

  lemma OwnPart(setup: Setup, worlds0: seq<World>, steps0: seq<Step>, n: nat)
    returns (worlds: seq<World>, steps: seq<Step>)
    requires Wants(setup, worlds0, steps0, n, Own)
    ensures Run(setup, worlds, steps) && steps0 <= steps && worlds[0] == worlds0[0]
    ensures var w := worlds0[|steps0|];
            var p := w.builds[n].p;
            var (caches, grants) := GrantsFor(setup, w.store, w.caches, p);
            BuiltOn(w, worlds[|steps|], n, caches,
                    w.builds[n].(phase := if HasOwner(setup, p) then Want(Owner) else Done, grants := grants))
  {
    var w := worlds0[|steps0|];
    var p := w.builds[n].p;
    worlds, steps := Extend(setup, worlds0, steps0, Look(n));
    if !Carries(setup, p) && p.id !in w.caches.grants {
      worlds, steps := Extend(setup, worlds, steps, Answer(n));
      worlds, steps := Extend(setup, worlds, steps, Finish(n));
    }
  }

  lemma OwnerPart(setup: Setup, worlds0: seq<World>, steps0: seq<Step>, n: nat)
    returns (worlds: seq<World>, steps: seq<Step>)
    requires Wants(setup, worlds0, steps0, n, Owner) && HasOwner(setup, worlds0[|steps0|].builds[n].p)
    ensures Run(setup, worlds, steps) && steps0 <= steps && worlds[0] == worlds0[0]
    ensures var w := worlds0[|steps0|];
            var (caches, owner) := OwnerGrants(setup, w.store, w.caches, w.builds[n].p.id);
            BuiltOn(w, worlds[|steps|], n, caches, w.builds[n].(phase := Done, owner := Some(owner)))
  {
    var w := worlds0[|steps0|];
    worlds, steps := Extend(setup, worlds0, steps0, Look(n));
    if w.builds[n].p.id !in w.caches.grants {
      worlds, steps := Extend(setup, worlds, steps, Answer(n));
      worlds, steps := Extend(setup, worlds, steps, Finish(n));
    }
  }

  /** From every world of a run: a build that nothing interrupts leaves the
      caches, and returns the closure, that the sequential specification of
      `authorizeClosure` gives, whatever the caches held and whether or not the
      store is up. */
  lemma BuildAlone(setup: Setup, worlds0: seq<World>, steps0: seq<Step>, n: nat, p: Principal, tenant: Option<string>)
    returns (worlds: seq<World>, steps: seq<Step>)
    requires Run(setup, worlds0, steps0) && n !in worlds0[|steps0|].builds
    ensures Run(setup, worlds, steps) && steps0 <= steps && worlds[0] == worlds0[0]
    ensures var (w, t) := (worlds0[|steps0|], worlds[|steps|]);
            && n in t.builds && t.builds[n].phase == Done && t.builds[n].p == p && t.store == w.store
            && (t.caches, ClosureOf(t.builds[n])) == BuildClosure(setup, w.store, w.caches, p, tenant)
  {
    worlds, steps := Extend(setup, worlds0, steps0, Start(n, p, tenant));
    worlds, steps := RolesPart(setup, worlds, steps, n);
    worlds, steps := OwnPart(setup, worlds, steps, n);
    if HasOwner(setup, p) {
      worlds, steps := OwnerPart(setup, worlds, steps, n);
    }
  }
}
