/**
  The scoped policy evaluator and the caching `Authorizer` over the policy
  store. The built-in engine is modelled; the default role table is a parameter.
 */
module Authz {
  import opened Strings
  import opened Wrappers
  import opened Scopes

  datatype Grant = Grant(role: string, scope: string)

  datatype RolePermission = RolePermission(role: string, permission: string)

  /** Role to its permissions; `*` means all of them. */
  type Catalog = map<string, set<string>>

  /** The catalog some rows describe. */
  ghost predicate Describes(catalog: Catalog, rows: seq<RolePermission>) {
    && (forall role :: role in catalog <==> exists r :: r in rows && r.role == role)
    && (forall role, p :: role in catalog ==> (p in catalog[role] <==> RolePermission(role, p) in rows))
  }

  function CatalogOf(rows: seq<RolePermission>): Catalog {
    if rows == [] then map[]
    else
      var front, r := CatalogOf(rows[..|rows| - 1]), rows[|rows| - 1];
      front[r.role := (if r.role in front then front[r.role] else {}) + {r.permission}]
  }

  lemma {:induction false} CatalogDescribes(rows: seq<RolePermission>)
    ensures Describes(CatalogOf(rows), rows)
  {
    if rows != [] {
      var n := |rows| - 1;
      var r := rows[n];
      CatalogDescribes(rows[..n]);
      assert rows == rows[..n] + [r];
      assert RolePermission(r.role, r.permission) == r;
      forall role ensures role in CatalogOf(rows) <==> exists q :: q in rows && q.role == role {
        if role == r.role {
          assert r in rows;
        }
      }
    }
  }

  method BuildCatalog(rows: seq<RolePermission>) returns (catalog: Catalog)
    ensures catalog == CatalogOf(rows)
  {
    catalog := map[];
    for i := 0 to |rows|
      invariant catalog == CatalogOf(rows[..i])
    {
      assert rows[..i + 1][..i] == rows[..i];
      var r := rows[i];
      var permissions := if r.role in catalog then catalog[r.role] else {};
      catalog := catalog[r.role := permissions + {r.permission}];
    }
    assert rows[..|rows|] == rows;
  }

  predicate RoleAllows(catalog: Catalog, role: string, permission: string) {
    role in catalog && ("*" in catalog[role] || permission in catalog[role])
  }

  /** Some grant covers the scope with a role that allows the permission. */
  predicate Allows(grants: seq<Grant>, catalog: Catalog, permission: string, scope: string) {
    exists g :: g in grants && ScopeCovers(g.scope, scope) && RoleAllows(catalog, g.role, permission)
  }

  method Evaluate(grants: seq<Grant>, catalog: Catalog, permission: string, requestScope: string) returns (r: bool)
    ensures r <==> Allows(grants, catalog, permission, requestScope)
    ensures r <==> (exists g :: g in grants && ScopeCovers(g.scope, requestScope) && g.role in catalog &&
                                ("*" in catalog[g.role] || permission in catalog[g.role]))
  {
    for i := 0 to |grants|
      invariant !Allows(grants[..i], catalog, permission, requestScope)
    {
      var grant := grants[i];
      assert grants[..i + 1] == grants[..i] + [grant];
      if !ScopeCovers(grant.scope, requestScope) { continue; }
      if grant.role !in catalog { continue; }
      var perms := catalog[grant.role];
      if "*" in perms || permission in perms { return true; }
    }
    assert grants[..|grants|] == grants;
    r := false;
  }

  /** Every grant has a counterpart for the same role whose scope covers it. */
  ghost predicate Widened(grants: seq<Grant>, wider: seq<Grant>) {
    forall g :: g in grants ==> exists h :: h in wider && h.role == g.role && ScopeCovers(h.scope, g.scope)
  }

  ghost predicate Enlarged(catalog: Catalog, larger: Catalog) {
    forall role :: role in catalog ==> role in larger && catalog[role] <= larger[role]
  }

  /** Adding grants, widening their scopes and adding role permissions never
      turn an allow into a deny. */
  lemma AllowsMonotone(grants: seq<Grant>, wider: seq<Grant>, catalog: Catalog, larger: Catalog, permission: string,
                       scope: string)
    requires Widened(grants, wider) && Enlarged(catalog, larger)
    requires Allows(grants, catalog, permission, scope)
    ensures Allows(wider, larger, permission, scope)
  {
    var g :| g in grants && ScopeCovers(g.scope, scope) && RoleAllows(catalog, g.role, permission);
    var h :| h in wider && h.role == g.role && ScopeCovers(h.scope, g.scope);
    CoversTransitive(h.scope, g.scope, scope);
  }

  lemma MoreRowsEnlarge(rows: seq<RolePermission>, more: seq<RolePermission>)
    requires forall r :: r in rows ==> r in more
    ensures Enlarged(CatalogOf(rows), CatalogOf(more))
  {
    CatalogDescribes(rows);
    CatalogDescribes(more);
    var small, large := CatalogOf(rows), CatalogOf(more);
    forall role | role in small ensures role in large && small[role] <= large[role] {
      forall p | p in small[role] ensures role in large && p in large[role] {
        assert RolePermission(role, p) in more;
      }
      var r :| r in rows && r.role == role;
      assert r in more;
    }
  }

  /*
   * The Authorizer.
   */

  datatype Kind = User | Service | ApiKey

  datatype Principal = Principal(id: string, kind: Kind, tenantId: Option<string>, environment: Option<string>,
                                 roles: seq<string>)

  /** The policy store at one moment; while it is down every read throws. */
  datatype Store = Store(down: bool, rows: seq<RolePermission>, grants: map<string, seq<Grant>>)

  function GrantsOf(store: Store, id: string): seq<Grant> {
    if id in store.grants then store.grants[id] else []
  }

  /** Fixed at start-up: whether there is a store, and the built-in role table. */
  datatype Setup = Setup(hasStore: bool, defaults: seq<RolePermission>)

  datatype Caches = Caches(catalog: Option<Catalog>, grants: map<string, seq<Grant>>)

  /** What `authorizeClosure` returns, as the values it captured. */
  datatype Closure = Closure(catalog: Catalog, grants: seq<Grant>, owner: Option<seq<Grant>>,
                             fallbackTenant: Option<string>)

  datatype Resource = Resource(tenantId: Option<string>, environment: Option<string>, pipelineId: Option<string>)

  function Effective(setup: Setup, rows: seq<RolePermission>): Catalog {
    CatalogOf(if rows != [] then rows else setup.defaults)
  }

  /** What a read of the role table yields now, or that it throws. */
  function AnswerRows(store: Store): Option<seq<RolePermission>> {
    if store.down then None else Some(store.rows)
  }

  function AnswerGrants(store: Store, id: string): Option<seq<Grant>> {
    if store.down then None else Some(GrantsOf(store, id))
  }

  /** The catalog made of an answer; a read that threw counts as an empty table. */
  function CatalogFrom(setup: Setup, answer: Option<seq<RolePermission>>): Catalog {
    Effective(setup, if answer.Some? then answer.value else [])
  }

  /** The caches once a read of the role table is finished. */
  function CatalogFilled(setup: Setup, c: Caches, answer: Option<seq<RolePermission>>): Caches {
    c.(catalog := Some(CatalogFrom(setup, answer)))
  }

  function GrantsFrom(answer: Option<seq<Grant>>): seq<Grant> {
    if answer.Some? then answer.value else []
  }

  /** A user's own read that threw is cached as no grants. */
  function GrantsFilled(c: Caches, id: string, answer: Option<seq<Grant>>): Caches {
    c.(grants := c.grants[id := GrantsFrom(answer)])
  }

  /** An owner's read that threw is not cached. */
  function OwnerFilled(c: Caches, id: string, answer: Option<seq<Grant>>): Caches {
    if answer.Some? then GrantsFilled(c, id, answer) else c
  }

  function LoadCatalog(setup: Setup, store: Store, c: Caches): (r: (Caches, Catalog)) {
    if c.catalog.Some? then (c, c.catalog.value)
    else
      var answer := if setup.hasStore then AnswerRows(store) else None;
      (CatalogFilled(setup, c, answer), CatalogFrom(setup, answer))
  }

  function Synthesize(p: Principal): seq<Grant> {
    var scope := ScopeToString(ScopeInput(p.tenantId, p.environment, None));
    seq(|p.roles|, i requires 0 <= i < |p.roles| => Grant(p.roles[i], scope))
  }

  /** Principals that carry their own grants instead of having them looked up. */
  predicate Carries(setup: Setup, p: Principal) {
    p.roles != [] || p.kind != User || !setup.hasStore
  }

  function GrantsFor(setup: Setup, store: Store, c: Caches, p: Principal): (r: (Caches, seq<Grant>)) {
    if Carries(setup, p) then (c, Synthesize(p))
    else if p.id in c.grants then (c, c.grants[p.id])
    else (GrantsFilled(c, p.id, AnswerGrants(store, p.id)), GrantsFrom(AnswerGrants(store, p.id)))
  }

  function OwnerGrants(setup: Setup, store: Store, c: Caches, id: string): (r: (Caches, seq<Grant>)) {
    if !setup.hasStore then (c, [])
    else if id in c.grants then (c, c.grants[id])
    else (OwnerFilled(c, id, AnswerGrants(store, id)), GrantsFrom(AnswerGrants(store, id)))
  }

  function BuildClosure(setup: Setup, store: Store, c: Caches, p: Principal, defaultTenant: Option<string>)
    : (r: (Caches, Closure))
  {
    var (c1, catalog) := LoadCatalog(setup, store, c);
    var (c2, grants) := GrantsFor(setup, store, c1, p);
    var fallback := if defaultTenant.Some? then defaultTenant else p.tenantId;
    if p.kind == ApiKey && setup.hasStore then
      var (c3, owner) := OwnerGrants(setup, store, c2, p.id);
      (c3, Closure(catalog, grants, Some(owner), fallback))
    else (c2, Closure(catalog, grants, None, fallback))
  }

  /** `invalidate`: an empty id counts as none. */
  function Invalidated(c: Caches, userId: Option<string>): Caches {
    Caches(None, if userId.Some? && userId.value != "" then c.grants - {userId.value} else map[])
  }

  function RequestScope(k: Closure, resource: Resource): string {
    ScopeToString(ScopeInput(if resource.tenantId.Some? then resource.tenantId else k.fallbackTenant,
                             resource.environment, resource.pipelineId))
  }

  class Authorizer {
    const setup: Setup
    var catalog: Option<Catalog>
    var grantCache: map<string, seq<Grant>>

    function View(): Caches
      reads this
    {
      Caches(catalog, grantCache)
    }

    constructor (setup: Setup)
      ensures this.setup == setup && View() == Caches(None, map[])
    {
      this.setup := setup;
      catalog, grantCache := None, map[];
    }

    method Invalidate(userId: Option<string>)
      modifies this
      ensures View() == Invalidated(old(View()), userId)
      ensures catalog == None
      ensures grantCache == if userId in {None, Some("")} then map[] else old(grantCache) - {userId.value}
    {
      catalog := None;
      if userId.Some? && userId.value != "" {
        grantCache := grantCache - {userId.value};
      } else {
        grantCache := map[];
      }
    }

    /** After the awaited read of the role table. */
    method FinishCatalog(answer: Option<seq<RolePermission>>) returns (r: Catalog)
      modifies this
      ensures View() == CatalogFilled(setup, old(View()), answer) && r == CatalogFrom(setup, answer)
    {
      var rows := if answer.Some? then answer.value else [];
      r := BuildCatalog(if |rows| > 0 then rows else setup.defaults);
      catalog := Some(r);
    }

    /** After the awaited read of a user's own grants. */
    method FinishGrants(id: string, answer: Option<seq<Grant>>) returns (r: seq<Grant>)
      modifies this
      ensures View() == GrantsFilled(old(View()), id, answer) && r == GrantsFrom(answer)
    {
      r := if answer.Some? then answer.value else [];
      grantCache := grantCache[id := r];
    }

    /** After the awaited read of an API key owner's grants. */
    method FinishOwner(id: string, answer: Option<seq<Grant>>) returns (r: seq<Grant>)
      modifies this
      ensures View() == OwnerFilled(old(View()), id, answer) && r == GrantsFrom(answer)
      ensures grantCache == if answer == None then old(grantCache) else old(grantCache)[id := answer.value]
    {
      if answer.None? { return []; }
      r := answer.value;
      grantCache := grantCache[id := r];
    }

    method GetCatalog(store: Store) returns (r: Catalog)
      modifies this
      ensures (View(), r) == LoadCatalog(setup, store, old(View()))
    {
      if catalog.Some? { return catalog.value; }
      r := FinishCatalog(if setup.hasStore then AnswerRows(store) else None);
    }

    method GetGrants(store: Store, p: Principal) returns (r: seq<Grant>)
      modifies this
      ensures (View(), r) == GrantsFor(setup, store, old(View()), p)
    {
      if |p.roles| > 0 || p.kind != User || !setup.hasStore { return Synthesize(p); }
      if p.id in grantCache { return grantCache[p.id]; }
      r := FinishGrants(p.id, AnswerGrants(store, p.id));
    }

    method GetOwnerGrants(store: Store, id: string) returns (r: seq<Grant>)
      modifies this
      ensures (View(), r) == OwnerGrants(setup, store, old(View()), id)
      ensures !setup.hasStore ==> r == [] && View() == old(View())
    {
      if !setup.hasStore { return []; }
      if id in grantCache { return grantCache[id]; }
      r := FinishOwner(id, AnswerGrants(store, id));
    }

    method AuthorizeClosure(store: Store, p: Principal, defaultTenant: Option<string>) returns (k: Closure)
      modifies this
      ensures (View(), k) == BuildClosure(setup, store, old(View()), p, defaultTenant)
    {
      var roles := GetCatalog(store);
      var grants := GetGrants(store, p);
      var owner: Option<seq<Grant>> := None;
      if p.kind == ApiKey && setup.hasStore {
        var live := GetOwnerGrants(store, p.id);
        owner := Some(live);
      }
      k := Closure(roles, grants, owner, if defaultTenant.Some? then defaultTenant else p.tenantId);
    }
  }

  /** The closure's own decision. */
  method Decide(k: Closure, permission: string, resource: Resource) returns (r: bool)
    ensures r <==> Decides(k, permission, resource)
  {
    var scope := RequestScope(k, resource);
    var snapshotOk := Evaluate(k.grants, k.catalog, permission, scope);
    if !snapshotOk { return false; }
    if k.owner.Some? {
      var ownerOk := Evaluate(k.owner.value, k.catalog, permission, scope);
      if !ownerOk { return false; }
    }
    r := true;
  }

  predicate Decides(k: Closure, permission: string, resource: Resource) {
    var scope := RequestScope(k, resource);
    && Allows(k.grants, k.catalog, permission, scope)
    && (k.owner.Some? ==> Allows(k.owner.value, k.catalog, permission, scope))
  }

  /** The decision the policy gives with no cache at all. */
  ghost predicate Uncached(setup: Setup, store: Store, p: Principal, permission: string, scope: string) {
    && Allows(OwnGrants(setup, store, p), CurrentCatalog(setup, store), permission, scope)
    && (HasOwner(setup, p) ==> Allows(GrantsOf(store, p.id), CurrentCatalog(setup, store), permission, scope))
  }

  function CurrentCatalog(setup: Setup, store: Store): Catalog {
    Effective(setup, if setup.hasStore then store.rows else [])
  }

  function OwnGrants(setup: Setup, store: Store, p: Principal): seq<Grant> {
    if Carries(setup, p) then Synthesize(p) else GrantsOf(store, p.id)
  }

  predicate HasOwner(setup: Setup, p: Principal) {
    p.kind == ApiKey && setup.hasStore
  }

  /*
   * At which scope a request is decided.
   */

  /** A resource that names a tenant is decided alike whatever the fallback, one
      that names none as if it named the fallback. */
  lemma FallbackOnlyWithoutTenant(k: Closure, permission: string, resource: Resource, other: Option<string>)
    ensures resource.tenantId.Some? ==>
        (Decides(k, permission, resource) <==> Decides(k.(fallbackTenant := other), permission, resource))
    ensures resource.tenantId.None? && k.fallbackTenant.Some? ==>
        (Decides(k, permission, resource) <==>
         Decides(k.(fallbackTenant := other), permission, resource.(tenantId := k.fallbackTenant)))
  {
  }

  /** Grants within one tenant allow nothing on a resource that names another,
      whatever tenant the closure falls back to. */
  lemma OtherTenantDenied(k: Closure, permission: string, resource: Resource, own: string)
    requires forall g :: g in k.grants ==> ParseScope(g.scope).tenantId == Some(own)
    requires resource.tenantId.Some? && var other := resource.tenantId.value;
             Trimmed(Some(other)) == other != "" && Free(other, '/') && other != own
    ensures !Decides(k, permission, resource)
  {
    PrintedTenant(resource.tenantId.value, resource.environment, resource.pipelineId);
  }

  /** Where one grant reaches, for the permissions of its role: everywhere from
      the global scope, over the whole tenant from a tenant's, else over resources
      that name the same pipeline, or the same environment and no pipeline. */
  lemma GrantReaches(k: Closure, role: string, granted: ScopeInput, permission: string, resource: Resource,
                     tenant: Option<string>)
    requires k.grants == [Grant(role, ScopeToString(granted))] && k.owner.None?
    requires tenant == if resource.tenantId.Some? then resource.tenantId else k.fallbackTenant
    requires ParseScope(ScopeToString(granted)) == Canonical(granted)
    requires var request := ScopeInput(tenant, resource.environment, resource.pipelineId);
             ParseScope(ScopeToString(request)) == Canonical(request)
    ensures Decides(k, permission, resource) <==>
        && role in k.catalog && ({"*", permission} * k.catalog[role] != {})
        && (|| Trimmed(granted.tenantId) == ""
            || (Trimmed(granted.tenantId) == Trimmed(tenant) &&
                if Trimmed(granted.pipelineId) != "" then Trimmed(granted.pipelineId) == Trimmed(resource.pipelineId)
                else Trimmed(granted.environment) == "" ||
                     (Trimmed(granted.environment) == Trimmed(resource.environment) &&
                      Trimmed(resource.pipelineId) == "")))
  {
    var request := ScopeInput(tenant, resource.environment, resource.pipelineId);
    CoversMeansAncestor(granted, request);
    assert k.grants[0] in k.grants;
    if RoleAllows(k.catalog, role, permission) {
      assert "*" in {"*", permission} * k.catalog[role] || permission in {"*", permission} * k.catalog[role];
    }
  }
}
