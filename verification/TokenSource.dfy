/**
  The token cache of an identity-protected connection: one mint at a time per
  audience, refreshed ahead of expiry.

  A `get` that has to wait is split at its await. The mint settling, each
  waiter going on, and the slot being cleared are separate steps that may come
  in any order. Times are real milliseconds; `ttl / 2` is exact.
 */
module TokenSource {
  import opened Wrappers

  type Audience = Option<string>

  /** `audience ?? ""`. */
  function Key(audience: Audience): string {
    if audience.Some? then audience.value else ""
  }

  /** A cached token; `mint` records which mint it came from. */
  datatype Entry = Entry(token: string, refreshAt: Option<real>, mint: nat)

  datatype Tables = Tables(cache: map<string, Entry>, inflight: map<string, nat>)

  predicate IsStale(e: Entry, now: real) {
    e.refreshAt.Some? && now >= e.refreshAt.value
  }

  function Min(a: real, b: real): real { if a < b then a else b }

  function Max(a: real, b: real): real { if a < b then b else a }

  function ComputeRefreshAt(expiresAt: Option<real>, now: real, skewMs: real): (r: Option<real>) {
    if expiresAt.None? then None
    else
      var ttl := expiresAt.value - now;
      var skew := Min(skewMs, Max(0.0, ttl / 2.0));
      Some(expiresAt.value - skew)
  }

  /** With a skew that is not negative the deadline lies in
      [expiresAt - skewMs, expiresAt], and a token with time left stays usable
      for at least half of it; a negative skew puts the deadline past expiry. */
  lemma RefreshDeadline(expiresAt: real, now: real, skewMs: real)
    ensures var r := ComputeRefreshAt(Some(expiresAt), now, skewMs).value;
            && (skewMs >= 0.0 <==> r <= expiresAt)
            && (skewMs >= 0.0 ==> expiresAt - skewMs <= r)
            && (skewMs >= 0.0 && expiresAt > now ==>
                  r == Max(expiresAt - skewMs, now + (expiresAt - now) / 2.0) && r - now >= (expiresAt - now) / 2.0)
  {
  }

  /** How a `get` begins: served at once, joining a mint, or starting one. */
  datatype Start = Serve(entry: Entry) | Join(mint: nat) | Begin

  function HowToStart(t: Tables, audience: Audience, now: real): Start {
    var key := Key(audience);
    if key in t.cache && !IsStale(t.cache[key], now) then Serve(t.cache[key])
    else if key in t.inflight then Join(t.inflight[key])
    else Begin
  }

  function Claimed(t: Tables, audience: Audience, mint: nat): Tables {
    t.(inflight := t.inflight[Key(audience) := mint])
  }

  /** A waiter goes on after its mint resolved. */
  function Filled(t: Tables, key: string, token: string, mint: nat, expiresAt: Option<real>, now: real, skewMs: real)
    : Tables
  {
    t.(cache := t.cache[key := Entry(token, ComputeRefreshAt(expiresAt, now, skewMs), mint)])
  }

  /** The slot clean-up of a settled mint. */
  function Released(t: Tables, key: string, mint: nat): Tables {
    if key in t.inflight && t.inflight[key] == mint then t.(inflight := t.inflight - {key}) else t
  }

  function Invalidated(t: Tables, audience: Audience): Tables {
    if audience.None? then t.(cache := map[]) else t.(cache := t.cache - {audience.value})
  }

  class TokenSource {
    const skewMs: real
    var cache: map<string, Entry>
    var inflight: map<string, nat>

    function View(): Tables
      reads this
    {
      Tables(cache, inflight)
    }

    constructor (skewMs: real)
      ensures this.skewMs == skewMs && View() == Tables(map[], map[])
    {
      this.skewMs := skewMs;
      cache, inflight := map[], map[];
    }

    /** `get` and `refresh` up to the await; `mint` names the mint a fresh call would start. */
    method BeginGet(audience: Audience, now: real, mint: nat) returns (start: Start)
      modifies this
      ensures start == HowToStart(old(View()), audience, now)
      ensures View() == if start == Begin then Claimed(old(View()), audience, mint) else old(View())
    {
      var key := Key(audience);
      if key in cache {
        var cached := cache[key];
        if !IsStale(cached, now) { return Serve(cached); }
      }
      if key in inflight { return Join(inflight[key]); }
      inflight := inflight[key := mint];
      start := Begin;
    }

    method FinishGet(key: string, token: string, mint: nat, expiresAt: Option<real>, now: real)
      modifies this
      ensures View() == Filled(old(View()), key, token, mint, expiresAt, now, skewMs)
    {
      cache := cache[key := Entry(token, ComputeRefreshAt(expiresAt, now, skewMs), mint)];
    }

    method ReleaseSlot(key: string, mint: nat)
      modifies this
      ensures View() == Released(old(View()), key, mint)
    {
      if key in inflight && inflight[key] == mint { inflight := inflight - {key}; }
    }

    method Invalidate(audience: Audience)
      modifies this
      ensures View() == Invalidated(old(View()), audience)
    {
      if audience.None? {
        cache := map[];
        return;
      }
      cache := cache - {audience.value};
    }

    method Clear()
      modifies this
      ensures View() == Tables(map[], map[])
    {
      cache, inflight := map[], map[];
    }
  }

  /*
   * All interleavings.
   */

  datatype Outcome = Pending | Resolved(token: string, expiresAt: Option<real>) | Rejected

  /** One call of the mint function; `released` once its slot clean-up ran. */
  datatype Mint = Mint(audience: Audience, outcome: Outcome, released: bool)

  datatype Waiter = Waiter(audience: Audience, mint: nat)

  /** A token handed to a caller, and the mint it came from. */
  datatype Served = Served(audience: Audience, mint: nat, token: string, at: real, fromCache: bool)

  datatype State = State(now: real, tables: Tables, mints: map<nat, Mint>, waiters: map<nat, Waiter>,
                         served: seq<Served>)

  datatype Step =
    | Elapse(until: real)
    | Get(waiter: nat, audience: Audience, mint: nat)
    | Settle(mint: nat, outcome: Outcome)
    | Continue(waiter: nat)
    | Release(mint: nat)
    | Invalidate(audience: Audience)
    | Clear

  predicate Enabled(s: State, step: Step) {
    match step
    case Elapse(until) => s.now <= until
    case Get(w, _, m) => w !in s.waiters && m !in s.mints
    case Settle(m, o) => m in s.mints && s.mints[m].outcome == Pending && o != Pending
    case Continue(w) => w in s.waiters && s.waiters[w].mint in s.mints && s.mints[s.waiters[w].mint].outcome != Pending
    case Release(m) => m in s.mints && s.mints[m].outcome != Pending && !s.mints[m].released
    case Invalidate(_) => true
    case Clear => true
  }

  function Apply(s: State, skewMs: real, step: Step): State
    requires Enabled(s, step)
  {
    match step
    case Elapse(until) => s.(now := until)
    case Get(w, audience, m) =>
      (match HowToStart(s.tables, audience, s.now)
       case Serve(e) => s.(served := s.served + [Served(audience, e.mint, e.token, s.now, true)])
       case Join(running) => s.(waiters := s.waiters[w := Waiter(audience, running)])
       case Begin => s.(tables := Claimed(s.tables, audience, m),
                        mints := s.mints[m := Mint(audience, Pending, false)],
                        waiters := s.waiters[w := Waiter(audience, m)]))
    case Settle(m, o) => s.(mints := s.mints[m := s.mints[m].(outcome := o)])
    case Continue(w) =>
      var waiter := s.waiters[w];
      var o := s.mints[waiter.mint].outcome;
      var t := s.(waiters := s.waiters - {w});
      if o.Rejected? then t
      else t.(tables := Filled(s.tables, Key(waiter.audience), o.token, waiter.mint, o.expiresAt, s.now, skewMs),
              served := s.served + [Served(waiter.audience, waiter.mint, o.token, s.now, false)])
    case Release(m) =>
      s.(tables := Released(s.tables, Key(s.mints[m].audience), m),
         mints := s.mints[m := s.mints[m].(released := true)])
    case Invalidate(audience) => s.(tables := Invalidated(s.tables, audience))
    case Clear => s.(tables := Tables(map[], map[]))
  }

  ghost predicate Init(s: State) {
    s.tables == Tables(map[], map[]) && s.mints == map[] && s.waiters == map[] && s.served == []
  }

  /** The token `token` was minted for an audience with key `key`. */
  ghost predicate MintedFor(s: State, mint: nat, token: string, key: string) {
    && mint in s.mints && s.mints[mint].outcome.Resolved?
    && s.mints[mint].outcome.token == token && Key(s.mints[mint].audience) == key
  }

  ghost predicate EntryOk(s: State, skewMs: real, key: string) {
    key in s.tables.cache ==>
      var e := s.tables.cache[key];
      && MintedFor(s, e.mint, e.token, key)
      && var expiresAt := s.mints[e.mint].outcome.expiresAt;
         && (e.refreshAt.Some? <==> expiresAt.Some?)
         && (skewMs >= 0.0 && expiresAt.Some? ==> e.refreshAt.value <= expiresAt.value)
  }

  ghost predicate SlotOk(s: State, key: string) {
    key in s.tables.inflight ==>
      var m := s.tables.inflight[key];
      m in s.mints && Key(s.mints[m].audience) == key && !s.mints[m].released
  }

  ghost predicate WaiterOk(s: State, w: nat) {
    w in s.waiters ==>
      && s.waiters[w].mint in s.mints
      && Key(s.mints[s.waiters[w].mint].audience) == Key(s.waiters[w].audience)
  }

  ghost predicate ServedOk(s: State, skewMs: real, i: nat) {
    i < |s.served| ==>
      var r := s.served[i];
      && MintedFor(s, r.mint, r.token, Key(r.audience))
      && (skewMs >= 0.0 && r.fromCache && s.mints[r.mint].outcome.expiresAt.Some? ==>
            r.at < s.mints[r.mint].outcome.expiresAt.value)
  }

  ghost predicate Inv(s: State, skewMs: real) {
    && (forall k {:trigger EntryOk(s, skewMs, k)} :: EntryOk(s, skewMs, k))
    && (forall k {:trigger SlotOk(s, k)} :: SlotOk(s, k))
    && (forall w: nat {:trigger WaiterOk(s, w)} :: WaiterOk(s, w))
    && (forall i: nat {:trigger ServedOk(s, skewMs, i)} :: ServedOk(s, skewMs, i))
  }

  /** A mint whose slot has not been cleaned up still owns it. */
  ghost predicate OwnsSlot(s: State, m: nat) {
    m in s.mints && !s.mints[m].released ==>
      Key(s.mints[m].audience) in s.tables.inflight && s.tables.inflight[Key(s.mints[m].audience)] == m
  }

  ghost predicate AllOwnSlots(s: State) {
    forall m: nat {:trigger OwnsSlot(s, m)} :: OwnsSlot(s, m)
  }

  lemma StepKeepsInv(s: State, skewMs: real, step: Step)
    requires Inv(s, skewMs) && Enabled(s, step)
    ensures Inv(Apply(s, skewMs, step), skewMs)
  {
    var t := Apply(s, skewMs, step);
    forall k ensures EntryOk(t, skewMs, k) { StepKeepsEntry(s, skewMs, step, k); }
    forall k ensures SlotOk(t, k) { assert SlotOk(s, k); }
    forall w: nat ensures WaiterOk(t, w) {
      assert WaiterOk(s, w);
      if step.Get? { assert SlotOk(s, Key(step.audience)); }
    }
    forall i: nat ensures ServedOk(t, skewMs, i) { StepKeepsServed(s, skewMs, step, i); }
  }

  lemma StepKeepsEntry(s: State, skewMs: real, step: Step, k: string)
    requires Inv(s, skewMs) && Enabled(s, step)
    ensures EntryOk(Apply(s, skewMs, step), skewMs, k)
  {
    assert EntryOk(s, skewMs, k);
    if step.Continue? {
      assert WaiterOk(s, step.waiter);
      var o := s.mints[s.waiters[step.waiter].mint].outcome;
      if o.Resolved? && o.expiresAt.Some? {
        RefreshDeadline(o.expiresAt.value, s.now, skewMs);
      }
    }
  }

  lemma StepKeepsServed(s: State, skewMs: real, step: Step, i: nat)
    requires Inv(s, skewMs) && Enabled(s, step)
    ensures ServedOk(Apply(s, skewMs, step), skewMs, i)
  {
    assert ServedOk(s, skewMs, i);
    match step
    case Get(_, audience, _) => assert EntryOk(s, skewMs, Key(audience));
    case Continue(w) => assert WaiterOk(s, w);
    case _ =>
  }

  lemma StepKeepsSlots(s: State, skewMs: real, step: Step)
    requires Inv(s, skewMs) && AllOwnSlots(s) && Enabled(s, step) && step != Clear
    ensures AllOwnSlots(Apply(s, skewMs, step))
  {
    var t := Apply(s, skewMs, step);
    forall m: nat ensures OwnsSlot(t, m) {
      assert OwnsSlot(s, m);
    }
  }

  ghost predicate Run(states: seq<State>, skewMs: real, steps: seq<Step>) {
    && |states| == |steps| + 1 && Init(states[0])
    && forall i :: 0 <= i < |steps| ==>
        Enabled(states[i], steps[i]) && states[i + 1] == Apply(states[i], skewMs, steps[i])
  }

  lemma {:induction false} RunKeepsInv(states: seq<State>, skewMs: real, steps: seq<Step>, i: nat)
    requires Run(states, skewMs, steps) && i < |states|
    ensures Inv(states[i], skewMs)
    ensures Clear !in steps[..i] ==> AllOwnSlots(states[i])
  {
    if i > 0 {
      RunKeepsInv(states, skewMs, steps, i - 1);
      var s, step := states[i - 1], steps[i - 1];
      assert states[i - 1 + 1] == Apply(s, skewMs, step);
      StepKeepsInv(s, skewMs, step);
      assert steps[..i] == steps[..i - 1] + [step];
      if Clear !in steps[..i] {
        StepKeepsSlots(s, skewMs, step);
      }
    }
  }

  /** Without `clear()`, at most one mint is in flight per audience key. */
  lemma SingleFlight(states: seq<State>, skewMs: real, steps: seq<Step>, i: nat, m: nat, n: nat)
    requires Run(states, skewMs, steps) && i < |states| && Clear !in steps[..i]
    requires m in states[i].mints && states[i].mints[m].outcome == Pending
    requires n in states[i].mints && states[i].mints[n].outcome == Pending
    requires Key(states[i].mints[m].audience) == Key(states[i].mints[n].audience)
    ensures m == n
  {
    RunKeepsInv(states, skewMs, steps, i);
    PendingNotReleased(states, skewMs, steps, i, m);
    PendingNotReleased(states, skewMs, steps, i, n);
    assert OwnsSlot(states[i], m) && OwnsSlot(states[i], n);
  }

  lemma {:induction false} PendingNotReleased(states: seq<State>, skewMs: real, steps: seq<Step>, i: nat, m: nat)
    requires Run(states, skewMs, steps) && i < |states|
    requires m in states[i].mints && states[i].mints[m].outcome == Pending
    ensures !states[i].mints[m].released
  {
    if i > 0 {
      var s, step := states[i - 1], steps[i - 1];
      assert Enabled(s, step) && states[i - 1 + 1] == Apply(s, skewMs, step);
      if m in s.mints {
        PendingNotReleased(states, skewMs, steps, i - 1, m);
      }
    }
  }

  /** In every interleaving, `clear()` included, a caller only ever gets a token
      minted for its own audience, except that an absent audience and the empty
      one share a key; and with a skew that is not negative, a token served from the
      cache has not expired. */
  lemma ServedOwnAudience(states: seq<State>, skewMs: real, steps: seq<Step>, i: nat, k: nat)
    requires Run(states, skewMs, steps) && i < |states| && k < |states[i].served|
    ensures var s, r := states[i], states[i].served[k];
            && r.mint in s.mints
            && s.mints[r.mint].outcome.Resolved? && s.mints[r.mint].outcome.token == r.token
            && (s.mints[r.mint].audience == r.audience ||
                {s.mints[r.mint].audience, r.audience} == {None, Some("")})
            && (skewMs >= 0.0 && r.fromCache && s.mints[r.mint].outcome.expiresAt.Some? ==>
                  r.at < s.mints[r.mint].outcome.expiresAt.value)
  {
    RunKeepsInv(states, skewMs, steps, i);
    assert ServedOk(states[i], skewMs, k);
  }

  /** The exception is real: a `get("")` made while a `get()` is minting waits
      for, and is served, the token minted for no audience. */
  lemma EmptyAudienceShares(s: State, skewMs: real, w: nat, v: nat, m: nat, n: nat, token: string,
                            expiresAt: Option<real>) returns (states: seq<State>, steps: seq<Step>)
    requires Init(s) && w != v && m != n
    ensures steps == [Get(w, None, m), Get(v, Some(""), n), Settle(m, Resolved(token, expiresAt)), Continue(v)]
    ensures Run(states, skewMs, steps) && states[0] == s
    ensures states[4].served == [Served(Some(""), m, token, s.now, false)]
    ensures states[4].mints == map[m := Mint(None, Resolved(token, expiresAt), false)]
  {
    steps := [Get(w, None, m), Get(v, Some(""), n), Settle(m, Resolved(token, expiresAt)), Continue(v)];
    var s1 := Apply(s, skewMs, steps[0]);
    var s2 := Apply(s1, skewMs, steps[1]);
    var s3 := Apply(s2, skewMs, steps[2]);
    states := [s, s1, s2, s3, Apply(s3, skewMs, steps[3])];
  }

  /** A mint's clean-up only ever removes its own slot, so one that settles
      after `clear()` leaves a newer mint's slot alone. */
  lemma ReleaseOnlyOwnSlot(s: State, skewMs: real, m: nat, key: string)
    requires Enabled(s, Release(m)) && key in s.tables.inflight && s.tables.inflight[key] != m
    ensures var t := Apply(s, skewMs, Release(m));
            key in t.tables.inflight && t.tables.inflight[key] == s.tables.inflight[key]
  {
  }

  /** A failed mint caches nothing and does not wedge its audience: once its
      slot is cleaned up, and whether or not `clear()` was called, the next
      `get` mints again unless another mint is running. */
  lemma FailedMintRetries(states: seq<State>, skewMs: real, steps: seq<Step>, i: nat, audience: Audience, w: nat,
                          m: nat)
    requires Run(states, skewMs, steps) && i < |states|
    requires Enabled(states[i], Get(w, audience, m))
    requires Key(audience) !in states[i].tables.cache
    requires forall n :: n in states[i].mints && Key(states[i].mints[n].audience) == Key(audience) ==>
        states[i].mints[n].released
    ensures var t := Apply(states[i], skewMs, Get(w, audience, m));
            && m in t.mints && t.mints[m] == Mint(audience, Pending, false)
            && w in t.waiters && t.waiters[w].mint == m
  {
    RunKeepsInv(states, skewMs, steps, i);
    assert SlotOk(states[i], Key(audience));
  }

  /*
   * What callers get, over whole runs.
   */

  /** The step may change what is cached under the key. */
  ghost predicate Touches(s: State, step: Step, key: string) {
    match step
    case Continue(w) => w in s.waiters && Key(s.waiters[w].audience) == key
    case Invalidate(audience) => audience == None || audience == Some(key)
    case Clear => true
    case _ => false
  }

  ghost predicate SameAt(a: map<string, Entry>, b: map<string, Entry>, key: string) {
    (key in a <==> key in b) && (key in a ==> a[key] == b[key])
  }

  lemma {:induction false} CacheStays(states: seq<State>, skewMs: real, steps: seq<Step>, j: nat, i: nat, key: string)
    requires Run(states, skewMs, steps) && j <= i < |states|
    requires forall k :: j <= k < i ==> !Touches(states[k], steps[k], key)
    ensures SameAt(states[j].tables.cache, states[i].tables.cache, key)
    decreases i - j
  {
    if j < i {
      CacheStays(states, skewMs, steps, j, i - 1, key);
      assert states[i - 1 + 1] == Apply(states[i - 1], skewMs, steps[i - 1]);
      assert !Touches(states[i - 1], steps[i - 1], key);
    }
  }

  /** A token a waiter cached at step `j` is served to the next `get` for its
      audience, without a mint, exactly until the skew, or half of the time it
      had left if that is less, before it expires; one without expiry for good.
      After that the `get` waits for a mint. */
  lemma ServedUntilDeadline(states: seq<State>, skewMs: real, steps: seq<Step>, j: nat, i: nat, w: nat, v: nat,
                            audience: Audience, n: nat, until: real)
    requires Run(states, skewMs, steps) && j < i < |steps|
    requires steps[j] == Continue(w) && states[j].waiters[w].audience == audience
    requires states[j].mints[states[j].waiters[w].mint].outcome.Resolved?
    requires forall k :: j < k < i ==> !Touches(states[k], steps[k], Key(audience))
    requires steps[i - 1] == Elapse(until) && steps[i] == Get(v, audience, n)
    ensures var (mint, now) := (states[j].waiters[w].mint, states[j].now);
            var o := states[j].mints[mint].outcome;
            var left := if o.expiresAt.Some? && o.expiresAt.value > now then o.expiresAt.value - now else 0.0;
            var early := if skewMs < left / 2.0 then skewMs else left / 2.0;
            if o.expiresAt.None? || until < o.expiresAt.value - early
            then
              states[i + 1] == states[i].(served := states[i].served + [Served(audience, mint, o.token, until, true)])
            else states[i + 1].served == states[i].served && v in states[i + 1].waiters
  {
    assert states[j + 1] == Apply(states[j], skewMs, steps[j]);
    assert states[i - 1 + 1] == Apply(states[i - 1], skewMs, steps[i - 1]);
    CacheStays(states, skewMs, steps, j + 1, i, Key(audience));
  }

  /** The step stores a token under the key. */
  ghost predicate Fills(s: State, step: Step, key: string) {
    step.Continue? && step.waiter in s.waiters && Key(s.waiters[step.waiter].audience) == key
  }

  lemma {:induction false} StaysUncached(states: seq<State>, skewMs: real, steps: seq<Step>, j: nat, i: nat,
                                         key: string)
    requires Run(states, skewMs, steps) && j <= i < |states| && key !in states[j].tables.cache
    requires forall k :: j <= k < i ==> !Fills(states[k], steps[k], key)
    ensures key !in states[i].tables.cache
    decreases i - j
  {
    if j < i {
      StaysUncached(states, skewMs, steps, j, i - 1, key);
      assert states[i - 1 + 1] == Apply(states[i - 1], skewMs, steps[i - 1]);
      assert !Fills(states[i - 1], steps[i - 1], key);
    }
  }

  /** A `get` after an invalidation of its audience, or of all, waits for a mint
      until a waiter has cached a token again; mints in flight go on. */
  lemma InvalidationForgets(states: seq<State>, skewMs: real, steps: seq<Step>, j: nat, i: nat, v: nat,
                            audience: Audience, n: nat)
    requires Run(states, skewMs, steps) && j < i < |steps|
    requires steps[j] == Invalidate(None) || steps[j] == Invalidate(Some(Key(audience))) || steps[j] == Clear
    requires forall k :: j < k < i ==> !Fills(states[k], steps[k], Key(audience))
    requires steps[i] == Get(v, audience, n)
    ensures states[i + 1].served == states[i].served && v in states[i + 1].waiters
    ensures steps[j] != Clear ==>
        states[j + 1].tables.inflight == states[j].tables.inflight && states[j + 1].waiters == states[j].waiters
  {
    assert states[j + 1] == Apply(states[j], skewMs, steps[j]);
    StaysUncached(states, skewMs, steps, j + 1, i, Key(audience));
  }

  lemma {:induction false} StaysUnclaimed(states: seq<State>, skewMs: real, steps: seq<Step>, j: nat, i: nat,
                                          key: string)
    requires Run(states, skewMs, steps) && j <= i < |states| && key !in states[j].tables.inflight
    requires forall k :: j <= k < i && steps[k].Get? ==> Key(steps[k].audience) != key
    ensures key !in states[i].tables.inflight
    decreases i - j
  {
    if j < i {
      StaysUnclaimed(states, skewMs, steps, j, i - 1, key);
      assert states[i - 1 + 1] == Apply(states[i - 1], skewMs, steps[i - 1]);
    }
  }

  /** After `clear()` the first `get` for an audience mints, although an earlier
      mint for it may still be running, unless a waiter of that one has cached
      its token first. */
  lemma ClearMintsAnew(states: seq<State>, skewMs: real, steps: seq<Step>, j: nat, i: nat, v: nat, audience: Audience,
                       n: nat)
    requires Run(states, skewMs, steps) && j < i < |steps|
    requires steps[j] == Clear && steps[i] == Get(v, audience, n)
    requires forall k :: j < k < i ==> !Fills(states[k], steps[k], Key(audience))
    requires forall k :: j < k < i && steps[k].Get? ==> Key(steps[k].audience) != Key(audience)
    ensures states[i + 1].mints == states[i].mints[n := Mint(audience, Pending, false)]
    ensures states[i + 1].waiters == states[i].waiters[v := Waiter(audience, n)]
  {
    assert states[j + 1] == Apply(states[j], skewMs, steps[j]);
    StaysUncached(states, skewMs, steps, j + 1, i, Key(audience));
    StaysUnclaimed(states, skewMs, steps, j + 1, i, Key(audience));
  }

  lemma {:induction false} KeepsWaiting(states: seq<State>, skewMs: real, steps: seq<Step>, j: nat, i: nat, w: nat)
    requires Run(states, skewMs, steps) && j <= i < |states| && w in states[j].waiters
    requires Continue(w) !in steps[j..i]
    ensures w in states[i].waiters && states[i].waiters[w] == states[j].waiters[w]
    decreases i - j
  {
    if j < i {
      assert steps[j..i] == steps[j..i - 1] + [steps[i - 1]];
      KeepsWaiting(states, skewMs, steps, j, i - 1, w);
      assert states[i - 1 + 1] == Apply(states[i - 1], skewMs, steps[i - 1]);
    }
  }

  /** A `get` that had to wait joins the mint in flight for its audience, or
      starts one; when it goes on it is given, once, the token that mint
      resolved to, or nothing if the mint failed. */
  lemma WaiterIsAnswered(states: seq<State>, skewMs: real, steps: seq<Step>, j: nat, i: nat, w: nat,
                         audience: Audience, n: nat)
    requires Run(states, skewMs, steps) && j < i < |steps|
    requires steps[j] == Get(w, audience, n) && w in states[j + 1].waiters
    requires steps[i] == Continue(w) && Continue(w) !in steps[j + 1..i]
    ensures var inflight := states[j].tables.inflight;
            var mint := if Key(audience) in inflight then inflight[Key(audience)] else n;
            && mint in states[i].mints && w !in states[i + 1].waiters
            && states[i + 1].served ==
               match states[i].mints[mint].outcome
               case Resolved(token, _) =>
                 states[i].served + [Served(audience, mint, token, states[i].now, false)]
               case _ => states[i].served
  {
    assert states[j + 1] == Apply(states[j], skewMs, steps[j]);
    KeepsWaiting(states, skewMs, steps, j + 1, i, w);
    assert states[i + 1] == Apply(states[i], skewMs, steps[i]);
  }
}
