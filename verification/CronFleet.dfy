/**
  The fleet: every pod ticks the one schedule table while its leader election
  runs. The election's design accepts that two pods may lead at once and relies
  on `markRun` to bound what they fire twice; this module states that bound.

  A tick is cut at its awaits: the gate, the listing, and for each due row the
  enqueue and the mark. Election steps, other pods' ticks and other ticks of the
  same pod may come in between, a tick may stop anywhere when a call throws, and
  time passes between any two steps.

  Each mark arms its row anew. A row's `arming` counts its marks; the instant it
  is armed for is its `nextRunAt`.
 */
module CronFleet {
  import opened Wrappers
  import LeaderElection
  import S = Schedules

  datatype Stored = Stored(row: S.Row, arming: nat)

  /** A due row as the listing returned it. */
  datatype Due = Due(id: S.Id, row: S.Row, arming: nat)

  /** `todo` is absent until the listing is answered. `queued` is where in the
      log the first row's job is, once it is enqueued and the mark is awaited. */
  datatype Tick = Tick(pod: nat, at: int, todo: Option<seq<Due>>, queued: Option<nat>)

  /** A job on the queue: by which tick, for which instant of which arming. */
  datatype Fire = Fire(tick: nat, id: S.Id, arming: nat, instant: int, marked: bool)

  /** `owner` is history: the pod of every tick, ended ones included. */
  datatype State = State(election: LeaderElection.State, rows: map<S.Id, Stored>, ticks: map<nat, Tick>,
                         owner: map<nat, nat>, fired: seq<Fire>)

  datatype Step =
    | Elect(step: LeaderElection.Step)
    | Begin(t: nat, pod: nat)                  // the gate is passed, `at` is read
    | List(t: nat, due: seq<S.Id>)             // listDue is answered
    | Skip(t: nat)                             // the first row's cron does not parse
    | Deny(t: nat)                             // its creator lost the grant; only the next run is marked
    | Enqueue(t: nat)
    | Mark(t: nat)
    | End(t: nat)                              // no row is left, or a call threw

  function Rows(rows: map<S.Id, Stored>): map<S.Id, S.Row> {
    map id | id in rows :: rows[id].row
  }

  function First(tick: Tick): Due
    requires tick.todo.Some? && tick.todo.value != []
  {
    tick.todo.value[0]
  }

  predicate HasFirst(s: State, t: nat) {
    t in s.ticks && s.ticks[t].todo.Some? && s.ticks[t].todo.value != []
  }

  function NextOf(next: S.NextAfter, tick: Tick): Option<int>
    requires tick.todo.Some? && tick.todo.value != []
  {
    next(First(tick).row.cron, First(tick).row.timezone, tick.at)
  }

  ghost predicate Enabled(s: State, next: S.NextAfter, step: Step) {
    match step
    case Elect(e) => LeaderElection.Enabled(s.election, e)
    case Begin(t, p) =>
      t !in s.owner && p in s.election.pods && LeaderElection.IsLeader(s.election.pods[p].flags)
    case List(t, due) => t in s.ticks && s.ticks[t].todo.None? && S.DueListing(Rows(s.rows), s.ticks[t].at, due)
    case Skip(t) => HasFirst(s, t) && s.ticks[t].queued.None? && NextOf(next, s.ticks[t]).None?
    case Deny(t) =>
      HasFirst(s, t) && s.ticks[t].queued.None? && NextOf(next, s.ticks[t]).Some? && First(s.ticks[t]).id in s.rows
      && First(s.ticks[t]).row.jobType == S.RUN_PIPELINE && First(s.ticks[t]).row.createdBy.Some?
    case Enqueue(t) => HasFirst(s, t) && s.ticks[t].queued.None? && NextOf(next, s.ticks[t]).Some?
    case Mark(t) =>
      HasFirst(s, t) && s.ticks[t].queued.Some? && s.ticks[t].queued.value < |s.fired|
      && NextOf(next, s.ticks[t]).Some? && First(s.ticks[t]).id in s.rows
    case End(t) => t in s.ticks
  }

  /** `markRun`: both run times are overwritten, with what the listing returned or the tick computed. */
  function Marked(rows: map<S.Id, Stored>, id: S.Id, lastRunAt: Option<int>, nextRunAt: int): map<S.Id, Stored>
    requires id in rows
  {
    rows[id := Stored(rows[id].row.(lastRunAt := lastRunAt, nextRunAt := Some(nextRunAt)), rows[id].arming + 1)]
  }

  function Rest(tick: Tick): Tick
    requires tick.todo.Some? && tick.todo.value != []
  {
    tick.(todo := Some(tick.todo.value[1..]), queued := None)
  }

  function ListedRows(rows: map<S.Id, Stored>, due: seq<S.Id>): seq<Due>
    requires forall id :: id in due ==> id in rows
  {
    seq(|due|, i requires 0 <= i < |due| => Due(due[i], rows[due[i]].row, rows[due[i]].arming))
  }

  /** The instant a listed row is due for; listed rows have one. */
  function InstantOf(row: S.Row): int {
    if row.nextRunAt.Some? then row.nextRunAt.value else 0
  }

  function Apply(s: State, ttl: LeaderElection.Ttl, next: S.NextAfter, step: Step): State
    requires Enabled(s, next, step)
  {
    match step
    case Elect(e) => s.(election := LeaderElection.Apply(s.election, ttl, e))
    case Begin(t, p) => s.(ticks := s.ticks[t := Tick(p, s.election.now, None, None)], owner := s.owner[t := p])
    case List(t, due) => s.(ticks := s.ticks[t := s.ticks[t].(todo := Some(ListedRows(s.rows, due)))])
    case Skip(t) => s.(ticks := s.ticks[t := Rest(s.ticks[t])])
    case Deny(t) =>
      var d := First(s.ticks[t]);
      s.(rows := Marked(s.rows, d.id, d.row.lastRunAt, NextOf(next, s.ticks[t]).value),
         ticks := s.ticks[t := Rest(s.ticks[t])])
    case Enqueue(t) =>
      var d := First(s.ticks[t]);
      s.(fired := s.fired + [Fire(t, d.id, d.arming, InstantOf(d.row), false)],
         ticks := s.ticks[t := s.ticks[t].(queued := Some(|s.fired|))])
    case Mark(t) =>
      var (d, k) := (First(s.ticks[t]), s.ticks[t].queued.value);
      s.(rows := Marked(s.rows, d.id, Some(s.ticks[t].at), NextOf(next, s.ticks[t]).value),
         ticks := s.ticks[t := Rest(s.ticks[t])],
         fired := s.fired[k := s.fired[k].(marked := true)])
    case End(t) => s.(ticks := s.ticks - {t})
  }

  ghost predicate Init(s: State) {
    LeaderElection.Init(s.election) && s.ticks == map[] && s.owner == map[] && s.fired == []
  }

  ghost predicate Run(states: seq<State>, ttl: LeaderElection.Ttl, next: S.NextAfter, steps: seq<Step>) {
    && |states| == |steps| + 1 && Init(states[0])
    && forall i :: 0 <= i < |steps| ==>
        Enabled(states[i], next, steps[i]) && states[i + 1] == Apply(states[i], ttl, next, steps[i])
  }

  /*
   * What every run keeps.
   */

  ghost predicate EntryOk(s: State, t: nat, m: nat) {
    t in s.ticks && s.ticks[t].todo.Some? && m < |s.ticks[t].todo.value| ==>
      var d := s.ticks[t].todo.value[m];
      && d.id in s.rows && d.arming <= s.rows[d.id].arming
      && S.IsDue(d.row, s.ticks[t].at)
      && forall n :: 0 <= n < m ==> s.ticks[t].todo.value[n].id != d.id
  }

  ghost predicate QueuedOk(s: State, t: nat) {
    && (t in s.ticks ==> t in s.owner && s.owner[t] == s.ticks[t].pod)
    && (t in s.ticks && s.ticks[t].queued.Some? ==>
          && HasFirst(s, t) && s.ticks[t].queued.value < |s.fired|
          && var d := First(s.ticks[t]);
             s.fired[s.ticks[t].queued.value] == Fire(t, d.id, d.arming, InstantOf(d.row), false))
  }

  /** A marked fire's arming is over. */
  ghost predicate FireOk(s: State, k: nat) {
    k < |s.fired| ==>
      && s.fired[k].tick in s.owner && s.fired[k].id in s.rows
      && (s.fired[k].marked ==> s.fired[k].arming < s.rows[s.fired[k].id].arming)
  }

  /** Of the rows a tick has yet to finish it has fired at most the first, just now. */
  ghost predicate NotYet(s: State, t: nat, m: nat, k: nat) {
    t in s.ticks && s.ticks[t].todo.Some? && m < |s.ticks[t].todo.value| && k < |s.fired| &&
    s.fired[k].tick == t && s.fired[k].id == s.ticks[t].todo.value[m].id ==>
      m == 0 && s.ticks[t].queued == Some(k)
  }

  /** A tick that has not listed yet has fired nothing. */
  ghost predicate NothingBefore(s: State, t: nat, k: nat) {
    k < |s.fired| && s.fired[k].tick == t ==> t in s.owner && (t in s.ticks ==> s.ticks[t].todo.Some?)
  }

  /** A tick fires a row at most once. */
  ghost predicate OncePerTick(s: State, j: nat, k: nat) {
    j < k < |s.fired| ==> s.fired[j].tick != s.fired[k].tick || s.fired[j].id != s.fired[k].id
  }

  ghost predicate Inv(s: State) {
    && (forall t: nat, m: nat {:trigger EntryOk(s, t, m)} :: EntryOk(s, t, m))
    && (forall t: nat {:trigger QueuedOk(s, t)} :: QueuedOk(s, t))
    && (forall k: nat {:trigger FireOk(s, k)} :: FireOk(s, k))
    && (forall t: nat, m: nat, k: nat {:trigger NotYet(s, t, m, k)} :: NotYet(s, t, m, k))
    && (forall t: nat, k: nat {:trigger NothingBefore(s, t, k)} :: NothingBefore(s, t, k))
    && (forall j: nat, k: nat {:trigger OncePerTick(s, j, k)} :: OncePerTick(s, j, k))
  }

  lemma StepKeepsEntry(s: State, ttl: LeaderElection.Ttl, next: S.NextAfter, step: Step, t: nat, m: nat)
    requires Inv(s) && Enabled(s, next, step)
    ensures EntryOk(Apply(s, ttl, next, step), t, m)
  {
    assert EntryOk(s, t, m) && EntryOk(s, t, m + 1);
    if step.List? && step.t == t {
      assert m < |step.due| ==> step.due[m] in step.due;
    }
  }

  lemma StepKeepsNotYet(s: State, ttl: LeaderElection.Ttl, next: S.NextAfter, step: Step, t: nat, m: nat, k: nat)
    requires Inv(s) && Enabled(s, next, step)
    ensures NotYet(Apply(s, ttl, next, step), t, m, k)
  {
    assert NotYet(s, t, m, k) && NotYet(s, t, m + 1, k) && NothingBefore(s, t, k) && QueuedOk(s, t);
    assert EntryOk(s, t, m) && EntryOk(s, t, m + 1) && FireOk(s, k);
  }

  lemma StepKeepsInv(s: State, ttl: LeaderElection.Ttl, next: S.NextAfter, step: Step)
    requires Inv(s) && Enabled(s, next, step)
    ensures Inv(Apply(s, ttl, next, step))
  {
    var u := Apply(s, ttl, next, step);
    forall t: nat, m: nat ensures EntryOk(u, t, m) { StepKeepsEntry(s, ttl, next, step, t, m); }
    forall t: nat ensures QueuedOk(u, t) {
      assert QueuedOk(s, t);
      if step.Mark? { assert QueuedOk(s, step.t); }
    }
    forall k: nat ensures FireOk(u, k) {
      assert FireOk(s, k);
      if step.Enqueue? || step.Mark? { assert EntryOk(s, step.t, 0) && QueuedOk(s, step.t); }
    }
    forall t: nat, m: nat, k: nat ensures NotYet(u, t, m, k) { StepKeepsNotYet(s, ttl, next, step, t, m, k); }
    forall t: nat, k: nat ensures NothingBefore(u, t, k) {
      assert NothingBefore(s, t, k) && FireOk(s, k);
      if step.Enqueue? { assert QueuedOk(s, step.t); }
    }
    forall j: nat, k: nat ensures OncePerTick(u, j, k) {
      assert OncePerTick(s, j, k);
      if step.Enqueue? { assert NotYet(s, step.t, 0, j); }
    }
  }

  lemma {:induction false} RunKeepsInv(states: seq<State>, ttl: LeaderElection.Ttl, next: S.NextAfter, steps: seq<Step>,
                                       i: nat)
    requires Run(states, ttl, next, steps) && i < |states|
    ensures Inv(states[i])
  {
    if i > 0 {
      RunKeepsInv(states, ttl, next, steps, i - 1);
      assert states[i - 1 + 1] == Apply(states[i - 1], ttl, next, steps[i - 1]);
      StepKeepsInv(states[i - 1], ttl, next, steps[i - 1]);
    }
  }

  /*
   * Ticks that exclude each other: those of one pod, or those of the whole fleet.
   */

  function Group(fleet: bool, pod: nat): nat {
    if fleet then 0 else pod
  }

  /** The pods `t` and `u` belong to are in one group. */
  ghost predicate Rivals(s: State, fleet: bool, t: nat, u: nat) {
    t in s.owner && u in s.owner && Group(fleet, s.owner[t]) == Group(fleet, s.owner[u])
  }

  /** No two ticks of a group are in progress at once. */
  ghost predicate NoOverlap(s: State, fleet: bool) {
    forall t, u :: t in s.ticks && u in s.ticks && Rivals(s, fleet, t, u) ==> t == u
  }

  /** No tick ends between its enqueue and its mark. */
  ghost predicate EveryMarkLands(s: State, step: Step) {
    step.End? && step.t in s.ticks ==> s.ticks[step.t].queued.None?
  }

  /** An unmarked job is the one its tick, still in progress, is about to mark. */
  ghost predicate Pending(s: State, k: nat) {
    k < |s.fired| && !s.fired[k].marked ==>
      s.fired[k].tick in s.ticks && s.ticks[s.fired[k].tick].queued == Some(k)
  }

  /** What a tick has listed is armed later than anything a rival has fired. */
  ghost predicate Newer(s: State, fleet: bool, t: nat, m: nat, k: nat) {
    t in s.ticks && s.ticks[t].todo.Some? && m < |s.ticks[t].todo.value| && k < |s.fired| &&
    s.fired[k].tick != t && Rivals(s, fleet, t, s.fired[k].tick) && s.fired[k].id == s.ticks[t].todo.value[m].id ==>
      s.fired[k].arming < s.ticks[t].todo.value[m].arming
  }

  /** Within a group the fires of a row are of ever later armings. */
  ghost predicate Rising(s: State, fleet: bool, j: nat, k: nat) {
    j < k < |s.fired| && Rivals(s, fleet, s.fired[j].tick, s.fired[k].tick) && s.fired[j].id == s.fired[k].id ==>
      s.fired[j].arming < s.fired[k].arming
  }

  ghost predicate Orderly(s: State, fleet: bool) {
    && (forall k: nat {:trigger Pending(s, k)} :: Pending(s, k))
    && (forall t: nat, m: nat, k: nat {:trigger Newer(s, fleet, t, m, k)} :: Newer(s, fleet, t, m, k))
    && (forall j: nat, k: nat {:trigger Rising(s, fleet, j, k)} :: Rising(s, fleet, j, k))
  }

  lemma StepKeepsNewer(s: State, ttl: LeaderElection.Ttl, next: S.NextAfter, step: Step, fleet: bool, t: nat, m: nat,
                       k: nat)
    requires Inv(s) && Orderly(s, fleet) && Enabled(s, next, step) && NoOverlap(s, fleet)
    ensures Newer(Apply(s, ttl, next, step), fleet, t, m, k)
  {
    assert Newer(s, fleet, t, m, k) && Newer(s, fleet, t, m + 1, k) && Pending(s, k) && FireOk(s, k) && QueuedOk(s, t);
    if step.Enqueue? { assert QueuedOk(s, step.t); }
    if step.List? && step.t == t && m < |step.due| { assert step.due[m] in step.due; }
  }

  lemma StepKeepsOrderly(s: State, ttl: LeaderElection.Ttl, next: S.NextAfter, step: Step, fleet: bool)
    requires Inv(s) && Orderly(s, fleet) && Enabled(s, next, step) && NoOverlap(s, fleet) && EveryMarkLands(s, step)
    ensures Orderly(Apply(s, ttl, next, step), fleet)
  {
    var u := Apply(s, ttl, next, step);
    forall k: nat ensures Pending(u, k) { assert Pending(s, k) && FireOk(s, k); }
    forall t: nat, m: nat, k: nat ensures Newer(u, fleet, t, m, k) {
      StepKeepsNewer(s, ttl, next, step, fleet, t, m, k);
    }
    forall j: nat, k: nat ensures Rising(u, fleet, j, k) {
      assert Rising(s, fleet, j, k) && FireOk(s, j) && FireOk(s, k);
      if step.Enqueue? { assert Newer(s, fleet, step.t, 0, j) && NotYet(s, step.t, 0, j) && QueuedOk(s, step.t); }
    }
  }

  /** Up to state `i` ticks of a group did not overlap and every mark landed. */
  ghost predicate Disciplined(states: seq<State>, steps: seq<Step>, fleet: bool, i: nat)
    requires i <= |steps| < |states|
  {
    forall n :: 0 <= n < i ==> NoOverlap(states[n], fleet) && EveryMarkLands(states[n], steps[n])
  }

  lemma {:induction false} RunIsOrderly(states: seq<State>, ttl: LeaderElection.Ttl, next: S.NextAfter,
                                        steps: seq<Step>, fleet: bool, i: nat)
    requires Run(states, ttl, next, steps) && i < |states| && Disciplined(states, steps, fleet, i)
    ensures Orderly(states[i], fleet)
  {
    if i > 0 {
      RunIsOrderly(states, ttl, next, steps, fleet, i - 1);
      RunKeepsInv(states, ttl, next, steps, i - 1);
      assert states[i - 1 + 1] == Apply(states[i - 1], ttl, next, steps[i - 1]);
      StepKeepsOrderly(states[i - 1], ttl, next, steps[i - 1], fleet);
    }
  }

  /*
   * The bounds.
   */

  /** In every run, whatever overlaps and whatever throws: a tick fires a row at
      most once, for the arming it listed, and a mark ends the arming it was for,
      so that no later listing sees it. */
  lemma TickFiresOnce(states: seq<State>, ttl: LeaderElection.Ttl, next: S.NextAfter, steps: seq<Step>, i: nat, j: nat,
                      k: nat)
    requires Run(states, ttl, next, steps) && i < |states| && j < |states[i].fired| && k < |states[i].fired|
    ensures var f, g := states[i].fired[j], states[i].fired[k];
            && (f.tick == g.tick && f.id == g.id ==> j == k)
            && f.id in states[i].rows && (f.marked ==> f.arming < states[i].rows[f.id].arming)
  {
    RunKeepsInv(states, ttl, next, steps, i);
    assert OncePerTick(states[i], j, k) && OncePerTick(states[i], k, j) && FireOk(states[i], j);
  }

  /** If no pod's ticks overlap and every mark lands, an arming is fired at most
      once by each pod, however many pods lead at once. One instant can be armed
      for more than once; `PodFiresInstantTwice` below is such a run. */
  lemma PodFiresOnce(states: seq<State>, ttl: LeaderElection.Ttl, next: S.NextAfter, steps: seq<Step>, i: nat, j: nat,
                     k: nat)
    requires Run(states, ttl, next, steps) && i < |states| && Disciplined(states, steps, false, i)
    requires j < |states[i].fired| && k < |states[i].fired|
    requires states[i].fired[j].id == states[i].fired[k].id && states[i].fired[j].arming == states[i].fired[k].arming
    ensures states[i].fired[j].tick in states[i].owner && states[i].fired[k].tick in states[i].owner
    ensures states[i].owner[states[i].fired[j].tick] == states[i].owner[states[i].fired[k].tick] ==> j == k
  {
    RunKeepsInv(states, ttl, next, steps, i);
    RunIsOrderly(states, ttl, next, steps, false, i);
    assert FireOk(states[i], j) && FireOk(states[i], k);
    assert Rising(states[i], false, j, k) && Rising(states[i], false, k, j);
  }

  function FiresOf(s: State, id: S.Id, arming: nat): set<nat> {
    set k | 0 <= k < |s.fired| && s.fired[k].id == id && s.fired[k].arming == arming
  }

  function OwnerOf(s: State, k: nat): nat {
    if k < |s.fired| && s.fired[k].tick in s.owner then s.owner[s.fired[k].tick] else 0
  }

  lemma {:induction false} OwnersCount(s: State, ks: set<nat>, pods: set<nat>)
    requires forall k :: k in ks ==> OwnerOf(s, k) in pods
    requires forall j, k :: j in ks && k in ks && OwnerOf(s, j) == OwnerOf(s, k) ==> j == k
    ensures |ks| <= |pods|
    decreases ks
  {
    if k :| k in ks {
      OwnersCount(s, ks - {k}, pods - {OwnerOf(s, k)});
    }
  }

  /** So there are at most as many of them as pods that ever ticked. */
  lemma FiresPerArming(states: seq<State>, ttl: LeaderElection.Ttl, next: S.NextAfter, steps: seq<Step>, i: nat,
                       id: S.Id, arming: nat)
    requires Run(states, ttl, next, steps) && i < |states| && Disciplined(states, steps, false, i)
    ensures |FiresOf(states[i], id, arming)| <= |states[i].owner.Values|
  {
    var s, ks := states[i], FiresOf(states[i], id, arming);
    RunKeepsInv(states, ttl, next, steps, i);
    forall k | k in ks ensures OwnerOf(s, k) in s.owner.Values { assert FireOk(s, k); }
    forall j, k | j in ks && k in ks && OwnerOf(s, j) == OwnerOf(s, k) ensures j == k {
      PodFiresOnce(states, ttl, next, steps, i, j, k);
    }
    OwnersCount(s, ks, s.owner.Values);
  }

  /*
   * While leases cover the ticks.
   */

  /** The pod of every tick in progress has a lease that was granted less than
      its time to live ago, and has not been stopped. */
  ghost predicate Covered(s: State, ttl: LeaderElection.Ttl) {
    forall t :: t in s.ticks ==>
      var p := s.ticks[t].pod;
      && p in s.election.pods && !s.election.pods[p].flags.stopped
      && p in s.election.lastOk && s.election.now < s.election.lastOk[p] + ttl
  }

  /** The election inside a run is a run of the election. */
  lemma {:induction false} ElectionKeepsInv(states: seq<State>, ttl: LeaderElection.Ttl, next: S.NextAfter,
                                            steps: seq<Step>, i: nat)
    requires Run(states, ttl, next, steps) && i < |states|
    requires LeaderElection.DistinctTokens(states[0].election.pods)
    ensures LeaderElection.Inv(states[i].election, ttl)
  {
    if i == 0 {
      var e := states[0].election;
      forall p ensures LeaderElection.PodOk(e, ttl, p) { }
      forall p ensures LeaderElection.LoopOk(e, p) { }
      forall r ensures LeaderElection.RequestOk(e, r) { }
    } else {
      ElectionKeepsInv(states, ttl, next, steps, i - 1);
      assert states[i - 1 + 1] == Apply(states[i - 1], ttl, next, steps[i - 1]);
      if steps[i - 1].Elect? {
        LeaderElection.StepKeepsInv(states[i - 1].election, ttl, steps[i - 1].step);
      }
    }
  }

  /** Covered ticks are all of one pod: Redis grants one lease at a time. */
  lemma CoveredIsExclusive(s: State, ttl: LeaderElection.Ttl)
    requires Inv(s) && LeaderElection.Inv(s.election, ttl) && Covered(s, ttl) && NoOverlap(s, false)
    ensures NoOverlap(s, true)
  {
    forall t, u | t in s.ticks && u in s.ticks && Rivals(s, true, t, u) ensures t == u {
      var p, q := s.ticks[t].pod, s.ticks[u].pod;
      assert QueuedOk(s, t) && QueuedOk(s, u);
      assert LeaderElection.PodOk(s.election, ttl, p) && LeaderElection.PodOk(s.election, ttl, q);
      assert s.election.pods[p].token == s.election.pods[q].token;
      assert p == q;
      assert Rivals(s, false, t, u);
    }
  }

  /** Leases cover every tick, no pod's ticks overlap and every mark lands. */
  ghost predicate Safe(states: seq<State>, ttl: LeaderElection.Ttl, steps: seq<Step>, i: nat)
    requires i <= |steps| < |states|
  {
    && LeaderElection.DistinctTokens(states[0].election.pods)
    && Disciplined(states, steps, false, i)
    && forall n :: 0 <= n < i ==> Covered(states[n], ttl)
  }

  lemma SafeIsExclusive(states: seq<State>, ttl: LeaderElection.Ttl, next: S.NextAfter, steps: seq<Step>, i: nat)
    requires Run(states, ttl, next, steps) && i < |states| && Safe(states, ttl, steps, i)
    ensures Disciplined(states, steps, true, i)
  {
    forall n | 0 <= n < i ensures NoOverlap(states[n], true) && EveryMarkLands(states[n], steps[n]) {
      RunKeepsInv(states, ttl, next, steps, n);
      ElectionKeepsInv(states, ttl, next, steps, n);
      CoveredIsExclusive(states[n], ttl);
    }
  }

  /** A listed row is as the table still has it. */
  ghost predicate Current(s: State, t: nat, m: nat) {
    t in s.ticks && s.ticks[t].todo.Some? && m < |s.ticks[t].todo.value| ==>
      var d := s.ticks[t].todo.value[m];
      d.id in s.rows && d.row == s.rows[d.id].row
  }

  /** What a row is armed for lies past every instant it was fired for. */
  ghost predicate Past(s: State, k: nat) {
    k < |s.fired| && s.fired[k].marked ==>
      s.fired[k].id in s.rows && var row := s.rows[s.fired[k].id].row;
      row.nextRunAt.Some? && s.fired[k].instant < row.nextRunAt.value
  }

  /** The fires of a row are for ever later instants. */
  ghost predicate Later(s: State, j: nat, k: nat) {
    j < k < |s.fired| && s.fired[j].id == s.fired[k].id ==> s.fired[j].instant < s.fired[k].instant
  }

  ghost predicate Advancing(s: State) {
    && (forall t: nat, m: nat {:trigger Current(s, t, m)} :: Current(s, t, m))
    && (forall k: nat {:trigger Past(s, k)} :: Past(s, k))
    && (forall j: nat, k: nat {:trigger Later(s, j, k)} :: Later(s, j, k))
  }

  lemma StepKeepsCurrent(s: State, ttl: LeaderElection.Ttl, next: S.NextAfter, step: Step, t: nat, m: nat)
    requires Inv(s) && Advancing(s) && NoOverlap(s, true) && Enabled(s, next, step)
    ensures Current(Apply(s, ttl, next, step), t, m)
  {
    assert Current(s, t, m) && Current(s, t, m + 1) && QueuedOk(s, t) && EntryOk(s, t, m + 1);
    if step.Deny? || step.Mark? {
      assert QueuedOk(s, step.t);
      assert t in s.ticks ==> Rivals(s, true, t, step.t);
    }
    if step.List? && step.t == t && m < |step.due| { assert step.due[m] in step.due; }
  }

  lemma StepKeepsLater(s: State, ttl: LeaderElection.Ttl, next: S.NextAfter, step: Step, j: nat, k: nat)
    requires Inv(s) && Orderly(s, true) && Advancing(s) && NoOverlap(s, true) && Enabled(s, next, step)
    ensures Later(Apply(s, ttl, next, step), j, k)
  {
    assert Later(s, j, k);
    if step.Enqueue? {
      assert Current(s, step.t, 0) && EntryOk(s, step.t, 0) && Past(s, j) && Pending(s, j) && QueuedOk(s, step.t);
      if j < |s.fired| && !s.fired[j].marked {
        assert QueuedOk(s, s.fired[j].tick);
        assert Rivals(s, true, s.fired[j].tick, step.t);
      }
    }
  }

  lemma StepKeepsAdvancing(s: State, ttl: LeaderElection.Ttl, next: S.NextAfter, step: Step)
    requires Inv(s) && Orderly(s, true) && Advancing(s) && S.StrictlyLater(next)
    requires NoOverlap(s, true) && Enabled(s, next, step)
    ensures Advancing(Apply(s, ttl, next, step))
  {
    var u := Apply(s, ttl, next, step);
    forall t: nat, m: nat ensures Current(u, t, m) { StepKeepsCurrent(s, ttl, next, step, t, m); }
    forall k: nat ensures Past(u, k) {
      assert Past(s, k);
      if step.Deny? || step.Mark? { assert Current(s, step.t, 0) && EntryOk(s, step.t, 0) && QueuedOk(s, step.t); }
    }
    forall j: nat, k: nat ensures Later(u, j, k) { StepKeepsLater(s, ttl, next, step, j, k); }
  }

  lemma {:induction false} RunAdvances(states: seq<State>, ttl: LeaderElection.Ttl, next: S.NextAfter, steps: seq<Step>,
                                       i: nat)
    requires Run(states, ttl, next, steps) && S.StrictlyLater(next) && i < |states|
    requires Disciplined(states, steps, true, i)
    ensures Advancing(states[i])
  {
    if i > 0 {
      RunAdvances(states, ttl, next, steps, i - 1);
      RunKeepsInv(states, ttl, next, steps, i - 1);
      RunIsOrderly(states, ttl, next, steps, true, i - 1);
      assert states[i - 1 + 1] == Apply(states[i - 1], ttl, next, steps[i - 1]);
      StepKeepsAdvancing(states[i - 1], ttl, next, steps[i - 1]);
    }
  }

  /** The lease and `markRun` together: as long as every tick is done before its
      pod's lease runs out, pods' own ticks do not overlap and marks land, the
      whole fleet fires each instant of a schedule at most once, in order. */
  lemma EachInstantOnce(states: seq<State>, ttl: LeaderElection.Ttl, next: S.NextAfter, steps: seq<Step>, i: nat,
                        j: nat, k: nat)
    requires Run(states, ttl, next, steps) && S.StrictlyLater(next) && i < |states| && Safe(states, ttl, steps, i)
    requires j < k < |states[i].fired| && states[i].fired[j].id == states[i].fired[k].id
    ensures states[i].fired[j].instant < states[i].fired[k].instant
    ensures states[i].fired[j].arming < states[i].fired[k].arming
  {
    SafeIsExclusive(states, ttl, next, steps, i);
    RunAdvances(states, ttl, next, steps, i);
    RunIsOrderly(states, ttl, next, steps, true, i);
    RunKeepsInv(states, ttl, next, steps, i);
    assert Later(states[i], j, k) && Rising(states[i], true, j, k) && FireOk(states[i], j) && FireOk(states[i], k);
  }

  /*
   * When a lease runs out under a tick.
   */

  /** A run in which no pod's ticks overlap and every mark lands. */
  ghost predicate NeatRun(states: seq<State>, ttl: LeaderElection.Ttl, next: S.NextAfter, steps: seq<Step>) {
    && Run(states, ttl, next, steps) && Disciplined(states, steps, false, |steps|)
    && NoOverlap(states[|states| - 1], false)
  }

  lemma Extend(states0: seq<State>, ttl: LeaderElection.Ttl, next: S.NextAfter, steps0: seq<Step>, step: Step)
    returns (states: seq<State>, steps: seq<Step>)
    requires NeatRun(states0, ttl, next, steps0) && Enabled(states0[|states0| - 1], next, step)
    requires EveryMarkLands(states0[|states0| - 1], step)
    requires NoOverlap(Apply(states0[|states0| - 1], ttl, next, step), false)
    ensures NeatRun(states, ttl, next, steps) && states[0] == states0[0]
    ensures states == states0 + [Apply(states0[|states0| - 1], ttl, next, step)]
  {
    states, steps := states0 + [Apply(states0[|states0| - 1], ttl, next, step)], steps0 + [step];
  }

  /** A pod takes the free lease and learns that it did. */
  lemma Lead(states0: seq<State>, ttl: LeaderElection.Ttl, next: S.NextAfter, steps0: seq<Step>, p: nat, r: nat)
    returns (states: seq<State>, steps: seq<Step>)
    requires NeatRun(states0, ttl, next, steps0)
    requires var e := states0[|states0| - 1].election;
             && LeaderElection.Live(e.lease, e.now) == None && r !in e.net && p in e.pods
             && e.pods[p].flags == LeaderElection.Flags(false, false) && e.pods[p].loop == LeaderElection.Top
    ensures NeatRun(states, ttl, next, steps) && states[0] == states0[0]
    ensures var s, t := states0[|states0| - 1], states[|states| - 1];
            && t == s.(election := t.election) && t.election.now == s.election.now
            && t.election.lease == Some(LeaderElection.Lease(s.election.pods[p].token, s.election.now + ttl))
            && t.election.pods == s.election.pods[p := s.election.pods[p].(flags := LeaderElection.Flags(true, false))]
            && t.election.net.Keys == s.election.net.Keys + {r}
  {
    states, steps := Extend(states0, ttl, next, steps0, Elect(LeaderElection.Iterate(p, r)));
    states, steps := Extend(states, ttl, next, steps, Elect(LeaderElection.Reach(r)));
    states, steps := Extend(states, ttl, next, steps, Elect(LeaderElection.Deliver(p)));
  }

  /** A leading pod with no tick in progress begins one that lists the only row. */
  lemma BeginAndList(states0: seq<State>, ttl: LeaderElection.Ttl, next: S.NextAfter, steps0: seq<Step>, t: nat, p: nat,
                     id: S.Id, stored: Stored) returns (states: seq<State>, steps: seq<Step>)
    requires NeatRun(states0, ttl, next, steps0)
    requires var s := states0[|states0| - 1];
             && t !in s.owner && p in s.election.pods && LeaderElection.IsLeader(s.election.pods[p].flags)
             && (forall u :: u in s.ticks ==> u in s.owner && s.owner[u] != p)
             && s.rows == map[id := stored] && S.IsDue(stored.row, s.election.now)
    ensures NeatRun(states, ttl, next, steps) && states[0] == states0[0]
    ensures var s := states0[|states0| - 1];
            states[|states| - 1] ==
            s.(ticks := s.ticks[t := Tick(p, s.election.now, Some([Due(id, stored.row, stored.arming)]), None)],
               owner := s.owner[t := p])
  {
    states, steps := Extend(states0, ttl, next, steps0, Begin(t, p));
    var s := states[|states| - 1];
    assert Rows(s.rows) == map[id := stored.row];
    assert NoOverlap(Apply(s, ttl, next, List(t, [id])), false) by {
      forall u, v | u in s.ticks && v in s.ticks && Rivals(s, false, u, v) ensures u == v { }
    }
    states, steps := Extend(states, ttl, next, steps, List(t, [id]));
    assert ListedRows(s.rows, [id]) == [Due(id, stored.row, stored.arming)];
  }

  /** The row once a tick at `at` has marked it. */
  function MarkedAt(stored: Stored, next: S.NextAfter, at: int): Stored {
    Stored(stored.row.(lastRunAt := Some(at), nextRunAt := next(stored.row.cron, stored.row.timezone, at)),
           stored.arming + 1)
  }

  /** The table holds one due row, two pods are there and nothing has happened. */
  ghost predicate TwoPodsOneRow(s0: State, p: nat, q: nat, id: S.Id, stored: Stored) {
    && Init(s0) && s0.election.lease == None && p in s0.election.pods && q in s0.election.pods && p != q
    && s0.rows == map[id := stored] && S.IsDue(stored.row, s0.election.now)
  }

  /** One pod lists the row and its lease runs out. */
  lemma ListAndPause(s0: State, ttl: LeaderElection.Ttl, next: S.NextAfter, p: nat, q: nat, id: S.Id, stored: Stored)
    returns (states: seq<State>, steps: seq<Step>)
    requires TwoPodsOneRow(s0, p, q, id, stored)
    ensures NeatRun(states, ttl, next, steps) && states[0] == s0
    ensures var s, e := states[|states| - 1], s0.election;
            && s.rows == s0.rows && s.fired == [] && s.owner == map[0 := p]
            && s.ticks == map[0 := Tick(p, e.now, Some([Due(id, stored.row, stored.arming)]), None)]
            && s.election.now == e.now + ttl && LeaderElection.Live(s.election.lease, e.now + ttl) == None
            && s.election.net.Keys == {0} && q in s.election.pods && s.election.pods[q] == e.pods[q]
  {
    states, steps := Lead([s0], ttl, next, [], p, 0);
    states, steps := BeginAndList(states, ttl, next, steps, 0, p, id, stored);
    states, steps := Extend(states, ttl, next, steps, Elect(LeaderElection.Elapse(s0.election.now + ttl)));
  }

  /** Its successor then lists the row too. */
  lemma BothList(s0: State, ttl: LeaderElection.Ttl, next: S.NextAfter, p: nat, q: nat, id: S.Id, stored: Stored)
    returns (states: seq<State>, steps: seq<Step>)
    requires TwoPodsOneRow(s0, p, q, id, stored)
    ensures NeatRun(states, ttl, next, steps) && states[0] == s0
    ensures var s, d := states[|states| - 1], Due(id, stored.row, stored.arming);
            && s.rows == s0.rows && s.fired == [] && s.owner == map[0 := p, 1 := q]
            && s.ticks == map[0 := Tick(p, s0.election.now, Some([d]), None),
                              1 := Tick(q, s0.election.now + ttl, Some([d]), None)]
            && s.election.now == s0.election.now + ttl && q in s.election.pods
            && LeaderElection.IsLeader(s.election.pods[q].flags)
  {
    states, steps := ListAndPause(s0, ttl, next, p, q, id, stored);
    states, steps := Lead(states, ttl, next, steps, q, 1);
    states, steps := BeginAndList(states, ttl, next, steps, 1, q, id, stored);
  }

  /** A tick fires its first row and marks it. */
  lemma FireAndMark(states0: seq<State>, ttl: LeaderElection.Ttl, next: S.NextAfter, steps0: seq<Step>, t: nat)
    returns (states: seq<State>, steps: seq<Step>)
    requires NeatRun(states0, ttl, next, steps0)
    requires var s := states0[|states0| - 1];
             && HasFirst(s, t) && s.ticks[t].queued.None? && NextOf(next, s.ticks[t]).Some?
             && First(s.ticks[t]).id in s.rows
    ensures NeatRun(states, ttl, next, steps) && states[0] == states0[0]
    ensures var s, u := states0[|states0| - 1], states[|states| - 1];
            var d := First(s.ticks[t]);
            && u.election == s.election && u.owner == s.owner && u.ticks == s.ticks[t := Rest(s.ticks[t])]
            && u.fired == s.fired + [Fire(t, d.id, d.arming, InstantOf(d.row), true)]
            && u.rows == Marked(s.rows, d.id, Some(s.ticks[t].at), NextOf(next, s.ticks[t]).value)
  {
    states, steps := Extend(states0, ttl, next, steps0, Enqueue(t));
    states, steps := Extend(states, ttl, next, steps, Mark(t));
  }

  /** Without cover the bound is two for two pods, and it is reached: a leader
      that pauses for its lease's time between listing and enqueuing fires the
      instant its successor has already fired and marked. */
  lemma PausedLeaderFiresAgain(s0: State, ttl: LeaderElection.Ttl, next: S.NextAfter, p: nat, q: nat, id: S.Id,
                               stored: Stored) returns (states: seq<State>, steps: seq<Step>)
    requires TwoPodsOneRow(s0, p, q, id, stored)
    requires forall at :: next(stored.row.cron, stored.row.timezone, at).Some?
    ensures NeatRun(states, ttl, next, steps) && states[0] == s0
    ensures var s := states[|states| - 1];
            && s.fired == [Fire(1, id, stored.arming, InstantOf(stored.row), true),
                           Fire(0, id, stored.arming, InstantOf(stored.row), false)]
            && s.owner == map[0 := p, 1 := q]
            && s.rows == map[id := MarkedAt(stored, next, s0.election.now + ttl)]
            && s.ticks == map[0 := Tick(p, s0.election.now, Some([Due(id, stored.row, stored.arming)]), Some(1))]
            && s.election.now == s0.election.now + ttl && q in s.election.pods
            && LeaderElection.IsLeader(s.election.pods[q].flags)
  {
    states, steps := BothList(s0, ttl, next, p, q, id, stored);
    states, steps := FireAndMark(states, ttl, next, steps, 1);
    states, steps := Extend(states, ttl, next, steps, End(1));
    states, steps := Extend(states, ttl, next, steps, Enqueue(0));
  }

  /** Its own late mark then overwrites the successor's with the times of the
      older tick. If an instant has come up between the two, the row was armed for
      a moment still to come and is now armed for that instant: it is due. */
  lemma LateMarkGoesBack(s0: State, ttl: LeaderElection.Ttl, next: S.NextAfter, p: nat, q: nat, id: S.Id,
                         stored: Stored, x: int) returns (states: seq<State>, steps: seq<Step>)
    requires TwoPodsOneRow(s0, p, q, id, stored) && S.StrictlyLater(next)
    requires forall at :: next(stored.row.cron, stored.row.timezone, at).Some?
    requires next(stored.row.cron, stored.row.timezone, s0.election.now) == Some(x) && x <= s0.election.now + ttl
    ensures NeatRun(states, ttl, next, steps) && states[0] == s0 && |states| > 1
    ensures var s, u := states[|states| - 2], states[|states| - 1];
            && steps[|steps| - 1] == Mark(0) && id in s.rows && id in u.rows
            && u.election.now == s.election.now == s0.election.now + ttl
            && s.rows[id].row.nextRunAt.Some? && s.rows[id].row.nextRunAt.value > s.election.now
            && u.rows[id].row.nextRunAt == Some(x) && S.IsDue(u.rows[id].row, u.election.now)
  {
    states, steps := PausedLeaderFiresAgain(s0, ttl, next, p, q, id, stored);
    var fired := states;
    states, steps := Extend(states, ttl, next, steps, Mark(0));
    assert states[|states| - 2] == fired[|fired| - 1];
  }

  /** The successor fires the instant `x` of its own arming when it comes. */
  lemma SuccessorFiresNext(s0: State, ttl: LeaderElection.Ttl, next: S.NextAfter, p: nat, q: nat, id: S.Id,
                           stored: Stored, x: int) returns (states: seq<State>, steps: seq<Step>)
    requires TwoPodsOneRow(s0, p, q, id, stored)
    requires forall at :: next(stored.row.cron, stored.row.timezone, at).Some?
    requires next(stored.row.cron, stored.row.timezone, s0.election.now + ttl) == Some(x) && s0.election.now + ttl <= x
    ensures NeatRun(states, ttl, next, steps) && states[0] == s0
    ensures var s, a := states[|states| - 1], stored.arming;
            && s.fired == [Fire(1, id, a, InstantOf(stored.row), true), Fire(0, id, a, InstantOf(stored.row), false),
                           Fire(2, id, a + 1, x, true)]
            && s.owner == map[0 := p, 1 := q, 2 := q]
            && s.rows == map[id := MarkedAt(MarkedAt(stored, next, s0.election.now + ttl), next, x)]
            && s.ticks == map[0 := Tick(p, s0.election.now, Some([Due(id, stored.row, a)]), Some(1))]
            && s.election.now == x && q in s.election.pods && LeaderElection.IsLeader(s.election.pods[q].flags)
  {
    states, steps := PausedLeaderFiresAgain(s0, ttl, next, p, q, id, stored);
    states, steps := Extend(states, ttl, next, steps, Elect(LeaderElection.Elapse(x)));
    states, steps := BeginAndList(states, ttl, next, steps, 2, q, id, MarkedAt(stored, next, s0.election.now + ttl));
    states, steps := FireAndMark(states, ttl, next, steps, 2);
    states, steps := Extend(states, ttl, next, steps, End(2));
  }

  /** So the bound per pod is for armings and not for instants. If no instant has
      come up between the two ticks, both arm the row for the same one; the
      successor fires it, the late mark arms the row for it again, and the
      successor fires it once more, although no pod's ticks overlap and every
      mark lands. */
  lemma PodFiresInstantTwice(s0: State, ttl: LeaderElection.Ttl, next: S.NextAfter, p: nat, q: nat, id: S.Id,
                             stored: Stored, x: int) returns (states: seq<State>, steps: seq<Step>)
    requires TwoPodsOneRow(s0, p, q, id, stored) && S.StrictlyLater(next)
    requires forall at :: next(stored.row.cron, stored.row.timezone, at).Some?
    requires next(stored.row.cron, stored.row.timezone, s0.election.now) == Some(x)
    requires next(stored.row.cron, stored.row.timezone, s0.election.now + ttl) == Some(x)
    ensures Run(states, ttl, next, steps) && states[0] == s0 && Disciplined(states, steps, false, |steps|)
    ensures var s := states[|states| - 1];
            && |s.fired| == 4 && s.owner == map[0 := p, 1 := q, 2 := q, 3 := q]
            && s.fired[2] == Fire(2, id, stored.arming + 1, x, true)
            && s.fired[3] == Fire(3, id, stored.arming + 3, x, true)
  {
    states, steps := SuccessorFiresNext(s0, ttl, next, p, q, id, stored, x);
    states, steps := Extend(states, ttl, next, steps, Mark(0));
    var s := states[|states| - 1];
    states, steps := BeginAndList(states, ttl, next, steps, 3, q, id, s.rows[id]);
    states, steps := FireAndMark(states, ttl, next, steps, 3);
  }
}
