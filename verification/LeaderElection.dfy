/**
  The Redis-leased leader election of the cron scheduler.

  Redis is one expiring key with three atomic commands. Each pod runs the
  acquire/renew loop; a command is sent, reaches Redis, and is answered in
  separate steps, any of which may be delayed or fail, and time may pass between
  any two. A command whose caller gave up may still reach Redis later.
 */
module LeaderElection {
  import opened Wrappers

  /*
   * Redis.
   */

  /** Redis refuses an expiry of 0 or less, so a lease always lasts. */
  type Ttl = n: int | n > 0 witness 10000

  datatype Command = Acquire | Renew | Release

  datatype Lease = Lease(holder: string, expiresAt: int)

  /** The key as a command sees it: an expired key is absent. */
  function Live(lease: Option<Lease>, now: int): Option<Lease> {
    if lease.Some? && now < lease.value.expiresAt then lease else None
  }

  /** `SET NX PX`, and the two compare-then-act scripts. */
  function Exec(lease: Option<Lease>, now: int, ttl: Ttl, token: string, cmd: Command): (r: (Option<Lease>, bool))
  {
    var key := Live(lease, now);
    match cmd
    case Acquire => if key.None? then (Some(Lease(token, now + ttl)), true) else (lease, false)
    case Renew =>
      if key.Some? && key.value.holder == token then (Some(Lease(token, now + ttl)), true) else (lease, false)
    case Release =>
      if key.Some? && key.value.holder == token then (None, true) else (lease, false)
  }

  /** No command of one pod touches a lease another pod holds. */
  lemma OthersLeaseUntouched(lease: Option<Lease>, now: int, ttl: Ttl, token: string, cmd: Command)
    requires Live(lease, now).Some? && lease.value.holder != token
    ensures Exec(lease, now, ttl, token, cmd) == (lease, false)
  {
  }

  /*
   * One pod. The flags, and what each segment of the loop between two awaits
   * does to them.
   */

  datatype Flags = Flags(leader: bool, stopped: bool)

  datatype Pause = NoPause | RenewInterval | PollInterval

  predicate IsLeader(f: Flags) {
    f.leader && !f.stopped
  }

  /** Top of the loop: the command to send, or none once stopped. */
  function NextCommand(f: Flags): Option<Command> {
    if f.stopped then None else Some(if f.leader then Renew else Acquire)
  }

  /** The answer to the loop's own command has arrived. */
  function OnReply(f: Flags, cmd: Command, ok: bool): Flags {
    match cmd
    case Renew => if ok then f else f.(leader := false)
    case Acquire => if ok then f.(leader := true) else f
    case Release => f
  }

  function PauseAfter(cmd: Command, ok: bool): Pause {
    if !ok then PollInterval else if cmd == Renew then RenewInterval else NoPause
  }

  /** The command threw: give leadership up and back off. */
  function OnError(f: Flags): Flags {
    f.(leader := false)
  }

  class RedisLeaderElection {
    const podId: string
    var leader: bool
    var stopped: bool

    function View(): Flags
      reads this
    {
      Flags(leader, stopped)
    }

    constructor (podId: string)
      ensures this.podId == podId && View() == Flags(false, false)
    {
      this.podId := podId;
      leader, stopped := false, false;
    }

    method IsLeaderNow() returns (r: bool)
      ensures r == IsLeader(View())
    {
      r := leader && !stopped;
    }

    method BeginIteration() returns (cmd: Option<Command>)
      ensures cmd == NextCommand(View())
    {
      if stopped { return None; }
      if leader { cmd := Some(Renew); } else { cmd := Some(Acquire); }
    }

    method EndIteration(cmd: Command, ok: bool) returns (pause: Pause)
      requires cmd != Release
      modifies this
      ensures View() == OnReply(old(View()), cmd, ok)
      ensures pause == PauseAfter(cmd, ok)
    {
      if cmd == Renew {
        if !ok {
          leader := false;
          return PollInterval;
        }
        return RenewInterval;
      } else {
        if ok {
          leader := true;
          return NoPause;
        }
        return PollInterval;
      }
    }

    method AbortIteration() returns (pause: Pause)
      modifies this
      ensures View() == OnError(old(View())) && pause == PollInterval
    {
      leader := false;
      pause := PollInterval;
    }

    /** Up to the awaited release; `release` says whether one is sent at all. */
    method BeginStop() returns (release: bool)
      modifies this
      ensures View() == old(View()).(stopped := true)
      ensures release == !old(stopped)
    {
      if stopped { return false; }
      stopped := true;
      release := true;
    }

    method EndStop()
      modifies this
      ensures View() == old(View()).(leader := false)
    {
      leader := false;
    }
  }

  /*
   * The whole system.
   */

  datatype Loop = Top | Awaiting(req: nat) | Sleeping | Exited

  datatype Pod = Pod(token: string, flags: Flags, loop: Loop, release: Option<nat>)

  /** A command on its way: its reply is absent until Redis has run it. */
  datatype Request = Request(pod: nat, cmd: Command, reply: Option<bool>)

  /** `lastOk` and `lastReach` are history: when Redis last granted a pod's
      acquire or renew, and when a renew or a granted acquire last reached it. */
  datatype State = State(now: int, lease: Option<Lease>, pods: map<nat, Pod>, net: map<nat, Request>,
                         lastOk: map<nat, int>, lastReach: map<nat, int>)

  datatype Step =
    | Elapse(until: int)
    | Iterate(pod: nat, req: nat)   // top of the loop
    | ConnectFails(pod: nat)        // the client factory threw
    | Reach(req: nat)               // Redis runs a command
    | Deliver(pod: nat)             // the loop's command is answered
    | Fail(pod: nat)                // the loop's command throws
    | Wake(pod: nat)                // the sleep ends
    | Stop(pod: nat, req: nat)      // stop() up to its release
    | StopDone(pod: nat)            // the release answered or failed

  predicate Enabled(s: State, step: Step) {
    match step
    case Elapse(until) => s.now <= until
    case Iterate(p, r) => p in s.pods && s.pods[p].loop == Top && r !in s.net
    case ConnectFails(p) => p in s.pods && s.pods[p].loop == Top && !s.pods[p].flags.stopped
    case Reach(r) => r in s.net && s.net[r].reply.None? && s.net[r].pod in s.pods
    case Deliver(p) =>
      && p in s.pods && s.pods[p].loop.Awaiting?
      && s.pods[p].loop.req in s.net && s.net[s.pods[p].loop.req].reply.Some?
    case Fail(p) => p in s.pods && s.pods[p].loop.Awaiting?
    case Wake(p) => p in s.pods && s.pods[p].loop == Sleeping
    case Stop(p, r) => p in s.pods && !s.pods[p].flags.stopped && r !in s.net
    case StopDone(p) => p in s.pods && s.pods[p].release.Some?
  }

  function Apply(s: State, ttl: Ttl, step: Step): State
    requires Enabled(s, step)
  {
    match step
    case Elapse(until) => s.(now := until)
    case Iterate(p, r) =>
      var pod := s.pods[p];
      var cmd := NextCommand(pod.flags);
      if cmd.None? then s.(pods := s.pods[p := pod.(loop := Exited)])
      else s.(pods := s.pods[p := pod.(loop := Awaiting(r))], net := s.net[r := Request(p, cmd.value, None)])
    case ConnectFails(p) => s.(pods := s.pods[p := s.pods[p].(flags := OnError(s.pods[p].flags), loop := Sleeping)])
    case Reach(r) =>
      var req := s.net[r];
      var (lease, ok) := Exec(s.lease, s.now, ttl, s.pods[req.pod].token, req.cmd);
      s.(lease := lease, net := s.net[r := req.(reply := Some(ok))],
         lastOk := if ok && req.cmd != Release then s.lastOk[req.pod := s.now] else s.lastOk,
         lastReach := if req.cmd == Renew || (req.cmd == Acquire && ok) then s.lastReach[req.pod := s.now]
                      else s.lastReach)
    case Deliver(p) =>
      var pod, req := s.pods[p], s.net[s.pods[p].loop.req];
      var loop := if PauseAfter(req.cmd, req.reply.value) == NoPause then Top else Sleeping;
      s.(pods := s.pods[p := pod.(flags := OnReply(pod.flags, req.cmd, req.reply.value), loop := loop)])
    case Fail(p) => s.(pods := s.pods[p := s.pods[p].(flags := OnError(s.pods[p].flags), loop := Sleeping)])
    case Wake(p) => s.(pods := s.pods[p := s.pods[p].(loop := Top)])
    case Stop(p, r) =>
      var pod := s.pods[p];
      s.(pods := s.pods[p := pod.(flags := pod.flags.(stopped := true), release := Some(r))],
         net := s.net[r := Request(p, Release, None)])
    case StopDone(p) =>
      var pod := s.pods[p];
      s.(pods := s.pods[p := pod.(flags := pod.flags.(leader := false), release := None)])
  }

  /** Pods just started, no traffic; the key may hold anything. */
  ghost predicate Init(s: State) {
    && (forall p :: p in s.pods ==> s.pods[p] == Pod(s.pods[p].token, Flags(false, false), Top, None))
    && s.net == map[] && s.lastOk == map[] && s.lastReach == map[]
  }

  ghost predicate Steps(run: seq<State>, ttl: Ttl, steps: seq<Step>) {
    && |run| == |steps| + 1
    && forall i :: 0 <= i < |steps| ==> Enabled(run[i], steps[i]) && run[i + 1] == Apply(run[i], ttl, steps[i])
  }

  ghost predicate Run(run: seq<State>, ttl: Ttl, steps: seq<Step>) {
    Steps(run, ttl, steps) && Init(run[0])
  }

  ghost predicate DistinctTokens(pods: map<nat, Pod>) {
    forall p, q :: p in pods && q in pods && pods[p].token == pods[q].token ==> p == q
  }

  /** A grant less than one TTL old is still the lease, unless its owner
      stopped; only a granted pod leads. */
  ghost predicate PodOk(s: State, ttl: Ttl, p: nat) {
    && (p in s.lastOk ==>
          && p in s.pods && s.lastOk[p] <= s.now
          && (!s.pods[p].flags.stopped && s.now < s.lastOk[p] + ttl ==>
                s.lease == Some(Lease(s.pods[p].token, s.lastOk[p] + ttl))))
    && (p in s.pods && s.pods[p].flags.leader ==> p in s.lastOk)
  }

  /** A loop waits for its own command, a renew if and only if it leads. */
  ghost predicate LoopOk(s: State, p: nat) {
    p in s.pods ==>
      var pod := s.pods[p];
      && (pod.release.Some? ==> pod.flags.stopped)
      && (pod.loop.Awaiting? ==>
            var r := pod.loop.req;
            && r in s.net && s.net[r].pod == p && s.net[r].cmd != Release
            && (!pod.flags.stopped ==> (pod.flags.leader <==> s.net[r].cmd == Renew)))
  }

  ghost predicate LoopsOk(s: State) {
    forall p {:trigger LoopOk(s, p)} :: LoopOk(s, p)
  }

  ghost predicate RequestOk(s: State, r: nat) {
    r in s.net ==>
      var req := s.net[r];
      && req.pod in s.pods
      && (req.cmd == Release ==> s.pods[req.pod].flags.stopped)
      && (req.cmd != Release && req.reply == Some(true) ==> req.pod in s.lastOk)
  }

  ghost predicate Inv(s: State, ttl: Ttl) {
    && DistinctTokens(s.pods) && LoopsOk(s)
    && (forall p {:trigger PodOk(s, ttl, p)} :: PodOk(s, ttl, p))
    && (forall r {:trigger RequestOk(s, r)} :: RequestOk(s, r))
  }

  lemma ReachKeepsPod(s: State, ttl: Ttl, r: nat, p: nat)
    requires Inv(s, ttl) && Enabled(s, Reach(r))
    ensures PodOk(Apply(s, ttl, Reach(r)), ttl, p)
  {
    assert PodOk(s, ttl, p) && RequestOk(s, r);
    var q := s.net[r].pod;
    assert p in s.pods && p != q ==> s.pods[p].token != s.pods[q].token;
  }

  lemma StepKeepsPod(s: State, ttl: Ttl, step: Step, p: nat)
    requires Inv(s, ttl) && Enabled(s, step)
    ensures PodOk(Apply(s, ttl, step), ttl, p)
  {
    assert PodOk(s, ttl, p);
    match step
    case Reach(r) => ReachKeepsPod(s, ttl, r, p);
    case Deliver(q) => assert LoopOk(s, q) && RequestOk(s, s.pods[q].loop.req);
    case _ =>
  }

  lemma StepKeepsRequest(s: State, ttl: Ttl, step: Step, r: nat)
    requires Inv(s, ttl) && Enabled(s, step)
    ensures RequestOk(Apply(s, ttl, step), r)
  {
    assert RequestOk(s, r);
  }

  lemma StepKeepsLoops(s: State, ttl: Ttl, step: Step)
    requires LoopsOk(s) && Enabled(s, step)
    ensures LoopsOk(Apply(s, ttl, step))
  {
    forall p ensures LoopOk(Apply(s, ttl, step), p) { assert LoopOk(s, p); }
  }

  lemma StepKeepsInv(s: State, ttl: Ttl, step: Step)
    requires Inv(s, ttl) && Enabled(s, step)
    ensures Inv(Apply(s, ttl, step), ttl)
  {
    var t := Apply(s, ttl, step);
    StepKeepsLoops(s, ttl, step);
    forall p ensures PodOk(t, ttl, p) { StepKeepsPod(s, ttl, step, p); }
    forall r ensures RequestOk(t, r) { StepKeepsRequest(s, ttl, step, r); }
  }

  lemma {:induction false} RunKeepsInv(run: seq<State>, ttl: Ttl, steps: seq<Step>, i: nat)
    requires Run(run, ttl, steps) && DistinctTokens(run[0].pods) && i < |run|
    ensures Inv(run[i], ttl)
  {
    if i > 0 {
      RunKeepsInv(run, ttl, steps, i - 1);
      assert run[i - 1 + 1] == Apply(run[i - 1], ttl, steps[i - 1]);
      StepKeepsInv(run[i - 1], ttl, steps[i - 1]);
    }
  }

  /** Redis runs an acquire or renew of the pod and grants it. */
  ghost predicate Grants(s: State, ttl: Ttl, step: Step, p: nat) {
    step.Reach? && Enabled(s, step) && var req := s.net[step.req];
    req.pod == p && req.cmd != Release && Apply(s, ttl, step).net[step.req].reply == Some(true)
  }

  /** Step `j` is the last before state `i` at which Redis granted the pod anything. */
  ghost predicate LastGrant(run: seq<State>, ttl: Ttl, steps: seq<Step>, i: nat, p: nat, j: nat)
    requires i <= |steps| < |run|
  {
    j < i && Grants(run[j], ttl, steps[j], p) && forall k :: j < k < i ==> !Grants(run[k], ttl, steps[k], p)
  }

  /** In every run `lastOk` tells when Redis last granted the pod an acquire or renew, if it ever did. */
  lemma {:induction false} LastOkIsLastGrant(run: seq<State>, ttl: Ttl, steps: seq<Step>, i: nat, p: nat)
    requires Run(run, ttl, steps) && i < |run|
    ensures p in run[i].lastOk <==> exists j: nat :: LastGrant(run, ttl, steps, i, p, j)
    ensures forall j: nat :: LastGrant(run, ttl, steps, i, p, j) ==>
        p in run[i].lastOk && run[i].lastOk[p] == run[j].now
  {
    if i > 0 {
      var h: nat := i - 1;
      LastOkIsLastGrant(run, ttl, steps, h, p);
      assert Enabled(run[h], steps[h]) && run[h + 1] == Apply(run[h], ttl, steps[h]);
      if Grants(run[h], ttl, steps[h], p) {
        assert LastGrant(run, ttl, steps, i, p, h);
        forall j: nat | LastGrant(run, ttl, steps, i, p, j) ensures j == h { }
      } else {
        forall j: nat ensures LastGrant(run, ttl, steps, i, p, j) <==> LastGrant(run, ttl, steps, h, p, j) {
          assert j == h ==> !Grants(run[j], ttl, steps[j], p);
        }
        OtherGrants(run[h], ttl, steps[h], p);
      }
    }
  }

  lemma OtherGrants(s: State, ttl: Ttl, step: Step, p: nat)
    requires Enabled(s, step) && !Grants(s, ttl, step, p)
    ensures var t := Apply(s, ttl, step);
            (p in t.lastOk <==> p in s.lastOk) && (p in s.lastOk ==> t.lastOk[p] == s.lastOk[p])
  {
  }

  /** The split-brain bound: whenever two pods both believe they lead, Redis
      last granted one of them its lease a full TTL ago or more. */
  lemma SplitBrainBound(run: seq<State>, ttl: Ttl, steps: seq<Step>, i: nat, p: nat, q: nat)
    requires Run(run, ttl, steps) && DistinctTokens(run[0].pods) && i < |run|
    requires p in run[i].pods && IsLeader(run[i].pods[p].flags)
    requires q in run[i].pods && IsLeader(run[i].pods[q].flags)
    requires p != q
    ensures p in run[i].lastOk && q in run[i].lastOk
    ensures run[i].now - run[i].lastOk[p] >= ttl || run[i].now - run[i].lastOk[q] >= ttl
  {
    RunKeepsInv(run, ttl, steps, i);
    var s := run[i];
    assert PodOk(s, ttl, p) && PodOk(s, ttl, q);
    assert s.pods[p].token != s.pods[q].token;
  }

  /*
   * Who leads. The loop's commands are answered, or fail, one at a time.
   */

  /** The step ends an iteration of the pod's loop. */
  predicate EndsIteration(step: Step, p: nat) {
    step == Deliver(p) || step == Fail(p) || step == ConnectFails(p)
  }

  /** The step hands the pod's loop a `true` from Redis. */
  predicate IsGrant(s: State, step: Step, p: nat) {
    && step == Deliver(p) && p in s.pods && s.pods[p].loop.Awaiting?
    && s.pods[p].loop.req in s.net && s.net[s.pods[p].loop.req].reply == Some(true)
  }

  lemma {:induction false} RunKeepsLoops(run: seq<State>, ttl: Ttl, steps: seq<Step>, i: nat)
    requires Run(run, ttl, steps) && i < |run|
    ensures LoopsOk(run[i]) && run[i].pods.Keys == run[0].pods.Keys
  {
    if i > 0 {
      RunKeepsLoops(run, ttl, steps, i - 1);
      assert run[i - 1 + 1] == Apply(run[i - 1], ttl, steps[i - 1]);
      StepKeepsLoops(run[i - 1], ttl, steps[i - 1]);
    }
  }

  /** In every run the end of an iteration decides: a pod that was not stopped
      leads afterwards if and only if Redis granted its acquire or its renew. A
      denial or an error ends leadership. Only a pod that just became leader goes
      on without a pause. */
  lemma AnswerDecides(run: seq<State>, ttl: Ttl, steps: seq<Step>, i: nat, p: nat)
    requires Run(run, ttl, steps) && i < |steps| && EndsIteration(steps[i], p)
    ensures p in run[i].pods && p in run[i + 1].pods
    ensures var (before, after) := (run[i].pods[p], run[i + 1].pods[p]);
            && after.flags.stopped == before.flags.stopped
            && (IsLeader(after.flags) <==> IsGrant(run[i], steps[i], p) && !before.flags.stopped)
            && (!before.flags.stopped ==>
                  after.loop == if IsLeader(after.flags) && !IsLeader(before.flags) then Top else Sleeping)
  {
    RunKeepsLoops(run, ttl, steps, i);
    assert LoopOk(run[i], p);
  }

  lemma StepElsewhere(s: State, ttl: Ttl, step: Step, p: nat)
    requires LoopOk(s, p) && Enabled(s, step) && p in s.pods && !EndsIteration(step, p)
    ensures var (before, after) := (s.pods[p].flags, Apply(s, ttl, step).pods[p].flags);
            (before.stopped ==> after.stopped) && (after.stopped || after == before)
  {
  }

  /** Step `j` was a grant to the pod, and the last to end an iteration of its loop before state `i`. */
  ghost predicate LastEndWasGrant(run: seq<State>, steps: seq<Step>, i: nat, p: nat, j: nat)
    requires i <= |steps| < |run|
  {
    j < i && IsGrant(run[j], steps[j], p) && forall k :: j < k < i ==> !EndsIteration(steps[k], p)
  }

  /** In every run a pod reports leadership if and only if it has not been
      stopped and the last answer its loop got was a grant. */
  lemma {:induction false} LeadsIffLastGranted(run: seq<State>, ttl: Ttl, steps: seq<Step>, i: nat, p: nat)
    requires Run(run, ttl, steps) && i < |run| && p in run[i].pods
    ensures IsLeader(run[i].pods[p].flags) <==>
        !run[i].pods[p].flags.stopped && exists j: nat :: LastEndWasGrant(run, steps, i, p, j)
  {
    if i > 0 {
      RunKeepsLoops(run, ttl, steps, i - 1);
      RunKeepsLoops(run, ttl, steps, i);
      assert run[i - 1 + 1] == Apply(run[i - 1], ttl, steps[i - 1]);
      assert LoopOk(run[i - 1], p);
      LeadsIffLastGranted(run, ttl, steps, i - 1, p);
      if EndsIteration(steps[i - 1], p) {
        AnswerDecides(run, ttl, steps, i - 1, p);
        assert IsGrant(run[i - 1], steps[i - 1], p) ==> LastEndWasGrant(run, steps, i, p, i - 1);
      } else {
        var h: nat := i - 1;
        forall j: nat ensures LastEndWasGrant(run, steps, h, p, j) <==> LastEndWasGrant(run, steps, i, p, j) {
          assert j == h ==> !IsGrant(run[j], steps[j], p);
        }
        StepElsewhere(run[i - 1], ttl, steps[i - 1], p);
      }
    }
  }

  lemma StepKeepsStopped(s: State, ttl: Ttl, step: Step, p: nat)
    requires Enabled(s, step) && p in s.pods && s.pods[p].flags.stopped
    ensures var t := Apply(s, ttl, step);
            && p in t.pods && t.pods[p].flags.stopped
            && (s.pods[p].loop == Exited || (step.Iterate? && step.pod == p) ==> t.pods[p].loop == Exited)
            && forall r :: r in t.net && t.net[r].pod == p ==> r in s.net && s.net[r].pod == p
  {
  }

  /** Once stopped, a pod never claims leadership again, sends nothing more than
      it had sent when it was stopped, its release included, and leaves its loop
      when it next gets to its top. */
  lemma {:induction false} StoppedForGood(run: seq<State>, ttl: Ttl, steps: seq<Step>, i: nat, j: nat, p: nat)
    requires Steps(run, ttl, steps) && i <= j < |run|
    requires p in run[i].pods && run[i].pods[p].flags.stopped
    ensures p in run[j].pods && run[j].pods[p].flags.stopped
    ensures !IsLeader(run[j].pods[p].flags)
    ensures forall r :: r in run[j].net && run[j].net[r].pod == p ==> r in run[i].net && run[i].net[r].pod == p
    ensures (exists k :: i <= k < j && steps[k].Iterate? && steps[k].pod == p) ==> run[j].pods[p].loop == Exited
    decreases j - i
  {
    if i < j {
      StoppedForGood(run, ttl, steps, i, j - 1, p);
      assert run[j - 1 + 1] == Apply(run[j - 1], ttl, steps[j - 1]);
      StepKeepsStopped(run[j - 1], ttl, steps[j - 1], p);
    }
  }

  /** Pod `p`'s own lease is the live one, granted by the last command of `p` to count. */
  ghost predicate Holds(s: State, ttl: Ttl, p: nat) {
    && p in s.pods && p in s.lastOk && p in s.lastReach && s.lastOk[p] == s.lastReach[p]
    && s.lease == Some(Lease(s.pods[p].token, s.lastOk[p] + ttl))
    && s.now < s.lastOk[p] + ttl
  }

  /** Every other pod's last grant is the same in both states. */
  ghost predicate NoOtherGrant(s: State, t: State, p: nat) {
    s.lastOk - {p} == t.lastOk - {p}
  }

  ghost predicate RenewsInTime(s: State, ttl: Ttl, p: nat) {
    && p in s.pods && !s.pods[p].flags.stopped
    && p in s.lastReach && s.now < s.lastReach[p] + ttl
  }

  lemma StepKeepsHold(s: State, ttl: Ttl, step: Step, p: nat)
    requires Inv(s, ttl) && Enabled(s, step) && Holds(s, ttl, p)
    requires RenewsInTime(s, ttl, p) && RenewsInTime(Apply(s, ttl, step), ttl, p)
    ensures Holds(Apply(s, ttl, step), ttl, p)
    ensures NoOtherGrant(s, Apply(s, ttl, step), p)
  {
    if step.Reach? {
      var req := s.net[step.req];
      assert RequestOk(s, step.req);
      assert req.pod != p ==> s.pods[req.pod].token != s.pods[p].token;
    }
  }

  /** A pod whose renewals keep reaching Redis less than a TTL apart is never
      displaced: it holds the lease throughout, every renewal is granted, and
      Redis grants nobody else anything. */
  lemma {:induction false} NeverDisplaced(run: seq<State>, ttl: Ttl, steps: seq<Step>, p: nat, j: nat)
    requires Steps(run, ttl, steps) && j < |run|
    requires Inv(run[0], ttl) && Holds(run[0], ttl, p)
    requires forall i :: 0 <= i <= j ==> RenewsInTime(run[i], ttl, p)
    ensures Inv(run[j], ttl) && Holds(run[j], ttl, p)
    ensures NoOtherGrant(run[0], run[j], p)
  {
    if j > 0 {
      NeverDisplaced(run, ttl, steps, p, j - 1);
      assert run[j - 1 + 1] == Apply(run[j - 1], ttl, steps[j - 1]);
      StepKeepsInv(run[j - 1], ttl, steps[j - 1]);
      StepKeepsHold(run[j - 1], ttl, steps[j - 1], p);
    }
  }

  /*
   * Why the tokens must differ. With one identity stamped on two pods the
   * fenced renew of a paused leader succeeds on its successor's lease.
   */

  /** Two pods sharing a token, in any deployment, can both lead at the very
      instant Redis granted each of them its lease. */
  lemma SharedTokenSplitsBrain(s0: State, ttl: Ttl, p: nat, q: nat) returns (run: seq<State>, steps: seq<Step>)
    requires Init(s0) && s0.lease == None
    requires p in s0.pods && q in s0.pods && p != q && s0.pods[p].token == s0.pods[q].token
    ensures Run(run, ttl, steps) && run[0] == s0
    ensures var s := run[|run| - 1];
            && p in s.pods && q in s.pods && IsLeader(s.pods[p].flags) && IsLeader(s.pods[q].flags)
            && p in s.lastOk && q in s.lastOk && s.lastOk[p] == s.lastOk[q] == s.now
  {
    run, steps := Acquires([s0], ttl, [], p, 0);
    run, steps := TakeStep(run, ttl, steps, Elapse(s0.now + ttl));
    run, steps := Acquires(run, ttl, steps, q, 1);
    run, steps := TakeStep(run, ttl, steps, Iterate(p, 2));
    run, steps := TakeStep(run, ttl, steps, Reach(2));
  }

  lemma TakeStep(run0: seq<State>, ttl: Ttl, steps0: seq<Step>, step: Step) returns (run: seq<State>, steps: seq<Step>)
    requires Steps(run0, ttl, steps0) && Enabled(run0[|run0| - 1], step)
    ensures Steps(run, ttl, steps) && run[0] == run0[0]
    ensures run[|run| - 1] == Apply(run0[|run0| - 1], ttl, step)
  {
    run, steps := run0 + [Apply(run0[|run0| - 1], ttl, step)], steps0 + [step];
  }

  /** A pod at the top of its loop takes a free lease and learns that it did. */
  lemma Acquires(run0: seq<State>, ttl: Ttl, steps0: seq<Step>, p: nat, r: nat)
    returns (run: seq<State>, steps: seq<Step>)
    requires Steps(run0, ttl, steps0)
    requires var s := run0[|run0| - 1];
             && Live(s.lease, s.now) == None && r !in s.net
             && p in s.pods && s.pods[p].flags == Flags(false, false) && s.pods[p].loop == Top
    ensures Steps(run, ttl, steps) && run[0] == run0[0]
    ensures var s, t := run0[|run0| - 1], run[|run| - 1];
            && t.now == s.now && t.lease == Some(Lease(s.pods[p].token, s.now + ttl))
            && t.pods == s.pods[p := s.pods[p].(flags := Flags(true, false), loop := Top)]
            && t.net.Keys == s.net.Keys + {r} && t.lastOk == s.lastOk[p := s.now]
  {
    run, steps := TakeStep(run0, ttl, steps0, Iterate(p, r));
    run, steps := TakeStep(run, ttl, steps, Reach(r));
    run, steps := TakeStep(run, ttl, steps, Deliver(p));
  }

  /** A pod that is stopped while it holds the lease hands it over without delay:
      once its release has reached Redis, a pod that tries next, or wakes up and
      tries, leads in its place. */
  lemma StopHandsOver(run0: seq<State>, ttl: Ttl, steps0: seq<Step>, p: nat, q: nat, r: nat, t: nat)
    returns (run: seq<State>, steps: seq<Step>)
    requires Steps(run0, ttl, steps0) && p != q && r != t
    requires var s := run0[|run0| - 1];
             && p in s.pods && !s.pods[p].flags.stopped && r !in s.net && t !in s.net
             && Live(s.lease, s.now).Some? && s.lease.value.holder == s.pods[p].token
             && q in s.pods && s.pods[q].flags == Flags(false, false)
             && (s.pods[q].loop == Top || s.pods[q].loop == Sleeping)
    ensures Steps(run, ttl, steps) && run[0] == run0[0]
    ensures var s, u := run0[|run0| - 1], run[|run| - 1];
            && u.now == s.now && u.lease == Some(Lease(s.pods[q].token, s.now + ttl))
            && p in u.pods && u.pods[p].flags == Flags(false, true) && u.pods[p].release == None
            && q in u.pods && IsLeader(u.pods[q].flags)
  {
    run, steps := Released(run0, ttl, steps0, p, r);
    if run0[|run0| - 1].pods[q].loop == Sleeping { run, steps := TakeStep(run, ttl, steps, Wake(q)); }
    run, steps := Acquires(run, ttl, steps, q, t);
    run, steps := TakeStep(run, ttl, steps, StopDone(p));
  }

  lemma Released(run0: seq<State>, ttl: Ttl, steps0: seq<Step>, p: nat, r: nat)
    returns (run: seq<State>, steps: seq<Step>)
    requires Steps(run0, ttl, steps0)
    requires var s := run0[|run0| - 1];
             && p in s.pods && !s.pods[p].flags.stopped && r !in s.net
             && Live(s.lease, s.now).Some? && s.lease.value.holder == s.pods[p].token
    ensures Steps(run, ttl, steps) && run[0] == run0[0]
    ensures var s, u := run0[|run0| - 1], run[|run| - 1];
            && u.now == s.now && Live(u.lease, u.now) == None && u.net.Keys == s.net.Keys + {r}
            && u.pods == s.pods[p := s.pods[p].(flags := s.pods[p].flags.(stopped := true), release := Some(r))]
  {
    run, steps := TakeStep(run0, ttl, steps0, Stop(p, r));
    run, steps := TakeStep(run, ttl, steps, Reach(r));
  }
}
