/**
  The JetStream consumer: how many handlers run at once, and what becomes of a
  message that keeps failing.

  The stream redelivers a message after a nak until it has been delivered
  MAX_DELIVER times. Ack deadlines never expire here: the heartbeat extends them.
 */
module NatsConsumer {
  import opened Sorting
  import opened Wrappers

  /*
   * One delivery.
   */

  const DEFAULT_ATTEMPTS := 3
  const DEFAULT_BACKOFF_MS := 1000
  const MAX_DELIVER := 25

  /** `Number(header || "d") || d`: absent, unreadable and zero all mean the default. */
  function HeaderOr(header: Option<int>, default: int): int {
    if header.Some? && header.value != 0 then header.value else default
  }

  datatype Decision = Terminate | Retry(delayMs: int)

  function Pow2(n: nat): (r: int)
    ensures r >= 1
  {
    if n == 0 then 1 else 2 * Pow2(n - 1)
  }

  function DecideRedelivery(attempts: int, deliveryCount: nat, backoffMs: int): Decision
    requires deliveryCount >= 1
  {
    if deliveryCount >= attempts then Terminate else Retry(backoffMs * Pow2(deliveryCount - 1))
  }

  datatype Settlement = Ack | Term | Nak(delayMs: int)

  datatype Delivery = Delivery(attemptsHeader: Option<int>, backoffHeader: Option<int>, count: nat, decodable: bool)

  function SettlementOf(d: Delivery, handlerOk: bool): Settlement
    requires d.count >= 1
  {
    if !d.decodable then Term
    else if handlerOk then Ack
    else
      match DecideRedelivery(HeaderOr(d.attemptsHeader, DEFAULT_ATTEMPTS), d.count,
                             HeaderOr(d.backoffHeader, DEFAULT_BACKOFF_MS))
      case Terminate => Term
      case Retry(delayMs) => Nak(delayMs)
  }

  /** `processOne`; `settled` lists every settling call it makes on the message. */
  method ProcessOne(d: Delivery, handlerOk: bool) returns (settled: seq<Settlement>)
    requires d.count >= 1
    ensures settled == [SettlementOf(d, handlerOk)]
    ensures settled == [Ack] <==> d.decodable && handlerOk
    ensures !d.decodable ==> settled == [Term]
  {
    settled := [];
    var attempts := HeaderOr(d.attemptsHeader, DEFAULT_ATTEMPTS);
    var backoffMs := HeaderOr(d.backoffHeader, DEFAULT_BACKOFF_MS);
    if !d.decodable {
      settled := settled + [Term];
      return;
    }
    if handlerOk {
      settled := settled + [Ack];
    } else {
      var decision := DecideRedelivery(attempts, d.count, backoffMs);
      if decision == Terminate {
        settled := settled + [Term];
      } else {
        settled := settled + [Nak(decision.delayMs)];
      }
    }
  }

  /*
   * One message over all its deliveries.
   */

  datatype End = Acked | Terminated | Abandoned

  /** How often the handler ran, how it ended, and the delays asked for. */
  datatype Fate = Fate(runs: nat, end: End, delays: seq<int>)

  /** The deliveries from number `count` on; `handlerOk(n)` is whether the
      handler succeeds on the n-th. */
  function FateFrom(attempts: Option<int>, backoff: Option<int>, handlerOk: nat -> bool, count: nat): Fate
    requires count >= 1
    decreases MAX_DELIVER + 1 - count
  {
    if count > MAX_DELIVER then Fate(0, Abandoned, [])
    else
      match SettlementOf(Delivery(attempts, backoff, count, true), handlerOk(count))
      case Ack => Fate(1, Acked, [])
      case Term => Fate(1, Terminated, [])
      case Nak(delayMs) =>
        var rest := FateFrom(attempts, backoff, handlerOk, count + 1);
        Fate(1 + rest.runs, rest.end, [delayMs] + rest.delays)
  }

  function Sum(xs: seq<int>): int {
    if xs == [] then 0 else xs[0] + Sum(xs[1..])
  }

  /** How many times a message with this budget may be tried. */
  function Budget(attempts: int): (r: nat)
    ensures 1 <= r <= MAX_DELIVER
  {
    if attempts < 1 then 1 else if attempts > MAX_DELIVER then MAX_DELIVER else attempts
  }

  lemma {:induction false} RunsOfFailure(attempts: Option<int>, backoff: Option<int>, handlerOk: nat -> bool,
                                         count: nat)
    requires 1 <= count <= Budget(HeaderOr(attempts, DEFAULT_ATTEMPTS))
    requires forall n :: count <= n <= Budget(HeaderOr(attempts, DEFAULT_ATTEMPTS)) ==> !handlerOk(n)
    ensures var a := HeaderOr(attempts, DEFAULT_ATTEMPTS);
            var fate := FateFrom(attempts, backoff, handlerOk, count);
            && fate.runs == Budget(a) - count + 1
            && fate.end == (if a <= MAX_DELIVER then Terminated else Abandoned)
    decreases MAX_DELIVER + 1 - count
  {
    var a := HeaderOr(attempts, DEFAULT_ATTEMPTS);
    if count < a && count < MAX_DELIVER {
      RunsOfFailure(attempts, backoff, handlerOk, count + 1);
    }
  }

  /** The delays double: those asked for from the `count`-th delivery to the
      last of `a` tries sum to the difference of two powers. */
  lemma {:induction false} DelaysOfFailure(attempts: Option<int>, backoff: Option<int>, handlerOk: nat -> bool, a: int,
                                           b: int, count: nat)
    requires a == HeaderOr(attempts, DEFAULT_ATTEMPTS) && b == HeaderOr(backoff, DEFAULT_BACKOFF_MS)
    requires 1 <= count <= a <= MAX_DELIVER
    requires forall n :: count <= n <= a ==> !handlerOk(n)
    ensures Sum(FateFrom(attempts, backoff, handlerOk, count).delays) == b * Pow2(a - 1) - b * Pow2(count - 1)
    decreases a - count
  {
    if count < a {
      DelaysOfFailure(attempts, backoff, handlerOk, a, b, count + 1);
      var rest := FateFrom(attempts, backoff, handlerOk, count + 1);
      var d := b * Pow2(count - 1);
      assert FateFrom(attempts, backoff, handlerOk, count).delays == [d] + rest.delays;
      assert ([d] + rest.delays)[1..] == rest.delays;
      Doubled(b, Pow2(count - 1), Pow2(count));
    }
  }

  lemma Doubled(b: int, p: int, q: int)
    requires q == 2 * p
    ensures b * q == b * p + b * p
  {
  }

  /** A message that always fails runs exactly as often as its budget allows,
      and is terminated if and only if the budget is within the stream's own
      ceiling; past it the last nak is never answered. The delays it asked for
      sum to `backoffMs * (2^(attempts - 1) - 1)`. */
  lemma AlwaysFailing(attempts: Option<int>, backoff: Option<int>, handlerOk: nat -> bool)
    requires forall n :: !handlerOk(n)
    ensures var a := if attempts.None? || attempts.value == 0 then DEFAULT_ATTEMPTS else attempts.value;
            var b := if backoff.None? || backoff.value == 0 then DEFAULT_BACKOFF_MS else backoff.value;
            var fate := FateFrom(attempts, backoff, handlerOk, 1);
            && (1 <= a <= MAX_DELIVER ==> fate.runs == a && Sum(fate.delays) == b * (Pow2(a - 1) - 1))
            && (a < 1 ==> fate == Fate(1, Terminated, []))
            && (a > MAX_DELIVER ==> fate.runs == MAX_DELIVER)
            && (fate.end == Terminated <==> a <= MAX_DELIVER)
  {
    var a, b := HeaderOr(attempts, DEFAULT_ATTEMPTS), HeaderOr(backoff, DEFAULT_BACKOFF_MS);
    RunsOfFailure(attempts, backoff, handlerOk, 1);
    if 1 <= a <= MAX_DELIVER {
      DelaysOfFailure(attempts, backoff, handlerOk, a, b, 1);
      OneLess(b, Pow2(a - 1));
    }
  }

  lemma OneLess(b: int, q: int)
    ensures b * q - b * 1 == b * (q - 1)
  {
  }

  /** One that first succeeds within its budget stops there, acked; `a` is its budget. */
  lemma {:induction false} EventualSuccess(attempts: Option<int>, backoff: Option<int>, handlerOk: nat -> bool,
                                           a: int, count: nat, first: nat)
    requires a == if attempts.None? || attempts.value == 0 then DEFAULT_ATTEMPTS else attempts.value
    requires 1 <= count <= first && (first == 1 || first <= a) && first <= MAX_DELIVER
    requires handlerOk(first) && forall n :: count <= n < first ==> !handlerOk(n)
    ensures var fate := FateFrom(attempts, backoff, handlerOk, count);
            fate.end == Acked && fate.runs == first - count + 1
    decreases first - count
  {
    if count < first {
      EventualSuccess(attempts, backoff, handlerOk, a, count + 1, first);
    }
  }

  /** What `enqueue` writes for `job.attempts ?? options.attempts ?? 3`. */
  function AttemptsHeader(job: Option<int>, options: Option<int>): Option<int> {
    Some(if job.Some? then job.value else if options.Some? then options.value else DEFAULT_ATTEMPTS)
  }

  /** What is enqueued with a budget is tried as often as that, or as the queue's
      own option says, or three times. */
  lemma EnqueuedBudget(job: Option<int>, options: Option<int>, backoff: Option<int>, handlerOk: nat -> bool)
    requires forall n :: !handlerOk(n)
    ensures var runs := FateFrom(AttemptsHeader(job, options), backoff, handlerOk, 1).runs;
            && (job.Some? && 1 <= job.value <= MAX_DELIVER ==> runs == job.value)
            && (job.None? && options.Some? && 1 <= options.value <= MAX_DELIVER ==> runs == options.value)
            && (job.None? && options.None? ==> runs == 3)
  {
    AlwaysFailing(AttemptsHeader(job, options), backoff, handlerOk);
  }

  /** A job enqueued with `attempts: 0` is tried three times, like one that says nothing. */
  lemma ZeroAttemptsMeansDefault(options: Option<int>, backoff: Option<int>, handlerOk: nat -> bool)
    requires forall n :: !handlerOk(n)
    ensures FateFrom(AttemptsHeader(Some(0), options), backoff, handlerOk, 1) ==
            FateFrom(AttemptsHeader(None, None), backoff, handlerOk, 1)
    ensures FateFrom(AttemptsHeader(Some(0), options), backoff, handlerOk, 1).runs == DEFAULT_ATTEMPTS
  {
    AlwaysFailing(AttemptsHeader(Some(0), options), backoff, handlerOk);
    SameHeaderSameFate(AttemptsHeader(Some(0), options), AttemptsHeader(None, None), backoff, handlerOk, 1);
  }

  lemma {:induction false} SameHeaderSameFate(a: Option<int>, b: Option<int>, backoff: Option<int>,
                                              handlerOk: nat -> bool, count: nat)
    requires count >= 1 && HeaderOr(a, DEFAULT_ATTEMPTS) == HeaderOr(b, DEFAULT_ATTEMPTS)
    ensures FateFrom(a, backoff, handlerOk, count) == FateFrom(b, backoff, handlerOk, count)
    decreases MAX_DELIVER + 1 - count
  {
    if count <= MAX_DELIVER {
      SameHeaderSameFate(a, b, backoff, handlerOk, count + 1);
    }
  }

  /*
   * The pull loop.
   */

  class PullLoop {
    const concurrency: int
    var inflight: set<nat>
    var stopped: bool

    constructor (concurrency: int)
      ensures this.concurrency == concurrency && inflight == {} && !stopped
    {
      this.concurrency := concurrency;
      inflight, stopped := {}, false;
    }

    /** The loop body up to its await: whether delivery `m` is processed, and
        whether the next message must wait for a slot. */
    method OnMessage(m: nat) returns (processed: bool, mustWait: bool)
      modifies this
      ensures processed == !old(stopped) && stopped == old(stopped)
      ensures inflight == if processed then old(inflight) + {m} else old(inflight)
      ensures mustWait == (processed && MustWait(inflight, concurrency))
    {
      if stopped { return false, false; }
      inflight := inflight + {m};
      processed := true;
      mustWait := |inflight| >= concurrency;
    }

    /** The `finally` of delivery `m`. */
    method OnFinished(m: nat)
      modifies this
      ensures inflight == old(inflight) - {m} && stopped == old(stopped)
    {
      inflight := inflight - {m};
    }

    method Stop()
      modifies this
      ensures stopped && inflight == old(inflight)
    {
      stopped := true;
    }
  }

  predicate MustWait(inflight: set<nat>, concurrency: int) {
    |inflight| >= concurrency
  }

  /** Between messages, waiting for one of some promises to settle, or over. */
  datatype Loop = Pulling | Racing(promises: set<nat>) | Ended

  /** Deliveries are numbered; `settled` logs every settlement in order. */
  datatype State = State(loop: Loop, stopped: bool, deliveries: map<nat, Delivery>, running: set<nat>,
                         inflight: set<nat>, settled: seq<(nat, Settlement)>)

  datatype Step =
    | Pull(m: nat, delivery: Delivery)
    | Settle(m: nat, handlerOk: bool)   // processOne finishes
    | Remove(m: nat)                    // its `finally` runs and its promise settles
    | Resume                            // the race is over
    | Stop

  predicate Enabled(s: State, step: Step) {
    match step
    case Pull(m, d) => s.loop == Pulling && m !in s.deliveries && d.count >= 1
    case Settle(m, _) => m in s.running && m in s.deliveries && s.deliveries[m].count >= 1
    case Remove(m) => m in s.inflight && m !in s.running
    case Resume => s.loop.Racing? && exists m :: m in s.loop.promises && m !in s.inflight
    case Stop => true
  }

  function Apply(s: State, concurrency: int, step: Step): State
    requires Enabled(s, step)
  {
    match step
    case Pull(m, d) =>
      if s.stopped then s.(loop := Ended)
      else
        var inflight := s.inflight + {m};
        s.(deliveries := s.deliveries[m := d], running := s.running + {m}, inflight := inflight,
           loop := if MustWait(inflight, concurrency) then Racing(inflight) else Pulling)
    case Settle(m, ok) =>
      s.(running := s.running - {m}, settled := s.settled + [(m, SettlementOf(s.deliveries[m], ok))])
    case Remove(m) => s.(inflight := s.inflight - {m})
    case Resume => s.(loop := Pulling)
    case Stop => s.(stopped := true)
  }

  ghost predicate Init(s: State) {
    s == State(Pulling, false, map[], {}, {}, [])
  }

  /** The number of handlers the loop lets run: `concurrency`, but at least one. */
  function Limit(concurrency: int): nat {
    if concurrency < 1 then 1 else concurrency
  }

  ghost predicate Bounded(s: State, concurrency: int) {
    && s.running <= s.inflight && |s.inflight| <= Limit(concurrency)
    && (s.loop == Pulling ==> |s.inflight| < Limit(concurrency))
    && (s.loop.Racing? ==> s.inflight <= s.loop.promises && |s.loop.promises| == Limit(concurrency))
  }

  /** The places in the log where delivery `m` was settled. */
  function Settlements(log: seq<(nat, Settlement)>, m: nat): (r: seq<Settlement>) {
    if log == [] then []
    else
      var front, last := Settlements(log[..|log| - 1], m), log[|log| - 1];
      if last.0 == m then front + [last.1] else front
  }

  /** Delivery `m` is settled once when it is no longer running, and never before. */
  ghost predicate SettledOnce(s: State, m: nat) {
    && (m !in s.deliveries ==> Settlements(s.settled, m) == [] && m !in s.running)
    && (m in s.deliveries && m in s.running ==> Settlements(s.settled, m) == [])
    && (m in s.deliveries && m !in s.running ==>
          s.deliveries[m].count >= 1 &&
          exists ok :: Settlements(s.settled, m) == [SettlementOf(s.deliveries[m], ok)])
  }

  lemma StepKeepsBounded(s: State, concurrency: int, step: Step)
    requires Bounded(s, concurrency) && Enabled(s, step)
    ensures Bounded(Apply(s, concurrency, step), concurrency)
  {
    match step
    case Resume =>
      var m :| m in s.loop.promises && m !in s.inflight;
      SubsetCard(s.inflight, s.loop.promises);
    case Remove(m) => SubsetCard(s.inflight - {m}, s.inflight);
    case _ =>
  }

  lemma StepKeepsSettled(s: State, concurrency: int, step: Step, m: nat)
    requires SettledOnce(s, m) && Enabled(s, step)
    ensures SettledOnce(Apply(s, concurrency, step), m)
  {
    var t := Apply(s, concurrency, step);
    if step.Settle? {
      assert t.settled[..|s.settled|] == s.settled;
      assert step.m == m ==> Settlements(t.settled, m) == [SettlementOf(s.deliveries[m], step.handlerOk)];
    }
  }

  ghost predicate Run(states: seq<State>, concurrency: int, steps: seq<Step>) {
    && |states| == |steps| + 1 && Init(states[0])
    && forall i :: 0 <= i < |steps| ==>
        Enabled(states[i], steps[i]) && states[i + 1] == Apply(states[i], concurrency, steps[i])
  }

  /** In every run there are never more handlers in flight than `concurrency`
      (or than one, if it is less than one). */
  lemma {:induction false} NeverMoreThanLimit(states: seq<State>, concurrency: int, steps: seq<Step>, i: nat)
    requires Run(states, concurrency, steps) && i < |states|
    ensures Bounded(states[i], concurrency)
    ensures |states[i].running| <= if concurrency < 1 then 1 else concurrency
  {
    if i > 0 {
      NeverMoreThanLimit(states, concurrency, steps, i - 1);
      assert states[i - 1 + 1] == Apply(states[i - 1], concurrency, steps[i - 1]);
      StepKeepsBounded(states[i - 1], concurrency, steps[i - 1]);
    }
    SubsetCard(states[i].running, states[i].inflight);
  }

  /** ... and every delivery taken up is settled exactly once, when its handler is done. */
  lemma {:induction false} EachSettledOnce(states: seq<State>, concurrency: int, steps: seq<Step>, i: nat, m: nat)
    requires Run(states, concurrency, steps) && i < |states|
    ensures SettledOnce(states[i], m)
  {
    if i > 0 {
      EachSettledOnce(states, concurrency, steps, i - 1, m);
      assert states[i - 1 + 1] == Apply(states[i - 1], concurrency, steps[i - 1]);
      StepKeepsSettled(states[i - 1], concurrency, steps[i - 1], m);
    }
  }

  /** The limit is reached: with `concurrency` below one, one handler still runs. */
  lemma ZeroConcurrencyRunsOne(s: State, concurrency: int, m: nat, d: Delivery)
    requires Init(s) && concurrency < 1 && d.count >= 1
    ensures Enabled(s, Pull(m, d)) && Apply(s, concurrency, Pull(m, d)).running == {m}
    ensures |Apply(s, concurrency, Pull(m, d)).running| > concurrency
  {
    assert Apply(s, concurrency, Pull(m, d)).running == {m};
  }

  /** How a delivery is settled: an undecodable one terminated; else acked if and
      only if its handler succeeded, and after a failure terminated at the last
      try of its budget, or negatively acked with a delay that doubles. */
  lemma SettlementMeans(d: Delivery, handlerOk: bool)
    requires d.count >= 1
    ensures var budget := if d.attemptsHeader.None? || d.attemptsHeader.value == 0 then 3 else d.attemptsHeader.value;
            var base := if d.backoffHeader.None? || d.backoffHeader.value == 0 then 1000 else d.backoffHeader.value;
            SettlementOf(d, handlerOk) ==
              if !d.decodable then Term
              else if handlerOk then Ack
              else if d.count < budget then Nak(base * Pow2(d.count - 1))
              else Term
  {
  }

  lemma SettlementsAfter(s: State, concurrency: int, step: Step, m: nat)
    requires Enabled(s, step)
    ensures Settlements(Apply(s, concurrency, step).settled, m) ==
            Settlements(s.settled, m) +
              (if step.Settle? && step.m == m then [SettlementOf(s.deliveries[m], step.handlerOk)] else [])
  {
    if step.Settle? { assert Apply(s, concurrency, step).settled[..|s.settled|] == s.settled; }
  }

  /** In every run a delivery that is no longer running was settled once, as the
      end of its own handler called for. */
  lemma {:induction false} SettledAsHandled(states: seq<State>, concurrency: int, steps: seq<Step>, i: nat, m: nat)
    returns (j: nat)
    requires Run(states, concurrency, steps) && i < |states|
    requires m in states[i].deliveries && m !in states[i].running
    ensures j < i && steps[j].Settle? && steps[j].m == m && states[i].deliveries[m].count >= 1
    ensures Settlements(states[i].settled, m) == [SettlementOf(states[i].deliveries[m], steps[j].handlerOk)]
  {
    if i == 0 { assert false; }
    assert states[i - 1 + 1] == Apply(states[i - 1], concurrency, steps[i - 1]);
    SettlementsAfter(states[i - 1], concurrency, steps[i - 1], m);
    if steps[i - 1].Settle? && steps[i - 1].m == m {
      EachSettledOnce(states, concurrency, steps, i - 1, m);
      j := i - 1;
    } else {
      j := SettledAsHandled(states, concurrency, steps, i - 1, m);
    }
  }

  /** After a stop nothing more is taken up, and the first pull ends the loop. */
  lemma {:induction false} StopTakesNothing(states: seq<State>, concurrency: int, steps: seq<Step>, j: nat, i: nat)
    requires Run(states, concurrency, steps) && j < i < |states| && steps[j] == Stop
    ensures states[i].stopped && states[i].deliveries == states[j].deliveries
    ensures states[i].running <= states[j].running
    ensures (exists k :: j < k < i && steps[k].Pull?) ==> states[i].loop == Ended
    decreases i - j
  {
    assert states[i - 1 + 1] == Apply(states[i - 1], concurrency, steps[i - 1]);
    if j + 1 < i {
      StopTakesNothing(states, concurrency, steps, j, i - 1);
    }
  }

  lemma {:induction false} OnlyStopEnds(states: seq<State>, concurrency: int, steps: seq<Step>, i: nat)
    requires Run(states, concurrency, steps) && i < |states|
    ensures states[i].loop == Ended ==> states[i].stopped
    ensures Stop !in steps[..i] ==> !states[i].stopped
  {
    if i > 0 {
      OnlyStopEnds(states, concurrency, steps, i - 1);
      assert states[i - 1 + 1] == Apply(states[i - 1], concurrency, steps[i - 1]);
      assert steps[..i] == steps[..i - 1] + [steps[i - 1]];
    }
  }

  lemma BackToPulling(states0: seq<State>, concurrency: int, steps0: seq<Step>)
    returns (states: seq<State>, steps: seq<Step>)
    requires Run(states0, concurrency, steps0) && states0[|steps0|].loop != Ended
    requires |states0[|steps0|].running| < if concurrency < 1 then 1 else concurrency
    ensures Run(states, concurrency, steps) && steps0 <= steps && |steps| <= |steps0| + 2
    ensures var s, t := states0[|steps0|], states[|steps|];
            t == s.(loop := Pulling, inflight := t.inflight)
  {
    var s := states0[|steps0|];
    NeverMoreThanLimit(states0, concurrency, steps0, |steps0|);
    states, steps := states0, steps0;
    if s.loop.Racing? {
      var m := FreePromise(s);
      if m in s.inflight { states, steps := Extend(states, concurrency, steps, Remove(m)); }
      assert m in s.loop.promises && m !in states[|steps|].inflight;
      states, steps := Extend(states, concurrency, steps, Resume);
    }
  }

  /** The loop never wedges: in every run that has not been stopped, whenever
      fewer handlers run than the limit allows, clean-ups and the race can go on
      so that the next message is taken up. */
  lemma FreeSlotIsUsed(states0: seq<State>, concurrency: int, steps0: seq<Step>, n: nat, d: Delivery)
    returns (states: seq<State>, steps: seq<Step>)
    requires Run(states0, concurrency, steps0) && Stop !in steps0 && d.count >= 1
    requires |states0[|steps0|].running| < if concurrency < 1 then 1 else concurrency
    requires n !in states0[|steps0|].deliveries
    ensures Run(states, concurrency, steps) && steps0 < steps && |steps| <= |steps0| + 3
    ensures steps[|steps| - 1] == Pull(n, d)
    ensures states[|steps|].running == states0[|steps0|].running + {n}
    ensures n in states[|steps|].deliveries && states[|steps|].deliveries[n] == d
  {
    assert steps0[..|steps0|] == steps0;
    OnlyStopEnds(states0, concurrency, steps0, |steps0|);
    states, steps := BackToPulling(states0, concurrency, steps0);
    states, steps := Extend(states, concurrency, steps, Pull(n, d));
  }

  /** Some promise of a race belongs to a handler that is done. */
  lemma FreePromise(s: State) returns (m: nat)
    requires s.loop.Racing? && |s.running| < |s.loop.promises|
    ensures m in s.loop.promises && m !in s.running
  {
    if s.loop.promises <= s.running { SubsetCard(s.loop.promises, s.running); }
    m :| m in s.loop.promises && m !in s.running;
  }

  lemma Extend(states0: seq<State>, concurrency: int, steps0: seq<Step>, step: Step)
    returns (states: seq<State>, steps: seq<Step>)
    requires Run(states0, concurrency, steps0) && Enabled(states0[|steps0|], step)
    ensures Run(states, concurrency, steps) && steps == steps0 + [step]
    ensures states == states0 + [Apply(states0[|steps0|], concurrency, step)]
  {
    states, steps := states0 + [Apply(states0[|steps0|], concurrency, step)], steps0 + [step];
  }
}
