/**
  The memoized async value that forgets a failure: used for the NATS
  connection, its JetStream client and its stream.
 */
module RetryableLazy {
  import opened Wrappers

  class RetryableLazy {
    /** The cached promise, named by the factory call that made it. */
    var promise: Option<nat>

    constructor ()
      ensures promise == None
    {
      promise := None;
    }

    /** `get()`; `attempt` names the factory call it would make. */
    method Get(attempt: nat) returns (p: nat)
      modifies this
      ensures p == Awaited(old(promise), attempt)
      ensures promise == Some(p)
    {
      if promise.Some? { return promise.value; }
      p := attempt;
      promise := Some(p);
    }

    /** The `catch` handler of attempt `p`. */
    method OnRejected(p: nat)
      modifies this
      ensures promise == Dropped(old(promise), p)
      ensures old(promise) != Some(p) ==> promise == old(promise)
    {
      if promise == Some(p) { promise := None; }
    }

    method Peek() returns (p: Option<nat>)
      ensures p == promise
    {
      p := promise;
    }
  }

  /** The attempt a `get` waits for. */
  function Awaited(promise: Option<nat>, attempt: nat): nat {
    if promise.Some? then promise.value else attempt
  }

  function Dropped(promise: Option<nat>, p: nat): Option<nat> {
    if promise == Some(p) then None else promise
  }

  datatype Outcome = Pending | Resolved(value: nat) | Rejected

  /** `handled` once the rejection handler ran. */
  datatype Attempt = Attempt(outcome: Outcome, handled: bool)

  /** `got` lists the values callers received. */
  datatype State = State(promise: Option<nat>, attempts: map<nat, Attempt>, waiting: map<nat, nat>, got: seq<nat>)

  datatype Step =
    | Get(caller: nat, attempt: nat)
    | Settle(attempt: nat, outcome: Outcome)
    | Handle(attempt: nat)
    | Continue(caller: nat)

  predicate Enabled(s: State, step: Step) {
    match step
    case Get(c, a) => c !in s.waiting && a !in s.attempts
    case Settle(a, o) => a in s.attempts && s.attempts[a].outcome == Pending && o != Pending
    case Handle(a) => a in s.attempts && s.attempts[a].outcome == Rejected && !s.attempts[a].handled
    case Continue(c) => c in s.waiting && s.waiting[c] in s.attempts && s.attempts[s.waiting[c]].outcome != Pending
  }

  function Apply(s: State, step: Step): State
    requires Enabled(s, step)
  {
    match step
    case Get(c, a) =>
      var p := Awaited(s.promise, a);
      s.(promise := Some(p),
         attempts := if s.promise.None? then s.attempts[a := Attempt(Pending, false)] else s.attempts,
         waiting := s.waiting[c := p])
    case Settle(a, o) => s.(attempts := s.attempts[a := s.attempts[a].(outcome := o)])
    case Handle(a) =>
      s.(promise := Dropped(s.promise, a), attempts := s.attempts[a := s.attempts[a].(handled := true)])
    case Continue(c) =>
      var o := s.attempts[s.waiting[c]].outcome;
      s.(waiting := s.waiting - {c}, got := if o.Resolved? then s.got + [o.value] else s.got)
  }

  /** An attempt that has not failed, or whose failure is not handled yet, is
      the cached one; so is the value every caller got. */
  ghost predicate Inv(s: State) {
    && (s.promise.Some? ==> s.promise.value in s.attempts && !s.attempts[s.promise.value].handled)
    && (forall a :: a in s.attempts && !s.attempts[a].handled ==> s.promise == Some(a))
    && (forall a :: a in s.attempts && s.attempts[a].handled ==> s.attempts[a].outcome == Rejected)
    && (forall c :: c in s.waiting ==> s.waiting[c] in s.attempts)
    && (forall i: nat {:trigger GotOk(s, i)} :: GotOk(s, i))
  }

  ghost predicate GotOk(s: State, i: nat) {
    i < |s.got| ==>
      s.promise.Some? && s.promise.value in s.attempts && s.attempts[s.promise.value].outcome == Resolved(s.got[i])
  }

  ghost predicate Run(states: seq<State>, steps: seq<Step>) {
    && |states| == |steps| + 1 && states[0] == State(None, map[], map[], [])
    && forall i :: 0 <= i < |steps| ==> Enabled(states[i], steps[i]) && states[i + 1] == Apply(states[i], steps[i])
  }

  lemma StepKeepsInv(s: State, step: Step)
    requires Inv(s) && Enabled(s, step)
    ensures Inv(Apply(s, step))
  {
    var t := Apply(s, step);
    forall i: nat ensures GotOk(t, i) {
      assert GotOk(s, i);
    }
  }

  lemma {:induction false} RunKeepsInv(states: seq<State>, steps: seq<Step>, i: nat)
    requires Run(states, steps) && i < |states|
    ensures Inv(states[i])
  {
    if i > 0 {
      RunKeepsInv(states, steps, i - 1);
      assert states[i - 1 + 1] == Apply(states[i - 1], steps[i - 1]);
      StepKeepsInv(states[i - 1], steps[i - 1]);
    }
  }

  /** At most one factory call is in flight or has succeeded, every caller that
      got a value got that call's, and after a handled failure the next `get`
      calls the factory again. */
  lemma OneAttemptAtATime(states: seq<State>, steps: seq<Step>, i: nat)
    requires Run(states, steps) && i < |states|
    ensures var s := states[i];
            && (forall a, b :: a in s.attempts && b in s.attempts ==>
                  s.attempts[a].outcome == Rejected || s.attempts[b].outcome == Rejected || a == b)
            && (forall j, k :: 0 <= j < |s.got| && 0 <= k < |s.got| ==> s.got[j] == s.got[k])
            && (forall c, a :: Enabled(s, Get(c, a)) && (forall b :: b in s.attempts ==> s.attempts[b].handled) ==>
                  a in Apply(s, Get(c, a)).attempts)
  {
    RunKeepsInv(states, steps, i);
    forall j: nat, k: nat | j < |states[i].got| && k < |states[i].got|
      ensures states[i].got[j] == states[i].got[k]
    {
      assert GotOk(states[i], j) && GotOk(states[i], k);
    }
  }

  lemma {:induction false} KeepsWaiting(states: seq<State>, steps: seq<Step>, j: nat, i: nat, c: nat)
    requires Run(states, steps) && j <= i < |states| && c in states[j].waiting && Continue(c) !in steps[j..i]
    ensures c in states[i].waiting && states[i].waiting[c] == states[j].waiting[c]
    decreases i - j
  {
    if j < i {
      assert steps[j..i] == steps[j..i - 1] + [steps[i - 1]];
      KeepsWaiting(states, steps, j, i - 1, c);
      assert states[i - 1 + 1] == Apply(states[i - 1], steps[i - 1]);
    }
  }

  /** What an attempt settled to it stays. */
  lemma {:induction false} SettledForGood(states: seq<State>, steps: seq<Step>, k: nat, i: nat, a: nat, o: Outcome)
    requires Run(states, steps) && k < i < |states| && steps[k] == Settle(a, o)
    ensures a in states[i].attempts && states[i].attempts[a].outcome == o
    decreases i - k
  {
    assert Enabled(states[k], Settle(a, o)) && states[i - 1 + 1] == Apply(states[i - 1], steps[i - 1]);
    if k + 1 < i {
      SettledForGood(states, steps, k, i - 1, a, o);
      RunKeepsInv(states, steps, i - 1);
    }
  }

  /** A caller waits for the attempt that was kept when it asked, or for the one
      it made, and is given, once, what that attempt resolved to, or nothing if
      it was rejected. */
  lemma CallerIsAnswered(states: seq<State>, steps: seq<Step>, j: nat, i: nat, c: nat, a: nat)
    requires Run(states, steps) && j < i < |steps|
    requires steps[j] == Get(c, a) && steps[i] == Continue(c) && Continue(c) !in steps[j + 1..i]
    ensures var p := if states[j].promise.Some? then states[j].promise.value else a;
            && p in states[i].attempts && c !in states[i + 1].waiting
            && states[i + 1].got ==
               match states[i].attempts[p].outcome
               case Resolved(value) => states[i].got + [value]
               case _ => states[i].got
  {
    assert states[j + 1] == Apply(states[j], steps[j]);
    KeepsWaiting(states, steps, j + 1, i, c);
    assert states[i + 1] == Apply(states[i], steps[i]);
  }
}
