/**
  The cron scheduler's tick and prime over the schedule table.

  Times are milliseconds. The cron library, the grant check, the queue and the
  table's writes are outside; each tick is told how they answer. What `listDue`
  returns is a parameter too: some enumeration of the rows that are due.
 */
module Scheduler {
  import opened Schedules
  import opened Sorting
  import opened Wrappers

  /** A job put on the queue: for which schedule, by the tick at which time, and
      whether the row was marked afterwards. */
  datatype Fire = Fire(id: Id, at: int, jobType: string, marked: bool)

  datatype Verdict = Allowed | Denied | Broken

  /** How the outside answers a tick. */
  datatype World = World(
    isLeader: bool,
    hasAuthorizer: bool,
    verdict: Id -> Verdict,
    enqueueFails: Id -> bool,
    markFails: Id -> bool)

  datatype State = State(rows: map<Id, Row>, fired: seq<Fire>)

  datatype Error = AuthorizationFailed | EnqueueFailed | MarkFailed

  function MarkRun(s: State, id: Id, lastRunAt: Option<int>, nextRunAt: int): State
    requires id in s.rows
  {
    s.(rows := s.rows[id := s.rows[id].(lastRunAt := lastRunAt, nextRunAt := Some(nextRunAt))])
  }

  /** The grant re-check applies to pipeline schedules with a known creator. */
  predicate Rechecked(w: World, row: Row) {
    row.jobType == RUN_PIPELINE && w.hasAuthorizer && row.createdBy.Some?
  }

  /** What the tick at `at` does with one due row: the new state, and whether a
      job counts as enqueued or the tick throws. */
  function ProcessRow(s: State, next: NextAfter, w: World, at: int, id: Id): (r: (State, Result<nat, Error>))
    requires id in s.rows
  {
    var row := s.rows[id];
    var nextRunAt := next(row.cron, row.timezone, at);
    if nextRunAt.None? then (s, Success(0))
    else if Rechecked(w, row) && w.verdict(id) == Denied then
      if w.markFails(id) then (s, Failure(MarkFailed))
      else (MarkRun(s, id, row.lastRunAt, nextRunAt.value), Success(0))
    else if Rechecked(w, row) && w.verdict(id) == Broken then (s, Failure(AuthorizationFailed))
    else if w.enqueueFails(id) then (s, Failure(EnqueueFailed))
    else
      var queued := s.(fired := s.fired + [Fire(id, at, row.jobType, !w.markFails(id))]);
      if w.markFails(id) then (queued, Failure(MarkFailed))
      else (MarkRun(queued, id, Some(at), nextRunAt.value), Success(1))
  }

  /** The rows in turn, until one throws. */
  function ProcessAll(s: State, next: NextAfter, w: World, at: int, due: seq<Id>): (r: (State, Result<nat, Error>))
    requires forall id :: id in due ==> id in s.rows
    ensures r.0.rows.Keys == s.rows.Keys
    decreases |due|
  {
    if due == [] then (s, Success(0))
    else
      var (t, one) := ProcessRow(s, next, w, at, due[0]);
      if one.Failure? then (t, one)
      else
        AddTo(one.value, ProcessAll(t, next, w, at, due[1..]))
  }

  /** Counts `n` earlier jobs into an outcome. */
  function AddTo(n: nat, outcome: (State, Result<nat, Error>)): (State, Result<nat, Error>) {
    (outcome.0, if outcome.1.Success? then Success(n + outcome.1.value) else outcome.1)
  }

  lemma SuffixListed(rows: map<Id, Row>, due: seq<Id>, i: nat)
    requires i <= |due| && forall id :: id in due ==> id in rows
    ensures forall id :: id in due[i..] ==> id in rows
  {
  }

  /** One row further, with `earlier` jobs counted already. */
  lemma ProcessOneMore(s: State, next: NextAfter, w: World, at: int, due: seq<Id>, i: nat, earlier: nat, t: State,
                       one: Result<nat, Error>)
    requires i < |due| && (forall id :: id in due[i..] ==> id in s.rows) && due[i] in s.rows
    requires (forall id :: id in due[i + 1..] ==> id in t.rows) && (t, one) == ProcessRow(s, next, w, at, due[i])
    ensures AddTo(earlier, ProcessAll(s, next, w, at, due[i..])) ==
            if one.Failure? then (t, one) else AddTo(earlier + one.value, ProcessAll(t, next, w, at, due[i + 1..]))
  {
    assert due[i..][0] == due[i] && due[i..][1..] == due[i + 1..];
  }

  function Tick(s: State, next: NextAfter, w: World, at: int, due: seq<Id>): (r: (State, Result<nat, Error>))
    requires forall id :: id in due ==> id in s.rows
  {
    if !w.isLeader then (s, Success(0)) else ProcessAll(s, next, w, at, due)
  }

  /** `prime`: rows with no next run get one; `now` may advance between rows. */
  function PrimeRow(s: State, next: NextAfter, now: int, id: Id): (r: State)
    requires id in s.rows
  {
    var row := s.rows[id];
    var nextRunAt := next(row.cron, row.timezone, now);
    if row.nextRunAt.Some? || nextRunAt.None? then s
    else MarkRun(s, id, row.lastRunAt, nextRunAt.value)
  }

  /** `prime` over the enabled rows; `now(id)` is the clock when row `id` is met. */
  function PrimeAll(s: State, next: NextAfter, now: Id -> int, enabled: seq<Id>): (r: (State, nat))
    requires forall id :: id in enabled ==> id in s.rows
    decreases |enabled|
  {
    if enabled == [] then (s, 0)
    else
      var t := PrimeRow(s, next, now(enabled[0]), enabled[0]);
      var (u, primed) := PrimeAll(t, next, now, enabled[1..]);
      (u, (if t == s then 0 else 1) + primed)
  }

  class CronScheduler {
    var rows: map<Id, Row>
    var fired: seq<Fire>

    function View(): State
      reads this
    {
      State(rows, fired)
    }

    constructor (rows: map<Id, Row>)
      ensures View() == State(rows, [])
    {
      this.rows, fired := rows, [];
    }

    method Mark(id: Id, lastRunAt: Option<int>, nextRunAt: int)
      requires id in rows
      modifies this
      ensures View() == MarkRun(old(View()), id, lastRunAt, nextRunAt)
    {
      rows := rows[id := rows[id].(lastRunAt := lastRunAt, nextRunAt := Some(nextRunAt))];
    }

    /** One due row: the body of the tick's loop. */
    method RunRow(next: NextAfter, w: World, at: int, id: Id) returns (r: Result<nat, Error>)
      requires id in rows
      modifies this
      ensures (View(), r) == ProcessRow(old(View()), next, w, at, id)
    {
      var row := rows[id];
      var nextRunAt := next(row.cron, row.timezone, at);
      if nextRunAt.None? { return Success(0); }
      if row.jobType == RUN_PIPELINE && w.hasAuthorizer && row.createdBy.Some? {
        match w.verdict(id)
        case Allowed =>
        case Denied =>
          if w.markFails(id) { return Failure(MarkFailed); }
          Mark(id, row.lastRunAt, nextRunAt.value);
          return Success(0);
        case Broken => return Failure(AuthorizationFailed);
      }
      if w.enqueueFails(id) { return Failure(EnqueueFailed); }
      fired := fired + [Fire(id, at, row.jobType, !w.markFails(id))];
      if w.markFails(id) { return Failure(MarkFailed); }
      Mark(id, Some(at), nextRunAt.value);
      r := Success(1);
    }

    method RunTick(next: NextAfter, w: World, at: int, due: seq<Id>) returns (r: Result<nat, Error>)
      requires forall id :: id in due ==> id in rows
      modifies this
      ensures (View(), r) == Tick(old(View()), next, w, at, due)
    {
      if !w.isLeader { return Success(0); }
      var enqueued: nat := 0;
      ghost var all := ProcessAll(View(), next, w, at, due);
      for i := 0 to |due|
        invariant rows.Keys == old(rows.Keys)
        invariant all == AddTo(enqueued, ProcessAll(View(), next, w, at, due[i..]))
      {
        ghost var before := View();
        SuffixListed(rows, due, i);
        SuffixListed(rows, due, i + 1);
        var one := RunRow(next, w, at, due[i]);
        ProcessOneMore(before, next, w, at, due, i, enqueued, View(), one);
        if one.Failure? { return one; }
        enqueued := enqueued + one.value;
      }
      r := Success(enqueued);
    }

    method RunPrime(next: NextAfter, now: Id -> int, enabled: seq<Id>) returns (primed: nat)
      requires forall id :: id in enabled ==> id in rows
      modifies this
      ensures (View(), primed) == PrimeAll(old(View()), next, now, enabled)
    {
      primed := 0;
      for i := 0 to |enabled|
        invariant rows.Keys == old(rows.Keys)
        invariant var rest := PrimeAll(View(), next, now, enabled[i..]);
                  PrimeAll(old(View()), next, now, enabled) == (rest.0, primed + rest.1)
      {
        var id := enabled[i];
        var row := rows[id];
        assert enabled[i..][0] == id && enabled[i..][1..] == enabled[i + 1..];
        if row.nextRunAt.Some? { continue; }
        var nextRunAt := next(row.cron, row.timezone, now(id));
        if nextRunAt.None? { continue; }
        Mark(id, row.lastRunAt, nextRunAt.value);
        primed := primed + 1;
      }
    }
  }

  /*
   * One tick.
   */

  /** A tick leaves other rows alone, only adds to the queue, and reports how
      many jobs it added. */
  lemma {:induction false} TickFrame(s: State, next: NextAfter, w: World, at: int, due: seq<Id>)
    requires forall id :: id in due ==> id in s.rows
    ensures var (t, r) := ProcessAll(s, next, w, at, due);
            && t.rows.Keys == s.rows.Keys && s.fired <= t.fired
            && (forall id :: id in s.rows && id !in due ==> t.rows[id] == s.rows[id])
            && (forall k :: |s.fired| <= k < |t.fired| ==> t.fired[k].id in due && t.fired[k].at == at)
            && (r.Success? ==> r.value == |t.fired| - |s.fired|)
    decreases |due|
  {
    if due != [] {
      var (t, one) := ProcessRow(s, next, w, at, due[0]);
      if one.Success? {
        TickFrame(t, next, w, at, due[1..]);
      }
    }
  }

  /** A pipeline schedule with a known creator is re-checked, if there is an
      authorizer, and this is the answer. */
  ghost predicate Answered(w: World, row: Row, id: Id, verdict: Verdict) {
    w.hasAuthorizer && row.jobType == RUN_PIPELINE && row.createdBy.Some? && w.verdict(id) == verdict
  }

  /** A row with a next instant stops the tick: its re-check throws, or the
      enqueue it gets to, or the write that marks it. */
  ghost predicate Throws(rows: map<Id, Row>, next: NextAfter, w: World, at: int, id: Id) {
    id in rows && var row := rows[id];
    && next(row.cron, row.timezone, at).Some?
    && (Answered(w, row, id, Broken) || (w.enqueueFails(id) && !Answered(w, row, id, Denied)) || w.markFails(id))
  }

  /** The job a tick that gets to a row puts on the queue for it, if any. */
  ghost predicate IsJob(rows: map<Id, Row>, next: NextAfter, w: World, at: int, f: Fire) {
    f.id in rows && var row := rows[f.id];
    && next(row.cron, row.timezone, at).Some?
    && !Answered(w, row, f.id, Denied) && !Answered(w, row, f.id, Broken) && !w.enqueueFails(f.id)
    && f == Fire(f.id, at, row.jobType, !w.markFails(f.id))
  }

  /** The tick gets to the row: none before it throws. */
  ghost predicate Reached(rows: map<Id, Row>, next: NextAfter, w: World, at: int, due: seq<Id>, id: Id) {
    exists j :: 0 <= j < |due| && due[j] == id && forall i :: 0 <= i < j ==> !Throws(rows, next, w, at, due[i])
  }

  ghost predicate FirstToThrow(rows: map<Id, Row>, next: NextAfter, w: World, at: int, due: seq<Id>, id: Id) {
    id in due && Throws(rows, next, w, at, id) && Reached(rows, next, w, at, due, id)
  }

  lemma ReachedInRest(rows: map<Id, Row>, next: NextAfter, w: World, at: int, due: seq<Id>, id: Id)
    requires due != [] && due[0] != id
    ensures Reached(rows, next, w, at, due, id) <==>
        !Throws(rows, next, w, at, due[0]) && Reached(rows, next, w, at, due[1..], id)
  {
    var rest := due[1..];
    if Reached(rows, next, w, at, due, id) {
      var j :| 0 <= j < |due| && due[j] == id && forall i :: 0 <= i < j ==> !Throws(rows, next, w, at, due[i]);
      assert rest[j - 1] == id;
    }
    if !Throws(rows, next, w, at, due[0]) && Reached(rows, next, w, at, rest, id) {
      var j :| 0 <= j < |rest| && rest[j] == id && forall i :: 0 <= i < j ==> !Throws(rows, next, w, at, rest[i]);
      assert due[j + 1] == id;
      forall i | 0 <= i < j + 1 ensures !Throws(rows, next, w, at, due[i]) {
        assert i > 0 ==> due[i] == rest[i - 1];
      }
    }
  }

  /** Throwing and firing depend on the ids' own rows only. */
  lemma ReachedSame(rows: map<Id, Row>, other: map<Id, Row>, next: NextAfter, w: World, at: int, due: seq<Id>, id: Id)
    requires forall x :: x in due ==> x in rows && x in other && rows[x] == other[x]
    ensures Reached(rows, next, w, at, due, id) == Reached(other, next, w, at, due, id)
  {
    forall i | 0 <= i < |due| ensures Throws(rows, next, w, at, due[i]) == Throws(other, next, w, at, due[i]) { }
  }

  /** The first row of a tick does not touch the others. */
  lemma FirstRowAlone(s: State, next: NextAfter, w: World, at: int, due: seq<Id>, id: Id)
    requires Distinct(due) && due != [] && forall x :: x in due ==> x in s.rows
    ensures var (t, one) := ProcessRow(s, next, w, at, due[0]);
            && (one.Failure? <==> Throws(s.rows, next, w, at, due[0]))
            && due[0] !in due[1..] && (forall x :: x in due[1..] ==> x in t.rows && t.rows[x] == s.rows[x])
            && Reached(t.rows, next, w, at, due[1..], id) == Reached(s.rows, next, w, at, due[1..], id)
  {
    var t := ProcessRow(s, next, w, at, due[0]).0;
    assert due[0] !in due[1..];
    ReachedSame(t.rows, s.rows, next, w, at, due[1..], id);
  }

  lemma FirstRowQueues(s: State, next: NextAfter, w: World, at: int, id: Id, f: Fire)
    requires id in s.rows
    ensures multiset(ProcessRow(s, next, w, at, id).0.fired)[f] ==
            multiset(s.fired)[f] + if f.id == id && IsJob(s.rows, next, w, at, f) then 1 else 0
  {
  }

  /** For each due row it gets to a tick puts the row's job on the queue once,
      and nothing else; the mark says whether the row's write succeeded. */
  lemma {:induction false} TickQueues(s: State, next: NextAfter, w: World, at: int, due: seq<Id>, f: Fire)
    requires Distinct(due) && forall id :: id in due ==> id in s.rows
    ensures var t := Tick(s, next, w, at, due).0;
            multiset(t.fired)[f] == multiset(s.fired)[f] +
              if w.isLeader && IsJob(s.rows, next, w, at, f) && Reached(s.rows, next, w, at, due, f.id) then 1 else 0
    decreases |due|
  {
    if w.isLeader && due != [] {
      var (t, one) := ProcessRow(s, next, w, at, due[0]);
      FirstRowAlone(s, next, w, at, due, f.id);
      if f.id == due[0] {
        assert Reached(s.rows, next, w, at, due, f.id);
        assert !Reached(t.rows, next, w, at, due[1..], f.id);
      } else {
        ReachedInRest(s.rows, next, w, at, due, f.id);
      }
      FirstRowQueues(s, next, w, at, due[0], f);
      if one.Success? { TickQueues(t, next, w, at, due[1..], f); }
    }
  }

  /** A row once a tick has got to it: as it was if it throws or has no next
      instant, only advanced if its re-check was denied, else marked as run. */
  ghost function RowAfter(next: NextAfter, w: World, at: int, rows: map<Id, Row>, id: Id): Row
    requires id in rows
  {
    var row := rows[id];
    var n := next(row.cron, row.timezone, at);
    if Throws(rows, next, w, at, id) || n.None? then row
    else if Answered(w, row, id, Denied) then row.(nextRunAt := n)
    else row.(lastRunAt := Some(at), nextRunAt := n)
  }

  lemma {:induction false} TickRow(s: State, next: NextAfter, w: World, at: int, due: seq<Id>, id: Id)
    requires Distinct(due) && id in due && forall x :: x in due ==> x in s.rows
    ensures var t := ProcessAll(s, next, w, at, due).0;
            id in t.rows && t.rows[id] ==
              if Reached(s.rows, next, w, at, due, id) then RowAfter(next, w, at, s.rows, id) else s.rows[id]
    decreases |due|
  {
    var (t, one) := ProcessRow(s, next, w, at, due[0]);
    FirstRowAlone(s, next, w, at, due, id);
    if due[0] == id {
      assert Reached(s.rows, next, w, at, due, id);
      assert t.rows[id] == RowAfter(next, w, at, s.rows, id);
      if one.Success? { TickFrame(t, next, w, at, due[1..]); }
    } else {
      ReachedInRest(s.rows, next, w, at, due, id);
      assert id in due[1..];
      if one.Success? { TickRow(t, next, w, at, due[1..], id); }
    }
  }

  /** What a row that throws, throws. */
  ghost function ErrorOf(w: World, row: Row, id: Id): Error {
    if Answered(w, row, id, Broken) then AuthorizationFailed
    else if w.enqueueFails(id) && !Answered(w, row, id, Denied) then EnqueueFailed
    else MarkFailed
  }

  /** A tick fails if and only if some due row throws, with the error of the first
      that does; without leadership it does nothing. */
  lemma {:induction false} TickFails(s: State, next: NextAfter, w: World, at: int, due: seq<Id>)
    requires Distinct(due) && forall id :: id in due ==> id in s.rows
    ensures var r := Tick(s, next, w, at, due).1;
            && (r.Failure? <==> w.isLeader && exists id :: id in due && Throws(s.rows, next, w, at, id))
            && (r.Failure? ==>
                  exists id :: FirstToThrow(s.rows, next, w, at, due, id) && r.error == ErrorOf(w, s.rows[id], id))
            && (!w.isLeader ==> Tick(s, next, w, at, due) == (s, Success(0)))
    decreases |due|
  {
    if w.isLeader && due != [] {
      var (t, one) := ProcessRow(s, next, w, at, due[0]);
      FirstRowAlone(s, next, w, at, due, due[0]);
      if one.Failure? {
        assert FirstToThrow(s.rows, next, w, at, due, due[0]);
      } else {
        TickFails(t, next, w, at, due[1..]);
        var rest := Tick(t, next, w, at, due[1..]).1;
        forall id | id in due[1..] ensures Throws(t.rows, next, w, at, id) == Throws(s.rows, next, w, at, id) { }
        if rest.Failure? {
          var id :| FirstToThrow(t.rows, next, w, at, due[1..], id) && rest.error == ErrorOf(w, t.rows[id], id);
          FirstRowAlone(s, next, w, at, due, id);
          ReachedInRest(s.rows, next, w, at, due, id);
          assert FirstToThrow(s.rows, next, w, at, due, id);
        }
      }
    }
  }

  /** If nothing throws, everything is reached. */
  lemma AllReached(s: State, next: NextAfter, w: World, at: int, due: seq<Id>, id: Id)
    requires Distinct(due) && id in due && forall x :: x in due ==> x in s.rows
    requires w.isLeader && Tick(s, next, w, at, due).1.Success?
    ensures Reached(s.rows, next, w, at, due, id) && !Throws(s.rows, next, w, at, id)
  {
    TickFails(s, next, w, at, due);
    var j :| 0 <= j < |due| && due[j] == id;
    assert forall i :: 0 <= i < j ==> due[i] in due;
  }

  /** In a successful tick a denied schedule keeps its cadence without firing; an
      unparsable one is left as it was; every other due one has its job put on
      the queue once and is marked run. Nothing that could be advanced is still
      due. */
  lemma TickOutcomes(s: State, next: NextAfter, w: World, at: int, due: seq<Id>, id: Id)
    requires StrictlyLater(next)
    requires DueListing(s.rows, at, due) && id in due
    requires w.isLeader && Tick(s, next, w, at, due).1.Success?
    ensures var t := Tick(s, next, w, at, due).0;
            var row := s.rows[id];
            var n := next(row.cron, row.timezone, at);
            var runs := n.Some? && !Answered(w, row, id, Denied);
            && id in t.rows
            && (n.None? ==> t.rows[id] == row && IsDue(row, at))
            && (n.Some? && !runs ==> t.rows[id] == row.(nextRunAt := n) && !IsDue(t.rows[id], at))
            && (runs ==> t.rows[id] == row.(lastRunAt := Some(at), nextRunAt := n) && !IsDue(t.rows[id], at))
            && (forall f: Fire :: f.id == id ==>
                  multiset(t.fired)[f] == multiset(s.fired)[f] +
                    if runs && f == Fire(id, at, row.jobType, true) then 1 else 0)
  {
    TickRow(s, next, w, at, due, id);
    AllReached(s, next, w, at, due, id);
    forall f: Fire | f.id == id
      ensures multiset(Tick(s, next, w, at, due).0.fired)[f] ==
              multiset(s.fired)[f] + if IsJob(s.rows, next, w, at, f) then 1 else 0
    {
      TickQueues(s, next, w, at, due, f);
    }
  }

  /** In any tick, failed or not: a row that was marked as run had its job put on
      the queue, and a row that throws is unchanged and still due, with its job
      on the queue only if the mark was all that failed. */
  lemma MarkedWasQueued(s: State, next: NextAfter, w: World, at: int, due: seq<Id>, id: Id)
    requires DueListing(s.rows, at, due) && id in s.rows
    ensures var t := Tick(s, next, w, at, due).0;
            && id in t.rows
            && (t.rows[id].lastRunAt != s.rows[id].lastRunAt ==>
                  var f := Fire(id, at, s.rows[id].jobType, true);
                  id in due && multiset(t.fired)[f] == multiset(s.fired)[f] + 1)
            && (id in due && Throws(s.rows, next, w, at, id) ==>
                  && t.rows[id] == s.rows[id] && IsDue(t.rows[id], at)
                  && forall f: Fire :: f.id == id && multiset(t.fired)[f] != multiset(s.fired)[f] ==>
                      !f.marked && w.markFails(id) && !w.enqueueFails(id))
  {
    TickFrame(s, next, w, at, due);
    if id in due {
      TickRow(s, next, w, at, due, id);
      forall f: Fire
        ensures multiset(Tick(s, next, w, at, due).0.fired)[f] == multiset(s.fired)[f] +
                if w.isLeader && IsJob(s.rows, next, w, at, f) && Reached(s.rows, next, w, at, due, f.id) then 1 else 0
      {
        TickQueues(s, next, w, at, due, f);
      }
    }
  }

  /** Only allowed or unchecked rows put a job on the queue. */
  lemma {:induction false} FiredWereAllowed(s: State, next: NextAfter, w: World, at: int, due: seq<Id>, k: nat)
    requires Distinct(due) && forall id :: id in due ==> id in s.rows
    requires |s.fired| <= k < |ProcessAll(s, next, w, at, due).0.fired|
    ensures var f := ProcessAll(s, next, w, at, due).0.fired[k];
            && f.id in due
            && next(s.rows[f.id].cron, s.rows[f.id].timezone, at).Some?
            && (Rechecked(w, s.rows[f.id]) ==> w.verdict(f.id) == Allowed)
    decreases |due|
  {
    if due != [] {
      var (t, one) := ProcessRow(s, next, w, at, due[0]);
      if one.Success? && k >= |t.fired| {
        FiredWereAllowed(t, next, w, at, due[1..], k);
      } else {
        if one.Success? {
          TickFrame(t, next, w, at, due[1..]);
        }
      }
    }
  }

  /** A row of the table once the enabled ones have been primed. */
  function Primed(next: NextAfter, now: Id -> int, enabled: seq<Id>, id: Id, row: Row): Row {
    if id in enabled && row.nextRunAt.None? then row.(nextRunAt := next(row.cron, row.timezone, now(id))) else row
  }

  /** Priming fires nothing, leaves scheduled rows alone and never touches a
      last-run time; an enabled row without a next run gets the next instant of
      its cron, if there is one, and no other row changes. It counts the rows it
      changed, and nothing is left to do the second time round. */
  lemma {:induction false} PrimeEffects(s: State, next: NextAfter, now: Id -> int, enabled: seq<Id>)
    requires forall id :: id in enabled ==> id in s.rows
    ensures var (t, primed) := PrimeAll(s, next, now, enabled);
            && t.fired == s.fired && t.rows.Keys == s.rows.Keys
            && (forall id :: id in s.rows ==> t.rows[id] == Primed(next, now, enabled, id, s.rows[id]))
            && primed == |Unlike(s.rows, t.rows)|
            && PrimeAll(t, next, now, enabled) == (t, 0)
    decreases |enabled|
  {
    if enabled != [] {
      var id := enabled[0];
      var t := PrimeRow(s, next, now(id), id);
      PrimeEffects(t, next, now, enabled[1..]);
      PrimeOne(s, t, PrimeAll(t, next, now, enabled[1..]).0, next, now, enabled);
    }
  }

  lemma PrimeOne(s: State, t: State, u: State, next: NextAfter, now: Id -> int, enabled: seq<Id>)
    requires enabled != [] && enabled[0] in s.rows && t == PrimeRow(s, next, now(enabled[0]), enabled[0])
    requires t.rows.Keys == u.rows.Keys
    requires forall id :: id in t.rows ==> u.rows[id] == Primed(next, now, enabled[1..], id, t.rows[id])
    ensures forall id :: id in s.rows ==> u.rows[id] == Primed(next, now, enabled, id, s.rows[id])
    ensures |Unlike(s.rows, u.rows)| == |Unlike(t.rows, u.rows)| + (if t == s then 0 else 1)
    ensures PrimeRow(u, next, now(enabled[0]), enabled[0]) == u
  {
    var id := enabled[0];
    assert enabled == [id] + enabled[1..];
    if t != s {
      assert t.rows[id] != s.rows[id] && u.rows[id] == t.rows[id];
      assert Unlike(s.rows, u.rows) == Unlike(t.rows, u.rows) + {id};
    }
  }

  /** The ids whose rows differ. */
  ghost function Unlike(rows: map<Id, Row>, other: map<Id, Row>): set<Id> {
    set id | id in rows && id in other && rows[id] != other[id]
  }

  /*
   * Whole runs of one scheduler: ticks that do not overlap, priming in between,
   * and a clock that never goes back.
   */

  /** A time the cron expression of `row` fires at lies in the interval (after, until]. */
  ghost predicate InstantBetween(next: NextAfter, row: Row, after: int, until: int) {
    exists t :: next(row.cron, row.timezone, t).Some? && after < next(row.cron, row.timezone, t).value <= until
  }

  datatype Event = TickEvent(at: int, world: World, due: seq<Id>) | PrimeEvent(at: int, id: Id)

  ghost predicate CanHappen(s: State, clock: int, e: Event) {
    && clock <= e.at
    && match e
       case TickEvent(at, w, due) => if w.isLeader then DueListing(s.rows, at, due) else due == []
       case PrimeEvent(_, id) => id in s.rows
  }

  function Happen(s: State, next: NextAfter, e: Event): State
    requires match e case TickEvent(_, _, due) => forall id :: id in due ==> id in s.rows
                     case PrimeEvent(_, id) => id in s.rows
  {
    match e
    case TickEvent(at, w, due) => Tick(s, next, w, at, due).0
    case PrimeEvent(at, id) => PrimeRow(s, next, at, id)
  }

  /** `states` is a run through `events`, starting with an empty log. */
  ghost predicate Run(states: seq<State>, next: NextAfter, events: seq<Event>) {
    && |states| == |events| + 1 && states[0].fired == []
    && forall i :: 0 <= i < |events| ==> RunStep(states, next, events, i)
  }

  ghost predicate RunStep(states: seq<State>, next: NextAfter, events: seq<Event>, i: nat)
    requires |states| == |events| + 1 && i < |events|
  {
    && CanHappen(states[i], if i == 0 then events[0].at else events[i - 1].at, events[i])
    && states[i + 1] == Happen(states[i], next, events[i])
  }

  /** Two fires of one schedule, the earlier one marked: an instant lies between. */
  ghost predicate PairPaced(s: State, next: NextAfter, i: nat, j: nat) {
    i < j < |s.fired| && s.fired[i].id == s.fired[j].id && s.fired[i].marked ==>
      && s.fired[i].id in s.rows
      && InstantBetween(next, s.rows[s.fired[i].id], s.fired[i].at, s.fired[j].at)
  }

  /** A marked fire has an instant between it and its schedule's next run. */
  ghost predicate NextPaced(s: State, next: NextAfter, i: nat) {
    i < |s.fired| && s.fired[i].marked ==>
      && s.fired[i].id in s.rows
      && var row := s.rows[s.fired[i].id];
         row.nextRunAt.Some? && InstantBetween(next, row, s.fired[i].at, row.nextRunAt.value)
  }

  ghost predicate Paced(s: State, next: NextAfter, clock: int) {
    && (forall i :: 0 <= i < |s.fired| ==> s.fired[i].at <= clock && s.fired[i].id in s.rows)
    && (forall i: nat, j: nat {:trigger PairPaced(s, next, i, j)} :: PairPaced(s, next, i, j))
    && (forall i: nat {:trigger NextPaced(s, next, i)} :: NextPaced(s, next, i))
  }

  ghost predicate SameCrons(s: State, t: State) {
    s.rows.Keys == t.rows.Keys &&
    forall id :: id in s.rows ==> s.rows[id].cron == t.rows[id].cron && s.rows[id].timezone == t.rows[id].timezone
  }

  /** Instants depend on the cron expression only, and survive a later end. */
  lemma InstantLater(next: NextAfter, row: Row, changed: Row, after: int, until: int, later: int)
    requires InstantBetween(next, row, after, until) && until <= later
    requires row.cron == changed.cron && row.timezone == changed.timezone
    ensures InstantBetween(next, changed, after, later)
  {
    var t :| next(row.cron, row.timezone, t).Some? && after < next(row.cron, row.timezone, t).value <= until;
    assert next(changed.cron, changed.timezone, t).Some?;
  }

  lemma ProcessKeepsPaced(s: State, next: NextAfter, w: World, at: int, id: Id)
    requires StrictlyLater(next) && Paced(s, next, at)
    requires id in s.rows && IsDue(s.rows[id], at)
    ensures Paced(ProcessRow(s, next, w, at, id).0, next, at)
    ensures SameCrons(s, ProcessRow(s, next, w, at, id).0)
  {
    var row := s.rows[id];
    var t := ProcessRow(s, next, w, at, id).0;
    forall i: nat, j: nat ensures PairPaced(t, next, i, j) {
      assert PairPaced(s, next, i, j) && NextPaced(s, next, i);
      if i < j < |t.fired| && t.fired[i].id == t.fired[j].id && t.fired[i].marked {
        var fired := s.rows[t.fired[i].id];
        var until := if j == |s.fired| then row.nextRunAt.value else s.fired[j].at;
        InstantLater(next, fired, t.rows[t.fired[i].id], t.fired[i].at, until, t.fired[j].at);
      }
    }
    forall i: nat ensures NextPaced(t, next, i) {
      assert NextPaced(s, next, i);
      if i < |s.fired| && s.fired[i].marked {
        var fired := s.rows[s.fired[i].id];
        InstantLater(next, fired, t.rows[s.fired[i].id], s.fired[i].at, fired.nextRunAt.value,
                     t.rows[s.fired[i].id].nextRunAt.value);
      }
    }
  }

  lemma {:induction false} ProcessAllKeepsPaced(s: State, next: NextAfter, w: World, at: int, due: seq<Id>)
    requires StrictlyLater(next) && Paced(s, next, at) && Distinct(due)
    requires forall id :: id in due ==> id in s.rows && IsDue(s.rows[id], at)
    ensures Paced(ProcessAll(s, next, w, at, due).0, next, at)
    ensures SameCrons(s, ProcessAll(s, next, w, at, due).0)
    decreases |due|
  {
    if due != [] {
      ProcessKeepsPaced(s, next, w, at, due[0]);
      var (t, one) := ProcessRow(s, next, w, at, due[0]);
      if one.Success? {
        ProcessAllKeepsPaced(t, next, w, at, due[1..]);
      }
    }
  }

  lemma EventKeepsPaced(s: State, next: NextAfter, clock: int, e: Event)
    requires StrictlyLater(next) && Paced(s, next, clock) && CanHappen(s, clock, e)
    ensures Paced(Happen(s, next, e), next, e.at)
    ensures SameCrons(s, Happen(s, next, e))
  {
    if e.TickEvent? && e.world.isLeader {
      ProcessAllKeepsPaced(s, next, e.world, e.at, e.due);
    } else {
      var t := Happen(s, next, e);
      forall i: nat, j: nat ensures PairPaced(t, next, i, j) {
        assert PairPaced(s, next, i, j);
        if i < j < |t.fired| && t.fired[i].id == t.fired[j].id && t.fired[i].marked {
          InstantLater(next, s.rows[t.fired[i].id], t.rows[t.fired[i].id], t.fired[i].at, t.fired[j].at,
                       t.fired[j].at);
        }
      }
      forall i: nat ensures NextPaced(t, next, i) {
        assert NextPaced(s, next, i);
      }
    }
  }

  lemma {:induction false} RunKeepsPaced(states: seq<State>, next: NextAfter, events: seq<Event>, i: nat)
    requires StrictlyLater(next) && Run(states, next, events) && 0 < i <= |events|
    ensures Paced(states[i], next, events[i - 1].at)
    ensures SameCrons(states[0], states[i])
  {
    assert RunStep(states, next, events, i - 1);
    if i == 1 {
      EventKeepsPaced(states[0], next, events[0].at, events[0]);
    } else {
      RunKeepsPaced(states, next, events, i - 1);
      EventKeepsPaced(states[i - 1], next, events[i - 2].at, events[i - 1]);
    }
  }

  /** Between any two fires of one schedule, the earlier of which was marked,
      its cron expression has an instant. */
  lemma FiresAreSeparated(states: seq<State>, next: NextAfter, events: seq<Event>, i: nat, j: nat)
    requires StrictlyLater(next) && Run(states, next, events)
    requires i < j < |states[|events|].fired|
    requires states[|events|].fired[i].id == states[|events|].fired[j].id
    requires states[|events|].fired[i].marked
    ensures var log := states[|events|].fired;
            log[i].id in states[0].rows &&
            InstantBetween(next, states[0].rows[log[i].id], log[i].at, log[j].at)
  {
    if events != [] {
      RunKeepsPaced(states, next, events, |events|);
      var last := states[|events|];
      assert PairPaced(last, next, i, j);
      InstantLater(next, last.rows[last.fired[i].id], states[0].rows[last.fired[i].id], last.fired[i].at,
                   last.fired[j].at, last.fired[j].at);
    }
  }

  lemma RunKeepsRows(states: seq<State>, next: NextAfter, events: seq<Event>)
    requires StrictlyLater(next) && Run(states, next, events)
    ensures forall k :: 0 <= k < |states[|events|].fired| ==> states[|events|].fired[k].id in states[0].rows
  {
    if events != [] {
      RunKeepsPaced(states, next, events, |events|);
    }
  }

  /** The instants of `row` in (after, until] that a run can have met. */
  ghost predicate Instants(next: NextAfter, row: Row, after: int, until: int, xs: set<int>) {
    forall x :: x in xs ==> after < x <= until && exists t :: next(row.cron, row.timezone, t) == Some(x)
  }

  /** Times pairwise separated by instants need as many instants as there are gaps. */
  lemma {:induction false} GapsNeedInstants(next: NextAfter, row: Row, times: seq<int>) returns (xs: set<int>)
    requires times != []
    requires forall i, j :: 0 <= i < j < |times| ==> InstantBetween(next, row, times[i], times[j])
    ensures |xs| == |times| - 1
    ensures times[0] <= times[|times| - 1]
    ensures Instants(next, row, times[0], times[|times| - 1], xs)
  {
    var n := |times| - 1;
    if n == 0 {
      xs := {};
    } else {
      var before := GapsNeedInstants(next, row, times[..n]);
      assert InstantBetween(next, row, times[n - 1], times[n]);
      var t :| next(row.cron, row.timezone, t).Some? &&
        times[n - 1] < next(row.cron, row.timezone, t).value <= times[n];
      var x := next(row.cron, row.timezone, t).value;
      assert x !in before;
      xs := before + {x};
    }
  }

  /** Where in the log the fires of `id` are. */
  function FireIndices(log: seq<Fire>, id: Id): (r: seq<nat>)
    ensures forall k :: 0 <= k < |r| ==> r[k] < |log| && log[r[k]].id == id
    ensures forall j, k :: 0 <= j < k < |r| ==> r[j] < r[k]
  {
    if log == [] then []
    else
      var n := |log| - 1;
      var front := FireIndices(log[..n], id);
      assert forall k :: 0 <= k < |front| ==> log[..n][front[k]] == log[front[k]];
      if log[n].id == id then front + [n] else front
  }

  lemma {:induction false} FireIndicesAll(log: seq<Fire>, id: Id, i: nat)
    requires i < |log| && log[i].id == id
    ensures i in FireIndices(log, id)
  {
    var n := |log| - 1;
    if i < n {
      assert log[..n][i] == log[i];
      FireIndicesAll(log[..n], id, i);
    }
  }

  function FireTimes(log: seq<Fire>, id: Id): seq<int> {
    var at := FireIndices(log, id);
    seq(|at|, k requires 0 <= k < |at| => log[at[k]].at)
  }

  /** A schedule whose fires were all marked fires at most once more than its
      expression has instants between the first and the last fire. */
  lemma FiresBounded(states: seq<State>, next: NextAfter, events: seq<Event>, id: Id) returns (xs: set<int>)
    requires StrictlyLater(next) && Run(states, next, events)
    requires forall k :: 0 <= k < |states[|events|].fired| && states[|events|].fired[k].id == id ==>
        states[|events|].fired[k].marked
    requires FireTimes(states[|events|].fired, id) != []
    ensures id in states[0].rows
    ensures var times := FireTimes(states[|events|].fired, id);
            && |times| == |xs| + 1
            && Instants(next, states[0].rows[id], times[0], times[|times| - 1], xs)
  {
    var log := states[|events|].fired;
    var at, times := FireIndices(log, id), FireTimes(log, id);
    RunKeepsRows(states, next, events);
    forall i, j | 0 <= i < j < |times|
      ensures InstantBetween(next, states[0].rows[id], times[i], times[j])
    {
      FiresAreSeparated(states, next, events, at[i], at[j]);
    }
    xs := GapsNeedInstants(next, states[0].rows[id], times);
  }

  /*
   * Why the hypotheses are there.
   */

  /** Would this row fire in this world? */
  predicate Fires(s: State, next: NextAfter, w: World, at: int, id: Id)
    requires id in s.rows
  {
    var row := s.rows[id];
    && next(row.cron, row.timezone, at).Some?
    && (Rechecked(w, row) ==> w.verdict(id) == Allowed)
    && !w.enqueueFails(id)
  }

  /** If the table write after an enqueue fails, the row is still due and the
      next tick fires it again, even at the same instant. */
  lemma UnmarkedFiresAgain(s: State, next: NextAfter, w: World, w2: World, at: int, id: Id)
    requires id in s.rows && IsDue(s.rows[id], at) && Fires(s, next, w, at, id) && w.markFails(id)
    requires Fires(s, next, w2, at, id)
    ensures var (t, r) := ProcessRow(s, next, w, at, id);
            && r == Failure(MarkFailed) && IsDue(t.rows[id], at)
            && |ProcessRow(t, next, w2, at, id).0.fired| == |s.fired| + 2
  {
  }

  /** Two overlapping ticks that both listed a row before either marked it both
      fire it: processing never looks at whether the row is still due. */
  lemma OverlapFiresTwice(s: State, next: NextAfter, w: World, w2: World, at: int, id: Id)
    requires StrictlyLater(next)
    requires id in s.rows && IsDue(s.rows[id], at)
    requires Fires(s, next, w, at, id) && !w.markFails(id) && Fires(s, next, w2, at, id)
    ensures var t := ProcessRow(s, next, w, at, id).0;
            && !IsDue(t.rows[id], at)
            && |ProcessRow(t, next, w2, at, id).0.fired| == |s.fired| + 2
  {
  }
}
