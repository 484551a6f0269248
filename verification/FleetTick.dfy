/**
  One tick of the fleet with nothing in between: its steps add up to the
  scheduler's tick as a whole.
 */
module FleetTick {
  import opened CronFleet
  import opened Sorting
  import opened Wrappers
  import LeaderElection
  import S = Schedules
  import Scheduler

  /** The table as the scheduler's tick sees it. */
  function Table(s: State): Scheduler.State {
    Scheduler.State(Rows(s.rows), [])
  }

  function Listing(tick: Tick): seq<S.Id>
    requires tick.todo.Some?
  {
    seq(|tick.todo.value|, i requires 0 <= i < |tick.todo.value| => tick.todo.value[i].id)
  }

  /** Tick `t` has listed rows that are still as it saw them, none of them enqueued yet. */
  ghost predicate Fresh(s: State, t: nat) {
    && t in s.ticks && s.ticks[t].todo.Some? && s.ticks[t].queued.None? && Distinct(Listing(s.ticks[t]))
    && forall d :: d in s.ticks[t].todo.value ==> d.id in s.rows && s.rows[d.id].row == d.row
  }

  /** From `s` to `u` the tick put exactly these jobs on the queue, and marked them. */
  ghost predicate Fired(s: State, u: State, t: nat, jobs: seq<Scheduler.Fire>) {
    && |u.fired| == |s.fired| + |jobs| && s.fired <= u.fired
    && forall k {:trigger jobs[k]} :: 0 <= k < |jobs| ==>
        var f := u.fired[|s.fired| + k]; f.tick == t && f.id == jobs[k].id && f.marked == jobs[k].marked
  }

  lemma Step(states0: seq<State>, ttl: LeaderElection.Ttl, next: S.NextAfter, steps0: seq<CronFleet.Step>,
             step: CronFleet.Step) returns (states: seq<State>, steps: seq<CronFleet.Step>)
    requires Run(states0, ttl, next, steps0) && Enabled(states0[|steps0|], next, step)
    ensures Run(states, ttl, next, steps) && steps == steps0 + [step]
    ensures states == states0 + [Apply(states0[|steps0|], ttl, next, step)]
  {
    states, steps := states0 + [Apply(states0[|steps0|], ttl, next, step)], steps0 + [step];
  }

  /** The first row, as the scheduler's tick would treat it alone. */
  lemma FirstRow(states0: seq<State>, ttl: LeaderElection.Ttl, next: S.NextAfter, steps0: seq<CronFleet.Step>, t: nat,
                 w: Scheduler.World) returns (states: seq<State>, steps: seq<CronFleet.Step>)
    requires Run(states0, ttl, next, steps0) && Fresh(states0[|steps0|], t) && HasFirst(states0[|steps0|], t)
    requires var s := states0[|steps0|];
             First(s.ticks[t]).id in Rows(s.rows) &&
             Scheduler.ProcessRow(Table(s), next, w, s.ticks[t].at, First(s.ticks[t]).id).1.Success?
    ensures Run(states, ttl, next, steps) && steps0 <= steps
    ensures var (s, u) := (states0[|steps0|], states[|steps|]);
            var v := Scheduler.ProcessRow(Table(s), next, w, s.ticks[t].at, First(s.ticks[t]).id).0;
            && Rows(u.rows) == v.rows && Fired(s, u, t, v.fired)
            && u.ticks == s.ticks[t := Rest(s.ticks[t])] && u.election == s.election && u.owner == s.owner
  {
    var s := states0[|steps0|];
    var d := First(s.ticks[t]);
    assert d in s.ticks[t].todo.value;
    if NextOf(next, s.ticks[t]).None? {
      states, steps := Step(states0, ttl, next, steps0, Skip(t));
    } else if Scheduler.Rechecked(w, d.row) && w.verdict(d.id) == Scheduler.Denied {
      states, steps := Step(states0, ttl, next, steps0, Deny(t));
    } else {
      states, steps := Step(states0, ttl, next, steps0, Enqueue(t));
      states, steps := Step(states, ttl, next, steps, Mark(t));
    }
  }

  lemma RowAfterOthers(rows: map<S.Id, S.Row>, log: seq<Scheduler.Fire>, next: S.NextAfter, w: Scheduler.World,
                       at: int, id: S.Id)
    requires id in rows
    ensures var (v, one) := Scheduler.ProcessRow(Scheduler.State(rows, []), next, w, at, id);
            Scheduler.ProcessRow(Scheduler.State(rows, log), next, w, at, id) ==
            (Scheduler.State(v.rows, log + v.fired), one)
  {
    var jobs := Scheduler.ProcessRow(Scheduler.State(rows, []), next, w, at, id).0.fired;
    assert if jobs == [] then log + jobs == log else jobs == [jobs[0]];
  }

  /** What was on the queue before makes no difference to the scheduler's tick. */
  lemma {:induction false} EarlierJobs(rows: map<S.Id, S.Row>, log: seq<Scheduler.Fire>, next: S.NextAfter,
                                       w: Scheduler.World, at: int, due: seq<S.Id>)
    requires forall id :: id in due ==> id in rows
    ensures var (v, r) := Scheduler.ProcessAll(Scheduler.State(rows, []), next, w, at, due);
            Scheduler.ProcessAll(Scheduler.State(rows, log), next, w, at, due) ==
            (Scheduler.State(v.rows, log + v.fired), r)
    decreases |due|, 0
  {
    if due == [] {
      assert log + [] == log;
    } else {
      var (v, one) := Scheduler.ProcessRow(Scheduler.State(rows, []), next, w, at, due[0]);
      RowAfterOthers(rows, log, next, w, at, due[0]);
      if one.Success? { TwoLogs(v.rows, log, v.fired, next, w, at, due[1..]); }
    }
  }

  lemma {:induction false} TwoLogs(rows: map<S.Id, S.Row>, log: seq<Scheduler.Fire>, more: seq<Scheduler.Fire>,
                                   next: S.NextAfter, w: Scheduler.World, at: int, due: seq<S.Id>)
    requires forall id :: id in due ==> id in rows
    ensures var (v, r) := Scheduler.ProcessAll(Scheduler.State(rows, more), next, w, at, due);
            Scheduler.ProcessAll(Scheduler.State(rows, log + more), next, w, at, due) ==
            (Scheduler.State(v.rows, log + v.fired), r)
    decreases |due|, 1
  {
    EarlierJobs(rows, more, next, w, at, due);
    EarlierJobs(rows, log + more, next, w, at, due);
    var last := Scheduler.ProcessAll(Scheduler.State(rows, []), next, w, at, due).0.fired;
    assert log + (more + last) == log + more + last;
  }

  /** The rest of the listing is still fresh once the first row is done. */
  lemma StillFresh(s: State, u: State, t: nat, next: S.NextAfter, w: Scheduler.World)
    requires Fresh(s, t) && HasFirst(s, t) && First(s.ticks[t]).id in Rows(s.rows)
    requires Rows(u.rows) ==
             Scheduler.ProcessRow(Table(s), next, w, s.ticks[t].at, First(s.ticks[t]).id).0.rows
    requires u.ticks == s.ticks[t := Rest(s.ticks[t])]
    ensures Fresh(u, t) && Listing(u.ticks[t]) == Listing(s.ticks[t])[1..]
    ensures Listing(s.ticks[t])[0] == First(s.ticks[t]).id
  {
    var ids, todo := Listing(s.ticks[t]), s.ticks[t].todo.value;
    assert Listing(u.ticks[t]) == ids[1..];
    assert ids == [ids[0]] + ids[1..] && ids[0] !in ids[1..];
    forall d | d in todo[1..] ensures d.id in u.rows && u.rows[d.id].row == d.row {
      assert d in todo;
      var k :| 0 <= k < |todo| - 1 && todo[1..][k] == d;
      assert ids[1..][k] == d.id;
      assert d.id in Rows(s.rows) && d.id in Rows(u.rows) && Rows(u.rows)[d.id] == Rows(s.rows)[d.id];
    }
  }

  lemma FiredTwice(s: State, u: State, v: State, t: nat, a: seq<Scheduler.Fire>, b: seq<Scheduler.Fire>)
    requires Fired(s, u, t, a) && Fired(u, v, t, b)
    ensures Fired(s, v, t, a + b)
  {
    forall k | 0 <= k < |a + b|
      ensures var f := v.fired[|s.fired| + k];
              f.tick == t && f.id == (a + b)[k].id && f.marked == (a + b)[k].marked
    {
      if k < |a| {
        assert v.fired[|s.fired| + k] == u.fired[|s.fired| + k] && (a + b)[k] == a[k];
      } else {
        assert |s.fired| + k == |u.fired| + (k - |a|) && (a + b)[k] == b[k - |a|];
      }
    }
  }

  lemma {:induction false} RowsAlone(states0: seq<State>, ttl: LeaderElection.Ttl, next: S.NextAfter,
                                     steps0: seq<CronFleet.Step>, t: nat, w: Scheduler.World)
    returns (states: seq<State>, steps: seq<CronFleet.Step>)
    requires Run(states0, ttl, next, steps0) && Fresh(states0[|steps0|], t)
    requires var s := states0[|steps0|];
             && (forall id :: id in Listing(s.ticks[t]) ==> id in Rows(s.rows))
             && Scheduler.ProcessAll(Table(s), next, w, s.ticks[t].at, Listing(s.ticks[t])).1.Success?
    ensures Run(states, ttl, next, steps) && steps0 <= steps
    ensures var (s, u) := (states0[|steps0|], states[|steps|]);
            var v := Scheduler.ProcessAll(Table(s), next, w, s.ticks[t].at, Listing(s.ticks[t])).0;
            && Rows(u.rows) == v.rows && Fired(s, u, t, v.fired) && u.election == s.election
            && u.ticks == s.ticks[t := s.ticks[t].(todo := Some([]))]
    decreases |states0[|steps0|].ticks[t].todo.value|
  {
    var s := states0[|steps0|];
    var ids, at := Listing(s.ticks[t]), s.ticks[t].at;
    states, steps := states0, steps0;
    if s.ticks[t].todo.value != [] {
      assert ids[0] == First(s.ticks[t]).id && ids[0] in ids;
      states, steps := FirstRow(states, ttl, next, steps, t, w);
      var u := states[|steps|];
      var v := Scheduler.ProcessRow(Table(s), next, w, at, ids[0]).0;
      StillFresh(s, u, t, next, w);
      forall id | id in ids[1..] ensures id in v.rows { assert id in ids; }
      EarlierJobs(v.rows, v.fired, next, w, at, ids[1..]);
      assert Scheduler.ProcessAll(v, next, w, at, ids[1..]).0.fired ==
             v.fired + Scheduler.ProcessAll(Table(u), next, w, at, ids[1..]).0.fired;
      states, steps := RowsAlone(states, ttl, next, steps, t, w);
      FiredTwice(s, u, states[|steps|], t, v.fired, Scheduler.ProcessAll(Table(u), next, w, at, ids[1..]).0.fired);
    } else {
      assert s.ticks[t].(todo := Some([])) == s.ticks[t];
    }
  }

  /** A leading pod begins a tick and is answered this listing. */
  lemma ListAll(states0: seq<State>, ttl: LeaderElection.Ttl, next: S.NextAfter, steps0: seq<CronFleet.Step>, t: nat,
                p: nat, due: seq<S.Id>) returns (states: seq<State>, steps: seq<CronFleet.Step>)
    requires Run(states0, ttl, next, steps0)
    requires var s := states0[|steps0|];
             && t !in s.owner && p in s.election.pods && LeaderElection.IsLeader(s.election.pods[p].flags)
             && S.DueListing(Rows(s.rows), s.election.now, due)
    ensures Run(states, ttl, next, steps) && steps0 <= steps
    ensures var (s, u) := (states0[|steps0|], states[|steps|]);
            && Fresh(u, t) && Listing(u.ticks[t]) == due && u.ticks[t].at == s.election.now
            && u.rows == s.rows && u.fired == s.fired && u.election == s.election && u.ticks - {t} == s.ticks - {t}
  {
    var s := states0[|steps0|];
    states, steps := Step(states0, ttl, next, steps0, Begin(t, p));
    states, steps := Step(states, ttl, next, steps, List(t, due));
    var l := states[|steps|];
    assert Listing(l.ticks[t]) == due && l.rows == s.rows;
    forall d | d in l.ticks[t].todo.value ensures d.id in l.rows && l.rows[d.id].row == d.row {
      var k :| 0 <= k < |due| && l.ticks[t].todo.value[k] == d;
      assert due[k] in due;
    }
  }

  /** From every state of a run of the fleet: a leading pod's tick that nothing
      interrupts and in which nothing throws leaves the table, and puts on the
      queue the jobs, that the scheduler's tick as a whole gives. */
  lemma TickAlone(states0: seq<State>, ttl: LeaderElection.Ttl, next: S.NextAfter, steps0: seq<CronFleet.Step>, t: nat,
                  p: nat, due: seq<S.Id>, w: Scheduler.World)
    returns (states: seq<State>, steps: seq<CronFleet.Step>)
    requires Run(states0, ttl, next, steps0) && w.isLeader
    requires var s := states0[|steps0|];
             && t !in s.owner && p in s.election.pods && LeaderElection.IsLeader(s.election.pods[p].flags)
             && S.DueListing(Rows(s.rows), s.election.now, due) && (forall id :: id in due ==> id in Rows(s.rows))
             && Scheduler.Tick(Table(s), next, w, s.election.now, due).1.Success?
    ensures Run(states, ttl, next, steps) && steps0 <= steps
    ensures var (s, u) := (states0[|steps0|], states[|steps|]);
            var v := Scheduler.Tick(Table(s), next, w, s.election.now, due).0;
            && Rows(u.rows) == v.rows && Fired(s, u, t, v.fired)
            && u.election == s.election && u.ticks == s.ticks - {t}
  {
    states, steps := ListAll(states0, ttl, next, steps0, t, p, due);
    states, steps := RowsAlone(states, ttl, next, steps, t, w);
    states, steps := Step(states, ttl, next, steps, End(t));
  }
}
