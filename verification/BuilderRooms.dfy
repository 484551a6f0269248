/**
  The Builder rooms of the WebSocket server. Who is in which room is kept
  twice: each room holds the ids of its members, each connection the rooms it
  joined. Join, leave, close, shutdown and the reaper change both.

  A connection's own record outlives its entry in `connections`, since the
  socket's message handler holds it. The shutdown hook clears both tables while
  the sockets are only about to close, so a message may still come from a
  connection that can no longer be looked up. The model allows that after the
  close handler too.
 */
module BuilderRooms {
  import opened Wrappers
  import opened Sorting

  datatype Presence = Presence(connection: nat, focus: Option<string>, lastSeen: int)

  /** A connection's own record; `rooms` in the order of joining. */
  datatype Conn = Conn(rooms: seq<string>, presence: Presence)

  datatype Message =
    | Roster(pipeline: string, members: seq<Presence>)
    | Edited(pipeline: string, from: nat, at: int, spec: string)
    | NotInRoom
    | Forbidden(pipeline: string)

  datatype Sent = Sent(to: nat, message: Message)

  /** `records` are all connection records ever made, `connections` the ids
      under which one can be looked up, `rooms` the ids in each stored room in
      the order of joining. */
  datatype State = State(records: map<nat, Conn>, connections: set<nat>, rooms: map<string, seq<nat>>)

  datatype Effect = Effect(state: State, sent: seq<Sent>)

  /*
   * What each handler does.
   */

  function Without<T(==,!new)>(xs: seq<T>, x: T): (r: seq<T>)
    ensures forall y :: y in r <==> y in xs && y != x
    ensures Distinct(xs) ==> Distinct(r)
  {
    if xs == [] then []
    else
      var rest := Without(xs[1..], x);
      assert xs == [xs[0]] + xs[1..];
      assert Distinct(xs) ==> Distinct(xs[1..]) && xs[0] !in xs[1..];
      if xs[0] == x then rest else [xs[0]] + rest
  }

  /** `set.add`: a member keeps its place. */
  function With<T(==,!new)>(xs: seq<T>, x: T): (r: seq<T>)
    ensures forall y :: y in r <==> y in xs || y == x
    ensures Distinct(xs) ==> Distinct(r)
  {
    if x in xs then xs
    else
      assert Distinct(xs) ==> Distinct(xs + [x]);
      xs + [x]
  }

  predicate IsLive(s: State, id: nat) {
    id in s.connections && id in s.records
  }

  function Ids(s: State, p: string): seq<nat> {
    if p in s.rooms then s.rooms[p] else []
  }

  /** The presences of those ids that a connection is found for. */
  function RosterOf(s: State, ids: seq<nat>): seq<Presence> {
    if ids == [] then []
    else if IsLive(s, ids[0]) then [s.records[ids[0]].presence] + RosterOf(s, ids[1..])
    else RosterOf(s, ids[1..])
  }

  /** The message to each of those ids that a connection is found for, but not to `except`. */
  function ToEach(s: State, ids: seq<nat>, except: Option<nat>, message: Message): seq<Sent> {
    if ids == [] then []
    else if IsLive(s, ids[0]) && except != Some(ids[0]) then
      [Sent(ids[0], message)] + ToEach(s, ids[1..], except, message)
    else ToEach(s, ids[1..], except, message)
  }

  function BroadcastRoster(s: State, p: string): seq<Sent> {
    ToEach(s, Ids(s, p), None, Roster(p, RosterOf(s, Ids(s, p))))
  }

  function Connected(s: State, id: nat, now: int): State {
    s.(records := s.records[id := Conn([], Presence(id, None, now))], connections := s.connections + {id})
  }

  function Touched(s: State, id: nat, focus: Option<string>, now: int): State
    requires id in s.records
  {
    var c := s.records[id];
    s.(records := s.records[id := c.(presence := c.presence.(focus := focus, lastSeen := now))])
  }

  function Joined(s: State, id: nat, p: string, focus: Option<string>, now: int): Effect
    requires id in s.records
  {
    var t := Touched(s, id, focus, now);
    var c := t.records[id];
    var u := t.(records := t.records[id := c.(rooms := With(c.rooms, p))], rooms := t.rooms[p := With(Ids(t, p), id)]);
    Effect(u, BroadcastRoster(u, p))
  }

  function LeftRoom(s: State, id: nat, p: string): Effect
    requires id in s.records
    ensures LeftRoom(s, id, p).state.records.Keys == s.records.Keys
  {
    if id !in Ids(s, p) then Effect(s, [])
    else
      var c, ids := s.records[id], Without(s.rooms[p], id);
      var t := s.(records := s.records[id := c.(rooms := Without(c.rooms, p))],
                  rooms := if ids == [] then s.rooms - {p} else s.rooms[p := ids]);
      Effect(t, BroadcastRoster(t, p))
  }

  function Present(s: State, id: nat, p: string, focus: Option<string>, now: int): Effect
    requires id in s.records
  {
    if p !in s.records[id].rooms then Effect(s, [])
    else
      var t := Touched(s, id, focus, now);
      Effect(t, BroadcastRoster(t, p))
  }

  function Edit(s: State, id: nat, p: string, spec: string, now: int): Effect
    requires id in s.records
  {
    if p !in s.records[id].rooms then Effect(s, if IsLive(s, id) then [Sent(id, NotInRoom)] else [])
    else if p !in s.rooms then Effect(s, [])
    else
      var edits := ToEach(s, s.rooms[p], Some(id), Edited(p, id, now, spec));
      var t := Touched(s, id, s.records[id].presence.focus, now);
      Effect(t, edits + BroadcastRoster(t, p))
  }

  function LeftAll(s: State, id: nat, ps: seq<string>): Effect
    requires id in s.records
    decreases |ps|
  {
    if ps == [] then Effect(s, [])
    else
      var first := LeftRoom(s, id, ps[0]);
      var rest := LeftAll(first.state, id, ps[1..]);
      Effect(rest.state, first.sent + rest.sent)
  }

  function Closed(s: State, id: nat): Effect
    requires id in s.records
  {
    var e := LeftAll(s, id, s.records[id].rooms);
    e.(state := e.state.(connections := e.state.connections - {id}))
  }

  /** Whether the reaper's sweep keeps this id in the room. */
  predicate Spared(s: State, p: string, id: nat, cutoff: int) {
    IsLive(s, id) && !(s.records[id].presence.lastSeen < cutoff && p !in s.records[id].rooms)
  }

  function Swept(s: State, p: string, ids: seq<nat>, cutoff: int): seq<nat> {
    if ids == [] then []
    else if Spared(s, p, ids[0], cutoff) then [ids[0]] + Swept(s, p, ids[1..], cutoff)
    else Swept(s, p, ids[1..], cutoff)
  }

  /** The sweep of one room does not look at the other rooms. */
  lemma {:induction false} SweptSame(s: State, t: State, p: string, ids: seq<nat>, cutoff: int)
    requires s.records == t.records && s.connections == t.connections
    ensures Swept(s, p, ids, cutoff) == Swept(t, p, ids, cutoff)
  {
    if ids != [] {
      SweptSame(s, t, p, ids[1..], cutoff);
    }
  }

  /** The room `p` after the sweep. */
  function SweptRoom(s: State, p: string, cutoff: int): seq<nat> {
    Swept(s, p, Ids(s, p), cutoff)
  }

  function Reaped(s: State, cutoff: int): State {
    s.(rooms := HalfReaped(s, cutoff, {}))
  }

  /** The rooms when the reaper still has to sweep those in `todo`. */
  function HalfReaped(s: State, cutoff: int, todo: set<string>): map<string, seq<nat>> {
    map p | p in s.rooms && (p in todo || SweptRoom(s, p, cutoff) != []) ::
      if p in todo then s.rooms[p] else SweptRoom(s, p, cutoff)
  }

  /** The rooms, other than those in `todo`, that get a fresh roster from the reaper. */
  function Refreshed(s: State, cutoff: int, todo: set<string>): set<string> {
    set p | p in s.rooms && p !in todo && SweptRoom(s, p, cutoff) != [] && SweptRoom(s, p, cutoff) != s.rooms[p]
  }

  /** What remains of a room goes back into the table, unless nothing does. */
  function Restored(rooms: map<string, seq<nat>>, p: string, ids: seq<nat>): map<string, seq<nat>> {
    if ids == [] then rooms - {p} else rooms[p := ids]
  }

  lemma HalfReapedStep(s: State, cutoff: int, todo: set<string>, p: string)
    requires p in todo && p in s.rooms
    ensures p in HalfReaped(s, cutoff, todo) && HalfReaped(s, cutoff, todo)[p] == s.rooms[p]
    ensures HalfReaped(s, cutoff, todo - {p}) == Restored(HalfReaped(s, cutoff, todo), p, SweptRoom(s, p, cutoff))
  {
    var now, ids := HalfReaped(s, cutoff, todo), SweptRoom(s, p, cutoff);
    var next := HalfReaped(s, cutoff, todo - {p});
    assert next.Keys == Restored(now, p, ids).Keys;
  }

  /** For each refreshed room, other than those in `todo`, the roster of what is
      left of it, to everyone left in it. */
  function ReaperSends(s: State, cutoff: int, todo: set<string>): map<string, seq<Sent>> {
    map p | p in Refreshed(s, cutoff, todo) :: BroadcastRoster(Reaped(s, cutoff), p)
  }

  lemma ReaperSendsStep(s: State, cutoff: int, todo: set<string>, p: string)
    requires p in todo && p in s.rooms
    ensures ReaperSends(s, cutoff, todo - {p}) ==
            if SweptRoom(s, p, cutoff) != [] && SweptRoom(s, p, cutoff) != s.rooms[p]
            then ReaperSends(s, cutoff, todo)[p := BroadcastRoster(Reaped(s, cutoff), p)]
            else ReaperSends(s, cutoff, todo)
  {
    var before, after := Refreshed(s, cutoff, todo), Refreshed(s, cutoff, todo - {p});
    var dirty := SweptRoom(s, p, cutoff) != [] && SweptRoom(s, p, cutoff) != s.rooms[p];
    assert p !in before;
    assert after == before + (if dirty then {p} else {});
  }

  /** A room's roster does not look at the other rooms. */
  lemma SameBroadcast(s: State, t: State, p: string)
    requires s.records == t.records && s.connections == t.connections && Ids(s, p) == Ids(t, p)
    ensures BroadcastRoster(s, p) == BroadcastRoster(t, p)
  {
    SameRoster(s, t, Ids(s, p));
    SameToEach(s, t, Ids(s, p), None, Roster(p, RosterOf(s, Ids(s, p))));
  }

  lemma {:induction false} SameRoster(s: State, t: State, ids: seq<nat>)
    requires s.records == t.records && s.connections == t.connections
    ensures RosterOf(s, ids) == RosterOf(t, ids)
  {
    if ids != [] {
      SameRoster(s, t, ids[1..]);
    }
  }

  lemma {:induction false} SameToEach(s: State, t: State, ids: seq<nat>, except: Option<nat>, message: Message)
    requires s.records == t.records && s.connections == t.connections
    ensures ToEach(s, ids, except, message) == ToEach(t, ids, except, message)
  {
    if ids != [] {
      SameToEach(s, t, ids[1..], except, message);
    }
  }

  function ShutDown(s: State): State {
    State(s.records, {}, map[])
  }

  /*
   * The handlers, updating the tables in place.
   */

  class RoomServer {
    var records: map<nat, Conn>
    var connections: set<nat>
    var rooms: map<string, seq<nat>>

    function View(): State
      reads this
    {
      State(records, connections, rooms)
    }

    constructor ()
      ensures View() == State(map[], {}, map[])
    {
      records, connections, rooms := map[], {}, map[];
    }

    method RosterFor(p: string) returns (members: seq<Presence>)
      ensures members == RosterOf(View(), Ids(View(), p))
    {
      members := [];
      if p !in rooms { return; }
      var ids, i := rooms[p], 0;
      while i < |ids|
        invariant 0 <= i <= |ids|
        invariant members + RosterOf(View(), ids[i..]) == RosterOf(View(), ids)
      {
        assert ids[i..][1..] == ids[i + 1..];
        if ids[i] in connections && ids[i] in records {
          members := members + [records[ids[i]].presence];
        }
        i := i + 1;
      }
    }

    /** Sends to everyone found in the room, except possibly one. */
    method SendToRoom(p: string, except: Option<nat>, message: Message) returns (sent: seq<Sent>)
      ensures sent == ToEach(View(), Ids(View(), p), except, message)
    {
      sent := [];
      if p !in rooms { return; }
      var ids, i := rooms[p], 0;
      while i < |ids|
        invariant 0 <= i <= |ids|
        invariant sent + ToEach(View(), ids[i..], except, message) == ToEach(View(), ids, except, message)
      {
        assert ids[i..][1..] == ids[i + 1..];
        if ids[i] in connections && ids[i] in records && except != Some(ids[i]) {
          sent := sent + [Sent(ids[i], message)];
        }
        i := i + 1;
      }
    }

    method SendRoster(p: string) returns (sent: seq<Sent>)
      ensures sent == BroadcastRoster(View(), p)
    {
      var members := RosterFor(p);
      sent := SendToRoom(p, None, Roster(p, members));
    }

    method OnConnect(id: nat, now: int)
      modifies this
      ensures View() == Connected(old(View()), id, now)
    {
      records := records[id := Conn([], Presence(id, None, now))];
      connections := connections + {id};
    }

    method OnJoin(id: nat, p: string, allowed: bool, focus: Option<string>, now: int) returns (sent: seq<Sent>)
      requires id in records
      modifies this
      ensures Effect(View(), sent) ==
              if allowed then Joined(old(View()), id, p, focus, now)
              else Effect(old(View()), if IsLive(old(View()), id) then [Sent(id, Forbidden(p))] else [])
    {
      if !allowed {
        return if id in connections then [Sent(id, Forbidden(p))] else [];
      }
      var c := records[id];
      records := records[id := c.(presence := c.presence.(focus := focus, lastSeen := now))];
      records := records[id := records[id].(rooms := With(c.rooms, p))];
      if p !in rooms {
        rooms := rooms[p := []];
      }
      rooms := rooms[p := With(rooms[p], id)];
      ghost var j := Joined(old(View()), id, p, focus, now).state;
      assert View() == j by { assert rooms == j.rooms && records == j.records; }
      sent := SendRoster(p);
    }

    method LeaveRoom(id: nat, p: string) returns (sent: seq<Sent>)
      requires id in records
      modifies this
      ensures Effect(View(), sent) == LeftRoom(old(View()), id, p)
    {
      sent := [];
      if p in rooms && id in rooms[p] {
        var ids := Without(rooms[p], id);
        records := records[id := records[id].(rooms := Without(records[id].rooms, p))];
        if ids == [] {
          rooms := rooms - {p};
        } else {
          rooms := rooms[p := ids];
          sent := SendRoster(p);
        }
      }
    }

    method OnPresence(id: nat, p: string, focus: Option<string>, now: int) returns (sent: seq<Sent>)
      requires id in records
      modifies this
      ensures Effect(View(), sent) == Present(old(View()), id, p, focus, now)
    {
      if p !in records[id].rooms { return []; }
      var c := records[id];
      records := records[id := c.(presence := c.presence.(focus := focus, lastSeen := now))];
      sent := SendRoster(p);
    }

    method OnEdit(id: nat, p: string, spec: string, now: int) returns (sent: seq<Sent>)
      requires id in records
      modifies this
      ensures Effect(View(), sent) == Edit(old(View()), id, p, spec, now)
    {
      if p !in records[id].rooms {
        return if id in connections then [Sent(id, NotInRoom)] else [];
      }
      if p !in rooms { return []; }
      var edits := SendToRoom(p, Some(id), Edited(p, id, now, spec));
      var c := records[id];
      records := records[id := c.(presence := c.presence.(lastSeen := now))];
      var rosters := SendRoster(p);
      sent := edits + rosters;
    }

    method OnClose(id: nat) returns (sent: seq<Sent>)
      requires id in records
      modifies this
      ensures Effect(View(), sent) == Closed(old(View()), id)
    {
      var todo := records[id].rooms;
      ghost var whole := LeftAll(View(), id, todo);
      sent := [];
      while todo != []
        invariant id in records
        invariant whole.state == LeftAll(View(), id, todo).state
        invariant whole.sent == sent + LeftAll(View(), id, todo).sent
        decreases |todo|
      {
        var more := LeaveRoom(id, todo[0]);
        sent := sent + more;
        todo := todo[1..];
      }
      connections := connections - {id};
    }

    /** The sweep; what it sends, room by room. */
    method Reap(cutoff: int) returns (sent: map<string, seq<Sent>>)
      modifies this
      ensures View() == Reaped(old(View()), cutoff)
      ensures sent == ReaperSends(old(View()), cutoff, {})
    {
      ghost var s := View();
      var todo := rooms.Keys;
      sent := map[];
      assert rooms == HalfReaped(s, cutoff, todo);
      while todo != {}
        invariant todo <= s.rooms.Keys
        invariant records == s.records && connections == s.connections
        invariant rooms == HalfReaped(s, cutoff, todo)
        invariant sent == ReaperSends(s, cutoff, todo)
        decreases |todo|
      {
        var p :| p in todo;
        HalfReapedStep(s, cutoff, todo, p);
        ReaperSendsStep(s, cutoff, todo, p);
        SweptSame(s, View(), p, s.rooms[p], cutoff);
        var ids := SweepRoom(p, rooms[p], cutoff);
        var dirty := ids != rooms[p];
        rooms := Restored(rooms, p, ids);
        if ids != [] && dirty {
          var roster := SendRoster(p);
          SameBroadcast(View(), Reaped(s, cutoff), p);
          sent := sent[p := roster];
        }
        todo := todo - {p};
      }
    }

    method SweepRoom(p: string, ids: seq<nat>, cutoff: int) returns (kept: seq<nat>)
      ensures kept == Swept(View(), p, ids, cutoff)
    {
      kept := [];
      var i := 0;
      while i < |ids|
        invariant 0 <= i <= |ids|
        invariant kept + Swept(View(), p, ids[i..], cutoff) == Swept(View(), p, ids, cutoff)
      {
        assert ids[i..][1..] == ids[i + 1..];
        if ids[i] in connections && ids[i] in records &&
           !(records[ids[i]].presence.lastSeen < cutoff && p !in records[ids[i]].rooms) {
          kept := kept + [ids[i]];
        }
        i := i + 1;
      }
    }

    method OnShutDown()
      modifies this
      ensures View() == ShutDown(old(View()))
    {
      connections, rooms := {}, map[];
    }
  }

  /*
   * All runs.
   */

  datatype Step =
    | Connect(id: nat, now: int)
    | Join(id: nat, p: string, allowed: bool, focus: Option<string>, now: int)
    | Leave(id: nat, p: string)
    | Focus(id: nat, p: string, focus: Option<string>, now: int)
    | SendEdit(id: nat, p: string, spec: string, now: int)
    | Close(id: nat)
    | Reap(cutoff: int)
    | Shutdown

  /** Connection ids are fresh; only a connection that was made sends messages or closes. */
  predicate Enabled(s: State, step: Step) {
    match step
    case Connect(id, _) => id !in s.records
    case Reap(_) => true
    case Shutdown => true
    case _ => step.id in s.records
  }

  /** A message is orderly if neither its socket's close handler nor the shutdown hook has run yet. */
  predicate Orderly(s: State, step: Step) {
    step.Connect? || step.Reap? || step.Shutdown? || step.id in s.connections
  }

  function Apply(s: State, step: Step): State
    requires Enabled(s, step)
  {
    match step
    case Connect(id, now) => Connected(s, id, now)
    case Join(id, p, allowed, focus, now) => if allowed then Joined(s, id, p, focus, now).state else s
    case Leave(id, p) => LeftRoom(s, id, p).state
    case Focus(id, p, focus, now) => Present(s, id, p, focus, now).state
    case SendEdit(id, p, spec, now) => Edit(s, id, p, spec, now).state
    case Close(id) => Closed(s, id).state
    case Reap(cutoff) => Reaped(s, cutoff)
    case Shutdown => ShutDown(s)
  }

  /** Only who joined is in the room, and every live connection that joined is. */
  ghost predicate Agrees(s: State, id: nat, p: string) {
    && (id in Ids(s, p) ==> id in s.records && p in s.records[id].rooms)
    && (IsLive(s, id) && p in s.records[id].rooms ==> id in Ids(s, p))
  }

  ghost predicate RecordOk(s: State, id: nat) {
    && (id in s.connections ==> id in s.records)
    && (id in s.records ==> s.records[id].presence.connection == id && Distinct(s.records[id].rooms))
  }

  ghost predicate RoomOk(s: State, p: string) {
    p in s.rooms ==> s.rooms[p] != [] && Distinct(s.rooms[p])
  }

  /** No closed connection is in the room. */
  ghost predicate NoGhost(s: State, id: nat, p: string) {
    id in Ids(s, p) ==> id in s.connections
  }

  ghost predicate Inv(s: State) {
    && (forall id: nat, p {:trigger Agrees(s, id, p)} :: Agrees(s, id, p))
    && (forall id: nat {:trigger RecordOk(s, id)} :: RecordOk(s, id))
    && (forall p {:trigger RoomOk(s, p)} :: RoomOk(s, p))
  }

  ghost predicate NoGhosts(s: State) {
    forall id: nat, p {:trigger NoGhost(s, id, p)} :: NoGhost(s, id, p)
  }

  lemma LeavingKeepsInv(s: State, id: nat, p: string)
    requires Inv(s) && id in s.records
    ensures var t := LeftRoom(s, id, p).state;
            Inv(t) && id !in Ids(t, p) && t.connections == s.connections
            && forall j, q :: j in Ids(t, q) ==> j in Ids(s, q)
  {
    var t := LeftRoom(s, id, p).state;
    assert RoomOk(s, p) && RecordOk(s, id);
    forall j: nat, q ensures Agrees(t, j, q) { assert Agrees(s, j, q); }
    forall j: nat ensures RecordOk(t, j) { assert RecordOk(s, j); }
    forall q ensures RoomOk(t, q) { assert RoomOk(s, q); }
  }

  lemma {:induction false} LeavingAllKeepsInv(s: State, id: nat, ps: seq<string>)
    requires Inv(s) && id in s.records
    ensures var t := LeftAll(s, id, ps).state;
            Inv(t) && t.connections == s.connections
            && (forall p :: p in ps ==> id !in Ids(t, p))
            && forall j, q :: j in Ids(t, q) ==> j in Ids(s, q)
    decreases |ps|
  {
    if ps != [] {
      var t := LeftRoom(s, id, ps[0]).state;
      LeavingKeepsInv(s, id, ps[0]);
      LeavingAllKeepsInv(t, id, ps[1..]);
      assert forall p :: p in ps <==> p == ps[0] || p in ps[1..];
    }
  }

  lemma ClosingKeepsInv(s: State, id: nat)
    requires Inv(s) && id in s.records
    ensures var t := Closed(s, id).state;
            Inv(t) && t.connections == s.connections - {id}
            && (forall q :: id !in Ids(t, q))
            && forall j, q :: j in Ids(t, q) ==> j in Ids(s, q)
  {
    var ps := s.records[id].rooms;
    var u, t := LeftAll(s, id, ps).state, Closed(s, id).state;
    LeavingAllKeepsInv(s, id, ps);
    forall q ensures id !in Ids(t, q) { assert Agrees(s, id, q) && Ids(t, q) == Ids(u, q); }
    forall j: nat, q ensures Agrees(t, j, q) { assert Agrees(u, j, q); }
    forall j: nat ensures RecordOk(t, j) { assert RecordOk(u, j); }
    forall q ensures RoomOk(t, q) { assert RoomOk(u, q); }
  }

  lemma {:induction false} SweptIs(s: State, p: string, ids: seq<nat>, cutoff: int)
    ensures forall id :: id in Swept(s, p, ids, cutoff) <==> id in ids && Spared(s, p, id, cutoff)
    ensures Distinct(ids) ==> Distinct(Swept(s, p, ids, cutoff))
    ensures (forall id :: id in ids ==> Spared(s, p, id, cutoff)) ==> Swept(s, p, ids, cutoff) == ids
  {
    if ids != [] {
      SweptIs(s, p, ids[1..], cutoff);
      assert ids == [ids[0]] + ids[1..];
      assert Distinct(ids) ==> Distinct(ids[1..]) && ids[0] !in ids[1..];
    }
  }

  /** In every state that satisfies the invariant the sweep takes out of a room
      exactly the ids of closed connections, however long the others were idle. */
  lemma SweepTakesGhosts(s: State, p: string, cutoff: int)
    requires Inv(s)
    ensures forall id: nat :: id in Ids(Reaped(s, cutoff), p) <==> id in Ids(s, p) && id in s.connections
    ensures RoomOk(Reaped(s, cutoff), p)
    ensures (forall id: nat :: NoGhost(s, id, p)) ==> SweptRoom(s, p, cutoff) == Ids(s, p)
  {
    SweptIs(s, p, Ids(s, p), cutoff);
    assert RoomOk(s, p);
    assert Ids(Reaped(s, cutoff), p) == SweptRoom(s, p, cutoff);
    forall id: nat | id in Ids(s, p) ensures Spared(s, p, id, cutoff) <==> id in s.connections {
      assert Agrees(s, id, p);
    }
    forall id: nat | id in Ids(s, p) && NoGhost(s, id, p) ensures Spared(s, p, id, cutoff) { }
  }

  lemma ReapingKeepsInv(s: State, cutoff: int)
    requires Inv(s)
    ensures Inv(Reaped(s, cutoff)) && NoGhosts(Reaped(s, cutoff))
  {
    var t := Reaped(s, cutoff);
    forall id: nat, p ensures Agrees(t, id, p) && NoGhost(t, id, p) {
      SweepTakesGhosts(s, p, cutoff);
      assert Agrees(s, id, p);
    }
    forall id: nat ensures RecordOk(t, id) { assert RecordOk(s, id); }
    forall p ensures RoomOk(t, p) { SweepTakesGhosts(s, p, cutoff); }
  }

  lemma StepKeepsInv(s: State, step: Step)
    requires Inv(s) && Enabled(s, step)
    ensures Inv(Apply(s, step))
    ensures NoGhosts(s) && Orderly(s, step) ==> NoGhosts(Apply(s, step))
  {
    var t := Apply(s, step);
    match step
    case Leave(id, p) =>
      LeavingKeepsInv(s, id, p);
      forall j: nat, q | NoGhosts(s) ensures NoGhost(t, j, q) { assert NoGhost(s, j, q); }
    case Close(id) =>
      ClosingKeepsInv(s, id);
      forall j: nat, q | NoGhosts(s) ensures NoGhost(t, j, q) { assert NoGhost(s, j, q); }
    case Reap(cutoff) => ReapingKeepsInv(s, cutoff);
    case _ => OtherStepKeepsInv(s, step);
  }

  lemma OtherStepKeepsInv(s: State, step: Step)
    requires Inv(s) && Enabled(s, step) && !step.Leave? && !step.Close? && !step.Reap?
    ensures Inv(Apply(s, step))
    ensures NoGhosts(s) && Orderly(s, step) ==> NoGhosts(Apply(s, step))
  {
    var t := Apply(s, step);
    forall j: nat, q ensures Agrees(t, j, q) {
      assert Agrees(s, j, q);
    }
    forall j: nat ensures RecordOk(t, j) { assert RecordOk(s, j); }
    forall q ensures RoomOk(t, q) { assert RoomOk(s, q); }
    forall j: nat, q | NoGhosts(s) && Orderly(s, step) ensures NoGhost(t, j, q) { assert NoGhost(s, j, q); }
  }

  ghost predicate Run(states: seq<State>, steps: seq<Step>) {
    && |states| == |steps| + 1 && states[0] == State(map[], {}, map[])
    && forall i :: 0 <= i < |steps| ==> Enabled(states[i], steps[i]) && states[i + 1] == Apply(states[i], steps[i])
  }

  /** No message came from a connection that was already forgotten. */
  ghost predicate AllOrderly(states: seq<State>, steps: seq<Step>, n: nat)
    requires n <= |steps| < |states|
  {
    forall i :: 0 <= i < n ==> Orderly(states[i], steps[i])
  }

  lemma {:induction false} RunKeepsInv(states: seq<State>, steps: seq<Step>, i: nat)
    requires Run(states, steps) && i < |states|
    ensures Inv(states[i])
    ensures AllOrderly(states, steps, i) ==> NoGhosts(states[i])
  {
    if i > 0 {
      RunKeepsInv(states, steps, i - 1);
      assert states[i - 1 + 1] == Apply(states[i - 1], steps[i - 1]);
      StepKeepsInv(states[i - 1], steps[i - 1]);
    }
  }

  /** In every run in which no message arrives late, the two tables agree: an id
      is in a room if and only if its connection is live and has the room among
      its own. No stored room is empty, in late runs either. */
  lemma RoomsAgree(states: seq<State>, steps: seq<Step>, i: nat, id: nat, p: string)
    requires Run(states, steps) && i < |states|
    ensures AllOrderly(states, steps, i) ==>
        (id in Ids(states[i], p) <==> IsLive(states[i], id) && p in states[i].records[id].rooms)
    ensures IsLive(states[i], id) ==> (id in Ids(states[i], p) <==> p in states[i].records[id].rooms)
    ensures p in states[i].rooms ==> states[i].rooms[p] != []
  {
    var s := states[i];
    RunKeepsInv(states, steps, i);
    assert Agrees(s, id, p) && RecordOk(s, id) && RoomOk(s, p);
    if AllOrderly(states, steps, i) { assert NoGhost(s, id, p); }
  }

  /** In every run the reaper takes out of a room exactly the closed connections
      that a late message left behind. It never takes out a live member, however
      long it was idle. */
  lemma ReaperOnlyTakesGhosts(states: seq<State>, steps: seq<Step>, i: nat, cutoff: int, id: nat, p: string)
    requires Run(states, steps) && i < |states|
    ensures id in Ids(Reaped(states[i], cutoff), p) <==> id in Ids(states[i], p) && id in states[i].connections
  {
    RunKeepsInv(states, steps, i);
    SweepTakesGhosts(states[i], p, cutoff);
  }

  /** So it changes something if and only if there is one, and without late
      messages it never does and sends nothing. */
  lemma ReaperIdlesWithoutGhosts(states: seq<State>, steps: seq<Step>, i: nat, cutoff: int)
    requires Run(states, steps) && i < |states|
    ensures Reaped(states[i], cutoff) == states[i] <==> NoGhosts(states[i])
    ensures AllOrderly(states, steps, i) ==>
        Reaped(states[i], cutoff) == states[i] && ReaperSends(states[i], cutoff, {}) == map[]
  {
    var s := states[i];
    RunKeepsInv(states, steps, i);
    if NoGhosts(s) {
      NothingToReap(s, cutoff);
    } else {
      var id: nat, p :| !NoGhost(s, id, p);
      SweepTakesGhosts(s, p, cutoff);
    }
  }

  lemma NothingToReap(s: State, cutoff: int)
    requires Inv(s) && NoGhosts(s)
    ensures Reaped(s, cutoff) == s && ReaperSends(s, cutoff, {}) == map[]
  {
    forall p | p in s.rooms ensures SweptRoom(s, p, cutoff) == s.rooms[p] && s.rooms[p] != [] {
      forall id: nat ensures NoGhost(s, id, p) { }
      SweepTakesGhosts(s, p, cutoff);
      assert RoomOk(s, p);
    }
    assert Reaped(s, cutoff).rooms == s.rooms;
  }

  /** Such a message exists: a join that arrives after its connection was
      forgotten puts the connection in the room, where no roster shows it; the
      next sweep takes it out and leaves every room as it was. */
  lemma LateJoinLeavesGhost(states: seq<State>, steps: seq<Step>, i: nat, step: Step, cutoff: int)
    requires Run(states, steps) && i < |states| && AllOrderly(states, steps, i)
    requires step.Join? && step.allowed && Enabled(states[i], step) && step.id !in states[i].connections
    ensures var t := Apply(states[i], step);
            && step.id in Ids(t, step.p) && !IsLive(t, step.id)
            && (forall p, id: nat :: id in Ids(Reaped(t, cutoff), p) <==> id in Ids(states[i], p))
            && NoGhosts(Reaped(t, cutoff))
  {
    var s, t := states[i], Apply(states[i], step);
    RunKeepsInv(states, steps, i);
    StepKeepsInv(s, step);
    ReapingKeepsInv(t, cutoff);
    forall p, id: nat ensures id in Ids(Reaped(t, cutoff), p) <==> id in Ids(s, p) {
      SweepTakesGhosts(t, p, cutoff);
      assert NoGhost(s, id, p);
    }
  }

  /** The shutdown hook makes such a run: it forgets a connection whose socket
      is still closing, and a join that socket had sent is processed. */
  lemma JoinAfterShutdown(id: nat, p: string, focus: Option<string>, start: int, now: int, cutoff: int)
    returns (states: seq<State>, steps: seq<Step>)
    ensures Run(states, steps) && steps == [Connect(id, start), Shutdown, Join(id, p, true, focus, now)]
    ensures var s, t := states[2], states[3];
            && s.rooms == map[] && t.rooms == map[p := [id]] && t.connections == {}
            && RosterOf(t, Ids(t, p)) == [] && Reaped(t, cutoff).rooms == map[]
  {
    steps := [Connect(id, start), Shutdown, Join(id, p, true, focus, now)];
    var s0 := State(map[], {}, map[]);
    var s1 := Apply(s0, steps[0]);
    var s2 := Apply(s1, steps[1]);
    states := [s0, s1, s2, Apply(s2, steps[2])];
    var t := states[3];
    assert t.rooms[p] == With([], id) == [id];
    assert [id][1..] == [] && !IsLive(t, id);
    assert Swept(t, p, [id], cutoff) == [];
  }

  /*
   * Who is told what.
   */

  function Listed(members: seq<Presence>): seq<nat> {
    if members == [] then [] else [members[0].connection] + Listed(members[1..])
  }

  /** The addressees of that very message, in order. */
  function Addressees(sent: seq<Sent>, m: Message): seq<nat> {
    if sent == [] then []
    else if sent[0].message == m then [sent[0].to] + Addressees(sent[1..], m)
    else Addressees(sent[1..], m)
  }

  /** The ids a connection is found for, except possibly one. */
  function Found(s: State, ids: seq<nat>, except: Option<nat>): (r: seq<nat>)
    ensures forall id :: id in r <==> id in ids && IsLive(s, id) && except != Some(id)
    ensures Distinct(ids) ==> Distinct(r)
  {
    if ids == [] then []
    else
      var rest := Found(s, ids[1..], except);
      assert ids == [ids[0]] + ids[1..];
      assert Distinct(ids) ==> Distinct(ids[1..]) && ids[0] !in ids[1..];
      if IsLive(s, ids[0]) && except != Some(ids[0]) then [ids[0]] + rest else rest
  }

  lemma {:induction false} RosterOfFound(s: State, ids: seq<nat>)
    requires forall id :: id in ids && IsLive(s, id) ==> s.records[id].presence.connection == id
    ensures Listed(RosterOf(s, ids)) == Found(s, ids, None)
    ensures forall m :: m in RosterOf(s, ids) ==>
        m.connection in s.records && m == s.records[m.connection].presence
  {
    if ids != [] {
      RosterOfFound(s, ids[1..]);
      var rest := RosterOf(s, ids[1..]);
      if IsLive(s, ids[0]) {
        var r := RosterOf(s, ids);
        assert r[1..] == rest;
        assert forall m :: m in r <==> m == r[0] || m in rest;
      }
    }
  }

  lemma {:induction false} ToEachFound(s: State, ids: seq<nat>, except: Option<nat>, message: Message, m: Message)
    ensures Addressees(ToEach(s, ids, except, message), m) == if m == message then Found(s, ids, except) else []
    ensures forall e :: e in ToEach(s, ids, except, message) ==> e.message == message
  {
    if ids != [] {
      ToEachFound(s, ids[1..], except, message, m);
      var rest := ToEach(s, ids[1..], except, message);
      if IsLive(s, ids[0]) && except != Some(ids[0]) {
        assert ToEach(s, ids, except, message)[1..] == rest;
      }
    }
  }

  lemma {:induction false} AddresseesConcat(a: seq<Sent>, b: seq<Sent>, m: Message)
    ensures Addressees(a + b, m) == Addressees(a, m) + Addressees(b, m)
  {
    if a == [] {
      assert a + b == b;
    } else {
      AddresseesConcat(a[1..], b, m);
      assert (a + b)[1..] == a[1..] + b;
    }
  }

  /** In every run, late messages or not, the roster of a room lists exactly the
      live connections that have the room among their own, each once and with
      its current presence. */
  lemma RosterListsLiveMembers(states: seq<State>, steps: seq<Step>, i: nat, p: string)
    requires Run(states, steps) && i < |states|
    ensures var s, r := states[i], RosterOf(states[i], Ids(states[i], p));
            && (forall id: nat :: id in Listed(r) <==> IsLive(s, id) && p in s.records[id].rooms)
            && Distinct(Listed(r))
            && forall m :: m in r ==> m.connection in s.records && m == s.records[m.connection].presence
  {
    var s := states[i];
    RunKeepsInv(states, steps, i);
    forall id | id in Ids(s, p) && IsLive(s, id) ensures s.records[id].presence.connection == id {
      assert RecordOk(s, id);
    }
    RosterOfFound(s, Ids(s, p));
    assert RoomOk(s, p);
    forall id: nat ensures id in Listed(RosterOf(s, Ids(s, p))) <==> IsLive(s, id) && p in s.records[id].rooms {
      assert Agrees(s, id, p);
    }
  }

  /** In every run an edit from a live member goes once to each other live
      member of the room and to nobody else; then each member, the sender
      included, gets the roster that shows the sender's activity. An edit from
      outside the room reaches nobody. */
  lemma EditReachesOthers(states: seq<State>, steps: seq<Step>, i: nat, id: nat, p: string, spec: string, now: int)
    requires Run(states, steps) && i < |states| && IsLive(states[i], id)
    ensures var s, e := states[i], Edit(states[i], id, p, spec, now);
            var edit := Edited(p, id, now, spec);
            var roster := Roster(p, RosterOf(e.state, Ids(e.state, p)));
            if p in s.records[id].rooms then
              && (forall j: nat :: j in Addressees(e.sent, edit) <==>
                                   j != id && IsLive(s, j) && p in s.records[j].rooms)
              && Distinct(Addressees(e.sent, edit))
              && (forall j: nat :: j in Addressees(e.sent, roster) <==> IsLive(s, j) && p in s.records[j].rooms)
              && Distinct(Addressees(e.sent, roster))
              && (forall m :: m in e.sent ==> m.message == edit || m.message == roster)
              && e.state.records[id].presence in roster.members && e.state.records[id].presence.lastSeen == now
            else e == Effect(s, [Sent(id, NotInRoom)])
  {
    var s, e := states[i], Edit(states[i], id, p, spec, now);
    RunKeepsInv(states, steps, i);
    assert Agrees(s, id, p) && RoomOk(s, p);
    if p in s.records[id].rooms {
      var t, ids := e.state, Ids(s, p);
      var edit, roster := Edited(p, id, now, spec), Roster(p, RosterOf(t, ids));
      forall j: nat ensures Agrees(s, j, p) && IsLive(s, j) == IsLive(t, j) { }
      forall m | m == edit || m == roster
        ensures Addressees(e.sent, m) == if m == edit then Found(s, ids, Some(id)) else Found(t, ids, None)
      {
        AddresseesConcat(ToEach(s, ids, Some(id), edit), BroadcastRoster(t, p), m);
        ToEachFound(s, ids, Some(id), edit, m);
        ToEachFound(t, ids, None, roster, m);
      }
      ToEachFound(s, ids, Some(id), edit, edit);
      ToEachFound(t, ids, None, roster, roster);
      OnRoster(t, ids, id);
    }
  }

  lemma {:induction false} OnRoster(s: State, ids: seq<nat>, id: nat)
    requires id in ids && IsLive(s, id)
    ensures s.records[id].presence in RosterOf(s, ids)
  {
    if ids[0] != id {
      OnRoster(s, ids[1..], id);
    }
  }
}
