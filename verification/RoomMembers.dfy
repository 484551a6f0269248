/**
  Who is in a Builder room, what is known of them and who is told, as functions
  of what the connections did: in every run of the WebSocket server, late
  messages and sweeps of the reaper included.
 */
module RoomMembers {
  import opened BuilderRooms
  import opened Sorting
  import opened Wrappers

  /*
   * Who is connected.
   */

  lemma StepConnections(s: State, step: Step)
    requires Inv(s) && Enabled(s, step)
    ensures Apply(s, step).connections ==
            match step
            case Connect(id, _) => s.connections + {id}
            case Close(id) => s.connections - {id}
            case Shutdown => {}
            case _ => s.connections
    ensures s.records.Keys <= Apply(s, step).records.Keys
  {
    match step
    case Leave(id, p) => LeavingKeepsInv(s, id, p);
    case Close(id) =>
      ClosingKeepsInv(s, id);
      LeftAllRecords(s, id, s.records[id].rooms);
    case _ =>
  }

  /** Leaving rooms changes nobody else's record. */
  lemma {:induction false} LeftAllRecords(s: State, id: nat, ps: seq<string>)
    requires id in s.records
    ensures var t := LeftAll(s, id, ps).state;
            && t.records.Keys == s.records.Keys
            && forall j: nat :: j in s.records && j != id ==> t.records[j] == s.records[j]
    decreases |ps|
  {
    if ps != [] { LeftAllRecords(LeftRoom(s, id, ps[0]).state, id, ps[1..]); }
  }

  /** Step `j` connects `id`, and up to state `i` it is not closed and the server not shut down. */
  ghost predicate ConnectedSince(steps: seq<Step>, i: nat, id: nat, j: nat)
    requires i <= |steps|
  {
    j < i && steps[j].Connect? && steps[j].id == id &&
    forall k :: j < k < i ==> steps[k] != Close(id) && steps[k] != Shutdown
  }

  /** In every run a connection is live if and only if it was made, has not been
      closed and the server has not been shut down since. */
  lemma {:induction false} LiveIff(states: seq<State>, steps: seq<Step>, i: nat, id: nat)
    requires Run(states, steps) && i < |states|
    ensures IsLive(states[i], id) <==> exists j: nat :: ConnectedSince(steps, i, id, j)
  {
    RunKeepsInv(states, steps, i);
    assert RecordOk(states[i], id);
    if i > 0 {
      var h: nat := i - 1;
      LiveIff(states, steps, h, id);
      RunKeepsInv(states, steps, h);
      assert RecordOk(states[h], id) && states[h + 1] == Apply(states[h], steps[h]);
      StepConnections(states[h], steps[h]);
      if steps[h].Connect? && steps[h].id == id {
        assert ConnectedSince(steps, i, id, h);
      } else {
        forall j: nat ensures ConnectedSince(steps, i, id, j) <==>
          ConnectedSince(steps, h, id, j) && steps[h] != Close(id) && steps[h] != Shutdown { }
      }
    }
  }

  /*
   * Who is in a room.
   */

  /** Step `j` lets `id` join the room, and up to state `i` it does not leave it. */
  ghost predicate JoinedSince(steps: seq<Step>, i: nat, id: nat, p: string, j: nat)
    requires i <= |steps|
  {
    j < i && steps[j].Join? && steps[j].id == id && steps[j].p == p && steps[j].allowed &&
    forall k :: j < k < i ==> steps[k] != Leave(id, p)
  }

  lemma StepMembership(s: State, step: Step, id: nat, p: string)
    requires Inv(s) && Enabled(s, step) && IsLive(s, id) && IsLive(Apply(s, step), id)
    ensures p in Apply(s, step).records[id].rooms <==>
            if step.Join? && step.id == id && step.p == p && step.allowed then true
            else step != Leave(id, p) && p in s.records[id].rooms
  {
    match step
    case Leave(j, q) => assert Agrees(s, j, q);
    case Close(j) =>
      ClosingKeepsInv(s, j);
      LeftAllRecords(s, j, s.records[j].rooms);
    case _ =>
  }

  lemma {:induction false} RecordsGrow(states: seq<State>, steps: seq<Step>, j: nat, i: nat)
    requires Run(states, steps) && j <= i < |states|
    ensures states[j].records.Keys <= states[i].records.Keys
    decreases i - j
  {
    if j < i {
      RecordsGrow(states, steps, j, i - 1);
      RunKeepsInv(states, steps, i - 1);
      assert states[i - 1 + 1] == Apply(states[i - 1], steps[i - 1]);
      StepConnections(states[i - 1], steps[i - 1]);
    }
  }

  lemma JoinedOneMore(steps: seq<Step>, h: nat, i: nat, id: nat, p: string)
    requires i == h + 1 <= |steps|
    ensures (exists j: nat :: JoinedSince(steps, i, id, p, j)) <==>
            if steps[h].Join? && steps[h].id == id && steps[h].p == p && steps[h].allowed then true
            else steps[h] != Leave(id, p) && exists j: nat :: JoinedSince(steps, h, id, p, j)
  {
    if steps[h].Join? && steps[h].id == id && steps[h].p == p && steps[h].allowed {
      assert JoinedSince(steps, i, id, p, h);
    } else {
      forall j: nat ensures JoinedSince(steps, i, id, p, j) <==>
        JoinedSince(steps, h, id, p, j) && steps[h] != Leave(id, p) { }
    }
  }

  lemma NotYetJoined(states: seq<State>, steps: seq<Step>, h: nat, id: nat, p: string, j: nat)
    requires Run(states, steps) && h < |steps| && steps[h].Connect? && steps[h].id == id
    ensures !JoinedSince(steps, h + 1, id, p, j)
  {
    if JoinedSince(steps, h + 1, id, p, j) {
      assert Enabled(states[j], steps[j]) && Enabled(states[h], steps[h]);
      RecordsGrow(states, steps, j, h);
    }
  }

  /** In every run a live connection is in a room if and only if it was let in
      and has not left since: not what others do, nor the reaper, nor how long it
      was idle makes a difference. */
  lemma {:induction false} MemberIff(states: seq<State>, steps: seq<Step>, i: nat, id: nat, p: string)
    requires Run(states, steps) && i < |states| && IsLive(states[i], id)
    ensures id in Ids(states[i], p) <==> exists j: nat :: JoinedSince(steps, i, id, p, j)
  {
    RunKeepsInv(states, steps, i);
    assert Agrees(states[i], id, p);
    if i > 0 {
      var h: nat := i - 1;
      RunKeepsInv(states, steps, h);
      assert RecordOk(states[h], id) && Agrees(states[h], id, p) && states[h + 1] == Apply(states[h], steps[h]);
      StepConnections(states[h], steps[h]);
      if IsLive(states[h], id) {
        MemberIff(states, steps, h, id, p);
        StepMembership(states[h], steps[h], id, p);
        JoinedOneMore(steps, h, i, id, p);
      } else {
        assert steps[h].Connect? && steps[h].id == id;
        forall j: nat ensures !JoinedSince(steps, i, id, p, j) { NotYetJoined(states, steps, h, id, p, j); }
      }
    }
  }

  /*
   * What is known of a member.
   */

  /** In every run a live connection's presence is what its own last step made it:
      fresh when it connected, the focus and the time of its last join or presence
      message, the time of its last edit; messages from outside the room and
      other connections' steps leave it. */
  lemma PresenceIsOwn(states: seq<State>, steps: seq<Step>, i: nat, id: nat)
    requires Run(states, steps) && i < |steps| && IsLive(states[i + 1], id)
    ensures id in states[i].records || steps[i].Connect?
    ensures states[i + 1].records[id].presence ==
            match steps[i]
            case Connect(j, now) => if j == id then Presence(id, None, now) else states[i].records[id].presence
            case Join(j, _, allowed, focus, now) =>
              if j == id && allowed then Presence(id, focus, now) else states[i].records[id].presence
            case Focus(j, p, focus, now) =>
              if j == id && id in Ids(states[i], p) then Presence(id, focus, now) else states[i].records[id].presence
            case SendEdit(j, p, _, now) =>
              var was := states[i].records[id].presence;
              if j == id && id in Ids(states[i], p) then Presence(id, was.focus, now) else was
            case _ => states[i].records[id].presence
  {
    var s, step := states[i], steps[i];
    RunKeepsInv(states, steps, i);
    assert Enabled(s, step) && states[i + 1] == Apply(s, step) && RecordOk(s, id);
    StepConnections(s, step);
    match step
    case Focus(j, p, _, _) => assert Agrees(s, j, p);
    case SendEdit(j, p, _, _) => assert Agrees(s, j, p);
    case Close(j) => LeftAllRecords(s, j, s.records[j].rooms);
    case _ =>
  }

  /*
   * Who is told.
   */

  /** Each live member of the room is sent its roster once, and nothing else is sent. */
  ghost predicate TellsRoom(s: State, p: string, sent: seq<Sent>) {
    var roster := Roster(p, RosterOf(s, Ids(s, p)));
    && (forall e :: e in sent ==> e.message == roster)
    && Distinct(Addressees(sent, roster))
    && forall j: nat :: j in Addressees(sent, roster) <==> IsLive(s, j) && p in s.records[j].rooms
  }

  lemma BroadcastTells(s: State, p: string)
    requires Inv(s)
    ensures TellsRoom(s, p, BroadcastRoster(s, p))
  {
    var roster := Roster(p, RosterOf(s, Ids(s, p)));
    ToEachFound(s, Ids(s, p), None, roster, roster);
    assert RoomOk(s, p);
    forall j: nat ensures j in Found(s, Ids(s, p), None) <==> IsLive(s, j) && p in s.records[j].rooms {
      assert Agrees(s, j, p);
    }
  }

  /** An edit, from wherever it comes, sends nothing to a connection that is not live. */
  lemma EditTellsLiveOnly(s: State, id: nat, p: string, spec: string, now: int)
    requires id in s.records
    ensures forall e :: e in Edit(s, id, p, spec, now).sent ==> IsLive(s, e.to)
  {
    if p in s.records[id].rooms && p in s.rooms {
      var t := Edit(s, id, p, spec, now).state;
      ToEachLive(s, s.rooms[p], Some(id), Edited(p, id, now, spec));
      ToEachLive(t, Ids(t, p), None, Roster(p, RosterOf(t, Ids(t, p))));
    }
  }

  lemma {:induction false} ToEachLive(s: State, ids: seq<nat>, except: Option<nat>, message: Message)
    ensures forall e :: e in ToEach(s, ids, except, message) ==> IsLive(s, e.to)
  {
    if ids != [] { ToEachLive(s, ids[1..], except, message); }
  }

  /** In every run whoever may join a room sees itself on the roster that all its
      live members, itself included, are sent; a presence message from a member
      is answered the same way, one from outside the room not at all. */
  lemma JoinAndFocusTell(states: seq<State>, steps: seq<Step>, i: nat, id: nat, p: string, focus: Option<string>,
                         now: int)
    requires Run(states, steps) && i < |states| && IsLive(states[i], id)
    ensures var e := Joined(states[i], id, p, focus, now);
            TellsRoom(e.state, p, e.sent) && id in Ids(e.state, p) &&
            Presence(id, focus, now) in RosterOf(e.state, Ids(e.state, p))
    ensures var e := Present(states[i], id, p, focus, now);
            if id in Ids(states[i], p) then
              TellsRoom(e.state, p, e.sent) && Presence(id, focus, now) in RosterOf(e.state, Ids(e.state, p))
            else e == Effect(states[i], [])
  {
    var s := states[i];
    RunKeepsInv(states, steps, i);
    assert RecordOk(s, id) && Agrees(s, id, p);
    var t := Joined(s, id, p, focus, now).state;
    StepKeepsInv(s, Join(id, p, true, focus, now));
    BroadcastTells(t, p);
    OnRoster(t, Ids(t, p), id);
    if id in Ids(s, p) {
      var u := Present(s, id, p, focus, now).state;
      StepKeepsInv(s, Focus(id, p, focus, now));
      BroadcastTells(u, p);
      OnRoster(u, Ids(u, p), id);
    }
  }

  /** In every run whoever leaves a room is told no more: the remaining live
      members are sent a roster without it. A leave from outside does nothing. */
  lemma LeaveTells(states: seq<State>, steps: seq<Step>, i: nat, id: nat, p: string)
    requires Run(states, steps) && i < |states| && id in states[i].records
    ensures var (s, e) := (states[i], LeftRoom(states[i], id, p));
            if id in Ids(s, p) then
              && TellsRoom(e.state, p, e.sent) && id !in Listed(RosterOf(e.state, Ids(e.state, p)))
              && forall j: nat :: j in Ids(e.state, p) <==> j in Ids(s, p) && j != id
            else e == Effect(s, [])
  {
    var s := states[i];
    RunKeepsInv(states, steps, i);
    if id in Ids(s, p) {
      var t := LeftRoom(s, id, p).state;
      LeavingKeepsInv(s, id, p);
      BroadcastTells(t, p);
      forall j | j in Ids(t, p) && IsLive(t, j) ensures t.records[j].presence.connection == j {
        assert RecordOk(t, j);
      }
      RosterOfFound(t, Ids(t, p));
    }
  }

  /** A message that shows its addressee the room without the one who left. */
  ghost predicate ShowsGone(sent: seq<Sent>, to: nat, p: string, gone: nat) {
    exists e :: e in sent && e.to == to && e.message.Roster? && e.message.pipeline == p &&
      gone !in Listed(e.message.members)
  }

  lemma {:induction false} LeftAllTells(s: State, id: nat, ps: seq<string>, p: string, j: nat)
    requires Inv(s) && id in s.records && p in ps && Distinct(ps) && id in Ids(s, p)
    requires j != id && IsLive(s, j) && j in Ids(s, p)
    ensures ShowsGone(LeftAll(s, id, ps).sent, j, p, id)
    decreases |ps|
  {
    var first := LeftRoom(s, id, ps[0]);
    var rest := LeftAll(first.state, id, ps[1..]);
    LeavingKeepsInv(s, id, ps[0]);
    assert ps == [ps[0]] + ps[1..];
    if p == ps[0] {
      var t, roster := first.state, Roster(p, RosterOf(first.state, Ids(first.state, p)));
      BroadcastTells(t, p);
      assert Agrees(s, j, p) && Agrees(t, j, p);
      AddresseeIsSent(first.sent, roster, j);
      forall k | k in Ids(t, p) && IsLive(t, k) ensures t.records[k].presence.connection == k { assert RecordOk(t, k); }
      RosterOfFound(t, Ids(t, p));
      assert Sent(j, roster) in first.sent + rest.sent;
    } else {
      LeftAllTells(first.state, id, ps[1..], p, j);
      var e :| e in rest.sent && e.to == j && e.message.Roster? && e.message.pipeline == p &&
        id !in Listed(e.message.members);
      assert e in first.sent + rest.sent;
    }
  }

  lemma {:induction false} AddresseeIsSent(sent: seq<Sent>, m: Message, j: nat)
    requires j in Addressees(sent, m)
    ensures Sent(j, m) in sent
  {
    if sent[0] != Sent(j, m) {
      AddresseeIsSent(sent[1..], m, j);
    }
  }

  /** In every run everyone who shared a room with a live connection that closes
      is shown that room without it; afterwards it is in no room and not live. */
  lemma CloseTells(states: seq<State>, steps: seq<Step>, i: nat, id: nat, p: string, j: nat)
    requires Run(states, steps) && i < |states| && IsLive(states[i], id)
    ensures var e := Closed(states[i], id);
            && !IsLive(e.state, id) && (forall q :: id !in Ids(e.state, q))
            && (id in Ids(states[i], p) && j in Ids(states[i], p) && j != id && IsLive(states[i], j) ==>
                  ShowsGone(e.sent, j, p, id) && j in Ids(e.state, p))
  {
    var s := states[i];
    RunKeepsInv(states, steps, i);
    assert RecordOk(s, id) && Agrees(s, id, p) && Agrees(s, j, p);
    ClosingKeepsInv(s, id);
    if id in Ids(s, p) && j in Ids(s, p) && j != id && IsLive(s, j) {
      LeftAllTells(s, id, s.records[id].rooms, p, j);
      LeftAllRecords(s, id, s.records[id].rooms);
      assert Agrees(Closed(s, id).state, j, p);
    }
  }
}
