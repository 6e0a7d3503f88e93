/** Rejoining after a reconnect: which join frames the id event sends, and when they are all that are needed. */
module ClientRejoin {
  import opened Wrappers
  import opened ClientModel
  import opened ClientRuns

  /** The rooms for which the manager thread has sent join frames, in order. */
  function ManagerJoins(sent: seq<Frame>): seq<string> {
    if sent == [] then []
    else
      var last := sent[|sent| - 1];
      var before := ManagerJoins(sent[..|sent| - 1]);
      if last.JoinRoom? && last.sender.Manager? then before + [last.roomId] else before
  }

  predicate Rejoins(room: RoomObject) {
    room.id != "" && !room.joined
  }

  /** The ids of the listed rooms that need a join frame, in order. */
  function ToRejoin(rooms: seq<RoomObject>, rest: seq<nat>): seq<string> {
    if rest == [] then []
    else if rest[0] < |rooms| && Rejoins(rooms[rest[0]]) then [rooms[rest[0]].id] + ToRejoin(rooms, rest[1..])
    else ToRejoin(rooms, rest[1..])
  }

  /** The ids of the listed rooms that have one. */
  function NamedRooms(rooms: seq<RoomObject>, rest: seq<nat>): seq<string> {
    if rest == [] then []
    else if rest[0] < |rooms| && rooms[rest[0]].id != "" then [rooms[rest[0]].id] + NamedRooms(rooms, rest[1..])
    else NamedRooms(rooms, rest[1..])
  }

  function InHand(c: Client): seq<string> {
    if Manager in c.joins && !c.joins[Manager].sent && c.joins[Manager].room < |c.rooms| && !c.rooms[c.joins[Manager].room].joined
    then [c.joins[Manager].roomId] else []
  }

  /** Sent, about to be sent, and still to come. */
  function Tally(c: Client): seq<string>
    requires c.phase.Rejoining?
  {
    ManagerJoins(c.sent) + (InHand(c) + ToRejoin(c.rooms, c.phase.rest))
  }

  // ---------- the id event ----------

  lemma {:induction false} MoreRoomsSameRest(rooms: seq<RoomObject>, room: RoomObject, rest: seq<nat>)
    requires forall h | h in rest :: h < |rooms|
    ensures ToRejoin(rooms + [room], rest) == ToRejoin(rooms, rest)
  {
    if rest == [] {
    } else {
      assert rest[0] in rest && forall h | h in rest[1..] :: h in rest;
      MoreRoomsSameRest(rooms, room, rest[1..]);
    }
  }

  lemma SentMore(sent: seq<Frame>, f: Frame)
    ensures ManagerJoins(sent + [f]) == ManagerJoins(sent) + if f.JoinRoom? && f.sender.Manager? then [f.roomId] else []
  {
    assert (sent + [f])[..|sent|] == sent;
    assert ManagerJoins(sent) + [] == ManagerJoins(sent);
  }

  lemma RestInRange(c: Client)
    requires Inv(c) && c.phase.Rejoining?
    ensures forall h | h in c.phase.rest :: h < |c.rooms|
  {
    ListedKnown(c.rooms, c.listed);
  }

  lemma CreateTally(c: Client, uid: string)
    requires Inv(c) && c.phase.Rejoining?
    ensures CreateRoom(c, uid).phase == c.phase && Tally(CreateRoom(c, uid)) == Tally(c)
  {
    hide Inv;
    RestInRange(c);
    ManagerInRange(c);
    MoreRoomsSameRest(c.rooms, RoomObject("", false), c.phase.rest);
    SentMore(c.sent, CreateNewRoom(uid));
    assert ManagerJoins(c.sent) + [] == ManagerJoins(c.sent);
  }

  lemma ManagerInRange(c: Client)
    requires Inv(c)
    ensures Manager in c.joins ==> c.joins[Manager].room < |c.rooms|
  {
  }

  lemma JoinTally(c: Client, n: nat, roomId: string)
    requires Inv(c) && c.phase.Rejoining?
    ensures StartJoin(c, User(n), roomId).phase == c.phase && Tally(StartJoin(c, User(n), roomId)) == Tally(c)
  {
    hide Inv;
    RestInRange(c);
    ManagerInRange(c);
    MoreRoomsSameRest(c.rooms, RoomObject(roomId, false), c.phase.rest);
  }

  lemma SendTally(c: Client, t: Tid)
    requires Inv(c) && c.phase.Rejoining? && Enabled(c, SendJoin(t))
    ensures SendIfNotJoined(c, t).phase == c.phase && Tally(SendIfNotJoined(c, t)) == Tally(c)
  {
    hide ToRejoin, ManagerJoins, Inv;
    var j, rest := c.joins[t], ToRejoin(c.rooms, c.phase.rest);
    SentMore(c.sent, JoinRoom(t, j.roomId));
    RejoiningIsConnected(c);
    FromHandToSent(ManagerJoins(c.sent), j.roomId, rest);
    assert ManagerJoins(c.sent) + [] == ManagerJoins(c.sent);
  }

  lemma RejoiningIsConnected(c: Client)
    requires Inv(c) && c.phase.Rejoining?
    ensures c.connected
  {
  }

  lemma FromHandToSent(sent: seq<string>, id: string, rest: seq<string>)
    ensures (sent + [id]) + ([] + rest) == sent + ([id] + rest)
  {
  }

  lemma NextTally(c: Client)
    requires Inv(c) && Enabled(c, RejoinNext)
    ensures Next(c, RejoinNext).phase.Rejoining? && Tally(Next(c, RejoinNext)) == Tally(c)
  {
    hide Inv;
    var rest := ToRejoin(c.rooms, c.phase.rest[1..]);
    assert [] + rest == rest && [] + ([c.rooms[c.phase.rest[0]].id] + rest) == [c.rooms[c.phase.rest[0]].id] + rest;
  }

  /** Nothing that any thread does meanwhile adds or takes a join frame of the manager's. */
  lemma StepTally(c: Client, s: Step)
    requires Inv(c) && c.phase.Rejoining? && Enabled(c, s) && s != RejoinDone
    ensures Next(c, s).phase.Rejoining? && Tally(Next(c, s)) == Tally(c)
  {
    hide Inv, Tally, CreateRoom, StartJoin, SendIfNotJoined;
    match s
    case Create(uid) => CreateTally(c, uid);
    case Join(n, roomId) => JoinTally(c, n, roomId);
    case SendJoin(t) => SendTally(c, t);
    case List(t) => ListTally(c, t);
    case RejoinNext => NextTally(c);
  }

  lemma ListTally(c: Client, t: Tid)
    requires c.phase.Rejoining? && Enabled(c, List(t))
    ensures ListRoom(c, t).phase == c.phase && Tally(ListRoom(c, t)) == Tally(c)
  {
  }

  lemma {:induction false} RunTally(c: Client, steps: seq<Step>)
    requires Inv(c) && c.phase.Rejoining? && Run(c, steps).Some? && RejoinDone !in steps
    ensures Run(c, steps).value.phase.Rejoining? && Tally(Run(c, steps).value) == Tally(c)
    decreases |steps|
  {
    hide Inv, Enabled, Next, Tally;
    if steps == [] {
    } else {
      assert steps[0] in steps;
      NextKeepsInv(c, steps[0]);
      StepTally(c, steps[0]);
      RunTally(Next(c, steps[0]), steps[1..]);
    }
  }

  predicate Rejoined(c: Client) {
    c.phase == Rejoining([]) && Manager !in c.joins
  }

  /** The id event sends one join frame for each listed room with an id that is not marked as joined, in the order of the list, and no other. */
  lemma IdEventSends(steps: seq<Step>, more: seq<Step>)
    requires Run(START, steps).Some? && Enabled(Run(START, steps).value, IdSet)
    requires var c := Next(Run(START, steps).value, IdSet); RejoinDone !in more && Run(c, more).Some? && Rejoined(Run(c, more).value)
    ensures var c := Run(START, steps).value;
      var c' := Run(Next(c, IdSet), more).value;
      ManagerJoins(c'.sent) == ManagerJoins(c.sent) + ToRejoin(c.rooms, c.listed)
  {
    RunKeepsInv(START, steps);
    IdEventFrames(Run(START, steps).value, more);
  }

  lemma IdEventFrames(c: Client, more: seq<Step>)
    requires Inv(c) && Enabled(c, IdSet)
    requires RejoinDone !in more && Run(Next(c, IdSet), more).Some? && Rejoined(Run(Next(c, IdSet), more).value)
    ensures ManagerJoins(Run(Next(c, IdSet), more).value.sent) == ManagerJoins(c.sent) + ToRejoin(c.rooms, c.listed)
  {
    hide Inv, ManagerJoins, ToRejoin, Run;
    var c1 := Next(c, IdSet);
    NextKeepsInv(c, IdSet);
    RunTally(c1, more);
    var c' := Run(c1, more).value;
    NothingLeft(c'.rooms);
    assert [] + ToRejoin(c.rooms, c.listed) == ToRejoin(c.rooms, c.listed);
    assert ManagerJoins(c'.sent) + ([] + []) == ManagerJoins(c'.sent);
  }

  lemma NothingLeft(rooms: seq<RoomObject>)
    ensures ToRejoin(rooms, []) == []
  {
  }

  // ---------- after a drop ----------

  /** No listed room with an id is marked as joined. */
  predicate AllOut(c: Client) {
    forall h | h in c.listed :: h < |c.rooms| && c.rooms[h].id != "" ==> !c.rooms[h].joined
  }

  lemma {:induction false} NeverMore(rooms: seq<RoomObject>, listed: seq<nat>)
    ensures |ToRejoin(rooms, listed)| <= |NamedRooms(rooms, listed)|
  {
    if listed == [] {
    } else {
      NeverMore(rooms, listed[1..]);
    }
  }

  /** The rooms that need a frame are all those with an id exactly when all those are out. */
  lemma {:induction false} OutMeansAll(rooms: seq<RoomObject>, listed: seq<nat>)
    ensures ToRejoin(rooms, listed) == NamedRooms(rooms, listed)
       <==> forall h | h in listed :: h < |rooms| && rooms[h].id != "" ==> !rooms[h].joined
  {
    if listed == [] {
    } else {
      assert listed == [listed[0]] + listed[1..];
      OutMeansAll(rooms, listed[1..]);
      NeverMore(rooms, listed[1..]);
      var h := listed[0];
      if h < |rooms| && rooms[h].id != "" {
        if rooms[h].joined {
          assert |ToRejoin(rooms, listed)| < |NamedRooms(rooms, listed)|;
        } else {
          assert ToRejoin(rooms, listed)[1..] == ToRejoin(rooms, listed[1..]);
          assert NamedRooms(rooms, listed)[1..] == NamedRooms(rooms, listed[1..]);
        }
      }
    }
  }

  predicate Quiet(steps: seq<Step>) {
    forall s | s in steps :: !s.Event?
  }

  /**
   No thread is about to list a room that the server has already let in: every room with an id
   in the middle of join_room_shared is out, or another room of its id is listed.
   */
  predicate NoneSlips(c: Client) {
    forall t | t in c.joins && c.joins[t].room < |c.rooms| ::
      c.rooms[c.joins[t].room].joined && c.joins[t].roomId != "" ==> Holds(c.rooms, c.listed, c.joins[t].roomId)
  }

  lemma {:induction false} ForgetClears(rooms: seq<RoomObject>, listed: seq<nat>)
    ensures SameIds(rooms, ForgetJoined(rooms, listed))
    ensures forall h | 0 <= h < |rooms| :: ForgetJoined(rooms, listed)[h].joined <==> rooms[h].joined && h !in listed
    decreases |listed|
  {
    if listed == [] {
    } else {
      if listed[0] < |rooms| {
        ForgetClears(rooms[listed[0] := rooms[listed[0]].(joined := false)], listed[1..]);
      } else {
        ForgetClears(rooms, listed[1..]);
      }
    }
  }

  lemma SameIdsHold(rooms: seq<RoomObject>, rooms': seq<RoomObject>, listed: seq<nat>, id: string)
    requires SameIds(rooms, rooms')
    ensures Holds(rooms, listed, id) <==> Holds(rooms', listed, id)
  {
  }

  lemma ForgetIsQuiet(c: Client)
    requires Inv(c) && c.phase.Dropped?
    ensures AllOut(Next(c, Forget))
    ensures NoneSlips(c) <==> NoneSlips(Next(c, Forget))
  {
    ForgetClears(c.rooms, c.listed);
    var c' := Next(c, Forget);
    forall t | t in c.joins
      ensures Holds(c.rooms, c.listed, c.joins[t].roomId) <==> Holds(c'.rooms, c'.listed, c.joins[t].roomId)
      ensures c.joins[t].room in c.listed ==> Holds(c.rooms, c.listed, c.joins[t].roomId)
    {
      SameIdsHold(c.rooms, c'.rooms, c.listed, c.joins[t].roomId);
    }
  }

  lemma QuietStep(c: Client, s: Step)
    requires Inv(c) && AllOut(c) && NoneSlips(c) && Enabled(c, s) && !s.Event?
    ensures AllOut(Next(c, s)) && NoneSlips(Next(c, s))
  {
    match s
    case Create(uid) => MoreRoomsQuiet(c, RoomObject("", false), c.joins);
    case Join(n, roomId) => MoreRoomsQuiet(c, RoomObject(roomId, false), c.joins[User(n) := Joining(|c.rooms|, roomId, false)]);
    case List(t) => ListQuiet(c, t);
    case RejoinNext => assert c.phase.rest[0] in c.phase.rest;
    case Forget => ForgetIsQuiet(c);
    case _ =>
  }

  lemma MoreRoomsQuiet(c: Client, room: RoomObject, joins: map<Tid, Joining>)
    requires Inv(c) && AllOut(c) && NoneSlips(c) && !room.joined
    requires forall t | t in joins :: (t in c.joins && joins[t] == c.joins[t]) || joins[t].room == |c.rooms|
    ensures var c' := c.(rooms := c.rooms + [room], joins := joins); AllOut(c') && NoneSlips(c')
  {
    ListedKnown(c.rooms, c.listed);
    var c' := c.(rooms := c.rooms + [room], joins := joins);
    forall id | Holds(c.rooms, c.listed, id) ensures Holds(c'.rooms, c'.listed, id) {
      var h :| h in c.listed && h < |c.rooms| && c.rooms[h].id == id;
      assert c'.rooms[h].id == id;
    }
  }

  lemma ListQuiet(c: Client, t: Tid)
    requires Inv(c) && AllOut(c) && NoneSlips(c) && Enabled(c, List(t))
    ensures AllOut(ListRoom(c, t)) && NoneSlips(ListRoom(c, t))
  {
    var c' := ListRoom(c, t);
    forall id | Holds(c.rooms, c.listed, id) ensures Holds(c'.rooms, c'.listed, id) {
      var h :| h in c.listed && h < |c.rooms| && c.rooms[h].id == id;
      assert h in c'.listed;
    }
  }

  lemma {:induction false} QuietRun(c: Client, steps: seq<Step>)
    requires Inv(c) && AllOut(c) && NoneSlips(c) && Run(c, steps).Some? && Quiet(steps)
    ensures AllOut(Run(c, steps).value)
    decreases |steps|
  {
    hide Inv, Enabled, Next, AllOut, NoneSlips;
    if steps == [] {
    } else {
      assert steps[0] in steps;
      NextKeepsInv(c, steps[0]);
      QuietStep(c, steps[0]);
      QuietRun(Next(c, steps[0]), steps[1..]);
    }
  }

  /** Not connected, and the manager at rest. */
  predicate Offline(c: Client) {
    c.phase.Waiting? && !c.connected && Manager !in c.joins
  }

  predicate Slips(c: Client, t: Tid) {
    && t in c.joins && c.joins[t].room < |c.rooms| && c.joins[t].roomId != ""
    && c.rooms[c.joins[t].room].joined && !Holds(c.rooms, c.listed, c.joins[t].roomId)
  }

  /** A room that slips through: listed after the drop has been dealt with, and still marked as joined. */
  lemma SlipsThrough(c: Client, t: Tid) returns (steps: seq<Step>)
    requires Inv(c) && Offline(c) && Slips(c, t)
    ensures Quiet(steps) && Run(c, steps).Some? && Offline(Run(c, steps).value) && !AllOut(Run(c, steps).value)
  {
    if c.joins[t].sent {
      steps := [List(t)];
      ListSlips(c, t);
      assert Run(Next(c, List(t)), []).Some?;
      assert steps[1..] == [];
    } else {
      steps := [SendJoin(t), List(t)];
      var c1 := Next(c, SendJoin(t));
      NextKeepsInv(c, SendJoin(t));
      ListSlips(c1, t);
      assert steps[1..] == [List(t)] && steps[1..][1..] == [];
      assert Run(c1, [List(t)]) == Run(Next(c1, List(t)), []);
    }
  }

  lemma ListSlips(c: Client, t: Tid)
    requires Inv(c) && Offline(c) && Slips(c, t) && c.joins[t].sent
    ensures Offline(Next(c, List(t))) && !AllOut(Next(c, List(t)))
  {
    var c' := Next(c, List(t));
    assert c.joins[t].room in c'.listed;
  }

  lemma SomeSlips(c: Client) returns (t: Tid)
    requires !NoneSlips(c)
    ensures Slips(c, t)
  {
    t :| t in c.joins && c.joins[t].room < |c.rooms|
         && c.rooms[c.joins[t].room].joined && c.joins[t].roomId != "" && !Holds(c.rooms, c.listed, c.joins[t].roomId);
  }

  /**
   When the drop of a connection has been dealt with, every listed room with an id is out, and
   stays so in every continuation up to the next event, exactly when no thread was in the
   middle of joining a room that was already let in.
   */
  lemma OutAfterDropIff(steps: seq<Step>)
    requires Run(START, steps).Some? && Run(START, steps).value.phase.Dropped?
    ensures var c := Run(START, steps).value;
      NoneSlips(c) <==>
      forall more: seq<Step> :: Quiet(more) && Run(Next(c, Forget), more).Some? ==> AllOut(Run(Next(c, Forget), more).value)
  {
    RunKeepsInv(START, steps);
    var c := Run(START, steps).value;
    OutIff(c);
  }

  lemma OutIff(c: Client)
    requires Inv(c) && c.phase.Dropped?
    ensures NoneSlips(c) <==>
      forall more: seq<Step> :: Quiet(more) && Run(Next(c, Forget), more).Some? ==> AllOut(Run(Next(c, Forget), more).value)
  {
    hide Inv, AllOut, Run, NoneSlips;
    var c1 := Next(c, Forget);
    NextKeepsInv(c, Forget);
    ForgetIsQuiet(c);
    if NoneSlips(c) {
      forall more: seq<Step> | Quiet(more) && Run(c1, more).Some? ensures AllOut(Run(c1, more).value) {
        QuietRun(c1, more);
      }
    } else {
      OfflineAfter(c);
      var t := SomeSlips(c1);
      var more := SlipsThrough(c1, t);
    }
  }

  lemma OfflineAfter(c: Client)
    requires Inv(c) && c.phase.Dropped?
    ensures Offline(Next(c, Forget))
  {
  }

  // ---------- which reconnects ask for every room ----------

  /** The manager can always go through its list to the end. */
  lemma {:induction false} RejoinCompletes(c: Client) returns (more: seq<Step>)
    requires Inv(c) && c.phase.Rejoining? && Manager !in c.joins
    ensures RejoinDone !in more && Run(c, more).Some? && Rejoined(Run(c, more).value)
    decreases if c.phase.Rejoining? then |c.phase.rest| else 0
  {
    hide Inv, Rejoined;
    if c.phase.rest == [] {
      more := [];
      NothingToRejoin(c);
    } else {
      RestInRange(c);
      assert c.phase.rest[0] in c.phase.rest;
      var steps, c1 := OneRejoin(c);
      var rest := RejoinCompletes(c1);
      more := steps + rest;
      RunConcat(c, steps, rest);
    }
  }

  lemma NothingToRejoin(c: Client)
    requires c.phase == Rejoining([]) && Manager !in c.joins
    ensures Rejoined(c) && Run(c, []) == Some(c)
  {
  }

  lemma OneRejoin(c: Client) returns (steps: seq<Step>, c': Client)
    requires Inv(c) && Enabled(c, RejoinNext)
    ensures RejoinDone !in steps && Run(c, steps) == Some(c') && Inv(c')
    ensures c'.phase == Rejoining(c.phase.rest[1..]) && Manager !in c'.joins
  {
    hide Inv, Run;
    NextKeepsInv(c, RejoinNext);
    c' := Next(c, RejoinNext);
    steps := [];
    NoSteps(c);
    RunAppend(c, steps, RejoinNext);
    steps := steps + [RejoinNext];
    if Manager in c'.joins {
      ManagerInRange(c');
      NextKeepsInv(c', SendJoin(Manager));
      RunAppend(c, steps, SendJoin(Manager));
      steps := steps + [SendJoin(Manager)];
      c' := Next(c', SendJoin(Manager));
      NextKeepsInv(c', List(Manager));
      RunAppend(c, steps, List(Manager));
      steps := steps + [List(Manager)];
      c' := Next(c', List(Manager));
    }
  }

  lemma {:induction false} RunConcat(c: Client, steps: seq<Step>, more: seq<Step>)
    requires Run(c, steps).Some?
    ensures Run(c, steps + more) == Run(Run(c, steps).value, more)
    decreases |steps|
  {
    hide Enabled, Next;
    if steps == [] {
      assert steps + more == more;
    } else {
      assert (steps + more)[1..] == steps[1..] + more;
      RunConcat(Next(c, steps[0]), steps[1..], more);
    }
  }

  /** The id event sends a join frame for every listed room with an id if and only if all of them are out. */
  lemma AsksForAllIff(c: Client, more: seq<Step>)
    requires Inv(c) && Enabled(c, IdSet)
    requires RejoinDone !in more && Run(Next(c, IdSet), more).Some? && Rejoined(Run(Next(c, IdSet), more).value)
    ensures ManagerJoins(Run(Next(c, IdSet), more).value.sent) == ManagerJoins(c.sent) + NamedRooms(c.rooms, c.listed)
       <==> AllOut(c)
  {
    hide Inv, ManagerJoins, ToRejoin, NamedRooms, Run;
    IdEventFrames(c, more);
    OutMeansAll(c.rooms, c.listed);
    SamePrefix(ManagerJoins(c.sent), ToRejoin(c.rooms, c.listed), NamedRooms(c.rooms, c.listed));
  }

  lemma SamePrefix(a: seq<string>, b: seq<string>, d: seq<string>)
    ensures a + b == a + d <==> b == d
  {
    if a + b == a + d {
      assert (a + b)[|a|..] == b && (a + d)[|a|..] == d;
    }
  }

  /** From the end of a drop to the end of the next id event, with no other event in between. */
  predicate Reconnects(c1: Client, quiet: seq<Step>, more: seq<Step>) {
    && Quiet(quiet) && Run(c1, quiet).Some? && Enabled(Run(c1, quiet).value, IdSet)
    && RejoinDone !in more && Run(Next(Run(c1, quiet).value, IdSet), more).Some?
    && Rejoined(Run(Next(Run(c1, quiet).value, IdSet), more).value)
  }

  /** One join frame for every room with an id that is listed as the id event comes, and no other. */
  predicate AsksForAll(c1: Client, quiet: seq<Step>, more: seq<Step>)
    requires Reconnects(c1, quiet, more)
  {
    var c := Run(c1, quiet).value;
    ManagerJoins(Run(Next(c, IdSet), more).value.sent) == ManagerJoins(c.sent) + NamedRooms(c.rooms, c.listed)
  }

  /**
   After a drop, in every continuation the next id event sends exactly one join frame for every
   listed room with an id: this holds if and only if no thread was in the middle of joining
   a room with an id that the server had already let in.
   */
  lemma ReconnectRejoinsAllIff(steps: seq<Step>)
    requires Run(START, steps).Some? && Run(START, steps).value.phase.Dropped?
    ensures var c := Run(START, steps).value;
      NoneSlips(c) <==>
      forall quiet: seq<Step>, more: seq<Step> ::
        Reconnects(Next(c, Forget), quiet, more) ==> AsksForAll(Next(c, Forget), quiet, more)
  {
    hide Inv, Run, Next, NoneSlips, Reconnects, AsksForAll;
    StartInv();
    RunKeepsInv(START, steps);
    var c := Run(START, steps).value;
    if NoneSlips(c) {
      forall quiet: seq<Step>, more: seq<Step> | Reconnects(Next(c, Forget), quiet, more)
        ensures AsksForAll(Next(c, Forget), quiet, more)
      {
        NoneSlipsAsksForAll(c, quiet, more);
      }
    } else {
      var quiet, more := NotAskedForAll(c);
    }
  }

  lemma NoneSlipsAsksForAll(c: Client, quiet: seq<Step>, more: seq<Step>)
    requires Inv(c) && c.phase.Dropped? && NoneSlips(c) && Reconnects(Next(c, Forget), quiet, more)
    ensures AsksForAll(Next(c, Forget), quiet, more)
  {
    hide Inv, ManagerJoins, NamedRooms, Run, NoneSlips, Quiet, AllOut, Rejoined;
    var c1 := Next(c, Forget);
    NextKeepsInv(c, Forget);
    ForgetIsQuiet(c);
    QuietRun(c1, quiet);
    RunKeepsInv(c1, quiet);
    AsksForAllIff(Run(c1, quiet).value, more);
  }

  lemma NotAskedForAll(c: Client) returns (quiet: seq<Step>, more: seq<Step>)
    requires Inv(c) && c.phase.Dropped? && !NoneSlips(c)
    ensures Reconnects(Next(c, Forget), quiet, more) && !AsksForAll(Next(c, Forget), quiet, more)
  {
    hide Inv, ManagerJoins, NamedRooms, Run, NoneSlips, AllOut, Rejoined, ForgetJoined;
    var c1 := Next(c, Forget);
    NextKeepsInv(c, Forget);
    ForgetIsQuiet(c);
    OfflineAfter(c);
    var t := SomeSlips(c1);
    var slip := SlipsThrough(c1, t);
    RunKeepsInv(c1, slip);
    RunAppend(c1, slip, Connect);
    quiet := slip + [Connect];
    var d := Run(c1, quiet).value;
    RunKeepsInv(c1, quiet);
    assert !AllOut(d) by { ConnectedStillIn(Run(c1, slip).value); }
    NextKeepsInv(d, IdSet);
    more := RejoinCompletes(Next(d, IdSet));
    AsksForAllIff(d, more);
  }

  lemma ConnectedStillIn(c: Client)
    requires !AllOut(c)
    ensures !AllOut(c.(connected := true))
  {
  }

  lemma StartInv()
    ensures Inv(START)
  {
  }

  lemma RunAppend(c: Client, steps: seq<Step>, s: Step)
    requires Run(c, steps).Some? && Enabled(Run(c, steps).value, s)
    ensures Run(c, steps + [s]) == Some(Next(Run(c, steps).value, s))
  {
    hide Enabled, Next;
    RunConcat(c, steps, [s]);
    assert [s][1..] == [];
  }

  /** Let in by the server, not yet listed. */
  lemma LetInUnlisted() returns (steps: seq<Step>)
    ensures Run(START, steps).Some?
    ensures var c := Run(START, steps).value;
      && c.rooms == [RoomObject("x", true)] && c.listed == [] && c.connected && c.phase.Waiting?
      && c.joins == map[User(0) := Joining(0, "x", true)] && ManagerJoins(c.sent) == []
  {
    hide Run;
    steps := [];
    assert Run(START, []) == Some(START) by { NoSteps(START); }
    RunAppend(START, steps, Connect);
    steps := steps + [Connect];
    RunAppend(START, steps, Join(0, "x"));
    steps := steps + [Join(0, "x")];
    ghost var joining := Run(START, steps).value;
    assert joining.handlers[MessageKey("x")] == Message(0);
    RunAppend(START, steps, SendJoin(User(0)));
    steps := steps + [SendJoin(User(0))];
    SentMore([], JoinRoom(User(0), "x"));
    assert joining.sent + [JoinRoom(User(0), "x")] == [] + [JoinRoom(User(0), "x")];
    RunAppend(START, steps, Event(MessageKey("x"), JOINED));
    steps := steps + [Event(MessageKey("x"), JOINED)];
  }

  lemma NoSteps(c: Client)
    ensures Run(c, []) == Some(c)
  {
  }

  /**
   It does happen: the server lets the room in and the connection drops, both before
   join_room_shared lists the room. The room is then listed as joined, and the id event of the
   new connection, gone through to its end, asks for no room at all.
   */
  lemma ForgottenRoom() returns (steps: seq<Step>)
    ensures Run(START, steps).Some? && Rejoined(Run(START, steps).value)
    ensures NamedRooms(Run(START, steps).value.rooms, Run(START, steps).value.listed) == ["x"]
    ensures ManagerJoins(Run(START, steps).value.sent) == []
  {
    hide Run, ManagerJoins;
    steps := LetInUnlisted();
    RunAppend(START, steps, Drop);
    steps := steps + [Drop];
    RunAppend(START, steps, Forget);
    steps := steps + [Forget];
    RunAppend(START, steps, List(User(0)));
    steps := steps + [List(User(0))];
    assert Run(START, steps).value.listed == [0];
    RunAppend(START, steps, Connect);
    steps := steps + [Connect];
    RunAppend(START, steps, IdSet);
    steps := steps + [IdSet];
    assert Run(START, steps).value.phase == Rejoining([0]);
    RunAppend(START, steps, RejoinNext);
    steps := steps + [RejoinNext];
    RunAppend(START, steps, SendJoin(Manager));
    steps := steps + [SendJoin(Manager)];
    assert 0 in Run(START, steps).value.listed;
    RunAppend(START, steps, List(Manager));
    steps := steps + [List(Manager)];
  }
}
