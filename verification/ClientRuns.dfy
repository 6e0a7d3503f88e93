/** What holds of the client in every run. */
module ClientRuns {
  import opened Wrappers
  import opened ClientModel

  // ---------- the invariants, each over what it needs ----------

  predicate DistinctIds(rooms: seq<RoomObject>, listed: seq<nat>) {
    && (forall i :: 0 <= i < |listed| ==> listed[i] < |rooms|)
    && (forall i, j :: 0 <= i < j < |listed| ==> rooms[listed[i]].id != rooms[listed[j]].id)
  }

  predicate JoinsNamed(rooms: seq<RoomObject>, joins: map<Tid, Joining>) {
    forall t | t in joins :: joins[t].room < |rooms| && rooms[joins[t].room].id == joins[t].roomId
  }

  /** A request that is not yet answered: its closures sit under its own keys only. */
  predicate Pending(handlers: map<string, Closure>, requests: seq<string>, fired: seq<Fired>) {
    forall k | k in handlers ::
      && (handlers[k].Created? ==>
           handlers[k].request < |requests| && k == CreateKey(requests[handlers[k].request]) && Unfired(fired, handlers[k].request))
      && (handlers[k].CreateFailed? ==>
           handlers[k].request < |requests| && k == ErrorKey(requests[handlers[k].request]) && Unfired(fired, handlers[k].request))
  }

  predicate Unfired(fired: seq<Fired>, r: nat) {
    forall f | f in fired :: f.request != r
  }

  predicate FiredOnce(fired: seq<Fired>) {
    forall i, j :: 0 <= i < j < |fired| ==> fired[i].request != fired[j].request
  }

  predicate FiredKnown(fired: seq<Fired>, requests: seq<string>) {
    forall f | f in fired :: f.request < |requests|
  }

  /** The room of an unanswered request is nobody else's: no other closure's, not listed, not being joined. */
  predicate OwnRooms(handlers: map<string, Closure>, rooms: nat, listed: seq<nat>, joins: map<Tid, Joining>) {
    && (forall k | k in handlers && handlers[k].Created? ::
         && handlers[k].room < rooms && handlers[k].room !in listed
         && (forall t | t in joins :: joins[t].room != handlers[k].room))
    && (forall k, l | k in handlers && l in handlers && handlers[k].Created? && handlers[l].Created? && k != l ::
         handlers[k].room != handlers[l].room)
  }

  predicate HandlersKnown(handlers: map<string, Closure>, rooms: nat) {
    forall k | k in handlers ::
      && (handlers[k].JoinFailed? ==> handlers[k].room < rooms)
      && (handlers[k].Message? ==> handlers[k].room < rooms)
  }

  predicate RestListed(phase: Phase, listed: seq<nat>) {
    phase.Rejoining? ==> forall h | h in phase.rest :: h in listed
  }

  predicate Inv(c: Client) {
    && DistinctIds(c.rooms, c.listed)
    && JoinsNamed(c.rooms, c.joins)
    && Pending(c.handlers, c.requests, c.fired)
    && FiredOnce(c.fired) && FiredKnown(c.fired, c.requests)
    && OwnRooms(c.handlers, |c.rooms|, c.listed, c.joins)
    && HandlersKnown(c.handlers, |c.rooms|)
    && RestListed(c.phase, c.listed)
    && (c.phase.Rejoining? ==> c.connected)
    && (c.phase.Dropped? ==> !c.connected && Manager !in c.joins)
  }

  // ---------- what changes keep each of them ----------

  lemma ListedKeep(rooms: seq<RoomObject>, rooms': seq<RoomObject>, listed: seq<nat>)
    requires DistinctIds(rooms, listed) && |rooms| <= |rooms'|
    requires forall h | h in listed :: h < |rooms| && rooms'[h].id == rooms[h].id
    ensures DistinctIds(rooms', listed)
  {
    assert forall i :: 0 <= i < |listed| ==> listed[i] in listed;
  }

  lemma ListedKnown(rooms: seq<RoomObject>, listed: seq<nat>)
    requires DistinctIds(rooms, listed)
    ensures forall h | h in listed :: h < |rooms|
  {
  }

  lemma MoreRooms(rooms: seq<RoomObject>, room: RoomObject, listed: seq<nat>)
    requires DistinctIds(rooms, listed)
    ensures DistinctIds(rooms + [room], listed)
  {
    ListedKnown(rooms, listed);
    ListedKeep(rooms, rooms + [room], listed);
  }

  lemma ListOneMore(rooms: seq<RoomObject>, listed: seq<nat>, h: nat)
    requires DistinctIds(rooms, listed) && h < |rooms| && !Holds(rooms, listed, rooms[h].id)
    ensures DistinctIds(rooms, listed + [h])
  {
    forall i | 0 <= i < |listed| ensures rooms[listed[i]].id != rooms[h].id {
      assert listed[i] in listed;
    }
  }

  lemma OwnRoomsStay(handlers: map<string, Closure>, listed: seq<nat>, joins: map<Tid, Joining>, n: nat, t: Tid, roomId: string)
    requires OwnRooms(handlers, n, listed, joins)
    ensures OwnRooms(handlers, n + 1, listed, joins[t := Joining(n, roomId, false)])
  {
  }

  lemma OwnRoomMore(handlers: map<string, Closure>, listed: seq<nat>, joins: map<Tid, Joining>, n: nat, k: string, l: string, r: nat)
    requires OwnRooms(handlers, n, listed, joins) && k != l
    requires (forall h | h in listed :: h < n) && (forall t | t in joins :: joins[t].room < n)
    ensures OwnRooms(handlers[k := Created(r, n)][l := CreateFailed(r)], n + 1, listed, joins)
  {
  }

  // ---------- one lemma for each step that does something ----------

  lemma ListKeeps(c: Client, t: Tid)
    requires Inv(c) && Enabled(c, List(t))
    ensures Inv(Next(c, List(t)))
  {
    hide DistinctIds, Pending, FiredOnce, FiredKnown, HandlersKnown;
    var j := c.joins[t];
    if !Holds(c.rooms, c.listed, j.roomId) {
      ListOneMore(c.rooms, c.listed, j.room);
    }
  }

  lemma RegisterKeeps(c: Client, h: nat)
    requires h < |c.rooms|
    requires Pending(c.handlers, c.requests, c.fired) && HandlersKnown(c.handlers, |c.rooms|)
    requires OwnRooms(c.handlers, |c.rooms|, c.listed, c.joins)
    ensures var c' := RegisterRoomEvents(c, h);
      && Pending(c'.handlers, c.requests, c.fired) && HandlersKnown(c'.handlers, |c.rooms|)
      && OwnRooms(c'.handlers, |c.rooms|, c.listed, c.joins)
      && c' == c.(handlers := c'.handlers)
  {
    RegisteredKeep(c, c.handlers, RegisterRoomEvents(c, h).handlers, h);
  }

  lemma JoinKeeps(c: Client, n: nat, roomId: string)
    requires Inv(c) && Enabled(c, Join(n, roomId))
    ensures Inv(Next(c, Join(n, roomId)))
  {
    hide DistinctIds, Pending, FiredOnce, FiredKnown, OwnRooms, RegisterRoomEvents;
    var h := |c.rooms|;
    var c1 := c.(rooms := c.rooms + [RoomObject(roomId, false)], joins := c.joins[User(n) := Joining(h, roomId, false)]);
    MoreRooms(c.rooms, RoomObject(roomId, false), c.listed);
    OwnRoomsStay(c.handlers, c.listed, c.joins, h, User(n), roomId);
    RegisterKeeps(c1, h);
  }

  lemma CreateKeeps(c: Client, uid: string)
    requires Inv(c)
    ensures Inv(Next(c, Create(uid)))
  {
    hide DistinctIds, FiredOnce, OwnRooms, CreateKey, ErrorKey, Pending, FiredKnown;
    KeysDiffer(uid);
    MoreRooms(c.rooms, RoomObject("", false), c.listed);
    ListedKnown(c.rooms, c.listed);
    OwnRoomMore(c.handlers, c.listed, c.joins, |c.rooms|, CreateKey(uid), ErrorKey(uid), |c.requests|);
    PendingMore(c.handlers, c.requests, c.fired, uid, |c.rooms|);
  }

  lemma PendingMore(handlers: map<string, Closure>, requests: seq<string>, fired: seq<Fired>, uid: string, h: nat)
    requires Pending(handlers, requests, fired) && FiredKnown(fired, requests)
    ensures Pending(handlers[CreateKey(uid) := Created(|requests|, h)][ErrorKey(uid) := CreateFailed(|requests|)], requests + [uid], fired)
    ensures FiredKnown(fired, requests + [uid])
  {
    hide CreateKey, ErrorKey;
    var r := |requests|;
    assert Unfired(fired, r);
    assert (requests + [uid])[r] == uid;
    assert forall q :: 0 <= q < r ==> (requests + [uid])[q] == requests[q];
  }

  lemma KeysDiffer(uid: string)
    ensures CreateKey(uid) != ErrorKey(uid)
  {
    assert CreateKey(uid)[|uid| + 1] == 'c' && ErrorKey(uid)[|uid| + 1] == 'e';
  }

  /** The answer to a request takes both of its closures away. */
  lemma AnswerKeeps(c: Client, r: nat, k: string, ok: bool)
    requires Inv(c) && k in c.handlers && r < |c.requests|
    requires c.handlers[k].Created? || c.handlers[k].CreateFailed?
    requires c.handlers[k].request == r
    ensures var handlers := c.handlers - {CreateKey(c.requests[r]), ErrorKey(c.requests[r])};
      var fired := c.fired + [Fired(r, ok)];
      && Pending(handlers, c.requests, fired) && FiredOnce(fired) && FiredKnown(fired, c.requests)
      && k !in handlers
  {
    var fired := c.fired + [Fired(r, ok)];
    forall i | 0 <= i < |c.fired| ensures c.fired[i].request != r {
      assert c.fired[i] in c.fired;
    }
  }

  lemma FailedKeeps(c: Client, name: string, text: string)
    requires Inv(c) && name in c.handlers && c.handlers[name].CreateFailed?
    ensures Inv(HandleEvent(c, name, text))
  {
    AnswerKeeps(c, c.handlers[name].request, name, false);
  }

  lemma CreatedKeeps(c: Client, name: string, text: string)
    requires Inv(c) && name in c.handlers && c.handlers[name].Created? && Manager !in c.joins && c.phase.Waiting?
    ensures Inv(HandleEvent(c, name, text))
  {
    hide DistinctIds, Pending, FiredOnce, FiredKnown, OwnRooms;
    hide HandlersKnown, JoinsNamed, RegisterRoomEvents, CreateKey, ErrorKey;
    var r, h := c.handlers[name].request, c.handlers[name].room;
    OwnRoomOf(c, name);
    var rooms := c.rooms[h := c.rooms[h].(id := text)];
    var joins := c.joins[Manager := Joining(h, text, false)];
    var gone := {CreateKey(c.requests[r]), ErrorKey(c.requests[r])};
    var kept := c.handlers - gone;
    AnswerKeeps(c, r, name, true);
    OwnRoomTaken(c.handlers, |c.rooms|, c.listed, c.joins, name, kept, joins);
    NamedKeep(c, h, text);
    HandlersKept(c.handlers, kept, |c.rooms|);
    // The source registers the room's handlers first and takes the request's away after that.
    var named := RegisterRoomEvents(c.(rooms := rooms), h);
    RegisterTouchesHandlers(c.(rooms := rooms), h);
    RegisteredWithout(c.(rooms := rooms), kept, gone, h);
    RegisteredKeep(c.(rooms := rooms, joins := joins, fired := c.fired + [Fired(r, true)]), kept, named.handlers - gone, h);
  }

  lemma RegisterTouchesHandlers(c: Client, h: nat)
    requires h < |c.rooms|
    ensures RegisterRoomEvents(c, h) == c.(handlers := RegisterRoomEvents(c, h).handlers)
  {
  }

  lemma OwnRoomOf(c: Client, name: string)
    requires Inv(c) && name in c.handlers && c.handlers[name].Created?
    ensures c.handlers[name].request < |c.requests| && c.handlers[name].room < |c.rooms|
  {
  }

  /** The new id belongs to a room that is not listed and that no thread is joining. */
  lemma NamedKeep(c: Client, h: nat, text: string)
    requires Inv(c) && h < |c.rooms| && h !in c.listed && forall t | t in c.joins :: c.joins[t].room != h
    ensures var rooms := c.rooms[h := c.rooms[h].(id := text)];
      DistinctIds(rooms, c.listed) && JoinsNamed(rooms, c.joins[Manager := Joining(h, text, false)])
  {
    hide DistinctIds;
    ListedKnown(c.rooms, c.listed);
    ListedKeep(c.rooms, c.rooms[h := c.rooms[h].(id := text)], c.listed);
  }

  lemma OwnRoomTaken(handlers: map<string, Closure>, n: nat, listed: seq<nat>, joins: map<Tid, Joining>, name: string,
                     kept: map<string, Closure>, joins': map<Tid, Joining>)
    requires OwnRooms(handlers, n, listed, joins) && name in handlers && handlers[name].Created? && name !in kept
    requires forall k | k in kept :: k in handlers && handlers[k] == kept[k]
    requires forall t | t in joins' :: (t in joins && joins[t] == joins'[t]) || joins'[t].room == handlers[name].room
    ensures OwnRooms(kept, n, listed, joins')
    ensures handlers[name].room !in listed && forall t | t in joins :: joins[t].room != handlers[name].room
  {
  }

  lemma HandlersKept(handlers: map<string, Closure>, kept: map<string, Closure>, n: nat)
    requires HandlersKnown(handlers, n) && forall k | k in kept :: k in handlers && handlers[k] == kept[k]
    ensures HandlersKnown(kept, n)
  {
  }

  /** Registering first and taking away later gives no more than taking away first. */
  lemma RegisteredWithout(c: Client, kept: map<string, Closure>, gone: set<string>, h: nat)
    requires h < |c.rooms| && kept == c.handlers - gone
    ensures var handlers := RegisterRoomEvents(c, h).handlers - gone;
      forall k | k in handlers :: (k in kept && kept[k] == handlers[k]) || handlers[k] == JoinFailed(h) || handlers[k] == Message(h)
  {
  }

  lemma RegisteredKeep(c: Client, kept: map<string, Closure>, handlers: map<string, Closure>, h: nat)
    requires h < |c.rooms|
    requires forall k | k in handlers :: (k in kept && kept[k] == handlers[k]) || handlers[k] == JoinFailed(h) || handlers[k] == Message(h)
    requires Pending(kept, c.requests, c.fired)
    requires HandlersKnown(kept, |c.rooms|) && OwnRooms(kept, |c.rooms|, c.listed, c.joins)
    ensures Pending(handlers, c.requests, c.fired) && HandlersKnown(handlers, |c.rooms|)
    ensures OwnRooms(handlers, |c.rooms|, c.listed, c.joins)
  {
  }

  lemma SameIdsKeep(c: Client, rooms: seq<RoomObject>)
    requires Inv(c) && SameIds(c.rooms, rooms)
    ensures Inv(c.(rooms := rooms))
  {
    hide DistinctIds, Pending, FiredOnce, FiredKnown, OwnRooms;
    ListedKnown(c.rooms, c.listed);
    ListedKeep(c.rooms, rooms, c.listed);
  }

  predicate SameIds(a: seq<RoomObject>, b: seq<RoomObject>) {
    |a| == |b| && forall h :: 0 <= h < |a| ==> a[h].id == b[h].id
  }

  lemma {:induction false} ForgetKeepsIds(rooms: seq<RoomObject>, listed: seq<nat>)
    ensures SameIds(rooms, ForgetJoined(rooms, listed))
    decreases |listed|
  {
    if listed == [] {
    } else {
      if listed[0] < |rooms| {
        ForgetKeepsIds(rooms[listed[0] := rooms[listed[0]].(joined := false)], listed[1..]);
      } else {
        ForgetKeepsIds(rooms, listed[1..]);
      }
    }
  }

  lemma EventKeeps(c: Client, name: string, text: string)
    requires Inv(c) && Enabled(c, Event(name, text))
    ensures Inv(HandleEvent(c, name, text))
  {
    if name in c.handlers {
      match c.handlers[name]
      case Created(_, _) => CreatedKeeps(c, name, text);
      case CreateFailed(_) => FailedKeeps(c, name, text);
      case JoinFailed(_) =>
      case Message(h) =>
        SameIdsKeep(c, HandleEvent(c, name, text).rooms);
    }
  }

  lemma NextKeepsInv(c: Client, s: Step)
    requires Inv(c) && Enabled(c, s)
    ensures Inv(Next(c, s))
  {
    hide Inv, HandleEvent, ListRoom, CreateRoom, StartJoin, ForgetJoined;
    match s
    case Create(uid) => CreateKeeps(c, uid);
    case Join(n, roomId) => JoinKeeps(c, n, roomId);
    case List(t) => ListKeeps(c, t);
    case Event(name, text) => EventKeeps(c, name, text);
    case Forget => ForgetKeeps(c);
    case SendJoin(t) => SendKeeps(c, t);
    case IdSet => IdSetKeeps(c);
    case RejoinNext => RejoinNextKeeps(c);
    case _ => PhaseKeeps(c, s);
  }

  lemma ForgetKeeps(c: Client)
    requires Inv(c) && c.phase.Dropped?
    ensures Inv(Next(c, Forget))
  {
    ForgetKeepsIds(c.rooms, c.listed);
    SameIdsKeep(c, ForgetJoined(c.rooms, c.listed));
  }

  lemma SendKeeps(c: Client, t: Tid)
    requires Inv(c) && Enabled(c, SendJoin(t))
    ensures Inv(Next(c, SendJoin(t)))
  {
    hide DistinctIds, Pending, FiredOnce, FiredKnown, HandlersKnown, RestListed;
  }

  lemma IdSetKeeps(c: Client)
    requires Inv(c) && Enabled(c, IdSet)
    ensures Inv(Next(c, IdSet))
  {
    hide DistinctIds, JoinsNamed, Pending, FiredOnce, FiredKnown, OwnRooms, HandlersKnown;
  }

  lemma RejoinNextKeeps(c: Client)
    requires Inv(c) && Enabled(c, RejoinNext)
    ensures Inv(Next(c, RejoinNext))
  {
    hide DistinctIds, Pending, FiredOnce, FiredKnown, HandlersKnown;
    assert c.phase.rest[0] in c.phase.rest;
  }

  /** Steps that only change the phase or the connection. */
  lemma PhaseKeeps(c: Client, s: Step)
    requires Inv(c) && Enabled(c, s) && (s.Connect? || s.RejoinDone? || s.Drop?)
    ensures Inv(Next(c, s))
  {
    hide DistinctIds, JoinsNamed, Pending, FiredOnce, FiredKnown, OwnRooms, HandlersKnown;
  }

  lemma {:induction false} RunKeepsInv(c: Client, steps: seq<Step>)
    requires Inv(c) && Run(c, steps).Some?
    ensures Inv(Run(c, steps).value)
    decreases |steps|
  {
    hide Inv, Enabled, Next;
    if steps == [] {
    } else {
      NextKeepsInv(c, steps[0]);
      RunKeepsInv(Next(c, steps[0]), steps[1..]);
    }
  }

  // ---------- the list of rooms, and the answers to create requests ----------

  lemma {:induction false} ListOnlyGrows(c: Client, steps: seq<Step>)
    requires Run(c, steps).Some?
    ensures c.listed <= Run(c, steps).value.listed && c.fired <= Run(c, steps).value.fired
    decreases |steps|
  {
    hide Enabled;
    if steps == [] {
    } else {
      StepOnlyGrows(c, steps[0]);
      ListOnlyGrows(Next(c, steps[0]), steps[1..]);
    }
  }

  lemma StepOnlyGrows(c: Client, s: Step)
    requires Enabled(c, s)
    ensures c.listed <= Next(c, s).listed && c.fired <= Next(c, s).fired
  {
  }

  /** In every run the list never holds two rooms with one id, and it loses no room later on. */
  lemma NoRoomTwiceNoneLost(steps: seq<Step>, more: seq<Step>)
    requires Run(START, steps).Some? && Run(Run(START, steps).value, more).Some?
    ensures var c := Run(START, steps).value;
      var c' := Run(c, more).value;
      && (forall i :: 0 <= i < |c.listed| ==> c.listed[i] < |c.rooms|)
      && (forall i, j :: 0 <= i < j < |c.listed| ==> c.rooms[c.listed[i]].id != c.rooms[c.listed[j]].id)
      && c.listed <= c'.listed
  {
    RunKeepsInv(START, steps);
    ListOnlyGrows(Run(START, steps).value, more);
    var c := Run(START, steps).value;
    assert forall i :: 0 <= i < |c.listed| ==> c.listed[i] in c.listed;
  }

  /** In every run a create request is answered at most once, by one of its two handlers, even when ids repeat. */
  lemma AnsweredAtMostOnce(steps: seq<Step>, i: nat, j: nat)
    requires Run(START, steps).Some?
    requires i < j < |Run(START, steps).value.fired|
    ensures var fired := Run(START, steps).value.fired; fired[i].request != fired[j].request
  {
    RunKeepsInv(START, steps);
  }
}
