/**
 The client's room bookkeeping as a step system: the manager thread, which connects, drops
 the connection and handles every event, and any number of the program's own threads. A step
 is what happens under one hold of the mutex, with what its thread does next to it alone.
 */
module ClientModel {
  import opened Wrappers

  const JOINED: string := "blueboat_JOINED_ROOM"
  const REMOVED: string := "blueboat_REMOVED_FROM_ROOM"

  datatype RoomObject = RoomObject(id: string, joined: bool)

  /** What an event handler does, by the request and the room object it captures. */
  datatype Closure =
    | Created(request: nat, room: nat)
    | CreateFailed(request: nat)
    | JoinFailed(room: nat)
    | Message(room: nat)

  datatype Tid =
    | Manager
    | User(n: nat)

  datatype Frame =
    | CreateNewRoom(uid: string)
    | JoinRoom(sender: Tid, roomId: string)

  datatype Fired = Fired(request: nat, ok: bool)

  /** A thread inside join_room_shared: before its frame, or before it lists the room. */
  datatype Joining = Joining(room: nat, roomId: string, sent: bool)

  datatype Phase =
    | Waiting
    | Dropped
    | Rejoining(rest: seq<nat>)

  /** `rooms` are the room objects made so far, `listed` is rooms_, `requests` the ids of create requests. */
  datatype Client = Client(
    rooms: seq<RoomObject>,
    listed: seq<nat>,
    handlers: map<string, Closure>,
    connected: bool,
    phase: Phase,
    joins: map<Tid, Joining>,
    requests: seq<string>,
    fired: seq<Fired>,
    sent: seq<Frame>)

  const START: Client := Client([], [], map[], false, Waiting, map[], [], [], [])

  datatype Step =
    | Create(uid: string)
    | Join(n: nat, roomId: string)
    | SendJoin(t: Tid)
    | List(t: Tid)
    | Event(name: string, text: string)
    | Connect
    | IdSet
    | RejoinNext
    | RejoinDone
    | Drop
    | Forget

  function CreateKey(uid: string): string {
    uid + "-create"
  }

  function ErrorKey(id: string): string {
    id + "-error"
  }

  function MessageKey(id: string): string {
    "message-" + id
  }

  function Send(c: Client, f: Frame): Client {
    if c.connected then c.(sent := c.sent + [f]) else c
  }

  function RegisterRoomEvents(c: Client, h: nat): Client
    requires h < |c.rooms|
  {
    var id := c.rooms[h].id;
    c.(handlers := c.handlers[ErrorKey(id) := JoinFailed(h)][MessageKey(id) := Message(h)])
  }

  predicate Holds(rooms: seq<RoomObject>, listed: seq<nat>, id: string) {
    exists h | h in listed :: h < |rooms| && rooms[h].id == id
  }

  function CreateRoom(c: Client, uid: string): Client {
    var h, r := |c.rooms|, |c.requests|;
    Send(c.(rooms := c.rooms + [RoomObject("", false)],
            handlers := c.handlers[CreateKey(uid) := Created(r, h)][ErrorKey(uid) := CreateFailed(r)],
            requests := c.requests + [uid]),
         CreateNewRoom(uid))
  }

  function StartJoin(c: Client, t: Tid, roomId: string): Client {
    var h := |c.rooms|;
    RegisterRoomEvents(c.(rooms := c.rooms + [RoomObject(roomId, false)], joins := c.joins[t := Joining(h, roomId, false)]), h)
  }

  function SendIfNotJoined(c: Client, t: Tid): Client
    requires t in c.joins && c.joins[t].room < |c.rooms|
  {
    var j := c.joins[t];
    var c' := if c.rooms[j.room].joined then c else Send(c, JoinRoom(t, j.roomId));
    c'.(joins := c.joins[t := j.(sent := true)])
  }

  function ListRoom(c: Client, t: Tid): Client
    requires t in c.joins
  {
    var j := c.joins[t];
    c.(joins := c.joins - {t},
       listed := if Holds(c.rooms, c.listed, j.roomId) then c.listed else c.listed + [j.room])
  }

  function SetJoined(c: Client, h: nat, joined: bool): Client
    requires h < |c.rooms|
  {
    c.(rooms := c.rooms[h := c.rooms[h].(joined := joined)])
  }

  function Run1(c: Client, closure: Closure, text: string): Client {
    match closure
    case Created(r, h) =>
      if h >= |c.rooms| || r >= |c.requests| then c
      else
        var named := RegisterRoomEvents(c.(rooms := c.rooms[h := c.rooms[h].(id := text)]), h);
        named.(handlers := named.handlers - {CreateKey(c.requests[r]), ErrorKey(c.requests[r])},
               fired := c.fired + [Fired(r, true)],
               joins := c.joins[Manager := Joining(h, text, false)])
    case CreateFailed(r) =>
      if r >= |c.requests| then c
      else c.(handlers := c.handlers - {CreateKey(c.requests[r]), ErrorKey(c.requests[r])}, fired := c.fired + [Fired(r, false)])
    case JoinFailed(_) => c
    case Message(h) =>
      if h >= |c.rooms| then c
      else if text == JOINED then SetJoined(c, h, true)
      else if text == REMOVED then SetJoined(c, h, false)
      else c
  }

  function HandleEvent(c: Client, name: string, text: string): Client {
    if name in c.handlers then Run1(c, c.handlers[name], text) else c
  }

  function ForgetJoined(rooms: seq<RoomObject>, listed: seq<nat>): seq<RoomObject>
    decreases |listed|
  {
    if listed == [] then rooms
    else if listed[0] < |rooms| then ForgetJoined(rooms[listed[0] := rooms[listed[0]].(joined := false)], listed[1..])
    else ForgetJoined(rooms, listed[1..])
  }

  predicate Enabled(c: Client, s: Step) {
    match s
    case Create(_) => true
    case Join(n, _) => User(n) !in c.joins
    case SendJoin(t) => t in c.joins && !c.joins[t].sent && c.joins[t].room < |c.rooms|
    case List(t) => t in c.joins && c.joins[t].sent
    case Event(_, _) => c.phase.Waiting? && c.connected && Manager !in c.joins
    case Connect => c.phase.Waiting? && !c.connected
    case IdSet => c.phase.Waiting? && c.connected && Manager !in c.joins
    case RejoinNext => c.phase.Rejoining? && c.phase.rest != [] && c.phase.rest[0] < |c.rooms| && Manager !in c.joins
    case RejoinDone => c.phase.Rejoining? && c.phase.rest == [] && Manager !in c.joins
    case Drop => c.phase.Waiting? && c.connected && Manager !in c.joins
    case Forget => c.phase.Dropped?
  }

  function Next(c: Client, s: Step): Client
    requires Enabled(c, s)
  {
    match s
    case Create(uid) => CreateRoom(c, uid)
    case Join(n, roomId) => StartJoin(c, User(n), roomId)
    case SendJoin(t) => SendIfNotJoined(c, t)
    case List(t) => ListRoom(c, t)
    case Event(name, text) => HandleEvent(c, name, text)
    case Connect => c.(connected := true)
    case IdSet => c.(phase := Rejoining(c.listed))
    case RejoinNext =>
      (var h := c.phase.rest[0];
       var c' := c.(phase := Rejoining(c.phase.rest[1..]));
       if c.rooms[h].id == "" then c' else c'.(joins := c.joins[Manager := Joining(h, c.rooms[h].id, false)]))
    case RejoinDone => c.(phase := Waiting)
    case Drop => c.(connected := false, phase := Dropped)
    case Forget => c.(rooms := ForgetJoined(c.rooms, c.listed), phase := Waiting)
  }

  function Run(c: Client, steps: seq<Step>): Option<Client>
    decreases |steps|
  {
    if steps == [] then Some(c)
    else if Enabled(c, steps[0]) then Run(Next(c, steps[0]), steps[1..])
    else None
  }
}
