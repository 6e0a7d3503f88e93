/**
 What one room's methods do to the room, to the tables it shares with the server, and to
 the order of events. The functions are the specification of the class in Rooms.dfy and
 the building blocks of the step system in RoomSystem.dfy.
 */
module RoomModel {
  import opened Sequences
  import opened Wrappers
  import opened Storage
  import Fetch = RoomFetcher
  import opened PubSub

  const PLAYER_LEFT: string := "blueboat-player-left"

  /** 2 h 30 min */
  const AUTO_DISPOSE_AFTER: int := 9_000_000

  /** One entry of clients_; `serial` tells entries apart, as the address of the object does. */
  datatype Client = Client(id: string, sessionId: string, serial: nat)

  /** What the listener, the timer and the waiting thread of one allow_reconnection share. */
  datatype Wait = Wait(clientId: string, answer: Option<bool>, due: int, timerCleared: bool)

  datatype Timer =
    | Unset
    | Armed(due: int, cleared: bool)

  datatype RoomState = RoomState(
    handle: nat,
    id: string,
    owner: SimpleClient,
    clients: seq<Client>,
    disposing: bool,
    joinListeners: seq<nat>,
    waits: seq<Wait>,
    gameSub: Option<Subscription>,
    leftSub: Option<Subscription>,
    timer: Timer)

  /** The tables of the server. `nextSub` numbers subscriptions. */
  datatype Tables = Tables(managing: map<string, nat>, entries: Table, listeners: Listeners, nextSub: nat)

  /** What happens to rooms, in order. Removing an entry and calling on_leave is one event. */
  datatype Event =
    | Joined(room: nat, client: Client)
    | Left(room: nat, client: Client, intentional: bool)
    | WaitStarted(room: nat, wait: nat, clientId: string)
    | Answered(room: nat, wait: nat, reconnected: bool)
    | BeforeDispose(room: nat)
    | OnDispose(room: nat)

  datatype Core = Core(room: RoomState, tables: Tables, log: seq<Event>)

  /** What the hook on_leave does: return, or call allow_reconnection (and later go on). */
  datatype LeaveHook =
    | Returns
    | AllowReconnection(clientId: string, due: int)

  function NewRoom(handle: nat, id: string, owner: SimpleClient): RoomState {
    RoomState(handle, id, owner, [], false, [], [], None, None, Unset)
  }

  // ---------- the client list ----------

  /** Index of the first entry of a session, or the length when there is none. */
  function IndexOf(clients: seq<Client>, session: string): (i: nat)
    ensures i <= |clients|
  {
    if clients == [] || clients[0].sessionId == session then 0 else 1 + IndexOf(clients[1..], session)
  }

  lemma {:induction false} IndexOfIsFirst(clients: seq<Client>, session: string)
    ensures forall j :: 0 <= j < IndexOf(clients, session) ==> clients[j].sessionId != session
    ensures IndexOf(clients, session) < |clients| ==> clients[IndexOf(clients, session)].sessionId == session
  {
    if clients == [] || clients[0].sessionId == session {
    } else {
      IndexOfIsFirst(clients[1..], session);
      assert forall j :: 1 <= j < |clients| ==> clients[j] == clients[1..][j - 1];
    }
  }

  /** Is a client with this id in the list? */
  predicate Present(clients: seq<Client>, id: string) {
    exists c | c in clients :: c.id == id
  }

  // ---------- dispose ----------

  function LeaveAll(room: nat, clients: seq<Client>): seq<Event> {
    if clients == [] then [] else [Left(room, clients[0], true)] + LeaveAll(room, clients[1..])
  }

  function ClearTimer(t: Timer): Timer {
    if t.Armed? then t.(cleared := true) else t
  }

  /** Everyone leaves in the order of the list, then the room is taken out of every table. */
  function Dispose(c: Core): Core {
    var r, t := c.room, c.tables;
    if r.disposing then c
    else
      Core(
        r.(clients := [], disposing := true, gameSub := None, leftSub := None, timer := ClearTimer(r.timer)),
        Tables(
          t.managing - {r.id},
          t.entries - {Fetch.RoomKey(r.id)},
          UnsubscribeAll(UnsubscribeAll(t.listeners, r.gameSub), r.leftSub),
          t.nextSub),
        c.log + LeaveAll(r.handle, r.clients) + [BeforeDispose(r.handle), OnDispose(r.handle)])
  }

  // ---------- remove_client and allow_reconnection ----------

  function DisposeIfEmpty(c: Core): Core {
    if c.room.clients == [] then Dispose(c) else c
  }

  /** Registers the join listener and the timer; the caller then gives up the lock. */
  function StartWait(c: Core, clientId: string, due: int): Core {
    var w := |c.room.waits|;
    c.(room := c.room.(waits := c.room.waits + [Wait(clientId, None, due, false)],
                       joinListeners := c.room.joinListeners + [w]),
       log := c.log + [WaitStarted(c.room.handle, w, clientId)])
  }

  /**
   The rest of remove_client from a point inside on_leave. Some(w) means that the thread now
   waits for w without the lock.
   */
  function FinishRemoval(c: Core, hook: LeaveHook): (Core, Option<nat>) {
    match hook
    case Returns => (DisposeIfEmpty(c), None)
    case AllowReconnection(clientId, due) =>
      if c.room.disposing then (DisposeIfEmpty(c), None)
      else (StartWait(c, clientId, due), Some(|c.room.waits|))
  }

  function TakeOut(c: Core, i: nat, intentional: bool): Core
    requires i < |c.room.clients|
  {
    c.(room := c.room.(clients := RemoveAt(c.room.clients, i)),
       log := c.log + [Left(c.room.handle, c.room.clients[i], intentional)])
  }

  function RemoveClient(c: Core, session: string, intentional: bool, hook: LeaveHook): (Core, Option<nat>) {
    var i := IndexOf(c.room.clients, session);
    if i == |c.room.clients| then (c, None) else FinishRemoval(TakeOut(c, i, intentional), hook)
  }

  // ---------- add_client ----------

  function Self(w: nat): nat {
    w
  }

  function WithoutWait(list: seq<nat>, w: nat): seq<nat> {
    WithoutKey(list, Self, w)
  }

  /** Settles a wait unless it already has its answer, and takes its listener away. */
  function Settle(c: Core, w: nat, reconnected: bool): Core
    requires w < |c.room.waits|
  {
    var wait := c.room.waits[w];
    c.(room := c.room.(waits := c.room.waits[w := wait.(answer := if wait.answer.None? then Some(reconnected) else wait.answer)],
                       joinListeners := WithoutWait(c.room.joinListeners, w)),
       log := c.log + if wait.answer.None? then [Answered(c.room.handle, w, reconnected)] else [])
  }

  /** The join listener of one wait; it also cancels the timer. */
  function JoinListener(c: Core, w: nat, clientId: string): Core {
    if w >= |c.room.waits| || c.room.waits[w].clientId != clientId then c
    else
      var settled := Settle(c, w, true);
      settled.(room := settled.room.(waits := settled.room.waits[w := settled.room.waits[w].(timerCleared := true)]))
  }

  /** on_join_listeners.call, over the listeners present at its start. */
  function CallJoinListeners(c: Core, listeners: seq<nat>, clientId: string): Core
    decreases |listeners|
  {
    if listeners == [] then c
    else CallJoinListeners(JoinListener(c, listeners[0], clientId), listeners[1..], clientId)
  }

  function OwnerAfter(owner: SimpleClient, c: Client): SimpleClient {
    if owner.id != "" && c.id == owner.id then owner.(sessionId := c.sessionId) else owner
  }

  /** add_client and client_has_joined up to the hook on_join. */
  function AddClient(c: Core, id: string, session: string): Core {
    var client := Client(id, session, |c.log|);
    var added := c.(room := c.room.(clients := c.room.clients + [client], owner := OwnerAfter(c.room.owner, client)),
                    log := c.log + [Joined(c.room.handle, client)]);
    CallJoinListeners(added, added.room.joinListeners, id)
  }

  /** The timer of a wait: the answer is whether the client is back by now. */
  function WaitTimeout(c: Core, w: nat): Core {
    if w >= |c.room.waits| then c
    else Settle(c, w, Present(c.room.clients, c.room.waits[w].clientId))
  }

  // ---------- initialize ----------

  function Subscribed(c: Core): Core {
    var game, left := c.tables.nextSub, c.tables.nextSub + 1;
    var h := c.room.handle;
    c.(room := c.room.(gameSub := Some(Subscription(c.room.id, game)), leftSub := Some(Subscription(PLAYER_LEFT, left))),
       tables := c.tables.(
         listeners := Subscribe(Subscribe(c.tables.listeners, c.room.id, Listener(game, GameMessages(h))),
                                PLAYER_LEFT, Listener(left, PlayerLeft(h))),
         nextSub := c.tables.nextSub + 2))
  }

  /** A hook on_create that throws disposes the room before the exception goes on. */
  function Initialize(c: Core, onCreateThrows: bool, timerAt: int): Core {
    if onCreateThrows then Dispose(c)
    else Subscribed(c.(room := c.room.(timer := Armed(timerAt + AUTO_DISPOSE_AFTER, false))))
  }
}
