/**
 The whole server as a step system at lock granularity. Between two steps other threads
 may run; a thread that waits in allow_reconnection has given up the game lock in the
 middle of a removal and, usually, in the middle of a publish.
 */
module RoomSystem {
  import opened Wrappers
  import opened Storage
  import opened Fetch = RoomFetcher
  import opened PubSub
  import opened RoomModel
  import opened RoomTables

  /** The thread that serves one connection, or one of the program's own. */
  datatype Tid =
    | Connection(session: string)
    | Program(n: nat)

  /** What is left to do of a publish: the session that leaves, and the handlers not yet called. */
  datatype Publish = Publish(session: string, intentional: bool, rest: seq<nat>, closing: bool)

  datatype Thread =
    | Publishing(p: Publish)
    | Waiting(room: nat, wait: nat, p: Publish)
    | ShuttingDown(ids: seq<string>)

  /** A timer callback that the scheduler has taken from its list; it runs when it has the lock. */
  datatype Callback =
    | AutoDispose(room: nat)
    | WaitOver(room: nat, wait: nat)

  datatype World = World(
    now: int,
    lock: Option<Tid>,
    rooms: seq<RoomState>,
    tables: Tables,
    log: seq<Event>,
    threads: map<Tid, Thread>,
    worker: Option<Callback>,
    fired: set<Callback>,
    closed: set<string>)

  datatype Step =
    | Tick(to: int)
    | Create(t: Tid, args: CreateArgs)
    | Join(session: string, id: string, roomId: string, refused: bool)
    | SetMetadata(room: nat, metadata: string)
    | BeginLeave(session: string, closing: bool)
    | Kick(t: Tid, room: nat, session: string)
    | Handle(t: Tid, hook: LeaveHook)
    | Resume(t: Tid, hook: LeaveHook)
    | Finish(t: Tid)
    | PopTimer(callback: Callback)
    | RunTimer
    | BeginShutdown(t: Tid, ids: seq<string>)
    | DisposeNext(t: Tid)

  function Init(now: int): World {
    World(now, None, [], Tables(map[], map[], map[], 0), [], map[], None, {}, {})
  }

  // ---------- one room inside the world ----------

  function CoreOf(w: World, r: nat): Core
    requires r < |w.rooms|
  {
    Core(w.rooms[r], w.tables, w.log)
  }

  function WithCore(w: World, r: nat, c: Core): World
    requires r < |w.rooms|
  {
    w.(rooms := w.rooms[r := c.room], tables := c.tables, log := c.log)
  }

  /** The rooms whose player-left listeners a publish goes through. */
  function RoomsOf(listeners: seq<Listener>): seq<nat> {
    if listeners == [] then [] else [listeners[0].handler.room] + RoomsOf(listeners[1..])
  }

  function TimerDue(w: World, cb: Callback): Option<int> {
    match cb
    case AutoDispose(r) =>
      if r < |w.rooms| && w.rooms[r].timer.Armed? && !w.rooms[r].timer.cleared then Some(w.rooms[r].timer.due) else None
    case WaitOver(r, v) =>
      if r < |w.rooms| && v < |w.rooms[r].waits| && !w.rooms[r].waits[v].timerCleared then Some(w.rooms[r].waits[v].due) else None
  }

  /** A thread that is doing nothing and may take the lock. */
  predicate Idle(w: World, t: Tid) {
    w.lock.None? && t !in w.threads && (t.Connection? ==> t.session !in w.closed)
  }

  // ---------- steps ----------

  ghost predicate Enabled(w: World, s: Step) {
    match s
    case Tick(to) => w.now <= to && Punctual(w.rooms, to)
    case Create(t, a) =>
      && Idle(w, t)
      && w.now <= a.timerAt <= a.recordAt && Punctual(w.rooms, a.recordAt)
      && a.recordAt <= a.timerAt + AUTO_DISPOSE_AFTER + MAX_LATENESS
      && |a.candidates| == 3 && a.overrideId != PLAYER_LEFT && PLAYER_LEFT !in a.candidates
    case Join(session, _, _, _) => Idle(w, Connection(session))
    case SetMetadata(r, _) => w.lock.None? && r < |w.rooms|
    case BeginLeave(session, _) => Idle(w, Connection(session))
    case Kick(t, r, _) => Idle(w, t) && r < |w.rooms|
    case Handle(t, _) => w.lock == Some(t) && t in w.threads && w.threads[t].Publishing? && w.threads[t].p.rest != []
    case Resume(t, _) =>
      && w.lock.None? && t in w.threads && w.threads[t].Waiting?
      && w.threads[t].room < |w.rooms| && w.threads[t].wait < |w.rooms[w.threads[t].room].waits|
      && w.rooms[w.threads[t].room].waits[w.threads[t].wait].answer.Some?
    case Finish(t) =>
      && w.lock == Some(t) && t in w.threads
      && ((w.threads[t].Publishing? && w.threads[t].p.rest == []) || (w.threads[t].ShuttingDown? && w.threads[t].ids == []))
    case PopTimer(cb) => w.worker.None? && cb !in w.fired && TimerDue(w, cb).Some? && TimerDue(w, cb).value <= w.now
    case RunTimer => w.worker.Some? && w.lock.None?
    case BeginShutdown(t, ids) => Idle(w, t) && t.Program? && (forall id :: id in ids <==> id in w.tables.managing)
    case DisposeNext(t) => w.lock == Some(t) && t in w.threads && w.threads[t].ShuttingDown? && w.threads[t].ids != []
  }

  /** The thread goes on after its part of one removal, or sleeps without the lock. */
  function GoOn(w: World, t: Tid, room: nat, waiting: Option<nat>, p: Publish): World {
    match waiting
    case None => w.(threads := w.threads[t := Publishing(p)], lock := Some(t))
    case Some(v) => w.(threads := w.threads[t := Waiting(room, v, p)], lock := None)
  }

  /** The join message handled by every listener of the copied list. */
  function CallJoinHandlers(w: World, list: seq<Listener>, session: string, id: string): World
    decreases |list|
  {
    if list == [] then w
    else
      var h := list[0].handler;
      var w' := if h.GameMessages? && h.room < |w.rooms| then WithCore(w, h.room, AddClient(CoreOf(w, h.room), id, session)) else w;
      CallJoinHandlers(w', list[1..], session, id)
  }

  /** find_room_by_id, then publish to the room's channel; the room's hook may refuse. */
  function JoinRoom(w: World, session: string, id: string, roomId: string, refused: bool): World {
    if FindRoom(w.tables.entries, roomId, w.now).Err? || refused then w
    else CallJoinHandlers(w, Listening(w.tables.listeners, roomId), session, id)
  }

  function HandleLeave(w: World, t: Tid, hook: LeaveHook): World
    requires t in w.threads && w.threads[t].Publishing? && w.threads[t].p.rest != []
  {
    var p := w.threads[t].p;
    var r, rest := p.rest[0], p.(rest := p.rest[1..]);
    if r >= |w.rooms| then GoOn(w, t, r, None, rest)
    else
      var (c, waiting) := RemoveClient(CoreOf(w, r), p.session, p.intentional, hook);
      GoOn(WithCore(w, r, c), t, r, waiting, rest)
  }

  function ResumeLeave(w: World, t: Tid, hook: LeaveHook): World
    requires t in w.threads && w.threads[t].Waiting? && w.threads[t].room < |w.rooms|
  {
    var r, p := w.threads[t].room, w.threads[t].p;
    var (c, waiting) := FinishRemoval(CoreOf(w, r), hook);
    GoOn(WithCore(w, r, c), t, r, waiting, p)
  }

  function DisposeRoom(w: World, r: nat): World {
    if r >= |w.rooms| then w else WithCore(w, r, Dispose(CoreOf(w, r)))
  }

  function RunCallback(w: World, cb: Callback): World {
    match cb
    case AutoDispose(r) => DisposeRoom(w, r)
    case WaitOver(r, v) => if r >= |w.rooms| then w else WithCore(w, r, WaitTimeout(CoreOf(w, r), v))
  }

  ghost function Next(w: World, s: Step): World
    requires Enabled(w, s)
  {
    match s
    case Tick(to) => w.(now := to)
    case Create(_, a) =>
      (var d := CreateRoom(w.rooms, w.tables, w.log, w.now, a);
       w.(rooms := d.rooms, tables := d.tables, log := d.log, now := a.recordAt))
    case Join(session, id, roomId, refused) => JoinRoom(w, session, id, roomId, refused)
    case SetMetadata(r, metadata) =>
      w.(tables := w.tables.(entries := WithMetadata(w.tables.entries, w.rooms[r].id, metadata, w.now, w.now)))
    case BeginLeave(session, closing) =>
      (var rest := RoomsOf(Listening(w.tables.listeners, PLAYER_LEFT));
       GoOn(w, Connection(session), 0, None, Publish(session, false, rest, closing)))
    case Kick(t, r, session) => GoOn(w, t, 0, None, Publish(session, true, [r], false))
    case Handle(t, hook) => HandleLeave(w, t, hook)
    case Resume(t, hook) => ResumeLeave(w, t, hook)
    case Finish(t) =>
      (var th := w.threads[t];
       w.(threads := w.threads - {t}, lock := None,
          closed := w.closed + if th.Publishing? && th.p.closing && t.Connection? then {t.session} else {}))
    case PopTimer(cb) => w.(worker := Some(cb), fired := w.fired + {cb})
    case RunTimer => RunCallback(w, w.worker.value).(worker := None)
    case BeginShutdown(t, ids) => w.(threads := w.threads[t := ShuttingDown(ids)], lock := Some(t))
    case DisposeNext(t) =>
      (var ids := w.threads[t].ids;
       var w' := w.(threads := w.threads[t := ShuttingDown(ids[1..])]);
       if ids[0] in w.tables.managing then DisposeRoom(w', w.tables.managing[ids[0]]) else w')
  }

  ghost function Run(w: World, steps: seq<Step>): Option<World>
    decreases |steps|
  {
    if steps == [] then Some(w)
    else if Enabled(w, steps[0]) then Run(Next(w, steps[0]), steps[1..])
    else None
  }
}
