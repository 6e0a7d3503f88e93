/** The invariant over every run, step by step. */
module RoomRuns {
  import opened Wrappers
  import opened Storage
  import opened Fetch = RoomFetcher
  import opened PubSub
  import opened RoomModel
  import opened RoomMonitor
  import opened RoomTrace
  import opened RoomTables
  import opened RoomSystem
  import opened RoomInvariants

  /** What an operation on one room has to show. */
  ghost predicate GoodOp(w: World, r: nat, c: Core)
    requires r < |w.rooms|
  {
    && RoomsInv(w.rooms[r := c.room], c.tables, c.log) && w.log <= c.log
    && TimerKept(w.rooms[r], c.room)
    && |w.rooms[r].waits| <= |c.room.waits| && (w.rooms[r].disposing ==> c.room.disposing)
  }

  /** Nothing is forgotten from one step to the next. */
  predicate Onward(w: World, w': World) {
    w.log <= w'.log && Grows(w.rooms, w'.rooms)
  }

  lemma OpKeepsInv(w: World, r: nat, c: Core)
    requires Inv(w) && r < |w.rooms| && GoodOp(w, r, c)
    ensures Inv(WithCore(w, r, c)) && Onward(w, WithCore(w, r, c))
  {
    hide RoomsInv, TimersInv;
    TimersAfter(w.rooms, w.now, r, c.room);
  }

  lemma RemoveIsGood(w: World, r: nat, session: string, intentional: bool, hook: LeaveHook)
    requires Inv(w) && r < |w.rooms|
    ensures GoodOp(w, r, RemoveClient(CoreOf(w, r), session, intentional, hook).0)
    ensures var (c, waiting) := RemoveClient(CoreOf(w, r), session, intentional, hook);
      waiting.Some? ==> waiting.value < |c.room.waits|
  {
    RemoveClientKeeps(w.rooms, w.tables, w.log, r, session, intentional, hook);
    RemoveShapes(CoreOf(w, r), session, intentional, hook);
  }

  lemma RemoveShapes(c: Core, session: string, intentional: bool, hook: LeaveHook)
    ensures var (c', waiting) := RemoveClient(c, session, intentional, hook);
      && (waiting.Some? ==> waiting.value < |c'.room.waits|)
      && TimerKept(c.room, c'.room) && |c.room.waits| <= |c'.room.waits| && (c.room.disposing ==> c'.room.disposing)
    ensures var (c', waiting) := FinishRemoval(c, hook);
      && (waiting.Some? ==> waiting.value < |c'.room.waits|)
      && TimerKept(c.room, c'.room) && |c.room.waits| <= |c'.room.waits| && (c.room.disposing ==> c'.room.disposing)
  {
  }

  lemma FinishIsGood(w: World, r: nat, hook: LeaveHook)
    requires Inv(w) && r < |w.rooms|
    ensures GoodOp(w, r, FinishRemoval(CoreOf(w, r), hook).0)
    ensures var (c, waiting) := FinishRemoval(CoreOf(w, r), hook);
      waiting.Some? ==> waiting.value < |c.room.waits|
  {
    FinishRemovalKeeps(w.rooms, w.tables, w.log, r, hook);
    RemoveShapes(CoreOf(w, r), "", false, hook);
  }

  lemma DisposeIsGood(w: World, r: nat)
    requires Inv(w) && r < |w.rooms|
    ensures GoodOp(w, r, Dispose(CoreOf(w, r)))
  {
    DisposeKeeps(w.rooms, w.tables, w.log, r);
  }

  lemma AddIsGood(w: World, r: nat, id: string, session: string)
    requires Inv(w) && r < |w.rooms| && !w.rooms[r].disposing
    ensures GoodOp(w, r, AddClient(CoreOf(w, r), id, session))
  {
    hide AddClient;
    AddClientKeeps(w.rooms, w.tables, w.log, r, id, session);
    AddClientStanding(CoreOf(w, r), id, session);
  }

  lemma TimeoutIsGood(w: World, r: nat, v: nat)
    requires Inv(w) && r < |w.rooms|
    ensures GoodOp(w, r, WaitTimeout(CoreOf(w, r), v))
  {
    hide WaitTimeout;
    WaitTimeoutKeeps(w.rooms, w.tables, w.log, r, v);
    WaitTimeoutStanding(CoreOf(w, r), v);
  }

  // ---------- the steps of threads ----------

  lemma GoOnKeepsInv(w: World, t: Tid, r: nat, waiting: Option<nat>, p: Publish)
    requires Inv(w) && (w.lock == Some(t) || (w.lock.None? && forall u | u in w.threads :: w.threads[u].Waiting?))
    requires t.Connection? ==> t.session !in w.closed
    requires p.closing ==> t == Connection(p.session)
    requires waiting.Some? ==> r < |w.rooms| && waiting.value < |w.rooms[r].waits|
    ensures Inv(GoOn(w, t, r, waiting, p)) && Onward(w, GoOn(w, t, r, waiting, p))
  {
    hide RoomsInv, TimersInv, LockInv, WaitsKnown;
    var th := if waiting.None? then Publishing(p) else Waiting(r, waiting.value, p);
    ThreadMoves(w.lock, w.threads, w.closed, t, th);
    ThreadWaits(w.rooms, w.threads, t, th);
  }

  /** One thread goes on and has the lock, or waits and has given it up; all others wait. */
  lemma ThreadMoves(lock: Option<Tid>, threads: map<Tid, Thread>, closed: set<string>, t: Tid, th: Thread)
    requires LockInv(lock, threads, closed)
    requires lock == Some(t) || (lock.None? && forall u | u in threads :: threads[u].Waiting?)
    requires !th.ShuttingDown? && (t.Connection? ==> t.session !in closed) && (th.p.closing ==> t == Connection(th.p.session))
    ensures LockInv(if th.Waiting? then None else Some(t), threads[t := th], closed)
  {
  }

  lemma ThreadWaits(rooms: seq<RoomState>, threads: map<Tid, Thread>, t: Tid, th: Thread)
    requires WaitsKnown(rooms, threads)
    requires th.Waiting? ==> th.room < |rooms| && th.wait < |rooms[th.room].waits|
    ensures WaitsKnown(rooms, threads[t := th])
  {
  }

  lemma HandleKeepsInv(w: World, t: Tid, hook: LeaveHook)
    requires Inv(w) && Enabled(w, Handle(t, hook))
    ensures Inv(HandleLeave(w, t, hook)) && Onward(w, HandleLeave(w, t, hook))
  {
    hide RoomsInv, TimersInv, RemoveClient;
    var p := w.threads[t].p;
    var r, rest := p.rest[0], p.(rest := p.rest[1..]);
    if r >= |w.rooms| {
      GoOnKeepsInv(w, t, r, None, rest);
    } else {
      var (c, waiting) := RemoveClient(CoreOf(w, r), p.session, p.intentional, hook);
      RemoveIsGood(w, r, p.session, p.intentional, hook);
      OpKeepsInv(w, r, c);
      GoOnKeepsInv(WithCore(w, r, c), t, r, waiting, rest);
    }
  }

  lemma ResumeKeepsInv(w: World, t: Tid, hook: LeaveHook)
    requires Inv(w) && Enabled(w, Resume(t, hook))
    ensures Inv(ResumeLeave(w, t, hook)) && Onward(w, ResumeLeave(w, t, hook))
  {
    hide RoomsInv, TimersInv, FinishRemoval;
    var r, p := w.threads[t].room, w.threads[t].p;
    var (c, waiting) := FinishRemoval(CoreOf(w, r), hook);
    FinishIsGood(w, r, hook);
    OpKeepsInv(w, r, c);
    GoOnKeepsInv(WithCore(w, r, c), t, r, waiting, p);
  }

  /** A channel of a managed id has just the listener of its room. */
  lemma ChannelOfRoom(w: World, id: string)
    requires Inv(w) && id in w.tables.managing
    ensures var r := w.tables.managing[id];
      && r < |w.rooms| && !w.rooms[r].disposing && w.rooms[r].id == id
      && exists g :: Listening(w.tables.listeners, id) == [Listener(g, GameMessages(r))]
  {
    assert Registered(w.rooms[w.tables.managing[id]], w.tables);
    assert Listening(w.tables.listeners, id) == [Listener(w.rooms[w.tables.managing[id]].gameSub.value.id, GameMessages(w.tables.managing[id]))];
  }

  /** A join reaches the one live room with the id, or nobody. */
  lemma JoinIs(w: World, session: string, id: string, roomId: string, refused: bool)
    requires Inv(w)
    ensures var w' := JoinRoom(w, session, id, roomId, refused);
      if refused || roomId !in w.tables.managing then w' == w
      else var r := w.tables.managing[roomId];
        && r < |w.rooms| && !w.rooms[r].disposing && w.rooms[r].id == roomId
        && w' == WithCore(w, r, AddClient(CoreOf(w, r), id, session))
  {
    hide AddClient, FindRoom;
    SameRooms(w.rooms, w.tables, w.now, roomId);
    if roomId in w.tables.managing && !refused {
      ChannelOfRoom(w, roomId);
      var r := w.tables.managing[roomId];
      var g :| Listening(w.tables.listeners, roomId) == [Listener(g, GameMessages(r))];
      var w1 := WithCore(w, r, AddClient(CoreOf(w, r), id, session));
      assert CallJoinHandlers(w1, [Listener(g, GameMessages(r))][1..], session, id) == w1;
    }
  }

  lemma JoinKeepsInv(w: World, session: string, id: string, roomId: string, refused: bool)
    requires Inv(w)
    ensures var w' := JoinRoom(w, session, id, roomId, refused); Inv(w') && Onward(w, w')
  {
    hide RoomsInv, TimersInv, AddClient, JoinRoom;
    JoinIs(w, session, id, roomId, refused);
    if roomId in w.tables.managing && !refused {
      var r := w.tables.managing[roomId];
      AddIsGood(w, r, id, session);
      OpKeepsInv(w, r, AddClient(CoreOf(w, r), id, session));
    }
  }

  lemma DisposeRoomKeepsInv(w: World, r: nat)
    requires Inv(w)
    ensures Inv(DisposeRoom(w, r)) && Onward(w, DisposeRoom(w, r))
  {
    hide RoomsInv, TimersInv, Dispose;
    if r < |w.rooms| {
      DisposeIsGood(w, r);
      OpKeepsInv(w, r, Dispose(CoreOf(w, r)));
    }
  }

  lemma RunTimerKeepsInv(w: World, cb: Callback)
    requires Inv(w)
    ensures Inv(RunCallback(w, cb)) && Onward(w, RunCallback(w, cb))
  {
    hide RoomsInv, TimersInv, WaitTimeout;
    match cb
    case AutoDispose(r) => DisposeRoomKeepsInv(w, r);
    case WaitOver(r, v) =>
      if r < |w.rooms| {
        TimeoutIsGood(w, r, v);
        OpKeepsInv(w, r, WaitTimeout(CoreOf(w, r), v));
      }
  }

  lemma CreateKeepsInv(w: World, t: Tid, a: CreateArgs)
    requires Inv(w) && Enabled(w, Create(t, a))
    ensures Inv(Next(w, Create(t, a))) && Onward(w, Next(w, Create(t, a)))
  {
    hide TablesAgree, AllTrack, CreateRoom, Tracks;
    var d := CreateRoom(w.rooms, w.tables, w.log, w.now, a);
    CreateKeeps(w.rooms, w.tables, w.log, w.now, a);
    CreateClocks(w.rooms, w.tables, w.log, w.now, a);
  }

  lemma CreateClocks(rooms: seq<RoomState>, t: Tables, log: seq<Event>, now: int, a: CreateArgs)
    requires AllTrack(rooms, log) && TimersInv(rooms, now) && now <= a.timerAt <= a.recordAt && Punctual(rooms, a.recordAt)
    requires a.recordAt <= a.timerAt + AUTO_DISPOSE_AFTER + MAX_LATENESS
    ensures TimersInv(CreateRoom(rooms, t, log, now, a).rooms, a.recordAt)
    ensures Grows(rooms, CreateRoom(rooms, t, log, now, a).rooms)
  {
    hide Tracks, CreateRoom;
    CreateAdds(rooms, t, log, now, a);
    var d := CreateRoom(rooms, t, log, now, a);
    assert forall r :: 0 <= r < |rooms| ==> d.rooms[r] == d.rooms[..|rooms|][r] || d.rooms == rooms;
    assert forall r :: 0 <= r < |rooms| ==> d.rooms[r] == rooms[r];
  }

  lemma DisposeNextKeepsInv(w: World, t: Tid)
    requires Inv(w) && Enabled(w, DisposeNext(t))
    ensures Inv(Next(w, DisposeNext(t))) && Onward(w, Next(w, DisposeNext(t)))
  {
    hide RoomsInv, TimersInv, DisposeRoom;
    var ids := w.threads[t].ids;
    var w' := w.(threads := w.threads[t := ShuttingDown(ids[1..])]);
    assert Inv(w');
    if ids[0] in w.tables.managing {
      DisposeRoomKeepsInv(w', w.tables.managing[ids[0]]);
    }
  }

  lemma NextKeepsInv(w: World, s: Step)
    requires Inv(w) && Enabled(w, s)
    ensures Inv(Next(w, s)) && Onward(w, Next(w, s))
  {
    hide RoomsInv;
    match s
    case Tick(to) =>
    case Create(t, a) => CreateKeepsInv(w, t, a);
    case Join(session, id, roomId, refused) => JoinKeepsInv(w, session, id, roomId, refused);
    case SetMetadata(r, metadata) => MetadataKeepsInv(w, r, metadata);
    case BeginLeave(session, closing) =>
      GoOnKeepsInv(w, Connection(session), 0, None, Publish(session, false, RoomsOf(Listening(w.tables.listeners, PLAYER_LEFT)), closing));
    case Kick(t, r, session) => GoOnKeepsInv(w, t, 0, None, Publish(session, true, [r], false));
    case Handle(t, hook) => HandleKeepsInv(w, t, hook);
    case Resume(t, hook) => ResumeKeepsInv(w, t, hook);
    case Finish(t) => FinishKeepsInv(w, t);
    case PopTimer(cb) =>
    case RunTimer => RunTimerKeepsInv(w, w.worker.value);
    case BeginShutdown(t, ids) => BeginShutdownKeepsInv(w, t, ids);
    case DisposeNext(t) => DisposeNextKeepsInv(w, t);
  }

  lemma MetadataKeepsInv(w: World, r: nat, metadata: string)
    requires Inv(w) && Enabled(w, SetMetadata(r, metadata))
    ensures Inv(Next(w, SetMetadata(r, metadata))) && Onward(w, Next(w, SetMetadata(r, metadata)))
  {
    hide TablesAgree, AllTrack, WithMetadata, TimersInv;
    MetadataAgrees(w.rooms, w.tables, w.now, w.rooms[r].id, metadata);
  }

  lemma FinishKeepsInv(w: World, t: Tid)
    requires Inv(w) && Enabled(w, Finish(t))
    ensures Inv(Next(w, Finish(t))) && Onward(w, Next(w, Finish(t)))
  {
    hide RoomsInv, TimersInv;
  }

  lemma BeginShutdownKeepsInv(w: World, t: Tid, ids: seq<string>)
    requires Inv(w) && Enabled(w, BeginShutdown(t, ids))
    ensures Inv(Next(w, BeginShutdown(t, ids))) && Onward(w, Next(w, BeginShutdown(t, ids)))
  {
    hide RoomsInv, TimersInv;
  }

  lemma {:induction false} RunKeepsInv(w: World, steps: seq<Step>)
    requires Inv(w) && Run(w, steps).Some?
    ensures Inv(Run(w, steps).value) && Onward(w, Run(w, steps).value)
    decreases |steps|
  {
    if steps == [] {
    } else {
      NextKeepsInv(w, steps[0]);
      RunKeepsInv(Next(w, steps[0]), steps[1..]);
    }
  }

  /** Every world that any run of any length and any interleaving reaches. */
  lemma Reached(start: int, steps: seq<Step>)
    requires Run(Init(start), steps).Some?
    ensures Inv(Run(Init(start), steps).value)
  {
    RunKeepsInv(Init(start), steps);
  }
}
