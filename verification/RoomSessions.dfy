/** What a disconnect does to the session, counted room by room and over whole runs. */
module RoomSessions {
  import opened Sequences
  import opened Wrappers
  import opened Storage
  import opened Fetch = RoomFetcher
  import opened PubSub
  import opened RoomModel
  import opened RoomMonitor
  import opened RoomTrace
  import opened RoomTables
  import opened RoomSystem
  import opened RoomInvariants
  import opened RoomRuns

  // ---------- counting ----------

  lemma {:induction false} MultiplicityRemoveAt(clients: seq<Client>, i: nat, x: string)
    requires i < |clients|
    ensures Multiplicity(clients, x) == Multiplicity(RemoveAt(clients, i), x) + if clients[i].sessionId == x then 1 else 0
  {
    if i == 0 {
      assert RemoveAt(clients, 0) == clients[1..];
    } else {
      MultiplicityRemoveAt(clients[1..], i - 1, x);
      assert RemoveAt(clients, i)[1..] == RemoveAt(clients[1..], i - 1);
    }
  }

  lemma {:induction false} IndexOfMultiplicity(clients: seq<Client>, session: string)
    ensures IndexOf(clients, session) == |clients| <==> Multiplicity(clients, session) == 0
  {
    if clients != [] && clients[0].sessionId != session {
      IndexOfMultiplicity(clients[1..], session);
    }
  }

  lemma FinishRemovalCounts(c: Core, hook: LeaveHook)
    ensures FinishRemoval(c, hook).0.room.clients == c.room.clients
  {
  }

  /**
   A removal takes out exactly one entry of the session, if there is one, and no entry of any
   other session, whatever the hook does and whether or not the room is disposed on the way.
   */
  lemma RemovesExactlyOne(c: Core, session: string, intentional: bool, hook: LeaveHook, x: string)
    ensures var after := RemoveClient(c, session, intentional, hook).0.room.clients;
      Multiplicity(after, x) == Multiplicity(c.room.clients, x)
                                - if x == session && Multiplicity(c.room.clients, session) > 0 then 1 else 0
  {
    var i := IndexOf(c.room.clients, session);
    IndexOfIsFirst(c.room.clients, session);
    IndexOfMultiplicity(c.room.clients, session);
    if i < |c.room.clients| {
      MultiplicityRemoveAt(c.room.clients, i, x);
      FinishRemovalCounts(TakeOut(c, i, intentional), hook);
    }
  }

  /** A removal leaves the session in the room exactly when it was there more than once. */
  lemma StillThereIff(c: Core, session: string, intentional: bool, hook: LeaveHook)
    ensures Multiplicity(RemoveClient(c, session, intentional, hook).0.room.clients, session) > 0
       <==> Multiplicity(c.room.clients, session) >= 2
  {
    RemovesExactlyOne(c, session, intentional, hook, session);
  }

  lemma {:induction false} JoinCountGrows(log: seq<Event>, log': seq<Event>, r: nat, s: string)
    requires log <= log'
    ensures JoinCount(log, r, s) <= JoinCount(log', r, s)
    decreases |log'|
  {
    if |log| == |log'| {
      assert log == log';
    } else {
      JoinCountGrows(log, log'[..|log'| - 1], r, s);
    }
  }

  /** Nobody is in a room more often than they joined it. */
  lemma NoMoreThanJoined(w: World, r: nat, s: string)
    requires Inv(w) && r < |w.rooms|
    ensures Multiplicity(w.rooms[r].clients, s) <= JoinCount(w.log, r, s)
  {
    assert Tracks(w.rooms[r], w.log);
    Conservation(w.log, r, s);
  }

  // ---------- only its own join brings a session in ----------

  function Count(w: World, r: nat, s: string): nat {
    if r < |w.rooms| then Multiplicity(w.rooms[r].clients, s) else 0
  }

  lemma OpCounts(w: World, r: nat, c: Core, q: nat, s: string)
    requires r < |w.rooms| && Multiplicity(c.room.clients, s) <= Count(w, r, s)
    ensures Count(WithCore(w, r, c), q, s) <= Count(w, q, s)
  {
  }

  lemma DisposeCounts(c: Core, s: string)
    ensures Multiplicity(Dispose(c).room.clients, s) <= Multiplicity(c.room.clients, s)
  {
  }

  lemma JoinCounts(w: World, session: string, id: string, roomId: string, refused: bool, q: nat, s: string)
    requires Inv(w)
    ensures var w' := JoinRoom(w, session, id, roomId, refused);
      Count(w', q, s) == Count(w, q, s)
        + if s == session && !refused && roomId in w.tables.managing && q == w.tables.managing[roomId] then 1 else 0
  {
    hide RoomsInv, TimersInv, AddClient, JoinRoom;
    JoinIs(w, session, id, roomId, refused);
    if roomId in w.tables.managing && !refused {
      var r := w.tables.managing[roomId];
      AddClientStanding(CoreOf(w, r), id, session);
      MultiplicityAppend(w.rooms[r].clients, Client(id, session, |w.log|), s);
    }
  }

  lemma CreateCounts(w: World, a: CreateArgs, q: nat, s: string)
    requires Inv(w)
    ensures var d := CreateRoom(w.rooms, w.tables, w.log, w.now, a);
      (if q < |d.rooms| then Multiplicity(d.rooms[q].clients, s) else 0) == Count(w, q, s)
  {
    hide CreateRoom, Tracks;
    CreateAdds(w.rooms, w.tables, w.log, w.now, a);
    var d := CreateRoom(w.rooms, w.tables, w.log, w.now, a);
    if q < |w.rooms| && d.rooms != w.rooms {
      assert d.rooms[q] == d.rooms[..|w.rooms|][q];
    }
  }

  lemma StepCounts(w: World, st: Step, q: nat, s: string)
    requires Inv(w) && Enabled(w, st) && !(st.Join? && st.session == s)
    ensures Count(Next(w, st), q, s) <= Count(w, q, s)
  {
    hide Inv, RemoveClient, FinishRemoval, Dispose, WaitTimeout, CreateRoom, JoinRoom, Punctual;
    match st
    case Create(t, a) => CreateCounts(w, a, q, s);
    case Join(session, id, roomId, refused) => JoinCounts(w, session, id, roomId, refused, q, s);
    case Handle(t, hook) =>
      var p := w.threads[t].p;
      if p.rest[0] < |w.rooms| {
        var c := RemoveClient(CoreOf(w, p.rest[0]), p.session, p.intentional, hook).0;
        RemovesExactlyOne(CoreOf(w, p.rest[0]), p.session, p.intentional, hook, s);
        OpCounts(w, p.rest[0], c, q, s);
      }
    case Resume(t, hook) =>
      var r := w.threads[t].room;
      FinishRemovalCounts(CoreOf(w, r), hook);
      OpCounts(w, r, FinishRemoval(CoreOf(w, r), hook).0, q, s);
    case RunTimer => RunTimerCounts(w, w.worker.value, q, s);
    case DisposeNext(t) =>
      var id := w.threads[t].ids[0];
      if id in w.tables.managing {
        DisposeRoomCounts(w.(threads := w.threads[t := ShuttingDown(w.threads[t].ids[1..])]), w.tables.managing[id], q, s);
      }
    case _ =>
  }

  lemma DisposeRoomCounts(w: World, r: nat, q: nat, s: string)
    ensures Count(DisposeRoom(w, r), q, s) <= Count(w, q, s)
  {
    if r < |w.rooms| {
      DisposeCounts(CoreOf(w, r), s);
    }
  }

  lemma RunTimerCounts(w: World, cb: Callback, q: nat, s: string)
    ensures Count(RunCallback(w, cb), q, s) <= Count(w, q, s)
  {
    match cb
    case AutoDispose(r) => DisposeRoomCounts(w, r, q, s);
    case WaitOver(r, v) =>
      if r < |w.rooms| {
        WaitTimeoutStanding(CoreOf(w, r), v);
      }
  }

  // ---------- the close handler ----------

  /** The connection's thread is in its close handler. */
  predicate IsClosing(w: World, s: string) {
    Connection(s) in w.threads && !w.threads[Connection(s)].ShuttingDown? && w.threads[Connection(s)].p.closing
  }

  /** One entry less where a session is found and has been looked for. */
  function LessOne(n: nat, visited: bool): nat {
    if visited && n > 0 then n - 1 else n
  }

  function StillToVisit(w: World, s: string): seq<nat>
    requires IsClosing(w, s)
  {
    w.threads[Connection(s)].p.rest
  }

  /** The close that began in `w0` has gone this far, or is over: where it has been, one entry of the session is gone. */
  ghost predicate Leaving(w: World, w0: World, s: string) {
    && (s in w.closed || IsClosing(w, s))
    && (s in w.closed ==> forall q :: Count(w, q, s) <= LessOne(Count(w0, q, s), true))
    && (IsClosing(w, s) ==> forall q :: Count(w, q, s) <= LessOne(Count(w0, q, s), q !in StillToVisit(w, s)))
  }

  lemma {:induction false} RoomsOfMembers(listeners: seq<Listener>, l: Listener)
    requires l in listeners
    ensures l.handler.room in RoomsOf(listeners)
  {
    if listeners[0] != l {
      RoomsOfMembers(listeners[1..], l);
    }
  }

  /** Whoever holds a client is subscribed to departures. */
  lemma HoldersSubscribed(w: World, r: nat, s: string)
    requires Inv(w) && r < |w.rooms| && Multiplicity(w.rooms[r].clients, s) > 0
    ensures r in RoomsOf(Listening(w.tables.listeners, PLAYER_LEFT))
  {
    assert Tracks(w.rooms[r], w.log);
    if w.rooms[r].disposing {
      DisposedIsEmpty(w.rooms[r], w.log);
    }
    assert Registered(w.rooms[r], w.tables);
    RoomsOfMembers(Listening(w.tables.listeners, PLAYER_LEFT), Listener(w.rooms[r].leftSub.value.id, PlayerLeft(r)));
  }

  lemma LockFacts(w: World, s: string)
    requires Inv(w)
    ensures IsClosing(w, s) ==> w.threads[Connection(s)].p.session == s && s !in w.closed
  {
  }

  /** Steps that do not concern the session's own thread. */
  lemma OthersKeepLeaving(w: World, w0: World, st: Step, s: string)
    requires Inv(w) && Enabled(w, st) && Leaving(w, w0, s) && !(st.Join? && st.session == s)
    requires var w' := Next(w, st);
      && w'.closed == w.closed && (IsClosing(w, s) <==> IsClosing(w', s))
      && (IsClosing(w, s) ==> StillToVisit(w', s) == StillToVisit(w, s))
    ensures Leaving(Next(w, st), w0, s)
  {
    hide Inv, Enabled, Next, IsClosing, Count;
    forall q ensures Count(Next(w, st), q, s) <= Count(w, q, s) {
      StepCounts(w, st, q, s);
    }
  }

  lemma HandleKeepsLeaving(w: World, w0: World, s: string, hook: LeaveHook)
    requires Inv(w) && Enabled(w, Handle(Connection(s), hook)) && Leaving(w, w0, s) && IsClosing(w, s)
    ensures Leaving(Next(w, Handle(Connection(s), hook)), w0, s)
  {
    hide Inv, RemoveClient, Multiplicity;
    var st := Handle(Connection(s), hook);
    var w' := Next(w, st);
    var p := w.threads[Connection(s)].p;
    LockFacts(w, s);
    forall q: nat ensures Count(w', q, s) <= LessOne(Count(w0, q, s), q !in p.rest[1..]) {
      StepCounts(w, st, q, s);
      assert Count(w, q, s) <= LessOne(Count(w0, q, s), q !in p.rest);
      if q == p.rest[0] {
        if q < |w.rooms| {
          RemovesExactlyOne(CoreOf(w, q), s, p.intentional, hook, s);
        }
      } else {
        assert q in p.rest ==> q in p.rest[1..];
      }
    }
  }

  lemma BeginsLeaving(w: World, s: string)
    requires Inv(w) && Enabled(w, BeginLeave(s, true))
    ensures Leaving(Next(w, BeginLeave(s, true)), w, s)
  {
    hide RoomsInv, TimersInv, Multiplicity;
    var w' := Next(w, BeginLeave(s, true));
    forall q ensures Count(w', q, s) <= LessOne(Count(w, q, s), q !in StillToVisit(w', s)) {
      if Count(w, q, s) > 0 {
        HoldersSubscribed(w, q, s);
      }
    }
  }

  lemma FinishKeepsLeaving(w: World, w0: World, t: Tid, s: string)
    requires Inv(w) && Enabled(w, Finish(t)) && Leaving(w, w0, s)
    ensures Leaving(Next(w, Finish(t)), w0, s)
  {
    hide RoomsInv, TimersInv, Multiplicity;
    LockFacts(w, s);
    var w' := Next(w, Finish(t));
    assert forall q :: Count(w', q, s) == Count(w, q, s);
  }

  lemma JoinKeepsLeaving(w: World, w0: World, st: Step, s: string)
    requires Inv(w) && Enabled(w, st) && Leaving(w, w0, s) && st.Join?
    ensures Leaving(Next(w, st), w0, s)
  {
    hide RoomsInv, TimersInv, Multiplicity, AddClient, JoinRoom;
    JoinIs(w, st.session, st.id, st.roomId, st.refused);
    assert st.session != s;
    OthersKeepLeaving(w, w0, st, s);
  }

  lemma LeavingIsBusy(w: World, w0: World, s: string)
    requires Inv(w) && Leaving(w, w0, s)
    ensures s in w.closed || IsClosing(w, s)
    ensures s in w.closed ==> Connection(s) !in w.threads
  {
  }

  /** What is left to visit changes only in the session's own thread. */
  lemma ClosingUnmoved(w: World, st: Step, s: string)
    requires Inv(w) && Enabled(w, st) && (s in w.closed || IsClosing(w, s))
    requires !st.Finish? && !st.Join? && !(st.Handle? && st.t == Connection(s))
    ensures var w' := Next(w, st);
      && w'.closed == w.closed && (IsClosing(w, s) <==> IsClosing(w', s))
      && (IsClosing(w, s) ==> StillToVisit(w', s) == StillToVisit(w, s))
  {
    hide RoomsInv, TimersInv, RemoveClient, FinishRemoval;
    hide CreateRoom, JoinRoom, Dispose, WaitTimeout, WithMetadata, Punctual;
    LockFacts(w, s);
  }

  lemma StepKeepsLeaving(w: World, w0: World, st: Step, s: string)
    requires Inv(w) && Enabled(w, st) && Leaving(w, w0, s)
    ensures Leaving(Next(w, st), w0, s)
  {
    hide Inv, Enabled, Next, Leaving, IsClosing;
    LeavingIsBusy(w, w0, s);
    if st.Finish? {
      FinishKeepsLeaving(w, w0, st.t, s);
    } else if st.Join? {
      JoinKeepsLeaving(w, w0, st, s);
    } else if st.Handle? && st.t == Connection(s) {
      HandlerIsClosing(w, st, s);
      HandleKeepsLeaving(w, w0, s, st.hook);
    } else {
      ClosingUnmoved(w, st, s);
      OthersKeepLeaving(w, w0, st, s);
    }
  }

  lemma HandlerIsClosing(w: World, st: Step, s: string)
    requires Inv(w) && Enabled(w, st) && st.Handle? && st.t == Connection(s) && (s in w.closed || IsClosing(w, s))
    ensures IsClosing(w, s)
  {
    hide RoomsInv, TimersInv;
  }

  lemma {:induction false} RunKeepsLeaving(w: World, w0: World, steps: seq<Step>, s: string)
    requires Inv(w) && Leaving(w, w0, s) && Run(w, steps).Some?
    ensures Leaving(Run(w, steps).value, w0, s)
    decreases |steps|
  {
    hide Inv, Enabled, Next, Leaving;
    if steps == [] {
    } else {
      NextKeepsInv(w, steps[0]);
      StepKeepsLeaving(w, w0, steps[0], s);
      RunKeepsLeaving(Next(w, steps[0]), w0, steps[1..], s);
    }
  }

  /**
   A close handler begins in a reachable state and anything at all happens: hooks, waits for a
   reconnection, other threads. When it has returned, and ever after, every room holds at
   least one entry of the session less than when it began, or none.
   */
  lemma GoneAfterClose(start: int, before: seq<Step>, s: string, mid: seq<Step>, q: nat)
    requires Run(Init(start), before).Some? && Enabled(Run(Init(start), before).value, BeginLeave(s, true))
    requires var w1 := Next(Run(Init(start), before).value, BeginLeave(s, true));
      Run(w1, mid).Some? && s in Run(w1, mid).value.closed
    ensures var w := Run(Init(start), before).value;
      Count(Run(Next(w, BeginLeave(s, true)), mid).value, q, s) <= LessOne(Count(w, q, s), true)
  {
    Reached(start, before);
    var w := Run(Init(start), before).value;
    ClosedCounts(w, s, mid, q);
  }

  lemma ClosedCounts(w: World, s: string, mid: seq<Step>, q: nat)
    requires Inv(w) && Enabled(w, BeginLeave(s, true))
    requires Run(Next(w, BeginLeave(s, true)), mid).Some? && s in Run(Next(w, BeginLeave(s, true)), mid).value.closed
    ensures Count(Run(Next(w, BeginLeave(s, true)), mid).value, q, s) <= LessOne(Count(w, q, s), true)
  {
    hide Inv, Enabled, Run, Next;
    NextKeepsInv(w, BeginLeave(s, true));
    BeginsLeaving(w, s);
    RunKeepsLeaving(Next(w, BeginLeave(s, true)), w, mid, s);
  }

  // ---------- a session that joined once ----------

  /** Only its own close handler closes a session. */
  lemma OnlyBeginCloses(w: World, st: Step, s: string)
    requires Inv(w) && Enabled(w, st) && s !in w.closed && !IsClosing(w, s) && st != BeginLeave(s, true)
    ensures s !in Next(w, st).closed && !IsClosing(Next(w, st), s)
  {
    hide RoomsInv, TimersInv, RemoveClient, FinishRemoval;
    hide CreateRoom, JoinRoom, Dispose, WaitTimeout, WithMetadata, Punctual;
    if st.Join? {
      JoinIs(w, st.session, st.id, st.roomId, st.refused);
    }
  }

  /** Where in a run the close of a session began. */
  lemma {:induction false} CloseBegan(w: World, steps: seq<Step>, s: string) returns (before: seq<Step>, mid: seq<Step>)
    requires Inv(w) && Run(w, steps).Some? && s !in w.closed && !IsClosing(w, s) && s in Run(w, steps).value.closed
    ensures Run(w, before).Some? && Inv(Run(w, before).value) && Enabled(Run(w, before).value, BeginLeave(s, true))
    ensures Run(Next(Run(w, before).value, BeginLeave(s, true)), mid) == Run(w, steps)
    decreases |steps|
  {
    hide Inv, Enabled, Next, IsClosing;
    if steps[0] == BeginLeave(s, true) {
      before, mid := [], steps[1..];
    } else {
      NextKeepsInv(w, steps[0]);
      OnlyBeginCloses(w, steps[0], s);
      before, mid := CloseBegan(Next(w, steps[0]), steps[1..], s);
      ghost var rest := before;
      before := [steps[0]] + rest;
      assert before[1..] == rest;
    }
  }

  /** A room's log only grows along a run. */
  lemma {:induction false} RunKeepsLog(w: World, steps: seq<Step>)
    requires Inv(w) && Run(w, steps).Some?
    ensures w.log <= Run(w, steps).value.log
    decreases |steps|
  {
    hide Inv, Enabled, Next;
    if steps == [] {
    } else {
      NextKeepsInv(w, steps[0]);
      RunKeepsLog(Next(w, steps[0]), steps[1..]);
    }
  }

  /** Hence a session that joined a room at most once is not in it when its close handler has returned, and never after. */
  lemma GoneIfJoinedOnce(start: int, steps: seq<Step>, s: string, r: nat)
    requires Run(Init(start), steps).Some?
    requires s in Run(Init(start), steps).value.closed && r < |Run(Init(start), steps).value.rooms|
    requires JoinCount(Run(Init(start), steps).value.log, r, s) <= 1
    ensures Multiplicity(Run(Init(start), steps).value.rooms[r].clients, s) == 0
  {
    hide Inv, Run, Enabled, Next;
    NobodyAtStart(start, s);
    var before, mid := CloseBegan(Init(start), steps, s);
    var w := Run(Init(start), before).value;
    ClosedCounts(w, s, mid, r);
    NextKeepsInv(w, BeginLeave(s, true));
    RunKeepsLog(Next(w, BeginLeave(s, true)), mid);
    JoinCountGrows(w.log, Run(Init(start), steps).value.log, r, s);
    if r < |w.rooms| {
      NoMoreThanJoined(w, r, s);
    }
  }

  lemma NobodyAtStart(start: int, s: string)
    ensures Inv(Init(start)) && s !in Init(start).closed && !IsClosing(Init(start), s)
  {
    Reached(start, []);
  }
}
