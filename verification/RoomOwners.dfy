/**
 What a room keeps of its creation, over every run: its owner, whose session moves with the
 owner's joins, and its timer, which is never early and is cancelled by disposal.
 */
module RoomOwners {
  import opened Wrappers
  import opened Storage
  import opened Fetch = RoomFetcher
  import opened PubSub
  import opened RoomModel
  import opened RoomTrace
  import opened RoomTables
  import opened RoomSystem
  import opened RoomInvariants
  import opened RoomRuns

  // ---------- a join, entry by entry ----------

  /** What a join does to a wait whose listener is called. */
  function WaitAfterJoin(wait: Wait, called: bool, id: string): Wait {
    if called && wait.clientId == id then Wait(wait.clientId, Some(if wait.answer.Some? then wait.answer.value else true), wait.due, true)
    else wait
  }

  lemma WithoutWaitIs(list: seq<nat>, w: nat, x: nat)
    ensures x in WithoutWait(list, w) <==> x in list && x != w
  {
    WithoutWaitMembers(list, w);
  }

  lemma {:induction false} ListenersAnswer(c: Core, listeners: seq<nat>, id: string)
    ensures var c' := CallJoinListeners(c, listeners, id);
      && |c'.room.waits| == |c.room.waits|
      && (forall v :: 0 <= v < |c.room.waits| ==> c'.room.waits[v] == WaitAfterJoin(c.room.waits[v], v in listeners, id))
      && (forall x :: x in c'.room.joinListeners <==>
           x in c.room.joinListeners && !(x in listeners && x < |c.room.waits| && c.room.waits[x].clientId == id))
    decreases |listeners|
  {
    if listeners == [] {
    } else {
      var w := listeners[0];
      var c1 := JoinListener(c, w, id);
      assert listeners == [w] + listeners[1..];
      ListenersAnswer(c1, listeners[1..], id);
      forall x: nat ensures x in c1.room.joinListeners <==>
        x in c.room.joinListeners && !(x == w && w < |c.room.waits| && c.room.waits[w].clientId == id)
      {
        WithoutWaitIs(c.room.joinListeners, w, x);
      }
    }
  }

  /**
   A join appends one entry, and of all waits exactly those for its id that still listen are
   answered, with true, and have their timers cancelled and their listeners taken away.
   */
  lemma JoinAnswersExactly(c: Core, id: string, session: string)
    ensures var c' := AddClient(c, id, session);
      && c'.room.clients == c.room.clients + [Client(id, session, |c.log|)] && c'.tables == c.tables
      && |c'.room.waits| == |c.room.waits|
      && (forall v :: 0 <= v < |c.room.waits| ==>
           c'.room.waits[v] == WaitAfterJoin(c.room.waits[v], v in c.room.joinListeners, id))
      && (forall v :: v in c'.room.joinListeners <==>
           v in c.room.joinListeners && !(v < |c.room.waits| && c.room.waits[v].clientId == id))
  {
    AddClientStanding(c, id, session);
    var client := Client(id, session, |c.log|);
    var added := c.(room := c.room.(clients := c.room.clients + [client], owner := OwnerAfter(c.room.owner, client)),
                    log := c.log + [Joined(c.room.handle, client)]);
    ListenersAnswer(added, added.room.joinListeners, id);
  }

  // ---------- the owner's session ----------

  /** The session of the last join of the room under the owner's id, or the creation's. */
  function OwnerSession(log: seq<Event>, r: nat, owner: SimpleClient): string {
    if log == [] then owner.sessionId
    else
      var last := log[|log| - 1];
      if last.Joined? && last.room == r && owner.id != "" && last.client.id == owner.id then last.client.sessionId
      else OwnerSession(log[..|log| - 1], r, owner)
  }

  predicate OwnerIs(owner: SimpleClient, log: seq<Event>, r: nat, founder: SimpleClient) {
    owner == SimpleClient(founder.id, OwnerSession(log, r, founder), founder.origin, founder.ip)
  }

  /** No client joins room `r` after `log`. */
  predicate NoJoins(log: seq<Event>, log': seq<Event>, r: nat) {
    |log| <= |log'| && log'[..|log|] == log && forall k :: |log| <= k < |log'| ==> !(log'[k].Joined? && log'[k].room == r)
  }

  lemma {:induction false} SessionUnmoved(log: seq<Event>, log': seq<Event>, r: nat, owner: SimpleClient)
    requires NoJoins(log, log', r)
    ensures OwnerSession(log', r, owner) == OwnerSession(log, r, owner)
    decreases |log'|
  {
    if |log| == |log'| {
      assert log' == log;
    } else {
      var before := log'[..|log'| - 1];
      assert before[..|log|] == log;
      SessionUnmoved(log, before, r, owner);
    }
  }

  lemma {:induction false} ListenersNoJoins(c: Core, listeners: seq<nat>, id: string, r: nat)
    ensures var c' := CallJoinListeners(c, listeners, id);
      NoJoins(c.log, c'.log, r) && c'.room.owner == c.room.owner && c'.room.timer == c.room.timer && c'.room.disposing == c.room.disposing
    decreases |listeners|
  {
    if listeners == [] {
      assert c.log[..|c.log|] == c.log;
    } else {
      var c1 := JoinListener(c, listeners[0], id);
      ListenersNoJoins(c1, listeners[1..], id, r);
      var log' := CallJoinListeners(c, listeners, id).log;
      assert c1.log[..|c.log|] == c.log;
      assert log'[..|c.log|] == log'[..|c1.log|][..|c.log|];
      assert forall j :: |c.log| <= j < |c1.log| ==> log'[j] == log'[..|c1.log|][j];
    }
  }

  lemma JoinMovesOwner(c: Core, id: string, session: string, founder: SimpleClient)
    requires OwnerIs(c.room.owner, c.log, c.room.handle, founder)
    ensures var c' := AddClient(c, id, session);
      && OwnerIs(c'.room.owner, c'.log, c.room.handle, founder)
      && c'.room.timer == c.room.timer && c'.room.disposing == c.room.disposing
  {
    var h, client := c.room.handle, Client(id, session, |c.log|);
    var added := c.(room := c.room.(clients := c.room.clients + [client], owner := OwnerAfter(c.room.owner, client)),
                    log := c.log + [Joined(h, client)]);
    assert added.log[..|c.log|] == c.log;
    ListenersNoJoins(added, added.room.joinListeners, id, h);
    SessionUnmoved(added.log, AddClient(c, id, session).log, h, founder);
  }

  // ---------- the auto-dispose timer ----------

  /** 2 h 30 min after it was set, and cancelled exactly when the room is disposed; a room that was given up in on_create has none. */
  predicate TimerIs(room: RoomState, a: CreateArgs) {
    if a.onCreateThrows then room.timer == Unset && room.disposing
    else room.timer == Armed(a.timerAt + 9_000_000, room.disposing)
  }

  /** Nobody joins, the owner stays, and the timer is cancelled by the disposal if there is one. */
  predicate Quiet(c: Core, c': Core) {
    && NoJoins(c.log, c'.log, c.room.handle) && c'.room.owner == c.room.owner && c'.room.handle == c.room.handle
    && (c'.room.disposing == c.room.disposing || (c'.room.disposing && !c.room.disposing))
    && c'.room.timer == (if c'.room.disposing && !c.room.disposing && c.room.timer.Armed? then Armed(c.room.timer.due, true) else c.room.timer)
  }

  lemma {:induction false} LeaveAllNoJoins(room: nat, clients: seq<Client>)
    ensures forall e | e in LeaveAll(room, clients) :: e.Left?
  {
    if clients == [] {
    } else {
      LeaveAllNoJoins(room, clients[1..]);
    }
  }

  lemma DisposeIsQuiet(c: Core)
    ensures Quiet(c, Dispose(c))
  {
    if !c.room.disposing {
      var all := LeaveAll(c.room.handle, c.room.clients);
      LeaveAllNoJoins(c.room.handle, c.room.clients);
      var log' := Dispose(c).log;
      forall k | |c.log| <= k < |log'| ensures !log'[k].Joined? {
        if k < |c.log| + |all| {
          assert log'[k] == all[k - |c.log|] && all[k - |c.log|] in all;
        }
      }
    }
  }

  lemma FinishIsQuiet(c: Core, hook: LeaveHook)
    ensures Quiet(c, FinishRemoval(c, hook).0)
  {
    hide Dispose;
    DisposeIsQuiet(c);
  }

  lemma RemoveIsQuiet(c: Core, session: string, intentional: bool, hook: LeaveHook)
    ensures Quiet(c, RemoveClient(c, session, intentional, hook).0)
  {
    hide FinishRemoval;
    var i := IndexOf(c.room.clients, session);
    if i < |c.room.clients| {
      var out := TakeOut(c, i, intentional);
      FinishIsQuiet(out, hook);
      var log' := FinishRemoval(out, hook).0.log;
      assert log'[..|c.log|] == log'[..|out.log|][..|c.log|];
      assert log'[|c.log|] == log'[..|out.log|][|c.log|];
    }
  }

  lemma TimeoutIsQuiet(c: Core, v: nat)
    ensures Quiet(c, WaitTimeout(c, v))
  {
  }

  // ---------- creations ----------

  /** The creations of a run that made a room, in order. */
  ghost function Founders(w: World, steps: seq<Step>): seq<CreateArgs>
    requires Run(w, steps).Some?
    decreases |steps|
  {
    if steps == [] then []
    else
      var w' := Next(w, steps[0]);
      (if steps[0].Create? && |w'.rooms| > |w.rooms| then [steps[0].args] else []) + Founders(w', steps[1..])
  }

  ghost predicate Founded(rooms: seq<RoomState>, log: seq<Event>, founders: seq<CreateArgs>) {
    && |founders| == |rooms|
    && forall r :: 0 <= r < |rooms| ==> OwnerIs(rooms[r].owner, log, r, founders[r].owner) && TimerIs(rooms[r], founders[r])
  }

  /** A callback is popped only when its timer is due. */
  predicate Due(rooms: seq<RoomState>, worker: Option<Callback>, founders: seq<CreateArgs>, now: int) {
    match worker
    case None => true
    case Some(AutoDispose(r)) => r < |founders| && founders[r].timerAt + 9_000_000 <= now
    case Some(WaitOver(r, v)) => r < |rooms| && v < |rooms[r].waits| && rooms[r].waits[v].due <= now
  }

  lemma OtherRoomsNoJoins(log: seq<Event>, log': seq<Event>, r: nat, q: nat)
    requires Adds(log, log', r) && q != r
    ensures NoJoins(log, log', q)
  {
  }

  lemma FoundedAfter(rooms: seq<RoomState>, log: seq<Event>, founders: seq<CreateArgs>, r: nat, room: RoomState, log': seq<Event>)
    requires Founded(rooms, log, founders) && r < |rooms| && Adds(log, log', r)
    requires OwnerIs(room.owner, log', r, founders[r].owner) && TimerIs(room, founders[r])
    ensures Founded(rooms[r := room], log', founders)
  {
    hide OwnerSession, Adds;
    forall q | 0 <= q < |rooms| && q != r ensures OwnerIs(rooms[q].owner, log', q, founders[q].owner) {
      OtherRoomsNoJoins(log, log', r, q);
      SessionUnmoved(log, log', q, founders[q].owner);
    }
  }

  lemma QuietKeepsFounded(rooms: seq<RoomState>, t: Tables, log: seq<Event>, founders: seq<CreateArgs>, r: nat, c': Core)
    requires Founded(rooms, log, founders) && r < |rooms| && rooms[r].handle == r
    requires Quiet(Core(rooms[r], t, log), c') && Adds(log, c'.log, r)
    ensures Founded(rooms[r := c'.room], c'.log, founders)
  {
    hide OwnerSession;
    SessionUnmoved(log, c'.log, r, founders[r].owner);
    FoundedAfter(rooms, log, founders, r, c'.room, c'.log);
  }

  lemma RoomOf(w: World, r: nat)
    requires Inv(w) && r < |w.rooms|
    ensures w.rooms[r].handle == r && Tracks(w.rooms[r], w.log)
  {
  }

  lemma HandleKeepsFounded(w: World, t: Tid, hook: LeaveHook, founders: seq<CreateArgs>)
    requires Inv(w) && Enabled(w, Handle(t, hook)) && Founded(w.rooms, w.log, founders)
    ensures Founded(HandleLeave(w, t, hook).rooms, HandleLeave(w, t, hook).log, founders)
  {
    hide Inv, RemoveClient, Founded, Quiet, Adds, Tracks;
    var p := w.threads[t].p;
    var r := p.rest[0];
    if r < |w.rooms| {
      var c := CoreOf(w, r);
      RoomOf(w, r);
      RemoveIsQuiet(c, p.session, p.intentional, hook);
      RemoveClientTracks(c, p.session, p.intentional, hook);
      QuietKeepsFounded(w.rooms, w.tables, w.log, founders, r, RemoveClient(c, p.session, p.intentional, hook).0);
    }
  }

  lemma ResumeKeepsFounded(w: World, t: Tid, hook: LeaveHook, founders: seq<CreateArgs>)
    requires Inv(w) && Enabled(w, Resume(t, hook)) && Founded(w.rooms, w.log, founders)
    ensures Founded(ResumeLeave(w, t, hook).rooms, ResumeLeave(w, t, hook).log, founders)
  {
    hide Inv, FinishRemoval, Founded, Quiet, Adds, Tracks;
    var r := w.threads[t].room;
    var c := CoreOf(w, r);
    RoomOf(w, r);
    FinishIsQuiet(c, hook);
    FinishRemovalTracks(c, hook);
    QuietKeepsFounded(w.rooms, w.tables, w.log, founders, r, FinishRemoval(c, hook).0);
  }

  lemma DisposeKeepsFounded(w: World, r: nat, founders: seq<CreateArgs>)
    requires Inv(w) && Founded(w.rooms, w.log, founders)
    ensures Founded(DisposeRoom(w, r).rooms, DisposeRoom(w, r).log, founders)
  {
    hide Inv, Dispose, Founded, Quiet, Adds, Tracks;
    if r < |w.rooms| {
      RoomOf(w, r);
      DisposeIsQuiet(CoreOf(w, r));
      DisposeTracks(CoreOf(w, r));
      QuietKeepsFounded(w.rooms, w.tables, w.log, founders, r, Dispose(CoreOf(w, r)));
    }
  }

  lemma TimerKeepsFounded(w: World, cb: Callback, founders: seq<CreateArgs>)
    requires Inv(w) && Founded(w.rooms, w.log, founders)
    ensures Founded(RunCallback(w, cb).rooms, RunCallback(w, cb).log, founders)
  {
    hide Inv, WaitTimeout, DisposeRoom, Founded, Quiet, Adds, Tracks;
    match cb
    case AutoDispose(r) => DisposeKeepsFounded(w, r, founders);
    case WaitOver(r, v) =>
      if r < |w.rooms| {
        RoomOf(w, r);
        TimeoutIsQuiet(CoreOf(w, r), v);
        WaitTimeoutTracks(CoreOf(w, r), v);
        QuietKeepsFounded(w.rooms, w.tables, w.log, founders, r, WaitTimeout(CoreOf(w, r), v));
      }
  }

  lemma JoinKeepsFounded(w: World, st: Step, founders: seq<CreateArgs>)
    requires Inv(w) && st.Join? && Founded(w.rooms, w.log, founders)
    ensures var w' := JoinRoom(w, st.session, st.id, st.roomId, st.refused); Founded(w'.rooms, w'.log, founders)
  {
    hide Inv, AddClient, JoinRoom, OwnerSession, Adds, Tracks;
    JoinIs(w, st.session, st.id, st.roomId, st.refused);
    if st.roomId in w.tables.managing && !st.refused {
      var r := w.tables.managing[st.roomId];
      var c := CoreOf(w, r);
      RoomOf(w, r);
      JoinMovesOwner(c, st.id, st.session, founders[r].owner);
      AddClientTracks(c, st.id, st.session);
      FoundedAfter(w.rooms, w.log, founders, r, AddClient(c, st.id, st.session).room, AddClient(c, st.id, st.session).log);
    }
  }

  /** A new room has the owner and the timer of its creation. */
  lemma CreationFounds(rooms: seq<RoomState>, t: Tables, log: seq<Event>, now: int, a: CreateArgs)
    requires forall e | e in log :: e.room < |rooms|
    ensures var d := CreateRoom(rooms, t, log, now, a);
      |d.rooms| > |rooms| ==>
        && |d.rooms| == |rooms| + 1 && d.rooms[..|rooms|] == rooms
        && d.rooms[|rooms|].owner == a.owner && TimerIs(d.rooms[|rooms|], a)
        && NoJoins(log, d.log, |rooms|) && Adds(log, d.log, |rooms|)
  {
    hide PickId, ListedRooms, Live;
    var picked := PickId(ListedRooms(t.entries, now), a.overrideId, a.candidates);
    if a.registered && picked.Ok? {
      assert CreateRoom(rooms, t, log, now, a).rooms[..|rooms|] == rooms;
      assert log[..|log|] == log;
    }
  }

  lemma {:induction false} NeverJoined(log: seq<Event>, r: nat, owner: SimpleClient)
    requires forall e | e in log :: e.room != r
    ensures OwnerSession(log, r, owner) == owner.sessionId
  {
    if log == [] {
    } else {
      assert log[|log| - 1] in log;
      NeverJoined(log[..|log| - 1], r, owner);
    }
  }

  lemma EventsKnown(w: World)
    requires Inv(w)
    ensures forall e | e in w.log :: e.room < |w.rooms|
  {
  }

  lemma CreateKeepsFounded(w: World, a: CreateArgs, founders: seq<CreateArgs>)
    requires Inv(w) && Founded(w.rooms, w.log, founders)
    ensures var d := CreateRoom(w.rooms, w.tables, w.log, w.now, a);
      Founded(d.rooms, d.log, if |d.rooms| > |w.rooms| then founders + [a] else founders)
  {
    hide Inv, CreateRoom, OwnerSession, Tracks;
    EventsKnown(w);
    CreationFounds(w.rooms, w.tables, w.log, w.now, a);
    CreateAdds(w.rooms, w.tables, w.log, w.now, a);
    var d, n := CreateRoom(w.rooms, w.tables, w.log, w.now, a), |w.rooms|;
    if |d.rooms| > n {
      NeverJoined(w.log, n, a.owner);
      SessionUnmoved(w.log, d.log, n, a.owner);
      forall q | 0 <= q < n
        ensures OwnerIs(d.rooms[q].owner, d.log, q, founders[q].owner) && TimerIs(d.rooms[q], founders[q])
      {
        assert d.rooms[q] == d.rooms[..n][q];
        OtherRoomsNoJoins(w.log, d.log, n, q);
        SessionUnmoved(w.log, d.log, q, founders[q].owner);
      }
    }
  }

  ghost function FoundersAfter(w: World, st: Step, founders: seq<CreateArgs>): seq<CreateArgs>
    requires Enabled(w, st)
  {
    if st.Create? && |Next(w, st).rooms| > |w.rooms| then founders + [st.args] else founders
  }

  lemma StepKeepsFounded(w: World, st: Step, founders: seq<CreateArgs>)
    requires Inv(w) && Enabled(w, st) && Founded(w.rooms, w.log, founders)
    ensures Founded(Next(w, st).rooms, Next(w, st).log, FoundersAfter(w, st, founders))
  {
    hide Inv, Founded, CreateRoom, JoinRoom, HandleLeave, ResumeLeave, RunCallback, DisposeRoom, WithMetadata, Punctual;
    match st
    case Create(_, a) => CreateKeepsFounded(w, a, founders);
    case Join(_, _, _, _) => JoinKeepsFounded(w, st, founders);
    case Handle(t, hook) => HandleKeepsFounded(w, t, hook, founders);
    case Resume(t, hook) => ResumeKeepsFounded(w, t, hook, founders);
    case RunTimer => TimerKeepsFounded(w, w.worker.value, founders);
    case DisposeNext(t) =>
      var id := w.threads[t].ids[0];
      var w1 := w.(threads := w.threads[t := ShuttingDown(w.threads[t].ids[1..])]);
      if id in w.tables.managing {
        DisposeKeepsFounded(w, w.tables.managing[id], founders);
        SameRoomsDisposed(w, w1, w.tables.managing[id]);
      }
    case _ =>
  }

  lemma SameRoomsDisposed(w: World, w1: World, r: nat)
    requires w1.rooms == w.rooms && w1.tables == w.tables && w1.log == w.log
    ensures DisposeRoom(w1, r).rooms == DisposeRoom(w, r).rooms && DisposeRoom(w1, r).log == DisposeRoom(w, r).log
  {
  }

  /** Waits stay, with their due times, and callbacks wait for their time. */
  lemma StepKeepsDue(w: World, st: Step, founders: seq<CreateArgs>)
    requires Inv(w) && Enabled(w, st) && Founded(w.rooms, w.log, founders) && Due(w.rooms, w.worker, founders, w.now)
    ensures Due(Next(w, st).rooms, Next(w, st).worker, FoundersAfter(w, st, founders), Next(w, st).now)
  {
    hide Inv, OwnerIs, CreateRoom, JoinRoom, HandleLeave, ResumeLeave, RunCallback, DisposeRoom, WithMetadata, Punctual;
    if st.PopTimer? {
      assert st.callback.AutoDispose? ==> TimerIs(w.rooms[st.callback.room], founders[st.callback.room]);
    } else if st.RunTimer? {
    } else {
      StepKeepsWorker(w, st);
      StepKeepsDues(w, st);
    }
  }

  lemma StepKeepsWorker(w: World, st: Step)
    requires Inv(w) && Enabled(w, st) && !st.PopTimer? && !st.RunTimer?
    ensures Next(w, st).worker == w.worker && w.now <= Next(w, st).now
  {
    hide RoomsInv, TimersInv, LockInv, WaitsKnown, RemoveClient, FinishRemoval, CreateRoom, JoinRoom, Dispose, WithMetadata, Punctual;
    if st.Join? {
      JoinIs(w, st.session, st.id, st.roomId, st.refused);
    }
  }

  predicate SameDue(a: seq<Wait>, b: seq<Wait>) {
    |a| <= |b| && forall v :: 0 <= v < |a| ==> b[v].due == a[v].due
  }

  predicate DuesKept(rooms: seq<RoomState>, rooms': seq<RoomState>) {
    |rooms| <= |rooms'| && forall r :: 0 <= r < |rooms| ==> SameDue(rooms[r].waits, rooms'[r].waits)
  }

  lemma RemoveKeepsDues(c: Core, session: string, intentional: bool, hook: LeaveHook)
    ensures SameDue(c.room.waits, RemoveClient(c, session, intentional, hook).0.room.waits)
    ensures SameDue(c.room.waits, FinishRemoval(c, hook).0.room.waits)
    ensures SameDue(c.room.waits, Dispose(c).room.waits)
  {
  }

  lemma OneRoomKeepsDues(rooms: seq<RoomState>, r: nat, room: RoomState)
    requires r < |rooms| && SameDue(rooms[r].waits, room.waits)
    ensures DuesKept(rooms, rooms[r := room])
  {
  }

  lemma StepKeepsDues(w: World, st: Step)
    requires Inv(w) && Enabled(w, st) && !st.PopTimer? && !st.RunTimer?
    ensures DuesKept(w.rooms, Next(w, st).rooms)
  {
    hide RoomsInv, TimersInv, LockInv, DuesKept, SameDue, AddClient, RemoveClient, FinishRemoval, CreateRoom, JoinRoom, Dispose, WithMetadata, Punctual;
    assert DuesKept(w.rooms, w.rooms) by { SameDues(w.rooms); }
    match st
    case Create(_, a) => CreateKeepsDues(w, a);
    case Join(session, id, roomId, refused) =>
      JoinIs(w, session, id, roomId, refused);
      if roomId in w.tables.managing && !refused {
        JoinKeepsDues(CoreOf(w, w.tables.managing[roomId]), id, session);
        OneRoomKeepsDues(w.rooms, w.tables.managing[roomId], AddClient(CoreOf(w, w.tables.managing[roomId]), id, session).room);
      }
    case Handle(t, hook) =>
      var p := w.threads[t].p;
      if p.rest[0] < |w.rooms| {
        RemoveKeepsDues(CoreOf(w, p.rest[0]), p.session, p.intentional, hook);
        OneRoomKeepsDues(w.rooms, p.rest[0], RemoveClient(CoreOf(w, p.rest[0]), p.session, p.intentional, hook).0.room);
      }
    case Resume(t, hook) =>
      RemoveKeepsDues(CoreOf(w, w.threads[t].room), "", false, hook);
      OneRoomKeepsDues(w.rooms, w.threads[t].room, FinishRemoval(CoreOf(w, w.threads[t].room), hook).0.room);
    case DisposeNext(t) =>
      var id := w.threads[t].ids[0];
      if id in w.tables.managing && w.tables.managing[id] < |w.rooms| {
        RemoveKeepsDues(CoreOf(w, w.tables.managing[id]), "", false, Returns);
        OneRoomKeepsDues(w.rooms, w.tables.managing[id], Dispose(CoreOf(w, w.tables.managing[id])).room);
      }
    case _ =>
  }

  lemma SameDues(rooms: seq<RoomState>)
    ensures DuesKept(rooms, rooms)
  {
  }

  lemma JoinKeepsDues(c: Core, id: string, session: string)
    ensures SameDue(c.room.waits, AddClient(c, id, session).room.waits)
  {
    hide AddClient;
    JoinAnswersExactly(c, id, session);
  }

  lemma CreateKeepsDues(w: World, a: CreateArgs)
    requires Inv(w)
    ensures DuesKept(w.rooms, CreateRoom(w.rooms, w.tables, w.log, w.now, a).rooms)
  {
    hide Inv, CreateRoom;
    EventsKnown(w);
    CreateAdds(w.rooms, w.tables, w.log, w.now, a);
    var d := CreateRoom(w.rooms, w.tables, w.log, w.now, a);
    if d.rooms != w.rooms {
      assert forall q :: 0 <= q < |w.rooms| ==> d.rooms[q] == d.rooms[..|w.rooms|][q];
    }
  }

  lemma {:induction false} RunKeepsFounded(w: World, steps: seq<Step>, founders: seq<CreateArgs>)
    requires Inv(w) && Founded(w.rooms, w.log, founders) && Due(w.rooms, w.worker, founders, w.now) && Run(w, steps).Some?
    ensures var w' := Run(w, steps).value;
      Founded(w'.rooms, w'.log, founders + Founders(w, steps)) && Due(w'.rooms, w'.worker, founders + Founders(w, steps), w'.now)
    decreases |steps|
  {
    hide Inv, Enabled, Next, Founded, Due;
    if steps == [] {
      assert founders + [] == founders;
    } else {
      NextKeepsInv(w, steps[0]);
      StepKeepsFounded(w, steps[0], founders);
      StepKeepsDue(w, steps[0], founders);
      var next := FoundersAfter(w, steps[0], founders);
      RunKeepsFounded(Next(w, steps[0]), steps[1..], next);
      assert next + Founders(Next(w, steps[0]), steps[1..]) == founders + Founders(w, steps);
    }
  }

  lemma FoundedInRuns(start: int, steps: seq<Step>)
    requires Run(Init(start), steps).Some?
    ensures var w, founders := Run(Init(start), steps).value, Founders(Init(start), steps);
      Founded(w.rooms, w.log, founders) && Due(w.rooms, w.worker, founders, w.now)
  {
    Reached(start, []);
    RunKeepsFounded(Init(start), steps, []);
    assert [] + Founders(Init(start), steps) == Founders(Init(start), steps);
  }

  // ---------- main results, over every run ----------

  /**
   In every run a room's owner is the one of its creation, with the session of the last client
   that joined the room under a non-empty owner's id, or else the creation's.
   */
  lemma OwnerOverRuns(start: int, steps: seq<Step>, r: nat)
    requires Run(Init(start), steps).Some? && r < |Run(Init(start), steps).value.rooms|
    ensures var w, founders := Run(Init(start), steps).value, Founders(Init(start), steps);
      && |founders| == |w.rooms|
      && w.rooms[r].owner
         == SimpleClient(founders[r].owner.id, OwnerSession(w.log, r, founders[r].owner), founders[r].owner.origin, founders[r].owner.ip)
  {
    hide OwnerSession;
    FoundedInRuns(start, steps);
  }

  /**
   In every run a room has, from its creation on, a timer for 2 h 30 min later, which is
   cancelled exactly when the room is disposed; only a room given up in on_create has none.
   */
  lemma TimerOverRuns(start: int, steps: seq<Step>, r: nat)
    requires Run(Init(start), steps).Some? && r < |Run(Init(start), steps).value.rooms|
    ensures var w, founders := Run(Init(start), steps).value, Founders(Init(start), steps);
      && |founders| == |w.rooms|
      && w.rooms[r].timer == (if founders[r].onCreateThrows then Unset else Armed(founders[r].timerAt + 9_000_000, w.rooms[r].disposing))
  {
    FoundedInRuns(start, steps);
  }

  /** No timer is early: a room is not disposed for its age before 2 h 30 min, nor a wait given up before it is due. */
  lemma TimersNeverEarly(start: int, steps: seq<Step>)
    requires Run(Init(start), steps).Some?
    ensures var w, founders := Run(Init(start), steps).value, Founders(Init(start), steps);
      match w.worker
      case None => true
      case Some(AutoDispose(r)) => r < |founders| && founders[r].timerAt + 9_000_000 <= w.now
      case Some(WaitOver(r, v)) => r < |w.rooms| && v < |w.rooms[r].waits| && w.rooms[r].waits[v].due <= w.now
  {
    FoundedInRuns(start, steps);
  }

  /**
   In every run the scheduler may take a timer, each one once, exactly when it has nothing in
   hand, the timer is due and nobody has cancelled it: a room's age timer when the room is not
   disposed, and a wait's timer when no join has answered it.
   */
  lemma TimersTakenIff(start: int, steps: seq<Step>, r: nat, v: nat)
    requires Run(Init(start), steps).Some? && r < |Run(Init(start), steps).value.rooms|
    ensures var w, founders := Run(Init(start), steps).value, Founders(Init(start), steps);
      && |founders| == |w.rooms|
      && (Enabled(w, PopTimer(AutoDispose(r))) <==>
           && w.worker.None? && AutoDispose(r) !in w.fired
           && !founders[r].onCreateThrows && founders[r].timerAt + 9_000_000 <= w.now && !w.rooms[r].disposing)
      && (Enabled(w, PopTimer(WaitOver(r, v))) <==>
           && w.worker.None? && WaitOver(r, v) !in w.fired
           && v < |w.rooms[r].waits| && w.rooms[r].waits[v].due <= w.now && !w.rooms[r].waits[v].timerCleared)
  {
    hide Run, Enabled, Founders, OwnerSession;
    TimerOverRuns(start, steps, r);
    var w, founders := Run(Init(start), steps).value, Founders(Init(start), steps);
    AgeTimerTaken(w, r, founders[r].onCreateThrows, founders[r].timerAt);
    WaitTimerTaken(w, r, v);
  }

  lemma AgeTimerTaken(w: World, r: nat, thrown: bool, at: int)
    requires r < |w.rooms| && w.rooms[r].timer == if thrown then Unset else Armed(at + 9_000_000, w.rooms[r].disposing)
    ensures Enabled(w, PopTimer(AutoDispose(r))) <==>
      w.worker.None? && AutoDispose(r) !in w.fired && !thrown && at + 9_000_000 <= w.now && !w.rooms[r].disposing
  {
  }

  lemma WaitTimerTaken(w: World, r: nat, v: nat)
    requires r < |w.rooms|
    ensures Enabled(w, PopTimer(WaitOver(r, v))) <==>
      && w.worker.None? && WaitOver(r, v) !in w.fired
      && v < |w.rooms[r].waits| && w.rooms[r].waits[v].due <= w.now && !w.rooms[r].waits[v].timerCleared
  {
  }
}
