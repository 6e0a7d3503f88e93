/** What every step of the server keeps. */
module RoomInvariants {
  import opened Wrappers
  import opened Storage
  import opened Fetch = RoomFetcher
  import opened PubSub
  import opened RoomModel
  import opened RoomMonitor
  import opened RoomTrace
  import opened RoomTables
  import opened RoomSystem

  // ---------- rooms, tables and log ----------

  predicate AllTrack(rooms: seq<RoomState>, log: seq<Event>) {
    && (forall r :: 0 <= r < |rooms| ==> rooms[r].handle == r && Tracks(rooms[r], log))
    && (forall e | e in log :: e.room < |rooms|)
  }

  ghost predicate RoomsInv(rooms: seq<RoomState>, t: Tables, log: seq<Event>) {
    TablesAgree(rooms, t) && AllTrack(rooms, log)
  }

  lemma AllTrackAfter(rooms: seq<RoomState>, log: seq<Event>, r: nat, room: RoomState, log': seq<Event>)
    requires AllTrack(rooms, log) && r < |rooms|
    requires room.handle == r && Tracks(room, log') && Adds(log, log', r)
    ensures AllTrack(rooms[r := room], log')
  {
    hide Tracks;
    forall q | 0 <= q < |rooms| && q != r ensures Tracks(rooms[q], log') {
      TracksFrame(rooms[q], log, log', r);
    }
    forall e | e in log' ensures e.room < |rooms| {
      var i :| 0 <= i < |log'| && log'[i] == e;
      if i < |log| {
        assert log[i] == e && log[i] in log;
      }
    }
  }

  lemma DisposedIsEmpty(room: RoomState, log: seq<Event>)
    requires Tracks(room, log) && room.disposing
    ensures room.clients == []
  {
    EmptyWhenClosed(log, room.handle);
  }

  lemma DisposeKeeps(rooms: seq<RoomState>, t: Tables, log: seq<Event>, r: nat)
    requires RoomsInv(rooms, t, log) && r < |rooms|
    ensures var c := Dispose(Core(rooms[r], t, log));
      RoomsInv(rooms[r := c.room], c.tables, c.log) && log <= c.log
  {
    hide TablesAgree, Tracks;
    var c := Core(rooms[r], t, log);
    DisposeAgrees(rooms, t, r, log);
    DisposeTracks(c);
    AllTrackAfter(rooms, log, r, Dispose(c).room, Dispose(c).log);
  }

  /** A change that does not touch the tables. */
  lemma LocalKeeps(rooms: seq<RoomState>, t: Tables, log: seq<Event>, r: nat, room: RoomState, log': seq<Event>)
    requires RoomsInv(rooms, t, log) && r < |rooms| && SameStanding(rooms[r], room)
    requires Tracks(room, log') && Adds(log, log', r)
    ensures RoomsInv(rooms[r := room], t, log')
  {
    hide TablesAgree, Tracks;
    LocalChangeAgrees(rooms, t, r, room);
    AllTrackAfter(rooms, log, r, room, log');
  }

  lemma FinishRemovalAgrees(rooms: seq<RoomState>, t: Tables, r: nat, c: Core, hook: LeaveHook)
    requires TablesAgree(rooms, t) && r < |rooms| && c.room == rooms[r] && c.tables == t
    ensures var c' := FinishRemoval(c, hook).0;
      TablesAgree(rooms[r := c'.room], c'.tables) && c'.room.handle == rooms[r].handle
  {
    hide TablesAgree;
    if hook.AllowReconnection? && !c.room.disposing {
      LocalChangeAgrees(rooms, t, r, StartWait(c, hook.clientId, hook.due).room);
    } else {
      DisposeAgrees(rooms, t, r, c.log);
      assert rooms[r := rooms[r]] == rooms;
    }
  }

  lemma RemoveClientAgrees(rooms: seq<RoomState>, t: Tables, r: nat, c: Core, session: string, intentional: bool, hook: LeaveHook)
    requires TablesAgree(rooms, t) && r < |rooms| && c.room == rooms[r] && c.tables == t
    ensures var c' := RemoveClient(c, session, intentional, hook).0;
      TablesAgree(rooms[r := c'.room], c'.tables) && c'.room.handle == rooms[r].handle
  {
    hide TablesAgree, FinishRemoval;
    var i := IndexOf(c.room.clients, session);
    if i < |c.room.clients| {
      var c1 := TakeOut(c, i, intentional);
      LocalChangeAgrees(rooms, t, r, c1.room);
      FinishRemovalAgrees(rooms[r := c1.room], t, r, c1, hook);
      assert rooms[r := c1.room][r := FinishRemoval(c1, hook).0.room] == rooms[r := FinishRemoval(c1, hook).0.room];
    } else {
      assert rooms[r := rooms[r]] == rooms;
    }
  }

  lemma FinishRemovalKeeps(rooms: seq<RoomState>, t: Tables, log: seq<Event>, r: nat, hook: LeaveHook)
    requires RoomsInv(rooms, t, log) && r < |rooms|
    ensures var c := FinishRemoval(Core(rooms[r], t, log), hook).0;
      RoomsInv(rooms[r := c.room], c.tables, c.log) && log <= c.log
  {
    hide TablesAgree, Tracks, FinishRemoval;
    var c := Core(rooms[r], t, log);
    FinishRemovalAgrees(rooms, t, r, c, hook);
    FinishRemovalTracks(c, hook);
    AllTrackAfter(rooms, log, r, FinishRemoval(c, hook).0.room, FinishRemoval(c, hook).0.log);
  }

  lemma RemoveClientKeeps(rooms: seq<RoomState>, t: Tables, log: seq<Event>, r: nat, session: string, intentional: bool, hook: LeaveHook)
    requires RoomsInv(rooms, t, log) && r < |rooms|
    ensures var c := RemoveClient(Core(rooms[r], t, log), session, intentional, hook).0;
      RoomsInv(rooms[r := c.room], c.tables, c.log) && log <= c.log
  {
    hide TablesAgree, Tracks, RemoveClient;
    var c := Core(rooms[r], t, log);
    var c' := RemoveClient(c, session, intentional, hook).0;
    RemoveClientAgrees(rooms, t, r, c, session, intentional, hook);
    RemoveClientTracks(c, session, intentional, hook);
    AllTrackAfter(rooms, log, r, c'.room, c'.log);
  }

  lemma {:induction false} CallJoinListenersStanding(c: Core, listeners: seq<nat>, id: string)
    ensures var c' := CallJoinListeners(c, listeners, id);
      && SameStanding(c.room, c'.room) && c'.tables == c.tables && c'.room.clients == c.room.clients
      && |c'.room.waits| == |c.room.waits|
    decreases |listeners|
  {
    if listeners == [] {
    } else {
      CallJoinListenersStanding(JoinListener(c, listeners[0], id), listeners[1..], id);
    }
  }

  lemma AddClientStanding(c: Core, id: string, session: string)
    ensures var c' := AddClient(c, id, session);
      && SameStanding(c.room, c'.room) && c'.tables == c.tables
      && c'.room.clients == c.room.clients + [Client(id, session, |c.log|)]
      && |c'.room.waits| == |c.room.waits|
  {
    var client := Client(id, session, |c.log|);
    var added := c.(room := c.room.(clients := c.room.clients + [client], owner := OwnerAfter(c.room.owner, client)),
                    log := c.log + [Joined(c.room.handle, client)]);
    CallJoinListenersStanding(added, added.room.joinListeners, id);
  }

  lemma AddClientKeeps(rooms: seq<RoomState>, t: Tables, log: seq<Event>, r: nat, id: string, session: string)
    requires RoomsInv(rooms, t, log) && r < |rooms| && !rooms[r].disposing
    ensures var c := AddClient(Core(rooms[r], t, log), id, session);
      RoomsInv(rooms[r := c.room], c.tables, c.log) && log <= c.log
  {
    hide TablesAgree, Tracks, AddClient;
    var c := Core(rooms[r], t, log);
    AddClientTracks(c, id, session);
    AddClientStanding(c, id, session);
    LocalKeeps(rooms, t, log, r, AddClient(c, id, session).room, AddClient(c, id, session).log);
  }

  lemma WaitTimeoutStanding(c: Core, v: nat)
    ensures var c' := WaitTimeout(c, v);
      && SameStanding(c.room, c'.room) && c'.tables == c.tables && c'.room.clients == c.room.clients
      && |c'.room.waits| == |c.room.waits|
  {
  }

  lemma WaitTimeoutKeeps(rooms: seq<RoomState>, t: Tables, log: seq<Event>, r: nat, v: nat)
    requires RoomsInv(rooms, t, log) && r < |rooms|
    ensures var c := WaitTimeout(Core(rooms[r], t, log), v);
      RoomsInv(rooms[r := c.room], c.tables, c.log) && log <= c.log
  {
    hide TablesAgree, Tracks, WaitTimeout;
    var c := Core(rooms[r], t, log);
    WaitTimeoutTracks(c, v);
    WaitTimeoutStanding(c, v);
    LocalKeeps(rooms, t, log, r, WaitTimeout(c, v).room, WaitTimeout(c, v).log);
  }

  /** One room more, empty, and either given up at once or with its timer set. */
  predicate OneMore(rooms: seq<RoomState>, log: seq<Event>, d: Created, timerAt: int) {
    && |d.rooms| == |rooms| + 1 && d.rooms[..|rooms|] == rooms
    && var room := d.rooms[|rooms|];
      && room.handle == |rooms| && room.clients == []
      && Adds(log, d.log, |rooms|) && Tracks(room, d.log)
      && (!room.disposing ==> d.log == log && room.timer == Armed(timerAt + AUTO_DISPOSE_AFTER, false))
  }

  lemma CreateAdds(rooms: seq<RoomState>, t: Tables, log: seq<Event>, now: int, a: CreateArgs)
    requires forall e | e in log :: e.room < |rooms|
    ensures var d := CreateRoom(rooms, t, log, now, a);
      (d.rooms == rooms && d.log == log) || OneMore(rooms, log, d, a.timerAt)
  {
    hide Tracks, Accept, ListedRooms, Live, PickId;
    var id := PickId(ListedRooms(t.entries, now), a.overrideId, a.candidates);
    if a.registered && id.Ok? {
      var room := NewRoom(|rooms|, id.value, a.owner);
      var purged := t.(entries := Live(t.entries, now));
      if a.onCreateThrows {
        NewRoomTracks(room, log);
        DisposeTracks(Core(room, purged, log));
        assert CreateRoom(rooms, t, log, now, a).rooms[..|rooms|] == rooms;
      } else {
        var c := Core(room.(timer := Armed(a.timerAt + AUTO_DISPOSE_AFTER, false)), purged, log);
        SubscribedRoom(c);
        NewRoomTracks(Subscribed(c).room, log);
        assert CreateRoom(rooms, t, log, now, a).rooms[..|rooms|] == rooms;
      }
    }
  }

  lemma AllTrackNew(rooms: seq<RoomState>, log: seq<Event>, rooms': seq<RoomState>, log': seq<Event>)
    requires AllTrack(rooms, log)
    requires |rooms'| == |rooms| + 1 && rooms'[..|rooms|] == rooms && rooms'[|rooms|].handle == |rooms|
    requires Adds(log, log', |rooms|) && Tracks(rooms'[|rooms|], log')
    ensures AllTrack(rooms', log')
  {
    hide Tracks;
    forall q | 0 <= q < |rooms| ensures rooms'[q].handle == q && Tracks(rooms'[q], log') {
      assert rooms'[q] == rooms'[..|rooms|][q] == rooms[q];
      TracksFrame(rooms[q], log, log', |rooms|);
    }
    forall e | e in log' ensures e.room < |rooms'| {
      var i :| 0 <= i < |log'| && log'[i] == e;
      if i < |log| {
        assert log[i] == e && log[i] in log;
      }
    }
  }

  lemma CreateKeeps(rooms: seq<RoomState>, t: Tables, log: seq<Event>, now: int, a: CreateArgs)
    requires RoomsInv(rooms, t, log) && Punctual(rooms, now) && a.timerAt <= a.recordAt
    requires a.overrideId != PLAYER_LEFT && PLAYER_LEFT !in a.candidates
    ensures var d := CreateRoom(rooms, t, log, now, a);
      RoomsInv(d.rooms, d.tables, d.log) && log <= d.log
  {
    hide TablesAgree, Tracks, CreateRoom, Punctual;
    CreateAgrees(rooms, t, log, now, a);
    CreateAdds(rooms, t, log, now, a);
    var d := CreateRoom(rooms, t, log, now, a);
    if d.rooms != rooms {
      AllTrackNew(rooms, log, d.rooms, d.log);
    }
  }

  // ---------- clocks ----------

  /** Timers were set in the past, and none is overdue beyond the allowed lateness. */
  predicate TimersInv(rooms: seq<RoomState>, now: int) {
    && Punctual(rooms, now)
    && (forall r :: 0 <= r < |rooms| && !rooms[r].disposing && rooms[r].timer.Armed? ==>
         rooms[r].timer.due <= now + AUTO_DISPOSE_AFTER)
  }

  lemma TimersAfter(rooms: seq<RoomState>, now: int, r: nat, room: RoomState)
    requires TimersInv(rooms, now) && r < |rooms|
    requires room.disposing || (!rooms[r].disposing && room.timer == rooms[r].timer)
    ensures TimersInv(rooms[r := room], now)
  {
  }

  /** Either the room is disposed or its timer is as before. */
  predicate TimerKept(a: RoomState, b: RoomState) {
    b.disposing || (!a.disposing && b.timer == a.timer)
  }

  // ---------- metadata ----------

  lemma MetadataAgrees(rooms: seq<RoomState>, t: Tables, now: int, id: string, metadata: string)
    requires TablesAgree(rooms, t) && TimersInv(rooms, now)
    ensures TablesAgree(rooms, t.(entries := WithMetadata(t.entries, id, metadata, now, now)))
  {
    if FindRoom(t.entries, id, now).Ok? {
      assert RoomKey(id) in t.entries && id in t.managing;
      var r := t.managing[id];
      assert Registered(rooms[r], t);
      var e := NewEntry(Snapshot(FindRoom(t.entries, id, now).value.(metadata := metadata)), false, now);
      var t' := t.(entries := t.entries[RoomKey(id) := e]);
      assert RecordLasts(e, rooms[r]);
      forall q | 0 <= q < |rooms| && !rooms[q].disposing ensures Registered(rooms[q], t') {
        assert Registered(rooms[q], t);
        RoomKeyInjective(rooms[q].id, id);
      }
      assert RecordsManaged(t'.entries, t'.managing) by {
        forall x | RoomKey(x) in t'.entries ensures x in t'.managing {
          RoomKeyInjective(x, id);
        }
      }
    }
  }

  // ---------- threads and the lock ----------

  /** Mutual exclusion: a thread is in the middle of something exactly while it has the lock or waits. */
  predicate LockInv(lock: Option<Tid>, threads: map<Tid, Thread>, closed: set<string>) {
    && (lock.Some? ==> lock.value in threads && !threads[lock.value].Waiting?)
    && (forall t | t in threads && !threads[t].Waiting? :: lock == Some(t))
    && (forall t | t in threads && t.Connection? :: t.session !in closed)
    && (forall t | t in threads && !threads[t].ShuttingDown? && threads[t].p.closing :: t == Connection(threads[t].p.session))
  }

  predicate WaitsKnown(rooms: seq<RoomState>, threads: map<Tid, Thread>) {
    forall t | t in threads && threads[t].Waiting? ::
      threads[t].room < |rooms| && threads[t].wait < |rooms[threads[t].room].waits|
  }

  /** Rooms are never forgotten and waits never removed. */
  predicate Grows(a: seq<RoomState>, b: seq<RoomState>) {
    |a| <= |b| && forall r :: 0 <= r < |a| ==> |a[r].waits| <= |b[r].waits| && (a[r].disposing ==> b[r].disposing)
  }

  ghost predicate Inv(w: World) {
    && RoomsInv(w.rooms, w.tables, w.log)
    && TimersInv(w.rooms, w.now)
    && LockInv(w.lock, w.threads, w.closed)
    && WaitsKnown(w.rooms, w.threads)
  }
}
