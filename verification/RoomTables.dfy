/**
 A room in the three tables at once: the managed map, the storage records and the pub/sub
 listeners. Creation and disposal keep them in step.
 */
module RoomTables {
  import opened Sequences
  import opened Wrappers
  import opened Storage
  import opened Fetch = RoomFetcher
  import opened PubSub
  import opened RoomModel

  /** How late the auto-dispose callback may run. */
  const MAX_LATENESS: int := 1_800_000

  // ---------- create_new_room ----------

  /** `candidates` are the ids the generator returns, should it be asked. */
  datatype CreateArgs = CreateArgs(
    registered: bool,
    kind: string,
    owner: SimpleClient,
    overrideId: string,
    candidates: seq<string>,
    onCreateThrows: bool,
    timerAt: int,
    recordAt: int,
    createdAt: int)

  datatype CreateError = NoRoomHandler | IdInUse | NoUniqueId | OnCreateThrew

  /** The id left by the retry loop, "" if none is free: an empty candidate is tried again. */
  function FirstFree(listed: set<string>, candidates: seq<string>): string {
    if candidates == [] then ""
    else if candidates[0] !in listed && candidates[0] != "" then candidates[0]
    else FirstFree(listed, candidates[1..])
  }

  function PickId(listed: set<string>, overrideId: string, candidates: seq<string>): Result<string, CreateError> {
    if overrideId != "" then
      if overrideId in listed then Err(IdInUse) else Ok(overrideId)
    else
      var id := FirstFree(listed, candidates);
      if id == "" then Err(NoUniqueId) else Ok(id)
  }

  datatype Created = Created(rooms: seq<RoomState>, tables: Tables, log: seq<Event>, result: Result<nat, CreateError>)

  function CreateRoom(rooms: seq<RoomState>, tables: Tables, log: seq<Event>, now: int, a: CreateArgs): Created {
    if !a.registered then Created(rooms, tables, log, Err(NoRoomHandler))
    else
      var listed := ListedRooms(tables.entries, now);
      var purged := tables.(entries := Live(tables.entries, now));
      match PickId(listed, a.overrideId, a.candidates)
      case Err(e) => Created(rooms, purged, log, Err(e))
      case Ok(id) =>
        var h := |rooms|;
        var c := Initialize(Core(NewRoom(h, id, a.owner), purged, log), a.onCreateThrows, a.timerAt);
        if a.onCreateThrows then Created(rooms + [c.room], c.tables, c.log, Err(OnCreateThrew))
        else
          var record := RoomSnapshot(id, a.kind, a.owner, "{}", a.createdAt);
          Created(rooms + [c.room],
                  c.tables.(entries := c.tables.entries[RoomKey(id) := NewEntry(Snapshot(record), false, a.recordAt)],
                            managing := c.tables.managing[id := h]),
                  c.log,
                  Ok(h))
  }

  lemma {:induction false} FirstFreeIsFree(listed: set<string>, candidates: seq<string>)
    ensures FirstFree(listed, candidates) != "" ==>
      FirstFree(listed, candidates) in candidates && FirstFree(listed, candidates) !in listed
    ensures FirstFree(listed, candidates) == "" <==> forall x | x in candidates :: x == "" || x in listed
  {
    if candidates == [] {
    } else {
      FirstFreeIsFree(listed, candidates[1..]);
      assert candidates == [candidates[0]] + candidates[1..];
    }
  }

  // ---------- agreement ----------

  /** What the tables hold about a room that is not disposed. */
  predicate Registered(r: RoomState, t: Tables) {
    && r.id in t.managing && t.managing[r.id] == r.handle
    && r.gameSub.Some? && r.leftSub.Some?
    && r.gameSub.value.key == r.id && r.leftSub.value.key == PLAYER_LEFT && r.id != PLAYER_LEFT
    && r.id in t.listeners && t.listeners[r.id] == [Listener(r.gameSub.value.id, GameMessages(r.handle))]
    && Listener(r.leftSub.value.id, PlayerLeft(r.handle)) in Listening(t.listeners, PLAYER_LEFT)
    && r.leftSub.value.id < t.nextSub
    && r.timer.Armed?
    && RoomKey(r.id) in t.entries
    && RecordLasts(t.entries[RoomKey(r.id)], r)
  }

  predicate RecordLasts(e: Entry, r: RoomState) {
    && e.value.Snapshot? && e.value.room.id == r.id
    && e.expiresAt.Some? && r.timer.Armed? && r.timer.due + MAX_LATENESS <= e.expiresAt.value
  }

  predicate Gone(r: RoomState) {
    r.disposing && r.gameSub.None? && r.leftSub.None?
  }

  /** Every managed id leads to a room with that id that is not disposed. */
  predicate ManagedLive(rooms: seq<RoomState>, managing: map<string, nat>) {
    forall id | id in managing ::
      managing[id] < |rooms| && !rooms[managing[id]].disposing && rooms[managing[id]].id == id
  }

  ghost predicate RecordsManaged(entries: Table, managing: map<string, nat>) {
    forall id :: RoomKey(id) in entries ==> id in managing
  }

  predicate ChannelsManaged(listeners: Listeners, managing: map<string, nat>) {
    forall k | k in listeners :: (k in managing || k == PLAYER_LEFT) && listeners[k] != []
  }

  predicate LeftListeners(rooms: seq<RoomState>, list: seq<Listener>) {
    && Distinct(list)
    && (forall l | l in list ::
         && l.handler.PlayerLeft? && l.handler.room < |rooms|
         && !rooms[l.handler.room].disposing
         && rooms[l.handler.room].leftSub == Some(Subscription(PLAYER_LEFT, l.id)))
  }

  /** The tables hold nothing else. */
  ghost predicate NothingElse(rooms: seq<RoomState>, t: Tables) {
    && ManagedLive(rooms, t.managing)
    && RecordsManaged(t.entries, t.managing)
    && ChannelsManaged(t.listeners, t.managing)
    && LeftListeners(rooms, Listening(t.listeners, PLAYER_LEFT))
  }

  predicate RoomsRegistered(rooms: seq<RoomState>, t: Tables) {
    forall r :: 0 <= r < |rooms| ==> rooms[r].handle == r && if rooms[r].disposing then Gone(rooms[r]) else Registered(rooms[r], t)
  }

  ghost predicate TablesAgree(rooms: seq<RoomState>, t: Tables) {
    RoomsRegistered(rooms, t) && NothingElse(rooms, t)
  }

  /** No auto-dispose callback is more than the allowed time late. */
  predicate Punctual(rooms: seq<RoomState>, now: int) {
    forall r :: 0 <= r < |rooms| && !rooms[r].disposing && rooms[r].timer.Armed? ==> now <= rooms[r].timer.due + MAX_LATENESS
  }

  // ---------- a change inside one room ----------

  predicate SameStanding(a: RoomState, b: RoomState) {
    && a.handle == b.handle && a.id == b.id && a.disposing == b.disposing
    && a.gameSub == b.gameSub && a.leftSub == b.leftSub && a.timer == b.timer
  }

  lemma LocalChangeAgrees(rooms: seq<RoomState>, t: Tables, r: nat, room: RoomState)
    requires TablesAgree(rooms, t) && r < |rooms| && SameStanding(rooms[r], room)
    ensures TablesAgree(rooms[r := room], t)
  {
    var rooms' := rooms[r := room];
    assert Registered(rooms[r], t) ==> Registered(room, t);
    assert RoomsRegistered(rooms', t);
    assert forall q :: 0 <= q < |rooms| ==> SameStanding(rooms[q], rooms'[q]);
    assert ManagedLive(rooms', t.managing);
    assert LeftListeners(rooms', Listening(t.listeners, PLAYER_LEFT));
  }

  // ---------- dispose ----------

  /** `t'` is `t` without the room `r`. */
  ghost predicate TakenOut(r: RoomState, t: Tables, t': Tables)
    requires r.leftSub.Some?
  {
    && t'.managing == t.managing - {r.id}
    && t'.entries == t.entries - {RoomKey(r.id)}
    && t'.nextSub == t.nextSub
    && (forall k | k != PLAYER_LEFT :: k in t'.listeners <==> k in t.listeners && k != r.id)
    && (forall k | k in t'.listeners && k != PLAYER_LEFT :: k in t.listeners && t'.listeners[k] == t.listeners[k])
    && (PLAYER_LEFT in t'.listeners ==> t'.listeners[PLAYER_LEFT] != [])
    && Distinct(Listening(t'.listeners, PLAYER_LEFT))
    && (forall l :: l in Listening(t'.listeners, PLAYER_LEFT)
                <==> l in Listening(t.listeners, PLAYER_LEFT) && l.id != r.leftSub.value.id)
  }

  lemma UnsubscribeSole(ls: Listeners, key: string, l: Listener)
    requires key in ls && ls[key] == [l]
    ensures Unsubscribe(ls, key, l.id) == ls - {key}
  {
    assert [l][1..] == [];
    assert WithoutKey([l], IdOf, l.id) == [];
  }

  lemma UnsubscribeOne(ls: Listeners, key: string, id: nat)
    ensures var ls' := Unsubscribe(ls, key, id);
      && Listening(ls', key) == WithoutId(Listening(ls, key), id)
      && (key in ls' ==> ls'[key] != [])
      && (forall k | k != key :: k in ls' <==> k in ls)
      && (forall k | k != key && k in ls :: ls'[k] == ls[k])
  {
  }

  lemma DisposeTakesOut(rooms: seq<RoomState>, t: Tables, r: nat, log: seq<Event>)
    requires TablesAgree(rooms, t) && r < |rooms| && !rooms[r].disposing
    ensures Registered(rooms[r], t) && TakenOut(rooms[r], t, Dispose(Core(rooms[r], t, log)).tables)
  {
    hide Unsubscribe, WithoutId, NothingElse;
    var room := rooms[r];
    assert Registered(room, t);
    var after := t.listeners - {room.id};
    UnsubscribeSole(t.listeners, room.id, Listener(room.gameSub.value.id, GameMessages(r)));
    UnsubscribeOne(after, PLAYER_LEFT, room.leftSub.value.id);
    assert Listening(after, PLAYER_LEFT) == Listening(t.listeners, PLAYER_LEFT);
    WithoutIdMembers(Listening(t.listeners, PLAYER_LEFT), room.leftSub.value.id);
    LeftDistinct(rooms, t);
  }

  lemma LeftDistinct(rooms: seq<RoomState>, t: Tables)
    requires TablesAgree(rooms, t)
    ensures Distinct(Listening(t.listeners, PLAYER_LEFT))
  {
  }

  lemma DisposedRoom(c: Core)
    requires !c.room.disposing
    ensures Gone(Dispose(c).room) && Dispose(c).room.handle == c.room.handle && Dispose(c).room.id == c.room.id
  {
  }

  lemma StillRegistered(q: RoomState, r: RoomState, t: Tables, t': Tables)
    requires Registered(q, t) && Registered(r, t) && q.handle != r.handle && TakenOut(r, t, t')
    requires Distinct(Listening(t.listeners, PLAYER_LEFT))
    ensures Registered(q, t')
  {
    RoomKeyInjective(q.id, r.id);
    var list := Listening(t.listeners, PLAYER_LEFT);
    var lq, lr := Listener(q.leftSub.value.id, PlayerLeft(q.handle)), Listener(r.leftSub.value.id, PlayerLeft(r.handle));
    DistinctMembers(list, lq, lr);
  }

  lemma TakenOutRooms(rooms: seq<RoomState>, t: Tables, r: nat, room: RoomState, t': Tables)
    requires RoomsRegistered(rooms, t) && r < |rooms| && !rooms[r].disposing
    requires Gone(room) && room.handle == r
    requires Registered(rooms[r], t) && TakenOut(rooms[r], t, t')
    requires Distinct(Listening(t.listeners, PLAYER_LEFT))
    ensures RoomsRegistered(rooms[r := room], t')
  {
    hide TakenOut;
    forall q | 0 <= q < |rooms| && q != r && !rooms[q].disposing ensures Registered(rooms[q], t') {
      assert Registered(rooms[q], t);
      StillRegistered(rooms[q], rooms[r], t, t');
    }
  }

  lemma DistinctMembers(list: seq<Listener>, a: Listener, b: Listener)
    requires Distinct(list) && a in list && b in list && a != b
    ensures a.id != b.id
  {
    var i, j :| 0 <= i < |list| && 0 <= j < |list| && list[i] == a && list[j] == b;
    assert i != j;
  }

  lemma NothingElseLeft(rooms: seq<RoomState>, t: Tables, r: nat, room: RoomState, t': Tables)
    requires NothingElse(rooms, t) && r < |rooms| && rooms[r].handle == r && room.disposing
    requires Registered(rooms[r], t) && TakenOut(rooms[r], t, t')
    ensures NothingElse(rooms[r := room], t')
  {
    var rooms' := rooms[r := room];
    assert ManagedLive(rooms', t'.managing);
    forall id | RoomKey(id) in t'.entries ensures id in t'.managing {
      RoomKeyInjective(id, rooms[r].id);
      assert RoomKey(id) in t.entries;
    }
    assert ChannelsManaged(t'.listeners, t'.managing);
    assert LeftListeners(rooms', Listening(t'.listeners, PLAYER_LEFT));
  }

  lemma DisposeAgrees(rooms: seq<RoomState>, t: Tables, r: nat, log: seq<Event>)
    requires TablesAgree(rooms, t) && r < |rooms|
    ensures var c := Dispose(Core(rooms[r], t, log));
      TablesAgree(rooms[r := c.room], c.tables)
  {
    if rooms[r].disposing {
      assert rooms[r := rooms[r]] == rooms;
    } else {
      var c := Dispose(Core(rooms[r], t, log));
      DisposeTakesOut(rooms, t, r, log);
      DisposedRoom(Core(rooms[r], t, log));
      DisposeRooms(rooms, t, r, c.room, c.tables);
    }
  }

  lemma DisposeRooms(rooms: seq<RoomState>, t: Tables, r: nat, room: RoomState, t': Tables)
    requires TablesAgree(rooms, t) && r < |rooms| && !rooms[r].disposing
    requires Gone(room) && room.handle == r
    requires rooms[r].leftSub.Some? && TakenOut(rooms[r], t, t')
    ensures TablesAgree(rooms[r := room], t')
  {
    hide TakenOut;
    TakenOutRooms(rooms, t, r, room, t');
    NothingElseLeft(rooms, t, r, room, t');
  }

  // ---------- initialize and create ----------

  /** `t'` is `t` with a new room `r` in every table. */
  ghost predicate PutIn(r: RoomState, t: Tables, t': Tables) {
    && t'.managing == t.managing[r.id := r.handle]
    && RoomKey(r.id) in t'.entries && t'.entries == t.entries[RoomKey(r.id) := t'.entries[RoomKey(r.id)]]
    && t.nextSub <= t'.nextSub
    && (forall k | k != PLAYER_LEFT :: k in t'.listeners <==> k in t.listeners || k == r.id)
    && (forall k | k in t.listeners && k != PLAYER_LEFT :: k in t'.listeners && t'.listeners[k] == t.listeners[k])
    && r.leftSub.Some?
    && Listening(t'.listeners, PLAYER_LEFT)
       == Listening(t.listeners, PLAYER_LEFT) + [Listener(r.leftSub.value.id, PlayerLeft(r.handle))]
    && r.leftSub.value.id >= t.nextSub
    && r.leftSub.value.key == PLAYER_LEFT
  }

  predicate SubsBelow(list: seq<Listener>, n: nat) {
    forall l | l in list :: l.id < n
  }

  lemma LeftSubsBelow(rooms: seq<RoomState>, t: Tables)
    requires TablesAgree(rooms, t)
    ensures SubsBelow(Listening(t.listeners, PLAYER_LEFT), t.nextSub)
  {
    forall l | l in Listening(t.listeners, PLAYER_LEFT) ensures l.id < t.nextSub {
      assert Registered(rooms[l.handler.room], t);
    }
  }

  lemma KeepsRegistered(q: RoomState, t: Tables, room: RoomState, t': Tables)
    requires Registered(q, t) && q.id != room.id && PutIn(room, t, t')
    ensures Registered(q, t')
  {
    RoomKeyInjective(q.id, room.id);
  }

  lemma PutInRecords(t: Tables, room: RoomState, t': Tables)
    requires RecordsManaged(t.entries, t.managing) && PutIn(room, t, t')
    ensures RecordsManaged(t'.entries, t'.managing)
  {
    forall id | RoomKey(id) in t'.entries ensures id in t'.managing {
      RoomKeyInjective(id, room.id);
    }
  }

  lemma PutInChannels(t: Tables, room: RoomState, t': Tables)
    requires ChannelsManaged(t.listeners, t.managing) && PutIn(room, t, t')
    requires room.id in t'.listeners && t'.listeners[room.id] != []
    ensures ChannelsManaged(t'.listeners, t'.managing)
  {
    forall k | k in t'.listeners ensures (k in t'.managing || k == PLAYER_LEFT) && t'.listeners[k] != [] {
      if k == PLAYER_LEFT {
        assert Listening(t'.listeners, PLAYER_LEFT) != [];
      }
    }
  }

  lemma PutInLeft(rooms: seq<RoomState>, list: seq<Listener>, room: RoomState, n: nat)
    requires LeftListeners(rooms, list) && SubsBelow(list, n)
    requires !room.disposing && room.handle == |rooms| && room.leftSub.Some?
    requires room.leftSub.value.key == PLAYER_LEFT && room.leftSub.value.id >= n
    ensures LeftListeners(rooms + [room], list + [Listener(room.leftSub.value.id, PlayerLeft(room.handle))])
  {
    var l := Listener(room.leftSub.value.id, PlayerLeft(room.handle));
    forall i | 0 <= i < |list| ensures list[i].id != l.id {
      assert list[i] in list;
    }
    assert forall x :: x in list + [l] <==> x in list || x == l;
  }

  lemma PutInAgrees(rooms: seq<RoomState>, t: Tables, room: RoomState, t': Tables)
    requires TablesAgree(rooms, t) && room.id !in t.managing && !room.disposing && room.handle == |rooms|
    requires PutIn(room, t, t') && Registered(room, t')
    ensures TablesAgree(rooms + [room], t')
  {
    LeftSubsBelow(rooms, t);
    PutInRooms(rooms, t, room, t');
    PutInRecords(t, room, t');
    PutInChannels(t, room, t');
    PutInLeft(rooms, Listening(t.listeners, PLAYER_LEFT), room, t.nextSub);
    PutInManaged(rooms, t.managing, room);
  }

  lemma PutInManaged(rooms: seq<RoomState>, managing: map<string, nat>, room: RoomState)
    requires ManagedLive(rooms, managing) && !room.disposing && room.handle == |rooms|
    ensures ManagedLive(rooms + [room], managing[room.id := room.handle])
  {
  }

  lemma PutInRooms(rooms: seq<RoomState>, t: Tables, room: RoomState, t': Tables)
    requires RoomsRegistered(rooms, t) && room.id !in t.managing && !room.disposing && room.handle == |rooms|
    requires PutIn(room, t, t') && Registered(room, t')
    ensures RoomsRegistered(rooms + [room], t')
  {
    hide PutIn;
    forall q | 0 <= q < |rooms| && !rooms[q].disposing ensures Registered(rooms[q], t') {
      assert Registered(rooms[q], t);
      KeepsRegistered(rooms[q], t, room, t');
    }
  }

  lemma SubscribedPutsIn(c: Core, record: Entry, h: nat)
    requires c.room.handle == h && c.room.id != PLAYER_LEFT && c.room.id !in c.tables.listeners
    requires RecordLasts(record, c.room)
    ensures var s := Subscribed(c);
      var t' := s.tables.(entries := s.tables.entries[RoomKey(c.room.id) := record], managing := s.tables.managing[c.room.id := h]);
      PutIn(s.room, c.tables, t') && Registered(s.room, t')
  {
    var left := Listener(c.tables.nextSub + 1, PlayerLeft(h));
    assert left in Listening(c.tables.listeners, PLAYER_LEFT) + [left];
  }

  /** A new disposed room has no trace in the tables. */
  lemma GoneRoomAgrees(rooms: seq<RoomState>, t: Tables, room: RoomState)
    requires TablesAgree(rooms, t) && Gone(room) && room.handle == |rooms|
    ensures TablesAgree(rooms + [room], t)
  {
    var rooms' := rooms + [room];
    assert RoomsRegistered(rooms', t);
    assert ManagedLive(rooms', t.managing);
    assert LeftListeners(rooms', Listening(t.listeners, PLAYER_LEFT));
  }

  /** Purging at a time when every room's record is still good drops no room. */
  lemma PurgeAgrees(rooms: seq<RoomState>, t: Tables, now: int)
    requires TablesAgree(rooms, t) && Punctual(rooms, now)
    ensures TablesAgree(rooms, t.(entries := Live(t.entries, now)))
  {
    var t' := t.(entries := Live(t.entries, now));
    forall r | 0 <= r < |rooms| && !rooms[r].disposing ensures Registered(rooms[r], t') {
      assert Registered(rooms[r], t);
    }
    assert RecordsManaged(t'.entries, t'.managing);
  }

  // ---------- the tables name the same rooms ----------

  predicate HasMessageListener(ls: Listeners, id: string) {
    exists l | l in Listening(ls, id) :: l.handler.GameMessages?
  }

  predicate HasLiveRoom(rooms: seq<RoomState>, id: string) {
    exists r :: 0 <= r < |rooms| && !rooms[r].disposing && rooms[r].id == id
  }

  lemma SameRooms(rooms: seq<RoomState>, t: Tables, now: int, id: string)
    requires TablesAgree(rooms, t) && Punctual(rooms, now)
    ensures id in t.managing <==> FindRoom(t.entries, id, now).Ok?
    ensures id in t.managing <==> id in ListedRooms(t.entries, now)
    ensures id in t.managing <==> HasMessageListener(t.listeners, id)
    ensures id in t.managing <==> HasLiveRoom(rooms, id)
  {
    ListedIffFound(t.entries, id, now);
    if id in t.managing {
      assert Registered(rooms[t.managing[id]], t);
      var l := t.listeners[id][0];
      assert l in Listening(t.listeners, id);
    } else {
      assert RoomKey(id) !in t.entries;
    }
  }

  // ---------- creation is all or nothing ----------

  lemma FailedInitialize(rooms: seq<RoomState>, t: Tables, log: seq<Event>, id: string, owner: SimpleClient)
    requires TablesAgree(rooms, t) && id !in t.managing
    ensures var c := Dispose(Core(NewRoom(|rooms|, id, owner), t, log));
      && c.tables == t && Gone(c.room) && c.room.handle == |rooms|
  {
    assert RoomKey(id) !in t.entries;
    assert t.entries - {RoomKey(id)} == t.entries;
    assert t.managing - {id} == t.managing;
  }

  /** The id picked is free, not empty and not a reserved channel. */
  lemma PickedIsFree(rooms: seq<RoomState>, t: Tables, now: int, a: CreateArgs)
    requires TablesAgree(rooms, t) && Punctual(rooms, now)
    requires a.overrideId != PLAYER_LEFT && PLAYER_LEFT !in a.candidates
    requires PickId(ListedRooms(t.entries, now), a.overrideId, a.candidates).Ok?
    ensures var id := PickId(ListedRooms(t.entries, now), a.overrideId, a.candidates).value;
      id != "" && id != PLAYER_LEFT && id !in t.managing
  {
    hide TablesAgree;
    var listed := ListedRooms(t.entries, now);
    FirstFreeIsFree(listed, a.candidates);
    SameRooms(rooms, t, now, PickId(listed, a.overrideId, a.candidates).value);
  }

  lemma CreateAgrees(rooms: seq<RoomState>, t: Tables, log: seq<Event>, now: int, a: CreateArgs)
    requires TablesAgree(rooms, t) && Punctual(rooms, now) && a.timerAt <= a.recordAt
    requires a.overrideId != PLAYER_LEFT && PLAYER_LEFT !in a.candidates
    ensures var d := CreateRoom(rooms, t, log, now, a);
      TablesAgree(d.rooms, d.tables)
  {
    hide TablesAgree, Punctual, PickId, ListedRooms, Live, Dispose;
    PurgeAgrees(rooms, t, now);
    var purged := t.(entries := Live(t.entries, now));
    var id := PickId(ListedRooms(t.entries, now), a.overrideId, a.candidates);
    if a.registered && id.Ok? {
      PickedIsFree(rooms, t, now, a);
      if a.onCreateThrows {
        FailedInitialize(rooms, purged, log, id.value, a.owner);
        GoneRoomAgrees(rooms, purged, Dispose(Core(NewRoom(|rooms|, id.value, a.owner), purged, log)).room);
      } else {
        CreatedAgrees(rooms, purged, log, id.value, a);
      }
    }
  }

  lemma CreatedAgrees(rooms: seq<RoomState>, t: Tables, log: seq<Event>, id: string, a: CreateArgs)
    requires TablesAgree(rooms, t) && id !in t.managing && id != PLAYER_LEFT && a.timerAt <= a.recordAt
    ensures var c := Initialize(Core(NewRoom(|rooms|, id, a.owner), t, log), false, a.timerAt);
      var record := NewEntry(Snapshot(RoomSnapshot(id, a.kind, a.owner, "{}", a.createdAt)), false, a.recordAt);
      TablesAgree(rooms + [c.room],
                  c.tables.(entries := c.tables.entries[RoomKey(id) := record], managing := c.tables.managing[id := |rooms|]))
  {
    hide TablesAgree, Subscribed;
    var room := NewRoom(|rooms|, id, a.owner).(timer := Armed(a.timerAt + AUTO_DISPOSE_AFTER, false));
    var c := Core(room, t, log);
    var record := NewEntry(Snapshot(RoomSnapshot(id, a.kind, a.owner, "{}", a.createdAt)), false, a.recordAt);
    FreeChannel(rooms, t, id);
    SubscribedPutsIn(c, record, |rooms|);
    SubscribedRoom(c);
    var s := Subscribed(c);
    PutInAgrees(rooms, t, s.room,
                s.tables.(entries := s.tables.entries[RoomKey(id) := record], managing := s.tables.managing[id := |rooms|]));
  }

  lemma FreeChannel(rooms: seq<RoomState>, t: Tables, id: string)
    requires TablesAgree(rooms, t) && id !in t.managing && id != PLAYER_LEFT
    ensures id !in t.listeners
  {
  }

  lemma SubscribedRoom(c: Core)
    ensures var s := Subscribed(c);
      s.room.handle == c.room.handle && s.room.id == c.room.id && s.room.disposing == c.room.disposing
      && s.room.timer == c.room.timer && s.room.clients == c.room.clients && s.log == c.log
  {
  }
}
