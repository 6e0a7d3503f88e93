/**
 The room and the server as objects that their methods update in place. Each method is
 proved against the function of RoomModel.dfy or RoomTables.dfy that the results about runs
 are about. A hook is a parameter; `log` records what hooks and clients see, in order.
 */
module Rooms {
  import opened Sequences
  import opened Wrappers
  import opened Storage
  import opened PubSub
  import opened RoomTables
  import opened Model = RoomModel
  import Fetch = RoomFetcher
  import Callbacks

  // ---------- the join listeners ----------

  predicate NoneOnce(entries: seq<Callbacks.Entry>) {
    entries == [] || (!entries[0].once && NoneOnce(entries[1..]))
  }

  lemma {:induction false} CallAll(entries: seq<Callbacks.Entry>)
    requires NoneOnce(entries)
    ensures Callbacks.Calls(entries) == Callbacks.Ids(entries)
    ensures var after := Callbacks.WithoutSpent(Callbacks.Called(entries));
      NoneOnce(after) && Callbacks.Ids(after) == Callbacks.Ids(entries)
  {
    if entries == [] {
    } else {
      CallAll(entries[1..]);
    }
  }

  lemma {:induction false} RemoveListener(entries: seq<Callbacks.Entry>, w: nat)
    requires NoneOnce(entries)
    ensures NoneOnce(Callbacks.WithoutId(entries, w))
    ensures Callbacks.Ids(Callbacks.WithoutId(entries, w)) == WithoutWait(Callbacks.Ids(entries), w)
  {
    if entries == [] {
    } else {
      RemoveListener(entries[1..], w);
    }
  }

  lemma {:induction false} AddListener(entries: seq<Callbacks.Entry>, w: nat)
    requires NoneOnce(entries)
    ensures NoneOnce(entries + [Callbacks.Entry(w, false, false)])
    ensures Callbacks.Ids(entries + [Callbacks.Entry(w, false, false)]) == Callbacks.Ids(entries) + [w]
  {
    var e := Callbacks.Entry(w, false, false);
    if entries == [] {
      assert [e][1..] == [];
    } else {
      assert (entries + [e])[1..] == entries[1..] + [e];
      AddListener(entries[1..], w);
    }
  }

  lemma {:induction false} IdsBelow(entries: seq<Callbacks.Entry>, n: nat)
    requires Callbacks.Below(entries, n)
    ensures forall w | w in Callbacks.Ids(entries) :: w < n
  {
    if entries == [] {
    } else {
      IdsBelow(entries[1..], n);
    }
  }

  // ---------- the room ----------

  class Room {
    const server: Server
    const handle: nat
    const joinListeners: Callbacks.Callback
    var id: string
    var owner: SimpleClient
    var clients: seq<Client>
    var disposing: bool
    var waits: seq<Wait>
    var gameSub: Option<Subscription>
    var leftSub: Option<Subscription>
    var timer: Timer

    /** The join listener of a wait has the number of the wait. */
    ghost predicate Valid()
      reads this, joinListeners
    {
      && server.fetcher.storage == server.storage
      && joinListeners.nextId == |waits|
      && NoneOnce(joinListeners.entries)
      && Callbacks.Below(joinListeners.entries, |waits|)
    }

    ghost function State(): RoomState
      reads this, joinListeners
    {
      RoomState(handle, id, owner, clients, disposing, Callbacks.Ids(joinListeners.entries), waits, gameSub, leftSub, timer)
    }

    ghost function View(): Core
      reads this, joinListeners, server, server.pubsub, server.storage
    {
      Core(State(), server.TablesNow(), server.log)
    }

    constructor (server: Server, handle: nat)
      requires server.fetcher.storage == server.storage
      ensures Valid() && this.server == server && fresh(joinListeners)
      ensures State() == NewRoom(handle, "", SimpleClient("", "", "", ""))
    {
      this.server, this.handle := server, handle;
      joinListeners := new Callbacks.Callback();
      id, owner := "", SimpleClient("", "", "", "");
      clients, disposing, waits := [], false, [];
      gameSub, leftSub, timer := None, None, Unset;
    }

    method Initialize(id: string, owner: SimpleClient, onCreateThrows: bool, timerAt: int)
      requires Valid() && State() == NewRoom(handle, "", SimpleClient("", "", "", ""))
      modifies this, joinListeners, server`managing, server`log, server.pubsub, server.storage
      ensures Valid()
      ensures View() == Model.Initialize(
                          Core(NewRoom(handle, id, owner), old(server.TablesNow()), old(server.log)), onCreateThrows, timerAt)
      ensures onCreateThrows || server.managing == old(server.managing)
    {
      this.id, this.owner := id, owner;
      if onCreateThrows {
        Dispose(_ => Returns);
        return;
      }
      timer := Armed(timerAt + AUTO_DISPOSE_AFTER, false);
      PubSubListener();
    }

    method PubSubListener()
      requires Valid()
      modifies this`gameSub, this`leftSub, server.pubsub
      ensures Valid() && View() == Subscribed(old(View()))
    {
      var game := server.pubsub.On(id, GameMessages(handle));
      gameSub := Some(game);
      var left := server.pubsub.On(PLAYER_LEFT, PlayerLeft(handle));
      leftSub := Some(left);
    }

    /**
     Whatever the hooks of the leaving clients do, even with one session several times in the
     list, everyone leaves in the order of the list and nobody is left.
     */
    method Dispose(hooks: nat -> LeaveHook)
      requires Valid()
      modifies this, joinListeners, server`managing, server`log, server.pubsub, server.storage
      ensures Valid() && View() == Model.Dispose(old(View()))
      ensures server.managing == if old(disposing) then old(server.managing) else old(server.managing) - {id}
      ensures disposing && id == old(id)
      ensures !old(disposing) ==> clients == [] && server.storage.entries == old(server.storage.entries) - {Fetch.RoomKey(id)}
      decreases if disposing then 0 else 3
    {
      if disposing {
        return;
      }
      disposing := true;
      EveryoneLeaves(hooks);
      Close();
      LeaveAllThen(old(server.log), LeaveAll(handle, old(clients)), BeforeDispose(handle), OnDispose(handle));
    }

    /** The rest of dispose: the room leaves every table. */
    method Close()
      requires Valid()
      modifies this, server`managing, server`log, server.pubsub, server.storage
      ensures Valid() && server.managing == old(server.managing) - {id}
      ensures State() == old(State()).(gameSub := None, leftSub := None, timer := ClearTimer(old(timer)))
      ensures server.log == old(server.log) + [BeforeDispose(handle)] + [OnDispose(handle)]
      ensures server.TablesNow() == Tables(
                                      old(server.TablesNow()).managing - {id},
                                      old(server.storage.entries) - {Fetch.RoomKey(id)},
                                      UnsubscribeAll(UnsubscribeAll(old(server.pubsub.listeners), old(gameSub)), old(leftSub)),
                                      old(server.pubsub.nextId))
    {
      HandlesWithout(server.managing, id);
      server.Observe(BeforeDispose(handle));
      timer := ClearTimer(timer);
      server.fetcher.RemoveRoom(id);
      Unsubscribe();
      server.Observe(OnDispose(handle));
      server.OnRoomDisposed(id);
    }

    /** The loop of dispose, over the sessions there were at its start. */
    method EveryoneLeaves(hooks: nat -> LeaveHook)
      requires Valid() && disposing
      modifies this, joinListeners, server`managing, server`log, server.pubsub, server.storage
      ensures Valid() && server.managing == old(server.managing)
      ensures View() == Core(old(State()).(clients := []), old(server.TablesNow()), old(server.log) + LeaveAll(handle, old(clients)))
      decreases 2
    {
      hide Model.RemoveClient;
      var snapshot := clients;
      ghost var start := View();
      var i := 0;
      while i < |snapshot|
        invariant i <= |snapshot| && Valid()
        invariant View() == Core(start.room.(clients := snapshot[i..]), start.tables, server.log)
        invariant server.log + LeaveAll(handle, snapshot[i..]) == start.log + LeaveAll(handle, snapshot)
        invariant server.managing == old(server.managing)
      {
        assert snapshot[i..][0] == snapshot[i] && snapshot[i..][1..] == snapshot[i + 1..];
        LeaveOne(View(), hooks(i));
        LeaveAllStep(handle, server.log, snapshot[i..]);
        var _ := RemoveClient(snapshot[i].sessionId, true, hooks(i));
        i := i + 1;
      }
      assert snapshot[i..] == [];
    }

    method Unsubscribe()
      modifies this`gameSub, this`leftSub, server.pubsub
      ensures gameSub == None && leftSub == None && server.pubsub.nextId == old(server.pubsub.nextId)
      ensures server.pubsub.listeners
           == UnsubscribeAll(UnsubscribeAll(old(server.pubsub.listeners), old(gameSub)), old(leftSub))
    {
      if gameSub.Some? {
        server.pubsub.Off(gameSub.value);
        gameSub := None;
      }
      if leftSub.Some? {
        server.pubsub.Off(leftSub.value);
        leftSub := None;
      }
    }

    /** The first entry of the session leaves. Some(w): the thread gives up the lock to wait for w. */
    method RemoveClient(session: string, intentional: bool, hook: LeaveHook) returns (waiting: Option<nat>)
      requires Valid()
      modifies this, joinListeners, server`managing, server`log, server.pubsub, server.storage
      ensures Valid() && (View(), waiting) == Model.RemoveClient(old(View()), session, intentional, hook)
      ensures old(disposing) ==> server.managing == old(server.managing)
      decreases if disposing then 1 else 4
    {
      var i := 0;
      while i < |clients| && clients[i].sessionId != session
        invariant i <= |clients|
        invariant IndexOf(clients, session) == i + IndexOf(clients[i..], session)
      {
        assert clients[i..][1..] == clients[i + 1..];
        i := i + 1;
      }
      if i == |clients| {
        return None;
      }
      assert clients[i..][0] == clients[i];
      var client := clients[i];
      clients := clients[..i] + clients[i + 1..];
      server.Observe(Left(handle, client, intentional));
      assert View() == TakeOut(old(View()), i, intentional);
      waiting := FinishRemoval(hook);
    }

    /** on_leave from some point on, and what remove_client does after it. */
    method FinishRemoval(hook: LeaveHook) returns (waiting: Option<nat>)
      requires Valid()
      modifies this, joinListeners, server`managing, server`log, server.pubsub, server.storage
      ensures Valid() && (View(), waiting) == Model.FinishRemoval(old(View()), hook)
      ensures old(disposing) ==> server.managing == old(server.managing)
      decreases if disposing then 1 else 4, 0
    {
      if hook.AllowReconnection? {
        waiting := AllowReconnection(hook.clientId, hook.due);
        if waiting.Some? {
          return;
        }
      }
      waiting := None;
      if clients == [] {
        Dispose(_ => Returns);
      }
    }

    /** Up to the point where the lock is given up; None is the answer false at once. */
    method AllowReconnection(clientId: string, due: int) returns (waiting: Option<nat>)
      requires Valid()
      modifies this`waits, joinListeners, server`log
      ensures Valid()
      ensures if old(disposing) then View() == old(View()) && waiting.None?
              else View() == StartWait(old(View()), clientId, due) && waiting == Some(|old(waits)|)
    {
      if disposing {
        return None;
      }
      AddListener(joinListeners.entries, |waits|);
      Callbacks.BelowAppend(joinListeners.entries, Callbacks.Entry(|waits|, false, false), |waits|);
      var w := joinListeners.Add(false);
      waits := waits + [Wait(clientId, None, due, false)];
      server.Observe(WaitStarted(handle, w, clientId));
      return Some(w);
    }

    method AddClient(clientId: string, session: string)
      requires Valid()
      modifies this, joinListeners, server`managing, server`log, server.pubsub, server.storage
      ensures Valid() && View() == Model.AddClient(old(View()), clientId, session)
      ensures server.managing == old(server.managing)
    {
      clients := clients + [Client(clientId, session, |server.log|)];
      ClientHasJoined(clients[|clients| - 1]);
    }

    method ClientHasJoined(client: Client)
      requires Valid()
      modifies this`owner, this`waits, joinListeners, server`log
      ensures Valid()
      ensures View() == CallJoinListeners(
                          old(View()).(room := old(State()).(owner := OwnerAfter(old(owner), client)),
                                       log := old(server.log) + [Joined(handle, client)]),
                          old(State()).joinListeners, client.id)
    {
      if owner.id != "" && client.id == owner.id {
        owner := owner.(sessionId := client.sessionId);
      }
      server.Observe(Joined(handle, client));
      CallAll(joinListeners.entries);
      Callbacks.BelowStays(joinListeners.entries, |waits|, 0);
      IdsBelow(joinListeners.entries, |waits|);
      var fired := joinListeners.Call();
      RunListeners(fired, client);
    }

    method RunListeners(fired: seq<nat>, client: Client)
      requires Valid() && forall w | w in fired :: w < |waits|
      modifies this`waits, joinListeners, server`log
      ensures Valid() && View() == CallJoinListeners(old(View()), fired, client.id)
    {
      var k := 0;
      while k < |fired|
        invariant k <= |fired| && Valid() && |waits| == |old(waits)|
        invariant CallJoinListeners(View(), fired[k..], client.id) == CallJoinListeners(old(View()), fired, client.id)
      {
        assert fired[k..][0] == fired[k] && fired[k..][1..] == fired[k + 1..];
        assert fired[k] in fired;
        JoinListener(fired[k], client);
        k := k + 1;
      }
    }

    /** The closure that allow_reconnection leaves with the room. */
    method JoinListener(w: nat, joined: Client)
      requires Valid() && w < |waits|
      modifies this`waits, joinListeners, server`log
      ensures Valid() && View() == Model.JoinListener(old(View()), w, joined.id)
    {
      if joined.id != waits[w].clientId {
        return;
      }
      Settle(w, true);
      waits := waits[w := waits[w].(timerCleared := true)];
    }

    /** The timer of a wait. */
    method WaitTimeout(w: nat)
      requires Valid() && w < |waits|
      modifies this`waits, joinListeners, server`log
      ensures Valid() && View() == Model.WaitTimeout(old(View()), w)
    {
      var clientId := waits[w].clientId;
      var reconnected := false;
      for i := 0 to |clients|
        invariant reconnected <==> Present(clients[..i], clientId)
      {
        assert clients[..i + 1] == clients[..i] + [clients[i]];
        if clients[i].id == clientId {
          assert clients[i] in clients[..i + 1];
          reconnected := true;
        }
      }
      assert clients[..|clients|] == clients;
      Settle(w, reconnected);
    }

    /** The promise is kept once, whoever comes first. */
    method Settle(w: nat, reconnected: bool)
      requires Valid() && w < |waits|
      modifies this`waits, joinListeners, server`log
      ensures Valid() && View() == Model.Settle(old(View()), w, reconnected)
    {
      if waits[w].answer.None? {
        waits := waits[w := waits[w].(answer := Some(reconnected))];
        server.Observe(Answered(handle, w, reconnected));
      }
      RemoveListener(joinListeners.entries, w);
      Callbacks.BelowStays(joinListeners.entries, |waits|, w);
      joinListeners.Remove(w);
    }
  }

  /** While a room is being disposed the first entry leaves and nothing else happens, whatever its hook does. */
  lemma LeaveOne(c: Core, hook: LeaveHook)
    requires c.room.disposing && c.room.clients != []
    ensures Model.RemoveClient(c, c.room.clients[0].sessionId, true, hook)
         == (c.(room := c.room.(clients := c.room.clients[1..]), log := c.log + [Left(c.room.handle, c.room.clients[0], true)]), None)
  {
    assert RemoveAt(c.room.clients, 0) == c.room.clients[1..];
  }

  lemma LeaveAllStep(room: nat, log: seq<Event>, clients: seq<Client>)
    requires clients != []
    ensures log + LeaveAll(room, clients) == log + [Left(room, clients[0], true)] + LeaveAll(room, clients[1..])
  {
  }

  lemma LeaveAllThen(log: seq<Event>, left: seq<Event>, e: Event, f: Event)
    ensures log + left + [e] + [f] == log + left + [e, f]
  {
  }

  // ---------- the server ----------

  function Handles(managing: map<string, Room>): map<string, nat> {
    map id | id in managing :: managing[id].handle
  }

  lemma HandlesWithout(managing: map<string, Room>, id: string)
    ensures Handles(managing - {id}) == Handles(managing) - {id}
  {
  }

  lemma HandlesWith(managing: map<string, Room>, id: string, room: Room)
    ensures Handles(managing[id := room]) == Handles(managing)[id := room.handle]
  {
  }

  class Server {
    const pubsub: MemoryPubSub
    const storage: MemoryStorage
    const fetcher: Fetch.RoomFetcher
    var managing: map<string, Room>
    var created: nat
    var log: seq<Event>

    ghost function TablesNow(): Tables
      reads this, pubsub, storage
    {
      Tables(Handles(managing), storage.entries, pubsub.listeners, pubsub.nextId)
    }

    constructor ()
      ensures fetcher.storage == storage && fresh(pubsub) && fresh(storage)
      ensures TablesNow() == Tables(map[], map[], map[], 0) && created == 0 && log == []
    {
      pubsub := new MemoryPubSub();
      var store := new MemoryStorage();
      storage := store;
      fetcher := new Fetch.RoomFetcher(store);
      managing, created, log := map[], 0, [];
    }

    method Observe(e: Event)
      modifies this`log
      ensures log == old(log) + [e]
    {
      log := log + [e];
    }

    method OnRoomDisposed(id: string)
      modifies this`managing
      ensures managing == old(managing) - {id}
    {
      managing := managing - {id};
    }

    method PickId(now: int, overrideId: string, candidates: seq<string>) returns (r: Result<string, CreateError>)
      requires fetcher.storage == storage && |candidates| == 3
      modifies storage
      ensures r == RoomTables.PickId(Fetch.ListedRooms(old(storage.entries), now), overrideId, candidates)
      ensures storage.entries == Live(old(storage.entries), now)
    {
      var existing := fetcher.GetListOfRooms(_ => now);
      if overrideId != "" {
        if overrideId in existing {
          return Err(IdInUse);
        }
        return Ok(overrideId);
      }
      ghost var listed := Fetch.ListedRooms(old(storage.entries), now);
      var id := "";
      var i := 0;
      while i < 3 && id == ""
        invariant i <= 3
        invariant FirstFree(listed, candidates) == if id != "" then id else FirstFree(listed, candidates[i..])
      {
        assert candidates[i..][0] == candidates[i] && candidates[i..][1..] == candidates[i + 1..];
        if candidates[i] !in existing {
          id := candidates[i];
        }
        i := i + 1;
      }
      if id == "" {
        return Err(NoUniqueId);
      }
      return Ok(id);
    }

    /** The object that the factory makes, initialized; create_new_room drops it when on_create threw. */
    method NewInitialized(id: string, owner: SimpleClient, onCreateThrows: bool, timerAt: int) returns (room: Room)
      requires fetcher.storage == storage
      modifies this, pubsub, storage
      ensures fresh(room) && room.handle == old(created)
      ensures room.Valid() && room.server == this && created == old(created) + 1
      ensures room.View() == Model.Initialize(
                               Core(NewRoom(old(created), id, owner), old(TablesNow()), old(log)), onCreateThrows, timerAt)
      ensures onCreateThrows || managing == old(managing)
    {
      room := new Room(this, created);
      created := created + 1;
      room.Initialize(id, owner, onCreateThrows, timerAt);
    }

    /** `rooms` stands for the rooms made so far; only their number matters. */
    method CreateNewRoom(now: int, a: CreateArgs, ghost rooms: seq<RoomState>) returns (r: Result<Room, CreateError>)
      requires fetcher.storage == storage && |a.candidates| == 3 && |rooms| == created
      modifies this, pubsub, storage
      ensures var d := CreateRoom(rooms, old(TablesNow()), old(log), now, a);
        && TablesNow() == d.tables && log == d.log && created == |d.rooms|
        && (r.Ok? <==> d.result.Ok?)
        && (r.Ok? ==> fresh(r.value) && r.value.Valid() && r.value.server == this && r.value.State() == d.rooms[|rooms|])
        && (r.Err? ==> r.error == d.result.error)
    {
      hide Model.Initialize, RoomTables.PickId, Fetch.ListedRooms, Live;
      if !a.registered {
        return Err(NoRoomHandler);
      }
      var picked := PickId(now, a.overrideId, a.candidates);
      if picked.Err? {
        return Err(picked.error);
      }
      ghost var purged := TablesNow();
      var room := NewInitialized(picked.value, a.owner, a.onCreateThrows, a.timerAt);
      if a.onCreateThrows {
        return Err(OnCreateThrew);
      }
      ghost var c := room.View();
      fetcher.AddRoom(RoomSnapshot(picked.value, a.kind, a.owner, "{}", a.createdAt), a.recordAt);
      HandlesWith(managing, picked.value, room);
      managing := managing[picked.value := room];
      return Ok(room);
    }

    /** Dispose the rooms `ids` of `all`: what is true while that is going on. */
    ghost predicate Standing(all: map<string, Room>, ids: set<string>)
      requires ids <= all.Keys
      reads this, set id | id in ids :: all[id], set id | id in ids :: all[id].joinListeners
    {
      && managing.Keys == ids
      && (forall id | id in ids :: managing[id] == all[id])
      && (forall id | id in ids :: all[id].id == id && !all[id].disposing && all[id].Valid())
    }

    method DisposeManaged(id: string, hooks: nat -> LeaveHook, ghost all: map<string, Room>, ghost ids: set<string>)
      requires id in ids && ids <= all.Keys
      requires NoneShared(all, this) && Standing(all, ids) && Disposed(all, all.Keys - ids)
      modifies this`managing, this`log, pubsub, storage, all[id], all[id].joinListeners
      ensures Standing(all, ids - {id}) && Disposed(all, all.Keys - (ids - {id}))
      ensures storage.entries == old(storage.entries) - {Fetch.RoomKey(id)}
    {
      hide Model.Dispose;
      if id in managing {
        managing[id].Dispose(hooks);
        forall x | x in ids && x != id
          ensures all[x].id == x && !all[x].disposing && all[x].Valid()
        {
          assert all[x] != all[id] && all[x].joinListeners != all[id].joinListeners;
        }
      }
    }

    /** The part of shutdown that disposes the rooms, in any order. */
    method DisposeRooms(hooks: nat -> LeaveHook, ghost objects: set<object>)
      requires NoneShared(managing, this) && Standing(managing, managing.Keys) && MadeOf(managing, objects)
      modifies this`managing, this`log, pubsub, storage, objects
      ensures managing == map[]
      ensures Disposed(old(managing), old(managing).Keys)
      ensures storage.entries == old(storage.entries) - RecordKeys(old(managing).Keys)
    {
      hide Standing, Disposed, NoneShared, MadeOf, RecordKeys;
      ghost var all, t := managing, storage.entries;
      var ids := managing.Keys;
      NothingDone(all, t);
      while ids != {}
        invariant ids <= all.Keys && Standing(all, ids) && Disposed(all, all.Keys - ids)
        invariant storage.entries == t - RecordKeys(all.Keys - ids)
        decreases |ids|
      {
        var id :| id in ids;
        MadeOfIt(all, objects, id);
        RecordKeysStep(t, all.Keys, ids, id);
        DisposeManaged(id, hooks, all, ids);
        ids := ids - {id};
      }
      NoneStanding(all);
      assert all.Keys - {} == all.Keys;
    }

    lemma NoneStanding(all: map<string, Room>)
      requires Standing(all, {})
      ensures managing == map[]
    {
      assert managing.Keys == {};
    }
  }

  /** No two rooms share an object. */
  ghost predicate NoneShared(all: map<string, Room>, server: Server) {
    && (forall id | id in all :: all[id].server == server)
    && (forall a, b | a in all && b in all && a != b :: all[a] != all[b] && all[a].joinListeners != all[b].joinListeners)
  }

  ghost predicate MadeOf(managing: map<string, Room>, objects: set<object>) {
    forall id | id in managing :: managing[id] in objects && managing[id].joinListeners in objects
  }

  lemma MadeOfIt(managing: map<string, Room>, objects: set<object>, id: string)
    requires MadeOf(managing, objects) && id in managing
    ensures managing[id] in objects && managing[id].joinListeners in objects
  {
  }

  ghost predicate Disposed(all: map<string, Room>, done: set<string>)
    requires done <= all.Keys
    reads set id | id in done :: all[id]
  {
    forall id | id in done :: all[id].id == id && all[id].disposing && all[id].clients == []
  }

  function RecordKeys(ids: set<string>): set<string> {
    set id | id in ids :: Fetch.RoomKey(id)
  }

  lemma RecordKeysStep(t: Table, all: set<string>, ids: set<string>, id: string)
    requires id in ids && ids <= all
    ensures t - RecordKeys(all - ids) - {Fetch.RoomKey(id)} == t - RecordKeys(all - (ids - {id}))
  {
    assert RecordKeys(all - (ids - {id})) == RecordKeys(all - ids) + {Fetch.RoomKey(id)};
  }

  lemma NothingDone(all: map<string, Room>, t: Table)
    ensures Disposed(all, all.Keys - all.Keys) && t - RecordKeys(all.Keys - all.Keys) == t
  {
  }
}
