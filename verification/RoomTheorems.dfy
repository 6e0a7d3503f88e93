/** The main results about rooms: statements over every run, of any length and interleaving. */
module RoomTheorems {
  import opened Wrappers
  import opened Storage
  import opened Fetch = RoomFetcher
  import opened PubSub
  import opened RoomModel
  import opened RoomMonitor
  import opened RoomTrace
  import opened RoomTables
  import opened RoomSystem
  import opened RoomInvariants
  import opened RoomRuns
  import opened RoomSessions

  // ---------- the tables ----------

  /**
   In every reachable state, including those in which threads wait in allow_reconnection, the
   managed ids, the ids with an unexpired record, the listed ids, the ids with a message
   listener and the ids of rooms that are not disposed are the same.
   */
  lemma TablesAlwaysAgree(start: int, steps: seq<Step>, id: string)
    requires Run(Init(start), steps).Some?
    ensures var w := Run(Init(start), steps).value;
      && (id in w.tables.managing <==> FindRoom(w.tables.entries, id, w.now).Ok?)
      && (id in w.tables.managing <==> id in ListedRooms(w.tables.entries, w.now))
      && (id in w.tables.managing <==> HasMessageListener(w.tables.listeners, id))
      && (id in w.tables.managing <==> HasLiveRoom(w.rooms, id))
  {
    Reached(start, steps);
    var w := Run(Init(start), steps).value;
    SameRooms(w.rooms, w.tables, w.now, id);
  }

  /** From its creation to its disposal a room is found under its id, with a record of that id. */
  lemma FoundUntilDisposed(start: int, steps: seq<Step>, r: nat)
    requires Run(Init(start), steps).Some? && r < |Run(Init(start), steps).value.rooms|
    ensures var w := Run(Init(start), steps).value;
      !w.rooms[r].disposing <==>
        && w.rooms[r].id in w.tables.managing && w.tables.managing[w.rooms[r].id] == r
        && FindRoom(w.tables.entries, w.rooms[r].id, w.now).Ok?
        && FindRoom(w.tables.entries, w.rooms[r].id, w.now).value.id == w.rooms[r].id
  {
    Reached(start, steps);
    var w := Run(Init(start), steps).value;
    SameRooms(w.rooms, w.tables, w.now, w.rooms[r].id);
    if !w.rooms[r].disposing {
      assert Registered(w.rooms[r], w.tables);
    }
  }

  /** The record that creation writes. */
  function NewRecord(id: string, a: CreateArgs): RoomSnapshot {
    RoomSnapshot(id, a.kind, a.owner, "{}", a.createdAt)
  }

  /** What creation does, seen from one id: added everywhere, or left alone everywhere. */
  ghost predicate AddsOne(w: World, w': World, r: nat, a: CreateArgs, id: string) {
    && r == |w.rooms| && |w'.rooms| == r + 1
    && w'.rooms[r].id != "" && w'.rooms[r].id !in w.tables.managing
    && w'.tables.managing == w.tables.managing[w'.rooms[r].id := r]
    && (id in ListedRooms(w'.tables.entries, w'.now) <==> id in ListedRooms(w.tables.entries, w.now) || id == w'.rooms[r].id)
    && (HasMessageListener(w'.tables.listeners, id) <==> HasMessageListener(w.tables.listeners, id) || id == w'.rooms[r].id)
    && FindRoom(w'.tables.entries, id, w'.now)
       == if id == w'.rooms[r].id then Ok(NewRecord(id, a)) else FindRoom(w.tables.entries, id, w'.now)
  }

  ghost predicate AddsNone(w: World, w': World, id: string) {
    && w'.tables.managing == w.tables.managing && w'.tables.listeners == w.tables.listeners
    && (id in ListedRooms(w'.tables.entries, w'.now) <==> id in ListedRooms(w.tables.entries, w.now))
    && FindRoom(w'.tables.entries, id, w'.now) == FindRoom(w.tables.entries, id, w'.now)
  }

  /**
   Creation is all or nothing: one id, new and not empty, is added to the managed map, the
   records and the channels, with its own record, and the record of every other id is as
   before; or there is an error and all three are as before.
   */
  lemma CreateAllOrNothing(start: int, steps: seq<Step>, t: Tid, a: CreateArgs, id: string)
    requires Run(Init(start), steps).Some? && Enabled(Run(Init(start), steps).value, Create(t, a))
    ensures var w := Run(Init(start), steps).value;
      var w' := Next(w, Create(t, a));
      match CreateRoom(w.rooms, w.tables, w.log, w.now, a).result
      case Ok(r) => AddsOne(w, w', r, a, id)
      case Err(_) => AddsNone(w, w', id)
  {
    Reached(start, steps);
    var w := Run(Init(start), steps).value;
    CreateStep(w, t, a, id);
  }

  lemma CreateStep(w: World, t: Tid, a: CreateArgs, id: string)
    requires Inv(w) && Enabled(w, Create(t, a))
    ensures var w' := Next(w, Create(t, a));
      match CreateRoom(w.rooms, w.tables, w.log, w.now, a).result
      case Ok(r) => AddsOne(w, w', r, a, id)
      case Err(_) => AddsNone(w, w', id)
  {
    hide RoomsInv, TimersInv, LockInv, WaitsKnown, ListedRooms, HasMessageListener;
    hide HasLiveRoom, FindRoom, CreateRoom, Punctual;
    var w' := Next(w, Create(t, a));
    NextKeepsInv(w, Create(t, a));
    AgreementOf(w, id);
    AgreementOf(w', id);
    CreateOutcome(w, a);
    CreateRecords(w, a, id);
  }

  lemma CreateRecords(w: World, a: CreateArgs, id: string)
    requires Inv(w) && w.now <= a.recordAt && a.overrideId != PLAYER_LEFT && PLAYER_LEFT !in a.candidates
    ensures var d := CreateRoom(w.rooms, w.tables, w.log, w.now, a);
      FindRoom(d.tables.entries, id, a.recordAt)
      == if d.result.Ok? && d.result.value < |d.rooms| && id == d.rooms[d.result.value].id then Ok(NewRecord(id, a))
         else FindRoom(w.tables.entries, id, a.recordAt)
  {
    hide TablesAgree, PickId, ListedRooms, Live, Dispose, Subscribed, AllTrack, FindRoom;
    var purged := w.tables.(entries := Live(w.tables.entries, w.now));
    PurgingKeepsRooms(w.tables.entries, id, w.now, a.recordAt);
    var picked := PickId(ListedRooms(w.tables.entries, w.now), a.overrideId, a.candidates);
    if a.registered && picked.Ok? {
      PickedIsFree(w.rooms, w.tables, w.now, a);
      PurgeAgrees(w.rooms, w.tables, w.now);
      if a.onCreateThrows {
        FailedInitialize(w.rooms, purged, w.log, picked.value, a.owner);
      } else {
        var c := Core(NewRoom(|w.rooms|, picked.value, a.owner).(timer := Armed(a.timerAt + AUTO_DISPOSE_AFTER, false)), purged, w.log);
        SubscribedTables(c);
        RecordFound(purged.entries, NewRecord(picked.value, a), id, a.recordAt);
      }
    }
  }

  lemma RecordFound(t: Table, room: RoomSnapshot, id: string, now: int)
    ensures FindRoom(t[RoomKey(room.id) := NewEntry(Snapshot(room), false, now)], id, now)
         == if id == room.id then Ok(room) else FindRoom(t, id, now)
  {
    RoomKeyInjective(id, room.id);
  }

  lemma AgreementOf(w: World, id: string)
    requires Inv(w)
    ensures id in w.tables.managing <==> id in ListedRooms(w.tables.entries, w.now)
    ensures id in w.tables.managing <==> HasMessageListener(w.tables.listeners, id)
  {
    SameRooms(w.rooms, w.tables, w.now, id);
  }

  lemma CreateOutcome(w: World, a: CreateArgs)
    requires Inv(w) && a.overrideId != PLAYER_LEFT && PLAYER_LEFT !in a.candidates
    ensures var d := CreateRoom(w.rooms, w.tables, w.log, w.now, a);
      match d.result
      case Ok(r) =>
        && r == |w.rooms| && |d.rooms| == r + 1
        && d.rooms[r].id != "" && d.rooms[r].id !in w.tables.managing
        && d.tables.managing == w.tables.managing[d.rooms[r].id := r]
      case Err(_) => d.tables.managing == w.tables.managing && d.tables.listeners == w.tables.listeners
  {
    hide TablesAgree, PickId, ListedRooms, Live, Dispose, Subscribed, AllTrack;
    var id := PickId(ListedRooms(w.tables.entries, w.now), a.overrideId, a.candidates);
    if a.registered && id.Ok? {
      PickedIsFree(w.rooms, w.tables, w.now, a);
      var purged := w.tables.(entries := Live(w.tables.entries, w.now));
      if a.onCreateThrows {
        PurgeAgrees(w.rooms, w.tables, w.now);
        FailedInitialize(w.rooms, purged, w.log, id.value, a.owner);
      } else {
        SubscribedTables(Core(NewRoom(|w.rooms|, id.value, a.owner).(timer := Armed(a.timerAt + AUTO_DISPOSE_AFTER, false)), purged, w.log));
      }
    }
  }

  lemma SubscribedTables(c: Core)
    ensures Subscribed(c).room.id == c.room.id && Subscribed(c).tables.managing == c.tables.managing
    ensures Subscribed(c).tables.entries == c.tables.entries
  {
  }

  // ---------- the protocol of one room ----------

  /** The log of every run is accepted by the monitor of every room, and shows the room as it is. */
  lemma RoomsFollowProtocol(start: int, steps: seq<Step>, r: nat)
    requires Run(Init(start), steps).Some? && r < |Run(Init(start), steps).value.rooms|
    ensures var w := Run(Init(start), steps).value;
      && Accept(w.log, r).Some?
      && Accept(w.log, r).value.clients == w.rooms[r].clients
      && (Accept(w.log, r).value.phase.Closed? <==> w.rooms[r].disposing)
      && |Accept(w.log, r).value.waits| == |w.rooms[r].waits|
      && (forall v :: 0 <= v < |w.rooms[r].waits| ==> Accept(w.log, r).value.waits[v].answer == w.rooms[r].waits[v].answer)
  {
    Reached(start, steps);
    assert Tracks(Run(Init(start), steps).value.rooms[r], Run(Init(start), steps).value.log);
  }

  /** Entries appended minus entries taken out is what a room holds of a session; the order is that of joining. */
  lemma EntriesConserved(start: int, steps: seq<Step>, r: nat, session: string)
    requires Run(Init(start), steps).Some? && r < |Run(Init(start), steps).value.rooms|
    ensures var w := Run(Init(start), steps).value;
      && JoinCount(w.log, r, session) - LeaveCount(w.log, r, session) == Multiplicity(w.rooms[r].clients, session)
      && (forall i, j :: 0 <= i < j < |w.rooms[r].clients| ==> w.rooms[r].clients[i].serial < w.rooms[r].clients[j].serial)
  {
    RoomsFollowProtocol(start, steps, r);
    var w := Run(Init(start), steps).value;
    Conservation(w.log, r, session);
    OrderOfJoining(w.log, r);
    IncreasingSorted(w.rooms[r].clients, Accept(w.log, r).value.nextSerial);
  }

  /** A disposed room stays disposed and empty, whatever stale handlers, timers and waiting threads do. */
  lemma DisposedForGood(start: int, steps: seq<Step>, more: seq<Step>, r: nat)
    requires Run(Init(start), steps).Some? && r < |Run(Init(start), steps).value.rooms|
    requires Run(Run(Init(start), steps).value, more).Some?
    requires Run(Init(start), steps).value.rooms[r].disposing
    ensures var w := Run(Run(Init(start), steps).value, more).value;
      r < |w.rooms| && w.rooms[r].disposing && w.rooms[r].clients == []
  {
    Reached(start, steps);
    RunKeepsInv(Run(Init(start), steps).value, more);
    var w := Run(Run(Init(start), steps).value, more).value;
    DisposedIsEmpty(w.rooms[r], w.log);
  }

  /**
   In every run, of the event at `i` and any later one of the room at `j`: disposal calls each of
   its hooks at most once, everybody who joined has left before the first of them, no entry
   leaves twice, and nobody joins or leaves afterwards.
   */
  lemma DisposalOverRuns(start: int, steps: seq<Step>, r: nat, i: nat, session: string)
    requires Run(Init(start), steps).Some? && r < |Run(Init(start), steps).value.rooms|
    requires var log := Run(Init(start), steps).value.log; i < |log| && log[i].room == r
    ensures var log := Run(Init(start), steps).value.log;
      && (log[i].BeforeDispose? ==> JoinCount(log[..i], r, session) == LeaveCount(log[..i], r, session))
      && (forall j :: i < j < |log| && log[j].room == r ==> AfterOf(log[i], log[j]))
  {
    RoomsFollowProtocol(start, steps, r);
    var log := Run(Init(start), steps).value.log;
    if log[i].BeforeDispose? {
      NobodyLeftBehind(log, r, i, session);
    }
    forall j | i < j < |log| && log[j].room == r ensures AfterOf(log[i], log[j]) {
      DisposedOnce(log, r, i, j);
      if log[i].Left? && log[j].Left? {
        LeavesOnce(log, r, i, j);
      }
    }
  }

  /** May `later` come after `e` in the log of one room? */
  predicate AfterOf(e: Event, later: Event) {
    && (e.BeforeDispose? ==> !later.BeforeDispose? && !later.Joined? && !later.Left?)
    && (e.OnDispose? ==> !later.OnDispose? && !later.BeforeDispose? && !later.Joined? && !later.Left?)
    && (e.Left? && later.Left? ==> e.client != later.client)
  }

  /**
   In every run a wait that began at `i` has at most one answer, whichever of the join listener
   and the timer gives it; the answer at `j` is true exactly when a client with the id is there,
   and if it is false none joined in between.
   */
  lemma WaitsOverRuns(start: int, steps: seq<Step>, r: nat, i: nat, j: nat)
    requires Run(Init(start), steps).Some? && r < |Run(Init(start), steps).value.rooms|
    requires var log := Run(Init(start), steps).value.log;
      && i < j < |log|
      && log[i].WaitStarted? && log[i].room == r && log[j].Answered? && log[j].room == r && log[j].wait == log[i].wait
    ensures var log := Run(Init(start), steps).value.log;
      && Accept(log[..j], r).Some?
      && (log[j].reconnected <==> Present(Accept(log[..j], r).value.clients, log[i].clientId))
      && (!log[j].reconnected ==>
           forall k :: i < k < j ==> !(log[k].Joined? && log[k].room == r && log[k].client.id == log[i].clientId))
      && (forall later :: j < later < |log| ==> !(log[later].Answered? && log[later].room == r && log[later].wait == log[i].wait))
  {
    RoomsFollowProtocol(start, steps, r);
    var log := Run(Init(start), steps).value.log;
    AnswersAreTrue(log, r, i, j);
    forall later | j < later < |log| && log[later].Answered? && log[later].room == r
      ensures log[later].wait != log[i].wait
    {
      AnsweredOnce(log, r, j, later);
    }
  }

  // ---------- shutdown ----------

  /** What shutdown still has to dispose covers everything that is managed. */
  ghost predicate ShutdownCovers(w: World, t: Tid) {
    t in w.threads && w.threads[t].ShuttingDown? ==> forall id :: id in w.tables.managing ==> id in w.threads[t].ids
  }

  /** Joins and timers leave every thread as it is. */
  lemma ThreadsKept(w: World, st: Step)
    requires Inv(w) && Enabled(w, st) && (st.Join? || st.RunTimer? || st.Create? || st.SetMetadata?)
    ensures Next(w, st).threads == w.threads
  {
    hide RoomsInv, TimersInv, CreateRoom, AddClient, JoinRoom, Dispose, WaitTimeout, Punctual;
    if st.Join? {
      JoinIs(w, st.session, st.id, st.roomId, st.refused);
    }
  }

  lemma ShutdownStep(w: World, st: Step, t: Tid)
    requires Inv(w) && Enabled(w, st) && ShutdownCovers(w, t)
    ensures ShutdownCovers(Next(w, st), t)
  {
    hide RoomsInv, TimersInv, WaitsKnown, RemoveClient, FinishRemoval;
    hide CreateRoom, JoinRoom, RunCallback, Punctual, WithMetadata, Dispose;
    match st
    case DisposeNext(u) =>
      if u == t {
        var ids := w.threads[t].ids;
        if ids[0] in w.tables.managing {
          ManagedDisposed(w, ids[0]);
        }
        assert forall id :: id in ids ==> id == ids[0] || id in ids[1..];
      }
    case Join(_, _, _, _) => ThreadsKept(w, st);
    case RunTimer => ThreadsKept(w, st);
    case Create(_, _) => ThreadsKept(w, st);
    case SetMetadata(_, _) => ThreadsKept(w, st);
    case _ =>
  }

  lemma ManagedDisposed(w: World, id: string)
    requires Inv(w) && id in w.tables.managing
    ensures w.tables.managing[id] < |w.rooms|
    ensures Dispose(CoreOf(w, w.tables.managing[id])).tables.managing == w.tables.managing - {id}
  {
    ChannelOfRoom(w, id);
  }

  lemma {:induction false} RunKeepsShutdown(w: World, steps: seq<Step>, t: Tid)
    requires Inv(w) && ShutdownCovers(w, t) && Run(w, steps).Some?
    ensures ShutdownCovers(Run(w, steps).value, t)
    decreases |steps|
  {
    hide Inv, Enabled, Next, ShutdownCovers;
    if steps == [] {
    } else {
      NextKeepsInv(w, steps[0]);
      ShutdownStep(w, steps[0], t);
      RunKeepsShutdown(Next(w, steps[0]), steps[1..], t);
    }
  }

  /** When shutdown has nothing left to do every room is disposed and no id is managed or listed. */
  lemma ShutdownDisposesAll(start: int, steps: seq<Step>, t: Tid, r: nat, id: string)
    requires Run(Init(start), steps).Some?
    requires var w := Run(Init(start), steps).value; t in w.threads && w.threads[t] == ShuttingDown([])
    ensures var w := Run(Init(start), steps).value;
      && id !in w.tables.managing && id !in ListedRooms(w.tables.entries, w.now)
      && (r < |w.rooms| ==> w.rooms[r].disposing && w.rooms[r].clients == [])
  {
    hide Inv, Run, ListedRooms;
    InitInv(start, t);
    Reached(start, steps);
    RunKeepsShutdown(Init(start), steps, t);
    NothingManaged(Run(Init(start), steps).value, r, id);
  }

  lemma InitInv(start: int, t: Tid)
    ensures Inv(Init(start)) && ShutdownCovers(Init(start), t)
  {
    Reached(start, []);
  }

  lemma NothingManaged(w: World, r: nat, id: string)
    requires Inv(w) && forall x :: x !in w.tables.managing
    ensures id !in ListedRooms(w.tables.entries, w.now)
    ensures r < |w.rooms| ==> w.rooms[r].disposing && w.rooms[r].clients == []
  {
    AgreementOf(w, id);
    if r < |w.rooms| {
      assert !w.rooms[r].disposing ==> Registered(w.rooms[r], w.tables);
      DisposedIsEmpty(w.rooms[r], w.log);
    }
  }
}
