/** Who leaves and how: what on_leave hears of a disconnect, of a kick and of a disposal. */
module RoomLeaves {
  import opened Sequences
  import opened Wrappers
  import opened Storage
  import opened Fetch = RoomFetcher
  import opened PubSub
  import opened RoomModel
  import opened RoomTables
  import opened RoomSystem
  import opened RoomInvariants
  import opened RoomRuns

  // ---------- one removal ----------

  predicate FirstOf(clients: seq<Client>, i: nat) {
    i < |clients| && forall j :: 0 <= j < i ==> clients[j].sessionId != clients[i].sessionId
  }

  lemma {:induction false} FirstIsIndex(clients: seq<Client>, i: nat)
    requires FirstOf(clients, i)
    ensures IndexOf(clients, clients[i].sessionId) == i
  {
    if i == 0 {
    } else {
      assert clients[0].sessionId != clients[i].sessionId;
      FirstIsIndex(clients[1..], i - 1);
    }
  }

  /** New events only, and no leave among those from `k` on. */
  predicate NoLeavesFrom(log: seq<Event>, log': seq<Event>, k: nat) {
    |log| <= |log'| && log'[..|log|] == log && forall j :: k <= j < |log'| ==> !log'[j].Left?
  }

  lemma FinishRemovalIsSilent(c: Core, hook: LeaveHook)
    ensures NoLeavesFrom(c.log, FinishRemoval(c, hook).0.log, |c.log|)
    ensures FinishRemoval(c, hook).0.room.clients == c.room.clients
  {
  }

  /**
   The first entry of a session leaves: `on_leave` is called for it and for nobody else, as
   intentional exactly if the caller said so, whatever the hook does and even if the room
   is disposed on the way. A session without entry changes nothing.
   */
  lemma RemovalSaysHow(c: Core, i: nat, intentional: bool, hook: LeaveHook)
    requires FirstOf(c.room.clients, i)
    ensures var c' := RemoveClient(c, c.room.clients[i].sessionId, intentional, hook).0;
      && NoLeavesFrom(c.log, c'.log, |c.log| + 1)
      && |c.log| < |c'.log| && c'.log[|c.log|] == Left(c.room.handle, c.room.clients[i], intentional)
      && c'.room.clients == c.room.clients[..i] + c.room.clients[i + 1..]
  {
    hide FinishRemoval;
    FirstIsIndex(c.room.clients, i);
    var out := TakeOut(c, i, intentional);
    FinishRemovalIsSilent(out, hook);
    var log' := FinishRemoval(out, hook).0.log;
    assert log'[..|c.log|] == log'[..|out.log|][..|c.log|];
    assert log'[|c.log|] == log'[..|out.log|][|c.log|];
  }

  lemma {:induction false} NobodyHasIndex(clients: seq<Client>, session: string)
    requires forall client | client in clients :: client.sessionId != session
    ensures IndexOf(clients, session) == |clients|
  {
    if clients == [] {
    } else {
      assert clients[0] in clients;
      NobodyHasIndex(clients[1..], session);
    }
  }

  lemma RemovalOfNobody(c: Core, session: string, intentional: bool, hook: LeaveHook)
    requires forall client | client in c.room.clients :: client.sessionId != session
    ensures RemoveClient(c, session, intentional, hook) == (c, None)
  {
    NobodyHasIndex(c.room.clients, session);
  }

  /** A removal that asks for a reconnection leaves exactly the wait that was asked for. */
  lemma WaitAsAsked(c: Core, i: nat, intentional: bool, clientId: string, due: int)
    requires FirstOf(c.room.clients, i) && !c.room.disposing
    ensures var (c', waiting) := RemoveClient(c, c.room.clients[i].sessionId, intentional, AllowReconnection(clientId, due));
      && waiting == Some(|c.room.waits|)
      && c'.room.waits == c.room.waits + [Wait(clientId, None, due, false)]
      && c'.room.joinListeners == c.room.joinListeners + [|c.room.waits|]
      && c'.tables == c.tables && !c'.room.disposing
  {
    FirstIsIndex(c.room.clients, i);
  }

  // ---------- a disposal ----------

  /** Every new leave says `how`. */
  predicate LeavesSay(log: seq<Event>, log': seq<Event>, how: bool) {
    |log| <= |log'| && log'[..|log|] == log && forall k :: |log| <= k < |log'| && log'[k].Left? ==> log'[k].intentional == how
  }

  lemma {:induction false} LeaveAllSays(room: nat, clients: seq<Client>)
    ensures forall e | e in LeaveAll(room, clients) :: e.Left? && e.intentional
  {
    if clients == [] {
    } else {
      LeaveAllSays(room, clients[1..]);
    }
  }

  lemma DisposalSays(c: Core)
    ensures LeavesSay(c.log, Dispose(c).log, true)
  {
    if !c.room.disposing {
      LeaveAllSays(c.room.handle, c.room.clients);
      var log' := Dispose(c).log;
      var all := LeaveAll(c.room.handle, c.room.clients);
      forall k | |c.log| <= k < |log'| && log'[k].Left? ensures log'[k].intentional {
        assert log'[k] == all[k - |c.log|] && all[k - |c.log|] in all;
      }
    }
  }

  lemma {:induction false} LeaveAllAt(room: nat, clients: seq<Client>, k: nat)
    requires k < |clients|
    ensures |LeaveAll(room, clients)| == |clients| && LeaveAll(room, clients)[k] == Left(room, clients[k], true)
  {
    if |clients| > 1 {
      LeaveAllAt(room, clients[1..], if k > 0 then k - 1 else 0);
    }
  }

  /** Disposal lets everyone leave in the order of the list, then calls its two hooks; a second one does nothing. */
  lemma DisposalInOrder(c: Core)
    ensures c.room.disposing ==> Dispose(c) == c
    ensures !c.room.disposing ==>
      var log', n := Dispose(c).log, |c.log| + |c.room.clients|;
      && |log'| == n + 2 && log'[..|c.log|] == c.log
      && (forall k :: 0 <= k < |c.room.clients| ==> log'[|c.log| + k] == Left(c.room.handle, c.room.clients[k], true))
      && log'[n] == BeforeDispose(c.room.handle) && log'[n + 1] == OnDispose(c.room.handle)
      && Dispose(c).room.clients == [] && Dispose(c).room.disposing
  {
    if !c.room.disposing {
      var log', all := Dispose(c).log, LeaveAll(c.room.handle, c.room.clients);
      if c.room.clients != [] {
        LeaveAllAt(c.room.handle, c.room.clients, 0);
      }
      forall k | 0 <= k < |c.room.clients| ensures log'[|c.log| + k] == Left(c.room.handle, c.room.clients[k], true) {
        LeaveAllAt(c.room.handle, c.room.clients, k);
        assert log'[|c.log| + k] == all[k];
      }
    }
  }

  // ---------- where a publish began ----------

  datatype Beginning = Beginning(session: string, intentional: bool)

  /** The last time the thread began to remove a session: its own disconnect, or a kick of someone. */
  ghost function Began(steps: seq<Step>, t: Tid): Option<Beginning>
    decreases |steps|
  {
    if steps == [] then None
    else
      var last := steps[|steps| - 1];
      if last.BeginLeave? && Connection(last.session) == t then Some(Beginning(last.session, false))
      else if last.Kick? && last.t == t then Some(Beginning(last.session, true))
      else Began(steps[..|steps| - 1], t)
  }

  ghost predicate PublishesBegan(threads: map<Tid, Thread>, past: seq<Step>) {
    forall t | t in threads && !threads[t].ShuttingDown? ::
      Began(past, t) == Some(Beginning(threads[t].p.session, threads[t].p.intentional))
  }

  lemma BeganAfter(past: seq<Step>, st: Step, t: Tid)
    ensures Began(past + [st], t)
         == if st.BeginLeave? && Connection(st.session) == t then Some(Beginning(st.session, false))
            else if st.Kick? && st.t == t then Some(Beginning(st.session, true))
            else Began(past, t)
  {
    assert (past + [st])[..|past|] == past;
  }

  /** A thread's publish changes only by losing rooms that are still to be visited. */
  predicate PublishesKept(threads: map<Tid, Thread>, threads': map<Tid, Thread>) {
    forall t | t in threads' && !threads'[t].ShuttingDown? ::
      && t in threads && !threads[t].ShuttingDown?
      && threads'[t].p.session == threads[t].p.session && threads'[t].p.intentional == threads[t].p.intentional
  }

  lemma GoOnKeepsPublishes(w: World, t: Tid, room: nat, waiting: Option<nat>, p: Publish)
    requires t in w.threads && !w.threads[t].ShuttingDown?
    requires p.session == w.threads[t].p.session && p.intentional == w.threads[t].p.intentional
    ensures PublishesKept(w.threads, GoOn(w, t, room, waiting, p).threads)
  {
  }

  lemma HandleKeepsPublishes(w: World, t: Tid, hook: LeaveHook)
    requires Enabled(w, Handle(t, hook))
    ensures PublishesKept(w.threads, HandleLeave(w, t, hook).threads)
  {
    hide RemoveClient, GoOn;
    var p := w.threads[t].p;
    var r, rest := p.rest[0], p.(rest := p.rest[1..]);
    if r >= |w.rooms| {
      GoOnKeepsPublishes(w, t, r, None, rest);
    } else {
      var (c, waiting) := RemoveClient(CoreOf(w, r), p.session, p.intentional, hook);
      GoOnKeepsPublishes(WithCore(w, r, c), t, r, waiting, rest);
    }
  }

  lemma ResumeKeepsPublishes(w: World, t: Tid, hook: LeaveHook)
    requires Enabled(w, Resume(t, hook))
    ensures PublishesKept(w.threads, ResumeLeave(w, t, hook).threads)
  {
    hide FinishRemoval, GoOn;
    var r, p := w.threads[t].room, w.threads[t].p;
    var (c, waiting) := FinishRemoval(CoreOf(w, r), hook);
    GoOnKeepsPublishes(WithCore(w, r, c), t, r, waiting, p);
  }

  lemma StepKeepsPublishes(w: World, st: Step)
    requires Inv(w) && Enabled(w, st) && !st.BeginLeave? && !st.Kick?
    ensures PublishesKept(w.threads, Next(w, st).threads)
  {
    hide RoomsInv, TimersInv, LockInv, WaitsKnown, HandleLeave, ResumeLeave;
    hide CreateRoom, JoinRoom, Dispose, WaitTimeout, WithMetadata, Punctual;
    match st
    case Join(session, id, roomId, refused) => JoinIs(w, session, id, roomId, refused);
    case Handle(t, hook) => HandleKeepsPublishes(w, t, hook);
    case Resume(t, hook) => ResumeKeepsPublishes(w, t, hook);
    case _ =>
  }

  lemma StepKeepsBegan(w: World, past: seq<Step>, st: Step)
    requires Inv(w) && Enabled(w, st) && PublishesBegan(w.threads, past)
    ensures PublishesBegan(Next(w, st).threads, past + [st])
  {
    hide RoomsInv, TimersInv, Began;
    hide CreateRoom, JoinRoom, HandleLeave, ResumeLeave, RunCallback, DisposeRoom, WithMetadata, Punctual;
    var threads' := Next(w, st).threads;
    if !st.BeginLeave? && !st.Kick? {
      StepKeepsPublishes(w, st);
    }
    forall t | t in threads' && !threads'[t].ShuttingDown?
      ensures Began(past + [st], t) == Some(Beginning(threads'[t].p.session, threads'[t].p.intentional))
    {
      BeganAfter(past, st, t);
    }
  }

  lemma {:induction false} RunKeepsBegan(w: World, past: seq<Step>, steps: seq<Step>)
    requires Inv(w) && PublishesBegan(w.threads, past) && Run(w, steps).Some?
    ensures PublishesBegan(Run(w, steps).value.threads, past + steps)
    decreases |steps|
  {
    hide Inv, Enabled, Next, PublishesBegan;
    if steps == [] {
      assert past + steps == past;
    } else {
      NextKeepsInv(w, steps[0]);
      StepKeepsBegan(w, past, steps[0]);
      RunKeepsBegan(Next(w, steps[0]), past + [steps[0]], steps[1..]);
      assert past + steps == (past + [steps[0]]) + steps[1..];
    }
  }

  lemma BeganInRuns(start: int, steps: seq<Step>)
    requires Run(Init(start), steps).Some?
    ensures PublishesBegan(Run(Init(start), steps).value.threads, steps)
  {
    Reached(start, []);
    RunKeepsBegan(Init(start), [], steps);
    assert [] + steps == steps;
  }

  // ---------- every leave of every run ----------

  /** Steps that neither visit a room nor dispose one. */
  lemma OthersAreSilent(w: World, st: Step)
    requires Inv(w) && Enabled(w, st) && !st.Handle? && !st.RunTimer? && !st.DisposeNext?
    ensures NoLeavesFrom(w.log, Next(w, st).log, |w.log|)
  {
    hide RoomsInv, TimersInv, FinishRemoval, AddClient, CreateRoom, JoinRoom, WithMetadata, Punctual;
    match st
    case Join(session, id, roomId, refused) =>
      JoinIs(w, session, id, roomId, refused);
      if roomId in w.tables.managing && !refused {
        JoinIsSilent(CoreOf(w, w.tables.managing[roomId]), id, session);
      }
    case Create(_, a) => CreateIsSilent(w, a);
    case Resume(t, hook) =>
      FinishRemovalIsSilent(CoreOf(w, w.threads[t].room), hook);
    case _ =>
  }

  lemma {:induction false} ListenersAreSilent(c: Core, listeners: seq<nat>, id: string)
    ensures NoLeavesFrom(c.log, CallJoinListeners(c, listeners, id).log, |c.log|)
    decreases |listeners|
  {
    if listeners == [] {
      assert c.log[..|c.log|] == c.log;
    } else {
      var c1 := JoinListener(c, listeners[0], id);
      ListenersAreSilent(c1, listeners[1..], id);
      var log' := CallJoinListeners(c, listeners, id).log;
      assert c1.log[..|c.log|] == c.log;
      assert log'[..|c.log|] == log'[..|c1.log|][..|c.log|];
      assert forall j :: |c.log| <= j < |c1.log| ==> log'[j] == log'[..|c1.log|][j];
    }
  }

  lemma JoinIsSilent(c: Core, id: string, session: string)
    ensures NoLeavesFrom(c.log, AddClient(c, id, session).log, |c.log|)
  {
    var client := Client(id, session, |c.log|);
    var added := c.(room := c.room.(clients := c.room.clients + [client], owner := OwnerAfter(c.room.owner, client)),
                    log := c.log + [Joined(c.room.handle, client)]);
    ListenersAreSilent(added, added.room.joinListeners, id);
    var log' := AddClient(c, id, session).log;
    assert log'[..|c.log|] == log'[..|added.log|][..|c.log|] == c.log;
    assert log'[|c.log|] == log'[..|added.log|][|c.log|];
  }

  lemma CreateIsSilent(w: World, a: CreateArgs)
    ensures NoLeavesFrom(w.log, CreateRoom(w.rooms, w.tables, w.log, w.now, a).log, |w.log|)
  {
    hide PickId, ListedRooms, Live;
  }

  lemma TimerSays(w: World, cb: Callback)
    ensures LeavesSay(w.log, RunCallback(w, cb).log, true)
  {
    hide Dispose;
    match cb
    case AutoDispose(r) =>
      if r < |w.rooms| {
        DisposalSays(CoreOf(w, r));
      }
    case WaitOver(r, v) =>
  }

  lemma DisposeNextSays(w: World, t: Tid)
    requires Enabled(w, DisposeNext(t))
    ensures LeavesSay(w.log, Next(w, DisposeNext(t)).log, true)
  {
    hide Dispose;
    var id := w.threads[t].ids[0];
    if id in w.tables.managing && w.tables.managing[id] < |w.rooms| {
      DisposalSays(CoreOf(w, w.tables.managing[id]));
    }
  }

  /** A visit of a publish takes the first entry of its session, and says what the publish says. */
  lemma HandleSays(w: World, t: Tid, hook: LeaveHook)
    requires Enabled(w, Handle(t, hook))
    ensures var p, w' := w.threads[t].p, HandleLeave(w, t, hook);
      && NoLeavesFrom(w.log, w'.log, |w.log| + 1)
      && (|w.log| < |w'.log| && w'.log[|w.log|].Left? ==>
           w'.log[|w.log|].intentional == p.intentional && w'.log[|w.log|].client.sessionId == p.session)
      && (forall i: nat :: p.rest[0] < |w.rooms| && FirstOf(w.rooms[p.rest[0]].clients, i) && w.rooms[p.rest[0]].clients[i].sessionId == p.session ==>
           |w.log| < |w'.log| && w'.log[|w.log|] == Left(w.rooms[p.rest[0]].handle, w.rooms[p.rest[0]].clients[i], p.intentional))
  {
    hide RemoveClient;
    var p := w.threads[t].p;
    var r := p.rest[0];
    if r < |w.rooms| {
      var clients := w.rooms[r].clients;
      var i := IndexOf(clients, p.session);
      IndexOfIsFirst(clients, p.session);
      if i < |clients| {
        RemovalSaysHow(CoreOf(w, r), i, p.intentional, hook);
        forall j: nat | FirstOf(clients, j) && clients[j].sessionId == p.session ensures j == i {
          assert j < i || i < j || i == j;
        }
      } else {
        RemovalOfNobody(CoreOf(w, r), p.session, p.intentional, hook);
      }
    }
  }

  /**
   In every step of every run, of every leave that it adds: it is not intentional exactly if the
   step is a visit of a publish that a disconnect of that session began, and intentional
   exactly if it is a visit of a kick of that session or a disposal by timer or shutdown.
   */
  lemma LeavesSayHow(start: int, steps: seq<Step>, st: Step, k: nat)
    requires Run(Init(start), steps).Some? && Enabled(Run(Init(start), steps).value, st)
    requires var w := Run(Init(start), steps).value; |w.log| <= k < |Next(w, st).log| && Next(w, st).log[k].Left?
    ensures var e := Next(Run(Init(start), steps).value, st).log[k];
      && (!e.intentional <==> st.Handle? && Began(steps, st.t) == Some(Beginning(e.client.sessionId, false)))
      && (e.intentional <==> (st.Handle? && Began(steps, st.t) == Some(Beginning(e.client.sessionId, true))) || st.RunTimer? || st.DisposeNext?)
  {
    hide Inv, Began;
    Reached(start, steps);
    BeganInRuns(start, steps);
    StepSaysHow(Run(Init(start), steps).value, steps, st, k);
  }

  lemma StepSaysHow(w: World, past: seq<Step>, st: Step, k: nat)
    requires Inv(w) && Enabled(w, st) && PublishesBegan(w.threads, past)
    requires |w.log| <= k < |Next(w, st).log| && Next(w, st).log[k].Left?
    ensures var e := Next(w, st).log[k];
      && (!e.intentional <==> st.Handle? && Began(past, st.t) == Some(Beginning(e.client.sessionId, false)))
      && (e.intentional <==> (st.Handle? && Began(past, st.t) == Some(Beginning(e.client.sessionId, true))) || st.RunTimer? || st.DisposeNext?)
  {
    hide Inv, Began, HandleLeave, RunCallback;
    if st.Handle? {
      HandleSays(w, st.t, st.hook);
    } else if st.RunTimer? {
      TimerSays(w, w.worker.value);
    } else if st.DisposeNext? {
      DisposeNextSays(w, st.t);
    } else {
      OthersAreSilent(w, st);
    }
  }

  /** And a visit does take the first entry of the session that its publish is about, if the room holds one. */
  lemma VisitsTakeOne(start: int, steps: seq<Step>, t: Tid, hook: LeaveHook, i: nat)
    requires Run(Init(start), steps).Some? && Enabled(Run(Init(start), steps).value, Handle(t, hook))
    requires var w := Run(Init(start), steps).value;
      var r := w.threads[t].p.rest[0];
      && r < |w.rooms| && FirstOf(w.rooms[r].clients, i)
      && Began(steps, t).Some? && w.rooms[r].clients[i].sessionId == Began(steps, t).value.session
    ensures var w := Run(Init(start), steps).value;
      var r := w.threads[t].p.rest[0];
      var log' := Next(w, Handle(t, hook)).log;
      |w.log| < |log'| && log'[|w.log|] == Left(r, w.rooms[r].clients[i], Began(steps, t).value.intentional)
  {
    hide Began, HandleLeave;
    Reached(start, steps);
    BeganInRuns(start, steps);
    var w := Run(Init(start), steps).value;
    assert w.rooms[w.threads[t].p.rest[0]].handle == w.threads[t].p.rest[0];
    HandleSays(w, t, hook);
  }
}
