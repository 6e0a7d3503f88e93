/** Threads that wait in allow_reconnection: none waits for ever, and no empty room is forgotten. */
module RoomWaits {
  import opened Wrappers
  import opened Storage
  import opened Fetch = RoomFetcher
  import opened PubSub
  import opened RoomModel
  import opened RoomTables
  import opened RoomSystem
  import opened RoomInvariants
  import opened RoomRuns

  // ---------- an unanswered wait still has its timer ----------

  /** How the waits of a room change: answered ones stay so, unanswered ones keep their timer. */
  predicate Evolve(a: seq<Wait>, b: seq<Wait>) {
    && |a| <= |b|
    && (forall v :: 0 <= v < |a| && b[v].answer.None? ==> a[v].answer.None? && b[v].timerCleared == a[v].timerCleared)
    && (forall v :: |a| <= v < |b| ==> !b[v].timerCleared)
  }

  lemma RemoveEvolves(c: Core, session: string, intentional: bool, hook: LeaveHook)
    ensures Evolve(c.room.waits, RemoveClient(c, session, intentional, hook).0.room.waits)
    ensures Evolve(c.room.waits, FinishRemoval(c, hook).0.room.waits)
    ensures Evolve(c.room.waits, Dispose(c).room.waits)
  {
  }

  lemma {:induction false} CallEvolves(c: Core, listeners: seq<nat>, id: string)
    ensures Evolve(c.room.waits, CallJoinListeners(c, listeners, id).room.waits)
    ensures |CallJoinListeners(c, listeners, id).room.waits| == |c.room.waits|
    decreases |listeners|
  {
    if listeners == [] {
    } else {
      CallEvolves(JoinListener(c, listeners[0], id), listeners[1..], id);
    }
  }

  lemma AddEvolves(c: Core, id: string, session: string)
    ensures Evolve(c.room.waits, AddClient(c, id, session).room.waits)
  {
    var client := Client(id, session, |c.log|);
    var added := c.(room := c.room.(clients := c.room.clients + [client], owner := OwnerAfter(c.room.owner, client)),
                    log := c.log + [Joined(c.room.handle, client)]);
    CallEvolves(added, added.room.joinListeners, id);
  }

  lemma TimeoutEvolves(c: Core, v: nat)
    ensures Evolve(c.room.waits, WaitTimeout(c, v).room.waits)
    ensures v < |c.room.waits| ==> WaitTimeout(c, v).room.waits[v].answer.Some?
  {
  }

  predicate TimersPending(rooms: seq<RoomState>, fired: set<Callback>, worker: Option<Callback>) {
    && (forall r, v :: 0 <= r < |rooms| && 0 <= v < |rooms[r].waits| && rooms[r].waits[v].answer.None? ==>
         && !rooms[r].waits[v].timerCleared
         && (WaitOver(r, v) in fired ==> worker == Some(WaitOver(r, v))))
    && (forall cb | cb in fired :: cb.WaitOver? ==> cb.room < |rooms| && cb.wait < |rooms[cb.room].waits|)
  }

  lemma OpKeepsTimers(rooms: seq<RoomState>, fired: set<Callback>, worker: Option<Callback>, r: nat, room: RoomState)
    requires TimersPending(rooms, fired, worker) && r < |rooms| && Evolve(rooms[r].waits, room.waits)
    ensures TimersPending(rooms[r := room], fired, worker)
  {
    var rooms' := rooms[r := room];
    forall q, v | 0 <= q < |rooms'| && 0 <= v < |rooms'[q].waits| && rooms'[q].waits[v].answer.None?
      ensures !rooms'[q].waits[v].timerCleared && (WaitOver(q, v) in fired ==> worker == Some(WaitOver(q, v)))
    {
      if q == r && v < |rooms[r].waits| {
        assert rooms[r].waits[v].answer.None?;
      }
    }
  }

  lemma StepKeepsTimers(w: World, st: Step)
    requires Inv(w) && Enabled(w, st) && TimersPending(w.rooms, w.fired, w.worker)
    ensures TimersPending(Next(w, st).rooms, Next(w, st).fired, Next(w, st).worker)
  {
    hide RoomsInv, TimersInv, LockInv, RemoveClient, FinishRemoval, AddClient;
    hide CreateRoom, JoinRoom, WaitTimeout, Dispose, TimersPending, WithMetadata, Punctual;
    match st
    case Create(t, a) => CreateKeepsTimers(w, a);
    case Join(session, id, roomId, refused) =>
      JoinIs(w, session, id, roomId, refused);
      if roomId in w.tables.managing && !refused {
        var r := w.tables.managing[roomId];
        AddEvolves(CoreOf(w, r), id, session);
        OpKeepsTimers(w.rooms, w.fired, w.worker, r, AddClient(CoreOf(w, r), id, session).room);
      }
    case Handle(t, hook) =>
      var p := w.threads[t].p;
      var r := p.rest[0];
      if r < |w.rooms| {
        RemoveEvolves(CoreOf(w, r), p.session, p.intentional, hook);
        OpKeepsTimers(w.rooms, w.fired, w.worker, r, RemoveClient(CoreOf(w, r), p.session, p.intentional, hook).0.room);
      }
    case Resume(t, hook) =>
      var r := w.threads[t].room;
      RemoveEvolves(CoreOf(w, r), "", false, hook);
      OpKeepsTimers(w.rooms, w.fired, w.worker, r, FinishRemoval(CoreOf(w, r), hook).0.room);
    case PopTimer(cb) => PopKeepsTimers(w, cb);
    case RunTimer => RunTimerKeepsTimers(w);
    case DisposeNext(t) =>
      var id := w.threads[t].ids[0];
      if id in w.tables.managing && w.tables.managing[id] < |w.rooms| {
        var r := w.tables.managing[id];
        RemoveEvolves(CoreOf(w, r), "", false, Returns);
        OpKeepsTimers(w.rooms, w.fired, w.worker, r, Dispose(CoreOf(w, r)).room);
      }
    case _ =>
  }

  lemma PopKeepsTimers(w: World, cb: Callback)
    requires Enabled(w, PopTimer(cb)) && TimersPending(w.rooms, w.fired, w.worker)
    ensures TimersPending(w.rooms, w.fired + {cb}, Some(cb))
  {
    forall r, v | 0 <= r < |w.rooms| && 0 <= v < |w.rooms[r].waits| && w.rooms[r].waits[v].answer.None?
      ensures WaitOver(r, v) in w.fired + {cb} ==> Some(cb) == Some(WaitOver(r, v))
    {
      assert WaitOver(r, v) !in w.fired;
    }
  }

  /** A callback that has run has answered its wait, so no timer is lost with it. */
  lemma RunTimerKeepsTimers(w: World)
    requires Inv(w) && Enabled(w, RunTimer) && TimersPending(w.rooms, w.fired, w.worker)
    ensures TimersPending(RunCallback(w, w.worker.value).rooms, w.fired, None)
  {
    hide RoomsInv, TimersInv, LockInv, WaitTimeout, Dispose;
    var w' := RunCallback(w, w.worker.value);
    match w.worker.value
    case AutoDispose(r) =>
      if r < |w.rooms| {
        RemoveEvolves(CoreOf(w, r), "", false, Returns);
        OpKeepsTimers(w.rooms, w.fired, w.worker, r, Dispose(CoreOf(w, r)).room);
      }
    case WaitOver(r, v) =>
      if r < |w.rooms| {
        TimeoutEvolves(CoreOf(w, r), v);
        OpKeepsTimers(w.rooms, w.fired, w.worker, r, WaitTimeout(CoreOf(w, r), v).room);
      }
      forall q, u | 0 <= q < |w'.rooms| && 0 <= u < |w'.rooms[q].waits| && w'.rooms[q].waits[u].answer.None?
        ensures WaitOver(q, u) !in w.fired
      {
        if q == r && u == v {
          assert v < |w.rooms[r].waits| || !(WaitOver(r, v) in w.fired);
        }
      }
  }

  lemma CreateKeepsTimers(w: World, a: CreateArgs)
    requires Inv(w) && TimersPending(w.rooms, w.fired, w.worker)
    ensures TimersPending(CreateRoom(w.rooms, w.tables, w.log, w.now, a).rooms, w.fired, w.worker)
  {
    hide CreateRoom, RoomTrace.Tracks;
    CreateAdds(w.rooms, w.tables, w.log, w.now, a);
    CreateNoWaits(w.rooms, w.tables, w.log, w.now, a);
    var d := CreateRoom(w.rooms, w.tables, w.log, w.now, a);
    if d.rooms != w.rooms {
      assert forall q :: 0 <= q < |w.rooms| ==> d.rooms[q] == d.rooms[..|w.rooms|][q];
    }
  }

  lemma CreateNoWaits(rooms: seq<RoomState>, t: Tables, log: seq<Event>, now: int, a: CreateArgs)
    ensures var d := CreateRoom(rooms, t, log, now, a);
      |d.rooms| > |rooms| ==> d.rooms[|rooms|].waits == []
  {
  }

  lemma {:induction false} RunKeepsTimers(w: World, steps: seq<Step>)
    requires Inv(w) && TimersPending(w.rooms, w.fired, w.worker) && Run(w, steps).Some?
    ensures var w' := Run(w, steps).value; TimersPending(w'.rooms, w'.fired, w'.worker)
    decreases |steps|
  {
    hide Inv, Enabled, Next, TimersPending;
    if steps == [] {
    } else {
      NextKeepsInv(w, steps[0]);
      StepKeepsTimers(w, steps[0]);
      RunKeepsTimers(Next(w, steps[0]), steps[1..]);
    }
  }

  /**
   No thread waits for ever: in every run a waiting thread has its answer and needs only the lock,
   or the timer of its wait is still to fire, or the scheduler is about to run it.
   */
  lemma NoWaitIsStuck(start: int, steps: seq<Step>, t: Tid)
    requires Run(Init(start), steps).Some?
    requires var w := Run(Init(start), steps).value; t in w.threads && w.threads[t].Waiting?
    ensures var w := Run(Init(start), steps).value;
      var r, v := w.threads[t].room, w.threads[t].wait;
      && r < |w.rooms| && v < |w.rooms[r].waits|
      && (|| w.rooms[r].waits[v].answer.Some?
          || (WaitOver(r, v) !in w.fired && TimerDue(w, WaitOver(r, v)) == Some(w.rooms[r].waits[v].due))
          || w.worker == Some(WaitOver(r, v)))
  {
    Reached(start, steps);
    Reached(start, []);
    RunKeepsTimers(Init(start), steps);
  }

  // ---------- a room that has emptied ----------

  /** Disposed, inhabited, or waited for. */
  predicate LookedAfter(w: World, r: nat) {
    && r < |w.rooms|
    && (|| w.rooms[r].disposing
        || w.rooms[r].clients != []
        || exists t :: t in w.threads && w.threads[t].Waiting? && w.threads[t].room == r)
  }

  lemma RemovalLooksAfter(c: Core, session: string, intentional: bool, hook: LeaveHook)
    ensures var (c', waiting) := RemoveClient(c, session, intentional, hook);
      c'.room.disposing || c'.room.clients != [] || waiting.Some? || (c'.room == c.room && waiting.None?)
    ensures var (c', waiting) := FinishRemoval(c, hook);
      c'.room.disposing || c'.room.clients != [] || waiting.Some?
  {
  }

  lemma StepLooksAfter(w: World, st: Step, r: nat)
    requires Inv(w) && Enabled(w, st) && LookedAfter(w, r)
    ensures LookedAfter(Next(w, st), r)
  {
    hide RoomsInv, TimersInv, RemoveClient, FinishRemoval, AddClient;
    hide CreateRoom, JoinRoom, WaitTimeout, WithMetadata, Punctual;
    var w' := Next(w, st);
    match st
    case Create(t, a) =>
      CreateLooksAfter(w, t, a, r);
    case Join(session, id, roomId, refused) => JoinLooksAfter(w, session, id, roomId, refused, r);
    case Handle(t, hook) => HandleLooksAfter(w, t, hook, r);
    case Resume(t, hook) => ResumeLooksAfter(w, t, hook, r);
    case RunTimer => TimerLooksAfter(w, r);
    case DisposeNext(t) => DisposeNextLooksAfter(w, t, r);
    case _ => ThreadsStillWait(w, w', r);
  }

  lemma CreateLooksAfter(w: World, t: Tid, a: CreateArgs, r: nat)
    requires Inv(w) && Enabled(w, Create(t, a)) && LookedAfter(w, r)
    ensures LookedAfter(Next(w, Create(t, a)), r)
  {
    hide CreateRoom, RoomTrace.Tracks, TimersInv, LockInv, LookedAfter;
    CreateAdds(w.rooms, w.tables, w.log, w.now, a);
    var w' := Next(w, Create(t, a));
    assert r < |w.rooms| by { LookedAfterIsRoom(w, r); }
    assert w'.rooms != w.rooms ==> w'.rooms[r] == w'.rooms[..|w.rooms|][r];
    ThreadsStillWait(w, w', r);
  }

  lemma LookedAfterIsRoom(w: World, r: nat)
    requires LookedAfter(w, r)
    ensures r < |w.rooms|
  {
  }

  lemma JoinLooksAfter(w: World, session: string, id: string, roomId: string, refused: bool, r: nat)
    requires Inv(w) && LookedAfter(w, r)
    ensures LookedAfter(JoinRoom(w, session, id, roomId, refused), r)
  {
    hide RoomsInv, TimersInv, LockInv, AddClient, JoinRoom;
    JoinIs(w, session, id, roomId, refused);
    if roomId in w.tables.managing && !refused {
      AddClientStanding(CoreOf(w, w.tables.managing[roomId]), id, session);
    }
    var w' := JoinRoom(w, session, id, roomId, refused);
    if !w.rooms[r].disposing && w.rooms[r].clients == [] && w'.rooms[r].clients == [] {
      ThreadsStillWait(w, w', r);
    }
  }

  lemma TimerLooksAfter(w: World, r: nat)
    requires Enabled(w, RunTimer) && LookedAfter(w, r)
    ensures LookedAfter(Next(w, RunTimer), r)
  {
    hide WaitTimeout;
    if w.worker.value.WaitOver? && w.worker.value.room < |w.rooms| {
      WaitTimeoutStanding(CoreOf(w, w.worker.value.room), w.worker.value.wait);
    }
    ThreadsStillWait(w, Next(w, RunTimer), r);
  }

  lemma DisposeNextLooksAfter(w: World, t: Tid, r: nat)
    requires Enabled(w, DisposeNext(t)) && LookedAfter(w, r)
    ensures LookedAfter(Next(w, DisposeNext(t)), r)
  {
    ThreadsStillWait(w, Next(w, DisposeNext(t)), r);
  }

  /** Steps that touch neither the room's list nor a waiting thread. */
  lemma ThreadsStillWait(w: World, w': World, r: nat)
    requires LookedAfter(w, r) && r < |w'.rooms|
    requires w'.rooms[r].disposing || (w'.rooms[r].disposing == w.rooms[r].disposing && w'.rooms[r].clients == w.rooms[r].clients)
    requires forall t | t in w.threads && w.threads[t].Waiting? :: t in w'.threads && w'.threads[t] == w.threads[t]
    ensures LookedAfter(w', r)
  {
    if exists t :: t in w.threads && w.threads[t].Waiting? && w.threads[t].room == r {
      var t :| t in w.threads && w.threads[t].Waiting? && w.threads[t].room == r;
      assert t in w'.threads && w'.threads[t].Waiting? && w'.threads[t].room == r;
    }
  }

  lemma HandleLooksAfter(w: World, t: Tid, hook: LeaveHook, r: nat)
    requires Enabled(w, Handle(t, hook)) && LookedAfter(w, r)
    ensures LookedAfter(HandleLeave(w, t, hook), r)
  {
    hide RemoveClient;
    var w' := HandleLeave(w, t, hook);
    var p := w.threads[t].p;
    if p.rest[0] == r && r < |w.rooms| {
      RemovalLooksAfter(CoreOf(w, r), p.session, p.intentional, hook);
      var (c, waiting) := RemoveClient(CoreOf(w, r), p.session, p.intentional, hook);
      if waiting.Some? {
        assert t in w'.threads && w'.threads[t].Waiting? && w'.threads[t].room == r;
      } else if !c.room.disposing && c.room.clients == [] {
        ThreadsStillWait(w, w', r);
      }
    } else {
      ThreadsStillWait(w, w', r);
    }
  }

  lemma ResumeLooksAfter(w: World, t: Tid, hook: LeaveHook, r: nat)
    requires Enabled(w, Resume(t, hook)) && LookedAfter(w, r)
    ensures LookedAfter(ResumeLeave(w, t, hook), r)
  {
    hide FinishRemoval;
    var w' := ResumeLeave(w, t, hook);
    var q := w.threads[t].room;
    RemovalLooksAfter(CoreOf(w, q), "", false, hook);
    if q == r {
      if FinishRemoval(CoreOf(w, r), hook).1.Some? {
        assert t in w'.threads && w'.threads[t].Waiting? && w'.threads[t].room == r;
      }
    } else if exists u :: u in w.threads && w.threads[u].Waiting? && w.threads[u].room == r {
      var u :| u in w.threads && w.threads[u].Waiting? && w.threads[u].room == r;
      assert u in w'.threads && w'.threads[u].Waiting? && w'.threads[u].room == r;
    }
  }

  lemma {:induction false} RunLooksAfter(w: World, steps: seq<Step>, r: nat)
    requires Inv(w) && LookedAfter(w, r) && Run(w, steps).Some?
    ensures LookedAfter(Run(w, steps).value, r)
    decreases |steps|
  {
    hide Inv, Enabled, Next, LookedAfter;
    if steps == [] {
    } else {
      NextKeepsInv(w, steps[0]);
      StepLooksAfter(w, steps[0], r);
      RunLooksAfter(Next(w, steps[0]), steps[1..], r);
    }
  }

  /**
   No empty room is forgotten: from the moment a room has a client, it is at every later moment
   inhabited, or disposed, or some thread waits for a client of it to come back and will
   look at it again.
   */
  lemma EmptyRoomIsAwaited(start: int, steps: seq<Step>, more: seq<Step>, r: nat)
    requires Run(Init(start), steps).Some? && Run(Run(Init(start), steps).value, more).Some?
    requires r < |Run(Init(start), steps).value.rooms| && Run(Init(start), steps).value.rooms[r].clients != []
    ensures LookedAfter(Run(Run(Init(start), steps).value, more).value, r)
  {
    Reached(start, steps);
    RunLooksAfter(Run(Init(start), steps).value, more, r);
  }
}
