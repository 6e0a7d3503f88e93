/** One run in full: a room is created, its only client drops, and is back before the timer. */
module RoomExample {
  import opened Wrappers
  import opened Storage
  import opened Fetch = RoomFetcher
  import opened PubSub
  import opened RoomModel
  import opened RoomTables
  import opened RoomSystem
  import opened RoomInvariants
  import opened RoomRuns

  const OWNER: SimpleClient := SimpleClient("", "", "", "")
  const ARGS: CreateArgs := CreateArgs(true, "chat", OWNER, "den", ["a", "b", "c"], false, 0, 0, 0)

  lemma {:induction false} RunAppend(w: World, steps: seq<Step>, st: Step)
    requires Run(w, steps).Some? && Enabled(Run(w, steps).value, st)
    ensures Run(w, steps + [st]) == Some(Next(Run(w, steps).value, st))
    decreases |steps|
  {
    hide Enabled, Next;
    if steps == [] {
      assert ([] + [st])[1..] == [];
    } else {
      assert (steps + [st])[1..] == steps[1..] + [st];
      RunAppend(Next(w, steps[0]), steps[1..], st);
    }
  }

  lemma Made()
    ensures Enabled(Init(0), Create(Program(0), ARGS))
    ensures var w := Next(Init(0), Create(Program(0), ARGS));
      && |w.rooms| == 1 && w.rooms[0].clients == [] && w.rooms[0].waits == [] && w.rooms[0].joinListeners == []
      && w.rooms[0].id == "den" && !w.rooms[0].disposing && w.rooms[0].owner == OWNER && w.rooms[0].handle == 0
      && w.rooms[0].timer == Armed(AUTO_DISPOSE_AFTER, false)
      && w.tables.managing == map["den" := 0] && Listening(w.tables.listeners, PLAYER_LEFT) == [Listener(1, PlayerLeft(0))]
      && w.lock == None && w.threads == map[] && w.worker == None && w.closed == {}
  {
    var w := Init(0);
    assert Live(map[], 0) == map[];
    assert "den" !in ListedRooms(w.tables.entries, 0) by { ListedIffFound(w.tables.entries, "den", 0); }
  }

  /** The room and what its client's thread is doing, up to the wait. */
  predicate At(w: World, sessions: seq<string>, lock: Option<Tid>, threads: map<Tid, Thread>) {
    && |w.rooms| == 1 && w.rooms[0].id == "den" && !w.rooms[0].disposing && w.rooms[0].owner == OWNER && w.rooms[0].handle == 0
    && |w.rooms[0].clients| == |sessions|
    && (forall i :: 0 <= i < |sessions| ==> w.rooms[0].clients[i].id == "ann" && w.rooms[0].clients[i].sessionId == sessions[i])
    && w.tables.managing == map["den" := 0] && Listening(w.tables.listeners, PLAYER_LEFT) == [Listener(1, PlayerLeft(0))]
    && w.lock == lock && w.threads == threads && w.worker == None && w.closed == {}
  }

  lemma Joins(w: World, session: string)
    requires Inv(w) && At(w, [], None, w.threads) && Connection(session) !in w.threads
    requires w.rooms[0].waits == [] && w.rooms[0].joinListeners == []
    ensures Enabled(w, Join(session, "ann", "den", false))
    ensures var w' := Next(w, Join(session, "ann", "den", false));
      At(w', [session], None, w.threads) && w'.rooms[0].waits == [] && w'.rooms[0].joinListeners == []
  {
    hide Inv, JoinRoom;
    JoinIs(w, session, "ann", "den", false);
  }

  lemma BeginsToLeave(w: World, session: string)
    requires At(w, [session], None, map[])
    ensures Enabled(w, BeginLeave(session, true))
    ensures var w' := Next(w, BeginLeave(session, true));
      && At(w', [session], Some(Connection(session)), map[Connection(session) := Publishing(Publish(session, false, [0], true))])
      && w'.rooms == w.rooms
  {
    var list := Listening(w.tables.listeners, PLAYER_LEFT);
    assert list[1..] == [];
    assert RoomsOf(list) == [0];
  }

  /** The thread gives up the lock in the middle of the removal; the empty room lives on. */
  lemma StartsToWait(w: World, session: string)
    requires At(w, [session], Some(Connection(session)), map[Connection(session) := Publishing(Publish(session, false, [0], true))])
    requires w.rooms[0].waits == [] && w.rooms[0].joinListeners == []
    ensures Enabled(w, Handle(Connection(session), AllowReconnection("ann", 10_000)))
    ensures var w' := Next(w, Handle(Connection(session), AllowReconnection("ann", 10_000)));
      && At(w', [], None, map[Connection(session) := Waiting(0, 0, Publish(session, false, [], true))])
      && w'.rooms[0].waits == [Wait("ann", None, 10_000, false)] && w'.rooms[0].joinListeners == [0]
  {
    assert [0][1..] == [];
  }

  /** The join of the same client under a new session answers the wait and cancels its timer. */
  lemma ComesBack(w: World, session: string, newSession: string)
    requires Inv(w) && At(w, [], None, map[Connection(session) := Waiting(0, 0, Publish(session, false, [], true))])
    requires w.rooms[0].waits == [Wait("ann", None, 10_000, false)]
    requires w.rooms[0].joinListeners == [0] && newSession != session
    ensures Enabled(w, Join(newSession, "ann", "den", false))
    ensures var w' := Next(w, Join(newSession, "ann", "den", false));
      && At(w', [newSession], None, w.threads)
      && w'.rooms[0].waits == [Wait("ann", Some(true), 10_000, true)]
  {
    hide Inv, JoinRoom;
    JoinIs(w, newSession, "ann", "den", false);
    assert [0][1..] == [];
  }

  lemma GoesOn(w: World, session: string, other: string)
    requires At(w, [other], None, map[Connection(session) := Waiting(0, 0, Publish(session, false, [], true))])
    requires w.rooms[0].waits == [Wait("ann", Some(true), 10_000, true)]
    ensures Enabled(w, Resume(Connection(session), Returns))
    ensures var w' := Next(w, Resume(Connection(session), Returns));
      && At(w', [other], Some(Connection(session)), map[Connection(session) := Publishing(Publish(session, false, [], true))])
      && w'.rooms[0].waits == w.rooms[0].waits
      && Enabled(w', Finish(Connection(session)))
  {
  }

  /**
   The whole story: the client drops, its thread waits without the lock, the client is back
   under another session, the waiting thread gets the answer true and ends, and the room is
   still there with the client in it.
   */
  lemma DropAndReturn() returns (steps: seq<Step>)
    ensures Run(Init(0), steps).Some?
    ensures var w := Run(Init(0), steps).value;
      && |w.rooms| == 1 && !w.rooms[0].disposing && w.tables.managing == map["den" := 0]
      && |w.rooms[0].clients| == 1 && w.rooms[0].clients[0].id == "ann" && w.rooms[0].clients[0].sessionId == "second"
      && w.rooms[0].waits == [Wait("ann", Some(true), 10_000, true)]
      && w.threads == map[] && w.lock.None? && w.closed == {"first"}
  {
    hide Run, Inv, Next, Enabled;
    steps := [];
    Starts();
    Made();
    steps := Then(steps, Create(Program(0), ARGS));
    Joins(Run(Init(0), steps).value, "first");
    steps := Then(steps, Join("first", "ann", "den", false));
    BeginsToLeave(Run(Init(0), steps).value, "first");
    steps := Then(steps, BeginLeave("first", true));
    StartsToWait(Run(Init(0), steps).value, "first");
    steps := Then(steps, Handle(Connection("first"), AllowReconnection("ann", 10_000)));
    ComesBack(Run(Init(0), steps).value, "first", "second");
    steps := Then(steps, Join("second", "ann", "den", false));
    GoesOn(Run(Init(0), steps).value, "first", "second");
    steps := Then(steps, Resume(Connection("first"), Returns));
    Ends(Run(Init(0), steps).value);
    steps := Then(steps, Finish(Connection("first")));
  }

  lemma Starts()
    ensures Run(Init(0), []) == Some(Init(0)) && Inv(Init(0))
  {
    assert Run(Init(0), []) == Some(Init(0));
    Reached(0, []);
  }

  lemma Then(steps: seq<Step>, st: Step) returns (more: seq<Step>)
    requires Run(Init(0), steps).Some? && Enabled(Run(Init(0), steps).value, st)
    ensures more == steps + [st] && Run(Init(0), more) == Some(Next(Run(Init(0), steps).value, st))
    ensures Inv(Run(Init(0), more).value)
  {
    more := steps + [st];
    RunAppend(Init(0), steps, st);
    Reached(0, more);
  }

  lemma Ends(w: World)
    requires At(w, ["second"], Some(Connection("first")), map[Connection("first") := Publishing(Publish("first", false, [], true))])
    ensures Enabled(w, Finish(Connection("first")))
    ensures var w' := Next(w, Finish(Connection("first")));
      && w'.rooms == w.rooms && w'.tables == w.tables && w'.threads == map[] && w'.lock.None? && w'.closed == {"first"}
  {
  }
}
