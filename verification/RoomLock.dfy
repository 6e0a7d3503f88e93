/**
 The step system of the rooms takes and gives up the game lock only as guards do: its `lock` is
 the mutex, and its threads are the guards that are on some stack.
 */
module RoomLock {
  import opened Wrappers
  import opened Storage
  import opened Fetch = RoomFetcher
  import opened PubSub
  import opened RoomModel
  import opened RoomTables
  import opened RoomSystem
  import opened RoomInvariants
  import opened RoomRuns
  import GameLock

  /** The scheduler's worker takes the lock for its callbacks, and game code of any thread for metadata. */
  datatype LockThread =
    | Serving(t: Tid)
    | Worker
    | GameCode

  const HOLDS: GameLock.Thread := GameLock.Thread([GameLock.Guard(None, true)], Some(0), None)
  const WAITS: GameLock.Thread := GameLock.Thread([GameLock.Guard(None, false)], Some(0), Some(0))

  type LockState = GameLock.State<LockThread>
  type LockStep = GameLock.Step<LockThread>

  function GuardOf(th: Thread): GameLock.Thread {
    if th.Waiting? then WAITS else HOLDS
  }

  function Tids(threads: map<Tid, Thread>): map<LockThread, GameLock.Thread> {
    map t | t in threads :: Serving(t) := GuardOf(threads[t])
  }

  function Locks(w: World): LockState {
    GameLock.State(if w.lock.Some? then Some(Serving(w.lock.value)) else None, Tids(w.threads))
  }

  lemma TidsPut(threads: map<Tid, Thread>, t: Tid, th: Thread)
    ensures Tids(threads[t := th]) == Tids(threads)[Serving(t) := GuardOf(th)]
  {
  }

  lemma TidsWithout(threads: map<Tid, Thread>, t: Tid)
    ensures Tids(threads - {t}) == Tids(threads) - {Serving(t)}
  {
  }

  lemma TidsOf(w: World, t: Tid)
    ensures GameLock.ThreadOf(Locks(w), Serving(t)) == if t in w.threads then GuardOf(w.threads[t]) else GameLock.OUTSIDE
  {
  }

  // ---------- one or two steps of a guard ----------

  lemma NoStep(s: LockState)
    ensures GameLock.Run(s, []) == Some(s)
  {
  }

  lemma ThenRest(s: LockState, step: LockStep, rest: seq<LockStep>)
    requires GameLock.Enabled(s, step)
    ensures GameLock.Run(s, [step] + rest) == GameLock.Run(GameLock.Next(s, step), rest)
  {
    hide GameLock.Enabled, GameLock.Next;
    assert ([step] + rest)[1..] == rest;
  }

  lemma EnterIs(s: LockState, t: LockThread, rest: seq<LockStep>)
    requires s.mutex.None? && t !in s.threads
    ensures GameLock.Run(s, [GameLock.Enter(t)] + rest) == GameLock.Run(GameLock.State(Some(t), s.threads[t := HOLDS]), rest)
  {
    hide GameLock.Run;
    assert GameLock.CanEnter(s, t);
    assert [] + [GameLock.Guard(None, true)] == HOLDS.guards;
    ThenRest(s, GameLock.Enter(t), rest);
  }

  lemma LeaveIs(s: LockState, t: LockThread, rest: seq<LockStep>)
    requires t in s.threads && s.threads[t] == HOLDS
    ensures GameLock.Run(s, [GameLock.Leave(t)] + rest) == GameLock.Run(GameLock.State(None, s.threads - {t}), rest)
  {
    hide GameLock.Run;
    assert GameLock.CanLeave(s, t);
    assert HOLDS.guards[..0] == [];
    ThenRest(s, GameLock.Leave(t), rest);
  }

  lemma UnlockIs(s: LockState, t: LockThread, rest: seq<LockStep>)
    requires t in s.threads && s.threads[t] == HOLDS
    ensures GameLock.Run(s, [GameLock.Unlock(t)] + rest) == GameLock.Run(GameLock.State(None, s.threads[t := WAITS]), rest)
  {
    hide GameLock.Run;
    assert GameLock.CanUnlock(s, t);
    assert GameLock.SetOwns(HOLDS.guards, 0, false) == WAITS.guards;
    ThenRest(s, GameLock.Unlock(t), rest);
  }

  lemma RelockIs(s: LockState, t: LockThread, rest: seq<LockStep>)
    requires t in s.threads && s.threads[t] == WAITS && s.mutex.None?
    ensures GameLock.Run(s, [GameLock.Relock(t)] + rest) == GameLock.Run(GameLock.State(Some(t), s.threads[t := HOLDS]), rest)
  {
    hide GameLock.Run;
    assert GameLock.CanRelock(s, t);
    assert GameLock.SetOwns(WAITS.guards, 0, true) == HOLDS.guards;
    ThenRest(s, GameLock.Relock(t), rest);
  }

  // ---------- every step of the system ----------

  /** A thread that has the lock goes on with it, or gives it up and waits. */
  lemma GoesOn(w: World, t: Tid, room: nat, waiting: Option<nat>, p: Publish) returns (steps: seq<LockStep>)
    requires w.lock == Some(t) && t in w.threads && !w.threads[t].Waiting?
    ensures GameLock.Run(Locks(w), steps) == Some(Locks(GoOn(w, t, room, waiting, p)))
  {
    hide GameLock.Run;
    TidsOf(w, t);
    TidsPut(w.threads, t, if waiting.None? then Publishing(p) else Waiting(room, waiting.value, p));
    if waiting.None? {
      steps := [];
      NoStep(Locks(w));
      assert Tids(w.threads)[Serving(t) := HOLDS] == Tids(w.threads);
    } else {
      steps := [GameLock.Unlock(Serving(t))] + [];
      UnlockIs(Locks(w), Serving(t), []);
      NoStep(Locks(GoOn(w, t, room, waiting, p)));
    }
  }

  lemma Resumes(w: World, t: Tid, room: nat, waiting: Option<nat>, p: Publish) returns (steps: seq<LockStep>)
    requires w.lock.None? && t in w.threads && w.threads[t].Waiting?
    ensures GameLock.Run(Locks(w), steps) == Some(Locks(GoOn(w, t, room, waiting, p)))
  {
    hide GameLock.Run;
    TidsOf(w, t);
    TidsPut(w.threads, t, if waiting.None? then Publishing(p) else Waiting(room, waiting.value, p));
    if waiting.None? {
      steps := [GameLock.Relock(Serving(t))] + [];
      RelockIs(Locks(w), Serving(t), []);
      NoStep(Locks(GoOn(w, t, room, waiting, p)));
    } else {
      // allow_reconnection is called again as soon as it has returned
      var again := [GameLock.Unlock(Serving(t))] + [];
      steps := [GameLock.Relock(Serving(t))] + again;
      var s := Locks(w);
      var held := GameLock.State(Some(Serving(t)), s.threads[Serving(t) := HOLDS]);
      RelockIs(s, Serving(t), again);
      UnlockIs(held, Serving(t), []);
      assert held.threads[Serving(t) := WAITS] == s.threads == Tids(w.threads)[Serving(t) := WAITS];
      NoStep(s);
    }
  }

  lemma Enters(w: World, t: Tid, th: Thread) returns (steps: seq<LockStep>)
    requires w.lock.None? && t !in w.threads && !th.Waiting?
    ensures GameLock.Run(Locks(w), steps) == Some(Locks(w.(threads := w.threads[t := th], lock := Some(t))))
  {
    hide GameLock.Run;
    TidsOf(w, t);
    TidsPut(w.threads, t, th);
    steps := [GameLock.Enter(Serving(t))] + [];
    EnterIs(Locks(w), Serving(t), []);
    NoStep(Locks(w.(threads := w.threads[t := th], lock := Some(t))));
  }

  /** A guard around one call: the lock is free before and after. */
  lemma Scoped(w: World, t: LockThread) returns (steps: seq<LockStep>)
    requires w.lock.None? && t !in Locks(w).threads
    ensures GameLock.Run(Locks(w), steps) == Some(Locks(w))
  {
    hide GameLock.Run;
    var leave := [GameLock.Leave(t)] + [];
    steps := [GameLock.Enter(t)] + leave;
    var s := Locks(w);
    EnterIs(s, t, leave);
    LeaveIs(GameLock.State(Some(t), s.threads[t := HOLDS]), t, []);
    assert s.threads[t := HOLDS] - {t} == s.threads;
    NoStep(s);
  }

  lemma SameLocks(w: World, w': World)
    requires w'.lock == w.lock && w'.threads == w.threads
    ensures Locks(w') == Locks(w)
  {
  }

  lemma StepLocks(w: World, st: Step) returns (steps: seq<LockStep>)
    requires Inv(w) && Enabled(w, st)
    ensures GameLock.Run(Locks(w), steps) == Some(Locks(Next(w, st)))
  {
    hide RoomsInv, TimersInv, RemoveClient, FinishRemoval, CreateRoom, JoinRoom, WithMetadata, Punctual;
    hide GameLock.Run, Locks, Tids, RunCallback, Dispose;
    var w' := Next(w, st);
    match st
    case Create(t, _) =>
      IdleIsOutside(w, t);
      steps := Scoped(w, Serving(t));
      SameLocks(w, w');
    case Join(session, id, roomId, refused) =>
      JoinIs(w, session, id, roomId, refused);
      IdleIsOutside(w, Connection(session));
      steps := Scoped(w, Serving(Connection(session)));
      SameLocks(w, w');
    case SetMetadata(_, _) =>
      NotServing(w);
      steps := Scoped(w, GameCode);
      SameLocks(w, w');
    case RunTimer =>
      NotServing(w);
      steps := Scoped(w, Worker);
      TimerKeepsThreads(w);
      SameLocks(w, w');
    case BeginLeave(session, closing) =>
      steps := Enters(w, Connection(session), w'.threads[Connection(session)]);
      SameLocks(w.(threads := w'.threads, lock := w'.lock), w');
    case Kick(t, _, _) =>
      steps := Enters(w, t, w'.threads[t]);
      SameLocks(w.(threads := w'.threads, lock := w'.lock), w');
    case BeginShutdown(t, ids) =>
      steps := Enters(w, t, ShuttingDown(ids));
      SameLocks(w.(threads := w'.threads, lock := w'.lock), w');
    case Handle(t, hook) => steps := HandleLocks(w, t, hook);
    case Resume(t, hook) => steps := ResumeLocks(w, t, hook);
    case Finish(t) => steps := FinishLocks(w, t);
    case DisposeNext(t) => steps := DisposeNextLocks(w, t);
    case _ =>
      steps := [];
      NoStep(Locks(w));
      SameLocks(w, w');
  }

  lemma IdleIsOutside(w: World, t: Tid)
    requires t !in w.threads
    ensures Serving(t) !in Locks(w).threads
  {
  }

  lemma NotServing(w: World)
    ensures Worker !in Locks(w).threads && GameCode !in Locks(w).threads
  {
  }

  lemma TimerKeepsThreads(w: World)
    requires Enabled(w, RunTimer)
    ensures Next(w, RunTimer).threads == w.threads && Next(w, RunTimer).lock == w.lock
  {
    hide Dispose, WaitTimeout;
  }

  lemma HandleLocks(w: World, t: Tid, hook: LeaveHook) returns (steps: seq<LockStep>)
    requires Enabled(w, Handle(t, hook))
    ensures GameLock.Run(Locks(w), steps) == Some(Locks(HandleLeave(w, t, hook)))
  {
    hide RemoveClient, GameLock.Run, Locks;
    var p := w.threads[t].p;
    var r, rest := p.rest[0], p.(rest := p.rest[1..]);
    if r >= |w.rooms| {
      steps := GoesOn(w, t, r, None, rest);
    } else {
      var (c, waiting) := RemoveClient(CoreOf(w, r), p.session, p.intentional, hook);
      SameLocks(w, WithCore(w, r, c));
      steps := GoesOn(WithCore(w, r, c), t, r, waiting, rest);
    }
  }

  lemma ResumeLocks(w: World, t: Tid, hook: LeaveHook) returns (steps: seq<LockStep>)
    requires Enabled(w, Resume(t, hook))
    ensures GameLock.Run(Locks(w), steps) == Some(Locks(ResumeLeave(w, t, hook)))
  {
    hide FinishRemoval, GameLock.Run, Locks;
    var r, p := w.threads[t].room, w.threads[t].p;
    var (c, waiting) := FinishRemoval(CoreOf(w, r), hook);
    SameLocks(w, WithCore(w, r, c));
    steps := Resumes(WithCore(w, r, c), t, r, waiting, p);
  }

  lemma FinishLocks(w: World, t: Tid) returns (steps: seq<LockStep>)
    requires Enabled(w, Finish(t))
    ensures GameLock.Run(Locks(w), steps) == Some(Locks(Next(w, Finish(t))))
  {
    hide GameLock.Run;
    TidsOf(w, t);
    TidsWithout(w.threads, t);
    steps := [GameLock.Leave(Serving(t))] + [];
    LeaveIs(Locks(w), Serving(t), []);
    NoStep(Locks(Next(w, Finish(t))));
  }

  lemma DisposeNextLocks(w: World, t: Tid) returns (steps: seq<LockStep>)
    requires Enabled(w, DisposeNext(t))
    ensures GameLock.Run(Locks(w), steps) == Some(Locks(Next(w, DisposeNext(t))))
  {
    hide Dispose;
    var w' := Next(w, DisposeNext(t));
    TidsOf(w, t);
    TidsPut(w.threads, t, ShuttingDown(w.threads[t].ids[1..]));
    assert Tids(w.threads)[Serving(t) := HOLDS] == Tids(w.threads);
    steps := [];
    NoStep(Locks(w));
  }

  // ---------- every run of the system ----------

  lemma {:induction false} RunConcat(s: LockState, steps: seq<LockStep>, more: seq<LockStep>)
    requires GameLock.Run(s, steps).Some?
    ensures GameLock.Run(s, steps + more) == GameLock.Run(GameLock.Run(s, steps).value, more)
    decreases |steps|
  {
    hide GameLock.Enabled, GameLock.Next;
    if steps == [] {
      assert steps + more == more;
    } else {
      assert (steps + more)[1..] == steps[1..] + more;
      RunConcat(GameLock.Next(s, steps[0]), steps[1..], more);
    }
  }

  lemma {:induction false} RunLocks(w: World, run: seq<Step>) returns (steps: seq<LockStep>)
    requires Inv(w) && Run(w, run).Some?
    ensures GameLock.Run(Locks(w), steps) == Some(Locks(Run(w, run).value))
    decreases |run|
  {
    hide Inv, Enabled, Next, Locks, GameLock.Run;
    if run == [] {
      steps := [];
      NoStep(Locks(w));
    } else {
      NextKeepsInv(w, run[0]);
      var first := StepLocks(w, run[0]);
      var more := RunLocks(Next(w, run[0]), run[1..]);
      RunConcat(Locks(w), first, more);
      steps := first + more;
    }
  }

  /** Every run of the server is, seen from the lock, a run of the guards. */
  lemma ServerFollowsGuards(start: int, run: seq<Step>) returns (steps: seq<LockStep>)
    requires Run(Init(start), run).Some?
    ensures GameLock.Run(GameLock.Start(), steps) == Some(Locks(Run(Init(start), run).value))
  {
    hide GameLock.Run, Inv, Run;
    StartLocks(start);
    steps := RunLocks(Init(start), run);
  }

  lemma StartLocks(start: int)
    ensures Inv(Init(start)) && Locks(Init(start)) == GameLock.Start()
  {
    Reached(start, []);
    assert Tids(map[]) == map[];
  }

  /**
   So the guards decide who has the lock: a thread in the middle of a publish or of shutdown
   has it, a thread that waits in allow_reconnection has not, and nobody else has.
   */
  lemma LockHeldIff(start: int, run: seq<Step>, t: Tid)
    requires Run(Init(start), run).Some?
    ensures var w := Run(Init(start), run).value; w.lock == Some(t) <==> t in w.threads && !w.threads[t].Waiting?
  {
    hide GameLock.Run, Inv;
    var steps := ServerFollowsGuards(start, run);
    var w := Run(Init(start), run).value;
    GameLock.Exclusion(steps, Serving(t), Serving(t));
    TidsOf(w, t);
  }
}
