/**
 The game lock: one mutex, the guards that threads have on their stacks, and for each thread
 the slot that points to its innermost guard. Nothing here says who may be inside; that is
 proved.
 */
module GameLock {
  import opened Wrappers

  /** `previous` is what the slot held at the construction; `owns` says whether the guard's unique_lock has the mutex. */
  datatype Guard = Guard(previous: Option<nat>, owns: bool)

  /** Guards are known by their place on the stack. `waiting` is the guard that allow_reconnection has unlocked and will lock again. */
  datatype Thread = Thread(guards: seq<Guard>, slot: Option<nat>, waiting: Option<nat>)

  const OUTSIDE: Thread := Thread([], None, None)

  datatype State<T> = State(mutex: Option<T>, threads: map<T, Thread>)

  datatype Step<T> =
    | Enter(t: T)
    | Leave(t: T)
    | Unlock(t: T)
    | Relock(t: T)

  function Start<T>(): State<T> {
    State(None, map[])
  }

  function ThreadOf<T(==)>(s: State<T>, t: T): Thread {
    if t in s.threads then s.threads[t] else OUTSIDE
  }

  /** A thread without guards is not kept. */
  function Put<T(==)>(threads: map<T, Thread>, t: T, th: Thread): map<T, Thread> {
    if th == OUTSIDE then threads - {t} else threads[t := th]
  }

  function SetOwns(guards: seq<Guard>, k: nat, owns: bool): seq<Guard>
    requires k < |guards|
  {
    guards[k := guards[k].(owns := owns)]
  }

  predicate InRange(th: Thread, guard: Option<nat>) {
    guard.Some? ==> guard.value < |th.guards|
  }

  // ---------- what one thread does ----------

  /** Locking blocks until the mutex is free, also for the thread that has it. A waiting thread does nothing else. */
  predicate CanEnter<T(==)>(s: State<T>, t: T) {
    s.mutex.None? && ThreadOf(s, t).waiting.None?
  }

  function Entered<T(==)>(s: State<T>, t: T): State<T> {
    var th := ThreadOf(s, t);
    State(Some(t), Put(s.threads, t, th.(guards := th.guards + [Guard(th.slot, true)], slot := Some(|th.guards|))))
  }

  predicate CanLeave<T(==)>(s: State<T>, t: T) {
    ThreadOf(s, t).guards != [] && ThreadOf(s, t).waiting.None?
  }

  function Left<T(==)>(s: State<T>, t: T): State<T>
    requires CanLeave(s, t)
  {
    var th := ThreadOf(s, t);
    var last := th.guards[|th.guards| - 1];
    State(if last.owns then None else s.mutex,
          Put(s.threads, t, th.(guards := th.guards[..|th.guards| - 1], slot := last.previous)))
  }

  predicate CanUnlock<T(==)>(s: State<T>, t: T) {
    ThreadOf(s, t).waiting.None? && InRange(ThreadOf(s, t), ThreadOf(s, t).slot)
  }

  function Unlocked<T(==)>(s: State<T>, t: T): State<T>
    requires CanUnlock(s, t)
  {
    var th := ThreadOf(s, t);
    if th.slot.None? then s
    else State(None, Put(s.threads, t, th.(guards := SetOwns(th.guards, th.slot.value, false), waiting := th.slot)))
  }

  predicate CanRelock<T(==)>(s: State<T>, t: T) {
    s.mutex.None? && ThreadOf(s, t).waiting.Some? && InRange(ThreadOf(s, t), ThreadOf(s, t).waiting)
  }

  function Relocked<T(==)>(s: State<T>, t: T): State<T>
    requires CanRelock(s, t)
  {
    var th := ThreadOf(s, t);
    State(Some(t), Put(s.threads, t, th.(guards := SetOwns(th.guards, th.waiting.value, true), waiting := None)))
  }

  predicate Enabled<T(==)>(s: State<T>, step: Step<T>) {
    match step
    case Enter(t) => CanEnter(s, t)
    case Leave(t) => CanLeave(s, t)
    case Unlock(t) => CanUnlock(s, t)
    case Relock(t) => CanRelock(s, t)
  }

  /** unlock() without the mutex, and lock() with it, throw. */
  predicate Legal<T(==)>(s: State<T>, step: Step<T>)
    requires Enabled(s, step)
  {
    var th := ThreadOf(s, step.t);
    match step
    case Unlock(_) => th.slot.Some? ==> th.guards[th.slot.value].owns && s.mutex == Some(step.t)
    case Relock(_) => !th.guards[th.waiting.value].owns
    case _ => true
  }

  function Next<T(==)>(s: State<T>, step: Step<T>): State<T>
    requires Enabled(s, step)
  {
    match step
    case Enter(t) => Entered(s, t)
    case Leave(t) => Left(s, t)
    case Unlock(t) => Unlocked(s, t)
    case Relock(t) => Relocked(s, t)
  }

  function Run<T(==)>(s: State<T>, steps: seq<Step<T>>): Option<State<T>>
    decreases |steps|
  {
    if steps == [] then Some(s)
    else if Enabled(s, steps[0]) then Run(Next(s, steps[0]), steps[1..])
    else None
  }

  // ---------- invariant ----------

  /** Outside; inside with the mutex; or inside and waiting without it. */
  predicate Shaped(th: Thread) {
    || th == OUTSIDE
    || th == Thread([Guard(None, true)], Some(0), None)
    || th == Thread([Guard(None, false)], Some(0), Some(0))
  }

  predicate Inside(th: Thread) {
    th.guards != [] && th.waiting.None?
  }

  ghost predicate Inv<T(!new)>(s: State<T>) {
    forall t: T :: Shaped(ThreadOf(s, t)) && (s.mutex == Some(t) <==> Inside(ThreadOf(s, t)))
  }

  lemma ThreadAfter<T>(s: State<T>, step: Step<T>, t: T)
    requires Enabled(s, step) && t != step.t
    ensures ThreadOf(Next(s, step), t) == ThreadOf(s, t)
  {
  }

  lemma NextKeepsInv<T(!new)>(s: State<T>, step: Step<T>)
    requires Inv(s) && Enabled(s, step)
    ensures Inv(Next(s, step)) && Legal(s, step)
  {
    var s' := Next(s, step);
    var th := ThreadOf(s, step.t);
    assert Shaped(th) && (s.mutex == Some(step.t) <==> Inside(th));
    assert [Guard(None, true)][..0] == [];
    assert ThreadOf(s', step.t) == OUTSIDE || step.t in s'.threads;
    forall t ensures Shaped(ThreadOf(s', t)) && (s'.mutex == Some(t) <==> Inside(ThreadOf(s', t))) {
      if t != step.t {
        ThreadAfter(s, step, t);
      }
    }
  }

  lemma {:induction false} RunKeepsInv<T(!new)>(s: State<T>, steps: seq<Step<T>>)
    requires Inv(s) && Run(s, steps).Some?
    ensures Inv(Run(s, steps).value)
    decreases |steps|
  {
    hide Inv, Enabled, Next;
    if steps == [] {
    } else {
      NextKeepsInv(s, steps[0]);
      RunKeepsInv(Next(s, steps[0]), steps[1..]);
    }
  }

  lemma Reached<T(!new)>(steps: seq<Step<T>>)
    requires Run(Start<T>(), steps).Some?
    ensures Inv(Run(Start<T>(), steps).value)
  {
    RunKeepsInv(Start<T>(), steps);
  }

  // ---------- main results, over every run ----------

  /**
   The mutex belongs to exactly the thread that is inside a guard and not waiting; so there is at
   most one, while any number of others wait inside theirs.
   */
  lemma Exclusion<T(!new)>(steps: seq<Step<T>>, t: T, u: T)
    requires Run(Start<T>(), steps).Some?
    ensures var s := Run(Start<T>(), steps).value;
      && (s.mutex == Some(t) <==> Inside(ThreadOf(s, t)))
      && (Inside(ThreadOf(s, t)) && Inside(ThreadOf(s, u)) ==> t == u)
  {
    Reached(steps);
    var s := Run(Start<T>(), steps).value;
    assert Shaped(ThreadOf(s, t)) && Shaped(ThreadOf(s, u));
  }

  /** current_lock() is null exactly outside of every guard, and otherwise the thread's only guard, which owns the mutex unless the thread waits. */
  lemma SlotIsTheGuard<T(!new)>(steps: seq<Step<T>>, t: T)
    requires Run(Start<T>(), steps).Some?
    ensures var th := ThreadOf(Run(Start<T>(), steps).value, t);
      && (th.slot.None? <==> th.guards == [])
      && (th.slot.Some? ==> th.slot == Some(0) && |th.guards| == 1 && (th.guards[0].owns <==> th.waiting.None?))
  {
    Reached(steps);
    assert Shaped(ThreadOf(Run(Start<T>(), steps).value, t));
  }

  /** allow_reconnection never unlocks a mutex it does not have, and never locks one it has. */
  lemma NeverThrows<T(!new)>(steps: seq<Step<T>>, step: Step<T>)
    requires Run(Start<T>(), steps).Some? && Enabled(Run(Start<T>(), steps).value, step)
    ensures Legal(Run(Start<T>(), steps).value, step)
  {
    Reached(steps);
    NextKeepsInv(Run(Start<T>(), steps).value, step);
  }

  /** Waiting gives back the same guard and the same slot that it found. */
  lemma WaitRestores<T(!new)>(steps: seq<Step<T>>, others: seq<Step<T>>, t: T)
    requires Run(Start<T>(), steps).Some? && Enabled(Run(Start<T>(), steps).value, Unlock(t))
    requires var s := Run(Start<T>(), steps).value;
      && Inside(ThreadOf(s, t))
      && Run(Next(s, Unlock(t)), others).Some? && (forall o | o in others :: o.t != t)
      && Enabled(Run(Next(s, Unlock(t)), others).value, Relock(t))
    ensures var s := Run(Start<T>(), steps).value;
      ThreadOf(Next(Run(Next(s, Unlock(t)), others).value, Relock(t)), t) == ThreadOf(s, t)
  {
    Reached(steps);
    var s := Run(Start<T>(), steps).value;
    assert Shaped(ThreadOf(s, t));
    OthersKeepThread(Next(s, Unlock(t)), others, t);
  }

  lemma {:induction false} OthersKeepThread<T(!new)>(s: State<T>, steps: seq<Step<T>>, t: T)
    requires Run(s, steps).Some? && forall o | o in steps :: o.t != t
    ensures ThreadOf(Run(s, steps).value, t) == ThreadOf(s, t)
    decreases |steps|
  {
    hide Enabled, Next, ThreadOf;
    if steps == [] {
    } else {
      assert steps[0] in steps;
      ThreadAfter(s, steps[0], t);
      OthersKeepThread(Next(s, steps[0]), steps[1..], t);
    }
  }

  /** A thread inside a guard that constructs another one blocks for ever: only by leaving could it go on. */
  lemma SecondGuardBlocks<T(!new)>(steps: seq<Step<T>>, more: seq<Step<T>>, t: T)
    requires Run(Start<T>(), steps).Some? && ThreadOf(Run(Start<T>(), steps).value, t).guards != []
    requires Run(Run(Start<T>(), steps).value, more).Some? && Leave(t) !in more
    ensures !Enabled(Run(Run(Start<T>(), steps).value, more).value, Enter(t))
  {
    Reached(steps);
    StaysInside(Run(Start<T>(), steps).value, more, t);
  }

  lemma {:induction false} StaysInside<T(!new)>(s: State<T>, steps: seq<Step<T>>, t: T)
    requires Inv(s) && ThreadOf(s, t).guards != [] && Run(s, steps).Some? && Leave(t) !in steps
    ensures !Enabled(Run(s, steps).value, Enter(t))
    decreases |steps|
  {
    if steps == [] {
      assert Shaped(ThreadOf(s, t)) && (s.mutex == Some(t) <==> Inside(ThreadOf(s, t)));
    } else {
      assert steps[0] in steps;
      NextKeepsInv(s, steps[0]);
      if steps[0].t != t {
        ThreadAfter(s, steps[0], t);
      }
      StaysInside(Next(s, steps[0]), steps[1..], t);
    }
  }

  // ---------- the guard's methods ----------

  /** All guards and slots of the program. A method that blocks is called when it may go on. */
  class Guards<T(==)> {
    var mutex: Option<T>
    var threads: map<T, Thread>

    ghost function View(): State<T>
      reads this
    {
      State(mutex, threads)
    }

    constructor ()
      ensures View() == Start<T>()
    {
      mutex, threads := None, map[];
    }

    method Store(t: T, th: Thread)
      modifies this`threads
      ensures threads == Put(old(threads), t, th)
    {
      if th == OUTSIDE {
        threads := threads - {t};
      } else {
        threads := threads[t := th];
      }
    }

    /** The constructor of a guard: lock, remember the slot, point the slot to itself. */
    method Construct(t: T)
      requires Enabled(View(), Enter(t))
      modifies this
      ensures View() == Next(old(View()), Enter(t))
    {
      var th := ThreadOf(State(mutex, threads), t);
      mutex := Some(t);
      var previous := th.slot;
      var guard := |th.guards|;
      th := th.(guards := th.guards + [Guard(previous, true)]);
      th := th.(slot := Some(guard));
      Store(t, th);
    }

    /** The destructor of the innermost guard: first the slot, then its unique_lock. */
    method Destroy(t: T)
      requires Enabled(View(), Leave(t))
      modifies this
      ensures View() == Next(old(View()), Leave(t))
    {
      var th := ThreadOf(State(mutex, threads), t);
      var guard := th.guards[|th.guards| - 1];
      th := th.(slot := guard.previous);
      if guard.owns {
        mutex := None;
      }
      th := th.(guards := th.guards[..|th.guards| - 1]);
      Store(t, th);
    }

    /** allow_reconnection, through current_lock(), before it waits. */
    method UnlockCurrent(t: T)
      requires Enabled(View(), Unlock(t))
      modifies this
      ensures View() == Next(old(View()), Unlock(t))
    {
      var th := ThreadOf(State(mutex, threads), t);
      if th.slot.None? {
        return;
      }
      mutex := None;
      Store(t, th.(guards := SetOwns(th.guards, th.slot.value, false), waiting := th.slot));
    }

    /** And after it has its answer. */
    method LockCurrent(t: T)
      requires Enabled(View(), Relock(t))
      modifies this
      ensures View() == Next(old(View()), Relock(t))
    {
      var th := ThreadOf(State(mutex, threads), t);
      mutex := Some(t);
      Store(t, th.(guards := SetOwns(th.guards, th.waiting.value, true), waiting := None));
    }
  }
}
