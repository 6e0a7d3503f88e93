/**
 Every run of the timer thread, step by step: the worker, any number of threads that set or
 cancel timers, the destructor, the clock, and wake-ups of every kind.
 */
module SchedulerRuns {
  import opened Sequences
  import opened Wrappers
  import opened Scheduler

  datatype Worker =
    | Holding              // at the top of the loop, with the mutex
    | Asleep(until: Option<int>)
    | Awake                // notified, timed out or spuriously woken; the mutex is not yet back
    | Calling(task: Task)
    | Returned             // the callback is over; the mutex is not yet back
    | Exited

  datatype Popped = Popped(task: Task, at: int, ran: bool)

  /** `owed` counts the threads that have changed the state but not yet called notify_all. */
  datatype State = State(
    now: int,
    tasks: seq<Task>,
    cancelled: set<nat>,
    stopping: bool,
    worker: Worker,
    owed: nat,
    nextId: nat,
    popped: seq<Popped>)

  datatype Step =
    | Tick(elapsed: nat)
    | SetTimeout(delay: nat)
    | Cancel(id: nat)
    | Stop
    | Notify
    | WakeUp
    | Lock
    | OnePass
    | CallbackReturns

  function Init(now: int): State {
    State(now, [], {}, false, Awake, 0, 0, [])
  }

  /** The mutex is needed by SetTimeout and Stop, and only the worker keeps it across steps. */
  predicate Enabled(s: State, step: Step) {
    match step
    case SetTimeout(_) => !s.worker.Holding?
    case Stop => !s.worker.Holding?
    case Notify => s.owed > 0
    case WakeUp => s.worker.Asleep?
    case Lock => s.worker.Awake? || s.worker.Returned?
    case OnePass => s.worker.Holding?
    case CallbackReturns => s.worker.Calling?
    case _ => true
  }

  function Next(s: State, step: Step): State
    requires Enabled(s, step)
  {
    match step
    case Tick(elapsed) => s.(now := s.now + elapsed)
    case SetTimeout(delay) =>
      s.(tasks := s.tasks + [Task(s.nextId, s.now + delay)], nextId := s.nextId + 1, owed := s.owed + 1)
    case Cancel(id) => s.(cancelled := s.cancelled + {id})
    case Stop => s.(stopping := true, owed := s.owed + 1)
    case Notify => s.(owed := s.owed - 1, worker := if s.worker.Asleep? then Awake else s.worker)
    case WakeUp => s.(worker := Awake)
    case Lock => s.(worker := Holding)
    case OnePass =>
      (var (left, action) := Pass(s.tasks, s.cancelled, s.stopping, s.now);
       match action
       case Exit => s.(worker := Exited)
       case Sleep(until) => s.(worker := Asleep(until))
       case Drop(task) => s.(tasks := left, popped := s.popped + [Popped(task, s.now, false)])
       case Call(task) => s.(tasks := left, popped := s.popped + [Popped(task, s.now, true)], worker := Calling(task)))
    case CallbackReturns => s.(worker := Returned)
  }

  function Run(s: State, steps: seq<Step>): Option<State>
    decreases |steps|
  {
    if steps == [] then Some(s)
    else if Enabled(s, steps[0]) then Run(Next(s, steps[0]), steps[1..])
    else None
  }

  // ---------- invariants ----------

  /** Earlier due, or equally due and set earlier. */
  predicate Before(a: Task, b: Task) {
    a.due < b.due || (a.due == b.due && a.id < b.id)
  }

  predicate IdsIncrease(tasks: seq<Task>) {
    forall i, j :: 0 <= i < j < |tasks| ==> tasks[i].id < tasks[j].id
  }

  predicate PopsIncrease(popped: seq<Popped>) {
    forall i, j :: 0 <= i < j < |popped| ==> Before(popped[i].task, popped[j].task)
  }

  predicate PoppedFirst(popped: seq<Popped>, tasks: seq<Task>) {
    forall p, t | p in popped && t in tasks :: Before(p.task, t)
  }

  predicate Ordered(tasks: seq<Task>, popped: seq<Popped>, now: int) {
    && IdsIncrease(tasks)
    && PopsIncrease(popped)
    && PoppedFirst(popped, tasks)
    && (forall p | p in popped :: p.task.due <= p.at <= now)
  }

  function Pending(tasks: seq<Task>): set<nat> {
    set t | t in tasks :: t.id
  }

  function WasPopped(popped: seq<Popped>): set<nat> {
    set p | p in popped :: p.task.id
  }

  /** Every task ever set is pending or popped, and in one place only. */
  ghost predicate Accounted(tasks: seq<Task>, popped: seq<Popped>, cancelled: set<nat>, nextId: nat) {
    && (forall id: nat :: id in Pending(tasks) || id in WasPopped(popped) <==> id < nextId)
    && Pending(tasks) !! WasPopped(popped)
    && (forall i, j :: 0 <= i < j < |popped| ==> popped[i].task.id != popped[j].task.id)
    && (forall p | p in popped && !p.ran :: p.task.id in cancelled)
  }

  /** The worker sleeps although there is something to do, or sleeps too long. */
  predicate Oversleeps(s: State) {
    && s.worker.Asleep?
    && (s.stopping || match s.worker.until
                      case None => s.tasks != []
                      case Some(d) => exists t | t in s.tasks :: t.due < d)
  }

  /** A timed sleep ends when a pending task is due. */
  predicate SleepsForATask(tasks: seq<Task>, worker: Worker) {
    worker.Asleep? && worker.until.Some? ==> exists t | t in tasks :: t.due == worker.until.value
  }

  ghost predicate Inv(s: State) {
    && Ordered(s.tasks, s.popped, s.now)
    && Accounted(s.tasks, s.popped, s.cancelled, s.nextId)
    && (Oversleeps(s) ==> s.owed > 0)
    && SleepsForATask(s.tasks, s.worker)
    && (s.worker.Exited? ==> s.stopping)
  }

  lemma WithoutOne(tasks: seq<Task>, k: nat)
    requires k < |tasks| && IdsIncrease(tasks)
    ensures IdsIncrease(RemoveAt(tasks, k))
    ensures forall t :: t in RemoveAt(tasks, k) <==> t in tasks && t.id != tasks[k].id
  {
    var left := RemoveAt(tasks, k);
    forall j | 0 <= j < |left| ensures left[j] == tasks[if j < k then j else j + 1] {
    }
    forall t | t in tasks && t.id != tasks[k].id ensures t in left {
      var i :| 0 <= i < |tasks| && tasks[i] == t;
      assert left[if i < k then i else i - 1] == t;
    }
  }

  lemma PassPops(s: State)
    requires IdsIncrease(s.tasks)
    requires var action := Pass(s.tasks, s.cancelled, s.stopping, s.now).1; action.Drop? || action.Call?
    ensures var (left, action) := Pass(s.tasks, s.cancelled, s.stopping, s.now);
      && action.task in s.tasks && action.task.due <= s.now
      && (action.Drop? <==> action.task.id in s.cancelled)
      && IdsIncrease(left)
      && (forall t :: t in left <==> t in s.tasks && t.id != action.task.id)
      && (forall t | t in left :: Before(action.task, t))
  {
    var k := FirstMin(s.tasks);
    FirstMinIsFirst(s.tasks);
    WithoutOne(s.tasks, k);
    forall t | t in RemoveAt(s.tasks, k) ensures Before(s.tasks[k], t) {
      var i :| 0 <= i < |s.tasks| && s.tasks[i] == t;
      assert i != k;
    }
  }

  /** Moving a task from the list to the popped ones; `left` is the list without it. */
  lemma PopKeeps(s: State, left: seq<Task>, pop: Popped)
    requires Ordered(s.tasks, s.popped, s.now) && Accounted(s.tasks, s.popped, s.cancelled, s.nextId)
    requires pop.task in s.tasks && pop.task.due <= pop.at == s.now && IdsIncrease(left)
    requires forall t :: t in left <==> t in s.tasks && t.id != pop.task.id
    requires forall t | t in left :: Before(pop.task, t)
    requires pop.ran || pop.task.id in s.cancelled
    ensures Ordered(left, s.popped + [pop], s.now)
    ensures Accounted(left, s.popped + [pop], s.cancelled, s.nextId)
  {
    var popped := s.popped + [pop];
    assert forall p :: p in popped <==> p in s.popped || p == pop;
    assert pop.task.id in Pending(s.tasks);
    assert Pending(left) == Pending(s.tasks) - {pop.task.id};
    assert WasPopped(popped) == WasPopped(s.popped) + {pop.task.id} by {
      forall id | id in WasPopped(s.popped) ensures id in WasPopped(popped) {
        var p :| p in s.popped && p.task.id == id;
        assert p in popped;
      }
      assert pop in popped;
    }
    forall i | 0 <= i < |s.popped|
      ensures s.popped[i].task.id != pop.task.id && Before(s.popped[i].task, pop.task)
    {
      assert s.popped[i] in s.popped;
      assert s.popped[i].task.id in WasPopped(s.popped);
    }
  }

  lemma SetKeeps(s: State, task: Task)
    requires Ordered(s.tasks, s.popped, s.now) && Accounted(s.tasks, s.popped, s.cancelled, s.nextId)
    requires task.id == s.nextId && s.now <= task.due
    ensures Ordered(s.tasks + [task], s.popped, s.now)
    ensures Accounted(s.tasks + [task], s.popped, s.cancelled, s.nextId + 1)
  {
    var tasks := s.tasks + [task];
    assert forall x :: x in tasks <==> x in s.tasks || x == task;
    forall i | 0 <= i < |s.tasks| ensures s.tasks[i].id < s.nextId {
      assert s.tasks[i].id in Pending(s.tasks);
    }
    forall p | p in s.popped ensures Before(p.task, task) {
      assert p.task.id in WasPopped(s.popped);
    }
    assert Pending(tasks) == Pending(s.tasks) + {s.nextId};
  }

  lemma SleepGoesOn(s: State, task: Task)
    requires SleepsForATask(s.tasks, s.worker)
    ensures SleepsForATask(s.tasks + [task], s.worker)
  {
    if s.worker.Asleep? && s.worker.until.Some? {
      var t :| t in s.tasks && t.due == s.worker.until.value;
      assert t in s.tasks + [task];
    }
  }

  lemma OnePassSleepsRight(s: State)
    requires s.worker.Holding?
    ensures !Oversleeps(Next(s, OnePass))
    ensures SleepsForATask(Next(s, OnePass).tasks, Next(s, OnePass).worker)
    ensures Next(s, OnePass).worker.Asleep? && Next(s, OnePass).worker.until.Some? ==> Next(s, OnePass).worker.until.value > s.now
  {
    if s.tasks != [] {
      FirstMinIsFirst(s.tasks);
      assert s.tasks[FirstMin(s.tasks)] in s.tasks;
    }
  }

  lemma OnePassKeepsInv(s: State)
    requires Inv(s) && s.worker.Holding?
    ensures Inv(Next(s, OnePass))
  {
    OnePassSleepsRight(s);
    var (left, action) := Pass(s.tasks, s.cancelled, s.stopping, s.now);
    if action.Drop? || action.Call? {
      PassPops(s);
      PopKeeps(s, left, Popped(action.task, s.now, action.Call?));
    }
  }

  lemma NextKeepsInv(s: State, step: Step)
    requires Inv(s) && Enabled(s, step)
    ensures Inv(Next(s, step))
  {
    match step {
      case OnePass => OnePassKeepsInv(s);
      case SetTimeout(delay) =>
        SetKeeps(s, Task(s.nextId, s.now + delay));
        SleepGoesOn(s, Task(s.nextId, s.now + delay));
      case _ =>
    }
  }

  lemma {:induction false} RunKeepsInv(s: State, steps: seq<Step>)
    requires Inv(s) && Run(s, steps).Some?
    ensures Inv(Run(s, steps).value)
    decreases |steps|
  {
    if steps == [] {
    } else {
      NextKeepsInv(s, steps[0]);
      RunKeepsInv(Next(s, steps[0]), steps[1..]);
    }
  }

  lemma Reached(start: int, steps: seq<Step>)
    requires Run(Init(start), steps).Some?
    ensures Inv(Run(Init(start), steps).value)
  {
    var s := Init(start);
    RunKeepsInv(s, steps);
  }

  // ---------- main results, over every run ----------

  /**
   Tasks are popped in order of due time, equally due ones in the order they were set, and
   none before it is due.
   */
  lemma PopsInOrder(start: int, steps: seq<Step>, i: nat, j: nat)
    requires Run(Init(start), steps).Some?
    requires i < j < |Run(Init(start), steps).value.popped|
    ensures var popped := Run(Init(start), steps).value.popped;
      && popped[i].task.due <= popped[j].task.due
      && (popped[i].task.due == popped[j].task.due ==> popped[i].task.id < popped[j].task.id)
      && popped[i].task.due <= popped[i].at && popped[j].task.due <= popped[j].at
  {
    Reached(start, steps);
  }

  function PendingAt(s: State, id: nat): set<nat> {
    set i: nat | i < |s.tasks| && s.tasks[i].id == id
  }

  function PoppedAt(s: State, id: nat, ran: bool): set<nat> {
    set i: nat | i < |s.popped| && s.popped[i].task.id == id && s.popped[i].ran == ran
  }

  lemma PlacesOf(s: State, id: nat)
    requires Ordered(s.tasks, s.popped, s.now) && Accounted(s.tasks, s.popped, s.cancelled, s.nextId)
    ensures |PendingAt(s, id)| + |PoppedAt(s, id, true)| + |PoppedAt(s, id, false)| == if id < s.nextId then 1 else 0
  {
    if id in Pending(s.tasks) {
      var i: nat :| i < |s.tasks| && s.tasks[i].id == id;
      assert PendingAt(s, id) == {i};
      assert id !in WasPopped(s.popped);
      assert PoppedAt(s, id, true) == {} && PoppedAt(s, id, false) == {};
    } else if id in WasPopped(s.popped) {
      var i: nat :| i < |s.popped| && s.popped[i].task.id == id;
      assert PendingAt(s, id) == {};
      assert PoppedAt(s, id, s.popped[i].ran) == {i} && PoppedAt(s, id, !s.popped[i].ran) == {};
    } else {
      assert PendingAt(s, id) == {};
      assert PoppedAt(s, id, true) == {} && PoppedAt(s, id, false) == {};
    }
  }

  /** Each task ever set is in exactly one place: pending, run once, or dropped as cancelled. */
  lemma ExactlyOnePlace(start: int, steps: seq<Step>, id: nat)
    requires Run(Init(start), steps).Some?
    ensures var s := Run(Init(start), steps).value;
      && |PendingAt(s, id)| + |PoppedAt(s, id, true)| + |PoppedAt(s, id, false)| == (if id < s.nextId then 1 else 0)
      && (PoppedAt(s, id, false) != {} ==> id in s.cancelled)
  {
    Reached(start, steps);
    PlacesOf(Run(Init(start), steps).value, id);
  }

  /**
   No lost wake-up: a worker that sleeps untimed with tasks pending, beyond the earliest due
   time, or with the stop flag set is still owed a notification; giving it wakes the worker.
   */
  lemma NoLostWakeUp(start: int, steps: seq<Step>)
    requires Run(Init(start), steps).Some?
    ensures var s := Run(Init(start), steps).value;
      Oversleeps(s) ==> Enabled(s, Notify) && Next(s, Notify).worker == Awake
  {
    Reached(start, steps);
  }

  /**
   In every run a worker that sleeps and is owed no notification sleeps untimed exactly when
   nothing is pending, and otherwise until the earliest due time, which lay ahead when it went
   to sleep.
   */
  lemma SleepsUntilEarliest(start: int, steps: seq<Step>)
    requires Run(Init(start), steps).Some?
    ensures var s := Run(Init(start), steps).value;
      && (s.worker.Asleep? && s.owed == 0 ==>
           && !s.stopping && (s.worker.until.None? <==> s.tasks == [])
           && (s.worker.until.Some? ==>
                && (exists t | t in s.tasks :: t.due == s.worker.until.value)
                && (forall t | t in s.tasks :: s.worker.until.value <= t.due)))
      && (s.worker.Holding? && Next(s, OnePass).worker.Asleep? && Next(s, OnePass).worker.until.Some? ==>
           s.now < Next(s, OnePass).worker.until.value)
  {
    Reached(start, steps);
    var s := Run(Init(start), steps).value;
    if s.worker.Holding? {
      OnePassSleepsRight(s);
    }
  }

  predicate NeverRan(popped: seq<Popped>, id: nat) {
    forall p | p in popped && p.task.id == id :: !p.ran
  }

  lemma StepNeverRuns(s: State, step: Step, id: nat)
    requires Inv(s) && Enabled(s, step) && id in s.cancelled && NeverRan(s.popped, id)
    ensures id in Next(s, step).cancelled && NeverRan(Next(s, step).popped, id)
  {
    hide Accounted;
    if step.OnePass? {
      var (_, action) := Pass(s.tasks, s.cancelled, s.stopping, s.now);
      if action.Drop? || action.Call? {
        PassPops(s);
      }
    }
  }

  /** A task that is cancelled while it is pending is never run. */
  lemma {:induction false} CancelledNeverRuns(s: State, steps: seq<Step>, id: nat)
    requires Inv(s) && Run(s, steps).Some?
    requires id in s.cancelled && NeverRan(s.popped, id)
    ensures NeverRan(Run(s, steps).value.popped, id)
    decreases |steps|
  {
    hide Inv, Enabled, Next, NeverRan;
    if steps == [] {
    } else {
      NextKeepsInv(s, steps[0]);
      StepNeverRuns(s, steps[0], id);
      CancelledNeverRuns(Next(s, steps[0]), steps[1..], id);
    }
  }

  lemma {:induction false} RunConcat(s: State, steps: seq<Step>, more: seq<Step>)
    requires Run(s, steps).Some?
    ensures Run(s, steps + more) == Run(Run(s, steps).value, more)
    decreases |steps|
  {
    if steps == [] {
      assert steps + more == more;
    } else {
      assert (steps + more)[1..] == steps[1..] + more;
      RunConcat(Next(s, steps[0]), steps[1..], more);
    }
  }

  /** The clock moves on to `at`, and the worker makes one pass. */
  lemma PassAt(s: State, at: int)
    requires s.worker.Holding? && s.now <= at
    ensures Run(s, [Tick(at - s.now), OnePass]) == Some(Next(s.(now := at), OnePass))
  {
    var steps := [Tick(at - s.now), OnePass];
    assert steps[1..] == [OnePass] && steps[1..][1..] == [];
    assert Next(s, steps[0]) == s.(now := at);
    assert Run(s.(now := at), [OnePass]) == Run(Next(s.(now := at), OnePass), []);
  }

  /**
   The passes the worker makes under one hold of the mutex, with a clock that moves on between
   them, are steps of a run; what it drops on the way is popped without being run.
   */
  lemma {:induction false} PassesAreSteps(s: State, dropped: seq<Task>, clock: nat -> int, i: nat) returns (steps: seq<Step>)
    requires s.worker.Holding? && s.now <= clock(i) && forall j: nat, k: nat :: j <= k ==> clock(j) <= clock(k)
    ensures Run(s, steps).Some?
    ensures var (left, _, action) := Passes(s.tasks, dropped, s.cancelled, s.stopping, clock, i);
      var t := Run(s, steps).value;
      && t.tasks == left
      && s.popped <= t.popped
      && (forall k :: |s.popped| <= k < |t.popped| - 1 ==> !t.popped[k].ran)
      && t.worker == (match action
                      case Exit => Exited
                      case Sleep(until) => Asleep(until)
                      case Call(task) => Calling(task)
                      case Drop(_) => Holding)
    decreases |s.tasks|
  {
    var (left, action) := Pass(s.tasks, s.cancelled, s.stopping, clock(i));
    var t := Next(s.(now := clock(i)), OnePass);
    PassAt(s, clock(i));
    steps := [Tick(clock(i) - s.now), OnePass];
    if action.Drop? {
      assert clock(i) <= clock(i + 1);
      var more := PassesAreSteps(t, dropped + [action.task], clock, i + 1);
      RunConcat(s, steps, more);
      steps := steps + more;
    }
  }
}
