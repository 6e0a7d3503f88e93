/**
 The timer thread: one worker over a list of tasks, a mutex and a condition variable. Tasks
 are numbered in the order in which they are set; a callback is known by its task.
 */
module Scheduler {
  import opened Sequences
  import opened Wrappers

  datatype Task = Task(id: nat, due: int)

  /** What one pass through the worker's loop decides while it holds the mutex. */
  datatype Action =
    | Exit
    | Sleep(until: Option<int>)
    | Drop(task: Task)
    | Call(task: Task)

  /** Index of the first task with the earliest due time, as std::min_element finds it. */
  function FirstMin(tasks: seq<Task>): (k: nat)
    requires tasks != []
    ensures k < |tasks|
  {
    if |tasks| == 1 then 0
    else
      var k := FirstMin(tasks[..|tasks| - 1]);
      if tasks[|tasks| - 1].due < tasks[k].due then |tasks| - 1 else k
  }

  lemma {:induction false} FirstMinIsFirst(tasks: seq<Task>)
    requires tasks != []
    ensures forall i :: 0 <= i < |tasks| ==> tasks[FirstMin(tasks)].due <= tasks[i].due
    ensures forall i :: 0 <= i < FirstMin(tasks) ==> tasks[FirstMin(tasks)].due < tasks[i].due
  {
    if |tasks| > 1 {
      FirstMinIsFirst(tasks[..|tasks| - 1]);
    }
  }

  /** One pass through the loop: what is left in the list, and what to do. */
  function Pass(tasks: seq<Task>, cancelled: set<nat>, stopping: bool, now: int): (seq<Task>, Action) {
    if stopping then (tasks, Exit)
    else if tasks == [] then (tasks, Sleep(None))
    else
      var k := FirstMin(tasks);
      var next := tasks[k];
      if next.due > now then (tasks, Sleep(Some(next.due)))
      else (RemoveAt(tasks, k), if next.id in cancelled then Drop(next) else Call(next))
  }

  /** Passes until the mutex has to be released; cancelled tasks are dropped on the way. */
  function Passes(tasks: seq<Task>, dropped: seq<Task>, cancelled: set<nat>, stopping: bool, clock: nat -> int, i: nat)
    : (seq<Task>, seq<Task>, Action)
    decreases |tasks|
  {
    var (left, action) := Pass(tasks, cancelled, stopping, clock(i));
    if action.Drop? then Passes(left, dropped + [action.task], cancelled, stopping, clock, i + 1)
    else (left, dropped, action)
  }

  class Impl {
    var tasks: seq<Task>
    var cancelled: set<nat>
    var stopping: bool
    var nextId: nat

    constructor ()
      ensures tasks == [] && cancelled == {} && !stopping && nextId == 0
    {
      tasks, cancelled, stopping, nextId := [], {}, false, 0;
    }

    /** The part of the worker's loop that runs without releasing the mutex. */
    method RunLocked(clock: nat -> int) returns (dropped: seq<Task>, action: Action)
      modifies this`tasks
      ensures (tasks, dropped, action) == Passes(old(tasks), [], cancelled, stopping, clock, 0)
    {
      dropped := [];
      var i := 0;
      while !stopping
        invariant Passes(old(tasks), [], cancelled, stopping, clock, 0) == Passes(tasks, dropped, cancelled, stopping, clock, i)
        decreases |tasks|
      {
        if tasks == [] {
          return dropped, Sleep(None);
        }
        var k := FirstMin(tasks);
        var now := clock(i);
        i := i + 1;
        if tasks[k].due > now {
          return dropped, Sleep(Some(tasks[k].due));
        }
        var task := tasks[k];
        tasks := tasks[..k] + tasks[k + 1..];
        if task.id in cancelled {
          dropped := dropped + [task];
          continue;
        }
        return dropped, Call(task);
      }
      return dropped, Exit;
    }

    method SetTimeout(delay: int, now: int) returns (id: nat)
      modifies this`tasks, this`nextId
      ensures id == old(nextId) && nextId == id + 1
      ensures tasks == old(tasks) + [Task(id, now + delay)]
    {
      id := nextId;
      nextId := nextId + 1;
      tasks := tasks + [Task(id, now + delay)];
    }

    method Clear(id: nat)
      modifies this`cancelled
      ensures cancelled == old(cancelled) + {id}
    {
      cancelled := cancelled + {id};
    }

    method Stop()
      modifies this`stopping
      ensures stopping
    {
      stopping := true;
    }
  }
}
