/** Over every run of the timer thread: each callback waits for exactly the delay that it was set with. */
module SchedulerDues {
  import opened Sequences
  import opened Wrappers
  import opened Scheduler
  import opened SchedulerRuns

  /** The time that has gone by. */
  function Elapsed(steps: seq<Step>): nat {
    if steps == [] then 0
    else
      var last := steps[|steps| - 1];
      Elapsed(steps[..|steps| - 1]) + if last.Tick? then last.elapsed else 0
  }

  /** When each timer falls due, in the order in which they are set: the time of setting and the delay. */
  function Dues(start: int, steps: seq<Step>): seq<int> {
    if steps == [] then []
    else
      var before, last := steps[..|steps| - 1], steps[|steps| - 1];
      Dues(start, before) + if last.SetTimeout? then [start + Elapsed(before) + last.delay] else []
  }

  predicate DueAsSet(task: Task, dues: seq<int>) {
    task.id < |dues| && task.due == dues[task.id]
  }

  predicate AllAsSet(s: State, start: int, steps: seq<Step>) {
    var dues := Dues(start, steps);
    && s.now == start + Elapsed(steps) && s.nextId == |dues|
    && (forall t | t in s.tasks :: DueAsSet(t, dues))
    && (forall p | p in s.popped :: DueAsSet(p.task, dues))
    && (s.worker.Calling? ==> DueAsSet(s.worker.task, dues))
  }

  lemma OneMore(start: int, past: seq<Step>, st: Step)
    ensures Elapsed(past + [st]) == Elapsed(past) + (if st.Tick? then st.elapsed else 0)
    ensures Dues(start, past + [st])
         == Dues(start, past) + if st.SetTimeout? then [start + Elapsed(past) + st.delay] else []
  {
    assert (past + [st])[..|past|] == past;
  }

  lemma StepKeepsDues(s: State, start: int, past: seq<Step>, st: Step)
    requires AllAsSet(s, start, past) && Enabled(s, st)
    ensures AllAsSet(Next(s, st), start, past + [st])
  {
    hide Elapsed, Dues, FirstMin;
    OneMore(start, past, st);
    var s', dues := Next(s, st), Dues(start, past);
    if !st.SetTimeout? {
      assert dues + [] == dues;
    }
    if st.OnePass? {
      var (left, action) := Pass(s.tasks, s.cancelled, s.stopping, s.now);
      assert forall t | t in left :: t in s.tasks;
    }
  }

  lemma {:induction false} RunKeepsDues(s: State, start: int, past: seq<Step>, steps: seq<Step>)
    requires AllAsSet(s, start, past) && Run(s, steps).Some?
    ensures AllAsSet(Run(s, steps).value, start, past + steps)
    decreases |steps|
  {
    hide AllAsSet, Enabled, Next;
    if steps == [] {
      assert past + steps == past;
    } else {
      StepKeepsDues(s, start, past, steps[0]);
      RunKeepsDues(Next(s, steps[0]), start, past + [steps[0]], steps[1..]);
      assert past + steps == (past + [steps[0]]) + steps[1..];
    }
  }

  /**
   In every run a callback is taken out of the list no earlier than its delay after it was set,
   and whatever is still in the list falls due then.
   */
  lemma NeverBeforeItsDelay(start: int, steps: seq<Step>)
    requires Run(Init(start), steps).Some?
    ensures var s, dues := Run(Init(start), steps).value, Dues(start, steps);
      && s.nextId == |dues|
      && (forall t | t in s.tasks :: t.id < |dues| && t.due == dues[t.id])
      && (forall p | p in s.popped :: p.task.id < |dues| && p.task.due == dues[p.task.id] && dues[p.task.id] <= p.at)
  {
    hide Dues, Elapsed;
    NothingSet(start);
    RunKeepsDues(Init(start), start, [], steps);
    assert [] + steps == steps;
    Reached(start, steps);
    var s, dues := Run(Init(start), steps).value, Dues(start, steps);
    forall p | p in s.popped ensures DueAsSet(p.task, dues) && dues[p.task.id] <= p.at {
      PoppedLate(s, p);
    }
    assert forall t | t in s.tasks :: DueAsSet(t, dues);
  }

  lemma NothingSet(start: int)
    ensures AllAsSet(Init(start), start, [])
  {
  }

  lemma PoppedLate(s: State, p: Popped)
    requires Inv(s) && p in s.popped
    ensures p.task.due <= p.at
  {
  }

  /** A pass ends the worker exactly if the destructor has asked for it, and then nothing more is taken from the list. */
  lemma StopsIff(start: int, steps: seq<Step>)
    requires Run(Init(start), steps).Some? && Enabled(Run(Init(start), steps).value, OnePass)
    ensures var s := Run(Init(start), steps).value;
      && (Next(s, OnePass).worker.Exited? <==> s.stopping)
      && (s.stopping <==> Stop in steps)
      && (s.stopping ==> Next(s, OnePass).tasks == s.tasks && Next(s, OnePass).popped == s.popped)
  {
    hide FirstMin;
    StoppingIff(Init(start), steps);
  }

  lemma {:induction false} StoppingIff(s: State, steps: seq<Step>)
    requires Run(s, steps).Some?
    ensures Run(s, steps).value.stopping <==> s.stopping || Stop in steps
    decreases |steps|
  {
    hide Pass;
    if steps == [] {
    } else {
      assert steps == [steps[0]] + steps[1..];
      StoppingIff(Next(s, steps[0]), steps[1..]);
    }
  }
}
