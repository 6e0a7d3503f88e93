/**
 A list of callbacks, each with an id that is never used twice. A closure is known by the id
 of its entry. call() goes through the entries present at its start.
 */
module Callbacks {
  import opened Sequences

  datatype Entry = Entry(id: nat, once: bool, calledOnce: bool)

  function Ids(entries: seq<Entry>): seq<nat> {
    if entries == [] then [] else [entries[0].id] + Ids(entries[1..])
  }

  predicate Spent(e: Entry) {
    e.once && e.calledOnce
  }

  /** The closures that one call runs, in order. */
  function Calls(entries: seq<Entry>): seq<nat> {
    if entries == [] then []
    else if Spent(entries[0]) then Calls(entries[1..])
    else [entries[0].id] + Calls(entries[1..])
  }

  function Called(entries: seq<Entry>): seq<Entry> {
    if entries == [] then [] else [entries[0].(calledOnce := true)] + Called(entries[1..])
  }

  function WithoutSpent(entries: seq<Entry>): seq<Entry> {
    if entries == [] then []
    else if Spent(entries[0]) then WithoutSpent(entries[1..])
    else [entries[0]] + WithoutSpent(entries[1..])
  }

  function IdOf(e: Entry): nat {
    e.id
  }

  function WithoutId(entries: seq<Entry>, id: nat): seq<Entry> {
    WithoutKey(entries, IdOf, id)
  }

  class Callback {
    var entries: seq<Entry>
    var nextId: nat

    constructor ()
      ensures entries == [] && nextId == 0
    {
      entries, nextId := [], 0;
    }

    method Add(once: bool) returns (id: nat)
      modifies this
      ensures id == old(nextId) && nextId == id + 1
      ensures entries == old(entries) + [Entry(id, once, false)]
    {
      id := nextId;
      nextId := nextId + 1;
      entries := entries + [Entry(id, once, false)];
    }

    method Remove(id: nat)
      modifies this`entries
      ensures entries == WithoutId(old(entries), id)
    {
      var kept := [];
      for i := 0 to |entries|
        invariant entries == old(entries)
        invariant kept + WithoutId(entries[i..], id) == WithoutId(entries, id)
      {
        assert entries[i..][1..] == entries[i + 1..];
        if entries[i].id != id {
          kept := kept + [entries[i]];
        }
      }
      assert kept + [] == kept;
      entries := kept;
    }

    method Call() returns (fired: seq<nat>)
      modifies this`entries
      ensures fired == Calls(old(entries))
      ensures entries == WithoutSpent(Called(old(entries)))
    {
      fired := [];
      var done := [];
      for i := 0 to |entries|
        invariant entries == old(entries)
        invariant fired + Calls(entries[i..]) == Calls(entries)
        invariant done + Called(entries[i..]) == Called(entries)
      {
        assert entries[i..][1..] == entries[i + 1..];
        if !(entries[i].calledOnce && entries[i].once) {
          fired := fired + [entries[i].id];
        }
        done := done + [entries[i].(calledOnce := true)];
      }
      assert fired + [] == fired && done + [] == done;
      entries := done;
      if exists e :: e in entries && e.once && e.calledOnce {
        RemoveCalledOnce();
      } else {
        NoneSpent(entries);
      }
    }

    method RemoveCalledOnce()
      modifies this`entries
      ensures entries == WithoutSpent(old(entries))
    {
      var kept := [];
      for i := 0 to |entries|
        invariant entries == old(entries)
        invariant kept + WithoutSpent(entries[i..]) == WithoutSpent(entries)
      {
        assert entries[i..][1..] == entries[i + 1..];
        if !(entries[i].once && entries[i].calledOnce) {
          kept := kept + [entries[i]];
        }
      }
      assert kept + [] == kept;
      entries := kept;
    }
  }

  lemma {:induction false} NoneSpent(entries: seq<Entry>)
    requires forall e | e in entries :: !Spent(e)
    ensures WithoutSpent(entries) == entries
  {
    if entries == [] {
    } else {
      assert !Spent(entries[0]);
      NoneSpent(entries[1..]);
    }
  }

  // ---------- whole histories ----------

  datatype Op = Add(once: bool) | Remove(id: nat) | Call

  datatype History = History(entries: seq<Entry>, nextId: nat, fired: seq<nat>)

  function Do(h: History, op: Op): History {
    match op
    case Add(once) => History(h.entries + [Entry(h.nextId, once, false)], h.nextId + 1, h.fired)
    case Remove(id) => h.(entries := WithoutId(h.entries, id))
    case Call => History(WithoutSpent(Called(h.entries)), h.nextId, h.fired + Calls(h.entries))
  }

  function DoAll(h: History, ops: seq<Op>): History
    decreases |ops|
  {
    if ops == [] then h else DoAll(Do(h, ops[0]), ops[1..])
  }

  function Count(ids: seq<nat>, id: nat): nat {
    if ids == [] then 0
    else if ids[0] == id then 1 + Count(ids[1..], id)
    else Count(ids[1..], id)
  }

  lemma {:induction false} CountAppend(a: seq<nat>, b: seq<nat>, id: nat)
    ensures Count(a + b, id) == Count(a, id) + Count(b, id)
  {
    if a == [] {
      assert a + b == b;
    } else {
      assert (a + b)[1..] == a[1..] + b;
      CountAppend(a[1..], b, id);
    }
  }

  const START: History := History([], 0, [])

  predicate Absent(entries: seq<Entry>, id: nat) {
    entries == [] || (entries[0].id != id && Absent(entries[1..], id))
  }

  /** Exactly one entry has the id, and a once-only one has not been called yet. */
  predicate Sole(entries: seq<Entry>, id: nat, once: bool) {
    entries != [] &&
    if entries[0].id == id then
      entries[0].once == once && (once ==> !entries[0].calledOnce) && Absent(entries[1..], id)
    else
      Sole(entries[1..], id, once)
  }

  predicate Below(entries: seq<Entry>, n: nat) {
    entries == [] || (entries[0].id < n && Below(entries[1..], n))
  }

  lemma {:induction false} AbsentStays(entries: seq<Entry>, id: nat, other: nat)
    requires Absent(entries, id)
    ensures Count(Calls(entries), id) == 0 && Absent(WithoutSpent(Called(entries)), id)
    ensures Absent(WithoutId(entries, other), id)
  {
    if entries == [] {
    } else {
      AbsentStays(entries[1..], id, other);
    }
  }

  lemma {:induction false} SoleAfterCall(entries: seq<Entry>, id: nat, once: bool)
    requires Sole(entries, id, once)
    ensures Count(Calls(entries), id) == 1
    ensures var after := WithoutSpent(Called(entries));
      if once then Absent(after, id) else Sole(after, id, once)
  {
    if entries[0].id == id {
      AbsentStays(entries[1..], id, id);
    } else {
      SoleAfterCall(entries[1..], id, once);
    }
  }

  lemma {:induction false} SoleAfterRemove(entries: seq<Entry>, id: nat, once: bool, other: nat)
    requires Sole(entries, id, once)
    ensures if other == id then Absent(WithoutId(entries, other), id) else Sole(WithoutId(entries, other), id, once)
  {
    if entries[0].id == id {
      AbsentStays(entries[1..], id, other);
    } else {
      SoleAfterRemove(entries[1..], id, once, other);
    }
  }

  lemma {:induction false} AbsentAdd(entries: seq<Entry>, id: nat, e: Entry)
    requires Absent(entries, id)
    ensures if e.id == id then !e.calledOnce ==> Sole(entries + [e], id, e.once) else Absent(entries + [e], id)
  {
    if entries == [] {
      assert [e][1..] == [];
    } else {
      assert (entries + [e])[1..] == entries[1..] + [e];
      AbsentAdd(entries[1..], id, e);
    }
  }

  lemma {:induction false} SoleAdd(entries: seq<Entry>, id: nat, once: bool, e: Entry)
    requires Sole(entries, id, once) && e.id != id
    ensures Sole(entries + [e], id, once)
  {
    assert (entries + [e])[1..] == entries[1..] + [e];
    if entries[0].id == id {
      AbsentAdd(entries[1..], id, e);
    } else {
      SoleAdd(entries[1..], id, once, e);
    }
  }

  lemma {:induction false} BelowStays(entries: seq<Entry>, n: nat, other: nat)
    requires Below(entries, n)
    ensures Below(WithoutSpent(Called(entries)), n) && Below(WithoutId(entries, other), n)
    ensures Absent(entries, n)
  {
    if entries == [] {
    } else {
      BelowStays(entries[1..], n, other);
    }
  }

  lemma {:induction false} BelowAppend(entries: seq<Entry>, e: Entry, n: nat)
    requires Below(entries, n) && e.id == n
    ensures Below(entries + [e], n + 1)
  {
    if entries == [] {
      assert [e][1..] == [];
    } else {
      assert (entries + [e])[1..] == entries[1..] + [e];
      BelowAppend(entries[1..], e, n);
    }
  }

  /** How often a callback runs: until it is removed, and once only if it was added so. */
  function Runs(ops: seq<Op>, id: nat, once: bool): nat
    decreases |ops|
  {
    if ops == [] || ops[0] == Remove(id) then 0
    else if ops[0].Call? then 1 + if once then 0 else Runs(ops[1..], id, once)
    else Runs(ops[1..], id, once)
  }

  lemma {:induction false} GoneNeverRuns(h: History, ops: seq<Op>, id: nat)
    requires Absent(h.entries, id) && id < h.nextId
    ensures Count(DoAll(h, ops).fired, id) == Count(h.fired, id)
    decreases |ops|
  {
    if ops == [] {
    } else {
      var op := ops[0];
      AbsentStays(h.entries, id, if op.Remove? then op.id else 0);
      CountAppend(h.fired, Calls(h.entries), id);
      if op.Add? {
        AbsentAdd(h.entries, id, Entry(h.nextId, op.once, false));
      }
      GoneNeverRuns(Do(h, op), ops[1..], id);
    }
  }

  lemma {:induction false} PresentRuns(h: History, ops: seq<Op>, id: nat, once: bool)
    requires Sole(h.entries, id, once) && id < h.nextId
    ensures Count(DoAll(h, ops).fired, id) == Count(h.fired, id) + Runs(ops, id, once)
    decreases |ops|
  {
    if ops == [] {
    } else {
      var op := ops[0];
      match op
      case Add(o) =>
        SoleAdd(h.entries, id, once, Entry(h.nextId, o, false));
        PresentRuns(Do(h, op), ops[1..], id, once);
      case Remove(other) =>
        SoleAfterRemove(h.entries, id, once, other);
        if other == id {
          GoneNeverRuns(Do(h, op), ops[1..], id);
        } else {
          PresentRuns(Do(h, op), ops[1..], id, once);
        }
      case Call =>
        SoleAfterCall(h.entries, id, once);
        CountAppend(h.fired, Calls(h.entries), id);
        if once {
          GoneNeverRuns(Do(h, op), ops[1..], id);
        } else {
          PresentRuns(Do(h, op), ops[1..], id, once);
        }
    }
  }

  /** Nothing that is not yet added has run. */
  lemma {:induction false} NotYet(h: History, ops: seq<Op>)
    requires Below(h.entries, h.nextId) && Bounded(h.fired, h.nextId)
    ensures var h' := DoAll(h, ops); Below(h'.entries, h'.nextId) && Bounded(h'.fired, h'.nextId)
    decreases |ops|
  {
    if ops == [] {
    } else {
      var op := ops[0];
      BelowStays(h.entries, h.nextId, if op.Remove? then op.id else 0);
      BelowAppend(h.entries, Entry(h.nextId, op.Add? && op.once, false), h.nextId);
      CallsBounded(h.entries, h.nextId);
      BoundedAppend(h.fired, if op.Call? then Calls(h.entries) else [], h.nextId, Do(h, op).nextId);
      assert h.fired + [] == h.fired;
      NotYet(Do(h, op), ops[1..]);
    }
  }

  predicate Bounded(ids: seq<nat>, n: nat) {
    ids == [] || (ids[0] < n && Bounded(ids[1..], n))
  }

  lemma {:induction false} BoundedAppend(a: seq<nat>, b: seq<nat>, n: nat, more: nat)
    requires Bounded(a, n) && Bounded(b, more) && n <= more
    ensures Bounded(a + b, more)
  {
    if a == [] {
      assert a + b == b;
    } else {
      assert (a + b)[1..] == a[1..] + b;
      BoundedAppend(a[1..], b, n, more);
    }
  }

  lemma {:induction false} CallsBounded(entries: seq<Entry>, n: nat)
    requires Below(entries, n)
    ensures Bounded(Calls(entries), n)
  {
    if entries == [] {
    } else {
      CallsBounded(entries[1..], n);
    }
  }

  lemma {:induction false} BoundedCount(ids: seq<nat>, n: nat)
    requires Bounded(ids, n)
    ensures Count(ids, n) == 0
  {
    if ids == [] {
    } else {
      BoundedCount(ids[1..], n);
    }
  }

  /** In every history a callback runs at each call between its addition and its removal, a once-only one at the first. */
  lemma RunsWhilePresent(before: seq<Op>, once: bool, later: seq<Op>)
    ensures var h := DoAll(START, before);
      Count(DoAll(Do(h, Add(once)), later).fired, h.nextId) == Runs(later, h.nextId, once)
  {
    var h := DoAll(START, before);
    NotYet(START, before);
    BoundedCount(h.fired, h.nextId);
    BelowStays(h.entries, h.nextId, 0);
    AbsentAdd(h.entries, h.nextId, Entry(h.nextId, once, false));
    PresentRuns(Do(h, Add(once)), later, h.nextId, once);
  }

  // ---------- the order of a call ----------

  predicate Above(entries: seq<Entry>, n: nat) {
    entries == [] || (n < entries[0].id && Above(entries[1..], n))
  }

  predicate Ascending(entries: seq<Entry>) {
    entries == [] || (Above(entries[1..], entries[0].id) && Ascending(entries[1..]))
  }

  lemma {:induction false} AboveStays(entries: seq<Entry>, n: nat, other: nat)
    requires Above(entries, n)
    ensures Above(WithoutSpent(Called(entries)), n) && Above(WithoutId(entries, other), n)
    ensures forall id | id in Calls(entries) :: n < id
  {
    if entries == [] {
    } else {
      AboveStays(entries[1..], n, other);
    }
  }

  lemma {:induction false} AscendingStays(entries: seq<Entry>, other: nat)
    requires Ascending(entries)
    ensures Ascending(WithoutSpent(Called(entries))) && Ascending(WithoutId(entries, other))
  {
    if entries == [] {
    } else {
      AboveStays(entries[1..], entries[0].id, other);
      AscendingStays(entries[1..], other);
    }
  }

  lemma {:induction false} AboveAppend(entries: seq<Entry>, e: Entry, n: nat)
    requires Above(entries, n) && n < e.id
    ensures Above(entries + [e], n)
  {
    if entries == [] {
      assert [e][1..] == [];
    } else {
      assert (entries + [e])[1..] == entries[1..] + [e];
      AboveAppend(entries[1..], e, n);
    }
  }

  lemma {:induction false} AscendingAppend(entries: seq<Entry>, e: Entry)
    requires Ascending(entries) && Below(entries, e.id)
    ensures Ascending(entries + [e])
  {
    if entries == [] {
      assert [e][1..] == [];
    } else {
      assert (entries + [e])[1..] == entries[1..] + [e];
      AboveAppend(entries[1..], e, entries[0].id);
      AscendingAppend(entries[1..], e);
    }
  }

  lemma {:induction false} CallsAscend(entries: seq<Entry>)
    requires Ascending(entries)
    ensures forall i, j :: 0 <= i < j < |Calls(entries)| ==> Calls(entries)[i] < Calls(entries)[j]
  {
    if entries == [] {
    } else {
      AboveStays(entries[1..], entries[0].id, 0);
      CallsAscend(entries[1..]);
      var rest := Calls(entries[1..]);
      assert forall j :: 0 <= j < |rest| ==> rest[j] in rest;
    }
  }

  lemma {:induction false} AlwaysAscending(h: History, ops: seq<Op>)
    requires Ascending(h.entries) && Below(h.entries, h.nextId)
    ensures Ascending(DoAll(h, ops).entries)
    decreases |ops|
  {
    if ops == [] {
    } else {
      var op := ops[0];
      var other := if op.Remove? then op.id else 0;
      BelowStays(h.entries, h.nextId, other);
      AscendingStays(h.entries, other);
      if op.Add? {
        BelowAppend(h.entries, Entry(h.nextId, op.once, false), h.nextId);
        AscendingAppend(h.entries, Entry(h.nextId, op.once, false));
      }
      AlwaysAscending(Do(h, op), ops[1..]);
    }
  }

  /** In every history each call runs its callbacks in the order in which they were added. */
  lemma CallsInOrder(ops: seq<Op>)
    ensures var before := DoAll(START, ops);
      var after := Do(before, Call);
      && before.fired <= after.fired
      && forall i, j :: |before.fired| <= i < j < |after.fired| ==> after.fired[i] < after.fired[j]
  {
    var before := DoAll(START, ops);
    AlwaysAscending(START, ops);
    CallsAscend(before.entries);
  }
}
