/**
 The protocol of one room, as an observer of the event log sees it. The monitor knows
 nothing of tables, threads or timers: it accepts exactly the logs in which clients leave
 only after they joined, waits are answered once and truthfully, and disposal happens once,
 with nobody left, and is final.
 */
module RoomMonitor {
  import opened Wrappers
  import opened RoomModel

  datatype Phase = Open | Closing | Closed

  datatype WaitView = WaitView(clientId: string, answer: Option<bool>, joinedSince: bool)

  datatype Monitor = Monitor(clients: seq<Client>, waits: seq<WaitView>, phase: Phase, nextSerial: nat)

  const START: Monitor := Monitor([], [], Open, 0)

  function SawJoin(waits: seq<WaitView>, id: string): seq<WaitView> {
    if waits == [] then []
    else [waits[0].(joinedSince := waits[0].joinedSince || waits[0].clientId == id)] + SawJoin(waits[1..], id)
  }

  /** None: the event is not allowed here. */
  function Observe(m: Monitor, e: Event): Option<Monitor> {
    match e
    case Joined(_, c) =>
      if m.phase.Open? && c.serial >= m.nextSerial then
        Some(m.(clients := m.clients + [c], waits := SawJoin(m.waits, c.id), nextSerial := c.serial + 1))
      else None
    case Left(_, c, _) =>
      if c in m.clients then Some(m.(clients := Remove(m.clients, c))) else None
    case WaitStarted(_, w, id) =>
      if m.phase.Open? && w == |m.waits| then Some(m.(waits := m.waits + [WaitView(id, None, false)])) else None
    case Answered(_, w, b) =>
      if w < |m.waits| && m.waits[w].answer.None?
         && b == Present(m.clients, m.waits[w].clientId)
         && (!b ==> !m.waits[w].joinedSince)
      then Some(m.(waits := m.waits[w := m.waits[w].(answer := Some(b))]))
      else None
    case BeforeDispose(_) => if m.phase.Open? && m.clients == [] then Some(m.(phase := Closing)) else None
    case OnDispose(_) => if m.phase.Closing? then Some(m.(phase := Closed)) else None
  }

  function Remove(clients: seq<Client>, c: Client): seq<Client> {
    if clients == [] then []
    else if clients[0] == c then clients[1..]
    else [clients[0]] + Remove(clients[1..], c)
  }

  /** The monitor of room `r` over a log; events of other rooms are not its concern. */
  function Accept(log: seq<Event>, r: nat): Option<Monitor> {
    if log == [] then Some(START)
    else
      var last := log[|log| - 1];
      match Accept(log[..|log| - 1], r)
      case None => None
      case Some(m) => if last.room == r then Observe(m, last) else Some(m)
  }

  lemma AcceptOne(log: seq<Event>, e: Event, r: nat)
    ensures Accept(log + [e], r)
         == if Accept(log, r).None? then None
            else if e.room == r then Observe(Accept(log, r).value, e) else Accept(log, r)
  {
    assert (log + [e])[..|log|] == log;
  }

  // ---------- what acceptance means ----------

  function JoinCount(log: seq<Event>, r: nat, session: string): nat {
    if log == [] then 0
    else
      var e := log[|log| - 1];
      JoinCount(log[..|log| - 1], r, session) + if e.Joined? && e.room == r && e.client.sessionId == session then 1 else 0
  }

  function LeaveCount(log: seq<Event>, r: nat, session: string): nat {
    if log == [] then 0
    else
      var e := log[|log| - 1];
      LeaveCount(log[..|log| - 1], r, session) + if e.Left? && e.room == r && e.client.sessionId == session then 1 else 0
  }

  function Multiplicity(clients: seq<Client>, session: string): nat {
    if clients == [] then 0
    else (if clients[0].sessionId == session then 1 else 0) + Multiplicity(clients[1..], session)
  }

  lemma {:induction false} MultiplicityAppend(clients: seq<Client>, c: Client, session: string)
    ensures Multiplicity(clients + [c], session) == Multiplicity(clients, session) + if c.sessionId == session then 1 else 0
  {
    if clients == [] {
      assert [c][1..] == [];
    } else {
      assert (clients + [c])[1..] == clients[1..] + [c];
      MultiplicityAppend(clients[1..], c, session);
    }
  }

  lemma {:induction false} MultiplicityRemove(clients: seq<Client>, c: Client, session: string)
    requires c in clients
    ensures Multiplicity(clients, session) == Multiplicity(Remove(clients, c), session) + if c.sessionId == session then 1 else 0
  {
    if clients[0] == c {
    } else {
      MultiplicityRemove(clients[1..], c, session);
      assert Remove(clients, c)[1..] == Remove(clients[1..], c);
    }
  }

  /** Conservation: what came in minus what went out is what is there, session by session. */
  lemma {:induction false} Conservation(log: seq<Event>, r: nat, session: string)
    requires Accept(log, r).Some?
    ensures JoinCount(log, r, session) == LeaveCount(log, r, session) + Multiplicity(Accept(log, r).value.clients, session)
  {
    if log == [] {
    } else {
      var before, e := log[..|log| - 1], log[|log| - 1];
      Conservation(before, r, session);
      var m := Accept(before, r).value;
      if e.room == r {
        if e.Joined? {
          MultiplicityAppend(m.clients, e.client, session);
        } else if e.Left? {
          MultiplicityRemove(m.clients, e.client, session);
        }
      }
    }
  }

  predicate Increasing(clients: seq<Client>, below: nat) {
    clients == [] ||
    (clients[|clients| - 1].serial < below && Increasing(clients[..|clients| - 1], clients[|clients| - 1].serial))
  }

  lemma {:induction false} IncreasingWeaken(clients: seq<Client>, a: nat, b: nat)
    requires Increasing(clients, a) && a <= b
    ensures Increasing(clients, b)
  {
  }

  lemma {:induction false} IncreasingSorted(clients: seq<Client>, below: nat)
    requires Increasing(clients, below)
    ensures forall i, j :: 0 <= i < j < |clients| ==> clients[i].serial < clients[j].serial
    ensures forall i :: 0 <= i < |clients| ==> clients[i].serial < below
  {
    if clients == [] {
    } else {
      IncreasingSorted(clients[..|clients| - 1], clients[|clients| - 1].serial);
    }
  }

  /** Sorted as a whole, element by element: used to rebuild Increasing after a removal. */
  lemma {:induction false} SortedIncreasing(clients: seq<Client>, below: nat)
    requires forall i, j :: 0 <= i < j < |clients| ==> clients[i].serial < clients[j].serial
    requires forall i :: 0 <= i < |clients| ==> clients[i].serial < below
    ensures Increasing(clients, below)
  {
    if clients == [] {
    } else {
      SortedIncreasing(clients[..|clients| - 1], clients[|clients| - 1].serial);
    }
  }

  lemma {:induction false} RemoveShape(clients: seq<Client>, c: Client) returns (k: nat)
    requires c in clients
    ensures k < |clients| && clients[k] == c && Remove(clients, c) == clients[..k] + clients[k + 1..]
  {
    if clients[0] == c {
      k := 0;
    } else {
      var k' := RemoveShape(clients[1..], c);
      k := k' + 1;
      assert clients[..k] + clients[k + 1..] == [clients[0]] + (clients[1..][..k'] + clients[1..][k' + 1..]);
    }
  }

  lemma RemoveIncreasing(clients: seq<Client>, c: Client, below: nat)
    requires c in clients && Increasing(clients, below)
    ensures Increasing(Remove(clients, c), below)
    ensures forall x | x in Remove(clients, c) :: x in clients
  {
    var k := RemoveShape(clients, c);
    IncreasingSorted(clients, below);
    SortedIncreasing(Remove(clients, c), below);
  }

  lemma ObserveKeepsOrder(m: Monitor, e: Event)
    requires Observe(m, e).Some? && Increasing(m.clients, m.nextSerial)
    ensures var m' := Observe(m, e).value;
      && Increasing(m'.clients, m'.nextSerial)
      && forall c | c in m'.clients :: c in m.clients || (e.Joined? && e.client == c)
  {
    match e
    case Joined(_, c) =>
      IncreasingWeaken(m.clients, m.nextSerial, c.serial);
      assert (m.clients + [c])[..|m.clients|] == m.clients;
    case Left(_, c, _) => RemoveIncreasing(m.clients, c, m.nextSerial);
    case _ =>
  }

  /** The order of the list is the order of joining; every entry stems from one join. */
  lemma {:induction false} OrderOfJoining(log: seq<Event>, r: nat)
    requires Accept(log, r).Some?
    ensures Increasing(Accept(log, r).value.clients, Accept(log, r).value.nextSerial)
    ensures forall c | c in Accept(log, r).value.clients :: Joined(r, c) in log
  {
    if log == [] {
    } else {
      var before, e := log[..|log| - 1], log[|log| - 1];
      OrderOfJoining(before, r);
      if e.room == r {
        ObserveKeepsOrder(Accept(before, r).value, e);
      }
      assert forall x :: x in log <==> x in before || x == e;
    }
  }

  // ---------- at most once ----------

  predicate LeftIn(log: seq<Event>, r: nat, c: Client) {
    exists e | e in log :: e.Left? && e.room == r && e.client == c
  }

  /** An entry that has left is not in the list, and its serial number is used up. */
  lemma {:induction false} LeftIsGone(log: seq<Event>, r: nat, c: Client)
    requires Accept(log, r).Some? && LeftIn(log, r, c)
    ensures c !in Accept(log, r).value.clients && c.serial < Accept(log, r).value.nextSerial
  {
    var before, e := log[..|log| - 1], log[|log| - 1];
    assert log == before + [e];
    var m := Accept(before, r).value;
    OrderOfJoining(before, r);
    IncreasingSorted(m.clients, m.nextSerial);
    if LeftIn(before, r, c) {
      LeftIsGone(before, r, c);
      if e.room == r && e.Left? {
        var k := RemoveShape(m.clients, e.client);
      }
    } else {
      assert e.Left? && e.room == r && e.client == c;
      var k := RemoveShape(m.clients, c);
      var rest := Remove(m.clients, c);
      forall j | 0 <= j < |rest| ensures rest[j].serial != c.serial {
        assert rest[j] == m.clients[if j < k then j else j + 1];
      }
    }
  }

  /** No entry is removed twice. */
  lemma LeavesOnce(log: seq<Event>, r: nat, i: nat, j: nat)
    requires Accept(log, r).Some?
    requires i < j < |log| && log[i].Left? && log[j].Left? && log[i].room == r && log[j].room == r
    ensures log[i].client != log[j].client
  {
    AcceptPrefix(log, r, j + 1);
    assert log[..j + 1][..j] == log[..j];
    if log[i].client == log[j].client {
      assert log[..j][i] in log[..j];
      LeftIsGone(log[..j], r, log[j].client);
    }
  }

  /** Every prefix of an accepted log is accepted, and its last event is allowed. */
  lemma {:induction false} AcceptPrefix(log: seq<Event>, r: nat, n: nat)
    requires Accept(log, r).Some? && n <= |log|
    ensures Accept(log[..n], r).Some?
    decreases |log| - n
  {
    if n == |log| {
      assert log[..n] == log;
    } else {
      AcceptPrefix(log, r, n + 1);
      assert log[..n + 1][..n] == log[..n];
    }
  }

  /** Phases only move forward, waits keep their identity and, once given, their answer. */
  predicate Later(a: Monitor, b: Monitor) {
    && (a.phase.Closed? ==> b.phase.Closed?)
    && (a.phase.Closing? ==> !b.phase.Open?)
    && |a.waits| <= |b.waits|
    && (forall w :: 0 <= w < |a.waits| ==>
         && b.waits[w].clientId == a.waits[w].clientId
         && (a.waits[w].answer.Some? ==> b.waits[w].answer == a.waits[w].answer)
         && (a.waits[w].joinedSince ==> b.waits[w].joinedSince))
  }

  lemma {:induction false} SawJoinAt(waits: seq<WaitView>, id: string)
    ensures |SawJoin(waits, id)| == |waits|
    ensures forall w :: 0 <= w < |waits| ==>
      SawJoin(waits, id)[w] == waits[w].(joinedSince := waits[w].joinedSince || waits[w].clientId == id)
  {
    if waits == [] {
    } else {
      SawJoinAt(waits[1..], id);
    }
  }

  lemma ObserveLater(m: Monitor, e: Event)
    requires Observe(m, e).Some?
    ensures Later(m, Observe(m, e).value)
  {
    if e.Joined? {
      SawJoinAt(m.waits, e.client.id);
    }
  }

  lemma {:induction false} AcceptLater(log: seq<Event>, r: nat, n: nat)
    requires Accept(log, r).Some? && n <= |log|
    ensures Accept(log[..n], r).Some? && Later(Accept(log[..n], r).value, Accept(log, r).value)
  {
    AcceptPrefix(log, r, n);
    if n == |log| {
      assert log[..n] == log;
    } else {
      var before, e := log[..|log| - 1], log[|log| - 1];
      AcceptLater(before, r, n);
      assert before[..n] == log[..n];
      if e.room == r {
        ObserveLater(Accept(before, r).value, e);
      }
    }
  }

  /** The monitor just before and just after the event at position i. */
  lemma AcceptAt(log: seq<Event>, r: nat, i: nat)
    requires Accept(log, r).Some? && i < |log| && log[i].room == r
    ensures Accept(log[..i], r).Some? && Accept(log[..i + 1], r).Some?
    ensures Accept(log[..i + 1], r) == Observe(Accept(log[..i], r).value, log[i])
    ensures Later(Accept(log[..i + 1], r).value, Accept(log, r).value)
  {
    AcceptPrefix(log, r, i);
    AcceptLater(log, r, i + 1);
    assert log[..i + 1] == log[..i] + [log[i]];
    AcceptOne(log[..i], log[i], r);
  }

  /** A wait is answered at most once. */
  lemma AnsweredOnce(log: seq<Event>, r: nat, i: nat, j: nat)
    requires Accept(log, r).Some? && i < j < |log|
    requires log[i].Answered? && log[j].Answered? && log[i].room == r && log[j].room == r
    ensures log[i].wait != log[j].wait
  {
    AcceptAt(log, r, j);
    AcceptPrefix(log, r, j);
    AcceptAt(log[..j], r, i);
    assert log[..j][..i + 1] == log[..i + 1] && log[..j][..i] == log[..i];
  }

  /** The hooks of disposal are called at most once, and no client joins or leaves afterwards. */
  lemma DisposedOnce(log: seq<Event>, r: nat, i: nat, j: nat)
    requires Accept(log, r).Some? && i < j < |log| && log[i].room == r && log[j].room == r
    ensures log[i].BeforeDispose? ==> !log[j].BeforeDispose? && !log[j].Joined? && !log[j].Left? && !log[j].WaitStarted?
    ensures log[i].OnDispose? ==> !log[j].OnDispose? && !log[j].BeforeDispose? && !log[j].Joined? && !log[j].Left?
  {
    AcceptAt(log, r, j);
    AcceptPrefix(log, r, j);
    AcceptAt(log[..j], r, i);
    assert log[..j][..i + 1] == log[..i + 1] && log[..j][..i] == log[..i];
    if log[i].BeforeDispose? || log[i].OnDispose? {
      EmptyWhenClosed(log[..j], r);
    }
  }

  lemma {:induction false} EmptyWhenClosed(log: seq<Event>, r: nat)
    requires Accept(log, r).Some? && !Accept(log, r).value.phase.Open?
    ensures Accept(log, r).value.clients == []
  {
    if log == [] {
    } else {
      var before, e := log[..|log| - 1], log[|log| - 1];
      if !Accept(before, r).value.phase.Open? {
        EmptyWhenClosed(before, r);
      }
    }
  }

  /** Everybody who joined before disposal has left before its first hook is called. */
  lemma NobodyLeftBehind(log: seq<Event>, r: nat, i: nat, session: string)
    requires Accept(log, r).Some? && i < |log| && log[i] == BeforeDispose(r)
    ensures JoinCount(log[..i], r, session) == LeaveCount(log[..i], r, session)
  {
    AcceptAt(log, r, i);
    Conservation(log[..i], r, session);
  }

  /** A client with the id joined before: the wait has seen it. */
  lemma JoinSeen(log: seq<Event>, r: nat, i: nat, k: nat)
    requires Accept(log, r).Some? && i < k < |log|
    requires log[i].WaitStarted? && log[i].room == r
    requires log[k].Joined? && log[k].room == r && log[k].client.id == log[i].clientId
    ensures log[i].wait < |Accept(log, r).value.waits| && Accept(log, r).value.waits[log[i].wait].joinedSince
  {
    AcceptAt(log, r, k);
    AcceptPrefix(log, r, k);
    AcceptAt(log[..k], r, i);
    assert log[..k][..i + 1] == log[..i + 1] && log[..k][..i] == log[..i];
    SawJoinAt(Accept(log[..k], r).value.waits, log[k].client.id);
  }

  /**
   The answer of a wait is true exactly when a client with the id is in the list at that
   moment; after a false answer nobody with the id has joined since the wait began.
   */
  lemma AnswersAreTrue(log: seq<Event>, r: nat, i: nat, j: nat)
    requires Accept(log, r).Some? && i < j < |log|
    requires log[i].WaitStarted? && log[i].room == r
    requires log[j].Answered? && log[j].room == r && log[j].wait == log[i].wait
    ensures Accept(log[..j], r).Some?
    ensures log[j].reconnected <==> Present(Accept(log[..j], r).value.clients, log[i].clientId)
    ensures !log[j].reconnected ==>
      forall k :: i < k < j ==> !(log[k].Joined? && log[k].room == r && log[k].client.id == log[i].clientId)
  {
    AcceptAt(log, r, j);
    AcceptPrefix(log, r, j);
    AcceptAt(log[..j], r, i);
    assert log[..j][..i + 1] == log[..i + 1] && log[..j][..i] == log[..i];
    if !log[j].reconnected {
      forall k | i < k < j
        ensures !(log[k].Joined? && log[k].room == r && log[k].client.id == log[i].clientId)
      {
        if log[k].Joined? && log[k].room == r && log[k].client.id == log[i].clientId {
          JoinSeen(log[..j], r, i, k);
        }
      }
    }
  }
}
