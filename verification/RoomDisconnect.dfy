/** What the close of a connection leaves behind: in every continuation, and in one that runs by itself. */
module RoomDisconnect {
  import opened Wrappers
  import opened Storage
  import opened Fetch = RoomFetcher
  import opened PubSub
  import opened RoomModel
  import opened RoomMonitor
  import opened RoomTables
  import opened RoomSystem
  import opened RoomInvariants
  import opened RoomRuns
  import opened RoomSessions

  predicate NoRepeats(rooms: seq<nat>) {
    rooms == [] || (rooms[0] !in rooms[1..] && NoRepeats(rooms[1..]))
  }

  lemma {:induction false} RoomsOfOrigin(list: seq<Listener>, r: nat) returns (l: Listener)
    requires r in RoomsOf(list)
    ensures l in list && l.handler.room == r
  {
    if list[0].handler.room == r {
      l := list[0];
    } else {
      l := RoomsOfOrigin(list[1..], r);
    }
  }

  /** Each room is subscribed once, so a publish visits it once. */
  lemma {:induction false} VisitedOnce(rooms: seq<RoomState>, list: seq<Listener>)
    requires LeftListeners(rooms, list)
    ensures NoRepeats(RoomsOf(list))
  {
    if list == [] {
    } else {
      assert list[0] in list;
      assert list == [list[0]] + list[1..];
      VisitedOnce(rooms, list[1..]);
      if list[0].handler.room in RoomsOf(list[1..]) {
        var l := RoomsOfOrigin(list[1..], list[0].handler.room);
        var j :| 1 <= j < |list| && list[j] == l;
      }
    }
  }

  lemma RunCons(w: World, st: Step, rest: seq<Step>)
    requires Enabled(w, st)
    ensures Run(w, [st] + rest) == Run(Next(w, st), rest)
  {
    assert ([st] + rest)[1..] == rest;
  }

  predicate InCloseHandler(w: World, s: string, rest: seq<nat>) {
    w.lock == Some(Connection(s)) && Connection(s) in w.threads && w.threads[Connection(s)] == Publishing(Publish(s, false, rest, true))
  }

  lemma HandleOne(w: World, s: string, rest: seq<nat>) returns (w': World)
    requires Inv(w) && InCloseHandler(w, s, rest) && rest != []
    ensures Enabled(w, Handle(Connection(s), Returns)) && w' == Next(w, Handle(Connection(s), Returns))
    ensures Inv(w') && InCloseHandler(w', s, rest[1..])
    ensures forall q :: Count(w', q, s) == LessOne(Count(w, q, s), q == rest[0])
  {
    hide Inv, Dispose;
    var st := Handle(Connection(s), Returns);
    w' := Next(w, st);
    NextKeepsInv(w, st);
    if rest[0] < |w.rooms| {
      RemovesExactlyOne(CoreOf(w, rest[0]), s, false, Returns, s);
    }
  }

  lemma {:induction false} VisitAll(w: World, s: string, rest: seq<nat>) returns (steps: seq<Step>)
    requires Inv(w) && InCloseHandler(w, s, rest) && NoRepeats(rest)
    ensures Run(w, steps).Some?
    ensures var w' := Run(w, steps).value;
      s in w'.closed && forall q :: Count(w', q, s) == LessOne(Count(w, q, s), q in rest)
    decreases |rest|
  {
    hide Inv, Enabled, Next, Run;
    if rest == [] {
      var st := Finish(Connection(s));
      FinishOne(w, s);
      steps := [st] + [];
      RunCons(w, st, []);
      RunNothing(Next(w, st));
    } else {
      var w1 := HandleOne(w, s, rest);
      var more := VisitAll(w1, s, rest[1..]);
      steps := [Handle(Connection(s), Returns)] + more;
      RunCons(w, Handle(Connection(s), Returns), more);
      assert forall q :: q in rest <==> q == rest[0] || q in rest[1..];
    }
  }

  lemma RunNothing(w: World)
    ensures Run(w, []) == Some(w)
  {
  }

  lemma FinishOne(w: World, s: string)
    requires InCloseHandler(w, s, [])
    ensures Enabled(w, Finish(Connection(s)))
    ensures var w' := Next(w, Finish(Connection(s)));
      s in w'.closed && w'.rooms == w.rooms
  {
  }

  /**
   The close handler of an idle connection, from a reachable state: afterwards every room holds
   one entry of the session less, or none if it held none.
   */
  lemma CloseRemovesOneEach(w: World, s: string) returns (steps: seq<Step>)
    requires Inv(w) && Idle(w, Connection(s))
    ensures Run(w, [BeginLeave(s, true)] + steps).Some?
    ensures var w' := Run(w, [BeginLeave(s, true)] + steps).value;
      s in w'.closed && forall q :: Count(w', q, s) == LessOne(Count(w, q, s), true)
  {
    hide RoomsInv, TimersInv, LockInv, WaitsKnown, Run, Multiplicity;
    var begin := BeginLeave(s, true);
    var w1 := Next(w, begin);
    var rest := RoomsOf(Listening(w.tables.listeners, PLAYER_LEFT));
    NextKeepsInv(w, begin);
    LeftListenersOf(w);
    VisitedOnce(w.rooms, Listening(w.tables.listeners, PLAYER_LEFT));
    steps := VisitAll(w1, s, rest);
    RunCons(w, begin, steps);
    forall q | Count(w, q, s) > 0 ensures q in rest {
      HoldersSubscribed(w, q, s);
    }
  }

  lemma LeftListenersOf(w: World)
    requires Inv(w)
    ensures LeftListeners(w.rooms, Listening(w.tables.listeners, PLAYER_LEFT))
  {
  }

  /** Once the close handler has returned, the session is in no room. */
  ghost predicate LeavesNothing(w1: World, mid: seq<Step>, s: string)
    requires Run(w1, mid).Some?
  {
    s in Run(w1, mid).value.closed ==> forall q :: Count(Run(w1, mid).value, q, s) == 0
  }

  /**
   Whatever happens meanwhile, a close leaves the session in no room: this holds of every
   continuation exactly when the session is in no room more than once as the close begins.
   */
  lemma CloseLeavesNothingIff(start: int, before: seq<Step>, s: string)
    requires Run(Init(start), before).Some? && Idle(Run(Init(start), before).value, Connection(s))
    ensures var w := Run(Init(start), before).value;
      (forall mid: seq<Step> :: Run(Next(w, BeginLeave(s, true)), mid).Some? ==> LeavesNothing(Next(w, BeginLeave(s, true)), mid, s))
      <==> forall q :: Count(w, q, s) <= 1
  {
    Reached(start, before);
    LeavesNothingIff(Run(Init(start), before).value, s);
  }

  lemma LeavesNothingIff(w: World, s: string)
    requires Inv(w) && Idle(w, Connection(s))
    ensures (forall mid: seq<Step> :: Run(Next(w, BeginLeave(s, true)), mid).Some? ==> LeavesNothing(Next(w, BeginLeave(s, true)), mid, s))
       <==> forall q :: Count(w, q, s) <= 1
  {
    hide Inv, Run, Next, Count, Idle;
    assert Enabled(w, BeginLeave(s, true)) by { IdleMayBegin(w, s); }
    var w1 := Next(w, BeginLeave(s, true));
    if forall q :: Count(w, q, s) <= 1 {
      forall mid: seq<Step> | Run(w1, mid).Some? ensures LeavesNothing(w1, mid, s) {
        if s in Run(w1, mid).value.closed {
          forall q ensures Count(Run(w1, mid).value, q, s) == 0 {
            ClosedCounts(w, s, mid, q);
          }
        }
      }
    } else {
      var steps := CloseRemovesOneEach(w, s);
      RunCons(w, BeginLeave(s, true), steps);
      var q :| Count(w, q, s) > 1;
      assert Count(Run(w1, steps).value, q, s) > 0;
      assert !LeavesNothing(w1, steps, s);
    }
  }

  lemma IdleMayBegin(w: World, s: string)
    requires Idle(w, Connection(s))
    ensures Enabled(w, BeginLeave(s, true))
  {
  }

  /**
   add_client does not look whether the session is there already. In whatever reachable state an
   idle session joins a managed room twice and then closes its connection, an entry of it
   stays in the room although the connection is gone.
   */
  lemma SecondEntryRemains(start: int, before: seq<Step>, s: string, id: string, roomId: string) returns (steps: seq<Step>)
    requires Run(Init(start), before).Some?
    requires var w := Run(Init(start), before).value; Idle(w, Connection(s)) && roomId in w.tables.managing
    ensures var w := Run(Init(start), before).value;
      var join := Join(s, id, roomId, false);
      && Run(w, [join] + ([join] + ([BeginLeave(s, true)] + steps))).Some?
      && var w' := Run(w, [join] + ([join] + ([BeginLeave(s, true)] + steps))).value;
      s in w'.closed && Count(w', w.tables.managing[roomId], s) > 0
  {
    hide Inv, Idle, Run, Enabled, Next;
    Reached(start, before);
    var w := Run(Init(start), before).value;
    var join := Join(s, id, roomId, false);
    var w1 := JoinOnce(w, s, id, roomId);
    var w2 := JoinOnce(w1, s, id, roomId);
    steps := CloseRemovesOneEach(w2, s);
    RunCons(w, join, [join] + ([BeginLeave(s, true)] + steps));
    RunCons(w1, join, [BeginLeave(s, true)] + steps);
  }

  lemma JoinOnce(w: World, s: string, id: string, roomId: string) returns (w': World)
    requires Inv(w) && Idle(w, Connection(s)) && roomId in w.tables.managing
    ensures Enabled(w, Join(s, id, roomId, false)) && w' == Next(w, Join(s, id, roomId, false))
    ensures Inv(w') && Idle(w', Connection(s)) && w'.tables == w.tables
    ensures var r := w.tables.managing[roomId]; Count(w', r, s) == Count(w, r, s) + 1
  {
    hide RoomsInv, TimersInv, AddClient, JoinRoom;
    var r := w.tables.managing[roomId];
    w' := Next(w, Join(s, id, roomId, false));
    NextKeepsInv(w, Join(s, id, roomId, false));
    JoinIs(w, s, id, roomId, false);
    AddClientStanding(CoreOf(w, r), id, s);
    JoinCounts(w, s, id, roomId, false, r, s);
  }
}
