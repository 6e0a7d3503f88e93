/** Whom a join and a kick concern, in every reachable state: one room and one entry. */
module RoomVisits {
  import opened Wrappers
  import opened Storage
  import opened Fetch = RoomFetcher
  import opened PubSub
  import opened RoomModel
  import opened RoomTrace
  import opened RoomTables
  import opened RoomSystem
  import opened RoomInvariants
  import opened RoomRuns
  import opened RoomSessions
  import opened RoomOwners

  /**
   A join that is not refused reaches the managed room of that id, where it adds one entry at
   the end and answers exactly the waits for the client that still listen; no other room and
   no table changes. Without such a room nothing happens at all.
   */
  lemma JoinEntersItsRoom(start: int, steps: seq<Step>, session: string, id: string, roomId: string, refused: bool)
    requires Run(Init(start), steps).Some? && Enabled(Run(Init(start), steps).value, Join(session, id, roomId, refused))
    ensures var w := Run(Init(start), steps).value;
      var w' := Next(w, Join(session, id, roomId, refused));
      && (refused || roomId !in w.tables.managing ==> w' == w)
      && (!refused && roomId in w.tables.managing ==>
           var r := w.tables.managing[roomId];
           && r < |w.rooms| && w.rooms[r].id == roomId && !w.rooms[r].disposing
           && |w'.rooms| == |w.rooms| && (forall q :: 0 <= q < |w.rooms| && q != r ==> w'.rooms[q] == w.rooms[q])
           && w' == w.(rooms := w'.rooms, log := w'.log)
           && w'.rooms[r].clients == w.rooms[r].clients + [Client(id, session, |w.log|)]
           && |w'.rooms[r].waits| == |w.rooms[r].waits|
           && (forall v :: 0 <= v < |w.rooms[r].waits| ==>
                w'.rooms[r].waits[v] == WaitAfterJoin(w.rooms[r].waits[v], v in w.rooms[r].joinListeners, id))
           && w'.rooms[r] == w.rooms[r].(clients := w'.rooms[r].clients, owner := w'.rooms[r].owner,
                                         waits := w'.rooms[r].waits, joinListeners := w'.rooms[r].joinListeners))
  {
    hide Inv, AddClient, JoinRoom, WaitAfterJoin;
    Reached(start, steps);
    var w := Run(Init(start), steps).value;
    JoinIs(w, session, id, roomId, refused);
    if !refused && roomId in w.tables.managing {
      var r := w.tables.managing[roomId];
      JoinAnswersExactly(CoreOf(w, r), id, session);
      JoinTouches(CoreOf(w, r), id, session);
    }
  }

  predicate Touched(a: RoomState, b: RoomState) {
    b == a.(clients := b.clients, owner := b.owner, waits := b.waits, joinListeners := b.joinListeners)
  }

  lemma {:induction false} ListenersTouch(c: Core, listeners: seq<nat>, id: string)
    ensures Touched(c.room, CallJoinListeners(c, listeners, id).room)
    decreases |listeners|
  {
    if listeners == [] {
    } else {
      ListenersTouch(JoinListener(c, listeners[0], id), listeners[1..], id);
    }
  }

  lemma JoinTouches(c: Core, id: string, session: string)
    ensures Touched(c.room, AddClient(c, id, session).room)
  {
    var client := Client(id, session, |c.log|);
    var added := c.(room := c.room.(clients := c.room.clients + [client], owner := OwnerAfter(c.room.owner, client)),
                    log := c.log + [Joined(c.room.handle, client)]);
    ListenersTouch(added, added.room.joinListeners, id);
  }

  /**
   A kick of a session from a room visits this room and no other: it takes one entry of the
   session from it, if it holds any, and its thread has nothing more to visit.
   */
  lemma KickVisitsItsRoom(start: int, steps: seq<Step>, t: Tid, r: nat, session: string, hook: LeaveHook, x: string)
    requires Run(Init(start), steps).Some? && Enabled(Run(Init(start), steps).value, Kick(t, r, session))
    ensures var w := Run(Init(start), steps).value;
      var kicking := Next(w, Kick(t, r, session));
      && kicking.rooms == w.rooms && kicking.tables == w.tables && kicking.log == w.log
      && Enabled(kicking, Handle(t, hook))
      && var w' := Next(kicking, Handle(t, hook));
      && |w'.rooms| == |w.rooms| && (forall q :: 0 <= q < |w.rooms| && q != r ==> w'.rooms[q] == w.rooms[q])
      && Count(w', r, x) == Count(w, r, x) - (if x == session && Count(w, r, session) > 0 then 1 else 0)
      && t in w'.threads && !w'.threads[t].ShuttingDown? && w'.threads[t].p.rest == []
  {
    hide RemoveClient;
    var w := Run(Init(start), steps).value;
    RemovesExactlyOne(CoreOf(w, r), session, true, hook, x);
  }
}
