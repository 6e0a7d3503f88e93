/** Every operation of a room is a piece of log that the monitor of the room accepts. */
module RoomTrace {
  import opened Sequences
  import opened Wrappers
  import opened RoomModel
  import opened RoomMonitor

  /** A monitor that has seen the room's whole past. Unanswered waits have a listener, and nobody they wait for came. */
  predicate Matches(room: RoomState, m: Monitor, pending: seq<nat>, id: string) {
    && m.clients == room.clients
    && m.phase == (if room.disposing then Closed else Open)
    && |m.waits| == |room.waits|
    && (forall w :: 0 <= w < |room.waits| ==>
         && m.waits[w].clientId == room.waits[w].clientId
         && m.waits[w].answer == room.waits[w].answer
         && (w in room.joinListeners <==> room.waits[w].answer.None?)
         && (m.waits[w].answer.None? && m.waits[w].joinedSince ==> w in pending && room.waits[w].clientId == id))
    && (forall w | w in room.joinListeners :: w < |room.waits|)
  }

  predicate Tracks(room: RoomState, log: seq<Event>) {
    && Accept(log, room.handle).Some?
    && Matches(room, Accept(log, room.handle).value, [], "")
    && Accept(log, room.handle).value.nextSerial <= |log|
  }

  /** While the join listeners run: those in `pending` have not been called yet. */
  predicate TracksCalling(room: RoomState, log: seq<Event>, pending: seq<nat>, id: string) {
    && Accept(log, room.handle).Some?
    && Matches(room, Accept(log, room.handle).value, pending, id)
    && Accept(log, room.handle).value.nextSerial <= |log|
  }

  /** `after` only adds events of room `h`. */
  predicate Adds(before: seq<Event>, after: seq<Event>, h: nat) {
    before <= after && forall i :: |before| <= i < |after| ==> after[i].room == h
  }

  lemma {:induction false} AddsFrame(before: seq<Event>, after: seq<Event>, h: nat, other: nat)
    requires Adds(before, after, h) && other != h
    ensures Accept(after, other) == Accept(before, other)
    decreases |after|
  {
    if |after| == |before| {
      assert after == before;
    } else {
      AddsFrame(before, after[..|after| - 1], h, other);
      AcceptOne(after[..|after| - 1], after[|after| - 1], other);
      assert after == after[..|after| - 1] + [after[|after| - 1]];
    }
  }

  /** Other rooms are not concerned. */
  lemma TracksFrame(room: RoomState, before: seq<Event>, after: seq<Event>, h: nat)
    requires Tracks(room, before) && Adds(before, after, h) && room.handle != h
    ensures Tracks(room, after)
  {
    AddsFrame(before, after, h, room.handle);
  }

  lemma {:induction false} AcceptUnmentioned(log: seq<Event>, r: nat)
    requires forall e | e in log :: e.room != r
    ensures Accept(log, r) == Some(START)
  {
    if log == [] {
    } else {
      AcceptUnmentioned(log[..|log| - 1], r);
      assert log[|log| - 1] in log;
    }
  }

  lemma NewRoomTracks(room: RoomState, log: seq<Event>)
    requires forall e | e in log :: e.room != room.handle
    requires room.clients == [] && room.waits == [] && room.joinListeners == [] && !room.disposing
    ensures Tracks(room, log)
  {
    AcceptUnmentioned(log, room.handle);
  }

  // ---------- dispose ----------

  lemma FirstLeaves(log: seq<Event>, r: nat, clients: seq<Client>)
    requires Accept(log, r).Some? && Accept(log, r).value.clients == clients && clients != []
    ensures Accept(log + [Left(r, clients[0], true)], r) == Some(Accept(log, r).value.(clients := clients[1..]))
  {
    AcceptOne(log, Left(r, clients[0], true), r);
  }

  lemma LeaveAllFirst(log: seq<Event>, r: nat, clients: seq<Client>)
    requires clients != []
    ensures log + LeaveAll(r, clients) == (log + [Left(r, clients[0], true)]) + LeaveAll(r, clients[1..])
  {
  }

  lemma {:induction false} LeaveAllAccepted(log: seq<Event>, r: nat, clients: seq<Client>)
    requires Accept(log, r).Some? && Accept(log, r).value.clients == clients
    ensures Accept(log + LeaveAll(r, clients), r) == Some(Accept(log, r).value.(clients := []))
    ensures Adds(log, log + LeaveAll(r, clients), r)
    decreases |clients|
  {
    hide Accept;
    if clients == [] {
      assert log + [] == log;
    } else {
      FirstLeaves(log, r, clients);
      LeaveAllAccepted(log + [Left(r, clients[0], true)], r, clients[1..]);
      LeaveAllFirst(log, r, clients);
    }
  }

  lemma DisposeTracks(c: Core)
    requires Tracks(c.room, c.log)
    ensures Tracks(Dispose(c).room, Dispose(c).log)
    ensures Adds(c.log, Dispose(c).log, c.room.handle)
  {
    if !c.room.disposing {
      var h := c.room.handle;
      var gone := c.log + LeaveAll(h, c.room.clients);
      LeaveAllAccepted(c.log, h, c.room.clients);
      AcceptOne(gone, BeforeDispose(h), h);
      AcceptOne(gone + [BeforeDispose(h)], OnDispose(h), h);
      assert Dispose(c).log == gone + [BeforeDispose(h)] + [OnDispose(h)];
    }
  }

  // ---------- removal ----------

  lemma {:induction false} RemoveIsRemoveAt(clients: seq<Client>, i: nat)
    requires i < |clients|
    requires forall j :: 0 <= j < i ==> clients[j] != clients[i]
    ensures Remove(clients, clients[i]) == RemoveAt(clients, i)
  {
    if i > 0 {
      RemoveIsRemoveAt(clients[1..], i - 1);
    }
  }

  lemma TakeOutTracks(c: Core, i: nat, intentional: bool)
    requires Tracks(c.room, c.log) && i < |c.room.clients|
    ensures Tracks(TakeOut(c, i, intentional).room, TakeOut(c, i, intentional).log)
    ensures Adds(c.log, TakeOut(c, i, intentional).log, c.room.handle)
  {
    var h, client := c.room.handle, c.room.clients[i];
    OrderOfJoining(c.log, h);
    IncreasingSorted(c.room.clients, Accept(c.log, h).value.nextSerial);
    RemoveIsRemoveAt(c.room.clients, i);
    AcceptOne(c.log, Left(h, client, intentional), h);
  }

  lemma StartWaitTracks(c: Core, clientId: string, due: int)
    requires Tracks(c.room, c.log) && !c.room.disposing
    ensures Tracks(StartWait(c, clientId, due).room, StartWait(c, clientId, due).log)
    ensures Adds(c.log, StartWait(c, clientId, due).log, c.room.handle)
  {
    AcceptOne(c.log, WaitStarted(c.room.handle, |c.room.waits|, clientId), c.room.handle);
  }

  lemma FinishRemovalTracks(c: Core, hook: LeaveHook)
    requires Tracks(c.room, c.log)
    ensures var c' := FinishRemoval(c, hook).0;
      Tracks(c'.room, c'.log) && Adds(c.log, c'.log, c.room.handle)
  {
    if hook.AllowReconnection? && !c.room.disposing {
      StartWaitTracks(c, hook.clientId, hook.due);
    } else {
      DisposeTracks(c);
    }
  }

  lemma RemoveClientTracks(c: Core, session: string, intentional: bool, hook: LeaveHook)
    requires Tracks(c.room, c.log)
    ensures var c' := RemoveClient(c, session, intentional, hook).0;
      Tracks(c'.room, c'.log) && Adds(c.log, c'.log, c.room.handle)
  {
    var i := IndexOf(c.room.clients, session);
    if i < |c.room.clients| {
      TakeOutTracks(c, i, intentional);
      FinishRemovalTracks(TakeOut(c, i, intentional), hook);
    }
  }

  // ---------- joining and waiting ----------

  lemma WithoutWaitMembers(list: seq<nat>, w: nat)
    ensures forall x :: x in WithoutWait(list, w) <==> x in list && x != w
  {
    WithoutKeyMembers(list, Self, w);
  }

  lemma SettleTracks(c: Core, w: nat, reconnected: bool, pending: seq<nat>, id: string)
    requires TracksCalling(c.room, c.log, pending, id) && w < |c.room.waits|
    requires c.room.waits[w].answer.None? ==> reconnected == Present(c.room.clients, c.room.waits[w].clientId)
    requires c.room.waits[w].answer.None? && !reconnected ==> w !in pending
    ensures var c' := Settle(c, w, reconnected);
      TracksCalling(c'.room, c'.log, pending, id) && Adds(c.log, c'.log, c.room.handle)
  {
    WithoutWaitMembers(c.room.joinListeners, w);
    AcceptOne(c.log, Answered(c.room.handle, w, reconnected), c.room.handle);
    assert c.log + [] == c.log;
  }

  lemma WaitTimeoutTracks(c: Core, w: nat)
    requires Tracks(c.room, c.log)
    ensures var c' := WaitTimeout(c, w);
      Tracks(c'.room, c'.log) && Adds(c.log, c'.log, c.room.handle)
  {
    if w < |c.room.waits| {
      SettleTracks(c, w, Present(c.room.clients, c.room.waits[w].clientId), [], "");
    }
  }

  lemma JoinListenerTracks(c: Core, w: nat, pending: seq<nat>, id: string)
    requires TracksCalling(c.room, c.log, [w] + pending, id) && Present(c.room.clients, id)
    ensures var c' := JoinListener(c, w, id);
      && TracksCalling(c'.room, c'.log, pending, id) && Adds(c.log, c'.log, c.room.handle)
      && c'.room.clients == c.room.clients
  {
    if w < |c.room.waits| && c.room.waits[w].clientId == id {
      SettleTracks(c, w, true, [w] + pending, id);
      var settled := Settle(c, w, true);
      assert settled.room.waits[w].answer.Some?;
    }
  }

  lemma {:induction false} CallJoinListenersTracks(c: Core, listeners: seq<nat>, id: string)
    requires TracksCalling(c.room, c.log, listeners, id) && Present(c.room.clients, id)
    ensures var c' := CallJoinListeners(c, listeners, id);
      Tracks(c'.room, c'.log) && Adds(c.log, c'.log, c.room.handle)
    decreases |listeners|
  {
    if listeners == [] {
    } else {
      assert listeners == [listeners[0]] + listeners[1..];
      JoinListenerTracks(c, listeners[0], listeners[1..], id);
      CallJoinListenersTracks(JoinListener(c, listeners[0], id), listeners[1..], id);
    }
  }

  lemma AddClientTracks(c: Core, id: string, session: string)
    requires Tracks(c.room, c.log) && !c.room.disposing
    ensures var c' := AddClient(c, id, session);
      Tracks(c'.room, c'.log) && Adds(c.log, c'.log, c.room.handle)
  {
    var h, client := c.room.handle, Client(id, session, |c.log|);
    var added := c.(room := c.room.(clients := c.room.clients + [client], owner := OwnerAfter(c.room.owner, client)),
                    log := c.log + [Joined(h, client)]);
    AcceptOne(c.log, Joined(h, client), h);
    SawJoinAt(Accept(c.log, h).value.waits, id);
    assert client in added.room.clients;
    CallJoinListenersTracks(added, added.room.joinListeners, id);
  }
}
