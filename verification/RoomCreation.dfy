/** When creation succeeds, when it fails and how, and what a new room listens to, in every reachable state. */
module RoomCreation {
  import opened Sequences
  import opened Wrappers
  import opened Storage
  import opened Fetch = RoomFetcher
  import opened PubSub
  import opened RoomModel
  import opened RoomTables
  import opened RoomSystem
  import opened RoomInvariants
  import opened RoomRuns

  /** The first candidate that is neither empty nor taken. */
  predicate FirstGood(candidates: seq<string>, taken: set<string>, i: nat) {
    && i < |candidates| && candidates[i] != "" && candidates[i] !in taken
    && forall j :: 0 <= j < i ==> candidates[j] == "" || candidates[j] in taken
  }

  lemma {:induction false} FirstGoodIsPicked(candidates: seq<string>, taken: set<string>, i: nat)
    requires FirstGood(candidates, taken, i)
    ensures FirstFree(taken, candidates) == candidates[i]
  {
    if i == 0 {
    } else {
      assert candidates[0] == "" || candidates[0] in taken;
      FirstGoodIsPicked(candidates[1..], taken, i - 1);
    }
  }

  /** An id that was asked for is taken or refused, and nothing else; otherwise the first good candidate is taken. */
  lemma PickIdIff(taken: set<string>, overrideId: string, candidates: seq<string>, i: nat)
    ensures overrideId != "" ==>
      PickId(taken, overrideId, candidates) == if overrideId in taken then Err(IdInUse) else Ok(overrideId)
    ensures overrideId == "" && FirstGood(candidates, taken, i) ==> PickId(taken, overrideId, candidates) == Ok(candidates[i])
    ensures overrideId == "" ==>
      (PickId(taken, overrideId, candidates) == Err(NoUniqueId) <==> forall c | c in candidates :: c == "" || c in taken)
  {
    FirstFreeIsFree(taken, candidates);
    if FirstGood(candidates, taken, i) {
      FirstGoodIsPicked(candidates, taken, i);
    }
  }

  /**
   In every reachable state: which error a creation gives, if any, and the id of the room that
   it makes, by what is asked for and what is managed.
   */
  lemma CreateOutcomeIff(start: int, steps: seq<Step>, t: Tid, a: CreateArgs)
    requires Run(Init(start), steps).Some? && Enabled(Run(Init(start), steps).value, Create(t, a))
    ensures var w := Run(Init(start), steps).value;
      var d := CreateRoom(w.rooms, w.tables, w.log, w.now, a);
      var managed := w.tables.managing.Keys;
      && (d.result == Err(NoRoomHandler) <==> !a.registered)
      && (d.result == Err(IdInUse) <==> a.registered && a.overrideId != "" && a.overrideId in managed)
      && (d.result == Err(NoUniqueId) <==> a.registered && a.overrideId == "" && forall c | c in a.candidates :: c == "" || c in managed)
      && (d.result.Ok? ==> !a.onCreateThrows && d.result.value < |d.rooms|)
      && (d.result.Ok? && a.overrideId != "" ==> d.rooms[d.result.value].id == a.overrideId)
      && (forall i: nat :: d.result.Ok? && a.overrideId == "" && FirstGood(a.candidates, managed, i) ==>
           d.rooms[d.result.value].id == a.candidates[i])
      && (a.onCreateThrows ==> d.result.Err?)
      && (d.result.Err? && d.result.error == OnCreateThrew ==> a.onCreateThrows)
  {
    hide Inv, Enabled, Run, CreateRoom, FirstGood;
    Reached(start, steps);
    MayCreate(Run(Init(start), steps).value, t, a);
    OutcomeIff(Run(Init(start), steps).value, a);
  }

  lemma MayCreate(w: World, t: Tid, a: CreateArgs)
    requires Enabled(w, Create(t, a))
    ensures a.overrideId != PLAYER_LEFT && PLAYER_LEFT !in a.candidates
  {
  }

  lemma ListedAreManaged(w: World)
    requires Inv(w)
    ensures ListedRooms(w.tables.entries, w.now) == w.tables.managing.Keys
  {
    hide RoomsRegistered, NothingElse, ListedRooms;
    forall id ensures id in ListedRooms(w.tables.entries, w.now) <==> id in w.tables.managing {
      SameRooms(w.rooms, w.tables, w.now, id);
    }
  }

  lemma OutcomeIff(w: World, a: CreateArgs)
    requires Inv(w)
    ensures var d := CreateRoom(w.rooms, w.tables, w.log, w.now, a);
      var managed := w.tables.managing.Keys;
      && (d.result == Err(NoRoomHandler) <==> !a.registered)
      && (d.result == Err(IdInUse) <==> a.registered && a.overrideId != "" && a.overrideId in managed)
      && (d.result == Err(NoUniqueId) <==> a.registered && a.overrideId == "" && forall c | c in a.candidates :: c == "" || c in managed)
      && (d.result.Ok? ==> !a.onCreateThrows && d.result.value < |d.rooms|)
      && (d.result.Ok? && a.overrideId != "" ==> d.rooms[d.result.value].id == a.overrideId)
      && (forall i: nat :: d.result.Ok? && a.overrideId == "" && FirstGood(a.candidates, managed, i) ==>
           d.rooms[d.result.value].id == a.candidates[i])
      && (a.onCreateThrows ==> d.result.Err?)
      && (d.result.Err? && d.result.error == OnCreateThrew ==> a.onCreateThrows)
  {
    hide Inv, ListedRooms, Live, Dispose, Subscribed, PickId;
    ListedAreManaged(w);
    var managed := w.tables.managing.Keys;
    PickIdIff(managed, a.overrideId, a.candidates, 0);
    PickErrors(managed, a.overrideId, a.candidates);
    forall i: nat | a.overrideId == "" && FirstGood(a.candidates, managed, i)
      ensures PickId(managed, a.overrideId, a.candidates) == Ok(a.candidates[i])
    {
      PickIdIff(managed, a.overrideId, a.candidates, i);
    }
    var picked := PickId(managed, a.overrideId, a.candidates);
    if a.registered && picked.Ok? {
      var purged := w.tables.(entries := Live(w.tables.entries, w.now));
      SubscribedRoomId(Core(NewRoom(|w.rooms|, picked.value, a.owner).(timer := Armed(a.timerAt + AUTO_DISPOSE_AFTER, false)), purged, w.log));
    }
  }

  lemma PickErrors(taken: set<string>, overrideId: string, candidates: seq<string>)
    ensures PickId(taken, overrideId, candidates).Err? ==> PickId(taken, overrideId, candidates).error in {IdInUse, NoUniqueId}
    ensures overrideId == "" ==> PickId(taken, overrideId, candidates) != Err(IdInUse)
  {
  }

  lemma SubscribedRoomId(c: Core)
    ensures Subscribed(c).room.id == c.room.id
  {
  }

  /**
   In every reachable state a room that is not disposed, and no other, hears of departures on
   the channel for them and of messages on the channel of its own id.
   */
  lemma LiveRoomsListen(start: int, steps: seq<Step>, r: nat)
    requires Run(Init(start), steps).Some? && r < |Run(Init(start), steps).value.rooms|
    ensures var w := Run(Init(start), steps).value;
      && (!w.rooms[r].disposing <==> exists l | l in Listening(w.tables.listeners, "blueboat-player-left") :: l.handler == PlayerLeft(r))
      && (!w.rooms[r].disposing ==> exists l | l in Listening(w.tables.listeners, w.rooms[r].id) :: l.handler == GameMessages(r))
  {
    Reached(start, steps);
    ListensWhileLive(Run(Init(start), steps).value, r);
  }

  lemma ListensWhileLive(w: World, r: nat)
    requires Inv(w) && r < |w.rooms|
    ensures !w.rooms[r].disposing <==> exists l | l in Listening(w.tables.listeners, "blueboat-player-left") :: l.handler == PlayerLeft(r)
    ensures !w.rooms[r].disposing ==> exists l | l in Listening(w.tables.listeners, w.rooms[r].id) :: l.handler == GameMessages(r)
  {
    var room := w.rooms[r];
    if !room.disposing {
      assert Registered(room, w.tables);
      var left := Listener(room.leftSub.value.id, PlayerLeft(r));
      assert left in Listening(w.tables.listeners, "blueboat-player-left") && left.handler == PlayerLeft(r);
      var game := Listening(w.tables.listeners, room.id)[0];
      assert game in Listening(w.tables.listeners, room.id) && game.handler == GameMessages(r);
    }
  }
}
