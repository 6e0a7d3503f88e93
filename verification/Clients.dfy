/**
 The client as an object that its methods update in place, each called by one thread while
 the others are at rest. The interleavings are those of ClientModel.dfy, whose steps the
 methods go through. Room objects are known by their place in `made`.
 */
module Clients {
  import opened Wrappers
  import opened ClientModel
  import opened ClientRuns
  import opened ClientRejoin
  import Model = ClientModel

  /** join_room_shared gone through to its end. */
  function Completed(c: Model.Client, t: Tid): Model.Client {
    if t in c.joins && c.joins[t].room < |c.rooms| then ListRoom(SendIfNotJoined(c, t), t) else c
  }

  function JoinFrames(t: Tid, ids: seq<string>): seq<Frame> {
    if ids == [] then [] else [JoinRoom(t, ids[0])] + JoinFrames(t, ids[1..])
  }

  class Client {
    var id: string
    var made: seq<RoomObject>
    var rooms: seq<nat>
    var eventHandlers: map<string, Closure>
    var connected: bool
    var requests: seq<string>
    var fired: seq<Fired>
    var sent: seq<Frame>

    ghost function View(): Model.Client
      reads this
    {
      Model.Client(made, rooms, eventHandlers, connected, Waiting, map[], requests, fired, sent)
    }

    constructor ()
      ensures View() == START && id == ""
    {
      id := "";
      made, rooms, eventHandlers, connected := [], [], map[], false;
      requests, fired, sent := [], [], [];
    }

    method SendFrame(f: Frame)
      modifies this`sent
      ensures View() == Send(old(View()), f)
    {
      if connected {
        sent := sent + [f];
      }
    }

    method RegisterRoomEvents(h: nat)
      requires h < |made|
      modifies this`eventHandlers
      ensures View() == Model.RegisterRoomEvents(old(View()), h)
    {
      eventHandlers := eventHandlers[ErrorKey(made[h].id) := JoinFailed(h)];
      eventHandlers := eventHandlers[MessageKey(made[h].id) := Message(h)];
    }

    method CreateRoom(uid: string) returns (room: nat)
      modifies this
      ensures room == |old(made)| && View() == Model.CreateRoom(old(View()), uid)
    {
      room := |made|;
      made := made + [RoomObject("", false)];
      var request := |requests|;
      requests := requests + [uid];
      eventHandlers := eventHandlers[CreateKey(uid) := Created(request, room)];
      eventHandlers := eventHandlers[ErrorKey(uid) := CreateFailed(request)];
      SendFrame(CreateNewRoom(uid));
    }

    /** A room that the program names. */
    method Join(n: nat, roomId: string) returns (room: nat)
      modifies this
      ensures room == |old(made)|
      ensures View() == Completed(StartJoin(old(View()), User(n), roomId), User(n))
    {
      room := |made|;
      made := made + [RoomObject(roomId, false)];
      RegisterRoomEvents(room);
      JoinRoomShared(User(n), roomId, room);
    }

    method JoinRoomShared(t: Tid, roomId: string, room: nat)
      requires room < |made|
      modifies this`sent, this`rooms
      ensures View() == Completed(old(View()).(joins := map[t := Joining(room, roomId, false)]), t)
    {
      if !made[room].joined {
        SendFrame(JoinRoom(t, roomId));
      }
      var exist := false;
      for i := 0 to |rooms|
        invariant exist <==> Holds(made, rooms[..i], roomId)
      {
        assert rooms[..i + 1] == rooms[..i] + [rooms[i]];
        if rooms[i] < |made| && made[rooms[i]].id == roomId {
          assert rooms[i] in rooms[..i + 1];
          exist := true;
        }
      }
      assert rooms[..|rooms|] == rooms;
      if !exist {
        rooms := rooms + [room];
      }
    }

    /** The new id is kept. One join frame for each listed room that has an id and is not marked as joined, in order; nothing else changes. */
    method HandleClientIdSet(newId: string)
      requires connected && DistinctIds(made, rooms)
      modifies this`id, this`sent, this`rooms
      ensures id == newId
      ensures View() == old(View()).(sent := old(sent) + JoinFrames(Manager, ToRejoin(made, old(rooms))))
    {
      id := newId;
      var snapshot := rooms;
      var i := 0;
      assert snapshot[0..] == snapshot;
      while i < |snapshot|
        invariant i <= |snapshot| && id == newId && rooms == snapshot == old(rooms)
        invariant sent + JoinFrames(Manager, ToRejoin(made, snapshot[i..])) == old(sent) + JoinFrames(Manager, ToRejoin(made, snapshot))
      {
        var h := snapshot[i];
        var roomId := made[h].id;
        assert snapshot[i..][0] == h && snapshot[i..][1..] == snapshot[i + 1..];
        if roomId != "" {
          assert Holds(made, rooms, roomId) by {
            assert h in rooms && made[h].id == roomId;
          }
          FrameStep(sent, roomId, ToRejoin(made, snapshot[i + 1..]));
          JoinRoomShared(Manager, roomId, h);
        }
        i := i + 1;
      }
      assert snapshot[i..] == [];
      assert sent + [] == sent;
    }

    /** What a handler does, with the join that follows a creation. */
    method HandleEvent(name: string, text: string)
      requires Inv(View()) && connected
      modifies this
      ensures View() == Completed(Model.HandleEvent(old(View()), name, text), Manager)
    {
      if name !in eventHandlers {
        return;
      }
      assert Pending(eventHandlers, requests, fired) && HandlersKnown(eventHandlers, |made|);
      match eventHandlers[name] {
        case Created(request, room) =>
          OwnRoomOf(View(), name);
          made := made[room := made[room].(id := text)];
          RegisterRoomEvents(room);
          eventHandlers := eventHandlers - {CreateKey(requests[request]), ErrorKey(requests[request])};
          fired := fired + [Fired(request, true)];
          JoinRoomShared(Manager, text, room);
        case CreateFailed(request) =>
          fired := fired + [Fired(request, false)];
          eventHandlers := eventHandlers - {CreateKey(requests[request]), ErrorKey(requests[request])};
        case JoinFailed(_) =>
        case Message(room) =>
          if text == JOINED {
            made := made[room := made[room].(joined := true)];
          } else if text == REMOVED {
            made := made[room := made[room].(joined := false)];
          }
      }
    }

    /** What the manager does when the connection has dropped. */
    method Disconnected()
      requires DistinctIds(made, rooms)
      modifies this`made, this`connected
      ensures View() == old(View()).(connected := false, rooms := ForgetJoined(old(made), rooms))
    {
      connected := false;
      var snapshot := rooms;
      var i := 0;
      assert snapshot[0..] == snapshot;
      while i < |snapshot|
        invariant i <= |snapshot| && |made| == |old(made)| && !connected
        invariant ForgetJoined(made, snapshot[i..]) == ForgetJoined(old(made), snapshot)
      {
        var h := snapshot[i];
        assert snapshot[i..][0] == h && snapshot[i..][1..] == snapshot[i + 1..];
        made := made[h := made[h].(joined := false)];
        i := i + 1;
      }
      assert snapshot[i..] == [];
    }
  }

  lemma FrameStep(sent: seq<Frame>, id: string, rest: seq<string>)
    ensures sent + JoinFrames(Manager, [id] + rest) == sent + [JoinRoom(Manager, id)] + JoinFrames(Manager, rest)
  {
    assert ([id] + rest)[1..] == rest;
  }
}
