# Verification model of the blueboat server and client

A Dafny model of a multi-room game server and its client, with proofs. `dafny verify dfyconfig.toml`
checks the whole project. Paths in this file are those of the modelled repository.

The model has five parts.

* **Rooms under the game lock.** `RoomModel`, `RoomTables` and `PubSub` say what one call does to a room,
  to the managed map, the storage records and the listeners, and to the order of events. `Rooms.dfy` has
  the room and the server as objects whose methods update their fields in place, each proved against those
  functions. `RoomSystem` puts the functions into a step system at the granularity of the lock: threads in
  the middle of a publish over a copied listener list, threads that have given up the lock inside
  `allow_reconnection`, a timer worker that has taken a callback and waits for the lock, shutdown half way
  through its list, and a clock. `RoomTheorems`, `RoomSessions`, `RoomDisconnect`, `RoomWaits`, `RoomLeaves`,
  `RoomOwners`, `RoomCreation` and `RoomVisits` are statements over every run, and `RoomExample` goes through
  one of them. `GameLock` models the guards, the
  slots and the mutex by themselves, and `RoomLock` proves that the step system takes and gives up the lock
  only as guards do. `RoomMonitor` is an independent automaton over the order of events of one
  room; it knows nothing of threads or tables, and every run is proved to be accepted by it.
* **The MessagePack codec and the event frame**, down to bytes: format choice by size, big-endian numbers,
  nested arrays and maps, and the reader of every format in the "Formats" section of the MessagePack
  specification. `MsgPackFormats` and `SioFrames` say in numbers which bytes mean what, and `MsgPackFloats`
  what number the bits of a single and of a double are.
* **The scheduler**: the worker's loop over its task list, and every run of worker, setters, cancellers,
  destructor, clock and spurious wake-ups.
* **The expiring store and the room index**, refined against a map that is defined by its history alone.
* **HTTP framing over short reads and writes, Basic credentials through base64, the callback list, and
  the client's create and rejoin bookkeeping** as a second step system. `HttpGrammar`, `HttpResponses` and
  `Base64Digits` state in numbers and characters what is read and written; `ClientJoins` follows a room from
  the request to the list.

Functions are specifications and stay close to the source's branches; methods are the source's loops and
in-place updates; lemmas are the results.

## Results that are not simply "it works"

* `MsgPackProofs.RoundTrip`: the round trip holds if and only if every length in the value is below 2^32.
* `RoomDisconnect.CloseLeavesNothingIff` and `SecondEntryRemains`: `add_client` does not look whether a
  session is in the room already. Every continuation of a close leaves the session in no room if and only if
  it was in no room more than once when the close began; a session that joined a room twice may keep an entry.
* `ClientRejoin.ReconnectRejoinsAllIff` and `ForgottenRoom`: after a drop the next id event sends a join frame
  for every listed room with an id, in every continuation, if and only if no thread was in the middle of
  `join_room_shared` with a room with an id that the server had already let in. Otherwise that room may be
  listed as joined afterwards, and no id event asks for it.
* `GameLock.SecondGuardBlocks`: a thread that constructs a guard inside another one blocks for ever.
* `BasicAuth.CanLogInIff`: an admin whose name holds a colon is in the table for nothing.
* `Http.Trim`: the length computed in `trim` wraps around when a value holds nothing but blanks and a
  carriage return; the model follows the code.

## Assumptions

* Hooks are arbitrary, but do not throw (other than `on_create`, and `can_client_join`, which refuses a
  join), do not add or dispose, and do not take the lock again. `on_leave` may call `allow_reconnection`,
  any number of times. A hook that removes a client is the step `Kick`.
* Room ids differ from the name of the reserved channel. Nothing is assumed about session ids: one may be
  in a room, or in several, any number of times. Ids of subscriptions and callbacks are never used twice.
* The scheduler runs the auto-dispose callback at most 30 minutes late, and between arming that timer and
  writing its record a creation takes no more than the three hours of an expiry. Clocks do not run backwards.
* Room objects are garbage collected, so a stale handler or timer meets a disposed room.
* `Callback::call` goes through the listeners present at its start, although a listener removes itself
  during the call.
* A handler of the client gets the text it asks for: the new room's id, or the key of a message.

## Model

| member | source | states |
|---|---|---|
| RoomTheorems.TablesAlwaysAgree | server/src/server.cpp:200-251 | in every run, also while threads wait without the lock, the managed ids, the ids found in storage, the listed ids, the ids with a message listener and the ids of rooms not disposed are the same |
| RoomTheorems.FoundUntilDisposed | server/src/room_fetcher.cpp:29-35 | in every run a room is managed under its id and found by `find_room_by_id`, with a record of that id, if and only if it is not disposed |
| RoomTheorems.CreateAllOrNothing | server/src/server.cpp:202-251 | creation adds one new non-empty id to all three tables, with its own record, and every other record is as before; or it fails with all three unchanged, also when `on_create` throws or all candidates are taken or empty |
| RoomCreation.CreateOutcomeIff | server/src/server.cpp:202-225 | in every reachable state, by what is asked for and what is managed: when creation succeeds, under which id, and otherwise which error it gives |
| RoomCreation.PickIdIff | server/src/server.cpp:208-225 | an id asked for is taken or refused and never replaced; otherwise the first candidate that is neither empty nor taken |
| RoomCreation.LiveRoomsListen | server/src/room.cpp:172-226 | in every reachable state exactly the rooms not disposed hear of departures on the channel for them, and of messages on the channel of their id |
| RoomTheorems.RoomsFollowProtocol | server/src/room.cpp:60-170 | the log of every run is accepted by the independent protocol automaton of every room, whose clients, phase and answers are those of the room |
| RoomTheorems.EntriesConserved | server/src/room.cpp:130-170 | joins minus leaves of a session are its entries in the room, and the entries stay in the order of joining |
| RoomTheorems.DisposedForGood | server/src/room.cpp:60-86 | whatever stale handlers, timers and waiting threads do later, a disposed room stays disposed and empty |
| RoomTheorems.DisposalOverRuns | server/src/room.cpp:60-86 | each disposal hook runs at most once, all who joined have left before the first, no entry leaves twice, nobody joins or leaves afterwards |
| RoomTheorems.WaitsOverRuns | server/src/room.cpp:88-128 | a wait has at most one answer; it is true exactly when a client with the id is in the room then, and if false none joined since the wait began |
| RoomLeaves.LeavesSayHow | server/src/room.cpp:155-225 | in every step of every run a leave that is added is not intentional exactly if it belongs to a publish that a disconnect of that session began, and intentional exactly if it comes from a kick of that session or a disposal |
| RoomLeaves.VisitsTakeOne | server/src/room.cpp:222-225 | a visit of a publish takes the first entry of its session, and `on_leave` hears what the publish was begun with |
| RoomLeaves.RemovalSaysHow | server/src/room.cpp:155-165 | for both values of the flag: a removal whose first entry is at i adds exactly the leave of that entry with that flag, and no other |
| RoomLeaves.WaitAsAsked | server/src/room.cpp:88-118 | a hook that asks for a reconnection gets a wait for that client and that time, unless the room is being disposed |
| RoomLeaves.DisposalInOrder | server/src/room.cpp:60-86 | everyone leaves on purpose in the order of the list, then the two hooks are called in order; a second disposal does nothing |
| RoomVisits.JoinEntersItsRoom | server/src/room.cpp:130-153 | in every reachable state a join that is not refused adds one entry at the end of the managed room of that id and answers exactly the waits that listen for that client; nothing else changes, and without such a room nothing at all |
| RoomVisits.KickVisitsItsRoom | server/src/room.cpp:138-142 | a kick takes one entry of the session, if there is one, from its own room and from no other |
| RoomOwners.OwnerOverRuns | server/src/room.cpp:146-149 | in every run a room's owner is that of its creation, with the session of the last client that joined under a non-empty owner's id |
| RoomOwners.JoinAnswersExactly | server/src/room.cpp:100-153 | of all waits of a room exactly those for the joining client whose listener is there are answered, with true, and have their timer cancelled and their listener removed |
| RoomOwners.TimerOverRuns | server/src/room.cpp:15-42 | in every run a room has a timer for 9000000 ms after its creation, which is cancelled exactly when the room is disposed |
| RoomOwners.TimersNeverEarly | server/src/room.cpp:39-118 | in every run no room is disposed for its age before 2 h 30 min, and no wait is given up before it is due |
| RoomOwners.TimersTakenIff | server/src/room.cpp:39-118 | in every run a timer is taken exactly when it is due, was not taken before and is not cancelled: the age timer of a room that is not disposed, and the timer of a wait that no join has answered |
| GameLock.Exclusion | server/include/blueboat/game_lock.hpp:19-31 | in every run of guards, slots and mutex, the mutex belongs to exactly the thread inside a guard that is not waiting |
| GameLock.SlotIsTheGuard | server/include/blueboat/game_lock.hpp:12-31 | the slot is null exactly outside of every guard, and otherwise points to the thread's only guard |
| GameLock.NeverThrows | server/src/room.cpp:120-126 | `allow_reconnection` never unlocks a mutex it does not have and never locks one it has |
| GameLock.WaitRestores | server/src/room.cpp:120-126 | whatever other threads do meanwhile, a thread comes back from a wait to the guard and the slot it had |
| GameLock.SecondGuardBlocks | server/include/blueboat/game_lock.hpp:21-24 | a second guard on one thread is never entered before the first is left |
| GameLock.Guards.Construct | server/include/blueboat/game_lock.hpp:21-24 | locks, remembers the slot and points it to the new guard |
| GameLock.Guards.Destroy | server/include/blueboat/game_lock.hpp:25-32 | restores the slot, then gives up the mutex if it is owned |
| GameLock.Guards.UnlockCurrent | server/src/room.cpp:120-122 | unlocks the guard in the slot, or does nothing without one |
| GameLock.Guards.LockCurrent | server/src/room.cpp:124 | locks the same guard again |
| RoomLock.ServerFollowsGuards | server/include/blueboat/game_lock.hpp:19-31 | every run of the server is, seen from the lock, a run of guards |
| RoomLock.LockHeldIff | server/include/blueboat/game_lock.hpp:19-31 | derived from the guards: the lock is held by exactly the thread in the middle of a publish or shutdown, never by one that waits for a reconnection |
| RoomTheorems.ShutdownDisposesAll | server/src/server.cpp:153-168 | when shutdown has gone through its list, every room is disposed and empty, and no id is managed or listed |
| RoomExample.DropAndReturn | server/src/room.cpp:88-170 | a run in full: a client drops, its thread waits without the lock, the client is back under a new session, the answer is true and the room lives on |
| RoomWaits.NoWaitIsStuck | server/src/room.cpp:100-128 | in every run a waiting thread has its answer, or its timer is still to fire, or the scheduler is about to run it |
| RoomWaits.EmptyRoomIsAwaited | server/src/room.cpp:163-169 | a room that once had a client is for ever after inhabited, disposed, or waited for by a thread that will look at it again |
| RoomSessions.RemovesExactlyOne | server/src/room.cpp:155-170 | a removal takes out one entry of the session and none of another, whatever the hook does and even if it disposes the room |
| RoomSessions.StillThereIff | server/src/room.cpp:155-170 | a removal leaves the session in the room exactly when it was there more than once |
| RoomSessions.GoneAfterClose | server/src/server.cpp:309-313 | whatever happens while a close handler runs, once it has returned and ever after, every room holds at least one entry of the session less than when it began, or none |
| RoomSessions.GoneIfJoinedOnce | server/src/server.cpp:360-361 | hence a session is in no room that it joined at most once, when its close handler has returned and ever after |
| RoomDisconnect.CloseRemovesOneEach | server/src/memory_pubsub.cpp:25-34 | if hooks return at once and nothing else runs meanwhile, a close takes exactly one entry of its session from every room that holds one |
| RoomDisconnect.CloseLeavesNothingIff | server/src/server.cpp:309-313 | every continuation of a close, with any hooks, waits and interleavings, leaves the session in no room, if and only if it was in none more than once as the close began |
| RoomDisconnect.SecondEntryRemains | server/src/room.cpp:130-144 | from any reachable state a session that joins a room twice and closes leaves an entry behind |
| RoomMonitor.Conservation | server/src/room.cpp:130-170 | over every accepted log joins equal leaves plus what is there, session by session |
| RoomMonitor.OrderOfJoining | server/src/room.cpp:130-161 | over every accepted log the list is in the order of joining and every entry stems from one join |
| RoomMonitor.LeavesOnce | server/src/room.cpp:155-170 | no entry leaves twice |
| RoomMonitor.AnsweredOnce | server/src/room.cpp:96-118 | a wait is answered at most once, whichever of listener and timer comes first |
| RoomMonitor.AnswersAreTrue | server/src/room.cpp:100-118 | the answer is whether the client is present, and false means that nobody with the id came since |
| RoomMonitor.DisposedOnce | server/src/room.cpp:60-86 | the disposal hooks are called once, and nobody joins, leaves or begins to wait afterwards |
| RoomMonitor.NobodyLeftBehind | server/src/room.cpp:66-75 | all who joined have left before the first disposal hook, also sessions present several times |
| RoomTrace.DisposeTracks | server/src/room.cpp:60-86 | disposal is a piece of the protocol |
| RoomTrace.RemoveClientTracks | server/src/room.cpp:155-170 | a removal, with whatever its hook does, is a piece of the protocol |
| RoomTrace.AddClientTracks | server/src/room.cpp:130-153 | a join with its listeners is a piece of the protocol: exactly the waits for its id are answered, with true |
| RoomTrace.WaitTimeoutTracks | server/src/room.cpp:111-118 | a timer's answer is a piece of the protocol |
| RoomTables.DisposeAgrees | server/src/room.cpp:75-85 | disposal takes the room out of all tables together and touches no other room |
| RoomTables.CreateAgrees | server/src/server.cpp:202-251 | creation keeps the tables in step |
| RoomTables.PickedIsFree | server/src/server.cpp:208-225 | the id that creation settles on is not empty and belongs to no managed room |
| RoomTables.SameRooms | server/src/room_fetcher.cpp:11-35 | tables in step name the same rooms, as long as the timers are punctual |
| RoomRuns.NextKeepsInv | server/src/room.cpp:88-170 | every step of every thread keeps tables, protocol, timers and lock discipline |
| Rooms.Room.Initialize | server/src/room.cpp:18-45 | arms the timer and subscribes, or disposes the room when `on_create` throws |
| Rooms.Room.PubSubListener | server/src/room.cpp:172-226 | the two subscriptions, on the room's own channel and on the one for leaving players |
| Rooms.Room.Dispose | server/src/room.cpp:60-86 | in place, whatever the hooks do: everyone leaves in order, the tables lose the room and no other, once only |
| Rooms.Room.EveryoneLeaves | server/src/room.cpp:66-73 | the loop over the copied sessions empties the list in its order, even with repeated sessions |
| Rooms.Room.Close | server/src/room.cpp:75-85 | timer, record, both subscriptions and managed entry go, nothing else |
| Rooms.Room.RemoveClient | server/src/room.cpp:155-170 | the first entry of the session leaves; the room is disposed if it was the last and nobody waits |
| Rooms.Room.FinishRemoval | server/src/room.cpp:163-170 | what a removal does after its hook, or after a wait: dispose the room if it is empty |
| Rooms.Room.AllowReconnection | server/src/room.cpp:88-122 | registers listener and timer before the lock is given up; false at once while disposing |
| Rooms.Room.AddClient | server/src/room.cpp:130-144 | appends an entry, moves the owner's session, and calls the listeners |
| Rooms.Room.ClientHasJoined | server/src/room.cpp:146-153 | every listener present is called once, in order |
| Rooms.Room.JoinListener | server/src/room.cpp:100-109 | settles the wait for this id, cancels its timer, removes itself |
| Rooms.Room.WaitTimeout | server/src/room.cpp:111-118 | settles the wait by whether the client is in the list |
| Rooms.Room.Settle | server/src/room.cpp:103-117 | the promise is kept by whoever comes first, and only once |
| Rooms.Server.PickId | server/src/server.cpp:208-225 | the retry loop picks the first free non-empty candidate, or fails |
| Rooms.Server.CreateNewRoom | server/src/server.cpp:202-251 | the new room object, the tables and the error are those of the specification |
| Rooms.Server.OnRoomDisposed | server/src/server.cpp:200 | the managed map loses exactly that id |
| Rooms.Server.DisposeRooms | server/src/server.cpp:158-167 | shutdown empties the managed map, disposes every managed room and removes exactly their records |
| PubSub.SubscribeThenUnsubscribe | server/src/memory_pubsub.cpp:9-23 | unsubscribing undoes subscribing, down to the disappearance of an empty channel |
| PubSub.MemoryPubSub.On | server/src/memory_pubsub.cpp:9-11 | appends one listener to its channel and to no other |
| PubSub.MemoryPubSub.Off | server/src/memory_pubsub.cpp:12-22 | removes exactly the listener of the subscription |
| PubSub.MemoryPubSub.Snapshot | server/src/memory_pubsub.cpp:25-30 | the copy that publish goes through |
| Callbacks.RunsWhilePresent | common/include/blueboat/common/callback.hpp:29-64 | in every history a callback runs at each call between its addition and its removal, a once-only one at the first call only |
| Callbacks.CallsInOrder | common/include/blueboat/common/callback.hpp:37-44 | in every history each call runs its callbacks in the order in which they were added |
| Callbacks.Callback.Call | common/include/blueboat/common/callback.hpp:37-48 | the closures that run, in order, and the entries that are left |
| Callbacks.Callback.Remove | common/include/blueboat/common/callback.hpp:58-60 | the entries without the one of the subscription |
| MsgPackProofs.RoundTrip | common/src/msgpack_codec.cpp:9-97 | decoding an encoding gives the value back, non-negative integers as unsigned, if and only if every length in it is below 2^32 |
| MsgPackProofs.ConsumesExactlyTheEncoding | common/src/msgpack_codec.cpp:94-97 | whatever bytes follow an encoding, the reader takes exactly the encoding |
| MsgPackProofs.PrefixFree | common/src/msgpack_codec.cpp:87-97 | no encoding is a proper prefix of another, and equal encodings come from equal values |
| MsgPackProofs.DecodeIsCanonical | common/src/msgpack_codec.cpp:45-97 | for every byte string that decodes, with every format there is, the value encodes and decodes to itself |
| MsgPackProofs.LastEntryWins | common/src/msgpack_codec.cpp:69-77 | of map entries with one key the last counts, and a key that is no string reads as the empty one |
| MsgPackProofs.EncodeUnpack | common/src/msgpack_codec.cpp:9-43 | every encoding is read as the item it stands for, with its size |
| MsgPackProofs.DecodedIsClean | common/src/msgpack_codec.cpp:45-83 | decoding yields only values that survive encoding |
| MsgPackFormats.ReadIffAnnounced | common/src/msgpack_codec.cpp:45-97 | for every head and everything that may follow it: what the reader makes of it is what the table of the specification says, written out byte by byte |
| MsgPackFormats.EncodingIsShortest | common/src/msgpack_codec.cpp:9-43 | no bytes that are read as the same item are fewer than the encoding, for nested values too |
| MsgPackFormats.ScalarDecodes | common/src/msgpack_codec.cpp:45-57 | nil, truth values, integers of both signs and doubles in every format |
| MsgPackFormats.BytesDecode | common/src/msgpack_codec.cpp:58-61 | strings and binary data of every format are decoded as strings of the same bytes |
| MsgPackFormats.ExtensionDecodes | common/src/msgpack_codec.cpp:78-82 | an extension of every format is null once it is there in full, and malformed before |
| MsgPackFormats.ArrayDecodes | common/src/msgpack_codec.cpp:62-68 | an array behind a head of any of its formats |
| MsgPackFormats.ObjectDecodes | common/src/msgpack_codec.cpp:69-77 | an object behind a head of any of its formats |
| MsgPackFormats.AnyKey | common/src/msgpack_codec.cpp:73 | a key that is a string is kept, and any other becomes the empty string |
| MsgPackFormats.PairsInOrder | common/src/msgpack_codec.cpp:28-39 | elements in their order, every key in front of its value |
| MsgPackFloats.SinglesKeepTheirValue | common/src/msgpack_codec.cpp:55-57 | the bytes of a finite single are decoded as a double of the same sign and the same value, by a meaning of both defined apart |
| MsgPackFloats.InfinitiesAndNaNs | common/src/msgpack_codec.cpp:55-57 | an infinity stays one, and a NaN becomes quiet with its payload in front |
| Json.LessIff | common/src/msgpack_codec.cpp:33-38 | the order of keys: at the first difference the string that ends, or that has the smaller byte |
| MsgPack.UnsignedRead | common/src/msgpack_codec.cpp:18-19 | the shortest unsigned format, read back |
| MsgPack.SignedRead | common/src/msgpack_codec.cpp:20-21 | the shortest signed format, read back as unsigned when not negative |
| MsgPack.StrHeadRead | common/src/msgpack_codec.cpp:24-27 | the string format by length, read back |
| MsgPack.ArrayHeadRead | common/src/msgpack_codec.cpp:28-32 | the array format by count, read back |
| MsgPack.MapHeadRead | common/src/msgpack_codec.cpp:33-38 | the map format by count, read back |
| MsgPackCodec.Packer.PackJson | common/src/msgpack_codec.cpp:9-43 | the printer appends exactly the encoding to its buffer |
| MsgPackCodec.Packer.PackArray | common/src/msgpack_codec.cpp:28-32 | head and elements in order |
| MsgPackCodec.Packer.PackMap | common/src/msgpack_codec.cpp:33-39 | head, keys and values in the order of the keys |
| MsgPackCodec.EncodeMsgPack | common/src/msgpack_codec.cpp:87-92 | the bytes of the encoding |
| MsgPackCodec.UnpackObject | common/src/msgpack_codec.cpp:45-83 | the value of an item, type by type |
| MsgPackCodec.UnpackMapEntries | common/src/msgpack_codec.cpp:69-77 | the loop of assignments into the object |
| MsgPackCodec.DecodeMsgPack | common/src/msgpack_codec.cpp:94-97 | the value, or the exception on malformed input |
| SioProtocol.FrameRoundTrip | common/src/sio_protocol.cpp:20-67 | parsing a built frame gives the event with its name and normalised data, if and only if the lengths are below 2^32 |
| SioProtocol.NothingElseBecomesNull | common/src/sio_protocol.cpp:23-25 | leaving out a null payload loses nothing: only null, and binary data, comes back as null |
| SioProtocol.EmptyPayloadsPreserved | common/src/sio_protocol.cpp:23-25 | false, 0, the empty string and empty containers come back as themselves |
| SioFrames.FrameOnTheWire | common/src/sio_protocol.cpp:20-34 | the byte 4 and a packet of "data", "nsp" with "/" and "type" with 2 |
| SioFrames.EventIff | common/src/sio_protocol.cpp:42-64 | exactly which payloads are events, of which name and data: the byte 4, an object with a "type" of 2 or 5 as an integer of 32 bits or the whole part of a double, and "data" that begins with a string |
| SioFrames.RaisesIff | common/src/sio_protocol.cpp:55 | parsing raises exactly if there is a "type" that is neither a number nor a truth value |
| SioProtocol.BuildEventFrame | common/src/sio_protocol.cpp:20-34 | the frame's bytes, with its fields in key order |
| SioProtocol.ParseFrame | common/src/sio_protocol.cpp:36-67 | every malformed frame is no event, and a "type" that is no number is an exception |
| Scheduler.FirstMinIsFirst | common/src/scheduler.cpp:49 | the task picked is due earliest, and the first of those |
| Scheduler.Impl.RunLocked | common/src/scheduler.cpp:41-63 | what the worker does under one hold of the mutex: drops, then a call, a sleep or its end |
| Scheduler.Impl.SetTimeout | common/src/scheduler.cpp:78-86 | one task more at the end of the list |
| Scheduler.Impl.Clear | common/include/blueboat/common/scheduler.hpp:15-19 | the task is marked as cancelled, and nothing else changes |
| SchedulerRuns.PopsInOrder | common/src/scheduler.cpp:41-67 | in every run tasks are popped by due time, equally due ones as they were set, none before it is due |
| SchedulerRuns.ExactlyOnePlace | common/src/scheduler.cpp:56-86 | every task ever set is in exactly one place: pending, run once, or dropped as cancelled |
| SchedulerRuns.NoLostWakeUp | common/src/scheduler.cpp:30-54 | a worker that sleeps although it should act or stop is still owed a notification, which wakes it |
| SchedulerRuns.SleepsUntilEarliest | common/src/scheduler.cpp:43-54 | in every run a worker that sleeps and is owed no notification sleeps until the earliest due time, or for ever with nothing to do |
| SchedulerDues.NeverBeforeItsDelay | common/src/scheduler.cpp:78-86 | in every run a task is taken out no earlier than its delay after it was set |
| SchedulerDues.StopsIff | common/src/scheduler.cpp:32-43 | a pass ends the worker exactly if the destructor has asked for it, and then takes nothing more |
| SchedulerRuns.CancelledNeverRuns | common/src/scheduler.cpp:59-61 | a task cancelled while pending is never run |
| SchedulerRuns.PassesAreSteps | common/src/scheduler.cpp:43-64 | the loop under one hold of the mutex, with a clock that moves on, is a sequence of steps of the run, and what it drops is not run |
| TimedMap.GetRefines | server/src/memory_storage.cpp:9-49 | at any later time the answer of get is the last write not yet expired; purging never shows |
| TimedMap.FetchRefines | server/src/memory_storage.cpp:35-49 | a listing holds an id exactly when the last write under prefix and id is not expired |
| TimedMap.HeldIsLastWrite | server/src/memory_storage.cpp:20-33 | what the store still holds is the last write itself |
| TimedMap.FetchKeysIsFetchOp | server/src/memory_storage.cpp:38-42 | whatever the loop purged, it is one of the listings the refinement covers |
| Storage.MemoryStorage.Get | server/src/memory_storage.cpp:11-18 | the value until its expiry, the very millisecond included |
| Storage.MemoryStorage.Set | server/src/memory_storage.cpp:20-28 | the value and its expiry three hours on, or none |
| Storage.MemoryStorage.FetchKeys | server/src/memory_storage.cpp:35-49 | with the clock read anew for each entry: only expired entries go; each unexpired key with the prefix is listed once, without it |
| RoomFetcher.ListedIffFound | server/src/room_fetcher.cpp:11-35 | at one time an id is listed exactly when its record can be read |
| RoomFetcher.PurgingKeepsRooms | server/src/room_fetcher.cpp:11 | listing changes nothing that is found later |
| RoomFetcher.MetadataUpdate | server/src/room_fetcher.cpp:37-41 | an update changes the metadata of that room, makes it last three hours from then and no longer, and touches no other room |
| RoomFetcher.RoomFetcher.GetListOfRooms | server/src/room_fetcher.cpp:11 | with the clock read for each entry: every id unexpired throughout is listed once, none that was expired at the start, and only expired records go |
| RoomFetcher.RoomFetcher.FindRoomById | server/src/room_fetcher.cpp:29-35 | the record, or which error |
| RoomFetcher.RoomFetcher.SetRoomMetadata | server/src/room_fetcher.cpp:37-41 | the rewritten record, or no effect |
| Http.HeadIsShortest | common/src/http.cpp:13-27 | the head is the shortest prefix that ends in an empty line, of at most 64 KiB |
| HttpGrammar.HeadEndsAt | common/src/http.cpp:13-27 | the first CR LF CR LF ends the head, within 65536 bytes |
| HttpGrammar.LinesJoin | common/src/http.cpp:50-76 | the lines hold no line feed, and joined they are the text |
| HttpGrammar.WordsBetweenWhite | common/src/http.cpp:58-64 | the words of the request line are what stands between white space |
| HttpGrammar.LineSets | common/src/http.cpp:76-88 | a line sets its name in lower case to what follows the first colon, trimmed |
| HttpGrammar.LineSaysNothing | common/src/http.cpp:79-86 | a line without a colon is skipped |
| HttpGrammar.TrimCuts | common/src/http.cpp:34-41 | blanks around a value are cut off, and nothing else |
| HttpGrammar.LengthIsRead | common/src/http.cpp:92-97 | white space, a sign, digits and anything after them: the number, counted down from 2^64 after a minus sign, or an exception beyond 64 bits |
| HttpGrammar.NoLengthIsRead | common/src/http.cpp:95-97 | without a digit there is no number |
| HttpGrammar.RequestReadBack | common/src/http.cpp:44-113 | from the bytes of a request, in numbers: verb, path, query, every field by its last value and without regard to case, the body of the declared length, and how much is consumed |
| Http.RequestIsFramed | common/src/http.cpp:90-112 | a request takes its head and exactly Content-Length bytes more, at most 8 MiB |
| Http.RequestIsPrefixFree | common/src/http.cpp:44-113 | what follows a request has no effect on it, and no shorter prefix is a request |
| Http.ReadUntilDoubleCrlf | common/src/http.cpp:13-27 | for every sequence of piece sizes: the head and nothing after it, or nothing |
| Http.ReadBody | common/src/http.cpp:101-109 | for every sequence of piece sizes: exactly that many bytes, or none when the stream ends |
| Http.ReadFields | common/src/http.cpp:75-88 | the header map, line by line |
| Http.ReadRequest | common/src/http.cpp:44-113 | for every sequence of piece sizes the result and the bytes consumed depend on the stream alone |
| Http.WriteAll | common/src/http.cpp:144-152 | for every sequence of piece sizes all bytes in order, or what the connection took before it failed |
| HttpMessages.RequestRoundTrip | common/src/http.cpp:44-113 | a request written by the grammar is read back part by part, whatever follows it |
| HttpMessages.ResponseIsFramed | common/src/http.cpp:130-142 | a response without line breaks in its parts ends its head once, where its body begins, and declares the body's length |
| HttpMessages.LengthRoundTrip | common/src/http.cpp:94 | a written length is read back |
| HttpResponses.ResponseReadBack | common/src/http.cpp:130-142 | a reader of its own finds HTTP/1.1, the status in decimal and the reason on the first line, the content type, the length, "close" and every extra field, and the body behind the head |
| HttpMessages.WriteResponse | common/src/http.cpp:130-153 | the rendered response, in order |
| Base64.RoundTrip | server/src/server.cpp:62-81 | decoding undoes encoding for every length; the padding taken off is the padding put on |
| Base64.EncodedLengthIs | common/src/ws_handshake.cpp:15 | the encoding has four characters for every three bytes begun |
| Base64.PaddingOf | server/src/server.cpp:72-79 | the pad characters at the end are the bytes missing from the last group |
| Base64Digits.CharactersStand | common/src/ws_handshake.cpp:13-19 | which character of A-Z, a-z, 0-9, + and / stands where, by the bits of its bytes, and where the = stand |
| Base64Digits.BytesStand | server/src/server.cpp:62-71 | which byte stands where, by the digits of its characters |
| Base64Digits.DecodesIff | server/src/server.cpp:68-71 | decoding gives up exactly at a character that is neither a letter of the alphabet nor = |
| Base64Digits.PadsAreTakenOff | server/src/server.cpp:62-81 | nothing for other lengths or foreign characters, else the bytes without one for each = in the last two places |
| Base64.EvpEncodeBlock | common/src/ws_handshake.cpp:16 | fills the buffer in place with text and NUL, within the size that is asked for |
| Base64.Base64Encode | common/src/ws_handshake.cpp:13-19 | the buffer is large enough for every length, and cut to the text |
| Base64.EvpDecodeBlock | server/src/server.cpp:68 | three bytes for every four characters, or -1 |
| Base64.Base64Decode | server/src/server.cpp:62-81 | the decoded text, or nothing |
| BasicAuth.CheckBasicAuth | server/src/server.cpp:417-434 | accepts exactly what the specification accepts |
| BasicAuth.AcceptedIffKnown | server/src/server.cpp:417-434 | with any admins, a user without colon and any password: accepted exactly when the table maps one to the other |
| BasicAuth.AcceptsIff | server/src/server.cpp:417-434 | without admins everybody; otherwise exactly those whose header is "Basic " and base64 of a user without colon, a colon and the password of the table |
| BasicAuth.CanLogInIff | server/src/server.cpp:426-433 | an admin can log in with some header if and only if the name holds no colon |
| BasicAuth.LogInOverTheWire | server/src/server.cpp:436-445 | from the bytes of a request to the decision, whatever else is on the stream |
| ClientRuns.NoRoomTwiceNoneLost | client/src/client.cpp:105-125 | in every run `rooms_` holds no two rooms with one id and loses no room |
| ClientRuns.AnsweredAtMostOnce | client/src/client.cpp:127-155 | in every run a create request is answered at most once, by one of its two handlers, even when ids repeat |
| ClientJoins.CreatedRoomIsJoined | client/src/client.cpp:127-155 | in every continuation of the answer to a create request the request is answered and the object has the id; the manager is joining that room until it lists it, and then the list holds the id for good |
| ClientJoins.CreatedRoomIsAskedFor | client/src/client.cpp:105-143 | when the manager lists the created room it has sent exactly one join frame for it, or none if the object is marked as joined |
| ClientJoins.JoinSendsAndLists | client/src/client.cpp:105-125 | every join of any thread, whatever the others do: its one frame is sent exactly if the connection stands and the room is not marked as joined, and the list holds the id for good |
| ClientJoins.CreateAsks | client/src/client.cpp:127-153 | the frame of a create request, and its two handlers, which are new |
| ClientJoins.AnswerNames | client/src/client.cpp:132-143 | what the answer does before the join: the object's id, the room's two handlers, and neither of the request's |
| ClientJoins.FailureAnswers | client/src/client.cpp:145-150 | the error takes both handlers of the request away and does nothing else |
| ClientJoins.MessageMarks | client/src/client.cpp:85-102 | a room is marked by the server's two messages and no other, and only the room whose handler hears it |
| ClientRuns.NextKeepsInv | client/src/client.cpp:82-208 | every step of the manager and of the program's threads keeps the bookkeeping |
| ClientRejoin.IdEventSends | client/src/client.cpp:159-177 | the id event sends one join frame, in order, for each listed room with an id that is not marked as joined, and no other, whatever other threads do meanwhile |
| ClientRejoin.OutAfterDropIff | client/src/client.cpp:299-308 | after a drop every listed room with an id is marked as out, and stays so until the next event, if and only if no thread was joining a room already let in |
| ClientRejoin.AsksForAllIff | client/src/client.cpp:159-177 | the id event sends exactly one join frame for every listed room with an id, if and only if all of them are out |
| ClientRejoin.ReconnectRejoinsAllIff | client/src/client.cpp:159-177 | after a drop, in every continuation the next id event sends exactly one join frame for every listed room with an id, if and only if no thread was joining a room already let in |
| ClientRejoin.RejoinCompletes | client/src/client.cpp:170-174 | the loop over the rooms can always be gone through to its end |
| ClientRejoin.ForgottenRoom | client/src/client.cpp:112-123 | a run in which it fails: a listed room for which no id event asks |
| Clients.Client.CreateRoom | client/src/client.cpp:127-155 | both handlers of the request, and its frame |
| Clients.Client.RegisterRoomEvents | client/src/client.cpp:82-103 | the two handlers of the room's id |
| Clients.Client.JoinRoomShared | client/src/client.cpp:105-125 | a frame unless joined, and a listing unless the id is listed |
| Clients.Client.HandleClientIdSet | client/src/client.cpp:159-177 | the new id is kept, and the loop sends exactly the frames that are needed and changes nothing else |
| Clients.Client.HandleEvent | client/src/client.cpp:192-208 | the handler found does its part of the bookkeeping, with the join that follows a creation |
| Clients.Client.Disconnected | client/src/client.cpp:290-308 | every listed room is out |

## Left out

- RoomDisconnect.CloseRemovesOneEach: speaks of one continuation, and is the witness for the converse of CloseLeavesNothingIff; what holds of every continuation is RoomSessions.GoneAfterClose, as other threads may take more entries.
- Base64.EvpDecodeBlock: the library routine also skips white space at the ends of its input; here such text is not base64.
- Base64.Base64Encode: lengths are unbounded integers; a length that overflows a 32-bit int is not modelled.
- Clients.Client.JoinRoomShared: as methods, this and the other methods of the class run without other threads; the interleavings are those of the step system of the client.
- SioProtocol.ParseFrame: the text branches and the open, acknowledge and disconnect frames, which need the JSON text library.
- Http.ReadRequest: `parse_query` and the header map's use by the caller; a read that fails in the middle of the stream is the end of the stream.
- HttpMessages.WriteResponse: a status is a natural number; the source passes an int and calls it with 200 to 500 only.
- Rooms.Room.AddClient: origin and address of a client, and join options.
- Rooms.Room.ClientHasJoined: the frame to the client, and what the hook `on_join` does.
- Rooms.Room.RemoveClient: the frame to the client, and the listeners of `on_leave_listeners`, which run before the hook.
- Callbacks.Callback.Call: a listener that removes itself or another while the call is running; the call goes through the entries present at its start.
- Clients.Client.HandleClientIdSet: the calls to the program's own handlers.
- Rooms.Room.PubSubListener: the branches for room information and external messages, and handlers of game messages, which do not change what is modelled.
- Listing rooms with their data (`get_list_of_rooms_with_data`), which only reads the records that are listed.
- The lock on the server's connection table, activity stamps, pings and admin routes.
- Sockets, TLS, accept loops, SHA-1, the WebSocket framing library and `ws_connection.cpp`.
- Arithmetic of floating point: a double is its 64 bits; a single is widened bit by bit, as the processor does it, a signalling NaN becoming quiet. A "type" outside the range of int is no event type.
- JSON text: stored room records are values, and a record that does not parse is `Raw`.
- Generation of random ids, the back-off delay, the host's clock and the order in which the maps of the C++ library iterate.
- `GameValues`, metadata beyond an opaque text, and the example programs.
