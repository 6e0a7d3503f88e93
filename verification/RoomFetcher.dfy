/** The room index: one record in the store for each room, under "room:" and its id. */
module RoomFetcher {
  import opened Wrappers
  import opened Storage

  const ROOM_PREFIX: string := "room:"

  datatype FetchError = NoData | BadRecord

  function RoomKey(id: string): string {
    ROOM_PREFIX + id
  }

  lemma RoomKeyInjective(a: string, b: string)
    ensures RoomKey(a) == RoomKey(b) <==> a == b
  {
    assert RoomKey(a)[|ROOM_PREFIX|..] == a && RoomKey(b)[|ROOM_PREFIX|..] == b;
  }

  function FindRoom(t: Table, id: string, now: int): Result<RoomSnapshot, FetchError> {
    match Visible(Find(t, RoomKey(id)), now)
    case None => Err(NoData)
    case Some(Raw(_)) => Err(BadRecord)
    case Some(Snapshot(room)) => Ok(room)
  }

  /** The ids listed at one time. */
  function ListedRooms(t: Table, now: int): set<string> {
    Suffixes(Live(t, now), ROOM_PREFIX)
  }

  function WithMetadata(t: Table, id: string, metadata: string, readAt: int, writeAt: int): Table {
    match FindRoom(t, id, readAt)
    case Err(_) => t
    case Ok(room) => t[RoomKey(room.id) := NewEntry(Snapshot(room.(metadata := metadata)), false, writeAt)]
  }

  /** At a fixed time an id is listed exactly when its record can be read. */
  lemma ListedIffFound(t: Table, id: string, now: int)
    ensures id in ListedRooms(t, now) <==> Visible(Find(t, "room:" + id), now).Some?
    ensures FindRoom(t, id, now).Ok? <==> exists room :: Visible(Find(t, "room:" + id), now) == Some(Snapshot(room))
    ensures FindRoom(t, id, now) == Err(NoData) <==> Visible(Find(t, "room:" + id), now).None?
  {
    SuffixOf(Live(t, now), ROOM_PREFIX, id);
  }

  /** Listing first changes nothing that is later found. */
  lemma PurgingKeepsRooms(t: Table, id: string, now: int, later: int)
    requires now <= later
    ensures FindRoom(Live(t, now), id, later) == FindRoom(t, id, later)
  {
  }

  /** Every room record sits under the key of the id it holds. */
  ghost predicate KeysMatch(t: Table) {
    forall id :: RoomKey(id) in t ==> t[RoomKey(id)].value.Snapshot? && t[RoomKey(id)].value.room.id == id
  }

  /**
   A metadata update of a room that is found changes that room's metadata and renews its
   three hours; it does not touch any other room and fails without effect otherwise.
   */
  lemma MetadataUpdate(t: Table, id: string, metadata: string, readAt: int, writeAt: int, other: string, now: int)
    requires KeysMatch(t) && readAt <= writeAt <= now
    ensures KeysMatch(WithMetadata(t, id, metadata, readAt, writeAt))
    ensures FindRoom(t, id, readAt).Ok? ==>
      FindRoom(WithMetadata(t, id, metadata, readAt, writeAt), id, now)
      == if now <= writeAt + 10_800_000 then Ok(FindRoom(t, id, readAt).value.(metadata := metadata)) else Err(NoData)
    ensures other != id || FindRoom(t, id, readAt).Err? ==>
      FindRoom(WithMetadata(t, id, metadata, readAt, writeAt), other, now) == FindRoom(t, other, now)
  {
    if FindRoom(t, id, readAt).Ok? {
      RoomKeyInjective(id, other);
      forall x ensures RoomKey(x) == RoomKey(id) <==> x == id {
        RoomKeyInjective(x, id);
      }
    }
  }

  class RoomFetcher {
    const storage: MemoryStorage

    constructor (storage: MemoryStorage)
      ensures this.storage == storage
    {
      this.storage := storage;
    }

    /** The clock is read once for each entry, as in fetch_keys. */
    method GetListOfRooms(clock: nat -> int) returns (ids: seq<string>)
      requires Monotone(clock)
      modifies storage
      ensures forall id :: id in ids ==> id in ListedRooms(old(storage.entries), clock(0))
      ensures forall id :: id in ListedRooms(old(storage.entries), clock(|old(storage.entries)|)) ==> id in ids
      ensures forall i, j :: 0 <= i < j < |ids| ==> ids[i] != ids[j]
      ensures storage.entries.Keys <= old(storage.entries).Keys
      ensures forall k :: k in storage.entries ==> storage.entries[k] == old(storage.entries)[k]
      ensures forall k :: k in old(storage.entries) && k !in storage.entries ==>
        Expired(old(storage.entries)[k], clock(|old(storage.entries)|))
      ensures clock(0) == clock(|old(storage.entries)|) ==> storage.entries == Live(old(storage.entries), clock(0))
    {
      ids := storage.FetchKeys(ROOM_PREFIX, clock);
    }

    method FindRoomById(id: string, now: int) returns (r: Result<RoomSnapshot, FetchError>)
      ensures r == FindRoom(storage.entries, id, now)
    {
      var raw := storage.Get(RoomKey(id), now);
      if raw.None? {
        return Err(NoData);
      }
      if raw.value.Raw? {
        return Err(BadRecord);
      }
      return Ok(raw.value.room);
    }

    method SetRoomMetadata(id: string, metadata: string, readAt: int, writeAt: int)
      returns (r: Result<(), FetchError>)
      modifies storage
      ensures storage.entries == WithMetadata(old(storage.entries), id, metadata, readAt, writeAt)
      ensures r.Ok? <==> FindRoom(old(storage.entries), id, readAt).Ok?
    {
      var found := FindRoomById(id, readAt);
      if found.Err? {
        return Err(found.error);
      }
      var room := found.value;
      room := room.(metadata := metadata);
      storage.Set(RoomKey(room.id), Snapshot(room), false, writeAt);
      return Ok(());
    }

    method AddRoom(room: RoomSnapshot, now: int)
      modifies storage
      ensures storage.entries == old(storage.entries)[RoomKey(room.id) := NewEntry(Snapshot(room), false, now)]
    {
      storage.Set(RoomKey(room.id), Snapshot(room), false, now);
    }

    method RemoveRoom(id: string)
      modifies storage
      ensures storage.entries == old(storage.entries) - {RoomKey(id)}
    {
      storage.Remove(RoomKey(id));
    }
  }
}
