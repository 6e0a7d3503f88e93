/**
 The expiring in-memory store. Times are milliseconds of the steady clock, handed in where
 the source reads the clock.
 */
module Storage {
  import opened Wrappers

  const THREE_HOURS: int := 10_800_000

  datatype SimpleClient = SimpleClient(id: string, sessionId: string, origin: string, ip: string)

  /** A room record; its metadata is an opaque text. */
  datatype RoomSnapshot = RoomSnapshot(id: string, kind: string, owner: SimpleClient, metadata: string, createdAt: int)

  datatype Stored =
    | Snapshot(room: RoomSnapshot)
    | Raw(text: string)

  datatype Entry = Entry(value: Stored, expiresAt: Option<int>)

  type Table = map<string, Entry>

  /** An entry still counts at the very millisecond of its expiry. */
  predicate Expired(e: Entry, now: int) {
    e.expiresAt.Some? && now > e.expiresAt.value
  }

  function NewEntry(value: Stored, noExpiration: bool, now: int): Entry {
    Entry(value, if noExpiration then None else Some(now + THREE_HOURS))
  }

  function Visible(e: Option<Entry>, now: int): Option<Stored> {
    if e.Some? && !Expired(e.value, now) then Some(e.value.value) else None
  }

  function Find(t: Table, key: string): Option<Entry> {
    if key in t then Some(t[key]) else None
  }

  /** What is left when everything expired is dropped. */
  function Live(t: Table, now: int): Table {
    map k | k in t && !Expired(t[k], now) :: t[k]
  }

  predicate HasPrefix(key: string, prefix: string) {
    prefix <= key
  }

  /** The keys with a prefix, without it. */
  function Suffixes(t: Table, prefix: string): set<string> {
    set k | k in t && HasPrefix(k, prefix) :: k[|prefix|..]
  }

  lemma SuffixOf(t: Table, prefix: string, id: string)
    ensures id in Suffixes(t, prefix) <==> prefix + id in t
  {
    if prefix + id in t {
      assert HasPrefix(prefix + id, prefix) && (prefix + id)[|prefix|..] == id;
    }
    if id in Suffixes(t, prefix) {
      var k :| k in t && HasPrefix(k, prefix) && k[|prefix|..] == id;
      assert k == prefix + id;
    }
  }

  ghost predicate Monotone(clock: nat -> int) {
    forall i: nat, j: nat :: i <= j ==> clock(i) <= clock(j)
  }

  class MemoryStorage {
    var entries: Table

    constructor ()
      ensures entries == map[]
    {
      entries := map[];
    }

    method Get(key: string, now: int) returns (r: Option<Stored>)
      ensures r == Visible(Find(entries, key), now)
    {
      if key !in entries || Expired(entries[key], now) {
        return None;
      }
      return Some(entries[key].value);
    }

    method Set(key: string, value: Stored, noExpiration: bool, now: int)
      modifies this
      ensures entries == old(entries)[key := NewEntry(value, noExpiration, now)]
    {
      var entry := Entry(value, None);
      if !noExpiration {
        entry := entry.(expiresAt := Some(now + THREE_HOURS));
      }
      entries := entries[key := entry];
    }

    method Remove(key: string)
      modifies this
      ensures entries == old(entries) - {key}
    {
      entries := entries - {key};
    }

    /**
     Lists the keys with the prefix and purges on the way. The clock is read once for each
     entry, so a key that expires during the loop may or may not be listed. The order of the
     map is arbitrary.
     */
    method FetchKeys(prefix: string, clock: nat -> int) returns (result: seq<string>)
      requires Monotone(clock)
      modifies this
      ensures entries.Keys <= old(entries).Keys && forall k :: k in entries ==> entries[k] == old(entries)[k]
      ensures forall k :: k in old(entries) && k !in entries ==> Expired(old(entries)[k], clock(|old(entries)|))
      ensures forall i, j :: 0 <= i < j < |result| ==> result[i] != result[j]
      ensures forall id :: id in result ==> id in Suffixes(Live(old(entries), clock(0)), prefix)
      ensures forall id :: id in Suffixes(Live(old(entries), clock(|old(entries)|)), prefix) ==> id in result
      ensures clock(0) == clock(|old(entries)|) ==> entries == Live(old(entries), clock(0))
    {
      result := [];
      var todo := entries.Keys;
      var n := 0;
      while todo != {}
        invariant todo <= entries.Keys <= old(entries).Keys
        invariant forall k :: k in entries ==> entries[k] == old(entries)[k]
        invariant n + |todo| == |old(entries)|
        invariant forall k :: k in old(entries) && k !in entries ==> Expired(old(entries)[k], clock(|old(entries)|))
        invariant forall k :: k in entries && k !in todo ==> !Expired(entries[k], clock(0))
        invariant forall i, j :: 0 <= i < j < |result| ==> result[i] != result[j]
        invariant forall id :: id in result ==> prefix + id in entries && prefix + id !in todo
        invariant forall k :: k in entries && k !in todo && HasPrefix(k, prefix) ==> k[|prefix|..] in result
        decreases |todo|
      {
        var k :| k in todo;
        todo := todo - {k};
        if Expired(entries[k], clock(n)) {
          entries := entries - {k};
        } else if HasPrefix(k, prefix) {
          assert k == prefix + k[|prefix|..];
          assert forall id :: id in result ==> prefix + id != k;
          result := result + [k[|prefix|..]];
        }
        n := n + 1;
      }
      forall id | id in result
        ensures id in Suffixes(Live(old(entries), clock(0)), prefix)
      {
        SuffixOf(Live(old(entries), clock(0)), prefix, id);
      }
    }
  }
}
