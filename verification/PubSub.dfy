/** The in-process pub/sub: listeners by channel, in the order in which they subscribed. */
module PubSub {
  import opened Sequences
  import opened Wrappers

  /** A listener's closure, by the room object it captures. */
  datatype Handler =
    | GameMessages(room: nat)
    | PlayerLeft(room: nat)

  datatype Listener = Listener(id: nat, handler: Handler)

  type Listeners = map<string, seq<Listener>>

  datatype Subscription = Subscription(key: string, id: nat)

  function Listening(ls: Listeners, key: string): seq<Listener> {
    if key in ls then ls[key] else []
  }

  function Subscribe(ls: Listeners, key: string, l: Listener): Listeners {
    ls[key := Listening(ls, key) + [l]]
  }

  function IdOf(l: Listener): nat {
    l.id
  }

  function WithoutId(list: seq<Listener>, id: nat): seq<Listener> {
    WithoutKey(list, IdOf, id)
  }

  /** A channel without listeners disappears. */
  function Unsubscribe(ls: Listeners, key: string, id: nat): Listeners {
    if key !in ls then ls
    else
      var rest := WithoutId(ls[key], id);
      if rest == [] then ls - {key} else ls[key := rest]
  }

  /** unsubscribe() of a handle that may be empty. */
  function UnsubscribeAll(ls: Listeners, sub: Option<Subscription>): Listeners {
    match sub
    case None => ls
    case Some(Subscription(key, id)) => Unsubscribe(ls, key, id)
  }

  predicate Distinct(list: seq<Listener>) {
    forall i, j :: 0 <= i < j < |list| ==> list[i].id != list[j].id
  }

  lemma {:induction false} WithoutIdDistinct(list: seq<Listener>, id: nat)
    requires Distinct(list)
    ensures Distinct(WithoutId(list, id))
  {
    if list == [] {
    } else {
      assert Distinct(list[1..]);
      WithoutIdDistinct(list[1..], id);
      WithoutKeyMembers(list[1..], IdOf, id);
      var rest := WithoutId(list[1..], id);
      forall j | 0 <= j < |rest| ensures rest[j].id != list[0].id {
        assert rest[j] in rest && rest[j] in list[1..];
      }
    }
  }

  lemma WithoutIdMembers(list: seq<Listener>, id: nat)
    ensures forall l :: l in WithoutId(list, id) <==> l in list && l.id != id
    ensures Distinct(list) ==> Distinct(WithoutId(list, id))
  {
    WithoutKeyMembers(list, IdOf, id);
    if Distinct(list) {
      WithoutIdDistinct(list, id);
    }
  }

  /** A subscription with a fresh id is undone by its unsubscription. */
  lemma SubscribeThenUnsubscribe(ls: Listeners, key: string, l: Listener)
    requires forall k | k in ls :: ls[k] != []
    requires forall m | m in Listening(ls, key) :: m.id != l.id
    ensures Unsubscribe(Subscribe(ls, key, l), key, l.id) == ls
  {
    WithoutKeyAppend(Listening(ls, key), [l], IdOf, l.id);
    WithoutAbsentKey(Listening(ls, key), IdOf, l.id);
    assert WithoutId([l], l.id) == [];
    assert Listening(ls, key) + [] == Listening(ls, key);
  }

  /** A new listener comes last on its channel, and no other channel changes. */
  lemma SubscribesLast(ls: Listeners, key: string, l: Listener, other: string)
    ensures Listening(Subscribe(ls, key, l), key) == Listening(ls, key) + [l]
    ensures other != key ==> Listening(Subscribe(ls, key, l), other) == Listening(ls, other)
    ensures other in Subscribe(ls, key, l) <==> other in ls || other == key
  {
  }

  class MemoryPubSub {
    var listeners: Listeners
    var nextId: nat

    constructor ()
      ensures listeners == map[] && nextId == 0
    {
      listeners, nextId := map[], 0;
    }

    method On(key: string, handler: Handler) returns (sub: Subscription)
      modifies this
      ensures sub == Subscription(key, old(nextId)) && nextId == old(nextId) + 1
      ensures listeners == Subscribe(old(listeners), key, Listener(old(nextId), handler))
    {
      var id := nextId;
      nextId := nextId + 1;
      if key !in listeners {
        listeners := listeners[key := []];
      }
      listeners := listeners[key := listeners[key] + [Listener(id, handler)]];
      sub := Subscription(key, id);
    }

    method Off(sub: Subscription)
      modifies this`listeners
      ensures listeners == Unsubscribe(old(listeners), sub.key, sub.id)
    {
      if sub.key !in listeners {
        return;
      }
      var list := listeners[sub.key];
      var kept: seq<Listener> := [];
      for i := 0 to |list|
        invariant kept + WithoutId(list[i..], sub.id) == WithoutId(list, sub.id)
      {
        assert list[i..][1..] == list[i + 1..];
        if list[i].id != sub.id {
          kept := kept + [list[i]];
        }
      }
      assert kept == WithoutId(list, sub.id) by {
        assert kept + [] == kept;
      }
      if kept == [] {
        listeners := listeners - {sub.key};
      } else {
        listeners := listeners[sub.key := kept];
      }
    }

    /** The copy of the list that publish() goes through. */
    method Snapshot(key: string) returns (list: seq<Listener>)
      ensures list == Listening(listeners, key)
    {
      if key !in listeners {
        return [];
      }
      return listeners[key];
    }
  }
}
