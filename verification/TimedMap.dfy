/**
 The store against a map defined by its history alone: what a key holds is the last value
 written to it, until three hours have gone by. Purging is invisible.
 */
module TimedMap {
  import opened Wrappers
  import opened Storage

  /** A listing drops whichever of the expired entries are in `purged`. */
  datatype Op =
    | GetOp(key: string)
    | SetOp(key: string, value: Stored, noExpiration: bool)
    | RemoveOp(key: string)
    | FetchOp(prefix: string, purged: set<string>)

  datatype Timed = Timed(op: Op, at: int)

  /** The table of the store after one operation. */
  function Perform(t: Table, op: Op, at: int): Table {
    match op
    case GetOp(_) => t
    case SetOp(key, value, noExpiration) => t[key := NewEntry(value, noExpiration, at)]
    case RemoveOp(key) => t - {key}
    case FetchOp(_, purged) => map k | k in t && !(k in purged && Expired(t[k], at)) :: t[k]
  }

  function After(history: seq<Timed>): Table {
    if history == [] then map[]
    else
      var last := history[|history| - 1];
      Perform(After(history[..|history| - 1]), last.op, last.at)
  }

  /** A write as its caller made it. */
  datatype Write = Write(value: Stored, forever: bool, at: int)

  /** The specification: the last write to a key, never purged. */
  function LastWrite(history: seq<Timed>, key: string): Option<Write> {
    if history == [] then None
    else
      var last := history[|history| - 1];
      match last.op
      case SetOp(k, value, noExpiration) =>
        if k == key then Some(Write(value, noExpiration, last.at)) else LastWrite(history[..|history| - 1], key)
      case RemoveOp(k) => if k == key then None else LastWrite(history[..|history| - 1], key)
      case _ => LastWrite(history[..|history| - 1], key)
  }

  /** A value counts for three hours, the last millisecond included, or for ever. */
  function Answer(w: Option<Write>, now: int): Option<Stored> {
    if w.Some? && (w.value.forever || now <= w.value.at + 10_800_000) then Some(w.value.value) else None
  }

  /** The entry that the store keeps for a write. */
  predicate Keeps(e: Entry, w: Write) {
    e.value == w.value && e.expiresAt == if w.forever then None else Some(w.at + 10_800_000)
  }

  /** The clock never runs backwards. */
  predicate InOrder(history: seq<Timed>, now: int) {
    history == [] ||
    (history[|history| - 1].at <= now && InOrder(history[..|history| - 1], history[|history| - 1].at))
  }

  /** What the table still holds is the last write itself. */
  lemma {:induction false} HeldIsLastWrite(history: seq<Timed>, key: string)
    ensures Find(After(history), key).Some? ==>
      LastWrite(history, key).Some? && Keeps(Find(After(history), key).value, LastWrite(history, key).value)
  {
    if history == [] {
    } else {
      HeldIsLastWrite(history[..|history| - 1], key);
    }
  }

  /** Every answer of get, at any later time, is the answer of the specification. */
  lemma {:induction false} GetRefines(history: seq<Timed>, key: string, now: int)
    requires InOrder(history, now)
    ensures Visible(Find(After(history), key), now) == Answer(LastWrite(history, key), now)
  {
    if history == [] {
    } else {
      var before, last := history[..|history| - 1], history[|history| - 1];
      GetRefines(before, key, last.at);
      HeldIsLastWrite(before, key);
      PerformRefines(After(before), LastWrite(before, key), last, key, now);
    }
  }

  /** One step: agreement on what is visible at the time of the step carries to any later time. */
  lemma PerformRefines(t: Table, w: Option<Write>, last: Timed, key: string, now: int)
    requires last.at <= now
    requires Visible(Find(t, key), last.at) == Answer(w, last.at)
    requires Find(t, key).Some? ==> w.Some? && Keeps(Find(t, key).value, w.value)
    ensures var t' := Perform(t, last.op, last.at);
      var w' := match last.op
                case SetOp(k, value, noExpiration) => if k == key then Some(Write(value, noExpiration, last.at)) else w
                case RemoveOp(k) => if k == key then None else w
                case _ => w;
      Visible(Find(t', key), now) == Answer(w', now)
  {
  }

  /** A listing at one time returns exactly the suffixes of the keys that are then visible. */
  lemma FetchRefines(history: seq<Timed>, prefix: string, id: string, now: int)
    requires InOrder(history, now)
    ensures id in Suffixes(Live(After(history), now), prefix) <==> Answer(LastWrite(history, prefix + id), now).Some?
  {
    GetRefines(history, prefix + id, now);
    SuffixOf(Live(After(history), now), prefix, id);
  }

  /** Whatever the loop of fetch_keys purged, its effect is one of the modelled listings. */
  lemma FetchKeysIsFetchOp(before: Table, after: Table, prefix: string, at: int)
    requires after.Keys <= before.Keys && forall k :: k in after ==> after[k] == before[k]
    requires forall k :: k in before && k !in after ==> Expired(before[k], at)
    ensures after == Perform(before, FetchOp(prefix, before.Keys - after.Keys), at)
  {
  }
}
