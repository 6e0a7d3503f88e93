/**
 The JSON value held by nlohmann::json. Strings are bytes. An object is a std::map, so
 its fields are kept in strictly increasing key order.
 */
module Json {
  import opened Bytes
  import opened Wrappers

  type u64 = x: int | 0 <= x < 0x1_0000_0000_0000_0000

  type i64 = x: int | -0x8000_0000_0000_0000 <= x < 0x8000_0000_0000_0000

  datatype Field = Field(key: Bytes, value: Value)

  datatype Value =
    | Null
    | Bool(b: bool)
    | Unsigned(n: u64)
    | Signed(i: i64)
    | Float(bits: u64)
    | Str(s: Bytes)
    | Arr(items: seq<Value>)
    | Obj(fields: seq<Field>)
    | Binary(data: Bytes)

  /** The order of std::string: unsigned bytes, a proper prefix first. */
  predicate Less(a: Bytes, b: Bytes) {
    b != [] && (a == [] || a[0] < b[0] || (a[0] == b[0] && Less(a[1..], b[1..])))
  }

  /** The first place where two strings differ: one ends there, or holds the smaller byte. */
  predicate SmallerAt(a: Bytes, b: Bytes, k: nat) {
    k <= |a| && k < |b| && a[..k] == b[..k] && (k == |a| || a[k] < b[k])
  }

  lemma {:induction false} LessIff(a: Bytes, b: Bytes)
    ensures Less(a, b) <==> exists k: nat :: SmallerAt(a, b, k)
  {
    if b == [] {
    } else if a == [] {
      assert SmallerAt(a, b, 0);
    } else {
      LessIff(a[1..], b[1..]);
      if a[0] < b[0] {
        assert SmallerAt(a, b, 0);
      }
      if a[0] == b[0] && Less(a[1..], b[1..]) {
        var k: nat :| SmallerAt(a[1..], b[1..], k);
        assert a[..k + 1] == [a[0]] + a[1..][..k] && b[..k + 1] == [b[0]] + b[1..][..k];
        assert SmallerAt(a, b, k + 1);
      }
      if exists k: nat :: SmallerAt(a, b, k) {
        var k: nat :| SmallerAt(a, b, k);
        if k > 0 {
          SmallerTail(a, b, k);
        }
      }
    }
  }

  lemma SmallerTail(a: Bytes, b: Bytes, k: nat)
    requires k > 0 && SmallerAt(a, b, k)
    ensures a[0] == b[0] && SmallerAt(a[1..], b[1..], k - 1)
  {
    assert a[..k][0] == b[..k][0];
    assert a[1..][..k - 1] == a[..k][1..] && b[1..][..k - 1] == b[..k][1..];
  }

  lemma {:induction false} LessTransitive(a: Bytes, b: Bytes, c: Bytes)
    requires Less(a, b) && Less(b, c)
    ensures Less(a, c)
  {
    if a != [] && a[0] == b[0] == c[0] {
      LessTransitive(a[1..], b[1..], c[1..]);
    }
  }

  lemma {:induction false} LessTotal(a: Bytes, b: Bytes)
    ensures a == b || Less(a, b) || Less(b, a)
  {
    if a != [] && b != [] && a[0] == b[0] {
      LessTotal(a[1..], b[1..]);
      assert a == [a[0]] + a[1..] && b == [b[0]] + b[1..];
    }
  }

  lemma {:induction false} LessIrreflexive(a: Bytes)
    ensures !Less(a, a)
  {
    if a == [] {
    } else {
      LessIrreflexive(a[1..]);
    }
  }

  predicate Sorted(fields: seq<Field>) {
    forall i, j :: 0 <= i < j < |fields| ==> Less(fields[i].key, fields[j].key)
  }

  /** What std::map guarantees of every object inside a value. */
  predicate WellFormed(v: Value) {
    match v
    case Arr(items) => forall x | x in items :: WellFormed(x)
    case Obj(fields) => Sorted(fields) && forall f | f in fields :: WellFormed(f.value)
    case _ => true
  }

  /** `map[key] = value` */
  function Insert(fields: seq<Field>, key: Bytes, value: Value): seq<Field> {
    if fields == [] then [Field(key, value)]
    else if fields[0].key == key then [Field(key, value)] + fields[1..]
    else if Less(key, fields[0].key) then [Field(key, value)] + fields
    else [fields[0]] + Insert(fields[1..], key, value)
  }

  function Lookup(fields: seq<Field>, key: Bytes): Option<Value> {
    if fields == [] then None
    else if fields[0].key == key then Some(fields[0].value)
    else Lookup(fields[1..], key)
  }

  /** Every field after an insertion is the inserted one or an old one with another key. */
  lemma {:induction false} InsertMembers(fields: seq<Field>, key: Bytes, value: Value)
    ensures forall f :: f in Insert(fields, key, value) ==> f == Field(key, value) || f in fields
    ensures |fields| <= |Insert(fields, key, value)| <= |fields| + 1
  {
    if fields == [] {
    } else {
      InsertMembers(fields[1..], key, value);
    }
  }

  lemma {:induction false} InsertSorted(fields: seq<Field>, key: Bytes, value: Value)
    requires Sorted(fields)
    ensures Sorted(Insert(fields, key, value))
  {
    if fields == [] {
    } else if fields[0].key == key {
    } else if Less(key, fields[0].key) {
      forall j | 0 < j < |fields| ensures Less(key, fields[j].key) {
        LessTransitive(key, fields[0].key, fields[j].key);
      }
    } else {
      LessTotal(key, fields[0].key);
      InsertSorted(fields[1..], key, value);
      InsertMembers(fields[1..], key, value);
      var rest := Insert(fields[1..], key, value);
      forall j | 0 <= j < |rest| ensures Less(fields[0].key, rest[j].key) {
        assert rest[j] in rest;
        if rest[j] != Field(key, value) {
          var k :| 0 <= k < |fields[1..]| && fields[1..][k] == rest[j];
        }
      }
    }
  }

  /** An insertion is seen under its own key and nowhere else. */
  lemma {:induction false} InsertLookup(fields: seq<Field>, key: Bytes, value: Value, other: Bytes)
    ensures Lookup(Insert(fields, key, value), other) == if other == key then Some(value) else Lookup(fields, other)
  {
    if fields == [] {
    } else if fields[0].key != key && !Less(key, fields[0].key) {
      InsertLookup(fields[1..], key, value, other);
    }
  }

  /** A key above all others goes to the end. */
  lemma {:induction false} InsertLast(fields: seq<Field>, key: Bytes, value: Value)
    requires forall f | f in fields :: Less(f.key, key)
    ensures Insert(fields, key, value) == fields + [Field(key, value)]
  {
    if fields == [] {
    } else {
      assert fields[0] in fields;
      LessIrreflexive(key);
      if Less(key, fields[0].key) {
        LessTransitive(key, fields[0].key, key);
      }
      InsertLast(fields[1..], key, value);
    }
  }
}
