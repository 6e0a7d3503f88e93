/** The codec undoes itself, for every value and every byte string. */
module MsgPackProofs {
  import opened Bytes
  import opened Wrappers
  import opened Json
  import opened MsgPack
  import opened MsgPackCodec

  /** Strings, keys, arrays and objects whose length survives the cast to 32 bits. */
  predicate Sized(v: Value) {
    match v
    case Str(s) => |s| < 0x1_0000_0000
    case Arr(items) => |items| < 0x1_0000_0000 && SizedAll(items)
    case Obj(fields) => |fields| < 0x1_0000_0000 && SizedFields(fields)
    case _ => true
  }

  predicate SizedAll(items: seq<Value>) {
    items == [] || (Sized(items[0]) && SizedAll(items[1..]))
  }

  predicate SizedFields(fields: seq<Field>) {
    fields == [] || (|fields[0].key| < 0x1_0000_0000 && Sized(fields[0].value) && SizedFields(fields[1..]))
  }

  /** What a value becomes: a non-negative integer is unsigned and a binary value is null. */
  function Normalize(v: Value): Value {
    match v
    case Signed(i) => if i >= 0 then Unsigned(i) else v
    case Arr(items) => Arr(NormalizeAll(items))
    case Obj(fields) => Obj(NormalizeFields(fields))
    case Binary(_) => Null
    case _ => v
  }

  function NormalizeAll(items: seq<Value>): (r: seq<Value>)
    ensures |r| == |items|
  {
    if items == [] then [] else [Normalize(items[0])] + NormalizeAll(items[1..])
  }

  function NormalizeFields(fields: seq<Field>): (r: seq<Field>)
    ensures |r| == |fields|
  {
    if fields == [] then []
    else [Field(fields[0].key, Normalize(fields[0].value))] + NormalizeFields(fields[1..])
  }

  /** Holds no signed non-negative integer and no binary value. */
  predicate Normal(v: Value) {
    match v
    case Signed(i) => i < 0
    case Arr(items) => NormalAll(items)
    case Obj(fields) => NormalFields(fields)
    case Binary(_) => false
    case _ => true
  }

  predicate NormalAll(items: seq<Value>) {
    items == [] || (Normal(items[0]) && NormalAll(items[1..]))
  }

  predicate NormalFields(fields: seq<Field>) {
    fields == [] || (Normal(fields[0].value) && NormalFields(fields[1..]))
  }

  /** The MessagePack item a value stands for. */
  function Denote(v: Value): Object {
    match v
    case Null => Nil
    case Bool(b) => Boolean(b)
    case Unsigned(n) => PositiveInteger(n)
    case Signed(i) => if i >= 0 then PositiveInteger(i) else NegativeInteger(i)
    case Float(bits) => Float64(bits)
    case Str(s) => String(s)
    case Arr(items) => Array(DenoteAll(items))
    case Obj(fields) => Map(DenoteFields(fields))
    case Binary(_) => Nil
  }

  function DenoteAll(items: seq<Value>): (r: seq<Object>)
    ensures |r| == |items|
  {
    if items == [] then [] else [Denote(items[0])] + DenoteAll(items[1..])
  }

  function DenoteFields(fields: seq<Field>): (r: seq<Object>)
    ensures |r| == 2 * |fields|
  {
    if fields == [] then []
    else [String(fields[0].key), Denote(fields[0].value)] + DenoteFields(fields[1..])
  }

  // ---------- reading back what was written ----------

  lemma Split(a: Bytes, b: Bytes)
    ensures (a + b)[..|a|] == a && (a + b)[|a|..] == b
  {
  }

  lemma UnpackOneMore(bs: Bytes, o: Object, k: nat, others: seq<Object>, size: nat)
    requires Unpack(bs) == Some(Parsed(o, k)) && k <= |bs|
    requires UnpackMany(bs[k..], |others|) == Some(Parsed(others, size))
    ensures UnpackMany(bs, |others| + 1) == Some(Parsed([o] + others, k + size))
  {
    hide Unpack;
  }

  lemma UnpackArray(bs: Bytes, h: nat, items: seq<Object>, size: nat)
    requires ReadHead(bs) == Some(Parsed(ArrayOf(|items|), h)) && h <= |bs|
    requires UnpackMany(bs[h..], |items|) == Some(Parsed(items, size))
    ensures Unpack(bs) == Some(Parsed(Array(items), h + size))
  {
    hide ReadHead;
  }

  lemma UnpackMap(bs: Bytes, h: nat, kvs: seq<Object>, n: nat, size: nat)
    requires ReadHead(bs) == Some(Parsed(MapOf(n), h)) && h <= |bs|
    requires UnpackMany(bs[h..], 2 * n) == Some(Parsed(kvs, size))
    ensures Unpack(bs) == Some(Parsed(Map(kvs), h + size))
  {
    hide ReadHead;
  }

  lemma UnpackString(bs: Bytes, h: nat, s: Bytes)
    requires ReadHead(bs) == Some(Parsed(StrBody(|s|), h)) && h + |s| <= |bs|
    requires bs[h..][..|s|] == s
    ensures Unpack(bs) == Some(Parsed(String(s), h + |s|))
  {
    hide ReadHead, UnpackMany;
    assert |bs[h..]| >= |s|;
  }

  lemma StrUnpack(s: Bytes, tail: Bytes)
    requires |s| < 0x1_0000_0000
    ensures Unpack(EncodeStr(s) + tail) == Some(Parsed(String(s), |EncodeStr(s)|))
  {
    hide Unpack, ReadHead, PackStrHead;
    var head := PackStrHead(|s|);
    Assoc(head, s, tail);
    StrHeadRead(|s|, s + tail);
    Split(head, s + tail);
    Split(s, tail);
    UnpackString(head + (s + tail), |head|, s);
  }

  lemma ScalarUnpack(v: Value, tail: Bytes)
    requires !v.Str? && !v.Arr? && !v.Obj?
    ensures Unpack(Encode(v) + tail) == Some(Parsed(Denote(v), |Encode(v)|))
  {
    match v {
      case Unsigned(n) => UnsignedRead(n, tail);
      case Signed(i) => SignedRead(i, tail);
      case Float(bits) => DoubleRead(bits, tail);
      case _ =>
    }
    assert ReadHead(Encode(v) + tail) == Some(Parsed(Scalar(Denote(v)), |Encode(v)|));
  }

  lemma {:induction false} EncodeUnpack(v: Value, tail: Bytes)
    requires Sized(v)
    ensures Unpack(Encode(v) + tail) == Some(Parsed(Denote(v), |Encode(v)|))
    decreases v, 0
  {
    match v
    case Str(s) => StrUnpack(s, tail);
    case Arr(items) =>
      EncodeAllUnpack(items, tail);
      ArrUnpack(items, tail);
    case Obj(fields) =>
      EncodeFieldsUnpack(fields, tail);
      ObjUnpack(fields, tail);
    case _ => ScalarUnpack(v, tail);
  }

  lemma ArrUnpack(items: seq<Value>, tail: Bytes)
    requires |items| < 0x1_0000_0000
    requires UnpackMany(EncodeAll(items) + tail, |items|) == Some(Parsed(DenoteAll(items), |EncodeAll(items)|))
    ensures Unpack(Encode(Arr(items)) + tail) == Some(Parsed(Denote(Arr(items)), |Encode(Arr(items))|))
  {
    hide Unpack, UnpackMany, ReadHead;
    var head, rest := PackArrayHead(|items|), EncodeAll(items) + tail;
    ArrayHeadRead(|items|, rest);
    Split(head, rest);
    UnpackArray(head + rest, |head|, DenoteAll(items), |EncodeAll(items)|);
    Assoc(head, EncodeAll(items), tail);
  }

  lemma ObjUnpack(fields: seq<Field>, tail: Bytes)
    requires |fields| < 0x1_0000_0000
    requires UnpackMany(EncodeFields(fields) + tail, 2 * |fields|) == Some(Parsed(DenoteFields(fields), |EncodeFields(fields)|))
    ensures Unpack(Encode(Obj(fields)) + tail) == Some(Parsed(Denote(Obj(fields)), |Encode(Obj(fields))|))
  {
    hide Unpack, UnpackMany, ReadHead;
    var head, rest := PackMapHead(|fields|), EncodeFields(fields) + tail;
    MapHeadRead(|fields|, rest);
    Split(head, rest);
    UnpackMap(head + rest, |head|, DenoteFields(fields), |fields|, |EncodeFields(fields)|);
    Assoc(head, EncodeFields(fields), tail);
  }

  lemma {:induction false} EncodeAllUnpack(items: seq<Value>, tail: Bytes)
    requires SizedAll(items)
    ensures UnpackMany(EncodeAll(items) + tail, |items|) == Some(Parsed(DenoteAll(items), |EncodeAll(items)|))
    decreases items, 1
  {
    hide Unpack, ReadHead;
    if items == [] {
    } else {
      var first, rest := Encode(items[0]), EncodeAll(items[1..]) + tail;
      EncodeUnpack(items[0], rest);
      EncodeAllUnpack(items[1..], tail);
      Split(first, rest);
      UnpackOneMore(first + rest, Denote(items[0]), |first|, DenoteAll(items[1..]), |EncodeAll(items[1..])|);
      Assoc(first, EncodeAll(items[1..]), tail);
    }
  }

  lemma {:induction false} EncodeFieldsUnpack(fields: seq<Field>, tail: Bytes)
    requires SizedFields(fields)
    ensures UnpackMany(EncodeFields(fields) + tail, 2 * |fields|) == Some(Parsed(DenoteFields(fields), |EncodeFields(fields)|))
    decreases fields, 1
  {
    hide Unpack, ReadHead;
    if fields == [] {
    } else {
      var rest := EncodeFields(fields[1..]) + tail;
      EncodeFieldsUnpack(fields[1..], tail);
      EncodeUnpack(fields[0].value, rest);
      OneFieldUnpack(fields[0], rest, DenoteFields(fields[1..]), |EncodeFields(fields[1..])|);
      FieldsCons(fields, tail);
    }
  }

  lemma FieldsCons(fields: seq<Field>, tail: Bytes)
    requires fields != []
    ensures EncodeFields(fields) + tail
         == EncodeStr(fields[0].key) + (Encode(fields[0].value) + (EncodeFields(fields[1..]) + tail))
  {
    var key, value, others := EncodeStr(fields[0].key), Encode(fields[0].value), EncodeFields(fields[1..]);
    Assoc(key + value, others, tail);
    Assoc(key, value, others + tail);
  }

  lemma TwoMore(a: Object, b: Object, others: seq<Object>)
    ensures [a] + ([b] + others) == [a, b] + others
  {
  }

  lemma OneFieldUnpack(f: Field, rest: Bytes, others: seq<Object>, size: nat)
    requires |f.key| < 0x1_0000_0000
    requires Unpack(Encode(f.value) + rest) == Some(Parsed(Denote(f.value), |Encode(f.value)|))
    requires UnpackMany(rest, |others|) == Some(Parsed(others, size))
    ensures UnpackMany(EncodeStr(f.key) + (Encode(f.value) + rest), |others| + 2)
         == Some(Parsed([String(f.key), Denote(f.value)] + others, |EncodeStr(f.key)| + |Encode(f.value)| + size))
  {
    hide Unpack, UnpackMany, ReadHead, EncodeStr, Encode, Denote;
    var key, value := EncodeStr(f.key), Encode(f.value) + rest;
    Split(Encode(f.value), rest);
    UnpackOneMore(value, Denote(f.value), |Encode(f.value)|, others, size);
    StrUnpack(f.key, value);
    Split(key, value);
    UnpackOneMore(key + value, String(f.key), |key|, [Denote(f.value)] + others, |Encode(f.value)| + size);
    TwoMore(String(f.key), Denote(f.value), others);
  }

  // ---------- the item a value stands for gives the value back ----------

  lemma {:induction false} DenoteToJson(v: Value)
    requires WellFormed(v)
    ensures ToJson(Denote(v)) == Normalize(v)
    decreases v, 0
  {
    match v
    case Arr(items) => DenoteAllToJson(items);
    case Obj(fields) => DenoteFieldsToJson([], fields);
    case _ =>
  }

  lemma {:induction false} DenoteAllToJson(items: seq<Value>)
    requires forall x | x in items :: WellFormed(x)
    ensures ToJsonAll(DenoteAll(items)) == NormalizeAll(items)
    decreases items, 1
  {
    if items == [] {
    } else {
      DenoteToJson(items[0]);
      DenoteAllToJson(items[1..]);
    }
  }

  /** Fields above all those already present are appended one after the other. */
  lemma {:induction false} DenoteFieldsToJson(done: seq<Field>, fields: seq<Field>)
    requires Sorted(fields) && forall f | f in fields :: WellFormed(f.value)
    requires forall f, g | f in done && g in fields :: Less(f.key, g.key)
    ensures InsertAll(done, DenoteFields(fields)) == done + NormalizeFields(fields)
    decreases fields, 1
  {
    if fields == [] {
    } else {
      var f := fields[0];
      var last := Field(f.key, Normalize(f.value));
      assert f in fields;
      DenoteToJson(f.value);
      InsertLast(done, f.key, last.value);
      DenoteFieldsToJson(done + [last], fields[1..]);
      AssocFields(done, [last], NormalizeFields(fields[1..]));
      InsertAllStep(done, String(f.key), Denote(f.value), DenoteFields(fields[1..]));
    }
  }

  lemma AssocFields(a: seq<Field>, b: seq<Field>, c: seq<Field>)
    ensures (a + b) + c == a + (b + c)
  {
  }

  lemma InsertAllStep(fields: seq<Field>, key: Object, value: Object, others: seq<Object>)
    ensures InsertAll(fields, [key, value] + others) == InsertAll(Insert(fields, KeyOf(key), ToJson(value)), others)
  {
    assert ([key, value] + others)[2..] == others;
  }

  // ---------- whatever is decoded is well formed, sized and normal ----------

  predicate GoodObject(o: Object) {
    match o
    case NegativeInteger(i) => i < 0
    case Float32(single) => single < 0x1_0000_0000
    case String(s) => |s| < 0x1_0000_0000
    case Bin(data) => |data| < 0x1_0000_0000
    case Array(items) => |items| < 0x1_0000_0000 && forall x | x in items :: GoodObject(x)
    case Map(kvs) => |kvs| < 0x2_0000_0000 && forall x | x in kvs :: GoodObject(x)
    case _ => true
  }

  lemma {:induction false} UnpackGood(bs: Bytes)
    requires Unpack(bs).Some?
    ensures GoodObject(Unpack(bs).value.value)
    decreases |bs|, 0
  {
    HeadBound(bs);
    var Parsed(head, h) := ReadHead(bs).value;
    match head
    case ArrayOf(n) => UnpackManyGood(bs[h..], n);
    case MapOf(n) => UnpackManyGood(bs[h..], 2 * n);
    case _ =>
  }

  lemma {:induction false} UnpackManyGood(bs: Bytes, count: nat)
    requires UnpackMany(bs, count).Some?
    ensures forall x | x in UnpackMany(bs, count).value.value :: GoodObject(x)
    decreases |bs|, count
  {
    if count > 0 {
      UnpackGood(bs);
      UnpackManyGood(bs[Unpack(bs).value.size..], count - 1);
    }
  }

  predicate Clean(v: Value) {
    WellFormed(v) && Sized(v) && Normal(v)
  }

  lemma {:induction false} ToJsonClean(o: Object)
    requires GoodObject(o)
    ensures Clean(ToJson(o))
    decreases o, 0
  {
    match o
    case Array(items) => ToJsonAllClean(items);
    case Map(kvs) =>
      InsertAllClean([], kvs);
      CleanFieldsMembers(InsertAll([], kvs));
    case _ =>
  }

  lemma {:induction false} ToJsonAllClean(items: seq<Object>)
    requires forall x | x in items :: GoodObject(x)
    ensures SizedAll(ToJsonAll(items)) && NormalAll(ToJsonAll(items))
    ensures forall v | v in ToJsonAll(items) :: WellFormed(v)
    decreases items, 1
  {
    if items == [] {
    } else {
      ToJsonClean(items[0]);
      ToJsonAllClean(items[1..]);
    }
  }

  predicate CleanFields(fields: seq<Field>) {
    Sorted(fields) && forall f | f in fields :: |f.key| < 0x1_0000_0000 && Clean(f.value)
  }

  lemma {:induction false} CleanFieldsMembers(fields: seq<Field>)
    requires forall f | f in fields :: |f.key| < 0x1_0000_0000 && Clean(f.value)
    ensures SizedFields(fields) && NormalFields(fields)
  {
    if fields == [] {
    } else {
      assert fields[0] in fields;
      CleanFieldsMembers(fields[1..]);
    }
  }

  lemma {:induction false} InsertAllClean(fields: seq<Field>, kvs: seq<Object>)
    requires CleanFields(fields) && forall x | x in kvs :: GoodObject(x)
    ensures CleanFields(InsertAll(fields, kvs)) && |InsertAll(fields, kvs)| <= |fields| + |kvs| / 2
    decreases kvs, 1
  {
    if |kvs| < 2 {
    } else {
      var key, value := KeyOf(kvs[0]), ToJson(kvs[1]);
      assert kvs[0] in kvs && kvs[1] in kvs;
      ToJsonClean(kvs[1]);
      InsertSorted(fields, key, value);
      InsertMembers(fields, key, value);
      InsertAllClean(Insert(fields, key, value), kvs[2..]);
    }
  }

  lemma DecodedIsClean(bs: Bytes)
    requires Decode(bs).Some?
    ensures Clean(Decode(bs).value)
  {
    UnpackGood(bs);
    ToJsonClean(Unpack(bs).value.value);
  }

  lemma {:induction false} NormalIsFixed(v: Value)
    ensures Normal(v) <==> Normalize(v) == v
    decreases v, 0
  {
    match v
    case Arr(items) => NormalAllIsFixed(items);
    case Obj(fields) => NormalFieldsIsFixed(fields);
    case _ =>
  }

  lemma {:induction false} NormalAllIsFixed(items: seq<Value>)
    ensures NormalAll(items) <==> NormalizeAll(items) == items
    decreases items, 1
  {
    if items == [] {
    } else {
      var first, others := items[0], items[1..];
      NormalIsFixed(first);
      NormalAllIsFixed(others);
      assert items == [first] + others;
      assert NormalizeAll(items)[0] == Normalize(first) && NormalizeAll(items)[1..] == NormalizeAll(others);
    }
  }

  lemma {:induction false} NormalFieldsIsFixed(fields: seq<Field>)
    ensures NormalFields(fields) <==> NormalizeFields(fields) == fields
    decreases fields, 1
  {
    if fields == [] {
    } else {
      var first, others := fields[0], fields[1..];
      NormalIsFixed(first.value);
      NormalFieldsIsFixed(others);
      assert fields == [first] + others;
      assert NormalizeFields(fields)[0].value == Normalize(first.value) && NormalizeFields(fields)[1..] == NormalizeFields(others);
    }
  }

  lemma {:induction false} NormalizeSized(v: Value)
    ensures Sized(Normalize(v)) <==> Sized(v)
    decreases v, 0
  {
    match v
    case Arr(items) => NormalizeAllSized(items);
    case Obj(fields) => NormalizeFieldsSized(fields);
    case _ =>
  }

  lemma {:induction false} NormalizeAllSized(items: seq<Value>)
    ensures SizedAll(NormalizeAll(items)) <==> SizedAll(items)
    decreases items, 1
  {
    if items == [] {
    } else {
      NormalizeSized(items[0]);
      NormalizeAllSized(items[1..]);
    }
  }

  lemma {:induction false} NormalizeFieldsSized(fields: seq<Field>)
    ensures SizedFields(NormalizeFields(fields)) <==> SizedFields(fields)
    decreases fields, 1
  {
    if fields == [] {
    } else {
      NormalizeSized(fields[0].value);
      NormalizeFieldsSized(fields[1..]);
    }
  }

  // ---------- main results ----------

  /**
   Decoding gives the value back, up to the normalisation of its integers, exactly when
   every length in it is below 2^32.
   */
  lemma RoundTrip(v: Value)
    requires WellFormed(v)
    ensures Decode(Encode(v)) == Some(Normalize(v)) <==> Sized(v)
  {
    if Sized(v) {
      EncodeUnpack(v, []);
      assert Encode(v) + [] == Encode(v);
      DenoteToJson(v);
    } else if Decode(Encode(v)) == Some(Normalize(v)) {
      DecodedIsClean(Encode(v));
      NormalizeSized(v);
    }
  }

  /** Bytes after an encoding are not looked at: the reader takes exactly the encoding. */
  lemma ConsumesExactlyTheEncoding(v: Value, tail: Bytes)
    requires WellFormed(v) && Sized(v)
    ensures Unpack(Encode(v) + tail).Some? && Unpack(Encode(v) + tail).value.size == |Encode(v)|
    ensures Decode(Encode(v) + tail) == Some(Normalize(v))
  {
    EncodeUnpack(v, tail);
    DenoteToJson(v);
  }

  /** No encoding is a proper prefix of another, and equal encodings come from equal values. */
  lemma PrefixFree(v: Value, w: Value)
    requires WellFormed(v) && Sized(v) && WellFormed(w) && Sized(w)
    requires Encode(v) <= Encode(w)
    ensures Encode(v) == Encode(w) && Normalize(v) == Normalize(w)
  {
    var tail := Encode(w)[|Encode(v)|..];
    assert Encode(v) + tail == Encode(w);
    assert Encode(w) + [] == Encode(w);
    EncodeUnpack(v, tail);
    EncodeUnpack(w, []);
    DenoteToJson(v);
    DenoteToJson(w);
  }

  /** A decoded value encodes and decodes to itself, whatever the bytes it came from. */
  lemma DecodeIsCanonical(bs: Bytes)
    requires Decode(bs).Some?
    ensures Decode(Encode(Decode(bs).value)) == Decode(bs)
  {
    var v := Decode(bs).value;
    DecodedIsClean(bs);
    RoundTrip(v);
    NormalIsFixed(v);
  }

  /** Of several map entries with one key the last one counts; a key that is not a string reads as "". */
  function LastEntry(before: Option<Value>, kvs: seq<Object>, key: Bytes): Option<Value>
    decreases kvs
  {
    if |kvs| < 2 then before
    else LastEntry(if KeyOf(kvs[0]) == key then Some(ToJson(kvs[1])) else before, kvs[2..], key)
  }

  lemma {:induction false} LastEntryWins(fields: seq<Field>, kvs: seq<Object>, key: Bytes)
    ensures Lookup(InsertAll(fields, kvs), key) == LastEntry(Lookup(fields, key), kvs, key)
    decreases kvs
  {
    if |kvs| >= 2 {
      var value := ToJson(kvs[1]);
      InsertLookup(fields, KeyOf(kvs[0]), value, key);
      LastEntryWins(Insert(fields, KeyOf(kvs[0]), value), kvs[2..], key);
    }
  }
}
