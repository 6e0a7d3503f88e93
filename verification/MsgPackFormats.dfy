/**
 The format of every kind of item byte by byte ("Formats" of the MessagePack specification),
 and that the encoder takes the shortest one.
 */
module MsgPackFormats {
  import opened Bytes
  import opened Wrappers
  import opened Json
  import opened MsgPack
  import opened MsgPackCodec
  import opened MsgPackProofs

  // ---------- the table of formats ----------

  /** Most significant byte first: each byte weighs 256 times the next one. */
  function Weigh(digits: Bytes): nat {
    if digits == [] then 0 else digits[0] * Pow256(|digits| - 1) + Weigh(digits[1..])
  }

  predicate Lead(head: Bytes, first: byte, width: nat) {
    |head| == 1 + width && head[0] == first
  }

  /** The four widths of an integer, the three of a length, and the two of a count. */
  predicate Integer(head: Bytes, first: byte) {
    (first == 0xcc || first == 0xd0)
    && (Lead(head, first, 1) || Lead(head, first + 1, 2) || Lead(head, first + 2, 4) || Lead(head, first + 3, 8))
  }

  predicate Length(head: Bytes, first: byte) {
    first < 0xe0 && (Lead(head, first, 1) || Lead(head, first + 1, 2) || Lead(head, first + 2, 4))
  }

  predicate Count(head: Bytes, first: byte) {
    first < 0xe0 && (Lead(head, first, 2) || Lead(head, first + 1, 4))
  }

  /** The first bytes of an item that announce it, by the table of the specification. */
  predicate Announces(head: Bytes, what: Head) {
    && head != []
    && var n := Weigh(head[1..]);
    match what
    case Scalar(Nil) => head == [0xc0]
    case Scalar(Boolean(b)) => head == if b then [0xc3] else [0xc2]
    case Scalar(PositiveInteger(u)) =>
      || (|head| == 1 && head[0] < 0x80 && u == head[0])
      || (Integer(head, 0xcc) && u == n)
      || (Integer(head, 0xd0) && head[1] < 0x80 && u == n)
    case Scalar(NegativeInteger(i)) =>
      || (|head| == 1 && head[0] >= 0xe0 && i == head[0] as int - 0x100)
      || (Integer(head, 0xd0) && head[1] >= 0x80 && i == n as int - Pow256(|head| - 1))
    case Scalar(Float32(single)) => Lead(head, 0xca, 4) && single == n
    case Scalar(Float64(bits)) => Lead(head, 0xcb, 8) && bits == n
    case Scalar(_) => false
    case StrBody(length) => (|head| == 1 && 0xa0 <= head[0] < 0xc0 && length == head[0] - 0xa0) || (Length(head, 0xd9) && length == n)
    case BinBody(length) => Length(head, 0xc4) && length == n
    case ExtBody(length) =>
      || (Length(head, 0xc7) && length == n)
      || (head == [0xd4] && length == 1) || (head == [0xd5] && length == 2) || (head == [0xd6] && length == 4)
      || (head == [0xd7] && length == 8) || (head == [0xd8] && length == 16)
    case ArrayOf(count) => (|head| == 1 && 0x90 <= head[0] < 0xa0 && count == head[0] - 0x90) || (Count(head, 0xdc) && count == n)
    case MapOf(count) => (|head| == 1 && 0x80 <= head[0] < 0x90 && count == head[0] - 0x80) || (Count(head, 0xde) && count == n)
  }

  lemma {:induction false} WeighLast(digits: Bytes, last: byte)
    ensures Weigh(digits + [last]) == 256 * Weigh(digits) + last
  {
    if digits == [] {
      assert [last][1..] == [] && Pow256(0) == 1;
    } else {
      assert (digits + [last])[1..] == digits[1..] + [last];
      WeighLast(digits[1..], last);
      assert Pow256(|digits|) == 256 * Pow256(|digits| - 1);
      assert digits[0] * (256 * Pow256(|digits| - 1)) == 256 * (digits[0] * Pow256(|digits| - 1));
    }
  }

  lemma {:induction false} WeighsBigEndian(digits: Bytes)
    ensures FromBigEndian(digits) == Weigh(digits) < Pow256(|digits|)
  {
    FromBigEndianBound(digits);
    if digits == [] {
    } else {
      var most := digits[..|digits| - 1];
      assert digits == most + [digits[|digits| - 1]];
      WeighsBigEndian(most);
      WeighLast(most, digits[|digits| - 1]);
    }
  }

  /** The first bit of a number tells whether it is in the upper half. */
  lemma FirstBit(digits: Bytes)
    requires |digits| in {1, 2, 4, 8}
    ensures digits[0] < 0x80 <==> Weigh(digits) < Pow256(|digits|) / 2
  {
    var p := Pow256(|digits| - 1);
    WeighsBigEndian(digits[1..]);
    Halves(digits[0], Weigh(digits[1..]), p);
    assert Pow256(|digits|) == 256 * p;
  }

  lemma Halves(d: nat, rest: nat, p: nat)
    requires rest < p && d < 256
    ensures d < 0x80 <==> d * p + rest < (256 * p) / 2
  {
    assert (256 * p) / 2 == 128 * p;
    if d < 0x80 {
      assert d * p <= 127 * p;
    } else {
      assert d * p >= 128 * p;
    }
  }

  lemma OneByteHeads(t: byte, rest: Bytes, what: Head)
    ensures ReadHead([t] + rest) == Some(Parsed(what, 1)) <==> Announces([t], what)
  {
    hide FromBigEndian;
  }

  lemma LongHeads(head: Bytes, rest: Bytes, what: Head)
    requires |head| in {2, 3, 5, 9}
    ensures ReadHead(head + rest) == Some(Parsed(what, |head|)) <==> Announces(head, what)
  {
    hide Weigh, FromBigEndian, Pow256, HeadOf;
    var bs, width := head + rest, |head| - 1;
    assert bs[0] == head[0] && bs[1..1 + width] == head[1..];
    WeighsBigEndian(head[1..]);
    Widths();
    if FormatOf(head[0]).Number? && FormatOf(head[0]).width == width {
      NumbersAnnounced(head, FormatOf(head[0]).family, what);
    }
  }

  lemma NumbersAnnounced(head: Bytes, family: Family, what: Head)
    requires |head| in {2, 3, 5, 9} && FormatOf(head[0]) == Number(family, |head| - 1)
    requires Weigh(head[1..]) < Pow256(|head| - 1)
    ensures what == HeadOf(family, |head| - 1, Weigh(head[1..])) <==> Announces(head, what)
  {
    hide Weigh, FromBigEndian, Pow256;
    FirstBit(head[1..]);
    Widths();
  }

  /** What the reader makes of a head of the right length is what the table announces. */
  lemma ReadIffAnnounced(head: Bytes, rest: Bytes, what: Head)
    ensures ReadHead(head + rest) == Some(Parsed(what, |head|)) <==> Announces(head, what)
  {
    if |head| == 1 {
      assert head == [head[0]];
      OneByteHeads(head[0], rest, what);
    } else if |head| in {2, 3, 5, 9} {
      LongHeads(head, rest, what);
    } else {
      NoOtherHeads(head, rest, what);
    }
  }

  lemma NoOtherHeads(head: Bytes, rest: Bytes, what: Head)
    requires |head| !in {1, 2, 3, 5, 9}
    ensures ReadHead(head + rest) != Some(Parsed(what, |head|)) && !Announces(head, what)
  {
    hide Weigh, FromBigEndian, Pow256, HeadOf;
  }

  // ---------- from the head to the value ----------

  lemma ConstantsDecode(tail: Bytes)
    ensures Decode([0xc1] + tail) == None == Decode([])
    ensures Encode(Null) == [0xc0] && Encode(Bool(false)) == [0xc2] && Encode(Bool(true)) == [0xc3]
  {
    hide UnpackMany;
  }

  lemma ScalarDecodes(head: Bytes, o: Object, tail: Bytes)
    requires Announces(head, Scalar(o))
    ensures o.Nil? ==> Decode(head + tail) == Some(Null)
    ensures o.Boolean? ==> Decode(head + tail) == Some(Bool(o.b))
    ensures o.PositiveInteger? ==> Decode(head + tail) == Some(Unsigned(o.n))
    ensures o.NegativeInteger? ==> Decode(head + tail) == Some(Signed(o.i))
    ensures o.Float64? ==> Decode(head + tail) == Some(Float(o.bits))
  {
    hide ReadHead, UnpackMany, Announces;
    ReadIffAnnounced(head, tail, Scalar(o));
  }

  /** Strings and binary data are both decoded as strings; bytes that are missing make it fail. */
  lemma BytesDecode(head: Bytes, body: Bytes, tail: Bytes)
    requires Announces(head, StrBody(|body|)) || Announces(head, BinBody(|body|))
    ensures Decode(head + (body + tail)) == Some(Str(body))
  {
    hide ReadHead, UnpackMany, Announces;
    ReadIffAnnounced(head, body + tail, StrBody(|body|));
    ReadIffAnnounced(head, body + tail, BinBody(|body|));
    Split(head, body + tail);
    Split(body, tail);
  }

  /** An extension is decoded as null once its type byte and all of its data are there. */
  lemma ExtensionDecodes(head: Bytes, n: nat, rest: Bytes)
    requires Announces(head, ExtBody(n))
    ensures Decode(head + rest) == if |rest| > n then Some(Null) else None
  {
    hide ReadHead, UnpackMany, Announces;
    ReadIffAnnounced(head, rest, ExtBody(n));
    Split(head, rest);
  }

  // ---------- arrays and objects ----------

  lemma ItemDecode(bs: Bytes, o: Object, k: nat)
    requires Unpack(bs) == Some(Parsed(o, k))
    ensures Decode(bs) == Some(ToJson(o))
  {
    hide Unpack, ToJson;
  }

  lemma ArrayFromRead(bs: Bytes, k: nat, items: seq<Object>, size: nat)
    requires k <= |bs| && ReadHead(bs) == Some(Parsed(ArrayOf(|items|), k))
    requires UnpackMany(bs[k..], |items|) == Some(Parsed(items, size))
    ensures Decode(bs) == Some(Arr(ToJsonAll(items)))
  {
    hide ReadHead, UnpackMany, Unpack, Decode, ToJsonAll;
    UnpackArray(bs, k, items, size);
    ItemDecode(bs, Array(items), k + size);
  }

  lemma ArrayDecodes(head: Bytes, items: seq<Value>, tail: Bytes)
    requires WellFormed(Arr(items)) && SizedAll(items)
    requires Announces(head, ArrayOf(|items|))
    ensures Decode(head + (EncodeAll(items) + tail)) == Some(Arr(NormalizeAll(items)))
  {
    hide Announces, Decode, ReadHead, UnpackMany, EncodeAll, DenoteAll, NormalizeAll, ToJsonAll, SizedAll;
    var body := EncodeAll(items) + tail;
    EncodeAllUnpack(items, tail);
    DenoteAllToJson(items);
    ReadIffAnnounced(head, body, ArrayOf(|items|));
    Split(head, body);
    ArrayFromRead(head + body, |head|, DenoteAll(items), |EncodeAll(items)|);
  }

  lemma MapFromRead(bs: Bytes, k: nat, kvs: seq<Object>, n: nat, size: nat)
    requires k <= |bs| && ReadHead(bs) == Some(Parsed(MapOf(n), k))
    requires UnpackMany(bs[k..], 2 * n) == Some(Parsed(kvs, size))
    ensures Decode(bs) == Some(Obj(InsertAll([], kvs)))
  {
    hide ReadHead, UnpackMany, Unpack, Decode, InsertAll;
    UnpackMap(bs, k, kvs, n, size);
    ItemDecode(bs, Map(kvs), k + size);
  }

  lemma ObjectDecodes(head: Bytes, fields: seq<Field>, tail: Bytes)
    requires WellFormed(Obj(fields)) && SizedFields(fields)
    requires Announces(head, MapOf(|fields|))
    ensures Decode(head + (EncodeFields(fields) + tail)) == Some(Obj(NormalizeFields(fields)))
  {
    hide Announces, Decode, ReadHead, UnpackMany, EncodeFields, DenoteFields, NormalizeFields, InsertAll, SizedFields;
    var body, kvs, size := EncodeFields(fields) + tail, DenoteFields(fields), |EncodeFields(fields)|;
    EncodeFieldsUnpack(fields, tail);
    DenoteFieldsToJson([], fields);
    assert [] + NormalizeFields(fields) == NormalizeFields(fields);
    ReadIffAnnounced(head, body, MapOf(|fields|));
    Split(head, body);
    MapFromRead(head + body, |head|, kvs, |fields|, size);
  }

  /** A key that is not a string reads as the empty string. */
  lemma AnyKey(key: Value, value: Value, tail: Bytes)
    requires Sized(key) && Sized(value) && WellFormed(value)
    ensures Decode([0x81] + (Encode(key) + (Encode(value) + tail)))
         == Some(Obj([Field(if key.Str? then key.s else [], Normalize(value))]))
  {
    hide Decode, UnpackMany, Encode, Denote, Normalize;
    var body := Encode(key) + (Encode(value) + tail);
    TwoItems(key, value, tail);
    Split([0x81], body);
    MapFromRead([0x81] + body, 1, [Denote(key), Denote(value)], 1, |Encode(key)| + |Encode(value)|);
    DenoteToJson(value);
    OnePair(Denote(key), Denote(value));
    KeyOfDenoted(key);
  }

  lemma OnePair(key: Object, value: Object)
    ensures InsertAll([], [key, value]) == [Field(KeyOf(key), ToJson(value))]
  {
    assert [key, value][2..] == [];
  }

  lemma KeyOfDenoted(key: Value)
    ensures KeyOf(Denote(key)) == if key.Str? then key.s else []
  {
  }

  lemma TwoItems(a: Value, b: Value, tail: Bytes)
    requires Sized(a) && Sized(b)
    ensures UnpackMany(Encode(a) + (Encode(b) + tail), 2)
         == Some(Parsed([Denote(a), Denote(b)], |Encode(a)| + |Encode(b)|))
  {
    hide Unpack, ReadHead, Encode, Denote;
    var none: seq<Object> := [];
    var second := Encode(b) + tail;
    EncodeUnpack(b, tail);
    EncodeUnpack(a, second);
    Split(Encode(b), tail);
    Split(Encode(a), second);
    UnpackOneMore(second, Denote(b), |Encode(b)|, none, 0);
    assert [Denote(b)] + none == [Denote(b)];
    UnpackOneMore(Encode(a) + second, Denote(a), |Encode(a)|, [Denote(b)], |Encode(b)|);
    assert [Denote(a)] + [Denote(b)] == [Denote(a), Denote(b)];
  }

  /** Elements are written in their order, and every key in front of its value. */
  lemma PairsInOrder(a: Value, b: Value, k: Bytes, l: Bytes)
    ensures Encode(Arr([a, b])) == [0x92] + Encode(a) + Encode(b)
    ensures Encode(Obj([Field(k, a), Field(l, b)])) == [0x82] + EncodeStr(k) + Encode(a) + EncodeStr(l) + Encode(b)
  {
    hide EncodeStr;
    var f, g := Field(k, a), Field(l, b);
    assert [a, b][1..] == [b] && [b][1..] == [];
    assert [f, g][1..] == [g] && [g][1..] == [];
    assert EncodeAll([b]) == Encode(b);
    assert EncodeAll([a, b]) == Encode(a) + Encode(b);
    assert EncodeFields([g]) == EncodeStr(l) + Encode(b);
    assert EncodeFields([f, g]) == EncodeStr(k) + Encode(a) + (EncodeStr(l) + Encode(b));
    assert Encode(Arr([a, b])) == [0x92] + (Encode(a) + Encode(b));
    assert Encode(Obj([f, g])) == [0x82] + (EncodeStr(k) + Encode(a) + (EncodeStr(l) + Encode(b)));
  }

  // ---------- the shortest format ----------

  /** Every head read as the same thing is at least as long as the packer's. */
  lemma HeadIsShortest(bs: Bytes)
    requires ReadHead(bs).Some?
    ensures var Parsed(head, k) := ReadHead(bs).value;
      && (forall n: u64 | head == Scalar(PositiveInteger(n)) :: |PackUnsigned(n)| <= k)
      && (forall i: i64 | head == Scalar(NegativeInteger(i)) :: i < 0 && |PackSigned(i)| <= k)
      && (forall bits | head == Scalar(Float64(bits)) :: |PackDouble(bits)| <= k)
      && (forall n | head == StrBody(n) && n < 0x1_0000_0000 :: |PackStrHead(n)| <= k)
      && (forall n | head == ArrayOf(n) && n < 0x1_0000_0000 :: |PackArrayHead(n)| <= k)
      && (forall n | head == MapOf(n) && n < 0x1_0000_0000 :: |PackMapHead(n)| <= k)
  {
    hide BigEndian, FromBigEndian, Pow256;
    Widths();
    if FormatOf(bs[0]).Number? {
      var width := FormatOf(bs[0]).width;
      assert width in {1, 2, 4, 8};
      FromBigEndianBound(bs[1..1 + width]);
    }
  }

  /** No bytes that the reader takes for the same item are fewer than the encoding. */
  lemma {:induction false} EncodingIsShortest(v: Value, bs: Bytes)
    requires Sized(v) && Unpack(bs).Some? && Unpack(bs).value.value == Denote(v)
    ensures |Encode(v)| <= Unpack(bs).value.size
    decreases v, 0
  {
    hide Unpack, UnpackMany, EncodeAll, DenoteAll, EncodeFields, DenoteFields, PackArrayHead, PackMapHead;
    match v
    case Str(s) => KeyIsShortest(s, bs);
    case Arr(items) =>
      var h := ArrayRead(bs, DenoteAll(items));
      ManyAreShortest(items, bs[h..]);
    case Obj(fields) =>
      var h := MapRead(bs, DenoteFields(fields), |fields|);
      FieldsAreShortest(fields, bs[h..]);
    case _ => ScalarIsShortest(v, bs);
  }

  lemma ScalarIsShortest(v: Value, bs: Bytes)
    requires !v.Str? && !v.Arr? && !v.Obj?
    requires Unpack(bs).Some? && Unpack(bs).value.value == Denote(v)
    ensures |Encode(v)| <= Unpack(bs).value.size
  {
    hide ReadHead, UnpackMany, PackUnsigned, PackSigned, PackDouble;
    HeadIsShortest(bs);
    if v.Signed? && v.i >= 0 {
      SignedAsUnsigned(v.i);
    }
  }

  lemma SignedAsUnsigned(i: i64)
    requires i >= 0
    ensures PackSigned(i) == PackUnsigned(i)
  {
  }

  lemma ArrayRead(bs: Bytes, items: seq<Object>) returns (h: nat)
    requires |items| < 0x1_0000_0000 && Unpack(bs).Some? && Unpack(bs).value.value == Array(items)
    ensures h <= |bs| && |PackArrayHead(|items|)| <= h
    ensures UnpackMany(bs[h..], |items|).Some? && UnpackMany(bs[h..], |items|).value.value == items
    ensures Unpack(bs).value.size == h + UnpackMany(bs[h..], |items|).value.size
  {
    hide ReadHead, UnpackMany, PackArrayHead;
    HeadIsShortest(bs);
    HeadBound(bs);
    h := ReadHead(bs).value.size;
  }

  lemma MapRead(bs: Bytes, kvs: seq<Object>, n: nat) returns (h: nat)
    requires n < 0x1_0000_0000 && |kvs| == 2 * n && Unpack(bs).Some? && Unpack(bs).value.value == Map(kvs)
    ensures h <= |bs| && |PackMapHead(n)| <= h
    ensures UnpackMany(bs[h..], 2 * n).Some? && UnpackMany(bs[h..], 2 * n).value.value == kvs
    ensures Unpack(bs).value.size == h + UnpackMany(bs[h..], 2 * n).value.size
  {
    hide ReadHead, UnpackMany, PackMapHead;
    HeadIsShortest(bs);
    HeadBound(bs);
    h := ReadHead(bs).value.size;
  }

  lemma {:induction false} ManyAreShortest(items: seq<Value>, bs: Bytes)
    requires SizedAll(items)
    requires UnpackMany(bs, |items|).Some? && UnpackMany(bs, |items|).value.value == DenoteAll(items)
    ensures |EncodeAll(items)| <= UnpackMany(bs, |items|).value.size
    decreases items, 1
  {
    hide Unpack;
    if items == [] {
    } else {
      OneRead(bs, |items|);
      assert DenoteAll(items)[1..] == DenoteAll(items[1..]);
      EncodingIsShortest(items[0], bs);
      ManyAreShortest(items[1..], bs[Unpack(bs).value.size..]);
    }
  }

  lemma OneRead(bs: Bytes, count: nat)
    requires count >= 1 && UnpackMany(bs, count).Some?
    ensures Unpack(bs).Some?
    ensures var k := Unpack(bs).value.size; var whole, rest := UnpackMany(bs, count).value, UnpackMany(bs[k..], count - 1);
      && rest.Some? && whole.size == k + rest.value.size
      && whole.value[0] == Unpack(bs).value.value && whole.value[1..] == rest.value.value
  {
    hide Unpack;
  }

  lemma {:induction false} FieldsAreShortest(fields: seq<Field>, bs: Bytes)
    requires SizedFields(fields)
    requires UnpackMany(bs, 2 * |fields|).Some? && UnpackMany(bs, 2 * |fields|).value.value == DenoteFields(fields)
    ensures |EncodeFields(fields)| <= UnpackMany(bs, 2 * |fields|).value.size
    decreases fields, 1
  {
    hide Unpack;
    if fields == [] {
    } else {
      var f, kvs := fields[0], DenoteFields(fields);
      var values := bs[Unpack(bs).value.size..];
      OneRead(bs, 2 * |fields|);
      OneRead(values, 2 * |fields| - 1);
      assert kvs[0] == String(f.key) && kvs[1..][0] == Denote(f.value) && kvs[1..][1..] == DenoteFields(fields[1..]);
      KeyIsShortest(f.key, bs);
      EncodingIsShortest(f.value, values);
      FieldsAreShortest(fields[1..], values[Unpack(values).value.size..]);
    }
  }

  lemma KeyIsShortest(key: Bytes, bs: Bytes)
    requires |key| < 0x1_0000_0000 && Unpack(bs).Some? && Unpack(bs).value.value == String(key)
    ensures |EncodeStr(key)| <= Unpack(bs).value.size
  {
    hide ReadHead, UnpackMany;
    HeadIsShortest(bs);
    HeadBound(bs);
  }
}
