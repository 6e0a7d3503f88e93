/**
 encode_msgpack and decode_msgpack: JSON values to bytes and back.
 The functions say what the recursive printer and reader compute; the class and the
 methods are the loops of the source, proved against them.
 */
module MsgPackCodec {
  import opened Bytes
  import opened Wrappers
  import opened Json
  import opened MsgPack

  /** The cast to a 32-bit length in front of every string, array and object. */
  function Cast32(n: nat): (r: nat)
    ensures r < 0x1_0000_0000
  {
    n % 0x1_0000_0000
  }

  // ---------- encoding ----------

  function EncodeStr(s: Bytes): (bs: Bytes)
    ensures bs != []
  {
    PackStrHead(Cast32(|s|)) + s
  }

  function Encode(v: Value): (bs: Bytes)
    ensures bs != []
  {
    match v
    case Null => [0xc0]
    case Bool(b) => if b then [0xc3] else [0xc2]
    case Unsigned(n) => PackUnsigned(n)
    case Signed(i) => PackSigned(i)
    case Float(bits) => PackDouble(bits)
    case Str(s) => EncodeStr(s)
    case Arr(items) => PackArrayHead(Cast32(|items|)) + EncodeAll(items)
    case Obj(fields) => PackMapHead(Cast32(|fields|)) + EncodeFields(fields)
    case Binary(_) => [0xc0]
  }

  function EncodeAll(items: seq<Value>): Bytes {
    if items == [] then [] else Encode(items[0]) + EncodeAll(items[1..])
  }

  function EncodeFields(fields: seq<Field>): Bytes {
    if fields == [] then []
    else EncodeStr(fields[0].key) + Encode(fields[0].value) + EncodeFields(fields[1..])
  }

  // ---------- decoding ----------

  function Pow2(n: nat): nat {
    if n == 0 then 1 else 2 * Pow2(n - 1)
  }

  lemma Pow2Of23()
    ensures Pow2(23) == 0x80_0000
  {
    assert Pow2(6) == 0x40 && Pow2(12) == 0x1000 && Pow2(18) == 0x4_0000;
  }

  /** Doubles a subnormal significand until its leading bit is bit 23, lowering the exponent. */
  function Normalized(significand: nat, exponent: nat): (r: (nat, nat))
    requires significand < 0x100_0000 && 874 <= exponent <= 897
    requires Pow2(897 - exponent) <= significand
    ensures r.0 < 0x80_0000 && r.1 <= 897
    decreases exponent
  {
    if significand >= 0x80_0000 then (significand - 0x80_0000, exponent)
    else
      Pow2Of23();
      Normalized(2 * significand, exponent - 1)
  }

  /** The bits of a single-precision number as a double; a signalling NaN becomes quiet. */
  function WidenSingle(b: nat): u64
    requires b < 0x1_0000_0000
  {
    var sign := (b / 0x8000_0000) * 0x8000_0000_0000_0000;
    var exponent := (b / 0x80_0000) % 0x100;
    var mantissa := b % 0x80_0000;
    if exponent == 0xff then
      sign + 0x7ff0_0000_0000_0000 +
      (if mantissa == 0 then 0 else if mantissa < 0x40_0000 then (mantissa + 0x40_0000) * 0x2000_0000 else mantissa * 0x2000_0000)
    else if exponent != 0 then sign + (exponent + 896) * 0x10_0000_0000_0000 + mantissa * 0x2000_0000
    else if mantissa == 0 then sign
    else
      var (m, e) := Normalized(mantissa, 897);
      sign + e * 0x10_0000_0000_0000 + m * 0x2000_0000
  }

  function KeyOf(o: Object): Bytes {
    if o.String? then o.s else []
  }

  function ToJson(o: Object): Value {
    match o
    case Nil => Null
    case Boolean(b) => Bool(b)
    case PositiveInteger(n) => Unsigned(n)
    case NegativeInteger(i) => Signed(i)
    case Float32(single) => if single < 0x1_0000_0000 then Float(WidenSingle(single)) else Null
    case Float64(bits) => Float(bits)
    case String(s) => Str(s)
    case Bin(data) => Str(data)
    case Array(items) => Arr(ToJsonAll(items))
    case Map(kvs) => Obj(InsertAll([], kvs))
    case Ext(_, _) => Null
  }

  function ToJsonAll(items: seq<Object>): (vs: seq<Value>)
    ensures |vs| == |items|
  {
    if items == [] then [] else [ToJson(items[0])] + ToJsonAll(items[1..])
  }

  /** Assigns the key-value pairs from left to right. */
  function InsertAll(fields: seq<Field>, kvs: seq<Object>): seq<Field>
    decreases kvs
  {
    if |kvs| < 2 then fields
    else InsertAll(Insert(fields, KeyOf(kvs[0]), ToJson(kvs[1])), kvs[2..])
  }

  /** None stands for the exception on malformed or short input; bytes after the item are ignored. */
  function Decode(bs: Bytes): Option<Value> {
    match Unpack(bs)
    case None => None
    case Some(Parsed(o, _)) => Some(ToJson(o))
  }

  // ---------- the source's loops ----------

  /** The packer and the buffer it appends to. */
  class Packer {
    var buffer: Bytes

    constructor ()
      ensures buffer == []
    {
      buffer := [];
    }

    method Append(bs: Bytes)
      modifies this
      ensures buffer == old(buffer) + bs
    {
      buffer := buffer + bs;
    }

    method PackStr(s: Bytes)
      modifies this
      ensures buffer == old(buffer) + EncodeStr(s)
    {
      Append(PackStrHead(Cast32(|s|)));
      Append(s);
    }

    method PackJson(v: Value)
      modifies this
      ensures buffer == old(buffer) + Encode(v)
      decreases v, 1
    {
      match v {
        case Null => Append([0xc0]);
        case Bool(b) =>
          if b {
            Append([0xc3]);
          } else {
            Append([0xc2]);
          }
        case Unsigned(n) => Append(PackUnsigned(n));
        case Signed(i) => Append(PackSigned(i));
        case Float(bits) => Append(PackDouble(bits));
        case Str(s) => PackStr(s);
        case Arr(items) => PackArray(items);
        case Obj(fields) => PackMap(fields);
        case Binary(_) => Append([0xc0]);
      }
    }

    method PackArray(items: seq<Value>)
      modifies this
      ensures buffer == old(buffer) + (PackArrayHead(Cast32(|items|)) + EncodeAll(items))
      decreases items, 0
    {
      Append(PackArrayHead(Cast32(|items|)));
      ghost var start := buffer;
      for i := 0 to |items|
        invariant buffer + EncodeAll(items[i..]) == start + EncodeAll(items)
      {
        Assoc(buffer, Encode(items[i]), EncodeAll(items[i + 1..]));
        assert items[i..][1..] == items[i + 1..];
        PackJson(items[i]);
      }
      Assoc(old(buffer), PackArrayHead(Cast32(|items|)), EncodeAll(items));
    }

    method PackMap(fields: seq<Field>)
      modifies this
      ensures buffer == old(buffer) + (PackMapHead(Cast32(|fields|)) + EncodeFields(fields))
      decreases fields, 0
    {
      Append(PackMapHead(Cast32(|fields|)));
      ghost var start := buffer;
      for i := 0 to |fields|
        invariant buffer + EncodeFields(fields[i..]) == start + EncodeFields(fields)
      {
        ghost var key, value := EncodeStr(fields[i].key), Encode(fields[i].value);
        Assoc(buffer, key + value, EncodeFields(fields[i + 1..]));
        Assoc(buffer, key, value);
        assert fields[i..][1..] == fields[i + 1..];
        PackStr(fields[i].key);
        PackJson(fields[i].value);
      }
      Assoc(old(buffer), PackMapHead(Cast32(|fields|)), EncodeFields(fields));
    }
  }

  method EncodeMsgPack(v: Value) returns (bs: Bytes)
    ensures bs == Encode(v)
  {
    var packer := new Packer();
    packer.PackJson(v);
    bs := packer.buffer;
  }

  method UnpackObject(o: Object) returns (v: Value)
    ensures v == ToJson(o)
    decreases o, 1
  {
    match o {
      case Nil => v := Null;
      case Boolean(b) => v := Bool(b);
      case PositiveInteger(n) => v := Unsigned(n);
      case NegativeInteger(i) => v := Signed(i);
      case Float32(_) => v := ToJson(o);
      case Float64(bits) => v := Float(bits);
      case String(s) => v := Str(s);
      case Bin(data) => v := Str(data);
      case Array(items) =>
        var arr := UnpackArrayItems(items);
        v := Arr(arr);
      case Map(kvs) =>
        var map_ := UnpackMapEntries(kvs);
        v := Obj(map_);
      case Ext(_, _) => v := Null;
    }
  }

  method UnpackArrayItems(items: seq<Object>) returns (arr: seq<Value>)
    ensures arr == ToJsonAll(items)
    decreases items, 0
  {
    arr := [];
    for i := 0 to |items|
      invariant arr + ToJsonAll(items[i..]) == ToJsonAll(items)
    {
      var x := UnpackObject(items[i]);
      AssocValues(arr, [x], ToJsonAll(items[i + 1..]));
      assert items[i..][1..] == items[i + 1..];
      arr := arr + [x];
    }
  }

  lemma AssocValues(a: seq<Value>, b: seq<Value>, c: seq<Value>)
    ensures (a + b) + c == a + (b + c)
  {
  }

  method UnpackMapEntries(kvs: seq<Object>) returns (fields: seq<Field>)
    ensures fields == InsertAll([], kvs)
    decreases kvs, 0
  {
    fields := [];
    var i := 0;
    while i + 1 < |kvs|
      invariant i <= |kvs|
      invariant InsertAll(fields, kvs[i..]) == InsertAll([], kvs)
    {
      var value := UnpackObject(kvs[i + 1]);
      assert kvs[i..][2..] == kvs[i + 2..];
      fields := Insert(fields, KeyOf(kvs[i]), value);
      i := i + 2;
    }
  }

  method DecodeMsgPack(bs: Bytes) returns (r: Option<Value>)
    ensures r == Decode(bs)
  {
    match Unpack(bs) {
      case None => r := None;
      case Some(Parsed(o, _)) =>
        var v := UnpackObject(o);
        r := Some(v);
    }
  }
}
