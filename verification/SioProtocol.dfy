/** The binary event frame: building one, and the binary branch of parsing. */
module SioProtocol {
  import opened Bytes
  import opened Wrappers
  import opened Json
  import opened MsgPackCodec
  import opened MsgPackProofs

  const EVENT: int := 2
  const BINARY_EVENT: int := 5
  const MARKER: byte := 4

  const DATA: Bytes := [0x64, 0x61, 0x74, 0x61]
  const NSP: Bytes := [0x6e, 0x73, 0x70]
  const TYPE: Bytes := [0x74, 0x79, 0x70, 0x65]
  const SLASH: Bytes := [0x2f]

  /** Only these two kinds come out of the binary branch. */
  datatype ParsedFrame =
    | Other
    | Event(name: Bytes, data: Value)

  /** The exception of a "type" that is not a number, which parsing does not catch. */
  datatype ParseError = TypeError

  // ---------- specification ----------

  function EventArgs(name: Bytes, data: Value): seq<Value> {
    if data.Null? then [Str(name)] else [Str(name), data]
  }

  /** The fields in the order of their keys, as std::map holds them. */
  function EventPacket(name: Bytes, data: Value): Value {
    Obj([Field(DATA, Arr(EventArgs(name, data))), Field(NSP, Str(SLASH)), Field(TYPE, Unsigned(EVENT))])
  }

  function EventFrame(name: Bytes, data: Value): Bytes {
    [MARKER] + Encode(EventPacket(name, data))
  }

  /** Conversion of a number to a 32-bit int keeps the low bits. */
  function IntOf(x: int): int {
    var low := x % 0x1_0000_0000;
    if low < 0x8000_0000 then low else low - 0x1_0000_0000
  }

  /** The whole numbers of [2,3) and [5,6) as doubles; no other double converts to 2 or 5. */
  function IntOfDouble(bits: u64): int {
    if 0x4000_0000_0000_0000 <= bits < 0x4008_0000_0000_0000 then 2
    else if 0x4014_0000_0000_0000 <= bits < 0x4018_0000_0000_0000 then 5
    else -1
  }

  /** packet.value("type", -1) */
  function PacketType(fields: seq<Field>): Result<int, ParseError> {
    match Lookup(fields, TYPE)
    case None => Ok(-1)
    case Some(Unsigned(n)) => Ok(IntOf(n))
    case Some(Signed(i)) => Ok(IntOf(i))
    case Some(Float(bits)) => Ok(IntOfDouble(bits))
    case Some(Bool(b)) => Ok(if b then 1 else 0)
    case Some(_) => Err(TypeError)
  }

  function EventOf(fields: seq<Field>): ParsedFrame {
    match Lookup(fields, DATA)
    case Some(Arr(args)) =>
      if args != [] && args[0].Str? then Event(args[0].s, if |args| > 1 then args[1] else Null) else Other
    case _ => Other
  }

  function Parse(payload: Bytes): Result<ParsedFrame, ParseError> {
    if payload == [] || payload[0] != MARKER then Ok(Other)
    else
      match Decode(payload[1..])
      case Some(Obj(fields)) =>
        (match PacketType(fields)
         case Err(e) => Err(e)
         case Ok(t) => if t == EVENT || t == BINARY_EVENT then Ok(EventOf(fields)) else Ok(Other))
      case _ => Ok(Other)
  }

  // ---------- the source's steps ----------

  method BuildEventFrame(name: Bytes, data: Value) returns (frame: Bytes)
    ensures frame == EventFrame(name, data)
  {
    var args := [Str(name)];
    if !data.Null? {
      args := args + [data];
    }
    KeysOrdered();
    var fields: seq<Field> := [];
    fields := Insert(fields, TYPE, Unsigned(EVENT));
    assert fields == [Field(TYPE, Unsigned(EVENT))];
    fields := Insert(fields, NSP, Str(SLASH));
    assert fields == [Field(NSP, Str(SLASH)), Field(TYPE, Unsigned(EVENT))];
    fields := Insert(fields, DATA, Arr(args));
    assert args == EventArgs(name, data);
    assert fields == EventPacket(name, data).fields;
    var encoded := EncodeMsgPack(Obj(fields));
    frame := [MARKER];
    frame := frame + encoded;
  }

  method ParseFrame(payload: Bytes) returns (r: Result<ParsedFrame, ParseError>)
    ensures r == Parse(payload)
  {
    var result := Other;
    if payload == [] {
      return Ok(result);
    }
    if payload[0] != MARKER {
      return Ok(result);
    }
    var decoded := DecodeMsgPack(payload[1..]);
    if decoded.None? {
      return Ok(result);
    }
    var packet := decoded.value;
    if !packet.Obj? {
      return Ok(result);
    }
    var t := PacketType(packet.fields);
    if t.Err? {
      return Err(t.error);
    }
    if t.value == EVENT || t.value == BINARY_EVENT {
      var args := Lookup(packet.fields, DATA);
      if args.Some? && args.value.Arr? && args.value.items != [] && args.value.items[0].Str? {
        var data := Null;
        if |args.value.items| > 1 {
          data := args.value.items[1];
        }
        result := Event(args.value.items[0].s, data);
      }
    }
    return Ok(result);
  }

  // ---------- results ----------

  lemma KeysOrdered()
    ensures Less(DATA, NSP) && Less(NSP, TYPE) && Less(DATA, TYPE)
    ensures DATA != NSP && DATA != TYPE && NSP != TYPE
  {
    assert DATA[0] < NSP[0] < TYPE[0];
  }

  /** The list functions of the codec on a list of three. */
  lemma Three(a: Field, b: Field, c: Field)
    ensures SizedFields([a, b, c])
       <==> && |a.key| < 0x1_0000_0000 && Sized(a.value)
            && |b.key| < 0x1_0000_0000 && Sized(b.value)
            && |c.key| < 0x1_0000_0000 && Sized(c.value)
    ensures NormalizeFields([a, b, c])
         == [Field(a.key, Normalize(a.value)), Field(b.key, Normalize(b.value)), Field(c.key, Normalize(c.value))]
    ensures a.key != b.key && a.key != c.key && b.key != c.key ==>
      Lookup([a, b, c], a.key) == Some(a.value) && Lookup([a, b, c], c.key) == Some(c.value)
  {
    assert [a, b, c][1..] == [b, c] && [b, c][1..] == [c] && [c][1..] == [];
    assert Lookup([b, c], c.key) == if b.key == c.key then Some(b.value) else Lookup([c], c.key);
    assert NormalizeFields([b, c]) == [Field(b.key, Normalize(b.value))] + NormalizeFields([c]);
    assert SizedFields([c]) <==> |c.key| < 0x1_0000_0000 && Sized(c.value);
    assert SizedFields([b, c]) <==> |b.key| < 0x1_0000_0000 && Sized(b.value) && SizedFields([c]);
  }

  lemma ArgsLists(name: Bytes, data: Value)
    ensures SizedAll(EventArgs(name, data)) <==> |name| < 0x1_0000_0000 && Sized(data)
    ensures NormalizeAll(EventArgs(name, data)) == if data.Null? then [Str(name)] else [Str(name), Normalize(data)]
  {
    var args := EventArgs(name, data);
    if data.Null? {
      assert args[1..] == [];
    } else {
      assert args[1..] == [data] && [data][1..] == [];
      assert NormalizeAll([data]) == [Normalize(data)];
      assert SizedAll([data]) <==> Sized(data);
    }
  }

  lemma PacketWellFormed(name: Bytes, data: Value)
    requires WellFormed(data)
    ensures WellFormed(EventPacket(name, data))
    ensures Sized(EventPacket(name, data)) <==> |name| < 0x1_0000_0000 && Sized(data)
  {
    KeysOrdered();
    ArgsLists(name, data);
    var fields := EventPacket(name, data).fields;
    Three(fields[0], fields[1], fields[2]);
  }

  lemma PacketNormalized(name: Bytes, data: Value)
    ensures var args := if data.Null? then [Str(name)] else [Str(name), Normalize(data)];
      Normalize(EventPacket(name, data)) == Obj([Field(DATA, Arr(args)), Field(NSP, Str(SLASH)), Field(TYPE, Unsigned(EVENT))])
  {
    ArgsLists(name, data);
    var fields := EventPacket(name, data).fields;
    Three(fields[0], fields[1], fields[2]);
  }

  /** What a decoded packet yields is itself sized. */
  lemma ParsedIsSized(payload: Bytes)
    requires Parse(payload).Ok? && Parse(payload).value.Event?
    ensures |Parse(payload).value.name| < 0x1_0000_0000 && Sized(Parse(payload).value.data)
  {
    DecodedIsClean(payload[1..]);
    var fields := Decode(payload[1..]).value.fields;
    LookupSized(fields, DATA);
    var args := Lookup(fields, DATA).value.items;
    assert SizedAll(args) && Sized(args[0]);
    if |args| > 1 {
      assert SizedAll(args[1..]) && args[1..][0] == args[1];
    }
  }

  lemma {:induction false} LookupSized(fields: seq<Field>, key: Bytes)
    requires SizedFields(fields) && Lookup(fields, key).Some?
    ensures Sized(Lookup(fields, key).value)
  {
    if fields[0].key != key {
      LookupSized(fields[1..], key);
    }
  }

  lemma FrameParses(name: Bytes, data: Value, fields: seq<Field>)
    requires Decode(Encode(EventPacket(name, data))) == Some(Obj(fields))
    requires fields == [Field(DATA, Arr(if data.Null? then [Str(name)] else [Str(name), Normalize(data)])),
                        Field(NSP, Str(SLASH)), Field(TYPE, Unsigned(EVENT))]
    ensures Parse(EventFrame(name, data)) == Ok(Event(name, Normalize(data)))
  {
    hide Decode, Encode;
    KeysOrdered();
    Three(fields[0], fields[1], fields[2]);
    assert EventFrame(name, data)[1..] == Encode(EventPacket(name, data));
    assert PacketType(fields) == Ok(EVENT);
  }

  /**
   Parsing a built frame gives back the event name and the normalised data exactly when every
   length in them is below 2^32. A null payload, which is left out of the frame, comes back as null.
   */
  lemma FrameRoundTrip(name: Bytes, data: Value)
    requires WellFormed(data)
    ensures Parse(EventFrame(name, data)) == Ok(Event(name, Normalize(data)))
       <==> |name| < 0x1_0000_0000 && Sized(data)
  {
    hide Parse, Decode, Encode;
    var packet := EventPacket(name, data);
    PacketWellFormed(name, data);
    if |name| < 0x1_0000_0000 && Sized(data) {
      RoundTrip(packet);
      PacketNormalized(name, data);
      FrameParses(name, data, Normalize(packet).fields);
    } else if Parse(EventFrame(name, data)) == Ok(Event(name, Normalize(data))) {
      ParsedIsSized(EventFrame(name, data));
      NormalizeSized(data);
    }
  }

  /** Leaving out a null payload loses nothing: only null (and binary data) comes back as null. */
  lemma NothingElseBecomesNull(name: Bytes, data: Value)
    requires WellFormed(data) && |name| < 0x1_0000_0000 && Sized(data)
    ensures Parse(EventFrame(name, data)) == Ok(Event(name, Null)) <==> data.Null? || data.Binary?
    ensures Parse(EventFrame(name, data)) == Ok(Event(name, data)) <==> Normal(data)
  {
    FrameRoundTrip(name, data);
    NormalIsFixed(data);
  }

  /** false, 0, the empty string and empty containers arrive unchanged. */
  lemma EmptyPayloadsPreserved(name: Bytes)
    requires |name| < 0x1_0000_0000
    ensures forall data | data in {Bool(false), Unsigned(0), Str([]), Arr([]), Obj([])} ::
      Parse(EventFrame(name, data)) == Ok(Event(name, data))
  {
    forall data | data in {Bool(false), Unsigned(0), Str([]), Arr([]), Obj([])}
      ensures Parse(EventFrame(name, data)) == Ok(Event(name, data))
    {
      NothingElseBecomesNull(name, data);
    }
  }
}
