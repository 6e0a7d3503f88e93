/** The event frame byte by byte, and exactly which payloads the binary branch takes for an event. */
module SioFrames {
  import opened Bytes
  import opened Wrappers
  import opened Json
  import opened MsgPackCodec
  import opened MsgPackFloats
  import opened MsgPackProofs
  import opened SioProtocol

  // ---------- writing ----------

  /**
   On the wire an event is the byte 4 and a packet of "data", the name and the payload unless it
   is null, "nsp", which is "/", and "type", which is 2.
   */
  lemma FrameOnTheWire(name: Bytes, data: Value)
    requires WellFormed(data) && |name| < 0x1_0000_0000 && Sized(data)
    ensures var frame := EventFrame(name, data);
      && frame[..1] == [4]
      && Decode(frame[1..])
      == Some(Obj([Field([0x64, 0x61, 0x74, 0x61], Arr(if data.Null? then [Str(name)] else [Str(name), Normalize(data)])),
                   Field([0x6e, 0x73, 0x70], Str([0x2f])),
                   Field([0x74, 0x79, 0x70, 0x65], Unsigned(2))]))
  {
    hide Decode, Encode;
    PacketWellFormed(name, data);
    RoundTrip(EventPacket(name, data));
    PacketNormalized(name, data);
    assert EventFrame(name, data)[1..] == Encode(EventPacket(name, data));
  }

  // ---------- numbers as packet types ----------

  lemma {:induction false} Pow2Monotone(a: nat, b: nat)
    requires a <= b
    ensures Pow2(a) <= Pow2(b)
  {
    if a < b {
      Pow2Monotone(a, b - 1);
    }
  }

  lemma {:induction false} Pow2Positive(a: nat)
    ensures Pow2(a) >= 1
  {
    if a > 0 {
      Pow2Positive(a - 1);
    }
  }

  lemma LessTimes(a: nat, b: nat, k: nat)
    requires a < b && k >= 1
    ensures a * k < b * k
  {
  }

  lemma AtMostTimes(a: nat, b: nat, j: nat, k: nat)
    requires a <= b && j <= k
    ensures a * j <= b * k
  {
  }

  /** A smaller exponent gives a smaller number, whatever the mantissas. */
  lemma SmallerExponent(m: nat, e: nat, m': nat, e': nat)
    requires m < 0x10_0000_0000_0000 && 1 <= e < e'
    ensures (0x10_0000_0000_0000 + m) * Pow2(e - 1) < (0x10_0000_0000_0000 + m') * Pow2(e' - 1)
  {
    Pow2Monotone(e, e' - 1);
    Pow2Positive(e - 1);
    LessTimes(0x10_0000_0000_0000 + m, 0x20_0000_0000_0000, Pow2(e - 1));
    assert 0x20_0000_0000_0000 * Pow2(e - 1) == 0x10_0000_0000_0000 * Pow2(e);
    AtMostTimes(0x10_0000_0000_0000, 0x10_0000_0000_0000 + m', Pow2(e), Pow2(e' - 1));
  }

  lemma UnitsBelow(bits: nat, m: nat, e: nat)
    requires m < 0x10_0000_0000_0000 && e >= 1
    ensures Units64(bits) < (0x10_0000_0000_0000 + m) * Pow2(e - 1)
       <==> Exponent64(bits) < e || (Exponent64(bits) == e && Mantissa64(bits) < m)
  {
    hide Pow2;
    var f, n := Exponent64(bits), Mantissa64(bits);
    Pow2Positive(e - 1);
    if f == 0 {
      AtMostTimes(0x10_0000_0000_0000, 0x10_0000_0000_0000 + m, 1, Pow2(e - 1));
    } else if f < e {
      SmallerExponent(n, f, m, e);
    } else if f > e {
      SmallerExponent(m, e, n, f);
    } else if n < m {
      LessTimes(0x10_0000_0000_0000 + n, 0x10_0000_0000_0000 + m, Pow2(e - 1));
    } else {
      AtMostTimes(0x10_0000_0000_0000 + m, 0x10_0000_0000_0000 + n, Pow2(e - 1), Pow2(e - 1));
    }
  }

  lemma BitsBelow(bits: u64, m: nat, e: nat)
    requires m < 0x10_0000_0000_0000 && e < 0x800
    ensures bits < e * 0x10_0000_0000_0000 + m
       <==> Sign64(bits) == 0 && (Exponent64(bits) < e || (Exponent64(bits) == e && Mantissa64(bits) < m))
  {
    var q := bits / 0x10_0000_0000_0000;
    assert bits == q * 0x10_0000_0000_0000 + Mantissa64(bits);
    SignIsTop(bits, q);
  }

  lemma SignIsTop(bits: u64, q: nat)
    requires q == bits / 0x10_0000_0000_0000
    ensures q == Sign64(bits) * 0x800 + Exponent64(bits)
  {
    assert q / 0x800 == Sign64(bits);
  }

  /** The numbers that a double stands for are ordered as their bits are. */
  lemma UnitsOrdered(bits: u64, m: nat, e: nat)
    requires m < 0x10_0000_0000_0000 && 1 <= e < 0x800 && Sign64(bits) == 0
    ensures bits < e * 0x10_0000_0000_0000 + m <==> Units64(bits) < (0x10_0000_0000_0000 + m) * Pow2(e - 1)
  {
    hide Units64, Pow2, Exponent64, Mantissa64, Sign64;
    UnitsBelow(bits, m, e);
    BitsBelow(bits, m, e);
  }

  lemma Positive(bits: u64)
    ensures Sign64(bits) == 0 <==> bits < 0x8000_0000_0000_0000
  {
  }

  /** 2, 3, 5 and 6 as a mantissa and a power of two. */
  lemma WholeNumbers()
    ensures 2 * Pow2(1074) == 0x10_0000_0000_0000 * Pow2(1023)
    ensures 3 * Pow2(1074) == 0x18_0000_0000_0000 * Pow2(1023)
    ensures 5 * Pow2(1074) == 0x14_0000_0000_0000 * Pow2(1024)
    ensures 6 * Pow2(1074) == 0x18_0000_0000_0000 * Pow2(1024)
  {
    hide Pow2;
    Pow2Of51();
    Pow2Add(51, 1023);
    DoublePow2(1023);
  }

  lemma DoublePow2(n: nat)
    ensures Pow2(n + 1) == 2 * Pow2(n)
  {
  }

  lemma Pow2Of51()
    ensures Pow2(51) == 0x8_0000_0000_0000
  {
    Pow2Of23();
    Pow2Of29();
    Pow2Add(22, 29);
    assert Pow2(23) == 2 * Pow2(22);
  }

  /** A finite double is taken for 2 or 5 exactly if that is its whole part. */
  lemma WholePart(bits: u64)
    ensures IntOfDouble(bits) == 2 <==> Sign64(bits) == 0 && 2 * Pow2(1074) <= Units64(bits) < 3 * Pow2(1074)
    ensures IntOfDouble(bits) == 5 <==> Sign64(bits) == 0 && 5 * Pow2(1074) <= Units64(bits) < 6 * Pow2(1074)
  {
    hide Units64, Pow2, Sign64;
    Positive(bits);
    WholeNumbers();
    if Sign64(bits) == 0 {
      UnitsOrdered(bits, 0, 1024);
      UnitsOrdered(bits, 0x8_0000_0000_0000, 1024);
      UnitsOrdered(bits, 0x4_0000_0000_0000, 1025);
      UnitsOrdered(bits, 0x8_0000_0000_0000, 1025);
    }
  }

  // ---------- parsing ----------

  /** The numbers that mean an event: 2 or 5, in the low 32 bits of an integer or as the whole part of a double. */
  predicate MeansEvent(t: Value) {
    match t
    case Unsigned(n) => n % 0x1_0000_0000 in {2, 5}
    case Signed(i) => i % 0x1_0000_0000 in {2, 5}
    case Float(bits) =>
      && Sign64(bits) == 0
      && (2 * Pow2(1074) <= Units64(bits) < 3 * Pow2(1074) || 5 * Pow2(1074) <= Units64(bits) < 6 * Pow2(1074))
    case _ => false
  }

  predicate IsNumber(t: Value) {
    t.Unsigned? || t.Signed? || t.Float? || t.Bool?
  }

  lemma TypeMeans(fields: seq<Field>)
    ensures var t := Lookup(fields, [0x74, 0x79, 0x70, 0x65]);
      && (PacketType(fields).Err? <==> t.Some? && !IsNumber(t.value))
      && (PacketType(fields) in {Ok(2), Ok(5)} <==> t.Some? && MeansEvent(t.value))
  {
    hide Units64, Pow2, Sign64, Lookup, IntOfDouble;
    var t := Lookup(fields, [0x74, 0x79, 0x70, 0x65]);
    if t.Some? && t.value.Float? {
      WholePart(t.value.bits);
    }
  }

  /** The packet of a payload: what follows the byte 4, if it is an object. */
  function PacketOf(payload: Bytes): Option<seq<Field>> {
    if payload == [] || payload[0] != 4 then None
    else
      match Decode(payload[1..])
      case Some(Obj(fields)) => Some(fields)
      case _ => None
  }

  /** Exactly these payloads are events, of this name and data: whatever else they hold is ignored. */
  lemma EventIff(payload: Bytes, name: Bytes, data: Value)
    ensures Parse(payload) == Ok(Event(name, data)) <==>
      && PacketOf(payload).Some?
      && var fields := PacketOf(payload).value;
      var t, args := Lookup(fields, [0x74, 0x79, 0x70, 0x65]), Lookup(fields, [0x64, 0x61, 0x74, 0x61]);
      && t.Some? && MeansEvent(t.value)
      && args.Some? && args.value.Arr? && args.value.items != [] && args.value.items[0] == Str(name)
      && data == if |args.value.items| > 1 then args.value.items[1] else Null
  {
    hide Decode, PacketType, MeansEvent, Lookup;
    if PacketOf(payload).Some? {
      TypeMeans(PacketOf(payload).value);
    }
  }

  /** Parsing raises exactly if there is a packet whose "type" is neither a number nor a truth value. */
  lemma RaisesIff(payload: Bytes)
    ensures Parse(payload).Err? <==>
      && PacketOf(payload).Some?
      && var t := Lookup(PacketOf(payload).value, [0x74, 0x79, 0x70, 0x65]);
      t.Some? && !IsNumber(t.value)
  {
    hide Decode, PacketType, Lookup;
    if PacketOf(payload).Some? {
      TypeMeans(PacketOf(payload).value);
    }
  }
}
