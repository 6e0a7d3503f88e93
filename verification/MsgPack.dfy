/**
 The MessagePack byte layer ("Formats" section of the MessagePack specification): the first
 bytes of an item, the smallest-format choice of the packer, and the unpacker.
 */
module MsgPack {
  import opened Bytes
  import opened Wrappers
  import opened Json

  /** An unpacked item. A map lists its keys and values alternately. */
  datatype Object =
    | Nil
    | Boolean(b: bool)
    | PositiveInteger(n: u64)
    | NegativeInteger(i: i64)
    | Float32(single: nat)
    | Float64(bits: u64)
    | String(s: Bytes)
    | Bin(data: Bytes)
    | Array(items: seq<Object>)
    | Map(keysAndValues: seq<Object>)
    | Ext(kind: byte, data: Bytes)

  /** What the leading bytes of an item announce. */
  datatype Head =
    | Scalar(o: Object)
    | StrBody(length: nat)
    | BinBody(length: nat)
    | ExtBody(length: nat)
    | ArrayOf(count: nat)
    | MapOf(count: nat)

  datatype Parsed<T> = Parsed(value: T, size: nat)

  // ---------- packing ----------

  function PackUnsigned(n: u64): (bs: Bytes)
    ensures bs != []
  {
    Widths();
    if n < 0x80 then [n]
    else if n < 0x100 then [0xcc] + BigEndian(n, 1)
    else if n < 0x1_0000 then [0xcd] + BigEndian(n, 2)
    else if n < 0x1_0000_0000 then [0xce] + BigEndian(n, 4)
    else [0xcf] + BigEndian(n, 8)
  }

  function PackSigned(i: i64): (bs: Bytes)
    ensures bs != []
  {
    Widths();
    if i >= 0 then PackUnsigned(i)
    else if i >= -0x20 then [0x100 + i]
    else if i >= -0x80 then [0xd0] + BigEndian(0x100 + i, 1)
    else if i >= -0x8000 then [0xd1] + BigEndian(0x1_0000 + i, 2)
    else if i >= -0x8000_0000 then [0xd2] + BigEndian(0x1_0000_0000 + i, 4)
    else [0xd3] + BigEndian(0x1_0000_0000_0000_0000 + i, 8)
  }

  function PackDouble(bits: u64): (bs: Bytes)
    ensures bs != []
  {
    Widths();
    [0xcb] + BigEndian(bits, 8)
  }

  function PackStrHead(length: nat): (bs: Bytes)
    requires length < 0x1_0000_0000
    ensures bs != []
  {
    Widths();
    if length < 32 then [0xa0 + length]
    else if length < 0x100 then [0xd9] + BigEndian(length, 1)
    else if length < 0x1_0000 then [0xda] + BigEndian(length, 2)
    else [0xdb] + BigEndian(length, 4)
  }

  function PackArrayHead(count: nat): (bs: Bytes)
    requires count < 0x1_0000_0000
    ensures bs != []
  {
    Widths();
    if count < 16 then [0x90 + count]
    else if count < 0x1_0000 then [0xdc] + BigEndian(count, 2)
    else [0xdd] + BigEndian(count, 4)
  }

  function PackMapHead(count: nat): (bs: Bytes)
    requires count < 0x1_0000_0000
    ensures bs != []
  {
    Widths();
    if count < 16 then [0x80 + count]
    else if count < 0x1_0000 then [0xde] + BigEndian(count, 2)
    else [0xdf] + BigEndian(count, 4)
  }

  // ---------- unpacking ----------

  datatype Family = UIntFamily | IntFamily | SingleFamily | DoubleFamily | StrFamily | BinFamily | ExtFamily | ArrayFamily | MapFamily

  /** What a first byte means: the whole head, or a big-endian number of `width` bytes follows. */
  datatype Format =
    | Unused
    | Complete(head: Head)
    | Number(family: Family, width: nat)

  function FormatOf(t: byte): Format {
    if t < 0x80 then Complete(Scalar(PositiveInteger(t)))
    else if t < 0x90 then Complete(MapOf(t - 0x80))
    else if t < 0xa0 then Complete(ArrayOf(t - 0x90))
    else if t < 0xc0 then Complete(StrBody(t - 0xa0))
    else if t >= 0xe0 then Complete(Scalar(NegativeInteger(t as int - 0x100)))
    else match t
         case 0xc0 => Complete(Scalar(Nil))
         case 0xc1 => Unused
         case 0xc2 => Complete(Scalar(Boolean(false)))
         case 0xc3 => Complete(Scalar(Boolean(true)))
         case 0xc4 => Number(BinFamily, 1)
         case 0xc5 => Number(BinFamily, 2)
         case 0xc6 => Number(BinFamily, 4)
         case 0xc7 => Number(ExtFamily, 1)
         case 0xc8 => Number(ExtFamily, 2)
         case 0xc9 => Number(ExtFamily, 4)
         case 0xca => Number(SingleFamily, 4)
         case 0xcb => Number(DoubleFamily, 8)
         case 0xcc => Number(UIntFamily, 1)
         case 0xcd => Number(UIntFamily, 2)
         case 0xce => Number(UIntFamily, 4)
         case 0xcf => Number(UIntFamily, 8)
         case 0xd0 => Number(IntFamily, 1)
         case 0xd1 => Number(IntFamily, 2)
         case 0xd2 => Number(IntFamily, 4)
         case 0xd3 => Number(IntFamily, 8)
         case 0xd4 => Complete(ExtBody(1))
         case 0xd5 => Complete(ExtBody(2))
         case 0xd6 => Complete(ExtBody(4))
         case 0xd7 => Complete(ExtBody(8))
         case 0xd8 => Complete(ExtBody(16))
         case 0xd9 => Number(StrFamily, 1)
         case 0xda => Number(StrFamily, 2)
         case 0xdb => Number(StrFamily, 4)
         case 0xdc => Number(ArrayFamily, 2)
         case 0xdd => Number(ArrayFamily, 4)
         case 0xde => Number(MapFamily, 2)
         case _ => Number(MapFamily, 4)
  }

  /** A two's complement number reads as a positive integer when it is not negative. */
  function HeadOf(family: Family, width: nat, n: nat): Head
    requires n < Pow256(width) && width <= 8
  {
    PowMonotone(width, 8);
    Widths();
    match family
    case UIntFamily => Scalar(PositiveInteger(n))
    case IntFamily => Scalar(if n < Pow256(width) / 2 then PositiveInteger(n) else NegativeInteger(n - Pow256(width)))
    case SingleFamily => Scalar(Float32(n))
    case DoubleFamily => Scalar(Float64(n))
    case StrFamily => StrBody(n)
    case BinFamily => BinBody(n)
    case ExtFamily => ExtBody(n)
    case ArrayFamily => ArrayOf(n)
    case MapFamily => MapOf(n)
  }

  /** None when the first byte is 0xc1, which is never used, or the number is cut short. */
  function ReadHead(bs: Bytes): (r: Option<Parsed<Head>>)
    ensures r.Some? ==> 0 < r.value.size <= |bs|
  {
    if bs == [] then None
    else
      match FormatOf(bs[0])
      case Unused => None
      case Complete(head) => Some(Parsed(head, 1))
      case Number(family, width) =>
        if |bs| < 1 + width then None
        else
          FromBigEndianBound(bs[1..1 + width]);
          Some(Parsed(HeadOf(family, width, FromBigEndian(bs[1..1 + width])), 1 + width))
  }

  /** The first item of `bs` and how many bytes it takes; None when malformed or cut short. */
  function Unpack(bs: Bytes): (r: Option<Parsed<Object>>)
    ensures r.Some? ==> 0 < r.value.size <= |bs|
    decreases |bs|, 0
  {
    match ReadHead(bs)
    case None => None
    case Some(Parsed(head, h)) =>
      var rest := bs[h..];
      match head
      case Scalar(o) => Some(Parsed(o, h))
      case StrBody(n) => if |rest| < n then None else Some(Parsed(String(rest[..n]), h + n))
      case BinBody(n) => if |rest| < n then None else Some(Parsed(Bin(rest[..n]), h + n))
      case ExtBody(n) => if |rest| < 1 + n then None else Some(Parsed(Ext(rest[0], rest[1..1 + n]), h + 1 + n))
      case ArrayOf(n) =>
        (match UnpackMany(rest, n)
         case None => None
         case Some(Parsed(items, k)) => Some(Parsed(Array(items), h + k)))
      case MapOf(n) =>
        (match UnpackMany(rest, 2 * n)
         case None => None
         case Some(Parsed(items, k)) => Some(Parsed(Map(items), h + k)))
  }

  function UnpackMany(bs: Bytes, count: nat): (r: Option<Parsed<seq<Object>>>)
    ensures r.Some? ==> r.value.size <= |bs| && |r.value.value| == count
    decreases |bs|, count
  {
    if count == 0 then Some(Parsed([], 0))
    else
      match Unpack(bs)
      case None => None
      case Some(Parsed(first, k)) =>
        match UnpackMany(bs[k..], count - 1)
        case None => None
        case Some(Parsed(others, m)) => Some(Parsed([first] + others, k + m))
  }

  // ---------- the packer's formats are read back ----------

  lemma NumberRead(t: byte, v: nat, family: Family, width: nat, tail: Bytes)
    requires FormatOf(t) == Number(family, width) && v < Pow256(width) && width <= 8
    ensures ReadHead([t] + BigEndian(v, width) + tail) == Some(Parsed(HeadOf(family, width, v), 1 + width))
  {
    BigEndianRoundTrip(v, width);
    assert ([t] + BigEndian(v, width) + tail)[1..1 + width] == BigEndian(v, width);
  }

  lemma UnsignedRead(n: u64, tail: Bytes)
    ensures ReadHead(PackUnsigned(n) + tail) == Some(Parsed(Scalar(PositiveInteger(n)), |PackUnsigned(n)|))
  {
    Widths();
    if n < 0x80 {
    } else if n < 0x100 {
      NumberRead(0xcc, n, UIntFamily, 1, tail);
    } else if n < 0x1_0000 {
      NumberRead(0xcd, n, UIntFamily, 2, tail);
    } else if n < 0x1_0000_0000 {
      NumberRead(0xce, n, UIntFamily, 4, tail);
    } else {
      NumberRead(0xcf, n, UIntFamily, 8, tail);
    }
  }

  lemma NegativeRead(i: i64, tail: Bytes)
    requires i < -0x20
    ensures ReadHead(PackSigned(i) + tail) == Some(Parsed(Scalar(NegativeInteger(i)), |PackSigned(i)|))
  {
    hide ReadHead, BigEndian, Pow256;
    Widths();
    if i >= -0x80 {
      NumberRead(0xd0, 0x100 + i, IntFamily, 1, tail);
    } else if i >= -0x8000 {
      NumberRead(0xd1, 0x1_0000 + i, IntFamily, 2, tail);
    } else if i >= -0x8000_0000 {
      NumberRead(0xd2, 0x1_0000_0000 + i, IntFamily, 4, tail);
    } else {
      NumberRead(0xd3, 0x1_0000_0000_0000_0000 + i, IntFamily, 8, tail);
    }
  }

  lemma SignedRead(i: i64, tail: Bytes)
    ensures ReadHead(PackSigned(i) + tail)
         == Some(Parsed(Scalar(if i >= 0 then PositiveInteger(i) else NegativeInteger(i)), |PackSigned(i)|))
  {
    hide BigEndian, FromBigEndian, Pow256;
    if i >= 0 {
      UnsignedRead(i, tail);
    } else if i < -0x20 {
      NegativeRead(i, tail);
    }
  }

  lemma DoubleRead(bits: u64, tail: Bytes)
    ensures ReadHead(PackDouble(bits) + tail) == Some(Parsed(Scalar(Float64(bits)), |PackDouble(bits)|))
  {
    Widths();
    NumberRead(0xcb, bits, DoubleFamily, 8, tail);
  }

  lemma StrHeadRead(length: nat, tail: Bytes)
    requires length < 0x1_0000_0000
    ensures ReadHead(PackStrHead(length) + tail) == Some(Parsed(StrBody(length), |PackStrHead(length)|))
  {
    Widths();
    if length < 32 {
    } else if length < 0x100 {
      NumberRead(0xd9, length, StrFamily, 1, tail);
    } else if length < 0x1_0000 {
      NumberRead(0xda, length, StrFamily, 2, tail);
    } else {
      NumberRead(0xdb, length, StrFamily, 4, tail);
    }
  }

  lemma ArrayHeadRead(count: nat, tail: Bytes)
    requires count < 0x1_0000_0000
    ensures ReadHead(PackArrayHead(count) + tail) == Some(Parsed(ArrayOf(count), |PackArrayHead(count)|))
  {
    Widths();
    if count < 16 {
    } else if count < 0x1_0000 {
      NumberRead(0xdc, count, ArrayFamily, 2, tail);
    } else {
      NumberRead(0xdd, count, ArrayFamily, 4, tail);
    }
  }

  lemma MapHeadRead(count: nat, tail: Bytes)
    requires count < 0x1_0000_0000
    ensures ReadHead(PackMapHead(count) + tail) == Some(Parsed(MapOf(count), |PackMapHead(count)|))
  {
    Widths();
    if count < 16 {
    } else if count < 0x1_0000 {
      NumberRead(0xde, count, MapFamily, 2, tail);
    } else {
      NumberRead(0xdf, count, MapFamily, 4, tail);
    }
  }

  // ---------- bounds of whatever is read ----------

  /** Lengths and counts on the wire have at most 32 bits; a negative integer is negative. */
  predicate HeadFits(head: Head) {
    match head
    case Scalar(o) =>
      (match o
       case NegativeInteger(i) => i < 0
       case Float32(single) => single < 0x1_0000_0000
       case String(_) => false
       case Bin(_) => false
       case Array(_) => false
       case Map(_) => false
       case Ext(_, _) => false
       case _ => true)
    case StrBody(n) => n < 0x1_0000_0000
    case BinBody(n) => n < 0x1_0000_0000
    case ExtBody(n) => n < 0x1_0000_0000
    case ArrayOf(n) => n < 0x1_0000_0000
    case MapOf(n) => n < 0x1_0000_0000
  }

  lemma HeadBound(bs: Bytes)
    requires ReadHead(bs).Some?
    ensures HeadFits(ReadHead(bs).value.value)
  {
    Widths();
    if FormatOf(bs[0]).Number? {
      var width := FormatOf(bs[0]).width;
      assert width in {1, 2, 4, 8};
      FromBigEndianBound(bs[1..1 + width]);
    }
  }
}
