/**
 Base64 as in section 4 of RFC 4648, and the two helpers around the library's block routines:
 the buffers they size and the padding they take off.
 */
module Base64 {
  import opened Bytes
  import opened Wrappers

  const PAD: byte := 61

  type Digit = x: int | 0 <= x < 64

  /** The alphabet: A-Z, a-z, 0-9, '+', '/'. */
  function CharOf(d: Digit): byte {
    if d < 26 then 65 + d
    else if d < 52 then 97 + (d - 26)
    else if d < 62 then 48 + (d - 52)
    else if d == 62 then 43
    else 47
  }

  /** The pad character reads as zero, wherever it stands. */
  function DigitOf(c: byte): Option<Digit> {
    if 65 <= c <= 90 then Some(c - 65)
    else if 97 <= c <= 122 then Some(c - 97 + 26)
    else if 48 <= c <= 57 then Some(c - 48 + 52)
    else if c == 43 then Some(62)
    else if c == 47 then Some(63)
    else if c == PAD then Some(0)
    else None
  }

  type Word = n: int | 0 <= n < 0x100_0000

  /** Three bytes as 24 bits. */
  function Bits(a: byte, b: byte, c: byte): Word {
    a * 0x1_0000 + b * 0x100 + c
  }

  /** Four digits as 24 bits. */
  function Join(d0: Digit, d1: Digit, d2: Digit, d3: Digit): Word {
    d0 * 0x4_0000 + d1 * 0x1000 + d2 * 64 + d3
  }

  /** Digit `k` of 24 bits, most significant first. */
  function DigitAt(n: Word, k: nat): Digit
    requires k < 4
  {
    match k
    case 0 => n / 0x4_0000
    case 1 => n / 0x1000 % 64
    case 2 => n / 64 % 64
    case _ => n % 64
  }

  function ByteAt(n: Word, k: nat): byte
    requires k < 3
  {
    match k
    case 0 => n / 0x1_0000
    case 1 => n / 0x100 % 256
    case _ => n % 256
  }

  /** How many bytes the next group takes. */
  function Used(f: Bytes): (k: nat)
    requires f != []
    ensures 1 <= k <= 3 && k <= |f|
  {
    if |f| < 3 then |f| else 3
  }

  function GroupBits(f: Bytes): Word
    requires f != []
  {
    Bits(f[0], if |f| >= 2 then f[1] else 0, if |f| >= 3 then f[2] else 0)
  }

  /** The four characters of the first group. */
  function Group(f: Bytes): (g: Bytes)
    requires f != []
    ensures |g| == 4
  {
    var n := GroupBits(f);
    [CharOf(DigitAt(n, 0)),
     CharOf(DigitAt(n, 1)),
     if |f| >= 2 then CharOf(DigitAt(n, 2)) else PAD,
     if |f| >= 3 then CharOf(DigitAt(n, 3)) else PAD]
  }

  /** What EVP_EncodeBlock writes before the final NUL. */
  function EncodeBlock(f: Bytes): Bytes {
    if f == [] then [] else Group(f) + EncodeBlock(f[Used(f)..])
  }

  function Ungroup(g: Bytes): (r: Option<Bytes>)
    requires |g| == 4
    ensures r.Some? ==> |r.value| == 3
  {
    var d0, d1, d2, d3 := DigitOf(g[0]), DigitOf(g[1]), DigitOf(g[2]), DigitOf(g[3]);
    if d0.None? || d1.None? || d2.None? || d3.None? then None
    else
      var n := Join(d0.value, d1.value, d2.value, d3.value);
      Some([ByteAt(n, 0), ByteAt(n, 1), ByteAt(n, 2)])
  }

  /** What EVP_DecodeBlock writes: three bytes for every four characters, None for its -1. */
  function DecodeBlock(f: Bytes): Option<Bytes>
    requires |f| % 4 == 0
  {
    if f == [] then Some([])
    else
      var rest := f[4..];
      assert |rest| % 4 == 0;
      var group := Ungroup(f[..4]);
      if group.None? then None else Prepend(group.value, DecodeBlock(rest))
  }

  function Prepend(a: Bytes, r: Option<Bytes>): Option<Bytes> {
    if r.None? then None else Some(a + r.value)
  }

  lemma PrependTwice(a: Bytes, b: Bytes, r: Option<Bytes>)
    ensures Prepend(a, Prepend(b, r)) == Prepend(a + b, r)
  {
    if r.Some? {
      Assoc(a, b, r.value);
    }
  }

  lemma PrependNothing(r: Option<Bytes>)
    ensures Prepend([], r) == r
  {
    if r.Some? {
      assert [] + r.value == r.value;
    }
  }

  function EncodedLength(n: nat): nat {
    4 * ((n + 2) / 3)
  }

  function Padding(f: Bytes): nat {
    (if |f| >= 1 && f[|f| - 1] == PAD then 1 else 0) + (if |f| >= 2 && f[|f| - 2] == PAD then 1 else 0)
  }

  lemma {:induction false} DecodedLength(f: Bytes)
    requires |f| % 4 == 0
    ensures DecodeBlock(f).Some? ==> 4 * |DecodeBlock(f).value| == 3 * |f|
  {
    hide Ungroup;
    if f == [] {
    } else {
      var rest := f[4..];
      assert |rest| % 4 == 0;
      DecodedLength(rest);
    }
  }

  /** Text that is not base64 decodes to nothing. */
  function Decode(f: Bytes): Bytes {
    if f == [] || |f| % 4 != 0 then []
    else
      DecodedLength(f);
      match DecodeBlock(f)
      case None => []
      case Some(raw) => raw[..|raw| - Padding(f)]
  }

  // ---------- one group ----------

  lemma DigitRoundTrip(d: Digit)
    ensures DigitOf(CharOf(d)) == Some(d) && CharOf(d) != PAD
  {
  }

  lemma JoinDigits(n: Word)
    ensures Join(DigitAt(n, 0), DigitAt(n, 1), DigitAt(n, 2), DigitAt(n, 3)) == n
  {
    assert n / 0x1000 == 64 * (n / 0x4_0000) + n / 0x1000 % 64;
    assert n / 64 == 64 * (n / 0x1000) + n / 64 % 64;
  }

  lemma BytesOfBits(a: byte, b: byte, c: byte)
    ensures ByteAt(Bits(a, b, c), 0) == a
    ensures ByteAt(Bits(a, b, c), 1) == b
    ensures ByteAt(Bits(a, b, c), 2) == c
  {
    var n := Bits(a, b, c);
    assert n / 0x100 == 256 * a + b;
    assert n / 0x1_0000 == a;
  }

  lemma SixtyFour(k: nat)
    ensures (64 * k) % 64 == 0 && (64 * k) / 64 == k
  {
  }

  lemma SecondPadded(a: byte)
    ensures DigitAt(Bits(a, 0, 0), 2) == 0
  {
    hide DigitAt;
    var n := Bits(a, 0, 0);
    assert n == 64 * (1024 * a);
    SixtyFour(1024 * a);
    SixtyFour(16 * a);
    assert n / 64 == 1024 * a == 64 * (16 * a);
    assert DigitAt(n, 2) == n / 64 % 64 by { DigitTwo(n); }
  }

  lemma DigitTwo(n: Word)
    ensures DigitAt(n, 2) == n / 64 % 64
  {
  }

  lemma LastPadded(a: byte, b: byte)
    ensures DigitAt(Bits(a, b, 0), 3) == 0
  {
    var k := 1024 * a + 4 * b;
    assert Bits(a, b, 0) == 64 * k;
    SixtyFour(k);
  }

  /** The digits that padding replaces are zero. */
  lemma PaddedDigits(a: byte, b: byte)
    ensures DigitAt(Bits(a, 0, 0), 2) == 0 && DigitAt(Bits(a, b, 0), 3) == 0
  {
    hide DigitAt, Bits;
    SecondPadded(a);
    LastPadded(a, b);
  }

  function Filled(f: Bytes): (g: Bytes)
    requires f != []
    ensures |g| == 3
  {
    [f[0], if |f| >= 2 then f[1] else 0, if |f| >= 3 then f[2] else 0]
  }

  lemma GroupRoundTrip(f: Bytes)
    requires f != []
    ensures Ungroup(Group(f)) == Some(Filled(f))
  {
    hide CharOf, DigitOf, DigitAt, ByteAt, Bits, Join;
    var n := GroupBits(f);
    DigitRoundTrip(DigitAt(n, 0));
    DigitRoundTrip(DigitAt(n, 1));
    DigitRoundTrip(DigitAt(n, 2));
    DigitRoundTrip(DigitAt(n, 3));
    PadIsZero();
    PaddedDigits(f[0], if |f| >= 2 then f[1] else 0);
    JoinDigits(n);
    BytesOfBits(f[0], if |f| >= 2 then f[1] else 0, if |f| >= 3 then f[2] else 0);
  }

  lemma PadIsZero()
    ensures DigitOf(PAD) == Some(0)
  {
  }

  lemma GroupPadding(f: Bytes)
    requires f != []
    ensures Padding(Group(f)) == 3 - Used(f)
  {
    hide CharOf, DigitAt;
    DigitRoundTrip(DigitAt(GroupBits(f), 2));
    DigitRoundTrip(DigitAt(GroupBits(f), 3));
  }

  // ---------- any length ----------

  function Missing(n: nat): nat {
    if n % 3 == 0 then 0 else 3 - n % 3
  }

  lemma LengthStep(n: nat)
    requires n > 0
    ensures EncodedLength(n) == 4 + if n <= 3 then 0 else EncodedLength(n - 3)
  {
  }

  lemma LengthOfNone()
    ensures EncodedLength(0) == 0 && EncodeBlock([]) == []
  {
  }

  lemma LengthIsFours(n: nat)
    ensures EncodedLength(n) % 4 == 0
  {
  }

  lemma EncodeOne(f: Bytes)
    requires f != []
    ensures EncodeBlock(f) == Group(f) + EncodeBlock(f[Used(f)..])
  {
    hide Group;
  }

  lemma {:induction false} EncodedLengthIs(f: Bytes)
    ensures |EncodeBlock(f)| == EncodedLength(|f|) && |EncodeBlock(f)| % 4 == 0
  {
    hide Group, EncodeBlock, EncodedLength;
    LengthIsFours(|f|);
    LengthOfNone();
    if f == [] {
    } else {
      EncodeOne(f);
      LengthStep(|f|);
      EncodedLengthIs(f[Used(f)..]);
    }
  }

  lemma MissingStep(f: Bytes)
    requires f != []
    ensures Missing(|f|) == if |f| <= 3 then 3 - Used(f) else Missing(|f[Used(f)..]|)
  {
  }

  lemma FourMore(g: Bytes, rest: Bytes)
    requires |g| == 4 && |rest| % 4 == 0
    ensures |g + rest| % 4 == 0
  {
  }

  lemma DecodeOne(f: Bytes)
    requires |f| % 4 == 0 && f != []
    ensures |f| >= 4 && |f[4..]| % 4 == 0
    ensures DecodeBlock(f) == match Ungroup(f[..4])
                              case None => None
                              case Some(group) => Prepend(group, DecodeBlock(f[4..]))
  {
    hide Ungroup;
  }

  /** One group more: its bytes come before those of the rest. */
  lemma DecodeStep(g: Bytes, rest: Bytes, bytes: Bytes)
    requires |g| == 4 && |rest| % 4 == 0 && Ungroup(g) == Some(bytes)
    ensures |g + rest| % 4 == 0 && DecodeBlock(g + rest) == Prepend(bytes, DecodeBlock(rest))
  {
    hide Ungroup, Prepend;
    FourMore(g, rest);
    var e := g + rest;
    assert e[..4] == g && e[4..] == rest;
  }

  lemma {:induction false} BlockRoundTrip(f: Bytes)
    ensures |EncodeBlock(f)| % 4 == 0 && DecodeBlock(EncodeBlock(f)).Some?
    ensures var raw := DecodeBlock(EncodeBlock(f)).value;
      |raw| == |f| + Missing(|f|) && raw[..|f|] == f
  {
    hide Group, Ungroup, DecodeBlock, Missing;
    EncodedLengthIs(f);
    NothingDecodes();
    if f == [] {
    } else {
      var rest := f[Used(f)..];
      BlockRoundTrip(rest);
      GroupRoundTrip(f);
      DecodeStep(Group(f), EncodeBlock(rest), Filled(f));
      MissingStep(f);
      FilledThen(f, DecodeBlock(EncodeBlock(rest)).value);
    }
  }

  lemma NothingDecodes()
    ensures DecodeBlock([]) == Some([]) && Missing(0) == 0
  {
  }

  lemma FilledThen(f: Bytes, raw: Bytes)
    requires f != [] && |f| - Used(f) <= |raw| && raw[..|f| - Used(f)] == f[Used(f)..]
    ensures (Filled(f) + raw)[..|f|] == f
  {
    if |f| > 3 {
      assert (Filled(f) + raw)[..|f|] == f[..3] + raw[..|f| - 3];
      assert f == f[..3] + f[3..];
    }
  }

  lemma PaddingAppend(a: Bytes, b: Bytes)
    requires |b| >= 2
    ensures Padding(a + b) == Padding(b)
  {
    assert (a + b)[|a + b| - 1] == b[|b| - 1] && (a + b)[|a + b| - 2] == b[|b| - 2];
  }

  lemma {:induction false} PaddingOf(f: Bytes)
    ensures Padding(EncodeBlock(f)) == Missing(|f|)
  {
    hide Group, Padding, Missing;
    if f == [] {
      NoPadding();
    } else {
      var rest := f[Used(f)..];
      MissingStep(f);
      GroupPadding(f);
      if |f| <= 3 {
        assert EncodeBlock(f) == Group(f) + [] == Group(f);
      } else {
        PaddingOf(rest);
        EncodedLengthIs(rest);
        PaddingAppend(Group(f), EncodeBlock(rest));
      }
    }
  }

  lemma NoPadding()
    ensures Padding([]) == 0 && Missing(0) == 0
  {
  }

  /** Decoding undoes encoding for every length, empty input included. */
  lemma RoundTrip(f: Bytes)
    ensures Decode(EncodeBlock(f)) == f
  {
    hide EncodeBlock, DecodeBlock, Padding;
    BlockRoundTrip(f);
    PaddingOf(f);
    EncodedLengthIs(f);
  }

  // ---------- the routines ----------

  /** The block encoder in place: the text, and a NUL after it. */
  method EvpEncodeBlock(t: array<byte>, f: Bytes) returns (written: nat)
    requires t.Length > EncodedLength(|f|)
    modifies t
    ensures written == EncodedLength(|f|) && t[..written] == EncodeBlock(f) && t[written] == 0
  {
    hide Group, EncodeBlock, EncodedLength;
    EncodedLengthIs(f);
    LengthOfNone();
    var i := 0;
    written := 0;
    while i < |f|
      invariant i <= |f|
      invariant written + |EncodeBlock(f[i..])| == EncodedLength(|f|)
      invariant t[..written] + EncodeBlock(f[i..]) == EncodeBlock(f)
    {
      ghost var before, rest := t[..written], f[i..];
      EncodeOne(rest);
      var g := Group(f[i..]);
      t[written], t[written + 1], t[written + 2], t[written + 3] := g[0], g[1], g[2], g[3];
      assert t[..written + 4] == before + g;
      assert rest[Used(rest)..] == f[i + Used(rest)..];
      Assoc(before, g, EncodeBlock(rest[Used(rest)..]));
      i := i + if |f| - i < 3 then |f| - i else 3;
      written := written + 4;
    }
    assert f[i..] == [];
    assert t[..written] + [] == t[..written];
    t[written] := 0;
  }

  /** Sized for the text and the NUL, then cut to the text: no length writes past the buffer. */
  method Base64Encode(data: Bytes) returns (out: Bytes)
    ensures out == EncodeBlock(data)
  {
    var buffer := new byte[4 * ((|data| + 2) / 3) + 1];
    var written := EvpEncodeBlock(buffer, data);
    out := buffer[..written];
  }

  /** The block decoder in place; -1 when a character is not in the alphabet. */
  method EvpDecodeBlock(t: array<byte>, f: Bytes) returns (written: int)
    requires |f| % 4 == 0 && t.Length >= 3 * (|f| / 4)
    modifies t
    ensures written < 0 <==> DecodeBlock(f).None?
    ensures written >= 0 ==> written == 3 * (|f| / 4) && Some(t[..written]) == DecodeBlock(f)
  {
    hide Ungroup, DecodeBlock;
    ghost var k := 0;
    NothingDecodes();
    var i := 0;
    written := 0;
    assert f[0..] == f && t[..0] == [];
    PrependNothing(DecodeBlock(f));
    while i < |f|
      invariant i <= |f| && i == 4 * k && written == 3 * k && |f[i..]| % 4 == 0
      invariant DecodeBlock(f) == Prepend(t[..written], DecodeBlock(f[i..]))
    {
      ghost var before := t[..written];
      ghost var rest := f[i..];
      assert rest[4..] == f[i + 4..] && rest[..4] == f[i..i + 4];
      DecodeOne(rest);
      var group := Ungroup(f[i..i + 4]);
      if group.None? {
        return -1;
      }
      t[written], t[written + 1], t[written + 2] := group.value[0], group.value[1], group.value[2];
      assert t[..written + 3] == before + group.value;
      PrependTwice(before, group.value, DecodeBlock(rest[4..]));
      i := i + 4;
      written := written + 3;
      k := k + 1;
    }
    assert f[i..] == [];
    assert t[..written] + [] == t[..written];
  }

  method Base64Decode(f: Bytes) returns (out: Bytes)
    ensures out == Decode(f)
  {
    if f == [] || |f| % 4 != 0 {
      return [];
    }
    var buffer := new byte[|f|];
    var written := EvpDecodeBlock(buffer, f);
    if written < 0 {
      return [];
    }
    var padding := 0;
    if f[|f| - 1] == PAD {
      padding := padding + 1;
    }
    if f[|f| - 2] == PAD {
      padding := padding + 1;
    }
    return buffer[..written - padding];
  }
}
