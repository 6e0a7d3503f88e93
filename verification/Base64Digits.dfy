/** Which character and which byte stands where in base64, by the alphabet of RFC 4648, Table 1. */
module Base64Digits {
  import opened Bytes
  import opened Wrappers
  import opened Base64

  /** The character of a digit: A-Z, a-z, 0-9, '+' and '/'. */
  predicate Stands(c: byte, d: nat) {
    || (d < 26 && c == 'A' as int + d)
    || (26 <= d < 52 && c == 'a' as int + (d - 26))
    || (52 <= d < 62 && c == '0' as int + (d - 52))
    || (d == 62 && c == '+' as int)
    || (d == 63 && c == '/' as int)
  }

  /** What a character is read as: its digit, and 0 for '='. */
  predicate Reads(c: byte, d: nat) {
    Stands(c, d) || (c == '=' as int && d == 0)
  }

  lemma CharStands(d: Digit)
    ensures Stands(CharOf(d), d)
  {
  }

  lemma DigitIsRead(c: byte, d: nat)
    ensures Reads(c, d) <==> d < 64 && DigitOf(c) == Some(d)
  {
  }

  // ---------- encoding ----------

  /** Three bytes as four characters, of which the last two may be '='. */
  predicate Spells(g: Bytes, a: byte, b: Option<byte>, c: Option<byte>)
    requires |g| == 4
  {
    var b', c' := if b.Some? then b.value else 0, if c.Some? then c.value else 0;
    && Stands(g[0], a / 4)
    && Stands(g[1], a % 4 * 16 + b' / 16)
    && (if b.Some? then Stands(g[2], b' % 16 * 4 + c' / 64) else g[2] == '=' as int)
    && (if c.Some? then Stands(g[3], c' % 64) else g[3] == '=' as int)
  }

  function At(f: Bytes, k: nat): Option<byte> {
    if k < |f| then Some(f[k]) else None
  }

  lemma GroupSpells(f: Bytes)
    requires f != []
    ensures Spells(Group(f), f[0], At(f, 1), At(f, 2))
  {
    hide CharOf, DigitAt, Bits, Stands;
    var a, b, c := f[0], if |f| > 1 then f[1] else 0, if |f| > 2 then f[2] else 0;
    var n := Bits(a, b, c);
    Sextets(a, b, c);
    CharStands(DigitAt(n, 0));
    CharStands(DigitAt(n, 1));
    CharStands(DigitAt(n, 2));
    CharStands(DigitAt(n, 3));
  }

  lemma DigitsOfJoin(d0: Digit, d1: Digit, d2: Digit, d3: Digit)
    ensures var n := Join(d0, d1, d2, d3);
      DigitAt(n, 0) == d0 && DigitAt(n, 1) == d1 && DigitAt(n, 2) == d2 && DigitAt(n, 3) == d3
  {
    var n := Join(d0, d1, d2, d3);
    assert n / 64 == d0 * 0x1000 + d1 * 64 + d2;
    assert n / 0x1000 == d0 * 64 + d1;
    assert n / 0x4_0000 == d0;
  }

  /** The same 24 bits as bytes and as digits. */
  lemma SameBits(a: byte, b: byte, c: byte)
    ensures Bits(a, b, c) == Join(a / 4, a % 4 * 16 + b / 16, b % 16 * 4 + c / 64, c % 64)
  {
    assert a == 4 * (a / 4) + a % 4;
    assert b == 16 * (b / 16) + b % 16;
    assert c == 64 * (c / 64) + c % 64;
  }

  lemma Sextets(a: byte, b: byte, c: byte)
    ensures DigitAt(Bits(a, b, c), 0) == a / 4
    ensures DigitAt(Bits(a, b, c), 1) == a % 4 * 16 + b / 16
    ensures DigitAt(Bits(a, b, c), 2) == b % 16 * 4 + c / 64
    ensures DigitAt(Bits(a, b, c), 3) == c % 64
  {
    hide DigitAt, Bits, Join;
    SameBits(a, b, c);
    DigitsOfJoin(a / 4, a % 4 * 16 + b / 16, b % 16 * 4 + c / 64, c % 64);
  }

  /** Four characters for every three bytes, wherever they stand, and '=' for those that are missing at the end. */
  lemma {:induction false} CharactersStand(f: Bytes, q: nat)
    requires 3 * q < |f|
    ensures 4 * q + 4 <= |EncodeBlock(f)|
    ensures Spells(EncodeBlock(f)[4 * q..4 * q + 4], f[3 * q], At(f, 3 * q + 1), At(f, 3 * q + 2))
  {
    hide Group, EncodeBlock, Spells;
    EncodeOne(f);
    var g, rest := Group(f), EncodeBlock(f[Used(f)..]);
    if q == 0 {
      GroupSpells(f);
      assert (g + rest)[..4] == g;
    } else {
      CharactersStand(f[3..], q - 1);
      assert (g + rest)[4 * q..4 * q + 4] == rest[4 * (q - 1)..4 * (q - 1) + 4];
    }
  }

  // ---------- decoding ----------

  /** Every character is a letter of the alphabet or '='. */
  predicate Readable(f: Bytes) {
    forall k :: 0 <= k < |f| ==> IsLetter(f[k])
  }

  predicate IsLetter(c: byte) {
    exists d | 0 <= d < 64 :: Reads(c, d)
  }

  lemma LetterHasDigit(c: byte)
    ensures IsLetter(c) <==> DigitOf(c).Some?
  {
    if DigitOf(c).Some? {
      DigitIsRead(c, DigitOf(c).value);
      assert Reads(c, DigitOf(c).value);
    }
    if IsLetter(c) {
      var d :| 0 <= d < 64 && Reads(c, d);
      DigitIsRead(c, d);
    }
  }

  lemma SameBytes(d0: Digit, d1: Digit, d2: Digit, d3: Digit)
    ensures Join(d0, d1, d2, d3) == Bits(d0 * 4 + d1 / 16, d1 % 16 * 16 + d2 / 4, d2 % 4 * 64 + d3)
  {
    assert d1 == 16 * (d1 / 16) + d1 % 16;
    assert d2 == 4 * (d2 / 4) + d2 % 4;
  }

  lemma Octets(d0: Digit, d1: Digit, d2: Digit, d3: Digit)
    ensures var n := Join(d0, d1, d2, d3);
      ByteAt(n, 0) == d0 * 4 + d1 / 16 && ByteAt(n, 1) == d1 % 16 * 16 + d2 / 4 && ByteAt(n, 2) == d2 % 4 * 64 + d3
  {
    hide ByteAt, Bits, Join;
    SameBytes(d0, d1, d2, d3);
    BytesOfBits(d0 * 4 + d1 / 16, d1 % 16 * 16 + d2 / 4, d2 % 4 * 64 + d3);
  }

  lemma UngroupReads(g: Bytes, d0: Digit, d1: Digit, d2: Digit, d3: Digit)
    requires |g| == 4 && Reads(g[0], d0) && Reads(g[1], d1) && Reads(g[2], d2) && Reads(g[3], d3)
    ensures Ungroup(g) == Some([d0 * 4 + d1 / 16, d1 % 16 * 16 + d2 / 4, d2 % 4 * 64 + d3])
  {
    hide DigitOf, Join, ByteAt, Reads;
    DigitIsRead(g[0], d0);
    DigitIsRead(g[1], d1);
    DigitIsRead(g[2], d2);
    DigitIsRead(g[3], d3);
    Octets(d0, d1, d2, d3);
  }

  lemma UngroupIff(g: Bytes)
    requires |g| == 4
    ensures Ungroup(g).Some? <==> Readable(g)
  {
    hide DigitOf, Join, ByteAt, IsLetter;
    LetterHasDigit(g[0]);
    LetterHasDigit(g[1]);
    LetterHasDigit(g[2]);
    LetterHasDigit(g[3]);
  }

  lemma ReadableParts(f: Bytes, k: nat)
    requires k <= |f|
    ensures Readable(f) <==> Readable(f[..k]) && Readable(f[k..])
  {
    hide IsLetter;
    if Readable(f[..k]) && Readable(f[k..]) {
      forall j | 0 <= j < |f| ensures IsLetter(f[j]) {
        if j < k {
          assert f[..k][j] == f[j];
        } else {
          assert f[k..][j - k] == f[j];
        }
      }
    }
  }

  /** The block decoder gives up exactly if some character is no letter and no '='. */
  lemma {:induction false} DecodesIff(f: Bytes)
    requires |f| % 4 == 0
    ensures DecodeBlock(f).Some? <==> Readable(f)
  {
    hide Ungroup, IsLetter, DecodeBlock, Readable;
    if f == [] {
      NothingDecodes();
      NothingUnreadable();
    } else {
      DecodeOne(f);
      DecodesIff(f[4..]);
      UngroupIff(f[..4]);
      ReadableParts(f, 4);
    }
  }

  lemma NothingUnreadable()
    ensures Readable([])
  {
  }

  /** Three bytes for every four characters, wherever they stand. */
  lemma {:induction false} BytesStand(f: Bytes, groups: nat, q: nat, d0: Digit, d1: Digit, d2: Digit, d3: Digit)
    requires |f| == 4 * groups && q < groups && DecodeBlock(f).Some?
    requires Reads(f[4 * q], d0) && Reads(f[4 * q + 1], d1) && Reads(f[4 * q + 2], d2) && Reads(f[4 * q + 3], d3)
    ensures 3 * q + 3 <= |DecodeBlock(f).value|
    ensures DecodeBlock(f).value[3 * q..3 * q + 3] == [d0 * 4 + d1 / 16, d1 % 16 * 16 + d2 / 4, d2 % 4 * 64 + d3]
  {
    hide Ungroup, DecodeBlock, Reads;
    DecodeOne(f);
    if q == 0 {
      UngroupReads(f[..4], d0, d1, d2, d3);
    } else {
      BytesStand(f[4..], groups - 1, q - 1, d0, d1, d2, d3);
      Further(Ungroup(f[..4]).value, DecodeBlock(f[4..]).value, 3 * (q - 1));
    }
  }

  lemma Further(first: Bytes, rest: Bytes, k: nat)
    requires |first| == 3 && k + 3 <= |rest|
    ensures (first + rest)[k + 3..k + 6] == rest[k..k + 3]
  {
  }

  /**
   Decoding as the source wraps it: nothing for a length that is no multiple of four or for a
   foreign character, and otherwise the bytes without one for each '=' in the last two places.
   */
  lemma PadsAreTakenOff(f: Bytes)
    ensures |f| % 4 != 0 || !Readable(f) ==> Decode(f) == []
    ensures f != [] && |f| % 4 == 0 && Readable(f) ==>
      && DecodeBlock(f).Some?
      && var raw := DecodeBlock(f).value;
      var pads := (if f[|f| - 1] == 61 then 1 else 0) + (if f[|f| - 2] == 61 then 1 else 0);
      && 4 * |raw| == 3 * |f| && pads <= |raw| && Decode(f) == raw[..|raw| - pads]
  {
    hide DecodeBlock, Readable;
    if |f| % 4 == 0 {
      DecodesIff(f);
      DecodedLength(f);
    }
  }
}
