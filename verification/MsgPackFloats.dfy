/**
 What the bits of a floating-point number mean, single and double precision, and that
 decoding a single keeps its value. A value is a whole number of the smallest subnormal.
 */
module MsgPackFloats {
  import opened Bytes
  import opened Wrappers
  import opened Json
  import opened MsgPack
  import opened MsgPackCodec

  // ---------- meaning ----------

  function Sign32(b: nat): nat {
    b / 0x8000_0000
  }

  function Exponent32(b: nat): nat {
    b / 0x80_0000 % 0x100
  }

  function Mantissa32(b: nat): nat {
    b % 0x80_0000
  }

  /** The magnitude of a finite single in units of 2^-149. */
  function Units32(b: nat): nat {
    if Exponent32(b) == 0 then Mantissa32(b) else (0x80_0000 + Mantissa32(b)) * Pow2(Exponent32(b) - 1)
  }

  function Sign64(bits: nat): nat {
    bits / 0x8000_0000_0000_0000
  }

  function Exponent64(bits: nat): nat {
    bits / 0x10_0000_0000_0000 % 0x800
  }

  function Mantissa64(bits: nat): nat {
    bits % 0x10_0000_0000_0000
  }

  /** The magnitude of a finite double in units of 2^-1074. */
  function Units64(bits: nat): nat {
    if Exponent64(bits) == 0 then Mantissa64(bits) else (0x10_0000_0000_0000 + Mantissa64(bits)) * Pow2(Exponent64(bits) - 1)
  }

  // ---------- arithmetic ----------

  lemma Fields64(sign: nat, exponent: nat, mantissa: nat)
    requires sign < 2 && exponent < 0x800 && mantissa < 0x10_0000_0000_0000
    ensures var bits := sign * 0x8000_0000_0000_0000 + exponent * 0x10_0000_0000_0000 + mantissa;
      Sign64(bits) == sign && Exponent64(bits) == exponent && Mantissa64(bits) == mantissa
  {
    var bits := sign * 0x8000_0000_0000_0000 + exponent * 0x10_0000_0000_0000 + mantissa;
    assert bits == (sign * 0x800 + exponent) * 0x10_0000_0000_0000 + mantissa;
    assert bits / 0x10_0000_0000_0000 == sign * 0x800 + exponent;
  }

  lemma {:induction false} Pow2Add(a: nat, b: nat)
    ensures Pow2(a + b) == Pow2(a) * Pow2(b)
  {
    if a == 0 {
    } else {
      Pow2Add(a - 1, b);
      assert Pow2(a + b) == 2 * Pow2(a - 1 + b);
      assert 2 * (Pow2(a - 1) * Pow2(b)) == (2 * Pow2(a - 1)) * Pow2(b);
    }
  }

  lemma Pow2Of29()
    ensures Pow2(29) == 0x2000_0000
  {
    Pow2Of23();
    Pow2Add(23, 6);
    assert Pow2(6) == 0x40;
  }

  lemma Associate(a: nat, b: nat, c: nat)
    ensures a * (b * c) == (a * b) * c
  {
  }

  /** The 29 bits that the mantissa moves by are 29 powers of two. */
  lemma Shifted(k: nat, n: nat)
    ensures (k * 0x2000_0000) * Pow2(n) == k * Pow2(n + 29)
  {
    Pow2Of29();
    Pow2Add(29, n);
    Associate(k, Pow2(29), Pow2(n));
  }

  lemma Scaled(k: nat, n: nat)
    ensures k * Pow2(n + 925) == (k * Pow2(n)) * Pow2(925)
  {
    hide Pow2;
    Pow2Add(n, 925);
    Associate(k, Pow2(n), Pow2(925));
  }

  // ---------- widening ----------

  lemma {:induction false} NormalizedKeeps(significand: nat, exponent: nat)
    requires significand < 0x100_0000 && 874 <= exponent <= 897 && Pow2(897 - exponent) <= significand
    ensures var (m, e) := Normalized(significand, exponent);
      874 <= e <= 897 && m < 0x80_0000 && (0x80_0000 + m) * Pow2(e) == significand * Pow2(exponent)
    decreases exponent
  {
    if significand >= 0x80_0000 {
    } else {
      Pow2Of23();
      NormalizedKeeps(2 * significand, exponent - 1);
      Doubled(significand, exponent);
    }
  }

  lemma Doubled(k: nat, n: nat)
    requires n > 0
    ensures (2 * k) * Pow2(n - 1) == k * Pow2(n)
  {
    Associate(k, 2, Pow2(n - 1));
  }

  lemma NormalWidens(b: nat)
    requires b < 0x1_0000_0000 && 0 < Exponent32(b) < 0xff
    ensures var bits := WidenSingle(b);
      Sign64(bits) == Sign32(b) && Exponent64(bits) < 0x7ff && Units64(bits) == Units32(b) * Pow2(925)
  {
    hide Pow2;
    var e, m := Exponent32(b), Mantissa32(b);
    Fields64(Sign32(b), e + 896, m * 0x2000_0000);
    assert 0x10_0000_0000_0000 + m * 0x2000_0000 == (0x80_0000 + m) * 0x2000_0000;
    Shifted(0x80_0000 + m, e + 895);
    Scaled(0x80_0000 + m, e - 1);
  }

  lemma SubnormalWidens(b: nat)
    requires b < 0x1_0000_0000 && Exponent32(b) == 0 && Mantissa32(b) > 0
    ensures var bits := WidenSingle(b);
      Sign64(bits) == Sign32(b) && Exponent64(bits) < 0x7ff && Units64(bits) == Units32(b) * Pow2(925)
  {
    hide Pow2, Normalized;
    var mantissa := Mantissa32(b);
    assert Pow2(0) <= mantissa by { Pow2OfNone(); }
    var (m, e) := Normalized(mantissa, 897);
    NormalizedKeeps(mantissa, 897);
    Fields64(Sign32(b), e, m * 0x2000_0000);
    assert 0x10_0000_0000_0000 + m * 0x2000_0000 == (0x80_0000 + m) * 0x2000_0000;
    Shifted(0x80_0000 + m, e - 1);
    Twenty8(0x80_0000 + m, mantissa, e);
  }

  lemma Pow2OfNone()
    ensures Pow2(0) == 1
  {
  }

  /** 28 + 897 powers of two are 925. */
  lemma Twenty8(k: nat, mantissa: nat, e: nat)
    requires k * Pow2(e) == mantissa * Pow2(897)
    ensures k * Pow2(e + 28) == mantissa * Pow2(925)
  {
    hide Pow2;
    Pow2Add(e, 28);
    Pow2Add(897, 28);
    Associate(k, Pow2(e), Pow2(28));
    Associate(mantissa, Pow2(897), Pow2(28));
  }

  lemma ZeroWidens(b: nat)
    requires b < 0x1_0000_0000 && Exponent32(b) == 0 && Mantissa32(b) == 0
    ensures var bits := WidenSingle(b);
      Sign64(bits) == Sign32(b) && Exponent64(bits) < 0x7ff && Units64(bits) == Units32(b) * Pow2(925)
  {
    hide Pow2;
    Fields64(Sign32(b), 0, 0);
  }

  lemma SpecialWidens(b: nat)
    requires b < 0x1_0000_0000 && Exponent32(b) == 0xff
    ensures var bits, m := WidenSingle(b), Mantissa32(b);
      && Sign64(bits) == Sign32(b) && Exponent64(bits) == 0x7ff
      && Mantissa64(bits) == if m == 0 then 0 else if m < 0x40_0000 then (m + 0x40_0000) * 0x2000_0000 else m * 0x2000_0000
  {
    var m := Mantissa32(b);
    Fields64(Sign32(b), 0x7ff, if m == 0 then 0 else if m < 0x40_0000 then (m + 0x40_0000) * 0x2000_0000 else m * 0x2000_0000);
  }

  lemma FloatDecodes(b: nat, tail: Bytes)
    requires b < 0x1_0000_0000
    ensures b < Pow256(4) && Decode([0xca] + BigEndian(b, 4) + tail) == Some(Float(WidenSingle(b)))
  {
    hide WidenSingle;
    Widths();
    NumberRead(0xca, b, SingleFamily, 4, tail);
  }

  /**
   Decoding a single-precision number gives a double of the same sign and, if it is finite, of
   the same value: a unit of the single is 2^925 units of the double.
   */
  lemma SinglesKeepTheirValue(b: nat, tail: Bytes)
    requires b < 0x1_0000_0000 && Exponent32(b) < 0xff
    ensures b < Pow256(4)
    ensures var v := Decode([0xca] + BigEndian(b, 4) + tail);
      && v.Some? && v.value.Float?
      && Sign64(v.value.bits) == Sign32(b) && Exponent64(v.value.bits) < 0x7ff
      && Units64(v.value.bits) == Units32(b) * Pow2(925)
  {
    hide Decode, WidenSingle, Units64, Units32, Pow2, Pow256;
    FloatDecodes(b, tail);
    if Exponent32(b) > 0 {
      NormalWidens(b);
    } else if Mantissa32(b) > 0 {
      SubnormalWidens(b);
    } else {
      ZeroWidens(b);
    }
  }

  /** An infinity stays one, and a NaN becomes the quiet NaN with its payload in front. */
  lemma InfinitiesAndNaNs(b: nat, tail: Bytes)
    requires b < 0x1_0000_0000 && Exponent32(b) == 0xff
    ensures b < Pow256(4)
    ensures var v := Decode([0xca] + BigEndian(b, 4) + tail);
      && v.Some? && v.value.Float?
      && Sign64(v.value.bits) == Sign32(b) && Exponent64(v.value.bits) == 0x7ff
      && (Mantissa32(b) == 0 ==> Mantissa64(v.value.bits) == 0)
      && (Mantissa32(b) > 0 ==>
           Mantissa64(v.value.bits) == (if Mantissa32(b) < 0x40_0000 then Mantissa32(b) + 0x40_0000 else Mantissa32(b)) * 0x2000_0000)
  {
    hide Decode, WidenSingle, Pow256;
    FloatDecodes(b, tail);
    SpecialWidens(b);
  }
}
