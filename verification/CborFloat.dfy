/** The shorter floats that `from_cbor` accepts keep their value as doubles. */
module CborFloat {
  import opened JsonValue
  import opened Cbor

  /** The value of an IEEE 754 number with f fraction bits. */
  function ShortValue(negative: bool, exponent: nat, fraction: nat, f: nat, bias: nat): Double {
    var sign := if negative then -1.0 else 1.0;
    if exponent == 2 * bias + 1 then
      if fraction != 0 then NaN else if negative then NegInf else PosInf
    else if exponent == 0 then Finite(sign * fraction as real * Pow2(1 - bias - f))
    else Finite(sign * (fraction + Power2(f)) as real * Pow2(exponent - bias - f))
  }

  lemma {:induction false} Pow2Up(n: nat, k: int)
    ensures Power2(n) as real * Pow2(k) == Pow2(n + k)
  {
    if n > 0 {
      Pow2Up(n - 1, k + 1);
      Pow2Next(k);
      hide Pow2;
      RealProduct(Power2(n - 1), 2, Pow2(k));
    }
  }

  lemma Pow2Next(k: int)
    ensures Pow2(k + 1) == 2.0 * Pow2(k)
  {}

  /** (a + 2^p) * 2^(52-p) is what a double with leading bit p and rest a holds. */
  lemma Significand(rest: nat, p: nat, e: int)
    requires p <= 52 && rest < Power2(p)
    ensures (Shifted(rest, p) + 0x10_0000_0000_0000) as real * Pow2(e) == (rest + Power2(p)) as real * Pow2(52 - p + e)
  {
    hide Power2, Pow2;
    Power2Values();
    Power2Sum(p, 52 - p);
    Pow2Up(52 - p, e);
    var a, b := rest + Power2(p), Power2(52 - p);
    assert Shifted(rest, p) + 0x10_0000_0000_0000 == a * b by {
      assert (rest + Power2(p)) * b == rest * b + Power2(p) * b;
    }
    RealProduct(a, b, Pow2(e));
  }

  lemma RealProduct(a: nat, b: nat, x: real)
    ensures (a * b) as real * x == a as real * (b as real * x)
  {
    assert (a * b) as real == a as real * b as real;
  }

  /** The three fields of a double are read off its bits. */
  lemma Fields(negative: bool, e: nat, fraction: nat)
    requires e < 2048 && fraction < 0x10_0000_0000_0000
    ensures var bits := (if negative then 0x8000_0000_0000_0000 else 0) + e * 0x10_0000_0000_0000 + fraction;
      0 <= bits < 0x1_0000_0000_0000_0000 &&
      FloatValue(bits) ==
        var sign := if negative then -1.0 else 1.0;
        if e == 2047 then if fraction != 0 then NaN else if negative then NegInf else PosInf
        else if e == 0 then Finite(sign * fraction as real * Pow2(-1074))
        else Finite(sign * (fraction + 0x10_0000_0000_0000) as real * Pow2(e - 1075))
  {
    hide Pow2;
    var sign := if negative then 1 else 0;
    var bits := sign * 0x8000_0000_0000_0000 + e * 0x10_0000_0000_0000 + fraction;
    assert bits / 0x10_0000_0000_0000 == sign * 2048 + e;
  }

  lemma WidenSpecial(negative: bool, fraction: nat, f: nat, bias: nat)
    requires ShortFormat(f, bias) && fraction < Power2(f)
    ensures FloatValue(Widen(negative, 2 * bias + 1, fraction, f, bias)) ==
            ShortValue(negative, 2 * bias + 1, fraction, f, bias)
  {
    hide Pow2, Power2, FloatValue, Shifted;
    var payload := Shifted(fraction, f);
    ShiftedZero(fraction, f);
    Fields(negative, 2047,
           if fraction == 0 || payload >= 0x8_0000_0000_0000 then payload else payload + 0x8_0000_0000_0000);
  }

  lemma WidenNormal(negative: bool, exponent: nat, fraction: nat, f: nat, bias: nat)
    requires ShortFormat(f, bias) && 0 < exponent <= 2 * bias && fraction < Power2(f)
    ensures FloatValue(Widen(negative, exponent, fraction, f, bias)) == ShortValue(negative, exponent, fraction, f, bias)
  {
    hide Pow2, Power2, FloatValue, Shifted;
    Fields(negative, exponent + 1023 - bias, Shifted(fraction, f));
    Significand(fraction, f, exponent + 1023 - bias - 1075);
    Signed(negative, Shifted(fraction, f) + 0x10_0000_0000_0000, Pow2(exponent - 52 - bias),
           fraction + Power2(f), Pow2(exponent - bias - f));
  }

  lemma WidenSubnormal(negative: bool, fraction: nat, f: nat, bias: nat)
    requires ShortFormat(f, bias) && 0 < fraction < Power2(f)
    ensures FloatValue(Widen(negative, 0, fraction, f, bias)) == ShortValue(negative, 0, fraction, f, bias)
  {
    hide Pow2, Power2, FloatValue, Shifted, Log2;
    Log2Bounds(fraction);
    var p := Log2(fraction);
    if p >= f { Power2Monotone(f, p); }
    var rest := fraction - Power2(p);
    Fields(negative, p + 1024 - bias - f, Shifted(rest, p));
    Significand(rest, p, p - 51 - bias - f);
    Signed(negative, Shifted(rest, p) + 0x10_0000_0000_0000, Pow2(p - 51 - bias - f), fraction, Pow2(1 - bias - f));
  }

  /** Widening keeps the value: zeros, subnormals, normal numbers, infinities and NaNs. */
  lemma WidenValue(negative: bool, exponent: nat, fraction: nat, f: nat, bias: nat)
    requires ShortFormat(f, bias) && exponent <= 2 * bias + 1 && fraction < Power2(f)
    ensures FloatValue(Widen(negative, exponent, fraction, f, bias)) == ShortValue(negative, exponent, fraction, f, bias)
  {
    hide Pow2, Power2, FloatValue, Shifted, Log2;
    if exponent == 2 * bias + 1 {
      WidenSpecial(negative, fraction, f, bias);
    } else if exponent > 0 {
      WidenNormal(negative, exponent, fraction, f, bias);
    } else if fraction > 0 {
      WidenSubnormal(negative, fraction, f, bias);
    } else {
      Fields(negative, 0, 0);
    }
  }

  lemma Signed(negative: bool, a: nat, x: real, b: nat, y: real)
    requires a as real * x == b as real * y
    ensures var sign := if negative then -1.0 else 1.0; sign * a as real * x == sign * b as real * y
  {}

  lemma ShiftedZero(rest: nat, p: nat)
    requires p <= 52 && rest < Power2(p)
    ensures Shifted(rest, p) == 0 <==> rest == 0
  {
    if rest > 0 {
      Scale(0, rest, Power2(52 - p));
    }
  }
}
