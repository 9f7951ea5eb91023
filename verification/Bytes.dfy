/** Bytes, and the two byte orders in which the repository stores fixed-width numbers. */
module Bytes {
  type byte = x: int | 0 <= x < 256

  function Pow256(n: nat): (p: nat)
    ensures p > 0
  {
    if n == 0 then 1 else 256 * Pow256(n - 1)
  }

  /** The n low-order bytes of v, least significant first (the layout of an x86 store). */
  function LE(v: nat, n: nat): (b: seq<byte>)
    ensures |b| == n
  {
    if n == 0 then [] else [v % 256] + LE(v / 256, n - 1)
  }

  function FromLE(b: seq<byte>): nat {
    if b == [] then 0 else b[0] + 256 * FromLE(b[1..])
  }

  lemma {:induction false} LERoundTrip(v: nat, n: nat)
    requires v < Pow256(n)
    ensures FromLE(LE(v, n)) == v
  {
    if n > 0 {
      LERoundTrip(v / 256, n - 1);
      assert LE(v, n)[1..] == LE(v / 256, n - 1);
    }
  }

  /** The n low-order bytes of v, most significant first (network order). */
  function BE(v: nat, n: nat): (b: seq<byte>)
    ensures |b| == n
  {
    if n == 0 then [] else BE(v / 256, n - 1) + [v % 256]
  }

  function FromBE(b: seq<byte>): nat {
    if b == [] then 0 else 256 * FromBE(b[..|b| - 1]) + b[|b| - 1]
  }

  lemma {:induction false} BERoundTrip(v: nat, n: nat)
    requires v < Pow256(n)
    ensures FromBE(BE(v, n)) == v
  {
    if n > 0 {
      BERoundTrip(v / 256, n - 1);
      assert BE(v, n)[..n - 1] == BE(v / 256, n - 1);
    }
  }

  lemma DivDiv(v: nat, p: nat)
    requires p > 0
    ensures v / 256 / p == v / (256 * p)
  {
    var q := v / 256 / p;
    assert p * q <= v / 256 < p * q + p;
    assert 256 * (p * q) == (256 * p) * q;
    assert (256 * p) * q <= v < (256 * p) * q + 256 * p;
    QuotientIs(v, 256 * p, q);
  }

  lemma QuotientIs(v: nat, d: nat, q: nat)
    requires d > 0 && d * q <= v < d * q + d
    ensures v / d == q
  {
    var k := v / d;
    assert v == d * k + v % d;
    if k < q { Multiples(d, k + 1, q); }
    if k > q { Multiples(d, q + 1, k); }
  }

  lemma Multiples(d: nat, a: nat, b: nat)
    requires a <= b
    ensures d * a <= d * b
  {}

  /** The byte at offset i is the digit of weight 256^i. */
  lemma {:induction false} LEDigits(v: nat, n: nat, i: nat)
    requires i < n
    ensures LE(v, n)[i] == v / Pow256(i) % 256
  {
    if i > 0 {
      LEDigits(v / 256, n - 1, i - 1);
      DivDiv(v, Pow256(i - 1));
    }
  }

  /** The byte at offset i is the digit of weight 256^(n - 1 - i). */
  lemma {:induction false} BEDigits(v: nat, n: nat, i: nat)
    requires i < n
    ensures BE(v, n)[i] == v / Pow256(n - 1 - i) % 256
  {
    if i < n - 1 {
      BEDigits(v / 256, n - 1, i);
      DivDiv(v, Pow256(n - 2 - i));
    }
  }

  lemma {:induction false} FromBEBound(b: seq<byte>)
    ensures FromBE(b) < Pow256(|b|)
  {
    if b != [] {
      FromBEBound(b[..|b| - 1]);
    }
  }

  lemma PowerValues()
    ensures Pow256(1) == 0x100 && Pow256(2) == 0x1_0000 && Pow256(4) == 0x1_0000_0000
    ensures Pow256(8) == 0x1_0000_0000_0000_0000
  {
    assert Pow256(2) == 256 * Pow256(1);
    assert Pow256(3) == 256 * Pow256(2);
    assert Pow256(4) == 256 * Pow256(3);
    assert Pow256(5) == 256 * Pow256(4);
    assert Pow256(6) == 256 * Pow256(5);
    assert Pow256(7) == 256 * Pow256(6);
  }
}
