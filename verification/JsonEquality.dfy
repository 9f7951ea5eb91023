/** What the library's comparison of two values means: place by place, and number by number. */
module JsonEquality {
  import opened Bytes
  import opened Cbor
  import opened CborFloat
  import opened JsonValue
  import opened Options

  // ---------------------------------------------------------------- place by place

  datatype Turn = Key(k: Str) | Index(i: nat)

  /** The value below a member or an element, and so on. */
  function Below(j: Json, path: seq<Turn>): Option<Json>
    decreases |path|
  {
    if path == [] then Some(j)
    else
      match path[0]
      case Key(k) => if j.Object? && k in j.m then Below(j.m[k], path[1..]) else None
      case Index(i) => if j.Array? && i < |j.a| then Below(j.a[i], path[1..]) else None
  }

  /** What two values have in common at one place: both are objects, both are arrays, or they are the same and no number. */
  predicate Alike(x: Json, y: Json) {
    (x.Object? && y.Object?) || (x.Array? && y.Array?) || ((x.Null? || x.Bool? || x.String?) && x == y) || NumberEq(x, y)
  }

  predicate AlikeAt(x: Json, y: Json, path: seq<Turn>) {
    match (Below(x, path), Below(y, path))
    case (None, None) => true
    case (Some(a), Some(b)) => Alike(a, b)
    case _ => false
  }

  /** Values compare equal if and only if they have the same places, and are alike at each of them. */
  lemma EqualEverywhere(x: Json, y: Json)
    ensures JsonEq(x, y) <==> forall path :: AlikeAt(x, y, path)
  {
    hide JsonEq, AlikeAt;
    if JsonEq(x, y) {
      forall path ensures AlikeAt(x, y, path) {
        EqualAt(x, y, path);
      }
    }
    if forall path :: AlikeAt(x, y, path) {
      AlikeEqual(x, y);
    }
  }

  lemma {:induction false} EqualAt(x: Json, y: Json, path: seq<Turn>)
    requires JsonEq(x, y)
    ensures AlikeAt(x, y, path)
    decreases |path|
  {
    hide NumberEq;
    NoNumber(x, y);
    if path != [] {
      match path[0]
      case Key(k) => if x.Object? && k in x.m { EqualAt(x.m[k], y.m[k], path[1..]); }
      case Index(i) => if x.Array? && i < |x.a| { EqualAt(x.a[i], y.a[i], path[1..]); }
    }
  }

  lemma NoNumber(x: Json, y: Json)
    ensures NumberEq(x, y) ==> (x.Int? || x.UInt? || x.Float?) && (y.Int? || y.UInt? || y.Float?)
  {}

  lemma BelowKey(j: Json, k: Str, path: seq<Turn>)
    ensures Below(j, [Key(k)] + path) == if j.Object? && k in j.m then Below(j.m[k], path) else None
  {
    assert ([Key(k)] + path)[1..] == path;
  }

  lemma BelowIndex(j: Json, i: nat, path: seq<Turn>)
    ensures Below(j, [Index(i)] + path) == if j.Array? && i < |j.a| then Below(j.a[i], path) else None
  {
    assert ([Index(i)] + path)[1..] == path;
  }

  lemma {:induction false} AlikeEqual(x: Json, y: Json)
    requires forall path :: AlikeAt(x, y, path)
    ensures JsonEq(x, y)
    decreases x
  {
    hide NumberEq, Below;
    assert Alike(x, y) by {
      assert AlikeAt(x, y, []);
      BelowNothing(x);
      BelowNothing(y);
    }
    NoNumber(x, y);
    match x {
      case Object(m) => AlikeMembers(x, y);
      case Array(a) => AlikeElements(x, y);
      case _ =>
    }
  }

  lemma BelowNothing(j: Json)
    ensures Below(j, []) == Some(j)
  {}

  lemma {:induction false} AlikeMembers(x: Json, y: Json)
    requires (forall path :: AlikeAt(x, y, path)) && x.Object? && y.Object?
    ensures JsonEq(x, y)
    decreases x, 0
  {
    hide NumberEq, Below;
    forall k ensures k in x.m <==> k in y.m {
      assert AlikeAt(x, y, [Key(k)] + []);
      BelowKey(x, k, []);
      BelowKey(y, k, []);
      if k in x.m { BelowNothing(x.m[k]); }
      if k in y.m { BelowNothing(y.m[k]); }
    }
    forall k | k in x.m ensures JsonEq(x.m[k], y.m[k]) {
      forall path ensures AlikeAt(x.m[k], y.m[k], path) {
        assert AlikeAt(x, y, [Key(k)] + path);
        BelowKey(x, k, path);
        BelowKey(y, k, path);
      }
      AlikeEqual(x.m[k], y.m[k]);
    }
  }

  lemma SameLength(x: Json, y: Json, i: nat)
    requires (forall path :: AlikeAt(x, y, path)) && x.Array? && y.Array?
    ensures i < |x.a| <==> i < |y.a|
  {
    hide NumberEq, Below;
    assert AlikeAt(x, y, [Index(i)] + []);
    BelowIndex(x, i, []);
    BelowIndex(y, i, []);
    if i < |x.a| { BelowNothing(x.a[i]); }
    if i < |y.a| { BelowNothing(y.a[i]); }
  }

  lemma {:induction false} AlikeElements(x: Json, y: Json)
    requires (forall path :: AlikeAt(x, y, path)) && x.Array? && y.Array?
    ensures JsonEq(x, y)
    decreases x, 0
  {
    hide NumberEq, Below;
    SameLength(x, y, |x.a|);
    SameLength(x, y, |y.a|);
    forall i | 0 <= i < |x.a| ensures JsonEq(x.a[i], y.a[i]) {
      forall path ensures AlikeAt(x.a[i], y.a[i], path) {
        assert AlikeAt(x, y, [Index(i)] + path);
        BelowIndex(x, i, path);
        BelowIndex(y, i, path);
      }
      AlikeEqual(x.a[i], y.a[i]);
    }
  }

  // ---------------------------------------------------------------- number by number

  /** Two integers, each stored signed or unsigned, compare equal exactly if they are 64 bits of the same number. */
  lemma IntegersEqual(x: Json, y: Json)
    requires (x.Int? || x.UInt?) && (y.Int? || y.UInt?)
    ensures NumberEq(x, y) <==> (Integer(x) - Integer(y)) % 0x1_0000_0000_0000_0000 == 0
  {}

  function Integer(j: Json): int
    requires j.Int? || j.UInt?
  {
    if j.Int? then j.i else j.u
  }

  /** A float equals a float of the same value; it equals an integer if it is the double nearest to that. */
  lemma FloatsEqual(bits: uint64, y: Json)
    ensures NumberEq(Float(bits), y) <==> NumberEq(y, Float(bits))
    ensures y.Float? ==> (NumberEq(Float(bits), y) <==> FloatValue(bits) == FloatValue(y.bits) && FloatValue(bits) != NaN)
    ensures y.Int? || y.UInt? ==> (NumberEq(Float(bits), y) <==> FloatValue(bits) == Finite(ToDouble(Integer(y))))
  {
    hide FloatValue, ToDouble;
  }

  function Abs(n: int): nat { if n < 0 then -n else n }

  /**
   * The spacing of the doubles beside n is a power of two, 1 below 2^53; n is fewer than 2^53 spacings, and at least
   * 2^52 of longer ones.
   */
  lemma {:induction false} SpacingIs(n: nat)
    ensures exists e: nat :: Spacing(n) == Power2(e)
    ensures n / Spacing(n) < 0x20_0000_0000_0000
    ensures Spacing(n) > 1 ==> n / Spacing(n) >= 0x10_0000_0000_0000
  {
    if n < 0x20_0000_0000_0000 {
      assert Spacing(n) == Power2(0);
    } else {
      SpacingIs(n / 2);
      var e: nat :| Spacing(n / 2) == Power2(e);
      assert Spacing(n) == Power2(e + 1);
      Halved(n, Spacing(n / 2));
    }
  }

  lemma Halved(n: nat, u: nat)
    requires u > 0
    ensures n / (2 * u) == n / 2 / u
  {
    var q, r := n / 2 / u, n / 2 % u;
    assert n / 2 == q * u + r;
    assert n == q * (2 * u) + (2 * r + n % 2) && 0 <= 2 * r + n % 2 < 2 * u;
    Quotient(n, 2 * u, q, 2 * r + n % 2);
  }

  lemma Multiple(k: int, u: nat, d: int)
    requires k * u == d && -(u as int) < d < u
    ensures u > 0 ==> k == 0
  {
    if k >= 1 { OneOrMore(k, u); } else if k <= -1 { OneOrMore(-k, u); }
  }

  lemma OneOrMore(k: int, u: nat)
    requires k >= 1
    ensures k * u >= u && (-k) * u == -(k * u)
  {}

  lemma Quotient(n: nat, u: nat, q: nat, r: nat)
    requires u > 0 && n == q * u + r && r < u
    ensures n / u == q && n % u == r
  {
    var p, t := n / u, n % u;
    assert n == p * u + t;
    Distribute(p, q, u);
    Multiple(p - q, u, r - t);
  }

  lemma Distribute(p: int, q: int, u: int)
    ensures (p - q) * u == p * u - q * u
  {}

  /** An integer is cast to a multiple k of the spacing. */
  function Cast(n: nat): (k: nat) {
    var u := Spacing(n);
    var q, r := n / u, n % u;
    if 2 * r > u || (2 * r == u && q % 2 == 1) then q + 1 else q
  }

  lemma ToDoubleCast(i: int)
    ensures ToDouble(i) == (if i < 0 then -(Cast(Abs(i)) * Spacing(Abs(i))) else Cast(Abs(i)) * Spacing(Abs(i))) as real
  {}

  /** With the products spelled out. */
  lemma Nearest(n: int, u: nat, q: nat, r: nat, k: nat, m: nat, qu: int, ku: int, mu: int)
    requires n == qu + r && r < u
    requires var up := 2 * r > u || (2 * r == u && q % 2 == 1); if up then k == q + 1 && ku == qu + u else k == q && ku == qu
    requires if m < q then mu <= qu - u else if m == q then mu == qu else if m == q + 1 then mu == qu + u else mu >= qu + 2 * u
    ensures Abs(n - ku) <= Abs(n - mu) && (Abs(n - ku) == Abs(n - mu) && m != k ==> k % 2 == 0)
  {}

  lemma Products(q: nat, m: nat, u: nat)
    ensures (q + 1) * u == q * u + u
    ensures if m < q then m * u <= q * u - u else if m == q + 1 then m * u == q * u + u
            else m > q ==> m * u >= q * u + 2 * u
  {
    Distribute(q + 1, q, u);
    Distribute(m, q, u);
    Distribute(q, m, u);
    if m > q { OneOrMoreFrom(m - q, u); } else if m < q { OneOrMoreFrom(q - m, u); }
  }

  /** No other multiple of the spacing is nearer to n, and of two that are as near the even one is taken. */
  lemma CastNearest(n: nat, m: nat)
    ensures Abs(n - Cast(n) * Spacing(n)) <= Abs(n - m * Spacing(n))
    ensures Abs(n - Cast(n) * Spacing(n)) == Abs(n - m * Spacing(n)) && m != Cast(n) ==> Cast(n) % 2 == 0
    ensures Cast(n) <= 0x20_0000_0000_0000 && (Spacing(n) > 1 ==> Cast(n) >= 0x10_0000_0000_0000)
  {
    hide *;
    SpacingIs(n);
    var u, k := Spacing(n), Cast(n);
    var q, r := Divided(n, u);
    CastIs(n);
    Products(q, m, u);
    Nearest(n, u, q, r, k, m, q * u, k * u, m * u);
  }

  lemma Divided(n: nat, u: nat) returns (q: nat, r: nat)
    requires u > 0
    ensures q == n / u && r == n % u && n == q * u + r && r < u
  {
    q, r := n / u, n % u;
  }

  lemma CastIs(n: nat)
    ensures var u := Spacing(n);
      var q, r := n / u, n % u;
      Cast(n) == if 2 * r > u || (2 * r == u && q % 2 == 1) then q + 1 else q
  {
    hide Spacing;
  }

  lemma OneOrMoreFrom(k: int, u: nat)
    requires k >= 1
    ensures k * u >= u && (k >= 2 ==> k * u >= 2 * u) && (k == 1 ==> k * u == u)
  {
    if k >= 2 { assert (k - 2) * u >= 0; }
  }

  /** The cast of an integer of 64 bits is the value of a double. */
  lemma CastIsDouble(i: int) returns (bits: uint64)
    requires Abs(i) <= 0x1_0000_0000_0000_0000
    ensures FloatValue(bits) == Finite(ToDouble(i))
  {
    var n := Abs(i);
    CastNearest(n, 0);
    SpacingIs(n);
    ToDoubleCast(i);
    hide Cast, Spacing, FloatValue, ToDouble;
    var e: nat :| Spacing(n) == Power2(e);
    var k := Cast(n);
    SpacingShort(n, e);
    bits := Represented(i < 0, k, e);
    assert k * Power2(e) == k * Spacing(n);
  }

  lemma SpacingShort(n: nat, e: nat)
    requires n <= 0x1_0000_0000_0000_0000 && Spacing(n) == Power2(e)
    ensures e <= 12
  {
    SpacingIs(n);
    if e > 12 {
      Power2Monotone(13, e);
      assert Power2(13) == 8192 by { Power2Values(); Power2Sum(10, 3); assert Power2(3) == 8; }
      hide *;
      var q, r := Divided(n, Spacing(n));
      AtLeastTimes(q, Spacing(n), 8192);
    }
  }

  lemma AtLeastTimes(q: nat, u: nat, v: nat)
    requires u >= v
    ensures q * u >= q * v
  {
    Distribute(u, v, q);
  }

  /** A number of up to 53 bits, and the power of two that closes them, times a small power of two. */
  lemma Represented(negative: bool, k: nat, e: nat) returns (bits: uint64)
    requires k <= 0x20_0000_0000_0000 && e <= 12
    ensures FloatValue(bits) == Finite((if negative then -(k * Power2(e)) else k * Power2(e)) as real)
  {
    hide Power2, Pow2, FloatValue, Shifted, Log2;
    Power2Values();
    if k == 0 {
      Fields(false, 0, 0);
      bits := 0;
    } else if k == 0x20_0000_0000_0000 {
      bits := Normal(negative, 0x10_0000_0000_0000, e + 1);
      Power2Sum(1, e);
      assert Power2(1) == 2 by { Powers(); }
      assert k * Power2(e) == 0x10_0000_0000_0000 * (2 * Power2(e));
    } else {
      bits := Normal(negative, k, e);
    }
  }

  lemma Powers()
    ensures Power2(1) == 2 && Power2(0) == 1 && Pow2(0) == 1.0
  {}

  lemma LogSmall(k: nat)
    requires 0 < k < 0x20_0000_0000_0000
    ensures Log2(k) <= 52 && Power2(Log2(k)) <= k < 2 * Power2(Log2(k))
  {
    Log2Bounds(k);
    Powers();
    hide Power2, Log2;
    Power2Values();
    Power2Sum(1, 52);
    if Log2(k) > 52 {
      Power2Monotone(53, Log2(k));
    }
  }

  lemma Normal(negative: bool, k: nat, e: nat) returns (bits: uint64)
    requires 0 < k < 0x20_0000_0000_0000 && e <= 13
    ensures FloatValue(bits) == Finite((if negative then -(k * Power2(e)) else k * Power2(e)) as real)
  {
    hide Power2, Pow2, FloatValue, Shifted, Log2;
    LogSmall(k);
    Powers();
    var p := Log2(k);
    var rest := k - Power2(p);
    var f := Shifted(rest, p);
    bits := (if negative then 0x8000_0000_0000_0000 else 0) + (e + p + 1023) * 0x10_0000_0000_0000 + f;
    Fields(negative, e + p + 1023, f);
    Significand(rest, p, e + p - 52);
    assert 52 - p + (e + p - 52) == e && rest + Power2(p) == k;
    Pow2Up(e, 0);
    Whole(negative, k, Power2(e), Pow2(e), f + 0x10_0000_0000_0000, Pow2(e + p - 52));
  }

  lemma Whole(negative: bool, k: nat, u: nat, x: real, a: nat, y: real)
    requires u as real == x && a as real * y == k as real * x
    ensures var sign := if negative then -1.0 else 1.0;
      sign * a as real * y == (if negative then -(k * u) else k * u) as real
  {
    assert (k * u) as real == k as real * u as real;
  }
}
