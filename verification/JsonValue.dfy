/** JSON values as the vendored json.hpp holds them, and its comparison. */
module JsonValue {
  import opened Bytes

  /** A std::string: bytes, with no encoding attached. */
  type Str = seq<byte>

  type int64 = x: int | -0x8000_0000_0000_0000 <= x < 0x8000_0000_0000_0000
  type uint64 = x: int | 0 <= x < 0x1_0000_0000_0000_0000

  /** A number keeps the way it is stored: signed, unsigned, or the bit pattern of a double. */
  datatype Json =
    | Null
    | Bool(b: bool)
    | Int(i: int64)
    | UInt(u: uint64)
    | Float(bits: uint64)
    | String(s: Str)
    | Array(a: seq<Json>)
    | Object(m: map<Str, Json>)

  /** The exceptions the library throws, and the assertion that guards `patch`. */
  datatype Error = OutOfRange | DomainError | InvalidArgument | LengthError | AssertionFailed

  datatype Result<+T> = Ok(value: T) | Err(error: Error) {
    predicate IsFailure() { Err? }
    function PropagateFailure<U>(): Result<U> requires Err? { Err(error) }
    function Extract(): T requires Ok? { value }
  }

  // ---------------------------------------------------------------- numbers

  datatype Double = Finite(v: real) | PosInf | NegInf | NaN

  function Pow2(n: int): real
    decreases if n < 0 then -n else n
  {
    if n == 0 then 1.0 else if n > 0 then 2.0 * Pow2(n - 1) else Pow2(n + 1) / 2.0
  }

  /** The value of an IEEE 754 binary64 bit pattern. */
  function FloatValue(bits: uint64): Double {
    var negative := bits / 0x8000_0000_0000_0000 == 1;
    var exponent := bits / 0x10_0000_0000_0000 % 2048;
    var fraction := bits % 0x10_0000_0000_0000;
    var sign := if negative then -1.0 else 1.0;
    if exponent == 2047 then
      if fraction != 0 then NaN else if negative then NegInf else PosInf
    else if exponent == 0 then Finite(sign * fraction as real * Pow2(-1074))
    else Finite(sign * (fraction + 0x10_0000_0000_0000) as real * Pow2(exponent - 1075))
  }

  /** The spacing of doubles at n, for n of at least 53 bits. */
  function Spacing(n: nat): (u: nat)
    ensures u > 0
  {
    if n < 0x20_0000_0000_0000 then 1 else 2 * Spacing(n / 2)
  }

  /** static_cast<double> of an integer: to nearest, ties to even. */
  function ToDouble(i: int): real {
    var n := if i < 0 then -i else i;
    var u := Spacing(n);
    var q, r := n / u, n % u;
    var k := if 2 * r > u || (2 * r == u && q % 2 == 1) then q + 1 else q;
    (if i < 0 then -(k * u) else k * u) as real
  }

  /** static_cast<int64_t> of an unsigned number. */
  function ToSigned(u: uint64): int64 {
    if u < 0x8000_0000_0000_0000 then u else u - 0x1_0000_0000_0000_0000
  }

  // ---------------------------------------------------------------- operator==

  predicate NumberEq(x: Json, y: Json) {
    match (x, y)
    case (Int(i), Int(j)) => i == j
    case (UInt(u), UInt(v)) => u == v
    case (Float(f), Float(g)) => FloatValue(f) == FloatValue(g) && FloatValue(f) != NaN
    case (Int(i), Float(g)) => Finite(ToDouble(i)) == FloatValue(g)
    case (Float(f), Int(j)) => FloatValue(f) == Finite(ToDouble(j))
    case (UInt(u), Float(g)) => Finite(ToDouble(u)) == FloatValue(g)
    case (Float(f), UInt(v)) => FloatValue(f) == Finite(ToDouble(v))
    case (UInt(u), Int(j)) => ToSigned(u) == j
    case (Int(i), UInt(v)) => i == ToSigned(v)
    case _ => false
  }

  predicate JsonEq(x: Json, y: Json)
    decreases x
  {
    match (x, y)
    case (Null, Null) => true
    case (Bool(b), Bool(c)) => b == c
    case (String(s), String(t)) => s == t
    case (Array(a), Array(b)) => |a| == |b| && forall i | 0 <= i < |a| :: JsonEq(a[i], b[i])
    case (Object(m), Object(n)) => m.Keys == n.Keys && forall k | k in m :: JsonEq(m[k], n[k])
    case _ => NumberEq(x, y)
  }

  /** No number in the value is a NaN. */
  predicate NaNFree(x: Json)
    decreases x
  {
    match x
    case Float(f) => FloatValue(f) != NaN
    case Array(a) => forall i | 0 <= i < |a| :: NaNFree(a[i])
    case Object(m) => forall k | k in m :: NaNFree(m[k])
    case _ => true
  }

  /**
   * An unsigned number is compared as a signed one: it equals itself and the number 2^64 below it, so that the largest
   * equals -1.
   */
  lemma UnsignedAgainstSigned(u: uint64, i: int64)
    ensures JsonEq(UInt(u), Int(i)) <==> JsonEq(Int(i), UInt(u))
    ensures JsonEq(UInt(u), Int(i)) <==> var d: int := (u as int) - (i as int); d == 0 || d == 0x1_0000_0000_0000_0000
  {
    var d: int := (u as int) - (i as int);
    assert ToSigned(u) == i <==> d == 0 || d == 0x1_0000_0000_0000_0000;
  }

  lemma LargestEqualsMinusOne()
    ensures JsonEq(UInt(0xffff_ffff_ffff_ffff), Int(-1))
  {
    hide JsonEq;
    UnsignedAgainstSigned(0xffff_ffff_ffff_ffff, -1);
  }

  /** A value compares equal to itself exactly when it holds no NaN. */
  lemma {:induction false} EqualToItself(x: Json)
    ensures JsonEq(x, x) <==> NaNFree(x)
    decreases x
  {
    match x {
      case Array(a) =>
        forall i | 0 <= i < |a| ensures JsonEq(a[i], a[i]) <==> NaNFree(a[i]) { EqualToItself(a[i]); }
      case Object(m) =>
        forall k | k in m ensures JsonEq(m[k], m[k]) <==> NaNFree(m[k]) { EqualToItself(m[k]); }
      case _ =>
    }
  }

  /** Whatever compares equal to a value, that value holds no NaN. */
  lemma {:induction false} EqualNaNFree(x: Json, y: Json)
    requires JsonEq(x, y)
    ensures NaNFree(x) && NaNFree(y)
    decreases x
  {
    hide FloatValue, ToDouble;
    match x {
      case Array(a) =>
        forall i | 0 <= i < |a| ensures NaNFree(a[i]) && NaNFree(y.a[i]) { EqualNaNFree(a[i], y.a[i]); }
      case Object(m) =>
        forall k | k in m ensures NaNFree(m[k]) && NaNFree(y.m[k]) { EqualNaNFree(m[k], y.m[k]); }
      case _ =>
    }
  }

  // ---------------------------------------------------------------- the order of keys

  /** std::less on strings: bytes compared left to right, a prefix first. */
  predicate LexLeq(a: Str, b: Str) {
    a == [] || (b != [] && (a[0] < b[0] || (a[0] == b[0] && LexLeq(a[1..], b[1..]))))
  }

  lemma {:induction false} LexTotal(a: Str, b: Str)
    ensures LexLeq(a, b) || LexLeq(b, a)
    ensures LexLeq(a, b) && LexLeq(b, a) ==> a == b
  {
    if a != [] && b != [] && a[0] == b[0] {
      LexTotal(a[1..], b[1..]);
      assert a == [a[0]] + a[1..] && b == [b[0]] + b[1..];
    }
  }

  lemma {:induction false} LexTransitive(a: Str, b: Str, c: Str)
    requires LexLeq(a, b) && LexLeq(b, c)
    ensures LexLeq(a, c)
  {
    if a != [] && b != [] && c != [] && a[0] == b[0] == c[0] {
      LexTransitive(a[1..], b[1..], c[1..]);
    }
  }

  predicate IsMin(k: Str, s: set<Str>) {
    k in s && forall k' | k' in s :: LexLeq(k, k')
  }

  lemma {:induction false} MinExists(s: set<Str>)
    requires s != {}
    ensures exists k :: IsMin(k, s)
  {
    var x :| x in s;
    LexTotal(x, x);
    if s - {x} == {} {
      assert s == {x};
      assert IsMin(x, s);
    } else {
      MinExists(s - {x});
      var y :| IsMin(y, s - {x});
      LexTotal(x, y);
      if LexLeq(x, y) {
        forall k' | k' in s ensures LexLeq(x, k') {
          if k' != x { LexTransitive(x, y, k'); }
        }
        assert IsMin(x, s);
      } else {
        assert IsMin(y, s);
      }
    }
  }

  lemma MinUnique(s: set<Str>)
    ensures forall k, k' | IsMin(k, s) && IsMin(k', s) :: k == k'
  {
    forall k, k' | IsMin(k, s) && IsMin(k', s) ensures k == k' {
      LexTotal(k, k');
    }
  }

  /** The keys of an object in the order in which the library iterates over them. */
  function SortedKeys(s: set<Str>): (ks: seq<Str>)
    ensures forall k :: k in ks <==> k in s
  {
    if s == {} then []
    else
      MinExists(s);
      MinUnique(s);
      var k :| IsMin(k, s);
      [k] + SortedKeys(s - {k})
  }

  lemma {:induction false} KeysSorted(s: set<Str>)
    ensures |SortedKeys(s)| == |s|
    ensures forall i, j | 0 <= i < j < |s| :: SortedKeys(s)[i] != SortedKeys(s)[j]
    ensures forall i, j | 0 <= i < j < |s| :: LexLeq(SortedKeys(s)[i], SortedKeys(s)[j])
  {
    hide LexLeq;
    if s != {} {
      var ks := SortedKeys(s);
      assert ks[1..] == SortedKeys(s - {ks[0]}) && IsMin(ks[0], s) by {
        MinExists(s);
        MinUnique(s);
      }
      KeysSorted(s - {ks[0]});
      forall j | 0 < j < |s| ensures ks[0] != ks[j] && LexLeq(ks[0], ks[j]) {
        assert ks[j] == ks[1..][j - 1];
        assert ks[j] in s - {ks[0]};
      }
      forall i, j | 0 < i < j < |s| ensures ks[i] != ks[j] && LexLeq(ks[i], ks[j]) {
        assert ks[i] == ks[1..][i - 1] && ks[j] == ks[1..][j - 1];
      }
    }
  }

  /** a and b agree before n, where a is smaller. */
  predicate SmallerAt(a: Str, b: Str, n: nat) {
    n < |a| && n < |b| && a[..n] == b[..n] && a[n] < b[n]
  }

  /** a comes before b in a dictionary: it is shorter and b goes on, or smaller in the first byte that differs. */
  ghost predicate Precedes(a: Str, b: Str) {
    a < b || exists n: nat :: SmallerAt(a, b, n)
  }

  lemma {:induction false} LexExactly(a: Str, b: Str)
    ensures LexLeq(a, b) <==> a == b || Precedes(a, b)
  {
    if a != [] && b != [] {
      assert a == [a[0]] + a[1..] && b == [b[0]] + b[1..];
      LexExactly(a[1..], b[1..]);
      assert Precedes(a, b) <==> a[0] < b[0] || (a[0] == b[0] && Precedes(a[1..], b[1..])) by {
        PrecedesTail(a, b);
      }
    }
  }

  lemma SmallerTail(a: Str, b: Str, n: nat)
    requires a != [] && b != [] && a[0] == b[0]
    ensures SmallerAt(a, b, n + 1) <==> SmallerAt(a[1..], b[1..], n)
  {
    if n + 1 <= |a| && n + 1 <= |b| {
      assert a[..n + 1] == [a[0]] + a[1..][..n] && b[..n + 1] == [b[0]] + b[1..][..n];
      assert a[..n + 1][1..] == a[1..][..n] && b[..n + 1][1..] == b[1..][..n];
    }
  }

  lemma PrefixTail(a: Str, b: Str)
    requires a != [] && b != [] && a[0] == b[0]
    ensures a < b <==> a[1..] < b[1..]
  {
    assert a == [a[0]] + a[1..] && b == [b[0]] + b[1..];
  }

  lemma NotFirst(a: Str, b: Str)
    requires a != [] && b != [] && a[0] == b[0]
    ensures !SmallerAt(a, b, 0)
  {}

  lemma PrecedesTail(a: Str, b: Str)
    requires a != [] && b != []
    ensures Precedes(a, b) <==> a[0] < b[0] || (a[0] == b[0] && Precedes(a[1..], b[1..]))
  {
    if a[0] == b[0] {
      hide SmallerAt;
      PrefixTail(a, b);
      NotFirst(a, b);
      if Precedes(a, b) && !(a < b) {
        var n: nat :| SmallerAt(a, b, n);
        SmallerTail(a, b, n - 1);
      }
      if Precedes(a[1..], b[1..]) && !(a[1..] < b[1..]) {
        var n: nat :| SmallerAt(a[1..], b[1..], n);
        SmallerTail(a, b, n);
      }
    } else {
      assert SmallerAt(a, b, 0) <==> a[0] < b[0];
    }
  }

  /** The order of the keys, byte by byte. */
  lemma KeysInOrder(s: set<Str>)
    ensures |SortedKeys(s)| == |s|
    ensures forall i, j | 0 <= i < j < |s| :: Precedes(SortedKeys(s)[i], SortedKeys(s)[j])
  {
    hide LexLeq, Precedes;
    KeysSorted(s);
    forall i, j | 0 <= i < j < |s| ensures Precedes(SortedKeys(s)[i], SortedKeys(s)[j]) {
      LexExactly(SortedKeys(s)[i], SortedKeys(s)[j]);
    }
  }
}
