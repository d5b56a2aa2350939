// Java's fixed-width integers on top of Dafny's unbounded `int`: the narrowing
// casts `(byte)`, `(short)`, `(int)`, `(long)` keep the low bits as a two's
// complement value, and `0xFF & b` reads a byte as unsigned.
module JavaInts {

  const BYTE_MODULUS: int := 0x100
  const SHORT_MODULUS: int := 0x1_0000
  const INT_MODULUS: int := 0x1_0000_0000
  const LONG_MODULUS: int := 0x1_0000_0000_0000_0000

  predicate IsByte(x: int) { -0x80 <= x < 0x80 }
  predicate IsShort(x: int) { -0x8000 <= x < 0x8000 }
  predicate IsInt(x: int) { -0x8000_0000 <= x < 0x8000_0000 }
  predicate IsLong(x: int) { -0x8000_0000_0000_0000 <= x < 0x8000_0000_0000_0000 }

  /** Java's `byte`, `short`, `int` and `long`. */
  type int8 = x: int | -0x80 <= x < 0x80
  type int16 = x: int | -0x8000 <= x < 0x8000
  type int32 = x: int | -0x8000_0000 <= x < 0x8000_0000
  type int64 = x: int | -0x8000_0000_0000_0000 <= x < 0x8000_0000_0000_0000

  /** The only r in [-m/2, m/2) that is congruent to x modulo m. */
  function Wrap(x: int, m: int): (r: int)
    requires 2 <= m && m % 2 == 0
    ensures -(m / 2) <= r < m / 2
    ensures r % m == x % m
    ensures -(m / 2) <= x < m / 2 ==> r == x
  {
    var k := x % m;
    if 0 <= x < m / 2 then ModUnique(x, m, 0, x); k
    else if -(m / 2) <= x < 0 then ModShift(x, 1, m); ModUnique(x + m, m, 0, x + m); k - m
    else if k < m / 2 then ModUnique(k, m, 0, k); k
    else ModUnique(k, m, 0, k); ModShift(k - m, 1, m); k - m
  }

  function ToByte(x: int): (r: int)
    ensures IsByte(r)
    ensures IsByte(x) ==> r == x
    ensures r % BYTE_MODULUS == x % BYTE_MODULUS
  { Wrap(x, BYTE_MODULUS) }

  function ToShort(x: int): (r: int)
    ensures IsShort(r)
    ensures IsShort(x) ==> r == x
    ensures r % SHORT_MODULUS == x % SHORT_MODULUS
  { Wrap(x, SHORT_MODULUS) }

  function ToInt(x: int): (r: int)
    ensures IsInt(r)
    ensures IsInt(x) ==> r == x
    ensures r % INT_MODULUS == x % INT_MODULUS
  { Wrap(x, INT_MODULUS) }

  function ToLong(x: int): (r: int)
    ensures IsLong(r)
    ensures IsLong(x) ==> r == x
    ensures r % LONG_MODULUS == x % LONG_MODULUS
  { Wrap(x, LONG_MODULUS) }

  /** `0xFF & x` for a two's-complement x: the low eight bits, unsigned. */
  function UnsignedByte(x: int): (r: int)
    ensures 0 <= r < BYTE_MODULUS
    ensures ToByte(r) == ToByte(x)
  {
    WrapCongruent(x % BYTE_MODULUS, x, BYTE_MODULUS);
    x % BYTE_MODULUS
  }

  // ---- congruence facts ----

  /** Adding a multiple of m does not change the remainder. */
  lemma {:induction false} ModShift(x: int, q: int, m: int)
    requires 0 < m
    ensures (x + q * m) % m == x % m
  {
    var d, r := x / m, x % m;
    assert x == d * m + r;
    assert x + q * m == (d + q) * m + r;
    ModUnique(x + q * m, m, d + q, r);
  }

  /** Euclidean division is unique. */
  lemma ModUnique(x: int, m: int, q: int, r: int)
    requires 0 < m && 0 <= r < m && x == q * m + r
    ensures x % m == r && x / m == q
  {
    var q0, r0 := x / m, x % m;
    assert x == q0 * m + r0;
    if q0 < q {
      assert (q - q0) * m >= m by { MulMonotone(q - q0, 1, m); }
      assert false;
    } else if q < q0 {
      assert (q0 - q) * m >= m by { MulMonotone(q0 - q, 1, m); }
      assert false;
    }
  }

  lemma MulMonotone(a: int, b: int, m: int)
    requires a >= b && m > 0
    ensures a * m >= b * m
  {}

  /** Congruent numbers wrap to the same value. */
  lemma WrapCongruent(x: int, y: int, m: int)
    requires 2 <= m && m % 2 == 0
    requires x % m == y % m
    ensures Wrap(x, m) == Wrap(y, m)
  {}

  /** Reducing modulo a multiple of m first changes nothing modulo m. */
  lemma {:induction false} ModOfMod(x: int, m: int, k: int)
    requires 0 < m && 0 < k
    ensures (x % (k * m)) % m == x % m
  {
    var q := x / (k * m);
    assert x == q * (k * m) + x % (k * m);
    assert x == x % (k * m) + (q * k) * m;
    ModShift(x % (k * m), q * k, m);
  }

  /** Casting to a wider type first, then to a narrower one, is the narrow cast. */
  lemma {:induction false} WrapNarrowing(x: int, m: int, k: int, wide: int)
    requires 2 <= m && m % 2 == 0 && 0 < k && wide == k * m && wide % 2 == 0
    ensures Wrap(Wrap(x, wide), m) == Wrap(x, m)
  {
    var w := Wrap(x, wide);
    ModOfMod(w, m, k);
    ModOfMod(x, m, k);
  }

  lemma ByteOfShort(x: int)
    ensures ToByte(ToShort(x)) == ToByte(x)
  { WrapNarrowing(x, BYTE_MODULUS, 0x100, SHORT_MODULUS); }

  lemma ByteOfInt(x: int)
    ensures ToByte(ToInt(x)) == ToByte(x)
  { WrapNarrowing(x, BYTE_MODULUS, 0x100_0000, INT_MODULUS); }

  lemma ShortOfInt(x: int)
    ensures ToShort(ToInt(x)) == ToShort(x)
  { WrapNarrowing(x, SHORT_MODULUS, 0x1_0000, INT_MODULUS); }

  lemma IntOfLong(x: int)
    ensures ToInt(ToLong(x)) == ToInt(x)
  { WrapNarrowing(x, INT_MODULUS, 0x1_0000_0000, LONG_MODULUS); }

  /** Wrapping an intermediate sum or product does not change the wrapped result,
    * so an accumulator kept in the narrow type gives the wrapped exact value. */
  lemma {:induction false} WrapAdd(a: int, b: int, m: int)
    requires 2 <= m && m % 2 == 0
    ensures Wrap(Wrap(a, m) + b, m) == Wrap(a + b, m)
  {
    var w := Wrap(a, m);
    ModAdd(w, a, b, m);
    WrapCongruent(w + b, a + b, m);
  }

  /** Adding the same number to congruent numbers keeps them congruent. */
  lemma {:induction false} ModAdd(x: int, y: int, b: int, m: int)
    requires 0 < m && x % m == y % m
    ensures (x + b) % m == (y + b) % m
  {
    var qx, qy := x / m, y / m;
    assert x == qx * m + x % m;
    assert y == qy * m + y % m;
    assert x + b == (y + b) + (qx - qy) * m;
    ModShift(y + b, qx - qy, m);
  }

  lemma {:induction false} WrapMul(a: int, b: int, m: int)
    requires 2 <= m && m % 2 == 0
    ensures Wrap(Wrap(a, m) * b, m) == Wrap(a * b, m)
  {
    var w := Wrap(a, m);
    ModUnique(a, m, a / m, a % m);
    ModUnique(w, m, w / m, w % m);
    var q := a / m - w / m;
    assert a == w + q * m;
    assert a * b == w * b + (q * b) * m;
    ModShift(w * b, q * b, m);
  }

  /** `(byte)` and `0xFF &` invert each other on the unsigned range [0, 255]. */
  lemma UnsignedByteRoundTrip(u: int)
    requires 0 <= u < BYTE_MODULUS
    ensures UnsignedByte(ToByte(u)) == u
  {
    ModUnique(u, BYTE_MODULUS, 0, u);
  }

  /** ... and on the signed range [-128, 127] the other way round. */
  lemma SignedByteRoundTrip(b: int)
    requires IsByte(b)
    ensures ToByte(UnsignedByte(b)) == b
  {}

  // ---- bitwise operators on bytes ----

  /** The eight bits of a byte. */
  function Bits(x: int8): bv8 {
    UnsignedByte(x) as bv8
  }

  /** `(byte) (a & b)`, `(byte) (a | b)` and `(byte) (a ^ b)` for bytes widened to int:
    * only the low eight bits of the widened operands reach the result. */
  function ByteAnd(a: int8, b: int8): int8 { ToByte((Bits(a) & Bits(b)) as int) }
  function ByteOr(a: int8, b: int8): int8 { ToByte((Bits(a) | Bits(b)) as int) }
  function ByteXor(a: int8, b: int8): int8 { ToByte((Bits(a) ^ Bits(b)) as int) }

  /** On 0 and 1 the bitwise operators are the boolean ones. */
  lemma BitwiseOnBits(a: int8, b: int8)
    requires 0 <= a <= 1 && 0 <= b <= 1
    ensures ByteAnd(a, b) == (if a == 1 && b == 1 then 1 else 0)
    ensures ByteOr(a, b) == (if a == 1 || b == 1 then 1 else 0)
    ensures ByteXor(a, b) == (if a != b then 1 else 0)
  {
    assert Bits(a) == a as bv8 && Bits(b) == b as bv8;
  }
}
