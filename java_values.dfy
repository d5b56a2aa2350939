// Java values as the large arrays see them: the argument of a typed setter,
// the result of a typed getter, the objects handed to `set(i, Object)`, the
// float-to-integer casts and the decimal strings of `Integer.toString`.
// Float and double values are finite reals: NaN, the infinities and rounding
// to 24 or 53 bits are not part of this model.
module JavaValues {
  import opened JavaInts
  import opened Wrappers

  /** A call of one of the typed setters `setBoolean` ... `setDouble`, with its argument
    * (`setUnsignedByte` takes a short). */
  datatype Assignment =
    | SetBoolean(boolValue: bool)
    | SetByte(byteValue: int8)
    | SetUnsignedByte(unsignedValue: int16)
    | SetShort(shortValue: int16)
    | SetInt(intValue: int32)
    | SetLong(longValue: int64)
    | SetFloat(floatValue: real)
    | SetDouble(doubleValue: real)

  /** The typed getters `getBoolean` ... `getDouble`. */
  datatype Getter = GetBoolean | GetByte | GetUnsignedByte | GetShort | GetInt | GetLong | GetFloat | GetDouble

  /** What a getter returns. */
  datatype Scalar = Bool(b: bool) | Integral(x: int) | Floating(r: real)

  /** The result has the getter's Java return type (`getUnsignedByte` returns a short). */
  predicate Returns(g: Getter, v: Scalar) {
    match g
    case GetBoolean => v.Bool?
    case GetByte => v.Integral? && IsByte(v.x)
    case GetUnsignedByte => v.Integral? && IsShort(v.x)
    case GetShort => v.Integral? && IsShort(v.x)
    case GetInt => v.Integral? && IsInt(v.x)
    case GetLong => v.Integral? && IsLong(v.x)
    case GetFloat => v.Floating?
    case GetDouble => v.Floating?
  }

  /** The argument of a setter as a number, true counting as 1 and false as 0. */
  function Numeric(a: Assignment): real {
    match a
    case SetBoolean(b) => if b then 1.0 else 0.0
    case SetByte(x) => x as real
    case SetUnsignedByte(x) => x as real
    case SetShort(x) => x as real
    case SetInt(x) => x as real
    case SetLong(x) => x as real
    case SetFloat(r) => r
    case SetDouble(r) => r
  }

  /** The argument of a boolean or integer setter as an integer, true counting as 1 and
    * false as 0; None for the float and double setters. */
  function IntegralArgument(a: Assignment): (r: Option<int>)
    ensures r.Some? <==> !(a.SetFloat? || a.SetDouble?)
    ensures r.Some? ==> r.value as real == Numeric(a) && IsLong(r.value)
  {
    match a
    case SetBoolean(b) => Some(if b then 1 else 0)
    case SetByte(x) => Some(x)
    case SetUnsignedByte(x) => Some(x)
    case SetShort(x) => Some(x)
    case SetInt(x) => Some(x)
    case SetLong(x) => Some(x)
    case _ => None
  }

  /** What a getter returned, as a number, true counting as 1 and false as 0. */
  function ScalarValue(v: Scalar): real {
    match v
    case Bool(b) => if b then 1.0 else 0.0
    case Integral(x) => x as real
    case Floating(r) => r
  }

  /** A non-null Java object: the boxed primitives, strings, the float and double arrays
    * the complex arrays take, and any other object, known by its class, whether it
    * implements Serializable, and its identity. */
  datatype JavaObject =
    | BoxedBoolean(boolValue: bool)
    | BoxedByte(byteValue: int8)
    | BoxedShort(shortValue: int16)
    | BoxedInteger(intValue: int32)
    | BoxedLong(longValue: int64)
    | BoxedFloat(floatValue: real)
    | BoxedDouble(doubleValue: real)
    | Str(s: string)
    | FloatArray(fs: seq<real>)
    | DoubleArray(ds: seq<real>)
    | Instance(className: string, serializable: bool, id: int)

  /** `o.getClass()`, by name. */
  function ClassOf(o: JavaObject): string {
    match o
    case BoxedBoolean(_) => "java.lang.Boolean"
    case BoxedByte(_) => "java.lang.Byte"
    case BoxedShort(_) => "java.lang.Short"
    case BoxedInteger(_) => "java.lang.Integer"
    case BoxedLong(_) => "java.lang.Long"
    case BoxedFloat(_) => "java.lang.Float"
    case BoxedDouble(_) => "java.lang.Double"
    case Str(_) => "java.lang.String"
    case FloatArray(_) => "[F"
    case DoubleArray(_) => "[D"
    case Instance(c, _, _) => c
  }

  /** `o instanceof java.io.Serializable`: boxed primitives, strings and arrays are. */
  predicate IsSerializable(o: JavaObject) {
    !o.Instance? || o.serializable
  }

  /** `LargeArray.set(i, Object)`: the boxed type of the value picks the typed setter,
    * tested in the order Boolean, Byte, Short, Integer, Long, Float, Double; any other
    * value is rejected with IllegalArgumentException. */
  function Unbox(o: JavaObject): (r: Result<Assignment>)
    ensures r.Err? <==> !(o.BoxedBoolean? || o.BoxedByte? || o.BoxedShort? || o.BoxedInteger? || o.BoxedLong? || o.BoxedFloat? || o.BoxedDouble?)
    ensures r.Err? ==> r.error == IllegalArgument
  {
    match o
    case BoxedBoolean(b) => Ok(SetBoolean(b))
    case BoxedByte(x) => Ok(SetByte(x))
    case BoxedShort(x) => Ok(SetShort(x))
    case BoxedInteger(x) => Ok(SetInt(x))
    case BoxedLong(x) => Ok(SetLong(x))
    case BoxedFloat(r) => Ok(SetFloat(r))
    case BoxedDouble(r) => Ok(SetDouble(r))
    case _ => Err(IllegalArgument)
  }

  // ---------------------------------------------------------------------------
  // Float to integer casts

  /** Rounding toward zero. */
  function Truncate(r: real): (n: int)
    ensures 0.0 <= r ==> n as real <= r < n as real + 1.0
    ensures r < 0.0 ==> n as real - 1.0 < r <= n as real
  {
    if r >= 0.0 then r.Floor else -((-r).Floor)
  }

  /** `(int) r`: rounds toward zero, then saturates at the ends of the int range. */
  function RealToInt(r: real): (n: int)
    ensures IsInt(n)
    ensures IsInt(Truncate(r)) ==> n == Truncate(r)
  {
    var t := Truncate(r);
    if t < -0x8000_0000 then -0x8000_0000
    else if t >= 0x8000_0000 then 0x7fff_ffff
    else t
  }

  /** `(long) r`: rounds toward zero, then saturates at the ends of the long range. */
  function RealToLong(r: real): (n: int)
    ensures IsLong(n)
    ensures IsLong(Truncate(r)) ==> n == Truncate(r)
  {
    var t := Truncate(r);
    if t < -0x8000_0000_0000_0000 then -0x8000_0000_0000_0000
    else if t >= 0x8000_0000_0000_0000 then 0x7fff_ffff_ffff_ffff
    else t
  }

  /** A whole number of float type casts back to itself. */
  lemma RealToIntOfInt(x: int)
    requires IsInt(x)
    ensures RealToInt(x as real) == x && RealToLong(x as real) == x
  {}

  // ---------------------------------------------------------------------------
  // Decimal strings

  function DigitChar(d: int): (c: char)
    requires 0 <= d < 10
    ensures '0' <= c <= '9'
  {
    "0123456789"[d]
  }

  /** The decimal digits of n, most significant first, without leading zeros. */
  function Digits(n: nat): (s: string)
    ensures 0 < |s|
    ensures forall k :: 0 <= k < |s| ==> '0' <= s[k] <= '9'
    ensures 1 < |s| ==> s[0] != '0'
    decreases n
  {
    if n < 10 then [DigitChar(n)] else Digits(n / 10) + [DigitChar(n % 10)]
  }

  /** `Integer.toString`, `Long.toString`, `Short.toString` and `Byte.toString`. */
  function DecimalString(x: int): (s: string)
    ensures 0 < |s|
    ensures x < 0 <==> s[0] == '-'
    ensures forall k :: 0 <= k < |s| ==> s[k] == '-' || '0' <= s[k] <= '9'
  {
    if x < 0 then "-" + Digits(-x) else Digits(x)
  }

  /** `Boolean.toString`. */
  function BooleanString(b: bool): (s: string)
    ensures |s| == if b then 4 else 5
  {
    if b then "true" else "false"
  }

  /** The value of a string of decimal digits. */
  function DigitsValue(s: string): nat
    requires forall k :: 0 <= k < |s| ==> '0' <= s[k] <= '9'
  {
    if |s| == 0 then 0 else DigitsValue(s[..|s| - 1]) * 10 + (s[|s| - 1] - '0') as int
  }

  /** The value of an optionally signed decimal string, as `Long.parseLong` reads it. */
  function DecimalValue(s: string): Option<int> {
    if 0 < |s| && s[0] == '-' && 1 < |s| && forall k :: 1 <= k < |s| ==> '0' <= s[k] <= '9' then
      Some(-(DigitsValue(s[1..]) as int))
    else if 0 < |s| && forall k :: 0 <= k < |s| ==> '0' <= s[k] <= '9' then
      Some(DigitsValue(s))
    else None
  }

  lemma {:induction false} DigitsRoundTrip(n: nat)
    ensures DigitsValue(Digits(n)) == n
    decreases n
  {
    if n >= 10 {
      var s := Digits(n);
      assert s[..|s| - 1] == Digits(n / 10);
      DigitsRoundTrip(n / 10);
      assert "0123456789"[n % 10] - '0' == (n % 10) as char;
    } else {
      assert "0123456789"[n] - '0' == n as char;
    }
  }

  /** Digits alone read as their value. */
  lemma {:induction false} UnsignedDigitsValue(d: string)
    requires 0 < |d| && forall k :: 0 <= k < |d| ==> '0' <= d[k] <= '9'
    ensures DecimalValue(d) == Some(DigitsValue(d))
  {
    assert d[0] != '-';
  }

  /** A minus sign followed by digits reads as minus their value. */
  lemma {:induction false} SignedDigitsValue(d: string)
    requires 0 < |d| && forall k :: 0 <= k < |d| ==> '0' <= d[k] <= '9'
    ensures DecimalValue("-" + d) == Some(-(DigitsValue(d) as int))
  {
    var s := "-" + d;
    assert s[1..] == d;
    assert forall k :: 1 <= k < |s| ==> s[k] == d[k - 1];
  }

  /** The decimal string of a negative number reads back as that number. */
  lemma {:induction false} NegativeDecimalRoundTrip(x: int)
    requires x < 0
    ensures DecimalValue(DecimalString(x)) == Some(x)
  {
    var n: nat := -x;
    var d := Digits(n);
    DigitsRoundTrip(n);
    SignedDigitsValue(d);
    assert DecimalString(x) == "-" + d;
  }

  /** Reading back the decimal string of x gives x. */
  lemma {:induction false} DecimalRoundTrip(x: int)
    ensures DecimalValue(DecimalString(x)) == Some(x)
  {
    if x < 0 {
      NegativeDecimalRoundTrip(x);
    } else {
      var d := Digits(x);
      DigitsRoundTrip(x);
      UnsignedDigitsValue(d);
      assert DecimalString(x) == d;
    }
  }
}
