// ShortLargeArray: 16-bit signed elements. Every setter succeeds: narrower
// arguments are widened, wider ones cast with `(short)`, which keeps their low
// sixteen bits; `getByte` casts down and `getUnsignedByte` masks.
module ShortLargeArrays {
  import opened Wrappers
  import opened JavaInts
  import opened JavaValues
  import opened LargeArrayTypes
  import opened LargeArrays

  /** The setters: `setBoolean` stores 1 or 0, the integer setters `(short) v`, the float
    * setters `(short) v`, which for a float or double is `(short) (int) v`;
    * `setUnsignedByte` is `setShort`. The stored value keeps the low sixteen bits of the
    * argument and is the argument itself whenever that fits a short. */
  function Encode(a: Assignment): (r: Result<int16>)
    ensures r.Ok?
    ensures IntegralArgument(a).Some? ==> r.value % SHORT_MODULUS == IntegralArgument(a).value % SHORT_MODULUS
    ensures IntegralArgument(a).Some? && IsShort(IntegralArgument(a).value) ==> r.value == IntegralArgument(a).value
    ensures a.SetFloat? ==> r.value % SHORT_MODULUS == RealToInt(a.floatValue) % SHORT_MODULUS
    ensures a.SetDouble? ==> r.value % SHORT_MODULUS == RealToInt(a.doubleValue) % SHORT_MODULUS
  {
    match a
    case SetBoolean(b) => Ok(if b then 1 else 0)
    case SetByte(x) => Ok(x)
    case SetUnsignedByte(x) => Ok(x)
    case SetShort(x) => Ok(x)
    case SetInt(x) => Ok(ToShort(x))
    case SetLong(x) => Ok(ToShort(x))
    case SetFloat(r) => Ok(ToShort(RealToInt(r)))
    case SetDouble(r) => Ok(ToShort(RealToInt(r)))
  }

  /** The getters: `getBoolean` tests for nonzero, `getByte` is `(byte) v`,
    * `getUnsignedByte` is `0xFF & v`, the others widen v. */
  function Decode(v: int16, g: Getter): (r: Scalar)
    ensures Returns(g, r)
    ensures g == GetBoolean ==> r == Bool(v != 0)
    ensures g == GetByte ==> r.x % BYTE_MODULUS == v % BYTE_MODULUS && (IsByte(v) ==> r.x == v)
    ensures g == GetUnsignedByte ==> 0 <= r.x < BYTE_MODULUS && r.x == v % BYTE_MODULUS
    ensures g in {GetShort, GetInt, GetLong, GetFloat, GetDouble} ==> ScalarValue(r) == v as real
  {
    match g
    case GetBoolean => Bool(v != 0)
    case GetByte => Integral(ToByte(v))
    case GetUnsignedByte => Integral(UnsignedByte(v))
    case GetFloat => Floating(v as real)
    case GetDouble => Floating(v as real)
    case _ => Integral(v)
  }

  const Codec: Codec<int16> := LargeArrays.Codec(Encode, Decode, Identity)

  /** What an integer setter stores reads back through `getByte` as the argument cast to
    * byte: casting to short first and to byte afterwards loses nothing more. */
  lemma {:induction false} ByteOfStored(a: Assignment)
    requires IntegralArgument(a).Some?
    ensures Decode(Encode(a).value, GetByte) == Integral(ToByte(IntegralArgument(a).value))
  {
    var x := IntegralArgument(a).value;
    var v := Encode(a).value;
    WrapCongruent(v, x, SHORT_MODULUS);
    assert v == ToShort(x);
    ByteOfShort(x);
  }

  /** Any value of short range written through any integer setter that can carry it reads
    * back unchanged through `getShort`, `getInt` and `getLong`. */
  lemma SetThenGet(a: Assignment, g: Getter)
    requires IntegralArgument(a).Some? && IsShort(IntegralArgument(a).value)
    requires g in {GetShort, GetInt, GetLong}
    ensures Decode(Encode(a).value, g) == Integral(IntegralArgument(a).value)
  {}

  /** `new ShortLargeArray(length, initValue, createConstant)`. */
  method New(length: int64, initValue: int16, createConstant: bool) returns (r: Result<LargeArray<int16>>)
    requires createConstant || length <= MAX_JAVA_ARRAY
    ensures r.Err? <==> length < 0
    ensures r.Err? ==> r.error == IllegalArgument
    ensures r.Ok? ==> fresh(r.value) && r.value.Valid() && r.value.arrayType == SHORT
    ensures r.Ok? ==> r.value.length == length && r.value.isConstant == createConstant
    ensures r.Ok? ==> r.value.Elements() == Repeat(initValue, length)
  {
    r := Create<int16>(SHORT, length, initValue, createConstant);
  }
}
