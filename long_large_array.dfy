// LongLargeArray: 64-bit signed elements. Every integer setter widens its
// argument, the float setters cast with `(long)`; the narrower getters cast the
// stored value down and `getUnsignedByte` masks it.
module LongLargeArrays {
  import opened Wrappers
  import opened JavaInts
  import opened JavaValues
  import opened LargeArrayTypes
  import opened LargeArrays

  /** The setters: `setBoolean` stores 1 or 0, the integer setters the argument itself,
    * `setFloat` and `setDouble` `(long) v`; `setUnsignedByte` is `setShort`. */
  function Encode(a: Assignment): (r: Result<int64>)
    ensures r.Ok?
    ensures IntegralArgument(a).Some? ==> r.value == IntegralArgument(a).value
    ensures a.SetFloat? || a.SetDouble? ==> r.value as real - 1.0 < Numeric(a) < r.value as real + 1.0 || r.value in {-0x8000_0000_0000_0000, 0x7fff_ffff_ffff_ffff}
  {
    match a
    case SetBoolean(b) => Ok(if b then 1 else 0)
    case SetByte(x) => Ok(x)
    case SetUnsignedByte(x) => Ok(x)
    case SetShort(x) => Ok(x)
    case SetInt(x) => Ok(x)
    case SetLong(x) => Ok(x)
    case SetFloat(r) => Ok(RealToLong(r))
    case SetDouble(r) => Ok(RealToLong(r))
  }

  /** The getters: `getBoolean` tests for nonzero, `getByte`, `getShort` and `getInt`
    * cast v down, `getUnsignedByte` is `0xFF & v`, the others return v. */
  function Decode(v: int64, g: Getter): (r: Scalar)
    ensures Returns(g, r)
    ensures g == GetBoolean ==> r == Bool(v != 0)
    ensures g == GetByte ==> r.x % BYTE_MODULUS == v % BYTE_MODULUS
    ensures g == GetUnsignedByte ==> r.x == v % BYTE_MODULUS
    ensures g == GetShort ==> r.x % SHORT_MODULUS == v % SHORT_MODULUS
    ensures g == GetInt ==> r.x % INT_MODULUS == v % INT_MODULUS
    ensures g in {GetLong, GetFloat, GetDouble} ==> ScalarValue(r) == v as real
  {
    match g
    case GetBoolean => Bool(v != 0)
    case GetByte => Integral(ToByte(v))
    case GetUnsignedByte => Integral(UnsignedByte(v))
    case GetShort => Integral(ToShort(v))
    case GetInt => Integral(ToInt(v))
    case GetLong => Integral(v)
    case GetFloat => Floating(v as real)
    case GetDouble => Floating(v as real)
  }

  const Codec: Codec<int64> := LargeArrays.Codec(Encode, Decode, Identity)

  /** The narrow getters agree with one another: reading a byte or a short directly is
    * reading the int and casting it, as Java's own narrowing does. */
  lemma {:induction false} NarrowGettersAgree(v: int64)
    ensures Decode(v, GetByte).x == ToByte(Decode(v, GetInt).x)
    ensures Decode(v, GetShort).x == ToShort(Decode(v, GetInt).x)
    ensures Decode(v, GetByte).x == ToByte(Decode(v, GetShort).x)
  {
    ByteOfInt(v);
    ShortOfInt(v);
    ByteOfShort(v);
  }

  /** Every integer setter followed by `getLong` gives back its argument. */
  lemma SetThenGetLong(a: Assignment)
    requires IntegralArgument(a).Some?
    ensures Decode(Encode(a).value, GetLong) == Integral(IntegralArgument(a).value)
  {}

  /** `new LongLargeArray(length, initValue, createConstant)`. */
  method New(length: int64, initValue: int64, createConstant: bool) returns (r: Result<LargeArray<int64>>)
    requires createConstant || length <= MAX_JAVA_ARRAY
    ensures r.Err? <==> length < 0
    ensures r.Err? ==> r.error == IllegalArgument
    ensures r.Ok? ==> fresh(r.value) && r.value.Valid() && r.value.arrayType == LONG
    ensures r.Ok? ==> r.value.length == length && r.value.isConstant == createConstant
    ensures r.Ok? ==> r.value.Elements() == Repeat(initValue, length)
  {
    r := Create<int64>(LONG, length, initValue, createConstant);
  }
}
