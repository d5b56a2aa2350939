// UnsignedByteLargeArray: bytes read as the unsigned values 0 ... 255. A
// stored byte b stands for `0xFF & b`; `getByte` alone returns the raw signed
// byte. `setUnsignedByte` rejects values outside 0 ... 255, while the wider
// setters keep the low eight bits of their argument without any check.
module UnsignedByteLargeArrays {
  import opened Wrappers
  import opened JavaInts
  import opened JavaValues
  import opened LargeArrayTypes
  import opened LargeArrays

  /** The unsigned value a stored byte stands for. */
  function Value(b: int8): (u: int)
    ensures 0 <= u < BYTE_MODULUS
    ensures ToByte(u) == b
  {
    UnsignedByte(b)
  }

  /** The setters: `setBoolean` stores 1 or 0, `setByte` the raw byte, `setUnsignedByte`
    * checks 0 ... 255 first; `setShort`, `setInt` and `setLong` store `(byte) (0xFF & v)`,
    * `setFloat` and `setDouble` the same of `(int) v` and `(long) v`. */
  function Encode(a: Assignment): (r: Result<int8>)
    ensures r.Err? <==> a.SetUnsignedByte? && !(0 <= a.unsignedValue < BYTE_MODULUS)
    ensures r.Err? ==> r.error == IllegalArgument
    ensures r.Ok? && IntegralArgument(a).Some? ==> Value(r.value) == IntegralArgument(a).value % BYTE_MODULUS
    ensures r.Ok? && a.SetFloat? ==> Value(r.value) == RealToInt(a.floatValue) % BYTE_MODULUS
    ensures r.Ok? && a.SetDouble? ==> Value(r.value) == RealToLong(a.doubleValue) % BYTE_MODULUS
  {
    match a
    case SetBoolean(b) => Ok(if b then 1 else 0)
    case SetByte(x) => Ok(x)
    case SetUnsignedByte(x) => if x < 0 || x > 255 then Err(IllegalArgument) else Ok(ToByte(UnsignedByte(x)))
    case SetShort(x) => Ok(ToByte(UnsignedByte(x)))
    case SetInt(x) => Ok(ToByte(UnsignedByte(x)))
    case SetLong(x) => Ok(ToByte(UnsignedByte(x)))
    case SetFloat(r) => Ok(ToByte(UnsignedByte(RealToInt(r))))
    case SetDouble(r) => Ok(ToByte(UnsignedByte(RealToLong(r))))
  }

  /** The getters: `getBoolean` tests for nonzero, `getByte` returns the raw byte and
    * every other getter its unsigned value. */
  function Decode(b: int8, g: Getter): (v: Scalar)
    ensures Returns(g, v)
    ensures g == GetBoolean ==> v == Bool(b != 0)
    ensures g == GetByte ==> v == Integral(b)
    ensures g != GetBoolean && g != GetByte ==> ScalarValue(v) == Value(b) as real
  {
    match g
    case GetBoolean => Bool(b != 0)
    case GetByte => Integral(b)
    case GetFloat => Floating(Value(b) as real)
    case GetDouble => Floating(Value(b) as real)
    case _ => Integral(Value(b))
  }

  /** Materialising a constant array writes `(byte) (0xFF & getUnsignedByte(0))`, which
    * is the stored byte again. */
  function Refill(b: int8): (r: int8)
    ensures r == b
  {
    ToByte(UnsignedByte(Value(b)))
  }

  const Codec: Codec<int8> := LargeArrays.Codec(Encode, Decode, Refill)

  /** `setUnsignedByte(i, v)` followed by `getUnsignedByte(i)` gives back v, for every v
    * the setter accepts. */
  lemma UnsignedRoundTrip(v: int16)
    requires 0 <= v < BYTE_MODULUS
    ensures Encode(SetUnsignedByte(v)).Ok?
    ensures Decode(Encode(SetUnsignedByte(v)).value, GetUnsignedByte) == Integral(v)
  {
    UnsignedByteRoundTrip(v);
  }

  /** `setByte(i, b)` followed by `getByte(i)` gives back b, and `getUnsignedByte(i)`
    * gives `0xFF & b`. */
  lemma ByteRoundTrip(b: int8)
    ensures Decode(Encode(SetByte(b)).value, GetByte) == Integral(b)
    ensures Decode(Encode(SetByte(b)).value, GetUnsignedByte) == Integral(b % BYTE_MODULUS)
  {}

  /** The inherited `setUnsignedByte_safe(i, byte v)` passes a byte to
    * `setUnsignedByte`, so of the values 0 ... 255 it can only store 0 ... 127: a byte
    * above 127 does not exist, and a negative one is rejected. */
  lemma {:induction false} SafeUnsignedByteStoresLowHalf(b: int8)
    ensures Encode(SetUnsignedByte(b)).Ok? <==> 0 <= b
    ensures Encode(SetUnsignedByte(b)).Ok? ==> Value(Encode(SetUnsignedByte(b)).value) == b < 0x80
  {
    if 0 <= b {
      UnsignedByteRoundTrip(b);
    }
  }

  /** Every stored byte reads as an unsigned value in 0 ... 255 through the integer
    * getters, and two stored bytes that read the same are the same byte. */
  lemma {:induction false} DecodeInjective(b: int8, c: int8, g: Getter)
    requires g in {GetUnsignedByte, GetShort, GetInt, GetLong}
    ensures 0 <= Decode(b, g).x < BYTE_MODULUS
    ensures Decode(b, g) == Decode(c, g) ==> b == c
  {
    if Decode(b, g) == Decode(c, g) {
      assert Value(b) == Value(c);
      assert ToByte(Value(b)) == ToByte(Value(c));
    }
  }

  /** `new UnsignedByteLargeArray(length, initValue, createConstant)` with a short
    * initValue: every element reads as `0xFF & initValue`, whatever the sign of
    * initValue. */
  method New(length: int64, initValue: int16, createConstant: bool) returns (r: Result<LargeArray<int8>>)
    requires createConstant || length <= MAX_JAVA_ARRAY
    ensures r.Err? <==> length < 0
    ensures r.Err? ==> r.error == IllegalArgument
    ensures r.Ok? ==> fresh(r.value) && r.value.Valid() && r.value.arrayType == UNSIGNED_BYTE
    ensures r.Ok? ==> r.value.length == length && r.value.isConstant == createConstant
    ensures r.Ok? ==> forall k :: 0 <= k < length ==> Value(r.value.Elements()[k]) == initValue % BYTE_MODULUS
  {
    r := Create<int8>(UNSIGNED_BYTE, length, ToByte(UnsignedByte(initValue)), createConstant);
  }

  /** All values lie in 0 ... 255. */
  predicate AllUnsigned(s: seq<int16>) {
    forall k :: 0 <= k < |s| ==> 0 <= s[k] < BYTE_MODULUS
  }

  /** `new UnsignedByteLargeArray(short[] data)`: copies data into a new byte array,
    * throwing at the first value outside 0 ... 255. */
  method FromShorts(data: array<int16>) returns (r: Result<LargeArray<int8>>)
    requires data.Length <= MAX_JAVA_ARRAY
    ensures r.Err? <==> !AllUnsigned(data[..])
    ensures r.Err? ==> r.error == IllegalArgument
    ensures r.Ok? ==> fresh(r.value) && r.value.Valid() && !r.value.isConstant && r.value.arrayType == UNSIGNED_BYTE
    ensures r.Ok? ==> r.value.length == data.Length
    ensures r.Ok? ==> forall k :: 0 <= k < data.Length ==> Value(r.value.Elements()[k]) == data[k]
  {
    var bytes := new int8[data.Length];
    var i := 0;
    while i < data.Length
      invariant 0 <= i <= data.Length
      invariant AllUnsigned(data[..i])
      invariant forall k :: 0 <= k < i ==> Value(bytes[k]) == data[k]
    {
      var elem := data[i];
      if elem < 0 || elem > 255 {
        return Err(IllegalArgument);
      }
      bytes[i] := ToByte(elem);
      UnsignedByteRoundTrip(elem);
      i := i + 1;
    }
    assert data[..i] == data[..];
    var w := new LargeArray.Wrap(UNSIGNED_BYTE, bytes);
    r := Ok(w);
  }
}
