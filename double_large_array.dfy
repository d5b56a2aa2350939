// DoubleLargeArray: double elements, here exact reals. Every setter succeeds
// and stores its argument as a number; the integer getters cast with `(int)`,
// `(long)` and the narrowing casts built on them. Its `setLong` stores nothing
// on the heap, which the last part of this module records next to the
// behaviour the other setters and the documentation call for.
module DoubleLargeArrays {
  import opened Wrappers
  import opened JavaInts
  import opened JavaValues
  import opened LargeArrayTypes
  import opened LargeArrays

  /** The setters, as `setBoolean` ... `setDouble` other than the heap `setLong` intend
    * them: every argument is stored as its number, true as 1.0 and false as 0.0;
    * `setUnsignedByte` is `setShort`. */
  function Encode(a: Assignment): (r: Result<real>)
    ensures r == Ok(Numeric(a))
  {
    match a
    case SetBoolean(b) => Ok(if b then 1.0 else 0.0)
    case SetByte(x) => Ok(x as real)
    case SetUnsignedByte(x) => Ok(x as real)
    case SetShort(x) => Ok(x as real)
    case SetInt(x) => Ok(x as real)
    case SetLong(x) => Ok(x as real)
    case SetFloat(r) => Ok(r)
    case SetDouble(r) => Ok(r)
  }

  /** The getters: `getBoolean` tests for nonzero; `getInt` and `getLong` round toward
    * zero and saturate; `getByte` and `getShort` narrow the int, `getUnsignedByte`
    * masks it; `getFloat` and `getDouble` return d. */
  function Decode(d: real, g: Getter): (r: Scalar)
    ensures Returns(g, r)
    ensures g == GetBoolean ==> r == Bool(d != 0.0)
    ensures g == GetInt ==> r.x == RealToInt(d)
    ensures g == GetLong ==> r.x == RealToLong(d)
    ensures g == GetByte ==> r.x % BYTE_MODULUS == RealToInt(d) % BYTE_MODULUS
    ensures g == GetShort ==> r.x % SHORT_MODULUS == RealToInt(d) % SHORT_MODULUS
    ensures g == GetUnsignedByte ==> r.x == RealToInt(d) % BYTE_MODULUS
    ensures g in {GetFloat, GetDouble} ==> r == Floating(d)
  {
    match g
    case GetBoolean => Bool(d != 0.0)
    case GetByte => Integral(ToByte(RealToInt(d)))
    case GetUnsignedByte => Integral(UnsignedByte(RealToInt(d)))
    case GetShort => Integral(ToShort(RealToInt(d)))
    case GetInt => Integral(RealToInt(d))
    case GetLong => Integral(RealToLong(d))
    case GetFloat => Floating(d)
    case GetDouble => Floating(d)
  }

  const Codec: Codec<real> := LargeArrays.Codec(Encode, Decode, Identity)

  /** An integer setter followed by `getLong` gives back its argument, and one whose
    * argument fits an int followed by `getInt` too. */
  lemma {:induction false} SetThenGet(a: Assignment)
    requires IntegralArgument(a).Some?
    ensures Decode(Encode(a).value, GetLong) == Integral(IntegralArgument(a).value)
    ensures IsInt(IntegralArgument(a).value) ==> Decode(Encode(a).value, GetInt) == Integral(IntegralArgument(a).value)
  {
    var x := IntegralArgument(a).value;
    assert Encode(a).value == x as real;
    assert Truncate(x as real) == x;
  }

  /** `new DoubleLargeArray(length, initValue, createConstant)`. */
  method New(length: int64, initValue: real, createConstant: bool) returns (r: Result<LargeArray<real>>)
    requires createConstant || length <= MAX_JAVA_ARRAY
    ensures r.Err? <==> length < 0
    ensures r.Err? ==> r.error == IllegalArgument
    ensures r.Ok? ==> fresh(r.value) && r.value.Valid() && r.value.arrayType == DOUBLE
    ensures r.Ok? ==> r.value.length == length && r.value.isConstant == createConstant
    ensures r.Ok? ==> r.value.Elements() == Repeat(initValue, length)
  {
    r := Create<real>(DOUBLE, length, initValue, createConstant);
  }

  // ---------------------------------------------------------------------------
  // `setLong` on the heap

  /** `setLong(i, value)` as written for the heap: the store sits inside `if (isConstant)`,
    * so a constant array is materialised and then the recursive call, now on a
    * non-constant array, falls through both branches; nothing is ever stored and the
    * index is never checked. */
  method SetLongAsWritten(x: LargeArray<real>, i: int64, value: int64) returns (o: Outcome)
    requires x.Valid() && x.length <= MAX_JAVA_ARRAY
    modifies x
    ensures x.Valid() && !x.isConstant && o == Done
    ensures if old(x.isConstant) then fresh(x.data) else x.data == old(x.data)
    ensures x.Elements() == old(x.Elements())
  {
    if x.isConstant {
      x.Materialise(Identity);
    }
    o := Done;
  }

  /** What the written `setLong` leaves differs from what every other setter, and the
    * documentation of `setLong`, would leave whenever the element did not already hold
    * the value: for example `setLong(0, 1)` on the array {0.0}. */
  lemma {:induction false} SetLongIsLost(s: seq<real>, i: int64, value: int64)
    requires |s| <= MAX_JAVA_ARRAY && 0 <= i < |s| && s[i] != value as real
    ensures Assigned(s, i, SetLong(value), Encode) != (Done, s)
    ensures Assigned([0.0], 0, SetLong(1), Encode) == (Done, [1.0])
  {
    assert Encode(SetLong(value)) == Ok(value as real);
    assert ToInt(i) == i;
    var r := Assigned(s, i, SetLong(value), Encode);
    assert r.1[i] == value as real;
    assert Encode(SetLong(1)) == Ok(1.0);
    assert ToInt(0) == 0;
    assert [0.0][0 := 1.0] == [1.0];
  }

  /** `setLong(i, value)` storing `(double) value` like the other setters: afterwards
    * `getLong(i)` returns value, and every other element is as before. */
  method SetLongCorrected(x: LargeArray<real>, i: int64, value: int64) returns (o: Outcome)
    requires x.Valid() && x.length <= MAX_JAVA_ARRAY
    modifies x, x.data
    ensures x.Valid() && !x.isConstant
    ensures if old(x.isConstant) then fresh(x.data) else x.data == old(x.data)
    ensures (o, x.Elements()) == Assigned(old(x.Elements()), i, SetLong(value), Encode)
    ensures 0 <= i < x.length ==> o == Done && x.Get(i, GetLong, Codec) == Ok(Integral(value))
  {
    o := x.Assign(i, SetLong(value), Codec);
    SetThenGet(SetLong(value));
  }
}
