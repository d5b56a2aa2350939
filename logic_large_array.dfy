// LogicLargeArray: a large array of bytes meant to hold only 0 and 1. Its
// setters reject any other value before touching the array; its getters widen
// the stored byte (`getUnsignedByte` does not mask it); `and`, `or`, `xor` and
// `not` build a new array element by element through the checking `setByte`.
module LogicLargeArrays {
  import opened Wrappers
  import opened JavaInts
  import opened JavaValues
  import opened LargeArrayTypes
  import opened LargeArrays

  predicate IsBit(b: int) { b == 0 || b == 1 }

  predicate AllBits(s: seq<int8>) {
    forall k :: 0 <= k < |s| ==> IsBit(s[k])
  }

  /** The setters: every one of them accepts exactly the arguments worth 0 or 1 and then
    * stores that number; `setUnsignedByte` is `setShort`. */
  function Encode(a: Assignment): (r: Result<int8>)
    ensures r.Ok? <==> Numeric(a) == 0.0 || Numeric(a) == 1.0
    ensures r.Ok? ==> r.value as real == Numeric(a)
    ensures r.Err? ==> r.error == IllegalArgument
  {
    match a
    case SetBoolean(b) => Ok(if b then 1 else 0)
    case SetByte(x) => if x < 0 || x > 1 then Err(IllegalArgument) else Ok(x)
    case SetUnsignedByte(x) => if x < 0 || x > 1 then Err(IllegalArgument) else Ok(ToByte(x))
    case SetShort(x) => if x < 0 || x > 1 then Err(IllegalArgument) else Ok(ToByte(x))
    case SetInt(x) => if x < 0 || x > 1 then Err(IllegalArgument) else Ok(ToByte(x))
    case SetLong(x) => if x < 0 || x > 1 then Err(IllegalArgument) else Ok(ToByte(x))
    case SetFloat(r) => if r != 0.0 && r != 1.0 then Err(IllegalArgument) else Ok(ToByte(RealToInt(r)))
    case SetDouble(r) => if r != 0.0 && r != 1.0 then Err(IllegalArgument) else Ok(ToByte(RealToInt(r)))
  }

  /** The getters: `getBoolean` tests for nonzero; all others return the stored byte. */
  function Decode(b: int8, g: Getter): (v: Scalar)
    ensures Returns(g, v)
    ensures g == GetBoolean ==> v == Bool(b != 0)
    ensures g != GetBoolean ==> ScalarValue(v) == b as real
  {
    match g
    case GetBoolean => Bool(b != 0)
    case GetFloat => Floating(b as real)
    case GetDouble => Floating(b as real)
    case _ => Integral(b)
  }

  const Codec: Codec<int8> := LargeArrays.Codec(Encode, Decode, Identity)

  /** A value accepted by a setter reads back unchanged through every numeric getter, and
    * as true exactly when it was 1. */
  lemma SetThenGet(a: Assignment, g: Getter)
    requires Encode(a).Ok?
    ensures g != GetBoolean ==> ScalarValue(Decode(Encode(a).value, g)) == Numeric(a)
    ensures g == GetBoolean ==> Decode(Encode(a).value, g) == Bool(Numeric(a) == 1.0)
  {}

  /** Setters keep an array of bits an array of bits, whether they succeed or throw. */
  lemma {:induction false} AssignKeepsBits(s: seq<int8>, i: int, a: Assignment)
    requires IsLong(i) && AllBits(s)
    ensures AllBits(Assigned(s, i, a, Encode).1)
  {
    var r := Assigned(s, i, a, Encode);
    forall k | 0 <= k < |s|
      ensures IsBit(r.1[k])
    {
      if r.0.Done? && k == ToInt(i) {
        assert r.1[k] == Encode(a).value;
      }
    }
  }

  /** The check in `LogicLargeArray(byte[] data)`: true iff every element is 0 or 1. */
  method CheckBits(data: array<int8>) returns (ok: bool)
    ensures ok <==> AllBits(data[..])
  {
    var i := 0;
    while i < data.Length
      invariant 0 <= i <= data.Length
      invariant AllBits(data[..i])
    {
      if data[i] != 0 && data[i] != 1 {
        return false;
      }
      i := i + 1;
    }
    assert data[..i] == data[..];
    ok := true;
  }

  /** `new LogicLargeArray(byte[] data)`: wraps data when every element is 0 or 1. */
  method FromBytes(data: array<int8>) returns (r: Result<LargeArray<int8>>)
    requires data.Length <= MAX_JAVA_ARRAY
    ensures r.Err? <==> !AllBits(data[..])
    ensures r.Err? ==> r.error == IllegalArgument
    ensures r.Ok? ==> fresh(r.value) && r.value.Valid() && r.value.arrayType == LOGIC && r.value.data == data
    ensures r.Ok? ==> r.value.Elements() == data[..]
  {
    var ok := CheckBits(data);
    if !ok {
      return Err(IllegalArgument);
    }
    var w := new LargeArray.Wrap(LOGIC, data);
    r := Ok(w);
  }

  /** 1 for true, 0 for false. */
  function BitOf(b: bool): (r: int8)
    ensures IsBit(r) && (r == 1 <==> b)
  {
    if b then 1 else 0
  }

  /** `new LogicLargeArray(boolean[] data)`: a fresh array holding 1 for true, 0 for false. */
  method FromBooleans(data: array<bool>) returns (r: LargeArray<int8>)
    requires data.Length <= MAX_JAVA_ARRAY
    ensures fresh(r) && fresh(r.data) && r.Valid() && !r.isConstant && r.arrayType == LOGIC
    ensures r.Elements() == Map(data[..], BitOf)
    ensures AllBits(r.Elements())
  {
    var bytes := new int8[data.Length];
    var i := 0;
    while i < data.Length
      invariant 0 <= i <= data.Length
      invariant forall k :: 0 <= k < i ==> bytes[k] == BitOf(data[k])
    {
      bytes[i] := if data[i] then 1 else 0;
      i := i + 1;
    }
    r := new LargeArray.Wrap(LOGIC, bytes);
  }

  /** The elements of x and y combined index by index. */
  function Zip(xs: seq<int8>, ys: seq<int8>, op: (int8, int8) -> int8): (r: seq<int8>)
    requires |xs| == |ys|
    ensures |r| == |xs|
    ensures forall k :: 0 <= k < |r| ==> r[k] == op(xs[k], ys[k])
  {
    seq(|xs|, k requires 0 <= k < |xs| => op(xs[k], ys[k]))
  }

  /** The loop shared by `and`, `or` and `xor`: a null or differently sized argument is
    * rejected; then a new zero array of the same length receives `setByte(i, op(this[i],
    * that[i]))` at every index, which throws as soon as a result is not 0 or 1. */
  method Combine(x: LargeArray<int8>, y: Option<LargeArray<int8>>, op: (int8, int8) -> int8)
    returns (r: Result<LargeArray<int8>>)
    requires x.Valid() && x.length <= MAX_JAVA_ARRAY
    requires y.Some? ==> y.value.Valid()
    ensures (y.None? || y.value.length != x.length) ==> r == Err(IllegalArgument)
    ensures y.Some? && y.value.length == x.length ==>
      (r.Ok? <==> AllBits(Zip(x.Elements(), y.value.Elements(), op)))
    ensures r.Err? ==> r.error == IllegalArgument
    ensures r.Ok? ==> y.Some? && fresh(r.value) && r.value.Valid() && r.value.arrayType == LOGIC
    ensures r.Ok? ==> r.value.Elements() == Zip(x.Elements(), y.value.Elements(), op)
  {
    if y.None? || y.value.length != x.length {
      return Err(IllegalArgument);
    }
    var that := y.value;
    ghost var zs := Zip(x.Elements(), that.Elements(), op);
    var out := new int8[x.length];
    var i := 0;
    while i < x.length
      invariant 0 <= i <= x.length
      invariant forall k :: 0 <= k < i ==> out[k] == zs[k]
      invariant AllBits(zs[..i])
    {
      // `out.setByte(i, v)` on the new, non-constant array: the check, then the store.
      var v := Encode(SetByte(op(x.At(i).value, that.At(i).value)));
      if v.Err? {
        assert !IsBit(zs[i]);
        return Err(v.error);
      }
      out[i] := v.value;
      i := i + 1;
    }
    assert zs[..i] == zs;
    var w := new LargeArray.Wrap(LOGIC, out);
    r := Ok(w);
  }

  /** `and(array)`: on arrays of bits, the elementwise conjunction. */
  method And(x: LargeArray<int8>, y: Option<LargeArray<int8>>) returns (r: Result<LargeArray<int8>>)
    requires x.Valid() && x.length <= MAX_JAVA_ARRAY
    requires y.Some? ==> y.value.Valid()
    ensures (y.None? || y.value.length != x.length) ==> r == Err(IllegalArgument)
    ensures y.Some? && y.value.length == x.length && AllBits(x.Elements()) && AllBits(y.value.Elements()) ==>
      r.Ok? && fresh(r.value) && r.value.Valid() && r.value.arrayType == LOGIC && r.value.length == x.length &&
      forall k :: 0 <= k < x.length ==>
        (r.value.Elements()[k] == 1 <==> x.Elements()[k] == 1 && y.value.Elements()[k] == 1)
  {
    r := Combine(x, y, ByteAnd);
    if y.Some? && y.value.length == x.length && AllBits(x.Elements()) && AllBits(y.value.Elements()) {
      ZipOfBits(x.Elements(), y.value.Elements());
    }
  }

  /** `or(array)`: on arrays of bits, the elementwise disjunction. */
  method Or(x: LargeArray<int8>, y: Option<LargeArray<int8>>) returns (r: Result<LargeArray<int8>>)
    requires x.Valid() && x.length <= MAX_JAVA_ARRAY
    requires y.Some? ==> y.value.Valid()
    ensures (y.None? || y.value.length != x.length) ==> r == Err(IllegalArgument)
    ensures y.Some? && y.value.length == x.length && AllBits(x.Elements()) && AllBits(y.value.Elements()) ==>
      r.Ok? && fresh(r.value) && r.value.Valid() && r.value.arrayType == LOGIC && r.value.length == x.length &&
      forall k :: 0 <= k < x.length ==>
        (r.value.Elements()[k] == 1 <==> x.Elements()[k] == 1 || y.value.Elements()[k] == 1)
  {
    r := Combine(x, y, ByteOr);
    if y.Some? && y.value.length == x.length && AllBits(x.Elements()) && AllBits(y.value.Elements()) {
      ZipOfBits(x.Elements(), y.value.Elements());
    }
  }

  /** `xor(array)`: on arrays of bits, the elementwise exclusive or. */
  method Xor(x: LargeArray<int8>, y: Option<LargeArray<int8>>) returns (r: Result<LargeArray<int8>>)
    requires x.Valid() && x.length <= MAX_JAVA_ARRAY
    requires y.Some? ==> y.value.Valid()
    ensures (y.None? || y.value.length != x.length) ==> r == Err(IllegalArgument)
    ensures y.Some? && y.value.length == x.length && AllBits(x.Elements()) && AllBits(y.value.Elements()) ==>
      r.Ok? && fresh(r.value) && r.value.Valid() && r.value.arrayType == LOGIC && r.value.length == x.length &&
      forall k :: 0 <= k < x.length ==>
        (r.value.Elements()[k] == 1 <==> x.Elements()[k] != y.value.Elements()[k])
  {
    r := Combine(x, y, ByteXor);
    if y.Some? && y.value.length == x.length && AllBits(x.Elements()) && AllBits(y.value.Elements()) {
      ZipOfBits(x.Elements(), y.value.Elements());
    }
  }

  /** `(byte) (1 - b)`. */
  function Complement(b: int8, unused: int8): int8 {
    ToByte(1 - b)
  }

  /** `not()`: a new array with `setByte(i, 1 - this[i])` at every index; on an array of
    * bits it flips every bit. */
  method Not(x: LargeArray<int8>) returns (r: Result<LargeArray<int8>>)
    requires x.Valid() && x.length <= MAX_JAVA_ARRAY
    ensures r.Ok? <==> forall k :: 0 <= k < x.length ==> IsBit(1 - (x.Elements()[k] as int))
    ensures r.Ok? ==>
      fresh(r.value) && r.value.Valid() && r.value.arrayType == LOGIC && r.value.length == x.length &&
      forall k :: 0 <= k < x.length ==> r.value.Elements()[k] as int == 1 - (x.Elements()[k] as int)
    ensures AllBits(x.Elements()) ==> r.Ok?
  {
    r := Combine(x, Some(x), Complement);
    ghost var zs := Zip(x.Elements(), x.Elements(), Complement);
    assert forall k :: 0 <= k < x.length ==> (IsBit(zs[k]) <==> IsBit(1 - (x.Elements()[k] as int)));
  }

  /** On bits, the bitwise combinations are the boolean ones. */
  lemma ZipOfBits(xs: seq<int8>, ys: seq<int8>)
    requires |xs| == |ys| && AllBits(xs) && AllBits(ys)
    ensures AllBits(Zip(xs, ys, ByteAnd)) && AllBits(Zip(xs, ys, ByteOr)) && AllBits(Zip(xs, ys, ByteXor))
    ensures forall k :: 0 <= k < |xs| ==>
      (ByteAnd(xs[k], ys[k]) == 1 <==> xs[k] == 1 && ys[k] == 1) &&
      (ByteOr(xs[k], ys[k]) == 1 <==> xs[k] == 1 || ys[k] == 1) &&
      (ByteXor(xs[k], ys[k]) == 1 <==> xs[k] != ys[k])
  {
    forall k | 0 <= k < |xs|
      ensures IsBit(ByteAnd(xs[k], ys[k])) && IsBit(ByteOr(xs[k], ys[k])) && IsBit(ByteXor(xs[k], ys[k]))
      ensures ByteAnd(xs[k], ys[k]) == 1 <==> xs[k] == 1 && ys[k] == 1
      ensures ByteOr(xs[k], ys[k]) == 1 <==> xs[k] == 1 || ys[k] == 1
      ensures ByteXor(xs[k], ys[k]) == 1 <==> xs[k] != ys[k]
    {
      BitwiseOnBits(xs[k], ys[k]);
    }
  }

  /** The test `getBooleanData(a, start, end, step)` applies to each selected element. */
  function IsSet(b: int8): bool { b != 0 }
}
