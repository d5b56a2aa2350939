// `LargeArrayUtils.createConstant`, `convert` and `select` over the heap typed
// arrays. A typed array is a LargeArray<T> together with a Kind<T>: its type, the
// codec its getters and setters use, the getter behind its boxed `get(i)`, the
// zero `create(type, length, false)` fills it with, and what its constant
// constructor stores for the value `createConstant` hands it.
module LargeArrayConversions {
  import opened Wrappers
  import opened JavaInts
  import opened JavaValues
  import opened LargeArrayTypes
  import opened LargeArrays
  import opened LargeArrayCopies
  import LogicLargeArrays
  import UnsignedByteLargeArrays
  import ShortLargeArrays
  import LongLargeArrays
  import DoubleLargeArrays

  /** `LargeArray.DEFAULT_MAX_STRING_LENGTH`. */
  const DEFAULT_MAX_STRING_LENGTH: int32 := 100

  /** `LargeArray.DEFAULT_MAX_OBJECT_SIZE`. */
  const DEFAULT_MAX_OBJECT_SIZE: int32 := 1024

  // ---------------------------------------------------------------------------
  // createConstant

  /** The argument `createConstant` passes to the constant constructor of its type. */
  datatype Init =
    | ByteInit(b: int8)
    | ShortInit(s: int16)
    | IntInit(i: int32)
    | LongInit(l: int64)
    | RealInit(r: real)
    | PairInit(parts: seq<real>)
    | StringInit(str: string)
    | ObjectInit(obj: Option<JavaObject>)

  /** The types whose case in `createConstant` and `convert` reads a boxed number. */
  predicate IsScalarType(t: LargeArrayType) {
    IsNumericType(t) && !IsComplexNumericType(t)
  }

  /** `intValue()` of a boxed number, and of a Boolean the 1 or 0 the switch picks:
    * an integer as it is, a float or double rounded toward zero and saturated. */
  function IntView(a: Assignment): int {
    match IntegralArgument(a)
    case Some(x) => x
    case None => RealToInt(Numeric(a))
  }

  /** `longValue()` of a boxed number, and 1 or 0 for a Boolean. */
  function LongView(a: Assignment): int {
    match IntegralArgument(a)
    case Some(x) => x
    case None => RealToLong(Numeric(a))
  }

  /** The `xValue()` call the case of t makes on the boxed number a: `byteValue()` for
    * LOGIC and BYTE, `shortValue()` for UNSIGNED_BYTE and SHORT, `intValue()`,
    * `longValue()`, `floatValue()`, `doubleValue()`; a float narrows through int. */
  function Cast(t: LargeArrayType, a: Assignment): (init: Init)
    requires IsScalarType(t)
    ensures t in {LOGIC, BYTE} ==> init.ByteInit? && init.b % BYTE_MODULUS == IntView(a) % BYTE_MODULUS
    ensures t in {UNSIGNED_BYTE, SHORT} ==> init.ShortInit? && init.s % SHORT_MODULUS == IntView(a) % SHORT_MODULUS
    ensures t == INT ==> init.IntInit? && init.i % INT_MODULUS == IntView(a) % INT_MODULUS
    ensures t == LONG ==> init.LongInit? && init.l == LongView(a)
    ensures t in {FLOAT, DOUBLE} ==> init == RealInit(Numeric(a))
  {
    match t
    case LOGIC => ByteInit(ToByte(IntView(a)))
    case BYTE => ByteInit(ToByte(IntView(a)))
    case UNSIGNED_BYTE => ShortInit(ToShort(IntView(a)))
    case SHORT => ShortInit(ToShort(IntView(a)))
    case INT => IntInit(ToInt(IntView(a)))
    case LONG => LongInit(ToLong(LongView(a)))
    case FLOAT => RealInit(Numeric(a))
    case DOUBLE => RealInit(Numeric(a))
  }

  /** The switch of `createConstant(type, length, value)`: a number type takes a boxed
    * primitive (`instanceof` is false for null); a complex type calls `value.getClass()`
    * and takes a float[] or double[] of its own part type; STRING takes a String and
    * OBJECT anything. */
  function ConstantInit(t: LargeArrayType, value: Option<JavaObject>): (r: Result<Init>)
    ensures IsScalarType(t) ==> (r.Ok? <==> value.Some? && Unbox(value.value).Ok?)
    ensures IsScalarType(t) && r.Ok? ==> r.value == Cast(t, Unbox(value.value).value)
    ensures IsComplexNumericType(t) && value.None? ==> r == Err(NullPointer)
    ensures t == COMPLEX_FLOAT && value.Some? ==> (r.Ok? <==> value.value.FloatArray?)
    ensures t == COMPLEX_DOUBLE && value.Some? ==> (r.Ok? <==> value.value.DoubleArray?)
    ensures t == STRING ==> (r.Ok? <==> value.Some? && value.value.Str?)
    ensures t == OBJECT ==> r == Ok(ObjectInit(value))
    ensures r.Err? && !(IsComplexNumericType(t) && value.None?) ==> r.error == IllegalArgument
  {
    if IsScalarType(t) then
      if value.None? then Err(IllegalArgument)
      else match Unbox(value.value)
        case Err(e) => Err(e)
        case Ok(a) => Ok(Cast(t, a))
    else match t
      case COMPLEX_FLOAT =>
        if value.None? then Err(NullPointer)
        else if value.value.FloatArray? then Ok(PairInit(value.value.fs))
        else Err(IllegalArgument)
      case COMPLEX_DOUBLE =>
        if value.None? then Err(NullPointer)
        else if value.value.DoubleArray? then Ok(PairInit(value.value.ds))
        else Err(IllegalArgument)
      case STRING =>
        if value.Some? && value.value.Str? then Ok(StringInit(value.value.s)) else Err(IllegalArgument)
      case OBJECT => Ok(ObjectInit(value))
  }

  /** `createConstant(type, length, value)`: the value the switch picks, then the checks
    * of the constant constructor it calls: a non-negative length, a complex value of
    * exactly two parts, a Serializable object. */
  function CreateConstant(t: LargeArrayType, length: int64, value: Option<JavaObject>): (r: Result<Init>)
    ensures r.Ok? <==> (ConstantInit(t, value).Ok? && 0 <= length &&
                        (IsComplexNumericType(t) ==> |ConstantInit(t, value).value.parts| == 2) &&
                        (t == OBJECT && value.Some? ==> IsSerializable(value.value)))
    ensures r.Ok? ==> r == ConstantInit(t, value)
    ensures r.Err? && ConstantInit(t, value).Ok? ==> r.error == IllegalArgument
  {
    match ConstantInit(t, value)
    case Err(e) => Err(e)
    case Ok(init) =>
      if length < 0 then Err(IllegalArgument)
      else if init.PairInit? && |init.parts| != 2 then Err(IllegalArgument)
      else if init.ObjectInit? && init.obj.Some? && !IsSerializable(init.obj.value) then Err(IllegalArgument)
      else Ok(init)
  }

  /** A number type keeps a boxed number of its own type as it is. */
  lemma ConstantOfOwnBox(x: int64, r: real)
    ensures IsByte(x) ==> ConstantInit(BYTE, Some(BoxedByte(x))) == Ok(ByteInit(x))
    ensures IsShort(x) ==> ConstantInit(SHORT, Some(BoxedShort(x))) == Ok(ShortInit(x))
    ensures IsInt(x) ==> ConstantInit(INT, Some(BoxedInteger(x))) == Ok(IntInit(x))
    ensures ConstantInit(LONG, Some(BoxedLong(x))) == Ok(LongInit(x))
    ensures ConstantInit(DOUBLE, Some(BoxedDouble(r))) == Ok(RealInit(r))
  {}

  /** For SHORT, LONG and DOUBLE, the constant `createConstant` makes of a boxed number
    * is the element `set(i, value)` stores for it. */
  lemma ConstantIsWhatSetStores(o: JavaObject)
    requires Unbox(o).Ok?
    ensures ShortLargeArrays.Encode(Unbox(o).value) == Ok(Cast(SHORT, Unbox(o).value).s)
    ensures LongLargeArrays.Encode(Unbox(o).value) == Ok(Cast(LONG, Unbox(o).value).l)
    ensures DoubleLargeArrays.Encode(Unbox(o).value) == Ok(Cast(DOUBLE, Unbox(o).value).r)
  {
  }

  /** A negative length is refused whatever the type and value. */
  lemma NegativeLengthRefused(t: LargeArrayType, length: int64, value: Option<JavaObject>)
    requires length < 0
    ensures CreateConstant(t, length, value).Err?
  {}

  // ---------------------------------------------------------------------------
  // Typed arrays and their boxed values

  /** A typed heap array of element type T. */
  datatype Kind<!T> = Kind(arrayType: LargeArrayType, codec: Codec<T>, boxGetter: Getter, zero: T, constant: Init -> T)

  /** An integer as a getter returned it (the other cases do not arise). */
  function Whole(v: Scalar): int {
    match v
    case Bool(b) => if b then 1 else 0
    case Integral(x) => x
    case Floating(r) => Truncate(r)
  }

  /** The object `get(i)` returns for what the getter g read. */
  function Box(g: Getter, v: Scalar): (o: JavaObject)
    ensures Unbox(o).Ok?
  {
    match g
    case GetBoolean => BoxedBoolean(ScalarValue(v) != 0.0)
    case GetByte => BoxedByte(ToByte(Whole(v)))
    case GetUnsignedByte => BoxedShort(ToShort(Whole(v)))
    case GetShort => BoxedShort(ToShort(Whole(v)))
    case GetInt => BoxedInteger(ToInt(Whole(v)))
    case GetLong => BoxedLong(ToLong(Whole(v)))
    case GetFloat => BoxedFloat(ScalarValue(v))
    case GetDouble => BoxedDouble(ScalarValue(v))
  }

  /** `get(i)` of an array of kind k whose element i is x. */
  function BoxOf<T>(k: Kind<T>, x: T): (o: JavaObject)
    ensures Unbox(o).Ok?
  {
    Box(k.boxGetter, k.codec.decode(x, k.boxGetter))
  }

  /** `LogicLargeArray`: `get` is `getByte`; the constant constructor stores its byte. */
  const LogicKind: Kind<int8> :=
    Kind(LOGIC, LogicLargeArrays.Codec, GetByte, 0, (i: Init) => if i.ByteInit? then i.b else 0)

  /** `UnsignedByteLargeArray`: `get` is `getUnsignedByte`, boxed as a Short; the
    * constant constructor stores `(byte) (0xFF & v)`. */
  const UnsignedByteKind: Kind<int8> :=
    Kind(UNSIGNED_BYTE, UnsignedByteLargeArrays.Codec, GetUnsignedByte, 0,
         (i: Init) => if i.ShortInit? then ToByte(UnsignedByte(i.s)) else 0)

  /** `ShortLargeArray`. */
  const ShortKind: Kind<int16> :=
    Kind(SHORT, ShortLargeArrays.Codec, GetShort, 0, (i: Init) => if i.ShortInit? then i.s else 0)

  /** `LongLargeArray`. */
  const LongKind: Kind<int64> :=
    Kind(LONG, LongLargeArrays.Codec, GetLong, 0, (i: Init) => if i.LongInit? then i.l else 0)

  /** `DoubleLargeArray`. */
  const DoubleKind: Kind<real> :=
    Kind(DOUBLE, DoubleLargeArrays.Codec, GetDouble, 0.0, (i: Init) => if i.RealInit? then i.r else 0.0)

  // ---------------------------------------------------------------------------
  // convert

  /** The getter the element loop of `convert` reads the source with. */
  function TransferGetter(t: LargeArrayType): Getter
    requires IsScalarType(t)
  {
    match t
    case LOGIC => GetByte
    case BYTE => GetByte
    case UNSIGNED_BYTE => GetUnsignedByte
    case SHORT => GetShort
    case INT => GetInt
    case LONG => GetLong
    case FLOAT => GetFloat
    case DOUBLE => GetDouble
  }

  /** The setter call the element loop makes with what it read: LOGIC stores
    * `src.getByte(i) != 0 ? 1 : 0`, every other type its own getter's value. */
  function Transfer(t: LargeArrayType, v: Scalar): (a: Assignment)
    requires IsScalarType(t)
    ensures t == LOGIC ==> a == SetByte(if ScalarValue(v) != 0.0 then 1 else 0)
  {
    match t
    case LOGIC => SetByte(if ScalarValue(v) != 0.0 then 1 else 0)
    case BYTE => SetByte(ToByte(Whole(v)))
    case UNSIGNED_BYTE => SetUnsignedByte(ToShort(Whole(v)))
    case SHORT => SetShort(ToShort(Whole(v)))
    case INT => SetInt(ToInt(Whole(v)))
    case LONG => SetLong(ToLong(Whole(v)))
    case FLOAT => SetFloat(ScalarValue(v))
    case DOUBLE => SetDouble(ScalarValue(v))
  }

  /** `out.setX(i, src.getX(i))` for one element x of an array of kind `from`. */
  function Transferred<T, U>(from: Kind<T>, to: Kind<U>, x: T): Result<U>
    requires IsScalarType(to.arrayType)
  {
    to.codec.encode(Transfer(to.arrayType, from.codec.decode(x, TransferGetter(to.arrayType))))
  }

  /** The element loop of `convert` over the elements s, into a fresh zero array. */
  function ConvertRun<T, U>(s: seq<T>, from: Kind<T>, to: Kind<U>): (r: (Outcome, seq<U>))
    requires IsScalarType(to.arrayType)
    ensures |r.1| == |s|
  {
    Run(Repeat(to.zero, |s|), 0, s, (x: T) => Transferred(from, to, x))
  }

  /** What `convert` returns: the source itself, or a new array. */
  datatype Conversion<U> = SameArray | NewArray(made: LargeArray<U>)

  /** The element that `createConstant(type, length, src.get(0))` makes of the constant x
    * of an array of kind `from`. */
  function ConstantOf<T, U>(from: Kind<T>, to: Kind<U>, x: T): U
    requires IsScalarType(to.arrayType)
  {
    to.constant(Cast(to.arrayType, Unbox(BoxOf(from, x)).value))
  }

  /** The constant the conversion of a constant array is meant to hold: the element the
    * element loop would store for it. For LOGIC that is 1 for every nonzero byte. */
  function ConstantOfCorrected<T, U>(from: Kind<T>, to: Kind<U>, x: T): U
    requires IsScalarType(to.arrayType)
  {
    var init := Cast(to.arrayType, Unbox(BoxOf(from, x)).value);
    if to.arrayType == LOGIC then to.constant(ByteInit(if init.b != 0 then 1 else 0)) else to.constant(init)
  }

  /** The element loop of `convert` for a source that is not constant: a zero array of
    * the target type, `create(type, length, false)`, then one setter call per element. */
  method ConvertElements<T, U>(src: LargeArray<T>, from: Kind<T>, to: Kind<U>) returns (r: Result<LargeArray<U>>)
    requires src.Valid() && !src.isConstant && IsScalarType(to.arrayType)
    ensures var run := ConvertRun(src.Elements(), from, to);
      (r.Err? <==> run.0.Thrown?) && (r.Err? ==> r.error == run.0.error) &&
      (r.Ok? ==> fresh(r.value) && r.value.Valid() && r.value.arrayType == to.arrayType &&
                 r.value.length == src.length && !r.value.isConstant && r.value.Elements() == run.1)
  {
    var created := Create<U>(to.arrayType, src.length, to.zero, false);
    var out := created.value;
    var vs := src.data[..];
    var o := StoreRun(vs, out, 0, (x: T) => Transferred(from, to, x));
    if o.Thrown? {
      return Err(o.error);
    }
    r := Ok(out);
  }

  /** `convert(src, type)` as written: the source itself when the type already matches;
    * for a constant source `createConstant(type, length, src.get(0))`; otherwise the
    * element loop. */
  method ConvertAsWritten<T, U>(src: LargeArray<T>, from: Kind<T>, to: Kind<U>) returns (r: Result<Conversion<U>>)
    requires src.Valid() && src.arrayType == from.arrayType && IsScalarType(to.arrayType)
    ensures src.arrayType == to.arrayType ==> r == Ok(SameArray)
    ensures src.arrayType != to.arrayType && r.Ok? ==>
      r.value.NewArray? && fresh(r.value.made) && r.value.made.Valid() &&
      r.value.made.arrayType == to.arrayType && r.value.made.length == src.length
    ensures src.arrayType != to.arrayType && src.isConstant ==>
      r.Ok? && r.value.made.isConstant && r.value.made.Elements() == Repeat(ConstantOf(from, to, src.data[0]), src.length)
    ensures src.arrayType != to.arrayType && !src.isConstant ==>
      var run := ConvertRun(src.Elements(), from, to);
      (r.Err? <==> run.0.Thrown?) && (r.Err? ==> r.error == run.0.error) &&
      (r.Ok? ==> !r.value.made.isConstant && r.value.made.Elements() == run.1)
  {
    if src.arrayType == to.arrayType {
      return Ok(SameArray);
    }
    if src.isConstant {
      var init := CreateConstant(to.arrayType, src.length, Some(BoxOf(from, src.data[0])));
      var c := new LargeArray.Filled(to.arrayType, src.length, to.constant(init.value), true);
      return Ok(NewArray(c));
    }
    var out := ConvertElements(src, from, to);
    match out {
      case Err(e) => r := Err(e);
      case Ok(a) => r := Ok(NewArray(a));
    }
  }

  /** `convert(src, type)` with a constant source converted as its elements would be:
    * to LOGIC, a nonzero constant becomes 1. */
  method Convert<T, U>(src: LargeArray<T>, from: Kind<T>, to: Kind<U>) returns (r: Result<Conversion<U>>)
    requires src.Valid() && src.arrayType == from.arrayType && IsScalarType(to.arrayType)
    ensures src.arrayType == to.arrayType ==> r == Ok(SameArray)
    ensures src.arrayType != to.arrayType && r.Ok? ==>
      r.value.NewArray? && fresh(r.value.made) && r.value.made.Valid() &&
      r.value.made.arrayType == to.arrayType && r.value.made.length == src.length
    ensures src.arrayType != to.arrayType && src.isConstant ==>
      r.Ok? && r.value.made.isConstant &&
      r.value.made.Elements() == Repeat(ConstantOfCorrected(from, to, src.data[0]), src.length)
    ensures src.arrayType != to.arrayType && !src.isConstant ==>
      var run := ConvertRun(src.Elements(), from, to);
      (r.Err? <==> run.0.Thrown?) && (r.Err? ==> r.error == run.0.error) &&
      (r.Ok? ==> !r.value.made.isConstant && r.value.made.Elements() == run.1)
  {
    if src.arrayType == to.arrayType {
      return Ok(SameArray);
    }
    if src.isConstant {
      var c := new LargeArray.Filled(to.arrayType, src.length, ConstantOfCorrected(from, to, src.data[0]), true);
      return Ok(NewArray(c));
    }
    var out := ConvertElements(src, from, to);
    match out {
      case Err(e) => r := Err(e);
      case Ok(a) => r := Ok(NewArray(a));
    }
  }

  /** Converting to LOGIC stores 1 for every element whose `getByte` is nonzero and 0
    * for every other, whatever the source; nothing is refused. */
  lemma {:induction false} ConvertToLogic<T>(s: seq<T>, from: Kind<T>)
    ensures ConvertRun(s, from, LogicKind).0 == Done
    ensures forall k :: 0 <= k < |s| ==>
      ConvertRun(s, from, LogicKind).1[k] == if ScalarValue(from.codec.decode(s[k], GetByte)) != 0.0 then 1 else 0
    ensures LogicLargeArrays.AllBits(ConvertRun(s, from, LogicKind).1)
  {
    forall k | 0 <= k < |s| {
      LogicTransfer(from, s[k]);
    }
    ConvertAccepted(s, from, LogicKind);
  }

  /** One element converted to LOGIC. */
  lemma LogicTransfer<T>(from: Kind<T>, x: T)
    ensures Transferred(from, LogicKind, x) == Ok(if ScalarValue(from.codec.decode(x, GetByte)) != 0.0 then 1 else 0)
  {}

  /** When the setter takes every element, the loop ends with element k converted. */
  lemma {:induction false} ConvertAccepted<T, U>(s: seq<T>, from: Kind<T>, to: Kind<U>)
    requires IsScalarType(to.arrayType)
    requires forall k :: 0 <= k < |s| ==> Transferred(from, to, s[k]).Ok?
    ensures ConvertRun(s, from, to).0 == Done
    ensures forall k :: 0 <= k < |s| ==> ConvertRun(s, from, to).1[k] == Transferred(from, to, s[k]).value
  {
    RunAccepted(Repeat(to.zero, |s|), 0, s, (x: T) => Transferred(from, to, x));
  }

  /** SHORT to LONG keeps every value. */
  lemma ShortToLong(s: seq<int16>)
    ensures ConvertRun(s, ShortKind, LongKind) == (Done, Map(s, (x: int16) => x as int64))
  {
    ConvertAccepted(s, ShortKind, LongKind);
    assert forall k :: 0 <= k < |s| ==> ConvertRun(s, ShortKind, LongKind).1[k] == Map(s, (x: int16) => x as int64)[k];
    assert ConvertRun(s, ShortKind, LongKind).1 == Map(s, (x: int16) => x as int64);
  }

  /** LONG to SHORT keeps the low sixteen bits of every value. */
  lemma LongToShort(s: seq<int64>)
    ensures ConvertRun(s, LongKind, ShortKind) == (Done, Map(s, (x: int64) => ToShort(x) as int16))
  {
    ConvertAccepted(s, LongKind, ShortKind);
    assert forall k :: 0 <= k < |s| ==> ConvertRun(s, LongKind, ShortKind).1[k] == Map(s, (x: int64) => ToShort(x) as int16)[k];
    assert ConvertRun(s, LongKind, ShortKind).1 == Map(s, (x: int64) => ToShort(x) as int16);
  }

  /** DOUBLE to LONG rounds every value toward zero and saturates. */
  lemma DoubleToLong(s: seq<real>)
    ensures ConvertRun(s, DoubleKind, LongKind) == (Done, Map(s, (x: real) => RealToLong(x) as int64))
  {
    ConvertAccepted(s, DoubleKind, LongKind);
    assert forall k :: 0 <= k < |s| ==> ConvertRun(s, DoubleKind, LongKind).1[k] == Map(s, (x: real) => RealToLong(x) as int64)[k];
    assert ConvertRun(s, DoubleKind, LongKind).1 == Map(s, (x: real) => RealToLong(x) as int64);
  }

  /** The byte `createConstant(LOGIC, length, src.get(0))` reads from the boxed constant
    * is `src.getByte(0)`, for each of the typed arrays. */
  lemma ByteOfBox(x: int8, y: int16, z: int64, d: real)
    ensures Cast(LOGIC, Unbox(BoxOf(LogicKind, x)).value).b == Whole(LogicKind.codec.decode(x, GetByte))
    ensures Cast(LOGIC, Unbox(BoxOf(UnsignedByteKind, x)).value).b == Whole(UnsignedByteKind.codec.decode(x, GetByte))
    ensures Cast(LOGIC, Unbox(BoxOf(ShortKind, y)).value).b == Whole(ShortKind.codec.decode(y, GetByte))
    ensures Cast(LOGIC, Unbox(BoxOf(LongKind, z)).value).b == Whole(LongKind.codec.decode(z, GetByte))
    ensures Cast(LOGIC, Unbox(BoxOf(DoubleKind, d)).value).b == Whole(DoubleKind.codec.decode(d, GetByte))
  {
    LogicByteOfBox(x);
    UnsignedByteByteOfBox(x);
    ShortByteOfBox(y);
    LongByteOfBox(z);
    DoubleByteOfBox(d);
  }

  lemma LogicByteOfBox(x: int8)
    ensures Cast(LOGIC, Unbox(BoxOf(LogicKind, x)).value).b == Whole(LogicKind.codec.decode(x, GetByte))
  {
  }

  lemma UnsignedByteByteOfBox(x: int8)
    ensures Cast(LOGIC, Unbox(BoxOf(UnsignedByteKind, x)).value).b == Whole(UnsignedByteKind.codec.decode(x, GetByte))
  {
    assert ToByte(UnsignedByteLargeArrays.Value(x)) == x;
  }

  lemma ShortByteOfBox(y: int16)
    ensures Cast(LOGIC, Unbox(BoxOf(ShortKind, y)).value).b == Whole(ShortKind.codec.decode(y, GetByte))
  {
  }

  lemma LongByteOfBox(z: int64)
    ensures Cast(LOGIC, Unbox(BoxOf(LongKind, z)).value).b == Whole(LongKind.codec.decode(z, GetByte))
  {
  }

  lemma DoubleByteOfBox(d: real)
    ensures Cast(LOGIC, Unbox(BoxOf(DoubleKind, d)).value).b == Whole(DoubleKind.codec.decode(d, GetByte))
  {
  }

  /** With the correction, converting a constant array to LOGIC gives the elements the
    * element loop gives for the same elements held one by one. */
  lemma {:induction false} ConstantToLogicAgrees<T>(from: Kind<T>, x: T, n: nat)
    requires Cast(LOGIC, Unbox(BoxOf(from, x)).value).b == Whole(from.codec.decode(x, GetByte))
    requires from.codec.decode(x, GetByte).Integral?
    ensures Repeat(ConstantOfCorrected(from, LogicKind, x), n) == ConvertRun(Repeat(x, n), from, LogicKind).1
  {
    ConvertToLogic(Repeat(x, n), from);
  }

  /** As written, a constant SHORT array holding 2 converts to a LOGIC constant 2, while
    * the same array held element by element converts to 1s. */
  lemma ConstantToLogicAsWritten()
    ensures ConstantOf(ShortKind, LogicKind, 2) == 2
    ensures ConvertRun([2 as int16], ShortKind, LogicKind).1 == [1]
    ensures !LogicLargeArrays.IsBit(ConstantOf(ShortKind, LogicKind, 2))
  {
    ConvertToLogic([2 as int16], ShortKind);
  }

  // ---------------------------------------------------------------------------
  // select

  /** How many mask bytes equal 1. */
  function Ones(m: seq<int8>): (n: nat)
    ensures n <= |m|
  {
    if |m| == 0 then 0 else (if m[0] == 1 then 1 else 0) + Ones(m[1..])
  }

  /** The elements of s whose mask byte equals 1, in their order in s. */
  function Selected<T>(s: seq<T>, m: seq<int8>): (r: seq<T>)
    requires |s| == |m|
    ensures |r| == Ones(m)
  {
    if |s| == 0 then [] else (if m[0] == 1 then [s[0]] else []) + Selected(s[1..], m[1..])
  }

  /** Counting the ones of a range in two parts. */
  lemma {:induction false} OnesSplit(m: seq<int8>, a: int, b: int, c: int)
    requires 0 <= a <= b <= c <= |m|
    ensures Ones(m[a..c]) == Ones(m[a..b]) + Ones(m[b..c])
    decreases b - a
  {
    if a < b {
      assert m[a..c][1..] == m[a + 1..c];
      assert m[a..b][1..] == m[a + 1..b];
      OnesSplit(m, a + 1, b, c);
    } else {
      assert m[a..b] == [];
    }
  }

  /** One more element with its mask byte: it is selected exactly when the byte is 1,
    * after everything selected before it. */
  lemma {:induction false} SelectedSnoc<T>(s: seq<T>, m: seq<int8>, x: T, b: int8)
    requires |s| == |m|
    ensures Selected(s + [x], m + [b]) == Selected(s, m) + (if b == 1 then [x] else [])
    decreases |s|
  {
    if |s| == 0 {
      assert (s + [x])[1..] == [] && (m + [b])[1..] == [];
    } else {
      assert (s + [x])[1..] == s[1..] + [x] && (m + [b])[1..] == m[1..] + [b];
      SelectedSnoc(s[1..], m[1..], x, b);
    }
  }

  /** A mask of ones only selects every element; a mask without a one selects none. */
  lemma {:induction false} SelectedAllOrNone<T>(s: seq<T>, m: seq<int8>)
    requires |s| == |m|
    ensures (forall k :: 0 <= k < |m| ==> m[k] == 1) ==> Selected(s, m) == s
    ensures (forall k :: 0 <= k < |m| ==> m[k] != 1) ==> Selected(s, m) == []
    decreases |s|
  {
    if |s| > 0 {
      SelectedAllOrNone(s[1..], m[1..]);
      assert [s[0]] + s[1..] == s;
    }
  }

  /** What `res.set(k, src.get(j))` stores in an array of kind k for the element x. */
  function Reboxed<T>(k: Kind<T>, x: T): Result<T> {
    k.codec.encode(Unbox(BoxOf(k, x)).value)
  }

  /** `set(k, get(j))` as a setter on the elements of kind k. */
  function Rebox<T>(k: Kind<T>): T -> Result<T> {
    (x: T) => Reboxed(k, x)
  }

  /** The filling loop of `select`: the selected elements, each boxed and set in turn,
    * into a fresh zero array of the same type holding as many elements as the mask has
    * ones. */
  function SelectRun<T>(s: seq<T>, m: seq<int8>, k: Kind<T>): (r: (Outcome, seq<T>))
    requires |s| == |m|
    ensures |r.1| == Ones(m)
  {
    Run(Repeat(k.zero, Ones(m)), 0, Selected(s, m), Rebox(k))
  }

  /** When setting a boxed element gives back the element, `select` returns exactly the
    * selected elements. */
  lemma {:induction false} SelectRunKeeps<T>(s: seq<T>, m: seq<int8>, k: Kind<T>)
    requires |s| == |m|
    requires forall x :: x in Selected(s, m) ==> Reboxed(k, x) == Ok(x)
    ensures SelectRun(s, m, k) == (Done, Selected(s, m))
  {
    var sel := Selected(s, m);
    var put := Rebox(k);
    assert forall j :: 0 <= j < |sel| ==> sel[j] in sel && put(sel[j]) == Ok(sel[j]);
    RunAccepted(Repeat(k.zero, Ones(m)), 0, sel, put);
    assert Splice(Repeat(k.zero, Ones(m)), 0, Stores(sel, put)) == sel;
  }

  /** Short, long, double and unsigned byte elements survive being boxed and set; logic
    * elements do when they are 0 or 1. */
  lemma ReboxedRoundTrip(b: int8, v: int16, l: int64, d: real)
    ensures LogicLargeArrays.IsBit(b) ==> Reboxed(LogicKind, b) == Ok(b)
    ensures Reboxed(UnsignedByteKind, b) == Ok(b)
    ensures Reboxed(ShortKind, v) == Ok(v)
    ensures Reboxed(LongKind, l) == Ok(l)
    ensures Reboxed(DoubleKind, d) == Ok(d)
  {
    SignedByteRoundTrip(b);
  }

  /** The counting loop of one thread: the mask bytes equal to 1 in [first, last). */
  method CountRange(mask: LargeArray<int8>, first: int, last: int) returns (count: int)
    requires mask.Valid() && 0 <= first <= last <= mask.length
    ensures count == Ones(mask.Elements()[first..last])
  {
    ghost var m := mask.Elements();
    count := 0;
    var k := first;
    while k < last
      invariant first <= k <= last
      invariant count + Ones(m[k..last]) == Ones(m[first..last])
    {
      assert m[k..last][1..] == m[k + 1..last];
      var b := if mask.isConstant then mask.data[0] else mask.data[k];
      if b == 1 {
        count := count + 1;
      }
      k := k + 1;
    }
  }

  /** The chunks of length / nthreads fit the array. */
  lemma ChunkFits(j: int, nthreads: int, k: int, length: int)
    requires 0 <= j < nthreads && 0 <= length && k == length / nthreads
    ensures 0 <= j * k && j * k + k <= length && (j + 1) * k == j * k + k
    ensures j + 1 == nthreads ==> length - (j * k + k) < nthreads
  {
    MulMonotone(nthreads, j + 1, k + 1);
    assert nthreads * k <= length;
    if k > 0 {
      MulMonotone(nthreads, j + 1, k);
    }
  }

  /** The counting phase of `select`: nthreads chunks of length / nthreads elements, the
    * last one running to the end, counted one after the other and summed. */
  method CountChunks(mask: LargeArray<int8>, nthreads: int) returns (count: int)
    requires mask.Valid() && 1 <= nthreads <= mask.length
    ensures count == Ones(mask.Elements())
  {
    ghost var m := mask.Elements();
    var length := mask.length;
    var k := length / nthreads;
    count := 0;
    var j := 0;
    ghost var covered := 0;
    while j < nthreads
      invariant 0 <= j <= nthreads
      invariant j < nthreads ==> covered == j * k
      invariant j == nthreads ==> covered == length
      invariant 0 <= covered <= length
      invariant count == Ones(m[0..covered])
    {
      ChunkFits(j, nthreads, k, length);
      var firstIdx := j * k;
      var lastIdx := if j == nthreads - 1 then length else firstIdx + k;
      var c := CountRange(mask, firstIdx, lastIdx);
      OnesSplit(m, 0, firstIdx, lastIdx);
      count := count + c;
      covered := lastIdx;
      j := j + 1;
    }
    assert m[0..length] == m;
  }

  /** The first selected element of s[j..] is s[j] when its mask byte is 1. */
  lemma SelectedFrom<T>(s: seq<T>, m: seq<int8>, j: int)
    requires |s| == |m| && 0 <= j < |s|
    ensures Selected(s[j..], m[j..]) == (if m[j] == 1 then [s[j]] else []) + Selected(s[j + 1..], m[j + 1..])
  {
    assert s[j..][1..] == s[j + 1..] && m[j..][1..] == m[j + 1..];
  }

  /** A run over x and then rest is the run over x followed, if it completed, by the run
    * over rest. */
  lemma RunCons<T, U>(d: seq<T>, k: int, x: U, rest: seq<U>, put: U -> Result<T>)
    requires 0 <= k && k + 1 + |rest| <= |d|
    ensures var first := Run(d, k, [x], put);
      Run(d, k, [x] + rest, put) == if first.0.Thrown? then first else Run(first.1, k + 1, rest, put)
  {
    assert ([x] + rest)[1..] == rest;
  }

  /** One step of the filling loop in terms of the run: what is left of the run after
    * position j is the run over the rest of the selection from the step's new state. */
  lemma SelectStep<T, U>(d: seq<T>, k: int, s: seq<U>, m: seq<int8>, j: int, put: U -> Result<T>,
                         o: Outcome, e: seq<T>, next: int)
    requires |s| == |m| && 0 <= j < |s| && 0 <= k && k + Ones(m[j..]) == |d|
    requires if m[j] == 1 then (o, e) == Run(d, k, [s[j]], put) && next == k + 1
             else o == Done && e == d && next == k
    ensures next + Ones(m[j + 1..]) == |d| && |e| == |d|
    ensures Run(d, k, Selected(s[j..], m[j..]), put) ==
            if o.Thrown? then (o, e) else Run(e, next, Selected(s[j + 1..], m[j + 1..]), put)
  {
    SelectedFrom(s, m, j);
    assert m[j..][1..] == m[j + 1..];
    assert Ones(m[j..]) == (if m[j] == 1 then 1 else 0) + Ones(m[j + 1..]);
    var rest := Selected(s[j + 1..], m[j + 1..]);
    if m[j] == 1 {
      assert Selected(s[j..], m[j..]) == [s[j]] + rest;
      RunCons(d, k, s[j], rest, put);
    } else {
      assert Selected(s[j..], m[j..]) == rest;
    }
  }

  /** `res.set(k, src.get(j))` with the element x of src, into an array that is not
    * constant. */
  method SetSelected<T>(res: LargeArray<T>, k: int, x: T, kind: Kind<T>) returns (o: Outcome)
    requires res.Valid() && !res.isConstant && 0 <= k < res.length <= MAX_JAVA_ARRAY
    modifies res, res.data
    ensures res.Valid() && !res.isConstant && res.data == old(res.data)
    ensures (o, res.Elements()) == Run(old(res.Elements()), k, [x], Rebox(kind))
  {
    o := res.Set(k, BoxOf(kind, x), kind.codec);
  }

  /** One step of the filling loop of `select`: for the mask byte 1 at j, `res.set(k++,
    * src.get(j))`; for any other byte nothing. */
  method GatherAt<T>(src: LargeArray<T>, mask: LargeArray<int8>, res: LargeArray<T>, kind: Kind<T>, j: int, k: int)
    returns (o: Outcome, next: int)
    requires src.Valid() && mask.Valid() && src.length == mask.length && 0 <= j < src.length
    requires res.Valid() && !res.isConstant && 0 <= k && res.length <= MAX_JAVA_ARRAY
    requires mask.Elements()[j] == 1 ==> k < res.length
    requires res != src && res != mask && res.data != src.data && res.data as object != mask.data
    modifies res, res.data
    ensures res.Valid() && !res.isConstant && res.data == old(res.data)
    ensures src.Elements() == old(src.Elements()) && mask.Elements() == old(mask.Elements())
    ensures var x := old(src.Elements())[j];
      if mask.Elements()[j] == 1 then (o, res.Elements()) == Run(old(res.Elements()), k, [x], Rebox(kind)) && next == k + 1
      else o == Done && res.Elements() == old(res.Elements()) && next == k
  {
    var b := if mask.isConstant then mask.data[0] else mask.data[j];
    if b == 1 {
      var x := if src.isConstant then src.data[0] else src.data[j];
      o := SetSelected(res, k, x, kind);
      next := k + 1;
    } else {
      o, next := Done, k;
    }
  }

  /** The filling loop of `select`: `res.set(k++, src.get(j))` for every j whose mask
    * byte is 1, into a result array with room for exactly the selected elements. */
  method GatherInto<T>(src: LargeArray<T>, mask: LargeArray<int8>, res: LargeArray<T>, kind: Kind<T>) returns (o: Outcome)
    requires src.Valid() && mask.Valid() && src.length == mask.length
    requires res.Valid() && !res.isConstant && res.length == Ones(mask.Elements()) <= MAX_JAVA_ARRAY
    requires res != src && res != mask && res.data != src.data && res.data as object != mask.data
    modifies res, res.data
    ensures res.Valid() && !res.isConstant && res.data == old(res.data)
    ensures (o, res.Elements()) == Run(old(res.Elements()), 0, Selected(old(src.Elements()), old(mask.Elements())), Rebox(kind))
  {
    ghost var s := src.Elements();
    ghost var m := mask.Elements();
    ghost var put := Rebox(kind);
    ghost var run := Run(res.Elements(), 0, Selected(s, m), put);
    var k := 0;
    var j := 0;
    while j < src.length
      invariant 0 <= j <= src.length && 0 <= k
      invariant res.Valid() && !res.isConstant && res.data == old(res.data)
      invariant src.Elements() == s && mask.Elements() == m
      invariant k + Ones(m[j..]) == res.length
      invariant run == Run(res.Elements(), k, Selected(s[j..], m[j..]), put)
    {
      ghost var d := res.Elements();
      var next;
      o, next := GatherAt(src, mask, res, kind, j, k);
      SelectStep(d, k, s, m, j, put, o, res.Elements(), next);
      if o.Thrown? {
        return;
      }
      k := next;
      j := j + 1;
    }
    assert s[j..] == [] && m[j..] == [];
    o := Done;
  }

  /** The filling phase of `select` once count ones were found: `create(type, count,
    * false)`, then the filling loop. */
  method Gather<T>(src: LargeArray<T>, mask: LargeArray<int8>, kind: Kind<T>, count: int) returns (r: Result<LargeArray<T>>)
    requires src.Valid() && mask.Valid() && src.length == mask.length <= MAX_JAVA_ARRAY
    requires src.arrayType == kind.arrayType
    requires count == Ones(mask.Elements())
    ensures var run := SelectRun(src.Elements(), mask.Elements(), kind);
      (r.Err? <==> run.0.Thrown?) && (r.Err? ==> r.error == run.0.error) &&
      (r.Ok? ==> fresh(r.value) && r.value.Valid() && r.value.arrayType == src.arrayType &&
                 !r.value.isConstant && r.value.Elements() == run.1)
  {
    var created := Create<T>(src.arrayType, count, kind.zero, false);
    var res := created.value;
    var o := GatherInto(src, mask, res, kind);
    if o.Thrown? {
      return Err(o.error);
    }
    r := Ok(res);
  }

  /** `select(src, mask)` as written: nthreads = min(length, threads) chunks, so an empty
    * source divides by zero. */
  method SelectAsWritten<T>(src: LargeArray<T>, mask: LargeArray<int8>, kind: Kind<T>, threads: int)
    returns (r: Result<Option<LargeArray<T>>>)
    requires src.Valid() && mask.Valid() && src.length <= MAX_JAVA_ARRAY && 1 <= threads
    requires src.arrayType == kind.arrayType
    ensures src.length != mask.length ==> r == Err(IllegalArgument)
    ensures src.length == mask.length == 0 ==> r == Err(Arithmetic)
    ensures src.length == mask.length && 0 < src.length ==>
      var run := SelectRun(src.Elements(), mask.Elements(), kind);
      (Ones(mask.Elements()) == 0 ==> r == Ok(None)) &&
      (Ones(mask.Elements()) > 0 ==>
        (r.Err? <==> run.0.Thrown?) && (r.Err? ==> r.error == run.0.error) &&
        (r.Ok? ==> r.value.Some? && fresh(r.value.value) && r.value.value.Valid() &&
                   r.value.value.arrayType == src.arrayType && r.value.value.Elements() == run.1))
  {
    if src.length != mask.length {
      return Err(IllegalArgument);
    }
    var nthreads := if src.length < threads then src.length else threads;
    if nthreads == 0 {
      return Err(Arithmetic);
    }
    var count := CountChunks(mask, nthreads);
    if count <= 0 {
      return Ok(None);
    }
    var res := Gather(src, mask, kind, count);
    match res {
      case Err(e) => r := Err(e);
      case Ok(a) => r := Ok(Some(a));
    }
  }

  /** `select(src, mask)` with an empty source treated as a mask without ones: it gives
    * null instead of dividing by zero. */
  method Select<T>(src: LargeArray<T>, mask: LargeArray<int8>, kind: Kind<T>, threads: int)
    returns (r: Result<Option<LargeArray<T>>>)
    requires src.Valid() && mask.Valid() && src.length <= MAX_JAVA_ARRAY && 1 <= threads
    requires src.arrayType == kind.arrayType
    ensures src.length != mask.length ==> r == Err(IllegalArgument)
    ensures src.length == mask.length ==>
      var run := SelectRun(src.Elements(), mask.Elements(), kind);
      (Ones(mask.Elements()) == 0 ==> r == Ok(None)) &&
      (Ones(mask.Elements()) > 0 ==>
        (r.Err? <==> run.0.Thrown?) && (r.Err? ==> r.error == run.0.error) &&
        (r.Ok? ==> r.value.Some? && fresh(r.value.value) && r.value.value.Valid() &&
                   r.value.value.arrayType == src.arrayType && r.value.value.Elements() == run.1))
  {
    if src.length != mask.length {
      return Err(IllegalArgument);
    }
    var nthreads := if src.length < threads then src.length else threads;
    var count := 0;
    if nthreads > 0 {
      count := CountChunks(mask, nthreads);
    }
    if count <= 0 {
      return Ok(None);
    }
    var res := Gather(src, mask, kind, count);
    match res {
      case Err(e) => r := Err(e);
      case Ok(a) => r := Ok(Some(a));
    }
  }
}
