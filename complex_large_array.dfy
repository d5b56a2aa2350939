// ComplexFloatLargeArray and ComplexDoubleLargeArray: two arrays of the part
// type, one holding the real and one the imaginary parts. The typed getters
// read the real part; the typed setters write the real part and zero the
// imaginary part; the interleaved layout {re0, im0, re1, im1, ...} is what
// `getComplexData` returns and what the one-array constructor takes. Both
// classes are one class here, told apart by `arrayType`; a float is read as
// the real number it holds.
module ComplexLargeArrays {
  import opened Wrappers
  import opened JavaInts
  import opened JavaValues
  import opened LargeArrayTypes
  import opened LargeArrays
  import DoubleLargeArrays

  /** One element: its real and imaginary part. */
  datatype Complex = Complex(re: real, im: real)

  /** FLOAT parts for COMPLEX_FLOAT, DOUBLE parts for COMPLEX_DOUBLE. */
  function PartType(t: LargeArrayType): (p: LargeArrayType)
    ensures p in {FLOAT, DOUBLE}
    ensures p == FLOAT <==> t == COMPLEX_FLOAT
  {
    if t == COMPLEX_FLOAT then FLOAT else DOUBLE
  }

  /** The elements whose real parts are re and imaginary parts im. */
  function Zip(re: seq<real>, im: seq<real>): (cs: seq<Complex>)
    requires |re| == |im|
    ensures |cs| == |re|
    ensures forall k :: 0 <= k < |re| ==> cs[k] == Complex(re[k], im[k])
  {
    seq(|re|, k requires 0 <= k < |re| => Complex(re[k], im[k]))
  }

  /** Two part sequences are equal exactly when the elements they make are. */
  lemma {:induction false} ZipEqual(re1: seq<real>, im1: seq<real>, re2: seq<real>, im2: seq<real>)
    requires |re1| == |im1| == |re2| == |im2|
    ensures Zip(re1, im1) == Zip(re2, im2) <==> re1 == re2 && im1 == im2
  {
    if Zip(re1, im1) == Zip(re2, im2) {
      forall k | 0 <= k < |re1|
        ensures re1[k] == re2[k] && im1[k] == im2[k]
      {
        assert Zip(re1, im1)[k] == Zip(re2, im2)[k];
      }
    }
  }

  /** Writing both parts at k writes element k. */
  lemma ZipUpdate(re: seq<real>, im: seq<real>, k: int, x: real, y: real)
    requires |re| == |im| && 0 <= k < |re|
    ensures Zip(re[k := x], im[k := y]) == Zip(re, im)[k := Complex(x, y)]
  {
  }

  /** The interleaved layout {re0, im0, re1, im1, ...}. */
  function Flatten(cs: seq<Complex>): (s: seq<real>)
    ensures |s| == 2 * |cs|
  {
    if |cs| == 0 then [] else Flatten(cs[..|cs| - 1]) + [cs[|cs| - 1].re, cs[|cs| - 1].im]
  }

  /** Reading an interleaved sequence of even length back as elements. */
  function Deinterleave(s: seq<real>): (cs: seq<Complex>)
    requires |s| % 2 == 0
    ensures 2 * |cs| == |s|
  {
    if |s| == 0 then [] else Deinterleave(s[..|s| - 2]) + [Complex(s[|s| - 2], s[|s| - 1])]
  }

  /** In the interleaved layout element k sits at 2k (real part) and 2k + 1
    * (imaginary part). */
  lemma {:induction false} FlattenAt(cs: seq<Complex>, k: int)
    requires 0 <= k < |cs|
    ensures Flatten(cs)[2 * k] == cs[k].re && Flatten(cs)[2 * k + 1] == cs[k].im
  {
    if k < |cs| - 1 {
      FlattenAt(cs[..|cs| - 1], k);
    }
  }

  /** Flattening and reading back are inverse: in one direction for any elements... */
  lemma {:induction false} DeinterleaveFlatten(cs: seq<Complex>)
    ensures Deinterleave(Flatten(cs)) == cs
  {
    if |cs| != 0 {
      var f := Flatten(cs);
      assert f[..|f| - 2] == Flatten(cs[..|cs| - 1]);
      DeinterleaveFlatten(cs[..|cs| - 1]);
    }
  }

  /** ...and in the other for any interleaved sequence of even length. */
  lemma {:induction false} FlattenDeinterleave(s: seq<real>)
    requires |s| % 2 == 0
    ensures Flatten(Deinterleave(s)) == s
  {
    if |s| != 0 {
      var d := Deinterleave(s);
      assert d[..|d| - 1] == Deinterleave(s[..|s| - 2]);
      FlattenDeinterleave(s[..|s| - 2]);
      assert s == s[..|s| - 2] + [s[|s| - 2], s[|s| - 1]];
    }
  }

  /** An interleaved sequence of one repeated value reads back as that value twice over. */
  lemma {:induction false} DeinterleaveRepeat(x: real, n: nat)
    ensures Deinterleave(Repeat(x, 2 * n)) == Repeat(Complex(x, x), n)
  {
    if n != 0 {
      assert Repeat(x, 2 * n)[..2 * n - 2] == Repeat(x, 2 * (n - 1));
      DeinterleaveRepeat(x, n - 1);
      assert Repeat(Complex(x, x), n) == Repeat(Complex(x, x), n - 1) + [Complex(x, x)];
    }
  }

  /** One more element appends its two parts to the interleaved layout. */
  lemma {:induction false} FlattenSnoc(cs: seq<Complex>, c: Complex)
    ensures Flatten(cs + [c]) == Flatten(cs) + [c.re, c.im]
  {
    assert (cs + [c])[..|cs|] == cs;
  }

  /** The zero the typed setters write into the imaginary part: the same setter, with
    * `false`, `(byte) 0`, `(short) 0`, `0` or `0.0` as its argument. */
  function Zero(a: Assignment): (z: Assignment)
    ensures Numeric(z) == 0.0
    ensures z.SetBoolean? == a.SetBoolean? && z.SetLong? == a.SetLong? && z.SetFloat? == a.SetFloat?
  {
    match a
    case SetBoolean(_) => SetBoolean(false)
    case SetByte(_) => SetByte(0)
    case SetUnsignedByte(_) => SetUnsignedByte(0)
    case SetShort(_) => SetShort(0)
    case SetInt(_) => SetInt(0)
    case SetLong(_) => SetLong(0)
    case SetFloat(_) => SetFloat(0.0)
    case SetDouble(_) => SetDouble(0.0)
  }

  /** What `setComplexFloat(i, value)` or `setComplexDouble(i, value)` leaves, for a
    * non-empty value: value[0] goes to the real part and value[1] to the imaginary part;
    * a one-element value has its real part written before `value[1]` throws. */
  ghost function ComplexStored(s: seq<Complex>, i: int, value: seq<real>): (r: (Outcome, seq<Complex>))
    requires IsLong(i) && 1 <= |value|
  {
    var k := ToInt(i);
    if !(0 <= k < |s|) then (Thrown(ArrayIndexOutOfBounds), s)
    else if |value| == 1 then (Thrown(ArrayIndexOutOfBounds), s[k := Complex(value[0], s[k].im)])
    else (Done, s[k := Complex(value[0], value[1])])
  }

  /** A value of two or more numbers stores its first two as the element, like storing
    * the element directly; a shorter one never completes. */
  lemma {:induction false} ComplexStoredAsElement(s: seq<Complex>, i: int, value: seq<real>)
    requires IsLong(i) && 1 <= |value|
    ensures 2 <= |value| ==> ComplexStored(s, i, value) == Stored(s, i, Complex(value[0], value[1]))
    ensures |value| == 1 ==> ComplexStored(s, i, value).0 == Thrown(ArrayIndexOutOfBounds)
    ensures |value| == 1 && 0 <= ToInt(i) < |s| ==> ComplexStored(s, i, value).1[ToInt(i)].re == value[0]
  {
    var k := ToInt(i);
    if 2 <= |value| {
      var a := ComplexStored(s, i, value);
      var b := Stored(s, i, Complex(value[0], value[1]));
      assert a.0 == b.0;
      if 0 <= k < |s| {
        assert a.1 == b.1;
      }
    }
  }

  /** A heap complex array: `dataRe` and `dataIm` are two distinct part arrays of equal
    * length. `constantField` is the `isConstant` field of the base class, which the
    * constructors taking an initial value or an interleaved array set and nothing updates
    * afterwards; `isConstant()` asks the parts instead. */
  class ComplexLargeArray {
    const arrayType: LargeArrayType
    const length: int
    const constantField: bool
    const dataRe: LargeArray<real>
    const dataIm: LargeArray<real>

    ghost predicate Valid()
      reads this, dataRe, dataIm
    {
      arrayType in {COMPLEX_FLOAT, COMPLEX_DOUBLE} &&
      dataRe.Valid() && dataIm.Valid() && dataRe != dataIm && dataRe.data != dataIm.data &&
      dataRe.arrayType == PartType(arrayType) && dataIm.arrayType == PartType(arrayType) &&
      dataRe.length == length && dataIm.length == length
    }

    /** The elements, index by index. */
    function Elements(): (s: seq<Complex>)
      reads this, dataRe, dataRe.data, dataIm, dataIm.data
      requires Valid()
      ensures |s| == length
    {
      Zip(dataRe.Elements(), dataIm.Elements())
    }

    constructor Of(arrayType: LargeArrayType, constantField: bool, dataRe: LargeArray<real>, dataIm: LargeArray<real>)
      requires arrayType in {COMPLEX_FLOAT, COMPLEX_DOUBLE}
      requires dataRe.Valid() && dataIm.Valid() && dataRe != dataIm && dataRe.data != dataIm.data
      requires dataRe.arrayType == PartType(arrayType) && dataIm.arrayType == PartType(arrayType)
      requires dataRe.length == dataIm.length
      ensures Valid() && this.arrayType == arrayType && this.constantField == constantField
      ensures this.dataRe == dataRe && this.dataIm == dataIm && length == dataRe.length
      ensures Elements() == Zip(dataRe.Elements(), dataIm.Elements())
    {
      this.arrayType := arrayType;
      this.length := dataRe.length;
      this.constantField := constantField;
      this.dataRe := dataRe;
      this.dataIm := dataIm;
    }

    /** `isConstant()`: both parts are constant, so every element is the first one. */
    function IsConstant(): (b: bool)
      reads this, dataRe, dataRe.data, dataIm, dataIm.data
      requires Valid()
      ensures b ==> forall k :: 0 <= k < length ==> Elements()[k] == Elements()[0]
    {
      dataRe.isConstant && dataIm.isConstant
    }

    /** `get(i)`, that is `getComplexFloat(i)` or `getComplexDouble(i)`: the element at i;
      * an index outside the array fails unless both parts are constant. */
    function Get(i: int64): (r: Result<Complex>)
      reads this, dataRe, dataRe.data, dataIm, dataIm.data
      requires Valid()
      ensures 0 <= i < length ==> r == Ok(Elements()[i])
      ensures r.Err? <==> !IsConstant() && !(0 <= ToInt(i) < length)
      ensures r.Err? ==> r.error == ArrayIndexOutOfBounds
    {
      match dataRe.At(i)
      case Err(e) => Err(e)
      case Ok(x) =>
        match dataIm.At(i)
        case Err(e) => Err(e)
        case Ok(y) => Ok(Complex(x, y))
    }

    /** The typed getters `getBoolean(i)` ... `getDouble(i)` read the real part only. */
    function GetScalar(i: int64, g: Getter): (r: Result<Scalar>)
      reads this, dataRe, dataRe.data, dataIm, dataIm.data
      requires Valid()
      ensures 0 <= i < length ==> r == Ok(DoubleLargeArrays.Decode(Elements()[i].re, g))
      ensures r.Err? ==> r == Err(ArrayIndexOutOfBounds) && !dataRe.isConstant
    {
      dataRe.Get(i, g, DoubleLargeArrays.Codec)
    }

    /** `setBoolean(i, v)` ... `setDouble(i, v)`: the real part takes v as a number, then
      * the same setter writes zero into the imaginary part, so element i becomes
      * (v, 0); an index outside the array throws from the real part before the imaginary
      * part is touched. A constant part is materialised on the way. */
    method Assign(i: int64, a: Assignment) returns (o: Outcome)
      requires Valid() && length <= MAX_JAVA_ARRAY
      modifies dataRe, dataRe.data, dataIm, dataIm.data
      ensures Valid() && !dataRe.isConstant
      ensures dataRe.data == old(dataRe.data) || fresh(dataRe.data)
      ensures dataIm.data == old(dataIm.data) || fresh(dataIm.data)
      ensures (o, Elements()) == Stored(old(Elements()), i, Complex(Numeric(a), 0.0))
    {
      ghost var re, im := dataRe.Elements(), dataIm.Elements();
      o := dataRe.Assign(i, a, DoubleLargeArrays.Codec);
      if o.Done? {
        var _ := dataIm.Assign(i, Zero(a), DoubleLargeArrays.Codec);
        ZipUpdate(re, im, ToInt(i), Numeric(a), 0.0);
      }
    }

    /** After a typed setter, `get(i)` gives (v, 0) and the typed getter of the same
      * kind gives v back for an integer argument. */
    method AssignThenGet(i: int64, a: Assignment) returns (o: Outcome)
      requires Valid() && length <= MAX_JAVA_ARRAY && 0 <= i < length
      modifies dataRe, dataRe.data, dataIm, dataIm.data
      ensures Valid() && o == Done
      ensures dataRe.data == old(dataRe.data) || fresh(dataRe.data)
      ensures dataIm.data == old(dataIm.data) || fresh(dataIm.data)
      ensures Get(i) == Ok(Complex(Numeric(a), 0.0))
      ensures IntegralArgument(a).Some? ==> GetScalar(i, GetLong) == Ok(Integral(IntegralArgument(a).value))
    {
      o := Assign(i, a);
      if IntegralArgument(a).Some? {
        DoubleLargeArrays.SetThenGet(a);
      }
    }

    /** `setComplexFloat(i, value)` and `setComplexDouble(i, value)`: value[0] goes to the
      * real part, value[1] to the imaginary part. A null value throws
      * NullPointerException and an empty one ArrayIndexOutOfBoundsException before
      * anything is written. */
    method SetComplex(i: int64, value: Option<seq<real>>) returns (o: Outcome)
      requires Valid() && length <= MAX_JAVA_ARRAY
      modifies dataRe, dataRe.data, dataIm, dataIm.data
      ensures Valid()
      ensures dataRe.data == old(dataRe.data) || fresh(dataRe.data)
      ensures dataIm.data == old(dataIm.data) || fresh(dataIm.data)
      ensures value.None? ==> o == Thrown(NullPointer) && dataRe.Unchanged() && dataIm.Unchanged()
      ensures value.Some? && |value.value| == 0 ==> o == Thrown(ArrayIndexOutOfBounds) && dataRe.Unchanged() && dataIm.Unchanged()
      ensures value.Some? && 1 <= |value.value| ==> (o, Elements()) == ComplexStored(old(Elements()), i, value.value)
    {
      if value.None? {
        return Thrown(NullPointer);
      }
      var v := value.value;
      if |v| == 0 {
        return Thrown(ArrayIndexOutOfBounds);
      }
      ghost var re, im := dataRe.Elements(), dataIm.Elements();
      o := dataRe.Assign(i, SetDouble(v[0]), DoubleLargeArrays.Codec);
      if o.Thrown? {
        return;
      }
      if |v| == 1 {
        ZipUpdate(re, im, ToInt(i), v[0], im[ToInt(i)]);
        assert im[ToInt(i) := im[ToInt(i)]] == im;
        return Thrown(ArrayIndexOutOfBounds);
      }
      o := dataIm.Assign(i, SetDouble(v[1]), DoubleLargeArrays.Codec);
      ZipUpdate(re, im, ToInt(i), v[0], v[1]);
    }

    /** `set(i, value)`: only a `float[]` for COMPLEX_FLOAT, a `double[]` for
      * COMPLEX_DOUBLE, is accepted and handed to `setComplexFloat` or
      * `setComplexDouble`; null and any other object throw IllegalArgumentException. */
    method Set(i: int64, value: Option<JavaObject>) returns (o: Outcome)
      requires Valid() && length <= MAX_JAVA_ARRAY
      modifies dataRe, dataRe.data, dataIm, dataIm.data
      ensures Valid()
      ensures dataRe.data == old(dataRe.data) || fresh(dataRe.data)
      ensures dataIm.data == old(dataIm.data) || fresh(dataIm.data)
      ensures !Accepts(value) ==> o == Thrown(IllegalArgument) && dataRe.Unchanged() && dataIm.Unchanged()
      ensures Accepts(value) && |Parts(value)| == 0 ==> o == Thrown(ArrayIndexOutOfBounds) && dataRe.Unchanged() && dataIm.Unchanged()
      ensures Accepts(value) && 1 <= |Parts(value)| ==> (o, Elements()) == ComplexStored(old(Elements()), i, Parts(value))
    {
      if !Accepts(value) {
        return Thrown(IllegalArgument);
      }
      o := SetComplex(i, Some(Parts(value)));
    }

    /** `value instanceof float[]` for COMPLEX_FLOAT, `double[]` for COMPLEX_DOUBLE. */
    predicate Accepts(value: Option<JavaObject>)
    {
      value.Some? && (if arrayType == COMPLEX_FLOAT then value.value.FloatArray? else value.value.DoubleArray?)
    }

    /** The numbers of an accepted value. */
    function Parts(value: Option<JavaObject>): (v: seq<real>)
      requires Accepts(value)
      ensures v == if value.value.FloatArray? then value.value.fs else value.value.ds
    {
      if arrayType == COMPLEX_FLOAT then value.value.fs else value.value.ds
    }

    /** `setLong(i, value)` of a COMPLEX_DOUBLE array as written: it calls `setLong` of
      * both double parts, and that stores nothing on the heap, so the element keeps its
      * old value (the parts are only materialised). */
    method SetLongAsWritten(i: int64, value: int64) returns (o: Outcome)
      requires Valid() && length <= MAX_JAVA_ARRAY && arrayType == COMPLEX_DOUBLE
      modifies dataRe, dataIm
      ensures Valid() && !IsConstant() && o == Done
      ensures dataRe.data == old(dataRe.data) || fresh(dataRe.data)
      ensures dataIm.data == old(dataIm.data) || fresh(dataIm.data)
      ensures Elements() == old(Elements())
    {
      o := DoubleLargeArrays.SetLongAsWritten(dataRe, i, value);
      o := DoubleLargeArrays.SetLongAsWritten(dataIm, i, 0);
    }

    /** `equals`: same type, same length, and equal real and imaginary parts at every
      * index. */
    ghost predicate Same(that: ComplexLargeArray)
      reads this, dataRe, dataRe.data, dataIm, dataIm.data
      reads that, that.dataRe, that.dataRe.data, that.dataIm, that.dataIm.data
      requires Valid() && that.Valid()
    {
      arrayType == that.arrayType && length == that.length && Elements() == that.Elements()
    }

    method Equals(that: ComplexLargeArray) returns (b: bool)
      requires Valid() && that.Valid()
      ensures b <==> Same(that)
    {
      if arrayType != that.arrayType || length != that.length {
        return false;
      }
      var sameRe := LargeArrays.Equals(dataRe, that.dataRe);
      var sameIm := LargeArrays.Equals(dataIm, that.dataIm);
      b := sameRe && sameIm;
      ZipEqual(dataRe.Elements(), dataIm.Elements(), that.dataRe.Elements(), that.dataIm.Elements());
    }

    /** A fresh non-constant array with the same elements: `create(type, length, false)`
      * followed by an element-by-element `arraycopy`. */
    method Copy() returns (c: ComplexLargeArray)
      requires Valid() && length <= MAX_JAVA_ARRAY
      ensures fresh(c) && fresh(c.dataRe) && fresh(c.dataIm) && fresh(c.dataRe.data) && fresh(c.dataIm.data)
      ensures c.Valid() && c.arrayType == arrayType && !c.constantField && !c.dataRe.isConstant
      ensures c.Elements() == Elements()
    {
      var re := dataRe.Clone();
      re.Materialise(Identity);
      var im := dataIm.Clone();
      im.Materialise(Identity);
      c := new ComplexLargeArray.Of(arrayType, false, re, im);
    }

    /** `clone()` as inherited: it asks the `isConstant` field, not `isConstant()`. An
      * array created constant and written to since keeps the field set, so its clone is
      * the constant array of element 0, and an empty one throws reading element 0. */
    method CloneAsWritten() returns (r: Result<ComplexLargeArray>)
      requires Valid() && length <= MAX_JAVA_ARRAY
      ensures r.Err? <==> constantField && !IsConstant() && length == 0
      ensures r.Err? ==> r.error == ArrayIndexOutOfBounds
      ensures r.Ok? ==> fresh(r.value) && r.value.Valid() && r.value.arrayType == arrayType && r.value.length == length
      ensures r.Ok? && constantField ==> r.value.IsConstant() && (0 < length ==> r.value.Elements() == Repeat(Elements()[0], length))
      ensures r.Ok? && !constantField ==> r.value.Elements() == Elements()
      ensures constantField && (exists k :: 0 <= k < length && Elements()[k] != Elements()[0]) ==> r.Ok? && !Same(r.value)
    {
      if constantField {
        var first := Get(0);
        if first.Err? {
          return Err(first.error);
        }
        var c := NewFilled(arrayType, length, Some([first.value.re, first.value.im]), true);
        r := Ok(c.value);
        if exists k :: 0 <= k < length && Elements()[k] != Elements()[0] {
          ghost var k :| 0 <= k < length && Elements()[k] != Elements()[0];
          assert r.value.Elements()[k] != Elements()[k];
        }
      } else {
        var c := Copy();
        r := Ok(c);
      }
    }

    /** `clone()` deciding by `isConstant()`: always equal to the original. */
    method CloneCorrected() returns (c: ComplexLargeArray)
      requires Valid() && length <= MAX_JAVA_ARRAY
      ensures fresh(c) && c.Valid() && c.IsConstant() == IsConstant()
      ensures Same(c)
    {
      if IsConstant() {
        var first := Get(0);
        var r := NewFilled(arrayType, length, Some([first.value.re, first.value.im]), true);
        c := r.value;
        if 0 < length {
          assert Elements() == Repeat(Elements()[0], length);
        }
      } else {
        c := Copy();
      }
    }

    /** `getComplexData()`: the interleaved elements in a new array, or null when that
      * would hold more than LARGEST_SUBARRAY numbers. */
    method GetComplexData() returns (r: Option<array<real>>)
      requires Valid()
      ensures r.None? <==> 2 * length > LARGEST_SUBARRAY
      ensures r.Some? ==> fresh(r.value) && r.value[..] == Flatten(Elements())
    {
      if 2 * length > LARGEST_SUBARRAY {
        return None;
      }
      var out := new real[2 * length];
      FillInterleaved(out, Elements());
      r := Some(out);
    }

    /** `getComplexData(a, start, end, step)`: elements start, start + step, ... below
      * end, interleaved, into a when it is long enough and into a new array otherwise;
      * null when that would be more than LARGEST_SUBARRAY numbers. */
    method GetComplexDataStrided(a: Option<array<real>>, start: int64, end: int64, step: int64)
      returns (r: Result<Option<array<real>>>)
      requires Valid()
      requires a.Some? ==> a.value != dataRe.data && a.value != dataIm.data
      modifies if a.Some? then {a.value} else {}
      ensures r.Err? <==> !(0 <= start < length && start <= end <= length && 1 <= step)
      ensures r.Err? ==> r.error == (if !(0 <= start < length && start <= end <= length) then ArrayIndexOutOfBounds else IllegalArgument)
      ensures r.Ok? && r.value.None? <==> r.Ok? && 2 * Count(end - start, step) > LARGEST_SUBARRAY
      ensures r.Ok? && r.value.Some? ==>
        var out, n := r.value.value, 2 * Count(end - start, step);
        (if a.Some? && n <= a.value.Length then out == a.value else fresh(out)) &&
        n <= out.Length && out[..n] == Flatten(Picks(Elements(), start, end, step)) &&
        (a.Some? && out == a.value ==> out[n..] == old(out[n..]))
    {
      if start < 0 || start >= length {
        return Err(ArrayIndexOutOfBounds);
      }
      if end < 0 || end > length || end < start {
        return Err(ArrayIndexOutOfBounds);
      }
      if step < 1 {
        return Err(IllegalArgument);
      }
      var n := 2 * Count(end - start, step);
      if n > LARGEST_SUBARRAY {
        return Ok(None);
      }
      var out: array<real>;
      if a.Some? && a.value.Length >= n {
        out := a.value;
      } else {
        out := new real[n];
      }
      var picks := Picks(Elements(), start, end, step);
      PicksLength(Elements(), start, end, step);
      FillInterleaved(out, picks);
      r := Ok(Some(out));
    }

    /** `getAbsArray()` and `getArgArray()`: a new non-constant array of the part type
      * whose element k is f(re, im) of element k; f is `sqrt(re * re + im * im)` or
      * `atan2(im, re)`, supplied by the caller. */
    method PartwiseArray(f: (real, real) -> real) returns (out: LargeArray<real>)
      requires Valid() && length <= MAX_JAVA_ARRAY
      ensures fresh(out) && out.Valid() && !out.isConstant && out.arrayType == PartType(arrayType)
      ensures out.length == length
      ensures forall k :: 0 <= k < length ==> out.Elements()[k] == f(Elements()[k].re, Elements()[k].im)
    {
      var s := Elements();
      var values := new real[length];
      for k := 0 to length
        invariant forall j :: 0 <= j < k ==> values[j] == f(s[j].re, s[j].im)
      {
        values[k] := f(s[k].re, s[k].im);
      }
      out := new LargeArray.Wrap(PartType(arrayType), values);
    }
  }

  /** The loop of both `getComplexData` methods: element k of cs goes to out[2k] and
    * out[2k + 1]; the rest of out is left alone. */
  method FillInterleaved(out: array<real>, cs: seq<Complex>)
    requires 2 * |cs| <= out.Length
    modifies out
    ensures out[..2 * |cs|] == Flatten(cs)
    ensures out[2 * |cs|..] == old(out[2 * |cs|..])
  {
    for k := 0 to |cs|
      invariant out[..2 * k] == Flatten(cs[..k])
      invariant out[2 * |cs|..] == old(out[2 * |cs|..])
    {
      ghost var done := out[..2 * k];
      out[2 * k] := cs[k].re;
      out[2 * k + 1] := cs[k].im;
      assert out[..2 * k + 2] == done + [cs[k].re, cs[k].im];
      FlattenSnoc(cs[..k], cs[k]);
      assert cs[..k] + [cs[k]] == cs[..k + 1];
    }
    assert cs[..|cs|] == cs;
  }

  /** `new ComplexXLargeArray(length)`: both parts zero. */
  method NewZero(arrayType: LargeArrayType, length: int64) returns (r: Result<ComplexLargeArray>)
    requires arrayType in {COMPLEX_FLOAT, COMPLEX_DOUBLE} && length <= MAX_JAVA_ARRAY
    ensures r.Err? <==> length < 0
    ensures r.Err? ==> r.error == IllegalArgument
    ensures r.Ok? ==> fresh(r.value) && r.value.Valid() && r.value.arrayType == arrayType && !r.value.constantField
    ensures r.Ok? ==> !r.value.IsConstant() && r.value.Elements() == Repeat(Complex(0.0, 0.0), length)
  {
    if length < 0 {
      return Err(IllegalArgument);
    }
    var re := new LargeArray.Filled(PartType(arrayType), length, 0.0, false);
    var im := new LargeArray.Filled(PartType(arrayType), length, 0.0, false);
    var c := new ComplexLargeArray.Of(arrayType, false, re, im);
    r := Ok(c);
  }

  /** `new ComplexXLargeArray(length, initValue, createConstant)`: initValue must be a
    * pair; both parts are filled, or made constant, with its two numbers. */
  method NewFilled(arrayType: LargeArrayType, length: int64, initValue: Option<seq<real>>, createConstant: bool)
    returns (r: Result<ComplexLargeArray>)
    requires arrayType in {COMPLEX_FLOAT, COMPLEX_DOUBLE} && (createConstant || length <= MAX_JAVA_ARRAY)
    ensures r.Err? <==> length < 0 || initValue.None? || |initValue.value| != 2
    ensures r.Err? ==> r.error == IllegalArgument
    ensures r.Ok? ==> fresh(r.value) && fresh(r.value.dataRe) && fresh(r.value.dataIm)
    ensures r.Ok? ==> r.value.Valid() && r.value.arrayType == arrayType && r.value.length == length
    ensures r.Ok? ==> r.value.constantField == createConstant && r.value.IsConstant() == createConstant
    ensures r.Ok? ==> r.value.Elements() == Repeat(Complex(initValue.value[0], initValue.value[1]), length)
  {
    if length < 0 {
      return Err(IllegalArgument);
    }
    if initValue.None? || |initValue.value| != 2 {
      return Err(IllegalArgument);
    }
    var v := initValue.value;
    var re := new LargeArray.Filled(PartType(arrayType), length, v[0], createConstant);
    var im := new LargeArray.Filled(PartType(arrayType), length, v[1], createConstant);
    var c := new ComplexLargeArray.Of(arrayType, createConstant, re, im);
    r := Ok(c);
  }

  /** `new ComplexXLargeArray(data)` from an interleaved part array: its length must be
    * even; a constant one gives constant parts holding `get(0)` and `get(1)`, any other
    * is split element by element. Either way the elements read data back in pairs. */
  method FromInterleaved(arrayType: LargeArrayType, data: LargeArray<real>) returns (r: Result<ComplexLargeArray>)
    requires arrayType in {COMPLEX_FLOAT, COMPLEX_DOUBLE} && data.Valid()
    ensures r.Err? <==> data.length % 2 != 0
    ensures r.Err? ==> r.error == IllegalArgument
    ensures r.Ok? ==> fresh(r.value) && fresh(r.value.dataRe) && fresh(r.value.dataIm)
    ensures r.Ok? ==> r.value.Valid() && r.value.arrayType == arrayType && r.value.length == data.length / 2
    ensures r.Ok? ==> r.value.constantField == data.isConstant && r.value.IsConstant() == data.isConstant
    ensures r.Ok? ==> r.value.Elements() == Deinterleave(data.Elements())
  {
    if data.length % 2 != 0 {
      return Err(IllegalArgument);
    }
    var n := data.length / 2;
    var c: ComplexLargeArray;
    if data.isConstant {
      var x := data.data[0];
      var re := new LargeArray.Filled(PartType(arrayType), n, x, true);
      var im := new LargeArray.Filled(PartType(arrayType), n, x, true);
      c := new ComplexLargeArray.Of(arrayType, true, re, im);
      DeinterleaveRepeat(x, n);
      assert c.Elements() == Repeat(Complex(x, x), n);
    } else {
      var res, ims := Split(data.Elements());
      var re := new LargeArray.Wrap(PartType(arrayType), res);
      var im := new LargeArray.Wrap(PartType(arrayType), ims);
      c := new ComplexLargeArray.Of(arrayType, false, re, im);
    }
    r := Ok(c);
  }

  /** The loop of the interleaved constructor: d[2k] goes to the real part and d[2k + 1]
    * to the imaginary part of element k. */
  method Split(d: seq<real>) returns (res: array<real>, ims: array<real>)
    requires |d| % 2 == 0
    ensures fresh(res) && fresh(ims) && res != ims && 2 * res.Length == |d| && ims.Length == res.Length
    ensures Zip(res[..], ims[..]) == Deinterleave(d)
  {
    var n := |d| / 2;
    res := new real[n];
    ims := new real[n];
    for k := 0 to n
      invariant Zip(res[..k], ims[..k]) == Deinterleave(d[..2 * k])
    {
      res[k] := d[2 * k];
      ims[k] := d[2 * k + 1];
      assert d[..2 * k + 2][..2 * k] == d[..2 * k];
      assert Zip(res[..k + 1], ims[..k + 1]) == Zip(res[..k], ims[..k]) + [Complex(res[k], ims[k])];
    }
    assert d[..2 * n] == d;
    assert res[..n] == res[..] && ims[..n] == ims[..];
  }

  /** `new ComplexXLargeArray(dataRe, dataIm)`: the two part arrays must be equally long;
    * they become the parts themselves, not copies. */
  method FromParts(arrayType: LargeArrayType, dataRe: LargeArray<real>, dataIm: LargeArray<real>)
    returns (r: Result<ComplexLargeArray>)
    requires arrayType in {COMPLEX_FLOAT, COMPLEX_DOUBLE}
    requires dataRe.Valid() && dataIm.Valid() && dataRe != dataIm && dataRe.data != dataIm.data
    requires dataRe.arrayType == PartType(arrayType) && dataIm.arrayType == PartType(arrayType)
    ensures r.Err? <==> dataRe.length != dataIm.length
    ensures r.Err? ==> r.error == IllegalArgument
    ensures r.Ok? ==> fresh(r.value) && r.value.Valid() && r.value.arrayType == arrayType && !r.value.constantField
    ensures r.Ok? ==> r.value.dataRe == dataRe && r.value.dataIm == dataIm
    ensures r.Ok? ==> r.value.Elements() == Zip(dataRe.Elements(), dataIm.Elements())
  {
    if dataRe.length != dataIm.length {
      return Err(IllegalArgument);
    }
    var c := new ComplexLargeArray.Of(arrayType, false, dataRe, dataIm);
    r := Ok(c);
  }
}
