// The heap storage behind every typed large array: a Java array `data` that
// holds either every element or, for a constant array, the one value all
// elements share; copy-on-write materialisation on the first store; the
// unchecked and the bounds-checked (`_safe`) accessors; the `set(i, Object)`
// dispatch; `clone`; and the strided `get*Data(a, start, end, step)` getters.
// A typed array (LogicLargeArray, ShortLargeArray, ...) is a LargeArray<T>
// together with the Codec that says how its setters store and its getters
// read an element of type T.
module LargeArrays {
  import opened Wrappers
  import opened JavaInts
  import opened JavaValues
  import opened LargeArrayTypes

  /** Above this many elements the `get*Data` methods return null. */
  const LARGEST_SUBARRAY: int := 0x4000_0000

  /** The largest length of a Java array. */
  const MAX_JAVA_ARRAY: int := 0x7fff_ffff

  /** How a typed array turns a setter call into a stored element (or an exception),
    * how its getters read an element, and which value its copy-on-write materialisation
    * writes for a constant element (`allocateMemory(true, getX(0), false)`). */
  datatype Codec<!T> = Codec(encode: Assignment -> Result<T>, decode: (T, Getter) -> Scalar, refill: T -> T)

  /** The element kept as it is: the value copy-on-write materialisation writes when the
    * getter reads the stored element back unchanged. */
  function Identity<T>(x: T): (r: T)
    ensures r == x
  {
    x
  }

  /** A setter that stores every element it is handed unchanged. */
  function Accept<T>(x: T): (r: Result<T>)
    ensures r == Ok(x)
  {
    Ok(x)
  }

  /** n copies of x. */
  function Repeat<T>(x: T, n: nat): (s: seq<T>)
    ensures |s| == n
    ensures forall k :: 0 <= k < n ==> s[k] == x
  {
    seq(n, _ => x)
  }

  /** What the store `data[(int) i] = v` does to the elements s: the index is cast to
    * int and must address an element, which alone receives v. */
  function Stored<T>(s: seq<T>, i: int, v: T): (r: (Outcome, seq<T>))
    requires IsLong(i)
    ensures |r.1| == |s|
    ensures r.0.Done? <==> 0 <= ToInt(i) < |s|
    ensures r.0.Thrown? ==> r.0.error == ArrayIndexOutOfBounds && r.1 == s
    ensures r.0.Done? ==> r.1[ToInt(i)] == v
    ensures forall k :: 0 <= k < |s| && k != ToInt(i) ==> r.1[k] == s[k]
  {
    var k := ToInt(i);
    if 0 <= k < |s| then (Done, s[k := v]) else (Thrown(ArrayIndexOutOfBounds), s)
  }

  /** What a typed setter does to the elements s: an argument the codec rejects throws
    * its exception and changes nothing; otherwise the encoded value is stored. */
  function Assigned<T>(s: seq<T>, i: int, a: Assignment, encode: Assignment -> Result<T>): (r: (Outcome, seq<T>))
    requires IsLong(i)
    ensures |r.1| == |s|
    ensures r.0.Done? <==> encode(a).Ok? && 0 <= ToInt(i) < |s|
    ensures r.0.Thrown? ==> r.1 == s && r.0.error == (if encode(a).Err? then encode(a).error else ArrayIndexOutOfBounds)
    ensures r.0.Done? ==> r.1[ToInt(i)] == encode(a).value
    ensures forall k :: 0 <= k < |s| && k != ToInt(i) ==> r.1[k] == s[k]
  {
    match encode(a)
    case Err(e) => (Thrown(e), s)
    case Ok(v) => Stored(s, i, v)
  }

  /** A heap large array whose elements have type T. */
  class LargeArray<T> {
    const arrayType: LargeArrayType
    const length: int
    var isConstant: bool
    var data: array<T>

    /** A constant array keeps its one value in `data[0]`; any other heap array keeps
      * all its elements, so its length fits a Java array. */
    ghost predicate Valid()
      reads this
    {
      0 <= length && IsLong(length) &&
      if isConstant then data.Length == 1 else data.Length == length && length <= MAX_JAVA_ARRAY
    }

    /** The elements, index by index. */
    function Elements(): (s: seq<T>)
      reads this, data
      requires Valid()
      ensures |s| == length
    {
      if isConstant then Repeat(data[0], length) else data[..]
    }

    /** The elements after copy-on-write materialisation with `refill`; the same as the
      * elements whenever refill keeps the constant. */
    ghost function Materialised(refill: T -> T): (s: seq<T>)
      reads this, data
      requires Valid()
      ensures |s| == length
      ensures (isConstant ==> refill(data[0]) == data[0]) ==> s == Elements()
    {
      if isConstant then Repeat(refill(data[0]), length) else data[..]
    }

    /** Nothing about the array changed. */
    twostate predicate Unchanged()
      reads this, data
    {
      isConstant == old(isConstant) && data == old(data) && data[..] == old(data[..])
    }

    /** `new XLargeArray(length, initValue, createConstant)` on the heap: a constant
      * array, or a Java array filled with initValue. */
    constructor Filled(arrayType: LargeArrayType, length: int, initValue: T, createConstant: bool)
      requires 0 <= length && IsLong(length) && (createConstant || length <= MAX_JAVA_ARRAY)
      ensures Valid() && fresh(data)
      ensures this.arrayType == arrayType && this.length == length && isConstant == createConstant
      ensures Elements() == Repeat(initValue, length)
    {
      this.arrayType := arrayType;
      this.length := length;
      isConstant := createConstant;
      data := new T[if createConstant then 1 else length](_ => initValue);
    }

    /** `new XLargeArray(T[] data)`: wraps the caller's Java array without copying it,
      * so later stores are seen through both references. */
    constructor Wrap(arrayType: LargeArrayType, data: array<T>)
      requires data.Length <= MAX_JAVA_ARRAY
      ensures Valid() && !isConstant && this.data == data
      ensures this.arrayType == arrayType && length == data.Length
      ensures Elements() == data[..]
    {
      this.arrayType := arrayType;
      length := data.Length;
      isConstant := false;
      this.data := data;
    }

    /** The heap branch of `get(i)` and of every typed getter: a constant array answers
      * its value for any index; otherwise `(int) i` must address an element. */
    function At(i: int): (r: Result<T>)
      reads this, data
      requires Valid() && IsLong(i)
      ensures 0 <= i < length ==> r == Ok(Elements()[i])
      ensures r.Err? <==> !isConstant && !(0 <= ToInt(i) < length)
      ensures r.Err? ==> r.error == ArrayIndexOutOfBounds
    {
      if isConstant then Ok(data[0])
      else
        var k := ToInt(i);
        if 0 <= k < data.Length then Ok(data[k]) else Err(ArrayIndexOutOfBounds)
    }

    /** `get_safe(i)`: the element at i, and an exception for every index outside
      * [0, length). */
    function AtSafe(i: int): (r: Result<T>)
      reads this, data
      requires Valid() && IsLong(i)
      ensures r == if 0 <= i < length then Ok(Elements()[i]) else Err(ArrayIndexOutOfBounds)
    {
      if i < 0 || i >= length then Err(ArrayIndexOutOfBounds) else At(i)
    }

    /** A typed getter `getX(i)`: the element at i, read by the codec. */
    function Get(i: int, g: Getter, codec: Codec<T>): (r: Result<Scalar>)
      reads this, data
      requires Valid() && IsLong(i)
      ensures 0 <= i < length ==> r == Ok(codec.decode(Elements()[i], g))
      ensures r.Err? ==> r == Err(ArrayIndexOutOfBounds) && !isConstant
    {
      match At(i)
      case Ok(e) => Ok(codec.decode(e, g))
      case Err(x) => Err(x)
    }

    /** `getX_safe(i)`: the typed getter behind a bounds check. */
    function GetSafe(i: int, g: Getter, codec: Codec<T>): (r: Result<Scalar>)
      reads this, data
      requires Valid() && IsLong(i)
      ensures r == if 0 <= i < length then Ok(codec.decode(Elements()[i], g)) else Err(ArrayIndexOutOfBounds)
    {
      if i < 0 || i >= length then Err(ArrayIndexOutOfBounds) else Get(i, g, codec)
    }

    /** Copy-on-write, `allocateMemory(true, getX(0), false); isConstant = false`: a
      * constant array gets a Java array of its own, filled with `refill` of its constant;
      * any other array is left as it is. */
    method Materialise(refill: T -> T)
      requires Valid() && length <= MAX_JAVA_ARRAY
      modifies this
      ensures Valid() && !isConstant
      ensures if old(isConstant) then fresh(data) else data == old(data)
      ensures Elements() == old(Materialised(refill))
    {
      if isConstant {
        var fill := refill(data[0]);
        data := new T[length](_ => fill);
        isConstant := false;
      }
    }

    /** The heap branch of a store: a constant array is first materialised, then
      * `data[(int) i] = v`. */
    method Store(i: int, v: T, refill: T -> T) returns (o: Outcome)
      requires Valid() && IsLong(i) && length <= MAX_JAVA_ARRAY
      modifies this, data
      ensures Valid() && !isConstant
      ensures if old(isConstant) then fresh(data) else data == old(data)
      ensures (o, Elements()) == Stored(old(Materialised(refill)), i, v)
    {
      Materialise(refill);
      var k := ToInt(i);
      if 0 <= k < data.Length {
        data[k] := v;
        o := Done;
      } else {
        o := Thrown(ArrayIndexOutOfBounds);
      }
    }

    /** A typed setter `setX(i, value)`: the codec checks and converts the value before
      * anything is written; a rejected value leaves the array as it was. */
    method Assign(i: int, a: Assignment, codec: Codec<T>) returns (o: Outcome)
      requires Valid() && IsLong(i) && length <= MAX_JAVA_ARRAY
      modifies this, data
      ensures Valid()
      ensures if old(isConstant) && !isConstant then fresh(data) else data == old(data)
      ensures codec.encode(a).Err? ==> o == Thrown(codec.encode(a).error) && Unchanged()
      ensures codec.encode(a).Ok? ==> !isConstant && (o, Elements()) == Stored(old(Materialised(codec.refill)), i, codec.encode(a).value)
    {
      var e := codec.encode(a);
      if e.Err? {
        return Thrown(e.error);
      }
      o := Store(i, e.value, codec.refill);
    }

    /** `setX_safe(i, value)`: the typed setter behind a bounds check. */
    method AssignSafe(i: int, a: Assignment, codec: Codec<T>) returns (o: Outcome)
      requires Valid() && IsLong(i) && length <= MAX_JAVA_ARRAY
      modifies this, data
      ensures Valid()
      ensures if old(isConstant) && !isConstant then fresh(data) else data == old(data)
      ensures !(0 <= i < length) ==> o == Thrown(ArrayIndexOutOfBounds) && Unchanged()
      ensures 0 <= i < length && codec.encode(a).Err? ==> o == Thrown(codec.encode(a).error) && Unchanged()
      ensures 0 <= i < length && codec.encode(a).Ok? ==>
        !isConstant && (o, Elements()) == Stored(old(Materialised(codec.refill)), i, codec.encode(a).value)
    {
      if i < 0 || i >= length {
        return Thrown(ArrayIndexOutOfBounds);
      }
      o := Assign(i, a, codec);
    }

    /** `set(i, value)` for a boxed primitive: the class of the value picks the typed
      * setter; any other object is rejected. */
    method Set(i: int, value: JavaObject, codec: Codec<T>) returns (o: Outcome)
      requires Valid() && IsLong(i) && length <= MAX_JAVA_ARRAY
      modifies this, data
      ensures Valid()
      ensures if old(isConstant) && !isConstant then fresh(data) else data == old(data)
      ensures Unbox(value).Err? ==> o == Thrown(IllegalArgument) && Unchanged()
      ensures Unbox(value).Ok? && codec.encode(Unbox(value).value).Err? ==>
        o == Thrown(codec.encode(Unbox(value).value).error) && Unchanged()
      ensures Unbox(value).Ok? && codec.encode(Unbox(value).value).Ok? ==>
        !isConstant && (o, Elements()) == Stored(old(Materialised(codec.refill)), i, codec.encode(Unbox(value).value).value)
    {
      var a := Unbox(value);
      if a.Err? {
        return Thrown(a.error);
      }
      o := Assign(i, a.value, codec);
    }

    /** `set_safe(i, value)`: the same dispatch onto the `_safe` setters, so an unsupported
      * value is reported before a bad index. */
    method SetSafe(i: int, value: JavaObject, codec: Codec<T>) returns (o: Outcome)
      requires Valid() && IsLong(i) && length <= MAX_JAVA_ARRAY
      modifies this, data
      ensures Valid()
      ensures if old(isConstant) && !isConstant then fresh(data) else data == old(data)
      ensures Unbox(value).Err? ==> o == Thrown(IllegalArgument) && Unchanged()
      ensures Unbox(value).Ok? && !(0 <= i < length) ==> o == Thrown(ArrayIndexOutOfBounds) && Unchanged()
      ensures Unbox(value).Ok? && 0 <= i < length && codec.encode(Unbox(value).value).Err? ==>
        o == Thrown(codec.encode(Unbox(value).value).error) && Unchanged()
      ensures Unbox(value).Ok? && 0 <= i < length && codec.encode(Unbox(value).value).Ok? ==>
        !isConstant && (o, Elements()) == Stored(old(Materialised(codec.refill)), i, codec.encode(Unbox(value).value).value)
    {
      var a := Unbox(value);
      if a.Err? {
        return Thrown(a.error);
      }
      o := AssignSafe(i, a.value, codec);
    }

    /** `setUnsignedByte_safe(i, value)`: its parameter is a signed byte, widened to a
      * short before it reaches `setUnsignedByte`, so 128 to 255 cannot be passed. */
    method SetUnsignedByteSafe(i: int, value: int8, codec: Codec<T>) returns (o: Outcome)
      requires Valid() && IsLong(i) && length <= MAX_JAVA_ARRAY
      modifies this, data
      ensures Valid()
      ensures if old(isConstant) && !isConstant then fresh(data) else data == old(data)
      ensures !(0 <= i < length) ==> o == Thrown(ArrayIndexOutOfBounds) && Unchanged()
      ensures 0 <= i < length && codec.encode(SetUnsignedByte(value)).Err? ==>
        o == Thrown(codec.encode(SetUnsignedByte(value)).error) && Unchanged()
      ensures 0 <= i < length && codec.encode(SetUnsignedByte(value)).Ok? ==>
        !isConstant && (o, Elements()) == Stored(old(Materialised(codec.refill)), i, codec.encode(SetUnsignedByte(value)).value)
    {
      o := AssignSafe(i, SetUnsignedByte(value), codec);
    }

    /** `isLarge()`: whether the elements live in native memory; never on the heap. */
    function IsLarge(): (r: bool)
      ensures !r
    {
      false
    }

    /** `clone()`: a constant array clones to a constant array, any other to a fresh
      * array holding a copy of the elements. */
    method Clone() returns (c: LargeArray<T>)
      requires Valid()
      ensures fresh(c) && fresh(c.data) && c.Valid()
      ensures c.arrayType == arrayType && c.length == length && c.isConstant == isConstant
      ensures c.Elements() == Elements()
    {
      if isConstant {
        c := new LargeArray.Filled(arrayType, length, data[0], true);
      } else {
        var src := data;
        var copy := new T[src.Length](k requires 0 <= k < src.Length reads src => src[k]);
        c := new LargeArray.Wrap(arrayType, copy);
      }
    }

    /** The loop of the strided getters: out[idx++] = conv(element i) for i = start,
      * start + step, ... below end. */
    method FillStrided<U>(out: array<U>, start: int, end: int, step: int, conv: T -> U)
      requires Valid() && out as object != data as object
      requires 0 <= start <= end <= length && 1 <= step
      requires Count(end - start, step) <= out.Length
      modifies out
      ensures out[..Count(end - start, step)] == Map(Picks(Elements(), start, end, step), conv)
      ensures out[Count(end - start, step)..] == old(out[Count(end - start, step)..])
    {
      ghost var s := Elements();
      ghost var picks := Picks(s, start, end, step);
      ghost var n := Count(end - start, step);
      PicksLength(s, start, end, step);
      var i, idx := start, 0;
      while i < end
        invariant start <= i && 0 <= idx <= n
        invariant Picks(s, i, end, step) == picks[idx..]
        invariant forall k :: 0 <= k < idx ==> out[k] == conv(picks[k])
        invariant out[n..] == old(out[n..])
        decreases end - i
      {
        PicksLength(s, i, end, step);
        var e := if isConstant then data[0] else data[i];
        out[idx] := conv(e);
        i, idx := i + step, idx + 1;
      }
      PicksLength(s, i, end, step);
    }

    /** `getXData(a, start, end, step)`: elements start, start + step, ... below end, read
      * through conv, written into a if it is long enough and into a new array otherwise;
      * null when more than LARGEST_SUBARRAY elements would be returned. */
    method StridedData<U>(a: Option<array<U>>, start: int, end: int, step: int, conv: T -> U)
      returns (r: Result<Option<array<U>>>)
      requires Valid()
      requires a.Some? ==> a.value as object != data as object
      modifies if a.Some? then {a.value} else {}
      ensures r.Err? <==> !(0 <= start < length && start <= end <= length && 1 <= step)
      ensures r.Err? ==> r.error == (if !(0 <= start < length && start <= end <= length) then ArrayIndexOutOfBounds else IllegalArgument)
      ensures r.Ok? && r.value.None? <==> r.Ok? && Count(end - start, step) > LARGEST_SUBARRAY
      ensures r.Ok? && r.value.Some? ==>
        var out, n := r.value.value, Count(end - start, step);
        (if a.Some? && n <= a.value.Length then out == a.value else fresh(out)) &&
        n <= out.Length &&
        out[..n] == Map(Picks(Elements(), start, end, step), conv) &&
        (a.Some? && out == a.value ==> out[n..] == old(out[n..]))
    {
      if start < 0 || start >= length {
        return Err(ArrayIndexOutOfBounds);
      }
      if end < 0 || end > length || end < start {
        return Err(ArrayIndexOutOfBounds);
      }
      if step < 1 {
        return Err(IllegalArgument);
      }
      var n := Count(end - start, step);
      if n > LARGEST_SUBARRAY {
        return Ok(None);
      }
      var out: array<U>;
      if a.Some? && a.value.Length >= n {
        out := a.value;
      } else {
        var first := conv(data[0]);
        out := new U[n](_ => first);
      }
      FillStrided(out, start, end, step, conv);
      r := Ok(Some(out));
    }
  }

  /** The constructor `XLargeArray(length, initValue, createConstant)` of every typed
    * array: a negative length is rejected with IllegalArgumentException before anything
    * is allocated. */
  method Create<T>(arrayType: LargeArrayType, length: int64, initValue: T, createConstant: bool)
    returns (r: Result<LargeArray<T>>)
    requires createConstant || length <= MAX_JAVA_ARRAY
    ensures r.Err? <==> length < 0
    ensures r.Err? ==> r.error == IllegalArgument
    ensures r.Ok? ==> fresh(r.value) && fresh(r.value.data) && r.value.Valid()
    ensures r.Ok? ==> r.value.arrayType == arrayType && r.value.length == length && r.value.isConstant == createConstant
    ensures r.Ok? ==> r.value.Elements() == Repeat(initValue, length)
  {
    if length < 0 {
      return Err(IllegalArgument);
    }
    var a := new LargeArray.Filled(arrayType, length, initValue, createConstant);
    r := Ok(a);
  }

  /** The size limit (`maxStringLength`, `maxObjectSize`) the written `clone()` of a
    * string or object array gives its copy: a constant array keeps its own, any other
    * copy is built with `max(1, limit)`. */
  function ClonedLimit(limit: int32, isConstant: bool): (m: int32)
    ensures isConstant || 0 < limit ==> m == limit
    ensures !isConstant && limit <= 0 ==> m == 1
  {
    if isConstant || 1 <= limit then limit else 1
  }

  /** `ceil(d / step)`: how many of start, start + step, ... lie below start + d. */
  function Count(d: int, step: int): (n: nat)
    requires 1 <= step
  {
    if d <= 0 then 0 else (d + step - 1) / step
  }

  /** The elements of s at i, i + step, ... below end. */
  function Picks<T>(s: seq<T>, i: int, end: int, step: int): (r: seq<T>)
    requires 0 <= i && end <= |s| && 1 <= step
    decreases end - i
  {
    if i >= end then [] else [s[i]] + Picks(s, i + step, end, step)
  }

  /** conv applied to each element. */
  function Map<T, U>(s: seq<T>, conv: T -> U): (r: seq<U>)
    ensures |r| == |s|
    ensures forall k :: 0 <= k < |s| ==> r[k] == conv(s[k])
  {
    seq(|s|, k requires 0 <= k < |s| => conv(s[k]))
  }

  /** The strided selection has `ceil((end - i) / step)` elements. */
  lemma {:induction false} PicksLength<T>(s: seq<T>, i: int, end: int, step: int)
    requires 0 <= i && end <= |s| && 1 <= step
    ensures |Picks(s, i, end, step)| == Count(end - i, step)
    decreases end - i
  {
    if i < end {
      PicksLength(s, i + step, end, step);
      var d := end - i;
      ModUnique(d + step - 1, step, 1 + (d - 1) / step, (d - 1) % step);
      if d - step > 0 {
        assert Count(d - step, step) == (d - 1) / step;
      } else {
        ModUnique(d - 1, step, 0, d - 1);
      }
    }
  }

  /** The k-th selected element is the one at i + k * step. */
  lemma {:induction false} PicksAt<T>(s: seq<T>, i: int, end: int, step: int, k: int)
    requires 0 <= i && end <= |s| && 1 <= step
    requires 0 <= k < |Picks(s, i, end, step)|
    ensures i + k * step < end
    ensures Picks(s, i, end, step)[k] == s[i + k * step]
    decreases end - i
  {
    if k > 0 {
      PicksAt(s, i + step, end, step, k - 1);
      assert i + step + (k - 1) * step == i + k * step;
    }
  }

  /** `equals` between two heap arrays of one element type: same type, same length,
    * and the same element at every index. */
  method Equals<T(==)>(x: LargeArray<T>, y: LargeArray<T>) returns (b: bool)
    requires x.Valid() && y.Valid()
    ensures b <==> x.arrayType == y.arrayType && x.length == y.length && x.Elements() == y.Elements()
  {
    if x.arrayType != y.arrayType || x.length != y.length {
      return false;
    }
    var i := 0;
    while i < x.length
      invariant 0 <= i <= x.length
      invariant x.Elements()[..i] == y.Elements()[..i]
    {
      var p := if x.isConstant then x.data[0] else x.data[i];
      var q := if y.isConstant then y.data[0] else y.data[i];
      if p != q {
        return false;
      }
      i := i + 1;
    }
    b := true;
  }

  /** The process-wide setting `maxSizeOf32bitArray`: arrays longer than it are stored
    * off the heap. */
  class SizeLimit {
    var maxSizeOf32bitArray: int

    ghost predicate Valid()
      reads this
    {
      0 <= maxSizeOf32bitArray && IsInt(maxSizeOf32bitArray)
    }

    constructor ()
      ensures Valid() && maxSizeOf32bitArray == 0x4000_0000
    {
      maxSizeOf32bitArray := 0x4000_0000;
    }

    /** `getMaxSizeOf32bitArray()`. */
    function Get(): (r: int)
      reads this
      requires Valid()
      ensures 0 <= r && IsInt(r)
    {
      maxSizeOf32bitArray
    }

    /** `setMaxSizeOf32bitArray(index)`: a negative index is rejected and changes nothing. */
    method Set(index: int32) returns (o: Outcome)
      requires Valid()
      modifies this
      ensures Valid()
      ensures o.Thrown? <==> index < 0
      ensures o.Thrown? ==> o.error == IllegalArgument && maxSizeOf32bitArray == old(maxSizeOf32bitArray)
      ensures o.Done? ==> Get() == index
    {
      if index < 0 {
        return Thrown(IllegalArgument);
      }
      maxSizeOf32bitArray := index;
      o := Done;
    }
  }

  /** `(int) (v ^ (v >>> 32))` for a long v: the two 32-bit halves xor-ed. */
  function LongHash(v: int64): (h: int32)
  {
    var bits := (if v < 0 then v + LONG_MODULUS else v) as bv64;
    ToInt(((bits ^ (bits >> 32)) & 0xffff_ffff) as int)
  }

  /** `hashCode(quality)` of the base class on the heap (no parent): the argument is
    * checked, then type, length and constancy are folded in with 32-bit wrap-around.
    * `typeHash` is the identity hash of the type constant. */
  function HashCode(quality: real, typeHash: int32, length: int64, isConstant: bool): (r: Result<int32>)
    ensures r.Err? <==> quality < 0.0 || quality > 1.0
    ensures r.Err? ==> r.error == IllegalArgument
  {
    if quality < 0.0 || quality > 1.0 then Err(IllegalArgument)
    else
      var f0 := 7;
      var f1 := ToInt(29 * f0 + typeHash);
      var f2 := ToInt(29 * f1 + LongHash(length));
      var f3 := ToInt(29 * f2 + (if isConstant then 1 else 0));
      Ok(ToInt(29 * f3 + 0))
  }

  /** `hashCode()` is `hashCode(1f)`, and in the base class every admissible quality
    * gives that same value. */
  lemma HashCodeIgnoresQuality(quality: real, typeHash: int32, length: int64, isConstant: bool)
    requires 0.0 <= quality <= 1.0
    ensures HashCode(quality, typeHash, length, isConstant) == HashCode(1.0, typeHash, length, isConstant)
    ensures HashCode(1.0, typeHash, length, isConstant).Ok?
  {}
}
