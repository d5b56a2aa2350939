// StringLargeArray: elements are strings or null. The numeric getters read the
// LENGTH of the string (0 for null); the typed setters store the decimal (or
// boolean) text of their argument through `set(i, Object)`, which accepts null
// and strings only. `maxStringLength` bounds the elements only in native memory,
// but it takes part in `equals`.
module StringLargeArrays {
  import opened Wrappers
  import opened JavaInts
  import opened JavaValues
  import opened LargeArrayTypes
  import opened LargeArrays

  /** `String.length()`: the number of UTF-16 code units, so a character above U+FFFF,
    * stored as a surrogate pair, counts twice and any other character once. */
  function Utf16Length(s: string): (n: nat)
    ensures |s| <= n <= 2 * |s|
    ensures n == |s| <==> forall k :: 0 <= k < |s| ==> s[k] as int <= 0xFFFF
  {
    if |s| == 0 then 0
    else Utf16Length(s[..|s| - 1]) + (if s[|s| - 1] as int > 0xFFFF then 2 else 1)
  }

  /** The length of an element as the getters read it: 0 for null. */
  function TextLength(s: Option<string>): (n: nat)
    ensures n == 0 <==> s.None? || s.value == ""
    ensures s.Some? ==> |s.value| <= n <= 2 * |s.value|
  {
    if s.Some? then Utf16Length(s.value) else 0
  }

  /** One character outside the Basic Multilingual Plane is two code units long. */
  lemma SurrogatePairCountsTwice()
    ensures TextLength(Some("\U{1F600}")) == 2
    ensures TextLength(Some("abc")) == 3
  {
  }

  /** The typed setters: `setBoolean` stores "true" or "false", the integer setters the
    * decimal text of their argument (`setUnsignedByte` is `setShort`), and `setFloat` and
    * `setDouble` `Float.toString` and `Double.toString` of theirs, given here by
    * `format`. They never store null, and the decimal text reads back as the number. */
  function Encode(a: Assignment, format: real -> string): (r: Result<Option<string>>)
    ensures r.Ok? && r.value.Some?
    ensures a.SetBoolean? ==> r.value.value == BooleanString(a.boolValue)
    ensures IntegralArgument(a).Some? && !a.SetBoolean? ==> DecimalValue(r.value.value) == Some(IntegralArgument(a).value)
  {
    match a
    case SetBoolean(b) => Ok(Some(BooleanString(b)))
    case SetByte(x) => DecimalRoundTrip(x); Ok(Some(DecimalString(x)))
    case SetUnsignedByte(x) => DecimalRoundTrip(x); Ok(Some(DecimalString(x)))
    case SetShort(x) => DecimalRoundTrip(x); Ok(Some(DecimalString(x)))
    case SetInt(x) => DecimalRoundTrip(x); Ok(Some(DecimalString(x)))
    case SetLong(x) => DecimalRoundTrip(x); Ok(Some(DecimalString(x)))
    case SetFloat(r) => Ok(Some(format(r)))
    case SetDouble(r) => Ok(Some(format(r)))
  }

  /** The getters: `getBoolean` is true for a non-empty string, the others return the
    * string's length in UTF-16 code units (an int: a Java string is shorter than 2^31), narrowed for `getByte` and `getShort` and masked
    * for `getUnsignedByte`. */
  function Decode(s: Option<string>, g: Getter): (v: Scalar)
    ensures Returns(g, v)
    ensures g == GetBoolean ==> v == Bool(TextLength(s) != 0)
    ensures IsInt(TextLength(s)) && g in {GetInt, GetLong, GetFloat, GetDouble} ==> ScalarValue(v) == TextLength(s) as real
    ensures IsInt(TextLength(s)) && g == GetUnsignedByte ==> v.x == TextLength(s) % BYTE_MODULUS
    ensures IsInt(TextLength(s)) && g == GetShort ==> v.x % SHORT_MODULUS == TextLength(s) % SHORT_MODULUS
    ensures IsInt(TextLength(s)) && g == GetByte ==> v.x % BYTE_MODULUS == TextLength(s) % BYTE_MODULUS
  {
    var n := ToInt(TextLength(s));
    match g
    case GetBoolean => Bool(TextLength(s) != 0)
    case GetByte => Integral(ToByte(n))
    case GetUnsignedByte => Integral(UnsignedByte(n))
    case GetShort => Integral(ToShort(n))
    case GetInt => Integral(n)
    case GetLong => Integral(n)
    case GetFloat => Floating(n as real)
    case GetDouble => Floating(n as real)
  }

  function Codec(format: real -> string): Codec<Option<string>> {
    LargeArrays.Codec((a: Assignment) => Encode(a, format), Decode, Identity)
  }

  /** A number stored through `setInt` reads back through `getInt` as the number of
    * characters of its decimal text, not as the number. */
  lemma {:induction false} IntReadsAsLength(v: int32, format: real -> string)
    ensures Decode(Encode(SetInt(v), format).value, GetInt) == Integral(|DecimalString(v)|)
  {
    DigitsShort(v);
    assert Utf16Length(DecimalString(v)) == |DecimalString(v)|;
  }

  /** For example `setInt(i, 100)` then `getInt(i)` gives 3. */
  lemma {:induction false} HundredReadsAsThree(format: real -> string)
    ensures Decode(Encode(SetInt(100), format).value, GetInt) == Integral(3)
  {
    assert Digits(1) == "1";
    assert Digits(10) == Digits(1) + ['0'];
    assert Digits(100) == Digits(10) + ['0'];
  }

  /** The decimal text of an int has at most 11 characters. */
  lemma {:induction false} DigitsShort(v: int32)
    ensures |DecimalString(v)| <= 11
  {
    var n: nat := if v < 0 then -(v as int) else v as int;
    assert Power10(10) == 10_000_000_000;
    DigitsBound(n, 10);
  }

  /** A number below 10^k has at most k digits. */
  lemma {:induction false} DigitsBound(n: nat, k: nat)
    requires n < Power10(k) && 1 <= k
    ensures |Digits(n)| <= k
    decreases k
  {
    if n >= 10 {
      assert 2 <= k;
      assert Power10(k) == 10 * Power10(k - 1);
      DigitsBound(n / 10, k - 1);
    }
  }

  function Power10(k: nat): nat {
    if k == 0 then 1 else 10 * Power10(k - 1)
  }

  /** A heap string array and its `maxStringLength`. */
  class StringLargeArray {
    const store: LargeArray<Option<string>>
    const maxStringLength: int32

    ghost predicate Valid()
      reads this, store
    {
      store.Valid() && store.arrayType == STRING
    }

    constructor Of(store: LargeArray<Option<string>>, maxStringLength: int32)
      requires store.Valid() && store.arrayType == STRING
      ensures Valid() && this.store == store && this.maxStringLength == maxStringLength
    {
      this.store := store;
      this.maxStringLength := maxStringLength;
    }

    /** `get(i)`. */
    function Get(i: int64): (r: Result<Option<string>>)
      reads this, store, store.data
      requires Valid()
      ensures 0 <= i < store.length ==> r == Ok(store.Elements()[i])
      ensures r.Err? ==> r == Err(ArrayIndexOutOfBounds) && !store.isConstant
    {
      store.At(i)
    }

    /** `set(i, o)`: null is stored as is, except into a constant array, which refuses
      * it with IllegalAccessError before materialising; a string is stored, materialising
      * a constant array first; any other object is rejected. */
    method Set(i: int64, o: Option<JavaObject>) returns (out: Outcome)
      requires Valid() && store.length <= MAX_JAVA_ARRAY
      modifies store, store.data
      ensures Valid()
      ensures if old(store.isConstant) && !store.isConstant then fresh(store.data) else store.data == old(store.data)
      ensures o.None? && old(store.isConstant) ==> out == Thrown(IllegalAccess) && store.Unchanged()
      ensures o.None? && !old(store.isConstant) ==> (out, store.Elements()) == Stored(old(store.Elements()), i, None)
      ensures o.Some? && !o.value.Str? ==> out == Thrown(IllegalArgument) && store.Unchanged()
      ensures o.Some? && o.value.Str? ==>
        !store.isConstant && (out, store.Elements()) == Stored(old(store.Elements()), i, Some(o.value.s))
    {
      if o.None? {
        if store.isConstant {
          return Thrown(IllegalAccess);
        }
        out := store.Store(i, None, Identity);
      } else if !o.value.Str? {
        out := Thrown(IllegalArgument);
      } else {
        out := store.Store(i, Some(o.value.s), Identity);
      }
    }

    /** `set_safe(i, o)`: `set` behind a bounds check. */
    method SetSafe(i: int64, o: Option<JavaObject>) returns (out: Outcome)
      requires Valid() && store.length <= MAX_JAVA_ARRAY
      modifies store, store.data
      ensures Valid()
      ensures if old(store.isConstant) && !store.isConstant then fresh(store.data) else store.data == old(store.data)
      ensures !(0 <= i < store.length) ==> out == Thrown(ArrayIndexOutOfBounds) && store.Unchanged()
      ensures 0 <= i < store.length && o.None? && old(store.isConstant) ==> out == Thrown(IllegalAccess) && store.Unchanged()
      ensures 0 <= i < store.length && o.Some? && !o.value.Str? ==> out == Thrown(IllegalArgument) && store.Unchanged()
      ensures 0 <= i < store.length && ((o.Some? && o.value.Str?) || (o.None? && !old(store.isConstant))) ==>
        out == Done && store.Elements() == old(store.Elements())[i := if o.Some? then Some(o.value.s) else None]
    {
      if i < 0 || i >= store.length {
        return Thrown(ArrayIndexOutOfBounds);
      }
      out := Set(i, o);
    }

    /** `equals`: same length, same `maxStringLength` and equal elements. */
    ghost predicate Same(that: StringLargeArray)
      reads this, store, store.data, that, that.store, that.store.data
      requires Valid() && that.Valid()
    {
      maxStringLength == that.maxStringLength && store.length == that.store.length &&
      store.Elements() == that.store.Elements()
    }

    method Equals(that: StringLargeArray) returns (b: bool)
      requires Valid() && that.Valid()
      ensures b <==> Same(that)
    {
      if maxStringLength != that.maxStringLength {
        return false;
      }
      b := LargeArrays.Equals(store, that.store);
    }

    /** `clone()` as written: a constant array keeps its `maxStringLength`, but any other
      * is copied into `new StringLargeArray(length, max(1, maxStringLength), false)`, so
      * an array whose `maxStringLength` is not positive, which is every array wrapped
      * from a `String[]`, clones to an array it does not equal. */
    method CloneAsWritten() returns (c: StringLargeArray)
      requires Valid()
      ensures fresh(c) && fresh(c.store) && c.Valid()
      ensures c.store.isConstant == store.isConstant && c.store.Elements() == store.Elements()
      ensures c.maxStringLength == ClonedLimit(maxStringLength, store.isConstant)
      ensures !store.isConstant && maxStringLength <= 0 ==> !Same(c)
    {
      var s := store.Clone();
      c := new StringLargeArray.Of(s, ClonedLimit(maxStringLength, store.isConstant));
    }

    /** `clone()` returning a deep copy: equal to the original. */
    method CloneCorrected() returns (c: StringLargeArray)
      requires Valid()
      ensures fresh(c) && fresh(c.store) && c.Valid()
      ensures c.store.isConstant == store.isConstant
      ensures Same(c)
    {
      var s := store.Clone();
      c := new StringLargeArray.Of(s, maxStringLength);
    }
  }

  /** `new StringLargeArray(length, maxStringLength)`: both must be sensible; every
    * element is null. */
  method NewEmpty(length: int64, maxStringLength: int32) returns (r: Result<StringLargeArray>)
    requires length <= MAX_JAVA_ARRAY
    ensures r.Err? <==> length < 0 || maxStringLength <= 0
    ensures r.Err? ==> r.error == IllegalArgument
    ensures r.Ok? ==> fresh(r.value) && r.value.Valid() && !r.value.store.isConstant
    ensures r.Ok? ==> r.value.maxStringLength == maxStringLength && r.value.store.Elements() == Repeat(None, length)
  {
    if length < 0 || maxStringLength <= 0 {
      return Err(IllegalArgument);
    }
    var s := new LargeArray.Filled(STRING, length, None, false);
    var a := new StringLargeArray.Of(s, maxStringLength);
    r := Ok(a);
  }

  /** `new StringLargeArray(length, maxStringLength, initValue, createConstant)`: only the
    * length is checked. */
  method NewFilled(length: int64, maxStringLength: int32, initValue: Option<string>, createConstant: bool)
    returns (r: Result<StringLargeArray>)
    requires createConstant || length <= MAX_JAVA_ARRAY
    ensures r.Err? <==> length < 0
    ensures r.Err? ==> r.error == IllegalArgument
    ensures r.Ok? ==> fresh(r.value) && r.value.Valid() && r.value.store.isConstant == createConstant
    ensures r.Ok? ==> r.value.maxStringLength == maxStringLength && r.value.store.Elements() == Repeat(initValue, length)
  {
    if length < 0 {
      return Err(IllegalArgument);
    }
    var s := new LargeArray.Filled(STRING, length, initValue, createConstant);
    var a := new StringLargeArray.Of(s, maxStringLength);
    r := Ok(a);
  }

  /** `new StringLargeArray(String[] data)`: wraps data; `maxStringLength` keeps its
    * default 0. */
  method FromStrings(data: array<Option<string>>) returns (r: StringLargeArray)
    requires data.Length <= MAX_JAVA_ARRAY
    ensures fresh(r) && r.Valid() && !r.store.isConstant && r.store.data == data
    ensures r.maxStringLength == 0 && r.store.Elements() == data[..]
  {
    var s := new LargeArray.Wrap(STRING, data);
    r := new StringLargeArray.Of(s, 0);
  }
}
