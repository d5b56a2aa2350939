// ObjectLargeArray: elements are Java objects of one class, fixed by the first
// non-null value the array receives (`clazz`). `set` refuses null, a first value
// that is not Serializable and any later value of another class; the typed
// getters and setters are not supported. Two places of the heap code depart
// from what the class promises, and both are recorded here beside the intended
// behaviour: the heap allocation drops the initial value, and `clone()` fails
// on null elements and changes `maxObjectSize`.
module ObjectLargeArrays {
  import opened Wrappers
  import opened JavaInts
  import opened JavaValues
  import opened LargeArrayTypes
  import opened LargeArrays

  /** Every non-null element has class clazz (so there is none while clazz is null). */
  predicate OfClass(s: seq<Option<JavaObject>>, clazz: Option<string>) {
    forall k :: 0 <= k < |s| && s[k].Some? ==> clazz == Some(ClassOf(s[k].value))
  }

  /** Whether `set` accepts o given the element class so far: not null, and either the
    * first value (which must be Serializable) or one of the same class. */
  predicate Admits(o: Option<JavaObject>, clazz: Option<string>) {
    o.Some? && if clazz.None? then IsSerializable(o.value) else ClassOf(o.value) == clazz.value
  }

  /** The typed setters all throw UnsupportedOperationException. */
  function Encode(a: Assignment): (r: Result<Option<JavaObject>>)
    ensures r == Err(UnsupportedOperation)
  {
    Err(UnsupportedOperation)
  }

  /** Materialising a constant array as written: the heap branch of
    * `allocateMemory(true, get(0), false)` allocates `new Object[length]` and never uses
    * its initial value, so every element becomes null. */
  function Null(o: Option<JavaObject>): (r: Option<JavaObject>)
    ensures r.None?
  {
    None
  }

  /** A heap object array: its elements, `maxObjectSize` and the element class. */
  class ObjectLargeArray {
    const store: LargeArray<Option<JavaObject>>
    const maxObjectSize: int32
    var clazz: Option<string>

    ghost predicate Valid()
      reads this, store, store.data
    {
      store.Valid() && store.arrayType == OBJECT && OfClass(store.Elements(), clazz)
    }

    constructor Of(store: LargeArray<Option<JavaObject>>, maxObjectSize: int32, clazz: Option<string>)
      requires store.Valid() && store.arrayType == OBJECT && OfClass(store.Elements(), clazz)
      ensures Valid() && this.store == store && this.maxObjectSize == maxObjectSize && this.clazz == clazz
    {
      this.store := store;
      this.maxObjectSize := maxObjectSize;
      this.clazz := clazz;
    }

    /** `get(i)`. */
    function Get(i: int64): (r: Result<Option<JavaObject>>)
      reads this, store, store.data
      requires Valid()
      ensures 0 <= i < store.length ==> r == Ok(store.Elements()[i])
      ensures 0 <= i < store.length && r.value.Some? ==> clazz == Some(ClassOf(r.value.value))
      ensures r.Err? ==> r == Err(ArrayIndexOutOfBounds) && !store.isConstant
    {
      store.At(i)
    }

    /** `getBoolean(i)` ... `getDouble(i)`: not supported. */
    function GetTyped(i: int64, g: Getter): (r: Result<Scalar>)
      ensures r.Err? && r.error == UnsupportedOperation
    {
      Err(UnsupportedOperation)
    }

    /** `set(i, o)` materialising a constant array with `refill`: the value is checked
      * against the element class first, and the first accepted value fixes that class
      * even if the store then fails. */
    method SetWith(i: int64, o: Option<JavaObject>, refill: Option<JavaObject> -> Option<JavaObject>)
      returns (out: Outcome)
      requires Valid() && store.length <= MAX_JAVA_ARRAY
      requires forall x :: refill(x) == x || refill(x).None?
      modifies this, store, store.data
      ensures Valid()
      ensures if old(store.isConstant) && !store.isConstant then fresh(store.data) else store.data == old(store.data)
      ensures !Admits(o, old(clazz)) ==> out == Thrown(IllegalArgument) && clazz == old(clazz) && store.Unchanged()
      ensures Admits(o, old(clazz)) ==> clazz == Some(ClassOf(o.value)) && !store.isConstant
      ensures Admits(o, old(clazz)) ==> (out, store.Elements()) == Stored(old(store.Materialised(refill)), i, o)
    {
      if !Admits(o, clazz) {
        return Thrown(IllegalArgument);
      }
      ghost var before := store.Materialised(refill);
      assert OfClass(before, clazz);
      clazz := Some(ClassOf(o.value));
      out := store.Store(i, o, refill);
    }

    /** `set(i, o)` with the materialisation intended for a constant array: afterwards
      * element i is o and every other element is as before. */
    method Set(i: int64, o: Option<JavaObject>) returns (out: Outcome)
      requires Valid() && store.length <= MAX_JAVA_ARRAY
      modifies this, store, store.data
      ensures Valid()
      ensures if old(store.isConstant) && !store.isConstant then fresh(store.data) else store.data == old(store.data)
      ensures !Admits(o, old(clazz)) ==> out == Thrown(IllegalArgument) && clazz == old(clazz) && store.Unchanged()
      ensures Admits(o, old(clazz)) ==> clazz == Some(ClassOf(o.value)) && !store.isConstant
      ensures Admits(o, old(clazz)) ==> (out, store.Elements()) == Stored(old(store.Elements()), i, o)
    {
      out := SetWith(i, o, Identity);
    }

    /** `set(i, o)` as written: on a constant array every element other than i becomes
      * null. */
    method SetAsWritten(i: int64, o: Option<JavaObject>) returns (out: Outcome)
      requires Valid() && store.length <= MAX_JAVA_ARRAY
      modifies this, store, store.data
      ensures Valid()
      ensures if old(store.isConstant) && !store.isConstant then fresh(store.data) else store.data == old(store.data)
      ensures !Admits(o, old(clazz)) ==> out == Thrown(IllegalArgument) && clazz == old(clazz) && store.Unchanged()
      ensures Admits(o, old(clazz)) && !old(store.isConstant) ==>
        (out, store.Elements()) == Stored(old(store.Elements()), i, o)
      ensures Admits(o, old(clazz)) && old(store.isConstant) ==>
        (out, store.Elements()) == Stored(Repeat(None, store.length), i, o)
    {
      out := SetWith(i, o, Null);
    }

    /** `set_safe(i, o)`: `set` behind a bounds check. */
    method SetSafe(i: int64, o: Option<JavaObject>) returns (out: Outcome)
      requires Valid() && store.length <= MAX_JAVA_ARRAY
      modifies this, store, store.data
      ensures Valid()
      ensures if old(store.isConstant) && !store.isConstant then fresh(store.data) else store.data == old(store.data)
      ensures !(0 <= i < store.length) ==> out == Thrown(ArrayIndexOutOfBounds) && clazz == old(clazz) && store.Unchanged()
      ensures 0 <= i < store.length && !Admits(o, old(clazz)) ==>
        out == Thrown(IllegalArgument) && clazz == old(clazz) && store.Unchanged()
      ensures 0 <= i < store.length && Admits(o, old(clazz)) ==>
        out == Done && store.Elements() == old(store.Elements())[i := o]
    {
      if i < 0 || i >= store.length {
        return Thrown(ArrayIndexOutOfBounds);
      }
      out := Set(i, o);
    }

    /** `equals`: same length, `maxObjectSize`, element class and elements. */
    ghost predicate Same(that: ObjectLargeArray)
      reads this, store, store.data, that, that.store, that.store.data
      requires Valid() && that.Valid()
    {
      maxObjectSize == that.maxObjectSize && clazz == that.clazz &&
      store.length == that.store.length && store.Elements() == that.store.Elements()
    }

    method Equals(that: ObjectLargeArray) returns (b: bool)
      requires Valid() && that.Valid()
      ensures b <==> Same(that)
    {
      if maxObjectSize != that.maxObjectSize || clazz != that.clazz {
        return false;
      }
      b := LargeArrays.Equals(store, that.store);
    }

    /** `clone()` as written: a constant array is rebuilt as a constant; any other is
      * copied by `arraycopy` into `new ObjectLargeArray(length, max(1, maxObjectSize))`
      * through `set`, which throws IllegalArgumentException at the first null element, and
      * the copy gets `max(1, maxObjectSize)`. */
    method CloneAsWritten() returns (r: Result<ObjectLargeArray>)
      requires Valid()
      ensures !store.isConstant && None in store.Elements() ==> r == Err(IllegalArgument)
      ensures r.Ok? ==> fresh(r.value) && fresh(r.value.store) && r.value.Valid()
      ensures r.Ok? ==> r.value.store.Elements() == store.Elements() && r.value.clazz == clazz
      ensures r.Ok? ==> r.value.maxObjectSize == ClonedLimit(maxObjectSize, store.isConstant)
      ensures store.isConstant || None !in store.Elements() ==> r.Ok?
      ensures r.Ok? && !store.isConstant && maxObjectSize <= 0 ==> !Same(r.value)
    {
      if store.isConstant {
        var s := store.Clone();
        var c := new ObjectLargeArray.Of(s, maxObjectSize, clazz);
        return Ok(c);
      }
      var src := store.data;
      var copy := new Option<JavaObject>[src.Length](_ => None);
      var i := 0;
      while i < src.Length
        invariant 0 <= i <= src.Length
        invariant copy[..i] == src[..i]
        invariant None !in src[..i]
      {
        if src[i].None? {
          return Err(IllegalArgument);
        }
        copy[i] := src[i];
        i := i + 1;
      }
      assert src[..i] == src[..];
      var s := new LargeArray.Wrap(OBJECT, copy);
      var c := new ObjectLargeArray.Of(s, ClonedLimit(maxObjectSize, false), clazz);
      r := Ok(c);
    }

    /** `clone()` returning a deep copy: equal to the original. */
    method CloneCorrected() returns (c: ObjectLargeArray)
      requires Valid()
      ensures fresh(c) && fresh(c.store) && c.Valid()
      ensures c.store.isConstant == store.isConstant
      ensures Same(c)
    {
      var s := store.Clone();
      c := new ObjectLargeArray.Of(s, maxObjectSize, clazz);
    }
  }

  /** After the written materialisation a constant array keeps only the element just
    * set: `set(0, y)` on the constant array {x, x} leaves {y, null}, not {y, x}. */
  lemma {:induction false} MaterialisationDropsConstant(x: JavaObject, y: JavaObject)
    ensures Stored(Repeat(None, 2), 0, Some(y)).1 == [Some(y), None]
    ensures Stored(Repeat(Some(x), 2), 0, Some(y)).1 == [Some(y), Some(x)]
  {
    assert ToInt(0) == 0;
    assert Repeat(None, 2)[0 := Some(y)] == [Some(y), None];
    assert Repeat(Some(x), 2)[0 := Some(y)] == [Some(y), Some(x)];
  }

  /** `new ObjectLargeArray(length, maxObjectSize)`: every element is null. */
  method NewEmpty(length: int64, maxObjectSize: int32) returns (r: Result<ObjectLargeArray>)
    requires length <= MAX_JAVA_ARRAY
    ensures r.Err? <==> length < 0 || maxObjectSize <= 0
    ensures r.Err? ==> r.error == IllegalArgument
    ensures r.Ok? ==> fresh(r.value) && r.value.Valid() && !r.value.store.isConstant && r.value.clazz.None?
    ensures r.Ok? ==> r.value.maxObjectSize == maxObjectSize && r.value.store.Elements() == Repeat(None, length)
  {
    if length < 0 || maxObjectSize <= 0 {
      return Err(IllegalArgument);
    }
    var s := new LargeArray.Filled(OBJECT, length, None, false);
    var a := new ObjectLargeArray.Of(s, maxObjectSize, None);
    r := Ok(a);
  }

  /** `new ObjectLargeArray(length, maxObjectSize, initValue, createConstant)` with the
    * elements made by `fill`: the length must not be negative, and a non-null initial
    * value must be Serializable; it fixes the element class. */
  method NewFilledWith(length: int64, maxObjectSize: int32, initValue: Option<JavaObject>, createConstant: bool,
                       fill: Option<JavaObject> -> Option<JavaObject>)
    returns (r: Result<ObjectLargeArray>)
    requires createConstant || length <= MAX_JAVA_ARRAY
    requires forall x :: fill(x) == x || fill(x).None?
    ensures r.Err? <==> length < 0 || (initValue.Some? && !IsSerializable(initValue.value))
    ensures r.Err? ==> r.error == IllegalArgument
    ensures r.Ok? ==> fresh(r.value) && r.value.Valid() && r.value.store.isConstant == createConstant
    ensures r.Ok? ==> r.value.maxObjectSize == maxObjectSize && r.value.clazz == (if initValue.Some? then Some(ClassOf(initValue.value)) else None)
    ensures r.Ok? ==> r.value.store.Elements() == Repeat(if createConstant then initValue else fill(initValue), length)
  {
    if length < 0 || (initValue.Some? && !IsSerializable(initValue.value)) {
      return Err(IllegalArgument);
    }
    var clazz := if initValue.Some? then Some(ClassOf(initValue.value)) else None;
    var s := new LargeArray.Filled(OBJECT, length, if createConstant then initValue else fill(initValue), createConstant);
    var a := new ObjectLargeArray.Of(s, maxObjectSize, clazz);
    r := Ok(a);
  }

  /** The constructor as written: a heap array that is not constant starts all null,
    * whatever the initial value. */
  method NewFilledAsWritten(length: int64, maxObjectSize: int32, initValue: Option<JavaObject>, createConstant: bool)
    returns (r: Result<ObjectLargeArray>)
    requires createConstant || length <= MAX_JAVA_ARRAY
    ensures r.Err? <==> length < 0 || (initValue.Some? && !IsSerializable(initValue.value))
    ensures r.Err? ==> r.error == IllegalArgument
    ensures r.Ok? ==> fresh(r.value) && r.value.Valid() && r.value.store.isConstant == createConstant
    ensures r.Ok? && createConstant ==> r.value.store.Elements() == Repeat(initValue, length)
    ensures r.Ok? && !createConstant ==> r.value.store.Elements() == Repeat(None, length)
  {
    r := NewFilledWith(length, maxObjectSize, initValue, createConstant, Null);
  }

  /** The constructor as documented: every element is the initial value. */
  method NewFilled(length: int64, maxObjectSize: int32, initValue: Option<JavaObject>, createConstant: bool)
    returns (r: Result<ObjectLargeArray>)
    requires createConstant || length <= MAX_JAVA_ARRAY
    ensures r.Err? <==> length < 0 || (initValue.Some? && !IsSerializable(initValue.value))
    ensures r.Err? ==> r.error == IllegalArgument
    ensures r.Ok? ==> fresh(r.value) && r.value.Valid() && r.value.store.isConstant == createConstant
    ensures r.Ok? ==> r.value.store.Elements() == Repeat(initValue, length)
    ensures r.Ok? ==> forall k :: 0 <= k < length ==> r.value.Get(k) == Ok(initValue)
  {
    r := NewFilledWith(length, maxObjectSize, initValue, createConstant, Identity);
  }

  /** What `new ObjectLargeArray(Object[] data)` accepts: no null element, a first element
    * that is Serializable, and one class for all. */
  predicate Uniform(s: seq<Option<JavaObject>>) {
    None !in s &&
    (0 < |s| ==> IsSerializable(s[0].value) && forall k :: 0 <= k < |s| ==> ClassOf(s[k].value) == ClassOf(s[0].value))
  }

  /** `new ObjectLargeArray(Object[] data)`: wraps data once it has checked it. */
  method FromObjects(data: array<Option<JavaObject>>) returns (r: Result<ObjectLargeArray>)
    requires data.Length <= MAX_JAVA_ARRAY
    ensures r.Err? <==> !Uniform(data[..])
    ensures r.Err? ==> r.error == IllegalArgument
    ensures r.Ok? ==> fresh(r.value) && r.value.Valid() && r.value.store.data == data && r.value.maxObjectSize == 0
    ensures r.Ok? ==> r.value.store.Elements() == data[..]
    ensures r.Ok? ==> r.value.clazz == if data.Length == 0 then None else Some(ClassOf(data[0].value))
  {
    var clazz: Option<string> := None;
    if data.Length > 0 && data[0].Some? {
      if !IsSerializable(data[0].value) {
        return Err(IllegalArgument);
      }
      clazz := Some(ClassOf(data[0].value));
    }
    var i := 0;
    while i < data.Length
      invariant 0 <= i <= data.Length
      invariant None !in data[..i]
      invariant OfClass(data[..i], clazz)
      invariant 0 < i ==> clazz == Some(ClassOf(data[0].value))
    {
      if data[i].None? || Some(ClassOf(data[i].value)) != clazz {
        return Err(IllegalArgument);
      }
      i := i + 1;
    }
    assert data[..i] == data[..];
    var s := new LargeArray.Wrap(OBJECT, data);
    var a := new ObjectLargeArray.Of(s, 0, clazz);
    r := Ok(a);
  }
}
