// LargeArrayUtils, the copying half: the bounds-checked `arraycopy` between
// two large arrays of one type, from a Java array into a large array and from
// a large array into a Java array, on the sequential path. Every overload
// makes the same checks in the same order before anything is copied, then
// walks the range element by element through the destination's setter, so a
// value the setter rejects stops the copy part way.
module LargeArrayCopies {
  import opened Wrappers
  import opened JavaInts
  import opened JavaValues
  import opened LargeArrayTypes
  import opened LargeArrays
  import LogicLargeArrays
  import UnsignedByteLargeArrays
  import ShortLargeArrays
  import LongLargeArrays
  import DoubleLargeArrays
  import opened ComplexLargeArrays

  /** `pos` and the `count` values after it lie inside a sequence of `size` values; an
    * `arraycopy` throws ArrayIndexOutOfBoundsException when `pos < 0 || pos + count > size`. */
  predicate Fits(pos: int, count: int, size: int) {
    0 <= pos && pos + count <= size
  }

  /** The checks every `arraycopy` overload makes before copying, in their order: a
    * negative length, then the source range, then the destination range, then a constant
    * destination (copies into a Java array have no such destination). */
  function CopyCheck(length: int, srcFits: bool, destFits: bool, destConstant: bool): (o: Outcome)
    ensures o.Done? <==> 0 <= length && srcFits && destFits && !destConstant
    ensures length < 0 ==> o == Thrown(IllegalArgument)
    ensures 0 <= length && !(srcFits && destFits) ==> o == Thrown(ArrayIndexOutOfBounds)
    ensures 0 <= length && srcFits && destFits && destConstant ==> o == Thrown(IllegalArgument)
  {
    if length < 0 then Thrown(IllegalArgument)
    else if !srcFits then Thrown(ArrayIndexOutOfBounds)
    else if !destFits then Thrown(ArrayIndexOutOfBounds)
    else if destConstant then Thrown(IllegalArgument)
    else Done
  }

  /** s with the values t written from index pos on. */
  function Splice<T>(s: seq<T>, pos: int, t: seq<T>): (r: seq<T>)
    requires 0 <= pos && pos + |t| <= |s|
    ensures |r| == |s|
    ensures forall k :: 0 <= k < |t| ==> r[pos + k] == t[k]
    ensures forall k :: 0 <= k < |s| && !(pos <= k < pos + |t|) ==> r[k] == s[k]
  {
    s[..pos] + t + s[pos + |t|..]
  }

  /** Writing one more value after a spliced range extends the range. */
  lemma {:induction false} SpliceSnoc<T>(s: seq<T>, pos: int, t: seq<T>, x: T)
    requires 0 <= pos && pos + |t| < |s|
    ensures Splice(s, pos, t)[pos + |t| := x] == Splice(s, pos, t + [x])
  {
    var a, b := Splice(s, pos, t)[pos + |t| := x], Splice(s, pos, t + [x]);
    assert forall k :: 0 <= k < |s| ==> a[k] == b[k] by {
      forall k | 0 <= k < |s| ensures a[k] == b[k] {
        if pos <= k < pos + |t| {
          assert b[pos + (k - pos)] == (t + [x])[k - pos];
        }
      }
    }
  }

  /** Writing x at pos and then t after it is splicing [x] + t at pos. */
  lemma {:induction false} SpliceCons<T>(s: seq<T>, pos: int, x: T, t: seq<T>)
    requires 0 <= pos && pos + 1 + |t| <= |s|
    ensures Splice(s[pos := x], pos + 1, t) == Splice(s, pos, [x] + t)
  {
    assert s[pos := x][..pos + 1] == s[..pos] + [x];
    assert s[pos := x][pos + 1 + |t|..] == s[pos + 1 + |t|..];
    assert (s[..pos] + [x]) + t == s[..pos] + ([x] + t);
  }

  /** What the copy loop leaves in the destination elements d when it hands the values vs
    * one by one, from index j on, to the destination's setter; `put` says what that
    * setter stores for a value, or which exception it throws. The first rejected value
    * ends the run with its exception, and the stores before it stay. */
  function Run<T, U>(d: seq<T>, j: int, vs: seq<U>, put: U -> Result<T>): (r: (Outcome, seq<T>))
    requires 0 <= j && j + |vs| <= |d|
    ensures |r.1| == |d|
    decreases |vs|
  {
    if |vs| == 0 then (Done, d)
    else match put(vs[0])
      case Err(e) => (Thrown(e), d)
      case Ok(v) => Run(d[j := v], j + 1, vs[1..], put)
  }

  /** What the setter stores for each of vs, all of them accepted. */
  function Stores<T, U>(vs: seq<U>, put: U -> Result<T>): (r: seq<T>)
    requires forall k :: 0 <= k < |vs| ==> put(vs[k]).Ok?
    ensures |r| == |vs|
    ensures forall k :: 0 <= k < |vs| ==> r[k] == put(vs[k]).value
  {
    seq(|vs|, k requires 0 <= k < |vs| && put(vs[k]).Ok? => put(vs[k]).value)
  }

  /** When the setter accepts every value, the run completes and the destination holds
    * what it stored for vs at j, j + 1, ..., and nothing else changes. */
  lemma {:induction false} RunAccepted<T, U>(d: seq<T>, j: int, vs: seq<U>, put: U -> Result<T>)
    requires 0 <= j && j + |vs| <= |d|
    requires forall k :: 0 <= k < |vs| ==> put(vs[k]).Ok?
    ensures Run(d, j, vs, put) == (Done, Splice(d, j, Stores(vs, put)))
    decreases |vs|
  {
    if |vs| == 0 {
      assert Splice(d, j, []) == d;
    } else {
      var v := put(vs[0]).value;
      assert forall k :: 0 <= k < |vs[1..]| ==> put(vs[1..][k]) == put(vs[k + 1]);
      RunAccepted(d[j := v], j + 1, vs[1..], put);
      SpliceCons(d, j, v, Stores(vs[1..], put));
      assert [v] + Stores(vs[1..], put) == Stores(vs, put);
    }
  }

  /** When the setter first rejects the n-th value, the copy throws its exception after
    * the stores of the n values before it. */
  lemma {:induction false} RunRejected<T, U>(d: seq<T>, j: int, vs: seq<U>, put: U -> Result<T>, n: int)
    requires 0 <= j && j + |vs| <= |d|
    requires 0 <= n < |vs| && put(vs[n]).Err?
    requires forall k :: 0 <= k < n ==> put(vs[k]).Ok?
    ensures Run(d, j, vs, put) == (Thrown(put(vs[n]).error), Run(d, j, vs[..n], put).1)
    decreases n
  {
    if n > 0 {
      var v := put(vs[0]).value;
      var rest := vs[1..];
      assert rest[n - 1] == vs[n];
      assert forall k :: 0 <= k < n - 1 ==> rest[k] == vs[k + 1];
      RunRejected(d[j := v], j + 1, rest, put, n - 1);
      assert vs[..n][0] == vs[0] && vs[..n][1..] == rest[..n - 1];
    }
  }

  /** A setter that stores every value as it is makes the copy exact. */
  lemma {:induction false} RunExact<T>(d: seq<T>, j: int, vs: seq<T>, put: T -> Result<T>)
    requires 0 <= j && j + |vs| <= |d|
    requires forall k :: 0 <= k < |vs| ==> put(vs[k]) == Ok(vs[k])
    ensures Run(d, j, vs, put) == (Done, Splice(d, j, vs))
  {
    RunAccepted(d, j, vs, put);
    assert Stores(vs, put) == vs;
  }

  /** The copy loop: hand vs[k] to the setter of element j + k of a non-constant
    * destination, k = 0, 1, ...; a rejected value throws and ends the loop. */
  method StoreRun<T, U>(vs: seq<U>, dest: LargeArray<T>, j: int, put: U -> Result<T>) returns (o: Outcome)
    requires dest.Valid() && !dest.isConstant && 0 <= j && j + |vs| <= dest.length
    modifies dest.data
    ensures (o, dest.Elements()) == Run(old(dest.Elements()), j, vs, put)
  {
    ghost var d0 := dest.Elements();
    var k := 0;
    while k < |vs|
      invariant 0 <= k <= |vs|
      invariant Run(d0, j, vs, put) == Run(dest.data[..], j + k, vs[k..], put)
    {
      assert vs[k..][0] == vs[k] && vs[k..][1..] == vs[k + 1..];
      match put(vs[k]) {
        case Err(e) =>
          return Thrown(e);
        case Ok(v) =>
          dest.data[j + k] := v;
      }
      k := k + 1;
    }
    o := Done;
  }

  /** What the copy loop leaves when source and destination are one Java array d: step k
    * reads element i + k as the earlier steps left it and hands it to the setter of
    * element j + k. A destination range that starts inside the source range re-reads
    * values the loop has already written. */
  function RunWithin<T>(d: seq<T>, i: int, j: int, n: int, put: T -> Result<T>): (r: (Outcome, seq<T>))
    requires 0 <= n && 0 <= i && i + n <= |d| && 0 <= j && j + n <= |d|
    ensures |r.1| == |d|
    decreases n
  {
    if n == 0 then (Done, d)
    else match put(d[i])
      case Err(e) => (Thrown(e), d)
      case Ok(v) => RunWithin(d[j := v], i + 1, j + 1, n - 1, put)
  }

  /** When the destination range starts at or before the source range, or after its end,
    * no step reads an element an earlier step wrote, so the copy within one array is the
    * copy of the range as it was. */
  lemma {:induction false} RunWithinApart<T>(d: seq<T>, i: int, j: int, n: int, put: T -> Result<T>)
    requires 0 <= n && 0 <= i && i + n <= |d| && 0 <= j && j + n <= |d|
    requires j <= i || i + n <= j
    ensures RunWithin(d, i, j, n, put) == Run(d, j, d[i..i + n], put)
    decreases n
  {
    if n > 0 {
      var vs := d[i..i + n];
      assert vs[0] == d[i] && vs[1..] == d[i + 1..i + n];
      match put(d[i]) {
        case Err(_) =>
        case Ok(v) =>
          RunWithinApart(d[j := v], i + 1, j + 1, n - 1, put);
          assert d[j := v][i + 1..i + n] == d[i + 1..i + n];
      }
    }
  }

  /** A copy within one array whose setter accepts every value never throws. */
  lemma {:induction false} RunWithinAccepted<T>(d: seq<T>, i: int, j: int, n: int, put: T -> Result<T>)
    requires 0 <= n && 0 <= i && i + n <= |d| && 0 <= j && j + n <= |d|
    requires forall x :: put(x).Ok?
    ensures RunWithin(d, i, j, n, put).0 == Done
    decreases n
  {
    if n > 0 {
      RunWithinAccepted(d[j := put(d[i]).value], i + 1, j + 1, n - 1, put);
    }
  }

  /** When every value is stored as it is and the destination range starts inside the
    * source range, p = j - i places ahead, the loop repeats the first p values of the
    * source range over the whole destination range. */
  lemma {:induction false} RunWithinRepeats<T>(d: seq<T>, i: int, j: int, n: int, put: T -> Result<T>)
    requires 0 <= i < j < i + n && j + n <= |d|
    requires forall x :: put(x) == Ok(x)
    ensures RunWithin(d, i, j, n, put).0 == Done
    ensures Repeats(RunWithin(d, i, j, n, put).1, d, i, j, j + n)
    ensures forall k :: 0 <= k < |d| && !(j <= k < j + n) ==> RunWithin(d, i, j, n, put).1[k] == d[k]
  {
    RepeatsFrom(d, d, i, j, n, 0, put);
  }

  /** Elements j ... hi - 1 of r repeat the p = j - i values of d from i on. */
  ghost predicate Repeats<T>(r: seq<T>, d: seq<T>, i: int, j: int, hi: int)
    requires 0 <= i < j <= hi <= |r| && j <= |d|
  {
    forall t :: j <= t < hi ==> r[t] == d[i + (t - j) % (j - i)]
  }

  /** The induction behind RunWithinRepeats: after m steps the elements j ... j + m - 1
    * hold the repeated values and everything else is as it was. */
  lemma {:induction false} RepeatsFrom<T>(d0: seq<T>, d: seq<T>, i: int, j: int, n: int, m: int, put: T -> Result<T>)
    requires 0 <= i < j < i + n && j + n <= |d0| && |d| == |d0| && 0 <= m <= n
    requires forall x :: put(x) == Ok(x)
    requires Repeats(d, d0, i, j, j + m)
    requires forall k :: 0 <= k < |d0| && !(j <= k < j + m) ==> d[k] == d0[k]
    ensures RunWithin(d, i + m, j + m, n - m, put).0 == Done
    ensures Repeats(RunWithin(d, i + m, j + m, n - m, put).1, d0, i, j, j + n)
    ensures forall k :: 0 <= k < |d0| && !(j <= k < j + n) ==> RunWithin(d, i + m, j + m, n - m, put).1[k] == d0[k]
    decreases n - m
  {
    if m < n {
      var p := j - i;
      var x := d[i + m];
      assert x == d0[i + m % p] by {
        if m < p {
          assert m % p == m;
        } else {
          assert i + m == j + (m - p);
          assert (m - p) % p == m % p by {
            ModShift(m - p, p);
          }
        }
      }
      RepeatsFrom(d0, d[j + m := x], i, j, n, m + 1, put);
    }
  }

  /** Shifting by one period keeps the remainder. */
  lemma ModShift(a: int, p: int)
    requires 0 <= a && 0 < p
    ensures (a + p) % p == a % p
  {
    var q, r := a / p, a % p;
    assert a == q * p + r && 0 <= r < p;
    assert a + p == (q + 1) * p + r;
    ModUnique(a + p, p, q + 1, r);
  }

  /** `arraycopy(a, 0, a, 1, 2)` on the short array {1, 2, 3} leaves {1, 1, 1}, where a
    * copy of the range as it was (`System.arraycopy`) would leave {1, 1, 2}. */
  lemma SelfCopySmears(d: seq<int16>)
    requires d == [1, 2, 3]
    ensures RunWithin(d, 0, 1, 2, ShortTransfer) == (Done, [1, 1, 1])
    ensures Run(d, 1, d[0..2], ShortTransfer) == (Done, [1, 1, 2])
  {
    var d1, d2 := d[1 := 1], d[1 := 1][2 := 1];
    assert RunWithin(d, 0, 1, 2, ShortTransfer) == RunWithin(d1, 1, 2, 1, ShortTransfer);
    assert RunWithin(d1, 1, 2, 1, ShortTransfer) == RunWithin(d2, 2, 3, 0, ShortTransfer);
    assert d2 == [1, 1, 1];
    var e1, e2 := d[1 := 1], d[1 := 1][2 := 2];
    assert d[0..2][1..] == d[1..2] && d[1..2][1..] == d[2..2];
    assert Run(d, 1, d[0..2], ShortTransfer) == Run(e1, 2, d[1..2], ShortTransfer);
    assert Run(e1, 2, d[1..2], ShortTransfer) == Run(e2, 3, d[2..2], ShortTransfer);
    assert e2 == [1, 1, 2];
  }

  /** The copy loop over one Java array: hand a[i + k] to the setter and store the result
    * at a[j + k], k = 0, 1, ...; a rejected value throws and ends the loop. */
  method StoreRunWithin<T>(a: array<T>, i: int, j: int, n: int, put: T -> Result<T>) returns (o: Outcome)
    requires 0 <= n && 0 <= i && i + n <= a.Length && 0 <= j && j + n <= a.Length
    modifies a
    ensures (o, a[..]) == RunWithin(old(a[..]), i, j, n, put)
  {
    ghost var d0 := a[..];
    var k := 0;
    while k < n
      invariant 0 <= k <= n
      invariant RunWithin(d0, i, j, n, put) == RunWithin(a[..], i + k, j + k, n - k, put)
    {
      match put(a[i + k]) {
        case Err(e) =>
          return Thrown(e);
        case Ok(v) =>
          a[j + k] := v;
      }
      k := k + 1;
    }
    o := Done;
  }

  /** The source shares the destination's Java array and reads its elements from it;
    * a constant source reads its one value instead. */
  predicate Shares<T>(src: LargeArray<T>, dest: LargeArray<T>)
    reads src, dest
  {
    src.data == dest.data && !src.isConstant
  }

  /** How a source sees the stores into a destination: not at all; element by element
    * (both wrap one Java array); or as its one value, when the destination wraps the
    * one-element Java array of a constant source (`getData()` hands it out). */
  datatype Sharing = Apart | SameStorage | ConstantStorage

  /** The sharing between two large arrays that stores into dest can reveal; a constant
    * destination is never stored into. */
  function SharingOf<T>(src: LargeArray<T>, dest: LargeArray<T>): (a: Sharing)
    reads src, dest
    ensures a.SameStorage? <==> Shares(src, dest) && !dest.isConstant
    ensures a.ConstantStorage? <==> src.data == dest.data && src.isConstant && !dest.isConstant
  {
    if src.data != dest.data || dest.isConstant then Apart
    else if src.isConstant then ConstantStorage
    else SameStorage
  }

  /** The lengths a sharing implies: one Java array for both, or the one element of a
    * constant's storage. */
  predicate SharingFits<T>(src: seq<T>, d: seq<T>, a: Sharing) {
    (a.SameStorage? ==> |src| == |d|) && (a.ConstantStorage? ==> |d| == 1)
  }

  /** The source elements once the destination elements have become d. */
  function Follow<T>(src: seq<T>, d: seq<T>, a: Sharing): (r: seq<T>)
    requires SharingFits(src, d, a)
    ensures |r| == |src| && SharingFits(r, d, a)
  {
    match a
    case Apart => src
    case SameStorage => d
    case ConstantStorage => Repeat(d[0], |src|)
  }

  /** What each sharing means for two valid arrays. */
  lemma SharingMeans<T>(src: LargeArray<T>, dest: LargeArray<T>)
    requires src.Valid() && dest.Valid()
    ensures SharingFits(src.Elements(), dest.Elements(), SharingOf(src, dest))
    ensures !SharingOf(src, dest).Apart? ==> src.Elements() == Follow(src.Elements(), dest.Elements(), SharingOf(src, dest))
  {
  }

  /** One `arraycopy` between large arrays once its checks pass: n values from position i
    * of the source elements src go through the setter into d from position j on; when the
    * source shares the destination's storage, they are read from d as the loop changes it. */
  function Copied<T>(d: seq<T>, src: seq<T>, shared: bool, i: int, j: int, n: int, put: T -> Result<T>): (r: (Outcome, seq<T>))
    requires 0 <= n && Fits(i, n, |src|) && Fits(j, n, |d|) && (shared ==> |src| == |d|)
    ensures |r.1| == |d|
  {
    if shared then RunWithin(d, i, j, n, put) else Run(d, j, src[i..i + n], put)
  }

  /** `arraycopy(LargeArray src, srcPos, LargeArray dest, destPos, length)` on the heap:
    * the types must match, then the checks of CopyCheck; the copy itself hands each
    * source element, read by the getter, to the destination's setter (`put`). Source and
    * destination may be one array, or wrap one Java array. */
  method Arraycopy<T>(src: LargeArray<T>, srcPos: int64, dest: LargeArray<T>, destPos: int64, length: int64,
                      put: T -> Result<T>) returns (o: Outcome)
    requires src.Valid() && dest.Valid()
    modifies dest.data
    ensures src.arrayType != dest.arrayType ==> o == Thrown(IllegalArgument) && unchanged(dest.data)
    ensures src.arrayType == dest.arrayType ==>
      var c := CopyCheck(length, Fits(srcPos, length, src.length), Fits(destPos, length, dest.length), dest.isConstant);
      (c.Thrown? ==> o == c && unchanged(dest.data)) &&
      (c.Done? ==> (o, dest.Elements()) == Copied(old(dest.Elements()), old(src.Elements()), Shares(src, dest), srcPos, destPos, length, put))
  {
    if src.arrayType != dest.arrayType {
      return Thrown(IllegalArgument);
    }
    o := CopyCheck(length, Fits(srcPos, length, src.length), Fits(destPos, length, dest.length), dest.isConstant);
    if o.Thrown? {
      return;
    }
    if Shares(src, dest) {
      o := StoreRunWithin(dest.data, srcPos, destPos, length, put);
    } else {
      var vs := src.Elements()[srcPos..srcPos + length];
      o := StoreRun(vs, dest, destPos, put);
    }
  }

  /** `arraycopy(T[] src, srcPos, LargeArray dest, destPos, length)` for a Java array of
    * the destination's element type: the same checks, then each value goes through the
    * destination's setter (`put`). The Java array may be the one the destination wraps. */
  method CopyIn<T>(src: array<T>, srcPos: int32, dest: LargeArray<T>, destPos: int64, length: int32,
                   put: T -> Result<T>) returns (o: Outcome)
    requires dest.Valid()
    modifies dest.data
    ensures var c := CopyCheck(length, Fits(srcPos, length, src.Length), Fits(destPos, length, dest.length), dest.isConstant);
      (c.Thrown? ==> o == c && unchanged(dest.data)) &&
      (c.Done? ==> (o, dest.Elements()) == Copied(old(dest.Elements()), old(src[..]), src == dest.data, srcPos, destPos, length, put))
  {
    o := CopyCheck(length, Fits(srcPos, length, src.Length), Fits(destPos, length, dest.length), dest.isConstant);
    if o.Thrown? {
      return;
    }
    if src == dest.data {
      o := StoreRunWithin(src, srcPos, destPos, length, put);
    } else {
      var vs := src[srcPos..srcPos + length];
      o := StoreRun(vs, dest, destPos, put);
    }
  }

  /** The `boolean[]` and `short[]` overloads into a logic or unsigned byte array: the
    * Java array's element type differs from the destination's storage, so the two never
    * share (`BooleanArrayIntoLogic` and `ShortArrayIntoUnsignedByte` state it by their
    * types); the same checks, then each value goes through the setter (`put`). */
  method CopyConvertedIn<T, U>(src: array<U>, srcPos: int32, dest: LargeArray<T>, destPos: int64, length: int32,
                               put: U -> Result<T>) returns (o: Outcome)
    requires dest.Valid() && src as object != dest.data as object
    modifies dest.data
    ensures var c := CopyCheck(length, Fits(srcPos, length, src.Length), Fits(destPos, length, dest.length), dest.isConstant);
      (c.Thrown? ==> o == c && unchanged(dest.data)) &&
      (c.Done? ==> (o, dest.Elements()) == Run(old(dest.Elements()), destPos, old(src[srcPos..srcPos + length]), put))
  {
    o := CopyCheck(length, Fits(srcPos, length, src.Length), Fits(destPos, length, dest.length), dest.isConstant);
    if o.Thrown? {
      return;
    }
    var vs := src[srcPos..srcPos + length];
    o := StoreRun(vs, dest, destPos, put);
  }

  /** `arraycopy(boolean[] src, ..., LogicLargeArray dest, ...)`: `setBoolean` stores 1 for
    * true and 0 for false. */
  method BooleanArrayIntoLogic(src: array<bool>, srcPos: int32, dest: LargeArray<int8>, destPos: int64, length: int32)
    returns (o: Outcome)
    requires dest.Valid()
    modifies dest.data
    ensures var c := CopyCheck(length, Fits(srcPos, length, src.Length), Fits(destPos, length, dest.length), dest.isConstant);
      (c.Thrown? ==> o == c && unchanged(dest.data)) &&
      (c.Done? ==> (o == Done &&
        dest.Elements() == Splice(old(dest.Elements()), destPos, Map(old(src[srcPos..srcPos + length]), LogicLargeArrays.BitOf))))
  {
    ghost var d0, vs := dest.Elements(), src[..];
    o := CopyConvertedIn(src, srcPos, dest, destPos, length, BooleanTransfer);
    if Fits(srcPos, length, src.Length) && Fits(destPos, length, dest.length) && 0 <= length {
      BooleansIntoLogic(d0, destPos, vs[srcPos..srcPos + length]);
    }
  }

  /** `arraycopy(short[] src, ..., UnsignedByteLargeArray dest, ...)`: `setUnsignedByte`
    * accepts 0 ... 255 only. */
  method ShortArrayIntoUnsignedByte(src: array<int16>, srcPos: int32, dest: LargeArray<int8>, destPos: int64, length: int32)
    returns (o: Outcome)
    requires dest.Valid()
    modifies dest.data
    ensures var c := CopyCheck(length, Fits(srcPos, length, src.Length), Fits(destPos, length, dest.length), dest.isConstant);
      (c.Thrown? ==> o == c && unchanged(dest.data)) &&
      (c.Done? ==> (o, dest.Elements()) == Run(old(dest.Elements()), destPos, old(src[srcPos..srcPos + length]), UnsignedShortTransfer))
  {
    o := CopyConvertedIn(src, srcPos, dest, destPos, length, UnsignedShortTransfer);
  }

  /** `arraycopy(LargeArray src, srcPos, T[] dest, destPos, length)` into a Java array of
    * the source's element type: the checks (there is no constant destination), then
    * `dest[i++] = src.getX(j)` with the getter `get`. The Java array may be the one the
    * source wraps, and is then read as the loop changes it. */
  method CopyOut<T>(src: LargeArray<T>, srcPos: int64, dest: array<T>, destPos: int32, length: int32,
                    get: T -> T) returns (o: Outcome)
    requires src.Valid()
    modifies dest
    ensures o == CopyCheck(length, Fits(srcPos, length, src.length), Fits(destPos, length, dest.Length), false)
    ensures o.Thrown? ==> unchanged(dest)
    ensures o.Done? ==>
      (Done, dest[..]) == Copied(old(dest[..]), old(src.Elements()), src.data == dest && !src.isConstant, srcPos, destPos, length, (x: T) => Ok(get(x)))
  {
    o := CopyCheck(length, Fits(srcPos, length, src.length), Fits(destPos, length, dest.Length), false);
    if o.Thrown? {
      return;
    }
    ghost var vs := src.Elements()[srcPos..srcPos + length];
    ghost var d0 := dest[..];
    if src.data == dest && !src.isConstant {
      o := StoreRunWithin(dest, srcPos, destPos, length, (x: T) => Ok(get(x)));
      RunWithinAccepted(d0, srcPos, destPos, length, (x: T) => Ok(get(x)));
      return;
    }
    o := CopyConvertedOut(src, srcPos, dest, destPos, length, get);
    RunAccepted(d0, destPos, vs, (x: T) => Ok(get(x)));
    assert Map(vs, get) == Stores(vs, (x: T) => Ok(get(x)));
    assert Stores(vs, (x: T) => Ok(get(x))) == Map(vs, get);
  }

  /** The loop `dest[i++] = src.getX(j)` into a Java array the source does not wrap: the
    * checks, then dest holds the converted range from destPos on and the rest of dest is
    * as before. The `boolean[]` and `short[]` overloads (`LogicIntoBooleanArray`,
    * `UnsignedByteIntoShortArray`) never share storage by their types. */
  method CopyConvertedOut<T, U>(src: LargeArray<T>, srcPos: int64, dest: array<U>, destPos: int32, length: int32,
                                get: T -> U) returns (o: Outcome)
    requires src.Valid() && (src.data as object != dest as object || src.isConstant)
    modifies dest
    ensures o == CopyCheck(length, Fits(srcPos, length, src.length), Fits(destPos, length, dest.Length), false)
    ensures o.Thrown? ==> unchanged(dest)
    ensures o.Done? ==> dest[..] == Splice(old(dest[..]), destPos, Map(old(src.Elements())[srcPos..srcPos + length], get))
  {
    o := CopyCheck(length, Fits(srcPos, length, src.length), Fits(destPos, length, dest.Length), false);
    if o.Thrown? {
      return;
    }
    var vs := src.Elements()[srcPos..srcPos + length];
    ghost var d0 := dest[..];
    var k := 0;
    while k < length
      invariant 0 <= k <= length
      invariant dest[..] == Splice(d0, destPos, Map(vs[..k], get))
    {
      SpliceSnoc(d0, destPos, Map(vs[..k], get), get(vs[k]));
      MapSnoc(vs, k, get);
      dest[destPos + k] := get(vs[k]);
      k := k + 1;
    }
    assert vs[..length] == vs;
  }

  /** `arraycopy(LogicLargeArray src, ..., boolean[] dest, ...)`: `getBoolean` reads a
    * nonzero byte as true. */
  method LogicIntoBooleanArray(src: LargeArray<int8>, srcPos: int64, dest: array<bool>, destPos: int32, length: int32)
    returns (o: Outcome)
    requires src.Valid()
    modifies dest
    ensures o == CopyCheck(length, Fits(srcPos, length, src.length), Fits(destPos, length, dest.Length), false)
    ensures o.Thrown? ==> unchanged(dest)
    ensures o.Done? ==> dest[..] == Splice(old(dest[..]), destPos, Map(src.Elements()[srcPos..srcPos + length], (b: int8) => b != 0))
  {
    o := CopyConvertedOut(src, srcPos, dest, destPos, length, (b: int8) => b != 0);
  }

  /** `arraycopy(UnsignedByteLargeArray src, ..., short[] dest, ...)`: `getUnsignedByte`
    * reads the byte's unsigned value. */
  method UnsignedByteIntoShortArray(src: LargeArray<int8>, srcPos: int64, dest: array<int16>, destPos: int32, length: int32)
    returns (o: Outcome)
    requires src.Valid()
    modifies dest
    ensures o == CopyCheck(length, Fits(srcPos, length, src.length), Fits(destPos, length, dest.Length), false)
    ensures o.Thrown? ==> unchanged(dest)
    ensures o.Done? ==> dest[..] == Splice(old(dest[..]), destPos, Map(src.Elements()[srcPos..srcPos + length], UnsignedShort))
  {
    o := CopyConvertedOut(src, srcPos, dest, destPos, length, UnsignedShort);
  }

  /** `getUnsignedByte` as the short it returns. */
  function UnsignedShort(b: int8): (x: int16)
    ensures x == UnsignedByteLargeArrays.Value(b)
  {
    UnsignedByteLargeArrays.Value(b)
  }

  /** Mapping one more element of a prefix. */
  lemma MapSnoc<T, U>(s: seq<T>, k: int, get: T -> U)
    requires 0 <= k < |s|
    ensures Map(s[..k + 1], get) == Map(s[..k], get) + [get(s[k])]
  {
    assert Map(s[..k + 1], get)[..k] == Map(s[..k], get);
  }

  // The getter-setter pairs the typed overloads use.

  /** Logic to logic, `dest.setByte(j, src.getByte(i))`: `getByte` returns the stored
    * byte, which `setByte` checks for 0 or 1. Also `byte[]` into a logic array. */
  function LogicTransfer(b: int8): (r: Result<int8>)
    ensures r.Ok? <==> LogicLargeArrays.IsBit(b)
  {
    LogicLargeArrays.Encode(SetByte(b))
  }

  /** Between logic arrays, whose elements are all 0 or 1, the copy is exact. */
  lemma {:induction false} LogicCopyExact(d: seq<int8>, j: int, vs: seq<int8>)
    requires 0 <= j && j + |vs| <= |d|
    requires LogicLargeArrays.AllBits(vs)
    ensures Run(d, j, vs, LogicTransfer) == (Done, Splice(d, j, vs))
  {
    RunExact(d, j, vs, LogicTransfer);
  }

  /** Copying `byte[]` into a logic array stops at the first byte other than 0 or 1
    * with IllegalArgumentException, after storing the bytes before it. */
  lemma {:induction false} BytesIntoLogicStop(d: seq<int8>, j: int, vs: seq<int8>, n: int)
    requires 0 <= j && j + |vs| <= |d|
    requires 0 <= n < |vs| && !LogicLargeArrays.IsBit(vs[n])
    requires LogicLargeArrays.AllBits(vs[..n])
    ensures Run(d, j, vs, LogicTransfer) == (Thrown(IllegalArgument), Splice(d, j, vs[..n]))
  {
    assert forall k :: 0 <= k < n ==> vs[..n][k] == vs[k];
    RunRejected(d, j, vs, LogicTransfer, n);
    LogicCopyExact(d, j, vs[..n]);
  }

  /** `boolean[]` into a logic array, `dest.setBoolean(j, src[i])`: 1 for true, 0 for false. */
  function BooleanTransfer(b: bool): (r: Result<int8>)
    ensures r == Ok(LogicLargeArrays.BitOf(b))
  {
    LogicLargeArrays.Encode(SetBoolean(b))
  }

  /** Copying `boolean[]` into a logic array completes and stores BitOf of each value. */
  lemma {:induction false} BooleansIntoLogic(d: seq<int8>, j: int, vs: seq<bool>)
    requires 0 <= j && j + |vs| <= |d|
    ensures Run(d, j, vs, BooleanTransfer) == (Done, Splice(d, j, Map(vs, LogicLargeArrays.BitOf)))
  {
    RunAccepted(d, j, vs, BooleanTransfer);
    assert Stores(vs, BooleanTransfer) == Map(vs, LogicLargeArrays.BitOf);
  }

  /** Unsigned byte to unsigned byte, `dest.setByte(j, src.getByte(i))`, and `byte[]`
    * into an unsigned byte array: the raw byte is stored as it is. */
  function UnsignedByteTransfer(b: int8): (r: Result<int8>)
    ensures r == Ok(b)
  {
    UnsignedByteLargeArrays.Encode(SetByte(b))
  }

  /** `short[]` into an unsigned byte array, `dest.setUnsignedByte(j, src[i])`: a value
    * outside 0 ... 255 is rejected. */
  function UnsignedShortTransfer(x: int16): (r: Result<int8>)
    ensures r.Ok? <==> 0 <= x < BYTE_MODULUS
    ensures r.Ok? ==> UnsignedByteLargeArrays.Value(r.value) == x
  {
    UnsignedByteLargeArrays.Encode(SetUnsignedByte(x))
  }

  /** Copying `short[]` into an unsigned byte array stops at the first value outside
    * 0 ... 255 with IllegalArgumentException, after storing the values before it. */
  lemma {:induction false} ShortsIntoUnsignedBytesStop(d: seq<int8>, j: int, vs: seq<int16>, n: int)
    requires 0 <= j && j + |vs| <= |d|
    requires 0 <= n < |vs| && !(0 <= vs[n] < BYTE_MODULUS)
    requires forall k :: 0 <= k < n ==> 0 <= vs[k] < BYTE_MODULUS
    ensures Run(d, j, vs, UnsignedShortTransfer).0 == Thrown(IllegalArgument)
    ensures forall k :: 0 <= k < n ==> UnsignedByteLargeArrays.Value(Run(d, j, vs, UnsignedShortTransfer).1[j + k]) == vs[k]
  {
    RunRejected(d, j, vs, UnsignedShortTransfer, n);
    var pre := vs[..n];
    assert forall k :: 0 <= k < n ==> pre[k] == vs[k];
    RunAccepted(d, j, pre, UnsignedShortTransfer);
  }

  /** Short to short and `short[]` into a short array, `setShort(j, getShort(i))`. */
  function ShortTransfer(x: int16): (r: Result<int16>)
    ensures r == Ok(x)
  {
    ShortLargeArrays.Encode(SetShort(x))
  }

  /** Long to long and `long[]` into a long array, `setLong(j, getLong(i))`. */
  function LongTransfer(x: int64): (r: Result<int64>)
    ensures r == Ok(x)
  {
    LongLargeArrays.Encode(SetLong(x))
  }

  /** Double to double and `double[]` into a double array, `setDouble(j, getDouble(i))`. */
  function DoubleTransfer(x: real): (r: Result<real>)
    ensures r == Ok(x)
  {
    DoubleLargeArrays.Encode(SetDouble(x))
  }

  /** For unsigned byte, short, long, double and string arrays the getter-setter pair
    * stores what it read, so a copy that passes the checks copies src[srcPos + k] to
    * dest[destPos + k] for every k below length and leaves the rest of dest alone. */
  lemma {:induction false} TypedCopiesExact(d8: seq<int8>, v8: seq<int8>, d16: seq<int16>, v16: seq<int16>,
                                            d64: seq<int64>, v64: seq<int64>, dr: seq<real>, vr: seq<real>,
                                            ds: seq<Option<string>>, vs: seq<Option<string>>, j: nat)
    requires j + |v8| <= |d8| && j + |v16| <= |d16| && j + |v64| <= |d64| && j + |vr| <= |dr| && j + |vs| <= |ds|
    ensures Run(d8, j, v8, UnsignedByteTransfer) == (Done, Splice(d8, j, v8))
    ensures Run(d16, j, v16, ShortTransfer) == (Done, Splice(d16, j, v16))
    ensures Run(d64, j, v64, LongTransfer) == (Done, Splice(d64, j, v64))
    ensures Run(dr, j, vr, DoubleTransfer) == (Done, Splice(dr, j, vr))
    ensures Run(ds, j, vs, Accept) == (Done, Splice(ds, j, vs))
  {
    RunExact(d8, j, v8, UnsignedByteTransfer);
    RunExact(d16, j, v16, ShortTransfer);
    RunExact(d64, j, v64, LongTransfer);
    RunExact(dr, j, vr, DoubleTransfer);
    RunExact(ds, j, vs, Accept);
  }
}
