// LargeArrayUtils, the complex overloads of `arraycopy`: complex to complex
// element by element, a Java float or double array of interleaved parts
// {re0, im0, re1, im1, ...} into a complex array, and a complex array out
// into such a Java array. The `double[]` overload checks a source range of
// `length` values although it reads `2 * length`; the `float[]` overload
// checks `2 * length`, which is what makes the copy all or nothing.
module ComplexArrayCopies {
  import opened Wrappers
  import opened JavaInts
  import opened LargeArrays
  import opened ComplexLargeArrays
  import opened LargeArrayCopies

  function Min(a: int, b: int): (m: int)
    ensures m <= a && m <= b && (m == a || m == b)
  {
    if a <= b then a else b
  }

  lemma TwiceIsEven(k: int)
    ensures (2 * k) % 2 == 0
  {
  }

  /** The k elements whose parts lie interleaved in src from index i on. */
  function Pairs(src: seq<real>, i: int, k: int): (cs: seq<Complex>)
    requires 0 <= i && 0 <= k && i + 2 * k <= |src|
    ensures |cs| == k
  {
    TwiceIsEven(k);
    Deinterleave(src[i..i + 2 * k])
  }

  /** The pairs of one more element. */
  lemma {:induction false} PairsSnoc(src: seq<real>, i: int, k: int)
    requires 0 <= i && 0 <= k && i + 2 * k + 2 <= |src|
    ensures Pairs(src, i, k + 1) == Pairs(src, i, k) + [Complex(src[i + 2 * k], src[i + 2 * k + 1])]
  {
    var t := src[i..i + 2 * k + 2];
    assert t[..|t| - 2] == src[i..i + 2 * k];
  }

  /** Half of a count of values below 2 * n is a count of whole elements below n. */
  lemma {:induction false} HalfBelow(a: int, n: int)
    requires 0 <= a < 2 * n
    ensures 0 <= a / 2 < n && 2 * (a / 2) <= a < 2 * (a / 2) + 2
  {
  }

  /** What the loop of an interleaved copy leaves in the destination elements d: element
    * destPos + k receives (src[i + 2k], src[i + 2k + 1]) for as long as both values exist;
    * the first missing one throws ArrayIndexOutOfBoundsException before anything more is
    * stored. */
  function InterleavedRun(d: seq<Complex>, destPos: int, src: seq<real>, i: int, length: int): (r: (Outcome, seq<Complex>))
    requires 0 <= i <= |src| && 0 <= length && 0 <= destPos && destPos + length <= |d|
    ensures r.0.Done? <==> i + 2 * length <= |src|
    ensures r.0.Thrown? ==> r.0.error == ArrayIndexOutOfBounds
    ensures i + 2 * length <= |src| ==> r.1 == Splice(d, destPos, Pairs(src, i, length))
  {
    if i + 2 * length <= |src| then (Done, Splice(d, destPos, Pairs(src, i, length)))
    else
      HalfBelow(|src| - i, length);
      var m := (|src| - i) / 2;
      (Thrown(ArrayIndexOutOfBounds), Splice(d, destPos, Pairs(src, i, m)))
  }

  /** `arraycopy(double[] src, srcPos, ComplexDoubleLargeArray dest, destPos, length)` as
    * written: the source range checked is `srcPos + length`, though the loop reads
    * `2 * length` values from srcPos on. */
  function InterleavedCopyAsWritten(d: seq<Complex>, destConstant: bool, destPos: int, src: seq<real>, srcPos: int, length: int)
    : (r: (Outcome, seq<Complex>))
    ensures |r.1| == |d|
  {
    var c := CopyCheck(length, Fits(srcPos, length, |src|), Fits(destPos, length, |d|), destConstant);
    if c.Thrown? then (c, d) else InterleavedRun(d, destPos, src, srcPos, length)
  }

  /** `arraycopy(float[] src, srcPos, ComplexFloatLargeArray dest, destPos, length)`, and
    * the double overload as its check evidently intends: the source range checked is the
    * `2 * length` values the loop reads, so the copy either throws before storing
    * anything or stores all `length` elements. */
  function InterleavedCopy(d: seq<Complex>, destConstant: bool, destPos: int, src: seq<real>, srcPos: int, length: int)
    : (r: (Outcome, seq<Complex>))
    ensures r.0 == CopyCheck(length, Fits(srcPos, 2 * length, |src|), Fits(destPos, length, |d|), destConstant)
    ensures r.0.Thrown? ==> r.1 == d
    ensures r.0.Done? ==> r.1 == Splice(d, destPos, Pairs(src, srcPos, length))
  {
    var c := CopyCheck(length, Fits(srcPos, 2 * length, |src|), Fits(destPos, length, |d|), destConstant);
    if c.Thrown? then (c, d) else InterleavedRun(d, destPos, src, srcPos, length)
  }

  /** The written check lets through a source holding one element's parts for a copy of
    * two elements: the first element is stored and the read of the third value throws. */
  lemma {:induction false} InterleavedCopyAsWrittenPartial()
    ensures var z := Complex(0.0, 0.0);
      InterleavedCopyAsWritten([z, z], false, 0, [1.0, 2.0], 0, 2) == (Thrown(ArrayIndexOutOfBounds), [Complex(1.0, 2.0), z])
  {
    var z := Complex(0.0, 0.0);
    var src := [1.0, 2.0];
    assert src[0..2] == src && src[0..2][..0] == [];
    assert Pairs(src, 0, 1) == [Complex(1.0, 2.0)];
    assert Splice([z, z], 0, [Complex(1.0, 2.0)]) == [Complex(1.0, 2.0), z];
  }

  /** Whenever the source does hold the 2 * length values, the written check and the
    * intended one agree. */
  lemma {:induction false} InterleavedCopyAgrees(d: seq<Complex>, destConstant: bool, destPos: int, src: seq<real>, srcPos: int, length: int)
    requires 0 <= length && 0 <= srcPos && srcPos + 2 * length <= |src|
    ensures InterleavedCopyAsWritten(d, destConstant, destPos, src, srcPos, length) == InterleavedCopy(d, destConstant, destPos, src, srcPos, length)
  {
    assert Fits(srcPos, length, |src|) && Fits(srcPos, 2 * length, |src|);
  }

  /** One store of the copy loops, `setComplexX(j, {c.re, c.im})` at the index j just
    * after the elements t already copied from destPos on: the copied range grows by c. */
  method StoreNext(dest: ComplexLargeArray, ghost d0: seq<Complex>, destPos: int, ghost t: seq<Complex>, j: int, c: Complex)
    requires dest.Valid() && dest.length <= MAX_JAVA_ARRAY
    requires 0 <= destPos && j == destPos + |t| < dest.length == |d0|
    requires dest.Elements() == Splice(d0, destPos, t)
    modifies dest.dataRe, dest.dataRe.data, dest.dataIm, dest.dataIm.data
    ensures dest.Valid()
    ensures dest.dataRe.data == old(dest.dataRe.data) || fresh(dest.dataRe.data)
    ensures dest.dataIm.data == old(dest.dataIm.data) || fresh(dest.dataIm.data)
    ensures dest.Elements() == Splice(d0, destPos, t + [c])
  {
    var _ := dest.SetComplex(j, Some([c.re, c.im]));
    SpliceSnoc(d0, destPos, t, c);
  }

  /** The loop of the interleaved copies: element destPos + k of dest receives
    * (src[i + 2k], src[i + 2k + 1]) through `setComplexFloat` or `setComplexDouble`. */
  method StoreInterleaved(src: seq<real>, i: int, dest: ComplexLargeArray, destPos: int, length: int) returns (o: Outcome)
    requires dest.Valid() && dest.length <= MAX_JAVA_ARRAY
    requires 0 <= i <= |src| && 0 <= length && 0 <= destPos && destPos + length <= dest.length
    modifies dest.dataRe, dest.dataRe.data, dest.dataIm, dest.dataIm.data
    ensures dest.Valid()
    ensures dest.dataRe.data == old(dest.dataRe.data) || fresh(dest.dataRe.data)
    ensures dest.dataIm.data == old(dest.dataIm.data) || fresh(dest.dataIm.data)
    ensures (o, dest.Elements()) == InterleavedRun(old(dest.Elements()), destPos, src, i, length)
  {
    ghost var d0 := dest.Elements();
    var k := 0;
    while k < length
      invariant 0 <= k <= length && i + 2 * k <= |src|
      invariant dest.Valid()
      invariant dest.dataRe.data == old(dest.dataRe.data) || fresh(dest.dataRe.data)
      invariant dest.dataIm.data == old(dest.dataIm.data) || fresh(dest.dataIm.data)
      invariant dest.Elements() == Splice(d0, destPos, Pairs(src, i, k))
    {
      if i + 2 * k + 1 >= |src| {
        HalfBelow(|src| - i, length);
        assert (|src| - i) / 2 == k;
        return Thrown(ArrayIndexOutOfBounds);
      }
      var c := Complex(src[i + 2 * k], src[i + 2 * k + 1]);
      StoreNext(dest, d0, destPos, Pairs(src, i, k), destPos + k, c);
      PairsSnoc(src, i, k);
      k := k + 1;
    }
    o := Done;
  }

  /** `arraycopy(double[] src, ...)` into a complex double array, with its written check. */
  method CopyInterleavedAsWritten(src: array<real>, srcPos: int32, dest: ComplexLargeArray, destPos: int64, length: int32)
    returns (o: Outcome)
    requires dest.Valid() && dest.length <= MAX_JAVA_ARRAY
    requires src != dest.dataRe.data && src != dest.dataIm.data
    modifies dest.dataRe, dest.dataRe.data, dest.dataIm, dest.dataIm.data
    ensures dest.Valid()
    ensures (o, dest.Elements()) == InterleavedCopyAsWritten(old(dest.Elements()), old(dest.IsConstant()), destPos, src[..], srcPos, length)
  {
    o := CopyCheck(length, Fits(srcPos, length, src.Length), Fits(destPos, length, dest.length), dest.IsConstant());
    if o.Thrown? {
      return;
    }
    o := StoreInterleaved(src[..], srcPos, dest, destPos, length);
  }

  /** `arraycopy(float[] src, ...)` into a complex float array, which is also the double
    * overload with the check it needs. */
  method CopyInterleaved(src: array<real>, srcPos: int32, dest: ComplexLargeArray, destPos: int64, length: int32)
    returns (o: Outcome)
    requires dest.Valid() && dest.length <= MAX_JAVA_ARRAY
    requires src != dest.dataRe.data && src != dest.dataIm.data
    modifies dest.dataRe, dest.dataRe.data, dest.dataIm, dest.dataIm.data
    ensures dest.Valid()
    ensures (o, dest.Elements()) == InterleavedCopy(old(dest.Elements()), old(dest.IsConstant()), destPos, src[..], srcPos, length)
  {
    o := CopyCheck(length, Fits(srcPos, 2 * length, src.Length), Fits(destPos, length, dest.length), dest.IsConstant());
    if o.Thrown? {
      return;
    }
    o := StoreInterleaved(src[..], srcPos, dest, destPos, length);
  }

  /** Two complex arrays over the same part objects, such as one array copied onto
    * itself: every store into dest is seen when src is read. */
  predicate SameParts(src: ComplexLargeArray, dest: ComplexLargeArray)
    reads src, dest
  {
    src.dataRe == dest.dataRe && src.dataIm == dest.dataIm
  }

  /** Two complex arrays whose real parts wrap one Java array and whose imaginary parts
    * wrap another, such as two arrays built with `LargeArray.Wrap` over the same pair of
    * Java arrays: a store into dest is again seen when src is read. */
  predicate SameStorage(src: ComplexLargeArray, dest: ComplexLargeArray)
    reads src, dest, src.dataRe, src.dataIm, dest.dataRe, dest.dataIm
  {
    src.dataRe.data == dest.dataRe.data && src.dataIm.data == dest.dataIm.data &&
    !src.dataRe.isConstant && !src.dataIm.isConstant && !dest.dataRe.isConstant && !dest.dataIm.isConstant
  }

  /** The copy reads what it writes: the two arrays share their parts or the parts' storage. */
  predicate Together(src: ComplexLargeArray, dest: ComplexLargeArray)
    reads src, dest, src.dataRe, src.dataIm, dest.dataRe, dest.dataIm
  {
    SameParts(src, dest) || SameStorage(src, dest)
  }

  /** Sharing both parts' storage makes the two arrays read alike. */
  lemma SameStorageReadsAlike(src: ComplexLargeArray, dest: ComplexLargeArray)
    requires src.Valid() && dest.Valid() && Together(src, dest)
    ensures src.Elements() == dest.Elements()
  {
  }

  /** `arraycopy` between two complex arrays of one type:
    * `dest.setComplexX(j, src.getComplexX(i))` for each element of the range. When the
    * two are one array, share both parts or wrap the same two Java arrays, each step
    * reads the element as the earlier steps left it. */
  method CopyComplex(src: ComplexLargeArray, srcPos: int64, dest: ComplexLargeArray, destPos: int64, length: int64)
    returns (o: Outcome)
    requires src.Valid() && dest.Valid() && dest.length <= MAX_JAVA_ARRAY
    requires Together(src, dest) ||
      ({src.dataRe, src.dataIm} !! {dest.dataRe, dest.dataIm} &&
       {src.dataRe.data, src.dataIm.data} !! {dest.dataRe.data, dest.dataIm.data})
    modifies dest.dataRe, dest.dataRe.data, dest.dataIm, dest.dataIm.data
    ensures dest.Valid()
    ensures src.arrayType != dest.arrayType ==> o == Thrown(IllegalArgument) && dest.Elements() == old(dest.Elements())
    ensures src.arrayType == dest.arrayType ==>
      o == CopyCheck(length, Fits(srcPos, length, src.length), Fits(destPos, length, dest.length), old(dest.IsConstant())) &&
      (o.Thrown? ==> dest.Elements() == old(dest.Elements())) &&
      (o.Done? ==>
        (o, dest.Elements()) == Copied(old(dest.Elements()), old(src.Elements()), old(Together(src, dest)), srcPos, destPos, length, Accept))
  {
    if src.arrayType != dest.arrayType {
      return Thrown(IllegalArgument);
    }
    o := CopyCheck(length, Fits(srcPos, length, src.length), Fits(destPos, length, dest.length), dest.IsConstant());
    if o.Thrown? {
      return;
    }
    if Together(src, dest) {
      ghost var d0 := dest.Elements();
      SameStorageReadsAlike(src, dest);
      o := StoreWithin(dest, srcPos, destPos, length);
      RunWithinAccepted(d0, srcPos, destPos, length, Accept);
    } else {
      var cs := src.Elements()[srcPos..srcPos + length];
      StoreElements(cs, dest, destPos);
      CopiedAsSplice(old(dest.Elements()), destPos, cs);
    }
  }

  /** Storing every value unchanged completes and splices the values in. */
  lemma {:induction false} CopiedAsSplice(d: seq<Complex>, j: int, cs: seq<Complex>)
    requires 0 <= j && j + |cs| <= |d|
    ensures Run(d, j, cs, Accept) == (Done, Splice(d, j, cs))
  {
    RunAccepted(d, j, cs, Accept);
    assert Stores(cs, Accept) == cs;
  }

  /** The complex-to-complex loop within one array: element i + k is read as the loop
    * has left it and stored at j + k. */
  method StoreWithin(dest: ComplexLargeArray, i: int, j: int, n: int) returns (o: Outcome)
    requires dest.Valid() && dest.length <= MAX_JAVA_ARRAY
    requires 0 <= n && 0 <= i && i + n <= dest.length && 0 <= j && j + n <= dest.length
    modifies dest.dataRe, dest.dataRe.data, dest.dataIm, dest.dataIm.data
    ensures dest.Valid()
    ensures dest.dataRe.data == old(dest.dataRe.data) || fresh(dest.dataRe.data)
    ensures dest.dataIm.data == old(dest.dataIm.data) || fresh(dest.dataIm.data)
    ensures (o, dest.Elements()) == RunWithin(old(dest.Elements()), i, j, n, Accept)
  {
    ghost var d0 := dest.Elements();
    var k := 0;
    while k < n
      invariant 0 <= k <= n
      invariant dest.Valid()
      invariant dest.dataRe.data == old(dest.dataRe.data) || fresh(dest.dataRe.data)
      invariant dest.dataIm.data == old(dest.dataIm.data) || fresh(dest.dataIm.data)
      invariant RunWithin(d0, i, j, n, Accept) == RunWithin(dest.Elements(), i + k, j + k, n - k, Accept)
    {
      StoreAt(dest, j + k, dest.Elements()[i + k]);
      k := k + 1;
    }
    o := Done;
  }

  /** `setComplexX(j, {c.re, c.im})` inside the array: element j becomes c. */
  method StoreAt(dest: ComplexLargeArray, j: int, c: Complex)
    requires dest.Valid() && dest.length <= MAX_JAVA_ARRAY && 0 <= j < dest.length
    modifies dest.dataRe, dest.dataRe.data, dest.dataIm, dest.dataIm.data
    ensures dest.Valid()
    ensures dest.dataRe.data == old(dest.dataRe.data) || fresh(dest.dataRe.data)
    ensures dest.dataIm.data == old(dest.dataIm.data) || fresh(dest.dataIm.data)
    ensures dest.Elements() == old(dest.Elements())[j := c]
  {
    var _ := dest.SetComplex(j, Some([c.re, c.im]));
  }

  /** The loop of the complex-to-complex copy: element destPos + k of dest receives
    * cs[k] through `setComplexFloat` or `setComplexDouble`. */
  method StoreElements(cs: seq<Complex>, dest: ComplexLargeArray, destPos: int)
    requires dest.Valid() && dest.length <= MAX_JAVA_ARRAY
    requires 0 <= destPos && destPos + |cs| <= dest.length
    modifies dest.dataRe, dest.dataRe.data, dest.dataIm, dest.dataIm.data
    ensures dest.Valid()
    ensures dest.dataRe.data == old(dest.dataRe.data) || fresh(dest.dataRe.data)
    ensures dest.dataIm.data == old(dest.dataIm.data) || fresh(dest.dataIm.data)
    ensures dest.Elements() == Splice(old(dest.Elements()), destPos, cs)
  {
    ghost var d0 := dest.Elements();
    var k := 0;
    while k < |cs|
      invariant 0 <= k <= |cs|
      invariant dest.Valid()
      invariant dest.dataRe.data == old(dest.dataRe.data) || fresh(dest.dataRe.data)
      invariant dest.dataIm.data == old(dest.dataIm.data) || fresh(dest.dataIm.data)
      invariant dest.Elements() == Splice(d0, destPos, Take(cs, k))
    {
      StoreTaken(dest, d0, destPos, cs, k);
      k := k + 1;
    }
    TakeAll(cs);
  }

  /** One step of the complex-to-complex loop: element destPos + k receives cs[k]. */
  method StoreTaken(dest: ComplexLargeArray, ghost d0: seq<Complex>, destPos: int, cs: seq<Complex>, k: int)
    requires dest.Valid() && dest.length <= MAX_JAVA_ARRAY
    requires 0 <= destPos && 0 <= k < |cs| && destPos + |cs| <= dest.length == |d0|
    requires dest.Elements() == Splice(d0, destPos, Take(cs, k))
    modifies dest.dataRe, dest.dataRe.data, dest.dataIm, dest.dataIm.data
    ensures dest.Valid()
    ensures dest.dataRe.data == old(dest.dataRe.data) || fresh(dest.dataRe.data)
    ensures dest.dataIm.data == old(dest.dataIm.data) || fresh(dest.dataIm.data)
    ensures dest.Elements() == Splice(d0, destPos, Take(cs, k + 1))
  {
    StoreNext(dest, d0, destPos, Take(cs, k), destPos + k, cs[k]);
    TakeSnoc(cs, k);
  }

  /** The first k values of s. */
  function Take<T>(s: seq<T>, k: int): (r: seq<T>)
    requires 0 <= k <= |s|
    ensures |r| == k
  {
    s[..k]
  }

  /** The first k + 1 values of s. */
  lemma TakeSnoc<T>(s: seq<T>, k: int)
    requires 0 <= k < |s|
    ensures Take(s, k + 1) == Take(s, k) + [s[k]]
  {
    assert s[..k + 1] == s[..k] + [s[k]];
  }

  /** All the values of s. */
  lemma TakeAll<T>(s: seq<T>)
    ensures Take(s, |s|) == s
  {
    assert s[..|s|] == s;
  }

  /** `arraycopy(ComplexXLargeArray src, srcPos, x[] dest, destPos, length)`: the
    * destination range is the `2 * length` parts written; element j goes to
    * dest[i] and dest[i + 1]. */
  method CopyToInterleaved(src: ComplexLargeArray, srcPos: int64, dest: array<real>, destPos: int32, length: int32)
    returns (o: Outcome)
    requires src.Valid() && dest != src.dataRe.data && dest != src.dataIm.data
    modifies dest
    ensures o == CopyCheck(length, Fits(srcPos, length, src.length), Fits(destPos, 2 * length, dest.Length), false)
    ensures o.Thrown? ==> unchanged(dest)
    ensures o.Done? ==> dest[..] == Splice(old(dest[..]), destPos, Flatten(src.Elements()[srcPos..srcPos + length]))
  {
    o := CopyCheck(length, Fits(srcPos, length, src.length), Fits(destPos, 2 * length, dest.Length), false);
    if o.Thrown? {
      return;
    }
    var cs := src.Elements()[srcPos..srcPos + length];
    WriteInterleaved(cs, dest, destPos);
  }

  /** The loop of the complex-to-array copy: the parts of cs[k] go to
    * dest[destPos + 2k] and dest[destPos + 2k + 1]. */
  method WriteInterleaved(cs: seq<Complex>, dest: array<real>, destPos: int)
    requires 0 <= destPos && destPos + 2 * |cs| <= dest.Length
    modifies dest
    ensures dest[..] == Splice(old(dest[..]), destPos, Flatten(cs))
  {
    ghost var d0 := dest[..];
    var k := 0;
    while k < |cs|
      invariant 0 <= k <= |cs|
      invariant dest[..] == Splice(d0, destPos, Flatten(Take(cs, k)))
    {
      var c := cs[k];
      ghost var f := Flatten(Take(cs, k));
      SpliceSnoc(d0, destPos, f, c.re);
      SpliceSnoc(d0, destPos, f + [c.re], c.im);
      FlattenTakeSnoc(cs, k);
      dest[destPos + 2 * k] := c.re;
      dest[destPos + 2 * k + 1] := c.im;
      k := k + 1;
    }
    TakeAll(cs);
  }

  /** The parts of the first k + 1 elements. */
  lemma {:induction false} FlattenTakeSnoc(cs: seq<Complex>, k: int)
    requires 0 <= k < |cs|
    ensures Flatten(Take(cs, k + 1)) == Flatten(Take(cs, k)) + [cs[k].re] + [cs[k].im]
  {
    assert Take(cs, k + 1)[..k] == Take(cs, k);
  }
}
