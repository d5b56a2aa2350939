// LargeArrayUtils, the rectangular half: `subarraycopy` copies a box out of a
// multi-dimensional array, stored row-major in a one-dimensional large array,
// into a box of another. `recomputeCopyLimits` first clips the box, dimension by
// dimension, to both arrays; the copy then calls `arraycopy` once for every row
// of the clipped box, in row-major order. Positions, sizes and dimensions are
// Java longs, kept here as unbounded integers.
module LargeArrayRegions {
  import opened Wrappers
  import opened JavaInts
  import opened LargeArrays
  import opened LargeArrayCopies

  // ---------------------------------------------------------------------------
  // Clipping

  /** What `recomputeCopyLimits` leaves for one dimension: whether it went on past this
    * dimension, and the source position, destination position and size it stored. */
  datatype Clipped = Clipped(ok: bool, srcPos: int, destPos: int, size: int)

  /** The four steps `recomputeCopyLimits` takes for one dimension: a negative source
    * position, the source end, a negative destination position, the destination end.
    * Each step that shrinks the size gives up once the size is below 1, leaving what it
    * had stored so far. */
  function Clip(srcDim: int, destDim: int, srcPos: int, destPos: int, size: int): Clipped
  {
    var c := ClipSource(srcDim, srcPos, destPos, size);
    if !c.ok then c else ClipDest(destDim, c.srcPos, c.destPos, c.size)
  }

  /** The two source steps. */
  function ClipSource(srcDim: int, srcPos: int, destPos: int, size: int): Clipped
  {
    var dp1 := if srcPos < 0 then destPos - srcPos else destPos;
    var sz1 := if srcPos < 0 then size + srcPos else size;
    if srcPos < 0 && sz1 < 1 then Clipped(false, srcPos, dp1, sz1)
    else
      var sp1 := if srcPos < 0 then 0 else srcPos;
      var sz2 := if sp1 + sz1 > srcDim then srcDim - sp1 else sz1;
      Clipped(!(sp1 + sz1 > srcDim && sz2 < 1), sp1, dp1, sz2)
  }

  /** The two destination steps, the mirror image of the source steps. */
  function ClipDest(destDim: int, srcPos: int, destPos: int, size: int): Clipped
  {
    var sp3 := if destPos < 0 then srcPos - destPos else srcPos;
    var sz3 := if destPos < 0 then size + destPos else size;
    if destPos < 0 && sz3 < 1 then Clipped(false, sp3, destPos, sz3)
    else
      var dp3 := if destPos < 0 then 0 else destPos;
      var sz4 := if dp3 + sz3 > destDim then destDim - dp3 else sz3;
      Clipped(!(dp3 + sz3 > destDim && sz4 < 1), sp3, dp3, sz4)
  }

  /** A dimension that clips lies inside both arrays: its source range inside
    * [0, srcDim) and its destination range inside [0, destDim). */
  lemma ClipInside(srcDim: int, destDim: int, srcPos: int, destPos: int, size: int)
    ensures var c := Clip(srcDim, destDim, srcPos, destPos, size);
      c.ok ==> 0 <= c.srcPos && c.srcPos + c.size <= srcDim && 0 <= c.destPos && c.destPos + c.size <= destDim
  {}

  /** Clipping moves both corners by the same amount, and only ever cuts the
    * requested range. */
  lemma ClipWithin(srcDim: int, destDim: int, srcPos: int, destPos: int, size: int)
    ensures var c := Clip(srcDim, destDim, srcPos, destPos, size);
      c.ok ==> c.destPos - c.srcPos == destPos - srcPos && srcPos <= c.srcPos && c.srcPos + c.size <= srcPos + size
  {}

  /** A size below 1 survives only when nothing had to be clipped: such a dimension
    * is passed on exactly as requested. */
  lemma ClipUntouched(srcDim: int, destDim: int, srcPos: int, destPos: int, size: int)
    ensures var c := Clip(srcDim, destDim, srcPos, destPos, size);
      c.ok && c.size < 1 ==> c == Clipped(true, srcPos, destPos, size)
  {}

  /** Source index x is wanted by the request and, shifted by the request's offset,
    * addresses both arrays. */
  predicate Wanted(srcDim: int, destDim: int, srcPos: int, destPos: int, size: int, x: int) {
    srcPos <= x < srcPos + size && 0 <= x < srcDim && 0 <= x + (destPos - srcPos) < destDim
  }

  /** Clipping gives up exactly when no index is wanted, and otherwise keeps every
    * wanted index: the clipped range is the whole intersection. */
  lemma ClipExact(srcDim: int, destDim: int, srcPos: int, destPos: int, size: int, x: int)
    ensures var c := Clip(srcDim, destDim, srcPos, destPos, size);
      Wanted(srcDim, destDim, srcPos, destPos, size, x) ==> c.ok && c.srcPos <= x < c.srcPos + c.size
    ensures var c := Clip(srcDim, destDim, srcPos, destPos, size);
      c.ok && c.srcPos <= x < c.srcPos + c.size ==> Wanted(srcDim, destDim, srcPos, destPos, size, x)
  {}

  /** The dimensions clipped one by one. */
  function ClipAll(srcDim: seq<int>, destDim: seq<int>, srcPos: seq<int>, destPos: seq<int>, size: seq<int>): (cs: seq<Clipped>)
    requires |destDim| == |srcDim| && |srcPos| == |srcDim| && |destPos| == |srcDim| && |size| == |srcDim|
    ensures |cs| == |srcDim|
  {
    seq(|srcDim|, i requires 0 <= i < |srcDim| => Clip(srcDim[i], destDim[i], srcPos[i], destPos[i], size[i]))
  }

  /** Every dimension before i clipped. */
  predicate ClipsBefore(cs: seq<Clipped>, i: int)
    requires i <= |cs|
  {
    forall k :: 0 <= k < i ==> cs[k].ok
  }

  function SrcPositions(cs: seq<Clipped>): (r: seq<int>)
    ensures |r| == |cs|
  {
    seq(|cs|, i requires 0 <= i < |cs| => cs[i].srcPos)
  }

  function DestPositions(cs: seq<Clipped>): (r: seq<int>)
    ensures |r| == |cs|
  {
    seq(|cs|, i requires 0 <= i < |cs| => cs[i].destPos)
  }

  function Sizes(cs: seq<Clipped>): (r: seq<int>)
    ensures |r| == |cs|
  {
    seq(|cs|, i requires 0 <= i < |cs| => cs[i].size)
  }

  /** The steps of one loop iteration of `recomputeCopyLimits`, on dimension i. */
  method ClipAt(srcDim: array<int>, destDim: array<int>, srcPos: array<int>, destPos: array<int>, size: array<int>, i: int)
    returns (ok: bool)
    requires 0 <= i < srcDim.Length && i < destDim.Length && i < srcPos.Length && i < destPos.Length && i < size.Length
    requires srcPos != destPos && srcPos != size && destPos != size
    requires srcDim != srcPos && srcDim != destPos && srcDim != size
    requires destDim != srcPos && destDim != destPos && destDim != size
    modifies srcPos, destPos, size
    ensures var c := Clip(srcDim[i], destDim[i], old(srcPos[i]), old(destPos[i]), old(size[i]));
      ok == c.ok && srcPos[i] == c.srcPos && destPos[i] == c.destPos && size[i] == c.size
    ensures forall k :: 0 <= k < srcPos.Length && k != i ==> srcPos[k] == old(srcPos[k])
    ensures forall k :: 0 <= k < destPos.Length && k != i ==> destPos[k] == old(destPos[k])
    ensures forall k :: 0 <= k < size.Length && k != i ==> size[k] == old(size[k])
  {
    ok := ClipSourceAt(srcDim, srcPos, destPos, size, i);
    if ok {
      ok := ClipDestAt(destDim, srcPos, destPos, size, i);
    }
  }

  /** The source steps: a negative source position, then the source end. */
  method ClipSourceAt(srcDim: array<int>, srcPos: array<int>, destPos: array<int>, size: array<int>, i: int)
    returns (ok: bool)
    requires 0 <= i < srcDim.Length && i < srcPos.Length && i < destPos.Length && i < size.Length
    requires srcPos != destPos && srcPos != size && destPos != size
    requires srcDim != srcPos && srcDim != destPos && srcDim != size
    modifies srcPos, destPos, size
    ensures var c := ClipSource(srcDim[i], old(srcPos[i]), old(destPos[i]), old(size[i]));
      ok == c.ok && srcPos[i] == c.srcPos && destPos[i] == c.destPos && size[i] == c.size
    ensures forall k :: 0 <= k < srcPos.Length && k != i ==> srcPos[k] == old(srcPos[k])
    ensures forall k :: 0 <= k < destPos.Length && k != i ==> destPos[k] == old(destPos[k])
    ensures forall k :: 0 <= k < size.Length && k != i ==> size[k] == old(size[k])
  {
    if srcPos[i] < 0 {
      size[i] := size[i] + srcPos[i];
      destPos[i] := destPos[i] - srcPos[i];
      if size[i] < 1 {
        return false;
      }
      srcPos[i] := 0;
    }
    if srcPos[i] + size[i] > srcDim[i] {
      size[i] := srcDim[i] - srcPos[i];
      if size[i] < 1 {
        return false;
      }
    }
    ok := true;
  }

  /** The destination steps: a negative destination position, then the destination end. */
  method ClipDestAt(destDim: array<int>, srcPos: array<int>, destPos: array<int>, size: array<int>, i: int)
    returns (ok: bool)
    requires 0 <= i < destDim.Length && i < srcPos.Length && i < destPos.Length && i < size.Length
    requires srcPos != destPos && srcPos != size && destPos != size
    requires destDim != srcPos && destDim != destPos && destDim != size
    modifies srcPos, destPos, size
    ensures var c := ClipDest(destDim[i], old(srcPos[i]), old(destPos[i]), old(size[i]));
      ok == c.ok && srcPos[i] == c.srcPos && destPos[i] == c.destPos && size[i] == c.size
    ensures forall k :: 0 <= k < srcPos.Length && k != i ==> srcPos[k] == old(srcPos[k])
    ensures forall k :: 0 <= k < destPos.Length && k != i ==> destPos[k] == old(destPos[k])
    ensures forall k :: 0 <= k < size.Length && k != i ==> size[k] == old(size[k])
  {
    if destPos[i] < 0 {
      size[i] := size[i] + destPos[i];
      srcPos[i] := srcPos[i] - destPos[i];
      if size[i] < 1 {
        return false;
      }
      destPos[i] := 0;
    }
    if destPos[i] + size[i] > destDim[i] {
      size[i] := destDim[i] - destPos[i];
      if size[i] < 1 {
        return false;
      }
    }
    ok := true;
  }

  /** `recomputeCopyLimits(srcDim, destDim, srcPos, destPos, size)`: clips the
    * dimensions in order and answers false at the first one that does not clip. The
    * dimensions before it hold their clipped values, that one what its steps stored,
    * and the ones after it are untouched. */
  method RecomputeCopyLimits(srcDim: array<int>, destDim: array<int>, srcPos: array<int>, destPos: array<int>, size: array<int>)
    returns (ok: bool)
    requires destDim.Length == srcDim.Length && srcPos.Length == srcDim.Length
    requires destPos.Length == srcDim.Length && size.Length == srcDim.Length
    requires srcPos != destPos && srcPos != size && destPos != size
    requires srcDim != srcPos && srcDim != destPos && srcDim != size
    requires destDim != srcPos && destDim != destPos && destDim != size
    modifies srcPos, destPos, size
    ensures var cs := ClipAll(srcDim[..], destDim[..], old(srcPos[..]), old(destPos[..]), old(size[..]));
      (ok <==> ClipsBefore(cs, |cs|)) &&
      forall i :: 0 <= i < |cs| ==>
        if ClipsBefore(cs, i) then srcPos[i] == cs[i].srcPos && destPos[i] == cs[i].destPos && size[i] == cs[i].size
        else srcPos[i] == old(srcPos[i]) && destPos[i] == old(destPos[i]) && size[i] == old(size[i])
  {
    ghost var cs := ClipAll(srcDim[..], destDim[..], srcPos[..], destPos[..], size[..]);
    ghost var sp0, dp0, sz0 := srcPos[..], destPos[..], size[..];
    var i := 0;
    while i < srcDim.Length
      invariant 0 <= i <= srcDim.Length
      invariant ClipsBefore(cs, i)
      invariant forall k :: 0 <= k < i ==> srcPos[k] == cs[k].srcPos && destPos[k] == cs[k].destPos && size[k] == cs[k].size
      invariant forall k :: i <= k < srcDim.Length ==> srcPos[k] == sp0[k] && destPos[k] == dp0[k] && size[k] == sz0[k]
    {
      ok := ClipAt(srcDim, destDim, srcPos, destPos, size, i);
      if !ok {
        assert !cs[i].ok;
        return;
      }
      i := i + 1;
    }
    ok := true;
  }

  // ---------------------------------------------------------------------------
  // Dimensions and lengths

  /** The product of the dimensions, 1 for none. */
  function ExactProduct(dims: seq<int>): int
  {
    if |dims| == 0 then 1 else dims[0] * ExactProduct(dims[1..])
  }

  lemma {:induction false} ExactProductSnoc(dims: seq<int>, x: int)
    ensures ExactProduct(dims + [x]) == ExactProduct(dims) * x
    decreases |dims|
  {
    if |dims| > 0 {
      assert (dims + [x])[1..] == dims[1..] + [x];
      ExactProductSnoc(dims[1..], x);
      assert dims[0] * (ExactProduct(dims[1..]) * x) == (dims[0] * ExactProduct(dims[1..])) * x;
    }
  }

  /** `product(a)`: the product of the entries, multiplied into a long starting at 1,
    * so it is the exact product wrapped to 64 bits. */
  method Product(a: array<int>) returns (p: int)
    ensures p == ToLong(ExactProduct(a[..]))
  {
    p := 1;
    for i := 0 to a.Length
      invariant p == ToLong(ExactProduct(a[..i]))
    {
      assert a[..i + 1] == a[..i] + [a[i]];
      ExactProductSnoc(a[..i], a[i]);
      WrapMul(ExactProduct(a[..i]), a[i], LONG_MODULUS);
      p := ToLong(p * a[i]);
    }
    assert a[..a.Length] == a[..];
  }

  /** The branch of `checkArrayTypeAndSize` for two large arrays: the element types must
    * match and each product of dimensions must equal its array's length. */
  method CheckArrayTypeAndSize<T>(src: LargeArray<T>, srcDim: array<int>, dest: LargeArray<T>, destDim: array<int>)
    returns (o: Outcome)
    ensures o.Done? <==> (src.arrayType == dest.arrayType &&
      ToLong(ExactProduct(srcDim[..])) == src.length && ToLong(ExactProduct(destDim[..])) == dest.length)
    ensures o.Thrown? ==> o.error == IllegalArgument
  {
    if src.arrayType != dest.arrayType {
      return Thrown(IllegalArgument);
    }
    var p := Product(srcDim);
    if p != src.length {
      return Thrown(IllegalArgument);
    }
    var q := Product(destDim);
    if q != dest.length {
      return Thrown(IllegalArgument);
    }
    o := Done;
  }

  // ---------------------------------------------------------------------------
  // Rows

  /** The source and destination starts of the rows of a box, in the order of the
    * nested loops of `subarraycopy`: dimension j runs its counter r over [0, size[j])
    * and extends the offsets so far with `(acc * dim[j] + r + pos[j])`; dimension 0 is
    * the row itself. */
  function Rows(sd: seq<int>, sp: seq<int>, dd: seq<int>, dp: seq<int>, s: seq<int>, j: nat, accS: int, accD: int): seq<(int, int)>
    requires j < |sd| && |sp| == |sd| && |dd| == |sd| && |dp| == |sd| && |s| == |sd|
    decreases j, 1
  {
    if j == 0 then [(accS * sd[0] + sp[0], accD * dd[0] + dp[0])]
    else Slabs(sd, sp, dd, dp, s, j, 0, accS, accD)
  }

  /** The rows of dimension j's slabs r, r + 1, ..., size[j] - 1. */
  function Slabs(sd: seq<int>, sp: seq<int>, dd: seq<int>, dp: seq<int>, s: seq<int>, j: nat, r: int, accS: int, accD: int): seq<(int, int)>
    requires 1 <= j < |sd| && |sp| == |sd| && |dd| == |sd| && |dp| == |sd| && |s| == |sd|
    decreases j, 0, s[j] - r
  {
    if r >= s[j] then []
    else
      Rows(sd, sp, dd, dp, s, j - 1, accS * sd[j] + r + sp[j], accD * dd[j] + r + dp[j]) +
      Slabs(sd, sp, dd, dp, s, j, r + 1, accS, accD)
  }

  /** The offsets handed to `arraycopy`: Java computes them in long arithmetic, which
    * wraps at every step and so gives the exact offset wrapped once. */
  function RowStarts(sd: seq<int>, sp: seq<int>, dd: seq<int>, dp: seq<int>, s: seq<int>): (rows: seq<(int64, int64)>)
    requires 1 <= |sd| && |sp| == |sd| && |dd| == |sd| && |dp| == |sd| && |s| == |sd|
  {
    var exact := Rows(sd, sp, dd, dp, s, |sd| - 1, 0, 0);
    seq(|exact|, k requires 0 <= k < |exact| => (ToLong(exact[k].0) as int64, ToLong(exact[k].1) as int64))
  }

  /** For a box of rank 2 the rows are those of the loop over r1 in `subarraycopy`. */
  lemma {:induction false} RowsOfRank2(sd: seq<int>, sp: seq<int>, dd: seq<int>, dp: seq<int>, s: seq<int>)
    requires |sd| == 2 && |sp| == 2 && |dd| == 2 && |dp| == 2 && |s| == 2 && 0 <= s[1]
    ensures Rows(sd, sp, dd, dp, s, 1, 0, 0) ==
      seq(s[1], r1 => ((r1 + sp[1]) * sd[0] + sp[0], (r1 + dp[1]) * dd[0] + dp[0]))
  {
    SlabsOfRank2(sd, sp, dd, dp, s, 0);
  }

  lemma {:induction false} SlabsOfRank2(sd: seq<int>, sp: seq<int>, dd: seq<int>, dp: seq<int>, s: seq<int>, r: int)
    requires |sd| == 2 && |sp| == 2 && |dd| == 2 && |dp| == 2 && |s| == 2 && 0 <= r <= s[1]
    ensures Slabs(sd, sp, dd, dp, s, 1, r, 0, 0) ==
      seq(s[1] - r, k => ((r + k + sp[1]) * sd[0] + sp[0], (r + k + dp[1]) * dd[0] + dp[0]))
    decreases s[1] - r
  {
    if r < s[1] {
      SlabsOfRank2(sd, sp, dd, dp, s, r + 1);
      var row := ((r + sp[1]) * sd[0] + sp[0], (r + dp[1]) * dd[0] + dp[0]);
      assert 0 * sd[1] + r + sp[1] == r + sp[1] && 0 * dd[1] + r + dp[1] == r + dp[1];
      assert Rows(sd, sp, dd, dp, s, 0, r + sp[1], r + dp[1]) == [row];
      var rest := seq(s[1] - (r + 1), k => ((r + 1 + k + sp[1]) * sd[0] + sp[0], (r + 1 + k + dp[1]) * dd[0] + dp[0]));
      assert Slabs(sd, sp, dd, dp, s, 1, r, 0, 0) == [row] + rest;
    }
  }

  /** Every dimension of the box lies inside the array's dimension and is not empty. */
  predicate InBox(dim: seq<int>, pos: seq<int>, s: seq<int>)
    requires |pos| == |dim| && |s| == |dim|
  {
    forall i :: 0 <= i < |dim| ==> 0 <= pos[i] && pos[i] + s[i] <= dim[i] && 1 <= s[i]
  }

  /** A row of len values starting at (a, b) lies inside both arrays. */
  predicate RowInside(row: (int, int), len: int, srcLength: int, destLength: int) {
    0 <= row.0 && row.0 + len <= srcLength && 0 <= row.1 && row.1 + len <= destLength
  }

  lemma {:induction false} ProductSplit(dims: seq<int>, j: int)
    requires 0 <= j < |dims|
    ensures ExactProduct(dims[j..]) == dims[j] * ExactProduct(dims[j + 1..])
  {
    assert dims[j..][1..] == dims[j + 1..];
  }

  /** acc * d + x for x in [0, d) stays below p * d when acc is below p. */
  lemma {:induction false} NextOffset(acc: int, d: int, x: int, p: int)
    requires 0 <= acc < p && 0 <= x < d
    ensures 0 <= acc * d + x < p * d
  {
    assert acc * d + x < (acc + 1) * d;
    MulMonotone(p, acc + 1, d);
  }

  /** Row end inside the array: acc * d + pos + len stays within p * d. */
  lemma {:induction false} LastOffset(acc: int, d: int, pos: int, len: int, p: int)
    requires 0 <= acc < p && 0 <= pos && pos + len <= d && 0 <= len
    ensures 0 <= acc * d + pos && acc * d + pos + len <= p * d
  {
    assert acc * d + pos + len <= (acc + 1) * d;
    if d > 0 {
      MulMonotone(p, acc + 1, d);
    }
  }

  /** Inside a box that lies in both arrays, every row lies in both arrays when the
    * arrays' lengths are the products of their dimensions. */
  lemma {:induction false} RowsInside(sd: seq<int>, sp: seq<int>, dd: seq<int>, dp: seq<int>, s: seq<int>, j: nat, accS: int, accD: int)
    requires j < |sd| && |sp| == |sd| && |dd| == |sd| && |dp| == |sd| && |s| == |sd|
    requires InBox(sd, sp, s) && InBox(dd, dp, s)
    requires 0 <= accS < ExactProduct(sd[j + 1..]) && 0 <= accD < ExactProduct(dd[j + 1..])
    ensures forall k :: 0 <= k < |Rows(sd, sp, dd, dp, s, j, accS, accD)| ==>
      RowInside(Rows(sd, sp, dd, dp, s, j, accS, accD)[k], s[0], ExactProduct(sd), ExactProduct(dd))
    decreases j, 1
  {
    if j == 0 {
      ProductSplit(sd, 0);
      ProductSplit(dd, 0);
      assert sd[0..] == sd && dd[0..] == dd;
      LastOffset(accS, sd[0], sp[0], s[0], ExactProduct(sd[1..]));
      LastOffset(accD, dd[0], dp[0], s[0], ExactProduct(dd[1..]));
    } else {
      SlabsInside(sd, sp, dd, dp, s, j, 0, accS, accD);
    }
  }

  lemma {:induction false} SlabsInside(sd: seq<int>, sp: seq<int>, dd: seq<int>, dp: seq<int>, s: seq<int>, j: nat, r: int, accS: int, accD: int)
    requires 1 <= j < |sd| && |sp| == |sd| && |dd| == |sd| && |dp| == |sd| && |s| == |sd|
    requires InBox(sd, sp, s) && InBox(dd, dp, s) && 0 <= r
    requires 0 <= accS < ExactProduct(sd[j + 1..]) && 0 <= accD < ExactProduct(dd[j + 1..])
    ensures forall k :: 0 <= k < |Slabs(sd, sp, dd, dp, s, j, r, accS, accD)| ==>
      RowInside(Slabs(sd, sp, dd, dp, s, j, r, accS, accD)[k], s[0], ExactProduct(sd), ExactProduct(dd))
    decreases j, 0, s[j] - r
  {
    if r < s[j] {
      ProductSplit(sd, j);
      ProductSplit(dd, j);
      NextOffset(accS, sd[j], r + sp[j], ExactProduct(sd[j + 1..]));
      NextOffset(accD, dd[j], r + dp[j], ExactProduct(dd[j + 1..]));
      RowsInside(sd, sp, dd, dp, s, j - 1, accS * sd[j] + r + sp[j], accD * dd[j] + r + dp[j]);
      SlabsInside(sd, sp, dd, dp, s, j, r + 1, accS, accD);
    }
  }

  // ---------------------------------------------------------------------------
  // The copy

  /** What the row copies leave: `arraycopy` of len values for each row in turn, on
    * destination elements d from source elements src; a source that shares the
    * destination's storage (`a`) sees the stores of the earlier rows and of the row
    * itself. The first row that throws ends the copy, and the rows before it stay
    * copied. */
  function RowsRun<T>(d: seq<T>, src: seq<T>, a: Sharing, destConstant: bool, rows: seq<(int, int)>, len: int,
                      put: T -> Result<T>): (r: (Outcome, seq<T>))
    requires SharingFits(src, d, a)
    ensures |r.1| == |d|
    decreases |rows|
  {
    if |rows| == 0 then (Done, d)
    else
      var c := CopyCheck(len, Fits(rows[0].0, len, |src|), Fits(rows[0].1, len, |d|), destConstant);
      if c.Thrown? then (c, d)
      else
        var run := Copied(d, src, a.SameStorage?, rows[0].0, rows[0].1, len, put);
        if run.0.Thrown? then run else RowsRun(run.1, Follow(src, run.1, a), a, destConstant, rows[1..], len, put)
  }

  /** With every row inside both arrays, a destination that is not constant and a
    * setter that takes every value, every row is copied and nothing throws, whatever
    * the storage the two share. */
  lemma {:induction false} RowsRunDone<T>(d: seq<T>, src: seq<T>, a: Sharing, rows: seq<(int, int)>, len: int, put: T -> Result<T>)
    requires 0 <= len && SharingFits(src, d, a)
    requires forall k :: 0 <= k < |rows| ==> RowInside(rows[k], len, |src|, |d|)
    requires forall x :: put(x).Ok?
    ensures RowsRun(d, src, a, false, rows, len, put).0 == Done
    decreases |rows|
  {
    if |rows| > 0 {
      var i, j := rows[0].0, rows[0].1;
      var d1;
      if a.SameStorage? {
        RunWithinAccepted(d, i, j, len, put);
        d1 := RunWithin(d, i, j, len, put).1;
      } else {
        var vs := src[i..i + len];
        RunAccepted(d, j, vs, put);
        d1 := Splice(d, j, Stores(vs, put));
      }
      assert forall k :: 0 <= k < |rows[1..]| ==> rows[1..][k] == rows[k + 1];
      RowsRunDone(d1, Follow(src, d1, a), a, rows[1..], len, put);
    }
  }

  /** A row copy from a source that shares the destination's Java array can read values
    * an earlier row stored: rows (0, 1) then (1, 2) of length 1 over {1, 2, 3} leave
    * {1, 1, 1}, not the {1, 1, 2} of copies from the source as it was. */
  lemma RowsSeeEarlierRows(d: seq<int16>)
    requires d == [1, 2, 3]
    ensures RowsRun(d, d, SameStorage, false, [(0, 1), (1, 2)], 1, ShortTransfer) == (Done, [1, 1, 1])
    ensures RowsRun(d, d, Apart, false, [(0, 1), (1, 2)], 1, ShortTransfer) == (Done, [1, 1, 2])
  {
    var rows: seq<(int, int)> := [(0, 1), (1, 2)];
    assert rows[1..] == [(1, 2)] && rows[1..][1..] == [];
    var d1, d2 := d[1 := 1], d[1 := 1][2 := 1];
    assert RunWithin(d, 0, 1, 1, ShortTransfer) == RunWithin(d1, 1, 2, 0, ShortTransfer);
    assert RunWithin(d1, 1, 2, 1, ShortTransfer) == RunWithin(d2, 2, 3, 0, ShortTransfer);
    assert d2 == [1, 1, 1];
    assert d[0..1] == d[0..1] && d[0..1][1..] == d[1..1];
    assert Run(d, 1, d[0..1], ShortTransfer) == Run(d1, 2, d[1..1], ShortTransfer);
    assert d[1..2][1..] == d[2..2];
    assert Run(d1, 2, d[1..2], ShortTransfer) == Run(d[1 := 1][2 := 2], 3, d[2..2], ShortTransfer);
    assert d[1 := 1][2 := 2] == [1, 1, 2];
  }

  /** The loops of `subarraycopy`: `arraycopy(src, a, dest, b, len)` for each row (a, b). */
  method CopyRows<T>(src: LargeArray<T>, dest: LargeArray<T>, rows: seq<(int64, int64)>, len: int64, put: T -> Result<T>)
    returns (o: Outcome)
    requires src.Valid() && dest.Valid() && src.arrayType == dest.arrayType
    modifies dest.data
    ensures SharingFits(old(src.Elements()), old(dest.Elements()), SharingOf(src, dest))
    ensures (o, dest.Elements()) ==
      RowsRun(old(dest.Elements()), old(src.Elements()), SharingOf(src, dest), dest.isConstant, rows, len, put)
  {
    ghost var d0, s0 := dest.Elements(), src.Elements();
    ghost var a := SharingOf(src, dest);
    SharingMeans(src, dest);
    var k := 0;
    while k < |rows|
      invariant 0 <= k <= |rows|
      invariant SharingFits(src.Elements(), dest.Elements(), a)
      invariant a.Apart? ==> src.Elements() == s0
      invariant !a.Apart? ==> src.Elements() == Follow(src.Elements(), dest.Elements(), a)
      invariant RowsRun(d0, s0, a, dest.isConstant, rows, len, put) ==
        RowsRun(dest.Elements(), src.Elements(), a, dest.isConstant, rows[k..], len, put)
    {
      assert rows[k..][0] == rows[k] && rows[k..][1..] == rows[k + 1..];
      o := Arraycopy(src, rows[k].0, dest, rows[k].1, len, put);
      if o.Thrown? {
        return;
      }
      SharingMeans(src, dest);
      k := k + 1;
    }
    o := Done;
  }

  /** What `subarraycopy` between two large arrays does once its arguments are present
    * and of one rank: the type and size checks, the clipping, the rank, then the rows of
    * the clipped box. */
  function SubarrayRun<T>(d: seq<T>, src: seq<T>, a: Sharing, sameType: bool, destConstant: bool,
                          sd: seq<int>, sp: seq<int>, dd: seq<int>, dp: seq<int>, s: seq<int>,
                          put: T -> Result<T>): (r: (Outcome, seq<T>))
    requires SharingFits(src, d, a)
    requires |sp| == |sd| && |dd| == |sd| && |dp| == |sd| && |s| == |sd|
    ensures |r.1| == |d|
  {
    if !(sameType && ToLong(ExactProduct(sd)) == |src| && ToLong(ExactProduct(dd)) == |d|) then (Thrown(IllegalArgument), d)
    else
      var cs := ClipAll(sd, dd, sp, dp, s);
      if !ClipsBefore(cs, |cs|) then (Thrown(IllegalArgument), d)
      else if !(1 <= |sd| <= 4) then (Thrown(IllegalArgument), d)
      else RowsRun(d, src, a, destConstant, RowStarts(sd, SrcPositions(cs), dd, DestPositions(cs), Sizes(cs)),
                   ToLong(cs[0].size), put)
  }

  /** The clipped box of a request whose every dimension clips to a size of at least 1
    * lies inside both arrays. */
  lemma ClippedInBox(sd: seq<int>, sp: seq<int>, dd: seq<int>, dp: seq<int>, s: seq<int>)
    requires |sp| == |sd| && |dd| == |sd| && |dp| == |sd| && |s| == |sd|
    requires var cs := ClipAll(sd, dd, sp, dp, s); forall i :: 0 <= i < |cs| ==> cs[i].ok && 1 <= cs[i].size
    ensures var cs := ClipAll(sd, dd, sp, dp, s);
      InBox(sd, SrcPositions(cs), Sizes(cs)) && InBox(dd, DestPositions(cs), Sizes(cs))
  {
    forall i | 0 <= i < |sd| {
      ClipInside(sd[i], dd[i], sp[i], dp[i], s[i]);
    }
  }

  /** A `subarraycopy` of rank 1 to 4 between non-constant arrays whose lengths are the
    * products of their dimensions, sharing storage or not, with a box that clips to sizes of at least 1 in
    * every dimension, copies every row without an exception. */
  lemma {:induction false} SubarrayRunDone<T>(d: seq<T>, src: seq<T>, a: Sharing, sd: seq<int>, sp: seq<int>, dd: seq<int>, dp: seq<int>, s: seq<int>,
                                             put: T -> Result<T>)
    requires 1 <= |sd| <= 4 && |sp| == |sd| && |dd| == |sd| && |dp| == |sd| && |s| == |sd|
    requires IsLong(|src|) && IsLong(|d|) && SharingFits(src, d, a)
    requires ExactProduct(sd) == |src| && ExactProduct(dd) == |d|
    requires var cs := ClipAll(sd, dd, sp, dp, s); forall i :: 0 <= i < |cs| ==> cs[i].ok && 1 <= cs[i].size
    requires forall x :: put(x).Ok?
    ensures SubarrayRun(d, src, a, true, false, sd, sp, dd, dp, s, put).0 == Done
  {
    var cs := ClipAll(sd, dd, sp, dp, s);
    var n := |sd|;
    var sp1, dp1, s1 := SrcPositions(cs), DestPositions(cs), Sizes(cs);
    ClippedInBox(sd, sp, dd, dp, s);
    assert sd[n..] == [] && dd[n..] == [];
    RowsInside(sd, sp1, dd, dp1, s1, n - 1, 0, 0);
    var exact := Rows(sd, sp1, dd, dp1, s1, n - 1, 0, 0);
    var rows := RowStarts(sd, sp1, dd, dp1, s1);
    assert cs[0].size == s1[0] && 1 <= s1[0] <= sd[0];
    if |rows| > 0 {
      assert RowInside(exact[0], s1[0], |src|, |d|);
      assert ToLong(cs[0].size) == cs[0].size;
    }
    assert forall k :: 0 <= k < |rows| ==> rows[k].0 == exact[k].0 && rows[k].1 == exact[k].1 by {
      forall k | 0 <= k < |rows|
        ensures rows[k].0 == exact[k].0 && rows[k].1 == exact[k].1
      {
        assert RowInside(exact[k], s1[0], |src|, |d|);
      }
    }
    if |rows| > 0 {
      RowsRunDone(d, src, a, rows, cs[0].size, put);
    }
  }

  /** `subarraycopy(src, srcDim, srcPos, dest, destDim, destPos, size)` between two large
    * arrays: any null argument or a rank that differs between the arguments is rejected;
    * the clipping works on copies of srcPos, destPos and size, so the caller's arrays
    * are left alone. Source and destination may be one array, or wrap one Java array. */
  method Subarraycopy<T>(src: LargeArray?<T>, srcDim: array?<int>, srcPos: array?<int>,
                         dest: LargeArray?<T>, destDim: array?<int>, destPos: array?<int>, size: array?<int>,
                         put: T -> Result<T>) returns (o: Outcome)
    requires src != null ==> src.Valid()
    requires dest != null ==> dest.Valid()
    modifies if dest == null then {} else {dest.data}
    ensures src == null || srcDim == null || srcPos == null || dest == null || destDim == null || destPos == null || size == null ==>
      o == Thrown(IllegalArgument)
    ensures src != null && srcDim != null && srcPos != null && dest != null && destDim != null && destPos != null && size != null ==>
      if !(srcPos.Length == srcDim.Length && destDim.Length == srcDim.Length && destPos.Length == srcDim.Length && size.Length == srcDim.Length)
      then o == Thrown(IllegalArgument) && unchanged(dest.data)
      else (SharingFits(old(src.Elements()), old(dest.Elements()), SharingOf(src, dest)) &&
        (o, dest.Elements()) == SubarrayRun(old(dest.Elements()), old(src.Elements()), SharingOf(src, dest), src.arrayType == dest.arrayType,
                                            dest.isConstant, old(srcDim[..]), old(srcPos[..]), old(destDim[..]),
                                            old(destPos[..]), old(size[..]), put))
  {
    if src == null || srcDim == null || srcPos == null || dest == null || destDim == null || destPos == null || size == null {
      return Thrown(IllegalArgument);
    }
    if srcDim.Length != srcPos.Length || srcDim.Length != destDim.Length || srcDim.Length != destPos.Length || srcDim.Length != size.Length {
      return Thrown(IllegalArgument);
    }
    SharingMeans(src, dest);
    ghost var run := SubarrayRun(dest.Elements(), src.Elements(), SharingOf(src, dest), src.arrayType == dest.arrayType, dest.isConstant,
                                 srcDim[..], srcPos[..], destDim[..], destPos[..], size[..], put);
    o := CheckArrayTypeAndSize(src, srcDim, dest, destDim);
    if o.Thrown? {
      assert run == (o, dest.Elements());
      return;
    }
    var ok, sp, dp, s := ClipCopies(srcDim, destDim, srcPos, destPos, size);
    if !ok || srcDim.Length < 1 || srcDim.Length > 4 {
      assert run == (Thrown(IllegalArgument), dest.Elements());
      return Thrown(IllegalArgument);
    }
    var rows := RowStarts(srcDim[..], sp, destDim[..], dp, s);
    assert run == RowsRun(dest.Elements(), src.Elements(), SharingOf(src, dest), dest.isConstant, rows, ToLong(s[0]), put);
    o := CopyRows(src, dest, rows, ToLong(s[0]), put);
  }

  /** The clipping step of `subarraycopy`: `recomputeCopyLimits` on clones of srcPos,
    * destPos and size; on success, the clipped positions and sizes. */
  method ClipCopies(srcDim: array<int>, destDim: array<int>, srcPos: array<int>, destPos: array<int>, size: array<int>)
    returns (ok: bool, sp: seq<int>, dp: seq<int>, s: seq<int>)
    requires destDim.Length == srcDim.Length && srcPos.Length == srcDim.Length
    requires destPos.Length == srcDim.Length && size.Length == srcDim.Length
    ensures var cs := ClipAll(srcDim[..], destDim[..], srcPos[..], destPos[..], size[..]);
      (ok <==> ClipsBefore(cs, |cs|)) && (ok ==> sp == SrcPositions(cs) && dp == DestPositions(cs) && s == Sizes(cs))
  {
    var n := srcDim.Length;
    var spa := new int[n](i reads srcPos requires 0 <= i < n => srcPos[i]);
    var dpa := new int[n](i reads destPos requires 0 <= i < n => destPos[i]);
    var sa := new int[n](i reads size requires 0 <= i < n => size[i]);
    assert spa[..] == srcPos[..] && dpa[..] == destPos[..] && sa[..] == size[..];
    ghost var cs := ClipAll(srcDim[..], destDim[..], spa[..], dpa[..], sa[..]);
    ok := RecomputeCopyLimits(srcDim, destDim, spa, dpa, sa);
    sp, dp, s := spa[..], dpa[..], sa[..];
    if ok {
      assert sp == SrcPositions(cs) && dp == DestPositions(cs) && s == Sizes(cs);
    }
  }
}
