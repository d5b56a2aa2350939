// `LargeArrayOperator`: the arithmetic operators on large arrays. Each operator
// checks its arguments, picks an output type by type promotion, then applies an
// element function either once (all inputs constant) or index by index. The
// integer element functions wrap around in the width of the output type.
module LargeArrayOperators {
  import opened Wrappers
  import opened JavaInts
  import opened JavaValues
  import opened LargeArrayTypes
  import opened LargeArrays
  import opened LargeArrayCopies
  import opened LargeArrayConversions
  import LogicLargeArrays
  import UnsignedByteLargeArrays

  // ---------------------------------------------------------------------------
  // The operators and what they demand of their arguments

  datatype Operator =
    | ABS | ACOS | ADD | ASIN | ATAN | AXPY | COS | DIFF | DIV | EXP
    | LOG | LOG10 | MULT | NEG | POW | SIGNUM | SIN | SQRT | TAN

  /** How many arguments an operator takes. */
  datatype ArgCount = Exactly(n: nat) | AtLeast(n: nat)

  predicate Admits(c: ArgCount, n: int) {
    match c
    case Exactly(k) => n == k
    case AtLeast(k) => n >= k
  }

  /** ADD and MULT fold any number of arguments from two on; DIFF, DIV and POW are
    * binary, AXPY is ternary and every other operator is unary. */
  function ArgCountOf(op: Operator): (c: ArgCount)
    ensures Admits(c, 1) <==> !(op in {ADD, MULT, DIFF, DIV, POW, AXPY})
    ensures Admits(c, 2) <==> op in {ADD, MULT, DIFF, DIV, POW}
    ensures Admits(c, 3) <==> op in {ADD, MULT, AXPY}
    ensures forall n :: n > 3 ==> (Admits(c, n) <==> op in {ADD, MULT})
  {
    match op
    case ADD | MULT => AtLeast(2)
    case DIFF | DIV | POW => Exactly(2)
    case AXPY => Exactly(3)
    case _ => Exactly(1)
  }

  /** The operators whose result is floating point even for integer inputs. */
  predicate IsFloatingPointOperation(op: Operator) {
    op in {ACOS, ASIN, ATAN, COS, EXP, LOG, LOG10, SIN, SQRT, TAN}
  }

  /** ABS alone maps complex inputs to real outputs. */
  predicate IsComplexToReal(op: Operator) {
    op == ABS
  }

  // ---------------------------------------------------------------------------
  // Type promotion

  /** The type of largest ordinal among the (non-empty) types, the first one on ties. */
  function Largest(types: seq<LargeArrayType>): (t: LargeArrayType)
    requires |types| > 0
    decreases |types|
  {
    if |types| == 1 then types[0]
    else
      var t := Largest(types[..|types| - 1]);
      if Ordinal(types[|types| - 1]) > Ordinal(t) then types[|types| - 1] else t
  }

  /** The largest type is one of the types and no type has a larger ordinal. */
  lemma {:induction false} LargestIsMaximum(types: seq<LargeArrayType>)
    requires |types| > 0
    ensures Largest(types) in types
    ensures forall t :: t in types ==> Ordinal(t) <= Ordinal(Largest(types))
    decreases |types|
  {
    if |types| > 1 {
      var init := types[..|types| - 1];
      LargestIsMaximum(init);
      assert types == init + [types[|types| - 1]];
    }
  }

  /** `getLargestNumericType(args)` on the types of the arguments: an empty argument
    * list or any non-numeric type throws IllegalArgumentException; otherwise the
    * maximal ordinal wins, the first of equals kept. */
  method LargestNumericType(types: seq<LargeArrayType>) returns (r: Result<LargeArrayType>)
    ensures r.Err? <==> |types| == 0 || exists k :: 0 <= k < |types| && !IsNumericType(types[k])
    ensures r.Err? ==> r.error == IllegalArgument
    ensures r.Ok? ==> r.value == Largest(types)
  {
    if |types| == 0 {
      return Err(IllegalArgument);
    }
    var largest := types[0];
    if !IsNumericType(largest) {
      return Err(IllegalArgument);
    }
    var i := 1;
    while i < |types|
      invariant 1 <= i <= |types|
      invariant forall k :: 0 <= k < i ==> IsNumericType(types[k])
      invariant largest == Largest(types[..i])
    {
      assert types[..i + 1][..i] == types[..i];
      if !IsNumericType(types[i]) {
        return Err(IllegalArgument);
      }
      if Ordinal(types[i]) > Ordinal(largest) {
        largest := types[i];
      }
      i := i + 1;
    }
    assert types[..i] == types;
    r := Ok(largest);
  }

  /** `selectBestNumericOutputType(args, floatingPointOperation, complexToReal)`: the
    * largest input type, except that a floating-point operation on integers gives
    * DOUBLE for LONG and FLOAT otherwise, and complexToReal gives the real type of a
    * complex one. */
  function BestOutputType(types: seq<LargeArrayType>, floatingPoint: bool, complexToReal: bool): (r: Result<LargeArrayType>)
    ensures r.Err? <==> |types| == 0 || exists k :: 0 <= k < |types| && !IsNumericType(types[k])
    ensures r.Err? ==> r.error == IllegalArgument
    ensures r.Ok? ==> IsNumericType(r.value)
    ensures r.Ok? && floatingPoint ==> !IsIntegerNumericType(r.value)
    ensures r.Ok? && complexToReal ==> !IsComplexNumericType(r.value)
    ensures r.Ok? && !floatingPoint && !complexToReal ==> r.value == Largest(types)
  {
    if |types| == 0 || exists k :: 0 <= k < |types| && !IsNumericType(types[k]) then Err(IllegalArgument)
    else
      var largest := Largest(types);
      LargestIsMaximum(types);
      if floatingPoint && IsIntegerNumericType(largest) then Ok(if largest == LONG then DOUBLE else FLOAT)
      else if largest == COMPLEX_FLOAT && complexToReal then Ok(FLOAT)
      else if largest == COMPLEX_DOUBLE && complexToReal then Ok(DOUBLE)
      else Ok(largest)
  }

  /** Promotion never loses range: unless complex values are mapped to their modulus,
    * the output type is at least as large as every input type, and a complex input
    * mapped to reals keeps its precision. */
  lemma BestOutputIsWideEnough(types: seq<LargeArrayType>, floatingPoint: bool, complexToReal: bool)
    requires BestOutputType(types, floatingPoint, complexToReal).Ok?
    ensures var out := BestOutputType(types, floatingPoint, complexToReal).value;
      !complexToReal ==> forall t :: t in types ==> Ordinal(t) <= Ordinal(out)
    ensures var out := BestOutputType(types, floatingPoint, complexToReal).value;
      complexToReal && Largest(types) == COMPLEX_DOUBLE ==> out == DOUBLE
    ensures var out := BestOutputType(types, floatingPoint, complexToReal).value;
      floatingPoint && Largest(types) == LONG ==> out == DOUBLE
  {
    LargestIsMaximum(types);
  }

  /** The argument checks every `evaluate(outputType, args)` makes before it
    * computes anything, with the output type they settle on: a non-numeric output
    * type, a wrong number of arguments and, for SIGNUM, a complex first argument throw
    * IllegalArgumentException; no output type means the promoted one. */
  function OutputType(op: Operator, outputType: Option<LargeArrayType>, types: seq<LargeArrayType>): (r: Result<LargeArrayType>)
    ensures r.Ok? <==>
      (outputType.Some? ==> IsNumericType(outputType.value)) &&
      Admits(ArgCountOf(op), |types|) &&
      !(op == SIGNUM && IsComplexNumericType(types[0])) &&
      (outputType.None? ==> forall k :: 0 <= k < |types| ==> IsNumericType(types[k]))
    ensures r.Err? ==> r.error == IllegalArgument
    ensures r.Ok? ==> IsNumericType(r.value)
    ensures r.Ok? && outputType.Some? ==> r.value == outputType.value
    ensures r.Ok? && outputType.None? ==>
      (IsFloatingPointOperation(op) ==> !IsIntegerNumericType(r.value)) &&
      (op == ABS ==> !IsComplexNumericType(r.value)) &&
      (!IsFloatingPointOperation(op) && op != ABS ==> r.value == Largest(types))
  {
    if outputType.Some? && !IsNumericType(outputType.value) then Err(IllegalArgument)
    else if !Admits(ArgCountOf(op), |types|) then Err(IllegalArgument)
    else if op == SIGNUM && IsComplexNumericType(types[0]) then Err(IllegalArgument)
    else if outputType.Some? then Ok(outputType.value)
    else BestOutputType(types, IsFloatingPointOperation(op), IsComplexToReal(op))
  }

  /** The checks `evaluateVarArgFunction` makes (and, for one argument,
    * `evaluateSingleArgFunction`): a non-empty argument list of numeric arrays, all as
    * long as the first, and a numeric output type; IllegalArgumentException otherwise. */
  method CheckArguments(types: seq<LargeArrayType>, lengths: seq<int>, outType: LargeArrayType) returns (o: Outcome)
    requires |types| == |lengths|
    ensures o.Done? <==> ArgumentsAccepted(types, lengths, outType)
    ensures o.Thrown? ==> o.error == IllegalArgument
  {
    if |types| == 0 {
      return Thrown(IllegalArgument);
    }
    var length := lengths[0];
    var i := 0;
    while i < |types|
      invariant 0 <= i <= |types|
      invariant forall k :: 0 <= k < i ==> IsNumericType(types[k]) && lengths[k] == length
    {
      if !IsNumericType(types[i]) || lengths[i] != length {
        return Thrown(IllegalArgument);
      }
      i := i + 1;
    }
    if !IsNumericType(outType) {
      return Thrown(IllegalArgument);
    }
    o := Done;
  }

  predicate ArgumentsAccepted(types: seq<LargeArrayType>, lengths: seq<int>, outType: LargeArrayType)
    requires |types| == |lengths|
  {
    |types| > 0 && IsNumericType(outType) &&
    forall k :: 0 <= k < |types| ==> IsNumericType(types[k]) && lengths[k] == lengths[0]
  }

  // ---------------------------------------------------------------------------
  // The element functions of ADD, MULT, NEG, DIFF and AXPY

  /** The integer widths the element functions compute in: byte for LOGIC and BYTE
    * outputs, short for UNSIGNED_BYTE and SHORT, int and long. */
  datatype Width = ByteWidth | ShortWidth | IntWidth | LongWidth

  function Modulus(w: Width): (m: int)
    ensures 2 <= m && m % 2 == 0
  {
    match w
    case ByteWidth => BYTE_MODULUS
    case ShortWidth => SHORT_MODULUS
    case IntWidth => INT_MODULUS
    case LongWidth => LONG_MODULUS
  }

  predicate InWidth(w: Width, x: int) {
    -(Modulus(w) / 2) <= x < Modulus(w) / 2
  }

  /** The cast to the width: the two's-complement value of the low bits. */
  function Narrow(w: Width, x: int): (r: int)
    ensures InWidth(w, r)
    ensures InWidth(w, x) ==> r == x
  {
    Wrap(x, Modulus(w))
  }

  function WidthOf(t: LargeArrayType): Width
    requires IsIntegerNumericType(t)
  {
    match t
    case LOGIC | BYTE => ByteWidth
    case UNSIGNED_BYTE | SHORT => ShortWidth
    case INT => IntWidth
    case LONG => LongWidth
  }

  /** The exact sum and product, added and multiplied from the left. */
  function Sum(xs: seq<int>): int
    decreases |xs|
  {
    if |xs| == 0 then 0 else Sum(xs[..|xs| - 1]) + xs[|xs| - 1]
  }

  function Product(xs: seq<int>): int
    decreases |xs|
  {
    if |xs| == 0 then 1 else Product(xs[..|xs| - 1]) * xs[|xs| - 1]
  }

  function RealSum(rs: seq<real>): real
    decreases |rs|
  {
    if |rs| == 0 then 0.0 else RealSum(rs[..|rs| - 1]) + rs[|rs| - 1]
  }

  function RealProduct(rs: seq<real>): real
    decreases |rs|
  {
    if |rs| == 0 then 1.0 else RealProduct(rs[..|rs| - 1]) * rs[|rs| - 1]
  }

  /** ADD's integer element function, `res += in[i]` in a variable of the width: the
    * wrapped accumulator ends on the exact sum, wrapped. */
  method SumKernel(w: Width, xs: seq<int>) returns (res: int)
    ensures res == Narrow(w, Sum(xs))
  {
    res := 0;
    var i := 0;
    while i < |xs|
      invariant 0 <= i <= |xs|
      invariant res == Narrow(w, Sum(xs[..i]))
    {
      assert xs[..i + 1][..i] == xs[..i];
      WrapAdd(Sum(xs[..i]), xs[i], Modulus(w));
      res := Narrow(w, res + xs[i]);
      i := i + 1;
    }
    assert xs[..i] == xs;
  }

  /** MULT's integer element function, `res *= in[i]` from 1. */
  method ProductKernel(w: Width, xs: seq<int>) returns (res: int)
    ensures res == Narrow(w, Product(xs))
  {
    res := 1;
    var i := 0;
    while i < |xs|
      invariant 0 <= i <= |xs|
      invariant res == Narrow(w, Product(xs[..i]))
    {
      assert xs[..i + 1][..i] == xs[..i];
      WrapMul(Product(xs[..i]), xs[i], Modulus(w));
      res := Narrow(w, res * xs[i]);
      i := i + 1;
    }
    assert xs[..i] == xs;
  }

  /** ADD's float and double element function. */
  method RealSumKernel(rs: seq<real>) returns (res: real)
    ensures res == RealSum(rs)
  {
    res := 0.0;
    var i := 0;
    while i < |rs|
      invariant 0 <= i <= |rs|
      invariant res == RealSum(rs[..i])
    {
      assert rs[..i + 1][..i] == rs[..i];
      res := res + rs[i];
      i := i + 1;
    }
    assert rs[..i] == rs;
  }

  /** MULT's float and double element function. */
  method RealProductKernel(rs: seq<real>) returns (res: real)
    ensures res == RealProduct(rs)
  {
    res := 1.0;
    var i := 0;
    while i < |rs|
      invariant 0 <= i <= |rs|
      invariant res == RealProduct(rs[..i])
    {
      assert rs[..i + 1][..i] == rs[..i];
      res := res * rs[i];
      i := i + 1;
    }
    assert rs[..i] == rs;
  }

  /** AXPY's integer element function `in[0] * in[1] + in[2]`: bytes and shorts are
    * promoted to int, where the product and sum cannot overflow, and the result is cast
    * back; int and long arithmetic wraps after the product and after the sum. */
  function Axpy(w: Width, a: int, b: int, c: int): int {
    if w == IntWidth || w == LongWidth then Narrow(w, Narrow(w, a * b) + c)
    else Narrow(w, a * b + c)
  }

  /** The operators whose element functions are modelled. */
  predicate IsKernelOperator(op: Operator) {
    op in {ADD, MULT, NEG, DIFF, AXPY}
  }

  /** The integer result of an element function on its arguments. */
  function IntegerResult(op: Operator, w: Width, xs: seq<int>): (x: int)
    requires IsKernelOperator(op) && Admits(ArgCountOf(op), |xs|)
    ensures InWidth(w, x)
  {
    match op
    case ADD => Narrow(w, Sum(xs))
    case MULT => Narrow(w, Product(xs))
    case NEG => Narrow(w, -xs[0])
    case DIFF => Narrow(w, xs[0] - xs[1])
    case AXPY => Axpy(w, xs[0], xs[1], xs[2])
  }

  /** The float or double result of an element function (exact, without rounding). */
  function RealResult(op: Operator, rs: seq<real>): real
    requires IsKernelOperator(op) && Admits(ArgCountOf(op), |rs|)
  {
    match op
    case ADD => RealSum(rs)
    case MULT => RealProduct(rs)
    case NEG => -rs[0]
    case DIFF => rs[0] - rs[1]
    case AXPY => rs[0] * rs[1] + rs[2]
  }

  /** NEG undoes itself in every width, even on the minimum value, which it keeps. */
  lemma NegInvolutive(w: Width, x: int)
    requires InWidth(w, x)
    ensures IntegerResult(NEG, w, [IntegerResult(NEG, w, [x])]) == x
  {
    var m := Modulus(w);
    var n := Narrow(w, -x);
    ModAdd(n, -x, x - n, m);
    WrapCongruent(-n, x, m);
  }

  /** In int, `-Integer.MIN_VALUE` is `Integer.MIN_VALUE`. */
  lemma NegOfIntMinimum()
    ensures IntegerResult(NEG, IntWidth, [-0x8000_0000]) == -0x8000_0000
  {
    ModUnique(0x8000_0000, INT_MODULUS, 0, 0x8000_0000);
    ModUnique(-0x8000_0000, INT_MODULUS, -1, 0x8000_0000);
    WrapCongruent(0x8000_0000, -0x8000_0000, INT_MODULUS);
  }

  /** Narrowing an intermediate sum changes nothing. */
  lemma NarrowAdd(w: Width, x: int, y: int)
    ensures Narrow(w, Narrow(w, x) + y) == Narrow(w, x + y)
  {
    WrapAdd(x, y, Modulus(w));
  }

  /** The sum and the product of two numbers. */
  lemma PairSumProduct(a: int, b: int)
    ensures Sum([a, b]) == a + b && Product([a, b]) == a * b
  {
    assert [a, b][..1] == [a] && [a][..0] == [];
    assert Sum([a]) == a && Product([a]) == a;
  }

  /** DIFF is ADD of the first argument and the NEG of the second. */
  lemma DiffIsAddOfNeg(w: Width, a: int, b: int)
    ensures IntegerResult(DIFF, w, [a, b]) == IntegerResult(ADD, w, [a, IntegerResult(NEG, w, [b])])
  {
    var m := Modulus(w);
    var n := Narrow(w, -b);
    PairSumProduct(a, n);
    ModAdd(n, -b, a, m);
    WrapCongruent(n + a, -b + a, m);
  }

  /** AXPY is ADD of the MULT of the first two arguments and the third, in every width:
    * wrapping after the product, or not, gives the same result. */
  lemma AxpyIsAddOfMult(w: Width, a: int, b: int, c: int)
    ensures IntegerResult(AXPY, w, [a, b, c]) == IntegerResult(ADD, w, [IntegerResult(MULT, w, [a, b]), c])
  {
    PairSumProduct(a, b);
    var p := IntegerResult(MULT, w, [a, b]);
    PairSumProduct(p, c);
    NarrowAdd(w, a * b, c);
  }

  // ---------------------------------------------------------------------------
  // Applying an element function to the elements

  /** The integer arguments as the getters of an integer output type read them. */
  function Wholes(args: seq<Scalar>): (xs: seq<int>)
    ensures |xs| == |args| && forall k :: 0 <= k < |args| ==> xs[k] == Whole(args[k])
  {
    seq(|args|, k requires 0 <= k < |args| => Whole(args[k]))
  }

  function Reals(args: seq<Scalar>): (rs: seq<real>)
    ensures |rs| == |args| && forall k :: 0 <= k < |args| ==> rs[k] == ScalarValue(args[k])
  {
    seq(|args|, k requires 0 <= k < |args| => ScalarValue(args[k]))
  }

  /** The setter call `out.setX(i, fun.apply(args))` of the output type t: the element
    * function of the operator for t's width (or in real arithmetic) applied to the
    * arguments, handed to t's own setter (`setUnsignedByte` with a short for
    * UNSIGNED_BYTE). */
  function Kernel(op: Operator, t: LargeArrayType, args: seq<Scalar>): Assignment
    requires IsKernelOperator(op) && IsScalarType(t) && Admits(ArgCountOf(op), |args|)
  {
    match t
    case LOGIC | BYTE => SetByte(IntegerResult(op, ByteWidth, Wholes(args)))
    case UNSIGNED_BYTE => SetUnsignedByte(IntegerResult(op, ShortWidth, Wholes(args)))
    case SHORT => SetShort(IntegerResult(op, ShortWidth, Wholes(args)))
    case INT => SetInt(IntegerResult(op, IntWidth, Wholes(args)))
    case LONG => SetLong(IntegerResult(op, LongWidth, Wholes(args)))
    case FLOAT => SetFloat(RealResult(op, Reals(args)))
    case DOUBLE => SetDouble(RealResult(op, Reals(args)))
  }

  /** The integer element function `fun.apply(args)` in the width w. */
  method IntegerKernel(op: Operator, w: Width, xs: seq<int>) returns (x: int)
    requires IsKernelOperator(op) && Admits(ArgCountOf(op), |xs|)
    ensures x == IntegerResult(op, w, xs)
  {
    match op {
      case ADD => x := SumKernel(w, xs);
      case MULT => x := ProductKernel(w, xs);
      case NEG => x := Narrow(w, -xs[0]);
      case DIFF => x := Narrow(w, xs[0] - xs[1]);
      case AXPY => x := Axpy(w, xs[0], xs[1], xs[2]);
    }
  }

  /** The float or double element function `fun.apply(args)`. */
  method RealKernel(op: Operator, rs: seq<real>) returns (r: real)
    requires IsKernelOperator(op) && Admits(ArgCountOf(op), |rs|)
    ensures r == RealResult(op, rs)
  {
    match op {
      case ADD => r := RealSumKernel(rs);
      case MULT => r := RealProductKernel(rs);
      case NEG => r := -rs[0];
      case DIFF => r := rs[0] - rs[1];
      case AXPY => r := rs[0] * rs[1] + rs[2];
    }
  }

  /** `fun.apply(args)` for the output type t, handed to t's setter. */
  method ApplyKernel(op: Operator, t: LargeArrayType, args: seq<Scalar>) returns (a: Assignment)
    requires IsKernelOperator(op) && IsScalarType(t) && Admits(ArgCountOf(op), |args|)
    ensures a == Kernel(op, t, args)
  {
    if IsIntegerNumericType(t) {
      var x := IntegerKernel(op, WidthOf(t), Wholes(args));
      a := match t
        case LOGIC | BYTE => SetByte(x)
        case UNSIGNED_BYTE => SetUnsignedByte(x)
        case SHORT => SetShort(x)
        case INT => SetInt(x)
        case LONG => SetLong(x);
    } else {
      var r := RealKernel(op, Reals(args));
      a := if t == FLOAT then SetFloat(r) else SetDouble(r);
    }
  }

  /** The boxed value `fun.apply(args)` returns: a Byte, a Short (also for
    * UNSIGNED_BYTE), an Integer, a Long, a Float or a Double. */
  function Boxed(a: Assignment): (o: JavaObject)
    ensures Unbox(o).Ok?
  {
    match a
    case SetBoolean(b) => BoxedBoolean(b)
    case SetByte(x) => BoxedByte(x)
    case SetUnsignedByte(x) => BoxedShort(x)
    case SetShort(x) => BoxedShort(x)
    case SetInt(x) => BoxedInteger(x)
    case SetLong(x) => BoxedLong(x)
    case SetFloat(r) => BoxedFloat(r)
    case SetDouble(r) => BoxedDouble(r)
  }

  /** The element of the constant array `createConstant(t, length, fun.apply(args))`. */
  function ConstantElement<U>(to: Kind<U>, a: Assignment): U
    requires IsScalarType(to.arrayType)
  {
    to.constant(Cast(to.arrayType, Unbox(Boxed(a)).value))
  }

  /** `areConstantArrays(in)`: whether every argument is a constant array. */
  method AreConstantArrays<T>(ins: seq<LargeArray<T>>) returns (b: bool)
    ensures b <==> AllConstant(ins)
  {
    b := true;
    var v := 0;
    while v < |ins|
      invariant 0 <= v <= |ins|
      invariant b <==> forall u :: 0 <= u < v ==> ins[u].isConstant
    {
      b := b && ins[v].isConstant;
      v := v + 1;
    }
  }

  predicate AllConstant<T>(ins: seq<LargeArray<T>>)
    reads ins
  {
    forall v :: 0 <= v < |ins| ==> ins[v].isConstant
  }

  /** `args[v] = in[v].getX(i)` for every argument v: the getter of the output type
    * reads element i of each argument (a constant answers its value for any i). */
  method ReadArgs<T>(ins: seq<LargeArray<T>>, codec: Codec<T>, g: Getter, i: int) returns (args: seq<Scalar>)
    requires 0 <= i && IsLong(i)
    requires forall v :: 0 <= v < |ins| ==> ins[v].Valid() && (ins[v].isConstant || i < ins[v].length)
    ensures |args| == |ins|
    ensures forall v :: 0 <= v < |ins| ==> ins[v].Get(i, g, codec) == Ok(args[v])
  {
    args := [];
    var v := 0;
    while v < |ins|
      invariant 0 <= v <= |ins| && |args| == v
      invariant forall u :: 0 <= u < v ==> ins[u].Get(i, g, codec) == Ok(args[u])
    {
      var a := ins[v];
      var x := if a.isConstant then a.data[0] else a.data[i];
      args := args + [codec.decode(x, g)];
      v := v + 1;
    }
  }

  /** What the getter g reads at index i of each column. */
  function Operands<T>(cols: seq<seq<T>>, codec: Codec<T>, g: Getter, i: int): (args: seq<Scalar>)
    requires 0 <= i
    requires forall v :: 0 <= v < |cols| ==> i < |cols[v]|
    ensures |args| == |cols|
    ensures forall v :: 0 <= v < |cols| ==> args[v] == codec.decode(cols[v][i], g)
  {
    seq(|cols|, v requires 0 <= v < |cols| => codec.decode(cols[v][i], g))
  }

  /** The setter calls of the element loop, index by index, for arguments whose
    * elements are the columns, all of length n. */
  function ElementResults<T>(op: Operator, t: LargeArrayType, codec: Codec<T>, cols: seq<seq<T>>, n: nat): (vs: seq<Assignment>)
    requires IsKernelOperator(op) && IsScalarType(t) && Admits(ArgCountOf(op), |cols|)
    requires forall v :: 0 <= v < |cols| ==> |cols[v]| == n
    ensures |vs| == n
    ensures forall i :: 0 <= i < n ==> vs[i] == Kernel(op, t, Operands(cols, codec, TransferGetter(t), i))
  {
    seq(n, i requires 0 <= i < n => Kernel(op, t, Operands(cols, codec, TransferGetter(t), i)))
  }

  /** One step of the element loop, `args[v] = in[v].getX(i)` for every v and then
    * `out.setX(i, fun.apply(args))`: the run of the one setter call at i. */
  method ApplyAt<T, U>(op: Operator, ins: seq<LargeArray<T>>, from: Kind<T>, to: Kind<U>, out: LargeArray<U>,
                       i: int, ghost cols: seq<seq<T>>) returns (o: Outcome)
    requires IsKernelOperator(op) && IsScalarType(to.arrayType) && Admits(ArgCountOf(op), |ins|)
    requires out.Valid() && !out.isConstant && 0 <= i < out.length && |cols| == |ins|
    requires forall v :: 0 <= v < |ins| ==>
      ins[v].Valid() && ins[v].Elements() == cols[v] && |cols[v]| == out.length &&
      ins[v] as object != out && ins[v].data as object != out.data
    modifies out, out.data
    ensures out.Valid() && !out.isConstant && out.data == old(out.data)
    ensures (o, out.Elements()) ==
      Run(old(out.Elements()), i, [Kernel(op, to.arrayType, Operands(cols, from.codec, TransferGetter(to.arrayType), i))], to.codec.encode)
  {
    var g := TransferGetter(to.arrayType);
    var args := ReadArgs(ins, from.codec, g, i);
    assert args == Operands(cols, from.codec, g, i);
    var a := ApplyKernel(op, to.arrayType, args);
    o := out.Assign(i, a, to.codec);
  }

  /** One step of a run that stores vs[i] at i: the rest of the run from i is that
    * store followed, if it was accepted, by the run from i + 1. */
  lemma RunStep<T, U>(d: seq<T>, i: int, vs: seq<U>, put: U -> Result<T>, o: Outcome, e: seq<T>)
    requires 0 <= i < |vs| == |d|
    requires (o, e) == Run(d, i, [vs[i]], put)
    ensures |e| == |d|
    ensures Run(d, i, vs[i..], put) == if o.Thrown? then (o, e) else Run(e, i + 1, vs[i + 1..], put)
  {
    RunCons(d, i, vs[i], vs[i + 1..], put);
    assert [vs[i]] + vs[i + 1..] == vs[i..];
  }

  /** `applyXFun(res, in, 0, length, fun)`: the element loop over a fresh non-constant
    * output; the first value its setter rejects ends the loop with the exception. */
  method ApplyElements<T, U>(op: Operator, ins: seq<LargeArray<T>>, from: Kind<T>, to: Kind<U>, out: LargeArray<U>,
                             ghost cols: seq<seq<T>>) returns (o: Outcome)
    requires IsKernelOperator(op) && IsScalarType(to.arrayType) && Admits(ArgCountOf(op), |ins|)
    requires out.Valid() && !out.isConstant && |cols| == |ins|
    requires forall v :: 0 <= v < |ins| ==>
      ins[v].Valid() && ins[v].Elements() == cols[v] && |cols[v]| == out.length &&
      ins[v] as object != out && ins[v].data as object != out.data
    modifies out, out.data
    ensures out.Valid() && !out.isConstant
    ensures (o, out.Elements()) ==
      Run(old(out.Elements()), 0, ElementResults(op, to.arrayType, from.codec, cols, out.length), to.codec.encode)
  {
    ghost var vs := ElementResults(op, to.arrayType, from.codec, cols, out.length);
    ghost var run := Run(out.Elements(), 0, vs, to.codec.encode);
    var i := 0;
    while i < out.length
      invariant 0 <= i <= out.length
      invariant out.Valid() && !out.isConstant && out.data == old(out.data)
      invariant forall v :: 0 <= v < |ins| ==> ins[v].Valid() && ins[v].Elements() == cols[v]
      invariant run == Run(out.Elements(), i, vs[i..], to.codec.encode)
    {
      ghost var d := out.Elements();
      o := ApplyAt(op, ins, from, to, out, i, cols);
      RunStep(d, i, vs, to.codec.encode, o, out.Elements());
      if o.Thrown? {
        return;
      }
      i := i + 1;
    }
    o := Done;
  }

  /** What the element loop leaves in a new array of zeros of length n, and how it
    * ends, for arguments whose elements are the columns. */
  function ElementRun<T, U>(op: Operator, from: Codec<T>, to: Kind<U>, cols: seq<seq<T>>, n: nat): (run: (Outcome, seq<U>))
    requires IsKernelOperator(op) && IsScalarType(to.arrayType) && Admits(ArgCountOf(op), |cols|)
    requires forall v :: 0 <= v < |cols| ==> |cols[v]| == n
  {
    Run(Repeat(to.zero, n), 0, ElementResults(op, to.arrayType, from, cols, n), to.codec.encode)
  }

  /** The constant branch: `createConstant(outType, length, fun.apply(args))` with
    * `args[v] = in[v].getX(0)`. */
  method EvaluateConstant<T, U>(op: Operator, ins: seq<LargeArray<T>>, from: Kind<T>, to: Kind<U>, ghost cols: seq<seq<T>>)
    returns (out: LargeArray<U>)
    requires IsKernelOperator(op) && IsScalarType(to.arrayType) && Admits(ArgCountOf(op), |ins|) && 0 < |ins|
    requires |cols| == |ins|
    requires forall v :: 0 <= v < |ins| ==>
      ins[v].Valid() && ins[v].Elements() == cols[v] && |cols[v]| == ins[v].length == ins[0].length && ins[v].isConstant
    ensures fresh(out) && out.Valid() && out.isConstant
    ensures out.arrayType == to.arrayType && out.length == ins[0].length
    ensures 0 < out.length ==>
      out.Elements() == Repeat(ConstantElement(to, ElementResults(op, to.arrayType, from.codec, cols, out.length)[0]), out.length)
  {
    var n := ins[0].length;
    var t := to.arrayType;
    var args := ReadArgs(ins, from.codec, TransferGetter(t), 0);
    var a := ApplyKernel(op, t, args);
    var init := CreateConstant(t, n, Some(Boxed(a))).value;
    out := new LargeArray.Filled(t, n, to.constant(init), true);
    if 0 < n {
      assert args == Operands(cols, from.codec, TransferGetter(t), 0);
    }
  }

  /** The other branch: `create(outType, length, false)` and the element loop. */
  method EvaluateLoop<T, U>(op: Operator, ins: seq<LargeArray<T>>, from: Kind<T>, to: Kind<U>, ghost cols: seq<seq<T>>, ghost w: nat)
    returns (r: Result<LargeArray<U>>)
    requires IsKernelOperator(op) && IsScalarType(to.arrayType) && Admits(ArgCountOf(op), |ins|) && 0 < |ins|
    requires |cols| == |ins|
    requires forall v :: 0 <= v < |ins| ==>
      ins[v].Valid() && ins[v].Elements() == cols[v] && |cols[v]| == ins[v].length == ins[0].length
    requires w < |ins| && !ins[w].isConstant
    ensures var run := ElementRun(op, from.codec, to, cols, ins[0].length);
      (r.Ok? <==> run.0.Done?) &&
      (r.Ok? ==> fresh(r.value) && r.value.Valid() && !r.value.isConstant &&
                 r.value.arrayType == to.arrayType && r.value.Elements() == run.1) &&
      (r.Err? ==> run.0 == Thrown(r.error))
  {
    var c := Create(to.arrayType, ins[0].length, to.zero, false);
    var out := c.value;
    var o := ApplyElements(op, ins, from, to, out, cols);
    if o.Thrown? {
      r := Err(o.error);
    } else {
      r := Ok(out);
    }
  }

  /** `getType()` of each argument. */
  function Types<T>(ins: seq<LargeArray<T>>): (types: seq<LargeArrayType>)
    ensures |types| == |ins| && forall v :: 0 <= v < |ins| ==> types[v] == ins[v].arrayType
  {
    seq(|ins|, v requires 0 <= v < |ins| => ins[v].arrayType)
  }

  /** `length()` of each argument. */
  function Lengths<T>(ins: seq<LargeArray<T>>): (lengths: seq<int>)
    ensures |lengths| == |ins| && forall v :: 0 <= v < |ins| ==> lengths[v] == ins[v].length
  {
    seq(|ins|, v requires 0 <= v < |ins| => ins[v].length)
  }

  /** Whether `op.evaluate(outputType, args)` gets past its checks with the output type
    * t: those of `evaluate` and then those of `evaluateVarArgFunction`. */
  predicate Accepted<T>(op: Operator, outputType: Option<LargeArrayType>, ins: seq<LargeArray<T>>, t: LargeArrayType) {
    OutputType(op, outputType, Types(ins)).Ok? && ArgumentsAccepted(Types(ins), Lengths(ins), t)
  }

  /** The checks of `evaluate` and then those of `evaluateVarArgFunction`, with t the
    * output type they settle on. */
  method Check<T>(op: Operator, outputType: Option<LargeArrayType>, ins: seq<LargeArray<T>>, t: LargeArrayType) returns (o: Outcome)
    requires OutputType(op, outputType, Types(ins)).Ok? ==> OutputType(op, outputType, Types(ins)).value == t
    ensures o.Done? <==> Accepted(op, outputType, ins, t)
    ensures o.Thrown? ==> o.error == IllegalArgument
    ensures o.Done? ==> 0 < |ins| && Admits(ArgCountOf(op), |ins|) && forall v :: 0 <= v < |ins| ==> ins[v].length == ins[0].length
  {
    var out := OutputType(op, outputType, Types(ins));
    if out.Err? {
      return Thrown(out.error);
    }
    o := CheckArguments(Types(ins), Lengths(ins), t);
    if o.Done? {
      assert forall v :: 0 <= v < |ins| ==> Lengths(ins)[v] == Lengths(ins)[0];
    }
  }

  /** `op.evaluate(outputType, args)` for ADD, MULT, NEG, DIFF and AXPY over arguments
    * of one element type that are not complex, all read with the getters of their kind
    * `from`, producing an array of kind `to`, which must be of the output type the checks
    * settle on. */
  method Evaluate<T, U>(op: Operator, outputType: Option<LargeArrayType>, ins: seq<LargeArray<T>>, from: Kind<T>, to: Kind<U>,
                        ghost cols: seq<seq<T>>)
    returns (r: Result<LargeArray<U>>)
    requires IsKernelOperator(op) && IsScalarType(to.arrayType) && |cols| == |ins|
    requires forall v :: 0 <= v < |ins| ==>
      ins[v].Valid() && ins[v].Elements() == cols[v] && !IsComplexNumericType(ins[v].arrayType)
    requires forall v :: 0 <= v < |ins| ==> ins[v].arrayType == from.arrayType
    requires OutputType(op, outputType, Types(ins)).Ok? ==> OutputType(op, outputType, Types(ins)).value == to.arrayType
    ensures !Accepted(op, outputType, ins, to.arrayType) ==> r == Err(IllegalArgument)
    ensures Accepted(op, outputType, ins, to.arrayType) ==>
      0 < |ins| && Admits(ArgCountOf(op), |ins|) &&
      forall v :: 0 <= v < |ins| ==> |cols[v]| == ins[v].length == ins[0].length
    ensures Accepted(op, outputType, ins, to.arrayType) && AllConstant(ins) ==>
      r.Ok? && fresh(r.value) && r.value.Valid() && r.value.isConstant &&
      r.value.arrayType == to.arrayType && r.value.length == ins[0].length &&
      (0 < ins[0].length ==>
        r.value.Elements() == Repeat(ConstantElement(to, ElementResults(op, to.arrayType, from.codec, cols, ins[0].length)[0]), ins[0].length))
    ensures Accepted(op, outputType, ins, to.arrayType) && !AllConstant(ins) ==>
      var run := ElementRun(op, from.codec, to, cols, ins[0].length);
      (r.Ok? <==> run.0.Done?) &&
      (r.Ok? ==> fresh(r.value) && r.value.Valid() && !r.value.isConstant &&
                 r.value.arrayType == to.arrayType && r.value.Elements() == run.1) &&
      (r.Err? ==> run.0 == Thrown(r.error))
  {
    var checked := Check(op, outputType, ins, to.arrayType);
    if checked.Thrown? {
      return Err(checked.error);
    }
    var constant := AreConstantArrays(ins);
    if constant {
      var a := EvaluateConstant(op, ins, from, to, cols);
      r := Ok(a);
    } else {
      ghost var w :| 0 <= w < |ins| && !ins[w].isConstant;
      r := EvaluateLoop(op, ins, from, to, cols, w);
    }
  }

  // ---------------------------------------------------------------------------
  // The constant shortcut against the element loop

  /** Columns of length n that each repeat one value: the elements of constant arrays. */
  ghost predicate ConstantColumns<T>(cols: seq<seq<T>>, n: nat) {
    forall v :: 0 <= v < |cols| ==> |cols[v]| == n && forall i :: 0 <= i < n ==> cols[v][i] == cols[v][0]
  }

  /** When the output's setter stores the result of the element function just as the
    * constant constructor keeps it, the element loop over constant arguments completes
    * and leaves the array the constant shortcut builds. */
  lemma {:induction false} ShortcutMatchesLoop<T, U>(op: Operator, from: Codec<T>, to: Kind<U>, cols: seq<seq<T>>, n: nat)
    requires IsKernelOperator(op) && IsScalarType(to.arrayType) && Admits(ArgCountOf(op), |cols|) && 0 < n
    requires ConstantColumns(cols, n)
    requires var a := ElementResults(op, to.arrayType, from, cols, n)[0]; to.codec.encode(a) == Ok(ConstantElement(to, a))
    ensures ElementRun(op, from, to, cols, n) ==
            (Done, Repeat(ConstantElement(to, ElementResults(op, to.arrayType, from, cols, n)[0]), n))
  {
    var vs := ElementResults(op, to.arrayType, from, cols, n);
    var g := TransferGetter(to.arrayType);
    var c := ConstantElement(to, vs[0]);
    forall i | 0 <= i < n
      ensures vs[i] == vs[0]
    {
      assert Operands(cols, from, g, i) == Operands(cols, from, g, 0);
    }
    RunAccepted(Repeat(to.zero, n), 0, vs, to.codec.encode);
    assert Stores(vs, to.codec.encode) == Repeat(c, n);
    assert Splice(Repeat(to.zero, n), 0, Repeat(c, n)) == Repeat(c, n);
  }

  /** For a SHORT output the constant shortcut is exact: over constant arguments, the
    * element loop would have built the same array. */
  lemma {:induction false} ShortShortcutIsExact<T>(op: Operator, from: Codec<T>, cols: seq<seq<T>>, n: nat)
    requires IsKernelOperator(op) && Admits(ArgCountOf(op), |cols|) && 0 < n && ConstantColumns(cols, n)
    ensures ElementRun(op, from, ShortKind, cols, n) ==
            (Done, Repeat(ConstantElement(ShortKind, ElementResults(op, SHORT, from, cols, n)[0]), n))
  {
    ConstantIsWhatSetStores(Boxed(ElementResults(op, SHORT, from, cols, n)[0]));
    ShortcutMatchesLoop(op, from, ShortKind, cols, n);
  }

  /** The same for a LONG output. */
  lemma {:induction false} LongShortcutIsExact<T>(op: Operator, from: Codec<T>, cols: seq<seq<T>>, n: nat)
    requires IsKernelOperator(op) && Admits(ArgCountOf(op), |cols|) && 0 < n && ConstantColumns(cols, n)
    ensures ElementRun(op, from, LongKind, cols, n) ==
            (Done, Repeat(ConstantElement(LongKind, ElementResults(op, LONG, from, cols, n)[0]), n))
  {
    ConstantIsWhatSetStores(Boxed(ElementResults(op, LONG, from, cols, n)[0]));
    ShortcutMatchesLoop(op, from, LongKind, cols, n);
  }

  /** The same for a DOUBLE output. */
  lemma {:induction false} DoubleShortcutIsExact<T>(op: Operator, from: Codec<T>, cols: seq<seq<T>>, n: nat)
    requires IsKernelOperator(op) && Admits(ArgCountOf(op), |cols|) && 0 < n && ConstantColumns(cols, n)
    ensures ElementRun(op, from, DoubleKind, cols, n) ==
            (Done, Repeat(ConstantElement(DoubleKind, ElementResults(op, DOUBLE, from, cols, n)[0]), n))
  {
    ConstantIsWhatSetStores(Boxed(ElementResults(op, DOUBLE, from, cols, n)[0]));
    ShortcutMatchesLoop(op, from, DoubleKind, cols, n);
  }

  /** UNSIGNED_BYTE: 200 + 100 = 300 as a short. The element loop hands 300 to
    * `setUnsignedByte`, which throws IllegalArgumentException; the constant shortcut
    * hands it to `createConstant`, whose constructor keeps `(byte) (0xFF & 300)`, 44. */
  lemma UnsignedByteShortcutWraps()
    ensures var cols := [[-56 as int8], [100 as int8]];
      ElementRun(ADD, UnsignedByteLargeArrays.Codec, UnsignedByteKind, cols, 1).0 == Thrown(IllegalArgument) &&
      UnsignedByteLargeArrays.Value(ConstantElement(UnsignedByteKind, ElementResults(ADD, UNSIGNED_BYTE, UnsignedByteLargeArrays.Codec, cols, 1)[0])) == 44
  {
    var cols := [[-56 as int8], [100 as int8]];
    var args := Operands(cols, UnsignedByteLargeArrays.Codec, GetUnsignedByte, 0);
    assert args == [Integral(200), Integral(100)];
    assert Wholes(args) == [200, 100];
    PairSumProduct(200, 100);
    var vs := ElementResults(ADD, UNSIGNED_BYTE, UnsignedByteLargeArrays.Codec, cols, 1);
    assert vs == [SetUnsignedByte(300)];
    assert IntView(SetShort(300)) == 300;
  }

  /** LOGIC: 1 + 1 = 2 as a byte. The element loop hands 2 to `setByte`, which throws
    * IllegalArgumentException; the constant shortcut builds a LOGIC array holding 2,
    * which is not a logic value. */
  lemma LogicShortcutKeepsTwo()
    ensures var cols := [[1 as int8], [1 as int8]];
      ElementRun(ADD, LogicLargeArrays.Codec, LogicKind, cols, 1).0 == Thrown(IllegalArgument) &&
      ConstantElement(LogicKind, ElementResults(ADD, LOGIC, LogicLargeArrays.Codec, cols, 1)[0]) == 2 &&
      !LogicLargeArrays.AllBits([2])
  {
    var cols := [[1 as int8], [1 as int8]];
    var args := Operands(cols, LogicLargeArrays.Codec, GetByte, 0);
    assert args == [Integral(1), Integral(1)];
    assert Wholes(args) == [1, 1];
    PairSumProduct(1, 1);
    var vs := ElementResults(ADD, LOGIC, LogicLargeArrays.Codec, cols, 1);
    assert vs == [SetByte(2)];
    assert LogicLargeArrays.Encode(SetByte(2)) == Err(IllegalArgument);
    assert IntView(SetByte(2)) == 2;
    assert LogicLargeArrays.Codec.encode(vs[0]) == Err(IllegalArgument);
    assert Run(Repeat(0 as int8, 1), 0, vs, LogicLargeArrays.Codec.encode).0 == Thrown(IllegalArgument);
    assert ConstantElement(LogicKind, vs[0]) == 2;
    assert [2 as int8][0] == 2;
  }

  // ---------------------------------------------------------------------------
  // Complex arguments of the var-arg operators

  /** `areConstantArrays` over slots of a Java array that may hold null: `res && a.isConstant()`
    * calls `isConstant()` only while every earlier array was constant, and calling it
    * on null throws NullPointerException. */
  function ConstantScan<A>(slots: seq<Option<A>>, isConstant: A -> bool): (r: Result<bool>)
    ensures (forall k :: 0 <= k < |slots| ==> slots[k].Some?) ==>
              r == Ok(forall k :: 0 <= k < |slots| ==> isConstant(slots[k].value))
    ensures 0 < |slots| && slots[0].None? ==> r == Err(NullPointer)
    decreases |slots|
  {
    if |slots| == 0 then Ok(true)
    else if slots[0].None? then Err(NullPointer)
    else if !isConstant(slots[0].value) then Ok(false)
    else
      assert forall k :: 1 <= k < |slots| ==> slots[1..][k - 1] == slots[k];
      ConstantScan(slots[1..], isConstant)
  }

  /** The loop of `areConstantArrays` over slots that may hold null. */
  method AreConstantSlots<A>(slots: seq<Option<A>>, isConstant: A -> bool) returns (r: Result<bool>)
    ensures r == ConstantScan(slots, isConstant)
  {
    var res := true;
    var k := 0;
    while k < |slots|
      invariant 0 <= k <= |slots|
      invariant ConstantScan(slots, isConstant) == if res then ConstantScan(slots[k..], isConstant) else Ok(false)
    {
      assert slots[k..][1..] == slots[k + 1..];
      if res {
        if slots[k].None? {
          return Err(NullPointer);
        }
        res := isConstant(slots[k].value);
      }
      k := k + 1;
    }
    r := Ok(res);
  }

  /** Each present slot converted. */
  function Converted<A>(slots: seq<Option<A>>, toComplex: A -> A): (r: seq<Option<A>>)
    ensures |r| == |slots|
    ensures forall k :: 0 <= k < |slots| ==>
      r[k] == if slots[k].Some? then Some(toComplex(slots[k].value)) else None
  {
    seq(|slots|, k requires 0 <= k < |slots| => if slots[k].Some? then Some(toComplex(slots[k].value)) else None)
  }

  /** `evaluateVarArgFunctionComplexDouble` as written, up to its constant check: the
    * converted arguments are stored back into the caller's array `in` rather than into
    * the new `inComplex`, so `areConstantArrays(inComplex)` meets a null first slot. */
  method ComplexDoubleArgsAsWritten<A>(input: array<Option<A>>, toComplex: A -> A, isConstant: A -> bool)
    returns (r: Result<bool>)
    requires forall k :: 0 <= k < input.Length ==> input[k].Some?
    modifies input
    ensures input[..] == Converted(old(input[..]), toComplex)
    ensures 0 < input.Length ==> r == Err(NullPointer)
  {
    var inComplex := new Option<A>[input.Length](_ => None);
    var i := 0;
    while i < input.Length
      invariant 0 <= i <= input.Length
      invariant forall k :: 0 <= k < i ==> input[k] == Some(toComplex(old(input[k]).value))
      invariant forall k :: i <= k < input.Length ==> input[k] == old(input[k])
      invariant inComplex.Length == input.Length && forall k :: 0 <= k < inComplex.Length ==> inComplex[k].None?
    {
      input[i] := Some(toComplex(input[i].value));
      i := i + 1;
    }
    r := AreConstantSlots(inComplex[..], isConstant);
  }

  /** `evaluateVarArgFunctionComplexFloat`, and the evidently intended COMPLEX_DOUBLE
    * twin: the converted arguments go into the new array, the caller's array is left
    * alone, and the constant check sees every converted argument. */
  method ComplexArgs<A>(input: array<Option<A>>, toComplex: A -> A, isConstant: A -> bool)
    returns (inComplex: array<Option<A>>, r: Result<bool>)
    requires forall k :: 0 <= k < input.Length ==> input[k].Some?
    ensures fresh(inComplex)
    ensures inComplex[..] == Converted(input[..], toComplex)
    ensures r == Ok(forall k :: 0 <= k < input.Length ==> isConstant(toComplex(input[k].value)))
  {
    inComplex := new Option<A>[input.Length](_ => None);
    var i := 0;
    while i < input.Length
      invariant 0 <= i <= input.Length
      invariant forall k :: 0 <= k < i ==> inComplex[k] == Some(toComplex(input[k].value))
    {
      inComplex[i] := Some(toComplex(input[i].value));
      i := i + 1;
    }
    r := AreConstantSlots(inComplex[..], isConstant);
  }
}
