// The element types of a large array, in declaration order (the order
// drives type promotion through `ordinal()`).
module LargeArrayTypes {

  datatype LargeArrayType =
    | LOGIC | BYTE | UNSIGNED_BYTE | SHORT | INT | LONG
    | FLOAT | DOUBLE | COMPLEX_FLOAT | COMPLEX_DOUBLE | STRING | OBJECT

  /** Position in the enum declaration. */
  function Ordinal(t: LargeArrayType): (n: nat)
    ensures n < 12
  {
    match t
    case LOGIC => 0
    case BYTE => 1
    case UNSIGNED_BYTE => 2
    case SHORT => 3
    case INT => 4
    case LONG => 5
    case FLOAT => 6
    case DOUBLE => 7
    case COMPLEX_FLOAT => 8
    case COMPLEX_DOUBLE => 9
    case STRING => 10
    case OBJECT => 11
  }

  /** Bytes per element (per part for the complex types). */
  function SizeOf(t: LargeArrayType): (n: int)
    ensures n in {1, 2, 4, 8}
    ensures n == 8 <==> t in {LONG, DOUBLE, COMPLEX_DOUBLE}
    ensures n == 4 <==> t in {INT, FLOAT, COMPLEX_FLOAT}
    ensures n == 2 <==> t == SHORT
  {
    match t
    case SHORT => 2
    case INT | FLOAT | COMPLEX_FLOAT => 4
    case LONG | DOUBLE | COMPLEX_DOUBLE => 8
    case _ => 1
  }

  predicate IsNumericType(t: LargeArrayType) {
    t != STRING && t != OBJECT
  }

  predicate IsIntegerNumericType(t: LargeArrayType) {
    t in {LOGIC, BYTE, UNSIGNED_BYTE, SHORT, INT, LONG}
  }

  predicate IsRealNumericType(t: LargeArrayType) {
    t == FLOAT || t == DOUBLE
  }

  predicate IsComplexNumericType(t: LargeArrayType) {
    t == COMPLEX_FLOAT || t == COMPLEX_DOUBLE
  }

  /** The ordinal is injective, so comparing ordinals totally orders the types. */
  lemma OrdinalInjective(s: LargeArrayType, t: LargeArrayType)
    ensures Ordinal(s) == Ordinal(t) <==> s == t
  {}

  /** Every numeric type is in exactly one category; the others are in none. */
  lemma CategoriesPartition(t: LargeArrayType)
    ensures IsNumericType(t) <==>
      (IsIntegerNumericType(t) || IsRealNumericType(t) || IsComplexNumericType(t))
    ensures !(IsIntegerNumericType(t) && IsRealNumericType(t))
    ensures !(IsIntegerNumericType(t) && IsComplexNumericType(t))
    ensures !(IsRealNumericType(t) && IsComplexNumericType(t))
  {}

  /** The categories are ordinal intervals: integer < real < complex < non-numeric. */
  lemma CategoriesByOrdinal(t: LargeArrayType)
    ensures IsIntegerNumericType(t) <==> Ordinal(t) <= Ordinal(LONG)
    ensures IsRealNumericType(t) <==> Ordinal(FLOAT) <= Ordinal(t) <= Ordinal(DOUBLE)
    ensures IsComplexNumericType(t) <==> Ordinal(COMPLEX_FLOAT) <= Ordinal(t) <= Ordinal(COMPLEX_DOUBLE)
    ensures IsNumericType(t) <==> Ordinal(t) < Ordinal(STRING)
  {}
}
