# Metronome tempo estimator and JLargeArrays, in Dafny

This project models two parts of an Android metronome app.

**The tempo estimator (`BPMCounter`).** Accelerometer samples go into a fixed array of `recordsToKeep * HISTORY` slots. Every `updateFrequency` samples, the last `recordsToKeep` samples are analysed axis by axis. The axis with the strongest spectral peak in the allowed tempo range gives the tempo. When the array is full, its last `recordsToKeep` samples move to the front. The model is a class with the same fields. It proves that each analysis sees exactly the last `recordsToKeep` samples recorded, that every index stays inside the array, and what the range, peak and axis selection choose. The FFT is a parameter.

**The JLargeArrays library, in heap mode.** Typed arrays of up to 2^63 elements are kept in Java arrays.
- A constant array stores one value and materialises copy-on-write on the first store.
- The typed getters and setters convert with Java's narrowing and widening casts, and the logic and unsigned byte arrays check their values.
- The `_safe` accessors check bounds.
- `LargeArrayUtils` provides `arraycopy`, `subarraycopy` with its clipping, `createConstant`, `convert` and `select`.
- `LargeArrayOperator` provides type promotion, argument checks and element functions that wrap around.
- `MemoryCounter` counts native bytes.

Each array class is a Dafny class over a `seq` of elements. Its setters are methods whose contracts state the new elements. Each typed array pairs the shared `LargeArrays.LargeArray<T>` storage with a codec saying how its setters store and its getters read. Java's fixed-width integers are unbounded integers wrapped explicitly (module `JavaInts`). Float and double values are reals.

Modules, one per file: `Wrappers`, `JavaInts`, `JavaValues`, `LargeArrayTypes`, `LargeArrays`, `LogicLargeArrays`, `UnsignedByteLargeArrays`, `ShortLargeArrays`, `LongLargeArrays`, `DoubleLargeArrays`, `StringLargeArrays`, `ObjectLargeArrays`, `ComplexLargeArrays`, `LargeArrayCopies`, `ComplexArrayCopies`, `LargeArrayRegions`, `LargeArrayConversions`, `LargeArrayOperators`, `MemoryCounters`, `Metronome`.

Where the code departs from what its documentation or its sibling code evidently intends, the model has both versions: one member states the behaviour as written and shows the discrepancy, and a corrected member is the one the rest of the model uses. These pairs are listed under "## Findings".

## Model

| member | source | states |
|---|---|---|
| Metronome.FirstAboveFrom | app/src/main/java/com/example/metronome2/BPMCounter.java:224-231 | the index found is -1 exactly when no frequency from `from` on exceeds the threshold, and otherwise the first one that does |
| Metronome.FindBpmRange | app/src/main/java/com/example/metronome2/BPMCounter.java:215-231 | the loop leaves min_index and max_index at the first bins above MIN_BPM/60 and MAX_BPM/60, or -1 |
| Metronome.FirstAboveUnique | app/src/main/java/com/example/metronome2/BPMCounter.java:224-231 | any index with the first-above property (or -1 when none exceeds) is the one the loop finds |
| Metronome.RangeOrdered | app/src/main/java/com/example/metronome2/BPMCounter.java:215-231 | against a higher threshold the first bin found never comes before the one found against a lower threshold |
| Metronome.Scan | app/src/main/java/com/example/metronome2/BPMCounter.java:248-259 | the argmax loop always ends on an index of the magnitude array |
| Metronome.ScanFindsEarliestMax | app/src/main/java/com/example/metronome2/BPMCounter.java:248-259 | the argmax loop ends on the earliest strictly largest magnitude among the indices it may pick, or stays on its start |
| Metronome.PeakIndices | app/src/main/java/com/example/metronome2/BPMCounter.java:244-265 | the peak search is defined (no ArrayIndexOutOfBoundsException) exactly when min_index is a valid bin and max_index does not pass the end |
| Metronome.PeakIndicesSelect | app/src/main/java/com/example/metronome2/BPMCounter.java:244-260 | best_index is the earliest largest magnitude of [min_index, max_index); second_best_index the earliest largest of the others, or min_index when best_index is min_index |
| Metronome.PickPeaks | app/src/main/java/com/example/metronome2/BPMCounter.java:244-260 | the two argmax loops compute PeakIndices |
| Metronome.ReadingOf | app/src/main/java/com/example/metronome2/BPMCounter.java:262-279 | the weight returned is the magnitude at best_index; non-adjacent peaks return the frequency at best_index; adjacent peaks return a frequency between the two peaks' frequencies, equal to one of them when the other's magnitude is zero and to their midpoint for equal magnitudes, and NaN exactly when both magnitudes are zero |
| Metronome.WeightedAverage | app/src/main/java/com/example/metronome2/BPMCounter.java:269-276 | an average weighted by non-negative weights of positive sum lies between the two values, is the value with the only non-zero weight, and is the midpoint for equal weights |
| Metronome.AxisValues | app/src/main/java/com/example/metronome2/BPMCounter.java:192-202 | the values fed to the transform are the chosen coordinate of each sample, in order |
| Metronome.WindowOf | app/src/main/java/com/example/metronome2/BPMCounter.java:187-188 | the slots run_fft reads are data[dataStart * updateFrequency + i], cut short where they would pass the array |
| Metronome.GatherWindow | app/src/main/java/com/example/metronome2/BPMCounter.java:186-204 | the read loop returns an empty array at the first null slot, throws when it runs past the array, and otherwise yields the window's samples |
| Metronome.ChooseAxis | app/src/main/java/com/example/metronome2/BPMCounter.java:137-147 | X is chosen exactly when its weight is strictly larger than both others, Y when it is at least X's and strictly larger than Z's, Z otherwise |
| Metronome.MultipleIsAligned | app/src/main/java/com/example/metronome2/BPMCounter.java:21 | with updateFrequency dividing recordsToKeep, every window start and end is a multiple of updateFrequency |
| Metronome.FiresAtWindowEnd | app/src/main/java/com/example/metronome2/BPMCounter.java:125-128 | between calls, currPos + 1 is a multiple of updateFrequency exactly when it closes the window starting at dataStart * updateFrequency |
| Metronome.AlignedEndFits | app/src/main/java/com/example/metronome2/BPMCounter.java:128-131 | a window end that is a multiple of updateFrequency never passes the array's end |
| Metronome.LengthIsMultiple | app/src/main/java/com/example/metronome2/BPMCounter.java:99 | the array length recordsToKeep * HISTORY is a multiple of updateFrequency |
| Metronome.BPMCounter.constructor | app/src/main/java/com/example/metronome2/BPMCounter.java:90-106 | recordsToKeep zero samples at the front, null elsewhere, currPos = recordsToKeep, dataStart = 1, and the layout invariant holds |
| Metronome.BPMCounter.ClearHistory | app/src/main/java/com/example/metronome2/BPMCounter.java:166-174 | the last recordsToKeep slots move to the front of a new array of the same length, the rest is null, dataStart = 0, currPos = recordsToKeep, and the recorded samples are still tracked |
| Metronome.BPMCounter.WindowHoldsLastSamples | app/src/main/java/com/example/metronome2/BPMCounter.java:149-156 | when the window ends at currPos it lies inside the array and holds exactly the last recordsToKeep samples |
| Metronome.BPMCounter.RunFft | app/src/main/java/com/example/metronome2/BPMCounter.java:185-280 | an empty result at a null slot, ArrayIndexOutOfBoundsException when the window passes the array, otherwise the reading of the transform of the window |
| Metronome.BPMCounter.AnalyseWindow | app/src/main/java/com/example/metronome2/BPMCounter.java:133-147 | the estimate is the frequency of the heaviest axis of the window, or the exception run_fft throws |
| Metronome.BPMCounter.Store | app/src/main/java/com/example/metronome2/BPMCounter.java:124-125 | the sample is written at currPos and appended to the tracked samples; currPos advances by one |
| Metronome.BPMCounter.Rewind | app/src/main/java/com/example/metronome2/BPMCounter.java:129-132 | clearHistory runs exactly when currPos reached the array's end; afterwards the window ends at currPos inside the array and holds the last recordsToKeep samples |
| Metronome.BPMCounter.Advance | app/src/main/java/com/example/metronome2/BPMCounter.java:156 | dataStart moves on by one window and the layout invariant is restored |
| Metronome.BPMCounter.CloseWindow | app/src/main/java/com/example/metronome2/BPMCounter.java:128-157 | the estimate of the last recordsToKeep samples, with currPos and dataStart as record leaves them |
| Metronome.BPMCounter.Record | app/src/main/java/com/example/metronome2/BPMCounter.java:123-160 | the sample is appended; the analysis fires exactly when currPos reaches a multiple of updateFrequency and then estimates the last recordsToKeep samples; otherwise -1 is returned and the state only advances currPos |
| JavaInts.Wrap | app/src/main/java/org/visnow/jlargearrays/ShortLargeArray.java:781-794 | a narrowing cast keeps the unique value of the target range congruent to the argument, and leaves a value already in range alone |
| JavaInts.ToByte | app/src/main/java/org/visnow/jlargearrays/ShortLargeArray.java:183-192 | `(byte) v` is a byte, congruent to v modulo 2^8, and v itself when v is already a byte |
| JavaInts.ToShort | app/src/main/java/org/visnow/jlargearrays/ShortLargeArray.java:781-794 | `(short) v` is a short, congruent to v modulo 2^16, and v itself when v is already a short |
| JavaInts.ToInt | app/src/main/java/org/visnow/jlargearrays/LongLargeArray.java:222-232 | `(int) v` is an int, congruent to v modulo 2^32, and v itself when v is already an int |
| JavaInts.ToLong | app/src/main/java/org/visnow/jlargearrays/MemoryCounter.java:59-62 | long arithmetic wraps: the result is a long congruent to the exact value modulo 2^64, and the exact value when it fits |
| JavaInts.UnsignedByte | app/src/main/java/org/visnow/jlargearrays/ShortLargeArray.java:195-204 | `0xFF & v` lies in 0 ... 255 and is congruent to v modulo 256 |
| JavaInts.WrapNarrowing | app/src/main/java/org/visnow/jlargearrays/LongLargeArray.java:186-195 | casting to a wider type first and to a narrower one afterwards is the narrow cast alone |
| JavaInts.ByteOfShort | app/src/main/java/org/visnow/jlargearrays/ShortLargeArray.java:183-192 | `(byte) (short) v == (byte) v` |
| JavaInts.ByteOfInt | app/src/main/java/org/visnow/jlargearrays/LongLargeArray.java:186-195 | `(byte) (int) v == (byte) v` |
| JavaInts.ShortOfInt | app/src/main/java/org/visnow/jlargearrays/LongLargeArray.java:210-219 | `(short) (int) v == (short) v` |
| JavaInts.IntOfLong | app/src/main/java/org/visnow/jlargearrays/LongLargeArray.java:222-232 | `(int) (long) v == (int) v` |
| JavaInts.WrapAdd | app/src/main/java/org/visnow/jlargearrays/LargeArrayOperator.java:158-190 | an accumulator kept in a narrow type (`res += in[i]`) ends with the wrapped exact sum |
| JavaInts.WrapMul | app/src/main/java/org/visnow/jlargearrays/LargeArrayOperator.java:144-200 | the same for a product: wrapping an intermediate product does not change the wrapped result |
| JavaInts.UnsignedByteRoundTrip | app/src/main/java/org/visnow/jlargearrays/UnsignedByteLargeArray.java:803-820 | storing `(byte) u` for u in 0 ... 255 and reading `0xFF & b` gives u back |
| JavaInts.SignedByteRoundTrip | app/src/main/java/org/visnow/jlargearrays/UnsignedByteLargeArray.java:214-223 | for a signed byte b, `(byte) (0xFF & b) == b` |
| JavaInts.BitwiseOnBits | app/src/main/java/org/visnow/jlargearrays/LogicLargeArray.java:887-930 | on 0 and 1 the byte operators `&`, `\|` and `^` are conjunction, disjunction and exclusive or |
| JavaValues.IntegralArgument | app/src/main/java/org/visnow/jlargearrays/LongLargeArray.java:731-814 | the boolean and integer setters carry an integer (true as 1, false as 0) that fits a long and equals the argument's number; the float and double setters carry none |
| JavaValues.Unbox | app/src/main/java/org/visnow/jlargearrays/LargeArray.java:604-623 | `set(i, Object)` accepts exactly the seven boxed primitive types and throws IllegalArgumentException for anything else |
| JavaValues.Truncate | app/src/main/java/org/visnow/jlargearrays/DoubleLargeArray.java:220-229 | rounding toward zero: the result is the integer between 0 and r that is less than one away from r |
| JavaValues.RealToInt | app/src/main/java/org/visnow/jlargearrays/DoubleLargeArray.java:220-229 | `(int) d` is an int, and is d rounded toward zero whenever that fits an int |
| JavaValues.RealToLong | app/src/main/java/org/visnow/jlargearrays/DoubleLargeArray.java:232-241 | `(long) d` is a long, and is d rounded toward zero whenever that fits a long |
| JavaValues.RealToIntOfInt | app/src/main/java/org/visnow/jlargearrays/DoubleLargeArray.java:782-795 | a whole number of int range stored as a double casts back to itself through `(int)` and `(long)` |
| JavaValues.DigitChar | app/src/main/java/org/visnow/jlargearrays/StringLargeArray.java:885-888 | a digit value maps to a character '0' ... '9' |
| JavaValues.Digits | app/src/main/java/org/visnow/jlargearrays/StringLargeArray.java:885-888 | the decimal digits of a natural number are a non-empty string of digit characters without a leading zero |
| JavaValues.DecimalString | app/src/main/java/org/visnow/jlargearrays/StringLargeArray.java:885-894 | `Integer.toString` / `Long.toString` is non-empty and starts with '-' exactly for negative numbers |
| JavaValues.BooleanString | app/src/main/java/org/visnow/jlargearrays/StringLargeArray.java:861-864 | `Boolean.toString` has 4 characters for true and 5 for false |
| JavaValues.DigitsRoundTrip | app/src/main/java/org/visnow/jlargearrays/StringLargeArray.java:885-894 | reading back the digits of n gives n |
| JavaValues.UnsignedDigitsValue | app/src/main/java/org/visnow/jlargearrays/StringLargeArray.java:885-894 | a string of digits parses as its digit value |
| JavaValues.SignedDigitsValue | app/src/main/java/org/visnow/jlargearrays/StringLargeArray.java:885-894 | a minus sign followed by digits parses as minus their value |
| JavaValues.NegativeDecimalRoundTrip | app/src/main/java/org/visnow/jlargearrays/StringLargeArray.java:885-894 | the decimal text of a negative number parses back as that number |
| JavaValues.DecimalRoundTrip | app/src/main/java/org/visnow/jlargearrays/StringLargeArray.java:885-894 | the text `setByte` ... `setLong` store is the decimal notation of the argument: read as a decimal it gives the argument back, for every integer |
| LargeArrayTypes.Ordinal | app/src/main/java/org/visnow/jlargearrays/LargeArrayType.java:39-268 | each of the twelve constants has a position below 12 in the declaration |
| LargeArrayTypes.SizeOf | app/src/main/java/org/visnow/jlargearrays/LargeArrayType.java:99-279 | the element size in bytes is 1, 2, 4 or 8: 8 exactly for LONG, DOUBLE and COMPLEX_DOUBLE, 4 exactly for INT, FLOAT and COMPLEX_FLOAT, 2 exactly for SHORT |
| LargeArrayTypes.OrdinalInjective | app/src/main/java/org/visnow/jlargearrays/LargeArrayType.java:39-268 | two types have the same ordinal exactly when they are the same type, so ordinals order the types totally |
| LargeArrayTypes.CategoriesPartition | app/src/main/java/org/visnow/jlargearrays/LargeArrayType.java:43-319 | a type is numeric exactly when it is integer, real or complex, and no type is both integer and real |
| LargeArrayTypes.CategoriesByOrdinal | app/src/main/java/org/visnow/jlargearrays/LargeArrayType.java:39-268 | the integer, real and complex types are consecutive ordinal intervals in that order, all before STRING |
| LargeArrays.Stored | app/src/main/java/org/visnow/jlargearrays/ShortLargeArray.java:765-778 | `data[(int) i] = v` on the heap: inside the array it writes v at i and keeps every other element; an index outside throws ArrayIndexOutOfBoundsException and changes nothing |
| LargeArrays.Assigned | app/src/main/java/org/visnow/jlargearrays/ShortLargeArray.java:727-842 | a typed setter completes exactly when the conversion accepts the value and the index addresses an element; it then holds the converted value at that index; a rejected value throws the conversion's exception and a bad index ArrayIndexOutOfBoundsException with nothing changed; no other element ever changes and the length is kept |
| LargeArrays.LargeArray.Materialised | app/src/main/java/org/visnow/jlargearrays/ShortLargeArray.java:885-905 | what `allocateMemory(true, getX(0), false)` leaves for the length of the array; when the refill keeps the constant, the elements read the same as before |
| LargeArrays.LargeArray.Filled | app/src/main/java/org/visnow/jlargearrays/ShortLargeArray.java:93-101 | a new array of the given type and length whose every element is the initial value, constant or not as asked |
| LargeArrays.LargeArray.Wrap | app/src/main/java/org/visnow/jlargearrays/ShortLargeArray.java:108-113 | an array built from a Java array uses that very array (no copy) and holds its elements |
| LargeArrays.LargeArray.At | app/src/main/java/org/visnow/jlargearrays/ShortLargeArray.java:207-216 | `getShort(i)` on the heap: element i inside the array; outside it a constant array still answers and only a non-constant one throws ArrayIndexOutOfBoundsException |
| LargeArrays.LargeArray.AtSafe | app/src/main/java/org/visnow/jlargearrays/LargeArray.java:173-179 | `get_safe(i)`: element i inside the array, ArrayIndexOutOfBoundsException outside it, constant or not |
| LargeArrays.LargeArray.Get | app/src/main/java/org/visnow/jlargearrays/ShortLargeArray.java:171-264 | a typed getter reads element i through the element type's conversion; it fails only outside a non-constant array |
| LargeArrays.LargeArray.GetSafe | app/src/main/java/org/visnow/jlargearrays/LargeArray.java:210-391 | `getX_safe(i)`: the converted element inside the array, ArrayIndexOutOfBoundsException outside it |
| LargeArrays.LargeArray.Materialise | app/src/main/java/org/visnow/jlargearrays/ShortLargeArray.java:770-773 | a constant array gets fresh storage refilled from its constant and stops being constant; a non-constant one keeps its storage |
| LargeArrays.LargeArray.Store | app/src/main/java/org/visnow/jlargearrays/ShortLargeArray.java:765-778 | a setter on a constant array first materialises it, then stores; the result is the store applied to the materialised contents |
| LargeArrays.LargeArray.Assign | app/src/main/java/org/visnow/jlargearrays/ShortLargeArray.java:727-842 | a typed setter either throws the conversion's exception and changes nothing, or materialises and stores the converted value at i |
| LargeArrays.LargeArray.AssignSafe | app/src/main/java/org/visnow/jlargearrays/LargeArray.java:680-847 | `setX_safe(i, v)`: an index outside the array throws ArrayIndexOutOfBoundsException and changes nothing, otherwise as the setter |
| LargeArrays.LargeArray.Set | app/src/main/java/org/visnow/jlargearrays/LargeArray.java:604-623 | `set(i, Object)`: an unsupported value throws IllegalArgumentException and changes nothing; a boxed primitive goes through the matching typed setter |
| LargeArrays.LargeArray.SetSafe | app/src/main/java/org/visnow/jlargearrays/LargeArray.java:644-663 | `set_safe(i, Object)`: the type check, then the bounds check, then the typed setter, each failure leaving the array unchanged |
| LargeArrays.LargeArray.SetUnsignedByteSafe | app/src/main/java/org/visnow/jlargearrays/LargeArray.java:726-732 | `setUnsignedByte_safe(i, byte)`: bounds check, then `setUnsignedByte` with the byte widened |
| LargeArrays.LargeArray.Clone | app/src/main/java/org/visnow/jlargearrays/LargeArray.java:906-915 | a fresh array of the same type, length and constancy with equal elements |
| LargeArrays.LargeArray.FillStrided | app/src/main/java/org/visnow/jlargearrays/ShortLargeArray.java:446-459 | the copy loop of `getShortData(a, start, end, step)`: the first ceil((end - start) / step) slots of out receive elements start, start + step, ... converted; the rest of out is untouched |
| LargeArrays.LargeArray.StridedData | app/src/main/java/org/visnow/jlargearrays/ShortLargeArray.java:424-462 | `getShortData(a, start, end, step)`: ArrayIndexOutOfBoundsException for a bad start or end, IllegalArgumentException for step < 1, null above LARGEST_SUBARRAY, otherwise the picked elements in a (when long enough) or in a fresh array |
| LargeArrays.Create | app/src/main/java/org/visnow/jlargearrays/LargeArrayUtils.java:3416-3446 | creating an array fails with IllegalArgumentException exactly for a negative length; otherwise a fresh array of that type and length filled with the initial value |
| LargeArrays.ClonedLimit | app/src/main/java/org/visnow/jlargearrays/StringLargeArray.java:161-170 | the per-element size limit a clone gets: kept for a constant array, `max(1, limit)` for any other |
| LargeArrays.PicksLength | app/src/main/java/org/visnow/jlargearrays/ShortLargeArray.java:436-446 | the loop `for (i = start; i < end; i += step)` visits ceil((end - start) / step) elements, the `len` the method allocates |
| LargeArrays.PicksAt | app/src/main/java/org/visnow/jlargearrays/ShortLargeArray.java:446-459 | the k-th element visited is element start + k * step, and it lies below end |
| LargeArrays.Equals | app/src/main/java/org/visnow/jlargearrays/ShortLargeArray.java:127-143 | `equals`: same type, same length and equal elements at every index, in both directions |
| LargeArrays.SizeLimit.constructor | app/src/main/java/org/visnow/jlargearrays/LargeArray.java:73 | `maxSizeOf32bitArray` starts at 2^30 |
| LargeArrays.SizeLimit.Get | app/src/main/java/org/visnow/jlargearrays/LargeArray.java:901-904 | the limit read back is a non-negative int |
| LargeArrays.SizeLimit.Set | app/src/main/java/org/visnow/jlargearrays/LargeArray.java:888-894 | `setMaxSizeOf32bitArray`: a negative index throws IllegalArgumentException and keeps the old limit; otherwise the limit becomes index |
| LargeArrays.HashCode | app/src/main/java/org/visnow/jlargearrays/LargeArray.java:945-956 | `hashCode(quality)` throws IllegalArgumentException exactly for a quality outside [0, 1] |
| LargeArrays.HashCodeIgnoresQuality | app/src/main/java/org/visnow/jlargearrays/LargeArray.java:933-956 | the base hash does not depend on the quality: every accepted quality gives the result of `hashCode()`, which never throws |
| ShortLargeArrays.Encode | app/src/main/java/org/visnow/jlargearrays/ShortLargeArray.java:727-842 | every setter succeeds; it stores `(short)` of the argument (1 or 0 for a boolean), which is the argument itself when it fits a short, and `(short) (int) v` for a float or double |
| ShortLargeArrays.Decode | app/src/main/java/org/visnow/jlargearrays/ShortLargeArray.java:171-264 | `getBoolean` is `v != 0`, `getByte` is `(byte) v`, `getUnsignedByte` is `0xFF & v`, the wider getters return v's value |
| ShortLargeArrays.ByteOfStored | app/src/main/java/org/visnow/jlargearrays/ShortLargeArray.java:183-192 | an integer setter followed by `getByte` gives `(byte)` of the argument: the short in between loses nothing more |
| ShortLargeArrays.SetThenGet | app/src/main/java/org/visnow/jlargearrays/ShortLargeArray.java:765-810 | a short-range value set through an integer setter reads back unchanged through `getShort`, `getInt` and `getLong` |
| ShortLargeArrays.New | app/src/main/java/org/visnow/jlargearrays/ShortLargeArray.java:93-101 | IllegalArgumentException exactly for a negative length, otherwise a SHORT array of that length filled with initValue |
| LongLargeArrays.Encode | app/src/main/java/org/visnow/jlargearrays/LongLargeArray.java:731-846 | integer setters store their argument exactly (true as 1), the float setters a long within one of the value or saturated at an end of the long range |
| LongLargeArrays.Decode | app/src/main/java/org/visnow/jlargearrays/LongLargeArray.java:174-268 | `getBoolean` tests for nonzero; `getByte`, `getShort` and `getInt` are the wrapping casts, `getUnsignedByte` is `0xFF & v`, the others return v |
| LongLargeArrays.NarrowGettersAgree | app/src/main/java/org/visnow/jlargearrays/LongLargeArray.java:186-232 | `getByte` and `getShort` are `getInt` cast down, and `getByte` is `getShort` cast down |
| LongLargeArrays.SetThenGetLong | app/src/main/java/org/visnow/jlargearrays/LongLargeArray.java:747-814 | every integer setter followed by `getLong` gives back its argument |
| LongLargeArrays.New | app/src/main/java/org/visnow/jlargearrays/LongLargeArray.java:94-102 | IllegalArgumentException exactly for a negative length, otherwise a LONG array filled with initValue |
| DoubleLargeArrays.Encode | app/src/main/java/org/visnow/jlargearrays/DoubleLargeArray.java:728-845 | every setter stores its argument's number (true as 1.0, false as 0.0) |
| DoubleLargeArrays.Decode | app/src/main/java/org/visnow/jlargearrays/DoubleLargeArray.java:172-265 | `getInt` and `getLong` round toward zero and saturate, `getByte`, `getShort` and `getUnsignedByte` narrow the int, `getFloat` and `getDouble` return the value |
| DoubleLargeArrays.SetThenGet | app/src/main/java/org/visnow/jlargearrays/DoubleLargeArray.java:744-813 | an integer setter followed by `getLong` gives back its argument, and by `getInt` too when it fits an int |
| DoubleLargeArrays.New | app/src/main/java/org/visnow/jlargearrays/DoubleLargeArray.java:93-101 | IllegalArgumentException exactly for a negative length, otherwise a DOUBLE array filled with initValue |
| DoubleLargeArrays.SetLongAsWritten | app/src/main/java/org/visnow/jlargearrays/DoubleLargeArray.java:798-813 | as written, `setLong` on the heap only materialises a constant array: the elements stay what they were |
| DoubleLargeArrays.SetLongIsLost | app/src/main/java/org/visnow/jlargearrays/DoubleLargeArray.java:798-813 | whenever element i differs from the value, the intended setter changes the array, so the written one loses the write; `setLong(0, 1)` on {0.0} should give {1.0} |
| DoubleLargeArrays.SetLongCorrected | app/src/main/java/org/visnow/jlargearrays/DoubleLargeArray.java:798-813 | `setLong` storing `(double) value`: afterwards `getLong(i)` returns value and every other element is unchanged |
| UnsignedByteLargeArrays.Value | app/src/main/java/org/visnow/jlargearrays/UnsignedByteLargeArray.java:214-223 | the unsigned value of a stored byte lies in 0 ... 255 and casts back to that byte |
| UnsignedByteLargeArrays.Encode | app/src/main/java/org/visnow/jlargearrays/UnsignedByteLargeArray.java:771-900 | only `setUnsignedByte` can throw, with IllegalArgumentException exactly outside 0 ... 255; every other setter stores its argument modulo 256 |
| UnsignedByteLargeArrays.Decode | app/src/main/java/org/visnow/jlargearrays/UnsignedByteLargeArray.java:190-277 | `getByte` returns the raw byte, `getBoolean` tests for nonzero, every other getter the unsigned value |
| UnsignedByteLargeArrays.Refill | app/src/main/java/org/visnow/jlargearrays/UnsignedByteLargeArray.java:787-800 | materialising writes `(byte) (0xFF & getUnsignedByte(0))`, which is the stored byte again |
| UnsignedByteLargeArrays.UnsignedRoundTrip | app/src/main/java/org/visnow/jlargearrays/UnsignedByteLargeArray.java:803-820 | `setUnsignedByte(i, v)` then `getUnsignedByte(i)` gives v for every v in 0 ... 255 |
| UnsignedByteLargeArrays.ByteRoundTrip | app/src/main/java/org/visnow/jlargearrays/UnsignedByteLargeArray.java:787-800 | `setByte(i, b)` then `getByte(i)` gives b, and `getUnsignedByte(i)` gives `0xFF & b` |
| UnsignedByteLargeArrays.SafeUnsignedByteStoresLowHalf | app/src/main/java/org/visnow/jlargearrays/LargeArray.java:726-732 | the inherited `setUnsignedByte_safe(i, byte)` accepts exactly the non-negative bytes, so it can store only 0 ... 127 |
| UnsignedByteLargeArrays.DecodeInjective | app/src/main/java/org/visnow/jlargearrays/UnsignedByteLargeArray.java:214-253 | the integer getters read 0 ... 255, and two bytes that read the same are the same byte |
| UnsignedByteLargeArrays.New | app/src/main/java/org/visnow/jlargearrays/UnsignedByteLargeArray.java:93-101 | IllegalArgumentException exactly for a negative length; otherwise every element reads as `0xFF & initValue` |
| UnsignedByteLargeArrays.FromShorts | app/src/main/java/org/visnow/jlargearrays/UnsignedByteLargeArray.java:120-132 | `new UnsignedByteLargeArray(short[])` throws IllegalArgumentException exactly when some value lies outside 0 ... 255, and otherwise holds bytes whose unsigned values are the data |
| LogicLargeArrays.Encode | app/src/main/java/org/visnow/jlargearrays/LogicLargeArray.java:745-878 | every setter accepts exactly the arguments worth 0 or 1, stores that number, and throws IllegalArgumentException for anything else |
| LogicLargeArrays.Decode | app/src/main/java/org/visnow/jlargearrays/LogicLargeArray.java:193-280 | `getBoolean` tests for nonzero, every other getter returns the stored byte's value |
| LogicLargeArrays.SetThenGet | app/src/main/java/org/visnow/jlargearrays/LogicLargeArray.java:745-878 | an accepted value reads back unchanged through every numeric getter, and as true exactly when it was 1 |
| LogicLargeArrays.AssignKeepsBits | app/src/main/java/org/visnow/jlargearrays/LogicLargeArray.java:745-878 | the setters keep an array of bits an array of bits, whether they succeed or throw |
| LogicLargeArrays.CheckBits | app/src/main/java/org/visnow/jlargearrays/LogicLargeArray.java:110-120 | the check of the `byte[]` constructor is true exactly when every element is 0 or 1 |
| LogicLargeArrays.FromBytes | app/src/main/java/org/visnow/jlargearrays/LogicLargeArray.java:110-120 | `new LogicLargeArray(byte[])` throws IllegalArgumentException exactly when some element is not 0 or 1, and otherwise wraps data itself |
| LogicLargeArrays.BitOf | app/src/main/java/org/visnow/jlargearrays/LogicLargeArray.java:127-135 | true maps to 1 and false to 0 |
| LogicLargeArrays.FromBooleans | app/src/main/java/org/visnow/jlargearrays/LogicLargeArray.java:127-135 | `new LogicLargeArray(boolean[])` is a fresh array of bits, 1 exactly where data is true |
| LogicLargeArrays.Zip | app/src/main/java/org/visnow/jlargearrays/LogicLargeArray.java:887-930 | the elementwise combination has the common length and op of the two elements at every index |
| LogicLargeArrays.Combine | app/src/main/java/org/visnow/jlargearrays/LogicLargeArray.java:887-930 | a null or differently sized argument throws IllegalArgumentException; otherwise the result is the elementwise combination, and it fails exactly when that is not all bits |
| LogicLargeArrays.And | app/src/main/java/org/visnow/jlargearrays/LogicLargeArray.java:887-930 | `and` of two arrays of bits of equal length succeeds, and element k is 1 exactly when both inputs are 1 there |
| LogicLargeArrays.Or | app/src/main/java/org/visnow/jlargearrays/LogicLargeArray.java:939-982 | `or`: element k is 1 exactly when either input is 1 there |
| LogicLargeArrays.Xor | app/src/main/java/org/visnow/jlargearrays/LogicLargeArray.java:991-1034 | `xor`: element k is 1 exactly when the inputs differ there |
| LogicLargeArrays.Not | app/src/main/java/org/visnow/jlargearrays/LogicLargeArray.java:1041-1080 | `not` succeeds exactly when every `1 - x[k]` is a bit (always on an array of bits) and then holds `1 - x[k]` at k |
| LogicLargeArrays.ZipOfBits | app/src/main/java/org/visnow/jlargearrays/LogicLargeArray.java:887-1034 | on bits, the byte `&`, `\|` and `^` give bits, and they are conjunction, disjunction and exclusive or |
| StringLargeArrays.Utf16Length | app/src/main/java/org/visnow/jlargearrays/StringLargeArray.java:256-295 | `String.length()` counts UTF-16 code units: between the number of characters and twice it, and equal to it exactly when no character lies above U+FFFF |
| StringLargeArrays.TextLength | app/src/main/java/org/visnow/jlargearrays/StringLargeArray.java:256-295 | the length the getters read is 0 exactly for null or the empty string, and otherwise the string's UTF-16 length, between its number of characters and twice it |
| StringLargeArrays.SurrogatePairCountsTwice | app/src/main/java/org/visnow/jlargearrays/StringLargeArray.java:256-295 | the one-character string U+1F600 reads as length 2 and "abc" as 3 |
| StringLargeArrays.Encode | app/src/main/java/org/visnow/jlargearrays/StringLargeArray.java:861-906 | every setter stores a non-null string: "true"/"false" for a boolean, the decimal text of an integer, which reads back as that integer |
| StringLargeArrays.Decode | app/src/main/java/org/visnow/jlargearrays/StringLargeArray.java:256-310 | `getBoolean` is true for a non-empty string; the numeric getters return the string's length in UTF-16 code units, narrowed by the getter's cast |
| StringLargeArrays.IntReadsAsLength | app/src/main/java/org/visnow/jlargearrays/StringLargeArray.java:284-288 | `setInt(i, v)` then `getInt(i)` gives the number of characters of v's decimal text, not v |
| StringLargeArrays.HundredReadsAsThree | app/src/main/java/org/visnow/jlargearrays/StringLargeArray.java:284-288 | for example `setInt(i, 100)` then `getInt(i)` gives 3 |
| StringLargeArrays.DigitsShort | app/src/main/java/org/visnow/jlargearrays/StringLargeArray.java:885-888 | the decimal text of an int has at most 11 characters, so its length always fits every getter's cast |
| StringLargeArrays.DigitsBound | app/src/main/java/org/visnow/jlargearrays/StringLargeArray.java:885-894 | a number below 10^k has at most k digits |
| StringLargeArrays.StringLargeArray.Get | app/src/main/java/org/visnow/jlargearrays/StringLargeArray.java:212-236 | `get(i)`: element i inside the array; only a non-constant array fails outside it |
| StringLargeArrays.StringLargeArray.Set | app/src/main/java/org/visnow/jlargearrays/StringLargeArray.java:804-849 | `set(i, o)`: null into a constant array throws IllegalAccessError, a non-string throws IllegalArgumentException, both changing nothing; otherwise the value is stored at i after materialising |
| StringLargeArrays.StringLargeArray.SetSafe | app/src/main/java/org/visnow/jlargearrays/StringLargeArray.java:852-858 | `set_safe`: ArrayIndexOutOfBoundsException outside the array, otherwise `set`; a successful one changes exactly element i |
| StringLargeArrays.StringLargeArray.Equals | app/src/main/java/org/visnow/jlargearrays/StringLargeArray.java:173-193 | `equals`: same length, same `maxStringLength` and equal elements |
| StringLargeArrays.StringLargeArray.CloneAsWritten | app/src/main/java/org/visnow/jlargearrays/StringLargeArray.java:161-170 | as written, the clone of a non-constant array with `maxStringLength <= 0` gets limit 1 and so is not equal to the original |
| StringLargeArrays.StringLargeArray.CloneCorrected | app/src/main/java/org/visnow/jlargearrays/StringLargeArray.java:161-170 | a clone that keeps `maxStringLength` is always equal to the original |
| StringLargeArrays.NewEmpty | app/src/main/java/org/visnow/jlargearrays/StringLargeArray.java:96-109 | IllegalArgumentException exactly for a negative length or a non-positive `maxStringLength`; otherwise all elements null |
| StringLargeArrays.NewFilled | app/src/main/java/org/visnow/jlargearrays/StringLargeArray.java:131-141 | only the length is checked; every element is initValue |
| StringLargeArrays.FromStrings | app/src/main/java/org/visnow/jlargearrays/StringLargeArray.java:148-153 | `new StringLargeArray(String[])` wraps data itself, with `maxStringLength` left at 0 |
| ObjectLargeArrays.ObjectLargeArray.Get | app/src/main/java/org/visnow/jlargearrays/ObjectLargeArray.java:248-268 | `get(i)`: element i inside the array, of the array's element class when not null |
| ObjectLargeArrays.ObjectLargeArray.SetWith | app/src/main/java/org/visnow/jlargearrays/ObjectLargeArray.java:461-504 | `set(i, o)`: null, a non-Serializable first value or one of another class throws IllegalArgumentException and changes nothing; otherwise the first value fixes the class and o is stored at i after materialising |
| ObjectLargeArrays.ObjectLargeArray.Set | app/src/main/java/org/visnow/jlargearrays/ObjectLargeArray.java:461-504 | with the intended materialisation, an accepted `set` writes element i and keeps every other element |
| ObjectLargeArrays.ObjectLargeArray.SetAsWritten | app/src/main/java/org/visnow/jlargearrays/ObjectLargeArray.java:492-496 | as written, an accepted `set` on a constant array writes element i and leaves every other element null |
| ObjectLargeArrays.ObjectLargeArray.SetSafe | app/src/main/java/org/visnow/jlargearrays/ObjectLargeArray.java:507-513 | `set_safe`: ArrayIndexOutOfBoundsException outside the array, otherwise `set`; a successful one changes exactly element i |
| ObjectLargeArrays.ObjectLargeArray.Equals | app/src/main/java/org/visnow/jlargearrays/ObjectLargeArray.java:204-228 | `equals`: same length, `maxObjectSize`, element class and elements |
| ObjectLargeArrays.ObjectLargeArray.CloneAsWritten | app/src/main/java/org/visnow/jlargearrays/ObjectLargeArray.java:191-201 | as written, cloning a non-constant array holding a null throws IllegalArgumentException (the copy goes through `set`); otherwise the clone has equal elements and class but limit `max(1, maxObjectSize)` |
| ObjectLargeArrays.ObjectLargeArray.CloneCorrected | app/src/main/java/org/visnow/jlargearrays/ObjectLargeArray.java:191-201 | a deep copy that is always equal to the original |
| ObjectLargeArrays.MaterialisationDropsConstant | app/src/main/java/org/visnow/jlargearrays/ObjectLargeArray.java:685-712 | `set(0, y)` on the constant array {x, x} leaves {y, null} as written, where {y, x} is meant |
| ObjectLargeArrays.NewEmpty | app/src/main/java/org/visnow/jlargearrays/ObjectLargeArray.java:102-115 | IllegalArgumentException exactly for a negative length or non-positive `maxObjectSize`; otherwise all null and no class |
| ObjectLargeArrays.NewFilledWith | app/src/main/java/org/visnow/jlargearrays/ObjectLargeArray.java:125-155 | IllegalArgumentException exactly for a negative length or a non-Serializable initial value; the class is the initial value's |
| ObjectLargeArrays.NewFilledAsWritten | app/src/main/java/org/visnow/jlargearrays/ObjectLargeArray.java:139-155 | as written: the same IllegalArgumentException cases as the documented constructor, a constant array holds the initial value everywhere, and a non-constant heap array starts all null, whatever the initial value |
| ObjectLargeArrays.NewFilled | app/src/main/java/org/visnow/jlargearrays/ObjectLargeArray.java:139-155 | as documented, every element reads as the initial value |
| ObjectLargeArrays.FromObjects | app/src/main/java/org/visnow/jlargearrays/ObjectLargeArray.java:162-183 | `new ObjectLargeArray(Object[])` throws IllegalArgumentException exactly for a null element, a non-Serializable first element or mixed classes, and otherwise wraps data |
| MemoryCounters.Increased | app/src/main/java/org/visnow/jlargearrays/MemoryCounter.java:59-62 | `addAndGet(x)` is a long, the exact sum when no overflow happens |
| MemoryCounters.Decreased | app/src/main/java/org/visnow/jlargearrays/MemoryCounter.java:69-74 | after `addAndGet(-x)` a negative count is reset to 0: the result is never negative, the difference when that is non-negative, 0 otherwise |
| MemoryCounters.WrapSubtract | app/src/main/java/org/visnow/jlargearrays/MemoryCounter.java:69-74 | adding the wrapped negation is subtracting, modulo 2^64 |
| MemoryCounters.IncreaseThenDecrease | app/src/main/java/org/visnow/jlargearrays/MemoryCounter.java:59-74 | releasing what was just reserved restores the count, when the sum does not overflow |
| MemoryCounters.MemoryCounter.constructor | app/src/main/java/org/visnow/jlargearrays/MemoryCounter.java:38 | the counter starts at 0 |
| MemoryCounters.MemoryCounter.GetCounter | app/src/main/java/org/visnow/jlargearrays/MemoryCounter.java:49-52 | `getCounter` returns the current count |
| MemoryCounters.MemoryCounter.IncreaseCounter | app/src/main/java/org/visnow/jlargearrays/MemoryCounter.java:59-62 | the count becomes the wrapped sum |
| MemoryCounters.MemoryCounter.DecreaseCounter | app/src/main/java/org/visnow/jlargearrays/MemoryCounter.java:69-74 | the count becomes the clamped difference and is never negative |
| ComplexLargeArrays.PartType | app/src/main/java/org/visnow/jlargearrays/ComplexDoubleLargeArray.java:67-76 | the parts of a COMPLEX_DOUBLE array are DOUBLE arrays and those of a COMPLEX_FLOAT array FLOAT arrays |
| ComplexLargeArrays.Zip | app/src/main/java/org/visnow/jlargearrays/ComplexDoubleLargeArray.java:298-301 | element k of a complex array is (real part k, imaginary part k) |
| ComplexLargeArrays.ZipEqual | app/src/main/java/org/visnow/jlargearrays/ComplexDoubleLargeArray.java:188-207 | comparing elements is comparing both parts: the element sequences are equal exactly when both part sequences are |
| ComplexLargeArrays.ZipUpdate | app/src/main/java/org/visnow/jlargearrays/ComplexDoubleLargeArray.java:940-944 | writing both parts at k writes element k and nothing else |
| ComplexLargeArrays.Flatten | app/src/main/java/org/visnow/jlargearrays/ComplexDoubleLargeArray.java:710-722 | the interleaved layout has two numbers per element |
| ComplexLargeArrays.Deinterleave | app/src/main/java/org/visnow/jlargearrays/ComplexDoubleLargeArray.java:126-148 | an interleaved sequence of even length reads as half as many elements |
| ComplexLargeArrays.FlattenAt | app/src/main/java/org/visnow/jlargearrays/ComplexDoubleLargeArray.java:716-719 | in the interleaved layout element k sits at 2k (real part) and 2k + 1 (imaginary part) |
| ComplexLargeArrays.DeinterleaveFlatten | app/src/main/java/org/visnow/jlargearrays/ComplexDoubleLargeArray.java:126-148 | reading back the interleaved layout of any elements gives those elements |
| ComplexLargeArrays.FlattenDeinterleave | app/src/main/java/org/visnow/jlargearrays/ComplexDoubleLargeArray.java:126-148 | interleaving what was read from an even-length sequence gives that sequence back |
| ComplexLargeArrays.DeinterleaveRepeat | app/src/main/java/org/visnow/jlargearrays/ComplexDoubleLargeArray.java:136-139 | a constant interleaved array reads as the constant pair (get(0), get(1)) repeated, which for one repeated number is that number twice |
| ComplexLargeArrays.FlattenSnoc | app/src/main/java/org/visnow/jlargearrays/ComplexDoubleLargeArray.java:760-763 | one more element appends its real and imaginary part to the interleaved layout |
| ComplexLargeArrays.Zero | app/src/main/java/org/visnow/jlargearrays/ComplexDoubleLargeArray.java:800-902 | the value the typed setters write into the imaginary part is zero, through the same kind of setter |
| ComplexLargeArrays.ComplexStoredAsElement | app/src/main/java/org/visnow/jlargearrays/ComplexDoubleLargeArray.java:940-944 | `setComplexDouble(i, value)` with two or more numbers stores (value[0], value[1]) as element i; with one number it writes the real part and then throws ArrayIndexOutOfBoundsException |
| ComplexLargeArrays.ComplexLargeArray.IsConstant | app/src/main/java/org/visnow/jlargearrays/ComplexDoubleLargeArray.java:232-235 | `isConstant()` holds only when both parts are constant, so every element equals the first |
| ComplexLargeArrays.ComplexLargeArray.Get | app/src/main/java/org/visnow/jlargearrays/ComplexDoubleLargeArray.java:451-454 | `getComplexDouble(i)`: element i inside the array; only a non-constant array fails outside it, with ArrayIndexOutOfBoundsException |
| ComplexLargeArrays.ComplexLargeArray.GetScalar | app/src/main/java/org/visnow/jlargearrays/ComplexDoubleLargeArray.java:327-428 | the typed getters read the real part only, through the part's getter |
| ComplexLargeArrays.ComplexLargeArray.Assign | app/src/main/java/org/visnow/jlargearrays/ComplexDoubleLargeArray.java:800-902 | a typed setter makes element i (v, 0) and keeps every other element; for `setLong` of a complex double array this is the corrected behaviour (see "## Findings"), since the code as written stores nothing there |
| ComplexLargeArrays.ComplexLargeArray.AssignThenGet | app/src/main/java/org/visnow/jlargearrays/ComplexDoubleLargeArray.java:800-902 | after a typed setter, `get(i)` gives (v, 0) and `getLong(i)` gives back an integer argument |
| ComplexLargeArrays.ComplexLargeArray.SetComplex | app/src/main/java/org/visnow/jlargearrays/ComplexDoubleLargeArray.java:927-944 | `setComplexFloat` / `setComplexDouble`: null throws NullPointerException and an empty value ArrayIndexOutOfBoundsException, both changing nothing; otherwise the store of value[0] and value[1] |
| ComplexLargeArrays.ComplexLargeArray.Set | app/src/main/java/org/visnow/jlargearrays/ComplexDoubleLargeArray.java:912-918 | `set(i, Object)` accepts only an array of the part type (IllegalArgumentException otherwise) and hands it to `setComplexDouble` |
| ComplexLargeArrays.ComplexLargeArray.Parts | app/src/main/java/org/visnow/jlargearrays/ComplexDoubleLargeArray.java:912-918 | the numbers of an accepted value are the float or double array it holds |
| ComplexLargeArrays.ComplexLargeArray.SetLongAsWritten | app/src/main/java/org/visnow/jlargearrays/ComplexDoubleLargeArray.java:870-874 | as written, `setLong` of a COMPLEX_DOUBLE array goes to the double parts' `setLong`, which stores nothing on the heap: the elements stay as they were |
| ComplexLargeArrays.ComplexLargeArray.Equals | app/src/main/java/org/visnow/jlargearrays/ComplexDoubleLargeArray.java:188-207 | `equals`: same type, same length and equal real and imaginary parts at every index |
| ComplexLargeArrays.ComplexLargeArray.Copy | app/src/main/java/org/visnow/jlargearrays/LargeArray.java:910-913 | `create(type, length, false)` followed by `arraycopy` gives a fresh non-constant array with the same elements |
| ComplexLargeArrays.ComplexLargeArray.CloneAsWritten | app/src/main/java/org/visnow/jlargearrays/LargeArray.java:906-915 | the inherited `clone` asks the `isConstant` field: an array created constant and written to since is cloned as the constant of its first element, unequal to the original; an empty such array throws |
| ComplexLargeArrays.ComplexLargeArray.CloneCorrected | app/src/main/java/org/visnow/jlargearrays/ComplexDoubleLargeArray.java:182-185 | a clone deciding by `isConstant()` is always equal to the original |
| ComplexLargeArrays.ComplexLargeArray.GetComplexData | app/src/main/java/org/visnow/jlargearrays/ComplexDoubleLargeArray.java:710-722 | `getComplexData()`: null exactly when 2 * length exceeds LARGEST_SUBARRAY, otherwise a fresh array with the interleaved elements |
| ComplexLargeArrays.ComplexLargeArray.GetComplexDataStrided | app/src/main/java/org/visnow/jlargearrays/ComplexDoubleLargeArray.java:739-769 | `getComplexData(a, start, end, step)`: the same exceptions as the typed strided getters; null above LARGEST_SUBARRAY; otherwise the picked elements interleaved, in a when long enough, leaving the rest of a alone |
| ComplexLargeArrays.ComplexLargeArray.PartwiseArray | app/src/main/java/org/visnow/jlargearrays/ComplexDoubleLargeArray.java:262-287 | `getAbsArray()` / `getArgArray()`: a fresh array of the part type whose element k is f(re, im) of element k |
| ComplexLargeArrays.FillInterleaved | app/src/main/java/org/visnow/jlargearrays/ComplexDoubleLargeArray.java:715-720 | the copy loop writes element k to out[2k] and out[2k + 1] and leaves the rest of out alone |
| ComplexLargeArrays.NewZero | app/src/main/java/org/visnow/jlargearrays/ComplexDoubleLargeArray.java:67-76 | IllegalArgumentException exactly for a negative length, otherwise a non-constant array of zeros |
| ComplexLargeArrays.NewFilled | app/src/main/java/org/visnow/jlargearrays/ComplexDoubleLargeArray.java:96-109 | IllegalArgumentException exactly for a negative length or an initial value that is not a pair; otherwise every element is that pair, constant as asked |
| ComplexLargeArrays.FromInterleaved | app/src/main/java/org/visnow/jlargearrays/ComplexDoubleLargeArray.java:126-148 | IllegalArgumentException exactly for an odd length; otherwise the elements read from the interleaved data, constant when the data is |
| ComplexLargeArrays.Split | app/src/main/java/org/visnow/jlargearrays/ComplexDoubleLargeArray.java:141-146 | the loop of the interleaved constructor puts d[2k] into the real and d[2k + 1] into the imaginary part of element k |
| ComplexLargeArrays.FromParts | app/src/main/java/org/visnow/jlargearrays/ComplexDoubleLargeArray.java:167-179 | IllegalArgumentException exactly when the parts differ in length; otherwise the parts themselves, not copies, make the elements |
| LargeArrayCopies.CopyCheck | app/src/main/java/org/visnow/jlargearrays/LargeArrayUtils.java:1151-1164 | the checks before a copy, in order: a negative length throws IllegalArgumentException, a source or destination range outside its array ArrayIndexOutOfBoundsException, a constant destination IllegalArgumentException; the copy proceeds exactly when all pass |
| LargeArrayCopies.Splice | app/src/main/java/org/visnow/jlargearrays/LargeArrayUtils.java:1166-1169 | a copied range: positions pos ... pos + \|t\| - 1 hold t, every other position keeps its value |
| LargeArrayCopies.SpliceSnoc | app/src/main/java/org/visnow/jlargearrays/LargeArrayUtils.java:1166-1169 | one more loop step extends the copied range by one value |
| LargeArrayCopies.SpliceCons | app/src/main/java/org/visnow/jlargearrays/LargeArrayUtils.java:1166-1169 | writing x at pos and then t after it is copying [x] + t at pos |
| LargeArrayCopies.Run | app/src/main/java/org/visnow/jlargearrays/LargeArrayUtils.java:1166-1169 | the copy loop hands each value to the destination's setter in turn and leaves a destination of the same length |
| LargeArrayCopies.Stores | app/src/main/java/org/visnow/jlargearrays/LargeArrayUtils.java:1166-1169 | what the setter stores for each value, when it accepts all of them |
| LargeArrayCopies.RunAccepted | app/src/main/java/org/visnow/jlargearrays/LargeArrayUtils.java:1166-1169 | when the setter accepts every value the loop completes, the range receives what the setter stored and nothing else changes |
| LargeArrayCopies.RunRejected | app/src/main/java/org/visnow/jlargearrays/LargeArrayUtils.java:529-534 | when the setter first rejects the n-th value, the copy throws the setter's exception after storing the n values before it |
| LargeArrayCopies.RunExact | app/src/main/java/org/visnow/jlargearrays/LargeArrayUtils.java:1166-1169 | a setter that stores every value as it is makes the copy exact |
| LargeArrayCopies.StoreRun | app/src/main/java/org/visnow/jlargearrays/LargeArrayUtils.java:1166-1169 | the loop `dest.setX(j, v)` over a non-constant destination leaves exactly what Run describes |
| LargeArrayCopies.RunWithin | app/src/main/java/org/visnow/jlargearrays/LargeArrayUtils.java:1166-1169 | the copy loop within one Java array: each step reads the source element as the earlier steps left it, and a setter's exception ends the loop; the array keeps its length |
| LargeArrayCopies.RunWithinApart | app/src/main/java/org/visnow/jlargearrays/LargeArrayUtils.java:1166-1169 | when the destination range starts at or before the source range, or after its end, a copy within one array equals the copy of the range as it was |
| LargeArrayCopies.RunWithinRepeats | app/src/main/java/org/visnow/jlargearrays/LargeArrayUtils.java:1166-1169 | with a setter that stores each value as it is and a destination range starting p places inside the source range, the copy completes, repeats the first p source values over the whole destination range and changes nothing else |
| LargeArrayCopies.SelfCopySmears | app/src/main/java/org/visnow/jlargearrays/LargeArrayUtils.java:1166-1169 | `arraycopy(a, 0, a, 1, 2)` on the short array {1, 2, 3} leaves {1, 1, 1}, not the {1, 1, 2} a copy of the range as it was would leave |
| LargeArrayCopies.StoreRunWithin | app/src/main/java/org/visnow/jlargearrays/LargeArrayUtils.java:1166-1169 | the loop `dest.setX(j, src.getX(i))` over one Java array leaves exactly what RunWithin describes |
| LargeArrayCopies.SharingOf | app/src/main/java/org/visnow/jlargearrays/ShortLargeArray.java:108-113 | a source sees the stores into a destination element by element exactly when both wrap one Java array and neither is constant, and as its one value exactly when a non-constant destination wraps the Java array of a constant source |
| LargeArrayCopies.Follow | app/src/main/java/org/visnow/jlargearrays/ShortLargeArray.java:267-270 | the source elements once the destination has changed keep their count and the lengths the sharing implies |
| LargeArrayCopies.SharingMeans | app/src/main/java/org/visnow/jlargearrays/ShortLargeArray.java:108-113 | for valid arrays a sharing implies the lengths it needs, and a source that shares storage holds what the destination holds (or the destination's one value, repeated) |
| LargeArrayCopies.Copied | app/src/main/java/org/visnow/jlargearrays/LargeArrayUtils.java:1166-1169 | one copy once the checks pass leaves a destination of the same length: from the evolving destination when the two share storage, from the source range as it was otherwise |
| LargeArrayCopies.Arraycopy | app/src/main/java/org/visnow/jlargearrays/LargeArrayUtils.java:120-165 | `arraycopy(LargeArray, LargeArray)`: different element types throw IllegalArgumentException; then the checks; then the elements from srcPos on go through the setter into dest from destPos on, read as the loop changes them when source and destination wrap one Java array (RunWithin) and as they were otherwise; nothing changes when a check fails |
| LargeArrayCopies.CopyIn | app/src/main/java/org/visnow/jlargearrays/LargeArrayUtils.java:1209-1266 | `arraycopy(short[] src, ..., ShortLargeArray dest, ...)` and the other overloads from a Java array of the destination's element type: the same checks, then src[srcPos ..] through the setter from destPos on, read as the loop changes it when src is the Java array dest wraps |
| LargeArrayCopies.CopyOut | app/src/main/java/org/visnow/jlargearrays/LargeArrayUtils.java:1268-1311 | `arraycopy(ShortLargeArray src, ..., short[] dest, ...)` and the other overloads into a Java array of the source's element type: the checks (no constant destination to refuse), then dest holds the range of src from destPos on, read as the loop changes dest when dest is the Java array src wraps; the outcome is never an exception from the loop |
| LargeArrayCopies.RunWithinAccepted | app/src/main/java/org/visnow/jlargearrays/LargeArrayUtils.java:1166-1169 | a copy within one array whose setter accepts every value completes |
| LargeArrayCopies.CopyConvertedIn | app/src/main/java/org/visnow/jlargearrays/LargeArrayUtils.java:979-1026 | an overload from a Java array of another element type than the destination's storage: the checks, then the range through the setter from destPos on; a failed check changes nothing |
| LargeArrayCopies.BooleanArrayIntoLogic | app/src/main/java/org/visnow/jlargearrays/LargeArrayUtils.java:455-501 | `arraycopy(boolean[], ..., LogicLargeArray, ...)`: on success the range holds 1 where the source is true and 0 where it is false; a failed check changes nothing |
| LargeArrayCopies.ShortArrayIntoUnsignedByte | app/src/main/java/org/visnow/jlargearrays/LargeArrayUtils.java:979-1026 | `arraycopy(short[], ..., UnsignedByteLargeArray, ...)`: the checks, then the copy through `setUnsignedByte`, which accepts only 0 ... 255 |
| LargeArrayCopies.CopyConvertedOut | app/src/main/java/org/visnow/jlargearrays/LargeArrayUtils.java:573-627 | the loop `dest[i++] = src.getX(j)` into a Java array the source does not wrap: the checks, then dest holds the converted range from destPos on and nothing else changes |
| LargeArrayCopies.LogicIntoBooleanArray | app/src/main/java/org/visnow/jlargearrays/LargeArrayUtils.java:573-627 | `arraycopy(LogicLargeArray, ..., boolean[], ...)`: `getBoolean` reads a nonzero byte as true, so on success dest holds true exactly where the range is nonzero |
| LargeArrayCopies.UnsignedByteIntoShortArray | app/src/main/java/org/visnow/jlargearrays/LargeArrayUtils.java:1095-1149 | `arraycopy(UnsignedByteLargeArray, ..., short[], ...)`: on success dest holds the unsigned value of each byte of the range |
| LargeArrayCopies.MapSnoc | app/src/main/java/org/visnow/jlargearrays/LargeArrayUtils.java:1282-1286 | reading one more element extends the converted prefix by one value |
| LargeArrayCopies.LogicTransfer | app/src/main/java/org/visnow/jlargearrays/LargeArrayUtils.java:398-442 | `dest.setByte(j, src.getByte(i))` into a logic array accepts exactly a 0 or a 1 |
| LargeArrayCopies.LogicCopyExact | app/src/main/java/org/visnow/jlargearrays/LargeArrayUtils.java:398-442 | between logic arrays, whose elements are all 0 or 1, the copy is exact |
| LargeArrayCopies.BytesIntoLogicStop | app/src/main/java/org/visnow/jlargearrays/LargeArrayUtils.java:514-560 | copying `byte[]` into a logic array stops at the first byte other than 0 or 1 with IllegalArgumentException, after storing the bytes before it |
| LargeArrayCopies.BooleanTransfer | app/src/main/java/org/visnow/jlargearrays/LargeArrayUtils.java:455-501 | `setBoolean` on a logic array stores 1 for true and 0 for false and never throws |
| LargeArrayCopies.BooleansIntoLogic | app/src/main/java/org/visnow/jlargearrays/LargeArrayUtils.java:455-501 | copying `boolean[]` into a logic array completes and stores 1 exactly where the source is true |
| LargeArrayCopies.UnsignedShortTransfer | app/src/main/java/org/visnow/jlargearrays/LargeArrayUtils.java:979-1026 | `setUnsignedByte(j, src[i])` from a `short[]` accepts exactly 0 ... 255 and stores a byte of that unsigned value |
| LargeArrayCopies.ShortsIntoUnsignedBytesStop | app/src/main/java/org/visnow/jlargearrays/LargeArrayUtils.java:979-1026 | copying `short[]` into an unsigned byte array stops at the first value outside 0 ... 255 with IllegalArgumentException, after storing the values before it |
| LargeArrayCopies.TypedCopiesExact | app/src/main/java/org/visnow/jlargearrays/LargeArrayUtils.java:860-2558 | for unsigned byte, short, long, double and string arrays the getter-setter pair stores what it read, so a copy that passes the checks copies the range exactly |
| ComplexArrayCopies.Min | app/src/main/java/org/visnow/jlargearrays/LargeArrayUtils.java:2083 | `FastMath.min` is the smaller argument |
| ComplexArrayCopies.Pairs | app/src/main/java/org/visnow/jlargearrays/LargeArrayUtils.java:2086-2091 | the k elements whose parts lie interleaved in src from index i on |
| ComplexArrayCopies.PairsSnoc | app/src/main/java/org/visnow/jlargearrays/LargeArrayUtils.java:2086-2091 | one more loop step reads the next two values as one more element |
| ComplexArrayCopies.HalfBelow | app/src/main/java/org/visnow/jlargearrays/LargeArrayUtils.java:2263-2321 | a count of values below 2n, halved, is a count of whole elements below n |
| ComplexArrayCopies.InterleavedRun | app/src/main/java/org/visnow/jlargearrays/LargeArrayUtils.java:2280-2286 | the interleaved copy loop completes exactly when the source holds 2 * length values from i on, and then writes those pairs from destPos on; otherwise it throws ArrayIndexOutOfBoundsException |
| ComplexArrayCopies.InterleavedCopyAsWritten | app/src/main/java/org/visnow/jlargearrays/LargeArrayUtils.java:2263-2321 | the double overload with its written check `srcPos + length > src.length` leaves a destination of the same length |
| ComplexArrayCopies.InterleavedCopy | app/src/main/java/org/visnow/jlargearrays/LargeArrayUtils.java:2068-2126 | the float overload, and the double overload as intended: the copy checks `srcPos + 2 * length`, and on success writes the pairs read from src from destPos on; a failed check changes nothing |
| ComplexArrayCopies.InterleavedCopyAsWrittenPartial | app/src/main/java/org/visnow/jlargearrays/LargeArrayUtils.java:2268-2270 | as written, copying two elements from {1.0, 2.0} passes the check, stores (1.0, 2.0) and then throws ArrayIndexOutOfBoundsException with the copy half done |
| ComplexArrayCopies.InterleavedCopyAgrees | app/src/main/java/org/visnow/jlargearrays/LargeArrayUtils.java:2263-2321 | whenever the source holds the 2 * length values, the written check and the intended one give the same outcome and contents |
| ComplexArrayCopies.StoreNext | app/src/main/java/org/visnow/jlargearrays/LargeArrayUtils.java:2280-2286 | one `setComplexDouble(j, elem)` just after the copied range extends it by one element |
| ComplexArrayCopies.StoreInterleaved | app/src/main/java/org/visnow/jlargearrays/LargeArrayUtils.java:2280-2286 | the loop of the interleaved copies leaves what InterleavedRun describes |
| ComplexArrayCopies.CopyInterleavedAsWritten | app/src/main/java/org/visnow/jlargearrays/LargeArrayUtils.java:2263-2321 | `arraycopy(double[], ..., ComplexDoubleLargeArray, ...)` as written leaves what InterleavedCopyAsWritten describes |
| ComplexArrayCopies.CopyInterleaved | app/src/main/java/org/visnow/jlargearrays/LargeArrayUtils.java:2068-2126 | `arraycopy(float[], ..., ComplexFloatLargeArray, ...)` leaves what InterleavedCopy describes |
| ComplexArrayCopies.CopyComplex | app/src/main/java/org/visnow/jlargearrays/LargeArrayUtils.java:2205-2250 | between complex arrays: different types throw IllegalArgumentException, then the checks; on success the destination holds the source range from destPos on, read as the loop changes it when the two have the same parts (one array copied onto itself) or their parts wrap the same two Java arrays, and a failure changes nothing |
| ComplexArrayCopies.CopiedAsSplice | app/src/main/java/org/visnow/jlargearrays/LargeArrayUtils.java:2220-2224 | storing each element unchanged completes and splices the range in |
| ComplexArrayCopies.StoreWithin | app/src/main/java/org/visnow/jlargearrays/LargeArrayUtils.java:2220-2224 | the complex-to-complex loop within one array leaves what RunWithin describes |
| ComplexArrayCopies.StoreAt | app/src/main/java/org/visnow/jlargearrays/LargeArrayUtils.java:2220-2224 | `setComplexX(j, {re, im})` inside the array makes element j that value and keeps every other element |
| ComplexArrayCopies.StoreElements | app/src/main/java/org/visnow/jlargearrays/LargeArrayUtils.java:2220-2224 | the complex-to-complex loop writes cs from destPos on and nothing else |
| ComplexArrayCopies.StoreTaken | app/src/main/java/org/visnow/jlargearrays/LargeArrayUtils.java:2220-2224 | one step of that loop extends the written prefix of cs by one element |
| ComplexArrayCopies.TakeSnoc | app/src/main/java/org/visnow/jlargearrays/LargeArrayUtils.java:2220-2224 | the first k + 1 values are the first k and value k |
| ComplexArrayCopies.TakeAll | app/src/main/java/org/visnow/jlargearrays/LargeArrayUtils.java:2220-2224 | taking all values gives the sequence itself |
| ComplexArrayCopies.CopyToInterleaved | app/src/main/java/org/visnow/jlargearrays/LargeArrayUtils.java:2334-2387 | `arraycopy(ComplexDoubleLargeArray, ..., double[], ...)`: the destination range checked is 2 * length; on success dest holds the parts of the source range interleaved from destPos on, and the rest of dest is as before |
| ComplexArrayCopies.WriteInterleaved | app/src/main/java/org/visnow/jlargearrays/LargeArrayUtils.java:2348-2354 | the loop puts the parts of element k at dest[destPos + 2k] and dest[destPos + 2k + 1] and nothing else |
| ComplexArrayCopies.FlattenTakeSnoc | app/src/main/java/org/visnow/jlargearrays/LargeArrayUtils.java:2348-2354 | the parts of the first k + 1 elements are those of the first k followed by element k's two parts |
| LargeArrayRegions.ClipInside | app/src/main/java/org/visnow/jlargearrays/LargeArrayUtils.java:2731-2760 | a dimension that clips lies inside both arrays: its source range in [0, srcDim) and its destination range in [0, destDim) |
| LargeArrayRegions.ClipWithin | app/src/main/java/org/visnow/jlargearrays/LargeArrayUtils.java:2731-2760 | clipping moves both corners by the same amount and only ever cuts the requested range |
| LargeArrayRegions.ClipUntouched | app/src/main/java/org/visnow/jlargearrays/LargeArrayUtils.java:2731-2760 | a size below 1 gets through only when nothing had to be clipped, and then the dimension is passed on as requested |
| LargeArrayRegions.ClipExact | app/src/main/java/org/visnow/jlargearrays/LargeArrayUtils.java:2731-2760 | clipping gives up exactly when no index is wanted by the request and inside both arrays, and otherwise keeps exactly those indices |
| LargeArrayRegions.ClipAll | app/src/main/java/org/visnow/jlargearrays/LargeArrayUtils.java:2733-2758 | one clipping per dimension |
| LargeArrayRegions.ClipAt | app/src/main/java/org/visnow/jlargearrays/LargeArrayUtils.java:2734-2757 | one iteration of the loop clips dimension i of the three arrays it updates and leaves every other dimension alone |
| LargeArrayRegions.ClipSourceAt | app/src/main/java/org/visnow/jlargearrays/LargeArrayUtils.java:2734-2745 | the source steps of one iteration: a negative source position, then the source end |
| LargeArrayRegions.ClipDestAt | app/src/main/java/org/visnow/jlargearrays/LargeArrayUtils.java:2746-2757 | the destination steps: a negative destination position, then the destination end |
| LargeArrayRegions.RecomputeCopyLimits | app/src/main/java/org/visnow/jlargearrays/LargeArrayUtils.java:2731-2760 | `recomputeCopyLimits` is true exactly when every dimension clips; the dimensions before the first failure hold their clipped values and the later ones their old values |
| LargeArrayRegions.ExactProductSnoc | app/src/main/java/org/visnow/jlargearrays/LargeArrayUtils.java:2762-2769 | the product of one more dimension is the product times that dimension |
| LargeArrayRegions.Product | app/src/main/java/org/visnow/jlargearrays/LargeArrayUtils.java:2762-2769 | `product(a)` is the exact product of the entries wrapped to 64 bits |
| LargeArrayRegions.CheckArrayTypeAndSize | app/src/main/java/org/visnow/jlargearrays/LargeArrayUtils.java:2771-2788 | between two large arrays the check passes exactly when the types match and each product of dimensions, in long arithmetic, is its array's length; otherwise IllegalArgumentException |
| LargeArrayRegions.RowsOfRank2 | app/src/main/java/org/visnow/jlargearrays/LargeArrayUtils.java:3125-3127 | for rank 2 the rows are those the loop over r1 hands to `arraycopy` |
| LargeArrayRegions.SlabsOfRank2 | app/src/main/java/org/visnow/jlargearrays/LargeArrayUtils.java:3125-3127 | the rows of rank 2 from counter r on are the remaining iterations of that loop |
| LargeArrayRegions.ProductSplit | app/src/main/java/org/visnow/jlargearrays/LargeArrayUtils.java:2762-2769 | the product of dimensions j ... n - 1 is dimension j times the product of the rest |
| LargeArrayRegions.NextOffset | app/src/main/java/org/visnow/jlargearrays/LargeArrayUtils.java:3107-3131 | an offset acc * d + x with x in [0, d) stays below p * d when acc is below p |
| LargeArrayRegions.LastOffset | app/src/main/java/org/visnow/jlargearrays/LargeArrayUtils.java:3107-3131 | a row of len values at acc * d + pos stays within p * d |
| LargeArrayRegions.RowsInside | app/src/main/java/org/visnow/jlargearrays/LargeArrayUtils.java:3107-3131 | inside a box lying in both arrays, every row the loops copy lies in both arrays when their lengths are the products of their dimensions |
| LargeArrayRegions.SlabsInside | app/src/main/java/org/visnow/jlargearrays/LargeArrayUtils.java:3107-3131 | the same for the rows from counter r on |
| LargeArrayRegions.RowsRun | app/src/main/java/org/visnow/jlargearrays/LargeArrayUtils.java:3107-3133 | the row copies in turn leave a destination of the same length; a source sharing the destination's storage reads what the earlier rows and the row itself stored; the first row that throws ends the copy |
| LargeArrayRegions.RowsRunDone | app/src/main/java/org/visnow/jlargearrays/LargeArrayUtils.java:3107-3133 | with every row inside both arrays, a non-constant destination and a setter that takes every value, every row is copied and nothing throws, whatever storage the two arrays share |
| LargeArrayRegions.RowsSeeEarlierRows | app/src/main/java/org/visnow/jlargearrays/LargeArrayUtils.java:3107-3133 | rows (0, 1) then (1, 2) of length 1 over {1, 2, 3} leave {1, 1, 1} when the source shares the destination's storage and {1, 1, 2} when it does not |
| LargeArrayRegions.CopyRows | app/src/main/java/org/visnow/jlargearrays/LargeArrayUtils.java:3107-3133 | the loops of `subarraycopy` leave what RowsRun describes for the sharing between the two arrays, which implies the lengths RowsRun needs |
| LargeArrayRegions.SubarrayRun | app/src/main/java/org/visnow/jlargearrays/LargeArrayUtils.java:3088-3136 | the checks, the clipping, the rank test and the row copies of `subarraycopy` leave a destination of the same length |
| LargeArrayRegions.ClippedInBox | app/src/main/java/org/visnow/jlargearrays/LargeArrayUtils.java:3103-3105 | a request whose every dimension clips to a size of at least 1 gives a box inside both arrays |
| LargeArrayRegions.SubarrayRunDone | app/src/main/java/org/visnow/jlargearrays/LargeArrayUtils.java:3088-3136 | a copy of rank 1 to 4 between non-constant arrays of matching dimensions whose box clips to sizes of at least 1 completes without throwing, whether or not the arrays share storage |
| LargeArrayRegions.Subarraycopy | app/src/main/java/org/visnow/jlargearrays/LargeArrayUtils.java:3088-3136 | `subarraycopy`: a null argument or ranks that differ throw IllegalArgumentException and change nothing; otherwise the destination is what SubarrayRun describes for the sharing between the two arrays |
| LargeArrayRegions.ClipCopies | app/src/main/java/org/visnow/jlargearrays/LargeArrayUtils.java:3099-3105 | clipping runs on clones: true exactly when every dimension clips, and then the clipped positions and sizes |
| LargeArrayConversions.Cast | app/src/main/java/org/visnow/jlargearrays/LargeArrayUtils.java:3189-3355 | the number a constant of a scalar type is made of: for LOGIC and BYTE `byteValue()` of the boxed value, for UNSIGNED_BYTE and SHORT `shortValue()`, then `intValue()`, `longValue()`, the float and the double; each is the argument's integer view wrapped to the type's width |
| LargeArrayConversions.ConstantInit | app/src/main/java/org/visnow/jlargearrays/LargeArrayUtils.java:3186-3390 | the value `createConstant` stores: for a scalar type it succeeds exactly when the value is a Boolean or a boxed number, and then holds that number cast to the type; complex types demand a float or double array (null throws NullPointerException), STRING a String, OBJECT takes anything; every other refusal is IllegalArgumentException |
| LargeArrayConversions.CreateConstant | app/src/main/java/org/visnow/jlargearrays/LargeArrayUtils.java:3186-3390 | `createConstant(type, length, value)` succeeds exactly when the value is accepted, the length is not negative, a complex value has two parts and an object is serializable |
| LargeArrayConversions.ConstantOfOwnBox | app/src/main/java/org/visnow/jlargearrays/LargeArrayUtils.java:3210-3355 | a constant made of a Byte, Short, Integer, Long or Double of the array's own type holds that very value |
| LargeArrayConversions.ConstantIsWhatSetStores | app/src/main/java/org/visnow/jlargearrays/LargeArrayUtils.java:3252-3355 | for SHORT, LONG and DOUBLE the constant `createConstant` makes of a boxed number is the element `set(i, value)` stores for it |
| LargeArrayConversions.NegativeLengthRefused | app/src/main/java/org/visnow/jlargearrays/ShortLargeArray.java:96-98 | a constant of negative length is refused |
| LargeArrayConversions.Box | app/src/main/java/org/visnow/jlargearrays/ShortLargeArray.java:159-163 | what `get(i)` returns is always a Boolean or a boxed number, so `set` and `createConstant` accept it |
| LargeArrayConversions.BoxOf | app/src/main/java/org/visnow/jlargearrays/UnsignedByteLargeArray.java:178-182 | `get(i)` of an array of each modelled kind is a value `set` accepts |
| LargeArrayConversions.Transfer | app/src/main/java/org/visnow/jlargearrays/LargeArrayUtils.java:3608-3647 | the setter call of the element loop of `convert`: for LOGIC it stores 1 exactly when `src.getByte(i) != 0`, else 0 |
| LargeArrayConversions.ConvertRun | app/src/main/java/org/visnow/jlargearrays/LargeArrayUtils.java:3603-3683 | the element loop of `convert` over a fresh zero array of the same length as the source |
| LargeArrayConversions.ConvertElements | app/src/main/java/org/visnow/jlargearrays/LargeArrayUtils.java:3603-3683 | for a non-constant source, the result is a fresh non-constant array of the target type and the same length holding what ConvertRun computes, or the setter's exception |
| LargeArrayConversions.ConvertAsWritten | app/src/main/java/org/visnow/jlargearrays/LargeArrayUtils.java:3568-3683 | `convert` as written: the same type gives the source itself; a constant source gives a constant holding `createConstant(type, length, src.get(0))`; any other source the element loop |
| LargeArrayConversions.Convert | app/src/main/java/org/visnow/jlargearrays/LargeArrayUtils.java:3568-3683 | `convert` as intended: the same, except that a constant source converts its constant as the element loop would, so a constant and a filled array convert alike |
| LargeArrayConversions.ConvertToLogic | app/src/main/java/org/visnow/jlargearrays/LargeArrayUtils.java:3608-3612 | converting to LOGIC never throws and stores 1 exactly where `getByte` of the source is not 0, so the result holds only bits |
| LargeArrayConversions.LogicTransfer | app/src/main/java/org/visnow/jlargearrays/LargeArrayUtils.java:3608-3612 | one element converted to LOGIC is 1 exactly when its byte is not 0 |
| LargeArrayConversions.ConvertAccepted | app/src/main/java/org/visnow/jlargearrays/LargeArrayUtils.java:3603-3683 | when the setter takes every element, the loop completes with element k converted |
| LargeArrayConversions.ShortToLong | app/src/main/java/org/visnow/jlargearrays/LargeArrayUtils.java:3633-3637 | SHORT to LONG keeps every value |
| LargeArrayConversions.LongToShort | app/src/main/java/org/visnow/jlargearrays/LargeArrayUtils.java:3623-3627 | LONG to SHORT keeps each value wrapped to 16 bits |
| LargeArrayConversions.DoubleToLong | app/src/main/java/org/visnow/jlargearrays/LargeArrayUtils.java:3633-3637 | DOUBLE to LONG rounds each value toward zero and saturates at the long range |
| LargeArrayConversions.ByteOfBox | app/src/main/java/org/visnow/jlargearrays/LargeArrayUtils.java:3189-3208 | for each modelled kind, `byteValue()` of what `get(0)` returns is the integer `getByte(0)` reads |
| LargeArrayConversions.LogicByteOfBox | app/src/main/java/org/visnow/jlargearrays/LargeArrayUtils.java:3189-3208 | the same for a logic array |
| LargeArrayConversions.UnsignedByteByteOfBox | app/src/main/java/org/visnow/jlargearrays/LargeArrayUtils.java:3189-3208 | the same for an unsigned byte array |
| LargeArrayConversions.ShortByteOfBox | app/src/main/java/org/visnow/jlargearrays/LargeArrayUtils.java:3189-3208 | the same for a short array |
| LargeArrayConversions.LongByteOfBox | app/src/main/java/org/visnow/jlargearrays/LargeArrayUtils.java:3189-3208 | the same for a long array |
| LargeArrayConversions.DoubleByteOfBox | app/src/main/java/org/visnow/jlargearrays/LargeArrayUtils.java:3189-3208 | the same for a double array |
| LargeArrayConversions.ConstantToLogicAgrees | app/src/main/java/org/visnow/jlargearrays/LargeArrayUtils.java:3573-3612 | with the correction, converting a constant array to LOGIC gives the same elements as converting the same values held in a filled array |
| LargeArrayConversions.ConstantToLogicAsWritten | app/src/main/java/org/visnow/jlargearrays/LargeArrayUtils.java:3573-3585 | as written, a constant SHORT array of 2s converts to a LOGIC constant 2, which is not a bit, while the element loop would store 1 |
| LargeArrayConversions.Ones | app/src/main/java/org/visnow/jlargearrays/LargeArrayUtils.java:3880-3899 | the number of mask elements equal to 1 is at most the mask's length |
| LargeArrayConversions.Selected | app/src/main/java/org/visnow/jlargearrays/LargeArrayUtils.java:3907-3911 | the source elements whose mask element is 1, in order; as many as the mask has ones |
| LargeArrayConversions.OnesSplit | app/src/main/java/org/visnow/jlargearrays/LargeArrayUtils.java:3876-3895 | counting ones chunk by chunk adds up to counting them all |
| LargeArrayConversions.SelectedSnoc | app/src/main/java/org/visnow/jlargearrays/LargeArrayUtils.java:3907-3911 | one more step of the loop appends the element exactly when its mask element is 1 |
| LargeArrayConversions.SelectedAllOrNone | app/src/main/java/org/visnow/jlargearrays/LargeArrayUtils.java:3867-3914 | a mask of all ones selects the whole source and a mask without ones selects nothing |
| LargeArrayConversions.SelectRun | app/src/main/java/org/visnow/jlargearrays/LargeArrayUtils.java:3905-3911 | the filling loop of `select` into a fresh array as long as the count of ones |
| LargeArrayConversions.SelectRunKeeps | app/src/main/java/org/visnow/jlargearrays/LargeArrayUtils.java:3905-3911 | when `set(k, get(j))` stores back each selected element unchanged, the result is exactly the selected elements |
| LargeArrayConversions.ReboxedRoundTrip | app/src/main/java/org/visnow/jlargearrays/LargeArrayUtils.java:3910 | for logic bits, unsigned bytes, shorts, longs and doubles, `set(k, get(j))` stores the element it read |
| LargeArrayConversions.CountRange | app/src/main/java/org/visnow/jlargearrays/LargeArrayUtils.java:3886-3888 | one chunk's count is the number of ones in its range of the mask |
| LargeArrayConversions.ChunkFits | app/src/main/java/org/visnow/jlargearrays/LargeArrayUtils.java:3874-3879 | each chunk `[j * k, j * k + k)` lies in the mask, and the last one reaches its end |
| LargeArrayConversions.CountChunks | app/src/main/java/org/visnow/jlargearrays/LargeArrayUtils.java:3874-3899 | the chunk counts add up to the number of ones in the whole mask |
| LargeArrayConversions.SelectedFrom | app/src/main/java/org/visnow/jlargearrays/LargeArrayUtils.java:3907-3911 | the elements selected from index j on are element j when its mask is 1, followed by those selected after it |
| LargeArrayConversions.RunCons | app/src/main/java/org/visnow/jlargearrays/LargeArrayUtils.java:3907-3911 | storing x and then the rest is the store of x followed, if it did not throw, by the stores of the rest |
| LargeArrayConversions.SelectStep | app/src/main/java/org/visnow/jlargearrays/LargeArrayUtils.java:3907-3911 | one iteration of the filling loop advances the result exactly as SelectRun describes |
| LargeArrayConversions.SetSelected | app/src/main/java/org/visnow/jlargearrays/LargeArrayUtils.java:3910 | `res.set(k, x)` stores x at k as the setter does, or throws, and leaves the rest |
| LargeArrayConversions.GatherAt | app/src/main/java/org/visnow/jlargearrays/LargeArrayUtils.java:3908-3910 | one iteration: with mask 1 the element is stored at k and k advances; otherwise nothing changes |
| LargeArrayConversions.GatherInto | app/src/main/java/org/visnow/jlargearrays/LargeArrayUtils.java:3906-3911 | the filling loop stores the selected elements from 0 on |
| LargeArrayConversions.Gather | app/src/main/java/org/visnow/jlargearrays/LargeArrayUtils.java:3905-3911 | the result is a fresh non-constant array of the source's type holding what SelectRun computes, or the setter's exception |
| LargeArrayConversions.SelectAsWritten | app/src/main/java/org/visnow/jlargearrays/LargeArrayUtils.java:3867-3914 | `select` as written: different lengths throw IllegalArgumentException; empty arrays throw ArithmeticException (`length / nthreads` with no threads); no ones gives null; otherwise the selected elements in a fresh array |
| LargeArrayConversions.Select | app/src/main/java/org/visnow/jlargearrays/LargeArrayUtils.java:3867-3914 | `select` as intended: the same, except that empty arrays give null |
| LargeArrayOperators.ArgCountOf | app/src/main/java/org/visnow/jlargearrays/LargeArrayOperator.java:144-158 | the argument counts `evaluate` accepts: ADD and MULT any number from two on (`args.length < 2` throws), DIFF, DIV and POW exactly two, AXPY exactly three, every other operator exactly one |
| LargeArrayOperators.LargestIsMaximum | app/src/main/java/org/visnow/jlargearrays/LargeArrayOperator.java:1025-1044 | the largest type is one of the argument types and no argument type has a larger ordinal |
| LargeArrayOperators.LargestNumericType | app/src/main/java/org/visnow/jlargearrays/LargeArrayOperator.java:1025-1044 | `getLargestNumericType`: no arguments or a non-numeric argument throws IllegalArgumentException; otherwise the type of largest ordinal |
| LargeArrayOperators.BestOutputType | app/src/main/java/org/visnow/jlargearrays/LargeArrayOperator.java:1046-1063 | `selectBestNumericOutputType`: fails as the largest type does; the result is numeric, never an integer type for a floating-point operation, never complex for a complex-to-real one, and otherwise the largest input type |
| LargeArrayOperators.BestOutputIsWideEnough | app/src/main/java/org/visnow/jlargearrays/LargeArrayOperator.java:1046-1063 | unless the operation maps complex to real, the output type is at least as wide as every input type; LONG promotes to DOUBLE for a floating-point operation and COMPLEX_DOUBLE demotes to DOUBLE for a complex-to-real one |
| LargeArrayOperators.OutputType | app/src/main/java/org/visnow/jlargearrays/LargeArrayOperator.java:835-848 | the checks at the head of each `evaluate`: a given output type must be numeric, the argument count must fit the operator, SIGNUM refuses a complex argument, and with no output type given the best one is chosen; every refusal is IllegalArgumentException |
| LargeArrayOperators.CheckArguments | app/src/main/java/org/visnow/jlargearrays/LargeArrayOperator.java:2167-2178 | the checks of `evaluateVarArgFunction`: it goes on exactly when there is an argument, every argument is numeric and as long as the first, and the output type is numeric; otherwise IllegalArgumentException |
| LargeArrayOperators.Modulus | app/src/main/java/org/visnow/jlargearrays/LargeArrayOperator.java:159-192 | the modulus of each integer width is an even number of at least 2 |
| LargeArrayOperators.Narrow | app/src/main/java/org/visnow/jlargearrays/LargeArrayOperator.java:159-192 | the cast to a Java integer type lands in its range and leaves a value already in range unchanged |
| LargeArrayOperators.SumKernel | app/src/main/java/org/visnow/jlargearrays/LargeArrayOperator.java:159-192 | the ADD loop `res += in[i]` in a Java integer type is the exact sum of the arguments wrapped to that width |
| LargeArrayOperators.ProductKernel | app/src/main/java/org/visnow/jlargearrays/LargeArrayOperator.java:667-698 | the MULT loop `res *= in[i]` in a Java integer type is the exact product wrapped to that width |
| LargeArrayOperators.RealSumKernel | app/src/main/java/org/visnow/jlargearrays/LargeArrayOperator.java:193-208 | the ADD loop in float or double arithmetic is the sum of the arguments |
| LargeArrayOperators.RealProductKernel | app/src/main/java/org/visnow/jlargearrays/LargeArrayOperator.java:699-714 | the MULT loop in float or double arithmetic is the product of the arguments |
| LargeArrayOperators.IntegerResult | app/src/main/java/org/visnow/jlargearrays/LargeArrayOperator.java:159-192 | the integer element function of ADD, MULT, NEG, DIFF and AXPY always gives a value of the output's width |
| LargeArrayOperators.NegInvolutive | app/src/main/java/org/visnow/jlargearrays/LargeArrayOperator.java:754-765 | negating twice in a Java integer type gives back the value |
| LargeArrayOperators.NegOfIntMinimum | app/src/main/java/org/visnow/jlargearrays/LargeArrayOperator.java:760-762 | in int arithmetic `-x` of -2147483648 is -2147483648 |
| LargeArrayOperators.NarrowAdd | app/src/main/java/org/visnow/jlargearrays/LargeArrayOperator.java:341-356 | wrapping an intermediate product before adding gives the same wrapped result as wrapping once at the end |
| LargeArrayOperators.PairSumProduct | app/src/main/java/org/visnow/jlargearrays/LargeArrayOperator.java:159-192 | for two arguments the ADD and MULT loops give a + b and a * b |
| LargeArrayOperators.DiffIsAddOfNeg | app/src/main/java/org/visnow/jlargearrays/LargeArrayOperator.java:434-447 | in every integer width DIFF of (a, b) is ADD of a and NEG of b |
| LargeArrayOperators.AxpyIsAddOfMult | app/src/main/java/org/visnow/jlargearrays/LargeArrayOperator.java:341-356 | in every integer width AXPY of (a, b, c) is ADD of MULT of (a, b) and c |
| LargeArrayOperators.IntegerKernel | app/src/main/java/org/visnow/jlargearrays/LargeArrayOperator.java:144-458 | `fun.apply(args)` for an integer output type is the integer element function of the operator in that width |
| LargeArrayOperators.RealKernel | app/src/main/java/org/visnow/jlargearrays/LargeArrayOperator.java:144-458 | `fun.apply(args)` for a float or double output is the real element function |
| LargeArrayOperators.ApplyKernel | app/src/main/java/org/visnow/jlargearrays/LargeArrayOperator.java:2180-2211 | the switch on the output type hands the element function of its width to that type's setter |
| LargeArrayOperators.Boxed | app/src/main/java/org/visnow/jlargearrays/LargeArrayOperator.java:1582-1586 | the boxed result `fun.apply` returns is a number `createConstant` accepts |
| LargeArrayOperators.AreConstantArrays | app/src/main/java/org/visnow/jlargearrays/LargeArrayOperator.java:1551-1558 | `areConstantArrays` is true exactly when every input array is constant |
| LargeArrayOperators.ReadArgs | app/src/main/java/org/visnow/jlargearrays/LargeArrayOperator.java:1570-1578 | the inner loop reads argument v as `in[v].getX(i)` of each input |
| LargeArrayOperators.Operands | app/src/main/java/org/visnow/jlargearrays/LargeArrayOperator.java:1570-1578 | the arguments at index i, decoded from each input's element i with the output type's getter |
| LargeArrayOperators.ElementResults | app/src/main/java/org/visnow/jlargearrays/LargeArrayOperator.java:1570-1580 | the setter call for each index i is the element function applied to the arguments at i |
| LargeArrayOperators.ApplyAt | app/src/main/java/org/visnow/jlargearrays/LargeArrayOperator.java:1574-1578 | one iteration `out.setX(i, fun.apply(args))` stores the result at i as the setter does, or throws, and leaves the rest |
| LargeArrayOperators.RunStep | app/src/main/java/org/visnow/jlargearrays/LargeArrayOperator.java:1574-1579 | one iteration followed by the rest of the loop is the whole loop from i on |
| LargeArrayOperators.ApplyElements | app/src/main/java/org/visnow/jlargearrays/LargeArrayOperator.java:1570-1580 | `applyXFun(res, in, 0, length, fun)` stores the element results in turn from 0 on, stopping at the first setter exception |
| LargeArrayOperators.EvaluateConstant | app/src/main/java/org/visnow/jlargearrays/LargeArrayOperator.java:1582-1586 | with every input constant the result is a fresh constant array of the output type and length holding the element result at index 0 |
| LargeArrayOperators.EvaluateLoop | app/src/main/java/org/visnow/jlargearrays/LargeArrayOperator.java:1587-1598 | otherwise the result is a fresh non-constant array of the output type holding the element loop's results, or the setter's exception |
| LargeArrayOperators.Check | app/src/main/java/org/visnow/jlargearrays/LargeArrayOperator.java:2167-2178 | the checks of `evaluate` and then those of `evaluateVarArgFunction`: the call goes on exactly when all pass, and then there is an argument, the count fits and every input is as long as the first |
| LargeArrayOperators.Evaluate | app/src/main/java/org/visnow/jlargearrays/LargeArrayOperator.java:2151-2213 | `op.evaluate(outputType, args)` for ADD, MULT, NEG, DIFF and AXPY over real-valued arrays: IllegalArgumentException when a check fails; for constant inputs a constant of the element result; otherwise the element loop |
| LargeArrayOperators.ShortcutMatchesLoop | app/src/main/java/org/visnow/jlargearrays/LargeArrayOperator.java:1582-1598 | when the output's setter stores the element result as the constant constructor keeps it, the constant shortcut gives the same array the element loop would |
| LargeArrayOperators.ShortShortcutIsExact | app/src/main/java/org/visnow/jlargearrays/LargeArrayOperator.java:1684-1712 | for SHORT output the constant shortcut and the element loop agree |
| LargeArrayOperators.LongShortcutIsExact | app/src/main/java/org/visnow/jlargearrays/LargeArrayOperator.java:1786-1814 | for LONG output they agree |
| LargeArrayOperators.DoubleShortcutIsExact | app/src/main/java/org/visnow/jlargearrays/LargeArrayOperator.java:1888-1916 | for DOUBLE output they agree |
| LargeArrayOperators.UnsignedByteShortcutWraps | app/src/main/java/org/visnow/jlargearrays/LargeArrayOperator.java:1633-1661 | for UNSIGNED_BYTE output they differ: ADD of the unsigned bytes 200 and 100 throws in the loop (`setUnsignedByte(300)`), while the constant shortcut keeps 300 wrapped to 44 |
| LargeArrayOperators.LogicShortcutKeepsTwo | app/src/main/java/org/visnow/jlargearrays/LargeArrayOperator.java:1582-1609 | for LOGIC output they differ: ADD of 1 and 1 throws in the loop, while the constant shortcut keeps 2, which is not a bit |
| LargeArrayOperators.ConstantScan | app/src/main/java/org/visnow/jlargearrays/LargeArrayOperator.java:1551-1558 | `areConstantArrays` over slots that may be null: with every slot set it is true exactly when all are constant; a null first slot throws NullPointerException |
| LargeArrayOperators.AreConstantSlots | app/src/main/java/org/visnow/jlargearrays/LargeArrayOperator.java:1551-1558 | the loop computes what ConstantScan states |
| LargeArrayOperators.Converted | app/src/main/java/org/visnow/jlargearrays/LargeArrayOperator.java:2029-2032 | each argument converted to COMPLEX_DOUBLE, slot by slot |
| LargeArrayOperators.ComplexDoubleArgsAsWritten | app/src/main/java/org/visnow/jlargearrays/LargeArrayOperator.java:2024-2033 | as written the converted arguments go back into `in` while `inComplex` stays full of nulls, so `areConstantArrays(inComplex)` throws NullPointerException for any argument |
| LargeArrayOperators.ComplexArgs | app/src/main/java/org/visnow/jlargearrays/LargeArrayOperator.java:2024-2033 | as intended the converted arguments fill `inComplex`, the input is left alone, and the constant test sees the converted arrays |

## Left out

- Native memory: every `ptr != 0` branch (Unsafe reads and writes, `allocateMemory` above the 32-bit array limit, the cleaner, the UTF-8 layout of strings and the serialized layout of objects). `isLarge()` is therefore always false.
- The multithreaded branches of `arraycopy`, `convert`, `select`, the logic operations and `LargeArrayOperator`, and their fallbacks after an interrupted wait. Only the sequential path is modelled; `select` counts chunk by chunk in sequence, as the threads would.
- Float and double arithmetic: values are exact reals, so NaN, the infinities and rounding to 24 or 53 bits are absent, and float and double elements behave alike. `Float.toString` and `Double.toString` are a parameter of the string setters.
- Metronome.BPMCounter.RunFft: the FFT (a foreign library), the frequency axis `generateXF` and the sample period are one abstract parameter. The model covers the window it is given, the range and peak selection over its output and the choice of axis, not the spectrum itself.
- Metronome.BPMCounter.constructor: requires `recordsToKeep * HISTORY` to fit an int, where the Java code would overflow the array size.
- Metronome.BPMCounter.Record: after an exception inside the analysis the counter's invariant is not promised, since the Java object is left half updated.
- The sensor registration, UI and lifecycle of the Android activity and its final rounding of the tempo.
- `ByteLargeArray`, `IntLargeArray` and `FloatLargeArray` are not part of this model. Their `arraycopy` overloads, their `createConstant` cases (beyond the stored value `Cast` computes) and conversions into them are left out. The complex float class shares one class with the complex double one.
- The `arraycopy` dispatch on the runtime class of a Java array (LargeArrayUtils.java:178-385) is not modelled. Each typed overload is `CopyIn` or `CopyOut` when the Java array has the large array's element type, and `CopyConvertedIn` or `CopyConvertedOut` (with the typed overloads `BooleanArrayIntoLogic`, `ShortArrayIntoUnsignedByte`, `LogicIntoBooleanArray`, `UnsignedByteIntoShortArray`) when it does not, with its element conversion as a parameter.
- LargeArrayCopies.CopyConvertedIn: states that the Java array is not the large array's storage. In Java their element types differ, so they cannot be one object, and the typed overloads meet this by their types alone.
- LargeArrayCopies.CopyConvertedOut: states that the Java array is not the large array's storage (or the source is constant), for the same reason.
- ComplexLargeArrays.FromParts: two parts that are one large array, or that wrap one Java array, are excluded, though Java accepts them. Every store into one part would then show in the other, and each contract of the class would need a second case.
- ComplexLargeArrays.ComplexLargeArray: the class invariant asks for parts over distinct storage, for the same reason.
- ComplexArrayCopies.CopyComplex: partial sharing is excluded: two complex arrays sharing one part object or one part's Java array but not the other, a part of one over the Java array of the other's other part, and shared Java arrays under a constant part. One array copied onto itself, two arrays with the same parts, and two arrays whose real parts wrap one Java array and imaginary parts another are modelled, as the forward loop that reads what it wrote.
- ComplexArrayCopies.CopyInterleavedAsWritten: a source `double[]` that is the Java array of one of the destination's parts is excluded.
- ComplexArrayCopies.CopyInterleaved: a source `float[]` or `double[]` that is the Java array of one of the destination's parts is excluded.
- ComplexArrayCopies.CopyToInterleaved: a destination that is the Java array of one of the source's parts is excluded.
- LargeArrayConversions.Convert: converts between logic, unsigned byte, short, long and double arrays only. Conversions to and from complex, string and object arrays are left out.
- LargeArrayConversions.Select: selects from logic, unsigned byte, short, long and double arrays only.
- LargeArrayConversions.ConstantIsWhatSetStores: covers SHORT, LONG and DOUBLE only. For LOGIC and UNSIGNED_BYTE the constant and the setter differ, which `ConstantToLogicAsWritten` and `UnsignedByteShortcutWraps` show.
- LargeArrayOperators.Evaluate: covers ADD, MULT, NEG, DIFF and AXPY over arguments of one element type only, with real-valued elements and a real-valued output type. Mixed arguments, such as ADD of a SHORT and a LONG array, which `evaluate` accepts and promotes with `getLargestNumericType`, are left out. The transcendental operators (`FastMath` functions, DIV and POW with their float semantics) and complex inputs and outputs are left out; NEG, a unary operator, goes through the same element loop, which `evaluateSingleArgFunction` (LargeArrayOperator.java:1065-1123) mirrors for one argument.
- LargeArrays.HashCode: the base-class part only (LargeArray.java:945-956): its argument check, and that the quality does not change its result. The typed overrides' sampling, which depends on the quality (a step of `ceil((1 - length) * quality + length)` over the elements), is left out, and so is the hash value itself.
- Java serialization, `generateRandom` (java.util.Random) and `toString`.
- Positions, lengths and dimensions are unbounded integers except where the code wraps them explicitly (`product`, `MemoryCounter`); a `long` overflow in `srcPos + length` is not modelled.
- ComplexLargeArrays.ComplexLargeArray.GetComplexDataStrided: a caller buffer `a` that is a part's own Java array is excluded; Java would write the interleaved values into the part while reading it.
- The strided `get*Data` methods return a fresh sequence; reusing the caller's buffer shows only as the result keeping the tail of that buffer, not as aliasing.
- MemoryCounter is a static `AtomicLong`; here it is one object, and atomicity is not modelled.

## Findings

| source | as written | input that shows it | evidently intended | confidence | as-written member | corrected member |
|---|---|---|---|---|---|---|
| app/src/main/java/org/visnow/jlargearrays/DoubleLargeArray.java:798-813 | on a heap array that is not constant, `setLong` stores nothing, because the store sits inside `if (isConstant)` | `setLong(0, 1)` on the array {0.0} leaves {0.0} | store `(double) value` at i, as the other setters and LargeArray.java:780-787 say | high, not executed | DoubleLargeArrays.SetLongAsWritten, DoubleLargeArrays.SetLongIsLost | DoubleLargeArrays.SetLongCorrected |
| app/src/main/java/org/visnow/jlargearrays/ComplexDoubleLargeArray.java:870-874 | `setLong` of a complex double array goes to the double parts' `setLong`, so it inherits the row above | `setLong(0, 1)` on a complex double array of one zero element leaves it zero | store (value, 0) at i | high, not executed | ComplexLargeArrays.ComplexLargeArray.SetLongAsWritten | ComplexLargeArrays.ComplexLargeArray.Assign |
| app/src/main/java/org/visnow/jlargearrays/StringLargeArray.java:161-170 | `clone` gives the copy `max(1, maxStringLength)`, and `equals` compares `maxStringLength` | a `StringLargeArray(new String[]{"a"})` has limit 0, so its clone has limit 1 and is not equal to it | a clone equal to the original | medium, not executed | StringLargeArrays.StringLargeArray.CloneAsWritten | StringLargeArrays.StringLargeArray.CloneCorrected |
| app/src/main/java/org/visnow/jlargearrays/ObjectLargeArray.java:139-155 | the heap branch of `allocateMemory` allocates nulls and ignores `initValue` | `new ObjectLargeArray(2, 100, x, false)` holds {null, null} | every element starts as `initValue`, as documented | high, not executed | ObjectLargeArrays.NewFilledAsWritten | ObjectLargeArrays.NewFilled |
| app/src/main/java/org/visnow/jlargearrays/ObjectLargeArray.java:492-496 | materialising a constant before `set` goes through that same allocation, so the other elements become null | `set(0, y)` on the constant array {x, x} leaves {y, null} | {y, x} | high, not executed | ObjectLargeArrays.ObjectLargeArray.SetAsWritten, ObjectLargeArrays.MaterialisationDropsConstant | ObjectLargeArrays.ObjectLargeArray.Set |
| app/src/main/java/org/visnow/jlargearrays/ObjectLargeArray.java:191-201 | `clone` copies through `set`, which refuses null | cloning the array {x, null} (not constant) throws IllegalArgumentException | a deep copy equal to the original | high, not executed | ObjectLargeArrays.ObjectLargeArray.CloneAsWritten | ObjectLargeArrays.ObjectLargeArray.CloneCorrected |
| app/src/main/java/org/visnow/jlargearrays/LargeArray.java:906-915 | the inherited `clone` tests the `isConstant` field, which a complex array never clears when its parts materialise | a complex array created constant (0, 0) of length 2 and then given (1, 1) at index 1 clones as the constant (0, 0) | test `isConstant()`, which asks both parts | medium, not executed | ComplexLargeArrays.ComplexLargeArray.CloneAsWritten | ComplexLargeArrays.ComplexLargeArray.CloneCorrected |
| app/src/main/java/org/visnow/jlargearrays/LargeArrayUtils.java:2268 | the `double[]` overload into a complex double array checks `srcPos + length > src.length` but reads `2 * length` values | copying two elements from {1.0, 2.0} stores (1.0, 2.0) and then throws ArrayIndexOutOfBoundsException | check `srcPos + 2 * length`, as the `float[]` overload does at line 2073 | high, not executed | ComplexArrayCopies.InterleavedCopyAsWritten, ComplexArrayCopies.InterleavedCopyAsWrittenPartial | ComplexArrayCopies.InterleavedCopy |
| app/src/main/java/org/visnow/jlargearrays/LargeArrayUtils.java:3874-3875 | `select` computes `length / nthreads` with `nthreads = min(length, threads)` | two empty arrays: `nthreads` is 0 and the division throws ArithmeticException | null, as for a mask without ones | high, not executed | LargeArrayConversions.SelectAsWritten | LargeArrayConversions.Select |
| app/src/main/java/org/visnow/jlargearrays/LargeArrayUtils.java:3573-3585 | `convert` of a constant array to LOGIC stores `byteValue()` of the constant | a constant SHORT array of 2s converts to a LOGIC constant 2, where the element loop stores 1 | 1 for every nonzero value, as the loop at lines 3608-3612 does | high, not executed | LargeArrayConversions.ConvertAsWritten, LargeArrayConversions.ConstantToLogicAsWritten | LargeArrayConversions.Convert, LargeArrayConversions.ConstantToLogicAgrees |
| app/src/main/java/org/visnow/jlargearrays/LargeArrayOperator.java:2029-2032 | the COMPLEX_DOUBLE path stores the converted arguments into `in[i]` and leaves `inComplex` null | any evaluation with COMPLEX_DOUBLE output: `areConstantArrays(inComplex)` throws NullPointerException | fill `inComplex[i]`, as the COMPLEX_FLOAT path does at lines 1959-1963 | high, not executed | LargeArrayOperators.ComplexDoubleArgsAsWritten | LargeArrayOperators.ComplexArgs |
