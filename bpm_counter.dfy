// The metronome's tempo estimator. Accelerometer samples are written into a
// fixed array of recordsToKeep * HISTORY slots; every updateFrequency samples
// the last recordsToKeep of them are analysed per axis and the axis with the
// strongest spectral peak gives the tempo (in beats per second). When the
// array is full its last recordsToKeep samples are moved to the front.
//
// The FFT, the frequency axis it is read against (generateXF) and the
// sample-period arithmetic are one abstract `SpectralAnalysis` parameter;
// what is modelled is the index bookkeeping around it and the selection of
// the frequency range, the two strongest peaks and the axis.
module Metronome {
  import opened Wrappers
  import JavaInts

  const HISTORY: int := 32
  const MIN_BPM: int := 40
  const MAX_BPM: int := 200
  /** MIN_BPM / 60 and MAX_BPM / 60, in beats per second. */
  const MIN_BPS: real := 40.0 / 60.0
  const MAX_BPS: real := 200.0 / 60.0

  datatype DataPoint = DataPoint(x: real, y: real, z: real, timestamp: int)

  datatype Axis = X | Y | Z

  function Coordinate(p: DataPoint, axis: Axis): real {
    match axis
    case X => p.x
    case Y => p.y
    case Z => p.z
  }

  /** The frequency of every bin (xF) and the magnitude of the bins that were computed. */
  datatype Spectrum = Spectrum(xF: seq<real>, magnitudes: seq<real>)

  /** xF has recordsToKeep entries and the magnitudes recordsToKeep / 2. */
  type WellShapedSpectrum = s: Spectrum | |s.magnitudes| <= |s.xF| witness Spectrum([], [])

  /** The FFT of one axis' samples, given the milliseconds between the first and the last sample. */
  type SpectralAnalysis = (seq<real>, int) -> WellShapedSpectrum

  /** A frequency in beats per second; 0/0 in the weighted average gives NaN. */
  datatype Estimate = Bps(value: real) | NotANumber

  /** The two floats run_fft returns: the frequency and its weight. */
  datatype Reading = Reading(freq: Estimate, weight: real)

  datatype Peaks = Peaks(best: int, second: int)

  function Abs(r: real): real {
    if r < 0.0 then -r else r
  }

  // ---------------------------------------------------------------------------
  // Frequency range

  /** The first index at or after `from` whose value exceeds `threshold`, or -1. */
  function FirstAboveFrom(xs: seq<real>, threshold: real, from: nat): (k: int)
    requires from <= |xs|
    ensures k == -1 || from <= k < |xs|
    ensures k == -1 ==> forall i :: from <= i < |xs| ==> xs[i] <= threshold
    ensures k != -1 ==> threshold < xs[k] && forall i :: from <= i < k ==> xs[i] <= threshold
    decreases |xs| - from
  {
    if from == |xs| then -1
    else if threshold < xs[from] then from
    else FirstAboveFrom(xs, threshold, from + 1)
  }

  function FirstAbove(xs: seq<real>, threshold: real): int
  {
    FirstAboveFrom(xs, threshold, 0)
  }

  /** The loop that finds min_index and max_index: the first bins above MIN_BPS and MAX_BPS. */
  method FindBpmRange(xF: seq<real>) returns (minIndex: int, maxIndex: int)
    ensures minIndex == FirstAbove(xF, MIN_BPS) && maxIndex == FirstAbove(xF, MAX_BPS)
  {
    minIndex, maxIndex := -1, -1;
    var i := 0;
    while i < |xF|
      invariant 0 <= i <= |xF|
      invariant minIndex == -1 ==> forall j :: 0 <= j < i ==> xF[j] <= MIN_BPS
      invariant minIndex != -1 ==> 0 <= minIndex < i && MIN_BPS < xF[minIndex]
                                   && forall j :: 0 <= j < minIndex ==> xF[j] <= MIN_BPS
      invariant maxIndex == -1 ==> forall j :: 0 <= j < i ==> xF[j] <= MAX_BPS
      invariant maxIndex != -1 ==> 0 <= maxIndex < i && MAX_BPS < xF[maxIndex]
                                   && forall j :: 0 <= j < maxIndex ==> xF[j] <= MAX_BPS
    {
      if minIndex == -1 && xF[i] > MIN_BPS {
        minIndex := i;
      }
      if maxIndex == -1 && xF[i] > MAX_BPS {
        maxIndex := i;
      }
      i := i + 1;
    }
    FirstAboveUnique(xF, MIN_BPS, minIndex);
    FirstAboveUnique(xF, MAX_BPS, maxIndex);
  }

  /** The first-index-above characterisation has one solution. */
  lemma FirstAboveUnique(xs: seq<real>, threshold: real, k: int)
    requires k == -1 ==> forall i :: 0 <= i < |xs| ==> xs[i] <= threshold
    requires k != -1 ==> 0 <= k < |xs| && threshold < xs[k]
                         && forall i :: 0 <= i < k ==> xs[i] <= threshold
    ensures k == FirstAbove(xs, threshold)
  {}

  /** A range found against a higher threshold never starts before one found against a lower one. */
  lemma {:induction false} RangeOrdered(xs: seq<real>, lo: real, hi: real)
    requires lo <= hi
    ensures FirstAbove(xs, hi) == -1 || FirstAbove(xs, lo) <= FirstAbove(xs, hi)
  {
    var h := FirstAbove(xs, hi);
    if h != -1 {
      assert lo < xs[h];
    }
  }

  // ---------------------------------------------------------------------------
  // Peak selection

  /** The argmax loop: `for (i = from; i < hi; i++) if (|mag[i]| > |mag[temp]| && i != skip) temp = i`. */
  function Scan(mag: seq<real>, temp: nat, from: nat, hi: int, skip: int): (k: nat)
    requires temp < |mag| && hi <= |mag|
    ensures k < |mag|
    decreases hi - from
  {
    if hi <= from then temp
    else Scan(mag, if Abs(mag[from]) > Abs(mag[temp]) && from != skip then from else temp, from + 1, hi, skip)
  }

  /** The scan ends on the earliest strictly largest magnitude among the indices it may choose. */
  lemma {:induction false} ScanFindsEarliestMax(mag: seq<real>, lo: nat, temp: nat, from: nat, hi: int, skip: int)
    requires temp < |mag| && hi <= |mag| && lo <= from <= |mag| && lo <= temp
    requires temp < from || temp == lo
    requires forall j :: lo <= j < from && j != skip ==> Abs(mag[j]) <= Abs(mag[temp])
    requires forall j :: lo <= j < temp && j != skip ==> Abs(mag[j]) < Abs(mag[temp])
    ensures var k := Scan(mag, temp, from, hi, skip);
      && (k == temp || (from <= k < hi && k != skip))
      && Abs(mag[temp]) <= Abs(mag[k])
      && (k != temp ==> Abs(mag[temp]) < Abs(mag[k]))
      && (forall j :: lo <= j < hi && j != skip ==> Abs(mag[j]) <= Abs(mag[k]))
      && (forall j :: lo <= j < k && j != skip ==> Abs(mag[j]) < Abs(mag[k]))
    decreases hi - from
  {
    if from < hi {
      var next := if Abs(mag[from]) > Abs(mag[temp]) && from != skip then from else temp;
      ScanFindsEarliestMax(mag, lo, next, from + 1, hi, skip);
    }
  }

  /** run_fft indexes realFFT and xF at the chosen peaks without checking; None where Java throws. */
  function PeakIndices(mag: seq<real>, lo: int, hi: int): (r: Option<Peaks>)
    ensures r.Some? <==> 0 <= lo < |mag| && hi <= |mag|
  {
    if 0 <= lo < |mag| && hi <= |mag| then
      var best := Scan(mag, lo, lo, hi, -1);
      Some(Peaks(best, Scan(mag, lo, lo, hi, best)))
    else None
  }

  /** best_index is the earliest largest magnitude in [lo, hi) (lo itself when the range is empty);
    * second_best_index is the earliest largest magnitude other than best_index, except that it
    * equals best_index when best_index == lo, because its search starts at lo. */
  lemma PeakIndicesSelect(mag: seq<real>, lo: int, hi: int)
    requires 0 <= lo < |mag| && hi <= |mag|
    ensures var p := PeakIndices(mag, lo, hi).value;
      && (p.best == lo || lo < p.best < hi)
      && (forall j :: lo <= j < hi ==> Abs(mag[j]) <= Abs(mag[p.best]))
      && (forall j :: lo <= j < p.best ==> Abs(mag[j]) < Abs(mag[p.best]))
      && (p.best == lo ==> p.second == lo)
      && (p.best != lo ==>
            && lo <= p.second < hi && p.second != p.best
            && (forall j :: lo <= j < hi && j != p.best ==> Abs(mag[j]) <= Abs(mag[p.second]))
            && (forall j :: lo <= j < p.second && j != p.best ==> Abs(mag[j]) < Abs(mag[p.second])))
  {
    var best := Scan(mag, lo, lo, hi, -1);
    ScanFindsEarliestMax(mag, lo, lo, lo, hi, -1);
    ScanFindsEarliestMax(mag, lo, lo, lo, hi, best);
  }

  /** The two argmax loops of run_fft. */
  method PickPeaks(mag: seq<real>, lo: int, hi: int) returns (r: Option<Peaks>)
    ensures r == PeakIndices(mag, lo, hi)
  {
    if !(0 <= lo < |mag| && hi <= |mag|) {
      // realFFT[i] or realFFT[temp_index] (or xF/realFFT at the peak) is out of bounds
      return None;
    }
    var temp := lo;
    var i := lo;
    while i < hi
      invariant lo <= i && temp < |mag|
      invariant Scan(mag, temp, i, hi, -1) == Scan(mag, lo, lo, hi, -1)
    {
      if Abs(mag[i]) > Abs(mag[temp]) {
        temp := i;
      }
      i := i + 1;
    }
    var best := temp;
    temp := lo;
    i := lo;
    while i < hi
      invariant lo <= i && temp < |mag|
      invariant Scan(mag, temp, i, hi, best) == Scan(mag, lo, lo, hi, best)
    {
      if Abs(mag[i]) > Abs(mag[temp]) && i != best {
        temp := i;
      }
      i := i + 1;
    }
    r := Some(Peaks(best, temp));
  }

  /** The frequency and weight run_fft returns for the chosen peaks: adjacent peaks are averaged,
    * weighted by their magnitudes. */
  function ReadingOf(s: WellShapedSpectrum, p: Peaks): (r: Reading)
    requires 0 <= p.best < |s.magnitudes| && 0 <= p.second < |s.magnitudes|
    ensures r.weight == Abs(s.magnitudes[p.best]) && 0.0 <= r.weight
    ensures p.second != p.best + 1 && p.second != p.best - 1 ==> r.freq == Bps(s.xF[p.best])
    ensures r.freq == NotANumber <==>
      (p.second == p.best + 1 || p.second == p.best - 1) && s.magnitudes[p.best] == 0.0 && s.magnitudes[p.second] == 0.0
    ensures (p.second == p.best + 1 || p.second == p.best - 1) && r.freq.Bps? ==>
      Between(r.freq.value, s.xF[p.best], s.xF[p.second]) &&
      (s.magnitudes[p.second] == 0.0 ==> r.freq.value == s.xF[p.best]) &&
      (s.magnitudes[p.best] == 0.0 ==> r.freq.value == s.xF[p.second]) &&
      (Abs(s.magnitudes[p.best]) == Abs(s.magnitudes[p.second]) ==> r.freq.value == (s.xF[p.best] + s.xF[p.second]) / 2.0)
  {
    var f1, f2 := s.xF[p.best], s.xF[p.second];
    var w1, w2 := Abs(s.magnitudes[p.best]), Abs(s.magnitudes[p.second]);
    if p.second - p.best == 1 || p.best - p.second == 1 then
      if w1 + w2 == 0.0 then Reading(NotANumber, w1)
      else
        WeightedAverage(f1, w1, f2, w2);
        Reading(Bps((f1 * w1 + f2 * w2) / (w1 + w2)), w1)
    else
      Reading(Bps(f1), w1)
  }

  /** x lies between a and b, in either order. */
  predicate Between(x: real, a: real, b: real) {
    (a <= x <= b) || (b <= x <= a)
  }

  /** An average weighted by non-negative weights lies between the two values, is the
    * value of the only non-zero weight, and the midpoint for equal weights. */
  lemma WeightedAverage(f1: real, w1: real, f2: real, w2: real)
    requires 0.0 <= w1 && 0.0 <= w2 && 0.0 < w1 + w2
    ensures Between((f1 * w1 + f2 * w2) / (w1 + w2), f1, f2)
    ensures w2 == 0.0 ==> (f1 * w1 + f2 * w2) / (w1 + w2) == f1
    ensures w1 == 0.0 ==> (f1 * w1 + f2 * w2) / (w1 + w2) == f2
    ensures w1 == w2 ==> (f1 * w1 + f2 * w2) / (w1 + w2) == (f1 + f2) / 2.0
  {
    var m := (f1 * w1 + f2 * w2) / (w1 + w2);
    assert m * (w1 + w2) == f1 * w1 + f2 * w2;
    assert (m - f1) * (w1 + w2) == (f2 - f1) * w2;
    assert (m - f2) * (w1 + w2) == (f1 - f2) * w1;
    if f1 <= f2 {
      assert 0.0 <= (f2 - f1) * w2;
      assert 0.0 <= (f2 - f1) * w1;
    } else {
      assert 0.0 <= (f1 - f2) * w2;
      assert 0.0 <= (f1 - f2) * w1;
    }
  }

  function Unwrap<T>(s: seq<Option<T>>): (r: seq<T>)
    requires forall k :: 0 <= k < |s| ==> s[k].Some?
    ensures |r| == |s| && forall k :: 0 <= k < |s| ==> s[k] == Some(r[k])
  {
    seq(|s|, k requires 0 <= k < |s| => s[k].value)
  }

  function AxisValues(window: seq<DataPoint>, axis: Axis): (v: seq<real>)
    ensures |v| == |window| && forall i :: 0 <= i < |window| ==> v[i] == Coordinate(window[i], axis)
  {
    if |window| == 0 then [] else [Coordinate(window[0], axis)] + AxisValues(window[1..], axis)
  }

  /** What run_fft computes from a window of samples that holds no null. */
  function FftOfWindow(window: seq<DataPoint>, axis: Axis, spectrum: SpectralAnalysis): Result<Reading>
    requires |window| > 0
  {
    var s := spectrum(AxisValues(window, axis), window[|window| - 1].timestamp - window[0].timestamp);
    match PeakIndices(s.magnitudes, FirstAbove(s.xF, MIN_BPS), FirstAbove(s.xF, MAX_BPS))
    case None => Err(ArrayIndexOutOfBounds)
    case Some(p) => Ok(ReadingOf(s, p))
  }

  /** r is the estimate for the window. */
  ghost predicate EstimateOf(r: Result<Estimate>, window: seq<DataPoint>, spectrum: SpectralAnalysis)
  {
    forall w {:trigger Analyse(w, spectrum)} :: w == window && |w| > 0 ==> r == Analyse(w, spectrum)
  }

  // ---------------------------------------------------------------------------
  // Reading the window

  /** The n slots from s on, cut short at the end of the array. */
  function WindowOf<T>(a: seq<T>, s: nat, n: nat): (w: seq<T>)
    ensures |w| <= n && forall k :: 0 <= k < |w| ==> s + k < |a| && w[k] == a[s + k]
    ensures s + n <= |a| ==> |w| == n
    ensures 0 < n && |a| < s + n ==> |w| < n
  {
    if s + n <= |a| then a[s..s + n]
    else if s <= |a| then a[s..]
    else []
  }

  /** The loop at the head of run_fft that reads the window: an empty result (None) at the
    * first null slot, an exception when it runs past the array, otherwise the samples. */
  method GatherWindow(data: array<Option<DataPoint>>, start: nat, n: nat) returns (r: Result<Option<seq<DataPoint>>>)
    ensures var w := WindowOf(data[..], start, n);
      && ((exists k :: 0 <= k < |w| && w[k].None?) ==> r == Ok(None))
      && ((forall k :: 0 <= k < |w| ==> w[k].Some?) ==>
            r == if |w| < n then Err(ArrayIndexOutOfBounds) else Ok(Some(Unwrap(w))))
  {
    var window: seq<DataPoint> := [];
    var i := 0;
    while i < n
      invariant 0 <= i <= n && |window| == i
      invariant i == 0 || start + i <= data.Length
      invariant forall k :: 0 <= k < i ==> start + k < data.Length && data[start + k] == Some(window[k])
    {
      if start + i >= data.Length {
        ghost var w := WindowOf(data[..], start, n);
        assert |w| <= i;
        assert forall k :: 0 <= k < |w| ==> w[k] == data[start + k] == Some(window[k]);
        return Err(ArrayIndexOutOfBounds);
      }
      if data[start + i].None? {
        assert WindowOf(data[..], start, n)[i] == data[start + i];
        return Ok(None);
      }
      window := window + [data[start + i].value];
      i := i + 1;
    }
    ghost var w := WindowOf(data[..], start, n);
    assert forall k :: 0 <= k < n ==> w[k] == data[start + k] == Some(window[k]);
    assert Unwrap(w) == window;
    r := Ok(Some(window));
  }

  // ---------------------------------------------------------------------------
  // Axis choice

  /** X only if strictly heavier than both others, else Y if strictly heavier than Z, else Z:
    * the chosen weight is a maximum and ties go to the later axis. */
  function ChooseAxis(wx: real, wy: real, wz: real): (a: Axis)
    ensures a == X <==> wx > wy && wx > wz
    ensures a == Y <==> wy >= wx && wy > wz
    ensures a == Z <==> wz >= wx && wz >= wy
  {
    if wx > wy && wx > wz then X
    else if wy > wz then Y
    else Z
  }

  /** The estimate record returns once a window is analysed: the frequency of the heaviest axis. */
  function Analyse(window: seq<DataPoint>, spectrum: SpectralAnalysis): Result<Estimate>
    requires |window| > 0
  {
    var rx := FftOfWindow(window, X, spectrum);
    var ry := FftOfWindow(window, Y, spectrum);
    var rz := FftOfWindow(window, Z, spectrum);
    if rx.Err? then Err(rx.error)
    else if ry.Err? then Err(ry.error)
    else if rz.Err? then Err(rz.error)
    else
      match ChooseAxis(rx.value.weight, ry.value.weight, rz.value.weight)
      case X => Ok(rx.value.freq)
      case Y => Ok(ry.value.freq)
      case Z => Ok(rz.value.freq)
  }

  // ---------------------------------------------------------------------------
  // Index arithmetic

  /** n * u built up by repeated addition: the window arithmetic of the counter stays linear. */
  ghost function Multiple(n: int, u: nat): (m: nat)
    decreases n
  {
    if n <= 0 then 0 else Multiple(n - 1, u) + u
  }

  lemma {:induction false} MultipleIsProduct(n: nat, u: nat)
    ensures Multiple(n, u) == n * u
    decreases n
  {
    if n > 0 {
      MultipleIsProduct(n - 1, u);
    }
  }

  /** A window starting at a multiple of u and r long, r itself a multiple of u, starts and ends
    * on multiples of u. */
  lemma MultipleIsAligned(n: nat, u: nat, r: int)
    requires 0 < u && r % u == 0
    ensures Multiple(n, u) % u == 0 && (Multiple(n, u) + r) % u == 0
  {
    MultipleIsProduct(n, u);
    JavaInts.ModShift(0, n, u);
    JavaInts.ModShift(r, n, u);
  }

  /** Between calls currPos lies in [ws - u + R, ws + R) for a window start ws that is a multiple
    * of u; the next sample lands on a multiple of u exactly when it reaches the window's end. */
  lemma FiresAtWindowEnd(c: int, ws: int, u: int, r: int)
    requires 0 < u && r % u == 0 && ws % u == 0
    requires ws - u + r <= c < ws + r
    ensures (c + 1) % u == 0 <==> c + 1 == ws + r
  {
    var q := ws / u - 1 + r / u;
    assert r == (r / u) * u;
    assert ws == (ws / u) * u;
    assert q * u == ws - u + r;
    var j := c + 1 - q * u;
    assert 1 <= j <= u;
    JavaInts.ModShift(j, q, u);
    if j < u {
      JavaInts.ModUnique(j, u, 0, j);
    } else {
      JavaInts.ModShift(0, q + 1, u);
      assert (q + 1) * u == ws + r;
    }
  }

  /** Window ends and the array length are all multiples of u, so a window end that lies less
    * than u before the array's end does not pass it. */
  lemma AlignedEndFits(e: int, u: int, len: int)
    requires 0 < u && e % u == 0 && len % u == 0 && e - u < len
    ensures e <= len
  {
    if e > len {
      assert e == (e / u) * u && len == (len / u) * u;
      assert len / u < e / u;
      JavaInts.MulMonotone(e / u, len / u + 1, u);
    }
  }

  /** The array length recordsToKeep * HISTORY is a multiple of updateFrequency. */
  lemma LengthIsMultiple(r: int, u: int)
    requires 0 < u && r % u == 0
    ensures (r * HISTORY) % u == 0
  {
    assert r * HISTORY == ((r / u) * HISTORY) * u;
    JavaInts.ModShift(0, (r / u) * HISTORY, u);
  }

  // ---------------------------------------------------------------------------
  // The counter

  class BPMCounter {
    const recordsToKeep: int
    const updateFrequency: int
    var currPos: int
    var dataStart: int
    var data: array<Option<DataPoint>>
    /** Every sample recorded so far, oldest first, starting with the recordsToKeep zero samples. */
    ghost var samples: seq<DataPoint>

    /** Slots [0, currPos) hold the last currPos samples, in order. */
    ghost predicate Tracks()
      reads this`currPos, this`samples, this`data, data
    {
      && 0 <= currPos <= |samples| && currPos <= data.Length
      && forall k :: 0 <= k < currPos ==> data[k] == Some(samples[|samples| - currPos + k])
    }

    /** The layout kept between calls: the array has HISTORY windows of recordsToKeep slots,
      * the samples are tracked, and currPos lies inside the window that starts at
      * dataStart * updateFrequency but before its end. */
    ghost predicate Valid()
      reads this, data
    {
      && 0 < updateFrequency && 0 < recordsToKeep && recordsToKeep % updateFrequency == 0
      && data.Length == recordsToKeep * HISTORY
      && 1 <= dataStart
      && WindowStart() - updateFrequency + recordsToKeep <= currPos
      && currPos < WindowStart() + recordsToKeep
      && currPos < data.Length
      && Tracks()
    }

    /** The first slot run_fft reads. */
    ghost function WindowStart(): nat
      requires 0 < updateFrequency
      reads this
    {
      Multiple(dataStart, updateFrequency)
    }

    constructor (recordsToKeep: int, updateFrequency: int, now: int)
      requires 0 < updateFrequency && 0 < recordsToKeep && recordsToKeep % updateFrequency == 0
      requires recordsToKeep * HISTORY <= 0x7fff_ffff
      ensures Valid() && fresh(data)
      ensures this.recordsToKeep == recordsToKeep && this.updateFrequency == updateFrequency
      ensures forall k :: 0 <= k < recordsToKeep ==> data[k] == Some(DataPoint(0.0, 0.0, 0.0, now))
      ensures forall k :: recordsToKeep <= k < data.Length ==> data[k] == None
      ensures currPos == recordsToKeep && dataStart == 1
      ensures samples == seq(recordsToKeep, _ => DataPoint(0.0, 0.0, 0.0, now))
    {
      this.recordsToKeep := recordsToKeep;
      this.updateFrequency := updateFrequency;
      var zero := DataPoint(0.0, 0.0, 0.0, now);
      var d := new Option<DataPoint>[recordsToKeep * HISTORY](_ => None);
      for i := 0 to recordsToKeep
        invariant forall k :: 0 <= k < i ==> d[k] == Some(zero)
        invariant forall k :: recordsToKeep <= k < d.Length ==> d[k] == None
      {
        d[i] := Some(zero);
      }
      data := d;
      dataStart := 1;
      currPos := recordsToKeep;
      samples := seq(recordsToKeep, _ => zero);
    }

    /** Moves the last recordsToKeep slots to the front of a fresh array. */
    method ClearHistory()
      requires 0 < recordsToKeep && data.Length == recordsToKeep * HISTORY
      modifies this
      ensures fresh(data) && data.Length == old(data.Length)
      ensures forall k :: 0 <= k < recordsToKeep ==> data[k] == old(data[data.Length - recordsToKeep + k])
      ensures forall k :: recordsToKeep <= k < data.Length ==> data[k] == None
      ensures dataStart == 0 && currPos == recordsToKeep && samples == old(samples)
      ensures old(Tracks()) && old(currPos) == data.Length ==> Tracks()
    {
      var d2 := new Option<DataPoint>[recordsToKeep * HISTORY](_ => None);
      if recordsToKeep >= 0 {
        var from := recordsToKeep * (HISTORY - 1);
        assert from == data.Length - recordsToKeep;
        for k := 0 to recordsToKeep
          modifies d2
          invariant forall j :: 0 <= j < k ==> d2[j] == data[from + j]
          invariant forall j :: recordsToKeep <= j < d2.Length ==> d2[j] == None
        {
          d2[k] := data[from + k];
        }
      }
      data := d2;
      dataStart := 0;
      currPos := recordsToKeep;
    }

    /** The window slots run_fft visits before it would run past the end of the array. */
    ghost function Slots(): seq<Option<DataPoint>>
      requires 0 <= dataStart && 0 < updateFrequency && 0 <= recordsToKeep
      reads this, data
    {
      WindowOf(data[..], WindowStart(), recordsToKeep)
    }

    /** When the window ends at currPos, it holds exactly the last recordsToKeep samples. */
    lemma WindowHoldsLastSamples()
      requires Tracks() && 0 <= dataStart && 0 < updateFrequency && 0 < recordsToKeep
      requires WindowStart() + recordsToKeep == currPos
      ensures WindowStart() + recordsToKeep <= data.Length
      ensures forall k :: 0 <= k < |Slots()| ==> Slots()[k].Some?
      ensures Unwrap(Slots()) == samples[|samples| - recordsToKeep..]
    {
      var s := WindowStart();
      assert Slots() == data[s..s + recordsToKeep];
      ghost var w := samples[|samples| - recordsToKeep..];
      assert forall k :: 0 <= k < recordsToKeep ==> Slots()[k] == data[s + k];
      assert forall k :: 0 <= k < recordsToKeep ==> Slots()[k] == Some(w[k]);
    }

    /** run_fft: an empty result when a window slot is null, an exception when the window runs
      * past the array or a peak index is out of bounds, otherwise the reading for the window. */
    method RunFft(axis: Axis, spectrum: SpectralAnalysis) returns (r: Result<Option<Reading>>)
      requires 0 < recordsToKeep && 0 < updateFrequency && 0 <= dataStart
      ensures (exists k :: 0 <= k < |Slots()| && Slots()[k].None?) ==> r == Ok(None)
      ensures (forall k :: 0 <= k < |Slots()| ==> Slots()[k].Some?) ==>
        if WindowStart() + recordsToKeep > data.Length then r == Err(ArrayIndexOutOfBounds)
        else
          var f := FftOfWindow(Unwrap(Slots()), axis, spectrum);
          r == if f.Ok? then Ok(Some(f.value)) else Err(f.error)
    {
      MultipleIsProduct(dataStart, updateFrequency);
      var gathered := GatherWindow(data, dataStart * updateFrequency, recordsToKeep);
      assert Slots() == WindowOf(data[..], dataStart * updateFrequency, recordsToKeep);
      if gathered.Err? {
        return Err(gathered.error);
      }
      if gathered.value.None? {
        return Ok(None);
      }
      var window := gathered.value.value;
      assert window == Unwrap(Slots()) && |window| == recordsToKeep;
      var f := ReadAxis(window, axis, spectrum);
      r := if f.Ok? then Ok(Some(f.value)) else Err(f.error);
    }

    /** The spectrum of one axis of a full window and the peak read from it. */
    static method ReadAxis(window: seq<DataPoint>, axis: Axis, spectrum: SpectralAnalysis) returns (r: Result<Reading>)
      requires |window| > 0
      ensures r == FftOfWindow(window, axis, spectrum)
    {
      var s := spectrum(AxisValues(window, axis), window[|window| - 1].timestamp - window[0].timestamp);
      var minIndex, maxIndex := FindBpmRange(s.xF);
      var peaks := PickPeaks(s.magnitudes, minIndex, maxIndex);
      if peaks.None? {
        return Err(ArrayIndexOutOfBounds);
      }
      r := Ok(ReadingOf(s, peaks.value));
    }

    /** The analysis record runs once the window is full: run_fft on each axis, then the axis
      * choice. */
    method AnalyseWindow(spectrum: SpectralAnalysis, ghost window: seq<DataPoint>) returns (r: Result<Estimate>)
      requires 0 < recordsToKeep && 0 < updateFrequency && 0 <= dataStart
      requires WindowStart() + recordsToKeep <= data.Length
      requires forall k :: 0 <= k < |Slots()| ==> Slots()[k].Some?
      requires Unwrap(Slots()) == window
      ensures EstimateOf(r, window, spectrum)
    {
      var resX := RunFft(X, spectrum);
      if resX.Err? {
        return Err(resX.error);
      }
      var resY := RunFft(Y, spectrum);
      if resY.Err? {
        return Err(resY.error);
      }
      var resZ := RunFft(Z, spectrum);
      if resZ.Err? {
        return Err(resZ.error);
      }
      if resX.value.None? || resY.value.None? || resZ.value.None? {
        // an empty run_fft result would make resX[1] throw; the window is never null here
        assert false;
      }
      var rx, ry, rz := resX.value.value, resY.value.value, resZ.value.value;
      var result: Estimate;
      if rx.weight > ry.weight && rx.weight > rz.weight {
        result := rx.freq;
      } else if ry.weight > rz.weight {
        result := ry.freq;
      } else {
        result := rz.freq;
      }
      r := Ok(result);
    }

    /** Writes one sample at currPos and advances it. */
    method Store(p: DataPoint)
      requires Tracks() && currPos < data.Length
      modifies this`currPos, this`samples, data
      ensures Tracks() && currPos == old(currPos) + 1 && samples == old(samples) + [p]
    {
      data[currPos] := Some(p);
      currPos := currPos + 1;
      samples := samples + [p];
    }

    /** Makes room when the window ending at currPos ends at the end of the array: the history
      * moves to the front and the window restarts at 0. Either way the window then holds the
      * last recordsToKeep samples. */
    method Rewind()
      requires 0 < updateFrequency && 0 < recordsToKeep && data.Length == recordsToKeep * HISTORY
      requires 0 <= dataStart && Tracks()
      requires currPos == WindowStart() + recordsToKeep && currPos <= data.Length
      modifies this
      ensures samples == old(samples) && data.Length == old(data.Length)
      ensures var wrapped := old(currPos) == old(data.Length);
        && currPos == (if wrapped then recordsToKeep else old(currPos))
        && dataStart == (if wrapped then 0 else old(dataStart))
      ensures Tracks() && 0 <= dataStart && currPos == WindowStart() + recordsToKeep < data.Length
      ensures forall k :: 0 <= k < |Slots()| ==> Slots()[k].Some?
      ensures Unwrap(Slots()) == samples[|samples| - recordsToKeep..]
    {
      if currPos == data.Length {
        ClearHistory();
      }
      WindowHoldsLastSamples();
    }

    /** dataStart moves on to the next window once the current one is analysed. */
    method Advance()
      requires 0 < updateFrequency && 0 < recordsToKeep && recordsToKeep % updateFrequency == 0
      requires data.Length == recordsToKeep * HISTORY && 0 <= dataStart && Tracks()
      requires currPos == WindowStart() + recordsToKeep < data.Length
      modifies this`dataStart
      ensures dataStart == old(dataStart) + 1 && Valid()
    {
      dataStart := dataStart + 1;
    }

    /** The second half of record once the window ending at currPos is full. */
    method CloseWindow(spectrum: SpectralAnalysis, ghost window: seq<DataPoint>) returns (r: Result<Estimate>)
      requires 0 < updateFrequency && 0 < recordsToKeep && recordsToKeep % updateFrequency == 0
      requires data.Length == recordsToKeep * HISTORY && 0 <= dataStart
      requires Tracks() && currPos == WindowStart() + recordsToKeep && currPos <= data.Length
      requires window == samples[|samples| - recordsToKeep..]
      modifies this
      ensures samples == old(samples)
      ensures EstimateOf(r, window, spectrum)
      ensures r.Ok? ==> Valid()
      ensures var wrapped := old(currPos) == old(data.Length);
        var advanced := if r.Ok? then 1 else 0;
        && currPos == (if wrapped then recordsToKeep else old(currPos))
        && dataStart == (if wrapped then 0 else old(dataStart)) + advanced
    {
      Rewind();
      r := AnalyseWindow(spectrum, window);
      if r.Ok? {
        Advance();
      }
    }

    /** record: stores the sample at currPos and advances; on a multiple of updateFrequency it
      * analyses the last recordsToKeep samples and advances dataStart, otherwise it returns -1. */
    method Record(x: real, y: real, z: real, now: int, spectrum: SpectralAnalysis) returns (r: Result<Estimate>)
      requires Valid()
      modifies this, data
      ensures samples == old(samples) + [DataPoint(x, y, z, now)]
      ensures r.Ok? ==> Valid()
      ensures var fired := old(currPos) + 1 == old(WindowStart()) + recordsToKeep;
        && (fired <==> (old(currPos) + 1) % updateFrequency == 0)
        && (!fired ==> r == Ok(Bps(-1.0)) && currPos == old(currPos) + 1 && dataStart == old(dataStart))
        && (fired ==> EstimateOf(r, samples[|samples| - recordsToKeep..], spectrum))
      ensures var fired := old(currPos) + 1 == old(WindowStart()) + recordsToKeep;
        var wrapped := old(currPos) + 1 == old(data.Length);
        var advanced := if r.Ok? then 1 else 0;
        fired ==> && currPos == (if wrapped then recordsToKeep else old(currPos) + 1)
                  && dataStart == (if wrapped then 0 else old(dataStart)) + advanced
    {
      MultipleIsAligned(dataStart, updateFrequency, recordsToKeep);
      FiresAtWindowEnd(currPos, WindowStart(), updateFrequency, recordsToKeep);
      LengthIsMultiple(recordsToKeep, updateFrequency);
      AlignedEndFits(WindowStart() + recordsToKeep, updateFrequency, data.Length);
      Store(DataPoint(x, y, z, now));
      if currPos % updateFrequency != 0 {
        assert old(currPos) + 1 != old(WindowStart()) + recordsToKeep;
        assert currPos < WindowStart() + recordsToKeep;
        assert currPos < data.Length;
        return Ok(Bps(-1.0));
      }
      r := CloseWindow(spectrum, samples[|samples| - recordsToKeep..]);
    }
  }
}
