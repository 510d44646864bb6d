/** Wavelet denoising of the preamp traces: hard thresholding of the detail
    bands of a stationary wavelet transform, and the inverse transform
    `iswt`. The forward transform and the single-level inverse `idwt` belong
    to the wavelet library; `idwt` is a parameter here, known only to return
    twice as many samples as it is given (Haar wavelet, periodic mode). */
module SwtDenoise {
  import opened Arith

  /** One level of the stationary transform: approximation and detail band. */
  datatype Band = Band(cA: seq<real>, cD: seq<real>)

  function Pow2(k: nat): (r: nat)
    ensures r >= 1
  {
    if k == 0 then 1 else 2 * Pow2(k - 1)
  }

  function Abs(x: real): real {
    if x < 0.0 then -x else x
  }

  // ---------------------------------------------------------------------
  // numpy index helpers

  /** `numpy.arange(first, n, step)`. */
  function Arange(first: nat, n: nat, step: nat): (r: seq<nat>)
    requires step > 0
  {
    if first >= n then [] else seq((n - first - 1) / step + 1, k requires k >= 0 => first + k * step)
  }

  /** `xs[0::2]`. */
  function Evens(xs: seq<nat>): (r: seq<nat>)
    ensures |r| == (|xs| + 1) / 2
  {
    seq((|xs| + 1) / 2, t requires 0 <= t < (|xs| + 1) / 2 => xs[2 * t])
  }

  /** `xs[1::2]`. */
  function Odds(xs: seq<nat>): (r: seq<nat>)
    ensures |r| == |xs| / 2
  {
    seq(|xs| / 2, t requires 0 <= t < |xs| / 2 => xs[2 * t + 1])
  }

  predicate IndicesBelow(idx: seq<nat>, n: nat) {
    forall k :: 0 <= k < |idx| ==> idx[k] < n
  }

  /** Fancy indexing `v[idx]`. */
  function Gather(v: seq<real>, idx: seq<nat>): (r: seq<real>)
    requires IndicesBelow(idx, |v|)
    ensures |r| == |idx|
  {
    seq(|idx|, k requires 0 <= k < |idx| => v[idx[k]])
  }

  /** `numpy.roll(x, 1)`: circular shift right by one. */
  function Roll(x: seq<real>): (r: seq<real>)
    ensures |r| == |x|
  {
    if |x| == 0 then [] else [x[|x| - 1]] + x[..|x| - 1]
  }

  /** The single-level inverse transform returns twice the input length. */
  ghost predicate DoublesLength(idwt: (seq<real>, seq<real>) -> seq<real>) {
    forall a: seq<real>, d: seq<real> :: |a| == |d| ==> |idwt(a, d)| == 2 * |a|
  }

  /** For a phase `first` of a length divisible by `step`, the strided index
      set has `n / step` members, all below `n`. */
  lemma {:induction false} ArangeShape(first: nat, n: nat, step: nat)
    requires step > 0 && first < step && n % step == 0
    ensures |Arange(first, n, step)| == n / step
    ensures IndicesBelow(Arange(first, n, step), n)
  {
    var m := n / step;
    assert n == m * step;
    if m > 0 {
      DivModUnique(n - first - 1, step, m - 1, step - first - 1);
    }
    var r := Arange(first, n, step);
    forall k | 0 <= k < |r|
      ensures r[k] < n
    {
      QuotientBoundConverse(k, m, step, first);
    }
  }

  /** When twice the step divides the length, each strided set splits into
      even and odd halves of equal size, and these cover it. */
  lemma {:induction false} HalvesEqual(first: nat, n: nat, step: nat)
    requires step > 0 && first < step && n % (2 * step) == 0
    ensures |Arange(first, n, step)| == n / step
    ensures |Evens(Arange(first, n, step))| == |Odds(Arange(first, n, step))| == n / (2 * step)
    ensures 2 * |Evens(Arange(first, n, step))| == |Arange(first, n, step)|
    ensures IndicesBelow(Evens(Arange(first, n, step)), n) && IndicesBelow(Odds(Arange(first, n, step)), n)
  {
    HalfDivides(n, step);
    ArangeShape(first, n, step);
  }

  /** For one level of step `step`, the strided sets of the phases
      0..step-1 cover [0, n): index `i` is the `i / step`-th member of phase
      `i % step`. */
  lemma {:induction false} PhaseCovers(n: nat, step: nat, i: nat)
    requires step > 0 && n % step == 0 && i < n
    ensures i % step < step && i / step < |Arange(i % step, n, step)|
    ensures Arange(i % step, n, step)[i / step] == i
  {
    var first, q := i % step, i / step;
    assert i == q * step + first && first < step by {
      SplitIndex(i, step);
    }
    assert |Arange(first, n, step)| == n / step by {
      ArangeShape(first, n, step);
    }
    assert q < n / step by {
      SplitIndex(n, step);
      QuotientBound(i, n / step, step);
    }
    ArangeAt(first, n, step, q);
  }

  /** Member `k` of `arange(first, n, step)` is `first + k * step`. */
  lemma ArangeAt(first: nat, n: nat, step: nat, k: nat)
    requires step > 0 && k < |Arange(first, n, step)|
    ensures Arange(first, n, step)[k] == first + k * step
  {
  }

  /** ... and index `i` is a member of no other phase, at no other position,
      so each output sample is written exactly once per level. */
  lemma {:induction false} PhaseUnique(n: nat, step: nat, i: nat, first: nat, k: nat)
    requires step > 0 && first < step && k < |Arange(first, n, step)| && Arange(first, n, step)[k] == i
    ensures first == i % step && k == i / step
  {
    StrideDivMod(first, k, step);
  }

  /** All members of `idx` lie in phase `first`. */
  predicate InPhase(idx: seq<nat>, step: nat, first: nat)
    requires step > 0
  {
    forall k :: 0 <= k < |idx| ==> idx[k] % step == first
  }

  lemma {:induction false} ArangeInPhase(first: nat, n: nat, step: nat)
    requires step > 0 && first < step
    ensures InPhase(Arange(first, n, step), step, first)
  {
    var idx := Arange(first, n, step);
    forall k | 0 <= k < |idx|
      ensures idx[k] % step == first
    {
      StrideDivMod(first, k, step);
    }
  }

  /** Two sequences that agree on a phase gather the same values from it. */
  lemma {:induction false} GatherAgrees(cur: seq<real>, start: seq<real>, idx: seq<nat>, step: nat, first: nat)
    requires step > 0 && |cur| == |start| && IndicesBelow(idx, |cur|) && InPhase(idx, step, first)
    requires forall i :: 0 <= i < |cur| && i % step == first ==> cur[i] == start[i]
    ensures Gather(cur, idx) == Gather(start, idx)
  {
  }

  /** Members of the even and odd halves of phase `first` are all in that
      phase, so two approximations that agree on the phase give the inverse
      transform the same inputs. */
  lemma {:induction false} PhaseGathersAgree(cur: seq<real>, start: seq<real>, first: nat, step: nat)
    requires step > 0 && first < step && |cur| == |start| && |cur| % (2 * step) == 0
    requires forall i :: 0 <= i < |cur| && i % step == first ==> cur[i] == start[i]
    ensures IndicesBelow(Evens(Arange(first, |cur|, step)), |cur|)
    ensures IndicesBelow(Odds(Arange(first, |cur|, step)), |cur|)
    ensures Gather(cur, Evens(Arange(first, |cur|, step))) == Gather(start, Evens(Arange(first, |cur|, step)))
    ensures Gather(cur, Odds(Arange(first, |cur|, step))) == Gather(start, Odds(Arange(first, |cur|, step)))
  {
    HalvesEqual(first, |cur|, step);
    var idx := Arange(first, |cur|, step);
    ArangeInPhase(first, |cur|, step);
    assert InPhase(Evens(idx), step, first);
    assert InPhase(Odds(idx), step, first);
    GatherAgrees(cur, start, Evens(idx), step, first);
    GatherAgrees(cur, start, Odds(idx), step, first);
  }

  // ---------------------------------------------------------------------
  // The inverse stationary transform

  /** The shape `pywt.swt` produces: at least one level, the approximation
      of level 0 and every detail band of the same length, that length
      divisible by 2^levels. */
  predicate SwtShaped(coefficients: seq<Band>) {
    |coefficients| >= 1 &&
    |coefficients[0].cA| % Pow2(|coefficients|) == 0 &&
    forall b :: 0 <= b < |coefficients| ==> |coefficients[b].cD| == |coefficients[0].cA|
  }

  /** Requirements on one level of reconstruction with step `step`. */
  predicate LevelShaped(out: seq<real>, cD: seq<real>, step: nat) {
    |cD| == |out| && step > 0 && |out| % (2 * step) == 0
  }

  /** The averaged values of phase `first` at one level: the inverse
      transform of the even and of the odd members of the phase, the odd
      result shifted right by one, the two averaged. */
  function LevelPhase(out: seq<real>, cD: seq<real>, step: nat, first: nat,
                      idwt: (seq<real>, seq<real>) -> seq<real>): (r: seq<real>)
    requires DoublesLength(idwt) && LevelShaped(out, cD, step) && first < step
    ensures |r| == |out| / step
  {
    HalvesEqual(first, |out|, step);
    var idx := Arange(first, |out|, step);
    var x1 := idwt(Gather(out, Evens(idx)), Gather(cD, Evens(idx)));
    var x2 := Roll(idwt(Gather(out, Odds(idx)), Gather(cD, Odds(idx))));
    seq(|idx|, k requires 0 <= k < |idx| => (x1[k] + x2[k]) / 2.0)
  }

  /** One level of reconstruction, sample by sample: sample `i` takes
      position `i / step` of the averaged values of its own phase `i % step`,
      all phases computed from the approximation as it was before the level. */
  function LevelSpec(out: seq<real>, cD: seq<real>, step: nat,
                     idwt: (seq<real>, seq<real>) -> seq<real>): (r: seq<real>)
    requires DoublesLength(idwt) && LevelShaped(out, cD, step)
    ensures |r| == |out|
  {
    HalfDivides(|out|, step);
    seq(|out|, i requires 0 <= i < |out| =>
      QuotientBound(i, |out| / step, step);
      LevelPhase(out, cD, step, i % step, idwt)[i / step])
  }

  /** The levels still to do, from `j` down to 1: level `j` uses step
      2^(j-1) and the detail band `coefficients[n - j]`, so band 0 is
      processed first, with the largest step. */
  function Levels(coefficients: seq<Band>, j: nat, out: seq<real>,
                  idwt: (seq<real>, seq<real>) -> seq<real>): seq<real>
    requires DoublesLength(idwt) && SwtShaped(coefficients)
    requires j <= |coefficients| && |out| == |coefficients[0].cA| && |out| % Pow2(j) == 0
    decreases j
  {
    if j == 0 then out
    else
      HalfDivides(|out|, Pow2(j - 1));
      Levels(coefficients, j - 1,
             LevelSpec(out, coefficients[|coefficients| - j].cD, Pow2(j - 1), idwt), idwt)
  }

  /** What `iswt` returns, level by level from a copy of `coefficients[0].cA`. */
  function Reconstruct(coefficients: seq<Band>, idwt: (seq<real>, seq<real>) -> seq<real>): seq<real>
    requires DoublesLength(idwt) && SwtShaped(coefficients)
  {
    Levels(coefficients, |coefficients|, coefficients[0].cA, idwt)
  }

  /** The reconstruction has the length of the level-0 approximation. */
  lemma {:induction false} LevelsLength(coefficients: seq<Band>, j: nat, out: seq<real>,
                                        idwt: (seq<real>, seq<real>) -> seq<real>)
    requires DoublesLength(idwt) && SwtShaped(coefficients)
    requires j <= |coefficients| && |out| == |coefficients[0].cA| && |out| % Pow2(j) == 0
    ensures |Levels(coefficients, j, out, idwt)| == |out|
    decreases j
  {
    if j > 0 {
      HalfDivides(|out|, Pow2(j - 1));
      LevelsLength(coefficients, j - 1,
                   LevelSpec(out, coefficients[|coefficients| - j].cD, Pow2(j - 1), idwt), idwt);
    }
  }

  /** The first level processed pairs `coefficients[0]`'s detail band with
      the coarsest step 2^(n-1), although the docstring calls it (cA1, cD1). */
  lemma CoarsestBandFirst(coefficients: seq<Band>, idwt: (seq<real>, seq<real>) -> seq<real>)
    requires DoublesLength(idwt) && SwtShaped(coefficients)
    ensures |coefficients[0].cA| % Pow2(|coefficients| - 1) == 0 &&
      Reconstruct(coefficients, idwt) ==
      Levels(coefficients, |coefficients| - 1,
             LevelSpec(coefficients[0].cA, coefficients[0].cD, Pow2(|coefficients| - 1), idwt), idwt)
  {
    HalfDivides(|coefficients[0].cA|, Pow2(|coefficients| - 1));
  }

  /** Phases do not interact: a sample's new value depends only on the
      samples of its own phase. This is what lets `iswt` overwrite the phases
      one after another in place. */
  lemma {:induction false} LevelLocality(out1: seq<real>, out2: seq<real>, cD: seq<real>, step: nat,
                                         idwt: (seq<real>, seq<real>) -> seq<real>, i: nat)
    requires DoublesLength(idwt) && LevelShaped(out1, cD, step) && |out2| == |out1| && i < |out1|
    requires forall p :: 0 <= p < |out1| && p % step == i % step ==> out1[p] == out2[p]
    ensures LevelSpec(out1, cD, step, idwt)[i] == LevelSpec(out2, cD, step, idwt)[i]
  {
    PhaseGathersAgree(out1, out2, i % step, step);
  }

  /** The value a level gives to member k of phase `first`. */
  lemma {:induction false} PhaseTarget(out: seq<real>, cD: seq<real>, step: nat, first: nat,
                                       idwt: (seq<real>, seq<real>) -> seq<real>, k: nat)
    requires DoublesLength(idwt) && LevelShaped(out, cD, step) && first < step && k < |out| / step
    ensures first + k * step < |out|
    ensures LevelSpec(out, cD, step, idwt)[first + k * step] == LevelPhase(out, cD, step, first, idwt)[k]
  {
    var i := first + k * step;
    assert i < |out| by {
      HalfDivides(|out|, step);
      SplitIndex(|out|, step);
      QuotientBoundConverse(k, |out| / step, step, first);
    }
    assert i % step == first && i / step == k by {
      StrideDivMod(first, k, step);
    }
  }

  /** Progress within a level: the phases below `first` hold their new
      values, every other sample its value from before the level. */
  ghost predicate PhasesDone(cur: seq<real>, start: seq<real>, target: seq<real>, step: nat, first: nat)
    requires step > 0 && |cur| == |start| == |target|
  {
    forall i :: 0 <= i < |cur| ==> cur[i] == if i % step < first then target[i] else start[i]
  }

  /** Progress within a phase: the phases below `first`, and the first `k`
      members of phase `first`, hold their new values. */
  ghost predicate PhaseDone(cur: seq<real>, start: seq<real>, target: seq<real>, step: nat, first: nat, k: nat)
    requires step > 0 && |cur| == |start| == |target|
  {
    forall i :: 0 <= i < |cur| ==>
      cur[i] == if i % step < first || (i % step == first && i / step < k) then target[i] else start[i]
  }

  lemma {:induction false} PhaseDoneStart(cur: seq<real>, start: seq<real>, target: seq<real>, step: nat, first: nat)
    requires step > 0 && |cur| == |start| == |target|
    requires PhasesDone(cur, start, target, step, first)
    ensures PhaseDone(cur, start, target, step, first, 0)
  {
    forall i | 0 <= i < |cur|
      ensures cur[i] == if i % step < first || (i % step == first && i / step < 0) then target[i] else start[i]
    {
      SplitIndex(i, step);
    }
  }

  /** Writing member k of phase `first` advances the progress by one. */
  lemma {:induction false} PhaseDoneStep(cur: seq<real>, start: seq<real>, target: seq<real>, step: nat, first: nat, k: nat)
    requires step > 0 && first < step && |cur| == |start| == |target| && first + k * step < |cur|
    requires PhaseDone(cur, start, target, step, first, k)
    ensures PhaseDone(cur[first + k * step := target[first + k * step]], start, target, step, first, k + 1)
  {
    var p := first + k * step;
    StrideDivMod(first, k, step);
    var next := cur[p := target[p]];
    forall i | 0 <= i < |cur|
      ensures next[i] == if i % step < first || (i % step == first && i / step < k + 1) then target[i] else start[i]
    {
      SplitIndex(i, step);
    }
  }

  /** Once all members of phase `first` are written, the phases up to
      `first` are done. */
  lemma {:induction false} PhaseDoneAll(cur: seq<real>, start: seq<real>, target: seq<real>, step: nat, first: nat)
    requires step > 0 && |cur| == |start| == |target| && |cur| % step == 0
    requires PhaseDone(cur, start, target, step, first, |cur| / step)
    ensures PhasesDone(cur, start, target, step, first + 1)
  {
    forall i | 0 <= i < |cur|
      ensures cur[i] == if i % step < first + 1 then target[i] else start[i]
    {
      QuotientBound(i, |cur| / step, step);
    }
  }

  /** One phase of one level of `iswt`, in place: gather the even and odd
      members of the phase, inverse-transform each, roll the odd result,
      average, and scatter into the phase's indices. */
  method ReconstructPhase(output: array<real>, cD: seq<real>, stepSize: nat, first: nat,
                          idwt: (seq<real>, seq<real>) -> seq<real>, ghost levelStart: seq<real>)
    requires DoublesLength(idwt) && LevelShaped(levelStart, cD, stepSize) && first < stepSize
    requires output.Length == |levelStart|
    requires PhasesDone(output[..], levelStart, LevelSpec(levelStart, cD, stepSize, idwt), stepSize, first)
    modifies output
    ensures PhasesDone(output[..], levelStart, LevelSpec(levelStart, cD, stepSize, idwt), stepSize, first + 1)
  {
    var n := output.Length;
    var indices := Arange(first, n, stepSize);
    var evenIndices := Evens(indices);
    var oddIndices := Odds(indices);
    HalvesEqual(first, n, stepSize);
    ArangeShape(first, n, stepSize);
    PhaseGathersAgree(output[..], levelStart, first, stepSize);
    var x1 := idwt(Gather(output[..], evenIndices), Gather(cD, evenIndices));
    var x2 := Roll(idwt(Gather(output[..], oddIndices), Gather(cD, oddIndices)));
    var average := seq(|indices|, t requires 0 <= t < |indices| => (x1[t] + x2[t]) / 2.0);
    ghost var target := LevelSpec(levelStart, cD, stepSize, idwt);
    assert average == LevelPhase(levelStart, cD, stepSize, first, idwt);
    PhaseDoneStart(output[..], levelStart, target, stepSize, first);
    var k := 0;
    while k < |indices|
      invariant 0 <= k <= |indices| && output.Length == n
      invariant PhaseDone(output[..], levelStart, target, stepSize, first, k)
    {
      var p := indices[k];
      assert p == first + k * stepSize;
      PhaseTarget(levelStart, cD, stepSize, first, idwt, k);
      PhaseDoneStep(output[..], levelStart, target, stepSize, first, k);
      ghost var before := output[..];
      output[p] := average[k];
      assert output[..] == before[p := target[p]];
      k := k + 1;
    }
    PhaseDoneAll(output[..], levelStart, target, stepSize, first);
  }

  /** `iswt`: from a copy of `coefficients[0].cA`, for j = n down to 1 with
      step 2^(j-1) and detail band `coefficients[n - j]`, reconstruct every
      phase in place. The input is not modified. */
  method Iswt(coefficients: seq<Band>, idwt: (seq<real>, seq<real>) -> seq<real>) returns (output: array<real>)
    requires DoublesLength(idwt) && SwtShaped(coefficients)
    ensures output.Length == |coefficients[0].cA|
    ensures output[..] == Reconstruct(coefficients, idwt)
  {
    var approximation := coefficients[0].cA;
    var n := |approximation|;
    output := new real[n](i requires 0 <= i < n => approximation[i]);
    assert output[..] == approximation;
    var numLevels := |coefficients|;
    var j := numLevels;
    while j > 0
      invariant 0 <= j <= numLevels && output.Length == n
      invariant n % Pow2(j) == 0
      invariant Levels(coefficients, j, output[..], idwt) == Reconstruct(coefficients, idwt)
    {
      var stepSize := Pow2(j - 1);
      HalfDivides(n, stepSize);
      var cD := coefficients[numLevels - j].cD;
      ghost var levelStart := output[..];
      var first := 0;
      while first < stepSize
        invariant 0 <= first <= stepSize
        invariant PhasesDone(output[..], levelStart, LevelSpec(levelStart, cD, stepSize, idwt), stepSize, first)
      {
        ReconstructPhase(output, cD, stepSize, first, idwt, levelStart);
        first := first + 1;
      }
      assert output[..] == LevelSpec(levelStart, cD, stepSize, idwt);
      j := j - 1;
    }
  }

  // ---------------------------------------------------------------------
  // Hard thresholding with a fixed table

  /** Hard thresholding: a coefficient of magnitude below the threshold
      becomes zero, any other is kept. */
  function Hard(d: seq<real>, threshold: real): (r: seq<real>)
    ensures |r| == |d|
  {
    seq(|d|, i requires 0 <= i < |d| => if Abs(d[i]) < threshold then 0.0 else d[i])
  }

  /** Number of non-zero coefficients. */
  function NonZeroCount(d: seq<real>): nat {
    if |d| == 0 then 0 else NonZeroCount(d[..|d| - 1]) + (if d[|d| - 1] != 0.0 then 1 else 0)
  }

  /** A larger threshold never keeps more non-zero coefficients. */
  lemma {:induction false} HardMonotone(d: seq<real>, low: real, high: real)
    requires low <= high
    ensures NonZeroCount(Hard(d, high)) <= NonZeroCount(Hard(d, low))
    decreases |d|
  {
    if |d| > 0 {
      var init := d[..|d| - 1];
      assert Hard(d, high)[..|d| - 1] == Hard(init, high);
      assert Hard(d, low)[..|d| - 1] == Hard(init, low);
      HardMonotone(init, low, high);
    }
  }

  /** Thresholding a band twice with the same threshold changes nothing more. */
  lemma HardIdempotent(d: seq<real>, threshold: real)
    ensures Hard(Hard(d, threshold), threshold) == Hard(d, threshold)
  {
  }

  /** The bands after `apply_threshold` with a table: band j's detail band
      is thresholded at `scaler * table[j]` for every j the table covers,
      approximations untouched. */
  function Thresholded(bands: seq<Band>, scaler: real, table: seq<real>): (r: seq<Band>)
    ensures |r| == |bands|
  {
    seq(|bands|, j requires 0 <= j < |bands| => ThresholdLevel(bands[j], j, scaler, table))
  }

  /** Band j after thresholding: its detail band at `scaler * table[j]` when
      the table has an entry j, unchanged otherwise. */
  function ThresholdLevel(band: Band, j: nat, scaler: real, table: seq<real>): Band {
    if j < |table| then Band(band.cA, Hard(band.cD, scaler * table[j])) else band
  }

  /** Thresholding keeps the list length, every approximation and every band length. */
  lemma ThresholdedShape(bands: seq<Band>, scaler: real, table: seq<real>, j: nat)
    requires j < |bands|
    ensures Thresholded(bands, scaler, table)[j].cA == bands[j].cA
    ensures |Thresholded(bands, scaler, table)[j].cD| == |bands[j].cD|
  {
  }

  /** A larger scaler never keeps more non-zero detail coefficients at any
      level, given non-negative table entries. */
  lemma {:induction false} ScalerMonotone(bands: seq<Band>, table: seq<real>, low: real, high: real, j: nat)
    requires 0.0 <= low <= high && j < |bands| && j < |table| && table[j] >= 0.0
    ensures NonZeroCount(Thresholded(bands, high, table)[j].cD) <= NonZeroCount(Thresholded(bands, low, table)[j].cD)
  {
    ScaleMonotone(low, high, table[j]);
    HardMonotone(bands[j].cD, low * table[j], high * table[j]);
  }

  lemma ScaleMonotone(low: real, high: real, c: real)
    requires low <= high && c >= 0.0
    ensures low * c <= high * c
  {
  }

  /** `apply_threshold` with a threshold table: replaces each band's detail
      coefficients in place. A table shorter than the band list raises an
      index error at the first uncovered level, after the earlier levels
      were already replaced; `completed` is false then. */
  method ApplyThreshold(output: array<Band>, scaler: real, input: seq<real>) returns (completed: bool)
    modifies output
    ensures completed <==> |input| >= output.Length
    ensures output[..] == Thresholded(old(output[..]), scaler, input)
  {
    ghost var before := output[..];
    var j := 0;
    while j < output.Length
      invariant 0 <= j <= output.Length && j <= |input|
      invariant forall p :: 0 <= p < output.Length ==>
        output[p] == if p < j then Thresholded(before, scaler, input)[p] else before[p]
    {
      if j >= |input| {
        assert output[..] == Thresholded(before, scaler, input);
        return false;
      }
      var band := output[j];
      var thresh := scaler * input[j];
      output[j] := Band(band.cA, Hard(band.cD, thresh));
      assert output[j] == ThresholdLevel(before[j], j, scaler, input);
      j := j + 1;
    }
    assert output[..] == Thresholded(before, scaler, input);
    return true;
  }
}
