/** The index and policy logic of the per-event waveform analysis: which
    channels are analysed, how the wavelet-denoised preamp trace is cut
    down, which pulse region is taken as the rise, how the rise window is
    widened and clamped, the pulser flag, and how one output entry is
    assembled. The transformers that measure waveforms are parameters. */
module AnalyzeWaveforms {
  import opened Arith
  import opened Veto
  import opened BeGeChannelInfo
  import opened RisetimeInfo
  import opened SwtDenoise

  /** Decomposition level of the stationary wavelet transform. */
  const Level: nat := 6
  /** Samples dropped from the front of the 8000-sample trace. */
  const CropPrefix: nat := 3904
  const TraceLength: nat := 8000
  /** Length of the analysed pulse, in ns. */
  const LengthOfPulse: real := 30000.0
  /** Where the analysed sub-window starts, in ns. */
  const SubWindowTime: real := 100000.0
  /** Scaler applied to every entry of the threshold table. */
  const ThresholdScaler: real := 0.8

  /** The fixed per-level threshold table. */
  const ThresholdList: seq<real> :=
    [0.0413365741474, 0.0334049964465, 0.0265735119519, 0.020878122779, 0.0177156746346, 0.00835124911162]

  /** Waveforms of an event that get a channel record, in order; waveform 3
      is the muon veto. */
  const ChannelNumbers: seq<nat> := [0, 1, 2, 4, 5]
  /** The pre-amp traces, which get a rise-time record. */
  const PreampChannels: seq<nat> := [4, 5]

  /** The crop leaves 4096 samples, a multiple of 2^6, so the six-level
      transform and its inverse apply; the threshold table covers every
      level with non-negative entries, so thresholding completes and
      `SwtDenoise.ScalerMonotone` applies to each level. */
  lemma CropAndTableFit()
    ensures TraceLength - CropPrefix == 4096
    ensures (TraceLength - CropPrefix) % Pow2(Level) == 0
    ensures |ThresholdList| == Level
    ensures forall j :: 0 <= j < |ThresholdList| ==> ThresholdList[j] >= 0.0
  {
    assert Pow2(Level) == 64;
  }

  // ---------------------------------------------------------------------
  // Numbers as Python handles them

  /** Python's `int()` of a float: truncation toward zero. */
  function Trunc(x: real): (r: int)
    ensures x >= 0.0 ==> 0 <= r && r as real <= x < r as real + 1.0
    ensures x < 0.0 ==> r <= 0 && r as real - 1.0 < x <= r as real
  {
    if x >= 0.0 then x.Floor else -((-x).Floor)
  }

  /** A slice bound as Python normalises it: negative counts from the end,
      then clamped to [0, n]. */
  function SliceBound(i: int, n: nat): (b: nat)
    ensures b <= n
    ensures 0 <= i <= n ==> b == i
  {
    if i < 0 then (if i + n < 0 then 0 else i + n) else if i > n then n else i
  }

  /** Python's `a[start:stop]`. */
  function PySlice(a: seq<real>, start: int, stop: int): (r: seq<real>)
  {
    var lo := SliceBound(start, |a|);
    var hi := SliceBound(stop, |a|);
    if hi <= lo then [] else a[lo..hi]
  }

  /** The sub-window `cA[start:end]` loaded into the rise-time trace:
      start = int(100e3 * fs), end = start + int(30e3 * fs). */
  datatype SubWindow = SubWindow(start: int, end: int)

  function AnalysisSubWindow(samplingFrequency: real): SubWindow {
    var start := Trunc(SubWindowTime * samplingFrequency);
    SubWindow(start, start + Trunc(LengthOfPulse * samplingFrequency))
  }

  /** With a non-negative sampling frequency and a window inside the trace,
      the slice taken has exactly int(30e3 * fs) samples, those of `cA`
      from the start of the window on. */
  lemma {:induction false} SubWindowSlice(cA: seq<real>, samplingFrequency: real)
    requires samplingFrequency >= 0.0
    requires AnalysisSubWindow(samplingFrequency).end <= |cA|
    ensures var w := AnalysisSubWindow(samplingFrequency);
      0 <= w.start <= w.end &&
      |PySlice(cA, w.start, w.end)| == w.end - w.start == Trunc(LengthOfPulse * samplingFrequency) &&
      forall k :: 0 <= k < |PySlice(cA, w.start, w.end)| ==> PySlice(cA, w.start, w.end)[k] == cA[w.start + k]
  {
    var w := AnalysisSubWindow(samplingFrequency);
    assert SubWindowTime * samplingFrequency >= 0.0 && LengthOfPulse * samplingFrequency >= 0.0;
    assert SliceBound(w.start, |cA|) == w.start && SliceBound(w.end, |cA|) == w.end;
  }

  /** The denoising of one pre-amp trace after the transform: the bands are
      thresholded in place at 0.8 times the fixed table, which covers all
      six levels, so no index error is raised; the thresholded bands keep
      their shape, are inverted, and the analysed sub-window of the
      reconstruction is kept. */
  method DenoiseTrace(output: array<Band>, idwt: (seq<real>, seq<real>) -> seq<real>, samplingFrequency: real)
    returns (window: seq<real>)
    requires output.Length == Level && SwtShaped(output[..]) && DoublesLength(idwt)
    modifies output
    ensures output[..] == Thresholded(old(output[..]), ThresholdScaler, ThresholdList)
    ensures SwtShaped(output[..])
    ensures window == PySlice(Reconstruct(output[..], idwt),
                              AnalysisSubWindow(samplingFrequency).start, AnalysisSubWindow(samplingFrequency).end)
  {
    ghost var before := output[..];
    var completed := ApplyThreshold(output, ThresholdScaler, ThresholdList);
    // the table has an entry for every level
    assert completed;
    forall b | 0 <= b < output.Length
      ensures output[b].cA == before[b].cA && |output[b].cD| == |before[b].cD|
    {
      ThresholdedShape(before, ThresholdScaler, ThresholdList, b);
    }
    var cA := Iswt(output[..], idwt);
    var w := AnalysisSubWindow(samplingFrequency);
    window := PySlice(cA[..], w.start, w.end);
  }

  // ---------------------------------------------------------------------
  // Choosing the rise region

  /** Index of the first region containing `point`, or 0 when none does. */
  function FirstContaining(regions: seq<Region>, point: nat): (r: nat)
    ensures |regions| > 0 ==> r < |regions|
    ensures InSomeRegion(regions, point) ==>
      regions[r].IsInRegion(point) && forall q :: 0 <= q < r ==> !regions[q].IsInRegion(point)
    ensures !InSomeRegion(regions, point) ==> r == 0
  {
    if |regions| == 0 then 0
    else if regions[0].IsInRegion(point) then 0
    else
      var rest := FirstContaining(regions[1..], point);
      if InSomeRegion(regions[1..], point) then 1 + rest else 0
  }

  /** The loop over the derivative's pulse regions that stops at the first
      one holding the extremum point. */
  method SelectRegion(regions: seq<Region>, point: nat) returns (testPoint: nat)
    ensures testPoint == FirstContaining(regions, point)
  {
    testPoint := 0;
    var region := 0;
    while region < |regions|
      invariant 0 <= region <= |regions|
      invariant forall q :: 0 <= q < region ==> !regions[q].IsInRegion(point)
    {
      if regions[region].IsInRegion(point) {
        testPoint := region;
        break;
      }
      region := region + 1;
    }
    FirstContainingIsFirst(regions, point, testPoint);
  }

  /** Any index that is the first to contain the point, or 0 when there is
      none, is the one `FirstContaining` names. */
  lemma FirstContainingIsFirst(regions: seq<Region>, point: nat, t: nat)
    requires t < |regions| ==> forall q :: 0 <= q < t ==> !regions[q].IsInRegion(point)
    requires InSomeRegion(regions, point) ==> t < |regions| && regions[t].IsInRegion(point)
    requires !InSomeRegion(regions, point) ==> t == 0
    ensures t == FirstContaining(regions, point)
  {
  }

  // ---------------------------------------------------------------------
  // The rise window

  /** The settings passed on to the baseline, peak-height and rise-time
      transformers: the clamped window start and end, the baseline delay and
      the sample to scan from. */
  datatype RiseWindowSettings = RiseWindowSettings(start: real, delay: real, end: real, scanFrom: int)

  /** The window before widening: 2 µs either side of the derivative
      extremum when no pulse region was found, else the chosen region, in
      ns. */
  function InitialWindow(regions: seq<Region>, point: nat, samplingPeriod: real): (real, real)
  {
    if |regions| == 0 then (point as real * samplingPeriod - 2000.0, point as real * samplingPeriod + 2000.0)
    else
      var chosen := regions[FirstContaining(regions, point)];
      (chosen.beginning as real * samplingPeriod, chosen.end as real * samplingPeriod)
  }

  /** One full width added on each side: the centre stays, the width triples. */
  function Expand(start: real, end: real): (r: (real, real))
    ensures (r.0 + r.1) / 2.0 == (start + end) / 2.0
    ensures r.1 - r.0 == 3.0 * (end - start)
    ensures start <= end ==> r.0 <= start && end <= r.1
  {
    var diff := (end - start) / 2.0;
    (start - 2.0 * diff, end + 2.0 * diff)
  }

  /** The policy as a whole. */
  function RiseWindowOf(regions: seq<Region>, point: nat, samplingPeriod: real, samplingFrequency: real): RiseWindowSettings
  {
    var initial := InitialWindow(regions, point, samplingPeriod);
    var widened := Expand(initial.0, initial.1);
    var start := if widened.0 < 0.0 then 0.0 else widened.0;
    var delay := if start < 1000.0 then start else start - 1000.0;
    var end := if widened.1 > LengthOfPulse - 1000.0 then LengthOfPulse - 1000.0 else widened.1;
    RiseWindowSettings(start, delay, end, Trunc(start * samplingFrequency))
  }

  /** The window policy, step by step as the analysis reassigns start and
      end. */
  method RiseWindow(regions: seq<Region>, point: nat, samplingPeriod: real, samplingFrequency: real)
    returns (settings: RiseWindowSettings)
    ensures settings == RiseWindowOf(regions, point, samplingPeriod, samplingFrequency)
  {
    var testPoint := SelectRegion(regions, point);
    var start, end;
    if |regions| == 0 {
      start := point as real * samplingPeriod - 2000.0;
      end := point as real * samplingPeriod + 2000.0;
    } else {
      start := regions[testPoint].beginning as real * samplingPeriod;
      end := regions[testPoint].end as real * samplingPeriod;
    }
    ghost var initial := InitialWindow(regions, point, samplingPeriod);
    assert start == initial.0 && end == initial.1;
    var diff := (end - start) / 2.0;
    start := start - 2.0 * diff;
    end := end + 2.0 * diff;
    if start < 0.0 {
      start := 0.0;
    }
    var delay;
    if start < 1000.0 {
      delay := start;
    } else {
      delay := start - 1000.0;
    }
    if end > LengthOfPulse - 1000.0 {
      end := LengthOfPulse - 1000.0;
    }
    settings := RiseWindowSettings(start, delay, end, Trunc(start * samplingFrequency));
  }

  /** What the clamping guarantees: the start is on the trace, the baseline
      delay lies between 0 and the start (1 µs before it once there is room),
      the peak-height time leaves 1 µs before the end of the pulse, and the
      scan starts at a non-negative sample. Where clamping does not bite,
      the widened window is kept. */
  lemma {:induction false} RiseWindowBounds(regions: seq<Region>, point: nat, samplingPeriod: real, samplingFrequency: real)
    ensures var w := RiseWindowOf(regions, point, samplingPeriod, samplingFrequency);
      w.start >= 0.0 && 0.0 <= w.delay <= w.start &&
      (w.start >= 1000.0 ==> w.delay == w.start - 1000.0) &&
      w.end <= LengthOfPulse - 1000.0 &&
      (samplingFrequency >= 0.0 ==> w.scanFrom >= 0)
    ensures var i := InitialWindow(regions, point, samplingPeriod);
      var w := RiseWindowOf(regions, point, samplingPeriod, samplingFrequency);
      (Expand(i.0, i.1).0 >= 0.0 ==> w.start == Expand(i.0, i.1).0) &&
      (Expand(i.0, i.1).1 <= LengthOfPulse - 1000.0 ==> w.end == Expand(i.0, i.1).1)
  {
    var w := RiseWindowOf(regions, point, samplingPeriod, samplingFrequency);
    assert samplingFrequency >= 0.0 ==> w.start * samplingFrequency >= 0.0 by {
      if samplingFrequency >= 0.0 {
        ScaleMonotone(0.0, w.start, samplingFrequency);
      }
    }
  }

  /** With no pulse region the window is 12 µs wide about the extremum
      (4 µs, tripled) before clamping; with one, it is three times the
      chosen region's width about its centre. */
  lemma InitialWidths(regions: seq<Region>, point: nat, samplingPeriod: real)
    ensures var i := InitialWindow(regions, point, samplingPeriod);
      |regions| == 0 ==> Expand(i.0, i.1).1 - Expand(i.0, i.1).0 == 12000.0 &&
                         (Expand(i.0, i.1).0 + Expand(i.0, i.1).1) / 2.0 == point as real * samplingPeriod
  {
  }

  // ---------------------------------------------------------------------
  // The output entry of one event

  /** The pulser flag: on when either pulser word is non-zero, stored as 0 or 1
      in a 32-bit unsigned branch. */
  function PulserOn(pulserChunkOne: uint32, pulserChunkTwo: uint32): (flag: uint32)
    ensures flag == 0 || flag == 1
    ensures flag == 1 <==> pulserChunkOne != 0 || pulserChunkTwo != 0
  {
    if pulserChunkTwo != 0 || pulserChunkOne != 0 then 1 else 0
  }

  /** The fields of an input trigger the entry copies. */
  datatype Trigger = Trigger(pulserChunkOne: uint32, pulserChunkTwo: uint32, timestamp: nat)

  /** What the pulse finder reports on a pre-amp trace's derivative: its
      pulse regions and the derivative's extremum point. */
  datatype Derivative = Derivative(regions: seq<Region>, point: nat)

  /** One row of the output tree. */
  datatype Entry = Entry(muonVeto: MuonVeto, channelInfo: ChannelInfo, risetimeInfo: RisetimeInfo,
                         pulserOn: uint32, time: nat)

  /** The rise-time records the pre-amp channels get, each measured in the
      window its own derivative selects. */
  function PreampRecords(derivativeOf: nat -> Derivative, samplingPeriod: real, samplingFrequency: real,
                         riseMeasure: (nat, RiseWindowSettings) -> OneRisetimeInfo): seq<OneRisetimeInfo>
  {
    seq(|PreampChannels|, k requires 0 <= k < |PreampChannels| =>
      riseMeasure(PreampChannels[k],
                  RiseWindowOf(derivativeOf(PreampChannels[k]).regions, derivativeOf(PreampChannels[k]).point,
                               samplingPeriod, samplingFrequency)))
  }

  /** Fills the entry of one event: the three containers are cleared, the
      veto regions pushed in the order found, one channel record per
      analysed channel (0, 1, 2, 4, 5) and one rise-time record per pre-amp
      channel (4, 5); pulser flag and time are copied from the trigger.
      Nothing of the previous event survives. */
  method AssembleEntry(previous: Entry, trigger: Trigger, vetoRegions: seq<Region>,
                       channelMeasure: nat -> OneChannelInfo, derivativeOf: nat -> Derivative,
                       samplingPeriod: real, samplingFrequency: real,
                       riseMeasure: (nat, RiseWindowSettings) -> OneRisetimeInfo)
    returns (entry: Entry)
    ensures entry.muonVeto.regions == vetoRegions
    ensures entry.channelInfo.channels ==
      seq(|ChannelNumbers|, k requires 0 <= k < |ChannelNumbers| => channelMeasure(ChannelNumbers[k]))
    ensures entry.risetimeInfo.channels == PreampRecords(derivativeOf, samplingPeriod, samplingFrequency, riseMeasure)
    ensures entry.pulserOn == PulserOn(trigger.pulserChunkOne, trigger.pulserChunkTwo)
    ensures entry.time == trigger.timestamp
  {
    var muonVeto := previous.muonVeto.Clear();
    var channelInfo := previous.channelInfo.Clear();
    var risetime := previous.risetimeInfo.Clear();
    var pulserOn := if trigger.pulserChunkTwo != 0 || trigger.pulserChunkOne != 0 then 1 else 0;
    var time := trigger.timestamp;

    var r := 0;
    while r < |vetoRegions|
      invariant 0 <= r <= |vetoRegions|
      invariant muonVeto.regions == vetoRegions[..r]
    {
      muonVeto := muonVeto.PushBack(vetoRegions[r]);
      r := r + 1;
    }

    var c := 0;
    while c < |ChannelNumbers|
      invariant 0 <= c <= |ChannelNumbers|
      invariant |channelInfo.channels| == c
      invariant forall k :: 0 <= k < c ==> channelInfo.channels[k] == channelMeasure(ChannelNumbers[k])
    {
      channelInfo := channelInfo.PushBack(channelMeasure(ChannelNumbers[c]));
      c := c + 1;
    }

    ghost var records := PreampRecords(derivativeOf, samplingPeriod, samplingFrequency, riseMeasure);
    var p := 0;
    while p < |PreampChannels|
      invariant 0 <= p <= |PreampChannels|
      invariant risetime.channels == records[..p]
    {
      var chanNum := PreampChannels[p];
      var derivative := derivativeOf(chanNum);
      var settings := RiseWindow(derivative.regions, derivative.point, samplingPeriod, samplingFrequency);
      risetime := risetime.PushBack(riseMeasure(chanNum, settings));
      p := p + 1;
    }
    entry := Entry(muonVeto, channelInfo, risetime, pulserOn, time);
  }

  /** Each entry holds five channel records, two rise-time records, as many
      veto regions as were found, and a 0/1 pulser flag, the veto regions
      in discovery order. */
  lemma EntryShape(e: Entry, trigger: Trigger, vetoRegions: seq<Region>,
                   channelMeasure: nat -> OneChannelInfo, derivativeOf: nat -> Derivative,
                   samplingPeriod: real, samplingFrequency: real,
                   riseMeasure: (nat, RiseWindowSettings) -> OneRisetimeInfo)
    requires e.muonVeto.regions == vetoRegions
    requires e.channelInfo.channels ==
      seq(|ChannelNumbers|, k requires 0 <= k < |ChannelNumbers| => channelMeasure(ChannelNumbers[k]))
    requires e.risetimeInfo.channels == PreampRecords(derivativeOf, samplingPeriod, samplingFrequency, riseMeasure)
    requires e.pulserOn == PulserOn(trigger.pulserChunkOne, trigger.pulserChunkTwo)
    ensures e.channelInfo.GetNumChannels() == 5 && e.risetimeInfo.GetNumChannels() == 2
    ensures e.muonVeto.GetNumberOfRegions() == |vetoRegions|
    ensures e.channelInfo.GetChannel(3) == channelMeasure(4) && e.channelInfo.GetChannel(4) == channelMeasure(5)
    ensures e.risetimeInfo.GetChannel(0).maxPoint == riseMeasure(4, RiseWindowOf(derivativeOf(4).regions, derivativeOf(4).point, samplingPeriod, samplingFrequency)).maxPoint
    ensures e.pulserOn <= 1
  {
  }
}
