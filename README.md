# BeGe analysis chain, modelled in Dafny

This project models the core of the BeGe (broad-energy germanium) detector analysis chain at Soudan.
The chain has three stages:

1. **Raw decoding**, in `ParseBeGeData/parseBeGe.cc`. A binary file holds fixed-size trigger records of
   192016 bytes in network byte order. The size check rejects a file that is not a whole number of
   records. Each record is swapped word by word to host order (`ntohl`) and then split into six
   interlaced waveforms of 8000 samples plus the two pulser words.
2. **Per-event analysis**, in `BEGeAnalyzeWaveforms/analyze_waveforms.py`. It denoises the two pre-amp
   traces with a six-level stationary Haar wavelet transform, hard thresholding against a fixed table,
   and an inverse transform.
   - The reconstructed trace is cut down to the pulse sub-window.
   - The rise region is chosen and widened, then clamped.
   - One output entry is assembled from a muon-veto record, five channel records, two rise-time
     records, the pulser flag and the time.
3. **Event selection**, in `BEGeAnalyzeWaveforms/all_bege_mgm_cuts.py`. Per-event cut decisions fill
   event lists: odd pulse, rise time, microphonics and the two liquid-nitrogen fill lists. The lists
   are intersected, and the efficiency names are joined into one product expression.

The record classes `MGMMuonVeto`, `MGMBeGeChannelInfo` and `MGMRisetimeInfo` are datatypes holding a
sequence. `clear`/`push_back` are value-returning `Clear`/`PushBack`.

Bytes and 32-bit words are newtypes (`Arith.byte`, `Arith.uint32`). The host byte order is a
parameter. The transformers the analysis calls (pulse finder, extremum, baseline, bandpass, rise-time
calculator, `pywt.idwt`) are function parameters.

Files:
- `arith.dfy`: division facts
- `parse_bege.dfy`: decoding
- `muon_veto.dfy`, `channel_info.dfy`, `risetime_info.dfy`: the records
- `swt_denoise.dfy`: `iswt` and `apply_threshold`
- `analyze_waveforms.dfy`: the per-event analysis
- `bege_cuts.dfy`: the selector

## Model

| member | source | states |
|---|---|---|
| ParseBeGe.BytesOfWordOfBytes | ParseBeGeData/parseBeGe.cc:24-27 | splitting the word built from four bytes gives back the same four bytes |
| ParseBeGe.WordOfBytesOfWord | ParseBeGeData/parseBeGe.cc:24-27 | rebuilding a 32-bit word from its four bytes gives back the word |
| ParseBeGe.NtohlInvolutive | ParseBeGeData/parseBeGe.cc:27 | on either host order, applying `ntohl` twice is the identity |
| ParseBeGe.NtohlInPlace | ParseBeGeData/parseBeGe.cc:27 | storing `ntohl` of the host word at an offset writes that word's four bytes in the swapped order |
| ParseBeGe.SwappedWordIsNetworkValue | ParseBeGeData/parseBeGe.cc:22-29 | after the swap, each whole word read in host order equals the big-endian value of the original bytes |
| ParseBeGe.SwappedTailUntouched | ParseBeGeData/parseBeGe.cc:25-26 | bytes past the last whole 32-bit word of `length` are left unchanged (`length /= 4` truncates) |
| ParseBeGe.SwapTwiceRestores | ParseBeGeData/parseBeGe.cc:22-29 | swapping a buffer twice restores it |
| ParseBeGe.SwapBuffer | ParseBeGeData/parseBeGe.cc:22-29 | the in-place loop leaves the array equal to the swapped bytes of its old contents |
| ParseBeGe.ReadWaveforms | ParseBeGeData/parseBeGe.cc:32-46 | sample i of waveform one is host word 2i and of waveform two is host word 2i+1; the returned position is advanced by two words per sample |
| ParseBeGe.ReadPulserChunk | ParseBeGeData/parseBeGe.cc:49-60 | the pulser words are host words 2 and 3 of the 16-byte chunk; the position advances by 16 bytes |
| ParseBeGe.RecordLayout | ParseBeGeData/parseBeGe.cc:81-87 | a record is 4·6·8000+16 = 192016 bytes; the chunk and the three waveform pairs sit at the offsets the read sequence implies and fill the record exactly |
| ParseBeGe.HostRecordOfSwapped | ParseBeGeData/parseBeGe.cc:167-176 | decoding the swapped buffer in host order gives the record defined directly on the big-endian wire bytes, on either host |
| ParseBeGe.DecodeRecord | ParseBeGeData/parseBeGe.cc:161-176 | swap followed by the three waveform reads and the pulser read yields the wire-level record and consumes 192016 bytes; the buffer is left holding the swapped bytes of its old contents |
| ParseBeGe.CheckedEventCount | ParseBeGeData/parseBeGe.cc:126-130 | the size check passes exactly when the size is a multiple of the record size, and the event count then multiplies back to the size |
| ParseBeGe.ParseFile | ParseBeGeData/parseBeGe.cc:126-185 | a "File corrupted." error iff the size is not a whole number of records; otherwise one decoded record per 192016-byte slice, in order (test-first loop: none for an empty file, see "## Left out") |
| ParseBeGe.RecordsFilledAsWritten | ParseBeGeData/parseBeGe.cc:151-189 | the do-while loop as written fills `size/192016` records, except that it fills one for an empty file |
| ParseBeGe.RecordsFilled | ParseBeGeData/parseBeGe.cc:151-189 | a loop with the test first fills exactly `size/192016` records, the count checked at line 187 |
| Veto.MuonVeto.IsInVetoRegion | MGMMuonVeto.cc:5-12 | true iff some region contains the position, both ends included |
| Veto.MuonVeto.RangeIsInVetoRegion | MGMMuonVeto.cc:14-32 | true iff either endpoint is in some region or the range spans some region |
| Veto.RangeHitsIffIntersects | MGMMuonVeto.cc:16-20 | for well-formed regions, the three tests together say exactly that the range intersects some region |
| Veto.PointRangeIsPointTest | MGMMuonVeto.cc:14-32 | a one-point range is vetoed iff the point is vetoed, for well-formed regions |
| Veto.MalformedPointRange | MGMMuonVeto.cc:27-30 | a reversed region (5, 3) vetoes the one-point range 4 although it contains no position |
| Veto.NoRegionsNoVeto | MGMMuonVeto.cc:7-11 | with no regions nothing is vetoed |
| Veto.PushBackKeepsVeto | MGMMuonVeto.hh:11 | appending a region never un-vetoes a position or a range |
| Veto.RegionCount | MGMMuonVeto.hh:15 | after clear the count is 0; push_back adds one and puts the region last |
| BeGeChannelInfo.OneChannelInfo.Default | MGMBeGeChannelInfo.hh:11 | the default record is all zero |
| BeGeChannelInfo.ChannelAccessors | MGMBeGeChannelInfo.hh:24-26 | GetNumChannels counts records; push_back appends at the end and keeps earlier records; clear empties |
| RisetimeInfo.OneRisetimeInfo.Default | MGMRisetimeInfo.hh:11-14 | the default record is all zero, points included |
| RisetimeInfo.RisetimeAccessors | MGMRisetimeInfo.hh:39-41 | GetNumChannels counts records; push_back appends at the end and keeps earlier records |
| SwtDenoise.ArangeShape | BEGeAnalyzeWaveforms/analyze_waveforms.py:42 | `arange(first, n, step)` for `first < step` dividing n has n/step indices, all below n |
| SwtDenoise.HalvesEqual | BEGeAnalyzeWaveforms/analyze_waveforms.py:42-47 | when 2·step divides n, the even and odd halves of a phase each have n/(2·step) indices, all below n |
| SwtDenoise.PhaseCovers | BEGeAnalyzeWaveforms/analyze_waveforms.py:39-42 | every index below n is at position i/step of phase i%step |
| SwtDenoise.PhaseUnique | BEGeAnalyzeWaveforms/analyze_waveforms.py:39-42 | an index lies in one phase only, at one position only |
| SwtDenoise.PhaseGathersAgree | BEGeAnalyzeWaveforms/analyze_waveforms.py:51-52 | the inputs a phase reads have not been touched by the phases written before it |
| SwtDenoise.LevelsLength | BEGeAnalyzeWaveforms/analyze_waveforms.py:35-58 | each level of reconstruction keeps the signal length |
| SwtDenoise.CoarsestBandFirst | BEGeAnalyzeWaveforms/analyze_waveforms.py:31-38 | reconstruction starts from `coefficients[0].cA` and first applies `coefficients[0].cD` at the largest step 2^(n-1) |
| SwtDenoise.LevelLocality | BEGeAnalyzeWaveforms/analyze_waveforms.py:39-58 | a level's result at index i depends only on the input samples in i's phase |
| SwtDenoise.PhaseTarget | BEGeAnalyzeWaveforms/analyze_waveforms.py:58 | `output[indices] = (x1+x2)/2` writes element k of the phase result to index first+k·step |
| SwtDenoise.ReconstructPhase | BEGeAnalyzeWaveforms/analyze_waveforms.py:39-58 | one pass of the inner loop turns phase `first` into its value in the level's result and leaves later phases as they were |
| SwtDenoise.Iswt | BEGeAnalyzeWaveforms/analyze_waveforms.py:18-60 | the in-place reconstruction returns an array of the signal's length equal to the level-by-level reconstruction |
| SwtDenoise.HardMonotone | BEGeAnalyzeWaveforms/analyze_waveforms.py:88 | a higher hard threshold never leaves more non-zero detail coefficients |
| SwtDenoise.HardIdempotent | BEGeAnalyzeWaveforms/analyze_waveforms.py:88 | hard thresholding twice with the same threshold equals once |
| SwtDenoise.ThresholdedShape | BEGeAnalyzeWaveforms/analyze_waveforms.py:82-89 | thresholding keeps each level's approximation and the length of its detail band |
| SwtDenoise.ScalerMonotone | BEGeAnalyzeWaveforms/analyze_waveforms.py:87 | with non-negative table entries, a larger scaler never leaves more non-zero coefficients at a level |
| SwtDenoise.ApplyThreshold | BEGeAnalyzeWaveforms/analyze_waveforms.py:62-89 | levels that have a table entry are thresholded at scaler·input[j]; completion iff the table is as long as the band list, otherwise the IndexError stops it at the first missing entry |
| AnalyzeWaveforms.CropAndTableFit | BEGeAnalyzeWaveforms/analyze_waveforms.py:9-15 | the crop of 3904 samples leaves 4096, a multiple of 2^6; the table has one non-negative entry per level |
| AnalyzeWaveforms.Trunc | BEGeAnalyzeWaveforms/analyze_waveforms.py:264-265 | `int()` truncates toward zero, in both signs |
| AnalyzeWaveforms.SliceBound | BEGeAnalyzeWaveforms/analyze_waveforms.py:267 | a slice bound stays in [0, n] and an in-range bound is kept |
| AnalyzeWaveforms.DenoiseTrace | BEGeAnalyzeWaveforms/analyze_waveforms.py:255-265 | the bands are thresholded in place at 0.8 times the six-entry table (no index error), keep their shape, and the result is `cA[start:end]` of their inverse transform |
| AnalyzeWaveforms.SubWindowSlice | BEGeAnalyzeWaveforms/analyze_waveforms.py:264-267 | inside the trace, `cA[start:end]` holds exactly int(30e3·fs) samples, those from `start` on, so `end-start` is its length |
| AnalyzeWaveforms.FirstContaining | BEGeAnalyzeWaveforms/analyze_waveforms.py:284-289 | the first region containing the extremum point, or 0 when none does |
| AnalyzeWaveforms.SelectRegion | BEGeAnalyzeWaveforms/analyze_waveforms.py:285-289 | the loop with `break` returns that index |
| AnalyzeWaveforms.Expand | BEGeAnalyzeWaveforms/analyze_waveforms.py:305-309 | widening keeps the centre, triples the width and contains the original window |
| AnalyzeWaveforms.RiseWindow | BEGeAnalyzeWaveforms/analyze_waveforms.py:292-339 | the step-by-step reassignment of start and end computes the window settings of the policy |
| AnalyzeWaveforms.RiseWindowBounds | BEGeAnalyzeWaveforms/analyze_waveforms.py:314-339 | start ≥ 0; the delay lies in [0, start] and is start−1 µs once start ≥ 1 µs; end ≤ 29 µs; the scan sample is non-negative; unclamped ends are kept |
| AnalyzeWaveforms.InitialWidths | BEGeAnalyzeWaveforms/analyze_waveforms.py:292-298 | with no region the widened window is 12 µs wide about the extremum |
| AnalyzeWaveforms.PulserOn | BEGeAnalyzeWaveforms/analyze_waveforms.py:188 | the flag is 0 or 1, and it is 1 iff either pulser word is non-zero |
| AnalyzeWaveforms.AssembleEntry | BEGeAnalyzeWaveforms/analyze_waveforms.py:180-349 | after the clears, the entry holds exactly the veto regions in order, one record per channel 0, 1, 2, 4, 5, one rise-time record per channel 4, 5 measured in its chosen window, the pulser flag and the time |
| AnalyzeWaveforms.EntryShape | BEGeAnalyzeWaveforms/analyze_waveforms.py:202-227 | an assembled entry has 5 channel records and 2 rise-time records; records 3 and 4 come from waveforms 4 and 5 |
| BeGeCuts.MicrophonicsDecision | BEGeAnalyzeWaveforms/all_bege_mgm_cuts.py:140-160 | never entered for a quiet baseline, a deep minimum or a pulser event; a division error iff the baseline test passes with zero energy; otherwise entered iff the energy is above 50 mV or the ratio lies in the band |
| BeGeCuts.LNComplementary | BEGeAnalyzeWaveforms/all_bege_mgm_cuts.py:107-122 | an event passes the LN fill cut iff it fails the LN-fill-on cut |
| BeGeCuts.Selected | BEGeAnalyzeWaveforms/all_bege_mgm_cuts.py:61-122 | a cut list is strictly ascending and holds only indices of the scanned entries |
| BeGeCuts.SelectedMembers | BEGeAnalyzeWaveforms/all_bege_mgm_cuts.py:61-122 | an index is in a cut list iff its entry is scanned and passes the cut |
| BeGeCuts.LNPartition | BEGeAnalyzeWaveforms/all_bege_mgm_cuts.py:107-122 | every entry is in exactly one of the two LN lists |
| BeGeCuts.MicrophonicsSelected | BEGeAnalyzeWaveforms/all_bege_mgm_cuts.py:140-160 | the microphonics list is strictly ascending over the scanned entries |
| BeGeCuts.MicrophonicsMembers | BEGeAnalyzeWaveforms/all_bege_mgm_cuts.py:140-160 | an index is in the microphonics list iff its entry is scanned and entered |
| BeGeCuts.MicrophonicsReach | BEGeAnalyzeWaveforms/all_bege_mgm_cuts.py:145-147 | the scan gets as far as the first entry that divides by zero, or the whole tree |
| BeGeCuts.Intersect | BEGeAnalyzeWaveforms/all_bege_mgm_cuts.py:127 | the intersection holds exactly the entries in both lists |
| BeGeCuts.IntersectAscending | BEGeAnalyzeWaveforms/all_bege_mgm_cuts.py:127 | intersecting an ascending list keeps it ascending, so the combined list stays in entry order |
| BeGeCuts.SplitJoin | BEGeAnalyzeWaveforms/all_bege_mgm_cuts.py:130-136 | names without "*" are recovered by splitting the joined expression at "*" |
| BeGeCuts.JoinSplit | BEGeAnalyzeWaveforms/all_bege_mgm_cuts.py:130-136 | any expression is the join of its "*"-separated pieces |
| BeGeCuts.Selector.GetOddPulseCutList | BEGeAnalyzeWaveforms/all_bege_mgm_cuts.py:61-72 | after a reset, the list holds, in entry order, the entries with channel-1 energy above 10 mV or a rise spread below 140 + 6000·energy |
| BeGeCuts.Selector.GetRisetimeCutList | BEGeAnalyzeWaveforms/all_bege_mgm_cuts.py:74-105 | using the high-energy cut from 50 mV, both cuts on [45, 50) mV and the low-energy cut below that |
| BeGeCuts.Selector.RisetimeEnters | BEGeAnalyzeWaveforms/all_bege_mgm_cuts.py:78-104 | the branch-by-branch decision for one entry, including the early `continue` when both cuts pass, is exactly the rise-time cut |
| BeGeCuts.Selector.GetLNFillOnCutList | BEGeAnalyzeWaveforms/all_bege_mgm_cuts.py:107-113 | the entries with the pulser on |
| BeGeCuts.Selector.GetLNFillCutList | BEGeAnalyzeWaveforms/all_bege_mgm_cuts.py:116-122 | the entries with the pulser off |
| BeGeCuts.Selector.GetMicrophonicsCutsList | BEGeAnalyzeWaveforms/all_bege_mgm_cuts.py:140-160 | the entered entries in order; completion iff no entry divides by zero, and on failure the list stops at the failing entry |
| BeGeCuts.Selector.GetAllCutsList | BEGeAnalyzeWaveforms/all_bege_mgm_cuts.py:124-128 | when the microphonics scan completes, an entry is in the ascending combined list iff it passes the rise-time, microphonics, LN-fill and odd-pulse cuts, and the LN-fill and odd-pulse lists are rebuilt; otherwise nothing is combined and those two lists are untouched; either way the rise-time list is rebuilt and the microphonics list holds the entries before the failing one |
| BeGeCuts.Selector.GetAllCutsEfficiency | BEGeAnalyzeWaveforms/all_bege_mgm_cuts.py:130-136 | the expression is the efficiency names joined by "*" in list order |

## Left out

- ROOT file and tree I/O, the progress output, and TF1 construction are not modelled. The decoder works on a byte sequence, the selector on a sequence of entries, and the efficiency on the names it joins.
- `prepare_for_next_trigger` is not modelled; it allocates waveform slots in a ROOT clones array.
- The datetime conversion and the reinterpretation of sample words as IEEE floats are not modelled; samples stay as raw host-order 32-bit words.
- `ParseBeGe.ReadWaveforms`: the returned position is written `position + 8 * lengthOfWaveforms`, which is 2 words of 4 bytes per sample, as in `2*length_of_waveforms*sizeof(uint32_t)`.
- The host byte order is a parameter. Reads and writes through `uint32_t*` are modelled as array accesses, so alignment and strict aliasing are not modelled.
- The short read reported at end of file (line 162-164) is not modelled: every `read` is given a full record.
- `ParseBeGe.ParseFile`: follows the corrected, test-first loop of `ParseBeGe.RecordsFilled`, so an empty file yields no record, where the source's do-while fills one from an unread buffer (and then reports "Error reading file"); see the row under "## Findings".
- `pywt.swt`, `pywt.idwt`, the MGWF transformers and the pulse finder are foreign. `idwt` is a function parameter assumed to double the length of its inputs (Haar, periodic mode). Measurements reach the `AnalyzeWaveforms` entries as parameters.
- The median-absolute-deviation threshold path of `apply_threshold` (lines 84-86) is not modelled; it is floating-point statistics. Only the fixed-table path at line 87 is modelled.
- `MGWaveformRegion::IsInRegion` is not part of this model. It is taken to be inclusive at both ends, like `MGMMuonVeto::IsInVetoRegion`.
- `AnalyzeWaveforms.RiseWindowOf`, `AnalyzeWaveforms.RiseWindow`, `AnalyzeWaveforms.AnalysisSubWindow` and the members built on them take the sampling period and the sampling frequency as independent parameters. In the source the period is 1/frequency of the same waveform; the model's properties hold for every pair, so in particular for that one.
- Floating-point rounding is not modelled: reals are exact, and `60./0.01` is taken as 6000.
- `SwtDenoise.Iswt`: the docstring at line 25 calls `coefficients[0]` the finest level, but the code uses it as the coarsest (its cA starts the reconstruction and its cD is applied at step 2^(n-1)). The model follows the code; `SwtDenoise.CoarsestBandFirst` states it.
- `TEventList` is modelled as a sequence. `Enter` appends in entry order, so `Sort` is the identity and is not modelled as a separate step, and `Intersect` keeps the left list's order.
- The TF1 truthiness test `eval and ...` in the rise-time cut is taken to be true for any curve.
- `BeGeCuts.Selector.GetMicrophonicsCutsList`: the `ZeroDivisionError` is modelled as returning `completed = false`; the exception itself is not.
- The selector's constructor is a modelling device. The database lookups of the curves and efficiency functions (SoudanServer) are not modelled; the curves are uninterpreted functions of the energy.
- The selector requires every entry to hold at least five channel records and two rise-time records (`BeGeCuts.WellShaped`), because `GetChannel` does no bounds check. `AnalyzeWaveforms.EntryShape` shows that assembled entries meet this.
- Concurrency and the command-line handling are not modelled.

## Findings

| source | as written | input that shows it | evidently intended | confidence | as-written member | corrected member |
|---|---|---|---|---|---|---|
| ParseBeGeData/parseBeGe.cc:151-189 | the record loop is a do-while, so it reads, swaps and fills one record before testing for end of file | an empty (0-byte) input file, which passes the size check because 0 % 192016 == 0: one record is filled and the count check at line 187 reports "Error reading file" | fill exactly `size/192016` records, none for an empty file | not executed | ParseBeGe.RecordsFilledAsWritten | ParseBeGe.RecordsFilled |
