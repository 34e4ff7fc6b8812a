# Signal-processing core of a demodulation homework, in Dafny

This project models the computational core of a Rust signal-processing homework. The
program recovers a message from a frequency-shifted recording. In the time domain (Q3) it
multiplies by a carrier, filters with recursive (IIR) filters and writes the result as a
16-bit WAV. In the frequency domain (Q4) it shifts the spectrum and applies brick-wall
filters. Before it does any of that, it reads its parameters and filter coefficients from
the result files of earlier steps.

`f64` is modelled by `real`, so all arithmetic is exact. The library calls whose results
the code only consumes are parameters of the model:

- the cosine of `multiply_with_carrier`;
- the FFT and the complex modulus of `compute_spectrum`;
- the float parser `str::parse::<f64>` of the result readers.

The lemmas assume only what is said of each parameter (`cos 0 = 1`, `|cos| <= 1`; the FFT
keeps the length; the modulus is never negative).

Modules, one per source file, plus three helper modules (`Text`, `Numerics` and `Wrappers`):

- `IirFilter`: `apply_filter` (codes/Q3/src/iir_filter.rs).
  - The two delay lines are arrays, shifted in place by the reverse loop.
  - The loops are proved against `Response`, a reference definition of the difference
    equation.
  - The source's comment says Direct Form II. The code keeps separate input and output
    histories, so it is Direct Form I, and that is what is modelled.
- `Demodulator`: `multiply_with_carrier` (codes/Q3/src/demodulator.rs).
- `SpectrumAnalyzer`: `compute_spectrum` (codes/Q3/src/spectrum_analyzer.rs).
- `IdealFilter`: `apply_highpass` and `apply_lowpass` (codes/Q4/src/ideal_filter.rs).
- `FrequencyShifter`: `frequency_shift`, `frequency_shift_explicit` and `freq_to_bin`
  (codes/Q4/src/frequency_shifter.rs).
- `ResultReaders`: `read_q1_results` and `read_q2_filters`.
  - These are taken as functions of the file's content.
  - codes/Q3/src/main.rs and codes/Q3/src/error_main.rs hold identical copies, so one model
    serves both.
  - Line splitting, trimming and field splitting are in the helper module `Text`.
- `AudioWriter`: peak normalisation and the quantising sample loop of `write_wav`
  (codes/Q3/src/audio_writer.rs).
- `Numerics`: `abs`, `round`, the truncating `as` cast, `clamp` and `Complex`.
- `Wrappers`: `Option` and `Result`.

Notes on the source:

- The two frequency shifters agree when `f_d·n/f_s` is a whole number of bins
  (`ExplicitAgreesOnGrid`).
- Off that grid the two shifters can differ (`ExplicitDiffersOffGrid`). Take `f_s = n` and
  `f_d = 0.5`, a rounding tie:
  - `frequency_shift` rounds the shift to one whole bin.
  - `frequency_shift_explicit` looks up −0.5 Hz for output bin 0, which folds and rounds
    to bin n and wraps to bin 0.
  - For an impulse in bin 0, output bin 0 is then 0 in one variant and ½ in the other.
- The demodulator's test expects `output[0] ≈ 1.0` for a unit signal. The code multiplies
  by 2, so it produces 2.0. The model follows the code (`DemodulatedAtStart`).

## Model

| member | source | states |
|---|---|---|
| IirFilter.ApplyFilter | codes/Q3/src/iir_filter.rs:3-40 | one output per input sample; the output is the difference-equation response `Filtered` |
| IirFilter.FilterSample | codes/Q3/src/iir_filter.rs:11-37 | one pass of the sample loop: extends the output by the next response value; afterwards the input line holds x[i−k] and the output line y[i−k], zero before the start |
| IirFilter.ShiftHistories | codes/Q3/src/iir_filter.rs:13-16 | both delay lines move one place towards the older end; slot 0 keeps its old value |
| IirFilter.TakeInput | codes/Q3/src/iir_filter.rs:13-17 | after the shift and the store of x[i], the input line holds x[i−k] and the output line's slots 1.. hold y[i−1], y[i−2], …, while slot 0 keeps its value until the new output is stored |
| IirFilter.FeedForward | codes/Q3/src/iir_filter.rs:20-25 | the feedforward loop computes Σ b[k]·x[i−k], with terms before the first sample zero |
| IirFilter.Feedback | codes/Q3/src/iir_filter.rs:27-30 | the feedback loop subtracts Σ_{1≤k<\|a\|} a[k]·y[i−k], reading only outputs already produced |
| IirFilter.NextOutput | codes/Q3/src/iir_filter.rs:19-33 | the value computed from the two lines is (Σ b[k]·x[i−k] − Σ_{k≥1} a[k]·y[i−k]) / a[0] |
| IirFilter.HistoryStep | codes/Q3/src/iir_filter.rs:13-17 | shifting the input line and storing x[i] gives the line for step i |
| IirFilter.HistoryExtend | codes/Q3/src/iir_filter.rs:13-16 | shifting the output line and storing y[i] gives the line for step i |
| IirFilter.HistoryAhead | codes/Q3/src/iir_filter.rs:28-30 | before y[i] is stored, the feedback slots 1.. of the output line already hold y[i−1], y[i−2], … |
| IirFilter.FilteredEquation | codes/Q3/src/iir_filter.rs:20-36 | every output sample satisfies y[i] = (Σ b[k]·x[i−k] − Σ_{k≥1} a[k]·y[i−k]) / a[0] |
| IirFilter.ResponsePrefix | codes/Q3/src/iir_filter.rs:11-37 | outputs once computed are never revised: a shorter run is a prefix of a longer one |
| IirFilter.FirstOutput | codes/Q3/src/iir_filter.rs:8-9 | the filter starts at rest, so y[0] = b[0]·x[0]/a[0] |
| IirFilter.SilentInput | codes/Q3/src/iir_filter.rs:8-9 | an all-zero input gives an all-zero output |
| IirFilter.MovingAverage | codes/Q3/src/iir_filter.rs:46-58 | b = [0.5, 0.5], a = [1] on 1..5 gives 0.5, 1.5, 2.5, 3.5, 4.5 |
| IirFilter.TapsAgree | codes/Q3/src/iir_filter.rs:23-30 | a tap sum depends only on the delayed samples it reads |
| IirFilter.TapsSilent | codes/Q3/src/iir_filter.rs:23-30 | taps that read only zeros sum to zero |
| Demodulator.MultiplyWithCarrier | codes/Q3/src/demodulator.rs:4-16 | same length as the input; sample i is signal[i]·cos(2π·f_d·i/f_s)·2 |
| Demodulator.DemodulatedAtStart | codes/Q3/src/demodulator.rs:9-12 | with cos 0 = 1, the first output is 2·signal[0] |
| Demodulator.DemodulatedBound | codes/Q3/src/demodulator.rs:10-12 | with \|cos\| ≤ 1, \|output[i]\| ≤ 2·\|signal[i]\|, and silent samples stay silent |
| Demodulator.ZeroOffset | codes/Q3/src/demodulator.rs:9-12 | with f_d = 0 the output is exactly 2·signal |
| SpectrumAnalyzer.ComputeSpectrum | codes/Q3/src/spectrum_analyzer.rs:5-30 | exactly ⌊n/2⌋ pairs (i·f_s/n, \|X[i]\|/n), where X is the transform of the embedded signal |
| SpectrumAnalyzer.Embed | codes/Q3/src/spectrum_analyzer.rs:9-12 | the transform input is the signal with zero imaginary parts, of the same length |
| SpectrumAnalyzer.FrequencyAxis | codes/Q3/src/spectrum_analyzer.rs:21-24 | for f_s > 0 the axis starts at 0, climbs in steps of f_s/n, strictly increases and stays below f_s/2 |
| SpectrumAnalyzer.AxisIncreasing | codes/Q3/src/spectrum_analyzer.rs:24 | bin i lies at a lower frequency than bin j whenever i < j |
| SpectrumAnalyzer.AxisBelowHalf | codes/Q3/src/spectrum_analyzer.rs:23-24 | every bin of the lower half lies in [0, f_s/2) |
| SpectrumAnalyzer.MagnitudesNonNegative | codes/Q3/src/spectrum_analyzer.rs:25 | magnitudes are non-negative when the modulus is |
| SpectrumAnalyzer.LowerHalfOnly | codes/Q3/src/spectrum_analyzer.rs:23-26 | only bins 0..n/2−1 of the transform are read |
| IdealFilter.ApplyHighpass | codes/Q4/src/ideal_filter.rs:5-29 | same length; bin i < n is zeroed exactly when \|f_i\| < f_c, every other entry is copied |
| IdealFilter.ApplyLowpass | codes/Q4/src/ideal_filter.rs:33-57 | same length; bin i < n is zeroed exactly when \|f_i\| > f_c, every other entry is copied |
| IdealFilter.HighpassIdempotent | codes/Q4/src/ideal_filter.rs:12-26 | applying the high-pass twice equals applying it once |
| IdealFilter.LowpassIdempotent | codes/Q4/src/ideal_filter.rs:40-54 | applying the low-pass twice equals applying it once |
| IdealFilter.FiltersCommute | codes/Q4/src/ideal_filter.rs:12-54 | high-pass then low-pass equals low-pass then high-pass, for any cutoffs |
| IdealFilter.SameCutoffKeepsOnlyEdge | codes/Q4/src/ideal_filter.rs:23-25 | with one cutoff for both filters, a bin survives the pair exactly when \|f_i\| = f_c |
| IdealFilter.BinFrequencyOpposite | codes/Q4/src/ideal_filter.rs:16-20 | bins i and n − i stand for opposite frequencies, except the Nyquist bin |
| IdealFilter.BinFrequencyMirror | codes/Q4/src/ideal_filter.rs:16-20 | bins i and (n − i) mod n have frequencies of equal magnitude |
| IdealFilter.MasksSymmetric | codes/Q4/src/ideal_filter.rs:16-25 | bin i is zeroed exactly when bin (n − i) mod n is, by either filter |
| IdealFilter.HighpassExample | codes/Q4/src/ideal_filter.rs:64-78 | n = 100, f_s = 1000, f_c = 100: the high-pass zeroes bins 0 and 5 |
| IdealFilter.LowpassExample | codes/Q4/src/ideal_filter.rs:82-95 | in the same setting the low-pass zeroes bin (200/f_s·n) as usize = 20 |
| FrequencyShifter.FrequencyShift | codes/Q4/src/frequency_shifter.rs:5-29 | n bins; bin i is ½·X[(i+s) mod n] + ½·X[(i−s) mod n] with s = round(f_d·n/f_s) |
| FrequencyShifter.ShiftBin | codes/Q4/src/frequency_shifter.rs:18-26 | one loop pass accumulates bin i from zero and leaves the other bins alone |
| FrequencyShifter.AddHalf | codes/Q4/src/frequency_shifter.rs:21 | one `result[i] + x * 0.5` update changes bin i only |
| FrequencyShifter.ShiftedFrom | codes/Q4/src/frequency_shifter.rs:20-25 | bin i of the shift reads exactly the source bins (i + s) mod n and (i − s) mod n |
| FrequencyShifter.ShiftZeroIdentity | codes/Q4/src/frequency_shifter.rs:20-25 | a shift of zero bins returns the first n bins unchanged |
| FrequencyShifter.ZeroOffsetNoShift | codes/Q4/src/frequency_shifter.rs:12 | f_d = 0 gives a shift of zero bins |
| FrequencyShifter.ShiftSignSymmetric | codes/Q4/src/frequency_shifter.rs:20-25 | shifting by −s gives the same spectrum as shifting by s |
| FrequencyShifter.OffsetSignSymmetric | codes/Q4/src/frequency_shifter.rs:12-25 | the offset −f_d gives the same spectrum as f_d |
| FrequencyShifter.ShiftPeriodic | codes/Q4/src/frequency_shifter.rs:20-24 | a shift by s + n equals the shift by s |
| FrequencyShifter.ShiftedImpulse | codes/Q4/src/frequency_shifter.rs:18-26 | a shifted unit impulse at k holds ½ in bin i for each of its source bins that is k |
| FrequencyShifter.ImpulseSplits | codes/Q4/src/frequency_shifter.rs:18-26 | a unit impulse at k puts at least ½ into bins (k − s) mod n and (k + s) mod n |
| FrequencyShifter.ImpulseExample | codes/Q4/src/frequency_shifter.rs:85-103 | n = 1000, f_s = 10 kHz, f_d = 1 kHz: the impulse at bin 200 gives ½ at bins 100 and 300 |
| FrequencyShifter.FreqToBin | codes/Q4/src/frequency_shifter.rs:69-78 | the bin is always in [0, n), so the `< n` guards of the explicit variant always hold |
| FrequencyShifter.FreqToBinExamples | codes/Q4/src/frequency_shifter.rs:106-113 | n = 100, f_s = 1000: 0 Hz → 0, 100 Hz → 10, −100 Hz → 90 |
| FrequencyShifter.FreqToBinOnGrid | codes/Q4/src/frequency_shifter.rs:69-78 | a frequency exactly on bin m maps to bin m mod n |
| FrequencyShifter.SourceBins | codes/Q4/src/frequency_shifter.rs:43-55 | the two lookups of bin i are the bins of f_i − f_d and f_i + f_d |
| FrequencyShifter.ShiftBinExplicit | codes/Q4/src/frequency_shifter.rs:41-64 | one loop pass of the explicit variant accumulates bin i from zero and leaves the others alone |
| FrequencyShifter.FrequencyShiftExplicit | codes/Q4/src/frequency_shifter.rs:32-67 | n bins; bin i is half the bin nearest f_i − f_d plus half the bin nearest f_i + f_d |
| FrequencyShifter.ShiftedExplicitFrom | codes/Q4/src/frequency_shifter.rs:54-63 | bin i of the explicit variant reads exactly the two looked-up bins |
| FrequencyShifter.BinFrequencyScaled | codes/Q4/src/frequency_shifter.rs:43-47 | the frequency of bin i is a whole number of bin widths: i, or i − n above n/2 |
| FrequencyShifter.ExplicitBinsOnGrid | codes/Q4/src/frequency_shifter.rs:50-55 | for a whole shift s, the explicit lookups are bins (i − s) mod n and (i + s) mod n |
| FrequencyShifter.ExplicitAgreesOnGrid | codes/Q4/src/frequency_shifter.rs:5-67 | when f_d·n/f_s is whole, both variants give the same spectrum |
| FrequencyShifter.ExplicitDiffersOffGrid | codes/Q4/src/frequency_shifter.rs:5-78 | at a rounding tie (f_s = n, f_d = ½) the variants differ in bin 0 for an impulse in bin 0 |
| FrequencyShifter.HalfBinLookups | codes/Q4/src/frequency_shifter.rs:69-78 | with bins 1 Hz apart, the explicit lookups for bin 0 and f_d = ½ are bins 0 and 1 |
| Numerics.RoundNearest | codes/Q4/src/frequency_shifter.rs:12 | `round` gives the nearest integer, ties away from zero |
| Numerics.TruncateTowardZero | codes/Q3/src/audio_writer.rs:24 | the `as` cast drops the fraction toward zero |
| Numerics.Clamp | codes/Q3/src/audio_writer.rs:24 | `clamp` lands in [lo, hi] and leaves values inside unchanged |
| ResultReaders.ReadQ1Results | codes/Q3/src/main.rs:107-135 | Err "Could not find f_d …" without f_d, else Err "Could not find f_s …" without f_s, else Ok(f_d, f_s, 4000) with the last values read; also the identical copy at lines 248-276 of codes/Q3/src/error_main.rs |
| ResultReaders.OffsetTakesPriority | codes/Q3/src/main.rs:115-121 | a line mentioning both f_d and f_s sets f_d only |
| ResultReaders.LaterLinesWin | codes/Q3/src/main.rs:114-128 | a later line that sets f_d or f_s overrides earlier ones |
| ResultReaders.BlankFieldReadsZero | codes/Q3/src/main.rs:117 | a blank field after `=` is read as the text "0", so it yields 0.0 whenever the parser reads "0" as 0.0 |
| ResultReaders.FirstTokenIsValue | codes/Q3/src/main.rs:116-117 | the value is the first whitespace-separated token after the first `=` |
| ResultReaders.ReadQ2Filters | codes/Q3/src/main.rs:137-186 | Ok exactly when all four lists are non-empty, with exactly the collected lists; else Err "Failed to parse filter coefficients"; also the identical copy at lines 278-327 of codes/Q3/src/error_main.rs |
| ResultReaders.ReadQ2Line | codes/Q3/src/main.rs:148-178 | one trimmed line either sets the section in force (a header; High-pass tested first) or appends to each list exactly its `Contribution`: the parsed field of a `b[`/`a[` line, only to the list of the section in force |
| ResultReaders.AppendCoefficient | codes/Q3/src/main.rs:158-176 | a `b[`/`a[` line's coefficient, when the field exists and parses, goes to the list of the section in force, and to neither list before the first header |
| ResultReaders.CoefficientsStep | codes/Q3/src/main.rs:148-178 | the reference over a file one line longer: the section is that line's `NextSection`, and each list is the earlier list plus that line's `Contribution` |
| ResultReaders.HeaderOrBlankYieldsNothing | codes/Q3/src/main.rs:149-158 | blank lines and header lines never yield a coefficient |
| ResultReaders.CollectedGrows | codes/Q3/src/main.rs:161-176 | coefficients only append in file order; a repeated header does not reset a list |
| ResultReaders.NoHeaderNoCoefficients | codes/Q3/src/main.rs:146-183 | without a header every coefficient is dropped and the reader fails |
| Text.TrimShape | codes/Q3/src/main.rs:149-150 | `trim` leaves no whitespace at either end, and is empty exactly for an all-whitespace line |
| Text.TrimStartShape | codes/Q3/src/main.rs:149 | the leading trim is a suffix of the line, drops only whitespace, and stops at a non-whitespace character |
| Text.TrimEndShape | codes/Q3/src/main.rs:149 | the trailing trim is a prefix of the line, drops only whitespace, and ends at a non-whitespace character |
| Text.TrimIdempotent | codes/Q3/src/main.rs:149 | trimming twice is trimming once |
| Text.ContainsIffOccurs | codes/Q3/src/main.rs:115 | `contains` means an occurrence at some position |
| Text.SplitJoin | codes/Q3/src/main.rs:116 | the pieces of `split('=')` joined with `=` give the line back |
| Text.SecondField | codes/Q3/src/main.rs:116 | `split('=').nth(1)` exists exactly when the line has a `=` and holds no `=` |
| Text.FirstToken | codes/Q3/src/main.rs:117 | `split_whitespace().next()` is None exactly for blank text, else a non-empty word |
| Text.Lines | codes/Q3/src/main.rs:114 | no line from `lines` contains a line feed |
| Text.LinesUnlines | codes/Q3/src/main.rs:114 | `lines` gives back lines written with line feeds |
| AudioWriter.WriteSamples | codes/Q3/src/audio_writer.rs:14-28 | writes one value per sample, in order: the sample scaled by `NormalizationScale(peak)` and quantised |
| AudioWriter.WriteScaled | codes/Q3/src/audio_writer.rs:22-28 | the sample loop writes every sample scaled and quantised, in input order |
| AudioWriter.Peak | codes/Q3/src/audio_writer.rs:15 | the fold is ≥ 0, bounds every \|sample\| and is attained by one (or 0 for silence) |
| AudioWriter.Quantize | codes/Q3/src/audio_writer.rs:24 | every written value lies in [−32768, 32767] |
| AudioWriter.QuantizedAt | codes/Q3/src/audio_writer.rs:22-28 | written value i comes from sample i |
| AudioWriter.NormalizedWithinHeadroom | codes/Q3/src/audio_writer.rs:15-23 | every normalised sample lies in [−0.95, 0.95], and the loudest is exactly ±0.95 |
| AudioWriter.SampleWithinHeadroom | codes/Q3/src/audio_writer.rs:16-23 | a sample within the peak, times 0.95/peak (or 1 for silence), lies within ±0.95 |
| AudioWriter.QuantizeUnclamped | codes/Q3/src/audio_writer.rs:24 | inside ±1 the clamp never engages |
| AudioWriter.QuantizeWithinHeadroom | codes/Q3/src/audio_writer.rs:24 | a value within ±0.95 is written within ±31128, and ±0.95 exactly at ±31128 |
| AudioWriter.WrittenInRange | codes/Q3/src/audio_writer.rs:15-24 | every written value lies within ±31128, and the loudest sample is written at ±31128 |
| AudioWriter.SilenceStaysSilent | codes/Q3/src/audio_writer.rs:16-24 | a silent input has peak 0, scale 1, and is written as zeros |

## Left out

- File and console I/O: reading the result files, creating and finalising the WAV file, and
  every `println!`. The readers take the file content as a string. The WAV writer is
  modelled as the sequence of the integers written to it.
- The error paths of the WAV writer (`Failed to create/write/finalize …`). They come from the
  hound library and cannot be seen here.
- The `main` functions of main.rs and error_main.rs, `save_results`, and the plotting
  functions (`plot_spectrum`, `plot_spectrum_db`, `plot_waveform_comparison`, all of
  codes/Q4/src/spectrum_analyzer.rs). They only sequence calls, summarise in floating point
  or render images.
- codes/Q3/src/audio_reader.rs is not part of this model. It is a thin wrapper over the WAV
  library.
- IEEE-754 behaviour: NaN, infinities, rounding error and the saturating `as` casts. `f64`
  is `real`. Instead of NaN for `a[0] = 0` or `f_s = 0`, the model requires `a[0] ≠ 0` and
  `f_s ≠ 0`.
- `FreqToBin` requires n > 0, where the source's `rem_euclid` by 0 would panic.
- The preconditions `n <= |spectrum|` (in `ApplyHighpass`, `ApplyLowpass`, `FrequencyShift`
  and `FrequencyShiftExplicit`) and `|a| >= 1` (in `ValidDenominator`) follow the documented
  contract: `n` is the length of the spectrum, and a filter has a leading denominator
  coefficient. They exclude every input on which the source panics:
  - a spectrum index out of bounds at codes/Q4/src/ideal_filter.rs:24 and :52, and at
    codes/Q4/src/frequency_shifter.rs:21, :25, :59 and :62;
  - an empty delay line at codes/Q3/src/iir_filter.rs:17 (both `a` and `b` empty);
  - the read of `a[0]` at codes/Q3/src/iir_filter.rs:33 (`a` empty, input non-empty).

  They also exclude some inputs on which the source returns normally:
  - a spectrum shorter than `n` whose missing bins are never touched, such as a high-pass
    with `f_c <= 0`;
  - an empty `a` with an empty input, for which the source returns `[]`.
- The FFT algorithm, the cosine, the complex modulus and `str::parse::<f64>` are parameters,
  with only the properties listed above.
- SpectrumAnalyzer.ComputeSpectrum: the FFT's in-place update of its buffer is modelled as a
  function from the buffer to the transformed buffer.
- AudioWriter.WriteSamples: the `?` on `write_sample` failures is not modelled.
- The demodulator test's expectation `output[0] ≈ 1.0` is not reproduced. The code
  computes 2.0, which `DemodulatedAtStart` proves.
