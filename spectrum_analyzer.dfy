/**
 * The one-sided magnitude spectrum of codes/Q3/src/spectrum_analyzer.rs
 * (`compute_spectrum`).
 *
 * The forward FFT and the complex modulus are parameters of the model: the
 * properties below assume only that the transform keeps the length of its input
 * and that the modulus is never negative.
 */
module SpectrumAnalyzer {
  import opened Numerics

  /** One (frequency, magnitude) pair of the spectrum. */
  datatype Point = Point(freq: real, magnitude: real)

  ghost predicate PreservesLength(fft: seq<Complex> -> seq<Complex>)
  {
    forall x :: |fft(x)| == |x|
  }

  ghost predicate NonNegative(norm: Complex -> real)
  {
    forall z :: norm(z) >= 0.0
  }

  /** The FFT input: the real samples with zero imaginary parts, no padding and no window. */
  function Embed(signal: seq<real>): (z: seq<Complex>)
    ensures |z| == |signal|
    ensures forall i :: 0 <= i < |z| ==> z[i].re == signal[i] && z[i].im == 0.0
  {
    seq(|signal|, i requires 0 <= i < |signal| => Complex(signal[i], 0.0))
  }

  /** The frequency of bin `i` of an n-point transform at sample rate f_s: i·(f_s/n). */
  function AxisFreq(i: nat, n: nat, fs: real): real
    requires n > 0
  {
    i as real * (fs / n as real)
  }

  /** The first ⌊n/2⌋ bins of a transform of length n as (i·f_s/n, |X[i]|/n) pairs. */
  function OneSided(x: seq<Complex>, fs: real, norm: Complex -> real): (sp: seq<Point>)
    ensures |sp| == |x| / 2
  {
    var n := |x|;
    seq(n / 2, i requires 0 <= i < n / 2 => Point(AxisFreq(i, n, fs), norm(x[i]) / n as real))
  }

  /** `compute_spectrum`: transform the embedded signal, then push one pair per bin. */
  method ComputeSpectrum(signal: seq<real>, fs: real, fft: seq<Complex> -> seq<Complex>,
                         norm: Complex -> real) returns (spectrum: seq<Point>)
    requires PreservesLength(fft)
    ensures |spectrum| == |signal| / 2
    ensures spectrum == OneSided(fft(Embed(signal)), fs, norm)
  {
    var n := |signal|;
    var buffer := Embed(signal);
    buffer := fft(buffer);
    assert |buffer| == n;
    spectrum := [];
    // the Rust code divides by n even when n == 0; the quotient is then never used
    var df := if n > 0 then fs / n as real else 0.0;
    for i := 0 to n / 2
      invariant spectrum == OneSided(buffer, fs, norm)[..i]
    {
      var freq := i as real * df;
      var magnitude := norm(buffer[i]) / n as real;
      assert Point(freq, magnitude) == OneSided(buffer, fs, norm)[i];
      spectrum := spectrum + [Point(freq, magnitude)];
    }
  }

  lemma MulStrictMono(x: real, y: real, d: real)
    requires x < y && d > 0.0
    ensures x * d < y * d
  {
    MulNonneg(y - x, d);
    assert (y - x) * d != 0.0;
  }

  /** Neighbouring bins of the axis are f_s/n apart. */
  lemma AxisStep(i: nat, n: nat, fs: real)
    requires n > 0
    ensures AxisFreq(i + 1, n, fs) - AxisFreq(i, n, fs) == fs / n as real
  {
    var df := fs / n as real;
    assert (i + 1) as real * df == i as real * df + df;
  }

  /** Bin `i` of the axis sits below bin `j` whenever i < j. */
  lemma AxisIncreasing(i: nat, j: nat, n: nat, fs: real)
    requires n > 0 && fs > 0.0 && i < j
    ensures AxisFreq(i, n, fs) < AxisFreq(j, n, fs)
  {
    MulStrictMono(i as real, j as real, fs / n as real);
  }

  /** A bin of the lower half lies in [0, f_s/2). */
  lemma AxisBelowHalf(i: nat, n: nat, fs: real)
    requires fs > 0.0 && 2 * i < n
    ensures 0.0 <= AxisFreq(i, n, fs) < fs / 2.0
  {
    var df := fs / n as real;
    MulNonneg(i as real, df);
    assert i as real < n as real / 2.0;
    MulStrictMono(i as real, n as real / 2.0, df);
    assert n as real / 2.0 * df == fs / 2.0;
  }

  /** The frequency axis for f_s > 0: it starts at 0, climbs in steps of f_s/n,
      is strictly increasing and stays below f_s/2. */
  lemma FrequencyAxis(x: seq<Complex>, fs: real, norm: Complex -> real)
    requires fs > 0.0
    ensures var sp := OneSided(x, fs, norm);
            && (|sp| > 0 ==> sp[0].freq == 0.0)
            && (forall i :: 0 <= i < |sp| - 1 ==> sp[i + 1].freq - sp[i].freq == fs / |x| as real)
            && (forall i, j :: 0 <= i < j < |sp| ==> sp[i].freq < sp[j].freq)
            && (forall i :: 0 <= i < |sp| ==> 0.0 <= sp[i].freq < fs / 2.0)
  {
    var sp := OneSided(x, fs, norm);
    var n := |x|;
    forall i | 0 <= i < |sp| - 1
      ensures sp[i + 1].freq - sp[i].freq == fs / n as real
    {
      AxisStep(i, n, fs);
    }
    forall i, j | 0 <= i < j < |sp|
      ensures sp[i].freq < sp[j].freq
    {
      AxisIncreasing(i, j, n, fs);
    }
    forall i | 0 <= i < |sp|
      ensures 0.0 <= sp[i].freq < fs / 2.0
    {
      AxisBelowHalf(i, n, fs);
    }
  }

  /** Magnitudes are non-negative when the modulus is. */
  lemma MagnitudesNonNegative(x: seq<Complex>, fs: real, norm: Complex -> real)
    requires NonNegative(norm)
    ensures forall i :: 0 <= i < |x| / 2 ==> OneSided(x, fs, norm)[i].magnitude >= 0.0
  {
    forall i | 0 <= i < |x| / 2
      ensures OneSided(x, fs, norm)[i].magnitude >= 0.0
    {
      var n := |x| as real;
      assert OneSided(x, fs, norm)[i].magnitude == norm(x[i]) * (1.0 / n);
      MulNonneg(norm(x[i]), 1.0 / n);
    }
  }

  /** Only bins 0..n/2-1 of the transform are read: transforms of equal length that agree
      there give the same spectrum. */
  lemma LowerHalfOnly(x: seq<Complex>, y: seq<Complex>, fs: real, norm: Complex -> real)
    requires |x| == |y|
    requires forall i :: 0 <= i < |x| / 2 ==> x[i] == y[i]
    ensures OneSided(x, fs, norm) == OneSided(y, fs, norm)
  {
  }
}
