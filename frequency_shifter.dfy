/**
 * Frequency shifting of a two-sided spectrum (codes/Q4/src/frequency_shifter.rs):
 * the spectral counterpart of multiplying by cos(2π·f_d·t),
 *
 *   X_b[i] = ½·X[(i + s) mod n] + ½·X[(i − s) mod n],   s = round(f_d·n / f_s),
 *
 * with Euclidean (never negative) remainders. A second variant reaches the two
 * source bins by mapping frequencies back to bins one at a time.
 */
module FrequencyShifter {
  import opened Numerics
  import IdealFilter

  /** The shift in whole bins: f_d·n / f_s rounded half away from zero. */
  function ShiftBins(fd: real, fs: real, n: nat): int
    requires fs != 0.0
  {
    Round(Position(fd, fs, n))
  }

  /** Where frequency f falls on the axis of n bins spaced f_s / n apart: f·n / f_s. */
  function Position(f: real, fs: real, n: nat): real
    requires fs != 0.0
  {
    f * n as real / fs
  }

  /** The shifted spectrum for a shift of `s` bins. */
  function Shifted(spectrum: seq<Complex>, s: int, n: nat): (r: seq<Complex>)
    requires n <= |spectrum|
    ensures |r| == n
  {
    seq(n, i requires 0 <= i < n => ShiftedBin(spectrum, s, n, i))
  }

  /** Output bin `i`: half of bin (i + s) mod n plus half of bin (i − s) mod n. */
  function ShiftedBin(spectrum: seq<Complex>, s: int, n: nat, i: nat): Complex
    requires i < n <= |spectrum|
  {
    Add(Half(spectrum[(i + s) % n]), Half(spectrum[(i - s) % n]))
  }

  /** One `output[i] += 0.5 * x` of the source. */
  method AddHalf(out: array<Complex>, i: nat, z: Complex)
    requires i < out.Length
    modifies out
    ensures out[i] == Add(old(out[i]), Half(z))
    ensures forall k :: 0 <= k < out.Length && k != i ==> out[k] == old(out[k])
  {
    out[i] := Add(out[i], Half(z));
  }

  /** The loop body of `frequency_shift`: accumulates output bin `i` from zero. */
  method ShiftBin(out: array<Complex>, spectrum: seq<Complex>, shift: int, n: nat, i: nat)
    requires i < n <= |spectrum| && out.Length == n && out[i] == Zero
    modifies out
    ensures out[i] == ShiftedBin(spectrum, shift, n, i)
    ensures forall k :: 0 <= k < n && k != i ==> out[k] == old(out[k])
  {
    var idxMinus := (i + shift) % n;
    var a := spectrum[idxMinus];
    AddHalf(out, i, a);
    assert out[i] == Half(a);
    var idxPlus := (i - shift) % n;
    var b := spectrum[idxPlus];
    AddHalf(out, i, b);
    assert out[i] == Add(Half(a), Half(b));
  }

  /** `frequency_shift`: accumulates both half-weighted contributions into a zeroed buffer. */
  method FrequencyShift(spectrum: seq<Complex>, fd: real, fs: real, n: nat) returns (result: seq<Complex>)
    requires fs != 0.0 && n <= |spectrum|
    ensures |result| == n
    ensures result == Shifted(spectrum, ShiftBins(fd, fs, n), n)
  {
    var shift := Round(fd * n as real / fs);
    var out := new Complex[n](_ => Zero);
    for i := 0 to n
      invariant forall k :: 0 <= k < i ==> out[k] == ShiftedBin(spectrum, shift, n, k)
      invariant forall k :: i <= k < n ==> out[k] == Zero
    {
      ShiftBin(out, spectrum, shift, n, i);
    }
    result := out[..];
  }

  /** `freq_to_bin`: a frequency in (−f_s, f_s) folded into [0, f_s), scaled to bins,
      rounded and wrapped; the result is always a valid bin. */
  function FreqToBin(freq: real, fs: real, n: nat): (b: nat)
    requires fs != 0.0 && n > 0
    ensures b < n
  {
    Round(Position(Folded(freq, fs), fs, n)) % n
  }

  /** A frequency in (−f_s, f_s) folded into [0, f_s). */
  function Folded(freq: real, fs: real): real
  {
    if freq >= 0.0 then freq else freq + fs
  }

  /** The spectrum built by `frequency_shift_explicit`. */
  function ShiftedExplicit(spectrum: seq<Complex>, fd: real, fs: real, n: nat): (r: seq<Complex>)
    requires fs != 0.0 && n <= |spectrum|
    ensures |r| == n
  {
    seq(n, i requires 0 <= i < n => ShiftedExplicitBin(spectrum, fd, fs, n, i))
  }

  /** Output bin `i` of the explicit variant: half of the bin nearest f_i − f_d plus half
      of the bin nearest f_i + f_d, where f_i is the signed frequency of bin `i`. */
  function ShiftedExplicitBin(spectrum: seq<Complex>, fd: real, fs: real, n: nat, i: nat): Complex
    requires fs != 0.0 && i < n <= |spectrum|
  {
    var fi := IdealFilter.BinFrequency(i, n, fs);
    Add(Half(spectrum[FreqToBin(fi - fd, fs, n)]), Half(spectrum[FreqToBin(fi + fd, fs, n)]))
  }

  /** The two source bins of output bin `i` in `frequency_shift_explicit`, with `df` = f_s / n. */
  method SourceBins(fd: real, fs: real, n: nat, df: real, i: nat) returns (idxMinus: nat, idxPlus: nat)
    requires fs != 0.0 && i < n && df == fs / n as real
    ensures idxMinus == FreqToBin(IdealFilter.BinFrequency(i, n, fs) - fd, fs, n)
    ensures idxPlus == FreqToBin(IdealFilter.BinFrequency(i, n, fs) + fd, fs, n)
  {
    var fi := if i <= n / 2 then i as real * df else (i as real - n as real) * df;
    assert fi == IdealFilter.BinFrequency(i, n, fs);
    var fMinus := fi - fd;
    var fPlus := fi + fd;
    idxMinus := FreqToBin(fMinus, fs, n);
    idxPlus := FreqToBin(fPlus, fs, n);
  }

  /** The loop body of `frequency_shift_explicit` for bin `i`. */
  method ShiftBinExplicit(out: array<Complex>, spectrum: seq<Complex>, fd: real, fs: real, n: nat,
                          df: real, i: nat)
    requires fs != 0.0 && i < n <= |spectrum| && out.Length == n && out[i] == Zero
    requires df == fs / n as real
    modifies out
    ensures out[i] == ShiftedExplicitBin(spectrum, fd, fs, n, i)
    ensures forall k :: 0 <= k < n && k != i ==> out[k] == old(out[k])
  {
    var idxMinus, idxPlus := SourceBins(fd, fs, n, df, i);
    assert idxMinus < n && idxPlus < n;
    ghost var minus, plus := Half(spectrum[idxMinus]), Half(spectrum[idxPlus]);
    if idxMinus < n {
      AddHalf(out, i, spectrum[idxMinus]);
    }
    assert out[i] == Add(Zero, minus) == minus;
    if idxPlus < n {
      AddHalf(out, i, spectrum[idxPlus]);
    }
    assert out[i] == Add(minus, plus);
  }

  /** `frequency_shift_explicit`: for each bin, recover its frequency, look up the bins of
      f − f_d and f + f_d and add half of each. The `< n` guards of the source always hold. */
  method FrequencyShiftExplicit(spectrum: seq<Complex>, fd: real, fs: real, n: nat)
    returns (result: seq<Complex>)
    requires fs != 0.0 && n <= |spectrum|
    ensures |result| == n
    ensures result == ShiftedExplicit(spectrum, fd, fs, n)
  {
    // the Rust code computes f_s / n before the loop even when n == 0; it is then unused
    var df := if n > 0 then fs / n as real else 0.0;
    var out := new Complex[n](_ => Zero);
    for i := 0 to n
      invariant forall k :: 0 <= k < i ==> out[k] == ShiftedExplicitBin(spectrum, fd, fs, n, k)
      invariant forall k :: i <= k < n ==> out[k] == Zero
    {
      ShiftBinExplicit(out, spectrum, fd, fs, n, df, i);
    }
    result := out[..];
  }

  // ---------------------------------------------------------------------------
  // Properties of the bin-shift variant

  lemma ShiftedAt(spectrum: seq<Complex>, s: int, n: nat, i: nat)
    requires i < n <= |spectrum|
    ensures Shifted(spectrum, s, n)[i] == ShiftedBin(spectrum, s, n, i)
  {
  }

  /** Output bin i of the shift by s, given its two source bins a = (i + s) mod n and b = (i − s) mod n. */
  lemma ShiftedFrom(spectrum: seq<Complex>, s: int, n: nat, i: nat, a: nat, b: nat)
    requires i < n <= |spectrum|
    requires a == (i + s) % n && b == (i - s) % n
    ensures Shifted(spectrum, s, n)[i] == Add(Half(spectrum[a]), Half(spectrum[b]))
  {
    ShiftedAt(spectrum, s, n, i);
  }

  lemma AddComm(z: Complex, w: Complex)
    ensures Add(z, w) == Add(w, z)
  {
  }

  lemma HalvesMakeWhole(z: Complex)
    ensures Add(Half(z), Half(z)) == z
  {
  }

  /** A shift of zero bins leaves the first n bins as they were. */
  lemma ShiftZeroIdentity(spectrum: seq<Complex>, n: nat)
    requires n <= |spectrum|
    ensures Shifted(spectrum, 0, n) == spectrum[..n]
  {
    forall i | 0 <= i < n
      ensures Shifted(spectrum, 0, n)[i] == spectrum[i]
    {
      ModUnique(i, n, 0, i);
      ShiftedFrom(spectrum, 0, n, i, i, i);
      HalvesMakeWhole(spectrum[i]);
    }
  }

  /** A zero offset is a zero shift. */
  lemma ZeroOffsetNoShift(fs: real, n: nat)
    requires fs != 0.0
    ensures ShiftBins(0.0, fs, n) == 0
  {
  }

  /** Shifting by s and by −s gives the same spectrum: cos(2π·f_d·t) is even in f_d. */
  lemma ShiftSignSymmetric(spectrum: seq<Complex>, s: int, n: nat)
    requires n <= |spectrum|
    ensures Shifted(spectrum, -s, n) == Shifted(spectrum, s, n)
  {
    forall i | 0 <= i < n
      ensures Shifted(spectrum, -s, n)[i] == Shifted(spectrum, s, n)[i]
    {
      assert i + -s == i - s && i - -s == i + s;
      AddComm(Half(spectrum[(i - s) % n]), Half(spectrum[(i + s) % n]));
    }
  }

  /** The offset f_d = −f gives the same spectrum as f_d = f. */
  lemma OffsetSignSymmetric(spectrum: seq<Complex>, fd: real, fs: real, n: nat)
    requires fs != 0.0 && n <= |spectrum|
    ensures Shifted(spectrum, ShiftBins(-fd, fs, n), n) == Shifted(spectrum, ShiftBins(fd, fs, n), n)
  {
    PositionLinear(fd, fd, fs, n);
    RoundNegate(Position(fd, fs, n));
    ShiftSignSymmetric(spectrum, ShiftBins(fd, fs, n), n);
  }

  /** Shifting by a whole turn of n bins changes nothing (indices wrap around). */
  lemma ShiftPeriodic(spectrum: seq<Complex>, s: int, n: nat)
    requires n <= |spectrum|
    ensures Shifted(spectrum, s + n, n) == Shifted(spectrum, s, n)
  {
    forall i | 0 <= i < n
      ensures Shifted(spectrum, s + n, n)[i] == Shifted(spectrum, s, n)[i]
    {
      ModAddMultiple(i + s, 1, n);
      ModAddMultiple(i - s, -1, n);
      assert i + (s + n) == (i + s) + 1 * n;
      assert i - (s + n) == (i - s) + -1 * n;
    }
  }

  /** A unit impulse in bin k of an n-bin spectrum. */
  function Impulse(n: nat, k: nat): (x: seq<Complex>)
    ensures |x| == n
  {
    seq(n, j => if j == k then Complex(1.0, 0.0) else Zero)
  }

  function Indicator(b: bool): real
  {
    if b then 1.0 else 0.0
  }

  /** Half of bin j of an impulse at k. */
  lemma HalfImpulse(n: nat, k: nat, j: nat)
    requires j < n
    ensures Half(Impulse(n, k)[j]) == Complex(0.5 * Indicator(j == k), 0.0)
  {
    if j == k {
      assert Impulse(n, k)[j] == Complex(1.0, 0.0);
    } else {
      assert Impulse(n, k)[j] == Zero;
    }
  }

  /** Half of bin a plus half of bin b of an impulse at k. */
  lemma HalvesOfImpulse(n: nat, k: nat, a: nat, b: nat)
    requires a < n && b < n
    ensures Add(Half(Impulse(n, k)[a]), Half(Impulse(n, k)[b]))
         == Complex(0.5 * Indicator(a == k) + 0.5 * Indicator(b == k), 0.0)
  {
    HalfImpulse(n, k, a);
    HalfImpulse(n, k, b);
  }

  /** The shifted impulse: output bin i, whose source bins are a = (i + s) mod n and
      b = (i − s) mod n, holds ½ for each of them that is k. */
  lemma ShiftedImpulse(n: nat, k: nat, s: int, i: nat, a: nat, b: nat)
    requires i < n
    requires a == (i + s) % n && b == (i - s) % n
    ensures Shifted(Impulse(n, k), s, n)[i] == Complex(0.5 * Indicator(a == k) + 0.5 * Indicator(b == k), 0.0)
  {
    ShiftedFrom(Impulse(n, k), s, n, i, a, b);
    HalvesOfImpulse(n, k, a, b);
  }

  /** An impulse at bin k splits into two halves, at bins k − s and k + s (mod n). */
  lemma ImpulseSplits(n: nat, k: nat, s: int)
    requires k < n
    ensures Shifted(Impulse(n, k), s, n)[(k - s) % n].re >= 0.5
    ensures Shifted(Impulse(n, k), s, n)[(k + s) % n].re >= 0.5
  {
    var lo, hi := (k - s) % n, (k + s) % n;
    ModOfMod(k - s, s, n);
    ModOfMod(k + s, -s, n);
    assert k - s + s == k && k + s + -s == k;
    ModUnique(k, n, 0, k);
    assert (lo + s) % n == k;
    assert (hi - s) % n == k;
    ShiftedImpulse(n, k, s, lo, k, (lo - s) % n);
    ShiftedImpulse(n, k, s, hi, (hi + s) % n, k);
  }

  /** The impulse example: 1000 bins at 10 kHz, an impulse at 2000 Hz shifted by 1000 Hz
      leaves half of it at 1000 Hz and half at 3000 Hz. */
  lemma ImpulseExample()
    ensures TruncateTowardZero(2000.0 / 10000.0 * 1000.0) == 200
    ensures ShiftBins(1000.0, 10000.0, 1000) == 100
    ensures Shifted(Impulse(1000, 200), 100, 1000)[100] == Complex(0.5, 0.0)
    ensures Shifted(Impulse(1000, 200), 100, 1000)[300] == Complex(0.5, 0.0)
  {
    assert Position(1000.0, 10000.0, 1000) == 100 as real;
    RoundWhole(100);
    ShiftedImpulse(1000, 200, 100, 100, 200, 0);
    ShiftedImpulse(1000, 200, 100, 300, 400, 200);
  }

  // ---------------------------------------------------------------------------
  // Properties of `freq_to_bin` and of the explicit variant

  /** The bin-mapping examples: 0 Hz, 100 Hz and −100 Hz at f_s = 1000 over 100 bins. */
  lemma FreqToBinExamples()
    ensures FreqToBin(0.0, 1000.0, 100) == 0
    ensures FreqToBin(100.0, 1000.0, 100) == 10
    ensures FreqToBin(-100.0, 1000.0, 100) == 90
  {
    assert Position(0.0, 1000.0, 100) == 0 as real;
    RoundWhole(0);
    assert Position(100.0, 1000.0, 100) == 10 as real;
    RoundWhole(10);
    assert Position(Folded(-100.0, 1000.0), 1000.0, 100) == 90 as real;
    RoundWhole(90);
  }

  /** Position is linear in the frequency, and f_s sits n bins up. */
  lemma PositionLinear(f: real, g: real, fs: real, n: nat)
    requires fs != 0.0
    ensures Position(f + g, fs, n) == Position(f, fs, n) + Position(g, fs, n)
    ensures Position(f - g, fs, n) == Position(f, fs, n) - Position(g, fs, n)
    ensures Position(-f, fs, n) == -Position(f, fs, n)
    ensures Position(fs, fs, n) == n as real
  {
    var k := n as real / fs;
    assert Position(f, fs, n) == f * k;
    assert Position(g, fs, n) == g * k;
    assert Position(f + g, fs, n) == (f + g) * k;
    assert Position(f - g, fs, n) == (f - g) * k;
    assert Position(-f, fs, n) == -f * k;
  }

  /** A frequency lying exactly on bin m (mod n) is mapped to that bin. */
  lemma FreqToBinOnGrid(f: real, fs: real, n: nat, m: int)
    requires fs != 0.0 && n > 0
    requires Position(f, fs, n) == m as real
    ensures FreqToBin(f, fs, n) == m % n
  {
    if f < 0.0 {
      PositionLinear(f, fs, fs, n);
      assert Position(Folded(f, fs), fs, n) == (m + 1 * n) as real;
      RoundWhole(m + 1 * n);
      ModAddMultiple(m, 1, n);
    } else {
      RoundWhole(m);
    }
  }

  /** The signed bin index whose frequency `BinFrequency` reports. */
  function SignedBin(i: nat, n: nat): int
  {
    if i <= n / 2 then i else i - n
  }

  /** Bin i's frequency is SignedBin(i) whole bin widths. */
  lemma BinFrequencyScaled(i: nat, n: nat, fs: real)
    requires fs != 0.0 && i < n
    ensures Position(IdealFilter.BinFrequency(i, n, fs), fs, n) == SignedBin(i, n) as real
  {
    var df := fs / n as real;
    var m := SignedBin(i, n) as real;
    assert IdealFilter.BinFrequency(i, n, fs) == m * df;
    assert df * n as real == fs;
    calc {
      Position(m * df, fs, n);
      m * df * n as real / fs;
      m * (df * n as real) / fs;
      m * fs / fs;
    }
  }

  /** When f_d is a whole number s of bins, the explicit lookup of f_i ∓ f_d is bin (i ∓ s) mod n. */
  lemma ExplicitBinsOnGrid(fd: real, fs: real, n: nat, i: nat, s: int)
    requires fs != 0.0 && i < n
    requires Position(fd, fs, n) == s as real
    ensures FreqToBin(IdealFilter.BinFrequency(i, n, fs) - fd, fs, n) == (i - s) % n
    ensures FreqToBin(IdealFilter.BinFrequency(i, n, fs) + fd, fs, n) == (i + s) % n
  {
    var fi := IdealFilter.BinFrequency(i, n, fs);
    var m := SignedBin(i, n);
    BinFrequencyScaled(i, n, fs);
    PositionLinear(fi, fd, fs, n);
    FreqToBinOnGrid(fi - fd, fs, n, m - s);
    FreqToBinOnGrid(fi + fd, fs, n, m + s);
    if i > n / 2 {
      ModAddMultiple(i - s, -1, n);
      ModAddMultiple(i + s, -1, n);
      assert m - s == (i - s) + -1 * n && m + s == (i + s) + -1 * n;
    }
  }

  /** The two implementations agree whenever f_d·n / f_s is a whole number of bins. */
  lemma ExplicitAgreesOnGrid(spectrum: seq<Complex>, fd: real, fs: real, n: nat)
    requires fs != 0.0 && n <= |spectrum|
    requires Position(fd, fs, n).Floor as real == Position(fd, fs, n)
    ensures ShiftedExplicit(spectrum, fd, fs, n) == Shifted(spectrum, ShiftBins(fd, fs, n), n)
  {
    var s := Position(fd, fs, n).Floor;
    RoundWhole(s);
    forall i | 0 <= i < n
      ensures ShiftedExplicit(spectrum, fd, fs, n)[i] == Shifted(spectrum, s, n)[i]
    {
      ExplicitBinsOnGrid(fd, fs, n, i, s);
      AddComm(Half(spectrum[(i - s) % n]), Half(spectrum[(i + s) % n]));
    }
  }

  /** Output bin i of the explicit variant, given the bins a and b it looks up for f_i ∓ f_d. */
  lemma ShiftedExplicitFrom(spectrum: seq<Complex>, fd: real, fs: real, n: nat, i: nat, a: nat, b: nat)
    requires fs != 0.0 && i < n <= |spectrum|
    requires a == FreqToBin(IdealFilter.BinFrequency(i, n, fs) - fd, fs, n)
    requires b == FreqToBin(IdealFilter.BinFrequency(i, n, fs) + fd, fs, n)
    ensures ShiftedExplicit(spectrum, fd, fs, n)[i] == Add(Half(spectrum[a]), Half(spectrum[b]))
  {
  }

  /** With n bins one hertz apart (f_s = n), a frequency's position is the frequency itself. */
  lemma PositionUnitBins(f: real, n: nat)
    requires n > 0
    ensures Position(f, n as real, n) == f
  {
    var k := n as real;
    calc {
      Position(f, k, n);
      f * k / k;
      f * (k / k);
    }
  }

  /** With n bins one hertz apart, an offset of half a bin rounds to one whole bin. */
  lemma HalfBinRoundsUp(n: nat)
    requires n >= 2
    ensures ShiftBins(0.5, n as real, n) == 1
  {
    PositionUnitBins(0.5, n);
    assert Round(0.5) == 1;
  }

  /** Shifting an impulse in bin 0 by one bin leaves output bin 0 empty. */
  lemma ImpulseLeavesBinZero(n: nat)
    requires n >= 2
    ensures Shifted(Impulse(n, 0), 1, n)[0] == Zero
  {
    ModUnique(0 + 1, n, 0, 1);
    ModUnique(0 - 1, n, -1, n - 1);
    ShiftedImpulse(n, 0, 1, 0, 1, n - 1);
  }

  /** With n bins one hertz apart, the explicit lookups for bin 0 and f_d = 0.5 Hz are bins 0 and 1. */
  lemma HalfBinLookups(n: nat)
    requires n >= 2
    ensures FreqToBin(IdealFilter.BinFrequency(0, n, n as real) - 0.5, n as real, n) == 0
    ensures FreqToBin(IdealFilter.BinFrequency(0, n, n as real) + 0.5, n as real, n) == 1
  {
    var fs := n as real;
    assert IdealFilter.BinFrequency(0, n, fs) == 0.0;
    assert Folded(0.0 - 0.5, fs) == fs - 0.5;
    PositionUnitBins(fs - 0.5, n);
    PositionUnitBins(0.5, n);
    RoundWhole(n);
    assert Round(fs - 0.5) == n;
    ModUnique(n, n, 1, 0);
    assert Folded(0.0 + 0.5, fs) == 0.5;
    assert Round(0.5) == 1;
    ModUnique(1, n, 0, 1);
  }

  /** With bins one hertz apart and f_d = 0.5 Hz, output bin 0 of the explicit variant is
      half of bin 0 plus half of bin 1. */
  lemma ExplicitHalfBinSources(spectrum: seq<Complex>, n: nat)
    requires 2 <= n <= |spectrum|
    ensures ShiftedExplicit(spectrum, 0.5, n as real, n)[0] == Add(Half(spectrum[0]), Half(spectrum[1]))
  {
    HalfBinLookups(n);
    ShiftedExplicitFrom(spectrum, 0.5, n as real, n, 0, 0, 1);
  }

  /** The explicit variant, with bins one hertz apart and f_d = 0.5 Hz, puts half of bin 0
      and half of bin 1 into output bin 0. */
  lemma ExplicitHalfBinAtZero(n: nat)
    requires n >= 2
    ensures ShiftedExplicit(Impulse(n, 0), 0.5, n as real, n)[0] == Complex(0.5, 0.0)
  {
    ExplicitHalfBinSources(Impulse(n, 0), n);
    HalvesOfImpulse(n, 0, 0, 1);
  }

  /** Off the grid the two implementations can differ. With n bins one hertz apart
      (f_s = n) and f_d = 0.5 Hz, half a bin, the shift rounds to one whole bin, but the
      explicit lookup of f_0 − f_d = −0.5 Hz folds to n − 0.5, rounds up to bin n and
      wraps to bin 0. An impulse in bin 0 then leaves nothing in output bin 0 of one
      variant and ½ in the other. */
  lemma ExplicitDiffersOffGrid(n: nat)
    requires n >= 2
    ensures ShiftBins(0.5, n as real, n) == 1
    ensures Shifted(Impulse(n, 0), 1, n)[0] == Zero
    ensures ShiftedExplicit(Impulse(n, 0), 0.5, n as real, n)[0] == Complex(0.5, 0.0)
  {
    HalfBinRoundsUp(n);
    ImpulseLeavesBinZero(n);
    ExplicitHalfBinAtZero(n);
  }
}
