/**
 * Ideal (brick-wall) filters applied directly to a two-sided spectrum
 * (codes/Q4/src/ideal_filter.rs). Bin i of an n-point spectrum stands for the
 * frequency i·f_s/n when i ≤ n/2 and for (i − n)·f_s/n above that (the negative
 * frequencies wrap around). A filter either zeroes a bin or leaves it untouched.
 */
module IdealFilter {
  import opened Numerics

  /** The signed frequency of bin `i` of an n-point spectrum sampled at f_s. */
  function BinFrequency(i: nat, n: nat, fs: real): real
    requires i < n
  {
    var df := fs / n as real;
    if i <= n / 2 then i as real * df else (i as real - n as real) * df
  }

  /** The high-pass filter removes bins strictly below the cutoff in magnitude. */
  predicate HighpassStops(i: nat, n: nat, fc: real, fs: real)
    requires i < n
  {
    Abs(BinFrequency(i, n, fs)) < fc
  }

  /** The low-pass filter removes bins strictly above the cutoff in magnitude. */
  predicate LowpassStops(i: nat, n: nat, fc: real, fs: real)
    requires i < n
  {
    Abs(BinFrequency(i, n, fs)) > fc
  }

  /** The high-passed spectrum; entries at index n or beyond are copied unchanged. */
  function Highpassed(spectrum: seq<Complex>, fc: real, fs: real, n: nat): (r: seq<Complex>)
    requires n <= |spectrum|
    ensures |r| == |spectrum|
  {
    seq(|spectrum|, i requires 0 <= i < |spectrum| =>
      if i < n && HighpassStops(i, n, fc, fs) then Zero else spectrum[i])
  }

  /** The low-passed spectrum; entries at index n or beyond are copied unchanged. */
  function Lowpassed(spectrum: seq<Complex>, fc: real, fs: real, n: nat): (r: seq<Complex>)
    requires n <= |spectrum|
    ensures |r| == |spectrum|
  {
    seq(|spectrum|, i requires 0 <= i < |spectrum| =>
      if i < n && LowpassStops(i, n, fc, fs) then Zero else spectrum[i])
  }

  /** `apply_highpass`: copy the spectrum, then zero the stopped bins in place. */
  method ApplyHighpass(spectrum: seq<Complex>, fc: real, fs: real, n: nat) returns (result: seq<Complex>)
    requires n <= |spectrum|
    ensures |result| == |spectrum|
    ensures result == Highpassed(spectrum, fc, fs, n)
  {
    // the Rust code computes f_s / n before the loop even when n == 0; it is then unused
    var df := if n > 0 then fs / n as real else 0.0;
    var out := new Complex[|spectrum|](i requires 0 <= i < |spectrum| => spectrum[i]);
    for i := 0 to n
      invariant forall k :: 0 <= k < |spectrum| ==>
                  out[k] == if k < i && HighpassStops(k, n, fc, fs) then Zero else spectrum[k]
    {
      var freq := if i <= n / 2 then i as real * df else (i as real - n as real) * df;
      assert freq == BinFrequency(i, n, fs);
      if Abs(freq) < fc {
        out[i] := Zero;
      }
    }
    result := out[..];
  }

  /** `apply_lowpass`: copy the spectrum, then zero the stopped bins in place. */
  method ApplyLowpass(spectrum: seq<Complex>, fc: real, fs: real, n: nat) returns (result: seq<Complex>)
    requires n <= |spectrum|
    ensures |result| == |spectrum|
    ensures result == Lowpassed(spectrum, fc, fs, n)
  {
    var df := if n > 0 then fs / n as real else 0.0;
    var out := new Complex[|spectrum|](i requires 0 <= i < |spectrum| => spectrum[i]);
    for i := 0 to n
      invariant forall k :: 0 <= k < |spectrum| ==>
                  out[k] == if k < i && LowpassStops(k, n, fc, fs) then Zero else spectrum[k]
    {
      var freq := if i <= n / 2 then i as real * df else (i as real - n as real) * df;
      assert freq == BinFrequency(i, n, fs);
      if Abs(freq) > fc {
        out[i] := Zero;
      }
    }
    result := out[..];
  }

  // ---------------------------------------------------------------------------
  // Properties of the masks

  /** Each filter is a fixed mask, so applying it twice changes nothing more. */
  lemma HighpassIdempotent(spectrum: seq<Complex>, fc: real, fs: real, n: nat)
    requires n <= |spectrum|
    ensures Highpassed(Highpassed(spectrum, fc, fs, n), fc, fs, n) == Highpassed(spectrum, fc, fs, n)
  {
  }

  lemma LowpassIdempotent(spectrum: seq<Complex>, fc: real, fs: real, n: nat)
    requires n <= |spectrum|
    ensures Lowpassed(Lowpassed(spectrum, fc, fs, n), fc, fs, n) == Lowpassed(spectrum, fc, fs, n)
  {
  }

  /** High-pass and low-pass commute, whatever their cutoffs. */
  lemma FiltersCommute(spectrum: seq<Complex>, fcHigh: real, fcLow: real, fs: real, n: nat)
    requires n <= |spectrum|
    ensures Lowpassed(Highpassed(spectrum, fcHigh, fs, n), fcLow, fs, n)
         == Highpassed(Lowpassed(spectrum, fcLow, fs, n), fcHigh, fs, n)
  {
  }

  /** With one cutoff for both, a bin survives the pair only when it lies exactly on the
      cutoff; every other bin below n is zeroed by one of the two. */
  lemma SameCutoffKeepsOnlyEdge(spectrum: seq<Complex>, fc: real, fs: real, n: nat, i: nat)
    requires n <= |spectrum| && i < n
    ensures Lowpassed(Highpassed(spectrum, fc, fs, n), fc, fs, n)[i]
         == if Abs(BinFrequency(i, n, fs)) == fc then spectrum[i] else Zero
  {
  }

  /** Bins i and n − i (0 < i < n) stand for opposite frequencies, except the Nyquist
      bin i = n/2 of an even n, which is its own mirror. */
  lemma BinFrequencyOpposite(i: nat, n: nat, fs: real)
    requires 0 < i < n && 2 * i != n
    ensures BinFrequency(n - i, n, fs) == -BinFrequency(i, n, fs)
  {
    var df := fs / n as real;
    var j := n - i;
    assert (j as real - n as real) == -(i as real);
    assert (i as real - n as real) == -(j as real);
    if i <= n / 2 {
      assert j > n / 2;
    } else {
      assert j <= n / 2;
    }
  }

  /** Bins i and (n − i) mod n have frequencies of the same magnitude. */
  lemma BinFrequencyMirror(i: nat, n: nat, fs: real)
    requires i < n
    ensures Abs(BinFrequency((n - i) % n, n, fs)) == Abs(BinFrequency(i, n, fs))
  {
    if i == 0 {
      ModUnique(n, n, 1, 0);
    } else {
      ModUnique(n - i, n, 0, n - i);
      if 2 * i != n {
        BinFrequencyOpposite(i, n, fs);
      } else {
        assert n - i == i;
      }
    }
  }

  /** The masks are symmetric: bin i is zeroed exactly when bin (n − i) mod n is. */
  lemma MasksSymmetric(i: nat, n: nat, fc: real, fs: real)
    requires i < n
    ensures HighpassStops(i, n, fc, fs) <==> HighpassStops((n - i) % n, n, fc, fs)
    ensures LowpassStops(i, n, fc, fs) <==> LowpassStops((n - i) % n, n, fc, fs)
  {
    BinFrequencyMirror(i, n, fs);
  }

  /** n = 100, f_s = 1000 Hz, f_c = 100 Hz: the high-pass zeroes DC (bin 0) and 50 Hz (bin 5). */
  lemma HighpassExample(spectrum: seq<Complex>)
    requires |spectrum| == 100
    ensures Highpassed(spectrum, 100.0, 1000.0, 100)[0] == Zero
    ensures Highpassed(spectrum, 100.0, 1000.0, 100)[5] == Zero
  {
    assert BinFrequency(5, 100, 1000.0) == 50.0;
  }

  /** The same setting: the low-pass zeroes the 200 Hz bin, index (200/f_s·n) truncated = 20. */
  lemma LowpassExample(spectrum: seq<Complex>)
    requires |spectrum| == 100
    ensures TruncateTowardZero(200.0 / 1000.0 * 100.0) == 20
    ensures Lowpassed(spectrum, 100.0, 1000.0, 100)[20] == Zero
  {
    assert BinFrequency(20, 100, 1000.0) == 200.0;
  }
}
