/**
 * Coherent demodulation by carrier multiplication (codes/Q3/src/demodulator.rs):
 * every sample is multiplied by cos(2π·f_d·t) at its own time t = i/f_s and by 2,
 * the factor that restores the amplitude halved by cos²(x) = (1 + cos 2x)/2.
 *
 * The cosine is a parameter of the model; of it the lemmas assume only
 * cos(0) = 1 and |cos x| ≤ 1.
 */
module Demodulator {
  import opened Numerics

  /** `std::f64::consts::PI` as a decimal. */
  const Pi: real := 3.141592653589793

  /** What the model uses of the cosine it is given. */
  ghost predicate IsCosine(cos: real -> real)
  {
    cos(0.0) == 1.0 && forall x :: -1.0 <= cos(x) <= 1.0
  }

  /** The carrier phase 2π·f_d·t at sample `i`, with t = i / f_s. */
  function CarrierPhase(i: nat, fd: real, fs: real): real
    requires fs != 0.0
  {
    2.0 * Pi * fd * (i as real / fs)
  }

  /** The demodulated signal: sample-wise product with 2·cos of the carrier phase. */
  function Demodulated(signal: seq<real>, fd: real, fs: real, cos: real -> real): (r: seq<real>)
    requires fs != 0.0
    ensures |r| == |signal|
  {
    seq(|signal|, i requires 0 <= i < |signal| => signal[i] * cos(CarrierPhase(i, fd, fs)) * 2.0)
  }

  /** `multiply_with_carrier`: fills a preallocated output buffer sample by sample. */
  method MultiplyWithCarrier(signal: seq<real>, fd: real, fs: real, cos: real -> real)
    returns (output: seq<real>)
    requires fs != 0.0
    ensures |output| == |signal|
    ensures output == Demodulated(signal, fd, fs, cos)
  {
    var n := |signal|;
    var out := new real[n](_ => 0.0);
    for i := 0 to n
      invariant forall k :: 0 <= k < i ==> out[k] == Demodulated(signal, fd, fs, cos)[k]
    {
      var t := i as real / fs;
      assert 2.0 * Pi * fd * t == CarrierPhase(i, fd, fs);
      var carrier := cos(2.0 * Pi * fd * t);
      out[i] := signal[i] * carrier * 2.0;
    }
    output := out[..];
  }

  /** At t = 0 the carrier is cos 0 = 1, so the first output is twice the first sample. */
  lemma DemodulatedAtStart(signal: seq<real>, fd: real, fs: real, cos: real -> real)
    requires fs != 0.0 && IsCosine(cos) && |signal| >= 1
    ensures Demodulated(signal, fd, fs, cos)[0] == 2.0 * signal[0]
  {
    assert CarrierPhase(0, fd, fs) == 0.0;
  }

  lemma ScaledByCosine(s: real, c: real)
    requires -1.0 <= c <= 1.0
    ensures Abs(s * c * 2.0) <= 2.0 * Abs(s)
  {
    var p := s * c;
    assert s * c * 2.0 == 2.0 * p;
    var m := Abs(s);
    MulNonneg(m, 1.0 - c);
    MulNonneg(m, c + 1.0);
    assert -m <= m * c <= m;
    assert p == m * c || p == -(m * c);
  }

  /** The output never exceeds twice the input in magnitude; silent samples stay silent. */
  lemma DemodulatedBound(signal: seq<real>, fd: real, fs: real, cos: real -> real)
    requires fs != 0.0 && IsCosine(cos)
    ensures forall i :: 0 <= i < |signal| ==>
              Abs(Demodulated(signal, fd, fs, cos)[i]) <= 2.0 * Abs(signal[i])
    ensures forall i :: 0 <= i < |signal| && signal[i] == 0.0 ==>
              Demodulated(signal, fd, fs, cos)[i] == 0.0
  {
    forall i | 0 <= i < |signal|
      ensures Abs(Demodulated(signal, fd, fs, cos)[i]) <= 2.0 * Abs(signal[i])
    {
      ScaledByCosine(signal[i], cos(CarrierPhase(i, fd, fs)));
    }
  }

  /** A zero frequency offset leaves a constant carrier of 1: the output is exactly 2·signal. */
  lemma ZeroOffset(signal: seq<real>, fs: real, cos: real -> real)
    requires fs != 0.0 && IsCosine(cos)
    ensures Demodulated(signal, 0.0, fs, cos) == seq(|signal|, i requires 0 <= i < |signal| => 2.0 * signal[i])
  {
    forall i | 0 <= i < |signal|
      ensures Demodulated(signal, 0.0, fs, cos)[i] == 2.0 * signal[i]
    {
      assert CarrierPhase(i, 0.0, fs) == 0.0;
    }
  }
}
