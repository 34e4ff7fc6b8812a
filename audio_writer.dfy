/**
 * The sample path of `write_wav` (codes/Q3/src/audio_writer.rs): peak normalisation to
 * 0.95 of full scale, then per sample a scale, a clamp and a truncating cast to i16.
 * The WAV writer is modelled as the sequence of the integers written to it, in order;
 * creating and finalising the file are left out.
 */
module AudioWriter {
  import opened Numerics

  /** Headroom: the loudest sample is scaled to this fraction of full scale. */
  const Headroom: real := 0.95

  /** i16::MAX, the factor from [-1, 1] to sample values. */
  const FullScale: real := 32767.0

  function Max(x: real, y: real): (m: real)
    ensures m >= x && m >= y && (m == x || m == y)
  {
    if x >= y then x else y
  }

  /** The peak magnitude: the fold of max(|x|) over the samples, starting from 0. */
  function Peak(samples: seq<real>): (p: real)
    ensures p >= 0.0
    ensures forall i :: 0 <= i < |samples| ==> Abs(samples[i]) <= p
    ensures p == 0.0 || exists i :: 0 <= i < |samples| && p == Abs(samples[i])
  {
    if samples == [] then 0.0
    else
      var init := samples[..|samples| - 1];
      var p := Peak(init);
      assert forall i :: 0 <= i < |init| ==> samples[i] == init[i];
      Max(p, Abs(samples[|samples| - 1]))
  }

  /** The normalising factor: 0.95 / peak, or 1 for a silent signal. */
  function NormalizationScale(peak: real): real
  {
    if peak > 0.0 then Headroom / peak else 1.0
  }

  /** One output sample: `(x · 32767).clamp(-32768, 32767) as i16`. */
  function Quantize(x: real): (k: int)
    ensures -32768 <= k <= 32767
  {
    TruncateTowardZero(Clamp(x * FullScale, -32768.0, 32767.0))
  }

  /** Every sample multiplied by `scale`. */
  function Scaled(samples: seq<real>, scale: real): (r: seq<real>)
    ensures |r| == |samples|
    ensures forall i :: 0 <= i < |samples| ==> r[i] == samples[i] * scale
  {
    seq(|samples|, i requires 0 <= i < |samples| => samples[i] * scale)
  }

  /** The samples after peak normalisation. */
  function Normalized(samples: seq<real>): (r: seq<real>)
    ensures |r| == |samples|
  {
    Scaled(samples, NormalizationScale(Peak(samples)))
  }

  /** The values written for already scaled samples, one per sample, in order. */
  function Quantized(xs: seq<real>): (w: seq<int>)
    ensures |w| == |xs|
  {
    if xs == [] then [] else Quantized(xs[..|xs| - 1]) + [Quantize(xs[|xs| - 1])]
  }

  /** Value i written is sample i quantised. */
  lemma {:induction false} QuantizedAt(xs: seq<real>, i: nat)
    requires i < |xs|
    ensures Quantized(xs)[i] == Quantize(xs[i])
  {
    var init := xs[..|xs| - 1];
    if i < |init| {
      QuantizedAt(init, i);
      assert xs[i] == init[i];
    }
  }

  /** `write_wav`'s sample path: find the peak, derive the scale, write every sample. */
  method WriteSamples(samples: seq<real>) returns (written: seq<int>)
    ensures written == Quantized(Normalized(samples))
  {
    var maxVal := Peak(samples);
    var scale := if maxVal > 0.0 then 0.95 / maxVal else 1.0;
    assert scale == NormalizationScale(maxVal);
    written := WriteScaled(samples, scale);
  }

  /** The sample loop of `write_wav`: each sample scaled, quantised and written in order. */
  method WriteScaled(samples: seq<real>, scale: real) returns (written: seq<int>)
    ensures written == Quantized(Scaled(samples, scale))
  {
    ghost var normalizedAll := Scaled(samples, scale);
    written := [];
    for i := 0 to |samples|
      invariant written == Quantized(normalizedAll[..i])
    {
      var normalized := samples[i] * scale;
      var sampleI16 := Quantize(normalized);
      assert normalizedAll[i] == normalized;
      assert normalizedAll[..i + 1] == normalizedAll[..i] + [normalized];
      written := written + [sampleI16];
    }
    assert normalizedAll[..|samples|] == normalizedAll;
  }

  /** A sample within the peak, scaled by 0.95 / peak, is within ±0.95. */
  lemma ScaledWithinHeadroom(x: real, p: real)
    requires p > 0.0 && Abs(x) <= p
    ensures Abs(x * (Headroom / p)) <= Headroom
  {
    var s := Headroom / p;
    assert p * s == Headroom;
    if x >= 0.0 {
      MulNonneg(x, s);
      MulNonneg(p - x, s);
    } else {
      MulNonneg(-x, s);
      MulNonneg(p + x, s);
    }
  }

  /** The peak itself, scaled by 0.95 / peak, is ±0.95. */
  lemma PeakScaled(x: real, p: real)
    requires p > 0.0 && Abs(x) == p
    ensures x * (Headroom / p) == if x > 0.0 then Headroom else -Headroom
  {
    var s := Headroom / p;
    assert p * s == Headroom;
    if x < 0.0 {
      assert x * s == -(p * s);
    }
  }

  /** A sample within a peak, scaled by that peak's normalising factor, is within ±0.95,
      and one at the peak is at exactly ±0.95. */
  lemma SampleWithinHeadroom(x: real, p: real)
    requires Abs(x) <= p
    ensures Abs(x * NormalizationScale(p)) <= Headroom
    ensures p > 0.0 && Abs(x) == p ==> x * NormalizationScale(p) == if x > 0.0 then Headroom else -Headroom
  {
    if p > 0.0 {
      ScaledWithinHeadroom(x, p);
      if Abs(x) == p {
        PeakScaled(x, p);
      }
    } else {
      assert x == 0.0;
    }
  }

  /** Scaling by the normalising factor of a peak that bounds sample i keeps it within
      ±0.95, and puts it at exactly ±0.95 when it is at the peak. */
  lemma ScaledSampleWithinHeadroom(samples: seq<real>, p: real, i: nat)
    requires i < |samples| && Abs(samples[i]) <= p
    ensures Abs(Scaled(samples, NormalizationScale(p))[i]) <= Headroom
    ensures p > 0.0 && Abs(samples[i]) == p ==>
      Scaled(samples, NormalizationScale(p))[i] == if samples[i] > 0.0 then Headroom else -Headroom
  {
    SampleWithinHeadroom(samples[i], p);
  }

  /** After normalisation every sample lies within ±0.95, and the loudest at exactly ±0.95. */
  lemma NormalizedWithinHeadroom(samples: seq<real>, i: nat)
    requires i < |samples|
    ensures Abs(Normalized(samples)[i]) <= Headroom
    ensures Peak(samples) > 0.0 && Abs(samples[i]) == Peak(samples) ==>
      Normalized(samples)[i] == if samples[i] > 0.0 then Headroom else -Headroom
  {
    var p := Peak(samples);
    ScaledSampleWithinHeadroom(samples, p, i);
  }

  /** Inside ±1 the clamp never engages, so a sample is its truncated scaled value. */
  lemma QuantizeUnclamped(x: real)
    requires Abs(x) <= 1.0
    ensures Quantize(x) == TruncateTowardZero(x * FullScale)
  {
    if x >= 0.0 {
      MulNonneg(1.0 - x, FullScale);
    } else {
      MulNonneg(1.0 + x, FullScale);
    }
  }

  /** Within the headroom, a sample is written within ±31128 = ⌊0.95 · 32767⌋, and the
      extremes ±0.95 are written exactly there. */
  lemma QuantizeWithinHeadroom(x: real)
    requires Abs(x) <= Headroom
    ensures -31128 <= Quantize(x) <= 31128
    ensures Quantize(Headroom) == 31128 && Quantize(-Headroom) == -31128
  {
    QuantizeUnclamped(x);
    QuantizeUnclamped(Headroom);
    QuantizeUnclamped(-Headroom);
    if x >= 0.0 {
      MulNonneg(Headroom - x, FullScale);
    } else {
      MulNonneg(Headroom + x, FullScale);
    }
  }

  /** Every written value is an i16, indeed within ±31128 (the clamp never engages), and
      the loudest sample is written at ±31128. */
  lemma WrittenInRange(samples: seq<real>, i: nat)
    requires i < |samples|
    ensures -31128 <= Quantized(Normalized(samples))[i] <= 31128
    ensures Peak(samples) > 0.0 && Abs(samples[i]) == Peak(samples) ==>
      Quantized(Normalized(samples))[i] == if samples[i] > 0.0 then 31128 else -31128
  {
    var xs := Normalized(samples);
    NormalizedWithinHeadroom(samples, i);
    QuantizedAt(xs, i);
    QuantizeWithinHeadroom(xs[i]);
  }

  /** A silent input is written as silence. */
  lemma SilenceStaysSilent(samples: seq<real>, i: nat)
    requires forall k :: 0 <= k < |samples| ==> samples[k] == 0.0
    requires i < |samples|
    ensures Peak(samples) == 0.0 && NormalizationScale(Peak(samples)) == 1.0
    ensures Quantized(Normalized(samples))[i] == 0
  {
    PeakOfSilence(samples);
    var xs := Normalized(samples);
    assert xs[i] == 0.0 * 1.0;
    QuantizedAt(xs, i);
  }

  lemma {:induction false} PeakOfSilence(samples: seq<real>)
    requires forall i :: 0 <= i < |samples| ==> samples[i] == 0.0
    ensures Peak(samples) == 0.0
  {
    if samples != [] {
      PeakOfSilence(samples[..|samples| - 1]);
    }
  }
}
