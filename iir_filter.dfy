/**
 * The recursive (IIR) filter of codes/Q3/src/iir_filter.rs.
 *
 * The Rust function keeps two delay lines, one of past inputs and one of past
 * outputs (a Direct Form I structure, although its comment says Direct Form II),
 * both zero at the start of every call, and evaluates
 *
 *   y[i] = ( Σ_{k < |b|} b[k]·x[i-k]  −  Σ_{1 ≤ k < |a|} a[k]·y[i-k] ) / a[0]
 *
 * with terms before the first sample taken as zero.
 */
module IirFilter {

  /** The value `k` samples before index `i` of `s`; 0.0 when that index lies before
      the start of `s` (the delay lines start at rest) or has not been produced yet. */
  function Delayed(s: seq<real>, i: int, k: nat): real
  {
    if 0 <= i - k < |s| then s[i - k] else 0.0
  }

  /** Σ_{lo ≤ k < hi} c[k]·Delayed(s, i, k), summed in increasing `k` like the inner loops. */
  function Taps(c: seq<real>, s: seq<real>, i: int, lo: nat, hi: nat): real
    requires hi <= |c|
    decreases hi
  {
    if hi <= lo then 0.0 else Taps(c, s, i, lo, hi - 1) + c[hi - 1] * Delayed(s, i, hi - 1)
  }

  /** A delay line of length `m` as it stands after sample `i`: slot `k` holds the
      value `k` samples back, zero where there is none. */
  function History(s: seq<real>, i: int, m: nat): (h: seq<real>)
    ensures |h| == m
  {
    seq(m, k requires 0 <= k => Delayed(s, i, k))
  }

  /** Shifting the line one place and putting the newest sample in front gives the
      line of the next step. */
  lemma HistoryStep(s: seq<real>, i: int, m: nat)
    requires m >= 1 && 0 <= i < |s|
    ensures History(s, i, m) == [s[i]] + History(s, i - 1, m)[..m - 1]
  {
  }

  /** The same for the output line, which grows by the value just computed. */
  lemma HistoryExtend(s: seq<real>, y: real, m: nat)
    requires m >= 1
    ensures History(s + [y], |s|, m) == [y] + History(s, |s| - 1, m)[..m - 1]
  {
  }

  /** Before sample `i` is computed, the output line seen from step `i` has nothing in slot 0. */
  lemma HistoryAhead(s: seq<real>, m: nat)
    requires m >= 1
    ensures History(s, |s|, m) == [0.0] + History(s, |s| - 1, m)[..m - 1]
  {
  }

  /** The model requires a normalising coefficient that is present and non-zero
      (the Rust code divides by `a[0]`). */
  predicate ValidDenominator(a: seq<real>)
  {
    |a| >= 1 && a[0] != 0.0
  }

  /** The first `m` outputs of the difference equation, each computed from the inputs
      and from the outputs already produced. */
  function Response(input: seq<real>, b: seq<real>, a: seq<real>, m: nat): (y: seq<real>)
    requires ValidDenominator(a) && m <= |input|
    ensures |y| == m
  {
    if m == 0 then []
    else
      var prev := Response(input, b, a, m - 1);
      prev + [(Taps(b, input, m - 1, 0, |b|) - Taps(a, prev, m - 1, 1, |a|)) / a[0]]
  }

  /** The whole output of `apply_filter`. */
  function Filtered(input: seq<real>, b: seq<real>, a: seq<real>): seq<real>
    requires ValidDenominator(a)
  {
    Response(input, b, a, |input|)
  }

  /** The inner reverse loop of `apply_filter`: both delay lines move one place
      towards the older end; slot 0 keeps its value until it is overwritten. */
  method ShiftHistories(xHistory: array<real>, yHistory: array<real>)
    requires xHistory != yHistory && xHistory.Length == yHistory.Length
    modifies xHistory, yHistory
    ensures xHistory.Length > 0 ==>
              xHistory[..] == [old(xHistory[0])] + old(xHistory[..])[..xHistory.Length - 1] &&
              yHistory[..] == [old(yHistory[0])] + old(yHistory[..])[..yHistory.Length - 1]
  {
    var j := xHistory.Length - 1;
    while j >= 1
      invariant 0 <= j < xHistory.Length || (j == -1 && xHistory.Length == 0)
      invariant forall k :: 0 <= k <= j ==> xHistory[k] == old(xHistory[k])
      invariant forall k :: 0 <= k <= j ==> yHistory[k] == old(yHistory[k])
      invariant forall k :: j < k < xHistory.Length ==> xHistory[k] == old(xHistory[k - 1])
      invariant forall k :: j < k < yHistory.Length ==> yHistory[k] == old(yHistory[k - 1])
    {
      xHistory[j] := xHistory[j - 1];
      yHistory[j] := yHistory[j - 1];
      j := j - 1;
    }
    if xHistory.Length > 0 {
      ShiftedByOne(xHistory[..], old(xHistory[..]));
      ShiftedByOne(yHistory[..], old(yHistory[..]));
    }
  }

  /** A sequence whose head is kept and whose other entries are each the one before. */
  lemma ShiftedByOne(now: seq<real>, before: seq<real>)
    requires |now| == |before| > 0 && now[0] == before[0]
    requires forall k :: 0 < k < |now| ==> now[k] == before[k - 1]
    ensures now == [before[0]] + before[..|before| - 1]
  {
  }

  /** The feedforward loop: Σ b[k]·x_history[k], where the history holds the inputs
      up to sample `i`, most recent first. */
  method FeedForward(b: seq<real>, xHistory: array<real>, ghost input: seq<real>, ghost i: int)
    returns (y: real)
    requires |b| <= xHistory.Length
    requires xHistory[..] == History(input, i, xHistory.Length)
    ensures y == Taps(b, input, i, 0, |b|)
  {
    y := 0.0;
    for k := 0 to |b|
      invariant y == Taps(b, input, i, 0, k)
    {
      y := y + b[k] * xHistory[k];
    }
  }

  /** The feedback loop: subtracts a[k]·y_history[k] for 1 ≤ k < |a|, where the
      history holds the outputs before sample `i`. */
  method Feedback(y0: real, a: seq<real>, yHistory: array<real>, ghost done: seq<real>, ghost i: int)
    returns (y: real)
    requires 1 <= |a| <= yHistory.Length
    requires yHistory[..][1..] == History(done, i, yHistory.Length)[1..]
    ensures y == y0 - Taps(a, done, i, 1, |a|)
  {
    y := y0;
    for k := 1 to |a|
      invariant y == y0 - Taps(a, done, i, 1, k)
    {
      assert yHistory[..][1..][k - 1] == yHistory[k];
      y := y - a[k] * yHistory[k];
    }
  }

  /** The difference equation at sample `i`, read off the two delay lines once the
      newest input is in place: feedforward, feedback, then the division by `a[0]`. */
  method NextOutput(b: seq<real>, a: seq<real>, xHistory: array<real>, yHistory: array<real>,
                    ghost input: seq<real>, ghost done: seq<real>, ghost i: nat)
    returns (y: real)
    requires ValidDenominator(a) && i == |done|
    requires xHistory.Length == yHistory.Length >= |b| && yHistory.Length >= |a|
    requires xHistory[..] == History(input, i, xHistory.Length)
    requires yHistory[..][1..] == History(done, i, yHistory.Length)[1..]
    ensures y == (Taps(b, input, i, 0, |b|) - Taps(a, done, i, 1, |a|)) / a[0]
  {
    y := FeedForward(b, xHistory, input, i);
    y := Feedback(y, a, yHistory, done, i);
    y := y / a[0];
  }

  /** The start of one pass of the sample loop: both delay lines move one place and
      sample `i` enters the input line; the output line's older entries are those of
      the outputs before sample `i`. */
  method TakeInput(input: seq<real>, i: nat, xHistory: array<real>, yHistory: array<real>,
                   ghost done: seq<real>)
    requires i < |input| && |done| == i
    requires xHistory != yHistory && xHistory.Length == yHistory.Length >= 1
    requires xHistory[..] == History(input, i - 1, xHistory.Length)
    requires yHistory[..] == History(done, i - 1, yHistory.Length)
    modifies xHistory, yHistory
    ensures xHistory[..] == History(input, i, xHistory.Length)
    ensures yHistory[..][1..] == History(done, i - 1, yHistory.Length)[..yHistory.Length - 1]
    ensures yHistory[0] == old(yHistory[0])
  {
    ShiftHistories(xHistory, yHistory);
    xHistory[0] := input[i];
    HistoryStep(input, i, xHistory.Length);
  }

  /** One pass of the sample loop of `apply_filter`: shift both delay lines, take in
      sample `i`, evaluate the difference equation and record the output. */
  method FilterSample(input: seq<real>, b: seq<real>, a: seq<real>, i: nat,
                      out: array<real>, xHistory: array<real>, yHistory: array<real>)
    requires ValidDenominator(a) && i < |input| == out.Length
    requires out != xHistory && out != yHistory && xHistory != yHistory
    requires xHistory.Length == yHistory.Length >= |b| && yHistory.Length >= |a|
    requires out[..i] == Response(input, b, a, i)
    requires xHistory[..] == History(input, i - 1, xHistory.Length)
    requires yHistory[..] == History(out[..i], i - 1, yHistory.Length)
    modifies out, xHistory, yHistory
    ensures out[..i + 1] == Response(input, b, a, i + 1)
    ensures xHistory[..] == History(input, i, xHistory.Length)
    ensures yHistory[..] == History(out[..i + 1], i, yHistory.Length)
    ensures out[i + 1..] == old(out[i + 1..])
  {
    var order := xHistory.Length;
    ghost var done, later := out[..i], out[i + 1..];
    TakeInput(input, i, xHistory, yHistory, done);
    HistoryAhead(done, order);
    var y := NextOutput(b, a, xHistory, yHistory, input, done, i);
    yHistory[0] := y;
    out[i] := y;
    assert out[..i + 1] == done + [y] && out[i + 1..] == later;
    HistoryExtend(done, y, order);
  }

  /** `apply_filter`: delay lines shifted in place, one output per input sample. */
  method ApplyFilter(input: seq<real>, b: seq<real>, a: seq<real>) returns (output: seq<real>)
    requires ValidDenominator(a)
    ensures |output| == |input|
    ensures output == Filtered(input, b, a)
  {
    var n := |input|;
    var out := new real[n](_ => 0.0);
    var order := if |b| > |a| then |b| else |a|;
    var xHistory := new real[order](_ => 0.0);
    var yHistory := new real[order](_ => 0.0);
    for i := 0 to n
      invariant out[..i] == Response(input, b, a, i)
      invariant xHistory[..] == History(input, i - 1, order)
      invariant yHistory[..] == History(out[..i], i - 1, order)
    {
      FilterSample(input, b, a, i, out, xHistory, yHistory);
    }
    output := out[..];
    assert output == out[..n];
  }

  // ---------------------------------------------------------------------------
  // Properties of the difference equation

  /** Sums over taps whose delayed samples agree are equal. */
  lemma {:induction false} TapsAgree(c: seq<real>, s: seq<real>, t: seq<real>, i: int, lo: nat, hi: nat)
    requires hi <= |c|
    requires forall k :: lo <= k < hi ==> Delayed(s, i, k) == Delayed(t, i, k)
    ensures Taps(c, s, i, lo, hi) == Taps(c, t, i, lo, hi)
  {
    if lo < hi {
      TapsAgree(c, s, t, i, lo, hi - 1);
    }
  }

  /** Taps that only see silence sum to zero. */
  lemma {:induction false} TapsSilent(c: seq<real>, s: seq<real>, i: int, lo: nat, hi: nat)
    requires hi <= |c|
    requires forall k :: lo <= k < hi ==> Delayed(s, i, k) == 0.0
    ensures Taps(c, s, i, lo, hi) == 0.0
  {
    if lo < hi {
      TapsSilent(c, s, i, lo, hi - 1);
    }
  }

  /** Outputs already produced are never revised: a shorter run is a prefix of a longer one. */
  lemma {:induction false} ResponsePrefix(input: seq<real>, b: seq<real>, a: seq<real>, m: nat, m2: nat)
    requires ValidDenominator(a) && m <= m2 <= |input|
    ensures Response(input, b, a, m2)[..m] == Response(input, b, a, m)
    decreases m2
  {
    if m < m2 {
      ResponsePrefix(input, b, a, m, m2 - 1);
      var prev := Response(input, b, a, m2 - 1);
      assert Response(input, b, a, m2)[..m2 - 1] == prev;
      assert Response(input, b, a, m2)[..m] == prev[..m];
    }
  }

  /** The difference equation over the whole output: sample `i` is the feedforward sum
      of the inputs minus the feedback sum of the outputs `1..|a|-1` places earlier,
      divided by a[0]; the feedback never looks at sample `i` itself or later ones. */
  lemma FilteredEquation(input: seq<real>, b: seq<real>, a: seq<real>, i: nat)
    requires ValidDenominator(a) && i < |input|
    ensures |Filtered(input, b, a)| == |input|
    ensures Filtered(input, b, a)[i] ==
              (Taps(b, input, i, 0, |b|) - Taps(a, Filtered(input, b, a), i, 1, |a|)) / a[0]
  {
    var y := Filtered(input, b, a);
    ResponsePrefix(input, b, a, i, |input|);
    ResponsePrefix(input, b, a, i + 1, |input|);
    var prev := Response(input, b, a, i);
    assert y[i] == Response(input, b, a, i + 1)[i];
    forall k | 1 <= k < |a|
      ensures Delayed(prev, i, k) == Delayed(y, i, k)
    {
      assert prev == y[..i];
    }
    TapsAgree(a, prev, y, i, 1, |a|);
  }

  /** Only the zero-delay tap sees anything at the first sample. */
  lemma {:induction false} TapsAtStart(c: seq<real>, s: seq<real>, hi: nat)
    requires 1 <= hi <= |c| && |s| >= 1
    ensures Taps(c, s, 0, 0, hi) == c[0] * s[0]
  {
    if hi > 1 {
      TapsAtStart(c, s, hi - 1);
    }
  }

  /** The filter starts at rest: the first output is b[0]·x[0]/a[0]. */
  lemma FirstOutput(input: seq<real>, b: seq<real>, a: seq<real>)
    requires ValidDenominator(a) && |input| >= 1 && |b| >= 1
    ensures Filtered(input, b, a)[0] == b[0] * input[0] / a[0]
  {
    ResponsePrefix(input, b, a, 1, |input|);
    TapsAtStart(b, input, |b|);
    TapsSilent(a, [], 0, 1, |a|);
  }

  /** Silence in, silence out. */
  lemma {:induction false} SilentResponse(input: seq<real>, b: seq<real>, a: seq<real>, m: nat)
    requires ValidDenominator(a) && m <= |input|
    requires forall j :: 0 <= j < |input| ==> input[j] == 0.0
    ensures forall j :: 0 <= j < m ==> Response(input, b, a, m)[j] == 0.0
  {
    if m > 0 {
      SilentResponse(input, b, a, m - 1);
      var prev := Response(input, b, a, m - 1);
      TapsSilent(b, input, m - 1, 0, |b|);
      TapsSilent(a, prev, m - 1, 1, |a|);
    }
  }

  lemma SilentInput(input: seq<real>, b: seq<real>, a: seq<real>)
    requires ValidDenominator(a)
    requires forall j :: 0 <= j < |input| ==> input[j] == 0.0
    ensures forall j :: 0 <= j < |input| ==> Filtered(input, b, a)[j] == 0.0
  {
    SilentResponse(input, b, a, |input|);
  }

  /** The two-tap moving average y[i] = 0.5·x[i] + 0.5·x[i-1] on 1, 2, 3, 4, 5. */
  lemma MovingAverage()
    ensures Filtered([1.0, 2.0, 3.0, 4.0, 5.0], [0.5, 0.5], [1.0]) == [0.5, 1.5, 2.5, 3.5, 4.5]
  {
    var x, b, a := [1.0, 2.0, 3.0, 4.0, 5.0], [0.5, 0.5], [1.0];
    var expected := [0.5, 1.5, 2.5, 3.5, 4.5];
    for m := 0 to 5
      invariant Response(x, b, a, m) == expected[..m]
    {
      assert Taps(b, x, m, 0, 1) == 0.5 * x[m];
      assert Taps(b, x, m, 0, 2) == 0.5 * x[m] + 0.5 * Delayed(x, m, 1);
      assert expected[..m + 1] == expected[..m] + [expected[m]];
    }
  }
}
