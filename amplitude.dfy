/**
  The per-sample formulas of `adjust_amplitude` and the bookkeeping of its
  random draws. A sample qualifies when its magnitude is strictly above the
  noise floor; each qualifying sample consumes one draw, in index order, so the
  draw used by sample `i` is the number of qualifying samples before it.
 */
module Amplitude {
  import opened Samples

  /** `max(0, min(1, x))`. */
  function Clamp01(x: real): real {
    if x < 0.0 then 0.0 else if x > 1.0 then 1.0 else x
  }

  /** The smooth transition factor for a sample of magnitude `absVal`:
      `(absVal - floor) / (smooth * (max - floor))` clamped to [0, 1].
      A zero denominator is written out as the float division gives it. The
      product is -0.0 when one factor is negative (`smooth < 0` or
      `max < floor`) and +0.0 otherwise; a non-zero numerator divided by it
      is an infinity of the combined sign, which the clamp turns into 1 (+inf)
      or 0 (-inf). A zero numerator gives NaN, and `min(1, NaN)` keeps the 1. */
  function TransitionFactor(absVal: real, nfloorAmp: real, maxAmp: real, smoothAmpFrac: real): (t: real)
    ensures 0.0 <= t <= 1.0
  {
    var num := absVal - nfloorAmp;
    var denom := smoothAmpFrac * (maxAmp - nfloorAmp);
    if denom == 0.0 then
      var negativeZero := smoothAmpFrac < 0.0 || maxAmp < nfloorAmp;
      if num == 0.0 || (num > 0.0 <==> !negativeZero) then 1.0 else 0.0
    else Clamp01(num / denom)
  }

  /** Above the floor a zero denominator gives the factor 1 when it is +0.0
      and 0 when it is -0.0: with a negative smoothing fraction or a peak
      below the floor the sample keeps its value. */
  lemma ZeroDenominatorFactor(absVal: real, nfloorAmp: real, maxAmp: real, smoothAmpFrac: real)
    requires smoothAmpFrac * (maxAmp - nfloorAmp) == 0.0
    requires absVal > nfloorAmp
    ensures TransitionFactor(absVal, nfloorAmp, maxAmp, smoothAmpFrac) == 1.0
            <==> smoothAmpFrac >= 0.0 && maxAmp >= nfloorAmp
    ensures TransitionFactor(absVal, nfloorAmp, maxAmp, smoothAmpFrac) == 0.0
            <==> smoothAmpFrac < 0.0 || maxAmp < nfloorAmp
  {
  }

  /** `min(1, x)` and `max(1, x)`. */
  function MinOne(x: real): real {
    if x < 1.0 then x else 1.0
  }

  function MaxOne(x: real): real {
    if x < 1.0 then 1.0 else x
  }

  /** The multiplier `(1 - t) + t * r` blending "unchanged" with the draw `r`. */
  function Gain(t: real, r: real): real {
    (1.0 - t) + t * r
  }

  /** The new value of a sample above the floor: its transition factor from
      its magnitude, the gain from that factor and the draw `r`, and the sample
      times that gain. */
  function ScaledSample(x: real, nfloorAmp: real, maxAmp: real, smoothAmpFrac: real, r: real): real {
    x * Gain(TransitionFactor(Abs(x), nfloorAmp, maxAmp, smoothAmpFrac), r)
  }

  /** Number of samples strictly above the floor. */
  function CountAboveFloor(s: seq<real>, nfloorAmp: real): (c: nat)
    ensures c <= |s|
  {
    if |s| == 0 then 0
    else CountAboveFloor(s[..|s| - 1], nfloorAmp) + (if Abs(s[|s| - 1]) > nfloorAmp then 1 else 0)
  }

  /** Index of the draw consumed by sample `i` if it is above the floor: the
      number of samples above the floor before it. */
  function DrawIndex(s: seq<real>, nfloorAmp: real, i: nat): nat
    requires i <= |s|
  {
    CountAboveFloor(s[..i], nfloorAmp)
  }

  lemma DrawIndexStep(s: seq<real>, nfloorAmp: real, i: nat)
    requires i < |s|
    ensures DrawIndex(s, nfloorAmp, i + 1) == DrawIndex(s, nfloorAmp, i) + (if Abs(s[i]) > nfloorAmp then 1 else 0)
  {
    assert s[..i + 1][..i] == s[..i];
  }

  lemma DrawIndexAtEnd(s: seq<real>, nfloorAmp: real)
    ensures DrawIndex(s, nfloorAmp, |s|) == CountAboveFloor(s, nfloorAmp)
  {
    assert s[..|s|] == s;
  }

  /** The value sample `i` takes after the adjustment. */
  function AdjustedAt(s: seq<real>, nfloorAmp: real, maxAmp: real, smoothAmpFrac: real, draws: seq<real>, i: nat): real
    requires CountAboveFloor(s, nfloorAmp) <= |draws|
    requires i < |s|
  {
    if Abs(s[i]) > nfloorAmp then
      DrawOrder(s, nfloorAmp, i, |s|);
      DrawIndexAtEnd(s, nfloorAmp);
      ScaledSample(s[i], nfloorAmp, maxAmp, smoothAmpFrac, draws[DrawIndex(s, nfloorAmp, i)])
    else s[i]
  }

  /** The first `n` samples of the adjusted signal. */
  function AdjustedUpTo(s: seq<real>, nfloorAmp: real, maxAmp: real, smoothAmpFrac: real, draws: seq<real>, n: nat): (a: seq<real>)
    requires CountAboveFloor(s, nfloorAmp) <= |draws|
    requires n <= |s|
    ensures |a| == n
  {
    if n == 0 then []
    else AdjustedUpTo(s, nfloorAmp, maxAmp, smoothAmpFrac, draws, n - 1) + [AdjustedAt(s, nfloorAmp, maxAmp, smoothAmpFrac, draws, n - 1)]
  }

  /** The adjusted signal. */
  function Adjusted(s: seq<real>, nfloorAmp: real, maxAmp: real, smoothAmpFrac: real, draws: seq<real>): (a: seq<real>)
    requires CountAboveFloor(s, nfloorAmp) <= |draws|
    ensures |a| == |s|
  {
    AdjustedUpTo(s, nfloorAmp, maxAmp, smoothAmpFrac, draws, |s|)
  }

  /** Each sample of a prefix of the adjusted signal is the adjusted value of
      that sample. */
  lemma {:induction false} AdjustedUpToAt(s: seq<real>, nfloorAmp: real, maxAmp: real, smoothAmpFrac: real, draws: seq<real>, n: nat, t: nat)
    requires CountAboveFloor(s, nfloorAmp) <= |draws|
    requires t < n <= |s|
    ensures AdjustedUpTo(s, nfloorAmp, maxAmp, smoothAmpFrac, draws, n)[t] == AdjustedAt(s, nfloorAmp, maxAmp, smoothAmpFrac, draws, t)
  {
    if t < n - 1 {
      AdjustedUpToAt(s, nfloorAmp, maxAmp, smoothAmpFrac, draws, n - 1, t);
    }
  }

  /** A sample above the floor is scaled with its own draw. */
  lemma AdjustedAboveFloor(s: seq<real>, nfloorAmp: real, maxAmp: real, smoothAmpFrac: real, draws: seq<real>, i: nat)
    requires CountAboveFloor(s, nfloorAmp) <= |draws|
    requires i < |s| && Abs(s[i]) > nfloorAmp
    ensures DrawIndex(s, nfloorAmp, i) < CountAboveFloor(s, nfloorAmp)
    ensures AdjustedAt(s, nfloorAmp, maxAmp, smoothAmpFrac, draws, i)
            == ScaledSample(s[i], nfloorAmp, maxAmp, smoothAmpFrac, draws[DrawIndex(s, nfloorAmp, i)])
  {
    DrawOrder(s, nfloorAmp, i, |s|);
    DrawIndexAtEnd(s, nfloorAmp);
  }

  /** A sample at or below the floor keeps its value. */
  lemma AdjustedAtOrBelowFloor(s: seq<real>, nfloorAmp: real, maxAmp: real, smoothAmpFrac: real, draws: seq<real>, i: nat)
    requires CountAboveFloor(s, nfloorAmp) <= |draws|
    requires i < |s| && Abs(s[i]) <= nfloorAmp
    ensures AdjustedAt(s, nfloorAmp, maxAmp, smoothAmpFrac, draws, i) == s[i]
  {
  }

  /** A signal consumes no draw exactly when no sample is above the floor. */
  lemma {:induction false} NoDrawsIffAllAtOrBelowFloor(s: seq<real>, nfloorAmp: real)
    ensures CountAboveFloor(s, nfloorAmp) == 0 <==> forall k :: 0 <= k < |s| ==> Abs(s[k]) <= nfloorAmp
  {
    if |s| > 0 {
      var init := s[..|s| - 1];
      NoDrawsIffAllAtOrBelowFloor(init, nfloorAmp);
      assert forall k :: 0 <= k < |s| - 1 ==> init[k] == s[k];
    }
  }

  /** Draws are consumed in index order: a qualifying sample `i` uses a draw
      strictly before every draw consumed up to any later index `j`. */
  lemma {:induction false} DrawOrder(s: seq<real>, nfloorAmp: real, i: nat, j: nat)
    requires i < j <= |s|
    requires Abs(s[i]) > nfloorAmp
    ensures DrawIndex(s, nfloorAmp, i) < DrawIndex(s, nfloorAmp, j)
  {
    DrawIndexStep(s, nfloorAmp, j - 1);
    if i < j - 1 {
      DrawOrder(s, nfloorAmp, i, j - 1);
    }
  }

  /** Every draw below the total count is consumed by some qualifying sample. */
  lemma {:induction false} EveryDrawUsed(s: seq<real>, nfloorAmp: real, d: nat)
    requires d < CountAboveFloor(s, nfloorAmp)
    ensures exists i :: 0 <= i < |s| && Abs(s[i]) > nfloorAmp && DrawIndex(s, nfloorAmp, i) == d
  {
    var n := |s|;
    var init := s[..n - 1];
    if d < CountAboveFloor(init, nfloorAmp) {
      EveryDrawUsed(init, nfloorAmp, d);
      var i :| 0 <= i < |init| && Abs(init[i]) > nfloorAmp && DrawIndex(init, nfloorAmp, i) == d;
      assert init[..i] == s[..i];
      assert init[i] == s[i];
    } else {
      assert s[..n - 1] == init;
      assert Abs(s[n - 1]) > nfloorAmp && DrawIndex(s, nfloorAmp, n - 1) == d;
    }
  }

  /** For a factor in [0, 1] the gain lies between 1 and the draw. */
  lemma GainBetweenOneAndDraw(t: real, r: real)
    requires 0.0 <= t <= 1.0
    ensures MinOne(r) <= Gain(t, r) <= MaxOne(r)
  {
    assert Gain(t, r) - 1.0 == t * (r - 1.0);
    if r < 1.0 {
      MulNonNegative(t, 1.0 - r);
      MulNonNegative(1.0 - t, 1.0 - r);
    } else {
      MulNonNegative(t, r - 1.0);
      MulNonNegative(1.0 - t, r - 1.0);
    }
  }

  lemma MulNonNegative(a: real, b: real)
    requires 0.0 <= a && 0.0 <= b
    ensures 0.0 <= a * b
  {
  }

  /** For a draw from `[lo, hi]` the gain lies in `[min(1, lo), max(1, hi)]`. */
  lemma GainWithinAdjustRange(t: real, r: real, lo: real, hi: real)
    requires 0.0 <= t <= 1.0
    requires lo <= r <= hi
    ensures MinOne(lo) <= Gain(t, r) <= MaxOne(hi)
  {
    GainBetweenOneAndDraw(t, r);
  }

  lemma AbsOfScaled(x: real, g: real)
    requires 0.0 <= g
    ensures Abs(x * g) == Abs(x) * g
    ensures 0.0 <= x ==> 0.0 <= x * g
    ensures x <= 0.0 ==> x * g <= 0.0
  {
    if x < 0.0 {
      assert x * g == -((-x) * g);
      MulNonNegative(-x, g);
    } else {
      MulNonNegative(x, g);
    }
  }

  lemma MulMonotone(a: real, b: real, c: real)
    requires a <= b && 0.0 <= c
    ensures a * c <= b * c
  {
    MulNonNegative(b - a, c);
  }

  /** `|v|` is `|x|` scaled by a factor in `[min(1, lo), max(1, hi)]`. */
  predicate MagnitudeScaled(x: real, v: real, lo: real, hi: real) {
    MinOne(lo) * Abs(x) <= Abs(v) <= MaxOne(hi) * Abs(x)
  }

  /** An unchanged sample is trivially within those bounds. */
  lemma UnchangedWithinScale(x: real, lo: real, hi: real)
    ensures MagnitudeScaled(x, x, lo, hi)
  {
    MulMonotone(MinOne(lo), 1.0, Abs(x));
    MulMonotone(1.0, MaxOne(hi), Abs(x));
  }

  /** For a draw `r` in `[lo, hi]` with `lo >= 0`, the scaled sample `v` keeps
      the sign of `x` and its magnitude is `|x|` scaled by a factor in
      `[min(1, lo), max(1, hi)]`. */
  lemma ScaledSampleWithinRange(x: real, nfloorAmp: real, maxAmp: real, smoothAmpFrac: real, r: real, lo: real, hi: real, v: real)
    requires 0.0 <= lo <= r <= hi
    requires v == ScaledSample(x, nfloorAmp, maxAmp, smoothAmpFrac, r)
    ensures 0.0 <= x ==> 0.0 <= v
    ensures x <= 0.0 ==> v <= 0.0
    ensures MagnitudeScaled(x, v, lo, hi)
  {
    var t := TransitionFactor(Abs(x), nfloorAmp, maxAmp, smoothAmpFrac);
    var g := Gain(t, r);
    GainWithinAdjustRange(t, r, lo, hi);
    ScaledBounds(x, g, MinOne(lo), MaxOne(hi), v);
  }

  /** Scaling by a non-negative gain `g` in `[gl, gh]` keeps the sign and
      scales the magnitude by a factor in that interval. */
  lemma ScaledBounds(x: real, g: real, gl: real, gh: real, v: real)
    requires 0.0 <= gl <= g <= gh
    requires v == x * g
    ensures 0.0 <= x ==> 0.0 <= v
    ensures x <= 0.0 ==> v <= 0.0
    ensures gl * Abs(x) <= Abs(v) <= gh * Abs(x)
  {
    AbsOfScaled(x, g);
    MulMonotone(gl, g, Abs(x));
    MulMonotone(g, gh, Abs(x));
    assert Abs(x) * g == g * Abs(x);
  }

  /** With non-negative draws, bounded above or not, the adjustment never
      flips the sign of a sample, and a sample at or below the floor is left
      as it is. (`AdjustedMagnitudeWithinRange` adds the magnitude bound when
      the draws also have an upper bound.) */
  lemma AdjustedKeepsSign(s: seq<real>, nfloorAmp: real, maxAmp: real, smoothAmpFrac: real, draws: seq<real>, i: nat)
    requires CountAboveFloor(s, nfloorAmp) <= |draws|
    requires forall d :: 0 <= d < |draws| ==> 0.0 <= draws[d]
    requires i < |s|
    ensures var a := Adjusted(s, nfloorAmp, maxAmp, smoothAmpFrac, draws);
            && (Abs(s[i]) <= nfloorAmp ==> a[i] == s[i])
            && (0.0 <= s[i] ==> 0.0 <= a[i])
            && (s[i] <= 0.0 ==> a[i] <= 0.0)
  {
    AdjustedUpToAt(s, nfloorAmp, maxAmp, smoothAmpFrac, draws, |s|, i);
    if Abs(s[i]) > nfloorAmp {
      AdjustedAboveFloor(s, nfloorAmp, maxAmp, smoothAmpFrac, draws, i);
      var r := draws[DrawIndex(s, nfloorAmp, i)];
      ScaledSampleWithinRange(s[i], nfloorAmp, maxAmp, smoothAmpFrac, r, 0.0, r,
                              Adjusted(s, nfloorAmp, maxAmp, smoothAmpFrac, draws)[i]);
    } else {
      AdjustedFrame(s, nfloorAmp, maxAmp, smoothAmpFrac, draws, i);
    }
  }

  /** Whatever the draws, a sample at or below the floor keeps its value in
      the adjusted signal. */
  lemma AdjustedFrame(s: seq<real>, nfloorAmp: real, maxAmp: real, smoothAmpFrac: real, draws: seq<real>, i: nat)
    requires CountAboveFloor(s, nfloorAmp) <= |draws|
    requires i < |s| && Abs(s[i]) <= nfloorAmp
    ensures Adjusted(s, nfloorAmp, maxAmp, smoothAmpFrac, draws)[i] == s[i]
  {
    AdjustedUpToAt(s, nfloorAmp, maxAmp, smoothAmpFrac, draws, |s|, i);
    AdjustedAtOrBelowFloor(s, nfloorAmp, maxAmp, smoothAmpFrac, draws, i);
  }

  /** The ends of `random.uniform(a, b)`, which draws between `a` and `b`
      whichever of the two is larger. */
  function RangeLow(range: (real, real)): real {
    if range.0 <= range.1 then range.0 else range.1
  }

  function RangeHigh(range: (real, real)): real {
    if range.0 <= range.1 then range.1 else range.0
  }

  /** Every draw lies in `[lo, hi]`. */
  predicate DrawsWithin(draws: seq<real>, lo: real, hi: real) {
    forall d :: 0 <= d < |draws| ==> lo <= draws[d] <= hi
  }

  /** The gain sample `i` is multiplied by: the blend of 1 and its own draw
      above the floor, and 1 at or below it. */
  function SampleGain(s: seq<real>, nfloorAmp: real, maxAmp: real, smoothAmpFrac: real, draws: seq<real>, i: nat): real
    requires CountAboveFloor(s, nfloorAmp) <= |draws|
    requires i < |s|
  {
    if Abs(s[i]) > nfloorAmp then
      AdjustedAboveFloor(s, nfloorAmp, maxAmp, smoothAmpFrac, draws, i);
      Gain(TransitionFactor(Abs(s[i]), nfloorAmp, maxAmp, smoothAmpFrac), draws[DrawIndex(s, nfloorAmp, i)])
    else 1.0
  }

  /** The adjusted value of a sample is the sample times its gain. */
  lemma AdjustedAtIsScaledByGain(s: seq<real>, nfloorAmp: real, maxAmp: real, smoothAmpFrac: real, draws: seq<real>, i: nat)
    requires CountAboveFloor(s, nfloorAmp) <= |draws|
    requires i < |s|
    ensures AdjustedAt(s, nfloorAmp, maxAmp, smoothAmpFrac, draws, i) == s[i] * SampleGain(s, nfloorAmp, maxAmp, smoothAmpFrac, draws, i)
  {
    var g := SampleGain(s, nfloorAmp, maxAmp, smoothAmpFrac, draws, i);
    if Abs(s[i]) > nfloorAmp {
      AdjustedAboveFloor(s, nfloorAmp, maxAmp, smoothAmpFrac, draws, i);
      var r := draws[DrawIndex(s, nfloorAmp, i)];
      assert g == Gain(TransitionFactor(Abs(s[i]), nfloorAmp, maxAmp, smoothAmpFrac), r);
      assert AdjustedAt(s, nfloorAmp, maxAmp, smoothAmpFrac, draws, i) == ScaledSample(s[i], nfloorAmp, maxAmp, smoothAmpFrac, r);
    } else {
      assert g == 1.0;
    }
  }

  /** Each sample of the adjusted signal is the input sample times its gain. */
  lemma AdjustedIsScaledByGain(s: seq<real>, nfloorAmp: real, maxAmp: real, smoothAmpFrac: real, draws: seq<real>, i: nat)
    requires CountAboveFloor(s, nfloorAmp) <= |draws|
    requires i < |s|
    ensures Adjusted(s, nfloorAmp, maxAmp, smoothAmpFrac, draws)[i] == s[i] * SampleGain(s, nfloorAmp, maxAmp, smoothAmpFrac, draws, i)
  {
    AdjustedUpToAt(s, nfloorAmp, maxAmp, smoothAmpFrac, draws, |s|, i);
    AdjustedAtIsScaledByGain(s, nfloorAmp, maxAmp, smoothAmpFrac, draws, i);
  }

  /** With every draw in `[lo, hi]` each sample's gain lies in
      `[min(1, lo), max(1, hi)]`. */
  lemma SampleGainWithinRange(s: seq<real>, nfloorAmp: real, maxAmp: real, smoothAmpFrac: real, draws: seq<real>,
                              lo: real, hi: real, i: nat)
    requires CountAboveFloor(s, nfloorAmp) <= |draws|
    requires DrawsWithin(draws, lo, hi)
    requires i < |s|
    ensures MinOne(lo) <= SampleGain(s, nfloorAmp, maxAmp, smoothAmpFrac, draws, i) <= MaxOne(hi)
  {
    if Abs(s[i]) > nfloorAmp {
      AdjustedAboveFloor(s, nfloorAmp, maxAmp, smoothAmpFrac, draws, i);
      var t := TransitionFactor(Abs(s[i]), nfloorAmp, maxAmp, smoothAmpFrac);
      var r := draws[DrawIndex(s, nfloorAmp, i)];
      GainWithinAdjustRange(t, r, lo, hi);
    }
  }

  /** Bounded jitter: with every draw in `[lo, hi]`, each sample of the
      adjusted signal is the input sample times a gain in
      `[min(1, lo), max(1, hi)]`. */
  lemma AdjustedWithinRange(s: seq<real>, nfloorAmp: real, maxAmp: real, smoothAmpFrac: real, draws: seq<real>,
                            lo: real, hi: real, i: nat)
    requires CountAboveFloor(s, nfloorAmp) <= |draws|
    requires DrawsWithin(draws, lo, hi)
    requires i < |s|
    ensures var g := SampleGain(s, nfloorAmp, maxAmp, smoothAmpFrac, draws, i);
            && Adjusted(s, nfloorAmp, maxAmp, smoothAmpFrac, draws)[i] == s[i] * g
            && MinOne(lo) <= g <= MaxOne(hi)
  {
    AdjustedIsScaledByGain(s, nfloorAmp, maxAmp, smoothAmpFrac, draws, i);
    SampleGainWithinRange(s, nfloorAmp, maxAmp, smoothAmpFrac, draws, lo, hi, i);
  }

  /** `a` is `s` with every sample multiplied by its gain, each gain in
      `[min(1, lo), max(1, hi)]`. */
  predicate GainsWithinRange(s: seq<real>, a: seq<real>, nfloorAmp: real, maxAmp: real, smoothAmpFrac: real,
                             draws: seq<real>, lo: real, hi: real)
    requires CountAboveFloor(s, nfloorAmp) <= |draws|
  {
    && |a| == |s|
    && forall i :: 0 <= i < |s| ==>
         var g := SampleGain(s, nfloorAmp, maxAmp, smoothAmpFrac, draws, i);
         a[i] == s[i] * g && MinOne(lo) <= g <= MaxOne(hi)
  }

  /** The bounded-jitter property for the whole adjusted signal. */
  lemma AdjustedGainsWithinRange(s: seq<real>, nfloorAmp: real, maxAmp: real, smoothAmpFrac: real, draws: seq<real>,
                                 lo: real, hi: real)
    requires CountAboveFloor(s, nfloorAmp) <= |draws|
    requires DrawsWithin(draws, lo, hi)
    ensures GainsWithinRange(s, Adjusted(s, nfloorAmp, maxAmp, smoothAmpFrac, draws), nfloorAmp, maxAmp, smoothAmpFrac, draws, lo, hi)
  {
    forall i | 0 <= i < |s|
      ensures var g := SampleGain(s, nfloorAmp, maxAmp, smoothAmpFrac, draws, i);
              Adjusted(s, nfloorAmp, maxAmp, smoothAmpFrac, draws)[i] == s[i] * g && MinOne(lo) <= g <= MaxOne(hi)
    {
      AdjustedWithinRange(s, nfloorAmp, maxAmp, smoothAmpFrac, draws, lo, hi, i);
    }
  }

  /** With every draw in `[lo, hi]` and `lo >= 0`, no sample of the adjusted
      signal changes sign, and each magnitude is the input magnitude scaled by
      a factor in `[min(1, lo), max(1, hi)]`. */
  lemma AdjustedMagnitudeWithinRange(s: seq<real>, nfloorAmp: real, maxAmp: real, smoothAmpFrac: real, draws: seq<real>,
                                     lo: real, hi: real, i: nat)
    requires CountAboveFloor(s, nfloorAmp) <= |draws|
    requires 0.0 <= lo && DrawsWithin(draws, lo, hi)
    requires i < |s|
    ensures var a := Adjusted(s, nfloorAmp, maxAmp, smoothAmpFrac, draws);
            && (0.0 <= s[i] ==> 0.0 <= a[i])
            && (s[i] <= 0.0 ==> a[i] <= 0.0)
            && MagnitudeScaled(s[i], a[i], lo, hi)
  {
    var v := Adjusted(s, nfloorAmp, maxAmp, smoothAmpFrac, draws)[i];
    if Abs(s[i]) > nfloorAmp {
      AdjustedUpToAt(s, nfloorAmp, maxAmp, smoothAmpFrac, draws, |s|, i);
      AdjustedAboveFloor(s, nfloorAmp, maxAmp, smoothAmpFrac, draws, i);
      ScaledSampleWithinRange(s[i], nfloorAmp, maxAmp, smoothAmpFrac, draws[DrawIndex(s, nfloorAmp, i)], lo, hi, v);
    } else {
      AdjustedFrame(s, nfloorAmp, maxAmp, smoothAmpFrac, draws, i);
      UnchangedWithinScale(s[i], lo, hi);
    }
  }

  /** A signal with no sample above the floor comes out unchanged. */
  lemma NothingAboveFloorUnchanged(s: seq<real>, nfloorAmp: real, maxAmp: real, smoothAmpFrac: real, draws: seq<real>)
    requires CountAboveFloor(s, nfloorAmp) == 0
    ensures Adjusted(s, nfloorAmp, maxAmp, smoothAmpFrac, draws) == s
  {
    NoDrawsIffAllAtOrBelowFloor(s, nfloorAmp);
    forall i | 0 <= i < |s| ensures Adjusted(s, nfloorAmp, maxAmp, smoothAmpFrac, draws)[i] == s[i] {
      AdjustedUpToAt(s, nfloorAmp, maxAmp, smoothAmpFrac, draws, |s|, i);
      AdjustedAtOrBelowFloor(s, nfloorAmp, maxAmp, smoothAmpFrac, draws, i);
    }
  }

  /** When the peak bounds every sample and the smoothing fraction is
      positive, a sample above the floor sees a positive denominator, so the
      division is a real one and never a division by zero. */
  lemma DenominatorPositive(s: seq<real>, nfloorAmp: real, maxAmp: real, smoothAmpFrac: real, i: nat)
    requires smoothAmpFrac > 0.0
    requires forall k :: 0 <= k < |s| ==> Abs(s[k]) <= maxAmp
    requires i < |s| && Abs(s[i]) > nfloorAmp
    ensures smoothAmpFrac * (maxAmp - nfloorAmp) > 0.0
    ensures TransitionFactor(Abs(s[i]), nfloorAmp, maxAmp, smoothAmpFrac)
            == Clamp01((Abs(s[i]) - nfloorAmp) / (smoothAmpFrac * (maxAmp - nfloorAmp)))
  {
    assert maxAmp - nfloorAmp > 0.0;
  }

  /** Continuity at the floor: just above the floor the gain departs from 1 by
      at most `(absVal - floor) / denom * |r - 1|`, which tends to 0. */
  lemma GainNearFloor(absVal: real, nfloorAmp: real, maxAmp: real, smoothAmpFrac: real, r: real)
    requires smoothAmpFrac * (maxAmp - nfloorAmp) > 0.0
    requires absVal > nfloorAmp
    ensures var t := TransitionFactor(absVal, nfloorAmp, maxAmp, smoothAmpFrac);
            var bound := (absVal - nfloorAmp) / (smoothAmpFrac * (maxAmp - nfloorAmp));
            t <= bound
            && Abs(Gain(t, r) - 1.0) == t * Abs(r - 1.0)
            && Abs(Gain(t, r) - 1.0) <= bound * Abs(r - 1.0)
  {
    var t := TransitionFactor(absVal, nfloorAmp, maxAmp, smoothAmpFrac);
    var bound := (absVal - nfloorAmp) / (smoothAmpFrac * (maxAmp - nfloorAmp));
    assert t == Clamp01(bound);
    assert Gain(t, r) - 1.0 == t * (r - 1.0);
    assert t <= bound;
    assert t * Abs(r - 1.0) <= bound * Abs(r - 1.0);
  }

  /** Once `smooth_amp_frac` of the range above the floor is crossed the
      factor is 1: the sample gets the full random gain. */
  lemma FullJitterAboveBand(absVal: real, nfloorAmp: real, maxAmp: real, smoothAmpFrac: real)
    requires smoothAmpFrac * (maxAmp - nfloorAmp) > 0.0
    requires absVal >= nfloorAmp + smoothAmpFrac * (maxAmp - nfloorAmp)
    ensures TransitionFactor(absVal, nfloorAmp, maxAmp, smoothAmpFrac) == 1.0
  {
    QuotientAtLeastOne(absVal, nfloorAmp, maxAmp, smoothAmpFrac);
  }

  /** From the top of the smoothing band upward the raw quotient is at least 1. */
  lemma QuotientAtLeastOne(absVal: real, nfloorAmp: real, maxAmp: real, smoothAmpFrac: real)
    requires smoothAmpFrac * (maxAmp - nfloorAmp) > 0.0
    requires absVal >= nfloorAmp + smoothAmpFrac * (maxAmp - nfloorAmp)
    ensures (absVal - nfloorAmp) / (smoothAmpFrac * (maxAmp - nfloorAmp)) >= 1.0
  {
    DivAtLeastOne(absVal - nfloorAmp, smoothAmpFrac * (maxAmp - nfloorAmp));
  }

  lemma DivMonotone(x: real, y: real, d: real)
    requires x <= y && 0.0 < d
    ensures x / d <= y / d
  {
    var p, q := x / d, y / d;
    assert p * d == x && q * d == y;
    assert (q - p) * d == y - x;
  }

  lemma DivAtLeastOne(a: real, d: real)
    requires 0.0 < d <= a
    ensures a / d >= 1.0
  {
    var q := a / d;
    assert q * d == a;
    assert (q - 1.0) * d == a - d;
  }

  /** With a non-negative smoothing fraction and a peak at or above the floor
      the factor never decreases as the magnitude grows. */
  lemma TransitionMonotone(a: real, b: real, nfloorAmp: real, maxAmp: real, smoothAmpFrac: real)
    requires a <= b
    requires smoothAmpFrac >= 0.0 && maxAmp >= nfloorAmp
    ensures TransitionFactor(a, nfloorAmp, maxAmp, smoothAmpFrac) <= TransitionFactor(b, nfloorAmp, maxAmp, smoothAmpFrac)
  {
    var denom := smoothAmpFrac * (maxAmp - nfloorAmp);
    MulNonNegative(smoothAmpFrac, maxAmp - nfloorAmp);
    if denom > 0.0 {
      DivMonotone(a - nfloorAmp, b - nfloorAmp, denom);
    }
  }
}
