/**
  The audio preprocessor: default options, the configured object, the
  noise-floor estimate and the amplitude adjustment above the floor.
  Audio is a numpy array of samples, here an `array<real>`; the random source
  of `random.uniform` is an injected sequence of draws.
 */
module AudioPreprocessing {
  import opened Samples
  import opened NoiseFloor
  import opened Amplitude

  // The default options.
  const DefaultWinNfloorS: real := 0.05
  const DefaultWinSkipS: real := 0.02
  const DefaultNfloorMaxFrac: real := 0.1
  const DefaultSmoothAmpFrac: real := 0.1
  const DefaultAmplitudeAdjustRange: (real, real) := (0.8, 1.2)

  /** `int(seconds * sample_rate)`: a duration as a whole number of samples,
      truncated toward zero. */
  function SampleCount(seconds: real, sampleRate: int): int {
    Trunc(seconds * sampleRate as real)
  }

  /** The default window lengths are at least one sample, as the scan
      requires, exactly at sample rates of 50 Hz and above (the skip of
      0.02 s is the shorter one). */
  lemma DefaultsMeetScanRequirements(sampleRate: int)
    ensures SampleCount(DefaultWinNfloorS, sampleRate) >= 1 && SampleCount(DefaultWinSkipS, sampleRate) >= 1
            <==> sampleRate >= 50
  {
    if sampleRate >= 50 {
      assert DefaultWinSkipS * sampleRate as real >= 1.0;
      assert DefaultWinNfloorS * sampleRate as real >= 1.0;
    } else {
      assert DefaultWinSkipS * sampleRate as real < 1.0;
    }
  }

  /** With draws from the default range `(0.8, 1.2)` every sample's gain lies
      in [0.8, 1.2]. */
  lemma DefaultGainBounds(s: seq<real>, nfloorAmp: real, maxAmp: real, smoothAmpFrac: real, draws: seq<real>, i: nat)
    requires CountAboveFloor(s, nfloorAmp) <= |draws|
    requires DrawsWithin(draws, RangeLow(DefaultAmplitudeAdjustRange), RangeHigh(DefaultAmplitudeAdjustRange))
    requires i < |s|
    ensures 0.8 <= SampleGain(s, nfloorAmp, maxAmp, smoothAmpFrac, draws, i) <= 1.2
  {
    SampleGainWithinRange(s, nfloorAmp, maxAmp, smoothAmpFrac, draws,
                          RangeLow(DefaultAmplitudeAdjustRange), RangeHigh(DefaultAmplitudeAdjustRange), i);
  }

  class AudioPreprocessor {
    const winNfloorS: real
    const winSkipS: real
    const nfloorMaxFrac: real
    const smoothAmpFrac: real
    const amplitudeAdjustRange: (real, real)

    constructor (winNfloorS: real := DefaultWinNfloorS,
                 winSkipS: real := DefaultWinSkipS,
                 nfloorMaxFrac: real := DefaultNfloorMaxFrac,
                 smoothAmpFrac: real := DefaultSmoothAmpFrac,
                 amplitudeAdjustRange: (real, real) := DefaultAmplitudeAdjustRange)
      ensures this.winNfloorS == winNfloorS && this.winSkipS == winSkipS
      ensures this.nfloorMaxFrac == nfloorMaxFrac && this.smoothAmpFrac == smoothAmpFrac
      ensures this.amplitudeAdjustRange == amplitudeAdjustRange
    {
      this.winNfloorS := winNfloorS;
      this.winSkipS := winSkipS;
      this.nfloorMaxFrac := nfloorMaxFrac;
      this.smoothAmpFrac := smoothAmpFrac;
      this.amplitudeAdjustRange := amplitudeAdjustRange;
    }

    /** Returns `(nfloorAmp, maxAmp)`: the minimum of the accepted window
        maxima (0 when none is accepted) and the peak magnitude. The ghost
        `examined` counts the windows whose maximum was computed. */
    method CalculateNoiseFloor(data: array<real>, sampleRate: int)
      returns (nfloorAmp: real, maxAmp: real, ghost examined: nat)
      requires data.Length > 0
      requires SampleCount(winNfloorS, sampleRate) >= 1 && SampleCount(winSkipS, sampleRate) >= 1
      ensures maxAmp == MaxAbs(data[..])
      ensures var ms := WindowMaxes(data[..], SampleCount(winNfloorS, sampleRate), SampleCount(winSkipS, sampleRate));
              var stop := StopIndex(ms, nfloorMaxFrac, maxAmp, 0);
              && nfloorAmp == MinOr(Accepted(ms, nfloorMaxFrac, maxAmp), 0.0)
              && examined == (if stop < |ms| then stop + 1 else stop)
      ensures data.Length <= SampleCount(winNfloorS, sampleRate) ==> examined == 0
      ensures nfloorAmp == 0.0 && nfloorAmp <= maxAmp
    {
      var windowSize := SampleCount(winNfloorS, sampleRate);
      var skipSize := SampleCount(winSkipS, sampleRate);

      maxAmp := MaxAbs(data[..]);
      var nfloorAmplitudes: seq<real> := [];

      ghost var s := data[..];
      ghost var ms := WindowMaxes(s, windowSize, skipSize);
      ghost var stop := StopIndex(ms, nfloorMaxFrac, maxAmp, 0);
      ghost var j: nat := 0;
      examined := 0;
      var i: nat := 0;
      while i < data.Length - windowSize
        invariant j <= stop
        invariant ScanFrom(s, windowSize, skipSize, ms, j, i)
        invariant nfloorAmplitudes == ms[..j]
        invariant examined == j
        decreases data.Length - i
      {
        WindowMaxesStep(s, windowSize, skipSize, ms, j, i);
        assert data[i..i + windowSize] == s[i..i + windowSize];
        var windowMax := MaxAbs(data[i..i + windowSize]);
        examined := j + 1;
        if windowMax > Threshold(nfloorAmplitudes, nfloorMaxFrac, maxAmp) {
          StopIndexUnique(ms, nfloorMaxFrac, maxAmp, j);
          break;
        }
        AcceptStep(ms, nfloorMaxFrac, maxAmp, j);
        nfloorAmplitudes := nfloorAmplitudes + [windowMax];
        i := i + skipSize;
        j := j + 1;
      }
      if i >= data.Length - windowSize {
        WindowMaxesEnd(s, windowSize, skipSize, ms, j, i);
        StopIndexUnique(ms, nfloorMaxFrac, maxAmp, j);
      }
      assert nfloorAmplitudes == ms[..stop];

      nfloorAmp := if |nfloorAmplitudes| > 0 then Min(nfloorAmplitudes) else 0.0;
      ScanFloorIsZero(data[..], windowSize, skipSize, nfloorMaxFrac, maxAmp);
      MaxAbsIsLargest(data[..]);
      assert Abs(data[..][0]) <= maxAmp;
    }

    /** Returns a copy of `data` in which every sample above the floor is
        multiplied by its gain, and the number of draws consumed. The draws
        are those of `random.uniform(*amplitudeAdjustRange)`, so each lies
        between the two ends of the configured range; hence every gain does
        too, widened to include 1. */
    method AdjustAmplitude(data: array<real>, nfloorAmp: real, maxAmp: real, draws: seq<real>)
      returns (adjustedData: array<real>, used: nat)
      requires CountAboveFloor(data[..], nfloorAmp) <= |draws|
      requires DrawsWithin(draws, RangeLow(amplitudeAdjustRange), RangeHigh(amplitudeAdjustRange))
      ensures fresh(adjustedData)
      ensures adjustedData[..] == Adjusted(data[..], nfloorAmp, maxAmp, smoothAmpFrac, draws)
      ensures used == CountAboveFloor(data[..], nfloorAmp)
      ensures GainsWithinRange(data[..], adjustedData[..], nfloorAmp, maxAmp, smoothAmpFrac, draws,
                               RangeLow(amplitudeAdjustRange), RangeHigh(amplitudeAdjustRange))
    {
      ghost var s := data[..];
      ghost var expected := Adjusted(s, nfloorAmp, maxAmp, smoothAmpFrac, draws);
      adjustedData := new real[data.Length](k requires 0 <= k < data.Length reads data => data[k]);
      used := 0;
      for i := 0 to data.Length
        invariant used == DrawIndex(s, nfloorAmp, i)
        invariant used <= CountAboveFloor(s, nfloorAmp)
        invariant forall t :: i <= t < data.Length ==> adjustedData[t] == s[t]
        invariant forall t :: 0 <= t < i ==> adjustedData[t] == expected[t]
      {
        DrawIndexStep(s, nfloorAmp, i);
        AdjustedUpToAt(s, nfloorAmp, maxAmp, smoothAmpFrac, draws, |s|, i);
        assert data[i] == s[i];
        var absVal := Abs(data[i]);
        if absVal > nfloorAmp {
          AdjustedAboveFloor(s, nfloorAmp, maxAmp, smoothAmpFrac, draws, i);
          var randomAdjust := draws[used];
          adjustedData[i] := ScaledSample(data[i], nfloorAmp, maxAmp, smoothAmpFrac, randomAdjust);
          used := used + 1;
        } else {
          AdjustedAtOrBelowFloor(s, nfloorAmp, maxAmp, smoothAmpFrac, draws, i);
        }
        assert adjustedData[i] == expected[i];
      }
      DrawIndexAtEnd(s, nfloorAmp);
      assert adjustedData[..] == expected;
      AdjustedGainsWithinRange(s, nfloorAmp, maxAmp, smoothAmpFrac, draws,
                               RangeLow(amplitudeAdjustRange), RangeHigh(amplitudeAdjustRange));
    }
  }
}
