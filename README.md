# Audio preprocessor: noise floor and amplitude adjustment

A Dafny model of `AudioPreprocessor`, the class in `__init__.py` that augments
audio recordings. It covers four things:

- the default options `defopts`
- the configured object: window length, skip length, noise-floor fraction,
  smoothing fraction and random-gain range
- `calculate_noise_floor`, a sliding-window scan with an early stop that
  estimates the noise floor and the peak
- `adjust_amplitude`, which multiplies every sample above the floor by a
  random gain that is blended in smoothly near the floor

Samples are exact `real`s and the audio array is an `array<real>`. `int(...)`
is truncation toward zero (`Samples.Trunc`). The draws of `random.uniform`
are a sequence passed in by the caller and consumed one per qualifying
sample, in index order.

Files:

- `samples.dfy` (module `Samples`): the reductions numpy and the builtins
  provide. These are `np.abs`, `np.max(np.abs(..))`, `min` with and without a
  default, and `int()`.
- `noise_floor.dfy` (module `NoiseFloor`): a reference definition of the
  scan. It first builds every candidate window maximum (`WindowMaxes`), then
  finds the first one the threshold rejects (`StopIndex`). Lemmas relate the
  scanned offsets to `range(0, len(data) - window, skip)` and show that the
  floor is always 0.
- `amplitude.dfy` (module `Amplitude`): the transition factor, the gain, the
  draw bookkeeping (`CountAboveFloor`, `DrawIndex`) and the adjusted signal
  (`AdjustedAt`, `Adjusted`), with their lemmas.
- `preprocessor.dfy` (module `AudioPreprocessing`): the defaults, and the
  class with its constructor and its two methods as loops. Each loop is proved
  against the reference definitions above.

One consequence of the code as written is proved, not assumed. With nothing
accepted yet, the threshold is `frac * (max_amp - max_amp) = 0`. So the first
window is accepted only if all its samples are 0, and the returned noise floor
is always 0 (`NoiseFloor.ScanFloorIsZero`,
`NoiseFloor.FirstWindowAcceptedOnlyIfSilent`, and the last `ensures` of
`CalculateNoiseFloor`).

Other behaviours of the code that the model keeps:

- The scan bound is strict. Offsets stay strictly below `len(data) - window`,
  so a window ending at the last sample is never scanned.
- Window and skip lengths use `int()`, which truncates toward zero.
- A signal no longer than one window raises no error. It scans nothing and
  returns a floor of 0.
- An empty signal makes `np.max` raise, so it is excluded by a precondition.
- The division in the transition factor has no guard against a zero
  denominator. numpy's float division then gives an infinity whose sign is
  that of the numerator times the sign of the zero. The product
  `smooth_amp_frac * (max_amp - nfloor_amp)` is -0.0 when the fraction is
  negative or the peak lies below the floor, and +0.0 otherwise (for inputs
  that are not themselves -0.0). The clamp
  turns +inf into 1 and -inf into 0. `Amplitude.TransitionFactor` writes this
  out, and `Amplitude.ZeroDenominatorFactor` states the result above the
  floor.
- Each draw comes from `random.uniform(*amplitude_adjust_range)`, which lies
  between the two ends of the range in either order. `AdjustAmplitude`
  takes that as its requirement on the draws. Every gain it applies then lies
  in `[min(1, lo), max(1, hi)]`.

## Model

| member | source | states |
|---|---|---|
| AudioPreprocessing.AudioPreprocessor.constructor | __init__.py:15-27 | every field holds the matching argument; omitted arguments take the `defopts` values (0.05, 0.02, 0.1, 0.1, (0.8, 1.2)) |
| AudioPreprocessing.AudioPreprocessor.CalculateNoiseFloor | __init__.py:35-55 | `max_amp` is the largest magnitude; the floor is the minimum of the accepted prefix of the window maxima (0 if none); the loop computes exactly the windows up to and including the first rejected one (none for a signal no longer than a window); the floor is 0 and at most `max_amp` |
| AudioPreprocessing.AudioPreprocessor.AdjustAmplitude | __init__.py:57-78 | given draws between the ends of `amplitude_adjust_range`, returns a fresh array equal to the reference `Adjusted` signal of the input, in which every sample is the input sample times a gain in `[min(1, lo), max(1, hi)]`, and consumes exactly one draw per sample above the floor |
| AudioPreprocessing.SampleCount | __init__.py:37-38 | defines `int(seconds * sample_rate)` through `Samples.Trunc` |
| AudioPreprocessing.DefaultsMeetScanRequirements | __init__.py:6-12 | the default window and skip durations give lengths of at least one sample exactly when the sample rate is at least 50 |
| AudioPreprocessing.DefaultGainBounds | __init__.py:6-12 | with draws from the default range `(0.8, 1.2)`, every sample's gain lies in [0.8, 1.2] |
| Samples.Abs | __init__.py:62 | defines `np.abs` of one sample |
| Samples.MaxAbs | __init__.py:40 | defines `np.max(np.abs(s))` of a non-empty run; characterised by `MaxAbsIsLargest` |
| Samples.Min | __init__.py:54 | defines `min(s)` of a non-empty list; characterised by `MinIsSmallest` |
| Samples.MinOr | __init__.py:48 | defines `min(s, default=d)`, also the `min(...) if ... else 0` of line 54 |
| Samples.MaxAbsIsLargest | __init__.py:40 | `np.max(np.abs(s))` bounds every magnitude and equals one of them |
| Samples.MinIsSmallest | __init__.py:54 | `min` of the accepted maxima is at most each of them and is one of them |
| Samples.Trunc | __init__.py:37-38 | `int(x)` truncates toward zero: `0 <= r <= x < r + 1` for `x >= 0`, and `r - 1 < x <= r <= 0` for `x < 0` |
| Samples.SilentIffMaxAbsZero | __init__.py:40 | the peak magnitude is at most 0 exactly when every sample is 0 |
| NoiseFloor.WindowMaxesFrom | __init__.py:43-45 | defines the window maxima from offset `start` in steps of `skip`; characterised by `WindowMaxesFromAt` |
| NoiseFloor.WindowMaxes | __init__.py:43-45 | defines the maxima of all candidate windows; characterised by `WindowMaxesAt` |
| NoiseFloor.WindowMaxesFromAt | __init__.py:43-45 | from offset `start`, the `j`-th window exists exactly when `start + j*skip < len - w`, and its maximum is that of `s[start + j*skip : start + j*skip + w]` |
| NoiseFloor.WindowMaxesAt | __init__.py:43-45 | the scanned offsets are exactly the multiples of `skip` strictly below `len - w`; each window maximum is that of the window at its offset, which lies inside the signal |
| NoiseFloor.ShortSignalHasNoWindow | __init__.py:43 | there is no window exactly when `len <= w` |
| NoiseFloor.WindowMaxesStep | __init__.py:43-45 | a window starting below `len - w` contributes its maximum, and the scan continues at `offset + skip` |
| NoiseFloor.WindowMaxesEnd | __init__.py:43 | an offset at or beyond `len - w` ends the scan: no window maximum is left |
| NoiseFloor.WindowMaxesNonNegative | __init__.py:45 | every window maximum is at least 0 |
| NoiseFloor.Threshold | __init__.py:48 | defines `frac * (max_amp - min(accepted, default=max_amp))` |
| NoiseFloor.Admits | __init__.py:48 | defines "window maximum `j` is at most the threshold of the maxima before it" |
| NoiseFloor.Accepted | __init__.py:47-54 | defines the accepted maxima as the prefix before `StopIndex` |
| NoiseFloor.StopIndex | __init__.py:47-51 | every window maximum before the stop is at most the threshold of the maxima before it; the maximum at the stop (if any) exceeds its threshold |
| NoiseFloor.StopIndexUnique | __init__.py:47-51 | an index whose predecessors all pass and which itself fails (or is the end) is the stop |
| NoiseFloor.AcceptStep | __init__.py:47-51 | a window maximum within its threshold lets the scan go past it, and appending it extends the accepted prefix by one |
| NoiseFloor.EmptyThresholdIsZero | __init__.py:48 | with nothing accepted the threshold is 0 for every fraction and peak |
| NoiseFloor.FirstAcceptedIsZero | __init__.py:48 | a non-negative first maximum is accepted exactly when it is 0 |
| NoiseFloor.AcceptedMinimumIsZero | __init__.py:47-54 | for non-negative maxima, the minimum of the accepted prefix (0 if empty) is 0 |
| NoiseFloor.ScanFloorIsZero | __init__.py:43-54 | for every signal, window, skip, fraction and peak the scan's floor is 0 |
| NoiseFloor.FirstWindowAcceptedOnlyIfSilent | __init__.py:43-51 | if the first window is accepted, all of its samples are 0 |
| Amplitude.Clamp01 | __init__.py:66-69 | defines `max(0, min(1, x))` (helper of `TransitionFactor`) |
| Amplitude.TransitionFactor | __init__.py:66-69 | the smooth transition factor always lies in [0, 1], including for a zero denominator of either sign |
| Amplitude.ZeroDenominatorFactor | __init__.py:66-69 | above the floor, with a zero denominator, the factor is 1 exactly when the fraction is non-negative and the peak is at or above the floor (the zero is +0.0), and 0 exactly otherwise (-0.0) |
| Amplitude.Gain | __init__.py:73 | defines `(1 - t) + t * r`; bounded by `GainBetweenOneAndDraw` |
| Amplitude.ScaledSample | __init__.py:66-76 | defines the new value of a sample above the floor; bounded by `ScaledSampleWithinRange` |
| Amplitude.CountAboveFloor | __init__.py:61-72 | the number of samples strictly above the floor, which is at most the length of the signal |
| Amplitude.DrawIndex | __init__.py:61-72 | defines the index of the draw taken at sample `i`: the count of samples above the floor before it |
| Amplitude.DrawIndexAtEnd | __init__.py:61-72 | after the last sample the draw counter equals the number of samples above the floor |
| Amplitude.DrawIndexStep | __init__.py:61-72 | the draw counter grows by one at a sample above the floor and stays put otherwise |
| Amplitude.NoDrawsIffAllAtOrBelowFloor | __init__.py:61-72 | no draw is consumed exactly when no sample is above the floor |
| Amplitude.DrawOrder | __init__.py:61-72 | draws are consumed in index order: a qualifying sample uses a draw strictly before every draw counted up to any later index |
| Amplitude.EveryDrawUsed | __init__.py:61-72 | every draw below the total count is used by some sample above the floor |
| Amplitude.AdjustedAt | __init__.py:61-76 | defines the value of sample `i` after the loop: scaled with its own draw above the floor, the copied value otherwise |
| Amplitude.AdjustedUpTo | __init__.py:59-76 | the first `n` adjusted samples form a sequence of length `n` |
| Amplitude.Adjusted | __init__.py:59 | the adjusted signal has the length of the input |
| Amplitude.AdjustedUpToAt | __init__.py:61-76 | each sample of the adjusted signal is that sample's adjusted value |
| Amplitude.AdjustedAboveFloor | __init__.py:65-76 | a sample above the floor uses a draw that exists and becomes the sample times the gain for its own factor and draw |
| Amplitude.AdjustedAtOrBelowFloor | __init__.py:59-65 | a sample at or below the floor keeps its value |
| Amplitude.AdjustedFrame | __init__.py:59-65 | for every draw sequence, a sample at or below the floor keeps its value in the adjusted signal |
| Amplitude.RangeLow | __init__.py:72 | defines the lower end of `random.uniform(a, b)`, the smaller of `a` and `b` |
| Amplitude.RangeHigh | __init__.py:72 | defines the upper end of `random.uniform(a, b)`, the larger of `a` and `b` |
| Amplitude.DrawsWithin | __init__.py:72 | defines "every draw lies in `[lo, hi]`" |
| Amplitude.SampleGain | __init__.py:66-76 | defines the gain of sample `i`: the blend of 1 and its own draw above the floor, 1 at or below it |
| Amplitude.AdjustedAtIsScaledByGain | __init__.py:61-76 | the adjusted value of sample `i` is the sample times its gain |
| Amplitude.AdjustedIsScaledByGain | __init__.py:59-76 | every adjusted sample is the input sample times its gain |
| Amplitude.SampleGainWithinRange | __init__.py:72-73 | with every draw in `[lo, hi]`, each sample's gain lies in `[min(1, lo), max(1, hi)]` |
| Amplitude.AdjustedWithinRange | __init__.py:59-76 | with every draw in `[lo, hi]`, adjusted sample `i` is the input sample times a gain in `[min(1, lo), max(1, hi)]` |
| Amplitude.GainsWithinRange | __init__.py:59-76 | defines "every output sample is its input sample times its gain, each gain in `[min(1, lo), max(1, hi)]`" |
| Amplitude.AdjustedGainsWithinRange | __init__.py:59-76 | the adjusted signal satisfies `GainsWithinRange` whenever every draw lies in `[lo, hi]` |
| Amplitude.AdjustedMagnitudeWithinRange | __init__.py:59-76 | with every draw in `[lo, hi]` and `lo >= 0`, no adjusted sample changes sign and its magnitude is the input magnitude times a factor in `[min(1, lo), max(1, hi)]` |
| Amplitude.NothingAboveFloorUnchanged | __init__.py:59-65 | a signal with no sample above the floor comes out unchanged |
| Amplitude.AdjustedKeepsSign | __init__.py:59-76 | with non-negative draws no adjusted sample changes sign, and samples at or below the floor are unchanged |
| Amplitude.GainBetweenOneAndDraw | __init__.py:73 | for a factor in [0, 1] the gain lies between `min(1, r)` and `max(1, r)` |
| Amplitude.GainWithinAdjustRange | __init__.py:72-73 | for a draw in `[lo, hi]` the gain lies in `[min(1, lo), max(1, hi)]` |
| Amplitude.ScaledSampleWithinRange | __init__.py:66-76 | for a draw in `[lo, hi]` with `lo >= 0`, the new sample keeps its sign and its magnitude lies between `min(1, lo)` and `max(1, hi)` times the old one |
| Amplitude.DenominatorPositive | __init__.py:65-68 | with `smooth_amp_frac > 0` and a peak bounding every sample, a sample above the floor sees a positive denominator, so the factor is the clamped quotient and no division by zero occurs |
| Amplitude.GainNearFloor | __init__.py:66-73 | just above the floor the factor is at most `(|x| - floor) / denom`, and the gain differs from 1 by at most that times `|r - 1|` |
| Amplitude.FullJitterAboveBand | __init__.py:66-69 | from `floor + smooth_amp_frac * (max_amp - floor)` upward the factor is 1 |
| Amplitude.QuotientAtLeastOne | __init__.py:66-69 | from `floor + smooth_amp_frac * (max_amp - floor)` upward the raw quotient is at least 1 |
| Amplitude.TransitionMonotone | __init__.py:66-69 | with a non-negative smoothing fraction and a peak at or above the floor, the factor never decreases as the magnitude grows |

## Left out

- `load_audio` (`__init__.py:29-33`) is not modelled. It reads a WAV file through scipy and normalises with numpy, which is file I/O and a library call.
- `preprocess` (`__init__.py:80-90`) is not modelled. It is the file-to-file driver, and its `np.int16(... * 32767)` conversion depends on numpy's overflow behaviour.
- The usage comments at the end of the file are not modelled.
- Floating point is not modelled. Samples, fractions and products are exact reals, so rounding, NaN, infinities and numpy warnings are absent. The one exception is the zero denominator of the transition factor, whose float sign is written out. A smoothing fraction or a peak passed in as -0.0 cannot be told apart from 0 here; with a peak of -0.0 and a floor of 0 the denominator is -0.0 and the code's factor is 0, while the model's is 1. `np.max(np.abs(..))` never yields -0.0, so only a direct caller can pass one. `AudioPreprocessing.SampleCount` truncates the exact product. A float product such as `0.29 * 100` can fall just below an integer and truncate one lower.
- `random.uniform` is not modelled as a distribution. Its draws are a caller-supplied sequence. Range facts are stated for draws lying in `[lo, hi]`.
- AudioPreprocessing.AudioPreprocessor.CalculateNoiseFloor: requires a non-empty signal and window and skip lengths of at least 1. The code raises `ValueError` for an empty signal, for a skip of 0 (from `range`) and for a window of 0 (`np.max` of an empty slice). A negative skip is excluded too. With `len(data) >= window` the code then scans nothing. With `len(data) < window` the code scans offsets 0, `skip`, `2 * skip`, ... down to just above `len(data) - window`, slicing from negative offsets. The returned floor is 0 either way. A negative window, from a negative duration or sample rate, is excluded as well. The code then slices `data[i:i + window]` with an end that counts back from the end of the array, which gives an empty slice (so `np.max` raises `ValueError`) or samples other than a window.
- AudioPreprocessing.AudioPreprocessor.CalculateNoiseFloor: the count of examined windows is a ghost output and is not part of the result.
- AudioPreprocessing.AudioPreprocessor.AdjustAmplitude: requires at least one draw per sample above the floor, because the random source of the code never runs out. It also requires each draw to lie between the ends of `amplitude_adjust_range`, which is what `random.uniform` returns.
- Amplitude.TransitionMonotone: stated for a non-negative smoothing fraction and a peak at or above the floor. Otherwise a zero denominator is -0.0, and the factor is 1 below the floor and 0 above it, so it is not monotone there.
