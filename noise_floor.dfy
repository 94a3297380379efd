/**
  Reference definition of the noise-floor scan of `calculate_noise_floor`.

  The scan visits window offsets `0, skip, 2 * skip, ...` while the offset is
  strictly below `len(data) - window`, takes the largest magnitude of each
  window, and stops at the first window whose maximum exceeds
  `frac * (max_amp - min(accepted, default=max_amp))`, where `accepted` are the
  window maxima accepted before it. Here the same rule is stated the other way
  round: first all candidate window maxima, then the index of the first
  rejected one. The preprocessor's loop is proved to agree with it.
 */
module NoiseFloor {
  import opened Samples

  /** The maxima of the windows of `w` samples starting at `start`,
      `start + skip`, `start + 2 * skip`, ... for as long as the start is
      strictly below `|s| - w`, in scan order. */
  function WindowMaxesFrom(s: seq<real>, w: int, skip: int, start: nat): seq<real>
    requires w >= 1 && skip >= 1
    decreases |s| - start
  {
    if start >= |s| - w then []
    else [MaxAbs(s[start..start + w])] + WindowMaxesFrom(s, w, skip, start + skip)
  }

  /** The maxima of all candidate windows of the scan. */
  function WindowMaxes(s: seq<real>, w: int, skip: int): seq<real>
    requires w >= 1 && skip >= 1
  {
    WindowMaxesFrom(s, w, skip, 0)
  }

  /** The windows are those of `range(start, |s| - w, skip)`: the `j`-th one
      exists exactly when `start + j * skip < |s| - w`, and it covers the `w`
      samples from that offset. */
  lemma {:induction false} WindowMaxesFromAt(s: seq<real>, w: int, skip: int, start: nat, j: nat)
    requires w >= 1 && skip >= 1
    ensures j < |WindowMaxesFrom(s, w, skip, start)| <==> start + j * skip < |s| - w
    ensures j < |WindowMaxesFrom(s, w, skip, start)| ==>
              WindowMaxesFrom(s, w, skip, start)[j] == MaxAbs(s[start + j * skip..start + j * skip + w])
    decreases j
  {
    if start < |s| - w && j > 0 {
      WindowMaxesFromAt(s, w, skip, start + skip, j - 1);
      assert start + skip + (j - 1) * skip == start + j * skip;
    }
  }

  /** The same for the whole scan, whose offsets are `range(0, |s| - w, skip)`. */
  lemma WindowMaxesAt(s: seq<real>, w: int, skip: int, j: nat)
    requires w >= 1 && skip >= 1
    ensures j < |WindowMaxes(s, w, skip)| <==> j * skip < |s| - w
    ensures j < |WindowMaxes(s, w, skip)| ==> WindowMaxes(s, w, skip)[j] == MaxAbs(s[j * skip..j * skip + w])
  {
    var ms := WindowMaxesFrom(s, w, skip, 0);
    assert WindowMaxes(s, w, skip) == ms;
    WindowMaxesFromAt(s, w, skip, 0, j);
    var off := 0 + j * skip;
    assert off == j * skip;
    assert j < |ms| <==> off < |s| - w;
    assert j < |ms| ==> ms[j] == MaxAbs(s[off..off + w]);
  }

  /** A signal no longer than one window has no candidate window. */
  lemma ShortSignalHasNoWindow(s: seq<real>, w: int, skip: int)
    requires w >= 1 && skip >= 1
    ensures |WindowMaxes(s, w, skip)| == 0 <==> |s| <= w
  {
  }

  /** `ms` from index `j` on holds the window maxima from offset `start` on. */
  predicate ScanFrom(s: seq<real>, w: int, skip: int, ms: seq<real>, j: nat, start: nat)
    requires w >= 1 && skip >= 1
  {
    j <= |ms| && ms[j..] == WindowMaxesFrom(s, w, skip, start)
  }

  /** One step of the scan: a window starting below `|s| - w` contributes its
      maximum, and the rest of the scan goes on from the next offset. */
  lemma WindowMaxesStep(s: seq<real>, w: int, skip: int, ms: seq<real>, j: nat, start: nat)
    requires w >= 1 && skip >= 1
    requires ScanFrom(s, w, skip, ms, j, start)
    requires start < |s| - w
    ensures j < |ms| && ms[j] == MaxAbs(s[start..start + w])
    ensures ScanFrom(s, w, skip, ms, j + 1, start + skip)
  {
    assert ms[j + 1..] == ms[j..][1..];
  }

  /** The scan ends at the first offset at or beyond `|s| - w`. */
  lemma WindowMaxesEnd(s: seq<real>, w: int, skip: int, ms: seq<real>, j: nat, start: nat)
    requires w >= 1 && skip >= 1
    requires ScanFrom(s, w, skip, ms, j, start)
    requires start >= |s| - w
    ensures j == |ms|
  {
  }

  /** Window maxima are magnitudes, hence non-negative. */
  lemma {:induction false} WindowMaxesNonNegative(s: seq<real>, w: int, skip: int, start: nat)
    requires w >= 1 && skip >= 1
    ensures forall j :: 0 <= j < |WindowMaxesFrom(s, w, skip, start)| ==> WindowMaxesFrom(s, w, skip, start)[j] >= 0.0
    decreases |s| - start
  {
    if start < |s| - w {
      WindowMaxesNonNegative(s, w, skip, start + skip);
      MaxAbsIsLargest(s[start..start + w]);
      assert Abs(s[start..start + w][0]) <= MaxAbs(s[start..start + w]);
    }
  }

  /** The stopping threshold given the maxima accepted so far. */
  function Threshold(accepted: seq<real>, frac: real, maxAmp: real): real {
    frac * (maxAmp - MinOr(accepted, maxAmp))
  }

  /** Whether the `j`-th window maximum is at most the threshold of the
      maxima before it. */
  predicate Admits(ms: seq<real>, frac: real, maxAmp: real, j: nat)
    requires j < |ms|
  {
    ms[j] <= Threshold(ms[..j], frac, maxAmp)
  }

  /** Index of the first window maximum (from `from` on) that exceeds the
      threshold of the maxima before it, or `|ms|` when none does. */
  function StopIndex(ms: seq<real>, frac: real, maxAmp: real, from: nat): (r: nat)
    requires from <= |ms|
    ensures from <= r <= |ms|
    ensures forall j :: from <= j < r ==> Admits(ms, frac, maxAmp, j)
    ensures r < |ms| ==> !Admits(ms, frac, maxAmp, r)
    decreases |ms| - from
  {
    if from == |ms| || !Admits(ms, frac, maxAmp, from) then from
    else StopIndex(ms, frac, maxAmp, from + 1)
  }

  /** The window maxima the scan accepts: the prefix before the stop. */
  function Accepted(ms: seq<real>, frac: real, maxAmp: real): seq<real> {
    ms[..StopIndex(ms, frac, maxAmp, 0)]
  }

  /** The stop index is the unique index whose predecessors are all accepted
      and which is itself rejected or the end. */
  lemma StopIndexUnique(ms: seq<real>, frac: real, maxAmp: real, j: nat)
    requires j <= |ms|
    requires forall i :: 0 <= i < j ==> Admits(ms, frac, maxAmp, i)
    requires j < |ms| ==> !Admits(ms, frac, maxAmp, j)
    ensures StopIndex(ms, frac, maxAmp, 0) == j
  {
  }

  /** One accepted window: the scan may go on and the accepted list grows by it. */
  lemma AcceptStep(ms: seq<real>, frac: real, maxAmp: real, j: nat)
    requires j < |ms| && j <= StopIndex(ms, frac, maxAmp, 0)
    requires ms[j] <= Threshold(ms[..j], frac, maxAmp)
    ensures j + 1 <= StopIndex(ms, frac, maxAmp, 0)
    ensures ms[..j] + [ms[j]] == ms[..j + 1]
  {
    assert Admits(ms, frac, maxAmp, j);
  }

  /** With nothing accepted the threshold is `frac * (max_amp - max_amp) = 0`,
      whatever the fraction and the peak. */
  lemma EmptyThresholdIsZero(frac: real, maxAmp: real)
    ensures Threshold([], frac, maxAmp) == 0.0
  {
  }

  /** So a non-negative first maximum is accepted only if it is zero. */
  lemma FirstAcceptedIsZero(ms: seq<real>, frac: real, maxAmp: real)
    requires |ms| > 0 && ms[0] >= 0.0
    ensures StopIndex(ms, frac, maxAmp, 0) > 0 <==> ms[0] == 0.0
  {
    assert ms[..0] == [];
    EmptyThresholdIsZero(frac, maxAmp);
  }

  /** Hence the minimum of the accepted maxima (or 0 if none) is always 0. */
  lemma AcceptedMinimumIsZero(ms: seq<real>, frac: real, maxAmp: real)
    requires forall j :: 0 <= j < |ms| ==> ms[j] >= 0.0
    ensures MinOr(Accepted(ms, frac, maxAmp), 0.0) == 0.0
  {
    var acc := Accepted(ms, frac, maxAmp);
    if |acc| > 0 {
      FirstAcceptedIsZero(ms, frac, maxAmp);
      assert acc[0] == 0.0;
      MinIsSmallest(acc);
      var k :| 0 <= k < |acc| && acc[k] == Min(acc);
      assert acc[k] == ms[k];
    }
  }

  /** The scan's noise floor, the minimum of the accepted window maxima or 0
      when none is accepted, is 0 for every signal. */
  lemma ScanFloorIsZero(s: seq<real>, w: int, skip: int, frac: real, maxAmp: real)
    requires w >= 1 && skip >= 1
    ensures MinOr(Accepted(WindowMaxes(s, w, skip), frac, maxAmp), 0.0) == 0.0
  {
    WindowMaxesNonNegative(s, w, skip, 0);
    AcceptedMinimumIsZero(WindowMaxes(s, w, skip), frac, maxAmp);
  }

  /** The first window is accepted only if every sample in it is zero. */
  lemma FirstWindowAcceptedOnlyIfSilent(s: seq<real>, w: int, skip: int, frac: real, maxAmp: real)
    requires w >= 1 && skip >= 1
    requires StopIndex(WindowMaxes(s, w, skip), frac, maxAmp, 0) > 0
    ensures forall t :: 0 <= t < w ==> s[t] == 0.0
  {
    var ms := WindowMaxes(s, w, skip);
    WindowMaxesAt(s, w, skip, 0);
    FirstAcceptedIsZero(ms, frac, maxAmp);
    SilentIffMaxAbsZero(s[0..w]);
    forall t | 0 <= t < w ensures s[t] == 0.0 {
      assert s[0..w][t] == s[t];
    }
  }
}
