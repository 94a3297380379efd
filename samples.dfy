/**
  Elementary operations on audio samples. Samples are modelled as exact
  reals: the floating-point rounding of the Python code is abstracted away.
  These are the numpy and builtin reductions the preprocessor relies on:
  `np.abs`, `np.max(np.abs(...))`, `min(...)` with and without a default,
  and `int(...)` applied to a real.
 */
module Samples {

  /** Magnitude of one sample (`np.abs`). */
  function Abs(x: real): real {
    if x < 0.0 then -x else x
  }

  /** `np.max(np.abs(s))`: the largest magnitude in a non-empty run of samples
      (numpy raises on an empty array, hence the precondition). */
  function MaxAbs(s: seq<real>): real
    requires |s| > 0
  {
    if |s| == 1 then Abs(s[0])
    else
      var rest := MaxAbs(s[1..]);
      if Abs(s[0]) > rest then Abs(s[0]) else rest
  }

  /** `MaxAbs` bounds every magnitude in the run and is one of them. */
  lemma {:induction false} MaxAbsIsLargest(s: seq<real>)
    requires |s| > 0
    ensures forall k :: 0 <= k < |s| ==> Abs(s[k]) <= MaxAbs(s)
    ensures exists k :: 0 <= k < |s| && Abs(s[k]) == MaxAbs(s)
  {
    if |s| == 1 {
      assert Abs(s[0]) == MaxAbs(s);
    } else {
      var rest := s[1..];
      MaxAbsIsLargest(rest);
      assert forall k :: 1 <= k < |s| ==> s[k] == rest[k - 1];
      if Abs(s[0]) <= MaxAbs(rest) {
        var k :| 0 <= k < |rest| && Abs(rest[k]) == MaxAbs(rest);
        assert s[k + 1] == rest[k];
        assert Abs(s[k + 1]) == MaxAbs(s);
      } else {
        assert Abs(s[0]) == MaxAbs(s);
      }
    }
  }

  /** `min(s)` of a non-empty list. */
  function Min(s: seq<real>): real
    requires |s| > 0
  {
    if |s| == 1 then s[0]
    else
      var rest := Min(s[1..]);
      if s[0] <= rest then s[0] else rest
  }

  /** `Min` is at most every element and is one of them. */
  lemma {:induction false} MinIsSmallest(s: seq<real>)
    requires |s| > 0
    ensures forall k :: 0 <= k < |s| ==> Min(s) <= s[k]
    ensures exists k :: 0 <= k < |s| && s[k] == Min(s)
  {
    if |s| == 1 {
      assert s[0] == Min(s);
    } else {
      var rest := s[1..];
      MinIsSmallest(rest);
      assert forall k :: 1 <= k < |s| ==> s[k] == rest[k - 1];
      if s[0] > Min(rest) {
        var k :| 0 <= k < |rest| && rest[k] == Min(rest);
        assert s[k + 1] == rest[k];
        assert s[k + 1] == Min(s);
      } else {
        assert s[0] == Min(s);
      }
    }
  }

  /** `min(s, default=d)`: the minimum, or `d` when the list is empty. */
  function MinOr(s: seq<real>, d: real): real {
    if |s| == 0 then d else Min(s)
  }

  /** Python's `int(x)` on a float: truncation toward zero. */
  function Trunc(x: real): (r: int)
    ensures 0.0 <= x ==> 0 <= r && r as real <= x < r as real + 1.0
    ensures x < 0.0 ==> r <= 0 && r as real - 1.0 < x <= r as real
  {
    if x >= 0.0 then x.Floor else -((-x).Floor)
  }

  /** The largest magnitude of a non-empty run is at most zero exactly when
      every sample of the run is zero. */
  lemma SilentIffMaxAbsZero(s: seq<real>)
    requires |s| > 0
    ensures MaxAbs(s) <= 0.0 <==> forall k :: 0 <= k < |s| ==> s[k] == 0.0
  {
    MaxAbsIsLargest(s);
    if MaxAbs(s) <= 0.0 {
      forall k | 0 <= k < |s| ensures s[k] == 0.0 {
        assert Abs(s[k]) <= MaxAbs(s);
      }
    } else {
      var k :| 0 <= k < |s| && Abs(s[k]) == MaxAbs(s);
      assert s[k] != 0.0;
    }
  }
}
