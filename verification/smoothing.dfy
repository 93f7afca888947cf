/**
 * The moving-average filter: each position that starts a full window is
 * replaced, in place, by the mean of the window; the last WINDOW_SIZE - 1
 * samples keep their raw values.
 */
module Smoothing {
  import opened Common

  /** s[lo] + ... + s[hi - 1]. */
  function Sum(s: seq<real>, lo: nat, hi: nat): real
    requires lo <= hi <= |s|
    decreases hi - lo
  {
    if lo == hi then 0.0 else Sum(s, lo, hi - 1) + s[hi - 1]
  }

  /** Mean of the window s[i .. i + WINDOW_SIZE). */
  function WindowMean(s: seq<real>, i: nat): real
    requires i + WINDOW_SIZE <= |s|
  {
    Sum(s, i, i + WINDOW_SIZE) / WINDOW_SIZE as real
  }

  /** The signature after smoothing: unchanged when shorter than a window. */
  function Smooth(s: seq<real>): (r: seq<real>)
    ensures |r| == |s|
  {
    if |s| < WINDOW_SIZE then s
    else seq(|s|, k requires 0 <= k < |s| => if k <= |s| - WINDOW_SIZE then WindowMean(s, k) else s[k])
  }

  /**
   * In-place moving average over inputArray[0 .. arraySize). Window i reads
   * only indices >= i, which the loop has not overwritten yet, so every
   * mean is taken over the original values. Returns whether the
   * too-short error was reported.
   */
  method MovingAverage(inputArray: array<real>, arraySize: int) returns (tooShort: bool)
    requires arraySize <= inputArray.Length
    modifies inputArray
    ensures tooShort <==> arraySize < WINDOW_SIZE
    ensures tooShort ==> inputArray[..] == old(inputArray[..])
    ensures !tooShort ==> inputArray[..] == Smooth(old(inputArray[..arraySize])) + old(inputArray[arraySize..])
  {
    if arraySize < WINDOW_SIZE {
      return true;
    }
    ghost var s := inputArray[..];
    var i := 0;
    while i <= arraySize - WINDOW_SIZE
      invariant 0 <= i <= arraySize - WINDOW_SIZE + 1
      invariant forall k :: 0 <= k < i ==> inputArray[k] == WindowMean(s, k)
      invariant forall k :: i <= k < inputArray.Length ==> inputArray[k] == s[k]
    {
      var sum := 0.0;
      var j := i;
      while j < i + WINDOW_SIZE
        invariant i <= j <= i + WINDOW_SIZE
        invariant sum == Sum(s, i, j)
      {
        sum := sum + inputArray[j];
        j := j + 1;
      }
      inputArray[i] := sum / WINDOW_SIZE as real;
      i := i + 1;
    }
    tooShort := false;
    ghost var prefix := s[..arraySize];
    forall k | 0 <= k <= arraySize - WINDOW_SIZE
      ensures WindowMean(prefix, k) == WindowMean(s, k)
    {
      SumOfPrefix(s, arraySize, k, k + WINDOW_SIZE);
    }
    assert inputArray[..] == Smooth(prefix) + s[arraySize..];
  }

  lemma {:induction false} SumOfPrefix(s: seq<real>, n: nat, lo: nat, hi: nat)
    requires lo <= hi <= n <= |s|
    ensures Sum(s[..n], lo, hi) == Sum(s, lo, hi)
    decreases hi - lo
  {
    if lo < hi {
      SumOfPrefix(s, n, lo, hi - 1);
    }
  }

  lemma {:induction false} SumBounds(s: seq<real>, lo: nat, hi: nat, low: real, high: real)
    requires lo <= hi <= |s|
    requires forall k :: lo <= k < hi ==> low <= s[k] <= high
    ensures (hi - lo) as real * low <= Sum(s, lo, hi) <= (hi - lo) as real * high
    decreases hi - lo
  {
    if lo < hi {
      SumBounds(s, lo, hi - 1, low, high);
      assert (hi - lo) as real * low == (hi - 1 - lo) as real * low + low;
      assert (hi - lo) as real * high == (hi - 1 - lo) as real * high + high;
    }
  }

  /** Every window mean lies between the smallest and the largest sample of its window. */
  lemma WindowMeanWithin(s: seq<real>, i: nat, low: real, high: real)
    requires i + WINDOW_SIZE <= |s|
    requires forall k :: i <= k < i + WINDOW_SIZE ==> low <= s[k] <= high
    ensures low <= WindowMean(s, i) <= high
  {
    SumBounds(s, i, i + WINDOW_SIZE, low, high);
  }

  /** Smoothing never leaves the range of the raw samples (so magnitudes stay non-negative). */
  lemma SmoothWithinRange(s: seq<real>, low: real, high: real)
    requires forall k :: 0 <= k < |s| ==> low <= s[k] <= high
    ensures forall k :: 0 <= k < |s| ==> low <= Smooth(s)[k] <= high
  {
    if |s| >= WINDOW_SIZE {
      forall k | 0 <= k <= |s| - WINDOW_SIZE
        ensures low <= WindowMean(s, k) <= high
      {
        WindowMeanWithin(s, k, low, high);
      }
    }
  }

  /** A steady signal is left as it is. */
  lemma SmoothConstant(s: seq<real>, c: real)
    requires forall k :: 0 <= k < |s| ==> s[k] == c
    ensures Smooth(s) == s
  {
    SmoothWithinRange(s, c, c);
  }

  /** The window mean is the five-sample average (s[i] + ... + s[i + 4]) / 5. */
  lemma WindowMeanOfFive(s: seq<real>, i: nat)
    requires i + WINDOW_SIZE <= |s|
    ensures WindowMean(s, i) == (s[i] + s[i + 1] + s[i + 2] + s[i + 3] + s[i + 4]) / 5.0
  {
    assert Sum(s, i, i + 5) == Sum(s, i, i + 3) + s[i + 3] + s[i + 4];
    assert Sum(s, i, i + 3) == Sum(s, i, i + 1) + s[i + 1] + s[i + 2];
  }
}
