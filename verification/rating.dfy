/** Review averages kept exactly, in integer tenths of a star. */
module Rating {

  /** The total taken from the front: first score plus the rest. */
  function SumFromFront(scores: seq<int>): int {
    if |scores| == 0 then 0 else scores[0] + SumFromFront(scores[1..])
  }

  /** `scores.reduce((sum, x) => sum + x, 0)`: the left-to-right total, which
      equals the total taken from the front. */
  function Sum(scores: seq<int>): (total: int)
    ensures total == SumFromFront(scores)
  {
    if |scores| == 0 then 0
    else
      var init, last := scores[..|scores| - 1], scores[|scores| - 1];
      assert scores == init + [last];
      SumFromFrontSnoc(init, last);
      Sum(init) + last
  }

  lemma {:induction false} SumFromFrontSnoc(a: seq<int>, x: int)
    ensures SumFromFront(a + [x]) == SumFromFront(a) + x
  {
    if |a| > 0 {
      assert (a + [x])[1..] == a[1..] + [x];
      SumFromFrontSnoc(a[1..], x);
    }
  }

  /** `Math.round(mean * 10)` for the mean of `scores`: the number of tenths
      nearest to the mean, a tie going up, as `Math.round` rounds halves
      toward positive infinity. Ten times the mean lies in
      `[t - 1/2, t + 1/2)`, written here without fractions. */
  function MeanTenths(scores: seq<int>): (t: int)
    requires |scores| > 0
    ensures 2 * |scores| * t - |scores| <= 20 * Sum(scores) < 2 * |scores| * t + |scores|
  {
    var n := |scores|;
    var q := (20 * Sum(scores) + n) / (2 * n);
    assert 20 * Sum(scores) + n == 2 * n * q + (20 * Sum(scores) + n) % (2 * n);
    q
  }

  /** The rounding is unique: only one number of tenths lies within half a
      tenth of the mean, rounding ties up. */
  lemma MeanTenthsUnique(scores: seq<int>, t: int)
    requires |scores| > 0
    requires 2 * |scores| * t - |scores| <= 20 * Sum(scores) < 2 * |scores| * t + |scores|
    ensures t == MeanTenths(scores)
  {
    RoundingUnique(|scores|, Sum(scores), t, MeanTenths(scores));
  }

  /** Two numbers of tenths both within half a tenth of `total / n`, ties up, are equal. */
  lemma RoundingUnique(n: int, total: int, t: int, m: int)
    requires n > 0
    requires 2 * n * t - n <= 20 * total < 2 * n * t + n
    requires 2 * n * m - n <= 20 * total < 2 * n * m + n
    ensures t == m
  {
    if t < m {
      MulLeftMonotone(2 * n, t + 1, m);
    } else if m < t {
      MulLeftMonotone(2 * n, m + 1, t);
    }
  }

  lemma MulLeftMonotone(k: int, a: int, b: int)
    requires k >= 0 && a <= b
    ensures k * a <= k * b
  {
  }

  /** The total of `n` scores drawn from `[lo, hi]` lies in `[n * lo, n * hi]`. */
  lemma {:induction false} SumBounds(scores: seq<int>, lo: int, hi: int)
    requires forall i :: 0 <= i < |scores| ==> lo <= scores[i] <= hi
    ensures |scores| * lo <= Sum(scores) <= |scores| * hi
  {
    if |scores| > 0 {
      var n, init := |scores|, scores[..|scores| - 1];
      SumBounds(init, lo, hi);
      assert (n - 1) * lo + lo == n * lo;
      assert (n - 1) * hi + hi == n * hi;
    }
  }

  /** The rounded mean of scores drawn from `[lo, hi]` lies in `[10 * lo, 10 * hi]` tenths. */
  lemma MeanTenthsBounds(scores: seq<int>, lo: int, hi: int)
    requires |scores| > 0
    requires forall i :: 0 <= i < |scores| ==> lo <= scores[i] <= hi
    ensures 10 * lo <= MeanTenths(scores) <= 10 * hi
  {
    SumBounds(scores, lo, hi);
    RoundingBounds(|scores|, Sum(scores), MeanTenths(scores), lo, hi);
  }

  /** Rounding `total / n` to tenths stays within `[10 * lo, 10 * hi]` when
      the total lies in `[n * lo, n * hi]`. */
  lemma RoundingBounds(n: int, total: int, t: int, lo: int, hi: int)
    requires n > 0
    requires 2 * n * t - n <= 20 * total < 2 * n * t + n
    requires n * lo <= total <= n * hi
    ensures 10 * lo <= t <= 10 * hi
  {
    if t < 10 * lo {
      MulLeftMonotone(n, 2 * t + 1, 20 * lo - 1);
    }
    if t > 10 * hi {
      MulLeftMonotone(n, 20 * hi + 1, 2 * t - 1);
    }
  }

  /** Adding one score adds it to the total: the running average needs only
      the previous total and the new score. */
  lemma SumAppend(scores: seq<int>, x: int)
    ensures Sum(scores + [x]) == Sum(scores) + x
  {
    assert (scores + [x])[..|scores|] == scores;
  }
}
