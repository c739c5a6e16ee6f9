/**
 The maximum drawdown of an equity series, computed in one pass with a running peak.
 */
module Drawdown {
  import opened Reals

  /** The largest value among the first `j + 1` entries. */
  function Peak(series: seq<real>, j: nat): (p: real)
    requires j < |series|
    ensures forall i :: 0 <= i <= j ==> series[i] <= p
    ensures exists i :: 0 <= i <= j && series[i] == p
  {
    if j == 0 then series[0]
    else
      var before := Peak(series, j - 1);
      if series[j] > before then series[j] else before
  }

  /** The fraction of `from` that is lost when the value falls to `to`. */
  function Loss(from: real, to: real): real
    requires from != 0.0
  {
    (from - to) / from
  }

  /** What is lost is what is not kept. */
  lemma KeptOfPeak(from: real, to: real)
    requires from > 0.0
    ensures Loss(from, to) == 1.0 - to / from && to / from * from == to && (to >= 0.0 ==> to / from >= 0.0)
  {
    QuotientTimes(to, from);
    assert (1.0 - to / from) * from == from - to;
    QuotientIs(from - to, from, 1.0 - to / from);
    ProductOrder(to / from, 0.0, from);
  }

  /** A non-negative value is a larger loss from a higher peak. */
  lemma HigherPeakLosesMore(low: real, high: real, to: real)
    requires 0.0 < low <= high && 0.0 <= to
    ensures Loss(low, to) <= Loss(high, to)
  {
    KeptOfPeak(low, to);
    KeptOfPeak(high, to);
    LessOfMore(to / high, to / low, low, high);
  }

  lemma LossWithinUnit(from: real, to: real)
    requires 0.0 <= to <= from && 0.0 < from
    ensures 0.0 <= Loss(from, to) <= 1.0
  {
    KeptOfPeak(from, to);
    QuotientOrder(to, from, from);
    QuotientIs(from, from, 1.0);
  }

  /** The loss at `j` from the running peak, in percent. */
  function PeakLossPct(series: seq<real>, j: nat): real
    requires j < |series| && series[0] > 0.0
  {
    Loss(Peak(series, j), series[j]) * 100.0
  }

  /** The fall from a positive entry `i` to entry `j`, in percent. */
  function FallPct(series: seq<real>, i: nat, j: nat): real
    requires i <= j < |series| && series[i] > 0.0
  {
    Loss(series[i], series[j]) * 100.0
  }

  /** The largest of the first `k` peak losses, as a fraction. */
  function LargestPeakLoss(series: seq<real>, k: nat): real
    requires k <= |series| && (k > 0 ==> series[0] > 0.0)
  {
    if k == 0 then 0.0
    else
      var before, here := LargestPeakLoss(series, k - 1), Loss(Peak(series, k - 1), series[k - 1]);
      if here > before then here else before
  }

  predicate NonNegative(series: seq<real>) {
    forall i :: 0 <= i < |series| ==> series[i] >= 0.0
  }

  /** `pct` is the largest loss from a running peak. */
  predicate IsMaxPeakLoss(series: seq<real>, pct: real)
    requires series != [] && series[0] > 0.0
  {
    && (forall j :: 0 <= j < |series| ==> PeakLossPct(series, j) <= pct)
    && (exists j :: 0 <= j < |series| && PeakLossPct(series, j) == pct)
  }

  /** `pct` is the largest fall between any two moments that starts from a positive value. */
  predicate IsMaxFall(series: seq<real>, pct: real) {
    && (forall i, j :: 0 <= i <= j < |series| && series[i] > 0.0 ==> FallPct(series, i, j) <= pct)
    && (exists i, j :: 0 <= i <= j < |series| && series[i] > 0.0 && FallPct(series, i, j) == pct)
  }

  /** For any series with a positive head the result is the largest loss from a running peak.
      It is also the largest fall between any two moments exactly when no entry lies deeper below zero
      relative to the lowest positive value before it than the deepest does relative to its peak. So it
      is when no entry is negative, and then lies between 0 and 100. */
  method MaxDrawdownPct(series: seq<real>) returns (pct: real)
    requires series != [] && series[0] > 0.0
    ensures IsMaxPeakLoss(series, pct)
    ensures NonNegative(series) ==> 0.0 <= pct <= 100.0 && IsMaxFall(series, pct)
    ensures IsMaxFall(series, pct) <==> LowDepth(series, |series|) <= PeakDepth(series, |series|)
  {
    hide IsMaxFall, IsMaxPeakLoss, LowDepth, PeakDepth;
    var peak := series[0];
    var mdd := 0.0;
    for k := 0 to |series|
      invariant peak == Peak(series, if k == 0 then 0 else k - 1)
      invariant mdd == LargestPeakLoss(series, k)
    {
      var v := series[k];
      if v > peak {
        peak := v;
      }
      assert peak == Peak(series, k);
      var dd := Loss(peak, v);
      if dd > mdd {
        mdd := dd;
      }
    }
    pct := mdd * 100.0;
    LargestPeakLossIsMaximum(series);
    PairwiseIff(series);
    if NonNegative(series) {
      LargestPeakLossIsPairwise(series);
    }
  }

  lemma {:induction false} LargestPeakLossBounds(series: seq<real>, j: nat, k: nat)
    requires j < k <= |series| && series[0] > 0.0
    ensures Loss(Peak(series, j), series[j]) <= LargestPeakLoss(series, k)
    decreases k
  {
    if j < k - 1 {
      LargestPeakLossBounds(series, j, k - 1);
    }
  }

  lemma {:induction false} LargestPeakLossAttained(series: seq<real>, k: nat) returns (at: nat)
    requires 0 < k <= |series| && series[0] > 0.0
    ensures at < k && Loss(Peak(series, at), series[at]) == LargestPeakLoss(series, k)
  {
    if k == 1 {
      at := 0;
    } else if Loss(Peak(series, k - 1), series[k - 1]) > LargestPeakLoss(series, k - 1) {
      at := k - 1;
    } else {
      at := LargestPeakLossAttained(series, k - 1);
    }
  }

  lemma LargestPeakLossIsMaximum(series: seq<real>)
    requires series != [] && series[0] > 0.0
    ensures IsMaxPeakLoss(series, LargestPeakLoss(series, |series|) * 100.0)
  {
    var pct := LargestPeakLoss(series, |series|) * 100.0;
    forall j | 0 <= j < |series|
      ensures PeakLossPct(series, j) <= pct
    {
      LargestPeakLossBounds(series, j, |series|);
    }
    var at := LargestPeakLossAttained(series, |series|);
    assert PeakLossPct(series, at) == pct;
  }

  lemma PairBelowPeak(series: seq<real>, i: nat, j: nat)
    requires i <= j < |series| && series[0] > 0.0 && series[i] > 0.0 && series[j] >= 0.0
    ensures FallPct(series, i, j) <= LargestPeakLoss(series, |series|) * 100.0
  {
    HigherPeakLosesMore(series[i], Peak(series, j), series[j]);
    LargestPeakLossBounds(series, j, |series|);
  }

  lemma LargestPeakLossIsPairwise(series: seq<real>)
    requires series != [] && series[0] > 0.0 && NonNegative(series)
    ensures var pct := LargestPeakLoss(series, |series|) * 100.0;
      0.0 <= pct <= 100.0 && IsMaxFall(series, pct)
  {
    var pct := LargestPeakLoss(series, |series|) * 100.0;
    var at := LargestPeakLossAttained(series, |series|);
    LossWithinUnit(Peak(series, at), series[at]);
    forall i, j | 0 <= i <= j < |series| && series[i] > 0.0
      ensures FallPct(series, i, j) <= pct
    {
      PairBelowPeak(series, i, j);
    }
    var i :| 0 <= i <= at && series[i] == Peak(series, at);
    assert FallPct(series, i, at) == pct;
  }

  /* Negative entries. */

  /** The smallest positive value among the first `j + 1` entries. */
  function LowestPositive(series: seq<real>, j: nat): (p: real)
    requires j < |series| && series[0] > 0.0
    ensures p > 0.0 && forall i :: 0 <= i <= j && series[i] > 0.0 ==> p <= series[i]
    ensures exists i :: 0 <= i <= j && series[i] == p
  {
    if j == 0 then series[0]
    else
      var before := LowestPositive(series, j - 1);
      if 0.0 < series[j] < before then series[j] else before
  }

  /** How far a value lies below zero, as a multiple of a positive level. */
  function Depth(level: real, v: real): (d: real)
    requires level > 0.0
    ensures d >= 0.0
  {
    if v < 0.0 then -v / level else 0.0
  }

  /** The greatest depth of the first `k` entries, each relative to the running peak. */
  function PeakDepth(series: seq<real>, k: nat): (d: real)
    requires k <= |series| && (k > 0 ==> series[0] > 0.0)
    ensures d >= 0.0
  {
    if k == 0 then 0.0
    else
      var before, here := PeakDepth(series, k - 1), Depth(Peak(series, k - 1), series[k - 1]);
      if here > before then here else before
  }

  /** The greatest depth of the first `k` entries, each relative to the lowest positive value so far. */
  function LowDepth(series: seq<real>, k: nat): (d: real)
    requires k <= |series| && (k > 0 ==> series[0] > 0.0)
    ensures d >= 0.0
  {
    if k == 0 then 0.0
    else
      var before, here := LowDepth(series, k - 1), Depth(LowestPositive(series, k - 1), series[k - 1]);
      if here > before then here else before
  }

  lemma LossByDepth(level: real, v: real)
    requires level > 0.0
    ensures v < 0.0 ==> Loss(level, v) == 1.0 + Depth(level, v) > 1.0
    ensures v >= 0.0 ==> Loss(level, v) <= 1.0
  {
    KeptOfPeak(level, v);
    assert -v == -(v / level) * level;
    QuotientIs(-v, level, -(v / level));
    ProductOrder(v / level, 0.0, level);
  }

  lemma LowerLevelIsDeeper(low: real, high: real, v: real)
    requires 0.0 < low <= high
    ensures Depth(high, v) <= Depth(low, v)
  {
    if v < 0.0 {
      QuotientTimes(-v, high);
      QuotientTimes(-v, low);
      ProductOrder(-v / low, 0.0, low);
      LessOfMore(-v / high, -v / low, low, high);
    }
  }

  /** Once an entry is negative, the largest loss from a peak is the whole peak and the greatest depth. */
  lemma {:induction false} PeakLossByDepth(series: seq<real>, k: nat)
    requires 0 < k <= |series| && series[0] > 0.0
    ensures if NonNegative(series[..k]) then LargestPeakLoss(series, k) <= 1.0 && PeakDepth(series, k) == 0.0
            else LargestPeakLoss(series, k) == 1.0 + PeakDepth(series, k) && PeakDepth(series, k) > 0.0
  {
    hide Loss, Depth, Peak;
    LossByDepth(Peak(series, k - 1), series[k - 1]);
    NonNegativeOneMore(series, k);
    if series[k - 1] >= 0.0 {
      DepthOfPositive(Peak(series, k - 1), series[k - 1]);
    }
    hide NonNegative;
    if k > 1 {
      PeakLossByDepth(series, k - 1);
    }
  }

  lemma NonNegativeOneMore(series: seq<real>, k: nat)
    requires 0 < k <= |series|
    ensures NonNegative(series[..k]) <==> NonNegative(series[..k - 1]) && series[k - 1] >= 0.0
    ensures NonNegative(series[..0])
  {
  }

  lemma DepthOfPositive(level: real, v: real)
    requires level > 0.0 && v >= 0.0
    ensures Depth(level, v) == 0.0
  {
  }

  lemma {:induction false} LowDepthBounds(series: seq<real>, j: nat, k: nat)
    requires j < k <= |series| && series[0] > 0.0
    ensures Depth(LowestPositive(series, j), series[j]) <= LowDepth(series, k)
    decreases k
  {
    if j < k - 1 {
      LowDepthBounds(series, j, k - 1);
    }
  }

  lemma {:induction false} LowDepthAttained(series: seq<real>, k: nat) returns (at: nat)
    requires 0 < k <= |series| && series[0] > 0.0 && LowDepth(series, k) > 0.0
    ensures at < k && Depth(LowestPositive(series, at), series[at]) == LowDepth(series, k)
  {
    if k == 1 || Depth(LowestPositive(series, k - 1), series[k - 1]) > LowDepth(series, k - 1) {
      at := k - 1;
    } else {
      at := LowDepthAttained(series, k - 1);
    }
  }

  /** A fall to a negative entry is at most the whole and its depth below the lowest positive value. */
  lemma FallByDepth(series: seq<real>, i: nat, j: nat)
    requires i <= j < |series| && series[0] > 0.0 && series[i] > 0.0 && series[j] < 0.0
    ensures Loss(series[i], series[j]) <= 1.0 + LowDepth(series, |series|)
  {
    LossByDepth(series[i], series[j]);
    LowerLevelIsDeeper(LowestPositive(series, j), series[i], series[j]);
    LowDepthBounds(series, j, |series|);
  }

  lemma DeepestFallIsFound(series: seq<real>)
    requires series != [] && series[0] > 0.0 && IsMaxFall(series, LargestPeakLoss(series, |series|) * 100.0)
    ensures LowDepth(series, |series|) <= PeakDepth(series, |series|)
  {
    hide Loss, Depth, LargestPeakLoss, LowDepth, PeakDepth;
    var n := |series|;
    if LowDepth(series, n) > 0.0 {
      var at := LowDepthAttained(series, n);
      var i :| 0 <= i <= at && series[i] == LowestPositive(series, at);
      if series[at] >= 0.0 {
        DepthOfPositive(LowestPositive(series, at), series[at]);
      }
      LossByDepth(series[i], series[at]);
      assert FallPct(series, i, at) <= LargestPeakLoss(series, n) * 100.0;
      assert series[..n] == series;
      PeakLossByDepth(series, n);
    }
  }

  lemma FallsAreBounded(series: seq<real>)
    requires series != [] && series[0] > 0.0 && LowDepth(series, |series|) <= PeakDepth(series, |series|)
    ensures IsMaxFall(series, LargestPeakLoss(series, |series|) * 100.0)
  {
    hide Loss, Depth, LargestPeakLoss, LowDepth, PeakDepth;
    var n := |series|;
    var pct := LargestPeakLoss(series, n) * 100.0;
    forall i, j | 0 <= i <= j < n && series[i] > 0.0
      ensures FallPct(series, i, j) <= pct
    {
      if series[j] >= 0.0 {
        PairBelowPeak(series, i, j);
      } else {
        FallByDepth(series, i, j);
        assert series[..n] == series;
        PeakLossByDepth(series, n);
      }
    }
    var at := LargestPeakLossAttained(series, n);
    var i :| 0 <= i <= at && series[i] == Peak(series, at);
    assert FallPct(series, i, at) == pct;
  }

  /** The one-pass result is the largest fall between any two moments exactly when the deepest entry
      below zero is no deeper relative to the lowest positive value so far than relative to its peak. */
  lemma PairwiseIff(series: seq<real>)
    requires series != [] && series[0] > 0.0
    ensures IsMaxFall(series, LargestPeakLoss(series, |series|) * 100.0)
            <==> LowDepth(series, |series|) <= PeakDepth(series, |series|)
  {
    hide IsMaxFall, LargestPeakLoss, LowDepth, PeakDepth;
    if IsMaxFall(series, LargestPeakLoss(series, |series|) * 100.0) {
      DeepestFallIsFound(series);
    } else if LowDepth(series, |series|) <= PeakDepth(series, |series|) {
      FallsAreBounded(series);
    }
  }

  /** With a negative entry the two notions can part: the pass reports a 150% drawdown where the fall
      from the first entry is 200%. They need not. */
  lemma NegativeEquityBreaksPairwise(s: seq<real>, t: seq<real>)
    requires s == [1.0, 2.0, -1.0] && t == [100.0, -10.0]
    ensures LargestPeakLoss(s, 3) == 1.5 && FallPct(s, 0, 2) == 200.0 && !IsMaxFall(s, LargestPeakLoss(s, 3) * 100.0)
    ensures IsMaxFall(t, LargestPeakLoss(t, 2) * 100.0)
  {
    assert LargestPeakLoss(s, 1) == 0.0 && LargestPeakLoss(s, 2) == 0.0;
    assert FallPct(s, 0, 2) == 200.0;
    assert Peak(t, 1) == 100.0 && LowestPositive(t, 1) == 100.0;
    assert PeakDepth(t, 1) == 0.0;
    assert LowDepth(t, 1) == 0.0;
    PairwiseIff(t);
  }
}
