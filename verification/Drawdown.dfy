/** Single-pass drawdowns, with the indices that witness the worst of them. */
module Drawdown {
  import opened Records

  predicate Positive(values: seq<real>) {
    forall i :: 0 <= i < |values| ==> values[i] > 0.0
  }

  /** The loss of whoever bought at i and looks at j. */
  function Loss(values: seq<real>, i: nat, j: nat): real
    requires i < |values| && j < |values| && values[i] > 0.0
  {
    values[j] / values[i] - 1.0
  }

  /** The first maximum of the values up to j. */
  predicate IsPeak(values: seq<real>, peak: nat, j: nat)
    requires j < |values|
  {
    && peak <= j
    && (forall k :: 0 <= k <= j ==> values[k] <= values[peak])
    && (forall k :: 0 <= k < peak ==> values[k] < values[peak])
  }

  /** The first index after the trough that is back at the peak's level, if there is one. */
  predicate IsRecovery(values: seq<real>, peak: nat, trough: nat, recovered: Option<nat>)
    requires peak < |values| && trough < |values|
  {
    match recovered
    case None => forall k :: trough < k < |values| ==> values[k] < values[peak]
    case Some(r) =>
      && trough < r < |values| && values[r] >= values[peak]
      && (forall k :: trough < k < r ==> values[k] < values[peak])
  }

  /** No purchase and no later valuation before n lose more. */
  predicate NoneWorse(values: seq<real>, n: nat, worst: real)
    requires Positive(values) && n <= |values|
  {
    forall i: nat, j: nat :: i <= j < n ==> Loss(values, i, j) >= worst
  }

  /** Every purchase and later valuation before n lose strictly less. */
  predicate AllBetter(values: seq<real>, n: nat, worst: real)
    requires Positive(values) && n <= |values|
  {
    forall i: nat, j: nat :: i <= j < n ==> Loss(values, i, j) > worst
  }

  /** The worst loss anyone looks at in j. */
  predicate IsDrawdownAt(values: seq<real>, drawdown: real, j: nat)
    requires Positive(values) && j < |values|
  {
    && (exists i: nat :: i <= j && drawdown == Loss(values, i, j))
    && (forall i: nat :: i <= j ==> Loss(values, i, j) >= drawdown)
  }

  datatype Summary = Summary(maximum: real, peak: nat, trough: nat, recovered: Option<nat>, current: real)

  /** The worst loss over every pair of purchase and valuation, with its first trough, peak and recovery. */
  predicate IsSummary(values: seq<real>, s: Summary)
    requires values != [] && Positive(values)
  {
    && s.trough < |values| && IsPeak(values, s.peak, s.trough)
    && s.maximum == Loss(values, s.peak, s.trough)
    && NoneWorse(values, |values|, s.maximum)
    && AllBetter(values, s.trough, s.maximum)
    && IsRecovery(values, s.peak, s.trough, s.recovered)
    && IsDrawdownAt(values, s.current, |values| - 1)
  }

  lemma DeeperFromHigher(low: real, high: real, value: real)
    requires 0.0 < low <= high && value > 0.0
    ensures value / high <= value / low
  {
    assert value / low - value / high == value * (high - low) / (low * high);
    assert value * (high - low) >= 0.0 && low * high > 0.0;
  }

  /** From the peak the loss at j is the worst there is at j. */
  lemma WorstFromPeak(values: seq<real>, peak: nat, j: nat)
    requires Positive(values) && j < |values| && IsPeak(values, peak, j)
    ensures forall i: nat :: i <= j ==> Loss(values, i, j) >= Loss(values, peak, j)
  {
    forall i: nat | i <= j ensures Loss(values, i, j) >= Loss(values, peak, j) {
      DeeperFromHigher(values[i], values[peak], values[j]);
    }
  }

  /** The first record for each value: its drawdown. */
  predicate AreRecords(values: seq<real>, drawdowns: seq<real>)
    requires Positive(values)
  {
    && |drawdowns| <= |values|
    && (forall j: nat :: j < |drawdowns| ==> IsDrawdownAt(values, drawdowns[j], j))
  }

  /** What the pass knows of the values before n, n > 0. */
  predicate SummarizedUpTo(values: seq<real>, n: nat, worst: real, peak: nat, trough: nat)
    requires Positive(values) && n <= |values|
  {
    && trough < n && IsPeak(values, peak, trough) && worst == Loss(values, peak, trough)
    && NoneWorse(values, n, worst) && AllBetter(values, trough, worst)
  }

  lemma PeakMoves(values: seq<real>, peak: nat, j: nat)
    requires j + 1 < |values| && IsPeak(values, peak, j)
    ensures IsPeak(values, if values[j + 1] > values[peak] then j + 1 else peak, j + 1)
  {
  }

  lemma DrawdownFromPeak(values: seq<real>, peak: nat, j: nat)
    requires Positive(values) && j < |values| && IsPeak(values, peak, j)
    ensures IsDrawdownAt(values, Loss(values, peak, j), j)
  {
    WorstFromPeak(values, peak, j);
  }

  /** One more value: the summary moves to it exactly when it is strictly worse. */
  lemma OneMoreValue(values: seq<real>, n: nat, worst: real, worstPeak: nat, trough: nat, peak: nat)
    requires Positive(values) && n < |values|
    requires SummarizedUpTo(values, n, worst, worstPeak, trough) && IsPeak(values, peak, n)
    ensures var drawdown := Loss(values, peak, n);
            if drawdown < worst then SummarizedUpTo(values, n + 1, drawdown, peak, n)
            else SummarizedUpTo(values, n + 1, worst, worstPeak, trough)
  {
    WorstFromPeak(values, peak, n);
  }

  method DrawdownRecords(values: seq<real>) returns (drawdowns: seq<real>, s: Summary)
    requires values != [] && Positive(values)
    ensures |drawdowns| == |values| && AreRecords(values, drawdowns)
    ensures IsSummary(values, s)
  {
    var peakValue, peak := values[0], 0;
    var worst, worstPeak, trough := 0.0, 0, 0;
    drawdowns := [];
    var j := 0;
    hide IsDrawdownAt, NoneWorse, AllBetter;
    while j < |values|
      invariant 0 <= j <= |values| && |drawdowns| == j
      invariant peak < |values| && peakValue == values[peak]
      invariant j == 0 ==> peak == 0 && trough == 0 && worstPeak == 0 && worst == 0.0
      invariant j > 0 ==> IsPeak(values, peak, j - 1) && SummarizedUpTo(values, j, worst, worstPeak, trough)
      invariant AreRecords(values, drawdowns)
    {
      if j > 0 { PeakMoves(values, peak, j - 1); }
      if values[j] > peakValue {
        peakValue, peak := values[j], j;
      }
      DrawdownFromPeak(values, peak, j);
      var drawdown := values[j] / peakValue - 1.0;
      if j > 0 { OneMoreValue(values, j, worst, worstPeak, trough, peak); } else { FirstValue(values); }
      if drawdown < worst {
        worst, worstPeak, trough := drawdown, peak, j;
      }
      drawdowns := drawdowns + [drawdown];
      j := j + 1;
    }
    assert IsDrawdownAt(values, drawdowns[|drawdowns| - 1], |values| - 1);

    var recovered: Option<nat> := None;
    var k := trough + 1;
    while k < |values|
      invariant trough < k <= |values|
      invariant recovered == None
      invariant forall m :: trough < m < k ==> values[m] < values[worstPeak]
    {
      if values[k] >= values[worstPeak] {
        recovered := Some(k);
        break;
      }
      k := k + 1;
    }
    s := Summary(worst, worstPeak, trough, recovered, drawdowns[|drawdowns| - 1]);
  }

  lemma FirstValue(values: seq<real>)
    requires values != [] && Positive(values)
    ensures Loss(values, 0, 0) == 0.0 && SummarizedUpTo(values, 1, 0.0, 0, 0)
  {
  }

  // ----- the watchlist's own computation -----

  /** A loss that some purchase made, and none exceeded. */
  predicate IsWorstLoss(values: seq<real>, worst: real)
    requires Positive(values)
  {
    && NoneWorse(values, |values|, worst)
    && exists i: nat, j: nat :: i <= j < |values| && worst == Loss(values, i, j)
  }

  method MaximumDrawdown(prices: seq<real>) returns (worst: real)
    requires prices != [] && Positive(prices)
    ensures IsWorstLoss(prices, worst)
  {
    hide NoneWorse, AllBetter;
    var peak := prices[0];
    worst := 0.0;
    ghost var at, low, high := 0, 0, 0;
    var j := 0;
    while j < |prices|
      invariant 0 <= j <= |prices|
      invariant at < |prices| && peak == prices[at]
      invariant j == 0 ==> at == 0 && low == 0 && high == 0 && worst == 0.0
      invariant j > 0 ==> IsPeak(prices, at, j - 1) && SummarizedUpTo(prices, j, worst, low, high)
    {
      if j > 0 { PeakMoves(prices, at, j - 1); }
      if prices[j] > peak {
        peak, at := prices[j], j;
      }
      if j > 0 { OneMoreValue(prices, j, worst, low, high, at); } else { FirstValue(prices); }
      if prices[j] / peak - 1.0 < worst {
        worst, low, high := prices[j] / peak - 1.0, at, j;
      }
      j := j + 1;
    }
  }

  /** The two computations report the same number. */
  lemma DrawdownsAgree(values: seq<real>, s: Summary, worst: real)
    requires values != [] && Positive(values) && IsSummary(values, s) && IsWorstLoss(values, worst)
    ensures s.maximum == worst
  {
    assert Loss(values, s.peak, s.trough) >= worst;
  }

  /** The values leave no choice in the summary. */
  lemma SummaryIsDetermined(values: seq<real>, s: Summary, s': Summary)
    requires values != [] && Positive(values) && IsSummary(values, s) && IsSummary(values, s')
    ensures s == s'
  {
    assert Loss(values, s.peak, s.trough) == s.maximum && Loss(values, s'.peak, s'.trough) == s'.maximum;
    assert s.maximum == s'.maximum;
    assert s.trough == s'.trough;
    PeakIsDetermined(values, s.peak, s'.peak, s.trough);
    RecoveryIsDetermined(values, s.peak, s.trough, s.recovered, s'.recovered);
  }

  lemma PeakIsDetermined(values: seq<real>, p: nat, p': nat, j: nat)
    requires j < |values| && IsPeak(values, p, j) && IsPeak(values, p', j)
    ensures p == p'
  {
    assert values[p] <= values[p'] <= values[p];
  }

  lemma RecoveryIsDetermined(values: seq<real>, peak: nat, trough: nat, a: Option<nat>, b: Option<nat>)
    requires peak < |values| && trough < |values|
    requires IsRecovery(values, peak, trough, a) && IsRecovery(values, peak, trough, b)
    ensures a == b
  {
    assert a.Some? ==> values[a.value] >= values[peak];
    assert b.Some? ==> values[b.value] >= values[peak];
  }

  /** Drawdowns lie in (-1, 0]; the worst is 0 exactly when the values never fall. */
  lemma DrawdownRange(values: seq<real>, s: Summary)
    requires values != [] && Positive(values) && IsSummary(values, s)
    ensures -1.0 < s.maximum <= s.current <= 0.0
    ensures s.maximum == 0.0 <==> forall i, j :: 0 <= i <= j < |values| ==> values[i] <= values[j]
  {
    var last: nat := |values| - 1;
    LossSign(values, 0, 0);
    LossSign(values, last, last);
    LossSign(values, s.peak, s.trough);
    hide Loss;
    assert Loss(values, last, last) >= s.maximum;
    if s.maximum == 0.0 {
      forall i, j | 0 <= i <= j < |values| ensures values[i] <= values[j] {
        assert Loss(values, i, j) >= 0.0;
        LossSign(values, i, j);
      }
    }
    if forall i, j :: 0 <= i <= j < |values| ==> values[i] <= values[j] {
      assert values[s.peak] <= values[s.trough];
    }
  }

  lemma LossSign(values: seq<real>, i: nat, j: nat)
    requires Positive(values) && i < |values| && j < |values|
    ensures Loss(values, i, j) >= 0.0 <==> values[j] >= values[i]
    ensures Loss(values, i, j) > -1.0 && Loss(values, i, i) == 0.0
  {
    RatioAtLeastOne(values[j], values[i]);
    RatioPositive(values[j], values[i]);
  }

  lemma RatioAtLeastOne(a: real, b: real)
    requires b > 0.0
    ensures a / b >= 1.0 <==> a >= b
  {
    assert a / b * b == a;
  }

  lemma RatioPositive(a: real, b: real)
    requires a > 0.0 && b > 0.0
    ensures a / b > 0.0
  {
  }
}
