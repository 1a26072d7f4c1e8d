/** Rolling indicators over real-valued series: simple and exponential averages, and Wilder's RSI. */
module Indicators {
  import opened Records

  function Sum(values: seq<real>): real {
    if values == [] then 0.0 else Sum(values[..|values| - 1]) + values[|values| - 1]
  }

  lemma {:induction false} SumParts(a: seq<real>, b: seq<real>)
    ensures Sum(a + b) == Sum(a) + Sum(b)
  {
    if b == [] {
      assert a + b == a;
    } else {
      assert (a + b)[..|a + b| - 1] == a + b[..|b| - 1];
      SumParts(a, b[..|b| - 1]);
    }
  }

  // ----- simple moving average -----

  /** The window of the given length that ends with index i. */
  function Window(values: seq<real>, window: nat, i: nat): seq<real>
    requires 1 <= window <= i + 1 <= |values|
  {
    values[i + 1 - window..i + 1]
  }

  function Mean(values: seq<real>): real
    requires values != []
  {
    Sum(values) / |values| as real
  }

  function SmaAt(values: seq<real>, window: nat, i: nat): Option<real>
    requires window >= 1 && i < |values|
  {
    if i + 1 < window then None else Some(Mean(Window(values, window, i)))
  }

  /** The sum the loop keeps: of everything so far, or of the newest window. */
  function Rolling(values: seq<real>, window: nat, n: nat): real
    requires n <= |values|
  {
    Sum(if n <= window then values[..n] else values[n - window..n])
  }

  lemma RollingMoves(values: seq<real>, window: nat, n: nat)
    requires window >= 1 && n < |values|
    ensures Rolling(values, window, n + 1)
         == Rolling(values, window, n) + values[n] - if n >= window then values[n - window] else 0.0
  {
    if n < window {
      assert values[..n + 1][..n] == values[..n];
    } else {
      var before := values[n - window..n];
      assert before == [values[n - window]] + values[n - window + 1..n];
      SumParts([values[n - window]], values[n - window + 1..n]);
      assert Sum([values[n - window]]) == values[n - window];
      var moved := values[n - window + 1..n + 1];
      assert moved[..|moved| - 1] == values[n - window + 1..n];
      assert n == window ==> before == values[..n];
    }
  }

  method Sma(values: seq<real>, window: nat) returns (output: seq<Option<real>>)
    requires window >= 1
    ensures |output| == |values|
    ensures forall i :: 0 <= i < |values| ==> output[i] == SmaAt(values, window, i)
  {
    output := [];
    var rolling := 0.0;
    var i := 0;
    while i < |values|
      invariant 0 <= i <= |values| && |output| == i
      invariant rolling == Rolling(values, window, i)
      invariant forall k :: 0 <= k < i ==> output[k] == SmaAt(values, window, k)
    {
      RollingMoves(values, window, i);
      rolling := rolling + values[i];
      if i >= window {
        rolling := rolling - values[i - window];
      }
      assert i + 1 == window ==> values[..i + 1] == Window(values, window, i);
      output := output + [if i + 1 >= window then Some(rolling / window as real) else None];
      i := i + 1;
    }
  }

  // ----- exponential moving average -----

  function Power(base: real, n: nat): real {
    if n == 0 then 1.0 else base * Power(base, n - 1)
  }

  /** Observation k's share in the average at i: the multiplier, fading by its complement each step. */
  function EmaWeight(m: real, k: nat, i: nat): real
    requires k <= i
  {
    if k == 0 then Power(1.0 - m, i) else m * Power(1.0 - m, i - k)
  }

  /** The weighted sum of the first n observations, as seen from index i. */
  function EmaSum(values: seq<real>, m: real, n: nat, i: nat): real
    requires n <= i + 1 && n <= |values|
  {
    if n == 0 then 0.0 else EmaSum(values, m, n - 1, i) + EmaWeight(m, n - 1, i) * values[n - 1]
  }

  function WeightSum(m: real, n: nat, i: nat): real
    requires n <= i + 1
  {
    if n == 0 then 0.0 else WeightSum(m, n - 1, i) + EmaWeight(m, n - 1, i)
  }

  function EmaAt(values: seq<real>, m: real, i: nat): real
    requires i < |values|
  {
    EmaSum(values, m, i + 1, i)
  }

  function Multiplier(window: nat): (m: real)
    requires window >= 1
    ensures 0.0 < m <= 1.0
  {
    2.0 / (window + 1) as real
  }

  lemma EmaSumStep(values: seq<real>, m: real, n: nat, i: nat)
    requires n <= i + 1 && n <= |values|
    ensures EmaSum(values, m, n, i)
         == if n == 0 then 0.0 else EmaSum(values, m, n - 1, i) + EmaWeight(m, n - 1, i) * values[n - 1]
  {
  }

  lemma {:induction false} EmaFades(values: seq<real>, m: real, fade: real, n: nat, i: nat)
    requires n <= i + 1 && n <= |values| && fade == 1.0 - m
    ensures EmaSum(values, m, n, i + 1) == fade * EmaSum(values, m, n, i)
  {
    hide EmaSum, EmaWeight;
    EmaSumStep(values, m, n, i);
    EmaSumStep(values, m, n, i + 1);
    if n > 0 {
      EmaFades(values, m, fade, n - 1, i);
      WeightFades(m, fade, n - 1, i);
      FadedSum(fade, EmaSum(values, m, n - 1, i), EmaSum(values, m, n - 1, i + 1),
               EmaWeight(m, n - 1, i), EmaWeight(m, n - 1, i + 1), values[n - 1],
               EmaSum(values, m, n, i), EmaSum(values, m, n, i + 1));
    }
  }

  lemma WeightSumStep(m: real, n: nat, i: nat)
    requires n <= i + 1
    ensures WeightSum(m, n, i) == if n == 0 then 0.0 else WeightSum(m, n - 1, i) + EmaWeight(m, n - 1, i)
  {
  }

  lemma {:induction false} WeightSumFades(m: real, fade: real, n: nat, i: nat)
    requires n <= i + 1 && fade == 1.0 - m
    ensures WeightSum(m, n, i + 1) == fade * WeightSum(m, n, i)
  {
    hide WeightSum, EmaWeight;
    WeightSumStep(m, n, i);
    WeightSumStep(m, n, i + 1);
    if n > 0 {
      WeightSumFades(m, fade, n - 1, i);
      WeightFades(m, fade, n - 1, i);
      FadedSum(fade, WeightSum(m, n - 1, i), WeightSum(m, n - 1, i + 1),
               EmaWeight(m, n - 1, i), EmaWeight(m, n - 1, i + 1), 1.0,
               WeightSum(m, n, i), WeightSum(m, n, i + 1));
    }
  }

  lemma {:induction false} WeightFades(m: real, fade: real, k: nat, i: nat)
    requires k <= i && fade == 1.0 - m
    ensures EmaWeight(m, k, i + 1) == fade * EmaWeight(m, k, i)
  {
    PowerStep(fade, i - k);
    if k > 0 {
      Swap(m, fade, Power(fade, i - k));
    }
  }

  lemma PowerStep(base: real, n: nat)
    ensures Power(base, n + 1) == base * Power(base, n)
    ensures Power(base, 0) == 1.0
  {
  }

  lemma Swap(a: real, b: real, c: real)
    ensures a * (b * c) == b * (a * c)
  {
  }

  lemma OwnWeight(m: real, i: nat)
    requires i > 0
    ensures EmaWeight(m, i, i) == m
  {
    assert i - i == 0;
    assert Power(1.0 - m, i - i) == 1.0;
  }

  lemma FadedSum(fade: real, s: real, s': real, w: real, w': real, v: real, t: real, t': real)
    requires s' == fade * s && w' == fade * w
    requires t == s + w * v && t' == s' + w' * v
    ensures t' == fade * t
  {
    assert (fade * w) * v == fade * (w * v);
  }

  lemma FirstEma(values: seq<real>, m: real)
    requires values != []
    ensures EmaAt(values, m, 0) == values[0]
  {
    assert EmaSum(values, m, 0, 0) == 0.0;
    assert EmaWeight(m, 0, 0) == 1.0;
    assert EmaSum(values, m, 1, 0) == 0.0 + 1.0 * values[0];
  }

  method Ema(values: seq<real>, window: nat) returns (output: seq<real>)
    requires window >= 1 && values != []
    ensures |output| == |values|
    ensures forall i :: 0 <= i < |values| ==> output[i] == EmaAt(values, Multiplier(window), i)
  {
    var m := Multiplier(window);
    output := [values[0]];
    FirstEma(values, m);
    var i := 1;
    while i < |values|
      invariant 1 <= i <= |values| && |output| == i
      invariant forall k :: 0 <= k < i ==> output[k] == EmaAt(values, m, k)
    {
      EmaFades(values, m, 1.0 - m, i, i - 1);
      OwnWeight(m, i);
      output := output + [values[i] * m + output[i - 1] * (1.0 - m)];
      i := i + 1;
    }
  }

  lemma {:induction false} WeightsAreAWhole(m: real, i: nat)
    ensures WeightSum(m, i + 1, i) == 1.0
  {
    if i == 0 {
      assert WeightSum(m, 1, 0) == WeightSum(m, 0, 0) + EmaWeight(m, 0, 0);
    } else {
      WeightsAreAWhole(m, i - 1);
      WeightSumFades(m, 1.0 - m, i, i - 1);
      OwnWeight(m, i);
    }
  }

  lemma {:induction false} WeightNonNegative(m: real, k: nat, i: nat)
    requires 0.0 <= m <= 1.0 && k <= i
    ensures EmaWeight(m, k, i) >= 0.0
  {
    PowerNonNegative(1.0 - m, i);
    PowerNonNegative(1.0 - m, i - k);
    Product(m, Power(1.0 - m, i - k));
  }

  lemma PowerNonNegative(base: real, n: nat)
    requires base >= 0.0
    ensures Power(base, n) >= 0.0
  {
  }

  lemma {:induction false} EmaSumBounds(values: seq<real>, m: real, n: nat, i: nat, low: real, high: real)
    requires 0.0 <= m <= 1.0 && n <= i + 1 && n <= |values|
    requires forall k :: 0 <= k < n ==> low <= values[k] <= high
    ensures low * WeightSum(m, n, i) <= EmaSum(values, m, n, i) <= high * WeightSum(m, n, i)
  {
    hide EmaSum, WeightSum, EmaWeight;
    EmaSumStep(values, m, n, i);
    WeightSumStep(m, n, i);
    if n > 0 {
      EmaSumBounds(values, m, n - 1, i, low, high);
      WeightNonNegative(m, n - 1, i);
      BoundsMove(low, high, WeightSum(m, n - 1, i), EmaSum(values, m, n - 1, i), EmaWeight(m, n - 1, i), values[n - 1],
                 WeightSum(m, n, i), EmaSum(values, m, n, i));
    }
  }

  lemma BoundsMove(low: real, high: real, weights: real, sum: real, w: real, v: real, weights': real, sum': real)
    requires low * weights <= sum <= high * weights && w >= 0.0 && low <= v <= high
    requires weights' == weights + w && sum' == sum + w * v
    ensures low * weights' <= sum' <= high * weights'
  {
    Between(w, low, v, high);
    DistributeLeft(low, weights, w);
    DistributeLeft(high, weights, w);
  }

  lemma Between(w: real, low: real, v: real, high: real)
    requires w >= 0.0 && low <= v <= high
    ensures low * w <= w * v <= high * w
  {
  }

  lemma DistributeLeft(a: real, s: real, w: real)
    ensures a * (s + w) == a * s + a * w
  {
  }

  /** The average never leaves the range of the observations so far. */
  lemma EmaWithinRange(values: seq<real>, window: nat, i: nat, low: real, high: real)
    requires window >= 1 && i < |values| && forall k :: 0 <= k <= i ==> low <= values[k] <= high
    ensures low <= EmaAt(values, Multiplier(window), i) <= high
  {
    EmaSumBounds(values, Multiplier(window), i + 1, i, low, high);
    WeightsAreAWhole(Multiplier(window), i);
  }

  // ----- relative strength -----

  function Positive(change: real): real {
    if change > 0.0 then change else 0.0
  }

  /** The upward moves, and the downward ones as positive numbers; entry k is the move into index k + 1. */
  function Gains(values: seq<real>): (r: seq<real>)
    ensures |r| == if values == [] then 0 else |values| - 1
  {
    seq(if values == [] then 0 else |values| - 1,
        k requires 0 <= k < |values| - 1 => Positive(values[k + 1] - values[k]))
  }

  function Losses(values: seq<real>): (r: seq<real>)
    ensures |r| == if values == [] then 0 else |values| - 1
  {
    seq(if values == [] then 0 else |values| - 1,
        k requires 0 <= k < |values| - 1 => Positive(values[k] - values[k + 1]))
  }

  function Smooth(average: real, move: real, period: nat): real
    requires period >= 1
  {
    (average * (period - 1) as real + move) / period as real
  }

  /** Wilder's average of the first n moves: a mean to start with, then smoothed move by move. */
  function Wilder(moves: seq<real>, period: nat, n: nat): real
    requires 1 <= period <= n <= |moves|
  {
    if n == period then Mean(moves[..period])
    else Smooth(Wilder(moves, period, n - 1), moves[n - 1], period)
  }

  function Strength(gain: real, loss: real): real
    requires gain >= 0.0 && loss >= 0.0
  {
    if gain == 0.0 && loss == 0.0 then 50.0
    else if loss == 0.0 then 100.0
    else RatioPositive(gain, loss); 100.0 - 100.0 / (1.0 + gain / loss)
  }

  lemma RatioPositive(gain: real, loss: real)
    requires gain >= 0.0 && loss > 0.0
    ensures gain / loss >= 0.0
  {
  }

  function RsiAt(values: seq<real>, period: nat, i: nat): Option<real>
    requires period >= 1 && i < |values|
  {
    if i < period then None
    else
      WilderNonNegative(Gains(values), period, i);
      WilderNonNegative(Losses(values), period, i);
      Some(Strength(Wilder(Gains(values), period, i), Wilder(Losses(values), period, i)))
  }

  lemma {:induction false} SumNonNegative(values: seq<real>)
    requires forall k :: 0 <= k < |values| ==> values[k] >= 0.0
    ensures Sum(values) >= 0.0
    ensures Sum(values) == 0.0 <==> forall k :: 0 <= k < |values| ==> values[k] == 0.0
  {
    if values != [] {
      var front := values[..|values| - 1];
      SumNonNegative(front);
      assert forall k :: 0 <= k < |front| ==> values[k] == front[k];
      assert values[|values| - 1] >= 0.0;
      assert Sum(values) == Sum(front) + values[|values| - 1];
    }
  }

  lemma {:induction false} WilderNonNegative(moves: seq<real>, period: nat, n: nat)
    requires 1 <= period <= n <= |moves|
    requires forall k :: 0 <= k < |moves| ==> moves[k] >= 0.0
    ensures Wilder(moves, period, n) >= 0.0
  {
    if n == period {
      SumNonNegative(moves[..period]);
      Quotient(Sum(moves[..period]), period as real);
    } else {
      WilderNonNegative(moves, period, n - 1);
      Smoothed(Wilder(moves, period, n - 1), moves[n - 1], period);
    }
  }

  lemma Quotient(a: real, b: real)
    requires a >= 0.0 && b > 0.0
    ensures a / b >= 0.0 && (a / b == 0.0 <==> a == 0.0)
  {
  }

  lemma Smoothed(average: real, move: real, period: nat)
    requires average >= 0.0 && move >= 0.0 && period >= 1
    ensures var r := Smooth(average, move, period);
            r >= 0.0 && (period >= 2 ==> (r == 0.0 <==> average == 0.0 && move == 0.0))
  {
    Product(average, (period - 1) as real);
    Quotient(average * (period - 1) as real + move, period as real);
  }

  lemma Product(a: real, b: real)
    requires a >= 0.0 && b >= 0.0
    ensures a * b >= 0.0 && (b > 0.0 ==> (a * b == 0.0 <==> a == 0.0))
  {
  }

  method Rsi(values: seq<real>, period: nat) returns (output: seq<Option<real>>)
    requires period >= 1
    ensures |output| == |values|
    ensures forall i :: 0 <= i < |values| ==> output[i] == RsiAt(values, period, i)
  {
    output := seq(|values|, _ => None);
    var gains, losses := Gains(values), Losses(values);
    if |gains| < period {
      return;
    }
    var averageGain, averageLoss := Mean(gains[..period]), Mean(losses[..period]);
    WilderNonNegative(gains, period, period);
    WilderNonNegative(losses, period, period);
    hide Strength, Gains, Losses, Smooth;
    output := output[period := Some(Strength(averageGain, averageLoss))];
    var i := period + 1;
    while i < |values|
      invariant period + 1 <= i <= |values| && |output| == |values|
      invariant averageGain == Wilder(gains, period, i - 1) && averageLoss == Wilder(losses, period, i - 1)
      invariant forall k :: 0 <= k < i ==> output[k] == RsiAt(values, period, k)
    {
      averageGain := Smooth(averageGain, gains[i - 1], period);
      averageLoss := Smooth(averageLoss, losses[i - 1], period);
      WilderNonNegative(gains, period, i);
      WilderNonNegative(losses, period, i);
      output := output[i := Some(Strength(averageGain, averageLoss))];
      i := i + 1;
    }
  }

  /** The strength is the gains' percentage of all movement, and 50 when nothing moved. */
  lemma StrengthIsShare(gain: real, loss: real)
    requires gain >= 0.0 && loss >= 0.0
    ensures if gain + loss == 0.0 then Strength(gain, loss) == 50.0
            else Strength(gain, loss) == 100.0 * gain / (gain + loss)
  {
    if loss > 0.0 {
      ShareOfWhole(gain, loss);
    } else if gain > 0.0 {
      assert 100.0 * gain / (gain + loss) == 100.0;
    }
  }

  lemma TwoShares(gain: real, loss: real)
    requires gain + loss != 0.0
    ensures 100.0 * gain / (gain + loss) + 100.0 * loss / (gain + loss) == 100.0
  {
    var whole := gain + loss;
    assert (100.0 * gain / whole + 100.0 * loss / whole) * whole == 100.0 * gain + 100.0 * loss;
  }

  lemma QuotientIs(a: real, b: real, q: real)
    requires b != 0.0 && q * b == a
    ensures a / b == q
  {
  }

  lemma Cancel(a: real, b: real, c: real)
    requires c != 0.0 && a * c == b * c
    ensures a == b
  {
  }

  lemma InverseRatio(a: real, b: real)
    requires a > 0.0 && b > 0.0
    ensures a / b > 0.0 && 100.0 / (a / b) == 100.0 * b / a
  {
    var ratio, inverse := a / b, 100.0 * b / a;
    assert ratio * b == a && inverse * a == 100.0 * b;
    assert (ratio * inverse) * b == inverse * (ratio * b);
    Cancel(ratio * inverse, 100.0, b);
    QuotientIs(100.0, ratio, inverse);
  }

  lemma ShareOfWhole(gain: real, loss: real)
    requires gain >= 0.0 && loss > 0.0
    ensures 1.0 + gain / loss > 0.0 && 100.0 - 100.0 / (1.0 + gain / loss) == 100.0 * gain / (gain + loss)
  {
    RatioPositive(gain, loss);
    QuotientIs(gain + loss, loss, 1.0 + gain / loss);
    InverseRatio(gain + loss, loss);
    TwoShares(gain, loss);
  }

  /** From index period on the indicator is the strength of the two averages. */
  lemma RsiIsStrength(values: seq<real>, period: nat, i: nat)
    requires 1 <= period <= i < |values|
    ensures var gain, loss := Wilder(Gains(values), period, i), Wilder(Losses(values), period, i);
            gain >= 0.0 && loss >= 0.0 && RsiAt(values, period, i) == Some(Strength(gain, loss))
  {
    WilderNonNegative(Gains(values), period, i);
    WilderNonNegative(Losses(values), period, i);
    hide Strength, Wilder, Gains, Losses;
  }

  lemma RsiRange(values: seq<real>, period: nat, i: nat)
    requires period >= 1 && i < |values|
    ensures RsiAt(values, period, i).Some? <==> i >= period
    ensures i >= period ==> 0.0 <= RsiAt(values, period, i).value <= 100.0
  {
    if i >= period {
      RsiIsStrength(values, period, i);
      hide RsiAt, Wilder, Gains, Losses, Strength;
      StrengthRange(Wilder(Gains(values), period, i), Wilder(Losses(values), period, i));
    }
  }

  lemma StrengthRange(gain: real, loss: real)
    requires gain >= 0.0 && loss >= 0.0
    ensures 0.0 <= Strength(gain, loss) <= 100.0
  {
    StrengthIsShare(gain, loss);
    hide Strength;
    if gain + loss > 0.0 { ShareRange(gain, loss); }
  }

  lemma ShareRange(gain: real, loss: real)
    requires gain >= 0.0 && loss >= 0.0 && gain + loss > 0.0
    ensures 0.0 <= 100.0 * gain / (gain + loss) <= 100.0
  {
    Quotient(100.0 * gain, gain + loss);
    Quotient(100.0 * loss, gain + loss);
    TwoShares(gain, loss);
  }

  function Negated(values: seq<real>): seq<real> {
    seq(|values|, i requires 0 <= i < |values| => -values[i])
  }

  /** Turning the series upside down turns the indicator upside down. */
  lemma RsiOfNegated(values: seq<real>, period: nat, i: nat)
    requires period >= 1 && i < |values|
    ensures i >= period ==> RsiAt(Negated(values), period, i) == Some(100.0 - RsiAt(values, period, i).value)
  {
    if i >= period {
      MovesMirrored(values);
      RsiIsStrength(values, period, i);
      RsiIsStrength(Negated(values), period, i);
      hide RsiAt, Wilder, Gains, Losses, Negated, Strength;
      StrengthMirrored(Wilder(Gains(values), period, i), Wilder(Losses(values), period, i));
    }
  }

  lemma MovesMirrored(values: seq<real>)
    ensures Gains(Negated(values)) == Losses(values) && Losses(Negated(values)) == Gains(values)
  {
  }

  lemma StrengthMirrored(gain: real, loss: real)
    requires gain >= 0.0 && loss >= 0.0
    ensures Strength(loss, gain) == 100.0 - Strength(gain, loss)
  {
    StrengthIsShare(gain, loss);
    StrengthIsShare(loss, gain);
    hide Strength;
    if gain + loss != 0.0 {
      TwoShares(gain, loss);
    }
  }

  /** No move so far went that way. */
  predicate NoMove(moves: seq<real>, n: nat)
    requires n <= |moves|
  {
    forall k :: 0 <= k < n ==> moves[k] == 0.0
  }

  /** With a period of at least two an average never forgets a move completely. */
  lemma {:induction false} WilderRemembers(moves: seq<real>, period: nat, n: nat)
    requires 2 <= period <= n <= |moves|
    requires forall k :: 0 <= k < |moves| ==> moves[k] >= 0.0
    ensures Wilder(moves, period, n) == 0.0 <==> NoMove(moves, n)
  {
    if n == period {
      var first := moves[..period];
      SumNonNegative(first);
      Quotient(Sum(first), period as real);
      assert forall k :: 0 <= k < period ==> first[k] == moves[k];
    } else {
      WilderRemembers(moves, period, n - 1);
      WilderNonNegative(moves, period, n - 1);
      Smoothed(Wilder(moves, period, n - 1), moves[n - 1], period);
    }
  }

  lemma MovesNonNegative(values: seq<real>)
    ensures forall k :: 0 <= k < |Gains(values)| ==> Gains(values)[k] >= 0.0
    ensures forall k :: 0 <= k < |Losses(values)| ==> Losses(values)[k] >= 0.0
  {
  }

  /** The indicator reaches 100 exactly when the series rose at least once and never fell. */
  lemma RsiAtTop(values: seq<real>, period: nat, i: nat)
    requires 2 <= period <= i < |values|
    ensures RsiAt(values, period, i) == Some(100.0) <==> NoMove(Losses(values), i) && !NoMove(Gains(values), i)
  {
    MovesNonNegative(values);
    hide RsiAt, Wilder, Gains, Losses, Strength, NoMove, Mean, Smooth;
    RsiIsStrength(values, period, i);
    WilderRemembers(Gains(values), period, i);
    WilderRemembers(Losses(values), period, i);
    StrengthAtTop(Wilder(Gains(values), period, i), Wilder(Losses(values), period, i));
  }

  lemma StrengthAtTop(gain: real, loss: real)
    requires gain >= 0.0 && loss >= 0.0
    ensures Strength(gain, loss) == 100.0 <==> loss == 0.0 && gain != 0.0
  {
    if loss > 0.0 {
      RatioPositive(gain, loss);
      assert 100.0 / (1.0 + gain / loss) > 0.0;
    }
  }
}
