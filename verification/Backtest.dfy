/** The lagged moving-average crossover backtest. */
module Backtest {
  import opened Records
  import opened Indicators
  import opened Drawdown

  /** The windows, and the share of equity a change of position costs. */
  datatype Plan = Plan(short: nat, long: nat, cost: real)

  predicate WellFormed(p: Plan) {
    2 <= p.short < p.long <= 200 && 0.0 <= p.cost <= 0.1
  }

  // ----- the strategy, index by index -----

  /** Long on a day when the short average at its close is above the long one. */
  function SignalAt(closes: seq<real>, p: Plan, i: nat): nat
    requires p.short >= 1 && p.long >= 1 && i < |closes|
  {
    var short, long := SmaAt(closes, p.short, i), SmaAt(closes, p.long, i);
    if short.Some? && long.Some? && short.value > long.value then 1 else 0
  }

  /** The position held into day i follows the signal of the day before. */
  function Position(closes: seq<real>, p: Plan, i: nat): nat
    requires p.short >= 1 && p.long >= 1 && i <= |closes|
  {
    if i == 0 then 0 else SignalAt(closes, p, i - 1)
  }

  function Growth(closes: seq<real>, i: nat): real
    requires 1 <= i < |closes| && closes[i - 1] > 0.0
  {
    closes[i] / closes[i - 1]
  }

  function Changed(closes: seq<real>, p: Plan, i: nat): bool
    requires p.short >= 1 && p.long >= 1 && 1 <= i <= |closes|
  {
    Position(closes, p, i) != Position(closes, p, i - 1)
  }

  function Step(equity: real, position: nat, growth: real, changed: bool, cost: real): real {
    var assetReturn := growth - 1.0;
    var strategyReturn := (1.0 + position as real * assetReturn) * (if changed then 1.0 - cost else 1.0) - 1.0;
    equity * (1.0 + strategyReturn)
  }

  function Equity(closes: seq<real>, p: Plan, i: nat): real
    requires p.short >= 1 && p.long >= 1 && i < |closes| && Drawdown.Positive(closes)
  {
    if i == 0 then 1.0
    else Step(Equity(closes, p, i - 1), Position(closes, p, i), Growth(closes, i), Changed(closes, p, i), p.cost)
  }

  function Benchmark(closes: seq<real>, i: nat): real
    requires i < |closes| && Drawdown.Positive(closes)
  {
    if i == 0 then 1.0 else Benchmark(closes, i - 1) * (1.0 + (Growth(closes, i) - 1.0))
  }

  /** Changes of position on days 1 .. i that end in the given position. */
  function Moves(closes: seq<real>, p: Plan, i: nat, into: nat): nat
    requires p.short >= 1 && p.long >= 1 && i < |closes|
  {
    if i == 0 then 0
    else Moves(closes, p, i - 1, into) + if Changed(closes, p, i) && Position(closes, p, i) == into then 1 else 0
  }

  function Trades(closes: seq<real>, p: Plan, i: nat): nat
    requires p.short >= 1 && p.long >= 1 && i < |closes|
  {
    if i == 0 then 0 else Trades(closes, p, i - 1) + if Changed(closes, p, i) then 1 else 0
  }

  function Exposure(closes: seq<real>, p: Plan, i: nat): nat
    requires p.short >= 1 && p.long >= 1 && i < |closes|
  {
    if i == 0 then 0 else Exposure(closes, p, i - 1) + Position(closes, p, i)
  }

  // ----- the loop -----

  datatype Row = Row(price: real, position: nat, equity: real, benchmark: real)

  datatype Report = Report(rows: seq<Row>, drawdowns: seq<real>, maximumDrawdown: real,
                           trades: nat, entries: nat, exits: nat, endingPosition: nat, exposure: nat, finalEquity: real)

  datatype Invalid = BadWindows | BadCosts | TooFewPrices | NonPositivePrice

  datatype Answer = Rejected(reason: Invalid) | Ran(report: Report)

  predicate IsRow(row: Row, closes: seq<real>, p: Plan, i: nat)
    requires p.short >= 1 && p.long >= 1 && i < |closes| && Drawdown.Positive(closes)
  {
    row == Row(closes[i], Position(closes, p, i), Equity(closes, p, i), Benchmark(closes, i))
  }

  predicate AreRows(rows: seq<Row>, closes: seq<real>, p: Plan)
    requires p.short >= 1 && p.long >= 1 && |rows| <= |closes| && Drawdown.Positive(closes)
  {
    forall i: nat :: i < |rows| ==> IsRow(rows[i], closes, p, i)
  }

  function Equities(rows: seq<Row>): seq<real> {
    seq(|rows|, i requires 0 <= i < |rows| => rows[i].equity)
  }

  predicate IsReport(r: Report, closes: seq<real>, p: Plan)
    requires WellFormed(p) && closes != [] && Drawdown.Positive(closes)
  {
    var last := |closes| - 1;
    && |r.rows| == |closes| && AreRows(r.rows, closes, p)
    && Drawdown.Positive(Equities(r.rows))
    && |r.drawdowns| == |closes| && AreRecords(Equities(r.rows), r.drawdowns)
    && IsWorstLoss(Equities(r.rows), r.maximumDrawdown)
    && r.trades == Trades(closes, p, last)
    && r.entries == Moves(closes, p, last, 1) && r.exits == Moves(closes, p, last, 0)
    && r.endingPosition == Position(closes, p, last)
    && r.exposure == Exposure(closes, p, last)
    && r.finalEquity == Equity(closes, p, last)
  }

  /** What the service refuses, in the order it looks. */
  function Refusal(closes: seq<real>, short: int, long: int, bps: real): Option<Invalid> {
    if !(2 <= short < long <= 200) then Some(BadWindows)
    else if !(0.0 <= bps <= 1000.0) then Some(BadCosts)
    else if |closes| < long + 2 then Some(TooFewPrices)
    else if !Drawdown.Positive(closes) then Some(NonPositivePrice)
    else None
  }

  method BacktestMovingAverage(closes: seq<real>, short: int, long: int, bps: real) returns (answer: Answer)
    ensures answer.Rejected? <==> Refusal(closes, short, long, bps).Some?
    ensures answer.Rejected? ==> Refusal(closes, short, long, bps) == Some(answer.reason)
    ensures answer.Ran? ==> IsReport(answer.report, closes, Plan(short, long, bps / 10000.0))
  {
    var refusal := Refusal(closes, short, long, bps);
    if refusal.Some? {
      return Rejected(refusal.value);
    }
    var p := Plan(short, long, bps / 10000.0);
    var shorts := Sma(closes, short);
    var longs := Sma(closes, long);
    var signals := seq(|closes|, i requires 0 <= i < |closes| =>
      if shorts[i].Some? && longs[i].Some? && shorts[i].value > longs[i].value then 1 else 0);
    assert forall i :: 0 <= i < |closes| ==> signals[i] == SignalAt(closes, p, i);
    var report := Run(closes, p, signals);
    answer := Ran(report);
  }

  method Run(closes: seq<real>, p: Plan, signals: seq<nat>) returns (r: Report)
    requires WellFormed(p) && closes != [] && Drawdown.Positive(closes)
    requires |signals| == |closes| && forall i :: 0 <= i < |closes| ==> signals[i] == SignalAt(closes, p, i)
    ensures IsReport(r, closes, p)
  {
    hide SignalAt, Step;
    var equity, benchmark, prior := 1.0, 1.0, 0;
    var trades, entries, exits, exposure := 0, 0, 0, 0;
    var rows := [Row(closes[0], 0, equity, benchmark)];
    var i := 1;
    while i < |closes|
      invariant 1 <= i <= |closes| && |rows| == i && AreRows(rows, closes, p)
      invariant equity == Equity(closes, p, i - 1) && benchmark == Benchmark(closes, i - 1)
      invariant prior == Position(closes, p, i - 1)
      invariant trades == Trades(closes, p, i - 1) && exposure == Exposure(closes, p, i - 1)
      invariant entries == Moves(closes, p, i - 1, 1) && exits == Moves(closes, p, i - 1, 0)
    {
      var position := signals[i - 1];
      var growth := closes[i] / closes[i - 1];
      var changed := position != prior;
      if changed {
        trades := trades + 1;
      }
      if changed && position == 1 {
        entries := entries + 1;
      }
      if changed && position == 0 {
        exits := exits + 1;
      }
      equity := Step(equity, position, growth, changed, p.cost);
      benchmark := benchmark * (1.0 + (growth - 1.0));
      exposure := exposure + position;
      rows := rows + [Row(closes[i], position, equity, benchmark)];
      prior := position;
      i := i + 1;
    }
    EquitiesPositive(rows, closes, p);
    var drawdowns, summary := DrawdownRecords(Equities(rows));
    assert IsWorstLoss(Equities(rows), summary.maximum);
    r := Report(rows, drawdowns, summary.maximum, trades, entries, exits, prior, exposure, equity);
  }

  // ----- what the numbers mean -----

  lemma PositionIsFlag(closes: seq<real>, p: Plan, i: nat)
    requires p.short >= 1 && p.long >= 1 && i <= |closes|
    ensures Position(closes, p, i) <= 1
  {
  }

  lemma GrowthPositive(closes: seq<real>, i: nat)
    requires Drawdown.Positive(closes) && 1 <= i < |closes|
    ensures Growth(closes, i) > 0.0
  {
    Drawdown.RatioPositive(closes[i], closes[i - 1]);
  }

  /** A step multiplies by the growth if invested, and by the cost's complement if the position changed. */
  lemma StepIsProduct(equity: real, position: nat, growth: real, changed: bool, cost: real)
    requires position <= 1
    ensures Step(equity, position, growth, changed, cost)
         == equity * (if position == 1 then growth else 1.0) * (if changed then 1.0 - cost else 1.0)
  {
  }

  /** A product as one term, for proofs that only pass it on. */
  function Times(a: real, b: real): real {
    a * b
  }

  function HeldGrowth(closes: seq<real>, p: Plan, i: nat): real
    requires p.short >= 1 && p.long >= 1 && 1 <= i < |closes| && Drawdown.Positive(closes)
  {
    if Position(closes, p, i) == 1 then Growth(closes, i) else 1.0
  }

  /** The product of the price ratios of the days held. */
  function Held(closes: seq<real>, p: Plan, i: nat): real
    requires p.short >= 1 && p.long >= 1 && i < |closes| && Drawdown.Positive(closes)
  {
    if i == 0 then 1.0
    else Times(Held(closes, p, i - 1), HeldGrowth(closes, p, i))
  }

  lemma {:induction false} HeldPositive(closes: seq<real>, p: Plan, i: nat)
    requires p.short >= 1 && p.long >= 1 && i < |closes| && Drawdown.Positive(closes)
    ensures Held(closes, p, i) > 0.0
  {
    hide Times, HeldGrowth;
    if i > 0 {
      HeldPositive(closes, p, i - 1);
      GrowthIfHeld(closes, p, i);
      GrowthPositive(closes, i);
      hide Growth;
      TimesPositive(Held(closes, p, i - 1), HeldGrowth(closes, p, i));
    }
  }

  lemma TimesPositive(a: real, b: real)
    requires a > 0.0 && b > 0.0
    ensures Times(a, b) > 0.0
  {
  }

  lemma {:induction false} PowerPositive(base: real, n: nat)
    requires base > 0.0
    ensures Power(base, n) > 0.0
  {
    if n > 0 {
      PowerPositive(base, n - 1);
    }
  }

  /** Conservation: equity is the growth of the days held, less one cost factor for each trade. */
  lemma {:induction false} EquityIsConserved(closes: seq<real>, p: Plan, i: nat)
    requires p.short >= 1 && p.long >= 1 && i < |closes| && Drawdown.Positive(closes)
    ensures Equity(closes, p, i) == Times(Power(1.0 - p.cost, Trades(closes, p, i)), Held(closes, p, i))
  {
    hide Step, Position, Growth, Power, Changed, Times, HeldGrowth;
    NothingConserved(closes, p);
    if i > 0 {
      EquityIsConserved(closes, p, i - 1);
      PositionIsFlag(closes, p, i);
      GrowthIfHeld(closes, p, i);
      PowerStep(1.0 - p.cost, Trades(closes, p, i - 1));
      StepKeepsProduct(Equity(closes, p, i - 1), Power(1.0 - p.cost, Trades(closes, p, i - 1)),
                       Power(1.0 - p.cost, Trades(closes, p, i)), Held(closes, p, i - 1), Held(closes, p, i),
                       HeldGrowth(closes, p, i), Position(closes, p, i), Growth(closes, i), Changed(closes, p, i),
                       p.cost);
      assert Equity(closes, p, i)
          == Step(Equity(closes, p, i - 1), Position(closes, p, i), Growth(closes, i), Changed(closes, p, i), p.cost);
      hide Held, Equity, Trades;
    }
  }

  lemma GrowthIfHeld(closes: seq<real>, p: Plan, i: nat)
    requires p.short >= 1 && p.long >= 1 && 1 <= i < |closes| && Drawdown.Positive(closes)
    ensures HeldGrowth(closes, p, i) == if Position(closes, p, i) == 1 then Growth(closes, i) else 1.0
  {
  }

  lemma NothingConserved(closes: seq<real>, p: Plan)
    requires p.short >= 1 && p.long >= 1 && closes != [] && Drawdown.Positive(closes)
    ensures Equity(closes, p, 0) == Times(Power(1.0 - p.cost, Trades(closes, p, 0)), Held(closes, p, 0))
  {
  }

  lemma StepKeepsProduct(equity: real, power: real, power': real, held: real, held': real,
                         factor: real, position: nat, growth: real, changed: bool, cost: real)
    requires equity == Times(power, held) && held' == Times(held, factor)
    requires factor == if position == 1 then growth else 1.0
    requires position <= 1 && power' == if changed then (1.0 - cost) * power else power
    ensures Step(equity, position, growth, changed, cost) == Times(power', held')
  {
    StepIsProduct(equity, position, growth, changed, cost);
    Regroup(power, held, if position == 1 then growth else 1.0, 1.0 - cost);
  }

  lemma Regroup(power: real, held: real, growth: real, rest: real)
    ensures (power * held) * growth * rest == (rest * power) * (held * growth)
    ensures (power * held) * growth * 1.0 == power * (held * growth)
  {
  }

  lemma EquityPositive(closes: seq<real>, p: Plan, i: nat)
    requires p.short >= 1 && p.long >= 1 && i < |closes| && Drawdown.Positive(closes) && p.cost < 1.0
    ensures Equity(closes, p, i) > 0.0
  {
    EquityIsConserved(closes, p, i);
    PowerPositive(1.0 - p.cost, Trades(closes, p, i));
    HeldPositive(closes, p, i);
    hide Equity, Power, Held;
  }

  lemma EquitiesPositive(rows: seq<Row>, closes: seq<real>, p: Plan)
    requires WellFormed(p) && Drawdown.Positive(closes) && |rows| <= |closes| && AreRows(rows, closes, p)
    ensures Drawdown.Positive(Equities(rows))
  {
    forall i: nat | i < |rows| ensures Equities(rows)[i] > 0.0 {
      EquityPositive(closes, p, i);
      assert IsRow(rows[i], closes, p, i);
    }
  }

  /** Buying and holding telescopes to the ratio of the last price to the first. */
  lemma {:induction false} BenchmarkTelescopes(closes: seq<real>, i: nat)
    requires i < |closes| && Drawdown.Positive(closes)
    ensures Benchmark(closes, i) == closes[i] / closes[0]
  {
    if i > 0 {
      BenchmarkTelescopes(closes, i - 1);
      Telescope(closes[0], closes[i - 1], closes[i]);
    }
  }

  lemma Telescope(a: real, b: real, c: real)
    requires a > 0.0 && b > 0.0
    ensures b / a * (c / b) == c / a
  {
    var x, y := b / a, c / b;
    assert x * a == b && y * b == c;
    assert (x * y) * a == y * (x * a);
    QuotientIs(c, a, x * y);
  }

  /** Every trade is an entry or an exit, and the difference is the position held. */
  lemma {:induction false} TradesBalance(closes: seq<real>, p: Plan, i: nat)
    requires p.short >= 1 && p.long >= 1 && i < |closes|
    ensures Moves(closes, p, i, 1) + Moves(closes, p, i, 0) == Trades(closes, p, i)
    ensures Moves(closes, p, i, 1) == Moves(closes, p, i, 0) + Position(closes, p, i)
  {
    if i > 0 {
      TradesBalance(closes, p, i - 1);
      PositionIsFlag(closes, p, i);
      PositionIsFlag(closes, p, i - 1);
    }
  }

  // ----- no look-ahead -----

  lemma SmaSeesItsPrefix(a: seq<real>, b: seq<real>, window: nat, i: nat, n: nat)
    requires window >= 1 && i < n <= |a| && n <= |b| && a[..n] == b[..n]
    ensures SmaAt(a, window, i) == SmaAt(b, window, i)
  {
    if i + 1 >= window {
      assert Window(a, window, i) == a[..n][i + 1 - window..i + 1];
      assert Window(b, window, i) == b[..n][i + 1 - window..i + 1];
    }
  }

  /** Series that agree before day n give the same position into day n, whatever its close and the later ones. */
  lemma PositionSeesThePast(a: seq<real>, b: seq<real>, p: Plan, i: nat, n: nat)
    requires p.short >= 1 && p.long >= 1 && i <= n <= |a| && n <= |b| && a[..n] == b[..n]
    ensures Position(a, p, i) == Position(b, p, i)
  {
    if i > 0 {
      SmaSeesItsPrefix(a, b, p.short, i - 1, n);
      SmaSeesItsPrefix(a, b, p.long, i - 1, n);
    }
  }

  lemma {:induction false} EquitySeesThePast(a: seq<real>, b: seq<real>, p: Plan, i: nat, n: nat)
    requires p.short >= 1 && p.long >= 1 && i < n <= |a| && n <= |b| && a[..n] == b[..n]
    requires Drawdown.Positive(a) && Drawdown.Positive(b)
    ensures Equity(a, p, i) == Equity(b, p, i) && Benchmark(a, i) == Benchmark(b, i)
  {
    hide Position, Step, SmaAt, SignalAt;
    if i > 0 {
      EquitySeesThePast(a, b, p, i - 1, n);
      PositionSeesThePast(a, b, p, i, n);
      PositionSeesThePast(a, b, p, i - 1, n);
      assert a[i] == a[..n][i] && b[i] == b[..n][i] && a[i - 1] == a[..n][i - 1] && b[i - 1] == b[..n][i - 1];
    }
  }

  /** The whole report up to day n is a function of the prices up to day n. */
  lemma BacktestIsCausal(a: seq<real>, b: seq<real>, p: Plan, r: Report, s: Report, n: nat)
    requires WellFormed(p) && a != [] && b != [] && Drawdown.Positive(a) && Drawdown.Positive(b)
    requires IsReport(r, a, p) && IsReport(s, b, p)
    requires n <= |a| && n <= |b| && a[..n] == b[..n]
    ensures r.rows[..n] == s.rows[..n]
    ensures n < |a| && n < |b| ==> r.rows[n].position == s.rows[n].position
  {
    forall i: nat | i < n ensures r.rows[i] == s.rows[i] {
      assert IsRow(r.rows[i], a, p, i) && IsRow(s.rows[i], b, p, i);
      PositionSeesThePast(a, b, p, i, n);
      EquitySeesThePast(a, b, p, i, n);
      assert a[i] == a[..n][i] && b[i] == b[..n][i];
    }
    if n < |a| && n < |b| {
      assert IsRow(r.rows[n], a, p, n) && IsRow(s.rows[n], b, p, n);
      PositionSeesThePast(a, b, p, n, n);
    }
  }

  // ----- costs only cost -----

  lemma {:induction false} SamePositions(closes: seq<real>, p: Plan, q: Plan, i: nat)
    requires p.short == q.short >= 1 && p.long == q.long >= 1 && i < |closes| && Drawdown.Positive(closes)
    ensures Trades(closes, p, i) == Trades(closes, q, i) && Held(closes, p, i) == Held(closes, q, i)
  {
    hide Position, HeldGrowth, Times;
    if i > 0 {
      SamePositions(closes, p, q, i - 1);
      SamePosition(closes, p, q, i);
      SamePosition(closes, p, q, i - 1);
      SameGrowth(closes, p, q, i);
    }
  }

  lemma SameGrowth(closes: seq<real>, p: Plan, q: Plan, i: nat)
    requires p.short == q.short >= 1 && p.long == q.long >= 1 && 1 <= i < |closes| && Drawdown.Positive(closes)
    ensures HeldGrowth(closes, p, i) == HeldGrowth(closes, q, i)
  {
    SamePosition(closes, p, q, i);
    hide Position, Growth;
  }

  lemma SamePosition(closes: seq<real>, p: Plan, q: Plan, i: nat)
    requires p.short == q.short >= 1 && p.long == q.long >= 1 && i <= |closes|
    ensures Position(closes, p, i) == Position(closes, q, i)
  {
    hide SmaAt;
  }

  lemma {:induction false} PowerGrows(a: real, b: real, n: nat)
    requires 0.0 < a < b
    ensures if n == 0 then Power(a, n) == Power(b, n) else 0.0 < Power(a, n) < Power(b, n)
  {
    if n > 0 {
      PowerGrows(a, b, n - 1);
      PowerPositive(a, n - 1);
      PowerStep(a, n - 1);
      PowerStep(b, n - 1);
      hide Power;
      ProductGrows(a, b, Power(a, n - 1), Power(b, n - 1));
    }
  }

  lemma ProductGrows(a: real, b: real, x: real, y: real)
    requires 0.0 < a < b && 0.0 < x <= y
    ensures 0.0 < a * x < b * y
  {
    assert a * x < b * x;
    assert b * x <= b * y;
  }

  /** A higher cost lowers the equity from the first trade on, and changes nothing before it. */
  lemma CostsOnlyCost(closes: seq<real>, p: Plan, cost: real, i: nat)
    requires WellFormed(p) && Drawdown.Positive(closes) && i < |closes| && p.cost < cost < 1.0
    ensures Equity(closes, p.(cost := cost), i) <= Equity(closes, p, i)
    ensures Equity(closes, p.(cost := cost), i) == Equity(closes, p, i) <==> Trades(closes, p, i) == 0
  {
    var q, trades := p.(cost := cost), Trades(closes, p, i);
    hide Equity, Held, Power, Trades, Times;
    SamePositions(closes, p, q, i);
    EquityIsConserved(closes, p, i);
    EquityIsConserved(closes, q, i);
    HeldPositive(closes, p, i);
    PowerGrows(1.0 - cost, 1.0 - p.cost, trades);
    LessProduct(Power(1.0 - q.cost, Trades(closes, q, i)), Power(1.0 - p.cost, trades),
                Held(closes, q, i), Held(closes, p, i), Equity(closes, q, i), Equity(closes, p, i));
  }

  lemma LessProduct(a: real, b: real, c: real, d: real, ac: real, bd: real)
    requires a <= b && c == d && c > 0.0 && ac == Times(a, c) && bd == Times(b, d)
    ensures ac <= bd && (ac == bd <==> a == b)
  {
  }

  /** Conservation, balance and the benchmark, read off a report. */
  lemma ReportIsConsistent(r: Report, closes: seq<real>, p: Plan)
    requires WellFormed(p) && closes != [] && Drawdown.Positive(closes) && IsReport(r, closes, p)
    ensures r.finalEquity == Times(Power(1.0 - p.cost, r.trades), Held(closes, p, |closes| - 1)) > 0.0
    ensures r.entries + r.exits == r.trades && r.entries == r.exits + r.endingPosition
    ensures r.rows[|closes| - 1].benchmark == closes[|closes| - 1] / closes[0]
    ensures forall i :: 0 <= i < |closes| ==> r.rows[i].equity > 0.0
  {
    hide Equity, Held, Power, Trades, Moves, Position, Benchmark, AreRecords, IsWorstLoss, Times;
    var last: nat := |closes| - 1;
    EquityIsConserved(closes, p, last);
    EquityPositive(closes, p, last);
    TradesBalance(closes, p, last);
    BenchmarkTelescopes(closes, last);
    assert IsRow(r.rows[last], closes, p, last);
    forall i | 0 <= i < |closes| ensures r.rows[i].equity > 0.0 {
      assert Equities(r.rows)[i] == r.rows[i].equity;
    }
  }
}
