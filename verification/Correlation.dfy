/** The correlation matrix of returns over the dates two price series share. */
module Correlation {
  import opened Records
  import opened Indicators

  // ----- alignment -----

  datatype Point = Point(date: int, price: real)

  /** One price per date; of several observations on a date the last one stays. */
  function ByDate(points: seq<Point>): map<int, real> {
    if points == [] then map[]
    else ByDate(points[..|points| - 1])[points[|points| - 1].date := points[|points| - 1].price]
  }

  predicate Ascending(s: seq<int>) {
    forall i, j :: 0 <= i < j < |s| ==> s[i] < s[j]
  }

  predicate IsLeast(m: int, s: set<int>) {
    m in s && forall x :: x in s ==> m <= x
  }

  lemma HasLeast(s: set<int>)
    requires s != {}
    ensures exists m :: IsLeast(m, s)
  {
    assert (forall x: int :: x !in s) ==> s == {};
    var x: int :| x in s;
    var rest := s - {x};
    if rest == {} {
      assert s == {x};
      assert IsLeast(x, s);
    } else {
      HasLeast(rest);
      var m :| IsLeast(m, rest);
      var least := if x < m then x else m;
      forall y: int | y in s ensures least <= y {
        if y != x { assert y in rest; }
      }
      assert IsLeast(least, s);
    }
  }

  function Sorted(s: set<int>): (r: seq<int>)
    ensures Ascending(r) && (forall x :: x in r <==> x in s)
  {
    if s == {} then []
    else
      HasLeast(s);
      var m :| IsLeast(m, s);
      var rest := Sorted(s - {m});
      assert forall x :: x in rest ==> m < x;
      [m] + rest
  }

  function CommonDates(left: map<int, real>, right: map<int, real>): (dates: seq<int>)
    ensures forall i :: 0 <= i < |dates| ==> dates[i] in left && dates[i] in right
  {
    var dates := Sorted(left.Keys * right.Keys);
    assert forall i :: 0 <= i < |dates| ==> dates[i] in dates;
    dates
  }

  function PricesOn(series: map<int, real>, dates: seq<int>): (prices: seq<real>)
    requires forall i :: 0 <= i < |dates| ==> dates[i] in series
    ensures |prices| == |dates| && forall i :: 0 <= i < |dates| ==> prices[i] == series[dates[i]]
  {
    seq(|dates|, i requires 0 <= i < |dates| => series[dates[i]])
  }

  function Returns(prices: seq<real>): (r: seq<real>)
    requires forall i :: 0 <= i < |prices| ==> prices[i] > 0.0
    ensures |r| == if prices == [] then 0 else |prices| - 1
  {
    seq(if prices == [] then 0 else |prices| - 1, i requires 0 <= i < |prices| - 1 => prices[i + 1] / prices[i] - 1.0)
  }

  predicate AllPositive(series: map<int, real>) {
    forall d :: d in series ==> series[d] > 0.0
  }

  lemma PricesPositive(series: map<int, real>, dates: seq<int>)
    requires AllPositive(series) && forall i :: 0 <= i < |dates| ==> dates[i] in series
    ensures forall i :: 0 <= i < |dates| ==> series[dates[i]] > 0.0
  {
    forall i | 0 <= i < |dates| ensures series[dates[i]] > 0.0 {
      var d := dates[i];
      assert d in series;
    }
  }

  function AlignedReturns(series: map<int, real>, dates: seq<int>): (r: seq<real>)
    requires AllPositive(series) && forall i :: 0 <= i < |dates| ==> dates[i] in series
    ensures |r| == if dates == [] then 0 else |dates| - 1
  {
    PricesPositive(series, dates);
    Returns(PricesOn(series, dates))
  }

  // ----- the coefficient -----

  /** A square root, as far as anything here depends on it. */
  ghost predicate IsRoot(root: real -> real) {
    forall x :: x >= 0.0 ==> root(x) >= 0.0 && root(x) * root(x) == x
  }

  function Centered(values: seq<real>): (r: seq<real>)
    requires values != []
    ensures |r| == |values|
  {
    seq(|values|, i requires 0 <= i < |values| => values[i] - Mean(values))
  }

  function Product(x: real, y: real): real {
    x * y
  }

  function Dot(a: seq<real>, b: seq<real>): real
    requires |a| == |b|
  {
    if a == [] then 0.0
    else Dot(a[..|a| - 1], b[..|b| - 1]) + Product(a[|a| - 1], b[|b| - 1])
  }

  function Ratio(numerator: real, square: real, root: real -> real): Option<real> {
    var denominator := root(square);
    if denominator != 0.0 then Some(numerator / denominator) else None
  }

  /** The product of the two sums of squares. */
  function Spread(a: seq<real>, b: seq<real>): real {
    Dot(a, a) * Dot(b, b)
  }

  function Coefficient(left: seq<real>, right: seq<real>, root: real -> real): Option<real>
    requires |left| == |right| > 0
  {
    var a, b := Centered(left), Centered(right);
    Ratio(Dot(a, b), Spread(a, b), root)
  }

  /** An entry of the matrix for two symbols' series. */
  function Entry(left: map<int, real>, right: map<int, real>, same: bool, root: real -> real): Option<real>
    requires AllPositive(left) && AllPositive(right)
  {
    var dates := CommonDates(left, right);
    var x, y := AlignedReturns(left, dates), AlignedReturns(right, dates);
    if same && x != [] then Some(1.0)
    else if |dates| < 2 then None
    else Coefficient(x, y, root)
  }

  /** What is reported for a pair of symbols: the coefficient, and over how many aligned returns it was taken. */
  datatype Cell = Cell(correlation: Option<real>, observations: nat)

  function CellOf(left: map<int, real>, right: map<int, real>, same: bool, root: real -> real): Cell
    requires AllPositive(left) && AllPositive(right)
  {
    Cell(Entry(left, right, same, root), |AlignedReturns(left, CommonDates(left, right))|)
  }

  type Matrix = map<(string, string), Cell>

  /** A history that returns cannot be taken from. */
  predicate Unusable(points: seq<Point>) {
    |points| < 2 || exists i :: 0 <= i < |points| && points[i].price <= 0.0
  }

  predicate Refused(symbols: seq<string>, histories: map<string, seq<Point>>)
    requires forall i :: 0 <= i < |symbols| ==> symbols[i] in histories
  {
    || !(2 <= |symbols| <= 5)
    || exists i :: 0 <= i < |symbols| && Unusable(histories[symbols[i]])
  }

  lemma {:induction false} ByDatePositive(points: seq<Point>)
    requires forall i :: 0 <= i < |points| ==> points[i].price > 0.0
    ensures AllPositive(ByDate(points))
  {
    if points != [] {
      ByDatePositive(points[..|points| - 1]);
    }
  }

  /** Every symbol has its prices by date. */
  predicate AllKnown(symbols: seq<string>, series: map<string, map<int, real>>) {
    forall i :: 0 <= i < |symbols| ==> symbols[i] in series && AllPositive(series[symbols[i]])
  }

  /** What the matrix holds for a pair of symbols. */
  predicate IsEntry(matrix: Matrix, series: map<string, map<int, real>>, left: string, right: string,
                    root: real -> real)
    requires left in series && right in series && AllPositive(series[left]) && AllPositive(series[right])
  {
    && (left, right) in matrix
    && matrix[(left, right)] == CellOf(series[left], series[right], left == right, root)
  }

  /** A price series per symbol. */
  function SeriesOf(histories: map<string, seq<Point>>): map<string, map<int, real>> {
    map s | s in histories :: ByDate(histories[s])
  }

  /** The entries of the first i rows, and the first j of the next. */
  predicate Filled(matrix: Matrix, symbols: seq<string>, series: map<string, map<int, real>>, root: real -> real,
                   i: nat, j: nat)
    requires AllKnown(symbols, series) && j <= |symbols|
  {
    forall k, m :: 0 <= k < |symbols| && 0 <= m < |symbols| && (k < i || (k == i && m < j)) ==>
      IsEntry(matrix, series, symbols[k], symbols[m], root)
  }

  lemma FilledOneMore(matrix: Matrix, symbols: seq<string>, series: map<string, map<int, real>>, root: real -> real,
                      i: nat, j: nat)
    requires AllKnown(symbols, series) && i < |symbols| && j < |symbols|
    requires Filled(matrix, symbols, series, root, i, j)
    ensures var entry := CellOf(series[symbols[i]], series[symbols[j]], symbols[i] == symbols[j], root);
            Filled(matrix[(symbols[i], symbols[j]) := entry], symbols, series, root, i, j + 1)
  {
    hide CellOf, AllPositive;
  }

  method Correlations(symbols: seq<string>, histories: map<string, seq<Point>>, root: real -> real)
    returns (answer: Option<Matrix>)
    requires forall i :: 0 <= i < |symbols| ==> symbols[i] in histories
    ensures answer.None? <==> Refused(symbols, histories)
    ensures answer.Some? ==> AllKnown(symbols, SeriesOf(histories))
    ensures answer.Some? ==> forall i, j :: 0 <= i < |symbols| && 0 <= j < |symbols| ==>
      IsEntry(answer.value, SeriesOf(histories), symbols[i], symbols[j], root)
  {
    if Refused(symbols, histories) {
      return None;
    }
    var series := SeriesOf(histories);
    forall i | 0 <= i < |symbols| ensures AllPositive(series[symbols[i]]) {
      assert !Unusable(histories[symbols[i]]);
      ByDatePositive(histories[symbols[i]]);
    }
    assert AllKnown(symbols, series);
    hide SeriesOf, Refused, AllPositive, CellOf, IsEntry;
    var matrix: Matrix := map[];
    var i := 0;
    while i < |symbols|
      invariant 0 <= i <= |symbols| && Filled(matrix, symbols, series, root, i, 0)
    {
      var j := 0;
      while j < |symbols|
        invariant 0 <= j <= |symbols| && Filled(matrix, symbols, series, root, i, j)
      {
        FilledOneMore(matrix, symbols, series, root, i, j);
        var left, right := symbols[i], symbols[j];
        matrix := matrix[(left, right) := CellOf(series[left], series[right], left == right, root)];
        j := j + 1;
      }
      i := i + 1;
    }
    answer := Some(matrix);
  }

  // ----- Cauchy and Schwarz -----

  lemma {:induction false} DotSquareNonNegative(a: seq<real>)
    ensures Dot(a, a) >= 0.0
  {
    if a != [] {
      DotSquareNonNegative(a[..|a| - 1]);
    }
  }

  lemma SquareBound(d: real, p: real, q: real, x: real, y: real)
    requires p >= 0.0 && q >= 0.0 && d * d <= p * q
    ensures (d + x * y) * (d + x * y) <= (p + x * x) * (q + y * y)
  {
    MixedTerm(d, p, q, x, y);
    assert (d + x * y) * (d + x * y) == d * d + 2.0 * (d * (x * y)) + (x * y) * (x * y);
    assert (p + x * x) * (q + y * y) == p * q + (p * (y * y) + q * (x * x)) + (x * x) * (y * y);
    assert (x * y) * (x * y) == (x * x) * (y * y);
  }

  lemma MixedTerm(d: real, p: real, q: real, x: real, y: real)
    requires p >= 0.0 && q >= 0.0 && d * d <= p * q
    ensures 2.0 * (d * (x * y)) <= p * (y * y) + q * (x * x)
  {
    var s, t := p * (y * y), q * (x * x);
    var m := d * (x * y);
    ProductNonNegative(p, y * y);
    ProductNonNegative(q, x * x);
    var z := x * y;
    assert z * z == (x * x) * (y * y);
    assert m * m == (d * d) * (z * z);
    assert s * t == (p * q) * (z * z);
    Scaled(d * d, p * q, z * z);
    Squares(s, t);
    RootOrder(2.0 * m, s + t);
  }

  lemma ProductNonNegative(a: real, b: real)
    requires a >= 0.0 && b >= 0.0
    ensures a * b >= 0.0
  {
  }

  lemma ProductPositive(a: real, b: real)
    requires a > 0.0 && b > 0.0
    ensures a * b > 0.0
  {
  }

  lemma Scaled(a: real, b: real, c: real)
    requires a <= b && c >= 0.0
    ensures a * c <= b * c
  {
  }

  lemma Squares(s: real, t: real)
    ensures 4.0 * (s * t) <= (s + t) * (s + t)
  {
    assert (s + t) * (s + t) - 4.0 * (s * t) == (s - t) * (s - t);
  }

  lemma RootOrder(a: real, b: real)
    requires b >= 0.0 && a * a <= b * b
    ensures -b <= a <= b
  {
    SquareOrder(a, b);
    SquareOrder(-a, b);
    assert (-a) * (-a) == a * a;
  }

  lemma SquareOrder(a: real, b: real)
    requires b >= 0.0
    ensures a > b ==> a * a > b * b
  {
    if a > b {
      ProductPositive(a - b, a + b);
      assert (a - b) * (a + b) == a * a - b * b;
    }
  }

  lemma {:induction false} CauchySchwarz(a: seq<real>, b: seq<real>)
    requires |a| == |b|
    ensures Dot(a, b) * Dot(a, b) <= Dot(a, a) * Dot(b, b)
  {
    hide Product;
    if a != [] {
      var n := |a| - 1;
      CauchySchwarz(a[..n], b[..n]);
      DotSquareNonNegative(a[..n]);
      DotSquareNonNegative(b[..n]);
      OneMoreProduct(Dot(a[..n], b[..n]), Dot(a[..n], a[..n]), Dot(b[..n], b[..n]), a[n], b[n],
                     Dot(a, b), Dot(a, a), Dot(b, b));
    }
  }

  lemma OneMoreProduct(d: real, p: real, q: real, x: real, y: real, d': real, p': real, q': real)
    requires p >= 0.0 && q >= 0.0 && d * d <= p * q
    requires d' == d + Product(x, y) && p' == p + Product(x, x) && q' == q + Product(y, y)
    ensures d' * d' <= p' * q'
  {
    SquareBound(d, p, q, x, y);
  }

  lemma Fraction(a: real, b: real)
    requires b > 0.0 && -b <= a <= b
    ensures -1.0 <= a / b <= 1.0
  {
    var q := a / b;
    assert q * b == a;
  }

  /** Whatever two lists of returns are aligned, a defined coefficient lies between -1 and 1. */
  lemma CoefficientRange(left: seq<real>, right: seq<real>, root: real -> real)
    requires |left| == |right| > 0 && IsRoot(root)
    ensures Coefficient(left, right, root).Some? ==> -1.0 <= Coefficient(left, right, root).value <= 1.0
  {
    hide Dot, Centered, Ratio;
    var a, b := Centered(left), Centered(right);
    CauchySchwarz(a, b);
    DotSquareNonNegative(a);
    DotSquareNonNegative(b);
    ProductNonNegative(Dot(a, a), Dot(b, b));
    assert Dot(a, b) * Dot(a, b) <= Spread(a, b);
    hide Spread;
    BoundedByRoot(Dot(a, b), Spread(a, b), root);
  }

  lemma BoundedByRoot(numerator: real, square: real, root: real -> real)
    requires IsRoot(root) && square >= 0.0 && numerator * numerator <= square
    ensures Ratio(numerator, square, root).Some? ==> -1.0 <= Ratio(numerator, square, root).value <= 1.0
  {
    RootOrder(numerator, root(square));
    if root(square) != 0.0 {
      Fraction(numerator, root(square));
    }
  }

  lemma {:induction false} DotCommutes(a: seq<real>, b: seq<real>)
    requires |a| == |b|
    ensures Dot(a, b) == Dot(b, a)
  {
    if a != [] {
      DotCommutes(a[..|a| - 1], b[..|b| - 1]);
    }
  }

  lemma CoefficientCommutes(left: seq<real>, right: seq<real>, root: real -> real)
    requires |left| == |right| > 0
    ensures Coefficient(left, right, root) == Coefficient(right, left, root)
  {
    var a, b := Centered(left), Centered(right);
    DotCommutes(a, b);
    assert Spread(a, b) == Spread(b, a);
    hide Dot, Centered, Ratio, Spread;
  }

  predicate AllZero(a: seq<real>) {
    forall i :: 0 <= i < |a| ==> a[i] == 0.0
  }

  lemma {:induction false} DotSelfSign(a: seq<real>)
    ensures if AllZero(a) then Dot(a, a) == 0.0 else Dot(a, a) > 0.0
  {
    hide Product;
    if a != [] {
      var n := |a| - 1;
      DotSelfSign(a[..n]);
      assert forall i :: 0 <= i < n ==> a[..n][i] == a[i];
      assert AllZero(a) <==> AllZero(a[..n]) && a[n] == 0.0;
      if a[n] == 0.0 { ZeroSquare(a[n]); } else { PositiveSquare(a[n]); }
    }
  }

  lemma ZeroSquare(x: real)
    requires x == 0.0
    ensures Product(x, x) == 0.0
  {
  }

  lemma PositiveProduct(x: real, y: real)
    requires x > 0.0 && y > 0.0
    ensures Product(x, y) > 0.0
  {
    ProductPositive(x, y);
  }

  lemma PositiveSquare(x: real)
    requires x > 0.0 || x < 0.0
    ensures Product(x, x) > 0.0
  {
    if x > 0.0 {
      PositiveProduct(x, x);
    } else {
      PositiveProduct(-x, -x);
      assert Product(x, x) == Product(-x, -x);
    }
  }

  /** The shortcut on the diagonal gives what the formula would, which is undefined only for constant returns. */
  lemma SelfCorrelation(values: seq<real>, root: real -> real)
    requires values != [] && IsRoot(root)
    ensures Coefficient(values, values, root) ==
            if forall i :: 0 <= i < |values| ==> values[i] == Mean(values) then None else Some(1.0)
  {
    var a := Centered(values);
    var square := Dot(a, a);
    DotSelfSign(a);
    DotSquareNonNegative(a);
    assert forall i :: 0 <= i < |values| ==> (a[i] == 0.0 <==> values[i] == Mean(values));
    hide Dot, Centered;
    RatioOfSquare(square, Spread(a, a), root);
    hide Dot, Centered, Ratio, Spread;
  }

  lemma RatioOfSquare(x: real, square: real, root: real -> real)
    requires IsRoot(root) && x >= 0.0 && square == x * x
    ensures Ratio(x, square, root) == if x == 0.0 then None else Some(1.0)
  {
    RootOfSquare(x, square, root);
    if x != 0.0 { QuotientIs(x, root(square), 1.0); }
  }

  lemma RootOfSquare(x: real, square: real, root: real -> real)
    requires IsRoot(root) && x >= 0.0 && square == x * x
    ensures root(square) == x
  {
    ProductNonNegative(x, x);
    RootOrder(root(square), x);
    RootOrder(x, root(square));
  }

  // ----- the matrix -----

  /** Ascending sequences with the same elements are the same, so the order of two symbols does not matter. */
  lemma EntryCommutes(left: map<int, real>, right: map<int, real>, same: bool, root: real -> real)
    requires AllPositive(left) && AllPositive(right) && (same ==> left == right)
    ensures Entry(left, right, same, root) == Entry(right, left, same, root)
  {
    assert left.Keys * right.Keys == right.Keys * left.Keys;
    var dates := CommonDates(left, right);
    if |dates| >= 2 {
      CoefficientCommutes(AlignedReturns(left, dates), AlignedReturns(right, dates), root);
    }
  }

  lemma MatrixIsCorrelation(series: map<string, map<int, real>>, root: real -> real, matrix: Matrix,
                            l: string, r: string)
    requires IsRoot(root) && l in series && r in series && AllPositive(series[l]) && AllPositive(series[r])
    requires IsEntry(matrix, series, l, r, root) && IsEntry(matrix, series, r, l, root)
    ensures matrix[(l, r)] == matrix[(r, l)]
    ensures matrix[(l, r)].correlation.Some? ==> -1.0 <= matrix[(l, r)].correlation.value <= 1.0
    ensures l == r ==> matrix[(l, r)].correlation == if |series[l].Keys| < 2 then None else Some(1.0)
    ensures var dates := |series[l].Keys * series[r].Keys|;
            matrix[(l, r)].observations == if dates == 0 then 0 else dates - 1
  {
    var left, right := series[l], series[r];
    EntryCommutes(left, right, l == r, root);
    var dates := CommonDates(left, right);
    assert left.Keys * right.Keys == right.Keys * left.Keys;
    SortedSize(left.Keys * right.Keys);
    if |dates| >= 2 {
      CoefficientRange(AlignedReturns(left, dates), AlignedReturns(right, dates), root);
    }
    if l == r {
      assert left.Keys * left.Keys == left.Keys;
      SortedSize(left.Keys);
    }
  }

  lemma {:induction false} SortedSize(s: set<int>)
    ensures |Sorted(s)| == |s|
  {
    var r := Sorted(s);
    SizeOfElements(r);
    assert s == set x | x in r;
  }

  lemma {:induction false} SizeOfElements(r: seq<int>)
    requires Ascending(r)
    ensures |set x | x in r| == |r|
  {
    if r != [] {
      SizeOfElements(r[1..]);
      assert r == [r[0]] + r[1..];
      assert (set x | x in r) == {r[0]} + set x | x in r[1..];
      assert r[0] !in r[1..];
    }
  }
}
