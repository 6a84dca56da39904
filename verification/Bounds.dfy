// The acquisition score of a candidate row, and the interval it is checked against when only
// bounds on the row's coordinates are known. The square root is any function with nonnegative
// values of the right square.

module Bounds {
  import opened Wrappers
  import opened Reals
  import opened Rounding

  type Vector = seq<real>

  datatype Past = Past(row: Vector, reward: real, noise: real)

  ghost predicate IsRoot(root: real -> real) {
    forall x: real :: x >= 0.0 ==> root(x) >= 0.0 && Squared(root(x)) == x
  }

  function Min(a: real, b: real): real { if a <= b then a else b }
  function Max(a: real, b: real): real { if a >= b then a else b }
  function Abs(a: real): real { if a < 0.0 then -a else a }

  // ---------------------------------------------------------------- the score

  function SquaredDistance(x: Vector, row: Vector): real
    requires |x| == |row|
  {
    if x == [] then 0.0 else Squared(x[0] - row[0]) + SquaredDistance(x[1..], row[1..])
  }

  const SHIFT: real := 0.050000001

  function Weight(distance: real): real
    requires distance >= 0.0
  {
    1.0 / (SHIFT + 0.7 * distance)
  }

  // The weight is one over 1e-9 plus 0.7 times the distance plus 0.05.
  lemma WeightScale(distance: real)
    requires distance >= 0.0
    ensures Weight(distance) * (0.000000001 + 0.7 * distance + 0.05) == 1.0
  {
  }

  function Sum(v: Vector): real {
    if v == [] then 0.0 else v[0] + Sum(v[1..])
  }

  function SumSquares(v: Vector): real {
    if v == [] then 0.0 else Squared(v[0]) + SumSquares(v[1..])
  }

  function Dot(v: Vector, w: Vector): real
    requires |v| == |w|
  {
    if v == [] then 0.0 else Times(v[0], w[0]) + Dot(v[1..], w[1..])
  }

  // Totals of one coordinate, and of a vector in two parts.
  lemma SumsOfOne(x: real, y: real)
    ensures Sum([x]) == x && SumSquares([x]) == x * x && Dot([x], [y]) == x * y
  {
    assert Sum([]) == 0.0 && SumSquares([]) == 0.0 && Dot([], []) == 0.0;
  }

  lemma {:induction false} SumsSplit(v: Vector, w: Vector, a: Vector, b: Vector)
    requires |v| == |a| && |w| == |b|
    ensures Sum(v + w) == Sum(v) + Sum(w) && SumSquares(v + w) == SumSquares(v) + SumSquares(w)
    ensures Dot(v + w, a + b) == Dot(v, a) + Dot(w, b)
  {
    if v == [] {
      assert v + w == w && a + b == b;
    } else {
      assert (v + w)[1..] == v[1..] + w && (a + b)[1..] == a[1..] + b;
      SumsSplit(v[1..], w, a[1..], b);
    }
  }

  // Weighted mean plus weighted noise, as the sampler draws it.
  function Score(root: real -> real, weights: Vector, rewards: Vector, noises: Vector): real
    requires |weights| == |rewards| == |noises|
    requires Sum(weights) != 0.0 && root(SumSquares(weights)) != 0.0 && root(Sum(weights)) != 0.0
  {
    Dot(weights, rewards) / Sum(weights) + Dot(weights, noises) / root(SumSquares(weights)) / root(Sum(weights))
  }

  // ---------------------------------------------------------------- distances

  // low <= x <= high, coordinate by coordinate.
  ghost predicate Between(low: Vector, x: Vector, high: Vector) {
    |low| == |x| == |high| && forall i :: 0 <= i < |x| ==> low[i] <= x[i] <= high[i]
  }

  // The box's nearest and farthest point to a row.
  function Closest(low: Vector, high: Vector, row: Vector): real
    requires |low| == |high| == |row|
  {
    if low == [] then 0.0
    else
      Squared(Max(Max(low[0] - row[0], row[0] - high[0]), 0.0)) + Closest(low[1..], high[1..], row[1..])
  }

  function Farthest(low: Vector, high: Vector, row: Vector): real
    requires |low| == |high| == |row|
  {
    if low == [] then 0.0
    else Squared(Max(Abs(low[0] - row[0]), Abs(high[0] - row[0]))) + Farthest(low[1..], high[1..], row[1..])
  }

  lemma SquareGrows(x: real, y: real)
    requires 0.0 <= x <= y
    ensures Squared(x) <= Squared(y)
  {
    ProductSign(y - x, y + x);
    assert Squared(y) - Squared(x) == Times(y - x, y + x);
  }

  lemma {:induction false} DistanceInside(low: Vector, x: Vector, high: Vector, row: Vector)
    requires Between(low, x, high) && |row| == |x|
    ensures 0.0 <= Closest(low, high, row) <= SquaredDistance(x, row) <= Farthest(low, high, row)
    decreases |x|
  {
    if x != [] {
      DistanceInside(low[1..], x[1..], high[1..], row[1..]);
      var l, v, h, r := low[0], x[0], high[0], row[0];
      var near, far, d := Max(Max(l - r, r - h), 0.0), Max(Abs(l - r), Abs(h - r)), Abs(v - r);
      SquareGrows(0.0, near);
      SquareGrows(near, d);
      SquareGrows(d, far);
      SquareSign(v - r);
      assert Squared(v - r) == Squared(d);
    }
  }

  // Both bounds are the distance of some point of the box.
  lemma {:induction false} DistanceReached(low: Vector, high: Vector, row: Vector) returns (near: Vector, far: Vector)
    requires Between(low, low, high) && |row| == |low|
    ensures Between(low, near, high) && SquaredDistance(near, row) == Closest(low, high, row)
    ensures Between(low, far, high) && SquaredDistance(far, row) == Farthest(low, high, row)
    decreases |row|
  {
    if row == [] {
      return [], [];
    }
    near, far := DistanceReached(low[1..], high[1..], row[1..]);
    var n, f := CoordinateReached(low[0], high[0], row[0]);
    Prepended(low, n, near, high);
    Prepended(low, f, far, high);
    assert ([n] + near)[1..] == near && ([f] + far)[1..] == far;
    near, far := [n] + near, [f] + far;
  }

  lemma Prepended(low: Vector, first: real, rest: Vector, high: Vector)
    requires |low| == |high| > 0 && low[0] <= first <= high[0] && Between(low[1..], rest, high[1..])
    ensures Between(low, [first] + rest, high)
  {
    assert forall i :: 1 <= i < |low| ==> low[i] == low[1..][i - 1] && high[i] == high[1..][i - 1];
  }

  lemma CoordinateReached(low: real, high: real, row: real) returns (near: real, far: real)
    requires low <= high
    ensures low <= near <= high && Squared(near - row) == Squared(Max(Max(low - row, row - high), 0.0))
    ensures low <= far <= high && Squared(far - row) == Squared(Max(Abs(low - row), Abs(high - row)))
  {
    near := if row < low then low else if row > high then high else row;
    far := if Abs(low - row) >= Abs(high - row) then low else high;
    assert Squared(near - row) == Squared(row - near) && Squared(far - row) == Squared(row - far);
  }

  // Nearer rows weigh more.
  lemma WeightFalls(a: real, b: real)
    requires 0.0 <= a <= b
    ensures 0.0 < Weight(b) <= Weight(a)
  {
    Reciprocal(SHIFT + 0.7 * a, SHIFT + 0.7 * b);
  }

  lemma Reciprocal(a: real, b: real)
    requires 0.0 < a <= b
    ensures 0.0 < 1.0 / b <= 1.0 / a
  {
    var x, y := 1.0 / a, 1.0 / b;
    assert x * a == 1.0 && y * b == 1.0;
  }

  // ---------------------------------------------------------------- weights

  function Rows(history: seq<Past>, at: Past -> real): (v: Vector)
    ensures |v| == |history| && forall i :: 0 <= i < |v| ==> v[i] == at(history[i])
  {
    seq(|history|, i requires 0 <= i < |history| => at(history[i]))
  }

  ghost predicate Positive(low: Vector, w: Vector, high: Vector) {
    |low| == |w| == |high| && forall i :: 0 <= i < |w| ==> 0.0 < low[i] <= w[i] <= high[i]
  }

  lemma {:induction false} SumsInside(low: Vector, w: Vector, high: Vector)
    requires Positive(low, w, high)
    ensures 0.0 <= Sum(low) <= Sum(w) <= Sum(high)
    ensures 0.0 <= SumSquares(low) <= SumSquares(w) <= SumSquares(high)
    ensures w != [] ==> Sum(low) > 0.0 && SumSquares(low) > 0.0
    decreases |w|
  {
    if w != [] {
      SumsInside(low[1..], w[1..], high[1..]);
      SquareSign(low[0]);
      SquareGrows(low[0], w[0]);
      SquareGrows(w[0], high[0]);
    }
  }

  // Least and greatest total a vector can reach with weights in the given range.
  function LeastDot(low: Vector, high: Vector, v: Vector): real
    requires |low| == |high| == |v|
  {
    if v == [] then 0.0
    else Min(Times(low[0], v[0]), Times(high[0], v[0])) + LeastDot(low[1..], high[1..], v[1..])
  }

  function GreatestDot(low: Vector, high: Vector, v: Vector): real
    requires |low| == |high| == |v|
  {
    if v == [] then 0.0
    else Max(Times(low[0], v[0]), Times(high[0], v[0])) + GreatestDot(low[1..], high[1..], v[1..])
  }

  lemma TimesBetween(low: real, w: real, high: real, v: real)
    requires low <= w <= high
    ensures Min(Times(low, v), Times(high, v)) <= Times(w, v) <= Max(Times(low, v), Times(high, v))
  {
    var a := if v < 0.0 then -v else v;
    ProductSign(w - low, a);
    ProductSign(high - w, a);
    assert Times(w - low, a) == Times(w, a) - Times(low, a);
    assert Times(high - w, a) == Times(high, a) - Times(w, a);
    if v < 0.0 {
      assert Times(w, a) == -Times(w, v) && Times(low, a) == -Times(low, v) && Times(high, a) == -Times(high, v);
    }
  }

  lemma {:induction false} DotsInside(low: Vector, w: Vector, high: Vector, v: Vector)
    requires Positive(low, w, high) && |v| == |w|
    ensures LeastDot(low, high, v) <= Dot(w, v) <= GreatestDot(low, high, v)
    decreases |w|
  {
    if w != [] {
      DotsInside(low[1..], w[1..], high[1..], v[1..]);
      TimesBetween(low[0], w[0], high[0], v[0]);
    }
  }

  // Both totals are reached by weights at the ends of their ranges.
  lemma {:induction false} DotsReached(low: Vector, high: Vector, v: Vector) returns (least: Vector, greatest: Vector)
    requires |low| == |high| == |v|
    ensures |least| == |greatest| == |v|
    ensures forall i :: 0 <= i < |v| ==> least[i] in {low[i], high[i]} && greatest[i] in {low[i], high[i]}
    ensures Dot(least, v) == LeastDot(low, high, v) && Dot(greatest, v) == GreatestDot(low, high, v)
    decreases |v|
  {
    if v == [] {
      return [], [];
    }
    var a, b := DotsReached(low[1..], high[1..], v[1..]);
    var rises := Times(low[0], v[0]) <= Times(high[0], v[0]);
    least := [if rises then low[0] else high[0]] + a;
    greatest := [if rises then high[0] else low[0]] + b;
    assert least[1..] == a && greatest[1..] == b;
  }

  // ---------------------------------------------------------------- ratios

  datatype Interval = Interval(least: real, greatest: real)

  // Smallest and largest of the four corners.
  function Corners(numerators: Interval, denominators: Interval): Interval
    requires denominators.least > 0.0 && denominators.greatest > 0.0
  {
    var a, b := numerators.least / denominators.least, numerators.least / denominators.greatest;
    var c, d := numerators.greatest / denominators.least, numerators.greatest / denominators.greatest;
    Interval(Min(Min(a, b), Min(c, d)), Max(Max(a, b), Max(c, d)))
  }

  ghost predicate In(x: real, i: Interval) { i.least <= x <= i.greatest }

  lemma QuotientGrows(a: real, b: real, d: real)
    requires a <= b && d > 0.0
    ensures a / d <= b / d
  {
    var x, y := a / d, b / d;
    assert x * d == a && y * d == b;
  }

  lemma QuotientShrinks(n: real, d: real, e: real)
    requires 0.0 < d <= e
    ensures n >= 0.0 ==> n / e <= n / d
    ensures n <= 0.0 ==> n / d <= n / e
  {
    var x, y := n / d, n / e;
    assert x * d == n && y * e == n;
    if n >= 0.0 {
      assert y >= 0.0;
      if y > x {
        assert y * e >= y * d > x * d;
      }
    } else {
      assert y <= 0.0;
      if x > y {
        assert x * d > y * d >= y * e;
      }
    }
  }

  // A quotient lies between the corners of its box.
  lemma RatioInside(n: real, d: real, numerators: Interval, denominators: Interval)
    requires denominators.least > 0.0 && In(n, numerators) && In(d, denominators)
    ensures In(n / d, Corners(numerators, denominators))
  {
    var lo, hi, e, f := numerators.least, numerators.greatest, denominators.least, denominators.greatest;
    QuotientShrinks(n, e, d);
    QuotientShrinks(n, d, f);
    QuotientGrows(lo, n, e);
    QuotientGrows(lo, n, f);
    QuotientGrows(n, hi, e);
    QuotientGrows(n, hi, f);
  }

  // Both ends of the corners are the quotient of two ends.
  lemma CornersReached(numerators: Interval, denominators: Interval) returns (n: real, d: real, m: real, e: real)
    requires denominators.least > 0.0 && denominators.greatest > 0.0
    ensures n in {numerators.least, numerators.greatest} && d in {denominators.least, denominators.greatest}
    ensures m in {numerators.least, numerators.greatest} && e in {denominators.least, denominators.greatest}
    ensures Corners(numerators, denominators) == Interval(n / d, m / e)
  {
    var a, b, c, f := numerators.least, numerators.greatest, denominators.least, denominators.greatest;
    var least, greatest := Corners(numerators, denominators).least, Corners(numerators, denominators).greatest;
    n, d := if least == a / c then a else if least == a / f then a else b, c;
    m, e := if greatest == a / c then a else if greatest == a / f then a else b, c;
    if least == a / f || (least != a / c && least == b / f) {
      d := f;
    }
    if greatest == a / f || (greatest != a / c && greatest == b / f) {
      e := f;
    }
  }

  // ---------------------------------------------------------------- roots

  lemma RootGrows(root: real -> real, x: real, y: real)
    requires IsRoot(root) && 0.0 <= x <= y
    ensures 0.0 <= root(x) <= root(y)
    ensures x > 0.0 ==> root(x) > 0.0
  {
    var a, b := root(x), root(y);
    assert Squared(a) - Squared(b) == Times(a - b, a + b);
    if a > b {
      ProductSign(a - b, a + b);
    }
  }

  lemma ProductGrows(a: real, b: real, c: real, d: real)
    requires 0.0 < a <= b && 0.0 < c <= d
    ensures 0.0 < Times(a, c) <= Times(b, d)
  {
    ProductSign(a, c);
    ProductSign(b - a, d);
    ProductSign(a, d - c);
    assert Times(b, d) - Times(a, c) == Times(b - a, d) + Times(a, d - c);
  }

  lemma QuotientTwice(n: real, a: real, b: real)
    requires a > 0.0 && b > 0.0
    ensures Times(a, b) > 0.0 && n / a / b == n / Times(a, b)
  {
    ProductSign(a, b);
    var x := n / a / b;
    assert x * b == n / a;
    assert (x * b) * a == n;
    assert (x * b) * a == x * Times(a, b);
  }

  // ---------------------------------------------------------------- the interval

  ghost predicate Widths(history: seq<Past>, n: nat) {
    forall i :: 0 <= i < |history| ==> |history[i].row| == n
  }

  // The weights of the history for a row, and for the nearest and farthest row of a box.
  function WeightsAt(history: seq<Past>, x: Vector): (w: Vector)
    requires Widths(history, |x|)
    ensures |w| == |history|
  {
    seq(|history|, i requires 0 <= i < |history| => WeightAt(history[i], x))
  }

  function WeightAt(past: Past, x: Vector): real
    requires |past.row| == |x|
  {
    DistanceNonNegative(x, past.row);
    Weight(SquaredDistance(x, past.row))
  }

  lemma {:induction false} DistanceNonNegative(x: Vector, row: Vector)
    requires |x| == |row|
    ensures SquaredDistance(x, row) >= 0.0
    decreases |x|
  {
    if x != [] {
      DistanceNonNegative(x[1..], row[1..]);
      SquareSign(x[0] - row[0]);
    }
  }

  // The candidate's score against a nonempty history.
  function ScoreAt(root: real -> real, history: seq<Past>, x: Vector): real
    requires IsRoot(root) && Widths(history, |x|) && history != []
  {
    WeightsPositive(history, x);
    SumsInside(WeightsAt(history, x), WeightsAt(history, x), WeightsAt(history, x));
    RootGrows(root, Sum(WeightsAt(history, x)), Sum(WeightsAt(history, x)));
    RootGrows(root, SumSquares(WeightsAt(history, x)), SumSquares(WeightsAt(history, x)));
    Score(root, WeightsAt(history, x), Rows(history, (p: Past) => p.reward), Rows(history, (p: Past) => p.noise))
  }

  lemma WeightsPositive(history: seq<Past>, x: Vector)
    requires Widths(history, |x|)
    ensures Positive(WeightsAt(history, x), WeightsAt(history, x), WeightsAt(history, x))
  {
    forall i | 0 <= i < |history| ensures WeightsAt(history, x)[i] > 0.0 {
      DistanceNonNegative(x, history[i].row);
      WeightFalls(SquaredDistance(x, history[i].row), SquaredDistance(x, history[i].row));
    }
  }

  // The denominator of the noise term.
  function NoiseScale(root: real -> real, w: Vector): real {
    Times(root(SumSquares(w)), root(Sum(w)))
  }

  lemma NoiseScalesInside(root: real -> real, low: Vector, w: Vector, high: Vector)
    requires IsRoot(root) && Positive(low, w, high) && w != []
    ensures 0.0 < NoiseScale(root, low) <= NoiseScale(root, w) <= NoiseScale(root, high)
  {
    SumsInside(low, w, high);
    RootGrows(root, SumSquares(low), SumSquares(w));
    RootGrows(root, SumSquares(w), SumSquares(high));
    RootGrows(root, Sum(low), Sum(w));
    RootGrows(root, Sum(w), Sum(high));
    ProductGrows(root(SumSquares(low)), root(SumSquares(w)), root(Sum(low)), root(Sum(w)));
    ProductGrows(root(SumSquares(w)), root(SumSquares(high)), root(Sum(w)), root(Sum(high)));
  }

  function WeightedMean(low: Vector, high: Vector, v: Vector, denominators: Interval): Interval
    requires |low| == |high| == |v| && denominators.least > 0.0 && denominators.greatest > 0.0
  {
    Corners(Interval(LeastDot(low, high, v), GreatestDot(low, high, v)), denominators)
  }

  // Weights between `low` and `high` score inside the sum of the two corner intervals.
  lemma ScoreInside(root: real -> real, low: Vector, w: Vector, high: Vector, rewards: Vector, noises: Vector)
    requires IsRoot(root) && Positive(low, w, high) && w != [] && |rewards| == |noises| == |w|
    ensures 0.0 < Sum(low) <= Sum(high) && 0.0 < NoiseScale(root, low) <= NoiseScale(root, high)
    ensures Sum(w) != 0.0 && root(SumSquares(w)) != 0.0 && root(Sum(w)) != 0.0
    ensures var mean := WeightedMean(low, high, rewards, Interval(Sum(low), Sum(high)));
      var noise := WeightedMean(low, high, noises, Interval(NoiseScale(root, low), NoiseScale(root, high)));
      In(Score(root, w, rewards, noises), Interval(mean.least + noise.least, mean.greatest + noise.greatest))
  {
    SumsInside(low, w, high);
    NoiseScalesInside(root, low, w, high);
    RootGrows(root, Sum(w), Sum(w));
    RootGrows(root, SumSquares(w), SumSquares(w));
    DotsInside(low, w, high, rewards);
    DotsInside(low, w, high, noises);
    RatioInside(Dot(w, rewards), Sum(w),
      Interval(LeastDot(low, high, rewards), GreatestDot(low, high, rewards)), Interval(Sum(low), Sum(high)));
    RatioInside(Dot(w, noises), NoiseScale(root, w),
      Interval(LeastDot(low, high, noises), GreatestDot(low, high, noises)),
      Interval(NoiseScale(root, low), NoiseScale(root, high)));
    QuotientTwice(Dot(w, noises), root(SumSquares(w)), root(Sum(w)));
  }

  // Weights that rows of the box have, each past row being met by a row of its own.
  ghost predicate Offered(low: Vector, high: Vector, past: Past, weight: real)
    requires |low| == |high| == |past.row|
  {
    exists x :: Between(low, x, high) && WeightAt(past, x) == weight
  }

  ghost predicate Offers(low: Vector, high: Vector, history: seq<Past>, w: Vector)
    requires |low| == |high| && Widths(history, |low|)
  {
    |w| == |history| && forall i :: 0 <= i < |w| ==> Offered(low, high, history[i], w[i])
  }

  // A score whose four totals each have weights of their own.
  datatype Choice = Choice(rewards: Vector, total: Vector, noises: Vector, scale: Vector)

  ghost predicate Choosable(low: Vector, high: Vector, history: seq<Past>, c: Choice)
    requires |low| == |high| && Widths(history, |low|)
  {
    && Offers(low, high, history, c.rewards) && Offers(low, high, history, c.total)
    && Offers(low, high, history, c.noises) && Offers(low, high, history, c.scale)
  }

  ghost predicate Scores(root: real -> real, history: seq<Past>, c: Choice, score: real) {
    && |c.rewards| == |c.noises| == |history| && Sum(c.total) > 0.0 && NoiseScale(root, c.scale) > 0.0
    && score == Dot(c.rewards, Rows(history, (p: Past) => p.reward)) / Sum(c.total)
      + Dot(c.noises, Rows(history, (p: Past) => p.noise)) / NoiseScale(root, c.scale)
  }

  // The interval is exactly the range of those scores: it contains them all, and its ends are two of them.
  ghost predicate Exact(root: real -> real, low: Vector, high: Vector, history: seq<Past>, bounds: Interval)
    requires |low| == |high| && Widths(history, |low|)
  {
    && (forall c :: Choosable(low, high, history, c) ==>
      exists score :: Scores(root, history, c, score) && bounds.least <= score <= bounds.greatest)
    && (exists c :: Choosable(low, high, history, c) && Scores(root, history, c, bounds.least))
    && (exists c :: Choosable(low, high, history, c) && Scores(root, history, c, bounds.greatest))
  }

  // The interval of weights between `low` and `high`.
  function Ends(root: real -> real, low: Vector, high: Vector, history: seq<Past>): Interval
    requires IsRoot(root) && Positive(low, low, high) && |low| == |history| > 0
  {
    SumsInside(low, low, high);
    NoiseScalesInside(root, low, low, high);
    var mean := WeightedMean(low, high, Rows(history, (p: Past) => p.reward), Interval(Sum(low), Sum(high)));
    var noise := WeightedMean(low, high, Rows(history, (p: Past) => p.noise),
      Interval(NoiseScale(root, low), NoiseScale(root, high)));
    Interval(mean.least + noise.least, mean.greatest + noise.greatest)
  }

  // A quotient of weighted total and denominator at each end of its corners.
  lemma MeanReached(low: Vector, high: Vector, v: Vector, denominators: Interval)
    returns (n: Vector, d: real, m: Vector, e: real)
    requires |low| == |high| == |v| && denominators.least > 0.0 && denominators.greatest > 0.0
    ensures |n| == |m| == |v|
    ensures forall i :: 0 <= i < |v| ==> n[i] in {low[i], high[i]} && m[i] in {low[i], high[i]}
    ensures d in {denominators.least, denominators.greatest} && e in {denominators.least, denominators.greatest}
    ensures WeightedMean(low, high, v, denominators) == Interval(Dot(n, v) / d, Dot(m, v) / e)
  {
    var least, greatest := DotsReached(low, high, v);
    var a, b;
    a, d, b, e := CornersReached(Interval(Dot(least, v), Dot(greatest, v)), denominators);
    n := if a == Dot(least, v) then least else greatest;
    m := if b == Dot(least, v) then least else greatest;
  }

  // The ends are reached by weights at the ends of their ranges.
  lemma EndsReached(root: real -> real, low: Vector, high: Vector, history: seq<Past>) returns (c: Choice, d: Choice)
    requires IsRoot(root) && Positive(low, low, high) && |low| == |history| > 0
    ensures Scores(root, history, c, Ends(root, low, high, history).least)
    ensures Scores(root, history, d, Ends(root, low, high, history).greatest)
    ensures AtEnds(low, high, c) && AtEnds(low, high, d)
  {
    SumsInside(low, low, high);
    NoiseScalesInside(root, low, low, high);
    var totals, scales := Interval(Sum(low), Sum(high)), Interval(NoiseScale(root, low), NoiseScale(root, high));
    var n, e, m, f := MeanReached(low, high, Rows(history, (p: Past) => p.reward), totals);
    var o, g, q, h := MeanReached(low, high, Rows(history, (p: Past) => p.noise), scales);
    c := Choice(n, if e == totals.least then low else high, o, if g == scales.least then low else high);
    d := Choice(m, if f == totals.least then low else high, q, if h == scales.least then low else high);
  }

  ghost predicate FromEnds(low: Vector, high: Vector, w: Vector) {
    |low| == |high| == |w| && forall i :: 0 <= i < |w| ==> w[i] in {low[i], high[i]}
  }

  ghost predicate AtEnds(low: Vector, high: Vector, c: Choice) {
    && FromEnds(low, high, c.rewards) && FromEnds(low, high, c.total)
    && FromEnds(low, high, c.noises) && FromEnds(low, high, c.scale)
  }

  // Any choice of weights within their ranges scores between the ends.
  lemma ChoiceInside(root: real -> real, low: Vector, high: Vector, history: seq<Past>, c: Choice) returns (score: real)
    requires IsRoot(root) && Positive(low, low, high) && |low| == |history| > 0
    requires Positive(low, c.rewards, high) && Positive(low, c.total, high)
    requires Positive(low, c.noises, high) && Positive(low, c.scale, high)
    ensures Scores(root, history, c, score) && In(score, Ends(root, low, high, history))
  {
    var rewards, noises := Rows(history, (p: Past) => p.reward), Rows(history, (p: Past) => p.noise);
    SumsInside(low, c.total, high);
    NoiseScalesInside(root, low, c.scale, high);
    DotsInside(low, c.rewards, high, rewards);
    DotsInside(low, c.noises, high, noises);
    RatioInside(Dot(c.rewards, rewards), Sum(c.total),
      Interval(LeastDot(low, high, rewards), GreatestDot(low, high, rewards)), Interval(Sum(low), Sum(high)));
    RatioInside(Dot(c.noises, noises), NoiseScale(root, c.scale),
      Interval(LeastDot(low, high, noises), GreatestDot(low, high, noises)),
      Interval(NoiseScale(root, low), NoiseScale(root, high)));
    score := Dot(c.rewards, rewards) / Sum(c.total) + Dot(c.noises, noises) / NoiseScale(root, c.scale);
  }

  // Ranges whose ends the box offers, and that hold all it offers, give exact ends.
  lemma EndsExact(root: real -> real, low: Vector, high: Vector, history: seq<Past>, least: Vector, greatest: Vector)
    requires IsRoot(root) && Positive(least, least, greatest) && |least| == |history| > 0
    requires |low| == |high| && Widths(history, |low|)
    requires Offers(low, high, history, least) && Offers(low, high, history, greatest)
    requires forall w :: Offers(low, high, history, w) ==> Positive(least, w, greatest)
    ensures Exact(root, low, high, history, Ends(root, least, greatest, history))
  {
    var bounds := Ends(root, least, greatest, history);
    var c, d := EndsReached(root, least, greatest, history);
    assert Choosable(low, high, history, c) && Choosable(low, high, history, d);
    forall c | Choosable(low, high, history, c)
      ensures exists score :: Scores(root, history, c, score) && bounds.least <= score <= bounds.greatest
    {
      var score := ChoiceInside(root, least, greatest, history, c);
    }
  }

  // The interval for a box of rows. A row inside the box always scores inside it, and no smaller
  // interval holds every score whose weights are chosen apart.
  method ScoreBounds(root: real -> real, low: Vector, high: Vector, history: seq<Past>) returns (bounds: Interval)
    requires IsRoot(root) && Between(low, low, high) && Widths(history, |low|) && history != []
    ensures forall x :: Between(low, x, high) ==> In(ScoreAt(root, history, x), bounds)
    ensures Exact(root, low, high, history, bounds)
  {
    var least, greatest := BoxWeights(low, high, history);
    var rewards, noises := Rows(history, (p: Past) => p.reward), Rows(history, (p: Past) => p.noise);
    ScoreInside(root, least, least, greatest, rewards, noises);
    var mean := WeightedMean(least, greatest, rewards, Interval(Sum(least), Sum(greatest)));
    var noise := WeightedMean(least, greatest, noises, Interval(NoiseScale(root, least), NoiseScale(root, greatest)));
    bounds := Interval(mean.least + noise.least, mean.greatest + noise.greatest);
    forall x | Between(low, x, high) ensures In(ScoreAt(root, history, x), bounds) {
      AllOffered(low, x, high, history);
      ScoreInside(root, least, WeightsAt(history, x), greatest, rewards, noises);
    }
    EndsExact(root, low, high, history, least, greatest);
  }

  lemma AllOffered(low: Vector, x: Vector, high: Vector, history: seq<Past>)
    requires Between(low, x, high) && Widths(history, |x|)
    ensures Offers(low, high, history, WeightsAt(history, x))
  {
  }

  // The least and greatest weight each past row can have against the box, both of them reached.
  method BoxWeights(low: Vector, high: Vector, history: seq<Past>) returns (least: Vector, greatest: Vector)
    requires Between(low, low, high) && Widths(history, |low|)
    ensures Positive(least, least, greatest) && |least| == |history|
    ensures Offers(low, high, history, least) && Offers(low, high, history, greatest)
    ensures forall w :: Offers(low, high, history, w) ==> Positive(least, w, greatest)
  {
    least, greatest := [], [];
    for n := 0 to |history|
      invariant |least| == |greatest| == n
      invariant forall i :: 0 <= i < n ==> Range(low, high, history[i], least[i], greatest[i])
    {
      var row := history[n].row;
      DistanceInside(low, low, high, row);
      RangeOfBox(low, high, history[n]);
      least := least + [Weight(Farthest(low, high, row))];
      greatest := greatest + [Weight(Closest(low, high, row))];
    }
    forall w | Offers(low, high, history, w) ensures Positive(least, w, greatest) {
      forall i | 0 <= i < |w| ensures 0.0 < least[i] <= w[i] <= greatest[i] {
        assert Range(low, high, history[i], least[i], greatest[i]) && Offered(low, high, history[i], w[i]);
      }
    }
  }

  // The least and greatest weight the box offers.
  ghost predicate Range(low: Vector, high: Vector, past: Past, least: real, greatest: real)
    requires |low| == |high| == |past.row|
  {
    && 0.0 < least <= greatest && Offered(low, high, past, least) && Offered(low, high, past, greatest)
    && forall weight :: Offered(low, high, past, weight) ==> least <= weight <= greatest
  }

  lemma RangeOfBox(low: Vector, high: Vector, past: Past)
    requires Between(low, low, high) && |past.row| == |low|
    ensures 0.0 <= Closest(low, high, past.row) <= Farthest(low, high, past.row)
    ensures Range(low, high, past, Weight(Farthest(low, high, past.row)), Weight(Closest(low, high, past.row)))
  {
    var close, far := Closest(low, high, past.row), Farthest(low, high, past.row);
    DistanceInside(low, low, high, past.row);
    WeightFalls(close, far);
    var x, y := DistanceReached(low, high, past.row);
    assert WeightAt(past, x) == Weight(close) && WeightAt(past, y) == Weight(far);
    forall weight | Offered(low, high, past, weight) ensures Weight(far) <= weight <= Weight(close) {
      var z :| Between(low, z, high) && WeightAt(past, z) == weight;
      DistanceInside(low, z, high, past.row);
      WeightFalls(close, SquaredDistance(z, past.row));
      WeightFalls(SquaredDistance(z, past.row), far);
    }
  }

  // ---------------------------------------------------------------- from an allowance to a box

  // The values of binary32 bits, given the value of their unit.
  function Values(bits: seq<nat>, unit: real): (v: Vector)
    ensures |v| == |bits|
  {
    seq(|bits|, i requires 0 <= i < |bits| => Times(Worth(bits[i]) as real, unit))
  }

  // What a real number is worth once converted and rounded to BF16.
  function Rounded(cast: real -> nat, unit: real, v: real): real {
    Times(Worth(Decode(Encode(cast(v)))) as real, unit)
  }

  // The BF16 row a candidate is stored as.
  function Stored(bits: seq<nat>): (r: seq<nat>)
    ensures |r| == |bits|
  {
    seq(|bits|, i requires 0 <= i < |bits| => Decode(Encode(bits[i])))
  }

  lemma UnitsScale(a: int, b: int, unit: real)
    requires a <= b && unit > 0.0
    ensures Times(a as real, unit) <= Times(b as real, unit)
  {
    ProductSign((b - a) as real, unit);
    assert Times((b - a) as real, unit) == Times(b as real, unit) - Times(a as real, unit);
  }

  // All exponent bits set mean infinity or not a number.
  predicate Finite(bits: nat)
    ensures Finite(bits) <==> bits < 0x1_0000_0000 && bits % 0x8000_0000 < 0x7F80_0000
  {
    bits < INFINITE || SIGN32 <= bits < SIGN32 + INFINITE
  }

  predicate AllFinite(bits: seq<nat>) {
    forall i :: 0 <= i < |bits| ==> Finite(bits[i])
  }

  // A conversion to binary32: a number for every real, in their order, that keeps binary32 values.
  ghost predicate Converts(cast: real -> nat, unit: real) {
    && (forall a :: Number(cast(a)))
    && (forall a, b :: a <= b ==> Worth(cast(a)) <= Worth(cast(b)))
    && (forall bits: nat :: Finite(bits) ==> Worth(cast(Times(Worth(bits) as real, unit))) == Worth(bits))
  }

  function Minus(a: Vector, b: Vector): Vector
    requires |a| == |b|
  {
    seq(|a|, i requires 0 <= i < |a| => a[i] - b[i])
  }

  function Plus(a: Vector, b: Vector): Vector
    requires |a| == |b|
  {
    seq(|a|, i requires 0 <= i < |a| => a[i] + b[i])
  }

  // The bound of a box, as BF16 bits in binary32.
  function Bound(cast: real -> nat, v: Vector): (r: seq<nat>)
    ensures |r| == |v|
  {
    seq(|v|, i requires 0 <= i < |v| => Decode(Encode(cast(v[i]))))
  }

  lemma ConvertedBetween(cast: real -> nat, unit: real, low: real, bits: nat, high: real)
    requires unit > 0.0 && Converts(cast, unit) && Finite(bits) && low <= Times(Worth(bits) as real, unit) <= high
    ensures Worth(Decode(Encode(cast(low)))) <= Worth(Decode(Encode(bits))) <= Worth(Decode(Encode(cast(high))))
  {
    var value := Times(Worth(bits) as real, unit);
    assert Worth(cast(low)) <= Worth(cast(value)) <= Worth(cast(high));
    RoundingIsMonotone(cast(low), bits);
    RoundingIsMonotone(bits, cast(high));
  }

  // A row within its allowance is stored inside the box of the stored bounds.
  lemma StoredBetween(cast: real -> nat, unit: real, low: Vector, x: seq<nat>, high: Vector)
    requires unit > 0.0 && Converts(cast, unit) && AllFinite(x) && Between(low, Values(x, unit), high)
    ensures Between(Values(Bound(cast, low), unit), Values(Stored(x), unit), Values(Bound(cast, high), unit))
  {
    forall i | 0 <= i < |x|
      ensures Values(Bound(cast, low), unit)[i] <= Values(Stored(x), unit)[i] <= Values(Bound(cast, high), unit)[i]
    {
      assert low[i] <= Values(x, unit)[i] <= high[i];
      ConvertedBetween(cast, unit, low[i], x[i], high[i]);
      UnitsScale(Worth(Bound(cast, low)[i]), Worth(Stored(x)[i]), unit);
      UnitsScale(Worth(Stored(x)[i]), Worth(Bound(cast, high)[i]), unit);
    }
  }

  lemma BoundsOrdered(cast: real -> nat, unit: real, low: Vector, high: Vector)
    requires unit > 0.0 && Converts(cast, unit) && Between(low, low, high)
    ensures Between(Values(Bound(cast, low), unit), Values(Bound(cast, low), unit), Values(Bound(cast, high), unit))
  {
    forall i | 0 <= i < |low| ensures Values(Bound(cast, low), unit)[i] <= Values(Bound(cast, high), unit)[i] {
      assert low[i] <= high[i];
      RoundingIsMonotone(cast(low[i]), cast(high[i]));
      UnitsScale(Worth(Bound(cast, low)[i]), Worth(Bound(cast, high)[i]), unit);
    }
  }

  // Within its allowance of the raw values.
  ghost predicate Allowed(raw: Vector, allowance: Vector, v: Vector) {
    && |raw| == |allowance| == |v|
    && forall i :: 0 <= i < |v| ==> raw[i] - allowance[i] <= v[i] <= raw[i] + allowance[i]
  }

  // The bounds of the raw values less and plus their allowances.
  ghost predicate RoundedBox(cast: real -> nat, unit: real, raw: Vector, allowance: Vector, low: Vector, high: Vector) {
    && |raw| == |allowance| == |low| == |high|
    && (forall i :: 0 <= i < |low| ==> low[i] == Rounded(cast, unit, raw[i] - allowance[i]))
    && (forall i :: 0 <= i < |high| ==> high[i] == Rounded(cast, unit, raw[i] + allowance[i]))
  }

  ghost predicate FiniteBox(cast: real -> nat, raw: Vector, allowance: Vector)
    requires |raw| == |allowance|
  {
    && (forall i :: 0 <= i < |raw| ==> Finite(Decode(Encode(cast(raw[i] - allowance[i])))))
    && (forall i :: 0 <= i < |raw| ==> Finite(Decode(Encode(cast(raw[i] + allowance[i])))))
  }

  lemma BoxOfBounds(cast: real -> nat, unit: real, raw: Vector, allowance: Vector)
    requires |raw| == |allowance|
    ensures var low, high := Bound(cast, Minus(raw, allowance)), Bound(cast, Plus(raw, allowance));
      && (AllFinite(low) && AllFinite(high) <==> FiniteBox(cast, raw, allowance))
      && RoundedBox(cast, unit, raw, allowance, Values(low, unit), Values(high, unit))
  {
    var low, high := Bound(cast, Minus(raw, allowance)), Bound(cast, Plus(raw, allowance));
    assert forall i :: 0 <= i < |raw| ==> low[i] == Decode(Encode(cast(raw[i] - allowance[i])));
    assert forall i :: 0 <= i < |raw| ==> high[i] == Decode(Encode(cast(raw[i] + allowance[i])));
  }

  lemma OneBox(
    cast: real -> nat, unit: real, raw: Vector, allowance: Vector, a: Vector, b: Vector, c: Vector, d: Vector)
    requires RoundedBox(cast, unit, raw, allowance, a, b) && RoundedBox(cast, unit, raw, allowance, c, d)
    ensures a == c && b == d
  {
  }

  lemma AllowedBetween(raw: Vector, allowance: Vector, v: Vector)
    requires |raw| == |allowance|
    ensures Allowed(raw, allowance, v) <==> Between(Minus(raw, allowance), v, Plus(raw, allowance))
  {
  }

  // The interval for a value and an allowance per coordinate. Every row within its allowance, once
  // stored as BF16, scores inside it, and it is exact for the box of the rounded bounds. An infinite
  // bound takes every least weight to zero and leaves no finite lower end, and neither does an empty
  // history.
  method AllowanceBounds(
    root: real -> real, cast: real -> nat, unit: real, raw: Vector, allowance: Vector, history: seq<Past>)
    returns (bounds: Option<Interval>)
    requires IsRoot(root) && unit > 0.0 && Converts(cast, unit)
    requires |raw| == |allowance| && forall i :: 0 <= i < |allowance| ==> allowance[i] >= 0.0
    requires Widths(history, |raw|)
    ensures bounds.Some? <==> history != [] && FiniteBox(cast, raw, allowance)
    ensures bounds.Some? ==> forall x :: AllFinite(x) && Allowed(raw, allowance, Values(x, unit)) ==>
      In(ScoreAt(root, history, Values(Stored(x), unit)), bounds.value)
    ensures bounds.Some? ==> forall low, high :: RoundedBox(cast, unit, raw, allowance, low, high) ==>
      Exact(root, low, high, history, bounds.value)
  {
    var low, high := Minus(raw, allowance), Plus(raw, allowance);
    BoxOfBounds(cast, unit, raw, allowance);
    if history == [] || !AllFinite(Bound(cast, low)) || !AllFinite(Bound(cast, high)) {
      return None;
    }
    BoundsOrdered(cast, unit, low, high);
    var interval := ScoreBounds(root, Values(Bound(cast, low), unit), Values(Bound(cast, high), unit), history);
    bounds := Some(interval);
    forall x | AllFinite(x) && Allowed(raw, allowance, Values(x, unit))
      ensures In(ScoreAt(root, history, Values(Stored(x), unit)), interval)
    {
      AllowedBetween(raw, allowance, Values(x, unit));
      StoredBetween(cast, unit, low, x, high);
    }
    forall a, b | RoundedBox(cast, unit, raw, allowance, a, b) ensures Exact(root, a, b, history, interval) {
      OneBox(cast, unit, raw, allowance, a, b, Values(Bound(cast, low), unit), Values(Bound(cast, high), unit));
    }
  }
}
