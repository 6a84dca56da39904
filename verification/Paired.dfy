// Paired screening of a candidate against the incumbent on the same problems. Losses are reals,
// the square root is any function with nonnegative values of the right square, and `native` is the
// monotone conversion of a score to the engine's precision.

module Paired {
  import opened Wrappers
  import opened Reals

  datatype Arithmetic = Arithmetic(root: real -> real, native: real -> real)

  ghost predicate Lawful(a: Arithmetic) {
    && (forall x: real :: x >= 0.0 ==> a.root(x) >= 0.0 && a.root(x) * a.root(x) == x)
    && (forall x: real, y: real :: x <= y ==> a.native(x) <= a.native(y))
  }

  datatype Comparison = Comparison(
    candidateLoss: real, incumbentLoss: real, candidateVariance: real, incumbentVariance: real,
    improvement: real, improvementVariance: real, accepted: bool, deteriorated: bool)

  function Total(v: seq<real>): real {
    if v == [] then 0.0 else v[0] + Total(v[1..])
  }

  function Mean(v: seq<real>): real
    requires v != []
  {
    Ratio(Total(v), |v|)
  }

  function Ratio(x: real, n: nat): real
    requires n > 0
  {
    x / n as real
  }

  function Deviations(v: seq<real>, center: real): real {
    if v == [] then 0.0 else Squared(v[0] - center) + Deviations(v[1..], center)
  }

  // Variance of the mean of a sample drawn without replacement; zero for the whole population.
  function MeanVariance(v: seq<real>, population: nat): real
    requires 2 <= |v| <= population
  {
    Corrected(|v|, population, Deviations(v, Mean(v)))
  }

  function Corrected(n: nat, population: nat, deviations: real): real
    requires 2 <= n <= population
  {
    Times((1.0 - n as real / population as real) / n as real, deviations / (n as real - 1.0))
  }

  function Differences(incumbent: seq<real>, candidate: seq<real>): (d: seq<real>)
    requires |incumbent| == |candidate|
    ensures |d| == |candidate|
  {
    if incumbent == [] then [] else [incumbent[0] - candidate[0]] + Differences(incumbent[1..], candidate[1..])
  }

  predicate Comparable(candidate: seq<real>, incumbent: seq<real>, population: nat) {
    && 2 <= |candidate| == |incumbent| <= population
    && (forall i :: 0 <= i < |candidate| ==> candidate[i] >= 0.0)
    && (forall i :: 0 <= i < |incumbent| ==> incumbent[i] >= 0.0)
  }

  function Compare(a: Arithmetic, candidate: seq<real>, incumbent: seq<real>, population: nat, se: real)
    : (r: Option<Comparison>)
    ensures r.Some? <==> Comparable(candidate, incumbent, population)
  {
    if !Comparable(candidate, incumbent, population) then None
    else
      var d := Differences(incumbent, candidate);
      var improvement, variance := Mean(d), MeanVariance(d, population);
      var threshold := Times(se, a.root(variance));
      var score, base := a.native(-Mean(candidate)), a.native(-Mean(incumbent));
      Some(Comparison(
        Mean(candidate), Mean(incumbent), MeanVariance(candidate, population), MeanVariance(incumbent, population),
        improvement, variance, improvement > threshold && score > base, improvement < -threshold && score < base))
  }

  // ---------------------------------------------------------------- the variance, without its mean

  // Squared gaps between one value and some others, and between all values.
  function GapsTo(x: real, v: seq<real>): real {
    if v == [] then 0.0 else Squared(x - v[0]) + GapsTo(x, v[1..])
  }

  function Gaps(v: seq<real>): real {
    if v == [] then 0.0 else 2.0 * GapsTo(v[0], v[1..]) + Gaps(v[1..])
  }

  function Squares(v: seq<real>): real {
    if v == [] then 0.0 else Squared(v[0]) + Squares(v[1..])
  }

  lemma SquareGap(x: real, y: real)
    ensures Squared(x - y) == Squared(x) - 2.0 * Times(x, y) + Squared(y)
  {
  }

  lemma SquareSum(x: real, y: real)
    ensures Squared(x + y) == Squared(x) + 2.0 * Times(x, y) + Squared(y)
  {
  }

  lemma TimesSum(x: real, y: real, z: real)
    ensures Times(x, y + z) == Times(x, y) + Times(x, z)
  {
  }

  lemma TimesNext(n: nat, x: real)
    ensures Times((n + 1) as real, x) == Times(n as real, x) + x && Times(0.0, x) == 0.0
  {
  }

  lemma {:induction false} GapsToSums(x: real, v: seq<real>)
    ensures GapsTo(x, v) == Times(|v| as real, Squared(x)) - 2.0 * Times(x, Total(v)) + Squares(v)
    decreases |v|
  {
    if v == [] {
      TimesNext(0, Squared(x));
      assert Times(x, 0.0) == 0.0;
    } else {
      GapsToSums(x, v[1..]);
      SquareGap(x, v[0]);
      TimesSum(x, v[0], Total(v[1..]));
      TimesNext(|v| - 1, Squared(x));
    }
  }

  lemma {:induction false} GapsSum(v: seq<real>)
    ensures Gaps(v) == 2.0 * Times(|v| as real, Squares(v)) - 2.0 * Squared(Total(v))
    decreases |v|
  {
    if v == [] {
      TimesNext(0, 0.0);
      assert Squared(0.0) == 0.0;
    } else {
      GapsSum(v[1..]);
      GapsToSums(v[0], v[1..]);
      SquareSum(v[0], Total(v[1..]));
      TimesSum(|v| as real, Squared(v[0]), Squares(v[1..]));
      TimesNext(|v| - 1, Squared(v[0]));
      TimesNext(|v| - 1, Squares(v[1..]));
    }
  }

  lemma {:induction false} DeviationsSum(v: seq<real>, c: real)
    ensures Deviations(v, c) == Squares(v) - 2.0 * Times(c, Total(v)) + Times(|v| as real, Squared(c))
    decreases |v|
  {
    if v == [] {
      TimesNext(0, Squared(c));
      assert Times(c, 0.0) == 0.0;
    } else {
      DeviationsSum(v[1..], c);
      SquareGap(v[0], c);
      TimesSum(c, v[0], Total(v[1..]));
      TimesNext(|v| - 1, Squared(c));
      assert Times(v[0], c) == Times(c, v[0]);
    }
  }

  lemma RatioCancels(t: real, n: nat)
    requires n > 0
    ensures Times(n as real, Ratio(t, n)) == t
  {
  }

  // All squared gaps add up to 2 n times the squared deviations from the mean.
  lemma GapsAreDeviations(v: seq<real>)
    requires v != []
    ensures Gaps(v) == 2.0 * Times(|v| as real, Deviations(v, Mean(v)))
  {
    var c := Mean(v);
    RatioCancels(Total(v), |v|);
    DeviationsFromSums(v, c);
    MeanCancels(|v| as real, c, Total(v), Squares(v), Deviations(v, c), Gaps(v));
  }

  lemma DeviationsFromSums(v: seq<real>, c: real)
    ensures Gaps(v) == 2.0 * Times(|v| as real, Squares(v)) - 2.0 * Squared(Total(v))
    ensures Deviations(v, c) == Squares(v) - 2.0 * Times(c, Total(v)) + Times(|v| as real, Squared(c))
  {
    GapsSum(v);
    DeviationsSum(v, c);
  }

  lemma MeanCancels(n: real, c: real, t: real, q: real, d: real, g: real)
    requires Times(n, c) == t && d == q - 2.0 * Times(c, t) + Times(n, Squared(c))
    requires g == 2.0 * Times(n, q) - 2.0 * Squared(t)
    ensures g == 2.0 * Times(n, d)
  {
    assert n * (c * t) == t * t;
    assert n * (n * (c * c)) == (n * c) * (n * c);
    assert n * d == n * q - 2.0 * (n * (c * t)) + n * (n * (c * c));
  }

  // The reported variance of a sample's mean, from the gaps between its values alone: for n of N values
  // it is (N - n) / N of all squared gaps, over 2 n^2 (n - 1).
  lemma VarianceFromGaps(v: seq<real>, population: nat)
    requires 2 <= |v| <= population
    ensures MeanVariance(v, population) == Scaled(|v|, population, Gaps(v))
  {
    GapsAreDeviations(v);
    CorrectedScales(|v|, population, Deviations(v, Mean(v)), Gaps(v));
  }

  function Scaled(n: nat, population: nat, gaps: real): real
    requires 2 <= n <= population
  {
    (population - n) as real * gaps / (2.0 * (n * n * (n - 1) * population) as real)
  }

  lemma CorrectedScales(n: nat, population: nat, d: real, gaps: real)
    requires 2 <= n <= population && gaps == 2.0 * Times(n as real, d)
    ensures Corrected(n, population, d) == Scaled(n, population, gaps)
  {
    var m, p := n as real, population as real;
    assert (n - 1) as real == m - 1.0 && (population - n) as real == p - m;
    ProductCast(n, population);
    ScalesReal(m, p, d);
  }

  lemma ProductCast(n: nat, population: nat)
    requires n > 0
    ensures (n * n * (n - 1) * population) as real ==
      n as real * n as real * (n as real - 1.0) * population as real
  {
  }

  lemma ScalesReal(m: real, p: real, d: real)
    requires m >= 2.0 && p >= m
    ensures m * m * (m - 1.0) * p > 0.0
    ensures Times((1.0 - m / p) / m, d / (m - 1.0)) ==
      (p - m) * (2.0 * Times(m, d)) / (2.0 * (m * m * (m - 1.0) * p))
  {
    var a, b, q := (1.0 - m / p) / m, d / (m - 1.0), m * m * (m - 1.0) * p;
    assert m * m > 0.0;
    assert m * m * (m - 1.0) > 0.0;
    assert q > 0.0;
    assert (m / p) * p == m;
    assert a * m == 1.0 - m / p;
    assert (a * m) * p == p - m;
    assert b * (m - 1.0) == d;
    Exchange(a, b, m, p, d, q);
  }

  lemma Exchange(a: real, b: real, m: real, p: real, d: real, q: real)
    requires (a * m) * p == p - m && b * (m - 1.0) == d && q == m * m * (m - 1.0) * p && q > 0.0
    ensures Times(a, b) == (p - m) * (2.0 * Times(m, d)) / (2.0 * q)
  {
    assert (a * b) * (2.0 * q) == ((a * m) * p) * (2.0 * (m * (b * (m - 1.0))));
  }

  // ---------------------------------------------------------------- the improvement

  lemma {:induction false} TotalOfDifferences(incumbent: seq<real>, candidate: seq<real>)
    requires |incumbent| == |candidate|
    ensures Total(Differences(incumbent, candidate)) == Total(incumbent) - Total(candidate)
    decreases |incumbent|
  {
    if incumbent != [] {
      TotalOfDifferences(incumbent[1..], candidate[1..]);
    }
  }

  lemma {:induction false} DifferencesMirror(x: seq<real>, y: seq<real>, center: real)
    requires |x| == |y|
    ensures Total(Differences(y, x)) == -Total(Differences(x, y))
    ensures Deviations(Differences(y, x), -center) == Deviations(Differences(x, y), center)
    decreases |x|
  {
    if x != [] {
      DifferencesMirror(x[1..], y[1..], center);
      var d := x[0] - y[0];
      SquareSign(d - center);
      assert -d - -center == -(d - center);
    }
  }

  lemma {:induction false} DeviationsNonNegative(v: seq<real>, center: real)
    ensures Deviations(v, center) >= 0.0
    decreases |v|
  {
    if v != [] {
      DeviationsNonNegative(v[1..], center);
      SquareSign(v[0] - center);
    }
  }

  lemma Quotient(x: real, n: real)
    requires x >= 0.0 && n > 0.0
    ensures x / n >= 0.0
  {
  }

  lemma VarianceNonNegative(v: seq<real>, population: nat)
    requires 2 <= |v| <= population
    ensures MeanVariance(v, population) >= 0.0
  {
    var n, p := |v| as real, population as real;
    DeviationsNonNegative(v, Mean(v));
    Quotient(Deviations(v, Mean(v)), n - 1.0);
    assert n / p <= 1.0;
    Quotient(1.0 - n / p, n);
    ProductSign((1.0 - n / p) / n, Deviations(v, Mean(v)) / (n - 1.0));
  }

  lemma MeanMirror(x: seq<real>, y: seq<real>)
    requires |x| == |y| && x != []
    ensures Mean(Differences(y, x)) == -Mean(Differences(x, y))
  {
    DifferencesMirror(x, y, 0.0);
    RatioSubtracts(0.0, Total(Differences(x, y)), Total(Differences(y, x)), |x|);
  }

  lemma RatioSubtracts(x: real, y: real, z: real, n: nat)
    requires n > 0 && z == x - y
    ensures Ratio(z, n) == Ratio(x, n) - Ratio(y, n) && Ratio(0.0, n) == 0.0
  {
    var m := n as real;
    assert (x - y) / m == x / m - y / m;
  }

  lemma VarianceMirror(x: seq<real>, y: seq<real>, population: nat)
    requires 2 <= |x| == |y| <= population
    ensures MeanVariance(Differences(y, x), population) == MeanVariance(Differences(x, y), population)
  {
    MeanMirror(x, y);
    var center, other := Mean(Differences(x, y)), Mean(Differences(y, x));
    DifferencesMirror(x, y, center);
    assert other == -center;
    assert Deviations(Differences(y, x), other) == Deviations(Differences(x, y), center);
  }

  // Swapping the two sides turns acceptance into deterioration and back.
  lemma Mirror(a: Arithmetic, x: seq<real>, y: seq<real>, population: nat, se: real)
    requires Comparable(x, y, population)
    ensures Comparable(y, x, population)
    ensures var p, q := Compare(a, x, y, population, se).value, Compare(a, y, x, population, se).value;
      && (p.accepted <==> q.deteriorated) && (p.deteriorated <==> q.accepted)
      && p.improvement == -q.improvement && p.improvementVariance == q.improvementVariance
  {
    MeanMirror(x, y);
    VarianceMirror(x, y, population);
  }

  // Accepted exactly if the mean loss falls, by more than se standard errors of the paired differences
  // when both are squared, and the engine sees it fall; deteriorated exactly if so with the sides swapped.
  lemma AcceptedExactly(a: Arithmetic, candidate: seq<real>, incumbent: seq<real>, population: nat, se: real)
    requires Lawful(a) && se >= 0.0 && Comparable(candidate, incumbent, population)
    ensures var p := Compare(a, candidate, incumbent, population, se).value;
      var fall, error := Mean(incumbent) - Mean(candidate), MeanVariance(Differences(incumbent, candidate), population);
      var clear := Squared(fall) > Times(Squared(se), error);
      var score, base := a.native(-Mean(candidate)), a.native(-Mean(incumbent));
      && (p.accepted <==> fall > 0.0 && clear && score > base)
      && (p.deteriorated <==> fall < 0.0 && clear && score < base)
  {
    var d := Differences(incumbent, candidate);
    var variance := MeanVariance(d, population);
    MeanOfDifferences(incumbent, candidate);
    VarianceNonNegative(d, population);
    ThresholdSquared(Mean(d), se, a.root(variance), variance);
  }

  lemma ThresholdSquared(x: real, se: real, root: real, variance: real)
    requires se >= 0.0 && root >= 0.0 && root * root == variance
    ensures x > Times(se, root) <==> x > 0.0 && Squared(x) > Times(Squared(se), variance)
    ensures x < -Times(se, root) <==> x < 0.0 && Squared(x) > Times(Squared(se), variance)
  {
    var t := Times(se, root);
    ProductSign(se, root);
    assert Squared(t) == Times(Squared(se), variance) by {
      assert (se * root) * (se * root) == (se * se) * (root * root);
    }
    SquaresOrder(x, t);
    SquaresOrder(-x, t);
    SquareSign(x);
  }

  lemma SquaresOrder(x: real, t: real)
    requires t >= 0.0
    ensures x > t <==> x > 0.0 && Squared(x) > Squared(t)
  {
    if x > t {
      ProductSign(x - t, x + t);
      assert Squared(x) - Squared(t) == Times(x - t, x + t);
    } else if x > 0.0 {
      ProductSign(t - x, x + t);
      assert Squared(t) - Squared(x) == Times(t - x, x + t);
    }
  }

  // A candidate is never both accepted and deteriorated, and is accepted only with a strictly lower
  // mean loss; one that measures like the incumbent is neither.
  lemma Sides(a: Arithmetic, candidate: seq<real>, incumbent: seq<real>, population: nat, se: real)
    requires Lawful(a) && se >= 0.0 && Comparable(candidate, incumbent, population)
    ensures var p := Compare(a, candidate, incumbent, population, se).value;
      && !(p.accepted && p.deteriorated)
      && (p.accepted ==> p.candidateLoss < p.incumbentLoss)
      && (p.deteriorated ==> p.candidateLoss > p.incumbentLoss)
      && (candidate == incumbent ==> !p.accepted && !p.deteriorated)
  {
    var d := Differences(incumbent, candidate);
    VarianceNonNegative(d, population);
    ProductSign(se, a.root(MeanVariance(d, population)));
    if Mean(candidate) >= Mean(incumbent) {
      assert a.native(-Mean(candidate)) <= a.native(-Mean(incumbent));
    }
    if Mean(candidate) <= Mean(incumbent) {
      assert a.native(-Mean(incumbent)) <= a.native(-Mean(candidate));
    }
  }

  // On the whole population there is no sampling error: only the two means decide, up to scores
  // the engine cannot tell apart.
  lemma Census(a: Arithmetic, candidate: seq<real>, incumbent: seq<real>, se: real)
    requires Lawful(a) && Comparable(candidate, incumbent, |candidate|)
    ensures var p := Compare(a, candidate, incumbent, |candidate|, se).value;
      p.accepted <==> a.native(-p.candidateLoss) > a.native(-p.incumbentLoss)
  {
    var d, n := Differences(incumbent, candidate), |candidate| as real;
    assert n / n == 1.0;
    assert MeanVariance(d, |candidate|) == 0.0;
    var s := a.root(0.0);
    ZeroRoot(s);
    MeanOfDifferences(incumbent, candidate);
    if Mean(candidate) >= Mean(incumbent) {
      assert a.native(-Mean(candidate)) <= a.native(-Mean(incumbent));
    }
  }

  lemma ZeroRoot(s: real)
    requires s >= 0.0 && s * s == 0.0
    ensures s == 0.0
  {
    ProductSign(s, s);
  }

  lemma MeanOfDifferences(incumbent: seq<real>, candidate: seq<real>)
    requires |incumbent| == |candidate| && candidate != []
    ensures Mean(Differences(incumbent, candidate)) == Mean(incumbent) - Mean(candidate)
  {
    TotalOfDifferences(incumbent, candidate);
    RatioSubtracts(Total(incumbent), Total(candidate), Total(Differences(incumbent, candidate)), |candidate|);
  }
}
