// What the correlated proposal does to radius, distance and paired directions: one fresh Gaussian
// per coordinate, mixed with a reference of mean square one. `rho` is the overlap kept and `s`
// the root of 1 - rho^2.

module Moments {
  import opened Reals
  import opened Quadrature

  predicate Mixing(rho: real, s: real) {
    s >= 0.0 && s * s == 1.0 - rho * rho
  }

  function Direction(reference: seq<real>, rho: real, s: real, noise: seq<real>): (u: seq<real>)
    requires |noise| == |reference|
    ensures |u| == |reference|
  {
    if reference == [] then []
    else [rho * reference[0] + s * noise[0]] + Direction(reference[1..], rho, s, noise[1..])
  }

  function SumSquares(u: seq<real>): real {
    if u == [] then 0.0 else Squared(u[0]) + SumSquares(u[1..])
  }

  function Dot(u: seq<real>, v: seq<real>): real
    requires |u| == |v|
  {
    if u == [] then 0.0 else Times(u[0], v[0]) + Dot(u[1..], v[1..])
  }

  // One weighted coordinate of a tensor being searched.
  datatype Coordinate = Coordinate(weight: real, base: real, scale: real, history: real)

  function Distance(coords: seq<Coordinate>, radius: real, u: seq<real>): real
    requires |u| == |coords|
  {
    if coords == [] then 0.0
    else
      CoordinateDistance(coords[0], radius, u[0]) + Distance(coords[1..], radius, u[1..])
  }

  function CoordinateDistance(c: Coordinate, radius: real, u: real): real {
    c.weight * Squared(c.base + radius * c.scale * u - c.history)
  }

  // weight * (m + sigma * e)^2
  function Square(weight: real, m: real, sigma: real): Quadratic {
    Quadratic(weight * (m * m), 2.0 * (weight * (m * sigma)), weight * (sigma * sigma))
  }

  lemma SquareAt(weight: real, m: real, sigma: real, e: real)
    ensures Square(weight, m, sigma).At(e) == weight * Squared(m + sigma * e)
  {
    var a, b := m * m, m * sigma * e;
    var c := (sigma * e) * (sigma * e);
    assert Squared(m + sigma * e) == a + 2.0 * b + c;
    assert weight * (a + 2.0 * b + c) == weight * a + 2.0 * (weight * b) + weight * c;
    assert weight * b == weight * (m * sigma) * e;
    assert c == (sigma * sigma) * (e * e);
    assert weight * c == weight * (sigma * sigma) * (e * e);
  }

  // ---------------------------------------------------------------- distance

  function Shift(c: Coordinate, v: real, radius: real, rho: real): real {
    c.base - c.history + radius * c.scale * rho * v
  }

  function Noise(c: Coordinate, radius: real, s: real): real {
    radius * c.scale * s
  }

  function DistanceTerms(coords: seq<Coordinate>, reference: seq<real>, radius: real, rho: real, s: real)
    : (t: seq<Quadratic>)
    requires |reference| == |coords|
    ensures |t| == |coords|
  {
    if coords == [] then []
    else
      [Square(coords[0].weight, Shift(coords[0], reference[0], radius, rho), Noise(coords[0], radius, s))]
      + DistanceTerms(coords[1..], reference[1..], radius, rho, s)
  }

  // The stated mean and variance.
  function DistanceMean(coords: seq<Coordinate>, reference: seq<real>, radius: real, rho: real, s: real): real
    requires |reference| == |coords|
  {
    if coords == [] then 0.0
    else
      var m, sigma := Shift(coords[0], reference[0], radius, rho), Noise(coords[0], radius, s);
      CoordinateMean(coords[0].weight, m, sigma)
      + DistanceMean(coords[1..], reference[1..], radius, rho, s)
  }

  function CoordinateMean(w: real, m: real, sigma: real): real {
    w * (m * m + sigma * sigma)
  }

  function CoordinateSpread(w: real, m: real, sigma: real): real {
    Times(w * w, 2.0 * Squared(sigma * sigma) + 4.0 * ((sigma * sigma) * (m * m)))
  }

  function DistanceVariance(coords: seq<Coordinate>, reference: seq<real>, radius: real, rho: real, s: real): real
    requires |reference| == |coords|
  {
    if coords == [] then 0.0
    else
      CoordinateSpread(coords[0].weight, Shift(coords[0], reference[0], radius, rho), Noise(coords[0], radius, s))
      + DistanceVariance(coords[1..], reference[1..], radius, rho, s)
  }

  lemma SquareSpread(w: real, m: real, sigma: real)
    ensures var q := Square(w, m, sigma);
      q.linear * q.linear + 2.0 * (q.square * q.square) == CoordinateSpread(w, m, sigma)
  {
    var a, b := m * m, sigma * sigma;
    var q := Square(w, m, sigma);
    assert (w * (m * sigma)) * (w * (m * sigma)) == (w * w) * (b * a);
    assert q.linear * q.linear == 4.0 * ((w * (m * sigma)) * (w * (m * sigma)));
    assert q.square * q.square == (w * w) * (b * b);
    assert (w * w) * (2.0 * (b * b) + 4.0 * (b * a)) == 2.0 * ((w * w) * (b * b)) + 4.0 * ((w * w) * (b * a));
  }

  lemma {:induction false} DistanceSums(coords: seq<Coordinate>, reference: seq<real>, radius: real, rho: real, s: real)
    requires |reference| == |coords|
    ensures Mean(DistanceTerms(coords, reference, radius, rho, s)) == DistanceMean(coords, reference, radius, rho, s)
    ensures Spread(DistanceTerms(coords, reference, radius, rho, s)) ==
      DistanceVariance(coords, reference, radius, rho, s)
    decreases |coords|
  {
    if coords != [] {
      DistanceSums(coords[1..], reference[1..], radius, rho, s);
      var m, sigma := Shift(coords[0], reference[0], radius, rho), Noise(coords[0], radius, s);
      FirstDistance(coords, reference, radius, rho, s, Square(coords[0].weight, m, sigma));
      SquareSpread(coords[0].weight, m, sigma);
      assert coords[0].weight * (m * m + sigma * sigma) ==
             coords[0].weight * (m * m) + coords[0].weight * (sigma * sigma);
    }
  }

  lemma FirstDistance(coords: seq<Coordinate>, reference: seq<real>, radius: real, rho: real, s: real, q: Quadratic)
    requires |reference| == |coords| && coords != []
    requires q == Square(coords[0].weight, Shift(coords[0], reference[0], radius, rho), Noise(coords[0], radius, s))
    ensures var t, rest := DistanceTerms(coords, reference, radius, rho, s),
                           DistanceTerms(coords[1..], reference[1..], radius, rho, s);
      t != [] && t[0] == q && t[1..] == rest
  {
  }

  lemma {:induction false} DistanceIsForm(coords: seq<Coordinate>, reference: seq<real>,
      radius: real, rho: real, s: real, noise: seq<real>)
    requires |reference| == |coords| == |noise|
    ensures Distance(coords, radius, Direction(reference, rho, s, noise)) ==
            Form(DistanceTerms(coords, reference, radius, rho, s), noise)
    decreases |coords|
  {
    if coords != [] {
      DistanceIsForm(coords[1..], reference[1..], radius, rho, s, noise[1..]);
      var c, v, e := coords[0], reference[0], noise[0];
      var u := Direction(reference, rho, s, noise);
      assert u[0] == rho * v + s * e && u[1..] == Direction(reference[1..], rho, s, noise[1..]);
      var m, sigma := Shift(c, v, radius, rho), Noise(c, radius, s);
      FirstDistance(coords, reference, radius, rho, s, Square(c.weight, m, sigma));
      MixedCoordinate(c, radius, rho, s, v, e, u[0]);
    }
  }

  lemma MixedCoordinate(c: Coordinate, radius: real, rho: real, s: real, v: real, e: real, u: real)
    requires u == rho * v + s * e
    ensures CoordinateDistance(c, radius, u) ==
            Square(c.weight, Shift(c, v, radius, rho), Noise(c, radius, s)).At(e)
  {
    var k := radius * c.scale;
    assert k * (rho * v + s * e) == k * (rho * v) + k * (s * e);
    assert k * (rho * v) == k * rho * v && k * (s * e) == k * s * e;
    SquareAt(c.weight, Shift(c, v, radius, rho), Noise(c, radius, s), e);
  }

  ghost predicate MeasuresDistance(f: Function, coords: seq<Coordinate>, reference: seq<real>,
      radius: real, rho: real, s: real)
    requires |reference| == |coords|
  {
    forall e: seq<real> | |e| == |coords| :: f(e) == Distance(coords, radius, Direction(reference, rho, s, e))
  }

  // The weighted distance of a proposal to a history row has the stated mean and variance, in
  // every dimension and for any weights, history, radius and reference.
  lemma DistanceMoments(coords: seq<Coordinate>, reference: seq<real>, radius: real, rho: real, s: real,
      r: real, f: Function)
    requires Root3(r) && |reference| == |coords| && MeasuresDistance(f, coords, reference, radius, rho, s)
    ensures Expectation(Rule(|coords|, r), f) == DistanceMean(coords, reference, radius, rho, s)
    ensures Variance(Rule(|coords|, r), f) == DistanceVariance(coords, reference, radius, rho, s)
  {
    var terms := DistanceTerms(coords, reference, radius, rho, s);
    forall e: seq<real> | |e| == |coords| ensures f(e) == 0.0 + Form(terms, e) {
      DistanceIsForm(coords, reference, radius, rho, s, e);
    }
    RuleMoments(terms, r, f);
    DistanceSums(coords, reference, radius, rho, s);
  }

  lemma SpreadNonNegative(w: real, m: real, sigma: real)
    ensures CoordinateSpread(w, m, sigma) >= 0.0
    ensures CoordinateSpread(w, m, sigma) == 0.0 <==> w == 0.0 || sigma == 0.0
  {
    SquareSign(m);
    SquareSign(sigma);
    SquareSign(w);
    var a, b, ww := Squared(m), Squared(sigma), Squared(w);
    SquareSign(b);
    ProductSign(b, a);
    ProductSign(ww, 2.0 * Squared(b) + 4.0 * Times(b, a));
    assert CoordinateSpread(w, m, sigma) == Times(ww, 2.0 * Squared(b) + 4.0 * Times(b, a));
    assert sigma == 0.0 ==> b == 0.0 && Squared(b) == 0.0;
    assert w == 0.0 ==> ww == 0.0;
  }

  // Unless the direction is the reference itself, distances keep depending on the seed: the
  // variance vanishes exactly when no weighted coordinate moves with the noise.
  lemma {:induction false} DistanceVaries(
    coords: seq<Coordinate>, reference: seq<real>, radius: real, rho: real, s: real)
    requires |reference| == |coords|
    ensures DistanceVariance(coords, reference, radius, rho, s) >= 0.0
    ensures DistanceVariance(coords, reference, radius, rho, s) == 0.0 <==>
            forall i :: 0 <= i < |coords| ==> coords[i].weight == 0.0 || Noise(coords[i], radius, s) == 0.0
    decreases |coords|
  {
    if coords != [] {
      var rest := coords[1..];
      DistanceVaries(rest, reference[1..], radius, rho, s);
      var w, m, sigma := coords[0].weight, Shift(coords[0], reference[0], radius, rho), Noise(coords[0], radius, s);
      SpreadNonNegative(w, m, sigma);
      assert forall i :: 0 < i < |coords| ==> coords[i] == rest[i - 1];
      assert forall i :: 0 <= i < |rest| ==> rest[i] == coords[i + 1];
    }
  }

  // ---------------------------------------------------------------- radius

  predicate Normalized(reference: seq<real>) {
    reference != [] && SumSquares(reference) == |reference| as real
  }

  // n equal coordinates around zero.
  function Flat(n: nat, weight: real): (c: seq<Coordinate>)
    ensures |c| == n
  {
    if n == 0 then [] else [Coordinate(weight, 0.0, 1.0, 0.0)] + Flat(n - 1, weight)
  }

  // Sum of the squared steps k * u.
  function StepSquares(k: real, u: seq<real>): real {
    if u == [] then 0.0 else Squared(k * u[0]) + StepSquares(k, u[1..])
  }

  lemma {:induction false} FlatDistance(weight: real, k: real, u: seq<real>)
    ensures Distance(Flat(|u|, weight), k, u) == weight * StepSquares(k, u)
    decreases |u|
  {
    if u != [] {
      FlatDistance(weight, k, u[1..]);
      var flat := Flat(|u|, weight);
      assert flat[1..] == Flat(|u| - 1, weight) && |u[1..]| == |u| - 1;
      var x, y := Squared(k * u[0]), StepSquares(k, u[1..]);
      assert weight * (x + y) == weight * x + weight * y;
      assert 0.0 + k * 1.0 * u[0] - 0.0 == k * u[0];
    }
  }

  // The moments for equal weights, through the sum of the reference's squares.
  function FlatMean(w: real, k: real, rho: real, s: real, squares: real, n: real): real {
    w * ((k * k) * ((rho * rho) * squares + n * (s * s)))
  }

  function FlatVariance(w: real, k: real, rho: real, s: real, squares: real, n: real): real {
    (w * w) * (Squared(k * k) * (2.0 * (n * Squared(s * s)) + 4.0 * ((s * s) * ((rho * rho) * squares))))
  }

  lemma {:induction false} FlatSums(reference: seq<real>, weight: real, k: real, rho: real, s: real)
    ensures var n := |reference|;
      DistanceMean(Flat(n, weight), reference, k, rho, s) ==
      FlatMean(weight, k, rho, s, SumSquares(reference), n as real)
    ensures var n := |reference|;
      DistanceVariance(Flat(n, weight), reference, k, rho, s) ==
      FlatVariance(weight, k, rho, s, SumSquares(reference), n as real)
    decreases |reference|
  {
    if reference != [] {
      var n, v := |reference|, reference[0];
      var flat := Flat(n, weight);
      assert flat[0] == Coordinate(weight, 0.0, 1.0, 0.0) && flat[1..] == Flat(n - 1, weight);
      assert |reference[1..]| == n - 1;
      FlatSums(reference[1..], weight, k, rho, s);
      var m, sigma := Shift(flat[0], v, k, rho), Noise(flat[0], k, s);
      FlatCoordinate(weight, k, rho, s, v, m, sigma);
      FlatAdds(weight, k, rho, s, Squared(v), SumSquares(reference[1..]), SumSquares(reference), (n - 1) as real,
        n as real);
    }
  }

  lemma FlatCoordinate(w: real, k: real, rho: real, s: real, v: real, m: real, sigma: real)
    requires m == 0.0 - 0.0 + k * 1.0 * rho * v && sigma == k * 1.0 * s
    ensures CoordinateMean(w, m, sigma) == FlatMean(w, k, rho, s, Squared(v), 1.0)
    ensures CoordinateSpread(w, m, sigma) == FlatVariance(w, k, rho, s, Squared(v), 1.0)
  {
    var kk, rv, ss := k * k, (rho * rho) * (v * v), s * s;
    assert m == k * (rho * v);
    assert (rho * v) * (rho * v) == rv;
    assert m * m == kk * rv;
    assert sigma * sigma == kk * ss;
    assert kk * rv + kk * ss == kk * (rv + ss);
    var k4 := kk * kk;
    assert (kk * ss) * (kk * ss) == k4 * (ss * ss);
    assert (kk * ss) * (kk * rv) == k4 * (ss * rv);
    assert 2.0 * (k4 * (ss * ss)) + 4.0 * (k4 * (ss * rv)) == k4 * (2.0 * (ss * ss) + 4.0 * (ss * rv));
  }

  lemma FlatAdds(w: real, k: real, rho: real, s: real, vv: real, rest: real, squares: real, n: real, next: real)
    requires squares == vv + rest && next == n + 1.0
    ensures FlatMean(w, k, rho, s, vv, 1.0) + FlatMean(w, k, rho, s, rest, n) == FlatMean(w, k, rho, s, squares, next)
    ensures FlatVariance(w, k, rho, s, vv, 1.0) + FlatVariance(w, k, rho, s, rest, n) ==
            FlatVariance(w, k, rho, s, squares, next)
  {
    var kk, pp, ss := k * k, rho * rho, s * s;
    assert pp * squares == pp * vv + pp * rest && next * ss == n * ss + ss;
    Distribute(w, kk, pp * vv + ss, pp * rest + n * ss);
    var s4, a, b := Squared(ss), pp * vv, pp * rest;
    assert next * s4 == n * s4 + s4 && ss * (a + b) == ss * a + ss * b;
    Distribute(w * w, Squared(kk), 2.0 * s4 + 4.0 * (ss * a), 2.0 * (n * s4) + 4.0 * (ss * b));
  }

  lemma Distribute(a: real, b: real, x: real, y: real)
    ensures a * (b * x) + a * (b * y) == a * (b * (x + y))
  {
  }

  // k = 1 is the energy of the direction itself.
  function MeanStep(k: real, u: seq<real>): real
    requires u != []
  {
    StepSquares(k, u) / |u| as real
  }

  function Overlap(u: seq<real>, v: seq<real>): real
    requires |u| == |v| && u != []
  {
    Dot(u, v) / |u| as real
  }

  lemma MeanStepIsDistance(k: real, u: seq<real>)
    requires u != []
    ensures MeanStep(k, u) == Distance(Equal(|u|), k, u)
  {
    FlatDistance(1.0 / |u| as real, k, u);
    DivideIsTimes(StepSquares(k, u), |u| as real);
  }

  // The mean squared step k * U of a proposal has mean k^2 and variance k^4 * 2 (1 - rho^4) / n.
  lemma RadiusMoments(reference: seq<real>, rho: real, s: real, k: real, r: real, f: Function)
    requires Root3(r) && Normalized(reference) && Mixing(rho, s)
    requires forall e: seq<real> | |e| == |reference| :: f(e) == MeanStep(k, Direction(reference, rho, s, e))
    ensures Expectation(Rule(|reference|, r), f) == k * k
    ensures Variance(Rule(|reference|, r), f) == StepVariance(k, rho, |reference|)
  {
    var flat := Equal(|reference|);
    assert MeasuresDistance(f, flat, reference, k, rho, s) by {
      forall e: seq<real> | |e| == |reference| ensures f(e) == Distance(flat, k, Direction(reference, rho, s, e)) {
        MeanStepIsDistance(k, Direction(reference, rho, s, e));
      }
    }
    DistanceMoments(flat, reference, k, rho, s, r, f);
    EqualSums(reference, rho, s, k);
  }

  function StepVariance(k: real, rho: real, n: nat): real
    requires n > 0
  {
    Squared(k * k) * (2.0 * (1.0 - Squared(rho * rho)) / n as real)
  }

  // Coordinates that share the weight equally.
  function Equal(n: nat): (c: seq<Coordinate>)
    requires n > 0
    ensures |c| == n
  {
    Flat(n, 1.0 / n as real)
  }

  lemma EqualSums(reference: seq<real>, rho: real, s: real, k: real)
    requires Normalized(reference) && Mixing(rho, s)
    ensures DistanceMean(Equal(|reference|), reference, k, rho, s) == k * k
    ensures DistanceVariance(Equal(|reference|), reference, k, rho, s) == StepVariance(k, rho, |reference|)
  {
    var n := |reference| as real;
    FlatSums(reference, 1.0 / n, k, rho, s);
    MeanSquareOne(|reference|, k, rho, s);
  }

  lemma DivideIsTimes(x: real, n: real)
    requires n > 0.0
    ensures x / n == (1.0 / n) * x
  {
    assert (x / n) * n == x;
    assert ((1.0 / n) * x) * n == x * ((1.0 / n) * n);
  }

  lemma MeanSquareOne(n: nat, k: real, rho: real, s: real)
    requires n > 0 && s * s == 1.0 - rho * rho
    ensures FlatMean(1.0 / n as real, k, rho, s, n as real, n as real) == k * k
    ensures FlatVariance(1.0 / n as real, k, rho, s, n as real, n as real) == StepVariance(k, rho, n)
  {
    var m := n as real;
    var w, kk, pp, ss := 1.0 / m, k * k, rho * rho, s * s;
    assert w * m == 1.0;
    assert pp * m + m * ss == m;
    assert w * (kk * m) == kk * (w * m);
    var k4 := Squared(kk);
    var x := 2.0 * Squared(ss) + 4.0 * (ss * pp);
    assert x == 2.0 * (1.0 - Squared(pp));
    assert 2.0 * (m * Squared(ss)) + 4.0 * (ss * (pp * m)) == m * x by {
      assert ss * (pp * m) == m * (ss * pp);
    }
    assert (w * w) * (k4 * (m * x)) == (w * m) * (w * (k4 * x));
    assert w * (k4 * x) == k4 * (w * x);
    DivideIsTimes(x, m);
  }

  // ---------------------------------------------------------------- overlap

  function OverlapTerms(reference: seq<real>, rho: real, s: real, w: real): (t: seq<Quadratic>)
    ensures |t| == |reference|
  {
    if reference == [] then []
    else
      [Quadratic(w * (rho * Squared(reference[0])), w * (s * reference[0]), 0.0)]
      + OverlapTerms(reference[1..], rho, s, w)
  }

  lemma {:induction false} OverlapIsForm(reference: seq<real>, rho: real, s: real, w: real, noise: seq<real>)
    requires |noise| == |reference|
    ensures Times(w, Dot(Direction(reference, rho, s, noise), reference)) ==
      Form(OverlapTerms(reference, rho, s, w), noise)
    ensures Mean(OverlapTerms(reference, rho, s, w)) == Times(w, Times(rho, SumSquares(reference)))
    decreases |reference|
  {
    if reference != [] {
      OverlapIsForm(reference[1..], rho, s, w, noise[1..]);
      var v, e, terms := reference[0], noise[0], OverlapTerms(reference, rho, s, w);
      assert terms[1..] == OverlapTerms(reference[1..], rho, s, w);
      var u := Direction(reference, rho, s, noise);
      assert u[0] == rho * v + s * e && u[1..] == Direction(reference[1..], rho, s, noise[1..]);
      var d, q := Dot(u[1..], reference[1..]), SumSquares(reference[1..]);
      assert Dot(u, reference) == Times(u[0], v) + d;
      assert terms[0] == Quadratic(w * (rho * Squared(v)), w * (s * v), 0.0);
      assert Form(terms, noise) == terms[0].At(e) + Form(terms[1..], noise[1..]);
      OverlapCoordinate(w, rho, s, v, e, d, q, u[0], Dot(u, reference), SumSquares(reference));
    }
  }

  lemma OverlapCoordinate(
    w: real, rho: real, s: real, v: real, e: real, d: real, q: real, u: real, dot: real, squares: real)
    requires u == rho * v + s * e && dot == Times(u, v) + d && squares == Squared(v) + q
    ensures Times(w, dot) == Quadratic(w * (rho * Squared(v)), w * (s * v), 0.0).At(e) + Times(w, d)
    ensures Times(w, Times(rho, squares)) == w * (rho * Squared(v)) + 0.0 + Times(w, Times(rho, q))
  {
    var a, b := rho * (v * v), (s * v) * e;
    assert u * v == a + b;
    assert w * (a + b + d) == w * a + w * b + w * d;
    assert w * b == w * (s * v) * e;
    var c := rho * q;
    assert rho * squares == a + c;
    assert w * (a + c) == w * a + w * c;
  }

  lemma OverlapAverage(reference: seq<real>, rho: real, s: real, noise: seq<real>)
    requires |noise| == |reference| && reference != []
    ensures Overlap(Direction(reference, rho, s, noise), reference) ==
            Form(OverlapTerms(reference, rho, s, 1.0 / |reference| as real), noise)
  {
    OverlapIsForm(reference, rho, s, 1.0 / |reference| as real, noise);
    DivideIsTimes(Dot(Direction(reference, rho, s, noise), reference), |reference| as real);
  }

  // On average a proposal keeps exactly the overlap rho with its reference.
  lemma OverlapMean(reference: seq<real>, rho: real, s: real, r: real, f: Function)
    requires Root3(r) && Normalized(reference)
    requires forall e: seq<real> | |e| == |reference| :: f(e) == Overlap(Direction(reference, rho, s, e), reference)
    ensures Expectation(Rule(|reference|, r), f) == rho
  {
    var terms := OverlapTerms(reference, rho, s, 1.0 / |reference| as real);
    assert IsForm(f, 0.0, terms) by {
      forall e: seq<real> | |e| == |reference| ensures f(e) == Form(terms, e) {
        OverlapAverage(reference, rho, s, e);
      }
    }
    RuleMoments(terms, r, f);
    OverlapTotal(reference, rho, s);
  }

  lemma OverlapTotal(reference: seq<real>, rho: real, s: real)
    requires Normalized(reference)
    ensures Mean(OverlapTerms(reference, rho, s, 1.0 / |reference| as real)) == rho
  {
    var n := |reference| as real;
    var w := 1.0 / n;
    OverlapIsForm(reference, rho, s, w, reference);
    assert w * n == 1.0;
    assert w * (rho * n) == rho * (w * n);
  }

  // ---------------------------------------------------------------- paired directions

  // Squared distance between a small step along u and a large step along v.
  function Gap(small: real, u: seq<real>, large: real, v: seq<real>): real
    requires |u| == |v|
  {
    if u == [] then 0.0 else Squared(small * u[0] - large * v[0]) + Gap(small, u[1..], large, v[1..])
  }

  lemma {:induction false} SharedGap(small: real, large: real, u: seq<real>)
    ensures Gap(small, u, large, u) == StepSquares(small - large, u)
    decreases |u|
  {
    if u != [] {
      SharedGap(small, large, u[1..]);
      assert small * u[0] - large * u[0] == (small - large) * u[0];
    }
  }

  lemma SharedGapDistance(small: real, large: real, k: real, u: seq<real>, flat: seq<Coordinate>)
    requires k == small - large && flat == Flat(|u|, 1.0)
    ensures Gap(small, u, large, u) == Distance(flat, k, u)
  {
    SharedGap(small, large, u);
    FlatDistance(1.0, k, u);
  }

  // Two radii of one pair share their noise, so they are only as far apart as the radii.
  lemma SharedDirection(reference: seq<real>, rho: real, s: real, small: real, large: real,
      k: real, r: real, f: Function)
    requires Root3(r) && Normalized(reference) && Mixing(rho, s) && k == small - large
    requires forall e: seq<real> | |e| == |reference| ::
      f(e) == Gap(small, Direction(reference, rho, s, e), large, Direction(reference, rho, s, e))
    ensures Expectation(Rule(|reference|, r), f) == Times(|reference| as real, Squared(k))
  {
    var n := |reference|;
    var flat := Flat(n, 1.0);
    assert MeasuresDistance(f, flat, reference, k, rho, s) by {
      forall e: seq<real> | |e| == n ensures f(e) == Distance(flat, k, Direction(reference, rho, s, e)) {
        SharedGapDistance(small, large, k, Direction(reference, rho, s, e), flat);
      }
    }
    DistanceMoments(flat, reference, k, rho, s, r, f);
    SharedTotal(reference, rho, s, k);
  }

  lemma SharedTotal(reference: seq<real>, rho: real, s: real, k: real)
    requires Normalized(reference) && Mixing(rho, s)
    ensures DistanceMean(Flat(|reference|, 1.0), reference, k, rho, s) == Times(|reference| as real, Squared(k))
  {
    FlatSums(reference, 1.0, k, rho, s);
    SharedMean(|reference| as real, k, rho, s);
  }

  lemma SharedMean(n: real, k: real, rho: real, s: real)
    requires s * s == 1.0 - rho * rho
    ensures FlatMean(1.0, k, rho, s, n, n) == Times(n, Squared(k))
  {
    var pp, ss := rho * rho, s * s;
    assert pp * n + n * ss == n * (pp + ss) == n;
  }

  // The large step as seen from a fixed small one.
  function SeenFrom(small: real, u: seq<real>): (c: seq<Coordinate>)
    ensures |c| == |u|
  {
    if u == [] then [] else [Coordinate(1.0, small * u[0], 1.0, 0.0)] + SeenFrom(small, u[1..])
  }

  lemma {:induction false} GapIsDistance(small: real, u: seq<real>, large: real, v: seq<real>)
    requires |u| == |v|
    ensures Gap(small, u, large, v) == Distance(SeenFrom(small, u), -large, v)
    decreases |u|
  {
    if u != [] {
      GapIsDistance(small, u[1..], large, v[1..]);
      assert SeenFrom(small, u)[1..] == SeenFrom(small, u[1..]);
      assert small * u[0] + -large * 1.0 * v[0] - 0.0 == small * u[0] - large * v[0];
    }
  }

  // The small step as seen from the centre of the large one.
  function SeenFromCentre(large: real, rho: real, reference: seq<real>): (c: seq<Coordinate>)
    ensures |c| == |reference|
  {
    if reference == [] then []
    else [Coordinate(1.0, 0.0, 1.0, large * rho * reference[0])] + SeenFromCentre(large, rho, reference[1..])
  }

  lemma {:induction false} InnerGap(
    reference: seq<real>, small: real, u: seq<real>, large: real, back: real, rho: real, s: real)
    requires |u| == |reference| && back == -large
    ensures DistanceMean(SeenFrom(small, u), reference, back, rho, s) ==
            Distance(SeenFromCentre(large, rho, reference), small, u) + Times(|reference| as real, Squared(large * s))
    decreases |u|
  {
    if u != [] {
      InnerGap(reference[1..], small, u[1..], large, back, rho, s);
      var inner, outer := SeenFrom(small, u), SeenFromCentre(large, rho, reference);
      assert inner[1..] == SeenFrom(small, u[1..]) && outer[1..] == SeenFromCentre(large, rho, reference[1..]);
      InnerCoordinate(inner[0], outer[0], small, u[0], large, back, rho, s, reference[0]);
      NextMultiple(|reference|, Squared(large * s));
    }
  }

  lemma NextMultiple(n: nat, x: real)
    requires n > 0
    ensures Times(n as real, x) == Times((n - 1) as real, x) + x
  {
    assert n as real == (n - 1) as real + 1.0;
  }

  lemma InnerCoordinate(inner: Coordinate, outer: Coordinate, small: real, u: real, large: real,
      back: real, rho: real, s: real, v: real)
    requires back == -large
    requires inner == Coordinate(1.0, small * u, 1.0, 0.0)
    requires outer == Coordinate(1.0, 0.0, 1.0, large * rho * v)
    ensures CoordinateMean(inner.weight, Shift(inner, v, back, rho), Noise(inner, back, s)) ==
            CoordinateDistance(outer, small, u) + Squared(large * s)
  {
    assert Shift(inner, v, back, rho) == small * u - large * rho * v;
    assert Noise(inner, back, s) == -(large * s);
  }

  lemma {:induction false} OuterGap(reference: seq<real>, small: real, rhoA: real, sA: real, large: real, rhoB: real)
    ensures DistanceMean(SeenFromCentre(large, rhoB, reference), reference, small, rhoA, sA) ==
            Times(Squared(small * rhoA - large * rhoB), SumSquares(reference)) +
            Times(|reference| as real, Squared(small * sA))
    decreases |reference|
  {
    if reference != [] {
      OuterGap(reference[1..], small, rhoA, sA, large, rhoB);
      var outer := SeenFromCentre(large, rhoB, reference);
      assert outer[1..] == SeenFromCentre(large, rhoB, reference[1..]);
      OuterCoordinate(outer[0], small, rhoA, sA, large, rhoB, reference[0]);
      NextMultiple(|reference|, Squared(small * sA));
      SplitProduct(Squared(small * rhoA - large * rhoB), Squared(reference[0]), SumSquares(reference[1..]),
        SumSquares(reference));
    }
  }

  lemma SplitProduct(k: real, a: real, b: real, c: real)
    requires c == a + b
    ensures Times(k, c) == Times(k, a) + Times(k, b)
  {
  }

  lemma OuterCoordinate(outer: Coordinate, small: real, rhoA: real, sA: real, large: real, rhoB: real, v: real)
    requires outer == Coordinate(1.0, 0.0, 1.0, large * rhoB * v)
    ensures CoordinateMean(outer.weight, Shift(outer, v, small, rhoA), Noise(outer, small, sA)) ==
            Times(Squared(small * rhoA - large * rhoB), Squared(v)) + Squared(small * sA)
  {
    var k := small * rhoA - large * rhoB;
    assert Shift(outer, v, small, rhoA) == k * v;
    assert (k * v) * (k * v) == (k * k) * (v * v);
  }

  ghost predicate MeasuresShifted(f: Function, c: real, coords: seq<Coordinate>, reference: seq<real>,
      radius: real, rho: real, s: real)
    requires |reference| == |coords|
  {
    forall e: seq<real> | |e| == |coords| :: f(e) == c + Distance(coords, radius, Direction(reference, rho, s, e))
  }

  // The mean distance with a constant added.
  lemma DistanceIntegral(coords: seq<Coordinate>, reference: seq<real>, radius: real, rho: real, s: real,
      c: real, r: real, f: Function)
    requires Root3(r) && |reference| == |coords| && MeasuresShifted(f, c, coords, reference, radius, rho, s)
    ensures Integral(|coords|, r, f) == c + DistanceMean(coords, reference, radius, rho, s)
  {
    var terms := DistanceTerms(coords, reference, radius, rho, s);
    assert IsForm(f, c, terms) by {
      forall e: seq<real> | |e| == |coords| ensures f(e) == c + Form(terms, e) {
        DistanceIsForm(coords, reference, radius, rho, s, e);
      }
    }
    RuleMean(terms, r, c, f);
    DistanceSums(coords, reference, radius, rho, s);
  }

  ghost predicate MeasuresGap(f: Function, reference: seq<real>, rhoA: real, sA: real, rhoB: real, sB: real,
      small: real, large: real)
  {
    forall a: seq<real>, b: seq<real> | |a| == |reference| == |b| ::
      f(a + b) == Gap(small, Direction(reference, rhoA, sA, a), large, Direction(reference, rhoB, sB, b))
  }

  lemma FixedSmallStep(reference: seq<real>, rhoA: real, sA: real, rhoB: real, sB: real,
      small: real, large: real, f: Function, a: seq<real>, b: seq<real>, coords: seq<Coordinate>, back: real)
    requires |a| == |reference| == |b| && MeasuresGap(f, reference, rhoA, sA, rhoB, sB, small, large)
    requires coords == SeenFrom(small, Direction(reference, rhoA, sA, a)) && back == -large
    ensures Fixing(f, a)(b) == Distance(coords, back, Direction(reference, rhoB, sB, b))
  {
    assert Fixing(f, a)(b) == f(a + b);
    GapIsDistance(small, Direction(reference, rhoA, sA, a), large, Direction(reference, rhoB, sB, b));
  }

  // What is left once the large step is integrated out.
  function Remaining(
    reference: seq<real>, rhoA: real, sA: real, rhoB: real, sB: real, small: real, large: real): Function {
    a =>
      if |a| != |reference| then 0.0
      else
        Times(|reference| as real, Squared(large * sB))
        + Distance(SeenFromCentre(large, rhoB, reference), small, Direction(reference, rhoA, sA, a))
  }

  lemma LargeStepOut(reference: seq<real>, rhoA: real, sA: real, rhoB: real, sB: real,
      small: real, large: real, r: real, f: Function)
    requires Root3(r) && MeasuresGap(f, reference, rhoA, sA, rhoB, sB, small, large)
    ensures var n := |reference|;
      Integral(n + n, r, f) == Integral(n, r, Remaining(reference, rhoA, sA, rhoB, sB, small, large))
  {
    var n, g := |reference|, Remaining(reference, rhoA, sA, rhoB, sB, small, large);
    forall a: seq<real> | |a| == n ensures Integral(n, r, Fixing(f, a)) == g(a) {
      LargeStepFrom(reference, rhoA, sA, rhoB, sB, small, large, r, f, a);
    }
    Halves(n, n, r, f, g);
  }

  lemma LargeStepFrom(reference: seq<real>, rhoA: real, sA: real, rhoB: real, sB: real,
      small: real, large: real, r: real, f: Function, a: seq<real>)
    requires Root3(r) && MeasuresGap(f, reference, rhoA, sA, rhoB, sB, small, large) && |a| == |reference|
    ensures Integral(|reference|, r, Fixing(f, a)) == Remaining(reference, rhoA, sA, rhoB, sB, small, large)(a)
  {
    var u := Direction(reference, rhoA, sA, a);
    var coords, back, h := SeenFrom(small, u), -large, Fixing(f, a);
    var mean := DistanceMean(coords, reference, back, rhoB, sB);
    assert Integral(|reference|, r, h) == mean by {
      assert MeasuresShifted(h, 0.0, coords, reference, back, rhoB, sB) by {
        forall b: seq<real> | |b| == |reference|
          ensures h(b) == Distance(coords, back, Direction(reference, rhoB, sB, b))
        {
          FixedSmallStep(reference, rhoA, sA, rhoB, sB, small, large, f, a, b, coords, back);
        }
      }
      DistanceIntegral(coords, reference, back, rhoB, sB, 0.0, r, h);
    }
    RemainingIsMean(reference, rhoA, sA, rhoB, sB, small, large, a, u, mean, back);
  }

  lemma RemainingIsMean(reference: seq<real>, rhoA: real, sA: real, rhoB: real, sB: real,
      small: real, large: real, a: seq<real>, u: seq<real>, mean: real, back: real)
    requires |a| == |reference| && u == Direction(reference, rhoA, sA, a) && back == -large
    requires mean == DistanceMean(SeenFrom(small, u), reference, back, rhoB, sB)
    ensures Remaining(reference, rhoA, sA, rhoB, sB, small, large)(a) == mean
  {
    InnerGap(reference, small, u, large, back, rhoB, sB);
    var d := Distance(SeenFromCentre(large, rhoB, reference), small, u);
    var t := Times(|reference| as real, Squared(large * sB));
    assert Remaining(reference, rhoA, sA, rhoB, sB, small, large)(a) == t + d;
    assert mean == d + t;
  }

  lemma SmallStepOut(
    reference: seq<real>, rhoA: real, sA: real, rhoB: real, sB: real, small: real, large: real, r: real)
    requires Root3(r) && Normalized(reference) && Mixing(rhoA, sA) && Mixing(rhoB, sB)
    ensures Integral(|reference|, r, Remaining(reference, rhoA, sA, rhoB, sB, small, large)) ==
            Times(|reference| as real, CommonGap(small, large, rhoA, rhoB))
  {
    var centre := SeenFromCentre(large, rhoB, reference);
    var apart := Times(|reference| as real, Squared(large * sB));
    DistanceIntegral(centre, reference, small, rhoA, sA, apart, r,
      Remaining(reference, rhoA, sA, rhoB, sB, small, large));
    OuterGap(reference, small, rhoA, sA, large, rhoB);
    MixedTotal(|reference| as real, rhoA, sA, rhoB, sB, small, large);
  }

  function CommonGap(small: real, large: real, rhoA: real, rhoB: real): real {
    small * small + large * large - 2.0 * ((small * large) * (rhoA * rhoB))
  }

  lemma MixedTotal(n: real, rhoA: real, sA: real, rhoB: real, sB: real, small: real, large: real)
    requires Mixing(rhoA, sA) && Mixing(rhoB, sB)
    ensures Times(n, Squared(large * sB))
            + (Times(Squared(small * rhoA - large * rhoB), n) + Times(n, Squared(small * sA)))
            == Times(n, CommonGap(small, large, rhoA, rhoB))
  {
    var x, y := small * rhoA, large * rhoB;
    var k := Squared(x - y);
    assert k == x * x + y * y - 2.0 * (x * y);
    assert x * y == (small * large) * (rhoA * rhoB);
    Complement(large, rhoB, sB);
    Complement(small, rhoA, sA);
    SumProduct(n, Squared(large * sB), k, Squared(small * sA), CommonGap(small, large, rhoA, rhoB));
  }

  lemma Complement(k: real, rho: real, s: real)
    requires Mixing(rho, s)
    ensures Squared(k * s) == k * k - (k * rho) * (k * rho)
  {
    assert (k * s) * (k * s) == (k * k) * (s * s);
    assert (k * rho) * (k * rho) == (k * k) * (rho * rho);
  }

  lemma SumProduct(n: real, a: real, b: real, c: real, total: real)
    requires total == a + b + c
    ensures Times(n, a) + (Times(b, n) + Times(n, c)) == Times(n, total)
  {
  }

  // Independent fields of one reference: only the overlap they share brings the two steps together,
  // so without overlap on one side the squared radii add up.
  lemma IndependentDirections(reference: seq<real>, rhoA: real, sA: real, rhoB: real, sB: real,
      small: real, large: real, r: real, f: Function)
    requires Root3(r) && Normalized(reference) && Mixing(rhoA, sA) && Mixing(rhoB, sB)
    requires MeasuresGap(f, reference, rhoA, sA, rhoB, sB, small, large)
    ensures var n := |reference|;
      Expectation(Rule(n + n, r), f) == Times(n as real, CommonGap(small, large, rhoA, rhoB))
  {
    LargeStepOut(reference, rhoA, sA, rhoB, sB, small, large, r, f);
    SmallStepOut(reference, rhoA, sA, rhoB, sB, small, large, r);
    IntegralIsExpectation(|reference| + |reference|, r, f);
  }
}
