// The product three-point rule for standard Gaussian noise, over the reals and in any dimension.
// `r` is a square root of three, the outer node of the rule.

module Quadrature {
  import opened Reals

  datatype Sample = Sample(point: seq<real>, mass: real)

  predicate Root3(r: real) { r > 0.0 && r * r == 3.0 }

  function Prepend(e: real, mass: real, rest: seq<Sample>): seq<Sample> {
    if rest == [] then []
    else [Sample([e] + rest[0].point, mass * rest[0].mass)] + Prepend(e, mass, rest[1..])
  }

  // Every choice of one node per coordinate; the first coordinate varies slowest.
  function Rule(n: nat, r: real): seq<Sample> {
    if n == 0 then [Sample([], 1.0)]
    else
      var rest := Rule(n - 1, r);
      Prepend(-r, 1.0 / 6.0, rest) + Prepend(0.0, 2.0 / 3.0, rest) + Prepend(r, 1.0 / 6.0, rest)
  }

  type Function = seq<real> -> real

  function Expectation(d: seq<Sample>, f: Function): real {
    if d == [] then 0.0 else d[0].mass * f(d[0].point) + Expectation(d[1..], f)
  }

  function Variance(d: seq<Sample>, f: Function): real {
    Expectation(d, Deviation(f, Expectation(d, f)))
  }

  // The squared distance from `center`.
  function Deviation(f: Function, center: real): Function {
    x => Squared(f(x) - center)
  }

  function After(f: Function, e: real): Function {
    x => f([e] + x)
  }

  lemma {:induction false} ExpectationConcat(a: seq<Sample>, b: seq<Sample>, f: Function)
    ensures Expectation(a + b, f) == Expectation(a, f) + Expectation(b, f)
    decreases |a|
  {
    if a == [] {
      assert a + b == b;
    } else {
      assert (a + b)[1..] == a[1..] + b;
      ExpectationConcat(a[1..], b, f);
    }
  }

  lemma {:induction false} ExpectationPrepend(e: real, mass: real, rest: seq<Sample>, f: Function)
    ensures Expectation(Prepend(e, mass, rest), f) == mass * Expectation(rest, After(f, e))
    decreases |rest|
  {
    if rest != [] {
      ExpectationPrepend(e, mass, rest[1..], f);
      var d := Prepend(e, mass, rest);
      assert d[1..] == Prepend(e, mass, rest[1..]);
      var m, v, t := rest[0].mass, f([e] + rest[0].point), Expectation(rest[1..], After(f, e));
      assert mass * (m * v + t) == mass * m * v + mass * t;
    }
  }

  // The three nodes of one coordinate.
  function Weigh(low: real, mid: real, high: real): real {
    low / 6.0 + mid * 2.0 / 3.0 + high / 6.0
  }

  // The same expectation, one coordinate integrated out at a time.
  ghost function Integral(n: nat, r: real, f: Function): real {
    if n == 0 then f([])
    else
      Weigh(Integral(n - 1, r, After(f, -r)), Integral(n - 1, r, After(f, 0.0)), Integral(n - 1, r, After(f, r)))
  }

  lemma NoCoordinate(r: real, f: Function)
    ensures Expectation(Rule(0, r), f) == f([])
  {
    var d := Rule(0, r);
    assert |d| == 1 && d[0] == Sample([], 1.0) && d[1..] == [];
  }

  lemma {:induction false} IntegralIsExpectation(n: nat, r: real, f: Function)
    ensures Integral(n, r, f) == Expectation(Rule(n, r), f)
    decreases n, 1
  {
    if n == 0 {
      NoCoordinate(r, f);
    } else {
      var low := IntegralAfter(n, r, f, -r);
      var mid := IntegralAfter(n, r, f, 0.0);
      var high := IntegralAfter(n, r, f, r);
      assert Integral(n, r, f) == Weigh(low, mid, high);
      RuleStep(n, r, f, low, mid, high);
    }
  }

  lemma {:induction false} IntegralAfter(n: nat, r: real, f: Function, e: real) returns (v: real)
    requires n > 0
    ensures v == Integral(n - 1, r, After(f, e)) && Expects(v, Rule(n - 1, r), After(f, e))
    decreases n, 0
  {
    IntegralIsExpectation(n - 1, r, After(f, e));
    v := Integral(n - 1, r, After(f, e));
  }

  ghost predicate Expects(v: real, d: seq<Sample>, f: Function) {
    v == Expectation(d, f)
  }

  lemma RuleStep(n: nat, r: real, f: Function, low: real, mid: real, high: real)
    requires n > 0
    requires Expects(low, Rule(n - 1, r), After(f, -r)) && Expects(mid, Rule(n - 1, r), After(f, 0.0))
    requires Expects(high, Rule(n - 1, r), After(f, r))
    ensures Expectation(Rule(n, r), f) == Weigh(low, mid, high)
  {
    FirstCoordinate(Rule(n - 1, r), r, f);
  }

  // Integrating out the first coordinate.
  lemma FirstCoordinate(rest: seq<Sample>, r: real, f: Function)
    ensures Expectation(
              Prepend(-r, 1.0 / 6.0, rest) + Prepend(0.0, 2.0 / 3.0, rest) + Prepend(r, 1.0 / 6.0, rest), f) ==
            Weigh(Expectation(rest, After(f, -r)), Expectation(rest, After(f, 0.0)), Expectation(rest, After(f, r)))
  {
    ThreeParts(Prepend(-r, 1.0 / 6.0, rest), Prepend(0.0, 2.0 / 3.0, rest), Prepend(r, 1.0 / 6.0, rest), f);
    ExpectationPrepend(-r, 1.0 / 6.0, rest, f);
    ExpectationPrepend(0.0, 2.0 / 3.0, rest, f);
    ExpectationPrepend(r, 1.0 / 6.0, rest, f);
  }

  lemma ThreeParts(a: seq<Sample>, b: seq<Sample>, c: seq<Sample>, f: Function)
    ensures Expectation(a + b + c, f) == Expectation(a, f) + Expectation(b, f) + Expectation(c, f)
  {
    ExpectationConcat(a + b, c, f);
    ExpectationConcat(a, b, f);
  }

  // ---------------------------------------------------------------- independent halves

  // f with its leading coordinates fixed.
  function Fixing(f: Function, front: seq<real>): Function {
    x => f(front + x)
  }

  // Integrating over independent halves one after the other.
  lemma {:induction false} Halves(m: nat, n: nat, r: real, f: Function, g: Function)
    requires forall a: seq<real> | |a| == m :: Integral(n, r, Fixing(f, a)) == g(a)
    ensures Integral(m + n, r, f) == Integral(m, r, g)
    decreases m, 1
  {
    if m == 0 {
      forall x: seq<real> | |x| == n ensures f(x) == Fixing(f, [])(x) {
        assert [] + x == x;
      }
      SameIntegral(n, r, f, Fixing(f, []));
    } else {
      HalvesAfter(m, n, r, f, g, -r);
      HalvesAfter(m, n, r, f, g, 0.0);
      HalvesAfter(m, n, r, f, g, r);
    }
  }

  lemma {:induction false} HalvesAfter(m: nat, n: nat, r: real, f: Function, g: Function, e: real)
    requires m > 0 && forall a: seq<real> | |a| == m :: Integral(n, r, Fixing(f, a)) == g(a)
    ensures Integral(m - 1 + n, r, After(f, e)) == Integral(m - 1, r, After(g, e))
    decreases m, 0
  {
    forall a: seq<real> | |a| == m - 1
      ensures Integral(n, r, Fixing(After(f, e), a)) == After(g, e)(a)
    {
      forall x: seq<real> | |x| == n ensures Fixing(After(f, e), a)(x) == Fixing(f, [e] + a)(x) {
        assert [e] + (a + x) == ([e] + a) + x;
      }
      SameIntegral(n, r, Fixing(After(f, e), a), Fixing(f, [e] + a));
    }
    Halves(m - 1, n, r, After(f, e), After(g, e));
  }

  lemma {:induction false} SameIntegral(n: nat, r: real, f: Function, g: Function)
    requires forall x: seq<real> | |x| == n :: f(x) == g(x)
    ensures Integral(n, r, f) == Integral(n, r, g)
    decreases n, 1
  {
    if n == 0 {
      assert f([]) == g([]);
    } else {
      SameAfter(n, r, f, g, -r);
      SameAfter(n, r, f, g, 0.0);
      SameAfter(n, r, f, g, r);
    }
  }

  lemma {:induction false} SameAfter(n: nat, r: real, f: Function, g: Function, e: real)
    requires n > 0 && forall x: seq<real> | |x| == n :: f(x) == g(x)
    ensures Integral(n - 1, r, After(f, e)) == Integral(n - 1, r, After(g, e))
    decreases n, 0
  {
    forall x: seq<real> | |x| == n - 1 ensures After(f, e)(x) == After(g, e)(x) {
      assert |[e] + x| == n;
    }
    SameIntegral(n - 1, r, After(f, e), After(g, e));
  }

  // ---------------------------------------------------------------- sums of quadratics

  // constant + linear * e + square * e^2
  datatype Quadratic = Quadratic(constant: real, linear: real, square: real) {
    function At(e: real): real { constant + linear * e + square * (e * e) }
  }

  // One quadratic per coordinate, added up.
  function Form(terms: seq<Quadratic>, x: seq<real>): real
    requires |x| == |terms|
  {
    if terms == [] then 0.0 else terms[0].At(x[0]) + Form(terms[1..], x[1..])
  }

  // The Gaussian mean and variance of such a sum.
  function Mean(terms: seq<Quadratic>): real {
    if terms == [] then 0.0 else terms[0].constant + terms[0].square + Mean(terms[1..])
  }

  function Spread(terms: seq<Quadratic>): real {
    if terms == [] then 0.0
    else terms[0].linear * terms[0].linear + 2.0 * (terms[0].square * terms[0].square) + Spread(terms[1..])
  }

  ghost predicate IsForm(f: Function, c: real, terms: seq<Quadratic>) {
    forall x: seq<real> | |x| == |terms| :: f(x) == c + Form(terms, x)
  }

  ghost predicate IsSquare(f: Function, c: real, terms: seq<Quadratic>) {
    forall x: seq<real> | |x| == |terms| :: f(x) == Squared(c + Form(terms, x))
  }

  lemma FormAfter(terms: seq<Quadratic>, e: real, x: seq<real>)
    requires |x| + 1 == |terms|
    ensures |[e] + x| == |terms| && Form(terms, [e] + x) == terms[0].At(e) + Form(terms[1..], x)
  {
    assert ([e] + x)[1..] == x;
  }

  // Integrals over the remaining coordinates, once the first is fixed at e.
  lemma {:induction false} MeanAfter(terms: seq<Quadratic>, r: real, c: real, f: Function, e: real)
    requires Root3(r) && IsForm(f, c, terms) && terms != []
    ensures Integral(|terms| - 1, r, After(f, e)) == c + Mean(terms[1..]) + terms[0].At(e)
    decreases |terms|, 0
  {
    forall x: seq<real> | |x| == |terms| - 1
      ensures After(f, e)(x) == c + terms[0].At(e) + Form(terms[1..], x)
    {
      FormAfter(terms, e, x);
    }
    RuleMean(terms[1..], r, c + terms[0].At(e), After(f, e));
  }

  lemma {:induction false} RuleMean(terms: seq<Quadratic>, r: real, c: real, f: Function)
    requires Root3(r) && IsForm(f, c, terms)
    ensures Integral(|terms|, r, f) == c + Mean(terms)
    decreases |terms|, 1
  {
    if terms == [] {
      assert f([]) == c;
    } else {
      MeanAfter(terms, r, c, f, -r);
      MeanAfter(terms, r, c, f, 0.0);
      MeanAfter(terms, r, c, f, r);
      NodesMean(terms[0], r, c + Mean(terms[1..]));
    }
  }

  lemma NodesMean(q: Quadratic, r: real, k: real)
    requires Root3(r)
    ensures Weigh(k + q.At(-r), k + q.At(0.0), k + q.At(r)) ==
            k + q.constant + q.square
  {
    assert (-r) * (-r) == 3.0;
  }

  // Its square, shifted by a constant, exceeds the square of the mean by the variance.
  lemma {:induction false} SquareAfter(terms: seq<Quadratic>, r: real, c: real, f: Function, e: real)
    requires Root3(r) && IsSquare(f, c, terms) && terms != []
    ensures Integral(|terms| - 1, r, After(f, e)) ==
            Squared((c + Mean(terms[1..])) + terms[0].At(e)) + Spread(terms[1..])
    decreases |terms|, 0
  {
    forall x: seq<real> | |x| == |terms| - 1
      ensures After(f, e)(x) == Squared(c + terms[0].At(e) + Form(terms[1..], x))
    {
      FormAfter(terms, e, x);
    }
    RuleSquare(terms[1..], r, c + terms[0].At(e), After(f, e));
  }

  lemma {:induction false} RuleSquare(terms: seq<Quadratic>, r: real, c: real, f: Function)
    requires Root3(r) && IsSquare(f, c, terms)
    ensures Integral(|terms|, r, f) == Squared(c + Mean(terms)) + Spread(terms)
    decreases |terms|, 1
  {
    if terms == [] {
      assert f([]) == Squared(c);
    } else {
      SquareAfter(terms, r, c, f, -r);
      SquareAfter(terms, r, c, f, 0.0);
      SquareAfter(terms, r, c, f, r);
      NodesSquare(terms[0], r, c + Mean(terms[1..]));
    }
  }

  lemma NodesSquare(q: Quadratic, r: real, k: real)
    requires Root3(r)
    ensures Weigh(Squared(k + q.At(-r)), Squared(k + q.At(0.0)), Squared(k + q.At(r))) ==
            Squared(k + q.constant + q.square) + q.linear * q.linear + 2.0 * (q.square * q.square)
  {
    var a, b, c := k + q.constant, q.linear * r, 3.0 * q.square;
    assert (-r) * (-r) == 3.0;
    assert b * b == q.linear * q.linear * 3.0;
  }

  lemma RuleSpread(terms: seq<Quadratic>, r: real, f: Function)
    requires Root3(r) && IsForm(f, 0.0, terms)
    ensures Integral(|terms|, r, Deviation(f, Mean(terms))) == Spread(terms)
  {
    var mean := Mean(terms);
    var deviation := Deviation(f, mean);
    forall x: seq<real> | |x| == |terms| ensures deviation(x) == Squared(-mean + Form(terms, x)) {
      assert f(x) - mean == -mean + Form(terms, x);
    }
    RuleSquare(terms, r, -mean, deviation);
    assert Squared(-mean + Mean(terms)) == 0.0;
  }

  // Any sum of one quadratic per coordinate has its Gaussian mean and variance under the rule, in
  // every dimension.
  lemma RuleMoments(terms: seq<Quadratic>, r: real, f: Function)
    requires Root3(r) && IsForm(f, 0.0, terms)
    ensures Expectation(Rule(|terms|, r), f) == Mean(terms)
    ensures Variance(Rule(|terms|, r), f) == Spread(terms)
  {
    var d := Rule(|terms|, r);
    assert Expectation(d, f) == Mean(terms) by {
      RuleMean(terms, r, 0.0, f);
      IntegralIsExpectation(|terms|, r, f);
    }
    assert Expectation(d, Deviation(f, Mean(terms))) == Spread(terms) by {
      RuleSpread(terms, r, f);
      IntegralIsExpectation(|terms|, r, Deviation(f, Mean(terms)));
    }
  }

  // ---------------------------------------------------------------- degree five

  function Power(x: real, k: nat): real {
    if k == 0 then 1.0 else x * Power(x, k - 1)
  }

  function Monomial(degrees: seq<nat>, x: seq<real>): real
    requires |x| == |degrees|
  {
    if degrees == [] then 1.0 else Times(Power(x[0], degrees[0]), Monomial(degrees[1..], x[1..]))
  }

  // Moments of one standard Gaussian up to degree five.
  function Moment(k: nat): real {
    if k == 0 || k == 2 then 1.0 else if k == 4 then 3.0 else 0.0
  }

  function Moments(degrees: seq<nat>): real {
    if degrees == [] then 1.0 else Times(Moment(degrees[0]), Moments(degrees[1..]))
  }

  ghost predicate IsMonomial(f: Function, c: real, degrees: seq<nat>) {
    forall x: seq<real> | |x| == |degrees| :: f(x) == Times(c, Monomial(degrees, x))
  }

  lemma Regroup(a: real, b: real, c: real)
    ensures Times(a, Times(b, c)) == Times(Times(a, b), c)
  {
  }

  lemma {:induction false} ExactAfter(degrees: seq<nat>, r: real, c: real, f: Function, e: real)
    requires Root3(r) && IsMonomial(f, c, degrees) && degrees != []
    requires forall i :: 0 <= i < |degrees| ==> degrees[i] <= 5
    ensures Integral(|degrees| - 1, r, After(f, e)) ==
            Times(Times(c, Power(e, degrees[0])), Moments(degrees[1..]))
    decreases |degrees|, 0
  {
    var d, g := Times(c, Power(e, degrees[0])), After(f, e);
    forall x: seq<real> | |x| == |degrees| - 1 ensures g(x) == Times(d, Monomial(degrees[1..], x)) {
      assert ([e] + x)[1..] == x;
      assert g(x) == f([e] + x) == Times(c, Monomial(degrees, [e] + x));
      Regroup(c, Power(e, degrees[0]), Monomial(degrees[1..], x));
    }
    RuleIsExact(degrees[1..], r, d, g);
  }

  lemma {:induction false} RuleIsExact(degrees: seq<nat>, r: real, c: real, f: Function)
    requires Root3(r) && IsMonomial(f, c, degrees)
    requires forall i :: 0 <= i < |degrees| ==> degrees[i] <= 5
    ensures Integral(|degrees|, r, f) == Times(c, Moments(degrees))
    decreases |degrees|, 1
  {
    if degrees == [] {
      assert f([]) == Times(c, Monomial([], [])) == Times(c, 1.0);
    } else {
      var k, rest := degrees[0], Moments(degrees[1..]);
      var low, mid, high := Power(-r, k), Power(0.0, k), Power(r, k);
      assert Integral(|degrees|, r, f) ==
             Weigh(Times(Times(c, low), rest), Times(Times(c, mid), rest), Times(Times(c, high), rest)) by {
        ExactAfter(degrees, r, c, f, -r);
        ExactAfter(degrees, r, c, f, 0.0);
        ExactAfter(degrees, r, c, f, r);
      }
      assert Weigh(Times(Times(c, low), rest), Times(Times(c, mid), rest), Times(Times(c, high), rest)) ==
             Times(c, Times(Moment(k), rest)) by {
        NodesPower(r, k);
        NodesProduct(c, low, mid, high, Moment(k), rest);
      }
    }
  }

  lemma NodesProduct(c: real, low: real, mid: real, high: real, moment: real, rest: real)
    requires low + 4.0 * mid + high == 6.0 * moment
    ensures Weigh(Times(Times(c, low), rest), Times(Times(c, mid), rest), Times(Times(c, high), rest)) ==
            Times(c, Times(moment, rest))
  {
    var cr := c * rest;
    assert c * low * rest == cr * low && c * mid * rest == cr * mid && c * high * rest == cr * high;
    assert c * (moment * rest) == cr * moment;
    assert cr * (low + 4.0 * mid + high) == cr * low + 4.0 * (cr * mid) + cr * high;
    assert cr * (6.0 * moment) == 6.0 * (cr * moment);
  }

  // The rule integrates every monomial of degree at most five in each coordinate exactly.
  lemma DegreeFive(degrees: seq<nat>, r: real, f: Function)
    requires Root3(r) && forall i :: 0 <= i < |degrees| ==> degrees[i] <= 5
    requires forall x: seq<real> | |x| == |degrees| :: f(x) == Monomial(degrees, x)
    ensures Expectation(Rule(|degrees|, r), f) == Moments(degrees)
  {
    assert forall y: real :: Times(1.0, y) == y;
    RuleIsExact(degrees, r, 1.0, f);
    IntegralIsExpectation(|degrees|, r, f);
  }

  lemma NodesPower(r: real, k: nat)
    requires Root3(r) && k <= 5
    ensures Power(-r, k) + 4.0 * Power(0.0, k) + Power(r, k) == 6.0 * Moment(k)
  {
    Powers(r, k);
    Powers(-r, k);
    Powers(0.0, k);
    var square := r * r;
    assert (-r) * (-r) == square;
    assert square * square == 9.0;
  }

  // x to the k through x and its square.
  lemma Powers(x: real, k: nat)
    requires k <= 5
    ensures Power(x, k) ==
      (if k % 2 == 0 then 1.0 else x) * (if k < 2 then 1.0 else if k < 4 then x * x else (x * x) * (x * x))
  {
    assert Power(x, 0) == 1.0;
    assert Power(x, 1) == x;
    if k >= 2 { assert Power(x, 2) == x * x; }
    if k >= 3 { assert Power(x, 3) == x * (x * x); }
    if k >= 4 { assert Power(x, 4) == x * (x * (x * x)); }
    if k >= 5 { assert Power(x, 5) == x * (x * (x * (x * x))); }
  }
}
