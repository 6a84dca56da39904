// A paired-relative search session as rounds over values: the incumbent, the rejections since
// it was promoted, the reference direction, the radius controller, and the reported best.

module RelativeSpec {
  import opened Division

  datatype Observation<R> = Observation(row: R, outcome: real, variance: real)

  // `narrow` is the conversion of a selected radius to single precision.
  datatype Limits = Limits(capacity: nat, tolerance: nat, low: real, high: real, narrow: real -> real) {
    predicate Valid() { capacity >= 2 && tolerance > 0 && 0.0 < low <= high }
  }

  datatype Session<R> = Session(
    incumbent: R, rejected: seq<Observation<R>>, reference: R, radius: real, failures: nat,
    best: real, bestVariance: real)

  // One paired measurement: absolute rewards for the report, the improvement for the search.
  datatype Tell = Tell(value: real, variance: real, incumbentValue: real, incumbentVariance: real,
                       improvement: real, improvementVariance: real, accept: bool, rejectIsFailure: bool)

  datatype Round = Round(seed: nat, tell: Tell)

  // What proposals are made from, and what one proposes.
  datatype View<R> = View(history: seq<Observation<R>>, radius: real, reference: R)
  datatype Choice<R> = Choice(row: R, candidate: nat)

  // The kernels: drawing a proposal, drawing the first reference direction, mixing a promoted
  // proposal's direction into it, and telling whether a direction can be normalised and a row used.
  datatype Kernels<!R> = Kernels(
    propose: (View<R>, nat) -> Choice<R>, first: nat -> R, refresh: (R, nat, nat) -> R,
    usable: R -> bool, finite: R -> bool)

  // ---------------------------------------------------------------- one round

  function Last<T>(s: seq<T>, n: nat): seq<T> { if |s| <= n then s else s[|s| - n..] }

  // The pinned anchor and the most recent rejections.
  function Visible<R>(s: Session<R>, capacity: nat): seq<Observation<R>>
    requires capacity >= 1
  {
    [Observation(s.incumbent, 0.0, 0.0)] + Last(s.rejected, capacity - 1)
  }

  function ViewOf<R>(s: Session<R>, limits: Limits): View<R>
    requires limits.Valid()
  {
    View(Visible(s, limits.capacity), s.radius, s.reference)
  }

  function Clamp(x: real, low: real, high: real): real {
    var raised := if x < low then low else x;
    if raised > high then high else raised
  }

  // Even candidates try half the radius, odd ones twice.
  function SelectedRadius(radius: real, candidate: nat, limits: Limits): real {
    limits.narrow(Clamp(if candidate % 2 == 0 then radius * 0.5 else radius * 2.0, limits.low, limits.high))
  }

  function Contracted(radius: real, limits: Limits): real {
    if radius * 0.5 < limits.low then limits.low else radius * 0.5
  }

  // `renewed` is the reference direction that a promotion leaves.
  function Step<R>(s: Session<R>, limits: Limits, choice: Choice<R>, renewed: R, t: Tell): Session<R> {
    if t.accept then
      Session(choice.row, [], renewed, SelectedRadius(s.radius, choice.candidate, limits), 0, t.value, t.variance)
    else
      var rejected := s.rejected + [Observation(choice.row, t.improvement, t.improvementVariance)];
      var failed := t.rejectIsFailure && s.failures + 1 >= limits.tolerance;
      Session(s.incumbent, rejected, s.reference,
              if failed then Contracted(s.radius, limits) else s.radius,
              if failed then 0 else if t.rejectIsFailure then s.failures + 1 else s.failures,
              t.incumbentValue, t.incumbentVariance)
  }

  // ---------------------------------------------------------------- runs

  function Run<R>(s: Session<R>, limits: Limits, kernels: Kernels<R>, rounds: seq<Round>): Session<R>
    requires limits.Valid()
    decreases |rounds|
  {
    if rounds == [] then s
    else
      var n := |rounds| - 1;
      var before := Run(s, limits, kernels, rounds[..n]);
      Next(before, limits, kernels, rounds[n])
  }

  function Chosen<R>(s: Session<R>, limits: Limits, kernels: Kernels<R>, seed: nat): Choice<R>
    requires limits.Valid()
  {
    kernels.propose(ViewOf(s, limits), seed)
  }

  function Next<R>(s: Session<R>, limits: Limits, kernels: Kernels<R>, round: Round): Session<R>
    requires limits.Valid()
  {
    var choice := Chosen(s, limits, kernels, round.seed);
    Step(s, limits, choice, kernels.refresh(s.reference, choice.candidate, round.seed), round.tell)
  }

  // Rounds since the last acceptance, or all of them.
  function Streak(rounds: seq<Round>): (n: nat)
    ensures n <= |rounds|
    ensures forall i :: |rounds| - n <= i < |rounds| ==> !rounds[i].tell.accept
    ensures n < |rounds| ==> rounds[|rounds| - n - 1].tell.accept
  {
    if rounds == [] || rounds[|rounds| - 1].tell.accept then 0 else 1 + Streak(rounds[..|rounds| - 1])
  }

  // What a rejection at a given round leaves behind: the row proposed then, and its improvement.
  function RejectedAt<R>(
    s: Session<R>, limits: Limits, kernels: Kernels<R>, rounds: seq<Round>, at: nat): Observation<R>
    requires limits.Valid() && at < |rounds|
  {
    var t := rounds[at].tell;
    Observation(Chosen(Run(s, limits, kernels, rounds[..at]), limits, kernels, rounds[at].seed).row,
                t.improvement, t.improvementVariance)
  }

  function RejectedFrom<R>(s: Session<R>, limits: Limits, kernels: Kernels<R>, rounds: seq<Round>, from: nat)
    : (r: seq<Observation<R>>)
    requires limits.Valid() && from <= |rounds|
    ensures |r| == |rounds| - from
  {
    seq(|rounds| - from, i requires 0 <= i < |rounds| - from => RejectedAt(s, limits, kernels, rounds, from + i))
  }

  lemma RejectedGrows<R>(s: Session<R>, limits: Limits, kernels: Kernels<R>, rounds: seq<Round>, from: nat)
    requires limits.Valid() && from < |rounds|
    ensures var m := |rounds| - 1;
        RejectedFrom(s, limits, kernels, rounds, from)
        == RejectedFrom(s, limits, kernels, rounds[..m], from) + [RejectedAt(s, limits, kernels, rounds, m)]
  {
    var m := |rounds| - 1;
    var a, b := RejectedFrom(s, limits, kernels, rounds, from), RejectedFrom(s, limits, kernels, rounds[..m], from);
    var last := RejectedAt(s, limits, kernels, rounds, m);
    forall i | 0 <= i < m - from ensures a[i] == b[i] {
      RejectedBefore(s, limits, kernels, rounds, from + i);
    }
    assert a[|b|] == last;
    Appended(a, b, last);
  }

  lemma Appended<T>(a: seq<T>, b: seq<T>, last: T)
    requires |a| == |b| + 1 && a[|b|] == last && forall i :: 0 <= i < |b| ==> a[i] == b[i]
    ensures a == b + [last]
  {
  }

  lemma RejectedBefore<R>(s: Session<R>, limits: Limits, kernels: Kernels<R>, rounds: seq<Round>, at: nat)
    requires limits.Valid() && at < |rounds| - 1
    ensures RejectedAt(s, limits, kernels, rounds[..|rounds| - 1], at) == RejectedAt(s, limits, kernels, rounds, at)
  {
    assert rounds[..|rounds| - 1][..at] == rounds[..at];
  }

  // The rejections held are those since the last acceptance, in order, and the incumbent and the
  // reference direction are those left then.
  lemma {:induction false} HistoryIsStreak<R>(s: Session<R>, limits: Limits, kernels: Kernels<R>, rounds: seq<Round>)
    requires limits.Valid() && s.rejected == []
    ensures var end, from := Run(s, limits, kernels, rounds), |rounds| - Streak(rounds);
        && end.rejected == RejectedFrom(s, limits, kernels, rounds, from)
        && end.incumbent == Run(s, limits, kernels, rounds[..from]).incumbent
        && end.reference == Run(s, limits, kernels, rounds[..from]).reference
    decreases |rounds|
  {
    if rounds != [] {
      var m := |rounds| - 1;
      if rounds[m].tell.accept {
        assert rounds[..|rounds|] == rounds;
      } else {
        HistoryIsStreak(s, limits, kernels, rounds[..m]);
        var from := |rounds| - Streak(rounds);
        assert rounds[..m][..from] == rounds[..from];
        RejectedGrows(s, limits, kernels, rounds, from);
      }
    }
  }

  // ---------------------------------------------------------------- offsets

  ghost predicate SameDecision(a: Round, b: Round) {
    && a.seed == b.seed
    && a.tell.improvement == b.tell.improvement && a.tell.improvementVariance == b.tell.improvementVariance
    && a.tell.accept == b.tell.accept && a.tell.rejectIsFailure == b.tell.rejectIsFailure
  }

  // Absolute rewards and their marginal variances reach nothing but the reported best: not the
  // incumbent, nor the reference direction.
  lemma {:induction false} OffsetsOnlyMoveBest<R>(s: Session<R>, t: Session<R>, limits: Limits, kernels: Kernels<R>,
                                                  a: seq<Round>, b: seq<Round>)
    requires limits.Valid() && |a| == |b| && forall i :: 0 <= i < |a| ==> SameDecision(a[i], b[i])
    requires s.(best := 0.0, bestVariance := 0.0) == t.(best := 0.0, bestVariance := 0.0)
    ensures var x, y := Run(s, limits, kernels, a), Run(t, limits, kernels, b);
        && x.(best := 0.0, bestVariance := 0.0) == y.(best := 0.0, bestVariance := 0.0)
        && (a != [] ==>
              var p, q := a[|a| - 1].tell, b[|b| - 1].tell;
              && x.best == (if p.accept then p.value else p.incumbentValue)
              && y.best == (if p.accept then q.value else q.incumbentValue)
              && x.bestVariance == (if p.accept then p.variance else p.incumbentVariance)
              && y.bestVariance == (if p.accept then q.variance else q.incumbentVariance))
    decreases |a|
  {
    if a != [] {
      OffsetsOnlyMoveBest(s, t, limits, kernels, a[..|a| - 1], b[..|b| - 1]);
    }
  }

  // ---------------------------------------------------------------- the radius

  ghost predicate InBounds<R>(s: Session<R>, limits: Limits) {
    limits.low <= s.radius <= limits.high && s.failures < limits.tolerance
  }

  ghost predicate Monotone(narrow: real -> real) {
    forall x, y :: x <= y ==> narrow(x) <= narrow(y)
  }

  // Converting a bound does not move it outwards.
  predicate KeepsBounds(limits: Limits) {
    limits.low <= limits.narrow(limits.low) && limits.narrow(limits.high) <= limits.high
  }

  lemma {:induction false} RadiusStays<R>(s: Session<R>, limits: Limits, kernels: Kernels<R>, rounds: seq<Round>)
    requires limits.Valid() && Monotone(limits.narrow) && KeepsBounds(limits) && InBounds(s, limits)
    ensures InBounds(Run(s, limits, kernels, rounds), limits)
    decreases |rounds|
  {
    if rounds != [] {
      RadiusStays(s, limits, kernels, rounds[..|rounds| - 1]);
    }
  }

  // A promotion from the bound itself.
  lemma RadiusEscapes<R>(s: Session<R>, limits: Limits, kernels: Kernels<R>, round: Round)
    requires limits.Valid() && round.tell.accept
    requires var candidate := Chosen(s, limits, kernels, round.seed).candidate;
      || (s.radius == limits.low && candidate % 2 == 0 && limits.narrow(limits.low) < limits.low)
      || (s.radius == limits.high && candidate % 2 == 1 && limits.narrow(limits.high) > limits.high)
    ensures !InBounds(Run(s, limits, kernels, [round]), limits)
  {
    assert [round][..0] == [];
    assert Run(s, limits, kernels, []) == s;
  }

  // Every run stays in bounds exactly when converting the bounds does not move them outwards.
  lemma RadiusStaysInBounds<R(!new)>(limits: Limits, row: R)
    requires limits.Valid() && Monotone(limits.narrow)
    ensures KeepsBounds(limits) <==>
      forall s: Session<R>, kernels, rounds :: InBounds(s, limits) ==> InBounds(Run(s, limits, kernels, rounds), limits)
  {
    if KeepsBounds(limits) {
      forall s: Session<R>, kernels, rounds | InBounds(s, limits)
        ensures InBounds(Run(s, limits, kernels, rounds), limits)
      {
        RadiusStays(s, limits, kernels, rounds);
      }
    } else {
      var low := limits.narrow(limits.low) < limits.low;
      var s := Session(row, [], row, if low then limits.low else limits.high, 0, 0.0, 0.0);
      var kernels := Kernels((view, seed) => Choice(row, if low then 0 else 1), seed => row,
        (reference, candidate, seed) => row, direction => true, r => true);
      var round := Round(0, Tell(1.0, 0.0, 0.0, 0.0, 1.0, 0.0, true, true));
      RadiusEscapes(s, limits, kernels, round);
      assert InBounds(s, limits);
    }
  }

  // The radius that a promotion leaves, from the radius before it and the promoted candidate: half of
  // it for an even candidate and twice for an odd one, or the bound that lies before that.
  predicate Promoted(before: real, candidate: nat, limits: Limits, after: real) {
    if candidate % 2 == 0 then
      && (limits.low <= before / 2.0 <= limits.high ==> after == limits.narrow(before / 2.0))
      && (before / 2.0 < limits.low ==> after == limits.narrow(limits.low))
      && (before / 2.0 > limits.high ==> after == limits.narrow(limits.high))
    else
      && (limits.low <= 2.0 * before <= limits.high ==> after == limits.narrow(2.0 * before))
      && (2.0 * before > limits.high ==> after == limits.narrow(limits.high))
      && (2.0 * before < limits.low ==> after == limits.narrow(limits.low))
  }

  // After any run that ends in a promotion.
  lemma PromotionRadius<R>(s: Session<R>, limits: Limits, kernels: Kernels<R>, rounds: seq<Round>)
    requires limits.Valid() && rounds != [] && rounds[|rounds| - 1].tell.accept
    ensures var n := |rounds| - 1;
      var before := Run(s, limits, kernels, rounds[..n]);
      var candidate := kernels.propose(ViewOf(before, limits), rounds[n].seed).candidate;
      Promoted(before.radius, candidate, limits, Run(s, limits, kernels, rounds).radius)
  {
  }

  // With exact conversion and within the bounds: an even candidate leaves half the radius or the lower
  // bound, which is what one contraction leaves, and an odd one twice the radius or the upper bound.
  lemma PromotionRadiusExact<R>(
    s: Session<R>, limits: Limits, kernels: Kernels<R>, rounds: seq<Round>, rejections: seq<Round>)
    requires limits.Valid() && (forall x :: limits.narrow(x) == x) && InBounds(s, limits)
    requires rounds != [] && rounds[|rounds| - 1].tell.accept
    requires |rejections| == limits.tolerance
    requires forall i :: 0 <= i < |rejections| ==> !rejections[i].tell.accept && rejections[i].tell.rejectIsFailure
    ensures var n := |rounds| - 1;
      var before, end := Run(s, limits, kernels, rounds[..n]), Run(s, limits, kernels, rounds);
      if kernels.propose(ViewOf(before, limits), rounds[n].seed).candidate % 2 == 0 then
        && (before.radius / 2.0 >= limits.low ==> 2.0 * end.radius == before.radius)
        && (before.radius / 2.0 < limits.low ==> end.radius == limits.low)
        && end.radius == Run(before.(failures := 0), limits, kernels, rejections).radius
      else
        && (2.0 * before.radius <= limits.high ==> end.radius == 2.0 * before.radius)
        && (2.0 * before.radius > limits.high ==> end.radius == limits.high)
  {
    var before := Run(s, limits, kernels, rounds[..|rounds| - 1]);
    RadiusStays(s, limits, kernels, rounds[..|rounds| - 1]);
    PromotionRadius(s, limits, kernels, rounds);
    RejectionsContract(before.(failures := 0), limits, kernels, rejections);
    OneHalving(limits.tolerance);
  }

  lemma OneHalving(tolerance: nat)
    requires tolerance > 0
    ensures tolerance / tolerance == 1 && Power2(tolerance / tolerance) == 2.0
  {
    assert Power2(1) == 2.0 * Power2(0);
  }

  // The single-precision number next to 0.3 is above it, so an upper bound of 0.3 is not kept.
  lemma ThreeTenthsEscape(limits: Limits)
    requires limits.high == 0.3 && limits.narrow(0.3) == 10066330.0 / 33554432.0
    ensures !KeepsBounds(limits)
  {
  }

  function Power2(n: nat): (p: real)
    ensures p >= 1.0
  {
    if n == 0 then 1.0 else 2.0 * Power2(n - 1)
  }

  function Floored(x: real, low: real): real { if x < low then low else x }

  // Counted rejections in a row halve the radius once per `tolerance` of them, down to the floor.
  lemma {:induction false} RejectionsContract<R>(s: Session<R>, limits: Limits, kernels: Kernels<R>, rounds: seq<Round>)
    requires limits.Valid() && InBounds(s, limits) && s.failures == 0
    requires forall i :: 0 <= i < |rounds| ==> !rounds[i].tell.accept && rounds[i].tell.rejectIsFailure
    ensures var end := Run(s, limits, kernels, rounds);
        && end.incumbent == s.incumbent && end.reference == s.reference
        && end.failures == |rounds| % limits.tolerance
        && end.radius == Floored(s.radius / Power2(|rounds| / limits.tolerance), limits.low)
    decreases |rounds|
  {
    if rounds != [] {
      var n := |rounds| - 1;
      RejectionsContract(s, limits, kernels, rounds[..n]);
      var before := Run(s, limits, kernels, rounds[..n]);
      OneMoreRejection(n, limits, s.radius, before.radius, before.failures);
    } else {
      Small(0, limits.tolerance);
    }
  }

  lemma OneMoreRejection(n: nat, limits: Limits, start: real, radius: real, failures: nat)
    requires limits.Valid() && failures == n % limits.tolerance
    requires radius == Floored(start / Power2(n / limits.tolerance), limits.low)
    ensures var failed := failures + 1 >= limits.tolerance;
      && (if failed then 0 else failures + 1) == (n + 1) % limits.tolerance
      && (if failed then Contracted(radius, limits) else radius) ==
        Floored(start / Power2((n + 1) / limits.tolerance), limits.low)
  {
    NextQuotient(n, limits.tolerance);
    if n % limits.tolerance + 1 == limits.tolerance {
      HalvesAgain(start, n / limits.tolerance, limits.low);
    }
  }

  lemma Small(n: nat, t: nat)
    requires n < t
    ensures n / t == 0 && n % t == n
  {
  }

  lemma HalvesAgain(x: real, k: nat, low: real)
    requires low > 0.0
    ensures var r := Floored(x / Power2(k), low);
        (if r * 0.5 < low then low else r * 0.5) == Floored(x / Power2(k + 1), low)
  {
    var p := Power2(k);
    assert x / (2.0 * p) == (x / p) * 0.5;
  }

  // Rejections that do not count leave the radius and the streak of failures alone.
  lemma {:induction false} UncountedRejections<R>(
    s: Session<R>, limits: Limits, kernels: Kernels<R>, rounds: seq<Round>)
    requires limits.Valid()
    requires forall i :: 0 <= i < |rounds| ==> !rounds[i].tell.accept && !rounds[i].tell.rejectIsFailure
    ensures var end := Run(s, limits, kernels, rounds);
        && end.incumbent == s.incumbent && end.reference == s.reference
        && end.failures == s.failures && end.radius == s.radius
    decreases |rounds|
  {
    if rounds != [] {
      UncountedRejections(s, limits, kernels, rounds[..|rounds| - 1]);
    }
  }
}
