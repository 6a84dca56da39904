// Lowering a lowered document again: exactly when that changes nothing.

module Relowering {
  import opened Wrappers
  import opened Lowering
  import opened LoweringProof

  // ---------------------------------------------------------------- tables that move backward

  // When a section is lowered; the two spellings of the trust region are lowered together, last.
  function Rank(k: Key): nat {
    match k
    case Pretrain => 0
    case Study => 1
    case Rounds => 2
    case Experiment => 3
    case Objective => 4
    case Perturbation => 5
    case Proposal => 6
    case Acquisition => 7
    case Surrogate => 8
    case _ => 9
  }

  function Spelled(k: Key): Key {
    if k == PublicTrustRegion then TrustRegion else k
  }

  // An order that lowers each section at its rank.
  ghost predicate Ranked(sections: seq<Key>) {
    && |sections| == 9 && Complete(sections)
    && forall i :: 0 <= i < |sections| ==> Rank(sections[i]) == i
  }

  lemma SectionsRanked()
    ensures Ranked(SECTIONS)
  {
  }

  // Lowering the section moves a table under the name of a section whose turn is over, at once or
  // after some sections whose turn is still to come. Tables nest at most n deep.
  predicate Backward(section: Key, t: Document, n: nat)
    decreases n, 2
  {
    PlanSends(section, PlanOf(section, t), n)
  }

  predicate PlanSends(section: Key, plan: Plan, n: nat)
    decreases n, 1
  {
    plan.Some? && exists j, k :: 0 <= j < |plan.value| && k in plan.value[j] && Sends(section, k, plan.value[j][k], n)
  }

  predicate Sends(section: Key, k: Key, v: Value, n: nat)
    decreases n, 0
  {
    v.Table? && IsSection(k) &&
    (Rank(k) <= Rank(section) || (n > 0 && Backward(Spelled(k), v.fields, n - 1)))
  }

  // From stage i on no section sends anything backward, and none before it is left.
  predicate Onward(d: Document, i: nat, n: nat) {
    forall k :: k in d && IsSection(k) && d[k].Table? ==> Waits(k, d[k].fields, i, n)
  }

  predicate Waits(k: Key, t: Document, i: nat, n: nat) {
    Rank(k) >= i && !Backward(Spelled(k), t, n)
  }

  // Once n covers the nesting, more of it changes nothing.
  lemma {:induction false} BackwardStable(section: Key, t: Document, n: nat, m: nat)
    requires AllBelow(t, n) && n <= m
    ensures Backward(section, t, n) <==> Backward(section, t, m)
    decreases n, 2
  {
    PlanBelow(section, t, n);
    PlanStable(section, PlanOf(section, t), n, m);
  }

  lemma {:induction false} PlanStable(section: Key, plan: Plan, n: nat, m: nat)
    requires GroupsBelow(plan, n) && n <= m
    ensures PlanSends(section, plan, n) <==> PlanSends(section, plan, m)
    decreases n, 1
  {
    if plan.Some? {
      forall j, k | 0 <= j < |plan.value| && k in plan.value[j]
        ensures Sends(section, k, plan.value[j][k], n) <==> Sends(section, k, plan.value[j][k], m)
      {
        SendsStable(section, k, plan.value[j][k], n, m);
      }
    }
  }

  lemma {:induction false} SendsStable(section: Key, k: Key, v: Value, n: nat, m: nat)
    requires Below(v, n) && n <= m
    ensures Sends(section, k, v, n) <==> Sends(section, k, v, m)
    decreases n, 0
  {
    if v.Table? {
      BackwardStable(Spelled(k), v.fields, n - 1, m - 1);
    }
  }

  // An empty section sends nothing.
  lemma EmptySends(section: Key, n: nat)
    ensures !Backward(section, map[], n)
  {
    EmptyGroups(section);
  }

  // ---------------------------------------------------------------- one stage

  // Where a section's table in a landed document comes from.
  lemma Landed(d: Document, plan: Plan, k: Key)
    requires Land(d, plan).Some? && k in Land(d, plan).value
    ensures var r := Land(d, plan).value;
      (k in d && r[k] == d[k]) || exists j :: 0 <= j < |plan.value| && k in plan.value[j] && plan.value[j][k] == r[k]
  {
    MoveAllParts(d, plan.value);
    MoveAllOnly(d, plan.value, k);
  }

  lemma StageDeep(d: Document, s: Key, n: nat)
    requires Deep(d, n) && IsSection(s) && Land(Drop(d, s), PlanOf(s, Section(d, s))).Some?
    ensures Deep(Land(Drop(d, s), PlanOf(s, Section(d, s))).value, n)
    ensures n > 0 ==> GroupsBelow(PlanOf(s, Section(d, s)), n)
  {
    SectionBelow(d, s, n);
    PlanBelow(s, Section(d, s), n - 1);
    GroupsBelowGrow(PlanOf(s, Section(d, s)), n - 1, n);
    DropWorn(d, s, n);
    LandKeeps(Drop(d, s), PlanOf(s, Section(d, s)), n);
  }

  lemma GroupsBelowGrow(plan: Plan, n: int, m: int)
    requires GroupsBelow(plan, n) && n <= m
    ensures GroupsBelow(plan, m)
  {
    if plan.Some? {
      forall j | 0 <= j < |plan.value| ensures AllBelow(plan.value[j], m) {
        AllBelowGrows(plan.value[j], n, m);
      }
    }
  }

  // The table landed at k is sent on exactly as it will be lowered there.
  lemma SendsAsLanded(s: Key, k: Key, v: Value, n: nat)
    requires Below(v, n) && n > 0
    ensures Sends(s, k, v, n) <==> v.Table? && IsSection(k) && !Waits(k, v.fields, Rank(s) + 1, n)
  {
    if v.Table? {
      BackwardStable(Spelled(k), v.fields, n - 1, n);
    }
  }

  lemma StageForward(d: Document, s: Key, n: nat, plan: Plan, next: Document)
    requires IsSection(s) && n > 0 && GroupsBelow(plan, n) && Land(Drop(d, s), plan) == Some(next)
    requires forall k :: k in d && IsSection(k) && d[k].Table? && k != s ==> Waits(k, d[k].fields, Rank(s) + 1, n)
    requires !PlanSends(s, plan, n)
    ensures Onward(next, Rank(s) + 1, n)
  {
    forall k | k in next && IsSection(k) && next[k].Table? ensures Waits(k, next[k].fields, Rank(s) + 1, n) {
      Landed(Drop(d, s), plan, k);
      if !(k in Drop(d, s) && next[k] == Drop(d, s)[k]) {
        var j :| 0 <= j < |plan.value| && k in plan.value[j] && plan.value[j][k] == next[k];
        SendsAsLanded(s, k, next[k], n);
      }
    }
  }

  lemma StageBackward(d: Document, s: Key, n: nat, plan: Plan, next: Document)
    requires IsSection(s) && n > 0 && GroupsBelow(plan, n) && Land(Drop(d, s), plan) == Some(next)
    requires Onward(next, Rank(s) + 1, n)
    ensures forall k :: k in d && IsSection(k) && d[k].Table? && k != s ==> Waits(k, d[k].fields, Rank(s) + 1, n)
    ensures !PlanSends(s, plan, n)
  {
    MoveAllParts(Drop(d, s), plan.value);
    forall j, k | 0 <= j < |plan.value| && k in plan.value[j] ensures !Sends(s, k, plan.value[j][k], n) {
      SendsAsLanded(s, k, plan.value[j][k], n);
    }
    forall k | k in d && IsSection(k) && d[k].Table? && k != s ensures Waits(k, d[k].fields, Rank(s) + 1, n) {
      assert k in Drop(d, s) && next[k] == d[k];
    }
  }

  // What is onward before a stage, and what its section sends.
  lemma OnwardSplits(d: Document, s: Key, n: nat)
    requires IsSection(s) && Rank(s) < 9
    ensures Onward(d, Rank(s), n) <==>
      && !Backward(s, Section(d, s), n)
      && forall k :: k in d && IsSection(k) && d[k].Table? && k != s ==> Waits(k, d[k].fields, Rank(s) + 1, n)
  {
    EmptySends(s, n);
    assert Spelled(s) == s;
    forall k | k in d && IsSection(k) && d[k].Table?
      ensures Waits(k, d[k].fields, Rank(s), n) <==>
        if k == s then !Backward(s, Section(d, s), n) else Waits(k, d[k].fields, Rank(s) + 1, n)
    {
      assert k != s ==> Rank(k) != Rank(s);
    }
  }

  lemma StageOnward(d: Document, s: Key, n: nat, plan: Plan, next: Document)
    requires IsSection(s) && Rank(s) < 9 && n > 0 && plan == PlanOf(s, Section(d, s))
    requires GroupsBelow(plan, n) && Land(Drop(d, s), plan) == Some(next)
    ensures Onward(d, Rank(s), n) <==> Onward(next, Rank(s) + 1, n)
  {
    OnwardSplits(d, s, n);
    if Onward(d, Rank(s), n) {
      StageForward(d, s, n, plan, next);
    }
    if Onward(next, Rank(s) + 1, n) {
      StageBackward(d, s, n, plan, next);
    }
  }

  // ---------------------------------------------------------------- all stages

  lemma {:induction false} SectionsOnward(d: Document, sections: seq<Key>, i: nat, n: nat)
    requires Ranked(sections) && i <= |sections| && Deep(d, n) && n > 0
    requires LowerSections(d, sections[i..]).Some?
    ensures var e := LowerSections(d, sections[i..]).value;
      Deep(e, n) && (Onward(d, i, n) <==> Onward(e, 9, n))
    decreases |sections| - i
  {
    if i < |sections| {
      var s := sections[i];
      assert s in sections && sections[i..][0] == s && sections[i..][1..] == sections[i + 1..];
      var next := Land(Drop(d, s), PlanOf(s, Section(d, s))).value;
      StageDeep(d, s, n);
      SectionsOnward(next, sections, i + 1, n);
      StageOnward(d, s, n, PlanOf(s, Section(d, s)), next);
    }
  }

  // The last stage: whatever the trust region moves under a section's name stays there.
  lemma TrustRegionForward(base: Document, plan: Plan, n: nat, r: Document)
    requires Land(base, plan) == Some(r) && Flat(base) && !PlanSends(TrustRegion, plan, n)
    ensures Flat(r)
  {
    forall k | k in r && IsSection(k) ensures !r[k].Table? {
      Landed(base, plan, k);
      if !(k in base && r[k] == base[k]) {
        var j :| 0 <= j < |plan.value| && k in plan.value[j] && plan.value[j][k] == r[k];
        assert !Sends(TrustRegion, k, plan.value[j][k], n);
      }
    }
  }

  lemma TrustRegionBack(base: Document, plan: Plan, n: nat, r: Document)
    requires Land(base, plan) == Some(r) && Flat(r)
    ensures Flat(base) && !PlanSends(TrustRegion, plan, n)
  {
    MoveAllParts(base, plan.value);
    forall j, k | 0 <= j < |plan.value| && k in plan.value[j] ensures !Sends(TrustRegion, k, plan.value[j][k], n) {
      assert r[k] == plan.value[j][k];
    }
    forall k | k in base && IsSection(k) ensures !base[k].Table? {
      assert r[k] == base[k];
    }
  }

  // Before it only the trust region's table, under either spelling, may be left.
  lemma LastSplits(d: Document, base: Document, t: Document, n: nat)
    requires base == Drop(Drop(d, PublicTrustRegion), TrustRegion)
    requires var public, legacy := Section(d, PublicTrustRegion), Section(d, TrustRegion);
      (public == map[] || legacy == map[]) && t == if public != map[] then public else legacy
    ensures Onward(d, 9, n) <==> Flat(base) && !Backward(TrustRegion, t, n)
  {
    EmptySends(TrustRegion, n);
    forall k | k in d && IsSection(k) && d[k].Table?
      ensures k in base || k == PublicTrustRegion || k == TrustRegion
      ensures k in base ==> base[k] == d[k] && Rank(k) < 9
    {
    }
    if Onward(d, 9, n) {
      forall k | k in base && IsSection(k) ensures !base[k].Table? {
        assert d[k] == base[k];
      }
    }
  }

  lemma TrustRegionOnward(d: Document, n: nat)
    requires LowerTrustRegion(d).Some?
    ensures Onward(d, 9, n) <==> Flat(LowerTrustRegion(d).value)
  {
    var r := LowerTrustRegion(d).value;
    var public, legacy := Section(d, PublicTrustRegion), Section(d, TrustRegion);
    var t := if public != map[] then public else legacy;
    var base := Drop(Drop(d, PublicTrustRegion), TrustRegion);
    LastSplits(d, base, t, n);
    if Onward(d, 9, n) {
      TrustRegionForward(base, PlanOf(TrustRegion, t), n, r);
    }
    if Flat(r) {
      TrustRegionBack(base, PlanOf(TrustRegion, t), n, r);
    }
  }

  // Lowering the result again changes nothing exactly when no section of the document sends a table
  // backward; n is any bound on how deep its sections nest.
  lemma TwiceIsOnce(d: Document, n: nat, r: Document)
    requires Deep(d, n) && n > 0 && Lower(d) == Some(r)
    ensures Lower(r) == Some(r) <==> Onward(d, 0, n)
  {
    SectionsRanked();
    assert SECTIONS[0..] == SECTIONS;
    TwiceIn(d, SECTIONS, n, r);
    FixedPoints(r);
  }

  lemma TwiceIn(d: Document, sections: seq<Key>, n: nat, r: Document)
    requires Ranked(sections) && Deep(d, n) && n > 0 && LowerWith(d, sections) == Some(r)
    ensures Flat(r) <==> Onward(d, 0, n)
  {
    assert sections[0..] == sections;
    SectionsOnward(d, sections, 0, n);
    TrustRegionOnward(LowerSections(d, sections).value, n);
  }

  // Such a bound always exists.
  lemma SomeBound(d: Document) returns (n: nat)
    ensures n > 0 && Deep(d, n)
  {
    n := SomeDepth(Table(d));
    forall k | k in d && IsSection(k) ensures Below(d[k], n) {
      BelowGrows(d[k], n - 1, n);
    }
  }

  // ---------------------------------------------------------------- documents that are ready in one pass

  predicate Leaves(t: Document) {
    Tables(t) == {}
  }

  // Section fields are scalars or lists, apart from the table that selects a primitive, whose own
  // fields are, and the reliability table.
  predicate Simple(section: Key, t: Document) {
    forall k :: k in Tables(t) ==>
      match section
      case Perturbation => k != Distribution
      case Acquisition => k != Method && Leaves(t[k].fields)
      case Surrogate =>
        k != Method && k != FitCandidates && k != FitSamples && Fits(t[k].fields)
      case TrustRegion => k == Reliability || (k != Method && Leaves(t[k].fields))
      case _ => false
  }

  predicate Fits(fields: Document) {
    forall k :: k in Tables(fields) ==> k == Fit && Leaves(fields[k].fields)
  }

  ghost predicate Domain(d: Document) {
    forall k :: k in d && IsSection(k) && d[k].Table? ==> Simple(Spelled(k), d[k].fields)
  }

  // Moves no table under a section's name.
  ghost predicate Tame(plan: Plan) {
    plan.Some? ==>
      forall j, k :: 0 <= j < |plan.value| && k in plan.value[j] && plan.value[j][k].Table? ==> !IsSection(k)
  }

  lemma PlanTame(section: Key, t: Document)
    requires Simple(section, t)
    ensures Tame(PlanOf(section, t))
  {
    assert forall k :: k in t ==> (t[k].Table? <==> k in Tables(t));
    match section
    case Perturbation => PerturbationTame(t);
    case Acquisition => AcquisitionTame(t);
    case Surrogate => SurrogateTame(t);
    case TrustRegion => TrustRegionTame(t);
    case _ =>
  }

  lemma PerturbationTame(t: Document)
    requires Simple(Perturbation, t)
    ensures Tame(PlanPerturbation(t))
  {
    assert forall k :: k in t ==> (t[k].Table? <==> k in Tables(t));
    var rest := Without(t, {Distribution});
    assert forall k :: k in rest ==> (rest[k].Table? <==> k in Tables(rest));
  }

  lemma AcquisitionTame(t: Document)
    requires Simple(Acquisition, t)
    ensures Tame(PlanAcquisition(t))
  {
    assert forall k :: k in t ==> (t[k].Table? <==> k in Tables(t));
    var rest := Without(t, {Method});
    assert forall k :: k in rest ==> (rest[k].Table? <==> k in Tables(rest));
    SelectTame(t, rest);
  }

  lemma JoinedTame(a: Plan, b: Plan)
    requires Tame(a) && Tame(b)
    ensures Tame(Joined(a, b))
  {
  }

  lemma ShapeTame(t: Document)
    requires forall k :: k in t ==> !t[k].Table?
    ensures Tame(PlanShape(t))
  {
  }

  lemma KindTame(t: Document)
    requires forall k :: k in t ==> !t[k].Table?
    ensures Tame(PlanKind(t))
  {
  }

  lemma TrustRegionTame(t: Document)
    requires Simple(TrustRegion, t)
    ensures Tame(PlanTrustRegion(t))
  {
    var rest := Without(t, {Reliability, Method});
    TrustRegionRest(t, rest);
    match Select(rest)
    case Primitive(name, fields) =>
      var left := Without(rest, {name});
      ShapeTame(left);
      var head := [Renamed(t, Reliability, ReliabilityController), Renamed(t, Method, TrustRegionKind)];
      var chosen := [map[TrustRegionKind := Name(Normalized(name))],
                     Renamed(fields, Shape, TrustRegionShape), Without(fields, {Shape})];
      JoinedTame(Some(head + chosen), PlanShape(left));
    case Nothing =>
      ShapeTame(rest);
    case Ambiguous =>
  }

  lemma TrustRegionRest(t: Document, rest: Document)
    requires Simple(TrustRegion, t) && rest == Without(t, {Reliability, Method})
    ensures Method in t ==> !t[Method].Table?
    ensures forall k :: k in rest && rest[k].Table? ==> k in Tables(rest)
    ensures Select(rest).Primitive? ==> forall k :: k in Select(rest).fields ==> !Select(rest).fields[k].Table?
  {
    assert forall k :: k in t ==> (t[k].Table? <==> k in Tables(t));
    assert forall k :: k in rest ==> (rest[k].Table? <==> k in Tables(rest));
    SelectTame(t, rest);
  }

  lemma SelectTame(t: Document, rest: Document)
    requires forall k :: k in rest ==> k in t && rest[k] == t[k]
    requires forall k :: k in Tables(rest) ==> Leaves(t[k].fields)
    ensures Select(rest).Primitive? ==> forall k :: k in Select(rest).fields ==> !Select(rest).fields[k].Table?
  {
    var s := Select(rest);
    if s.Primitive? {
      assert s.name in Tables(rest);
      assert forall k :: k in s.fields ==> (s.fields[k].Table? <==> k in Tables(s.fields));
    }
  }

  lemma SurrogateTame(t: Document)
    requires Simple(Surrogate, t)
    ensures Tame(PlanSurrogate(t))
  {
    var rest := Without(t, {Method, FitCandidates, FitSamples});
    var head := [Renamed(t, FitCandidates, NumCandidates), Renamed(t, FitSamples, NumSamples)];
    SurrogateRest(t, rest);
    assert Tame(Some(head));
    match Select(rest)
    case Primitive(name, fields) =>
      FitTame(fields);
      KindTame(Without(rest, {name}));
      JoinedTame(Some(head), PlanFit(fields));
      JoinedTame(Joined(Some(head), PlanFit(fields)), PlanKind(Without(rest, {name})));
    case Nothing =>
      KindTame(rest);
      JoinedTame(Some(head), PlanKind(rest));
    case Ambiguous =>
  }

  lemma SurrogateRest(t: Document, rest: Document)
    requires Simple(Surrogate, t) && rest == Without(t, {Method, FitCandidates, FitSamples})
    ensures FitCandidates in t ==> !t[FitCandidates].Table?
    ensures FitSamples in t ==> !t[FitSamples].Table?
    ensures forall k :: k in rest && rest[k].Table? ==> k in Tables(rest)
    ensures Select(rest).Primitive? ==> Fits(Select(rest).fields)
  {
    assert forall k :: k in t ==> (t[k].Table? <==> k in Tables(t));
    var s := Select(rest);
    if s.Primitive? {
      assert s.name in Tables(rest) && s.name in Tables(t);
    }
  }

  lemma FitTame(fields: Document)
    requires Fits(fields)
    ensures Tame(PlanFit(fields))
  {
    assert forall k :: k in fields ==> (fields[k].Table? <==> k in Tables(fields));
    if Fit in fields && fields[Fit].Table? {
      var fit := fields[Fit].fields;
      assert forall k :: k in fit ==> (fit[k].Table? <==> k in Tables(fit));
    }
  }

  lemma TameSendsNothing(section: Key, plan: Plan, n: nat)
    requires Tame(plan)
    ensures !PlanSends(section, plan, n)
  {
  }

  // Nothing such a document moves can be sent backward, so lowering it twice is lowering it once.
  lemma LoweringTwice(d: Document, r: Document)
    requires Domain(d) && Lower(d) == Some(r)
    ensures Lower(r) == Some(r)
  {
    var n := SomeBound(d);
    forall k | k in d && IsSection(k) && d[k].Table? ensures Waits(k, d[k].fields, 0, n) {
      PlanTame(Spelled(k), d[k].fields);
      TameSendsNothing(Spelled(k), PlanOf(Spelled(k), d[k].fields), n);
    }
    TwiceIsOnce(d, n, r);
  }

  // One that does send backward: a section's table inside a later section survives the first pass.
  lemma NestedSectionSurvives(field: Document)
    requires field != map[]
    ensures var e: Document := map[Pretrain := Table(field)];
      Lower(map[Study := Table(e)]) == Some(e) && Lower(e) != Some(e)
  {
    var e: Document := map[Pretrain := Table(field)];
    assert Pretrain in e && IsSection(Pretrain) && e[Pretrain].Table?;
    FixedPoints(e);
    NestedPass(e, SECTIONS, SECTIONS[2..]);
  }

  lemma NestedPass(e: Document, sections: seq<Key>, late: seq<Key>)
    requires sections == [Pretrain, Study] + late && Pretrain !in late && Kind !in e
    requires forall k :: k in e ==> k == Pretrain
    ensures LowerWith(map[Study := Table(e)], sections) == Some(e)
  {
    var d: Document := map[Study := Table(e)];
    assert sections[1..] == [Study] + late;
    EmptyPlan(Pretrain, d);
    StudyStep(e, late);
    SkipSections(e, late);
    EmptyPlan(TrustRegion, e);
  }

  lemma StudyStep(e: Document, late: seq<Key>)
    requires Kind !in e
    ensures LowerSections(map[Study := Table(e)], [Study] + late) == LowerSections(e, late)
  {
    var d: Document := map[Study := Table(e)];
    assert Without(e, {Kind}) == e && Drop(d, Study) == map[] && Section(d, Study) == e;
    var empty: Document := map[];
    assert MoveAll(empty, [empty, e]) == Some(e) by {
      assert empty + empty == empty && empty + e == e;
      assert [empty, e][1..] == [e] && [e][1..] == [];
      assert MoveAll(empty, [empty, e]) == MoveAll(empty, [e]) == MoveAll(e, []);
    }
    assert ([Study] + late)[1..] == late;
  }
}
