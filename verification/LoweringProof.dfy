// What lowering keeps: fields land on free keys or not at all, sections only get shallower, and flat
// documents are exactly the fixed points.

module LoweringProof {
  import opened Wrappers
  import opened Lowering

  predicate IsSection(k: Key) {
    || k.Pretrain? || k.Study? || k.Rounds? || k.Experiment? || k.Objective? || k.Perturbation? || k.Proposal?
    || k.Acquisition? || k.Surrogate? || k.PublicTrustRegion? || k.TrustRegion?
  }

  // An order that visits every section but the trust region.
  ghost predicate Complete(sections: seq<Key>) {
    && (forall s :: s in sections ==> IsSection(s))
    && (forall k :: IsSection(k) && k != PublicTrustRegion && k != TrustRegion ==> k in sections)
  }

  lemma SectionsComplete()
    ensures Complete(SECTIONS)
  {
  }

  // No section is left as a table.
  ghost predicate Flat(d: Document) {
    forall k :: k in d && IsSection(k) ==> !d[k].Table?
  }

  // ---------------------------------------------------------------- moving

  // Every group is in the result unchanged, none meets another or the document it lands in.
  lemma {:induction false} MoveAllParts(d: Document, groups: seq<Document>)
    requires MoveAll(d, groups).Some?
    ensures var r := MoveAll(d, groups).value;
      && d.Keys <= r.Keys && (forall k :: k in d ==> r[k] == d[k])
      && (forall j, k :: 0 <= j < |groups| && k in groups[j] ==> k in r && r[k] == groups[j][k] && k !in d)
      && (forall i, j, k :: 0 <= i < j < |groups| && k in groups[i] ==> k !in groups[j])
    decreases |groups|
  {
    if groups != [] {
      var next := Move(d, groups[0]).value;
      MoveAllParts(next, groups[1..]);
      var rest := groups[1..];
      forall j, k | 0 <= j < |groups| && k in groups[j]
        ensures k in MoveAll(d, groups).value && MoveAll(d, groups).value[k] == groups[j][k] && k !in d
      {
        if j == 0 {
          assert k in next && next[k] == groups[0][k];
        } else {
          assert k in rest[j - 1];
        }
      }
      forall i, j, k | 0 <= i < j < |groups| && k in groups[i] ensures k !in groups[j] {
        assert groups[j] == rest[j - 1];
        if i == 0 {
          assert k in next;
        } else {
          assert groups[i] == rest[i - 1];
        }
      }
    }
  }

  // Nothing else is in the result.
  lemma {:induction false} MoveAllOnly(d: Document, groups: seq<Document>, k: Key)
    requires MoveAll(d, groups).Some? && k in MoveAll(d, groups).value
    ensures k in d || exists j :: 0 <= j < |groups| && k in groups[j]
    decreases |groups|
  {
    if groups != [] && k !in d {
      var next := Move(d, groups[0]).value;
      MoveAllOnly(next, groups[1..], k);
      if k !in groups[0] {
        var j :| 0 <= j < |groups[1..]| && k in groups[1..][j];
        assert k in groups[j + 1];
      }
    }
  }

  lemma {:induction false} MoveNothing(d: Document, groups: seq<Document>)
    requires forall j :: 0 <= j < |groups| ==> groups[j] == map[]
    ensures MoveAll(d, groups) == Some(d)
    decreases |groups|
  {
    if groups != [] {
      assert d + map[] == d;
      MoveNothing(d, groups[1..]);
    }
  }

  // ---------------------------------------------------------------- depth

  // Tables nest at most n deep.
  ghost predicate Below(v: Value, n: int)
    decreases n
  {
    v.Table? ==> n > 0 && forall k :: k in v.fields ==> Below(v.fields[k], n - 1)
  }

  ghost predicate AllBelow(t: Document, n: int) {
    forall k :: k in t ==> Below(t[k], n)
  }

  lemma {:induction false} BelowGrows(v: Value, n: int, m: int)
    requires Below(v, n) && n <= m
    ensures Below(v, m)
    decreases n
  {
    if v.Table? {
      forall k | k in v.fields ensures Below(v.fields[k], m - 1) {
        BelowGrows(v.fields[k], n - 1, m - 1);
      }
    }
  }

  lemma AllBelowGrows(t: Document, n: int, m: int)
    requires AllBelow(t, n) && n <= m
    ensures AllBelow(t, m)
  {
    forall k | k in t ensures Below(t[k], m) {
      BelowGrows(t[k], n, m);
    }
  }

  ghost predicate GroupsBelow(plan: Plan, n: int) {
    plan.Some? ==> forall j :: 0 <= j < |plan.value| ==> AllBelow(plan.value[j], n)
  }

  lemma SelectBelow(t: Document, n: int)
    requires AllBelow(t, n)
    ensures Select(t).Primitive? ==> n > 0 && AllBelow(Select(t).fields, n - 1) && AllBelow(Select(t).fields, n)
  {
    if Select(t).Primitive? {
      var name := Select(t).name;
      assert name in Tables(t) && Below(t[name], n);
      AllBelowGrows(Select(t).fields, n - 1, n);
    }
  }

  // A plan moves nothing deeper than the fields it is made from.
  lemma PlanBelow(section: Key, t: Document, n: int)
    requires AllBelow(t, n)
    ensures GroupsBelow(PlanOf(section, t), n)
  {
    match section
    case Perturbation => PerturbationBelow(t, n);
    case Acquisition => AcquisitionBelow(t, n);
    case Surrogate => SurrogateBelow(t, n);
    case TrustRegion => TrustRegionBelow(t, n);
    case _ =>
  }

  lemma PerturbationBelow(t: Document, n: int)
    requires AllBelow(t, n)
    ensures GroupsBelow(PlanPerturbation(t), n)
  {
    SelectBelow(Without(t, {Distribution}), n);
  }

  lemma AcquisitionBelow(t: Document, n: int)
    requires AllBelow(t, n)
    ensures GroupsBelow(PlanAcquisition(t), n)
  {
    SelectBelow(Without(t, {Method}), n);
  }

  lemma TrustRegionBelow(t: Document, n: int)
    requires AllBelow(t, n)
    ensures GroupsBelow(PlanTrustRegion(t), n)
  {
    SelectBelow(Without(t, {Reliability, Method}), n);
  }

  lemma JoinedBelow(a: Plan, b: Plan, n: int)
    requires GroupsBelow(a, n) && GroupsBelow(b, n)
    ensures GroupsBelow(Joined(a, b), n)
  {
  }

  lemma KindBelow(t: Document, n: int)
    requires AllBelow(t, n)
    ensures GroupsBelow(PlanKind(t), n)
  {
  }

  lemma SurrogateBelow(t: Document, n: int)
    requires AllBelow(t, n)
    ensures GroupsBelow(PlanSurrogate(t), n)
  {
    var head := [Renamed(t, FitCandidates, NumCandidates), Renamed(t, FitSamples, NumSamples)];
    var rest := Without(t, {Method, FitCandidates, FitSamples});
    SelectBelow(rest, n);
    assert GroupsBelow(Some(head), n);
    match Select(rest)
    case Primitive(name, fields) =>
      FitBelow(fields, n);
      KindBelow(Without(rest, {name}), n);
      JoinedBelow(Some(head), PlanFit(fields), n);
      JoinedBelow(Joined(Some(head), PlanFit(fields)), PlanKind(Without(rest, {name})), n);
    case Nothing =>
      KindBelow(rest, n);
      JoinedBelow(Some(head), PlanKind(rest), n);
    case Ambiguous =>
  }

  lemma FitBelow(fields: Document, n: int)
    requires AllBelow(fields, n)
    ensures GroupsBelow(PlanFit(fields), n)
  {
    if Fit in fields && fields[Fit].Table? {
      assert Below(fields[Fit], n);
      AllBelowGrows(fields[Fit].fields, n - 1, n);
    }
  }

  // ---------------------------------------------------------------- fixed points

  // Section tables nest at most n deep.
  ghost predicate Deep(d: Document, n: int) {
    forall k :: k in d && IsSection(k) ==> Below(d[k], n)
  }

  // What is at k is less deep than that.
  ghost predicate Worn(d: Document, k: Key, n: int) {
    k in d ==> Below(d[k], n - 1)
  }

  lemma SectionBelow(d: Document, section: Key, n: int)
    requires Deep(d, n) && IsSection(section)
    ensures AllBelow(Section(d, section), n - 1)
  {
  }

  // Landing shallow fields on a document keeps what is known of it.
  lemma LandKeeps(d: Document, plan: Plan, n: int)
    requires Land(d, plan).Some? && Deep(d, n) && GroupsBelow(plan, n - 1)
    ensures Deep(Land(d, plan).value, n)
    ensures forall k :: Worn(d, k, n) ==> Worn(Land(d, plan).value, k, n)
  {
    var r := Land(d, plan).value;
    MoveAllParts(d, plan.value);
    forall k | k in r ensures (k in d && r[k] == d[k]) || Below(r[k], n - 1) {
      MoveAllOnly(d, plan.value, k);
    }
    forall k | k in r && IsSection(k) ensures Below(r[k], n) {
      if !(k in d && r[k] == d[k]) {
        BelowGrows(r[k], n - 1, n);
      }
    }
    forall k | Worn(d, k, n) ensures Worn(r, k, n) {
    }
  }

  lemma DropWorn(d: Document, section: Key, n: int)
    requires Deep(d, n) && IsSection(section)
    ensures Deep(Drop(d, section), n) && Worn(Drop(d, section), section, n)
    ensures forall k :: Worn(d, k, n) ==> Worn(Drop(d, section), k, n)
  {
  }

  lemma {:induction false} SectionsWear(d: Document, sections: seq<Key>, n: int)
    requires Deep(d, n) && LowerSections(d, sections).Some? && forall s :: s in sections ==> IsSection(s)
    ensures Deep(LowerSections(d, sections).value, n)
    ensures forall k :: Worn(d, k, n) || k in sections ==> Worn(LowerSections(d, sections).value, k, n)
    decreases |sections|
  {
    if sections != [] {
      var s := sections[0];
      var plan := PlanOf(s, Section(d, s));
      SectionBelow(d, s, n);
      PlanBelow(s, Section(d, s), n - 1);
      DropWorn(d, s, n);
      LandKeeps(Drop(d, s), plan, n);
      SectionsWear(Land(Drop(d, s), plan).value, sections[1..], n);
      assert sections == [s] + sections[1..];
    }
  }

  lemma TrustRegionWears(d: Document, n: int)
    requires Deep(d, n) && LowerTrustRegion(d).Some?
    ensures forall k :: Worn(d, k, n) || k == PublicTrustRegion || k == TrustRegion ==>
      Worn(LowerTrustRegion(d).value, k, n)
  {
    var public, legacy := Section(d, PublicTrustRegion), Section(d, TrustRegion);
    var t := if public != map[] then public else legacy;
    SectionBelow(d, PublicTrustRegion, n);
    SectionBelow(d, TrustRegion, n);
    PlanBelow(TrustRegion, t, n - 1);
    var once := Drop(d, PublicTrustRegion);
    DropWorn(d, PublicTrustRegion, n);
    DropWorn(once, TrustRegion, n);
    LandKeeps(Drop(once, TrustRegion), PlanOf(TrustRegion, t), n);
  }

  // One pass makes every section shallower.
  lemma LowerWears(d: Document, sections: seq<Key>, n: int, k: Key)
    requires Complete(sections) && Deep(d, n) && LowerWith(d, sections).Some? && IsSection(k)
    ensures Worn(LowerWith(d, sections).value, k, n)
  {
    SectionsWear(d, sections, n);
    TrustRegionWears(LowerSections(d, sections).value, n);
  }

  lemma {:induction false} SomeDepth(v: Value) returns (n: nat)
    ensures Below(v, n)
    decreases v, 1, 0
  {
    n := 0;
    if v.Table? {
      var m := FieldsDepth(v, v.fields.Keys);
      n := m + 1;
    }
  }

  lemma {:induction false} FieldsDepth(v: Value, keys: set<Key>) returns (n: nat)
    requires v.Table? && keys <= v.fields.Keys
    ensures forall k :: k in keys ==> Below(v.fields[k], n)
    decreases v, 0, |keys|
  {
    n := 0;
    if keys != {} {
      var key :| key in keys;
      var m := FieldsDepth(v, keys - {key});
      var own := SomeDepth(v.fields[key]);
      n := m + own;
      forall k | k in keys ensures Below(v.fields[k], n) {
        BelowGrows(v.fields[k], if k == key then own else m, n);
      }
    }
  }

  lemma {:induction false} LeastDepth(d: Document, n: nat) returns (m: nat)
    requires Deep(d, n)
    ensures Deep(d, m) && (m > 0 ==> !Deep(d, m - 1))
    decreases n
  {
    m := n;
    if n > 0 && Deep(d, n - 1) {
      m := LeastDepth(d, n - 1);
    }
  }

  // Sections that are not tables are passed over.
  lemma {:induction false} SkipSections(d: Document, sections: seq<Key>)
    requires forall s :: s in sections && s in d ==> !d[s].Table?
    ensures LowerSections(d, sections) == Some(d)
    decreases |sections|
  {
    if sections != [] {
      assert sections[0] in sections;
      EmptyPlan(sections[0], d);
      SkipSections(d, sections[1..]);
    }
  }

  lemma EmptyGroups(section: Key)
    ensures PlanOf(section, map[]).Some?
    ensures forall j :: 0 <= j < |PlanOf(section, map[]).value| ==> PlanOf(section, map[]).value[j] == map[]
  {
    assert forall keys: set<Key> :: Without(map[], keys) == map[];
  }

  lemma EmptyPlan(section: Key, d: Document)
    ensures Land(d, PlanOf(section, map[])) == Some(d)
  {
    EmptyGroups(section);
    MoveNothing(d, PlanOf(section, map[]).value);
  }

  lemma FlatIsFixed(d: Document, sections: seq<Key>)
    requires Flat(d) && Complete(sections)
    ensures LowerWith(d, sections) == Some(d)
  {
    SkipSections(d, sections);
    EmptyPlan(TrustRegion, d);
    assert Section(d, PublicTrustRegion) == map[] && Section(d, TrustRegion) == map[];
  }

  lemma FixedIsFlat(d: Document, sections: seq<Key>)
    requires LowerWith(d, sections) == Some(d) && Complete(sections)
    ensures Flat(d)
  {
    var depth := SomeDepth(Table(d));
    forall k | k in d && IsSection(k) ensures Below(d[k], depth) {
      BelowGrows(d[k], depth - 1, depth);
    }
    var n := LeastDepth(d, depth);
    if n > 0 {
      var k :| k in d && IsSection(k) && !Below(d[k], n - 1);
      LowerWears(d, sections, n, k);
    }
  }

  // The fixed points of lowering are exactly the flat documents.
  lemma FixedPoints(d: Document)
    ensures Lower(d) == Some(d) <==> Flat(d)
  {
    SectionsComplete();
    if Flat(d) {
      FlatIsFixed(d, SECTIONS);
    }
    if Lower(d) == Some(d) {
      FixedIsFlat(d, SECTIONS);
    }
  }
}
