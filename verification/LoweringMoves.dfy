// A lowered document as what lay outside the sections, together with everything the sections move.

module LoweringMoves {
  import opened Wrappers
  import opened Lowering
  import opened LoweringProof
  import opened Relowering

  // ---------------------------------------------------------------- documents without moved sections

  // No section moves a table under a section's name.
  ghost predicate Calm(d: Document) {
    forall k :: k in d && IsSection(k) && d[k].Table? ==> Tame(PlanOf(Spelled(k), d[k].fields))
  }

  // In particular where section fields are scalars or lists beyond the permitted subtable.
  lemma DomainIsCalm(d: Document)
    requires Domain(d)
    ensures Calm(d)
  {
    forall k | k in d && IsSection(k) && d[k].Table? ensures Tame(PlanOf(Spelled(k), d[k].fields)) {
      PlanTame(Spelled(k), d[k].fields);
    }
  }

  // So no section becomes a table by landing.
  lemma LandTame(d: Document, plan: Plan)
    requires Land(d, plan).Some? && Tame(plan)
    ensures var r := Land(d, plan).value;
      forall k :: k in r && IsSection(k) && r[k].Table? ==> k in d && r[k] == d[k]
  {
    var r := Land(d, plan).value;
    MoveAllParts(d, plan.value);
    forall k | k in r && IsSection(k) && r[k].Table? ensures k in d && r[k] == d[k] {
      MoveAllOnly(d, plan.value, k);
    }
  }

  lemma SectionTame(d: Document, s: Key)
    requires Calm(d) && IsSection(s)
    ensures Tame(PlanOf(Spelled(s), Section(d, s)))
  {
    if Section(d, s) == map[] {
      PlanTame(Spelled(s), map[]);
    }
  }

  // ---------------------------------------------------------------- where every field lands

  // The document without the given sections' tables.
  function DropAll(d: Document, sections: seq<Key>): Document {
    map k | k in d && !(k in sections && d[k].Table?) :: d[k]
  }

  // Everything the sections of d move, in order.
  function Trail(d: Document, sections: seq<Key>): seq<Document>
    decreases |sections|
  {
    if sections == [] then []
    else
      var plan := PlanOf(sections[0], Section(d, sections[0]));
      (if plan.None? then [] else plan.value) + Trail(d, sections[1..])
  }

  lemma {:induction false} MoveAllConcat(d: Document, a: seq<Document>, b: seq<Document>)
    ensures MoveAll(d, a + b) ==
      if MoveAll(d, a).None? then None else MoveAll(MoveAll(d, a).value, b)
    decreases |a|
  {
    if a == [] {
      assert a + b == b;
    } else {
      assert (a + b)[1..] == a[1..] + b;
      if Move(d, a[0]).Some? {
        MoveAllConcat(Move(d, a[0]).value, a[1..], b);
      }
    }
  }

  // Groups that land beside some fields land without them, too.
  lemma {:induction false} MoveAllDrops(d: Document, groups: seq<Document>, sections: seq<Key>)
    requires MoveAll(d, groups).Some?
    requires forall k :: k in MoveAll(d, groups).value && k in sections && MoveAll(d, groups).value[k].Table? ==> k in d
    ensures MoveAll(DropAll(d, sections), groups) == Some(DropAll(MoveAll(d, groups).value, sections))
    decreases |groups|
  {
    if groups != [] {
      var next, r := Move(d, groups[0]).value, MoveAll(d, groups).value;
      MoveAllParts(next, groups[1..]);
      var dropped := DropAll(d, sections);
      assert dropped + groups[0] == DropAll(next, sections) by {
        forall k | k in groups[0] ensures !(k in sections && groups[0][k].Table?) {
          assert k in next && r[k] == groups[0][k];
        }
      }
      MoveAllDrops(next, groups[1..], sections);
    }
  }

  lemma {:induction false} SameTrail(d: Document, e: Document, sections: seq<Key>)
    requires forall s :: s in sections ==> Section(d, s) == Section(e, s)
    ensures Trail(d, sections) == Trail(e, sections)
    decreases |sections|
  {
    if sections != [] {
      assert sections[0] in sections;
      SameTrail(d, e, sections[1..]);
    }
  }

  lemma StaysCalm(d: Document, s: Key, plan: Plan)
    requires Calm(d) && Tame(plan) && Land(Drop(d, s), plan).Some?
    ensures Calm(Land(Drop(d, s), plan).value)
  {
    var next := Land(Drop(d, s), plan).value;
    LandTame(Drop(d, s), plan);
    forall k | k in next && IsSection(k) && next[k].Table? ensures k in d && next[k] == d[k] {
    }
  }

  // Landing leaves the tables of the other sections alone.
  lemma OthersKeep(d: Document, s: Key, rest: seq<Key>, plan: Plan)
    requires Tame(plan) && Land(Drop(d, s), plan).Some? && s !in rest && forall k :: k in rest ==> IsSection(k)
    ensures forall k :: k in rest ==> Section(Land(Drop(d, s), plan).value, k) == Section(d, k)
  {
    var lone := Drop(d, s);
    var next := Land(lone, plan).value;
    LandTame(lone, plan);
    MoveAllParts(lone, plan.value);
    forall k | k in rest ensures Section(next, k) == Section(d, k) {
      assert k != s;
      if k in d {
        assert k in lone && next[k] == d[k];
      }
    }
  }

  // One section's step, with the tables of the rest dropped before it.
  lemma DropFirst(d: Document, s: Key, rest: seq<Key>, plan: Plan)
    requires Tame(plan) && Land(Drop(d, s), plan).Some?
    requires s !in rest && forall k :: k in rest ==> IsSection(k)
    ensures var next := Land(Drop(d, s), plan).value;
      && MoveAll(DropAll(d, [s] + rest), plan.value) == Some(DropAll(next, rest))
      && Trail(next, rest) == Trail(d, rest)
      && forall k :: k in rest ==> Section(next, k) == Section(d, k)
  {
    var lone := Drop(d, s);
    LandTame(lone, plan);
    MoveAllDrops(lone, plan.value, rest);
    assert DropAll(lone, rest) == DropAll(d, [s] + rest);
    OthersKeep(d, s, rest, plan);
    SameTrail(Land(lone, plan).value, d, rest);
  }

  // Section by section, or all tables dropped first and everything moved at once.
  lemma {:induction false} SectionsTrail(d: Document, sections: seq<Key>)
    requires Calm(d) && LowerSections(d, sections).Some?
    requires forall s :: s in sections ==> IsSection(s) && s != PublicTrustRegion && s != TrustRegion
    requires forall i, j :: 0 <= i < j < |sections| ==> sections[i] != sections[j]
    ensures MoveAll(DropAll(d, sections), Trail(d, sections)) == LowerSections(d, sections)
    ensures Tame(Some(Trail(d, sections)))
    ensures forall s :: s in sections ==> PlanOf(s, Section(d, s)).Some?
    decreases |sections|
  {
    if sections == [] {
      assert DropAll(d, sections) == d;
    } else {
      var s, rest := sections[0], sections[1..];
      assert sections == [s] + rest;
      var plan := PlanOf(s, Section(d, s));
      SectionTame(d, s);
      StaysCalm(d, s, plan);
      var next := Land(Drop(d, s), plan).value;
      forall x | x in rest ensures x in sections {
      }
      SectionsTrail(next, rest);
      DropFirst(d, s, rest, plan);
      MoveAllConcat(DropAll(d, sections), plan.value, Trail(d, rest));
      JoinedTame(plan, Some(Trail(d, rest)));
    }
  }

  // All the plans of a document, the trust region's last.
  function Moves(d: Document, sections: seq<Key>): seq<Document> {
    var plan := PlanOf(TrustRegion, TrustRegionTable(d));
    Trail(d, sections) + (if plan.None? then [] else plan.value)
  }

  // Fields that are under no section.
  function Untouched(d: Document, sections: seq<Key>): Document {
    DropAll(DropAll(d, sections), [PublicTrustRegion, TrustRegion])
  }

  lemma StaysInPlace(d: Document, sections: seq<Key>, base: Document, trail: seq<Document>, e: Document, k: Key)
    requires base == DropAll(d, sections) && MoveAll(base, trail) == Some(e) && k !in sections
    requires Tame(Some(trail)) && IsSection(k)
    ensures Section(e, k) == Section(d, k) && (k in e && e[k].Table? ==> k in base)
  {
    MoveAllParts(base, trail);
    if k in e {
      MoveAllOnly(base, trail, k);
    }
  }

  // The trust region's table, under whichever spelling has one.
  function TrustRegionTable(d: Document): Document {
    var public := Section(d, PublicTrustRegion);
    if public != map[] then public else Section(d, TrustRegion)
  }

  // The sections leave the trust region's table alone.
  lemma TrustRegionWaits(d: Document, sections: seq<Key>, e: Document)
    requires Calm(d) && Ranked(sections) && LowerSections(d, sections) == Some(e)
    ensures MoveAll(DropAll(d, sections), Trail(d, sections)) == Some(e)
    ensures forall k :: k == PublicTrustRegion || k == TrustRegion ==>
      Section(e, k) == Section(d, k) && (k in e && e[k].Table? ==> k in DropAll(d, sections))
    ensures forall s :: s in sections ==> PlanOf(s, Section(d, s)).Some?
  {
    assert Rank(PublicTrustRegion) == Rank(TrustRegion) == 9;
    SectionsTrail(d, sections);
    StaysInPlace(d, sections, DropAll(d, sections), Trail(d, sections), e, PublicTrustRegion);
    StaysInPlace(d, sections, DropAll(d, sections), Trail(d, sections), e, TrustRegion);
  }

  // A lowered document is what was under no section, together with everything the sections move.
  lemma LowerIsMoves(d: Document, sections: seq<Key>)
    requires Calm(d) && Ranked(sections) && LowerWith(d, sections).Some?
    ensures MoveAll(Untouched(d, sections), Moves(d, sections)) == LowerWith(d, sections)
    ensures forall s :: s in sections ==> PlanOf(s, Section(d, s)).Some?
    ensures PlanOf(TrustRegion, TrustRegionTable(d)).Some?
    ensures Section(d, PublicTrustRegion) == map[] || Section(d, TrustRegion) == map[]
  {
    var e := LowerSections(d, sections).value;
    TrustRegionWaits(d, sections, e);
    TrustRegionMoves(d, sections, DropAll(d, sections), Trail(d, sections), e);
  }

  lemma TrustRegionMoves(d: Document, sections: seq<Key>, base: Document, trail: seq<Document>, e: Document)
    requires base == DropAll(d, sections) && trail == Trail(d, sections) && MoveAll(base, trail) == Some(e)
    requires LowerTrustRegion(e).Some?
    requires Section(e, PublicTrustRegion) == Section(d, PublicTrustRegion)
    requires Section(e, TrustRegion) == Section(d, TrustRegion)
    requires PublicTrustRegion in e && e[PublicTrustRegion].Table? ==> PublicTrustRegion in base
    requires TrustRegion in e && e[TrustRegion].Table? ==> TrustRegion in base
    ensures MoveAll(Untouched(d, sections), Moves(d, sections)) == LowerTrustRegion(e)
  {
    var trust := [PublicTrustRegion, TrustRegion];
    MoveAllDrops(base, trail, trust);
    assert DropAll(e, trust) == Drop(Drop(e, PublicTrustRegion), TrustRegion);
    var plan := PlanOf(TrustRegion, TrustRegionTable(d));
    MoveAllConcat(DropAll(base, trust), trail, plan.value);
  }

  // Every field of a lowered document comes from exactly one place, unchanged: from outside the
  // sections, or from one group of one section's plan.
  lemma OneOrigin(d: Document, sections: seq<Key>, r: Document)
    requires Calm(d) && Ranked(sections) && LowerWith(d, sections) == Some(r)
    ensures var kept, moves := Untouched(d, sections), Moves(d, sections);
      && (forall k :: k in kept ==> k in r && r[k] == kept[k])
      && (forall j, k :: 0 <= j < |moves| && k in moves[j] ==> k in r && r[k] == moves[j][k] && k !in kept)
      && (forall i, j, k :: 0 <= i < j < |moves| && k in moves[i] ==> k !in moves[j])
      && (forall k :: k in r ==> k in kept || exists j :: 0 <= j < |moves| && k in moves[j])
  {
    LowerIsMoves(d, sections);
    Origins(Untouched(d, sections), Moves(d, sections), r);
  }

  lemma Origins(kept: Document, moves: seq<Document>, r: Document)
    requires MoveAll(kept, moves) == Some(r)
    ensures forall k :: k in kept ==> k in r && r[k] == kept[k]
    ensures forall j, k :: 0 <= j < |moves| && k in moves[j] ==> k in r && r[k] == moves[j][k] && k !in kept
    ensures forall i, j, k :: 0 <= i < j < |moves| && k in moves[i] ==> k !in moves[j]
    ensures forall k :: k in r ==> k in kept || exists j :: 0 <= j < |moves| && k in moves[j]
  {
    MoveAllParts(kept, moves);
    forall k | k in r ensures k in kept || exists j :: 0 <= j < |moves| && k in moves[j] {
      MoveAllOnly(kept, moves, k);
    }
  }
}
