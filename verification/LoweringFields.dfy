// Where every field of a study configuration ends up: unchanged, under one top-level key.

module LoweringFields {
  import opened Wrappers
  import opened Lowering
  import opened LoweringProof
  import opened Relowering
  import opened LoweringMoves
  import opened SectionFields

  // ---------------------------------------------------------------- places among all moves

  // Sequences of groups, one after the other, and where each of them begins.
  function Flatten(parts: seq<seq<Document>>): seq<Document>
    decreases |parts|
  {
    if parts == [] then [] else parts[0] + Flatten(parts[1..])
  }

  function Offset(parts: seq<seq<Document>>, i: nat): nat
    requires i <= |parts|
    decreases |parts|
  {
    if i == 0 then 0 else |parts[0]| + Offset(parts[1..], i - 1)
  }

  lemma {:induction false} FlattenAt(parts: seq<seq<Document>>, i: nat)
    requires i < |parts|
    ensures Offset(parts, i + 1) == Offset(parts, i) + |parts[i]| <= |Flatten(parts)|
    ensures Flatten(parts)[Offset(parts, i)..Offset(parts, i + 1)] == parts[i]
    decreases |parts|
  {
    if i > 0 {
      FlattenAt(parts[1..], i - 1);
    }
  }

  lemma {:induction false} OffsetsGrow(parts: seq<seq<Document>>, i: nat, j: nat)
    requires i <= j <= |parts|
    ensures Offset(parts, i) <= Offset(parts, j)
    decreases |parts|
  {
    if i > 0 {
      OffsetsGrow(parts[1..], i - 1, j - 1);
    }
  }

  lemma {:induction false} FlattenOwner(parts: seq<seq<Document>>, p: nat) returns (i: nat, j: nat)
    requires p < |Flatten(parts)|
    ensures i < |parts| && j < |parts[i]| && Flatten(parts)[p] == parts[i][j]
    decreases |parts|
  {
    if p < |parts[0]| {
      i, j := 0, p;
    } else {
      i, j := FlattenOwner(parts[1..], p - |parts[0]|);
      i := i + 1;
    }
  }

  lemma {:induction false} FlattenConcat(parts: seq<seq<Document>>, last: seq<Document>)
    ensures Flatten(parts + [last]) == Flatten(parts) + last
    decreases |parts|
  {
    if parts != [] {
      assert (parts + [last])[1..] == parts[1..] + [last];
      FlattenConcat(parts[1..], last);
    }
  }

  // Two places never have a key in common, in groups that could all be moved.
  lemma PlacesApart(kept: Document, parts: seq<seq<Document>>, i: nat, j: nat, a: nat, b: nat, k: Key)
    requires MoveAll(kept, Flatten(parts)).Some? && i < |parts| && j < |parts[i]| && a < |parts| && b < |parts[a]|
    requires k in parts[i][j] && k in parts[a][b]
    ensures i == a && j == b
  {
    MoveAllParts(kept, Flatten(parts));
    PlaceIn(parts, i, j);
    PlaceIn(parts, a, b);
    if i < a {
      OffsetsGrow(parts, i + 1, a);
    } else if a < i {
      OffsetsGrow(parts, a + 1, i);
    }
  }

  lemma PlaceIn(parts: seq<seq<Document>>, i: nat, j: nat)
    requires i < |parts| && j < |parts[i]|
    ensures Offset(parts, i) + j < Offset(parts, i + 1) <= |Flatten(parts)|
    ensures Flatten(parts)[Offset(parts, i) + j] == parts[i][j]
  {
    FlattenAt(parts, i);
    assert Flatten(parts)[Offset(parts, i)..Offset(parts, i + 1)][j] == parts[i][j];
  }

  // What is at a place reaches the result, and nothing else does.
  lemma PlaceReaches(kept: Document, parts: seq<seq<Document>>, r: Document, i: nat, j: nat, l: Landing)
    requires MoveAll(kept, Flatten(parts)) == Some(r) && i < |parts| && LandsAt(parts[i], j, l)
    ensures l.key in r && r[l.key] == l.value && l.key !in kept
  {
    MoveAllParts(kept, Flatten(parts));
    PlaceIn(parts, i, j);
  }

  lemma PlaceOf(kept: Document, parts: seq<seq<Document>>, r: Document, k: Key) returns (i: nat, j: nat)
    requires MoveAll(kept, Flatten(parts)) == Some(r) && k in r && k !in kept
    ensures i < |parts| && LandsAt(parts[i], j, Landing(k, r[k]))
  {
    MoveAllOnly(kept, Flatten(parts), k);
    var p :| 0 <= p < |Flatten(parts)| && k in Flatten(parts)[p];
    i, j := FlattenOwner(parts, p);
    MoveAllParts(kept, Flatten(parts));
  }

  // ---------------------------------------------------------------- the moves of a document

  function Groups(plan: Plan): seq<Document> {
    if plan.None? then [] else plan.value
  }

  // What each section moves, by rank; the trust region's is last.
  function Parts(d: Document, sections: seq<Key>): seq<seq<Document>> {
    SectionParts(d, sections) + [Groups(PlanOf(TrustRegion, TrustRegionTable(d)))]
  }

  function SectionParts(d: Document, sections: seq<Key>): seq<seq<Document>> {
    seq(|sections|, i requires 0 <= i < |sections| => Groups(PlanOf(sections[i], Section(d, sections[i]))))
  }

  lemma {:induction false} TrailIsFlat(d: Document, sections: seq<Key>)
    ensures Trail(d, sections) == Flatten(SectionParts(d, sections))
    decreases |sections|
  {
    if sections != [] {
      TrailIsFlat(d, sections[1..]);
      assert SectionParts(d, sections)[1..] == SectionParts(d, sections[1..]);
    }
  }

  lemma LowerIsParts(d: Document, sections: seq<Key>, r: Document)
    requires Calm(d) && Ranked(sections) && LowerWith(d, sections) == Some(r)
    ensures MoveAll(Untouched(d, sections), Flatten(Parts(d, sections))) == Some(r)
  {
    LowerIsMoves(d, sections);
    TrailIsFlat(d, sections);
    FlattenConcat(SectionParts(d, sections), Groups(PlanOf(TrustRegion, TrustRegionTable(d))));
  }

  // ---------------------------------------------------------------- fields of the whole document

  // A field of a section of the document, and where it belongs.
  function FieldOf(d: Document, s: Key, o: Origin): Option<Landing> {
    if IsSection(s) then LandingOf(Spelled(s), Section(d, s), o) else None
  }

  // A section without fields has none to land.
  lemma NoLanding(section: Key, o: Origin)
    ensures LandingOf(section, map[], o) == None
  {
    assert forall keys: set<Key> :: Without(map[], keys) == map[];
  }

  // A table that belongs to the section at a rank.
  ghost predicate PartFor(d: Document, sections: seq<Key>, s: Key, groups: seq<Document>) {
    && IsSection(s) && Rank(s) < |Parts(d, sections)| && Parts(d, sections)[Rank(s)] == groups
    && PlanOf(Spelled(s), Section(d, s)) == Some(groups)
  }

  lemma PartOf(d: Document, sections: seq<Key>, r: Document, s: Key)
    requires Calm(d) && Ranked(sections) && LowerWith(d, sections) == Some(r) && IsSection(s)
    requires Section(d, s) != map[] || (s != PublicTrustRegion && s != TrustRegion)
    ensures exists groups :: PartFor(d, sections, s, groups)
  {
    LowerIsMoves(d, sections);
    if Rank(s) < 9 {
      assert s in sections && sections[Rank(s)] == s;
    } else {
      assert Section(d, s) == TrustRegionTable(d);
    }
    assert PartFor(d, sections, s, Parts(d, sections)[Rank(s)]);
  }

  // A field is at its section's rank, in its spot of the plan.
  lemma FieldIn(d: Document, sections: seq<Key>, r: Document, s: Key, o: Origin) returns (groups: seq<Document>)
    requires Calm(d) && Ranked(sections) && LowerWith(d, sections) == Some(r) && FieldOf(d, s, o).Some?
    ensures Rank(s) < |Parts(d, sections)| && Parts(d, sections)[Rank(s)] == groups
    ensures Counted(Spelled(s), Section(d, s), |groups|)
    ensures LandsAt(groups, Spot(Spelled(s), |groups|, o), FieldOf(d, s, o).value)
  {
    NoLanding(Spelled(s), o);
    PartOf(d, sections, r, s);
    groups :| PartFor(d, sections, s, groups);
    FieldLands(Spelled(s), Section(d, s), groups, o);
    PlanCounted(Spelled(s), Section(d, s), groups);
  }

  lemma FieldReaches(d: Document, sections: seq<Key>, r: Document, s: Key, o: Origin)
    requires Calm(d) && Ranked(sections) && LowerWith(d, sections) == Some(r) && FieldOf(d, s, o).Some?
    ensures var l := FieldOf(d, s, o).value; l.key in r && r[l.key] == l.value && l.key !in Untouched(d, sections)
  {
    var groups := FieldIn(d, sections, r, s, o);
    LowerIsParts(d, sections, r);
    PlaceReaches(Untouched(d, sections), Parts(d, sections), r, Rank(s), Spot(Spelled(s), |groups|, o),
                 FieldOf(d, s, o).value);
  }

  // Only the trust region has two names, and only one of them a table.
  lemma RanksApart(d: Document, sections: seq<Key>, r: Document, s: Key, u: Key)
    requires Calm(d) && Ranked(sections) && LowerWith(d, sections) == Some(r)
    requires IsSection(s) && IsSection(u) && Section(d, s) != map[] && Section(d, u) != map[] && s != u
    ensures Rank(s) != Rank(u)
  {
    LowerIsMoves(d, sections);
  }

  lemma KeysApart(d: Document, sections: seq<Key>, r: Document, s: Key, o: Origin, u: Key, p: Origin)
    requires Calm(d) && Ranked(sections) && LowerWith(d, sections) == Some(r)
    requires FieldOf(d, s, o).Some? && FieldOf(d, u, p).Some?
    requires FieldOf(d, s, o).value.key == FieldOf(d, u, p).value.key
    ensures s == u && o == p
  {
    var groups := FieldIn(d, sections, r, s, o);
    var others := FieldIn(d, sections, r, u, p);
    LowerIsParts(d, sections, r);
    PlacesApart(Untouched(d, sections), Parts(d, sections), Rank(s), Spot(Spelled(s), |groups|, o),
                Rank(u), Spot(Spelled(u), |others|, p), FieldOf(d, s, o).value.key);
    if s != u {
      NoLanding(Spelled(s), o);
      NoLanding(Spelled(u), p);
      RanksApart(d, sections, r, s, u);
    }
    SpotLeadsBack(Spelled(s), Section(d, s), |groups|, o);
    SpotLeadsBack(Spelled(s), Section(d, s), |groups|, p);
  }

  lemma KeyHasField(d: Document, sections: seq<Key>, r: Document, k: Key)
    requires Calm(d) && Ranked(sections) && LowerWith(d, sections) == Some(r)
    requires k in r && k !in Untouched(d, sections)
    ensures exists s, o :: FieldOf(d, s, o) == Some(Landing(k, r[k]))
  {
    LowerIsParts(d, sections, r);
    var i, j := PlaceOf(Untouched(d, sections), Parts(d, sections), r, k);
    var s := if i < 9 then sections[i]
             else if Section(d, PublicTrustRegion) != map[] then PublicTrustRegion else TrustRegion;
    PartAt(d, sections, r, i, s);
    var groups := Parts(d, sections)[i];
    GroupsOriginate(Spelled(s), Section(d, s), groups, j, k);
    assert FieldOf(d, s, OriginAt(Spelled(s), |groups|, j, k)) == Some(Landing(k, r[k]));
  }

  lemma PartAt(d: Document, sections: seq<Key>, r: Document, i: nat, s: Key)
    requires Calm(d) && Ranked(sections) && LowerWith(d, sections) == Some(r) && i < |Parts(d, sections)|
    requires s == if i < 9 then sections[i]
                  else if Section(d, PublicTrustRegion) != map[] then PublicTrustRegion else TrustRegion
    ensures PartFor(d, sections, s, Parts(d, sections)[i])
  {
    LowerIsMoves(d, sections);
    if i < 9 {
      assert s in sections;
    } else {
      assert Section(d, s) == TrustRegionTable(d);
    }
  }

  // ---------------------------------------------------------------- any document

  // What lands is not itself a section that is lowered later.
  predicate Stays(s: Key, l: Landing) {
    !(l.value.Table? && IsSection(l.key) && Rank(l.key) > Rank(s))
  }

  predicate Has(d: Document, l: Landing) { l.key in d && d[l.key] == l.value }

  // No table of a section whose turn among the first nine is still to come.
  predicate Done(l: Landing, i: nat) {
    l.value.Table? && IsSection(l.key) ==> Rank(l.key) < i || Rank(l.key) == 9
  }

  lemma {:induction false} SectionsKeep(d: Document, sections: seq<Key>, i: nat, e: Document, l: Landing)
    requires Ranked(sections) && i <= |sections| && LowerSections(d, sections[i..]) == Some(e)
    requires Has(d, l) && Done(l, i)
    ensures Has(e, l)
    decreases |sections| - i
  {
    if i < |sections| {
      var s := sections[i];
      assert s in sections && sections[i..][0] == s && sections[i..][1..] == sections[i + 1..];
      var plan := PlanOf(s, Section(d, s));
      MoveAllParts(Drop(d, s), plan.value);
      SectionsKeep(Land(Drop(d, s), plan).value, sections, i + 1, e, l);
    }
  }

  // A section keeps its table until its turn, and then its fields land.
  lemma {:induction false} SectionsLand(
    d: Document, sections: seq<Key>, i: nat, e: Document, s: Key, t: Document, o: Origin, l: Landing)
    requires Ranked(sections) && i <= Rank(s) < |sections| && LowerSections(d, sections[i..]) == Some(e)
    requires IsSection(s) && Has(d, Landing(s, Table(t))) && LandingOf(s, t, o) == Some(l) && Done(l, Rank(s) + 1)
    ensures Has(e, l)
    decreases |sections| - i
  {
    var first := sections[i];
    assert first in sections && sections[i..][0] == first && sections[i..][1..] == sections[i + 1..];
    var plan := PlanOf(first, Section(d, first));
    var next := Land(Drop(d, first), plan).value;
    MoveAllParts(Drop(d, first), plan.value);
    if Rank(s) == i {
      assert first == s;
      PlanLands(Drop(d, s), s, t, plan.value, next, o, l);
      SectionsKeep(next, sections, i + 1, e, l);
    } else {
      SectionsLand(next, sections, i + 1, e, s, t, o, l);
    }
  }

  lemma PlanLands(d: Document, s: Key, t: Document, groups: seq<Document>, next: Document, o: Origin, l: Landing)
    requires PlanOf(s, t) == Some(groups) && MoveAll(d, groups) == Some(next) && LandingOf(s, t, o) == Some(l)
    ensures Has(next, l)
  {
    FieldLands(s, t, groups, o);
    MoveAllParts(d, groups);
  }

  lemma LastKeeps(e: Document, r: Document, l: Landing)
    requires LowerTrustRegion(e) == Some(r) && Has(e, l)
    requires !TrustRegionTableAt(l)
    ensures Has(r, l)
  {
    MoveAllParts(Drop(Drop(e, PublicTrustRegion), TrustRegion), PlanOf(TrustRegion, TrustRegionTable(e)).value);
  }

  lemma LastLands(e: Document, r: Document, s: Key, t: Document, o: Origin, l: Landing)
    requires LowerTrustRegion(e) == Some(r) && (s == PublicTrustRegion || s == TrustRegion)
    requires Has(e, Landing(s, Table(t))) && t != map[] && LandingOf(TrustRegion, t, o) == Some(l)
    ensures Has(r, l)
  {
    PlanLands(Drop(Drop(e, PublicTrustRegion), TrustRegion), TrustRegion, t, PlanOf(TrustRegion, t).value, r, o, l);
  }

  lemma FieldStays(d: Document, sections: seq<Key>, r: Document, s: Key, o: Origin)
    requires Ranked(sections) && LowerWith(d, sections) == Some(r)
    requires FieldOf(d, s, o).Some? && Stays(s, FieldOf(d, s, o).value)
    ensures Has(r, FieldOf(d, s, o).value)
  {
    NoLanding(Spelled(s), o);
    assert sections[0..] == sections;
    var e := LowerSections(d, sections).value;
    if Rank(s) < 9 {
      StaysDone(s, FieldOf(d, s, o).value);
      EarlyStays(d, sections, e, r, s, Section(d, s), o, FieldOf(d, s, o).value);
    } else {
      LateStays(d, sections, e, r, s, Section(d, s), o, FieldOf(d, s, o).value);
    }
  }

  predicate TrustRegionTableAt(l: Landing) {
    l.value.Table? && (l.key == PublicTrustRegion || l.key == TrustRegion)
  }

  lemma StaysDone(s: Key, l: Landing)
    requires Stays(s, l) && Rank(s) < 9
    ensures Done(l, Rank(s) + 1) && !TrustRegionTableAt(l)
  {
  }

  lemma EarlyStays(
    d: Document, sections: seq<Key>, e: Document, r: Document, s: Key, t: Document, o: Origin, l: Landing)
    requires Ranked(sections) && LowerSections(d, sections[0..]) == Some(e) && LowerTrustRegion(e) == Some(r)
    requires IsSection(s) && Rank(s) < 9 && Has(d, Landing(s, Table(t))) && LandingOf(s, t, o) == Some(l)
    requires Done(l, Rank(s) + 1) && !TrustRegionTableAt(l)
    ensures Has(r, l)
  {
    SectionsLand(d, sections, 0, e, s, t, o, l);
    LastKeeps(e, r, l);
  }

  lemma LateStays(
    d: Document, sections: seq<Key>, e: Document, r: Document, s: Key, t: Document, o: Origin, l: Landing)
    requires Ranked(sections) && LowerSections(d, sections[0..]) == Some(e) && LowerTrustRegion(e) == Some(r)
    requires (s == PublicTrustRegion || s == TrustRegion) && t != map[] && Has(d, Landing(s, Table(t)))
    requires LandingOf(TrustRegion, t, o) == Some(l)
    ensures Has(r, l)
  {
    SectionsKeep(d, sections, 0, e, Landing(s, Table(t)));
    LastLands(e, r, s, t, o, l);
  }

  // ---------------------------------------------------------------- main results

  // Fields that are no section's table.
  function Outside(d: Document): Document {
    map k | k in d && !(IsSection(k) && d[k].Table?) :: d[k]
  }

  lemma UntouchedIsOutside(d: Document, sections: seq<Key>)
    requires Ranked(sections)
    ensures Untouched(d, sections) == Outside(d)
  {
  }

  // Every field of every section - its own, a selected primitive's name and fields, a surrogate's
  // fit settings; of the trust region under either spelling - is found in the lowered document,
  // unchanged, under its top-level name. Only a table that lands under the name of a later section
  // is lowered on.
  lemma EveryFieldReachesTop(d: Document, r: Document, s: Key, o: Origin)
    requires Lower(d) == Some(r) && FieldOf(d, s, o).Some? && Stays(s, FieldOf(d, s, o).value)
    ensures var l := FieldOf(d, s, o).value; l.key in r && r[l.key] == l.value
  {
    SectionsRanked();
    FieldStays(d, SECTIONS, r, s, o);
  }

  // Where no section moves a table under a section's name, no two fields share a top-level name.
  lemma FieldsApart(d: Document, r: Document, s: Key, o: Origin, u: Key, p: Origin)
    requires Calm(d) && Lower(d) == Some(r)
    requires FieldOf(d, s, o).Some? && FieldOf(d, u, p).Some? && (s != u || o != p)
    ensures FieldOf(d, s, o).value.key != FieldOf(d, u, p).value.key
  {
    SectionsRanked();
    if FieldOf(d, s, o).value.key == FieldOf(d, u, p).value.key {
      KeysApart(d, SECTIONS, r, s, o, u, p);
    }
  }

  // And nothing else is in a lowered document.
  lemma NothingElse(d: Document, r: Document, k: Key)
    requires Calm(d) && Lower(d) == Some(r)
    ensures k in r <==> k in Outside(d) || exists s, o :: FieldOf(d, s, o).Some? && FieldOf(d, s, o).value.key == k
    ensures k in Outside(d) ==> r[k] == Outside(d)[k]
  {
    SectionsRanked();
    UntouchedIsOutside(d, SECTIONS);
    OneOrigin(d, SECTIONS, r);
    if k in r && k !in Outside(d) {
      KeyHasField(d, SECTIONS, r, k);
      var s, o :| FieldOf(d, s, o) == Some(Landing(k, r[k]));
      assert FieldOf(d, s, o).Some?;
    }
    forall s, o | FieldOf(d, s, o).Some? && FieldOf(d, s, o).value.key == k ensures k in r {
      FieldReaches(d, SECTIONS, r, s, o);
    }
  }
}
