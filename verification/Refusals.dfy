// Exactly when a study configuration is refused, told from its sections and their fields.

module Refusals {
  import opened Wrappers
  import opened Lowering
  import opened LoweringProof
  import opened Relowering
  import opened LoweringMoves
  import opened SectionFields
  import opened LoweringFields

  // ---------------------------------------------------------------- refused sections

  // Subtables that select a primitive.
  function Primitives(t: Document, own: set<Key>): set<Key> {
    set k | k in t && k !in own && t[k].Table?
  }

  // What is wrong with a section in itself, whatever else the document holds.
  predicate Refused(section: Key, t: Document) {
    match section
    case Perturbation => RefusedPerturbation(t)
    case Acquisition => |Primitives(t, {Method})| > 1
    case Surrogate => RefusedSurrogate(t)
    case TrustRegion => RefusedTrustRegion(t)
    case _ => false
  }

  // Two primitives, or one with fields.
  predicate RefusedPerturbation(t: Document) {
    var chosen := Primitives(t, {Distribution});
    |chosen| > 1 || exists k :: k in chosen && t[k].fields != map[]
  }

  // Two primitives, a method or primitive that is no ENN, a fit setting that is none of the two, or a
  // kind that is not the resident one.
  predicate RefusedSurrogate(t: Document) {
    var chosen := Primitives(t, {Method, FitCandidates, FitSamples});
    || |chosen| > 1
    || (Method in t && t[Method] != Name(Enn) && t[Method] != Name(ResidentEnn))
    || (exists k :: k in chosen && Normalized(k) != Enn && Normalized(k) != ResidentEnn)
    || (exists k :: k in chosen && UnknownFit(t[k].fields))
    || (Kind in t && t[Kind] != Name(ResidentEnn))
  }

  predicate UnknownFit(fields: Document) {
    Fit in fields && fields[Fit].Table? && exists k :: k in fields[Fit].fields && k != Candidates && k != Samples
  }

  // Two primitives, a reliability that is no table, or the reserved tensor family.
  predicate RefusedTrustRegion(t: Document) {
    || |Primitives(t, {Reliability, Method})| > 1
    || (Reliability in t && !t[Reliability].Table?)
    || (TensorFamily in t && !t[TensorFamily].Table?)
  }

  lemma PlanRefused(section: Key, t: Document)
    ensures PlanOf(section, t).None? <==> Refused(section, t)
  {
    match section
    case Perturbation => PerturbationRefused(t);
    case Acquisition => PrimitivesAreTables(t, {Method});
    case Surrogate => SurrogateRefused(t);
    case TrustRegion => TrustRegionRefused(t);
    case _ =>
  }

  lemma PrimitivesAreTables(t: Document, own: set<Key>)
    ensures Tables(Without(t, own)) == Primitives(t, own)
  {
  }

  lemma PerturbationRefused(t: Document)
    ensures PlanPerturbation(t).None? <==> RefusedPerturbation(t)
  {
    PrimitivesAreTables(t, {Distribution});
  }

  lemma SurrogateRefused(t: Document)
    ensures PlanSurrogate(t).None? <==> RefusedSurrogate(t)
  {
    PrimitivesAreTables(t, {Method, FitCandidates, FitSamples});
    var rest := Without(t, {Method, FitCandidates, FitSamples});
    if Select(rest).Primitive? {
      FitRefused(Select(rest).fields);
    }
  }

  lemma FitRefused(fields: Document)
    ensures PlanFit(fields).None? <==> UnknownFit(fields)
  {
  }

  lemma TrustRegionRefused(t: Document)
    ensures PlanTrustRegion(t).None? <==> RefusedTrustRegion(t)
  {
    PrimitivesAreTables(t, {Reliability, Method});
  }

  // ---------------------------------------------------------------- one section at a time

  // Where each field belongs.
  type Fields = Origin -> Option<Landing>

  function FieldsOf(section: Key, t: Document): Fields {
    o => LandingOf(section, t, o)
  }

  // A field reaches a name that is taken, or two fields reach one name.
  ghost predicate Clash(base: Document, f: Fields) {
    || (exists o :: f(o).Some? && f(o).value.key in base)
    || (exists o, p :: o != p && SameName(f, o, p))
  }

  ghost predicate SameName(f: Fields, o: Origin, p: Origin) {
    f(o).Some? && f(p).Some? && f(o).value.key == f(p).value.key
  }

  // The document with the fields, and nothing else, under their names.
  ghost predicate Joins(base: Document, f: Fields, next: Document) {
    && (forall k :: k in base ==> k in next && next[k] == base[k])
    && (forall o :: f(o).Some? ==> Has(next, f(o).value))
    && (forall k :: k in next && k !in base ==> exists o :: f(o) == Some(Landing(k, next[k])))
  }

  // Where moving fails, some key is already there, or is in two groups.
  lemma {:induction false} MoveAllFails(d: Document, groups: seq<Document>) returns (j: nat, k: Key)
    requires MoveAll(d, groups).None?
    ensures j < |groups| && k in groups[j] && (k in d || exists i :: 0 <= i < j && k in groups[i])
    decreases |groups|
  {
    if d.Keys !! groups[0].Keys {
      var next := Move(d, groups[0]).value;
      var i;
      i, k := MoveAllFails(next, groups[1..]);
      j := i + 1;
      assert groups[1..][i] == groups[j];
      if k !in d && k !in groups[0] {
        var h :| 0 <= h < i && k in groups[1..][h];
        assert k in groups[h + 1];
      }
    } else {
      j := 0;
      assert exists k :: k in d && k in groups[0];
      k :| k in d && k in groups[0];
    }
  }

  lemma MovedJoins(base: Document, section: Key, t: Document, groups: seq<Document>, next: Document)
    requires PlanOf(section, t) == Some(groups) && MoveAll(base, groups) == Some(next)
    ensures Joins(base, FieldsOf(section, t), next)
  {
    MoveAllParts(base, groups);
    forall o | LandingOf(section, t, o).Some? ensures Has(next, LandingOf(section, t, o).value) {
      PlanLands(base, section, t, groups, next, o, LandingOf(section, t, o).value);
    }
    forall k | k in next && k !in base ensures exists o :: FieldsOf(section, t)(o) == Some(Landing(k, next[k])) {
      MoveAllOnly(base, groups, k);
      var j: nat :| j < |groups| && k in groups[j];
      GroupsOriginate(section, t, groups, j, k);
      assert FieldsOf(section, t)(OriginAt(section, |groups|, j, k)) == Some(Landing(k, next[k]));
    }
  }

  lemma MovedApart(base: Document, section: Key, t: Document, groups: seq<Document>)
    requires PlanOf(section, t) == Some(groups) && MoveAll(base, groups).Some?
    ensures !Clash(base, FieldsOf(section, t))
  {
    var f := FieldsOf(section, t);
    MoveAllParts(base, groups);
    forall o | f(o).Some? ensures f(o).value.key !in base {
      FieldLands(section, t, groups, o);
    }
    forall o, p | SameName(f, o, p) ensures o == p {
      OneField(section, t, groups, o, p);
    }
  }

  lemma OneField(section: Key, t: Document, groups: seq<Document>, o: Origin, p: Origin)
    requires PlanOf(section, t) == Some(groups) && SameName(FieldsOf(section, t), o, p)
    requires forall i, j, k :: 0 <= i < j < |groups| && k in groups[i] ==> k !in groups[j]
    ensures o == p
  {
    FieldLands(section, t, groups, o);
    FieldLands(section, t, groups, p);
    PlanCounted(section, t, groups);
    SpotLeadsBack(section, t, |groups|, o);
    SpotLeadsBack(section, t, |groups|, p);
  }

  lemma StuckClashes(base: Document, section: Key, t: Document, groups: seq<Document>)
    requires PlanOf(section, t) == Some(groups) && MoveAll(base, groups).None?
    ensures Clash(base, FieldsOf(section, t))
  {
    var f := FieldsOf(section, t);
    var j, k := MoveAllFails(base, groups);
    var o := OriginAt(section, |groups|, j, k);
    GroupsOriginate(section, t, groups, j, k);
    GroupsSpot(section, t, groups, j, k);
    assert f(o) == Some(Landing(k, groups[j][k]));
    if k !in base {
      var i: nat :| i < j && k in groups[i];
      var p := OriginAt(section, |groups|, i, k);
      GroupsOriginate(section, t, groups, i, k);
      GroupsSpot(section, t, groups, i, k);
      assert f(p) == Some(Landing(k, groups[i][k]));
      assert SameName(f, p, o);
    }
  }

  // A section's fields land exactly if it is not refused and nothing clashes, and then they are joined
  // to the document.
  lemma StepExact(base: Document, section: Key, t: Document)
    ensures var r := Land(base, PlanOf(section, t));
      && (r.None? <==> Refused(section, t) || Clash(base, FieldsOf(section, t)))
      && (r.Some? ==> Joins(base, FieldsOf(section, t), r.value))
  {
    PlanRefused(section, t);
    var plan := PlanOf(section, t);
    if plan.Some? {
      if MoveAll(base, plan.value).Some? {
        MovedJoins(base, section, t, plan.value, MoveAll(base, plan.value).value);
        MovedApart(base, section, t, plan.value);
      } else {
        StuckClashes(base, section, t, plan.value);
      }
    }
  }

  // ---------------------------------------------------------------- any document

  // Section by section, each looked at when its turn has come; the trust region's last, under one
  // spelling.
  ghost predicate Fails(d: Document, sections: seq<Key>)
    decreases |sections|
  {
    if sections == [] then FailsLast(d)
    else
      var s := sections[0];
      var base, t := Drop(d, s), Section(d, s);
      || Refused(s, t) || Clash(base, FieldsOf(s, t))
      || exists next :: Joins(base, FieldsOf(s, t), next) && Fails(next, sections[1..])
  }

  ghost predicate FailsLast(d: Document) {
    var base, t := Drop(Drop(d, PublicTrustRegion), TrustRegion), TrustRegionTable(d);
    || (Section(d, PublicTrustRegion) != map[] && Section(d, TrustRegion) != map[])
    || Refused(TrustRegion, t) || Clash(base, FieldsOf(TrustRegion, t))
  }

  lemma JoinsOnce(base: Document, f: Fields, a: Document, b: Document)
    requires Joins(base, f, a) && Joins(base, f, b)
    ensures a == b
  {
    forall k ensures k in a ==> k in b && b[k] == a[k] {
      JoinedKey(base, f, a, b, k);
    }
    forall k ensures k in b ==> k in a && a[k] == b[k] {
      JoinedKey(base, f, b, a, k);
    }
  }

  lemma JoinedKey(base: Document, f: Fields, a: Document, b: Document, k: Key)
    requires Joins(base, f, a) && Joins(base, f, b)
    ensures k in a ==> k in b && b[k] == a[k]
  {
    if k in a && k !in base {
      var o :| f(o) == Some(Landing(k, a[k]));
      assert Has(b, f(o).value);
    }
  }

  lemma {:induction false} FailsExactly(d: Document, sections: seq<Key>)
    ensures LowerWith(d, sections).None? <==> Fails(d, sections)
    decreases |sections|
  {
    if sections == [] {
      LastFails(d);
    } else {
      var s, rest := sections[0], sections[1..];
      var base, f := Drop(d, s), FieldsOf(s, Section(d, s));
      StepExact(base, s, Section(d, s));
      var r := Land(base, PlanOf(s, Section(d, s)));
      if r.Some? {
        FailsExactly(r.value, rest);
        forall next | Joins(base, f, next) ensures next == r.value {
          JoinsOnce(base, f, next, r.value);
        }
      }
    }
  }

  lemma LastFails(d: Document)
    ensures LowerTrustRegion(d).None? <==> FailsLast(d)
  {
    StepExact(Drop(Drop(d, PublicTrustRegion), TrustRegion), TrustRegion, TrustRegionTable(d));
  }

  // Lowering refuses exactly the documents that fail so.
  lemma RefusedExactly(d: Document)
    ensures Lower(d).None? <==> Fails(d, SECTIONS)
  {
    FailsExactly(d, SECTIONS);
  }

  // ---------------------------------------------------------------- documents without nested sections

  // The fields of every section.
  type Sections = Key -> Fields

  function SectionsOf(d: Document): Sections {
    s => FieldsOf(Spelled(s), Section(d, s))
  }

  predicate HasField(f: Sections, s: Key, o: Origin) { IsSection(s) && f(s)(o).Some? }

  // No field is a table that lands under a section's name.
  ghost predicate Quiet(f: Sections) {
    forall s, o :: HasField(f, s, o) ==> !(f(s)(o).value.value.Table? && IsSection(f(s)(o).value.key))
  }

  // A section's table, taken away before the sections at `rank` are lowered.
  predicate Gone(d: Document, k: Key, rank: nat) {
    k in d && IsSection(k) && d[k].Table? && Rank(k) < rank
  }

  // A field reaches a name that the document holds apart from the sections lowered so far.
  ghost predicate Meets(d: Document, f: Sections, s: Key, o: Origin) {
    HasField(f, s, o) && f(s)(o).value.key in d && !Gone(d, f(s)(o).value.key, Rank(s) + 1)
  }

  // Two fields reach one name.
  ghost predicate Meet(f: Sections, s: Key, o: Origin, u: Key, p: Origin) {
    HasField(f, s, o) && HasField(f, u, p) && (s != u || o != p) && f(s)(o).value.key == f(u)(p).value.key
  }

  // What stands in a section's way: a name of the document, or a field of its own or of an earlier
  // section.
  ghost predicate Blocked(d: Document, f: Sections, s: Key) {
    (exists o :: Meets(d, f, s, o)) || (exists o, u, p :: Meet(f, s, o, u, p) && Rank(u) <= Rank(s))
  }

  // The document once the sections before `rank` are lowered.
  ghost predicate Lowered(d: Document, f: Sections, rank: nat, e: Document) {
    && (forall k :: k in d && !Gone(d, k, rank) ==> k in e && e[k] == d[k])
    && (forall s, o :: HasField(f, s, o) && Rank(s) < rank ==> Has(e, f(s)(o).value))
    && (forall k :: k in e && !(k in d && !Gone(d, k, rank)) ==> LandedBefore(f, rank, k, e[k]))
  }

  ghost predicate LandedBefore(f: Sections, rank: nat, k: Key, v: Value) {
    exists s, o :: HasField(f, s, o) && f(s)(o) == Some(Landing(k, v)) && Rank(s) < rank
  }

  // Sections still to come have the tables they had.
  lemma SectionsLeft(d: Document, f: Sections, rank: nat, e: Document, s: Key)
    requires Quiet(f) && Lowered(d, f, rank, e) && IsSection(s) && Rank(s) >= rank
    ensures Section(e, s) == Section(d, s) && (s in e && e[s].Table? <==> s in d && d[s].Table?)
  {
    if s in e && !(s in d && !Gone(d, s, rank)) {
      var u, o :| HasField(f, u, o) && f(u)(o) == Some(Landing(s, e[s])) && Rank(u) < rank;
    }
  }

  // The sections of one rank: one, or the two spellings of the trust region.
  ghost predicate Turn(d: Document, f: Sections, rank: nat, e: Document, s: Key, base: Document) {
    && Quiet(f) && Lowered(d, f, rank, e) && IsSection(s) && Rank(s) == rank
    && (forall u, o :: HasField(f, u, o) && Rank(u) == rank ==> u == s)
    && (forall k :: k in base <==> k in e && !(IsSection(k) && Rank(k) == rank && e[k].Table?))
    && (forall k :: k in base ==> base[k] == e[k])
  }

  // What an earlier section has landed is left alone.
  lemma LandedStays(d: Document, f: Sections, rank: nat, e: Document, s: Key, base: Document, k: Key)
    requires Turn(d, f, rank, e, s, base) && k in e && LandedBefore(f, rank, k, e[k])
    ensures k in base
  {
    var u, o :| HasField(f, u, o) && f(u)(o) == Some(Landing(k, e[k])) && Rank(u) < rank;
    assert !(e[k].Table? && IsSection(k));
  }

  lemma TurnKeys(d: Document, f: Sections, rank: nat, e: Document, s: Key, base: Document, k: Key)
    requires Turn(d, f, rank, e, s, base)
    ensures k in base <==> (k in d && !Gone(d, k, rank + 1)) || (k in e && LandedBefore(f, rank, k, e[k]))
    ensures k in d && !Gone(d, k, rank + 1) ==> k in base && base[k] == d[k]
  {
    if k in e && LandedBefore(f, rank, k, e[k]) {
      LandedStays(d, f, rank, e, s, base, k);
    }
  }

  lemma TurnClashes(d: Document, f: Sections, rank: nat, e: Document, s: Key, base: Document)
    requires Turn(d, f, rank, e, s, base)
    ensures Clash(base, f(s)) <==> Blocked(d, f, s)
  {
    if Clash(base, f(s)) {
      ClashBlocks(d, f, rank, e, s, base);
    }
    if o :| Meets(d, f, s, o) {
      TurnKeys(d, f, rank, e, s, base, f(s)(o).value.key);
    }
    if o, u, p :| Meet(f, s, o, u, p) && Rank(u) <= Rank(s) {
      MeetClashes(d, f, rank, e, s, base, o, u, p);
    }
  }

  lemma ClashBlocks(d: Document, f: Sections, rank: nat, e: Document, s: Key, base: Document)
    requires Turn(d, f, rank, e, s, base) && Clash(base, f(s))
    ensures Blocked(d, f, s)
  {
    if o :| f(s)(o).Some? && f(s)(o).value.key in base {
      TakenBlocks(d, f, rank, e, s, base, o, f(s)(o).value.key);
    } else {
      var o, p :| o != p && SameName(f(s), o, p);
      assert Meet(f, s, o, s, p);
    }
  }

  lemma TakenBlocks(d: Document, f: Sections, rank: nat, e: Document, s: Key, base: Document, o: Origin, k: Key)
    requires Turn(d, f, rank, e, s, base) && f(s)(o).Some? && f(s)(o).value.key == k && k in base
    ensures Blocked(d, f, s)
  {
    TurnKeys(d, f, rank, e, s, base, k);
    if k in d && !Gone(d, k, rank + 1) {
      assert Meets(d, f, s, o);
    } else {
      var u, p :| HasField(f, u, p) && f(u)(p) == Some(Landing(k, e[k])) && Rank(u) < rank;
      assert Meet(f, s, o, u, p);
    }
  }

  lemma MeetClashes(
    d: Document, f: Sections, rank: nat, e: Document, s: Key, base: Document, o: Origin, u: Key, p: Origin)
    requires Turn(d, f, rank, e, s, base) && Meet(f, s, o, u, p) && Rank(u) <= Rank(s)
    ensures Clash(base, f(s))
  {
    if u == s {
      assert SameName(f(s), o, p);
    } else {
      var l := f(u)(p).value;
      assert Rank(u) < rank && Has(e, l);
      assert f(u)(p) == Some(Landing(l.key, e[l.key]));
      TurnKeys(d, f, rank, e, s, base, l.key);
    }
  }

  lemma TurnLowers(d: Document, f: Sections, rank: nat, e: Document, s: Key, base: Document, next: Document)
    requires Turn(d, f, rank, e, s, base) && Joins(base, f(s), next)
    ensures Lowered(d, f, rank + 1, next)
  {
    forall k | k in d && !Gone(d, k, rank + 1) ensures k in next && next[k] == d[k] {
      TurnKeys(d, f, rank, e, s, base, k);
    }
    forall u, o | HasField(f, u, o) && Rank(u) < rank + 1 ensures Has(next, f(u)(o).value) {
      FieldHeld(d, f, rank, e, s, base, next, u, o, f(u)(o).value);
    }
    forall k | k in next && !(k in d && !Gone(d, k, rank + 1)) ensures LandedBefore(f, rank + 1, k, next[k]) {
      KeyLanded(d, f, rank, e, s, base, next, k);
    }
  }

  lemma FieldHeld(
    d: Document, f: Sections, rank: nat, e: Document, s: Key, base: Document, next: Document, u: Key, o: Origin,
    l: Landing)
    requires Turn(d, f, rank, e, s, base) && Joins(base, f(s), next)
    requires HasField(f, u, o) && f(u)(o) == Some(l) && Rank(u) < rank + 1
    ensures Has(next, l)
  {
    if Rank(u) < rank {
      assert Has(e, l) && f(u)(o) == Some(Landing(l.key, e[l.key]));
      LandedStays(d, f, rank, e, s, base, l.key);
    }
  }

  lemma KeyLanded(
    d: Document, f: Sections, rank: nat, e: Document, s: Key, base: Document, next: Document, k: Key)
    requires Turn(d, f, rank, e, s, base) && Joins(base, f(s), next)
    requires k in next && !(k in d && !Gone(d, k, rank + 1))
    ensures LandedBefore(f, rank + 1, k, next[k])
  {
    TurnKeys(d, f, rank, e, s, base, k);
    if k in base {
      var u, o :| HasField(f, u, o) && f(u)(o) == Some(Landing(k, e[k])) && Rank(u) < rank;
      assert f(u)(o) == Some(Landing(k, next[k]));
    } else {
      var o :| f(s)(o) == Some(Landing(k, next[k]));
      assert HasField(f, s, o);
    }
  }

  // ---------------------------------------------------------------- exactly when such a document is refused

  // Which sections are refused in themselves, and how a section's fields are landed.
  type Refusing = Key -> bool
  type Landings = (Key, Document) -> Option<Document>

  function RefusalsOf(d: Document): Refusing {
    s => Refused(Spelled(s), Section(d, s))
  }

  function LandingsOf(d: Document): Landings {
    (s, base) => Land(base, PlanOf(Spelled(s), Section(d, s)))
  }

  ghost predicate Obstructed(d: Document, f: Sections, refused: Refusing, s: Key) {
    IsSection(s) && (refused(s) || Blocked(d, f, s))
  }

  ghost predicate BothSpelled(d: Document) {
    Section(d, PublicTrustRegion) != map[] && Section(d, TrustRegion) != map[]
  }

  // What is known of landing a section's fields.
  ghost predicate Exact(f: Sections, refused: Refusing, land: Landings) {
    forall s, base :: ExactAt(f(s), refused(s), base, land(s, base))
  }

  ghost predicate ExactAt(f: Fields, refused: bool, base: Document, r: Option<Document>) {
    (r.None? <==> refused || Clash(base, f)) && (r.Some? ==> Joins(base, f, r.value))
  }

  ghost predicate EmptyFree(d: Document, f: Sections, refused: Refusing) {
    NoneRefused(d, refused) && NoneLand(d, f)
  }

  ghost predicate NoneRefused(d: Document, refused: Refusing) {
    forall s :: Section(d, s) == map[] ==> !refused(s)
  }

  ghost predicate NoneLand(d: Document, f: Sections) {
    forall s :: Section(d, s) == map[] ==> HasNone(f(s))
  }

  ghost predicate HasNone(f: Fields) { forall o :: f(o).None? }

  ghost predicate Lands(d: Document, land: Landings) {
    forall s, base :: land(s, base) == Land(base, PlanOf(Spelled(s), Section(d, s)))
  }

  ghost predicate Known(d: Document, f: Sections, refused: Refusing, land: Landings) {
    Quiet(f) && Exact(f, refused, land) && EmptyFree(d, f, refused) && Lands(d, land)
  }

  // The spelling of the trust region that has fields, if one has.
  function SpellingOf(d: Document): Key {
    if Section(d, PublicTrustRegion) != map[] then PublicTrustRegion else TrustRegion
  }

  lemma StageTurn(d: Document, f: Sections, i: nat, e: Document, s: Key)
    requires Quiet(f) && i < 9 && Lowered(d, f, i, e) && IsSection(s) && Rank(s) == i
    ensures Turn(d, f, i, e, s, Drop(e, s)) && Section(e, s) == Section(d, s)
  {
    SectionsLeft(d, f, i, e, s);
  }

  lemma LastTurn(d: Document, f: Sections, refused: Refusing, e: Document)
    requires Quiet(f) && EmptyFree(d, f, refused) && Lowered(d, f, 9, e) && !BothSpelled(d)
    ensures Turn(d, f, 9, e, SpellingOf(d), Drop(Drop(e, PublicTrustRegion), TrustRegion))
    ensures Section(e, PublicTrustRegion) == Section(d, PublicTrustRegion)
    ensures Section(e, TrustRegion) == Section(d, TrustRegion)
  {
    SectionsLeft(d, f, 9, e, PublicTrustRegion);
    SectionsLeft(d, f, 9, e, TrustRegion);
  }

  // The spelling without fields is in nobody's way.
  lemma OnlySpelling(d: Document, f: Sections, refused: Refusing, s: Key)
    requires EmptyFree(d, f, refused) && !BothSpelled(d) && Rank(s) >= 9 && Obstructed(d, f, refused, s)
    ensures s == SpellingOf(d)
  {
  }

  lemma LastObstructed(d: Document, f: Sections, refused: Refusing, land: Landings, e: Document)
    requires Known(d, f, refused, land) && Lowered(d, f, 9, e)
    ensures LowerTrustRegion(e).None? <==>
      BothSpelled(d) || exists s :: Rank(s) >= 9 && Obstructed(d, f, refused, s)
  {
    if BothSpelled(d) {
      SectionsLeft(d, f, 9, e, PublicTrustRegion);
      SectionsLeft(d, f, 9, e, TrustRegion);
    } else {
      var s, base := SpellingOf(d), Drop(Drop(e, PublicTrustRegion), TrustRegion);
      LastTurn(d, f, refused, e);
      assert LowerTrustRegion(e) == land(s, base);
      TurnObstructed(d, f, refused, land, 9, e, s, base);
      forall u | Rank(u) >= 9 && Obstructed(d, f, refused, u) ensures u == s {
        OnlySpelling(d, f, refused, u);
      }
    }
  }

  lemma TurnObstructed(
    d: Document, f: Sections, refused: Refusing, land: Landings, rank: nat, e: Document, s: Key, base: Document)
    requires Exact(f, refused, land) && Turn(d, f, rank, e, s, base)
    ensures land(s, base).None? <==> Obstructed(d, f, refused, s)
    ensures land(s, base).Some? ==> Lowered(d, f, rank + 1, land(s, base).value)
  {
    assert ExactAt(f(s), refused(s), base, land(s, base));
    TurnClashes(d, f, rank, e, s, base);
    if land(s, base).Some? {
      TurnLowers(d, f, rank, e, s, base, land(s, base).value);
    }
  }

  lemma {:induction false} StagesObstructed(
    d: Document, f: Sections, refused: Refusing, land: Landings, sections: seq<Key>, i: nat, e: Document)
    requires Known(d, f, refused, land) && Ranked(sections) && i <= 9 && Lowered(d, f, i, e)
    ensures LowerWith(e, sections[i..]).None? <==>
      BothSpelled(d) || exists s :: Rank(s) >= i && Obstructed(d, f, refused, s)
    decreases 9 - i
  {
    if i == 9 {
      LastObstructed(d, f, refused, land, e);
    } else {
      var s := sections[i];
      assert s in sections && Spelled(s) == s;
      StageTurn(d, f, i, e, s);
      TurnObstructed(d, f, refused, land, i, e, s, Drop(e, s));
      var r := land(s, Drop(e, s));
      OneSection(d, land, sections, i, e);
      if r.Some? {
        StagesObstructed(d, f, refused, land, sections, i + 1, r.value);
        FromNext(d, f, refused, i, s);
      }
    }
  }

  lemma OneSection(d: Document, land: Landings, sections: seq<Key>, i: nat, e: Document)
    requires Lands(d, land) && i < |sections| && Spelled(sections[i]) == sections[i]
    requires Section(e, sections[i]) == Section(d, sections[i])
    ensures var r := land(sections[i], Drop(e, sections[i]));
      LowerWith(e, sections[i..]) == if r.None? then None else LowerWith(r.value, sections[i + 1..])
  {
    assert sections[i..][0] == sections[i] && sections[i..][1..] == sections[i + 1..];
  }

  // Only one section has that rank.
  lemma FromNext(d: Document, f: Sections, refused: Refusing, i: nat, s: Key)
    requires i < 9 && IsSection(s) && Rank(s) == i && !Obstructed(d, f, refused, s)
    ensures (exists u :: Rank(u) >= i && Obstructed(d, f, refused, u)) <==>
      exists u :: Rank(u) >= i + 1 && Obstructed(d, f, refused, u)
  {
    forall u | Rank(u) >= i && Obstructed(d, f, refused, u) ensures Rank(u) >= i + 1 {
      assert u != s;
    }
  }

  lemma KnownRefusals(d: Document, f: Sections, refused: Refusing, land: Landings)
    requires Known(d, f, refused, land)
    ensures Lower(d).None? <==> BothSpelled(d) || exists s :: Obstructed(d, f, refused, s)
  {
    SectionsRanked();
    StartsLowered(d, f);
    InOrder(d, f, refused, land, SECTIONS);
  }

  lemma InOrder(d: Document, f: Sections, refused: Refusing, land: Landings, sections: seq<Key>)
    requires Known(d, f, refused, land) && Ranked(sections) && Lowered(d, f, 0, d)
    ensures LowerWith(d, sections).None? <==> BothSpelled(d) || exists s :: Obstructed(d, f, refused, s)
  {
    assert sections[0..] == sections;
    StagesObstructed(d, f, refused, land, sections, 0, d);
    assert forall s :: Obstructed(d, f, refused, s) ==> Rank(s) >= 0;
  }

  lemma StartsLowered(d: Document, f: Sections)
    ensures Lowered(d, f, 0, d)
  {
  }

  lemma ExactFor(f: Fields, section: Key, t: Document, base: Document)
    requires f == FieldsOf(section, t)
    ensures ExactAt(f, Refused(section, t), base, Land(base, PlanOf(section, t)))
  {
    StepExact(base, section, t);
  }

  lemma LandingsAreExact(d: Document)
    ensures Exact(SectionsOf(d), RefusalsOf(d), LandingsOf(d))
  {
    var f, refused, land := SectionsOf(d), RefusalsOf(d), LandingsOf(d);
    forall s, base ensures ExactAt(f(s), refused(s), base, land(s, base)) {
      ExactFor(FieldsOf(Spelled(s), Section(d, s)), Spelled(s), Section(d, s), base);
    }
  }

  lemma EmptyIsAllowed(section: Key)
    ensures !Refused(section, map[])
  {
    EmptyGroups(section);
    PlanRefused(section, map[]);
  }

  lemma EmptyHasNone(f: Fields, s: Key)
    requires f == FieldsOf(s, map[])
    ensures HasNone(f)
  {
    forall o ensures f(o).None? {
      NoLanding(s, o);
    }
  }

  lemma EmptyIsUnrefused(d: Document)
    ensures NoneRefused(d, RefusalsOf(d))
  {
    forall s | Section(d, s) == map[] ensures !RefusalsOf(d)(s) {
      EmptyIsAllowed(Spelled(s));
    }
  }

  lemma EmptyLandsNothing(d: Document, f: Sections)
    requires f == SectionsOf(d)
    ensures NoneLand(d, f)
  {
    forall s | Section(d, s) == map[] ensures HasNone(f(s)) {
      EmptySectionHasNone(d, f, s);
    }
  }

  lemma EmptySectionHasNone(d: Document, f: Sections, s: Key)
    requires f == SectionsOf(d) && Section(d, s) == map[]
    ensures HasNone(f(s))
  {
    EmptyHasNone(f(s), Spelled(s));
  }

  lemma LandingsLand(d: Document)
    ensures Lands(d, LandingsOf(d))
  {
  }

  // A document whose fields land no table under a section's name is refused exactly if both spellings
  // of the trust region have fields, or one of its sections is refused in itself or obstructed.
  lemma QuietRefusedExactly(d: Document)
    requires Quiet(SectionsOf(d))
    ensures Lower(d).None? <==> BothSpelled(d) || exists s :: Obstructed(d, SectionsOf(d), RefusalsOf(d), s)
  {
    LandingsAreExact(d);
    EmptyIsUnrefused(d);
    EmptyLandsNothing(d, SectionsOf(d));
    LandingsLand(d);
    KnownRefusals(d, SectionsOf(d), RefusalsOf(d), LandingsOf(d));
  }

  // Documents whose section fields are scalars or lists beyond the permitted subtable are such.
  lemma DomainIsQuiet(d: Document)
    requires Domain(d)
    ensures Quiet(SectionsOf(d))
  {
    var f := SectionsOf(d);
    forall s, o | HasField(f, s, o)
      ensures !(f(s)(o).value.value.Table? && IsSection(f(s)(o).value.key))
    {
      QuietAt(d, s, o);
    }
  }

  lemma QuietAt(d: Document, s: Key, o: Origin)
    requires Domain(d) && IsSection(s) && LandingOf(Spelled(s), Section(d, s), o).Some?
    ensures Harmless(LandingOf(Spelled(s), Section(d, s), o).value)
  {
    if Section(d, s) == map[] {
      NoLanding(Spelled(s), o);
    } else {
      SimpleIsQuiet(Spelled(s), Section(d, s), o);
    }
  }

  predicate Harmless(l: Landing) { !(l.value.Table? && IsSection(l.key)) }

  lemma SimpleIsQuiet(section: Key, t: Document, o: Origin)
    requires Simple(section, t) && LandingOf(section, t, o).Some?
    ensures Harmless(LandingOf(section, t, o).value)
  {
    TablesExactly(t);
    match o
    case Own(k) =>
    case Inner(k) => InnerIsQuiet(section, t, k);
    case Fitted(k) => FittedIsQuiet(t, k);
    case _ =>
  }

  lemma TablesExactly(t: Document)
    ensures forall k :: k in t ==> (t[k].Table? <==> k in Tables(t))
  {
  }

  lemma InnerIsQuiet(section: Key, t: Document, k: Key)
    requires Simple(section, t) && LandingOf(section, t, Inner(k)).Some?
    ensures !LandingOf(section, t, Inner(k)).value.value.Table?
  {
    var c := Choice(section, t);
    assert c.name in Tables(t);
    TablesExactly(c.fields);
  }

  lemma FittedIsQuiet(t: Document, k: Key)
    requires Simple(Surrogate, t) && LandingOf(Surrogate, t, Fitted(k)).Some?
    ensures !LandingOf(Surrogate, t, Fitted(k)).value.value.Table?
  {
    var c := Choice(Surrogate, t);
    assert c.name in Tables(t);
    assert Fit in Tables(c.fields);
    TablesExactly(c.fields[Fit].fields);
  }
}
