// Lowering a sectioned study configuration to flat top-level fields. Moving a field onto a key that
// is already there is an error, never an overwrite.

module Lowering {
  import opened Wrappers

  // Names the lowering knows, and all others.
  datatype Key =
    | Pretrain | Study | Rounds | Experiment | Objective | Perturbation | Proposal | Acquisition | Surrogate
    | PublicTrustRegion | TrustRegion
    | Kind | Count | TargetMs | TargetRoundMs | Reference | ObjectiveReference | Distribution | Method
    | FitCandidates | FitSamples | NumCandidates | NumSamples | Neighbors | Candidates | Samples | KNeighbors
    | Fit | Enn | ResidentEnn | DashedResidentEnn | Reliability | ReliabilityController
    | Shape | TrustRegionKind | TrustRegionShape | TensorFamily
    | Other(name: string)

  // A scalar or list is a leaf; a name may be one too.
  datatype Value = Leaf(text: string) | Name(key: Key) | Table(fields: map<Key, Value>)

  type Document = map<Key, Value>

  // ---------------------------------------------------------------- moving fields

  // All fields land on free keys, or none of this succeeds.
  function Move(d: Document, fields: Document): Option<Document> {
    if d.Keys !! fields.Keys then Some(d + fields) else None
  }

  function MoveAll(d: Document, groups: seq<Document>): Option<Document>
    decreases |groups|
  {
    if groups == [] then Some(d)
    else
      var next := Move(d, groups[0]);
      if next.None? then None else MoveAll(next.value, groups[1..])
  }

  method MoveFields(d: Document, fields: Document) returns (r: Option<Document>)
    ensures r == Move(d, fields)
  {
    var document, left := d, fields.Keys;
    while left != {}
      invariant left <= fields.Keys && d.Keys !! (fields.Keys - left)
      invariant document.Keys == d.Keys + (fields.Keys - left)
      invariant forall k :: k in document ==> document[k] == if k in fields && k !in left then fields[k] else d[k]
      decreases |left|
    {
      var key :| key in left;
      if key in document {
        return None;
      }
      document := document[key := fields[key]];
      left := left - {key};
    }
    assert document == d + fields;
    r := Some(document);
  }

  // ---------------------------------------------------------------- one section's fields

  function Renamed(t: Document, from: Key, to: Key): Document {
    if from in t then map[to := t[from]] else map[]
  }

  function Without(t: Document, keys: set<Key>): Document {
    map k | k in t && k !in keys :: t[k]
  }

  function Tables(t: Document): set<Key> {
    set k | k in t && t[k].Table?
  }

  // The primitive a section selects: none, or exactly one subtable.
  datatype Selected = Nothing | Primitive(name: Key, fields: Document) | Ambiguous

  function Select(t: Document): (s: Selected)
    ensures match s
      case Nothing => Tables(t) == {}
      case Primitive(name, fields) => Tables(t) == {name} && t[name] == Table(fields)
      case Ambiguous => |Tables(t)| > 1
  {
    if Tables(t) == {} then Nothing
    else if |Tables(t)| > 1 then Ambiguous
    else
      OneElement(Tables(t));
      var name :| name in Tables(t);
      Primitive(name, t[name].fields)
  }

  lemma OneElement(s: set<Key>)
    requires |s| == 1
    ensures forall x, y :: x in s && y in s ==> x == y
    ensures forall x :: x in s ==> s == {x}
  {
    forall x, y | x in s && y in s ensures x == y {
      assert |s - {x}| == 0;
    }
  }

  // ---------------------------------------------------------------- the sections

  // A primitive's name with every dash replaced by an underscore.
  function Normalized(name: Key): Key {
    match name
    case DashedResidentEnn => ResidentEnn
    case PublicTrustRegion => TrustRegion
    case Other(text) => Spelling(Underscored(text))
    case _ => name
  }

  function Underscored(text: string): (r: string)
    ensures |r| == |text| && forall i :: 0 <= i < |r| ==> r[i] == if text[i] == '-' then '_' else text[i]
  {
    seq(|text|, i requires 0 <= i < |text| => if text[i] == '-' then '_' else text[i])
  }

  // The known names with an underscore.
  function Spelling(text: string): Key {
    if text == "trust_region" then TrustRegion
    else if text == "target_ms" then TargetMs
    else if text == "target_round_ms" then TargetRoundMs
    else if text == "objective_reference" then ObjectiveReference
    else if text == "fit_candidates" then FitCandidates
    else if text == "fit_samples" then FitSamples
    else if text == "num_candidates" then NumCandidates
    else if text == "num_samples" then NumSamples
    else if text == "k_neighbors" then KNeighbors
    else if text == "resident_enn" then ResidentEnn
    else if text == "reliability_controller" then ReliabilityController
    else if text == "trust_region_kind" then TrustRegionKind
    else if text == "trust_region_shape" then TrustRegionShape
    else if text == "tensor_family" then TensorFamily
    else Other(text)
  }

  predicate IsEnn(name: Key) { name == Enn || name == ResidentEnn }

  type Plan = Option<seq<Document>>

  function PlanPretrain(t: Document): Plan {
    if t == map[] then Some([]) else Some([map[Study := Name(Pretrain)], t])
  }

  function PlanStudy(t: Document): Plan {
    Some([Renamed(t, Kind, Study), Without(t, {Kind})])
  }

  function PlanRounds(t: Document): Plan {
    Some([Renamed(t, Count, Rounds), Renamed(t, TargetMs, TargetRoundMs), Without(t, {Count, TargetMs})])
  }

  function PlanObjective(t: Document): Plan {
    Some([Renamed(t, Reference, ObjectiveReference), Without(t, {Reference})])
  }

  function PlanProposal(t: Document): Plan {
    Some([Renamed(t, Distribution, Perturbation), Without(t, {Distribution})])
  }

  function PlanPerturbation(t: Document): Plan {
    var rest := Without(t, {Distribution});
    match Select(rest)
    case Ambiguous => None
    case Nothing => Some([Renamed(t, Distribution, Perturbation), rest])
    case Primitive(name, fields) =>
      if fields != map[] then None
      else Some([Renamed(t, Distribution, Perturbation), map[Perturbation := Name(name)], Without(rest, {name})])
  }

  function PlanAcquisition(t: Document): Plan {
    var rest := Without(t, {Method});
    match Select(rest)
    case Ambiguous => None
    case Nothing =>
      Some([Renamed(t, Method, Acquisition), Renamed(rest, Kind, Acquisition), Without(rest, {Kind})])
    case Primitive(name, fields) =>
      var left := Without(rest, {name});
      Some([Renamed(t, Method, Acquisition), map[Acquisition := Name(name)], fields,
            Renamed(left, Kind, Acquisition), Without(left, {Kind})])
  }

  // Neighbours, candidates and samples under their top-level names.
  function Sizes(t: Document): seq<Document> {
    [Renamed(t, Neighbors, KNeighbors), Renamed(t, Candidates, NumCandidates), Renamed(t, Samples, NumSamples),
     Without(t, {Neighbors, Candidates, Samples})]
  }

  // A surrogate's own kind has to be the resident one.
  function PlanKind(t: Document): Plan {
    if Kind in t && t[Kind] != Name(ResidentEnn) then None else Some(Sizes(Without(t, {Kind})))
  }

  function PlanFit(fields: Document): Plan {
    if Fit in fields && fields[Fit].Table? then
      var fit := fields[Fit].fields;
      if fit.Keys <= {Candidates, Samples} then
        Some([Renamed(fit, Candidates, NumCandidates), Renamed(fit, Samples, NumSamples)] +
             Sizes(Without(fields, {Fit})))
      else None
    else Some(Sizes(fields))
  }

  function Joined(a: Plan, b: Plan): Plan {
    if a.None? || b.None? then None else Some(a.value + b.value)
  }

  function PlanSurrogate(t: Document): Plan {
    var head := [Renamed(t, FitCandidates, NumCandidates), Renamed(t, FitSamples, NumSamples)];
    var rest := Without(t, {Method, FitCandidates, FitSamples});
    if Method in t && !(t[Method].Name? && IsEnn(t[Method].key)) then None
    else
      match Select(rest)
      case Ambiguous => None
      case Nothing => Joined(Some(head), PlanKind(rest))
      case Primitive(name, fields) =>
        if !IsEnn(Normalized(name)) then None
        else Joined(Joined(Some(head), PlanFit(fields)), PlanKind(Without(rest, {name})))
  }

  function PlanTrustRegion(t: Document): Plan {
    var rest := Without(t, {Reliability, Method});
    var head := [Renamed(t, Reliability, ReliabilityController), Renamed(t, Method, TrustRegionKind)];
    if Reliability in t && !t[Reliability].Table? then None
    else
      match Select(rest)
      case Ambiguous => None
      case Nothing => Joined(Some(head), PlanShape(rest))
      case Primitive(name, fields) =>
        Joined(
          Some(head + [map[TrustRegionKind := Name(Normalized(name))], Renamed(fields, Shape, TrustRegionShape),
                       Without(fields, {Shape})]),
          PlanShape(Without(rest, {name})))
  }

  function PlanShape(t: Document): Plan {
    if TensorFamily in t then None
    else
      Some([Renamed(t, Kind, TrustRegionKind), Renamed(t, Shape, TrustRegionShape), Without(t, {Kind, Shape})])
  }

  // The sections in the order they are lowered; the trust region, which has two spellings, is last.
  const SECTIONS: seq<Key> :=
    [Pretrain, Study, Rounds, Experiment, Objective, Perturbation, Proposal, Acquisition, Surrogate]

  function PlanOf(section: Key, t: Document): Plan {
    match section
    case Pretrain => PlanPretrain(t)
    case Study => PlanStudy(t)
    case Rounds => PlanRounds(t)
    case Objective => PlanObjective(t)
    case Perturbation => PlanPerturbation(t)
    case Proposal => PlanProposal(t)
    case Acquisition => PlanAcquisition(t)
    case Surrogate => PlanSurrogate(t)
    case TrustRegion => PlanTrustRegion(t)
    case _ => Some([t])
  }

  // ---------------------------------------------------------------- the whole document

  function Section(d: Document, section: Key): Document {
    if section in d && d[section].Table? then d[section].fields else map[]
  }

  function Drop(d: Document, section: Key): Document {
    if section in d && d[section].Table? then Without(d, {section}) else d
  }

  function Land(d: Document, plan: Plan): Option<Document> {
    if plan.None? then None else MoveAll(d, plan.value)
  }

  function LowerSections(d: Document, sections: seq<Key>): Option<Document>
    decreases |sections|
  {
    if sections == [] then Some(d)
    else
      var next := Land(Drop(d, sections[0]), PlanOf(sections[0], Section(d, sections[0])));
      if next.None? then None else LowerSections(next.value, sections[1..])
  }

  function LowerTrustRegion(d: Document): Option<Document> {
    var public, legacy := Section(d, PublicTrustRegion), Section(d, TrustRegion);
    if public != map[] && legacy != map[] then None
    else
      Land(Drop(Drop(d, PublicTrustRegion), TrustRegion),
           PlanOf(TrustRegion, if public != map[] then public else legacy))
  }

  function LowerWith(d: Document, sections: seq<Key>): Option<Document> {
    var next := LowerSections(d, sections);
    if next.None? then None else LowerTrustRegion(next.value)
  }

  function Lower(d: Document): Option<Document> {
    LowerWith(d, SECTIONS)
  }

  method MoveGroups(d: Document, groups: seq<Document>) returns (r: Option<Document>)
    ensures r == MoveAll(d, groups)
  {
    var document := d;
    for n := 0 to |groups|
      invariant MoveAll(d, groups) == MoveAll(document, groups[n..])
    {
      assert groups[n..][0] == groups[n] && groups[n..][1..] == groups[n + 1..];
      var moved := MoveFields(document, groups[n]);
      if moved.None? {
        return None;
      }
      document := moved.value;
    }
    r := Some(document);
  }

  method LowerStudy(raw: Document) returns (r: Option<Document>)
    ensures r == Lower(raw)
  {
    r := LowerInOrder(raw, SECTIONS);
  }

  method LowerInOrder(raw: Document, sections: seq<Key>) returns (r: Option<Document>)
    ensures r == LowerWith(raw, sections)
  {
    var document := raw;
    for n := 0 to |sections|
      invariant LowerSections(raw, sections) == LowerSections(document, sections[n..])
    {
      var section := sections[n];
      assert sections[n..][0] == section && sections[n..][1..] == sections[n + 1..];
      var plan := PlanOf(section, Section(document, section));
      if plan.None? {
        return None;
      }
      var moved := MoveGroups(Drop(document, section), plan.value);
      if moved.None? {
        return None;
      }
      document := moved.value;
    }
    var public, legacy := Section(document, PublicTrustRegion), Section(document, TrustRegion);
    if public != map[] && legacy != map[] {
      return None;
    }
    var plan := PlanOf(TrustRegion, if public != map[] then public else legacy);
    if plan.None? {
      return None;
    }
    r := MoveGroups(Drop(Drop(document, PublicTrustRegion), TrustRegion), plan.value);
  }
}
