// The fields of one section of a study configuration: under which name each of them lands, and in
// which group of the section's plan. Every field has its own place, and a plan moves nothing else.

module SectionFields {
  import opened Wrappers
  import opened Lowering

  // ---------------------------------------------------------------- fields and their places

  // The top-level name of a section's field.
  function Target(section: Key, k: Key): Key {
    match section
    case Study => if k == Kind then Study else k
    case Rounds => if k == Count then Rounds else if k == TargetMs then TargetRoundMs else k
    case Objective => if k == Reference then ObjectiveReference else k
    case Perturbation => if k == Distribution then Perturbation else k
    case Proposal => if k == Distribution then Perturbation else k
    case Acquisition => if k == Method || k == Kind then Acquisition else k
    case Surrogate =>
      if k == FitCandidates then NumCandidates else if k == FitSamples then NumSamples else SizeTarget(k)
    case TrustRegion =>
      if k == Reliability then ReliabilityController
      else if k == Method || k == Kind then TrustRegionKind
      else ShapeTarget(k)
    case _ => k
  }

  function SizeTarget(k: Key): Key {
    if k == Neighbors then KNeighbors
    else if k == Candidates then NumCandidates
    else if k == Samples then NumSamples
    else k
  }

  function ShapeTarget(k: Key): Key {
    if k == Shape then TrustRegionShape else k
  }

  // Fields the section itself moves: not the surrogate's markers, and not the table that selects a
  // primitive.
  predicate Direct(section: Key, t: Document, k: Key) {
    k in t &&
    match section
    case Perturbation => k == Distribution || !t[k].Table?
    case Acquisition => k == Method || !t[k].Table?
    case Surrogate => k != Method && k != Kind && (k == FitCandidates || k == FitSamples || !t[k].Table?)
    case TrustRegion => k == Reliability || k == Method || !t[k].Table?
    case _ => true
  }

  // The primitive a section selects, if it selects any.
  function Choice(section: Key, t: Document): Selected {
    match section
    case Perturbation => Select(Without(t, {Distribution}))
    case Acquisition => Select(Without(t, {Method}))
    case Surrogate => Select(Without(t, {Method, FitCandidates, FitSamples}))
    case TrustRegion => Select(Without(t, {Reliability, Method}))
    case _ => Nothing
  }

  // A field of a section: one of its own, the name of the primitive it selects, one of that
  // primitive's, one of a surrogate's fit settings, or the mark that a pretrain section leaves.
  datatype Origin = Marker | Own(key: Key) | Chosen | Inner(key: Key) | Fitted(key: Key)

  datatype Landing = Landing(key: Key, value: Value)

  // Where a field belongs; None for what is no field of the section, or only a surrogate's marker.
  function LandingOf(section: Key, t: Document, o: Origin): Option<Landing> {
    match o
    case Marker => if section == Pretrain && t != map[] then Some(Landing(Study, Name(Pretrain))) else None
    case Own(k) => if Direct(section, t, k) then Some(Landing(Target(section, k), t[k])) else None
    case Chosen =>
      (match Choice(section, t)
       case Primitive(name, _) => ChosenLanding(section, name)
       case _ => None)
    case Inner(k) =>
      (match Choice(section, t)
       case Primitive(_, fields) => InnerLanding(section, fields, k)
       case _ => None)
    case Fitted(k) =>
      (match Choice(section, t)
       case Primitive(_, fields) =>
         if section == Surrogate && k in FitTable(fields) then Some(Landing(SizeTarget(k), FitTable(fields)[k]))
         else None
       case _ => None)
  }

  function ChosenLanding(section: Key, name: Key): Option<Landing> {
    match section
    case Perturbation => Some(Landing(Perturbation, Name(name)))
    case Acquisition => Some(Landing(Acquisition, Name(name)))
    case TrustRegion => Some(Landing(TrustRegionKind, Name(Normalized(name))))
    case _ => None
  }

  function InnerLanding(section: Key, fields: Document, k: Key): Option<Landing> {
    if k !in fields then None
    else
      match section
      case Acquisition => Some(Landing(k, fields[k]))
      case TrustRegion => Some(Landing(ShapeTarget(k), fields[k]))
      case Surrogate => if k == Fit && fields[k].Table? then None else Some(Landing(SizeTarget(k), fields[k]))
      case _ => None
  }

  function FitTable(fields: Document): Document {
    if Fit in fields && fields[Fit].Table? then fields[Fit].fields else map[]
  }

  // ---------------------------------------------------------------- the group that moves a field

  function SizeSpot(k: Key): nat {
    if k == Neighbors then 0 else if k == Candidates then 1 else if k == Samples then 2 else 3
  }

  // The group of a plan with n groups.
  function Spot(section: Key, n: nat, o: Origin): int {
    match section
    case Pretrain => if o == Marker then 0 else 1
    case Study => if o == Own(Kind) then 0 else 1
    case Rounds => if o == Own(Count) then 0 else if o == Own(TargetMs) then 1 else 2
    case Objective => if o == Own(Reference) then 0 else 1
    case Proposal => if o == Own(Distribution) then 0 else 1
    case Perturbation => if o == Own(Distribution) then 0 else if o == Chosen then 1 else n - 1
    case Acquisition =>
      if o == Own(Method) then 0
      else if o == Chosen then 1
      else if o.Inner? then 2
      else if o == Own(Kind) then n - 2
      else n - 1
    case Surrogate => SurrogateSpot(n, o)
    case TrustRegion =>
      if o == Own(Reliability) then 0
      else if o == Own(Method) then 1
      else if o == Chosen then 2
      else if o.Inner? then (if o.key == Shape then 3 else 4)
      else if o == Own(Kind) then n - 3
      else if o == Own(Shape) then n - 2
      else n - 1
    case _ => 0
  }

  function SurrogateSpot(n: nat, o: Origin): int {
    match o
    case Own(k) => if k == FitCandidates then 0 else if k == FitSamples then 1 else n - 4 + SizeSpot(k)
    case Fitted(k) => 2 + (if k == Candidates then 0 else 1)
    case Inner(k) => n - 8 + SizeSpot(k)
    case _ => 0
  }

  ghost predicate LandsAt(groups: seq<Document>, j: int, l: Landing) {
    0 <= j < |groups| && l.key in groups[j] && groups[j][l.key] == l.value
  }

  lemma LandsWithin(groups: seq<Document>, a: nat, b: nat, part: seq<Document>, j: int, l: Landing)
    requires a <= b <= |groups| && groups[a..b] == part && LandsAt(part, j, l)
    ensures LandsAt(groups, a + j, l)
  {
    assert groups[a..b][j] == groups[a + j];
  }

  // The field that a plan's group has under a key.
  function OriginAt(section: Key, n: nat, j: nat, k: Key): Origin {
    match section
    case Pretrain => if j == 0 then Marker else Own(k)
    case Study => Own(if j == 0 then Kind else k)
    case Rounds => Own(if j == 0 then Count else if j == 1 then TargetMs else k)
    case Objective => Own(if j == 0 then Reference else k)
    case Proposal => Own(if j == 0 then Distribution else k)
    case Perturbation => if j == 0 then Own(Distribution) else if j == n - 1 then Own(k) else Chosen
    case Acquisition =>
      if j == 0 then Own(Method)
      else if j == n - 1 then Own(k)
      else if j == n - 2 then Own(Kind)
      else if j == 1 then Chosen
      else Inner(k)
    case Surrogate =>
      if j == 0 then Own(FitCandidates)
      else if j == 1 then Own(FitSamples)
      else if j >= n - 4 then Own(SizeAt(j - (n - 4), k))
      else if j >= n - 8 then Inner(SizeAt(j - (n - 8), k))
      else Fitted(if j == 2 then Candidates else Samples)
    case TrustRegion =>
      if j == 0 then Own(Reliability)
      else if j == 1 then Own(Method)
      else if j == n - 1 then Own(k)
      else if j == n - 2 then Own(Shape)
      else if j == n - 3 then Own(Kind)
      else if j == 2 then Chosen
      else Inner(if j == 3 then Shape else k)
    case _ => Own(k)
  }

  function SizeAt(i: int, k: Key): Key {
    if i == 0 then Neighbors else if i == 1 then Candidates else if i == 2 then Samples else k
  }

  // ---------------------------------------------------------------- what the plans consist of

  // What a section with a primitive has left when that is gone.
  function Remaining(rest: Document): Document {
    match Select(rest)
    case Primitive(name, _) => Without(rest, {name})
    case _ => rest
  }

  lemma RemainingPlain(rest: Document)
    requires !Select(rest).Ambiguous?
    ensures forall k :: k in Remaining(rest) <==> k in rest && !rest[k].Table?
    ensures forall k :: k in Remaining(rest) ==> Remaining(rest)[k] == rest[k]
  {
    assert forall k :: k in rest ==> (rest[k].Table? <==> k in Tables(rest));
  }

  // A surrogate's plan: its own fit settings, the primitive's fields, and the other sizes.
  ghost predicate SurrogateShaped(t: Document, plan: seq<Document>, rest: Document) {
    && rest == Without(t, {Method, FitCandidates, FitSamples}) && !Select(rest).Ambiguous? && |plan| >= 6
    && plan[0] == Renamed(t, FitCandidates, NumCandidates) && plan[1] == Renamed(t, FitSamples, NumSamples)
    && plan[|plan| - 4..] == Sizes(Without(Remaining(rest), {Kind}))
    && (Select(rest).Nothing? ==> |plan| == 6)
    && (Select(rest).Primitive? ==> PlanFit(Select(rest).fields) == Some(plan[2..|plan| - 4]))
  }

  lemma SurrogatePlanShape(t: Document, plan: seq<Document>, rest: Document)
    requires PlanSurrogate(t) == Some(plan) && rest == Without(t, {Method, FitCandidates, FitSamples})
    ensures SurrogateShaped(t, plan, rest)
  {
  }

  // A trust region's plan: two of its own fields, the primitive's name and fields, and the others.
  ghost predicate TrustRegionShaped(t: Document, plan: seq<Document>, rest: Document) {
    && rest == Without(t, {Reliability, Method}) && !Select(rest).Ambiguous?
    && |plan| == (if Select(rest).Nothing? then 5 else 8)
    && plan[0] == Renamed(t, Reliability, ReliabilityController) && plan[1] == Renamed(t, Method, TrustRegionKind)
    && PlanShape(Remaining(rest)) == Some(plan[|plan| - 3..])
    && (Select(rest).Primitive? ==>
          && plan[2] == map[TrustRegionKind := Name(Normalized(Select(rest).name))]
          && plan[3] == Renamed(Select(rest).fields, Shape, TrustRegionShape)
          && plan[4] == Without(Select(rest).fields, {Shape}))
  }

  lemma TrustRegionPlanShape(t: Document, plan: seq<Document>, rest: Document)
    requires PlanTrustRegion(t) == Some(plan) && rest == Without(t, {Reliability, Method})
    ensures TrustRegionShaped(t, plan, rest)
  {
  }

  // An acquisition's: its own method, the primitive's name and fields, and the others.
  ghost predicate AcquisitionShaped(t: Document, plan: seq<Document>, rest: Document) {
    && rest == Without(t, {Method}) && !Select(rest).Ambiguous?
    && |plan| == (if Select(rest).Nothing? then 3 else 5)
    && plan[0] == Renamed(t, Method, Acquisition)
    && plan[|plan| - 2] == Renamed(Remaining(rest), Kind, Acquisition)
    && plan[|plan| - 1] == Without(Remaining(rest), {Kind})
    && (Select(rest).Primitive? ==>
          plan[1] == map[Acquisition := Name(Select(rest).name)] && plan[2] == Select(rest).fields)
  }

  lemma AcquisitionPlanShape(t: Document, plan: seq<Document>, rest: Document)
    requires PlanAcquisition(t) == Some(plan) && rest == Without(t, {Method})
    ensures AcquisitionShaped(t, plan, rest)
  {
  }

  ghost predicate PerturbationShaped(t: Document, plan: seq<Document>, rest: Document) {
    && rest == Without(t, {Distribution}) && !Select(rest).Ambiguous?
    && |plan| == (if Select(rest).Nothing? then 2 else 3)
    && plan[0] == Renamed(t, Distribution, Perturbation) && plan[|plan| - 1] == Remaining(rest)
    && (Select(rest).Primitive? ==> plan[1] == map[Perturbation := Name(Select(rest).name)])
  }

  lemma PerturbationPlanShape(t: Document, plan: seq<Document>, rest: Document)
    requires PlanPerturbation(t) == Some(plan) && rest == Without(t, {Distribution})
    ensures PerturbationShaped(t, plan, rest)
  {
  }

  // ---------------------------------------------------------------- every field is in its spot

  ghost predicate SpotHolds(section: Key, t: Document, plan: seq<Document>, o: Origin) {
    LandingOf(section, t, o).Some? ==> LandsAt(plan, Spot(section, |plan|, o), LandingOf(section, t, o).value)
  }

  lemma FieldLands(section: Key, t: Document, plan: seq<Document>, o: Origin)
    requires PlanOf(section, t) == Some(plan)
    ensures SpotHolds(section, t, plan, o)
  {
    match section
    case Perturbation => PerturbationLands(t, plan, o);
    case Acquisition => AcquisitionLands(t, plan, o);
    case Surrogate => SurrogateLands(t, plan, o);
    case TrustRegion => TrustRegionLands(t, plan, o);
    case _ =>
  }

  lemma PerturbationLands(t: Document, plan: seq<Document>, o: Origin)
    requires PlanPerturbation(t) == Some(plan)
    ensures SpotHolds(Perturbation, t, plan, o)
  {
    PerturbationPlanShape(t, plan, Without(t, {Distribution}));
    PerturbationIn(t, plan, Without(t, {Distribution}), o);
  }

  lemma PerturbationIn(t: Document, plan: seq<Document>, rest: Document, o: Origin)
    requires PerturbationShaped(t, plan, rest)
    ensures SpotHolds(Perturbation, t, plan, o)
  {
    RemainingPlain(rest);
  }

  lemma AcquisitionLands(t: Document, plan: seq<Document>, o: Origin)
    requires PlanAcquisition(t) == Some(plan)
    ensures SpotHolds(Acquisition, t, plan, o)
  {
    AcquisitionPlanShape(t, plan, Without(t, {Method}));
    AcquisitionIn(t, plan, Without(t, {Method}), o);
  }

  lemma AcquisitionIn(t: Document, plan: seq<Document>, rest: Document, o: Origin)
    requires AcquisitionShaped(t, plan, rest)
    ensures SpotHolds(Acquisition, t, plan, o)
  {
    RemainingPlain(rest);
  }

  lemma TrustRegionLands(t: Document, plan: seq<Document>, o: Origin)
    requires PlanTrustRegion(t) == Some(plan)
    ensures SpotHolds(TrustRegion, t, plan, o)
  {
    TrustRegionPlanShape(t, plan, Without(t, {Reliability, Method}));
    TrustRegionIn(t, plan, Without(t, {Reliability, Method}), o);
  }

  lemma TrustRegionIn(t: Document, plan: seq<Document>, rest: Document, o: Origin)
    requires TrustRegionShaped(t, plan, rest)
    ensures SpotHolds(TrustRegion, t, plan, o)
  {
    if o.Own? && LandingOf(TrustRegion, t, o).Some? && o.key != Reliability && o.key != Method {
      RemainingPlain(rest);
      TrustRegionOwn(t, plan, Remaining(rest), o.key);
    }
  }

  lemma TrustRegionOwn(t: Document, plan: seq<Document>, left: Document, k: Key)
    requires |plan| >= 5 && PlanShape(left) == Some(plan[|plan| - 3..])
    requires k in left && k in t && left[k] == t[k] && k != Reliability && k != Method
    ensures LandsAt(plan, Spot(TrustRegion, |plan|, Own(k)), Landing(Target(TrustRegion, k), t[k]))
  {
    ShapeLands(left, k);
    LandsWithin(plan, |plan| - 3, |plan|, PlanShape(left).value, ShapeSpot(k), Landing(Target(TrustRegion, k), t[k]));
  }

  function ShapeSpot(k: Key): nat {
    if k == Kind then 0 else if k == Shape then 1 else 2
  }

  lemma ShapeLands(t: Document, k: Key)
    requires PlanShape(t).Some? && k in t && k != Reliability && k != Method
    ensures LandsAt(PlanShape(t).value, ShapeSpot(k), Landing(Target(TrustRegion, k), t[k]))
  {
  }

  lemma SurrogateLands(t: Document, plan: seq<Document>, o: Origin)
    requires PlanSurrogate(t) == Some(plan)
    ensures SpotHolds(Surrogate, t, plan, o)
  {
    SurrogatePlanShape(t, plan, Without(t, {Method, FitCandidates, FitSamples}));
    SurrogateIn(t, plan, Without(t, {Method, FitCandidates, FitSamples}), o);
  }

  lemma SurrogateIn(t: Document, plan: seq<Document>, rest: Document, o: Origin)
    requires SurrogateShaped(t, plan, rest)
    ensures SpotHolds(Surrogate, t, plan, o)
  {
    if LandingOf(Surrogate, t, o).Some? {
      match o
      case Own(k) => SurrogateOwn(t, plan, rest, k);
      case Inner(k) => SurrogateInner(t, plan, rest, o);
      case Fitted(k) => SurrogateInner(t, plan, rest, o);
    }
  }

  lemma SurrogateOwn(t: Document, plan: seq<Document>, rest: Document, k: Key)
    requires SurrogateShaped(t, plan, rest)
    ensures SpotHolds(Surrogate, t, plan, Own(k))
  {
    if k != FitCandidates && k != FitSamples && Direct(Surrogate, t, k) {
      RemainingPlain(rest);
      SurrogateSize(t, plan, Without(Remaining(rest), {Kind}), k);
    }
  }

  lemma SurrogateSize(t: Document, plan: seq<Document>, left: Document, k: Key)
    requires |plan| >= 6 && plan[|plan| - 4..] == Sizes(left)
    requires k in left && k in t && left[k] == t[k] && k != FitCandidates && k != FitSamples
    ensures LandsAt(plan, Spot(Surrogate, |plan|, Own(k)), Landing(Target(Surrogate, k), t[k]))
  {
    SizesLand(left, k);
    LandsWithin(plan, |plan| - 4, |plan|, Sizes(left), SizeSpot(k), Landing(SizeTarget(k), t[k]));
  }

  lemma SizesLand(t: Document, k: Key)
    requires k in t
    ensures LandsAt(Sizes(t), SizeSpot(k), Landing(SizeTarget(k), t[k]))
  {
  }

  lemma SurrogateInner(t: Document, plan: seq<Document>, rest: Document, o: Origin)
    requires SurrogateShaped(t, plan, rest) && Select(rest).Primitive? && (o.Inner? || o.Fitted?)
    ensures SpotHolds(Surrogate, t, plan, o)
  {
    var fields, fit := Select(rest).fields, plan[2..|plan| - 4];
    var l := FitLanding(fields, o);
    if l.Some? {
      FitLands(fields, fit, o);
      LandsWithin(plan, 2, |plan| - 4, fit, FitSpot(|fit|, o), l.value);
    }
  }

  // A field of the surrogate's primitive.
  function FitLanding(fields: Document, o: Origin): Option<Landing>
    requires o.Inner? || o.Fitted?
  {
    match o
    case Inner(k) => InnerLanding(Surrogate, fields, k)
    case Fitted(k) => if k in FitTable(fields) then Some(Landing(SizeTarget(k), FitTable(fields)[k])) else None
  }

  function FitSpot(n: nat, o: Origin): int
    requires o.Inner? || o.Fitted?
  {
    match o
    case Inner(k) => n - 4 + SizeSpot(k)
    case Fitted(k) => if k == Candidates then 0 else 1
  }

  lemma FitLands(fields: Document, fit: seq<Document>, o: Origin)
    requires PlanFit(fields) == Some(fit) && (o.Inner? || o.Fitted?) && FitLanding(fields, o).Some?
    ensures LandsAt(fit, FitSpot(|fit|, o), FitLanding(fields, o).value)
  {
    if o.Inner? {
      var left := if Fit in fields && fields[Fit].Table? then Without(fields, {Fit}) else fields;
      SizesLand(left, o.key);
      LandsWithin(fit, |fit| - 4, |fit|, Sizes(left), SizeSpot(o.key), FitLanding(fields, o).value);
    }
  }

  // ---------------------------------------------------------------- every spot leads back to its field

  // How many groups there are.
  ghost predicate Counted(section: Key, t: Document, n: nat) {
    match section
    case Rounds => n == 3
    case Perturbation => n == if Choice(section, t).Nothing? then 2 else 3
    case Acquisition => n == if Choice(section, t).Nothing? then 3 else 5
    case Surrogate =>
      (match Choice(section, t)
       case Primitive(_, fields) =>
         n == (if Fit in fields && fields[Fit].Table? then 12 else 10) && FitTable(fields).Keys <= {Candidates, Samples}
       case _ => n == 6)
    case TrustRegion => n == if Choice(section, t).Nothing? then 5 else 8
    case _ => true
  }

  lemma PlanCounted(section: Key, t: Document, plan: seq<Document>)
    requires PlanOf(section, t) == Some(plan)
    ensures Counted(section, t, |plan|)
  {
    match section
    case Perturbation => PerturbationPlanShape(t, plan, Without(t, {Distribution}));
    case Acquisition => AcquisitionPlanShape(t, plan, Without(t, {Method}));
    case Surrogate => SurrogatePlanShape(t, plan, Without(t, {Method, FitCandidates, FitSamples}));
    case TrustRegion => TrustRegionPlanShape(t, plan, Without(t, {Reliability, Method}));
    case _ =>
  }

  ghost predicate LeadsBack(section: Key, t: Document, n: nat, o: Origin) {
    LandingOf(section, t, o).Some? && Spot(section, n, o) >= 0 ==>
      OriginAt(section, n, Spot(section, n, o), LandingOf(section, t, o).value.key) == o
  }

  lemma SpotLeadsBack(section: Key, t: Document, n: nat, o: Origin)
    requires Counted(section, t, n)
    ensures LeadsBack(section, t, n, o)
  {
    match section
    case Perturbation => PerturbationLeadsBack(t, n, o);
    case Acquisition => AcquisitionLeadsBack(t, n, o);
    case Surrogate => SurrogateLeadsBack(t, n, o);
    case TrustRegion => TrustRegionLeadsBack(t, n, o);
    case _ => PlainLeadsBack(section, t, n, o);
  }

  // Sections that select no primitive.
  predicate Plain(section: Key) {
    section != Perturbation && section != Acquisition && section != Surrogate && section != TrustRegion
  }

  lemma PlainLeadsBack(section: Key, t: Document, n: nat, o: Origin)
    requires Plain(section) && Counted(section, t, n)
    ensures LeadsBack(section, t, n, o)
  {
  }

  lemma PerturbationLeadsBack(t: Document, n: nat, o: Origin)
    requires Counted(Perturbation, t, n)
    ensures LeadsBack(Perturbation, t, n, o)
  {
  }

  lemma AcquisitionLeadsBack(t: Document, n: nat, o: Origin)
    requires Counted(Acquisition, t, n)
    ensures LeadsBack(Acquisition, t, n, o)
  {
  }

  lemma SurrogateLeadsBack(t: Document, n: nat, o: Origin)
    requires Counted(Surrogate, t, n)
    ensures LeadsBack(Surrogate, t, n, o)
  {
  }

  lemma TrustRegionLeadsBack(t: Document, n: nat, o: Origin)
    requires Counted(TrustRegion, t, n)
    ensures LeadsBack(TrustRegion, t, n, o)
  {
  }

  // ---------------------------------------------------------------- a plan moves nothing but fields

  // The group at j has under k only the field that leads there.
  ghost predicate Originates(section: Key, t: Document, n: nat, j: nat, group: Document, k: Key) {
    k in group ==> LandingOf(section, t, OriginAt(section, n, j, k)) == Some(Landing(k, group[k]))
  }

  lemma GroupsOriginate(section: Key, t: Document, plan: seq<Document>, j: nat, k: Key)
    requires PlanOf(section, t) == Some(plan) && j < |plan|
    ensures Originates(section, t, |plan|, j, plan[j], k)
  {
    match section
    case Perturbation =>
      PerturbationPlanShape(t, plan, Without(t, {Distribution}));
      PerturbationOriginates(t, plan, Without(t, {Distribution}), j, k);
    case Acquisition =>
      AcquisitionPlanShape(t, plan, Without(t, {Method}));
      AcquisitionOriginates(t, plan, Without(t, {Method}), j, k);
    case Surrogate =>
      SurrogatePlanShape(t, plan, Without(t, {Method, FitCandidates, FitSamples}));
      SurrogateOriginates(t, plan, Without(t, {Method, FitCandidates, FitSamples}), j, k);
    case TrustRegion =>
      TrustRegionPlanShape(t, plan, Without(t, {Reliability, Method}));
      TrustRegionOriginates(t, plan, Without(t, {Reliability, Method}), j, k);
    case _ => PlainOriginates(section, t, plan, j, k);
  }

  lemma PlainOriginates(section: Key, t: Document, plan: seq<Document>, j: nat, k: Key)
    requires Plain(section) && PlanOf(section, t) == Some(plan) && j < |plan|
    ensures Originates(section, t, |plan|, j, plan[j], k)
  {
  }

  lemma PerturbationOriginates(t: Document, plan: seq<Document>, rest: Document, j: nat, k: Key)
    requires PerturbationShaped(t, plan, rest) && j < |plan|
    ensures Originates(Perturbation, t, |plan|, j, plan[j], k)
  {
    RemainingPlain(rest);
  }

  lemma AcquisitionOriginates(t: Document, plan: seq<Document>, rest: Document, j: nat, k: Key)
    requires AcquisitionShaped(t, plan, rest) && j < |plan|
    ensures Originates(Acquisition, t, |plan|, j, plan[j], k)
  {
    RemainingPlain(rest);
  }

  lemma SurrogateOriginates(t: Document, plan: seq<Document>, rest: Document, j: nat, k: Key)
    requires SurrogateShaped(t, plan, rest) && j < |plan|
    ensures Originates(Surrogate, t, |plan|, j, plan[j], k)
  {
    var n := |plan|;
    if j >= n - 4 {
      assert plan[j] == plan[n - 4..][j - (n - 4)];
      SurrogateLast(t, n, rest, Without(Remaining(rest), {Kind}), j, k);
    } else if j >= 2 {
      assert plan[j] == plan[2..n - 4][j - 2];
      SurrogateMiddle(t, n, Select(rest).name, Select(rest).fields, plan[2..n - 4], j, k);
    } else {
      SurrogateFirst(t, n, plan[j], j, k);
    }
  }

  lemma SurrogateFirst(t: Document, n: nat, group: Document, j: nat, k: Key)
    requires j < 2
    requires group == if j == 0 then Renamed(t, FitCandidates, NumCandidates) else Renamed(t, FitSamples, NumSamples)
    ensures Originates(Surrogate, t, n, j, group, k)
  {
  }

  lemma SurrogateMiddle(t: Document, n: nat, name: Key, fields: Document, fit: seq<Document>, j: nat, k: Key)
    requires Choice(Surrogate, t) == Primitive(name, fields)
    requires PlanFit(fields) == Some(fit) && |fit| == n - 6 && 2 <= j < n - 4
    ensures Originates(Surrogate, t, n, j, fit[j - 2], k)
  {
    if k in fit[j - 2] {
      FitOriginates(fields, fit, j - 2, k);
    }
  }

  lemma SurrogateLast(t: Document, n: nat, rest: Document, left: Document, j: nat, k: Key)
    requires rest == Without(t, {Method, FitCandidates, FitSamples}) && !Select(rest).Ambiguous?
    requires left == Without(Remaining(rest), {Kind}) && n >= 6 && n - 4 <= j < n
    ensures Originates(Surrogate, t, n, j, Sizes(left)[j - (n - 4)], k)
  {
    if k in Sizes(left)[j - (n - 4)] {
      SizesOriginate(left, j - (n - 4), k);
      RemainingPlain(rest);
    }
  }

  lemma SizesOriginate(t: Document, i: nat, k: Key)
    requires i < 4 && k in Sizes(t)[i]
    ensures SizeAt(i, k) in t && SizeTarget(SizeAt(i, k)) == k && Sizes(t)[i][k] == t[SizeAt(i, k)]
  {
  }

  lemma FitOriginates(fields: Document, fit: seq<Document>, i: nat, k: Key)
    requires PlanFit(fields) == Some(fit) && i < |fit| && k in fit[i]
    ensures var n := |fit|;
      if i >= n - 4 then
        InnerLanding(Surrogate, fields, SizeAt(i - (n - 4), k)) == Some(Landing(k, fit[i][k]))
      else
        FitLanding(fields, Fitted(if i == 0 then Candidates else Samples)) == Some(Landing(k, fit[i][k]))
  {
    var n := |fit|;
    if i >= n - 4 {
      var left := if Fit in fields && fields[Fit].Table? then Without(fields, {Fit}) else fields;
      assert fit[i] == Sizes(left)[i - (n - 4)];
      SizesOriginate(left, i - (n - 4), k);
    }
  }

  lemma TrustRegionOriginates(t: Document, plan: seq<Document>, rest: Document, j: nat, k: Key)
    requires TrustRegionShaped(t, plan, rest) && j < |plan|
    ensures Originates(TrustRegion, t, |plan|, j, plan[j], k)
  {
    if j >= |plan| - 3 {
      RemainingPlain(rest);
      assert plan[j] == plan[|plan| - 3..][j - (|plan| - 3)];
      TrustRegionLast(t, |plan|, rest, PlanShape(Remaining(rest)).value, j, k);
    } else if j < 2 {
      TrustRegionFirst(t, |plan|, plan[j], j, k);
    } else {
      TrustRegionMiddle(t, |plan|, Select(rest).name, Select(rest).fields, plan[j], j, k);
    }
  }

  lemma TrustRegionFirst(t: Document, n: nat, group: Document, j: nat, k: Key)
    requires j < 2 && n >= 5
    requires group ==
      if j == 0 then Renamed(t, Reliability, ReliabilityController) else Renamed(t, Method, TrustRegionKind)
    ensures Originates(TrustRegion, t, n, j, group, k)
  {
  }

  lemma TrustRegionMiddle(t: Document, n: nat, name: Key, fields: Document, group: Document, j: nat, k: Key)
    requires Choice(TrustRegion, t) == Primitive(name, fields) && 2 <= j < 5 && n == 8
    requires group ==
      if j == 2 then map[TrustRegionKind := Name(Normalized(name))]
      else if j == 3 then Renamed(fields, Shape, TrustRegionShape)
      else Without(fields, {Shape})
    ensures Originates(TrustRegion, t, n, j, group, k)
  {
  }

  lemma TrustRegionLast(t: Document, n: nat, rest: Document, shape: seq<Document>, j: nat, k: Key)
    requires rest == Without(t, {Reliability, Method}) && !Select(rest).Ambiguous? && n >= 5
    requires n - 3 <= j < n && PlanShape(Remaining(rest)) == Some(shape)
    ensures Originates(TrustRegion, t, n, j, shape[j - (n - 3)], k)
  {
    RemainingPlain(rest);
  }

  // ---------------------------------------------------------------- different groups have different fields

  ghost predicate SpotIs(section: Key, n: nat, j: nat, group: Document, k: Key) {
    k in group ==> Spot(section, n, OriginAt(section, n, j, k)) == j
  }

  lemma GroupsSpot(section: Key, t: Document, plan: seq<Document>, j: nat, k: Key)
    requires PlanOf(section, t) == Some(plan) && j < |plan|
    ensures SpotIs(section, |plan|, j, plan[j], k)
  {
    match section
    case Perturbation =>
      PerturbationPlanShape(t, plan, Without(t, {Distribution}));
      PerturbationSpots(t, plan, Without(t, {Distribution}), j, k);
    case Acquisition =>
      AcquisitionPlanShape(t, plan, Without(t, {Method}));
      AcquisitionSpots(t, plan, Without(t, {Method}), j, k);
    case Surrogate =>
      SurrogatePlanShape(t, plan, Without(t, {Method, FitCandidates, FitSamples}));
      SurrogateSpots(t, plan, Without(t, {Method, FitCandidates, FitSamples}), j, k);
    case TrustRegion =>
      TrustRegionPlanShape(t, plan, Without(t, {Reliability, Method}));
      TrustRegionSpots(t, plan, Without(t, {Reliability, Method}), j, k);
    case _ => PlainSpots(section, t, plan, j, k);
  }

  lemma PlainSpots(section: Key, t: Document, plan: seq<Document>, j: nat, k: Key)
    requires Plain(section) && PlanOf(section, t) == Some(plan) && j < |plan|
    ensures SpotIs(section, |plan|, j, plan[j], k)
  {
  }

  lemma PerturbationSpots(t: Document, plan: seq<Document>, rest: Document, j: nat, k: Key)
    requires PerturbationShaped(t, plan, rest) && j < |plan|
    ensures SpotIs(Perturbation, |plan|, j, plan[j], k)
  {
    RemainingPlain(rest);
  }

  lemma AcquisitionSpots(t: Document, plan: seq<Document>, rest: Document, j: nat, k: Key)
    requires AcquisitionShaped(t, plan, rest) && j < |plan|
    ensures SpotIs(Acquisition, |plan|, j, plan[j], k)
  {
    RemainingPlain(rest);
  }

  lemma SurrogateSpots(t: Document, plan: seq<Document>, rest: Document, j: nat, k: Key)
    requires SurrogateShaped(t, plan, rest) && j < |plan|
    ensures SpotIs(Surrogate, |plan|, j, plan[j], k)
  {
    var n := |plan|;
    if j >= n - 4 {
      assert plan[j] == plan[n - 4..][j - (n - 4)];
      RemainingPlain(rest);
      SurrogateLastSpots(Without(Remaining(rest), {Kind}), n, j, k);
    } else if j >= 2 {
      assert plan[j] == plan[2..n - 4][j - 2];
      SurrogateMiddleSpots(Select(rest).fields, plan[2..n - 4], n, j, k);
    }
  }

  lemma SurrogateLastSpots(left: Document, n: nat, j: nat, k: Key)
    requires n >= 6 && n - 4 <= j < n && FitCandidates !in left && FitSamples !in left
    ensures SpotIs(Surrogate, n, j, Sizes(left)[j - (n - 4)], k)
  {
    SizesSpot(left, j - (n - 4), k);
  }

  lemma SurrogateMiddleSpots(fields: Document, fit: seq<Document>, n: nat, j: nat, k: Key)
    requires PlanFit(fields) == Some(fit) && |fit| == n - 6 && 2 <= j < n - 4
    ensures SpotIs(Surrogate, n, j, fit[j - 2], k)
  {
    FitSpots(fields, fit, j - 2, k);
  }

  lemma SizesSpot(t: Document, i: nat, k: Key)
    requires i < 4
    ensures k in Sizes(t)[i] ==> SizeSpot(SizeAt(i, k)) == i && SizeAt(i, k) in t
  {
  }

  lemma FitSpots(fields: Document, fit: seq<Document>, i: nat, k: Key)
    requires PlanFit(fields) == Some(fit) && i < |fit|
    ensures |fit| == 4 || |fit| == 6
    ensures k in fit[i] && i >= |fit| - 4 ==> SizeSpot(SizeAt(i - (|fit| - 4), k)) == i - (|fit| - 4)
  {
    if i >= |fit| - 4 {
      var left := if Fit in fields && fields[Fit].Table? then Without(fields, {Fit}) else fields;
      assert fit[i] == Sizes(left)[i - (|fit| - 4)];
      SizesSpot(left, i - (|fit| - 4), k);
    }
  }

  lemma TrustRegionSpots(t: Document, plan: seq<Document>, rest: Document, j: nat, k: Key)
    requires TrustRegionShaped(t, plan, rest) && j < |plan|
    ensures SpotIs(TrustRegion, |plan|, j, plan[j], k)
  {
    if j >= |plan| - 3 {
      RemainingPlain(rest);
      assert plan[j] == plan[|plan| - 3..][j - (|plan| - 3)];
      TrustRegionLastSpots(Remaining(rest), |plan|, j, k);
    } else if j >= 2 {
      TrustRegionMiddleSpots(Select(rest).fields, plan[j], j, k);
    }
  }

  lemma TrustRegionMiddleSpots(fields: Document, group: Document, j: nat, k: Key)
    requires 2 <= j < 5
    requires j == 4 ==> group == Without(fields, {Shape})
    ensures SpotIs(TrustRegion, 8, j, group, k)
  {
  }

  lemma TrustRegionLastSpots(left: Document, n: nat, j: nat, k: Key)
    requires PlanShape(left).Some? && n >= 5 && n - 3 <= j < n && Reliability !in left && Method !in left
    ensures SpotIs(TrustRegion, n, j, PlanShape(left).value[j - (n - 3)], k)
  {
    ShapeSpots(left, j - (n - 3), k);
  }

  lemma ShapeSpots(t: Document, i: nat, k: Key)
    requires PlanShape(t).Some? && i < 3
    ensures k in PlanShape(t).value[i] && i == 2 ==> k in t && k != Kind && k != Shape
  {
  }
}
