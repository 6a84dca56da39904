// How the names of a study configuration are written, and what normalising one means.

module Names {
  import opened Lowering

  // How a name is written.
  function Text(name: Key): string {
    match name
    case Pretrain => "pretrain"
    case Study => "study"
    case Rounds => "rounds"
    case Experiment => "experiment"
    case Objective => "objective"
    case Perturbation => "perturbation"
    case Proposal => "proposal"
    case Acquisition => "acquisition"
    case Surrogate => "surrogate"
    case PublicTrustRegion => "trust-region"
    case TrustRegion => "trust_region"
    case Kind => "kind"
    case Count => "count"
    case TargetMs => "target_ms"
    case TargetRoundMs => "target_round_ms"
    case Reference => "reference"
    case ObjectiveReference => "objective_reference"
    case Distribution => "distribution"
    case Method => "method"
    case FitCandidates => "fit_candidates"
    case FitSamples => "fit_samples"
    case NumCandidates => "num_candidates"
    case NumSamples => "num_samples"
    case Neighbors => "neighbors"
    case Candidates => "candidates"
    case Samples => "samples"
    case KNeighbors => "k_neighbors"
    case Fit => "fit"
    case Enn => "enn"
    case ResidentEnn => "resident_enn"
    case DashedResidentEnn => "resident-enn"
    case Reliability => "reliability"
    case ReliabilityController => "reliability_controller"
    case Shape => "shape"
    case TrustRegionKind => "trust_region_kind"
    case TrustRegionShape => "trust_region_shape"
    case TensorFamily => "tensor_family"
    case Other(text) => text
  }

  predicate Dashless(text: string) {
    forall i :: 0 <= i < |text| ==> text[i] != '-'
  }

  predicate NamesSection(name: Key) {
    || name.Pretrain? || name.Study? || name.Rounds? || name.Experiment? || name.Objective? || name.Perturbation?
    || name.Proposal? || name.Acquisition? || name.Surrogate? || name.TrustRegion? || name.Kind? || name.Count?
  }

  predicate NamesSize(name: Key) {
    || name.FitCandidates? || name.FitSamples? || name.NumCandidates? || name.NumSamples? || name.Neighbors?
    || name.Candidates? || name.Samples? || name.KNeighbors?
  }

  predicate NamesModel(name: Key) { name.Fit? || name.Enn? || name.ResidentEnn? || name.Reliability? || name.Shape? }

  predicate NamesRegion(name: Key) {
    name.ReliabilityController? || name.TrustRegionKind? || name.TrustRegionShape? || name.TensorFamily?
  }

  lemma SectionDashless(name: Key)
    requires NamesSection(name)
    ensures Dashless(Text(name))
  {
  }

  lemma SizeDashless(name: Key)
    requires NamesSize(name)
    ensures Dashless(Text(name))
  {
  }

  lemma ModelDashless(name: Key)
    requires NamesModel(name)
    ensures Dashless(Text(name))
  {
  }

  lemma RegionDashless(name: Key)
    requires NamesRegion(name)
    ensures Dashless(Text(name))
  {
  }

  lemma KnownIsDashless(name: Key)
    requires !name.Other? && name != DashedResidentEnn && name != PublicTrustRegion
    ensures Dashless(Text(name))
  {
    if NamesSection(name) {
      SectionDashless(name);
    } else if NamesSize(name) {
      SizeDashless(name);
    } else if NamesModel(name) {
      ModelDashless(name);
    } else if NamesRegion(name) {
      RegionDashless(name);
    }
  }

  lemma SizeSpelled(text: string, name: Key)
    requires name == Spelling(text) && NamesSize(name)
    ensures Text(name) == text
  {
  }

  lemma ModelSpelled(text: string, name: Key)
    requires name == Spelling(text) && NamesModel(name)
    ensures Text(name) == text
  {
  }

  lemma RegionSpelled(text: string, name: Key)
    requires name == Spelling(text) && NamesRegion(name)
    ensures Text(name) == text
  {
  }

  lemma SpelledBack(text: string)
    ensures Text(Spelling(text)) == text
  {
    var name := Spelling(text);
    if NamesSize(name) {
      SizeSpelled(text, name);
    } else if NamesModel(name) {
      ModelSpelled(text, name);
    } else if NamesRegion(name) {
      RegionSpelled(text, name);
    }
  }

  // Normalising replaces the dashes of a name and changes nothing else.
  lemma NormalizedText(name: Key)
    ensures Text(Normalized(name)) == Underscored(Text(name))
  {
    match name
    case Other(text) => SpelledBack(Underscored(text));
    case DashedResidentEnn => DashedSpelled();
    case PublicTrustRegion => DashedSpelled();
    case _ =>
      KnownIsDashless(name);
      assert Underscored(Text(name)) == Text(name);
  }

  lemma DashedSpelled()
    ensures Underscored("resident-enn") == "resident_enn" && Underscored("trust-region") == "trust_region"
  {
  }
}
