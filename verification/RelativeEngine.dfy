// The engine that keeps a paired-relative session in place: row slots, a rotating list of
// slots for the rejections, one pending row lent to a consumer, and mode guards.

module RelativeEngine {
  import opened Wrappers
  import opened RelativeSpec

  const MAX_HISTORY: nat := 128
  const U32_MAX: nat := 0xFFFF_FFFF

  datatype SingleRow = SingleRow(slot: nat, baseSlot: nat, resident: bool)

  // A scalar as handed in: None is a NaN or an infinity.
  type Scalar = Option<real>

  datatype Acquisition = Acquisition(
    neighbors: nat, kind: nat, epistemic: Scalar, aleatoric: Scalar, rewards: Scalar, beta: Scalar)
  {
    predicate Valid() {
      && kind <= 2 && beta.Some?
      && epistemic.Some? && epistemic.value >= 0.0
      && aleatoric.Some? && aleatoric.value >= 0.0
      && rewards.Some? && rewards.value >= 0.0
    }
  }

  datatype Report = Report(value: Scalar, variance: Scalar, incumbentValue: Scalar, incumbentVariance: Scalar,
                           improvement: Scalar, improvementVariance: Scalar, accept: bool, rejectIsFailure: bool)
  {
    predicate Measured() {
      && value.Some? && incumbentValue.Some? && improvement.Some?
      && variance.Some? && variance.value >= 0.0
      && incumbentVariance.Some? && incumbentVariance.value >= 0.0
      && improvementVariance.Some? && improvementVariance.value >= 0.0
    }

    function Told(): Tell
      requires Measured()
    {
      Tell(value.value, variance.value, incumbentValue.value, incumbentVariance.value,
           improvement.value, improvementVariance.value, accept, rejectIsFailure)
    }
  }

  // The device's copy of the search state; `spoiled` is its sticky status.
  datatype SearchState = SearchState(length: real, lengthMin: real, lengthMax: real, best: real, bestVariance: real,
                                     failures: nat, history: nat, spoiled: bool)

  // ---------------------------------------------------------------- host guards

  // Base slot 0, the configured capacity, and one trial in storage beyond the history.
  predicate ValidLayout(configured: Option<nat>, slots: nat, baseSlot: nat, capacity: nat, trials: seq<nat>) {
    && configured == Some(capacity) && capacity >= 2 && baseSlot == 0
    && |trials| == 1 && capacity < trials[0] < slots
  }

  predicate ValidTell(configured: Option<nat>, slots: nat, capacity: nat, trial: nat, pending: Option<SingleRow>) {
    && ValidLayout(configured, slots, 0, capacity, [trial])
    && pending.Some? && pending.value.slot == trial && pending.value.baseSlot == 0 && pending.value.resident
  }

  // ---------------------------------------------------------------- slots

  function Count(rejected: nat, capacity: nat): nat
    requires capacity >= 1
  {
    if rejected < capacity - 1 then rejected + 1 else capacity
  }

  // Slot 1 is the anchor; the list behind it names, oldest first, the slots of the last rejections.
  ghost predicate Holds<R>(slots: seq<nat>, outcomes: seq<real>, variances: seq<real>, rows: seq<R>, history: nat,
                           capacity: nat, s: Session<R>)
  {
    && 2 <= capacity <= |slots| == |outcomes| == |variances| && capacity < |rows|
    && history == Count(|s.rejected|, capacity)
    && slots[0] == 1 && outcomes[0] == 0.0 && variances[0] == 0.0
    && rows[0] == s.incumbent && rows[1] == s.incumbent
    && (forall i :: 1 <= i < history ==> 2 <= slots[i] <= capacity)
    && (forall i, j :: 1 <= i < j < history ==> slots[i] != slots[j])
    && (history < capacity ==> forall i :: 1 <= i < history ==> slots[i] == i + 1)
    && (forall i :: 1 <= i < history ==>
          var o := s.rejected[|s.rejected| - history + i];
          outcomes[i] == o.outcome && variances[i] == o.variance && rows[slots[i]] == o.row)
  }

  // Reading the slots back gives the visible history: the anchor, then the last rejections.
  function ReadBack<R>(slots: seq<nat>, outcomes: seq<real>, variances: seq<real>, rows: seq<R>, history: nat)
    : (r: seq<Observation<R>>)
    requires history <= |slots| && history <= |outcomes| && history <= |variances|
    requires forall i :: 0 <= i < history ==> slots[i] < |rows|
    ensures |r| == history
  {
    seq(history, i requires 0 <= i < history => Observation(rows[slots[i]], outcomes[i], variances[i]))
  }

  lemma HoldsReadsBack<R>(slots: seq<nat>, outcomes: seq<real>, variances: seq<real>, rows: seq<R>, history: nat,
                          capacity: nat, s: Session<R>)
    requires Holds(slots, outcomes, variances, rows, history, capacity, s)
    ensures ReadBack(slots, outcomes, variances, rows, history) == Visible(s, capacity)
  {
    var r, v := ReadBack(slots, outcomes, variances, rows, history), Visible(s, capacity);
    assert |v| == history;
    forall i | 0 <= i < history ensures r[i] == v[i] {
      VisibleAt(s, capacity, i);
    }
  }

  lemma VisibleAt<R>(s: Session<R>, capacity: nat, i: nat)
    requires capacity >= 2 && i < Count(|s.rejected|, capacity)
    ensures var v, history := Visible(s, capacity), Count(|s.rejected|, capacity);
      |v| == history && (i > 0 ==> v[i] == s.rejected[|s.rejected| - history + i])
  {
    if i > 0 {
      assert Visible(s, capacity)[i] == Last(s.rejected, capacity - 1)[i - 1];
    }
  }

  // Rows behind the list are not part of it.
  lemma HoldsElsewhere<R>(slots: seq<nat>, outcomes: seq<real>, variances: seq<real>, rows: seq<R>, rows': seq<R>,
                          history: nat, capacity: nat, s: Session<R>)
    requires Holds(slots, outcomes, variances, rows, history, capacity, s) && |rows'| == |rows|
    requires forall i :: 0 <= i <= capacity ==> rows'[i] == rows[i]
    ensures Holds(slots, outcomes, variances, rows', history, capacity, s)
  {
  }

  // ---------------------------------------------------------------- rotating the list

  // Where a rejection goes, and the list afterwards.
  ghost predicate Rotated(slots: seq<nat>, slots': seq<nat>, outcomes: seq<real>, outcomes': seq<real>,
                          variances: seq<real>, variances': seq<real>, history: nat, history': nat, capacity: nat,
                          destination: nat, improvement: real, variance: real)
  {
    && 2 <= capacity <= |slots| == |slots'| == |outcomes| == |outcomes'| == |variances| == |variances'|
    && 1 <= history <= capacity
    && slots'[0] == slots[0] && outcomes'[0] == outcomes[0] && variances'[0] == variances[0]
    && destination == (if history == capacity then slots[1] else history + 1)
    && history' == (if history == capacity then capacity else history + 1)
    && slots'[history' - 1] == destination
    && outcomes'[history' - 1] == improvement && variances'[history' - 1] == variance
    && forall i :: 1 <= i < history' - 1 ==>
         var from := if history == capacity then i + 1 else i;
         slots'[i] == slots[from] && outcomes'[i] == outcomes[from] && variances'[i] == variances[from]
  }

  lemma RotatedSlots<R>(slots: seq<nat>, slots': seq<nat>, outcomes: seq<real>, outcomes': seq<real>,
                        variances: seq<real>, variances': seq<real>, rows: seq<R>,
                        history: nat, history': nat, capacity: nat, destination: nat, improvement: real,
                        variance: real, s: Session<R>)
    requires Holds(slots, outcomes, variances, rows, history, capacity, s)
    requires Rotated(slots, slots', outcomes, outcomes', variances, variances', history, history', capacity,
                     destination, improvement, variance)
    ensures 2 <= destination <= capacity
    ensures forall i :: 1 <= i < history' ==> 2 <= slots'[i] <= capacity
    ensures forall i, j :: 1 <= i < j < history' ==> slots'[i] != slots'[j]
    ensures history' < capacity ==> forall i :: 1 <= i < history' ==> slots'[i] == i + 1
  {
    var shift := if history == capacity then 1 else 0;
    forall i | 1 <= i < history' - 1 ensures slots'[i] == slots[i + shift] {}
    forall i, j | 1 <= i < j < history' ensures slots'[i] != slots'[j] {
      assert slots'[i] == slots[i + shift];
      if j < history' - 1 {
        assert slots'[j] == slots[j + shift];
      } else if history == capacity {
        assert slots[1] != slots[i + shift];
      }
    }
  }

  lemma RotatedHolds<R>(slots: seq<nat>, slots': seq<nat>, outcomes: seq<real>, outcomes': seq<real>,
                        variances: seq<real>, variances': seq<real>, rows: seq<R>, rows': seq<R>,
                        history: nat, history': nat, capacity: nat, destination: nat, row: R, improvement: real,
                        variance: real, s: Session<R>, s': Session<R>)
    requires Holds(slots, outcomes, variances, rows, history, capacity, s)
    requires Rotated(slots, slots', outcomes, outcomes', variances, variances', history, history', capacity,
                     destination, improvement, variance)
    requires |rows'| == |rows|
    requires forall i :: 0 <= i <= capacity ==> rows'[i] == if i == destination then row else rows[i]
    requires s'.incumbent == s.incumbent
    requires s'.rejected == s.rejected + [Observation(row, improvement, variance)]
    ensures Holds(slots', outcomes', variances', rows', history', capacity, s')
  {
    RotatedSlots(slots, slots', outcomes, outcomes', variances, variances', rows, history, history', capacity,
                 destination, improvement, variance, s);
    var shift := if history == capacity then 1 else 0;
    forall i | 1 <= i < history'
      ensures var o := s'.rejected[|s'.rejected| - history' + i];
          outcomes'[i] == o.outcome && variances'[i] == o.variance && rows'[slots'[i]] == o.row
    {
      if i < history' - 1 {
        assert slots'[i] == slots[i + shift] && slots'[i] != slots'[history' - 1];
        assert s'.rejected[|s'.rejected| - history' + i] == s.rejected[|s.rejected| - history + i + shift];
      }
    }
  }

  // ---------------------------------------------------------------- the engine

  class Engine<R(!new,==)> {
    const slots: nat
    const kernels: Kernels<R>
    const narrow: real -> real
    const rows: array<R>
    var sampler: nat
    var reference: R
    var referenceSeed: Option<nat>    // of a reference direction yet to be drawn
    var started: bool
    var pairedRelative: Option<nat>
    var searchCapacity: Option<nat>
    var singleSlot: Option<SingleRow>
    var historySlots: array<nat>
    var outcomes: array<real>
    var variances: array<real>
    var state: SearchState
    var seed: nat          // the seed of the outstanding proposal

    ghost predicate Shapes()
      reads this
    {
      && slots >= 2 && rows.Length == slots
      && outcomes != variances && historySlots.Length == outcomes.Length == variances.Length > 0
      && rows as object != historySlots && rows as object != outcomes && rows as object != variances
    }

    // Initialised, and neither asked nor told yet.
    ghost predicate Fresh()
      reads this
    {
      && Shapes()
      && (searchCapacity.Some? ==>
            && searchCapacity.value <= historySlots.Length
            && state.history == 1 && state.failures == 0
            && 0.0 < state.lengthMin <= state.length <= state.lengthMax)
      && singleSlot.None?
    }

    // The reference direction, drawn or yet to be.
    function Direction(): R
      reads this
    {
      if referenceSeed.Some? then kernels.first(referenceSeed.value) else reference
    }

    function GetLimits(): Limits
      requires pairedRelative.Some? && searchCapacity.Some?
      reads this
    {
      Limits(searchCapacity.value, pairedRelative.value, state.lengthMin, state.lengthMax, narrow)
    }

    // In paired-relative mode the slots hold a session and a pending row lies beyond them.
    ghost predicate Represents(s: Session<R>)
      reads this, rows, historySlots, outcomes, variances
    {
      && Shapes() && sampler == 1
      && pairedRelative.Some? && searchCapacity.Some? && GetLimits().Valid()
      && Holds(historySlots[..], outcomes[..], variances[..], rows[..], state.history, searchCapacity.value, s)
      && s.reference == Direction() && s.radius == state.length && s.failures == state.failures
      && s.best == state.best && s.bestVariance == state.bestVariance
      && (singleSlot.Some? ==>
            && searchCapacity.value < singleSlot.value.slot < slots && singleSlot.value.baseSlot == 0
            && referenceSeed.None? && kernels.usable(reference))
    }

    constructor (slots: nat, base: R, kernels: Kernels<R>, narrow: real -> real)
      requires slots >= 2
      ensures Fresh() && sampler == 0 && pairedRelative.None? && searchCapacity.None? && !started
      ensures this.slots == slots && this.kernels == kernels && this.narrow == narrow && referenceSeed.None?
      ensures rows.Length == slots && forall i :: 0 <= i < slots ==> rows[i] == base
    {
      this.slots, this.kernels, this.narrow, reference, referenceSeed := slots, kernels, narrow, base, None;
      rows := new R[slots](_ => base);
      sampler, started, pairedRelative, searchCapacity, singleSlot := 0, false, None, None, None;
      historySlots, outcomes, variances := new nat[1](_ => 0), new real[1](_ => 0.0), new real[1](_ => 0.0);
      state, seed := SearchState(0.0, 0.0, 0.0, 0.0, 0.0, 0, 0, false), 0;
    }

    method EnableCorrelated(seed: nat) returns (ok: bool)
      requires Fresh()
      modifies this`sampler, this`referenceSeed
      ensures ok == (old(sampler) == 0) && sampler == (if ok then 1 else old(sampler))
      ensures ok ==> Direction() == kernels.first(seed)
      ensures !ok ==> referenceSeed == old(referenceSeed)
      ensures Fresh()
    {
      ok := sampler == 0 && singleSlot.None?;
      if ok {
        sampler, referenceSeed := 1, Some(seed);
      }
    }

    // Draws the first reference direction when it is needed.
    method EnsureReference() returns (ok: bool)
      modifies this`reference, this`referenceSeed
      ensures Direction() == old(Direction())
      ensures ok == (old(referenceSeed).None? || kernels.usable(old(Direction())))
      ensures ok ==> referenceSeed.None?
    {
      if referenceSeed.None? {
        return true;
      }
      reference := kernels.first(referenceSeed.value);
      ok := kernels.usable(reference);
      if ok {
        referenceSeed := None;
      }
    }

    predicate ValidInit(value: Scalar, variance: Scalar, capacity: nat, init: Scalar, low: Scalar, high: Scalar) {
      && 0 < capacity <= MAX_HISTORY && value.Some? && variance.Some? && variance.value >= 0.0
      && init.Some? && low.Some? && high.Some? && 0.0 < low.value <= init.value <= high.value
    }

    method InitSearch(value: Scalar, variance: Scalar, capacity: nat, init: Scalar, low: Scalar, high: Scalar)
      returns (ok: bool)
      requires Fresh()
      modifies this`historySlots, this`outcomes, this`variances, this`state, this`searchCapacity
      ensures Fresh()
      ensures ok == (
        && pairedRelative.None? && 0 < capacity <= 128
        && value.Some? && variance.Some? && variance.value >= 0.0
        && init.Some? && low.Some? && high.Some? && 0.0 < low.value <= init.value <= high.value)
      ensures ok ==>
          && searchCapacity == Some(capacity)
          && state == SearchState(init.value, low.value, high.value, value.value, variance.value, 0, 1, false)
      ensures !ok ==> searchCapacity == old(searchCapacity)
    {
      if pairedRelative.Some? || !ValidInit(value, variance, capacity, init, low, high) {
        return false;
      }
      var s, o, v := new nat[capacity](_ => 0), new real[capacity](_ => 0.0), new real[capacity](_ => 0.0);
      s[0], o[0], v[0] := 1, value.value, variance.value;
      historySlots, outcomes, variances := s, o, v;
      state := SearchState(init.value, low.value, high.value, value.value, variance.value, 0, 1, false);
      searchCapacity := Some(capacity);
      ok := true;
    }

    // Pin the zero anchor. The incumbent has been copied to slot 1 when the search was created.
    method EnableRelative(tolerance: nat) returns (ok: bool)
      requires Fresh()
      modifies this`pairedRelative, historySlots, outcomes, variances
      ensures ok == (sampler == 1 && !started && old(pairedRelative).None? && searchCapacity.Some?
                     && searchCapacity.value >= 2 && 0 < tolerance <= 0xFFFF_FFFF)
      ensures !ok ==> Fresh() && pairedRelative == old(pairedRelative)
      ensures ok ==> pairedRelative == Some(tolerance)
      ensures ok && rows[1] == rows[0] && searchCapacity.value < slots ==>
          Represents(Session(rows[0], [], Direction(), state.length, 0, state.best, state.bestVariance))
    {
      if sampler != 1 || started || pairedRelative.Some? || searchCapacity.None? || searchCapacity.value < 2
         || tolerance == 0 || tolerance > U32_MAX
      {
        return false;
      }
      historySlots[0], outcomes[0], variances[0] := 1, 0.0, 0.0;
      pairedRelative := Some(tolerance);
      ok := true;
    }

    // What the kernels read to score and draw proposals.
    function ReadView(): View<R>
      requires state.history <= historySlots.Length && state.history <= outcomes.Length
      requires state.history <= variances.Length
      requires forall i :: 0 <= i < state.history ==> historySlots[i] < rows.Length
      reads this, rows, historySlots, outcomes, variances
    {
      View(ReadBack(historySlots[..], outcomes[..], variances[..], rows[..], state.history), state.length,
           reference)
    }

    lemma ViewIsSessions(s: Session<R>)
      requires Represents(s) && referenceSeed.None?
      ensures state.history <= historySlots.Length
      ensures forall i :: 0 <= i < state.history ==> historySlots[i] < rows.Length
      ensures ReadView() == ViewOf(s, GetLimits())
    {
      HoldsReadsBack(historySlots[..], outcomes[..], variances[..], rows[..], state.history, searchCapacity.value, s);
    }

    // The requests check_ask lets through in this mode.
    predicate AskAllowed(baseSlot: nat, capacity: nat, trials: seq<nat>, seeded: bool, candidates: nat,
                         coefficient: Scalar, config: Acquisition)
      reads this
    {
      && ValidLayout(searchCapacity, slots, baseSlot, capacity, trials) && singleSlot.None?
      && (referenceSeed.Some? || kernels.usable(reference))
      && seeded && candidates == 4
      && capacity <= MAX_HISTORY && 0 < config.neighbors <= capacity
      && coefficient.Some? && coefficient.value > 0.0
      && config.Valid()
    }

    // Propose into the pending row. The session itself does not change.
    method Ask(baseSlot: nat, capacity: nat, trials: seq<nat>, seeded: bool, candidates: nat, coefficient: Scalar,
               config: Acquisition, root: nat, ghost s: Session<R>) returns (ok: bool)
      requires Represents(s)
      modifies this`started, this`singleSlot, this`seed, this`reference, this`referenceSeed, rows
      ensures Represents(s) && GetLimits() == old(GetLimits())
      ensures ok == (
        && searchCapacity == Some(capacity) && 2 <= capacity <= 128 && baseSlot == 0
        && |trials| == 1 && capacity < trials[0] < slots && old(singleSlot).None?
        && seeded && candidates == 4 && 0 < config.neighbors <= capacity
        && coefficient.Some? && coefficient.value > 0.0
        && config.kind <= 2 && config.beta.Some?
        && config.epistemic.Some? && config.epistemic.value >= 0.0
        && config.aleatoric.Some? && config.aleatoric.value >= 0.0
        && config.rewards.Some? && config.rewards.value >= 0.0
        && kernels.usable(s.reference))
      ensures ok ==>
          && singleSlot == Some(SingleRow(trials[0], 0, true)) && seed == root
          && rows[trials[0]] == Chosen(s, GetLimits(), kernels, root).row
      ensures !ok ==> singleSlot == old(singleSlot) && seed == old(seed)
      ensures forall i :: 0 <= i < rows.Length && (!ok || i != trials[0]) ==> rows[i] == old(rows[i])
    {
      ok := AskAllowed(baseSlot, capacity, trials, seeded, candidates, coefficient, config);
      if ok {
        started := true;
        ok := EnsureReference();
      }
      if ok {
        Lend(trials[0], baseSlot, seeded, root, s);
      }
    }

    method Lend(trial: nat, baseSlot: nat, seeded: bool, root: nat, ghost s: Session<R>)
      requires Represents(s) && referenceSeed.None? && kernels.usable(reference)
      requires searchCapacity.value < trial < slots && baseSlot == 0
      modifies this`singleSlot, this`seed, rows
      ensures Represents(s)
      ensures singleSlot == Some(SingleRow(trial, baseSlot, seeded)) && seed == root
      ensures rows[trial] == Chosen(s, GetLimits(), kernels, root).row
      ensures forall i :: 0 <= i < rows.Length && i != trial ==> rows[i] == old(rows[i])
    {
      ViewIsSessions(s);
      ghost var before := rows[..];
      rows[trial] := kernels.propose(ReadView(), root).row;
      HoldsElsewhere(historySlots[..], outcomes[..], variances[..], before, rows[..], state.history,
        searchCapacity.value, s);
      seed := root;
      singleSlot := Some(SingleRow(trial, baseSlot, seeded));
    }

    // A consumer of the lent row writes into it.
    method ConsumerWrites(row: R, ghost s: Session<R>)
      requires Represents(s) && singleSlot.Some?
      modifies rows
      ensures Represents(s) && rows[singleSlot.value.slot] == row
      ensures forall i :: 0 <= i < rows.Length && i != singleSlot.value.slot ==> rows[i] == old(rows[i])
    {
      rows[singleSlot.value.slot] := row;
    }

    // The history part of a rejection, as the kernel shifts its lists.
    method RotateHistory(local: SearchState, capacity: nat, improvement: real, variance: real)
      returns (destination: nat, history: nat)
      requires Shapes() && 2 <= capacity <= historySlots.Length && 1 <= local.history <= capacity
      modifies historySlots, outcomes, variances
      ensures Rotated(old(historySlots[..]), historySlots[..], old(outcomes[..]), outcomes[..],
                      old(variances[..]), variances[..], local.history, history, capacity,
                      destination, improvement, variance)
    {
      history := local.history;
      if history == capacity {
        destination := historySlots[1];
        var index := 2;
        while index < history
          invariant 2 <= index <= history
          invariant forall i :: 0 <= i < historySlots.Length ==>
              && historySlots[i] == (if 1 <= i < index - 1 then old(historySlots[i + 1]) else old(historySlots[i]))
              && outcomes[i] == (if 1 <= i < index - 1 then old(outcomes[i + 1]) else old(outcomes[i]))
              && variances[i] == (if 1 <= i < index - 1 then old(variances[i + 1]) else old(variances[i]))
        {
          historySlots[index - 1] := historySlots[index];
          outcomes[index - 1] := outcomes[index];
          variances[index - 1] := variances[index];
          index := index + 1;
        }
        history := history - 1;
      } else {
        destination := history + 1;
      }
      historySlots[history] := destination;
      outcomes[history] := improvement;
      variances[history] := variance;
      history := history + 1;
    }

    // The radius controller of the paired modes.
    method PairedRadius(local: SearchState, candidate: nat, accept: bool, rejectIsFailure: bool)
      returns (next: SearchState)
      requires pairedRelative.Some? && searchCapacity.Some?
      requires local.lengthMin == state.lengthMin && local.lengthMax == state.lengthMax
      ensures next == local.(length := next.length, failures := next.failures)
      ensures accept ==> next.length == SelectedRadius(local.length, candidate, GetLimits()) && next.failures == 0
      ensures accept && GetLimits().Valid() ==> Promoted(local.length, candidate, GetLimits(), next.length)
      ensures !accept && rejectIsFailure && local.failures + 1 >= pairedRelative.value ==>
          next.length == Contracted(local.length, GetLimits()) && next.failures == 0
      ensures !accept && rejectIsFailure && local.failures + 1 < pairedRelative.value ==>
          next.length == local.length && next.failures == local.failures + 1
      ensures !accept && !rejectIsFailure ==> next == local
    {
      next := local;
      if accept {
        next := next.(length := SelectedRadius(next.length, candidate, GetLimits()), failures := 0);
      } else if rejectIsFailure {
        next := next.(failures := next.failures + 1);
        if next.failures >= pairedRelative.value {
          next := next.(length := Contracted(next.length, GetLimits()), failures := 0);
        }
      }
    }

    // A rejection: the pending row takes over the oldest slot.
    method Reject(slot: nat, candidate: nat, t: Tell, ghost renewed: R, ghost s: Session<R>)
      requires Represents(s) && !t.accept && singleSlot.Some? && singleSlot.value.slot == slot
      modifies this`state, historySlots, outcomes, variances, rows
      ensures Represents(Step(s, GetLimits(), Choice(old(rows[slot]), candidate), renewed, t))
      ensures GetLimits() == old(GetLimits()) && state.spoiled == old(state.spoiled)
    {
      ghost var limits := GetLimits();
      ghost var choice := Choice(rows[slot], candidate);
      ghost var rows0, slots0, outcomes0, variances0 := rows[..], historySlots[..], outcomes[..], variances[..];
      var local := state.(best := t.incumbentValue, bestVariance := t.incumbentVariance);
      var destination, history := RotateHistory(local, searchCapacity.value, t.improvement, t.improvementVariance);
      RotatedSlots(slots0, historySlots[..], outcomes0, outcomes[..], variances0, variances[..], rows0,
                   local.history, history, searchCapacity.value, destination, t.improvement, t.improvementVariance, s);
      local := PairedRadius(local.(history := history), candidate, false, t.rejectIsFailure);
      rows[destination] := rows[slot];
      RotatedHolds(slots0, historySlots[..], outcomes0, outcomes[..], variances0, variances[..], rows0, rows[..],
                   state.history, history, searchCapacity.value, destination, choice.row, t.improvement,
                   t.improvementVariance, s, Step(s, limits, choice, renewed, t));
      state := local;
    }

    // A promotion: the pending row becomes the incumbent and the anchor, and the list empties.
    method Accept(slot: nat, candidate: nat, t: Tell, ghost s: Session<R>)
      requires Represents(s) && t.accept && singleSlot.Some? && singleSlot.value.slot == slot
      modifies this`state, this`singleSlot, this`reference, historySlots, outcomes, variances, rows
      ensures var renewed := kernels.refresh(s.reference, candidate, seed);
          Represents(Step(s, GetLimits(), Choice(old(rows[slot]), candidate), renewed, t))
      ensures GetLimits() == old(GetLimits()) && state.spoiled == old(state.spoiled) && singleSlot.None?
    {
      historySlots[0], outcomes[0], variances[0] := 1, 0.0, 0.0;
      var local := state.(best := t.value, bestVariance := t.variance, history := 1);
      local := PairedRadius(local, candidate, true, t.rejectIsFailure);
      rows[0] := rows[slot];
      rows[1] := rows[slot];
      reference := kernels.refresh(reference, candidate, seed);
      state, singleSlot := local, None;
    }

    // Tell the outstanding proposal. A row the consumer wrote to, or one that was never finite,
    // spoils the state instead of entering the session.
    method QueueRelative(trial: nat, report: Report, capacity: nat, ghost s: Session<R>) returns (ok: bool)
      requires Represents(s)
      modifies this`state, this`singleSlot, this`reference, historySlots, outcomes, variances, rows
      ensures GetLimits() == old(GetLimits())
      ensures ok == (
        && searchCapacity == Some(capacity) && 2 <= capacity <= 128 && capacity < trial < slots
        && old(singleSlot).Some? && old(singleSlot).value.slot == trial && old(singleSlot).value.resident
        && report.value.Some? && report.incumbentValue.Some? && report.improvement.Some?
        && report.variance.Some? && report.variance.value >= 0.0
        && report.incumbentVariance.Some? && report.incumbentVariance.value >= 0.0
        && report.improvementVariance.Some? && report.improvementVariance.value >= 0.0)
      ensures !ok ==> Represents(s) && singleSlot == old(singleSlot) && state == old(state)
      ensures ok ==> singleSlot.None?
      ensures ok ==>
          var choice := Chosen(s, GetLimits(), kernels, seed);
          if old(state.spoiled) || !kernels.finite(choice.row) || old(rows[trial]) != choice.row
          then Represents(s) && state.spoiled
          else Represents(Next(s, GetLimits(), kernels, Round(seed, report.Told()))) && !state.spoiled
    {
      if pairedRelative.None? || !ValidTell(searchCapacity, slots, capacity, trial, singleSlot)
         || !report.Measured() || !kernels.usable(reference) || capacity > MAX_HISTORY
      {
        return false;
      }
      Settle(trial, report.Told(), s);
      ok := true;
    }

    method Settle(trial: nat, t: Tell, ghost s: Session<R>)
      requires Represents(s) && singleSlot.Some? && singleSlot.value.slot == trial
      modifies this`state, this`singleSlot, this`reference, historySlots, outcomes, variances, rows
      ensures GetLimits() == old(GetLimits()) && singleSlot.None?
      ensures var choice := Chosen(s, GetLimits(), kernels, seed);
          if old(state.spoiled) || !kernels.finite(choice.row) || old(rows[trial]) != choice.row
          then Represents(s) && state.spoiled
          else Represents(Next(s, GetLimits(), kernels, Round(seed, t))) && !state.spoiled
    {
      ViewIsSessions(s);
      var choice := kernels.propose(ReadView(), seed);
      if state.spoiled || !kernels.finite(choice.row) || rows[trial] != choice.row {
        state := state.(spoiled := true);
      } else {
        Decide(trial, choice, t, s);
      }
      singleSlot := None;
    }

    method Decide(trial: nat, choice: Choice<R>, t: Tell, ghost s: Session<R>)
      requires Represents(s) && singleSlot.Some? && singleSlot.value.slot == trial && rows[trial] == choice.row
      modifies this`state, this`singleSlot, this`reference, historySlots, outcomes, variances, rows
      ensures Represents(Step(s, GetLimits(), choice, kernels.refresh(s.reference, choice.candidate, seed), t))
      ensures GetLimits() == old(GetLimits()) && state.spoiled == old(state.spoiled)
    {
      if t.accept {
        Accept(trial, choice.candidate, t, s);
      } else {
        Reject(trial, choice.candidate, t, kernels.refresh(s.reference, choice.candidate, seed), s);
      }
    }
  }

  function Reported(t: Tell): Report {
    Report(Some(t.value), Some(t.variance), Some(t.incumbentValue), Some(t.incumbentVariance),
           Some(t.improvement), Some(t.improvementVariance), t.accept, t.rejectIsFailure)
  }

  // A round whose reference direction, row and measurements can all be used.
  ghost predicate Playable<R>(s: Session<R>, limits: Limits, kernels: Kernels<R>, round: Round)
    requires limits.Valid()
  {
    && kernels.usable(s.reference) && kernels.finite(Chosen(s, limits, kernels, round.seed).row)
    && Reported(round.tell).Measured()
  }

  // One round of asking and telling.
  method PlayRound<R(!new,==)>(e: Engine<R>, round: Round, config: Acquisition, ghost s: Session<R>)
    requires e.Represents(s) && e.singleSlot.None? && !e.state.spoiled
    requires e.searchCapacity.value <= MAX_HISTORY && e.searchCapacity.value + 1 < e.slots
    requires config.Valid() && 0 < config.neighbors <= e.searchCapacity.value
    requires Playable(s, e.GetLimits(), e.kernels, round)
    modifies e`started, e`singleSlot, e`seed, e`state, e`reference, e`referenceSeed
    modifies e.rows, e.historySlots, e.outcomes, e.variances
    ensures e.Represents(Next(s, old(e.GetLimits()), e.kernels, round))
    ensures e.GetLimits() == old(e.GetLimits()) && e.singleSlot.None? && !e.state.spoiled
  {
    var capacity := e.searchCapacity.value;
    var asked := e.Ask(0, capacity, [capacity + 1], true, 4, Some(1.0), config, round.seed, s);
    var told := e.QueueRelative(capacity + 1, Reported(round.tell), capacity, s);
    assert Reported(round.tell).Told() == round.tell;
  }

  // Any number of rounds keeps the engine in step with the session's run, as long as that run's own
  // rows and reference directions can be used.
  method PlayRounds<R(!new,==)>(e: Engine<R>, rounds: seq<Round>, config: Acquisition, ghost s: Session<R>)
    requires e.Represents(s) && e.singleSlot.None? && !e.state.spoiled
    requires e.searchCapacity.value <= MAX_HISTORY && e.searchCapacity.value + 1 < e.slots
    requires config.Valid() && 0 < config.neighbors <= e.searchCapacity.value
    requires forall i :: 0 <= i < |rounds| ==>
      Playable(Run(s, e.GetLimits(), e.kernels, rounds[..i]), e.GetLimits(), e.kernels, rounds[i])
    modifies e`started, e`singleSlot, e`seed, e`state, e`reference, e`referenceSeed
    modifies e.rows, e.historySlots, e.outcomes, e.variances
    ensures e.Represents(Run(s, old(e.GetLimits()), e.kernels, rounds))
    ensures e.GetLimits() == old(e.GetLimits()) && e.singleSlot.None? && !e.state.spoiled
    ensures rounds != [] && rounds[|rounds| - 1].tell.accept ==>
      var before := Run(s, old(e.GetLimits()), e.kernels, rounds[..|rounds| - 1]);
      var view := ViewOf(before, old(e.GetLimits()));
      var candidate := e.kernels.propose(view, rounds[|rounds| - 1].seed).candidate;
      Promoted(before.radius, candidate, old(e.GetLimits()), e.state.length)
  {
    ghost var limits := e.GetLimits();
    assert rounds[..0] == [];
    for i := 0 to |rounds|
      invariant e.Represents(Run(s, limits, e.kernels, rounds[..i])) && e.GetLimits() == limits
      invariant e.singleSlot.None? && !e.state.spoiled
    {
      PlayRound(e, rounds[i], config, Run(s, limits, e.kernels, rounds[..i]));
      assert rounds[..i + 1][..i] == rounds[..i];
    }
    assert rounds[..|rounds|] == rounds;
    if rounds != [] && rounds[|rounds| - 1].tell.accept {
      PromotionRadius(s, limits, e.kernels, rounds);
    }
  }
}
