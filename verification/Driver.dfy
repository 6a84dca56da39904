// The optimisation loop over paired minibatches. The incumbent is measured again only when the
// minibatch changes; in between, its losses are carried over, and after an acceptance the
// candidate's losses take their place.

module Driver {
  import opened Wrappers
  import opened Division
  import opened Paired

  // Problems of one minibatch.
  type Batch = seq<nat>

  datatype Proposal<R> = Proposal(row: R, distance: real, changed: nat)

  // The engine and the objective as the driver sees them: what the engine proposes at a step, how
  // a decision changes its state, the decision it reports back, per-problem losses (none when one
  // of them is not finite), and the minibatches in the order they are drawn.
  datatype World<!R, !S> = World(
    propose: (S, R, nat) -> Proposal<R>,
    learn: (S, Proposal<R>, Comparison) -> S,
    sync: (S, Proposal<R>, Comparison) -> bool,
    losses: (R, Batch) -> Option<seq<real>>,
    draw: nat -> Batch,
    compare: (seq<real>, seq<real>) -> Option<Comparison>)

  // The paired screening rule.
  function Screening(a: Arithmetic, population: nat, se: real): (seq<real>, seq<real>) -> Option<Comparison> {
    (candidate, incumbent) => Compare(a, candidate, incumbent, population, se)
  }

  // Equal measurements never replace the incumbent.
  ghost predicate Cautious<R, S>(w: World<R, S>) {
    forall x :: w.compare(x, x).Some? ==> !w.compare(x, x).value.accepted
  }

  // The paired comparison is such a rule.
  lemma ScreeningIsCautious<R, S>(w: World<R, S>, a: Arithmetic, population: nat, se: real)
    requires Lawful(a) && se >= 0.0 && w.compare == Screening(a, population, se)
    ensures Cautious(w)
  {
    forall x | w.compare(x, x).Some? ensures !w.compare(x, x).value.accepted {
      Sides(a, x, x, population, se);
    }
  }

  // How many evaluations, whether measurements are carried over, and the steps that are due a new
  // minibatch.
  datatype Settings = Settings(evaluations: nat, reuse: bool, due: nat -> bool)

  predicate ValidSettings(c: Settings) {
    c.evaluations >= 2
  }

  // Settings for a minibatch that is replaced every `refresh` steps.
  function Every(evaluations: nat, refresh: nat): Settings
    requires refresh >= 1
  {
    Settings(evaluations, refresh > 1, step => step % refresh == 0)
  }

  // One decided proposal, with the losses it was decided on.
  datatype Event = Event(
    batch: Batch, candidateLosses: seq<real>, incumbentLosses: seq<real>, comparison: Comparison,
    evaluated: bool, version: nat)

  datatype Step<R, S> = Step(event: Event, row: R, state: S)

  // ---------------------------------------------------------------- the minibatch schedule

  // How many times the minibatch has been replaced by the time of `step`.
  function Replaced(step: nat, due: nat -> bool): (k: nat) {
    if step == 0 then 0 else Replaced(step - 1, due) + (if due(step) then 1 else 0)
  }

  lemma {:induction false} ReplacedPerRefresh(step: nat, evaluations: nat, refresh: nat)
    requires refresh >= 1
    ensures Replaced(step, Every(evaluations, refresh).due) == step / refresh
  {
    if step > 0 {
      ReplacedPerRefresh(step - 1, evaluations, refresh);
      NextQuotient(step - 1, refresh);
    } else {
      DivUnique(0, refresh, 0, 0);
    }
  }

  // Draw 0 was measured by the baseline. With reuse it also serves the first steps; without, every
  // step draws its own.
  function DrawAt(c: Settings, step: nat): nat
    requires ValidSettings(c)
  {
    if c.reuse then Replaced(step, c.due) else step + 1
  }

  // A minibatch kept for several steps is the baseline's until its first replacement; one replaced at every
  // step is never the baseline's.
  lemma DrawSchedule(step: nat, evaluations: nat, refresh: nat)
    requires refresh >= 1 && evaluations >= 2
    ensures DrawAt(Every(evaluations, refresh), step) == if refresh == 1 then step + 1 else step / refresh
  {
    ReplacedPerRefresh(step, evaluations, refresh);
  }

  function BatchAt<R, S>(w: World<R, S>, c: Settings, step: nat): Batch
    requires ValidSettings(c)
  {
    w.draw(DrawAt(c, step))
  }

  // ---------------------------------------------------------------- the reference run

  predicate Evaluated<R>(p: Proposal<R>) { p.distance > 0.0 && p.changed > 0 }

  // One step that measures the incumbent afresh on the step's minibatch. None is a raised error.
  function FreshStep<R, S>(w: World<R, S>, c: Settings, step: nat, row: R, state: S, version: nat): Option<Step<R, S>>
    requires ValidSettings(c)
  {
    match w.losses(row, BatchAt(w, c, step))
    case None => None
    case Some(incumbent) => Decide(w, BatchAt(w, c, step), incumbent, w.propose(state, row, step), row, state, version)
  }

  // Compares a proposal with measured incumbent losses and lets the engine learn.
  function Decide<R, S>(w: World<R, S>, batch: Batch, incumbent: seq<real>, p: Proposal<R>,
      row: R, state: S, version: nat): Option<Step<R, S>>
  {
    var measured := if Evaluated(p) then w.losses(p.row, batch) else Some(incumbent);
    if measured.None? then None
    else
      var comparison := w.compare(measured.value, incumbent);
      if comparison.None? || w.sync(state, p, comparison.value) != comparison.value.accepted then None
      else
        Some(Step(
          Event(batch, measured.value, incumbent, comparison.value, Evaluated(p), version),
          if comparison.value.accepted then p.row else row, w.learn(state, p, comparison.value)))
  }

  // A proposal is measured on the step's minibatch if it moved and changed some value; else it counts as
  // measured like the incumbent, and ends the run.
  lemma DecisionMeasures<R, S>(w: World<R, S>, batch: Batch, incumbent: seq<real>, p: Proposal<R>,
      row: R, state: S, version: nat)
    requires Decide(w, batch, incumbent, p, row, state, version).Some?
    ensures var e := Decide(w, batch, incumbent, p, row, state, version).value.event;
      if p.distance > 0.0 && p.changed > 0 then e.evaluated && w.losses(p.row, batch) == Some(e.candidateLosses)
      else !e.evaluated && e.candidateLosses == incumbent
  {
  }

  datatype Run<R> = Run(events: seq<Event>, row: R, version: nat)

  // The whole run from `step` on; it ends with the budget or at the first unchanged proposal.
  function FreshRun<R, S>(w: World<R, S>, c: Settings, step: nat, row: R, state: S, version: nat): Option<Run<R>>
    requires ValidSettings(c)
    decreases c.evaluations - step
  {
    if step + 1 >= c.evaluations then Some(Run([], row, version))
    else
      match FreshStep(w, c, step, row, state, version)
      case None => None
      case Some(s) =>
        var next := version + (if s.event.comparison.accepted then 1 else 0);
        if !s.event.evaluated then Some(Run([s.event], s.row, next))
        else
          match FreshRun(w, c, step + 1, s.row, s.state, next)
          case None => None
          case Some(rest) => Some(Run([s.event] + rest.events, rest.row, rest.version))
  }

  function EvaluatedCount(events: seq<Event>): nat {
    if events == [] then 0
    else EvaluatedCount(events[..|events| - 1]) + (if events[|events| - 1].evaluated then 1 else 0)
  }

  function AcceptedCount(events: seq<Event>): nat {
    if events == [] then 0
    else AcceptedCount(events[..|events| - 1]) + (if events[|events| - 1].comparison.accepted then 1 else 0)
  }

  // ---------------------------------------------------------------- what is emitted

  // Measurements are carried over before a proposal is emitted: after an acceptance under reuse, the
  // candidate's losses stand where the incumbent's were.
  function Emitted(c: Settings, e: Event): Event {
    if c.reuse && e.comparison.accepted then e.(incumbentLosses := e.candidateLosses) else e
  }

  function AllEmitted(c: Settings, events: seq<Event>): seq<Event> {
    seq(|events|, i requires 0 <= i < |events| => Emitted(c, events[i]))
  }

  lemma EmittedNext(c: Settings, events: seq<Event>, e: Event)
    ensures AllEmitted(c, events + [e]) == AllEmitted(c, events) + [Emitted(c, e)]
  {
  }

  // The emitted proposal is the decided one exactly when nothing was accepted under reuse, and differs
  // from it in the incumbent's losses only. Under reuse those belong to the incumbent after the step.
  lemma EmittedExactly<R, S>(
    w: World<R, S>, c: Settings, batch: Batch, incumbent: seq<real>, p: Proposal<R>, row: R, state: S, version: nat)
    requires Cautious(w) && w.losses(row, batch) == Some(incumbent)
    ensures var d := Decide(w, batch, incumbent, p, row, state, version);
      d.Some? ==>
        var e := d.value.event;
        && (Emitted(c, e) == e <==> !(c.reuse && e.comparison.accepted))
        && Emitted(c, e).(incumbentLosses := incumbent) == e
        && (c.reuse ==> w.losses(d.value.row, batch) == Some(Emitted(c, e).incumbentLosses))
  {
    StepMeasures(w, batch, incumbent, p, row, state, version);
  }

  // Accepted proposals were measured apart from their incumbents.
  lemma {:induction false} RunTellsApart<R, S>(
    w: World<R, S>, c: Settings, step: nat, row: R, state: S, version: nat)
    requires ValidSettings(c) && Cautious(w)
    ensures var run := FreshRun(w, c, step, row, state, version);
      run.Some? ==>
        forall e :: e in run.value.events && e.comparison.accepted ==> e.candidateLosses != e.incumbentLosses
    decreases c.evaluations - step
  {
    if step + 1 < c.evaluations {
      var s := FreshStep(w, c, step, row, state, version);
      if s.Some? && s.value.event.evaluated {
        var next := version + (if s.value.event.comparison.accepted then 1 else 0);
        RunTellsApart(w, c, step + 1, s.value.row, s.value.state, next);
      }
    }
  }

  lemma {:induction false} AcceptedSome(events: seq<Event>)
    ensures AcceptedCount(events) > 0 <==> exists i :: 0 <= i < |events| && events[i].comparison.accepted
    decreases |events|
  {
    if events != [] {
      var front := events[..|events| - 1];
      AcceptedSome(front);
      if AcceptedCount(front) > 0 {
        var i :| 0 <= i < |front| && front[i].comparison.accepted;
        assert events[i].comparison.accepted;
      }
    }
  }

  // A whole run is emitted as it was decided exactly when it carries no measurements over or accepts
  // nothing.
  lemma RunEmitted<R, S>(w: World<R, S>, c: Settings, row: R, state: S)
    requires ValidSettings(c) && Cautious(w)
    ensures var run := FreshRun(w, c, 0, row, state, 0);
      run.Some? ==> (AllEmitted(c, run.value.events) == run.value.events <==>
        !c.reuse || AcceptedCount(run.value.events) == 0)
  {
    var run := FreshRun(w, c, 0, row, state, 0);
    if run.Some? {
      var events := run.value.events;
      RunTellsApart(w, c, 0, row, state, 0);
      AcceptedSome(events);
      if c.reuse && AcceptedCount(events) > 0 {
        var i :| 0 <= i < |events| && events[i].comparison.accepted;
        assert AllEmitted(c, events)[i].incumbentLosses != events[i].incumbentLosses;
      }
    }
  }

  // A population of two problems, and a proposal that halves the incumbent's losses on both.
  function HalvingWorld(a: Arithmetic, se: real): World<bool, bool> {
    World(
      (state, row, step) => Proposal(true, 1.0, 1), (state, proposal, comparison) => state,
      (state, proposal, comparison: Comparison) => comparison.accepted,
      (row, batch) => Some(if row then [1.0, 1.0] else [2.0, 2.0]), n => [0, 1], Screening(a, 2, se))
  }

  // With a minibatch kept for two steps it is accepted, and emitted with its own losses on both sides.
  lemma HalvingIsEmittedTwice(a: Arithmetic, se: real)
    requires Lawful(a) && se >= 0.0 && a.native(-1.0) > a.native(-2.0)
    ensures var w, c := HalvingWorld(a, se), Every(2, 2);
      var run := FreshRun(w, c, 0, false, false, 0);
      && Cautious(w) && run.Some? && |run.value.events| == 1
      && run.value.events[0].comparison.accepted && run.value.events[0].incumbentLosses == [2.0, 2.0]
      && AllEmitted(c, run.value.events)[0].incumbentLosses == [1.0, 1.0]
  {
    var w, c := HalvingWorld(a, se), Every(2, 2);
    var candidate, incumbent := [1.0, 1.0], [2.0, 2.0];
    ScreeningIsCautious(w, a, 2, se);
    Census(a, candidate, incumbent, se);
    Means(1.0);
    Means(2.0);
    var comparison := Compare(a, candidate, incumbent, 2, se).value;
    assert comparison.accepted;
    assert FreshStep(w, c, 0, false, false, 0) ==
      Some(Step(Event([0, 1], candidate, incumbent, comparison, true, 0), true, false));
    assert FreshRun(w, c, 1, true, false, 1) == Some(Run([], true, 1));
  }

  lemma Means(x: real)
    ensures Mean([x, x]) == x
  {
    assert [x, x][1..] == [x] && [x][1..] == [];
    assert Total([x, x]) == x + Total([x]) && Total([x]) == x + Total([]);
  }

  // ---------------------------------------------------------------- the engine

  class Search<!R, !S> {
    const world: World<R, S>
    var row: R
    var state: S

    constructor (world: World<R, S>, row: R, state: S)
      ensures this.world == world && this.row == row && this.state == state
    {
      this.world := world;
      this.row := row;
      this.state := state;
    }

    method Ask(step: nat) returns (p: Proposal<R>)
      ensures p == world.propose(state, row, step)
    {
      p := world.propose(state, row, step);
    }

    method TellRelative(p: Proposal<R>, comparison: Comparison) returns (accepted: bool)
      modifies this
      ensures accepted == world.sync(old(state), p, comparison)
      ensures row == if accepted then p.row else old(row)
      ensures state == world.learn(old(state), p, comparison)
    {
      accepted := world.sync(state, p, comparison);
      if accepted {
        row := p.row;
      }
      state := world.learn(state, p, comparison);
    }
  }

  // ---------------------------------------------------------------- the driver

  datatype Report<R> = Report(
    emitted: seq<Event>, row: R, version: nat, evaluations: nat, objectiveEvaluations: nat,
    lastAccepted: nat, batch: Batch, losses: seq<real>)

  // Incumbent measurements of the first `steps` steps.
  function Remeasured(c: Settings, steps: nat): nat
    requires ValidSettings(c)
  {
    if !c.reuse then steps else if steps == 0 then 0 else Replaced(steps - 1, c.due)
  }

  function LastAccepted(events: seq<Event>): nat {
    if events == [] then 0
    else if events[|events| - 1].comparison.accepted then |events|
    else LastAccepted(events[..|events| - 1])
  }

  // What the report must say about a run that starts at `row` on the baseline's measurement.
  ghost predicate Honest<R, S>(w: World<R, S>, c: Settings, r: Report<R>)
    requires ValidSettings(c)
  {
    && r.emitted != []
    && r.version == AcceptedCount(r.emitted)
    && r.lastAccepted == LastAccepted(r.emitted)
    && r.evaluations == 1 + EvaluatedCount(r.emitted)
    && r.objectiveEvaluations == 1 + EvaluatedCount(r.emitted) + Remeasured(c, |r.emitted|)
    && r.batch == BatchAt(w, c, |r.emitted| - 1)
    && w.losses(r.row, r.batch) == Some(r.losses)
  }

  // Asks, measures, compares and tells, given the incumbent's losses on the minibatch.
  method Round<R, S>(search: Search<R, S>, step: nat, batch: Batch, incumbent: seq<real>, version: nat)
    returns (r: Option<Event>)
    modifies search
    ensures var w := search.world;
      var d := Decide(w, batch, incumbent, w.propose(old(search.state), old(search.row), step),
                      old(search.row), old(search.state), version);
      && (r.Some? <==> d.Some?)
      && (r.Some? ==> r.value == d.value.event && search.row == d.value.row && search.state == d.value.state)
  {
    var p := search.Ask(step);
    var candidate := incumbent;
    if Evaluated(p) {
      var measured := search.world.losses(p.row, batch);
      if measured.None? {
        return None;
      }
      candidate := measured.value;
    }
    var comparison := search.world.compare(candidate, incumbent);
    if comparison.None? {
      return None;
    }
    var accepted := search.TellRelative(p, comparison.value);
    if accepted != comparison.value.accepted {
      return None;
    }
    r := Some(Event(batch, candidate, incumbent, comparison.value, Evaluated(p), version));
  }

  function Follow<R>(events: seq<Event>, r: Option<Run<R>>): Option<Run<R>> {
    if r.None? then None else Some(Run(events + r.value.events, r.value.row, r.value.version))
  }

  // One step of the reference run, seen from its start.
  lemma FollowStep<R, S>(w: World<R, S>, c: Settings, step: nat, row: R, state: S, version: nat, events: seq<Event>)
    requires ValidSettings(c) && step + 1 < c.evaluations
    ensures var now := Follow(events, FreshRun(w, c, step, row, state, version));
      var s := FreshStep(w, c, step, row, state, version);
      && (s.None? ==> now == None)
      && (s.Some? ==>
        var longer := events + [s.value.event];
        var next := version + (if s.value.event.comparison.accepted then 1 else 0);
        now == if !s.value.event.evaluated then Some(Run(longer, s.value.row, next))
               else Follow(longer, FreshRun(w, c, step + 1, s.value.row, s.value.state, next)))
  {
    var s := FreshStep(w, c, step, row, state, version);
    if s.Some? && s.value.event.evaluated {
      var next := version + (if s.value.event.comparison.accepted then 1 else 0);
      var rest := FreshRun(w, c, step + 1, s.value.row, s.value.state, next);
      if rest.Some? {
        assert events + ([s.value.event] + rest.value.events) == (events + [s.value.event]) + rest.value.events;
      }
    }
  }

  // A step leaves the new incumbent measured on its minibatch: by the candidate's losses after an
  // acceptance, by the incumbent's otherwise.
  lemma StepMeasures<R, S>(w: World<R, S>, batch: Batch, incumbent: seq<real>, p: Proposal<R>,
      row: R, state: S, version: nat)
    requires Cautious(w) && w.losses(row, batch) == Some(incumbent)
    ensures var d := Decide(w, batch, incumbent, p, row, state, version);
      d.Some? ==>
        var e := d.value.event;
        && e.incumbentLosses == incumbent && e.batch == batch && e.version == version
        && (e.comparison.accepted ==> e.evaluated)
        && w.losses(d.value.row, batch) == Some(if e.comparison.accepted then e.candidateLosses else incumbent)
  {
  }

  lemma Counts(events: seq<Event>, e: Event)
    ensures EvaluatedCount(events + [e]) == EvaluatedCount(events) + (if e.evaluated then 1 else 0)
    ensures AcceptedCount(events + [e]) == AcceptedCount(events) + (if e.comparison.accepted then 1 else 0)
    ensures LastAccepted(events + [e]) == if e.comparison.accepted then |events| + 1 else LastAccepted(events)
  {
    assert (events + [e])[..|events|] == events;
  }

  // ---------------------------------------------------------------- the loop

  // The driver's variables between two steps.
  datatype Progress = Progress(
    emitted: seq<Event>, batch: Batch, drawn: nat, incumbent: seq<real>, last: seq<real>,
    version: nat, evaluations: nat, objective: nat, lastAccepted: nat, stopped: bool)

  ghost predicate Counted(c: Settings, p: Progress)
    requires ValidSettings(c)
  {
    && p.version == AcceptedCount(p.emitted) && p.lastAccepted == LastAccepted(p.emitted)
    && p.evaluations == 1 + EvaluatedCount(p.emitted)
    && p.objective == 1 + EvaluatedCount(p.emitted) + Remeasured(c, |p.emitted|)
  }

  // What is known about the current incumbent's losses.
  ghost predicate Measured<R, S>(w: World<R, S>, c: Settings, p: Progress, row: R)
    requires ValidSettings(c)
  {
    var step := |p.emitted|;
    && p.drawn == 1 + (if step == 0 then 0 else DrawAt(c, step - 1))
    && (step > 0 ==> p.batch == BatchAt(w, c, step - 1) && w.losses(row, p.batch) == Some(p.last))
    && (c.reuse ==> p.batch == w.draw(p.drawn - 1) && w.losses(row, p.batch) == Some(p.incumbent))
  }

  // The reference run has decided the same so far, and goes on from here.
  ghost predicate OnTrack<R, S>(
    w: World<R, S>, c: Settings, p: Progress, decided: seq<Event>, row: R, state: S, whole: Option<Run<R>>)
    requires ValidSettings(c)
  {
    && p.emitted == AllEmitted(c, decided)
    && whole == if p.stopped then Some(Run(decided, row, p.version))
                else Follow(decided, FreshRun(w, c, |decided|, row, state, p.version))
  }

  // Ready to ask: the incumbent is measured on this step's minibatch.
  ghost predicate Ready<R, S>(w: World<R, S>, c: Settings, p: Progress, row: R)
    requires ValidSettings(c)
  {
    var step := |p.emitted|;
    && p.batch == BatchAt(w, c, step) && w.losses(row, p.batch) == Some(p.incumbent)
    && p.drawn == 1 + DrawAt(c, step)
    && p.version == AcceptedCount(p.emitted) && p.lastAccepted == LastAccepted(p.emitted)
    && p.evaluations == 1 + EvaluatedCount(p.emitted)
    && p.objective == 1 + EvaluatedCount(p.emitted) + Remeasured(c, step + 1)
  }

  // Draws and measures a new minibatch when the step calls for it.
  method Refresh<R, S>(search: Search<R, S>, c: Settings, p: Progress) returns (r: Option<Progress>)
    requires ValidSettings(c) && Counted(c, p) && Measured(search.world, c, p, search.row)
    ensures r.Some? <==> search.world.losses(search.row, BatchAt(search.world, c, |p.emitted|)).Some?
    ensures r.Some? ==> Ready(search.world, c, r.value, search.row)
    ensures r.Some? ==> r.value.emitted == p.emitted && r.value.version == p.version && r.value.stopped == p.stopped
  {
    var step := |p.emitted|;
    if c.reuse && !(step > 0 && c.due(step)) {
      return Some(p);
    }
    var batch := search.world.draw(p.drawn);
    var measured := search.world.losses(search.row, batch);
    if measured.None? {
      return None;
    }
    r := Some(p.(batch := batch, drawn := p.drawn + 1, incumbent := measured.value, objective := p.objective + 1));
  }

  // Books one decided step: carries measurements over, then emits it.
  function Book(c: Settings, p: Progress, e: Event): Progress
    requires ValidSettings(c)
  {
    var accepted := e.comparison.accepted;
    var evaluated := if e.evaluated then 1 else 0;
    var held := if accepted && c.reuse then e.candidateLosses else p.incumbent;
    Progress(
      p.emitted + [e.(incumbentLosses := held)], p.batch, p.drawn, held,
      if accepted then e.candidateLosses else p.incumbent,
      p.version + (if accepted then 1 else 0), p.evaluations + evaluated, p.objective + evaluated,
      if accepted then |p.emitted| + 1 else p.lastAccepted, !e.evaluated)
  }

  lemma BookedCounts<R, S>(w: World<R, S>, c: Settings, p: Progress, row: R, e: Event)
    requires ValidSettings(c) && Ready(w, c, p, row)
    ensures Counted(c, Book(c, p, e))
  {
    Counts(p.emitted, Book(c, p, e).emitted[|p.emitted|]);
  }

  lemma BookedMeasures<R, S>(w: World<R, S>, c: Settings, p: Progress, row: R, e: Event, next: R)
    requires ValidSettings(c) && Ready(w, c, p, row)
    requires w.losses(next, p.batch) == Some(if e.comparison.accepted then e.candidateLosses else p.incumbent)
    ensures Measured(w, c, Book(c, p, e), next)
  {
  }

  lemma BookedEmits(c: Settings, p: Progress, decided: seq<Event>, e: Event)
    requires ValidSettings(c) && p.emitted == AllEmitted(c, decided) && e.incumbentLosses == p.incumbent
    ensures Book(c, p, e).emitted == AllEmitted(c, decided + [e])
  {
    EmittedNext(c, decided, e);
  }

  // The reference run after a step that it decides the same.
  lemma BookedFollows<R, S>(
    w: World<R, S>, c: Settings, p: Progress, decided: seq<Event>, row: R, state: S, whole: Option<Run<R>>,
    s: Step<R, S>)
    requires ValidSettings(c) && !p.stopped && OnTrack(w, c, p, decided, row, state, whole)
    requires |p.emitted| + 1 < c.evaluations && s.event.incumbentLosses == p.incumbent
    requires FreshStep(w, c, |decided|, row, state, p.version) == Some(s)
    ensures OnTrack(w, c, Book(c, p, s.event), decided + [s.event], s.row, s.state, whole)
  {
    FollowStep(w, c, |decided|, row, state, p.version, decided);
    BookedEmits(c, p, decided, s.event);
  }

  lemma Booked<R, S>(
    w: World<R, S>, c: Settings, p: Progress, decided: seq<Event>, row: R, state: S, whole: Option<Run<R>>)
    requires ValidSettings(c) && Cautious(w) && Ready(w, c, p, row) && |p.emitted| + 1 < c.evaluations
    requires !p.stopped && OnTrack(w, c, p, decided, row, state, whole)
    ensures var d := Decide(w, p.batch, p.incumbent, w.propose(state, row, |p.emitted|), row, state, p.version);
      && (d.None? ==> whole == None)
      && (d.Some? ==>
        var next := Book(c, p, d.value.event);
        && Counted(c, next) && Measured(w, c, next, d.value.row)
        && OnTrack(w, c, next, decided + [d.value.event], d.value.row, d.value.state, whole))
  {
    var proposal := w.propose(state, row, |p.emitted|);
    StepMeasures(w, p.batch, p.incumbent, proposal, row, state, p.version);
    var d := Decide(w, p.batch, p.incumbent, proposal, row, state, p.version);
    assert FreshStep(w, c, |decided|, row, state, p.version) == d;
    if d.Some? {
      BookedCounts(w, c, p, row, d.value.event);
      BookedMeasures(w, c, p, row, d.value.event, d.value.row);
      BookedFollows(w, c, p, decided, row, state, whole, d.value);
    } else {
      FollowStep(w, c, |decided|, row, state, p.version, decided);
    }
  }

  function Opening(baseline: Batch, losses: seq<real>): Progress {
    Progress([], baseline, 1, losses, losses, 0, 1, 1, 0, false)
  }

  function Closing<R>(p: Progress, row: R): Report<R> {
    Report(p.emitted, row, p.version, p.evaluations, p.objective, p.lastAccepted, p.batch, p.last)
  }

  lemma Opens<R, S>(w: World<R, S>, c: Settings, baseline: Batch, losses: seq<real>, row: R, state: S)
    requires ValidSettings(c) && w.draw(0) == baseline && w.losses(row, baseline) == Some(losses)
    ensures var p := Opening(baseline, losses);
      Counted(c, p) && Measured(w, c, p, row) && OnTrack(w, c, p, [], row, state, FreshRun(w, c, 0, row, state, 0))
  {
    var whole := FreshRun(w, c, 0, row, state, 0);
    assert whole.Some? ==> [] + whole.value.events == whole.value.events;
  }

  lemma Closes<R, S>(
    w: World<R, S>, c: Settings, p: Progress, decided: seq<Event>, row: R, state: S, whole: Option<Run<R>>)
    requires ValidSettings(c) && p.emitted != [] && Counted(c, p) && Measured(w, c, p, row)
    requires OnTrack(w, c, p, decided, row, state, whole) && (p.stopped || |p.emitted| + 1 >= c.evaluations)
    ensures whole == Some(Run(decided, row, p.version)) && Honest(w, c, Closing(p, row))
  {
    assert decided + [] == decided;
  }

  // One step of the loop: measure if need be, ask, measure, tell, book.
  method Turn<R, S>(
    search: Search<R, S>, c: Settings, p: Progress, ghost decided: seq<Event>, ghost whole: Option<Run<R>>)
    returns (r: Option<Progress>, ghost longer: seq<Event>)
    requires ValidSettings(c) && Cautious(search.world) && |p.emitted| + 1 < c.evaluations && !p.stopped
    requires Counted(c, p) && Measured(search.world, c, p, search.row)
    requires OnTrack(search.world, c, p, decided, search.row, search.state, whole)
    modifies search
    ensures r.None? ==> whole == None
    ensures r.Some? ==>
      && |r.value.emitted| == |p.emitted| + 1 && Counted(c, r.value)
      && Measured(search.world, c, r.value, search.row)
      && OnTrack(search.world, c, r.value, longer, search.row, search.state, whole)
  {
    FollowStep(search.world, c, |p.emitted|, search.row, search.state, p.version, decided);
    var ready := Refresh(search, c, p);
    if ready.None? {
      return None, decided;
    }
    Booked(search.world, c, ready.value, decided, search.row, search.state, whole);
    var event := Round(search, |p.emitted|, ready.value.batch, ready.value.incumbent, p.version);
    if event.None? {
      return None, decided;
    }
    r, longer := Some(Book(c, ready.value, event.value)), decided + [event.value];
  }

  // The driver decides exactly as the reference run, which measures the incumbent at every step, and
  // emits its decisions; its report is honest.
  method Optimize<R, S>(search: Search<R, S>, c: Settings, baseline: Batch, baselineLosses: seq<real>)
    returns (r: Option<Report<R>>)
    requires ValidSettings(c) && Cautious(search.world)
    requires search.world.losses(search.row, baseline) == Some(baselineLosses)
    modifies search
    ensures var run := FreshRun(search.world, c, 0, old(search.row), old(search.state), 0);
      && (r.Some? <==> baseline == search.world.draw(0) && run.Some?)
      && (r.Some? ==>
            && r.value.emitted == AllEmitted(c, run.value.events)
            && r.value.row == run.value.row && r.value.version == run.value.version)
    ensures r.Some? ==> Honest(search.world, c, r.value) && r.value.row == search.row
  {
    var w := search.world;
    if w.draw(0) != baseline {
      return None;
    }
    ghost var whole := FreshRun(w, c, 0, search.row, search.state, 0);
    var p := Opening(baseline, baselineLosses);
    ghost var decided: seq<Event> := [];
    Opens(w, c, baseline, baselineLosses, search.row, search.state);
    while |p.emitted| + 1 < c.evaluations && !p.stopped
      invariant |p.emitted| + 1 <= c.evaluations && (p.stopped ==> p.emitted != [])
      invariant Counted(c, p) && Measured(w, c, p, search.row)
      invariant OnTrack(w, c, p, decided, search.row, search.state, whole)
      decreases c.evaluations - |p.emitted|
    {
      var next, longer := Turn(search, c, p, decided, whole);
      if next.None? {
        return None;
      }
      p, decided := next.value, longer;
    }
    Closes(w, c, p, decided, search.row, search.state, whole);
    r := Some(Closing(p, search.row));
  }
}
