// The accepted-prefix generators: the packed one runs every row in each wave, the streamed
// one keeps a cache per position and recomputes only the chunks from the last correction on.

module Generation {
  import opened Wrappers
  import opened Division
  import opened Decoding

  datatype Error = BadRequest | FailedToAdvance

  datatype Result<+T> = Ok(value: T) | Err(error: Error)

  datatype GenerationOutput = GenerationOutput(tokens: seq<nat>, frontiers: seq<nat>, passes: nat)

  predicate Legal(prompt: seq<nat>, rows: nat) {
    0 < |prompt| <= rows && forall t :: t in prompt ==> t < VOCAB
  }

  // The requests either generator accepts; a temperature of None stands for a nonfinite one.
  predicate ValidRequest(prompt: seq<nat>, rows: nat, temperature: Option<real>, unroll: nat) {
    && Legal(prompt, rows) && |prompt| < rows
    && temperature.Some? && temperature.value >= 0.0
    && 1 <= unroll <= 32
  }

  // ---------------------------------------------------------------- passes and rounds

  function Wave(next: Next, tokens: seq<nat>): (w: seq<nat>)
    ensures |w| == |tokens|
    ensures forall i :: 0 <= i < |tokens| ==> w[i] == next(tokens[..i + 1])
  {
    seq(|tokens|, i requires 0 <= i < |tokens| => next(tokens[..i + 1]))
  }

  function Passes(next: Next, d: Draft, n: nat): (r: Draft)
    requires 0 < d.frontier
    ensures |r.tokens| == |d.tokens| && 0 < r.frontier
  {
    if n == 0 then d
    else var before := Passes(next, d, n - 1); Repaired(before, Wave(next, before.tokens))
  }

  function Opening(prompt: seq<nat>, rows: nat): Draft
    requires |prompt| <= rows
  {
    Draft(prompt + seq(rows - |prompt|, _ => 0), |prompt|)
  }

  lemma OpeningAccepted(next: Next, prompt: seq<nat>, rows: nat)
    requires Legal(prompt, rows)
    ensures Accepted(next, prompt, Opening(prompt, rows))
  {
    assert Opening(prompt, rows).tokens[..|prompt|] == prompt;
    forall p | 0 <= p < rows ensures Opening(prompt, rows).tokens[p] < VOCAB {
      if p < |prompt| {
        assert prompt[p] in prompt;
      }
    }
  }

  // However many passes run, the accepted prefix is sequential decoding's, and until the end
  // each pass accepts at least one more token.
  lemma {:induction false} PassesAccept(next: Next, prompt: seq<nat>, d: Draft, n: nat)
    requires Accepted(next, prompt, d) && d.frontier <= |d.tokens|
    ensures Accepted(next, prompt, Passes(next, d, n))
    ensures var f := Passes(next, d, n).frontier;
        f > |d.tokens| || f >= d.frontier + n || f == |d.tokens|
    ensures Passes(next, d, n).frontier >= d.frontier
  {
    if n > 0 {
      PassesAccept(next, prompt, d, n - 1);
      var before := Passes(next, d, n - 1);
      RepairAccepts(next, prompt, before, Wave(next, before.tokens));
    }
  }

  // A run: the draft on the device, the frontiers the host has read, the passes taken.
  datatype Run = Run(draft: Draft, frontiers: seq<nat>, passes: nat)

  // One round is `unroll` passes between two host reads of the frontier.
  function RunOver(next: Next, d: Draft, unroll: nat, rounds: nat): (r: Run)
    requires 0 < d.frontier
    ensures |r.draft.tokens| == |d.tokens| && 0 < r.draft.frontier
    ensures |r.frontiers| == rounds + 1 && r.frontiers[rounds] == r.draft.frontier
    ensures r.frontiers[0] == d.frontier
  {
    if rounds == 0 then Run(d, [d.frontier], 0)
    else
      var before := RunOver(next, d, unroll, rounds - 1);
      var after := Passes(next, before.draft, unroll);
      Run(after, before.frontiers + [after.frontier], before.passes + unroll)
  }

  lemma {:induction false} RunPasses(next: Next, d: Draft, unroll: nat, rounds: nat)
    requires 0 < d.frontier
    ensures RunOver(next, d, unroll, rounds).passes == Span(rounds, unroll)
  {
    if rounds > 0 {
      RunPasses(next, d, unroll, rounds - 1);
      SpanGrows(rounds - 1, unroll);
    } else {
      SpanGrows(0, unroll);
    }
  }

  // A round that starts before the end accepts `unroll` further tokens, reaches the end, or
  // shows that sequential decoding has no result.
  lemma RoundAccepts(next: Next, prompt: seq<nat>, d: Draft, unroll: nat)
    requires Accepted(next, prompt, d) && d.frontier <= |d.tokens|
    ensures Accepted(next, prompt, Passes(next, d, unroll))
    ensures var f := Passes(next, d, unroll).frontier;
        && (f > |d.tokens| ==> Sequential(next, prompt, |d.tokens|) == None)
        && (f <= |d.tokens| ==> f >= d.frontier + unroll || f == |d.tokens|)
  {
    PassesAccept(next, prompt, d, unroll);
  }

  // How many rounds of b it takes to cover a.
  function CeilDiv(a: nat, b: nat): nat
    requires b > 0
  {
    if a <= b then (if a == 0 then 0 else 1) else 1 + CeilDiv(a - b, b)
  }

  lemma {:induction false} CeilDivMonotone(a: nat, c: nat, b: nat)
    requires b > 0 && a <= c
    ensures CeilDiv(a, b) <= CeilDiv(c, b)
  {
    if a > b {
      CeilDivMonotone(a - b, c - b, b);
    }
  }

  function Ceiling(a: nat, b: nat): nat
    requires b > 0
  {
    (a + b - 1) / b
  }

  lemma {:induction false} CeilDivIsCeiling(a: nat, b: nat)
    requires b > 0
    ensures CeilDiv(a, b) == Ceiling(a, b)
    decreases a
  {
    if a == 0 {
      DivUnique(b - 1, b, 0, b - 1);
    } else if a <= b {
      DivUnique(a + b - 1, b, 1, a - 1);
    } else {
      CeilDivIsCeiling(a - b, b);
      QuotientStep(a + b - 1, b);
    }
  }

  lemma CeilDivStep(total: nat, f: nat, g: nat, b: nat)
    requires b > 0 && f < total && g <= total && (g >= f + b || g == total)
    ensures 1 + CeilDiv(total - g, b) <= CeilDiv(total - f, b)
  {
    if total - f > b {
      CeilDivMonotone(total - g, total - f - b, b);
    }
  }

  ghost predicate Increasing(s: seq<nat>) {
    forall i :: 0 <= i < |s| - 1 ==> s[i] < s[i + 1]
  }

  // Where a number of rounds leads, none of which began at the end or went past it.
  ghost predicate Reached(next: Next, d: Draft, unroll: nat, rounds: nat, run: Run) {
    && 0 < d.frontier <= |d.tokens| && 0 < unroll
    && run == RunOver(next, d, unroll, rounds)
    && run.draft.frontier <= |d.tokens|
    && (rounds > 0 ==>
          && Reached(next, d, unroll, rounds - 1, RunOver(next, d, unroll, rounds - 1))
          && RunOver(next, d, unroll, rounds - 1).draft.frontier < |d.tokens|)
  }

  lemma {:induction false} ReachedAccepts(next: Next, prompt: seq<nat>, d: Draft, unroll: nat, rounds: nat, run: Run)
    requires Accepted(next, prompt, d) && Reached(next, d, unroll, rounds, run)
    ensures Accepted(next, prompt, run.draft)
  {
    if rounds > 0 {
      var before := RunOver(next, d, unroll, rounds - 1);
      ReachedAccepts(next, prompt, d, unroll, rounds - 1, before);
      RoundAccepts(next, prompt, before.draft, unroll);
    }
  }

  lemma ReachedAdvances(next: Next, prompt: seq<nat>, d: Draft, unroll: nat, rounds: nat, run: Run)
    requires rounds > 0
    requires Accepted(next, prompt, d) && Reached(next, d, unroll, rounds, run)
    ensures Advances(RunOver(next, d, unroll, rounds - 1).draft.frontier, run.draft.frontier, unroll, |d.tokens|)
  {
    var before := RunOver(next, d, unroll, rounds - 1);
    ReachedAccepts(next, prompt, d, unroll, rounds - 1, before);
    RoundAccepts(next, prompt, before.draft, unroll);
  }

  predicate Advances(f: nat, g: nat, unroll: nat, rows: nat) {
    f < rows && f < g <= rows && (g >= f + unroll || g == rows)
  }

  ghost predicate Advancing(s: seq<nat>, unroll: nat, rows: nat) {
    forall i :: 0 <= i < |s| - 1 ==> Advances(s[i], s[i + 1], unroll, rows)
  }

  // The rounds behind and the rounds still needed never exceed the bound.
  lemma {:induction false} AdvancesCount(s: seq<nat>, unroll: nat, rows: nat)
    requires unroll > 0 && |s| > 0 && s[0] <= rows
    requires Advancing(s, unroll, rows)
    ensures s[|s| - 1] <= rows
    ensures |s| - 1 + CeilDiv(rows - s[|s| - 1], unroll) <= CeilDiv(rows - s[0], unroll)
    decreases |s|
  {
    var n := |s|;
    if n > 1 {
      var t := s[..n - 1];
      AdvancesCount(t, unroll, rows);
      assert Advances(s[n - 2], s[n - 2 + 1], unroll, rows);
      CeilDivStep(rows, s[n - 2], s[n - 1], unroll);
    }
  }

  lemma {:induction false} FrontiersAdvance(next: Next, prompt: seq<nat>, d: Draft, unroll: nat, rounds: nat, run: Run)
    requires Accepted(next, prompt, d) && Reached(next, d, unroll, rounds, run)
    ensures Advancing(run.frontiers, unroll, |d.tokens|)
  {
    if rounds > 0 {
      var before := RunOver(next, d, unroll, rounds - 1);
      FrontiersAdvance(next, prompt, d, unroll, rounds - 1, before);
      ReachedAdvances(next, prompt, d, unroll, rounds, run);
      var f, t := run.frontiers, before.frontiers;
      forall i | 0 <= i < |f| - 1 ensures Advances(f[i], f[i + 1], unroll, |d.tokens|) {
        if i < |t| - 1 {
          assert Advances(t[i], t[i + 1], unroll, |d.tokens|);
        }
      }
    }
  }

  // A further round goes on, or shows that sequential decoding has no result.
  lemma ReachedStep(next: Next, prompt: seq<nat>, rows: nat, unroll: nat, rounds: nat, run: Run, after: Draft)
    requires Legal(prompt, rows)
    requires Reached(next, Opening(prompt, rows), unroll, rounds, run) && run.draft.frontier < rows
    requires after == Passes(next, run.draft, unroll)
    ensures after.frontier > run.draft.frontier
    ensures after.frontier <= rows ==>
        Reached(next, Opening(prompt, rows), unroll, rounds + 1,
                Run(after, run.frontiers + [after.frontier], run.passes + unroll))
    ensures after.frontier > rows ==> Sequential(next, prompt, rows) == None
  {
    OpeningAccepted(next, prompt, rows);
    ReachedAccepts(next, prompt, Opening(prompt, rows), unroll, rounds, run);
    RoundAccepts(next, prompt, run.draft, unroll);
  }

  // The drafts after each single pass, from the first one on.
  ghost predicate Verifies(next: Next, drafts: seq<Draft>) {
    forall i :: 0 <= i < |drafts| - 1 ==> Verified(next, drafts[i], drafts[i + 1])
  }

  function Drafts(next: Next, d: Draft, n: nat): (r: seq<Draft>)
    requires 0 < d.frontier
    ensures |r| == n + 1
  {
    seq(n + 1, i requires 0 <= i <= n => Passes(next, d, i))
  }

  lemma DraftsVerify(next: Next, d: Draft, n: nat)
    requires 0 < d.frontier
    ensures Verifies(next, Drafts(next, d, n))
  {
    var drafts := Drafts(next, d, n);
    forall i | 0 <= i < n ensures Verified(next, drafts[i], drafts[i + 1]) {
      RepairVerifies(next, drafts[i], Wave(next, drafts[i].tokens));
    }
  }

  lemma {:induction false} PassesAdd(next: Next, d: Draft, m: nat, n: nat)
    requires 0 < d.frontier
    ensures Passes(next, Passes(next, d, m), n) == Passes(next, d, m + n)
    decreases n
  {
    if n > 0 {
      PassesAdd(next, d, m, n - 1);
    }
  }

  // How many passes a number of rounds takes.
  function Span(rounds: nat, unroll: nat): nat { rounds * unroll }

  lemma SpanGrows(rounds: nat, unroll: nat)
    ensures Span(0, unroll) == 0
    ensures Span(rounds + 1, unroll) == Span(rounds, unroll) + unroll
  {
  }

  lemma {:induction false} SpanWithin(i: nat, rounds: nat, unroll: nat)
    requires i <= rounds
    ensures Span(i, unroll) <= Span(rounds, unroll)
    decreases rounds
  {
    if i < rounds {
      SpanWithin(i, rounds - 1, unroll);
      SpanGrows(rounds - 1, unroll);
    }
  }

  // A frontier is read after every `unroll` passes.
  lemma {:induction false} RunReads(next: Next, d: Draft, unroll: nat, rounds: nat)
    requires 0 < d.frontier
    ensures RunOver(next, d, unroll, rounds).draft == Passes(next, d, Span(rounds, unroll))
    ensures forall i: nat :: i <= rounds ==>
      RunOver(next, d, unroll, rounds).frontiers[i] == Passes(next, d, Span(i, unroll)).frontier
    decreases rounds
  {
    if rounds > 0 {
      RunReads(next, d, unroll, rounds - 1);
      SpanGrows(rounds - 1, unroll);
      PassesAdd(next, d, Span(rounds - 1, unroll), unroll);
      var f, g := RunOver(next, d, unroll, rounds).frontiers, RunOver(next, d, unroll, rounds - 1).frontiers;
      forall i: nat | i <= rounds ensures f[i] == Passes(next, d, Span(i, unroll)).frontier {
        assert i < rounds ==> f[i] == g[i];
      }
    } else {
      SpanGrows(0, unroll);
    }
  }

  // The reported frontiers are those of single passes over the draft, read after every `unroll`.
  ghost predicate Reads(
    next: Next, prompt: seq<nat>, rows: nat, unroll: nat, f: seq<nat>, s: seq<nat>, drafts: seq<Draft>)
    requires 0 < |prompt| <= rows
  {
    && |f| > 0 && |drafts| == Span(|f| - 1, unroll) + 1
    && Verifies(next, drafts)
    && drafts[0].frontier == |prompt| && drafts[0].tokens == prompt + seq(rows - |prompt|, _ => 0)
    && drafts[|drafts| - 1].tokens == s
    && ReadEvery(unroll, f, drafts)
  }

  ghost predicate ReadEvery(unroll: nat, f: seq<nat>, drafts: seq<Draft>) {
    forall i: nat :: i < |f| ==> Span(i, unroll) < |drafts| && f[i] == drafts[Span(i, unroll)].frontier
  }

  lemma FrontiersRead(next: Next, d: Draft, unroll: nat, rounds: nat)
    requires 0 < d.frontier
    ensures ReadEvery(unroll, RunOver(next, d, unroll, rounds).frontiers, Drafts(next, d, Span(rounds, unroll)))
  {
    RunReads(next, d, unroll, rounds);
    forall i: nat | i <= rounds ensures Span(i, unroll) <= Span(rounds, unroll) {
      SpanWithin(i, rounds, unroll);
    }
  }

  lemma RunIsRead(next: Next, prompt: seq<nat>, rows: nat, unroll: nat, rounds: nat)
    requires 0 < |prompt| <= rows
    ensures var d := Opening(prompt, rows);
      var run := RunOver(next, d, unroll, rounds);
      Reads(next, prompt, rows, unroll, run.frontiers, run.draft.tokens, Drafts(next, d, Span(rounds, unroll)))
  {
    var d := Opening(prompt, rows);
    RunReads(next, d, unroll, rounds);
    FrontiersRead(next, d, unroll, rounds);
    DraftsVerify(next, d, Span(rounds, unroll));
  }

  ghost predicate Readable(next: Next, prompt: seq<nat>, rows: nat, unroll: nat, f: seq<nat>, s: seq<nat>)
    requires 0 < |prompt| <= rows
  {
    exists drafts :: Reads(next, prompt, rows, unroll, f, s, drafts)
  }

  // What a run answers, for packed and streamed generation alike.
  ghost predicate Generated(next: Next, prompt: seq<nat>, rows: nat, unroll: nat, r: Result<GenerationOutput>)
    requires 0 < |prompt| <= rows && unroll > 0
  {
    match Sequential(next, prompt, rows)
    case None => r == Err(FailedToAdvance)
    case Some(s) =>
      && r.Ok? && r.value.tokens == s
      && var f := r.value.frontiers;
      && 0 < |f| <= 1 + Ceiling(rows - |prompt|, unroll)
      && Readable(next, prompt, rows, unroll, f, s)
      && f[0] == |prompt| && f[|f| - 1] == rows && Increasing(f)
      && r.value.passes == Span(|f| - 1, unroll)
  }

  lemma FinishedTokens(next: Next, prompt: seq<nat>, rows: nat, unroll: nat, rounds: nat, run: Run)
    requires Legal(prompt, rows)
    requires Reached(next, Opening(prompt, rows), unroll, rounds, run) && run.draft.frontier == rows
    ensures var s := run.draft.tokens;
        && Sequential(next, prompt, rows) == Some(s)
        && |s| == rows && prompt <= s && forall p :: 0 <= p < rows ==> s[p] < VOCAB
  {
    OpeningAccepted(next, prompt, rows);
    ReachedAccepts(next, prompt, Opening(prompt, rows), unroll, rounds, run);
    var s := run.draft.tokens;
    assert s[..rows] == s;
    SequentialIsChain(next, prompt, rows, s);
  }

  lemma FinishedIsGenerated(next: Next, prompt: seq<nat>, rows: nat, unroll: nat, rounds: nat, run: Run)
    requires Legal(prompt, rows)
    requires Reached(next, Opening(prompt, rows), unroll, rounds, run) && run.draft.frontier == rows
    ensures Generated(next, prompt, rows, unroll, Ok(GenerationOutput(run.draft.tokens, run.frontiers, run.passes)))
  {
    var d := Opening(prompt, rows);
    OpeningAccepted(next, prompt, rows);
    FinishedTokens(next, prompt, rows, unroll, rounds, run);
    FrontiersAdvance(next, prompt, d, unroll, rounds, run);
    AdvancesCount(run.frontiers, unroll, rows);
    CeilDivIsCeiling(rows - |prompt|, unroll);
    RunPasses(next, d, unroll, rounds);
    RunIsRead(next, prompt, rows, unroll, rounds);
  }

  // ---------------------------------------------------------------- the packed generator

  class FbtModel {
    const next: Next
    const rows: nat
    const sequence: nat
    const diffusion: bool
    const cached: bool
    const tokens: array<nat>
    const sampled: array<nat>
    var frontier: nat

    ghost predicate Valid() {
      tokens != sampled && tokens.Length == sampled.Length == rows
    }

    function State(): Draft reads this, tokens {
      Draft(tokens[..], frontier)
    }

    constructor (next: Next, rows: nat, sequence: nat, diffusion: bool, cached: bool)
      ensures Valid() && fresh(tokens) && fresh(sampled)
      ensures this.next == next && this.rows == rows && this.sequence == sequence
      ensures this.diffusion == diffusion && this.cached == cached
    {
      this.next, this.rows, this.sequence := next, rows, sequence;
      this.diffusion, this.cached := diffusion, cached;
      tokens := new nat[rows];
      sampled := new nat[rows];
      frontier := 0;
    }

    // One wave over every row.
    method Enqueue()
      requires Valid()
      modifies sampled
      ensures sampled[..] == Wave(next, tokens[..])
    {
      for row := 0 to rows
        invariant forall i :: 0 <= i < row ==> sampled[i] == next(tokens[..i + 1])
      {
        sampled[row] := next(tokens[..row + 1]);
      }
      forall i | 0 <= i < rows ensures sampled[i] == Wave(next, tokens[..])[i] {
        assert tokens[..][..i + 1] == tokens[..i + 1];
      }
    }

    method Start(prompt: seq<nat>)
      requires Valid() && 0 < |prompt| <= rows
      modifies this`frontier, tokens
      ensures State() == Opening(prompt, rows)
    {
      for p := 0 to rows
        invariant forall q :: 0 <= q < p ==> tokens[q] == if q < |prompt| then prompt[q] else 0
      {
        tokens[p] := if p < |prompt| then prompt[p] else 0;
      }
      frontier := |prompt|;
    }

    // One round: `unroll` waves, each followed by a repair, without reading anything back.
    method Round(unroll: nat)
      requires Valid() && 0 < frontier
      modifies this`frontier, tokens, sampled
      ensures State() == Passes(next, old(State()), unroll)
    {
      for pass := 0 to unroll
        invariant State() == Passes(next, old(State()), pass)
      {
        Enqueue();
        frontier := VerifyPrefix(sampled, tokens, frontier);
      }
    }

    // Rounds until the host reads a frontier at the end, or one that did not advance.
    method Repair(prompt: seq<nat>, unroll: nat) returns (frontiers: seq<nat>, passes: nat, ok: bool)
      requires Valid() && unroll > 0
      requires Legal(prompt, rows) && State() == Opening(prompt, rows)
      modifies this`frontier, tokens, sampled
      ensures |frontiers| > 0
      ensures !ok ==> Sequential(next, prompt, rows) == None
      ensures ok ==> frontier == rows
      ensures ok ==> Reached(next, Opening(prompt, rows), unroll, |frontiers| - 1, Run(State(), frontiers, passes))
    {
      passes, frontiers := 0, [frontier];
      ghost var rounds: nat := 0;
      while frontier < rows
        invariant |frontiers| == rounds + 1 && frontiers[rounds] == frontier
        invariant Reached(next, Opening(prompt, rows), unroll, rounds, Run(State(), frontiers, passes))
        invariant 0 < frontier <= rows
        decreases rows - frontier
      {
        ghost var run := Run(State(), frontiers, passes);
        Round(unroll);
        ReachedStep(next, prompt, rows, unroll, rounds, run, State());
        passes := passes + unroll;
        if frontier <= frontiers[|frontiers| - 1] || frontier > rows {
          return frontiers, passes, false;
        }
        frontiers, rounds := frontiers + [frontier], rounds + 1;
      }
      ok := true;
    }

    method Generate(prompt: seq<nat>, temperature: Option<real>, unroll: nat) returns (r: Result<GenerationOutput>)
      requires Valid()
      modifies this`frontier, tokens, sampled
      ensures r == Err(BadRequest) <==>
          || diffusion || cached || rows != sequence
          || prompt == [] || |prompt| >= rows || (exists t :: t in prompt && t >= 8192)
          || temperature.None? || temperature.value < 0.0 || unroll < 1 || unroll > 32
      ensures r != Err(BadRequest) ==>
          0 < |prompt| <= rows && unroll > 0 && Generated(next, prompt, rows, unroll, r)
    {
      if diffusion || cached || rows != sequence || !ValidRequest(prompt, rows, temperature, unroll) {
        return Err(BadRequest);
      }
      Start(prompt);
      var frontiers, passes, ok := Repair(prompt, unroll);
      if !ok {
        return Err(FailedToAdvance);
      }
      var output := ReadBack(prompt, unroll, frontiers, passes);
      FinishedIsGenerated(next, prompt, rows, unroll, |frontiers| - 1, Run(State(), frontiers, passes));
      r := Ok(GenerationOutput(output, frontiers, passes));
    }

    // Reads the tokens back; the checks on them never fail.
    method ReadBack(prompt: seq<nat>, ghost unroll: nat, ghost frontiers: seq<nat>, ghost passes: nat)
      returns (output: seq<nat>)
      requires Valid() && Legal(prompt, rows) && frontiers != [] && frontier == rows
      requires Reached(next, Opening(prompt, rows), unroll, |frontiers| - 1, Run(State(), frontiers, passes))
      ensures output == State().tokens
    {
      output := tokens[..];
      FinishedTokens(next, prompt, rows, unroll, |frontiers| - 1, Run(State(), frontiers, passes));
      if !(forall p :: 0 <= p < rows ==> output[p] < VOCAB) || output[..|prompt|] != prompt {
        assert false;
      }
    }
  }

  // The same tokens whatever the unroll: both runs answer with sequential decoding's result.
  lemma UnrollIndependent(next: Next, prompt: seq<nat>, rows: nat, u: nat, v: nat,
                          a: Result<GenerationOutput>, b: Result<GenerationOutput>)
    requires 0 < |prompt| <= rows && u > 0 && v > 0
    requires Generated(next, prompt, rows, u, a) && Generated(next, prompt, rows, v, b)
    ensures a.Ok? <==> b.Ok?
    ensures a.Ok? ==> a.value.tokens == b.value.tokens
  {
  }
}
