// Streamed generation: every position owns a cached state, a wave runs in chunks, and only
// the chunks from the one holding the last correction on are computed again.

module Streaming {
  import opened Wrappers
  import opened Division
  import opened Decoding
  import opened Generation

  // The cached states of the first k tokens: each one is made from the states before it and
  // its own token.
  function States<S>(absorb: (seq<S>, nat) -> S, tokens: seq<nat>, k: nat): (s: seq<S>)
    requires k <= |tokens|
    ensures |s| == k
  {
    if k == 0 then []
    else
      var before := States(absorb, tokens, k - 1);
      before + [absorb(before, tokens[k - 1])]
  }

  function StateAt<S>(absorb: (seq<S>, nat) -> S, tokens: seq<nat>, i: nat): S
    requires i < |tokens|
  {
    absorb(States(absorb, tokens, i), tokens[i])
  }

  lemma {:induction false} StatesPointwise<S>(absorb: (seq<S>, nat) -> S, tokens: seq<nat>, k: nat, s: seq<S>)
    requires k <= |tokens| && |s| == k
    requires forall i :: 0 <= i < k ==> s[i] == StateAt(absorb, tokens, i)
    ensures s == States(absorb, tokens, k)
  {
    if k > 0 {
      StatesPointwise(absorb, tokens, k - 1, s[..k - 1]);
      assert s == s[..k - 1] + [s[k - 1]];
    }
  }

  // The causal predictor that the cached model computes.
  function CachedNext<S(!new)>(absorb: (seq<S>, nat) -> S, readout: seq<S> -> nat): Next {
    prefix => readout(States(absorb, prefix, |prefix|))
  }

  lemma {:induction false} StatesPrefix<S>(absorb: (seq<S>, nat) -> S, a: seq<nat>, b: seq<nat>, k: nat, j: nat)
    requires j <= k <= |a| && j <= |b|
    requires forall i :: 0 <= i < j ==> a[i] == b[i]
    ensures States(absorb, a, k)[..j] == States(absorb, b, j)
    decreases k
  {
    if j < k {
      StatesPrefix(absorb, a, b, k - 1, j);
    } else if k > 0 {
      StatesPrefix(absorb, a, b, k - 1, k - 1);
      assert States(absorb, a, k)[..j] == States(absorb, a, k);
      assert States(absorb, a, k - 1)[..k - 1] == States(absorb, a, k - 1);
    }
  }

  // Two waves that agree on the rows a repair reads give the same repair.
  lemma {:induction false} MismatchAgrees(tokens: seq<nat>, a: seq<nat>, b: seq<nat>, start: nat)
    requires 0 < start <= |tokens| == |a| == |b|
    requires forall i :: start - 1 <= i < |a| ==> a[i] == b[i]
    ensures Mismatch(tokens, a, start) == Mismatch(tokens, b, start)
    decreases |tokens| - start
  {
    if start < |tokens| && !Differs(tokens, a, start) {
      MismatchAgrees(tokens, a, b, start + 1);
    }
  }

  lemma RepairAgrees(d: Draft, a: seq<nat>, b: seq<nat>)
    requires 0 < d.frontier && |d.tokens| == |a| == |b|
    requires forall i :: d.frontier - 1 <= i < |a| ==> a[i] == b[i]
    ensures Repaired(d, a) == Repaired(d, b)
  {
    if d.frontier <= |d.tokens| {
      MismatchAgrees(d.tokens, a, b, d.frontier);
    }
  }

  // ---------------------------------------------------------------- chunk sizes

  // n counts whole chunks of r.
  ghost predicate Multiple(n: nat, r: nat)
    requires r > 0
  {
    n == 0 || (n >= r && Multiple(n - r, r))
  }

  lemma {:induction false} ProductMultiple(q: nat, r: nat)
    requires r > 0
    ensures Multiple(q * r, r)
  {
    if q > 0 {
      ProductMultiple(q - 1, r);
      assert q * r == (q - 1) * r + r;
    }
  }

  lemma RemainderMultiple(n: nat, r: nat)
    requires r > 0 && n % r == 0
    ensures Multiple(n, r)
  {
    assert n == (n / r) * r;
    ProductMultiple(n / r, r);
  }

  lemma {:induction false} MultipleAdd(m: nat, n: nat, r: nat)
    requires r > 0 && Multiple(m, r) && Multiple(n, r)
    ensures Multiple(m + n, r)
  {
    if m > 0 {
      MultipleAdd(m - r, n, r);
    }
  }

  lemma {:induction false} MultipleGap(m: nat, n: nat, r: nat)
    requires r > 0 && Multiple(m, r) && Multiple(n, r) && m < n
    ensures m + r <= n && Multiple(m + r, r)
  {
    if m > 0 {
      MultipleGap(m - r, n - r, r);
    }
  }

  lemma {:induction false} MultipleTransitive(c: nat, b: nat, a: nat)
    requires a > 0 && b > 0 && Multiple(b, a) && Multiple(c, b)
    ensures Multiple(c, a)
  {
    if c > 0 {
      MultipleTransitive(c - b, b, a);
      MultipleAdd(c - b, b, a);
    }
  }

  lemma {:induction false} MultipleDouble(n: nat, r: nat)
    requires r > 0 && Multiple(n, r)
    ensures Multiple(2 * n, 2 * r)
  {
    if n > 0 {
      MultipleDouble(n - r, r);
    }
  }

  lemma {:induction false} MultipleOfOne(n: nat)
    ensures Multiple(n, 1)
  {
    if n > 0 {
      MultipleOfOne(n - 1);
    }
  }

  lemma {:induction false} PowersDivide(a: nat, b: nat)
    requires PowerOfTwo(a) && PowerOfTwo(b) && a <= b
    ensures a > 0 && Multiple(b, a)
  {
    if a > 1 {
      PowersDivide(a / 2, b / 2);
      MultipleDouble(b / 2, a / 2);
    } else {
      MultipleOfOne(b);
    }
  }

  predicate ChunkSize(n: nat) {
    64 <= n <= 4096 && PowerOfTwo(n)
  }

  // First row of the chunk that holds a position.
  function ChunkStart(position: nat, rows: nat): (s: nat)
    requires rows > 0
    ensures s <= position && Multiple(s, rows)
  {
    ProductMultiple(position / rows, rows);
    position / rows * rows
  }

  // ---------------------------------------------------------------- the cache

  // The first k positions are cached for these tokens, and sampled from `from` on.
  ghost predicate Cached<S(!new)>(absorb: (seq<S>, nat) -> S, readout: seq<S> -> nat,
                                  states: seq<S>, sampled: seq<nat>, tokens: seq<nat>, k: nat, from: nat)
  {
    && k <= |tokens| == |states| == |sampled|
    && (forall i :: 0 <= i < k ==> states[i] == StateAt(absorb, tokens, i))
    && forall i :: from <= i < k ==> sampled[i] == readout(States(absorb, tokens, i + 1))
  }

  // What is cached for some tokens is cached for any others that share the prefix.
  lemma CachedPrefix<S(!new)>(absorb: (seq<S>, nat) -> S, readout: seq<S> -> nat,
                              states: seq<S>, sampled: seq<nat>, was: seq<nat>, tokens: seq<nat>,
                              k: nat, j: nat, from: nat)
    requires Cached(absorb, readout, states, sampled, was, k, from) && j <= k
    requires |tokens| == |was| && forall i :: 0 <= i < j ==> tokens[i] == was[i]
    ensures Cached(absorb, readout, states, sampled, tokens, j, from)
  {
    forall i | 0 <= i < j ensures states[i] == StateAt(absorb, tokens, i) {
      StatesPrefix(absorb, was, tokens, i, i);
      assert States(absorb, was, i)[..i] == States(absorb, was, i);
    }
    forall i | from <= i < j ensures sampled[i] == readout(States(absorb, tokens, i + 1)) {
      StatesPrefix(absorb, was, tokens, i + 1, i + 1);
      assert States(absorb, was, i + 1)[..i + 1] == States(absorb, was, i + 1);
    }
  }

  // A wave that is right from the last accepted row on repairs like a wave over every row.
  lemma CachedRepairs<S(!new)>(absorb: (seq<S>, nat) -> S, readout: seq<S> -> nat,
                         states: seq<S>, sampled: seq<nat>, d: Draft, from: nat)
    requires Cached(absorb, readout, states, sampled, d.tokens, |d.tokens|, from)
    requires from < d.frontier
    ensures Repaired(d, sampled) == Repaired(d, Generation.Wave(CachedNext(absorb, readout), d.tokens))
  {
    var wave := Generation.Wave(CachedNext(absorb, readout), d.tokens);
    forall i | d.frontier - 1 <= i < |sampled| ensures sampled[i] == wave[i] {
      var t := d.tokens[..i + 1];
      StatesPrefix(absorb, d.tokens, t, i + 1, i + 1);
      assert States(absorb, d.tokens, i + 1)[..i + 1] == States(absorb, d.tokens, i + 1);
    }
    RepairAgrees(d, sampled, wave);
  }

  // A repair leaves every token before its new frontier's last position alone.
  lemma KeptPrefix(d: Draft, predicted: seq<nat>, k: nat)
    requires 0 < d.frontier && |d.tokens| == |predicted|
    requires k <= |d.tokens|
    requires var r := Repaired(d, predicted).frontier;
        k < r <= |d.tokens| || d.frontier > |d.tokens| || k < d.frontier
    ensures forall i :: 0 <= i < k ==> Repaired(d, predicted).tokens[i] == d.tokens[i]
    ensures Repaired(d, predicted).frontier >= d.frontier
  {
  }

  // ---------------------------------------------------------------- the streamed generator

  class StreamedModel<S(!new,0)> {
    const absorb: (seq<S>, nat) -> S
    const readout: seq<S> -> nat
    const sequence: nat
    const diffusion: bool
    const states: array<S>
    const tokens: array<nat>
    const sampled: array<nat>
    var frontier: nat

    ghost predicate Valid() {
      && tokens != sampled && states as object != tokens && states as object != sampled
      && tokens.Length == sampled.Length == states.Length == sequence
    }

    // What the cached model computes.
    ghost function NextToken(): Next {
      CachedNext(absorb, readout)
    }

    function State(): Draft reads this, tokens {
      Draft(tokens[..], frontier)
    }

    constructor (absorb: (seq<S>, nat) -> S, readout: seq<S> -> nat, sequence: nat, diffusion: bool)
      ensures Valid() && fresh(tokens) && fresh(sampled) && fresh(states)
      ensures this.absorb == absorb && this.readout == readout
      ensures this.sequence == sequence && this.diffusion == diffusion
    {
      this.absorb, this.readout := absorb, readout;
      this.sequence, this.diffusion := sequence, diffusion;
      states := new S[sequence];
      tokens := new nat[sequence];
      sampled := new nat[sequence];
      frontier := 0;
    }

    ghost predicate Warm(k: nat, from: nat)
      reads states, tokens, sampled
    {
      Cached(absorb, readout, states[..], sampled[..], tokens[..], k, from)
    }

    // One row: its state from the states before it, and its sample unless it lies before the
    // last prompt token.
    method Row(i: nat, from: nat)
      requires Valid() && i < sequence && Warm(i, from)
      modifies states, sampled
      ensures Warm(i + 1, from)
    {
      StatesPointwise(absorb, tokens[..], i, states[..i]);
      states[i] := absorb(states[..i], tokens[i]);
      if from <= i {
        StatesPointwise(absorb, tokens[..], i + 1, states[..i + 1]);
        sampled[i] := readout(states[..i + 1]);
      }
    }

    method Chunk(first: nat, rows: nat, from: nat)
      requires Valid() && first + rows <= sequence && Warm(first, from)
      modifies states, sampled
      ensures Warm(first + rows, from)
    {
      for i := first to first + rows
        invariant Warm(i, from)
      {
        Row(i, from);
      }
    }

    // Every chunk from `start` to the end, on what the earlier chunks left in the cache.
    method Wave(start: nat, rows: nat, from: nat)
      requires Valid() && rows > 0 && start <= sequence
      requires Multiple(start, rows) && Multiple(sequence, rows)
      requires Warm(start, from)
      modifies states, sampled
      ensures Warm(sequence, from)
    {
      var first := start;
      while first < sequence
        invariant start <= first <= sequence && Multiple(first, rows)
        invariant Warm(first, from)
      {
        MultipleGap(first, sequence, rows);
        Chunk(first, rows, from);
        first := first + rows;
      }
    }

    // A wave and a repair. `start` may lie before the correction, never after it.
    method Pass(start: nat, rows: nat, from: nat, ghost host: nat)
      requires Valid() && rows > 0 && Multiple(start, rows) && Multiple(sequence, rows)
      requires from < host <= frontier && host <= sequence && start <= sequence
      requires Warm(start, from)
      modifies this`frontier, states, tokens, sampled
      ensures State() == Repaired(old(State()), Generation.Wave(NextToken(), old(tokens[..])))
      ensures frontier >= old(frontier)
      ensures Warm(if frontier <= sequence then frontier - 1 else host - 1, from)
    {
      Wave(start, rows, from);
      ghost var d := State();
      ghost var w := sampled[..];
      CachedRepairs(absorb, readout, states[..], w, d, from);
      frontier := VerifyPrefix(sampled, tokens, frontier);
      ghost var k: nat := if frontier <= sequence then frontier - 1 else host - 1;
      KeptPrefix(d, w, k);
      CachedPrefix(absorb, readout, states[..], w, d.tokens, tokens[..], sequence, k, from);
    }

    // One round, on chunks placed by the frontier the host last read. The very first wave
    // covers everything in full-size chunks.
    method Round(unroll: nat, chunk: nat, repair: nat, opening: bool, from: nat)
      requires Valid() && chunk > 0 && repair > 0
      requires Multiple(sequence, chunk) && Multiple(sequence, repair)
      requires from < frontier <= sequence
      requires !opening ==> Warm(frontier - 1, from)
      modifies this`frontier, states, tokens, sampled
      ensures State() == Passes(NextToken(), old(State()), unroll)
      ensures unroll > 0 && frontier <= sequence ==> Warm(frontier - 1, from)
      ensures frontier >= old(frontier)
    {
      var host := frontier;
      for pass := 0 to unroll
        invariant State() == Passes(NextToken(), old(State()), pass)
        invariant frontier >= host
        invariant !(opening && pass == 0) ==>
            Warm(if frontier <= sequence then frontier - 1 else host - 1, from)
      {
        if opening && pass == 0 {
          Pass(0, chunk, from, host);
        } else {
          var start := ChunkStart(host - 1, repair);
          CachedPrefix(absorb, readout, states[..], sampled[..], tokens[..], tokens[..],
                       if frontier <= sequence then frontier - 1 else host - 1, start, from);
          Pass(start, repair, from, host);
        }
      }
    }

    method Start(prompt: seq<nat>)
      requires Valid() && 0 < |prompt| <= sequence
      modifies this`frontier, tokens
      ensures State() == Opening(prompt, sequence)
    {
      for p := 0 to sequence
        invariant forall q :: 0 <= q < p ==> tokens[q] == if q < |prompt| then prompt[q] else 0
      {
        tokens[p] := if p < |prompt| then prompt[p] else 0;
      }
      frontier := |prompt|;
    }

    // One round of a run, and how far it gets.
    method Turn(
      prompt: seq<nat>, unroll: nat, chunk: nat, repair: nat, frontiers: seq<nat>, passes: nat, ghost rounds: nat)
      requires Valid() && unroll > 0 && chunk > 0 && repair > 0
      requires Multiple(sequence, chunk) && Multiple(sequence, repair) && Legal(prompt, sequence)
      requires Reached(NextToken(), Opening(prompt, sequence), unroll, rounds, Run(State(), frontiers, passes))
      requires |prompt| <= frontier < sequence
      requires passes == 0 || Warm(frontier - 1, |prompt| - 1)
      modifies this`frontier, states, tokens, sampled
      ensures frontier > old(frontier)
      ensures frontier > sequence ==> Sequential(NextToken(), prompt, sequence) == None
      ensures frontier <= sequence ==>
          && Warm(frontier - 1, |prompt| - 1)
          && Reached(NextToken(), Opening(prompt, sequence), unroll, rounds + 1,
                     Run(State(), frontiers + [frontier], passes + unroll))
    {
      ghost var run := Run(State(), frontiers, passes);
      Round(unroll, chunk, repair, passes == 0, |prompt| - 1);
      ReachedStep(NextToken(), prompt, sequence, unroll, rounds, run, State());
    }

    method Repair(prompt: seq<nat>, unroll: nat, chunk: nat, repair: nat)
      returns (frontiers: seq<nat>, passes: nat, ok: bool)
      requires Valid() && unroll > 0 && chunk > 0 && repair > 0
      requires Multiple(sequence, chunk) && Multiple(sequence, repair)
      requires Legal(prompt, sequence) && State() == Opening(prompt, sequence)
      modifies this`frontier, states, tokens, sampled
      ensures |frontiers| > 0
      ensures !ok ==> Sequential(NextToken(), prompt, sequence) == None
      ensures ok ==> frontier == sequence
      ensures ok ==> Reached(NextToken(), Opening(prompt, sequence), unroll, |frontiers| - 1,
                             Run(State(), frontiers, passes))
    {
      passes, frontiers := 0, [frontier];
      ghost var rounds: nat := 0;
      while frontier < sequence
        invariant |frontiers| == rounds + 1 && frontiers[rounds] == frontier
        invariant Reached(NextToken(), Opening(prompt, sequence), unroll, rounds, Run(State(), frontiers, passes))
        invariant |prompt| <= frontier <= sequence
        invariant passes == 0 || Warm(frontier - 1, |prompt| - 1)
        decreases sequence - frontier
      {
        Turn(prompt, unroll, chunk, repair, frontiers, passes, rounds);
        passes := passes + unroll;
        if frontier <= frontiers[|frontiers| - 1] || frontier > sequence {
          return frontiers, passes, false;
        }
        frontiers, rounds := frontiers + [frontier], rounds + 1;
      }
      ok := true;
    }

    // `repair` is the chunk size asked for repairs, the chunk itself when none was.
    method Generate(prompt: seq<nat>, temperature: Option<real>, unroll: nat, chunk: nat, repair: nat)
      returns (r: Result<GenerationOutput>)
      requires Valid()
      modifies this`frontier, states, tokens, sampled
      ensures r == Err(BadRequest) <==>
          || diffusion
          || prompt == [] || |prompt| >= sequence || (exists t :: t in prompt && t >= 8192)
          || temperature.None? || temperature.value < 0.0 || unroll < 1 || unroll > 32
          || chunk < 64 || chunk > 4096 || !PowerOfTwo(chunk) || sequence % chunk != 0
          || repair < 64 || repair > 4096 || !PowerOfTwo(repair)
      ensures r != Err(BadRequest) ==>
          0 < |prompt| <= sequence && unroll > 0 && Generated(NextToken(), prompt, sequence, unroll, r)
    {
      if diffusion || !ValidRequest(prompt, sequence, temperature, unroll)
         || !ChunkSize(chunk) || sequence % chunk != 0 || !ChunkSize(repair)
      {
        return Err(BadRequest);
      }
      var rows := if repair < chunk then repair else chunk;
      RemainderMultiple(sequence, chunk);
      PowersDivide(rows, chunk);
      MultipleTransitive(sequence, chunk, rows);
      Start(prompt);
      var frontiers, passes, ok := Repair(prompt, unroll, chunk, rows);
      if !ok {
        return Err(FailedToAdvance);
      }
      var output := ReadBack(prompt, unroll, frontiers, passes);
      FinishedIsGenerated(NextToken(), prompt, sequence, unroll, |frontiers| - 1, Run(State(), frontiers, passes));
      r := Ok(GenerationOutput(output, frontiers, passes));
    }

    // Reads the tokens back; the checks on them never fail.
    method ReadBack(prompt: seq<nat>, ghost unroll: nat, ghost frontiers: seq<nat>, ghost passes: nat)
      returns (output: seq<nat>)
      requires Valid() && Legal(prompt, sequence) && frontiers != [] && frontier == sequence
      requires Reached(NextToken(), Opening(prompt, sequence), unroll, |frontiers| - 1, Run(State(), frontiers, passes))
      ensures output == State().tokens
    {
      output := tokens[..];
      FinishedTokens(NextToken(), prompt, sequence, unroll, |frontiers| - 1, Run(State(), frontiers, passes));
      if !(forall p :: 0 <= p < sequence ==> output[p] < VOCAB) || output[..|prompt|] != prompt {
        assert false;
      }
    }
  }
}
