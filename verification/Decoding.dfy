// Sequential decoding, and one accepted-prefix repair as the kernel performs it.
//
// The network with its position-indexed sampler is a function `next` of the tokens that
// precede a position: row p of a wave is computed from the tokens up to and including p
// only, and its random draw is keyed by the absolute row.

module Decoding {
  import opened Wrappers

  const VOCAB: nat := 8192
  const LANES: nat := 256

  type Next = seq<nat> -> nat

  // ---------------------------------------------------------------- sequential decoding

  // One token at a time. A row without a finite logit samples an identifier outside the
  // vocabulary, and then there is no continuation.
  function Sequential(next: Next, prefix: seq<nat>, rows: nat): (r: Option<seq<nat>>)
    decreases rows - |prefix|
  {
    if |prefix| >= rows then Some(prefix)
    else if next(prefix) < VOCAB then Sequential(next, prefix + [next(prefix)], rows)
    else None
  }

  // s continues the prompt, and each generated token is the one sampled after its prefix.
  ghost predicate Chain(next: Next, prompt: seq<nat>, s: seq<nat>) {
    && prompt <= s
    && forall p :: |prompt| <= p < |s| ==> s[p] == next(s[..p]) < VOCAB
  }

  lemma {:induction false} ChainDecides(next: Next, prompt: seq<nat>, s: seq<nat>, rows: nat)
    requires Chain(next, prompt, s) && |s| <= rows
    ensures Sequential(next, prompt, rows) == Sequential(next, s, rows)
    decreases |s|
  {
    if |s| == |prompt| {
      assert s == prompt;
    } else {
      var t := s[..|s| - 1];
      forall p | |prompt| <= p < |t| ensures t[p] == next(t[..p]) < VOCAB {
        assert t[..p] == s[..p];
      }
      ChainDecides(next, prompt, t, rows);
      assert s[..|t|] == t && t + [next(t)] == s;
    }
  }

  // A complete chain is the sequential result, and a sequential result is a complete chain.
  lemma {:induction false} SequentialIsChain(next: Next, prompt: seq<nat>, rows: nat, s: seq<nat>)
    requires |prompt| <= rows
    ensures Sequential(next, prompt, rows) == Some(s) <==> Chain(next, prompt, s) && |s| == rows
    decreases rows - |prompt|
  {
    if Chain(next, prompt, s) && |s| == rows {
      ChainDecides(next, prompt, s, rows);
    }
    if |prompt| < rows && next(prompt) < VOCAB {
      var longer := prompt + [next(prompt)];
      SequentialIsChain(next, longer, rows, s);
      if Chain(next, longer, s) {
        forall p | |prompt| <= p < |s| ensures s[p] == next(s[..p]) < VOCAB {
          if p == |prompt| {
            assert s[..p] == longer[..p] == prompt;
          }
        }
      }
    }
  }

  // ---------------------------------------------------------------- one repair

  datatype Draft = Draft(tokens: seq<nat>, frontier: nat)

  predicate Differs(tokens: seq<nat>, predicted: seq<nat>, p: nat)
    requires 0 < p < |tokens| == |predicted|
  {
    tokens[p] != predicted[p - 1]
  }

  // First position at or after start whose token is not the one predicted for it.
  function Mismatch(tokens: seq<nat>, predicted: seq<nat>, start: nat): (m: nat)
    requires 0 < start <= |tokens| == |predicted|
    ensures start <= m <= |tokens|
    ensures forall p :: start <= p < m ==> !Differs(tokens, predicted, p)
    ensures m < |tokens| ==> Differs(tokens, predicted, m)
    decreases |tokens| - start
  {
    if start == |tokens| || Differs(tokens, predicted, start) then start
    else Mismatch(tokens, predicted, start + 1)
  }

  function Clamp(token: nat): nat { if token < VOCAB then token else VOCAB - 1 }

  // The draft after a repair: everything from the mismatch on is redrawn from the wave, the
  // corrected position is accepted, and an identifier outside the vocabulary at that
  // position moves the frontier past the end.
  function Repaired(d: Draft, predicted: seq<nat>): (r: Draft)
    requires 0 < d.frontier && |d.tokens| == |predicted|
  {
    var rows := |d.tokens|;
    if d.frontier > rows then d
    else
      var m := Mismatch(d.tokens, predicted, d.frontier);
      Draft(
        seq(rows, p requires 0 <= p < rows => if m <= p then Clamp(predicted[p - 1]) else d.tokens[p]),
        if m == rows then rows else if predicted[m - 1] < VOCAB then m + 1 else rows + 1)
  }

  ghost predicate Candidate(tokens: seq<nat>, predicted: seq<nat>, start: nat, m: nat)
    requires 0 < start <= |tokens| == |predicted|
  {
    m == |tokens| || (start <= m < |tokens| && Differs(tokens, predicted, m))
  }

  ghost predicate LaneLeast(tokens: seq<nat>, predicted: seq<nat>, start: nat, lane: nat, least: nat)
    requires 0 < start <= |tokens| == |predicted|
  {
    && Candidate(tokens, predicted, start, least)
    && forall p :: start <= p < |tokens| && (p - start) % LANES == lane && Differs(tokens, predicted, p)
        ==> least <= p
  }

  // One lane visits start + lane, then every 256th position.
  method ScanLane(predicted: array<nat>, tokens: array<nat>, start: nat, lane: nat) returns (least: nat)
    requires 0 < start <= tokens.Length == predicted.Length && lane < LANES
    ensures LaneLeast(tokens[..], predicted[..], start, lane, least)
  {
    least := tokens.Length;
    var position := start + lane;
    while position < tokens.Length
      invariant (position - start) % LANES == lane && position >= start + lane
      invariant Candidate(tokens[..], predicted[..], start, least)
      invariant forall p :: start <= p < position && p < tokens.Length && (p - start) % LANES == lane
                  ==> Differs(tokens[..], predicted[..], p) ==> least <= p
      decreases tokens.Length - position
    {
      if tokens[position] != predicted[position - 1] {
        least := if least < position then least else position;
      }
      position := position + LANES;
    }
  }

  // Some cell of the live width is at most the value, so the live minimum is too.
  ghost predicate SomeAtMost(cells: seq<nat>, width: nat, value: nat)
    requires width <= |cells|
  {
    exists u :: 0 <= u < width && cells[u] <= value
  }

  ghost predicate Drawn(was: seq<nat>, cells: seq<nat>) {
    forall t :: 0 <= t < |cells| ==> cells[t] in was
  }

  ghost predicate Reduced(was: seq<nat>, cells: seq<nat>, width: nat) {
    && 0 < width <= |cells| == |was|
    && forall t {:trigger SomeAtMost(cells, width, was[t])} :: 0 <= t < |was| ==> SomeAtMost(cells, width, was[t])
  }

  function Lower(before: seq<nat>, stride: nat, t: nat): nat
    requires t < |before| && 2 * stride <= |before|
  {
    if t < stride && before[t + stride] < before[t] then before[t + stride] else before[t]
  }

  ghost predicate Halved(before: seq<nat>, after: seq<nat>, stride: nat) {
    && |before| == |after| && 2 * stride <= |before|
    && forall t :: 0 <= t < |after| ==> after[t] == Lower(before, stride, t)
  }

  lemma HalvedDrawn(was: seq<nat>, before: seq<nat>, after: seq<nat>, stride: nat)
    requires Drawn(was, before) && Halved(before, after, stride)
    ensures Drawn(was, after)
  {
    forall t | 0 <= t < |after| ensures after[t] in was {
      assert after[t] == Lower(before, stride, t);
      assert before[t] in was;
    }
  }

  lemma HalvedReduced(was: seq<nat>, before: seq<nat>, after: seq<nat>, stride: nat)
    requires 0 < stride && Reduced(was, before, 2 * stride) && Halved(before, after, stride)
    ensures Reduced(was, after, stride)
  {
    forall t | 0 <= t < |was| ensures SomeAtMost(after, stride, was[t]) {
      assert SomeAtMost(before, 2 * stride, was[t]);
      var u :| 0 <= u < 2 * stride && before[u] <= was[t];
      var v: nat := if u < stride then u else u - stride;
      assert after[v] == Lower(before, stride, v) <= before[u];
    }
  }

  method HalveLanes(first: array<nat>, stride: nat)
    requires 2 * stride <= first.Length
    modifies first
    ensures Halved(old(first[..]), first[..], stride)
  {
    for tid := 0 to stride
      invariant forall t :: 0 <= t < first.Length ==>
          first[t] == if t < tid then Lower(old(first[..]), stride, t) else old(first[t])
    {
      if first[tid + stride] < first[tid] {
        first[tid] := first[tid + stride];
      }
    }
  }

  // The live width halves from 256 to 1.
  ghost predicate Stride(stride: nat, width: nat) {
    || (stride == 0 && width == 1)
    || (stride > 0 && width == 2 * stride && exists level: nat :: stride == Power(level))
  }

  ghost function Power(level: nat): (p: nat)
    ensures p > 0
  {
    if level == 0 then 1 else 2 * Power(level - 1)
  }

  lemma FirstStride()
    ensures Stride(LANES / 2, LANES)
  {
    assert Power(7) == 2 * Power(6) == 4 * Power(5) == 8 * Power(4) == 16 * Power(3) == 32 * Power(2);
  }

  lemma NextStride(stride: nat, width: nat)
    requires Stride(stride, width) && stride > 0
    ensures Stride(stride / 2, stride)
  {
    var level: nat :| stride == Power(level);
    if level > 0 {
      assert stride / 2 == Power(level - 1);
    }
  }

  // The tree reduction leaves the least of the 256 lane results in cell 0.
  method ReduceLanes(first: array<nat>) returns (least: nat)
    requires first.Length == LANES
    modifies first
    ensures IsLeast(old(first[..]), least)
  {
    ghost var was := first[..];
    assert Drawn(was, was) && Reduced(was, was, LANES) by {
      forall t | 0 <= t < LANES ensures SomeAtMost(was, LANES, was[t]) {
        assert was[t] <= was[t];
      }
    }
    FirstStride();
    ghost var width: nat := LANES;
    var stride: nat := LANES / 2;
    while stride > 0
      invariant Stride(stride, width)
      invariant Drawn(was, first[..]) && Reduced(was, first[..], width)
    {
      ghost var before := first[..];
      HalveLanes(first, stride);
      HalvedDrawn(was, before, first[..], stride);
      HalvedReduced(was, before, first[..], stride);
      NextStride(stride, width);
      width, stride := stride, stride / 2;
    }
    least := first[0];
    LeastOfAll(was, first[..]);
  }

  ghost predicate IsLeast(cells: seq<nat>, least: nat) {
    least in cells && forall t :: 0 <= t < |cells| ==> least <= cells[t]
  }

  lemma LeastOfAll(was: seq<nat>, cells: seq<nat>)
    requires Drawn(was, cells) && Reduced(was, cells, 1)
    ensures IsLeast(was, cells[0])
  {
    assert cells[0] in was;
    forall t | 0 <= t < |was| ensures cells[0] <= was[t] {
      assert SomeAtMost(cells, 1, was[t]);
    }
  }

  // The lanes redraw every position from m on.
  method Redraw(predicted: array<nat>, tokens: array<nat>, m: nat)
    requires predicted != tokens && predicted.Length == tokens.Length && 0 < m
    modifies tokens
    ensures forall p :: 0 <= p < tokens.Length ==>
        tokens[p] == if m <= p then Clamp(predicted[p - 1]) else old(tokens[p])
  {
    for tid := 0 to LANES
      invariant forall p :: 0 <= p < tokens.Length ==>
          tokens[p] == if m <= p && (p - m) % LANES < tid then Clamp(predicted[p - 1]) else old(tokens[p])
    {
      var position := m + tid;
      while position < tokens.Length
        invariant (position - m) % LANES == tid && position >= m + tid
        invariant forall p :: 0 <= p < tokens.Length ==>
            tokens[p] == if m <= p && ((p - m) % LANES < tid || ((p - m) % LANES == tid && p < position))
                         then Clamp(predicted[p - 1]) else old(tokens[p])
        decreases tokens.Length - position
      {
        tokens[position] := if predicted[position - 1] < VOCAB - 1 then predicted[position - 1] else VOCAB - 1;
        position := position + LANES;
      }
    }
  }

  // The kernel: 256 lanes scan with a stride, a tree reduction takes the least mismatch, and
  // the lanes rewrite the rest. Lanes between two barriers touch disjoint cells, so they run
  // in turn here.
  method VerifyPrefix(predicted: array<nat>, tokens: array<nat>, start: nat) returns (frontier: nat)
    requires predicted != tokens && predicted.Length == tokens.Length
    requires 0 < start
    modifies tokens
    ensures Draft(tokens[..], frontier) == Repaired(Draft(old(tokens[..]), start), predicted[..])
  {
    var rows := tokens.Length;
    if start > rows {
      frontier := start;
      return;
    }
    ghost var was := tokens[..];
    ghost var wave := predicted[..];
    var first := new nat[LANES];
    for tid := 0 to LANES
      invariant tokens[..] == was
      invariant forall t :: 0 <= t < tid ==> LaneLeast(was, wave, start, t, first[t])
    {
      first[tid] := ScanLane(predicted, tokens, start, tid);
    }
    ghost var lanes := first[..];
    var mismatch := ReduceLanes(first);
    assert IsLeast(lanes, mismatch);
    assert Candidate(was, wave, start, mismatch);
    forall p | start <= p < rows && Differs(was, wave, p) ensures mismatch <= p {
      assert lanes[(p - start) % LANES] <= p;
    }
    assert mismatch == Mismatch(was, wave, start);
    Redraw(predicted, tokens, mismatch);
    frontier := if mismatch == rows then rows
                else if predicted[mismatch - 1] < VOCAB then mismatch + 1 else rows + 1;
    assert tokens[..] == Repaired(Draft(was, start), wave).tokens;
  }

  // ---------------------------------------------------------------- what a repair keeps

  // The tokens below the frontier are sequential decoding's; a frontier past the end means
  // sequential decoding has no result.
  ghost predicate Accepted(next: Next, prompt: seq<nat>, d: Draft) {
    && 0 < |prompt| <= |d.tokens|
    && (forall p :: 0 <= p < |d.tokens| ==> d.tokens[p] < VOCAB)
    && if d.frontier > |d.tokens|
       then d.frontier == |d.tokens| + 1 && Sequential(next, prompt, |d.tokens|) == None
       else |prompt| <= d.frontier && Chain(next, prompt, d.tokens[..d.frontier])
  }

  // The wave holds, for every row that a repair from this frontier reads, the token that
  // follows the current draft up to that row.
  ghost predicate Sampled(next: Next, d: Draft, predicted: seq<nat>) {
    && |predicted| == |d.tokens|
    && forall i :: 0 <= d.frontier - 1 <= i < |d.tokens| ==> predicted[i] == next(d.tokens[..i + 1])
  }

  lemma RepairAccepts(next: Next, prompt: seq<nat>, d: Draft, predicted: seq<nat>)
    requires Accepted(next, prompt, d) && Sampled(next, d, predicted)
    ensures Accepted(next, prompt, Repaired(d, predicted))
    ensures d.frontier < |d.tokens| ==> Repaired(d, predicted).frontier > d.frontier
    ensures d.frontier >= |d.tokens| ==> Repaired(d, predicted).frontier == d.frontier
    ensures d.frontier <= |d.tokens| ==>
        Repaired(d, predicted).tokens[..Mismatch(d.tokens, predicted, d.frontier)]
        == d.tokens[..Mismatch(d.tokens, predicted, d.frontier)]
  {
    var rows := |d.tokens|;
    if d.frontier <= rows {
      var m := Mismatch(d.tokens, predicted, d.frontier);
      var r := Repaired(d, predicted);
      var kept := d.tokens[..m];
      assert r.tokens[..m] == kept;
      forall p | |prompt| <= p < m ensures kept[p] == next(kept[..p]) < VOCAB {
        assert kept[..p] == d.tokens[..p];
        if p < d.frontier {
          assert d.tokens[..d.frontier][..p] == d.tokens[..p];
        } else {
          assert !Differs(d.tokens, predicted, p);
          assert predicted[p - 1] == next(d.tokens[..p]);
        }
      }
      assert prompt <= kept;
      if m < rows {
        assert predicted[m - 1] == next(kept);
        ChainDecides(next, prompt, kept, rows);
        if predicted[m - 1] < VOCAB {
          var grown := r.tokens[..m + 1];
          forall p | |prompt| <= p < m + 1 ensures grown[p] == next(grown[..p]) < VOCAB {
            assert grown[..p] == kept[..p];
            assert kept[..m] == kept;
          }
        }
      }
    }
  }

  // ---------------------------------------------------------------- how far a repair gets

  // The draft has at p the token that follows its own prefix.
  predicate Agrees(next: Next, tokens: seq<nat>, p: nat)
    requires p < |tokens|
  {
    tokens[p] == next(tokens[..p])
  }

  // One pass over a draft, from the draft and the network alone. The first position from the frontier
  // on that does not follow from its prefix is corrected and counted; everything behind it is sampled
  // anew; without one, all rows are accepted. A correction that is no token moves past the end.
  ghost predicate Verified(next: Next, d: Draft, e: Draft) {
    var rows := |d.tokens|;
    && |e.tokens| == rows
    && (d.frontier > rows ==> e == d)
    && (d.frontier <= rows ==> exists m :: d.frontier <= m <= rows && VerifiedAt(next, d, e, m))
  }

  ghost predicate VerifiedAt(next: Next, d: Draft, e: Draft, m: nat)
    requires |e.tokens| == |d.tokens| && d.frontier <= m <= |d.tokens|
  {
    var rows := |d.tokens|;
    && (forall p :: d.frontier <= p < m ==> Agrees(next, d.tokens, p))
    && (forall p :: 0 <= p < m ==> e.tokens[p] == d.tokens[p])
    && (forall p :: m <= p < rows && next(d.tokens[..p]) < VOCAB ==> e.tokens[p] == next(d.tokens[..p]))
    && (forall p :: m <= p < rows && next(d.tokens[..p]) >= VOCAB ==> e.tokens[p] == VOCAB - 1)
    && (m == rows ==> e.frontier == rows)
    && (m < rows ==> !Agrees(next, d.tokens, m))
    && (m < rows && next(d.tokens[..m]) < VOCAB ==> e.frontier == m + 1)
    && (m < rows && next(d.tokens[..m]) >= VOCAB ==> e.frontier == rows + 1)
  }

  lemma RepairVerifies(next: Next, d: Draft, predicted: seq<nat>)
    requires 0 < d.frontier && Sampled(next, d, predicted)
    ensures Verified(next, d, Repaired(d, predicted))
  {
    var rows, e := |d.tokens|, Repaired(d, predicted);
    if d.frontier <= rows {
      var m := Mismatch(d.tokens, predicted, d.frontier);
      forall p | d.frontier <= p < rows ensures predicted[p - 1] == next(d.tokens[..p]) {
      }
      forall p | d.frontier <= p < m ensures Agrees(next, d.tokens, p) {
        assert !Differs(d.tokens, predicted, p);
      }
      assert VerifiedAt(next, d, e, m);
    }
  }

  // The new frontier counts the drafted tokens that follow from their prefix and the first that does
  // not, once corrected, and nothing behind it.
  lemma FrontierExact(next: Next, d: Draft, predicted: seq<nat>)
    requires 0 < d.frontier < |d.tokens| && Sampled(next, d, predicted)
    ensures var f := Repaired(d, predicted).frontier;
      && (f <= |d.tokens| ==> forall p :: d.frontier <= p < f - 1 ==> d.tokens[p] == next(d.tokens[..p]))
      && (f < |d.tokens| ==> f > d.frontier && d.tokens[f - 1] != next(d.tokens[..f - 1]))
  {
    var e := Repaired(d, predicted);
    RepairVerifies(next, d, predicted);
    var m :| d.frontier <= m <= |d.tokens| && VerifiedAt(next, d, e, m);
    forall p | d.frontier <= p < m ensures d.tokens[p] == next(d.tokens[..p]) {
      assert Agrees(next, d.tokens, p);
    }
  }

  // It moves past the end exactly when the first of them has no token to be corrected to.
  lemma FrontierStops(next: Next, d: Draft, predicted: seq<nat>)
    requires 0 < d.frontier < |d.tokens| && Sampled(next, d, predicted)
    ensures Repaired(d, predicted).frontier > |d.tokens| <==>
      exists m :: d.frontier <= m < |d.tokens| && Stops(next, d, m)
  {
    var e := Repaired(d, predicted);
    RepairVerifies(next, d, predicted);
    var m :| d.frontier <= m <= |d.tokens| && VerifiedAt(next, d, e, m);
    if e.frontier > |d.tokens| {
      assert Stops(next, d, m);
    }
    if k :| d.frontier <= k < |d.tokens| && Stops(next, d, k) {
      assert k == m;
    }
  }

  // The first drafted position that does not follow from its prefix has no token to follow.
  ghost predicate Stops(next: Next, d: Draft, m: nat)
    requires d.frontier <= m < |d.tokens|
  {
    && (forall p :: d.frontier <= p < m ==> Agrees(next, d.tokens, p))
    && !Agrees(next, d.tokens, m) && next(d.tokens[..m]) >= VOCAB
  }
}
