// Trust-region centers: each is one perturbation of an earlier center, and the kernel resolves a
// code by replaying the perturbations from the root. Its chain has room for a fixed depth only.

module Centers {
  const ROOT: nat := 0xFFFF_FFFF
  const MAX_DEPTH: nat := 8

  datatype Center<S> = Center(parent: nat, seed: S)

  ghost predicate Earlier<S>(centers: seq<Center<S>>, n: nat) {
    n <= |centers| && forall i :: 0 <= i < n ==> centers[i].parent == 0xFFFF_FFFF || centers[i].parent < i
  }

  // A center or the root.
  predicate Known<S>(centers: seq<Center<S>>, n: nat, c: nat) { c == ROOT || c < n }

  // How many perturbations lie between the root and a center.
  ghost function Depth<S>(centers: seq<Center<S>>, n: nat, c: nat): nat
    requires Earlier(centers, n) && Known(centers, n, c)
    decreases if c == ROOT then 0 else c + 1
  {
    if c == ROOT then 0 else 1 + Depth(centers, n, centers[c].parent)
  }

  lemma {:induction false} DepthGrows<S>(centers: seq<Center<S>>, n: nat, m: nat, c: nat)
    requires n <= m && Earlier(centers, m) && Earlier(centers, n) && Known(centers, n, c)
    ensures Depth(centers, n, c) == Depth(centers, m, c)
    decreases if c == ROOT then 0 else c + 1
  {
    if c != ROOT {
      DepthGrows(centers, n, m, centers[c].parent);
    }
  }

  ghost predicate Shallow<S>(centers: seq<Center<S>>, n: nat) {
    Earlier(centers, n) && forall i :: 0 <= i < n ==> Known(centers, n, i) && Depth(centers, n, i) <= 8
  }

  ghost predicate ValidCenters<S>(centers: seq<Center<S>>, regionCenters: seq<nat>, regions: nat) {
    if centers == [] then regionCenters == []
    else
      && |regionCenters| == regions && Shallow(centers, |centers|)
      && forall r :: 0 <= r < |regionCenters| ==> regionCenters[r] < |centers|
  }

  // The first n + 1 centers are shallow if the first n are and the next one's chain is short.
  lemma ShallowNext<S>(centers: seq<Center<S>>, n: nat)
    requires n < |centers| < ROOT && Earlier(centers, n)
    ensures Shallow(centers, n + 1) <==>
      && Shallow(centers, n) && Known(centers, n, centers[n].parent)
      && 1 + Depth(centers, n, centers[n].parent) <= MAX_DEPTH
  {
    var parent, m := centers[n].parent, n + 1;
    if Known(centers, n, parent) {
      assert Earlier(centers, m);
      DepthGrows(centers, n, m, parent);
      assert Known(centers, m, n) && Depth(centers, m, n) == 1 + Depth(centers, n, parent);
      forall i | 0 <= i < n ensures Known(centers, m, i) && Depth(centers, n, i) == Depth(centers, m, i) {
        DepthGrows(centers, n, m, i);
      }
      if Shallow(centers, m) {
        forall i | 0 <= i < n ensures Known(centers, n, i) && Depth(centers, n, i) <= MAX_DEPTH {
          assert Depth(centers, m, i) <= MAX_DEPTH;
        }
      }
      if Shallow(centers, n) && Depth(centers, m, n) <= MAX_DEPTH {
        forall i | 0 <= i < m ensures Known(centers, m, i) && Depth(centers, m, i) <= MAX_DEPTH {
          if i < n {
            assert Depth(centers, n, i) <= MAX_DEPTH;
          }
        }
      }
    } else {
      assert !Earlier(centers, m);
    }
  }

  lemma {:induction false} ShallowPrefix<S>(centers: seq<Center<S>>, n: nat, m: nat)
    requires n <= m <= |centers| < ROOT && Shallow(centers, m)
    ensures Shallow(centers, n)
    decreases m - n
  {
    if n < m {
      ShallowNext(centers, m - 1);
      ShallowPrefix(centers, n, m - 1);
    }
  }

  // Accepts exactly centers whose parents come earlier and whose chains fit the kernel, and regions
  // that name one of them.
  method ValidateCenters<S>(centers: seq<Center<S>>, regionCenters: seq<nat>, regions: nat) returns (ok: bool)
    requires |centers| < ROOT
    ensures ok <==> ValidCenters(centers, regionCenters, regions)
  {
    if centers == [] {
      return regionCenters == [];
    }
    if |regionCenters| != regions {
      return false;
    }
    for index := 0 to |centers|
      invariant Shallow(centers, index)
    {
      ShallowNext(centers, index);
      var short := ShortChain(centers, index);
      if !short {
        if Shallow(centers, |centers|) {
          ShallowPrefix(centers, index + 1, |centers|);
        }
        return false;
      }
    }
    for r := 0 to |regionCenters|
      invariant forall k :: 0 <= k < r ==> regionCenters[k] < |centers|
    {
      if regionCenters[r] >= |centers| {
        return false;
      }
    }
    ok := true;
  }

  // Walks up from one center, counting, and gives up past the kernel's depth.
  method ShortChain<S>(centers: seq<Center<S>>, index: nat) returns (ok: bool)
    requires index < |centers| && Earlier(centers, index)
    ensures ok <==>
      Known(centers, index, centers[index].parent) && 1 + Depth(centers, index, centers[index].parent) <= MAX_DEPTH
  {
    var parent: nat := centers[index].parent;
    if parent != ROOT && parent >= index {
      return false;
    }
    var depth := 1;
    while parent != ROOT
      invariant Known(centers, index, parent) && depth <= MAX_DEPTH
      invariant depth + Depth(centers, index, parent) == 1 + Depth(centers, index, centers[index].parent)
      decreases Depth(centers, index, parent)
    {
      depth := depth + 1;
      if depth > MAX_DEPTH {
        return false;
      }
      parent := centers[parent].parent;
    }
    ok := true;
  }

  // ---------------------------------------------------------------- resolving a code

  // All perturbations from the root to a center.
  ghost function Resolved<S>(centers: seq<Center<S>>, n: nat, c: nat, code: nat, perturb: (nat, S) -> nat): nat
    requires Earlier(centers, n) && Known(centers, n, c)
    decreases if c == ROOT then 0 else c + 1
  {
    if c == ROOT then code
    else perturb(Resolved(centers, n, centers[c].parent, code, perturb), centers[c].seed)
  }

  // The seeds of a chain, nearest first, applied from the far end.
  ghost function Replayed<S>(chain: seq<S>, code: nat, perturb: (nat, S) -> nat): nat {
    if chain == [] then code else perturb(Replayed(chain[1..], code, perturb), chain[0])
  }

  ghost function Chain<S>(centers: seq<Center<S>>, n: nat, c: nat): seq<S>
    requires Earlier(centers, n) && Known(centers, n, c)
    decreases if c == ROOT then 0 else c + 1
  {
    if c == ROOT then [] else [centers[c].seed] + Chain(centers, n, centers[c].parent)
  }

  lemma {:induction false} ChainReplays<S>(centers: seq<Center<S>>, n: nat, c: nat, code: nat, perturb: (nat, S) -> nat)
    requires Earlier(centers, n) && Known(centers, n, c)
    ensures |Chain(centers, n, c)| == Depth(centers, n, c)
    ensures Replayed(Chain(centers, n, c), code, perturb) == Resolved(centers, n, c, code, perturb)
    decreases if c == ROOT then 0 else c + 1
  {
    if c != ROOT {
      ChainReplays(centers, n, centers[c].parent, code, perturb);
      assert Chain(centers, n, c)[1..] == Chain(centers, n, centers[c].parent);
    }
  }

  // The kernel's two loops over its fixed chain replay the whole chain of any accepted center.
  method ResolveCenter<S>(start: nat, centers: seq<Center<S>>, center: nat, empty: S, perturb: (nat, S) -> nat)
    returns (code: nat)
    requires Shallow(centers, |centers|) && Known(centers, |centers|, center)
    ensures code == Resolved(centers, |centers|, center, start, perturb)
  {
    ghost var n, whole := |centers|, Chain(centers, |centers|, center);
    ChainReplays(centers, n, center, start, perturb);
    var chain := new S[MAX_DEPTH](_ => empty);
    var current: nat, depth: nat := center, 0;
    while current != ROOT && depth < MAX_DEPTH
      invariant Known(centers, n, current) && depth <= |whole| <= MAX_DEPTH
      invariant Chain(centers, n, current) == whole[depth..]
      invariant forall i :: 0 <= i < depth ==> chain[i] == whole[i]
      decreases MAX_DEPTH - depth
    {
      var step := centers[current];
      assert step.seed == whole[depth..][0] && Chain(centers, n, step.parent) == whole[depth..][1..];
      chain[depth] := step.seed;
      current, depth := step.parent, depth + 1;
    }
    assert current == ROOT && depth == |whole|;
    code := Replay(chain, depth, start, perturb, whole);
  }

  // The second loop: from the far end back to the center.
  method Replay<S>(chain: array<S>, length: nat, start: nat, perturb: (nat, S) -> nat, ghost whole: seq<S>)
    returns (code: nat)
    requires length == |whole| <= chain.Length && forall i :: 0 <= i < length ==> chain[i] == whole[i]
    ensures code == Replayed(whole, start, perturb)
  {
    code := start;
    var depth: nat := length;
    while depth > 0
      invariant depth <= length && code == Replayed(whole[depth..], start, perturb)
    {
      depth := depth - 1;
      assert whole[depth..][1..] == whole[depth + 1..] && whole[depth..][0] == whole[depth];
      code := perturb(code, chain[depth]);
    }
    assert whole[0..] == whole;
  }
}
