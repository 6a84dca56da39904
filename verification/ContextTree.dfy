// The persistent key/value cache and its pyramid of block summaries. A write recomputes only
// the summaries above the rows it touched; the pyramid is what a full rebuild would give.

module ContextTree {
  import opened Division

  const BLOCK: nat := 64
  const ROW: nat := 128        // one key and one value, 64 halves each
  const LEAF: nat := 8192      // the halves of one block of rows
  const MAX_CONTEXT: nat := 2097152

  // How a block of rows and a pair of nodes are summarised.
  datatype Summary<!N(!new)> = Summary(leaf: seq<nat> -> N, join: (N, N) -> N, zero: N) {
    // A block of zeros summarises to zero, and so do two zeros. Both hold of rounded means.
    ghost predicate KeepsZero() {
      && leaf(seq(LEAF, _ => 0)) == zero
      && join(zero, zero) == zero
    }
  }

  // ---------------------------------------------------------------- the layout

  predicate ValidTokens(tokens: nat)
    ensures ValidTokens(tokens) <==> 4096 <= tokens <= 2097152 && exists k: nat :: tokens == TwoTo(k)
  {
    PowersOfTwo(tokens);
    4096 <= tokens <= MAX_CONTEXT && PowerOfTwo(tokens)
  }

  // Nodes in a level, leaves first.
  function Width(leaves: nat, level: nat): nat {
    if level == 0 then leaves else Width(leaves, level - 1) / 2
  }

  // Where a level starts in the flat tree.
  function Offset(leaves: nat, level: nat): nat {
    if level == 0 then 0 else Offset(leaves, level - 1) + Width(leaves, level - 1)
  }

  // Levels above the leaves, up to the root.
  function Levels(leaves: nat): nat {
    if leaves <= 1 then 0 else 1 + Levels(leaves / 2)
  }

  lemma {:induction false} WidthOfHalf(leaves: nat, level: nat)
    ensures Width(leaves, level + 1) == Width(leaves / 2, level)
  {
    if level > 0 {
      WidthOfHalf(leaves, level - 1);
    }
  }

  // Every level is a power of two wide, down to a single root, and the levels tile the tree.
  lemma {:induction false} LevelFits(leaves: nat, level: nat)
    requires PowerOfTwo(leaves) && level <= Levels(leaves)
    ensures PowerOfTwo(Width(leaves, level)) && (Width(leaves, level) == 1 <==> level == Levels(leaves))
    ensures Offset(leaves, level) + 2 * Width(leaves, level) == 2 * leaves
  {
    if level > 0 {
      LevelFits(leaves, level - 1);
      LevelsLeft(leaves, level - 1);
      LevelsLeft(leaves, level);
    } else {
      LevelsLeft(leaves, 0);
    }
  }

  lemma {:induction false} LevelsLeft(leaves: nat, level: nat)
    requires level <= Levels(leaves)
    ensures Levels(Width(leaves, level)) == Levels(leaves) - level
  {
    if level > 0 {
      LevelsLeft(leaves, level - 1);
    }
  }

  lemma {:induction false} OffsetsGrow(leaves: nat, low: nat, high: nat)
    requires low < high
    ensures Offset(leaves, low) + Width(leaves, low) <= Offset(leaves, high)
  {
    if low < high - 1 {
      OffsetsGrow(leaves, low, high - 1);
    }
  }

  // ---------------------------------------------------------------- a full rebuild

  function Block(kv: seq<nat>, leaf: nat): seq<nat>
    requires (leaf + 1) * LEAF <= |kv|
  {
    kv[leaf * LEAF..leaf * LEAF + LEAF]
  }

  predicate Inside(kv: seq<nat>, level: nat, i: nat)
  {
    if level == 0 then (i + 1) * LEAF <= |kv| else Inside(kv, level - 1, 2 * i) && Inside(kv, level - 1, 2 * i + 1)
  }

  // The summary of everything below a node, computed from the rows alone.
  function NodeAt<N(!new)>(s: Summary<N>, kv: seq<nat>, level: nat, i: nat): N
    requires Inside(kv, level, i)
  {
    if level == 0 then s.leaf(Block(kv, i))
    else s.join(NodeAt(s, kv, level - 1, 2 * i), NodeAt(s, kv, level - 1, 2 * i + 1))
  }

  lemma {:induction false} NodesInside(kv: seq<nat>, leaves: nat, level: nat, i: nat)
    requires |kv| == leaves * LEAF && i < Width(leaves, level)
    ensures Inside(kv, level, i)
  {
    if level > 0 {
      NodesInside(kv, leaves, level - 1, 2 * i);
      NodesInside(kv, leaves, level - 1, 2 * i + 1);
    }
  }

  // The level of the tree is what a rebuild from these rows puts there.
  ghost predicate LevelIs<N(!new)>(s: Summary<N>, tree: seq<N>, kv: seq<nat>, leaves: nat, level: nat) {
    && Offset(leaves, level) + Width(leaves, level) <= |tree|
    && forall i: nat :: i < Width(leaves, level) ==>
        Inside(kv, level, i) && tree[Offset(leaves, level) + i] == NodeAt(s, kv, level, i)
  }

  ghost predicate LevelsAre<N(!new)>(s: Summary<N>, tree: seq<N>, kv: seq<nat>, leaves: nat, low: nat, high: nat)
    decreases high - low
  {
    low >= high || (LevelIs(s, tree, kv, leaves, low) && LevelsAre(s, tree, kv, leaves, low + 1, high))
  }

  lemma {:induction false} LevelOf<N(!new)>(
    s: Summary<N>, tree: seq<N>, kv: seq<nat>, leaves: nat, low: nat, high: nat, level: nat)
    requires LevelsAre(s, tree, kv, leaves, low, high) && low <= level < high
    ensures LevelIs(s, tree, kv, leaves, level)
    decreases high - low
  {
    if low < level {
      LevelOf(s, tree, kv, leaves, low + 1, high, level);
    }
  }

  lemma {:induction false} LevelsHold<N(!new)>(
    s: Summary<N>, tree: seq<N>, kv: seq<nat>, leaves: nat, low: nat, high: nat)
    requires forall level: nat :: low <= level < high ==> LevelIs(s, tree, kv, leaves, level)
    ensures LevelsAre(s, tree, kv, leaves, low, high)
    decreases high - low
  {
    if low < high {
      LevelsHold(s, tree, kv, leaves, low + 1, high);
    }
  }

  // ---------------------------------------------------------------- what a write leaves alone

  // Rows outside leaf blocks [first, end) agree.
  ghost predicate AgreeOutside(was: seq<nat>, kv: seq<nat>, first: nat, end: nat) {
    |was| == |kv| && forall leaf: nat :: (leaf < first || end <= leaf) && (leaf + 1) * LEAF <= |kv| ==>
        Block(was, leaf) == Block(kv, leaf)
  }

  // The dirty range of a level: halved outwards each time.
  function First(first: nat, level: nat): nat { if level == 0 then first else First(first, level - 1) / 2 }
  function End(end: nat, level: nat): nat { if level == 0 then end else (End(end, level - 1) + 1) / 2 }

  lemma {:induction false} CleanNode<N(!new)>(
    s: Summary<N>, was: seq<nat>, kv: seq<nat>, first: nat, end: nat, level: nat, i: nat)
    requires AgreeOutside(was, kv, first, end) && Inside(kv, level, i)
    requires i < First(first, level) || End(end, level) <= i
    ensures Inside(was, level, i) && NodeAt(s, was, level, i) == NodeAt(s, kv, level, i)
  {
    if level > 0 {
      CleanNode(s, was, kv, first, end, level - 1, 2 * i);
      CleanNode(s, was, kv, first, end, level - 1, 2 * i + 1);
    }
  }

  // Nodes recomputed on levels 0 to `level`.
  function Work(first: nat, end: nat, level: nat): int {
    End(end, level) - First(first, level) + if level == 0 then 0 else Work(first, end, level - 1)
  }

  // However tall the tree, a write recomputes about twice the blocks it touches and two nodes
  // a level.
  lemma {:induction false} WorkBound(first: nat, end: nat, level: nat)
    requires first < end
    ensures First(first, level) < End(end, level)
    ensures Work(first, end, level) + (End(end, level) - First(first, level)) <= 2 * (end - first) + 2 * level
  {
    if level > 0 {
      WorkBound(first, end, level - 1);
    }
  }

  lemma {:induction false} DirtyFits(leaves: nat, first: nat, end: nat, level: nat)
    requires first < end <= leaves && PowerOfTwo(leaves) && level <= Levels(leaves)
    ensures First(first, level) < End(end, level) <= Width(leaves, level)
  {
    if level > 0 {
      DirtyFits(leaves, first, end, level - 1);
      LevelFits(leaves, level - 1);
    }
  }

  // One level further up.
  lemma Climb(leaves: nat, first: nat, end: nat, level: nat)
    requires first < end <= leaves && PowerOfTwo(leaves) && level < Levels(leaves)
    ensures First(first, level + 1) < End(end, level + 1) <= Width(leaves, level + 1)
    ensures Width(leaves, level + 1) > 0 && (Width(leaves, level + 1) == 1 <==> level + 1 == Levels(leaves))
    ensures Offset(leaves, level + 1) == Offset(leaves, level) + Width(leaves, level)
    ensures Offset(leaves, level + 1) + Width(leaves, level + 1) <= 2 * leaves - 1
    ensures Width(leaves, level + 1) == Width(leaves, level) / 2
    ensures First(first, level + 1) == First(first, level) / 2 && End(end, level + 1) == (End(end, level) + 1) / 2
    ensures Work(first, end, level + 1) == End(end, level + 1) - First(first, level + 1) + Work(first, end, level)
  {
    DirtyFits(leaves, first, end, level + 1);
    LevelFits(leaves, level + 1);
  }

  // ---------------------------------------------------------------- zero rows

  lemma {:induction false} ZeroNodes<N(!new)>(s: Summary<N>, kv: seq<nat>, level: nat, i: nat)
    requires s.KeepsZero() && Inside(kv, level, i) && forall j :: 0 <= j < |kv| ==> kv[j] == 0
    ensures NodeAt(s, kv, level, i) == s.zero
  {
    if level == 0 {
      assert Block(kv, i) == seq(LEAF, _ => 0);
    } else {
      ZeroNodes(s, kv, level - 1, 2 * i);
      ZeroNodes(s, kv, level - 1, 2 * i + 1);
    }
  }

  // ---------------------------------------------------------------- recomputing a level

  // Only cells [lo, hi) of the tree may differ.
  ghost predicate SameOutside<N(!new)>(before: seq<N>, after: seq<N>, lo: nat, hi: nat) {
    |before| == |after| && forall j :: 0 <= j < |before| && (j < lo || hi <= j) ==> after[j] == before[j]
  }

  lemma SameLevel<N(!new)>(s: Summary<N>, before: seq<N>, after: seq<N>, kv: seq<nat>, leaves: nat, level: nat)
    requires LevelIs(s, before, kv, leaves, level) && |after| == |before|
    requires var o := Offset(leaves, level); forall j :: o <= j < o + Width(leaves, level) ==> after[j] == before[j]
    ensures LevelIs(s, after, kv, leaves, level)
  {
    var o := Offset(leaves, level);
    forall i: nat | i < Width(leaves, level)
      ensures Inside(kv, level, i) && after[o + i] == NodeAt(s, kv, level, i)
    {
      assert before[o + i] == NodeAt(s, kv, level, i);
    }
  }

  lemma OtherLevel<N(!new)>(s: Summary<N>, before: seq<N>, after: seq<N>, kv: seq<nat>, leaves: nat,
                            level: nat, other: nat)
    requires SameOutside(before, after, Offset(leaves, level), Offset(leaves, level) + Width(leaves, level))
    requires level != other && LevelIs(s, before, kv, leaves, other)
    ensures LevelIs(s, after, kv, leaves, other)
  {
    if other < level {
      OffsetsGrow(leaves, other, level);
    } else {
      OffsetsGrow(leaves, level, other);
    }
    SameLevel(s, before, after, kv, leaves, other);
  }

  // Recomputing the dirty range of one level, with the levels below it done.
  lemma LevelDone<N(!new)>(s: Summary<N>, before: seq<N>, after: seq<N>, was: seq<nat>, kv: seq<nat>, leaves: nat,
                           level: nat, first: nat, end: nat)
    requires AgreeOutside(was, kv, first, end) && |kv| == leaves * LEAF && level <= Levels(leaves)
    requires LevelsAre(s, before, kv, leaves, 0, level) && LevelsAre(s, before, was, leaves, level, Levels(leaves) + 1)
    requires var o := Offset(leaves, level);
        && End(end, level) <= Width(leaves, level) && o + End(end, level) <= |after|
        && SameOutside(before, after, o + First(first, level), o + End(end, level))
        && forall i: nat :: First(first, level) <= i < End(end, level) ==>
             Inside(kv, level, i) && after[o + i] == NodeAt(s, kv, level, i)
    ensures LevelsAre(s, after, kv, leaves, 0, level + 1)
    ensures LevelsAre(s, after, was, leaves, level + 1, Levels(leaves) + 1)
  {
    var o := Offset(leaves, level);
    LevelOf(s, before, was, leaves, level, Levels(leaves) + 1, level);
    forall i: nat | i < Width(leaves, level) ensures Inside(kv, level, i) && after[o + i] == NodeAt(s, kv, level, i) {
      if i < First(first, level) || End(end, level) <= i {
        NodesInside(kv, leaves, level, i);
        CleanNode(s, was, kv, first, end, level, i);
        assert before[o + i] == NodeAt(s, was, level, i);
      }
    }
    forall other: nat | other < level ensures LevelIs(s, after, kv, leaves, other) {
      LevelOf(s, before, kv, leaves, 0, level, other);
      OtherLevel(s, before, after, kv, leaves, level, other);
    }
    forall other: nat | level < other < Levels(leaves) + 1 ensures LevelIs(s, after, was, leaves, other) {
      LevelOf(s, before, was, leaves, level, Levels(leaves) + 1, other);
      OtherLevel(s, before, after, was, leaves, level, other);
    }
    LevelsHold(s, after, kv, leaves, 0, level + 1);
    LevelsHold(s, after, was, leaves, level + 1, Levels(leaves) + 1);
  }

  // An all-zero tree is the rebuild of all-zero rows.
  lemma ZeroTree<N(!new)>(s: Summary<N>, tree: seq<N>, kv: seq<nat>, leaves: nat)
    requires s.KeepsZero() && PowerOfTwo(leaves) && |kv| == leaves * LEAF && |tree| == 2 * leaves - 1
    requires forall j :: 0 <= j < |kv| ==> kv[j] == 0
    requires forall j :: 0 <= j < |tree| ==> tree[j] == s.zero
    ensures LevelsAre(s, tree, kv, leaves, 0, Levels(leaves) + 1)
  {
    forall level: nat | level < Levels(leaves) + 1 ensures LevelIs(s, tree, kv, leaves, level) {
      LevelFits(leaves, level);
      forall i: nat | i < Width(leaves, level)
        ensures Inside(kv, level, i) && tree[Offset(leaves, level) + i] == NodeAt(s, kv, level, i)
      {
        NodesInside(kv, leaves, level, i);
        ZeroNodes(s, kv, level, i);
      }
    }
    LevelsHold(s, tree, kv, leaves, 0, Levels(leaves) + 1);
  }

  // Joining two children of a finished level gives a node of the next.
  lemma ParentNodes<N(!new)>(s: Summary<N>, before: seq<N>, after: seq<N>, kv: seq<nat>, leaves: nat,
                             level: nat, up: nat, first: nat, end: nat)
    requires up == level + 1 && end <= Width(leaves, up)
    requires |before| == |after| && Offset(leaves, up) + end <= |after|
    requires LevelIs(s, before, kv, leaves, level)
    requires forall i: nat :: first <= i < end ==>
        after[Offset(leaves, up) + i] ==
        s.join(before[Offset(leaves, level) + 2 * i], before[Offset(leaves, level) + 2 * i + 1])
    ensures forall i: nat :: first <= i < end ==>
        Inside(kv, up, i) && after[Offset(leaves, up) + i] == NodeAt(s, kv, up, i)
  {
    forall i: nat | first <= i < end
      ensures Inside(kv, up, i) && after[Offset(leaves, up) + i] == NodeAt(s, kv, up, i)
    {
      var left, right := 2 * i, 2 * i + 1;
      assert before[Offset(leaves, level) + left] == NodeAt(s, kv, level, left);
      assert before[Offset(leaves, level) + right] == NodeAt(s, kv, level, right);
    }
  }

  // Joining the children of a finished level over the dirty range finishes the next.
  lemma ParentsDone<N(!new)>(s: Summary<N>, before: seq<N>, after: seq<N>, was: seq<nat>, kv: seq<nat>, leaves: nat,
                             level: nat, up: nat, start: nat, stop: nat)
    requires AgreeOutside(was, kv, start, stop) && |kv| == leaves * LEAF && up == level + 1 <= Levels(leaves)
    requires LevelsAre(s, before, kv, leaves, 0, up) && LevelsAre(s, before, was, leaves, up, Levels(leaves) + 1)
    requires var o, child, first, end := Offset(leaves, up), Offset(leaves, level), First(start, up), End(stop, up);
        && end <= Width(leaves, up) && o + end <= |after| && child + 2 * end <= |before|
        && SameOutside(before, after, o + first, o + end)
        && forall i: nat :: first <= i < end ==>
             after[o + i] == s.join(before[child + 2 * i], before[child + 2 * i + 1])
    ensures LevelsAre(s, after, kv, leaves, 0, up + 1) && LevelsAre(s, after, was, leaves, up + 1, Levels(leaves) + 1)
  {
    LevelOf(s, before, kv, leaves, 0, up, level);
    ParentNodes(s, before, after, kv, leaves, level, up, First(start, up), End(stop, up));
    LevelDone(s, before, after, was, kv, leaves, up, start, stop);
  }

  // ---------------------------------------------------------------- the cache

  class ContextCache<N(!new)> {
    const summary: Summary<N>
    const tokens: nat
    const kv: array<nat>
    const tree: array<N>
    var filled: nat

    const leaves: nat := tokens / BLOCK

    ghost predicate Sized() {
      && ValidTokens(tokens) && PowerOfTwo(leaves) && tokens == leaves * BLOCK
      && kv.Length == tokens * ROW && tree.Length == 2 * leaves - 1
      && kv as object != tree
    }

    // The tree is a full rebuild of the rows, and rows that were never written are zero.
    ghost predicate Valid()
      reads this, kv, tree
    {
      && Sized() && filled <= tokens
      && LevelsAre(summary, tree[..], kv[..], leaves, 0, Levels(leaves) + 1)
      && forall j :: filled * ROW <= j < kv.Length ==> kv[j] == 0
    }

    constructor (summary: Summary<N>, tokens: nat)
      requires summary.KeepsZero() && ValidTokens(tokens)
      ensures Valid() && filled == 0 && this.summary == summary && this.tokens == tokens
      ensures fresh(kv) && fresh(tree)
    {
      this.summary, this.tokens := summary, tokens;
      kv := new nat[tokens * ROW](_ => 0);
      tree := new N[if tokens / BLOCK > 0 then 2 * (tokens / BLOCK) - 1 else 0](_ => summary.zero);
      filled := 0;
      new;
      TokensAreLeaves(tokens);
      ZeroTree(summary, tree[..], kv[..], leaves);
    }

    // One block per leaf of the dirty range.
    method CacheLeaves(first: nat, count: nat) returns (ghost written: nat)
      requires Sized() && first + count <= leaves
      modifies tree
      ensures SameOutside(old(tree[..]), tree[..], first, first + count)
      ensures forall i: nat :: first <= i < first + count ==> tree[i] == summary.leaf(Block(kv[..], i))
      ensures written == count
    {
      written := 0;
      for group := 0 to count
        invariant SameOutside(old(tree[..]), tree[..], first, first + count)
        invariant forall i: nat :: first <= i < first + group ==> tree[i] == summary.leaf(Block(kv[..], i))
        invariant written == group
      {
        var leaf := first + group;
        assert kv[..][leaf * LEAF..leaf * LEAF + LEAF] == kv[leaf * LEAF..leaf * LEAF + LEAF];
        tree[leaf] := summary.leaf(kv[leaf * LEAF..leaf * LEAF + LEAF]);
        written := written + 1;
      }
    }

    // One block per parent of the dirty range; the children are a completed level.
    method CacheParents(child: nat, parent: nat, first: nat, count: nat) returns (ghost written: nat)
      requires parent + first + count <= tree.Length && child + 2 * (first + count) <= parent
      modifies tree
      ensures SameOutside(old(tree[..]), tree[..], parent + first, parent + first + count)
      ensures forall i: nat :: first <= i < first + count ==>
          tree[..][parent + i] == summary.join(old(tree[..])[child + 2 * i], old(tree[..])[child + 2 * i + 1])
      ensures written == count
    {
      written := 0;
      for group := 0 to count
        invariant SameOutside(old(tree[..]), tree[..], parent + first, parent + first + count)
        invariant forall i: nat :: first <= i < first + group ==>
            tree[..][parent + i] == summary.join(old(tree[..])[child + 2 * i], old(tree[..])[child + 2 * i + 1])
        invariant written == group
      {
        var left := child + 2 * (first + group);
        assert tree[..][left] == old(tree[..])[left] && tree[..][left + 1] == old(tree[..])[left + 1];
        tree[parent + first + group] := summary.join(tree[left], tree[left + 1]);
        written := written + 1;
      }
    }

    // One level further up.
    method RebuildParents(child: nat, parent: nat, first: nat, end: nat,
                          ghost start: nat, ghost stop: nat, ghost level: nat, ghost was: seq<nat>)
      returns (ghost written: nat)
      requires Sized() && level < Levels(leaves) && AgreeOutside(was, kv[..], start, stop)
      requires child == Offset(leaves, level) && parent == Offset(leaves, level + 1)
      requires first == First(start, level + 1) && end == End(stop, level + 1)
      requires first < end <= Width(leaves, level + 1) && parent + end <= tree.Length
      requires LevelsAre(summary, tree[..], kv[..], leaves, 0, level + 1)
      requires LevelsAre(summary, tree[..], was, leaves, level + 1, Levels(leaves) + 1)
      modifies tree
      ensures LevelsAre(summary, tree[..], kv[..], leaves, 0, level + 2)
      ensures LevelsAre(summary, tree[..], was, leaves, level + 2, Levels(leaves) + 1)
      ensures written == end - first
    {
      ghost var before := tree[..];
      written := CacheParents(child, parent, first, end - first);
      ParentsDone(summary, before, tree[..], was, kv[..], leaves, level, level + 1, start, stop);
    }

    // The leaves of the dirty range, and nothing above them yet.
    method RebuildLeaves(start: nat, stop: nat, ghost was: seq<nat>) returns (ghost written: nat)
      requires Sized() && start < stop <= leaves && AgreeOutside(was, kv[..], start, stop)
      requires LevelsAre(summary, tree[..], was, leaves, 0, Levels(leaves) + 1)
      modifies tree
      ensures LevelsAre(summary, tree[..], kv[..], leaves, 0, 1)
      ensures LevelsAre(summary, tree[..], was, leaves, 1, Levels(leaves) + 1)
      ensures written == stop - start
    {
      ghost var before := tree[..];
      written := CacheLeaves(start, stop - start);
      assert forall i: nat :: start <= i < stop ==> tree[..][i] == NodeAt(summary, kv[..], 0, i);
      LevelDone(summary, before, tree[..], was, kv[..], leaves, 0, start, stop);
    }

    // Counts the nodes it writes.
    method Rebuild(start: nat, stop: nat, ghost was: seq<nat>) returns (ghost written: nat)
      requires Sized() && start < stop <= leaves
      requires AgreeOutside(was, kv[..], start, stop)
      requires LevelsAre(summary, tree[..], was, leaves, 0, Levels(leaves) + 1)
      modifies tree
      ensures LevelsAre(summary, tree[..], kv[..], leaves, 0, Levels(leaves) + 1)
      ensures written == Work(start, stop, Levels(leaves))
    {
      written := RebuildLeaves(start, stop, was);
      var first, end := start, stop;
      var child, parent, count := 0, leaves, leaves;
      ghost var level := 0;
      LevelFits(leaves, 0);
      while count > 1
        invariant level <= Levels(leaves) && count == Width(leaves, level) && count > 0
        invariant child == Offset(leaves, level) && parent == child + count
        invariant first == First(start, level) && end == End(stop, level)
        invariant count == 1 <==> level == Levels(leaves)
        invariant written == Work(start, stop, level)
        invariant LevelsAre(summary, tree[..], kv[..], leaves, 0, level + 1)
        invariant LevelsAre(summary, tree[..], was, leaves, level + 1, Levels(leaves) + 1)
        decreases count
      {
        Climb(leaves, start, stop, level);
        first := first / 2;
        end := (end + 1) / 2;
        ghost var parents := RebuildParents(child, parent, first, end, start, stop, level, was);
        written := written + parents;
        child := parent;
        count := count / 2;
        parent := parent + count;
        level := level + 1;
      }
    }

    method CopyRows(offset: nat, values: seq<nat>)
      requires offset + |values| <= kv.Length
      modifies kv
      ensures forall j :: 0 <= j < kv.Length ==>
          kv[j] == if offset <= j < offset + |values| then values[j - offset] else old(kv[j])
    {
      for i := 0 to |values|
        invariant forall j :: 0 <= j < kv.Length ==>
            kv[j] == if offset <= j < offset + i then values[j - offset] else old(kv[j])
      {
        kv[offset + i] := values[i];
      }
    }

    // Rows of keys and values, flat. The write must extend or repair the prefix written so far.
    // `written` nodes of the tree are recomputed.
    method Write(start: nat, values: seq<nat>) returns (ok: bool, ghost written: nat)
      requires Valid()
      modifies this`filled, kv, tree
      ensures Valid()
      ensures ok == (values != [] && |values| % ROW == 0 && start <= old(filled) && start + |values| / ROW <= tokens)
      ensures ok ==> filled == if old(filled) < start + |values| / ROW then start + |values| / ROW else old(filled)
      ensures ok ==> kv[..] == old(kv[..start * ROW]) + values + old(kv[start * ROW + |values|..])
      ensures !ok ==> filled == old(filled) && kv[..] == old(kv[..]) && tree[..] == old(tree[..])
      ensures ok ==> written <= 2 * ((start + |values| / ROW + 63) / 64 - start / 64) + 2 * Levels(leaves)
      ensures !ok ==> written == 0
    {
      written := 0;
      var end := start + |values| / ROW;
      if values == [] || |values| % ROW != 0 || start > filled || end > tokens {
        return false, 0;
      }
      ghost var was := kv[..];
      CopyRows(start * ROW, values);
      TouchedBlocks(was, kv[..], start * ROW, end * ROW, start / BLOCK, (end + BLOCK - 1) / BLOCK);
      written := Rebuild(start / BLOCK, (end + BLOCK - 1) / BLOCK, was);
      WorkBound(start / BLOCK, (end + BLOCK - 1) / BLOCK, Levels(leaves));
      filled := if filled < end then end else filled;
      ok := true;
    }
  }

  lemma TokensAreLeaves(tokens: nat)
    requires ValidTokens(tokens)
    ensures PowerOfTwo(tokens / BLOCK) && tokens == (tokens / BLOCK) * BLOCK
  {
    var a := Halved(tokens);
    var b := Halved(a);
    var c := Halved(b);
    var d := Halved(c);
    var e := Halved(d);
    var f := Halved(e);
    assert tokens == BLOCK * f;
  }

  lemma Halved(n: nat) returns (half: nat)
    requires PowerOfTwo(n) && n > 1
    ensures PowerOfTwo(half) && n == 2 * half
  {
    half := n / 2;
  }

  // Rows [lo, hi) lie in the blocks from lo rounded down to hi rounded up.
  lemma TouchedBlocks(was: seq<nat>, kv: seq<nat>, lo: nat, hi: nat, first: nat, end: nat)
    requires |was| == |kv| && lo <= hi <= |kv|
    requires first * LEAF <= lo && hi <= end * LEAF
    requires forall j :: 0 <= j < |kv| && (j < lo || hi <= j) ==> kv[j] == was[j]
    ensures AgreeOutside(was, kv, first, end)
  {
    forall leaf: nat | (leaf < first || end <= leaf) && (leaf + 1) * LEAF <= |kv|
      ensures Block(was, leaf) == Block(kv, leaf)
    {
    }
  }
}
