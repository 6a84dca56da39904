// What "the k nearest rows" means, and why padded top-k lists can be merged pairwise.

module TopK {
  import opened Pairs
  import Wrappers

  const U32_MAX: nat := 0xFFFF_FFFF

  // Shared memory starts out full of these; they come after every row.
  const SENTINEL := Pair(Infinite, U32_MAX)

  // ---------------------------------------------------------------- the reference

  function RowPairs(distances: seq<Distance>): (s: seq<Pair>)
    ensures |s| == |distances|
    ensures forall i :: 0 <= i < |s| ==> s[i] == Pair(distances[i], i)
  {
    seq(|distances|, i requires 0 <= i < |distances| => Pair(distances[i], i))
  }

  // Stable insertion by distance: a new entry goes behind every entry at the same distance.
  function InsertStable(s: seq<Pair>, p: Pair): (r: seq<Pair>)
    ensures |r| == |s| + 1
  {
    if s == [] then [p]
    else if Nearer(p.distance, s[|s| - 1].distance) then InsertStable(s[..|s| - 1], p) + [s[|s| - 1]]
    else s + [p]
  }

  function StableSort(s: seq<Pair>): (r: seq<Pair>)
    ensures |r| == |s|
  {
    if s == [] then [] else InsertStable(StableSort(s[..|s| - 1]), s[|s| - 1])
  }

  function Nearest(distances: seq<Distance>, k: nat): (r: seq<Pair>)
    requires k <= |distances|
    ensures |r| == k
  {
    StableSort(RowPairs(distances))[..k]
  }

  lemma InsertedBelow(s: seq<Pair>, p: Pair, front: seq<Pair>, r: seq<Pair>)
    requires Sorted(s) && s != [] && front == s[..|s| - 1] && multiset(r) == multiset(front) + multiset{p}
    requires Nearer(p.distance, s[|s| - 1].distance)
    ensures forall j :: 0 <= j < |r| ==> !Before(s[|s| - 1], r[j])
  {
    forall j | 0 <= j < |r| ensures !Before(s[|s| - 1], r[j]) {
      assert r[j] in multiset(r);
      if r[j] != p {
        assert r[j] in front;
      }
    }
  }

  lemma {:induction false} InsertedIsSorted(s: seq<Pair>, p: Pair)
    requires Sorted(s) && forall i :: 0 <= i < |s| ==> s[i].index < p.index
    ensures Sorted(InsertStable(s, p))
    ensures multiset(InsertStable(s, p)) == multiset(s) + multiset{p}
  {
    var n := |s|;
    if n > 0 && Nearer(p.distance, s[n - 1].distance) {
      var front := s[..n - 1];
      assert s == front + [s[n - 1]];
      InsertedIsSorted(front, p);
      InsertedBelow(s, p, front, InsertStable(front, p));
    } else {
      forall j | 0 <= j < n ensures !Before(p, s[j]) {
        BeforeIsStrictOrder(p, s[j], s[n - 1]);
        BeforeIsStrictOrder(s[j], s[n - 1], p);
      }
    }
  }

  // A stable sort by distance of rows in index order is a sort by (distance, index).
  lemma {:induction false} StableIsSorted(s: seq<Pair>)
    requires forall i, j :: 0 <= i < j < |s| ==> s[i].index < s[j].index
    ensures Sorted(StableSort(s)) && multiset(StableSort(s)) == multiset(s)
  {
    if s != [] {
      var front, p := s[..|s| - 1], s[|s| - 1];
      assert s == front + [p];
      StableIsSorted(front);
      var r := StableSort(front);
      forall i | 0 <= i < |r| ensures r[i].index < p.index {
        assert r[i] in multiset(r);
        assert r[i] in front;
      }
      InsertedIsSorted(r, p);
    }
  }

  // ---------------------------------------------------------------- what the nearest are

  // Smaller distances come first, overflowed ones last, and equal ones in index order.
  predicate Precedes(a: Pair, b: Pair) {
    match (a.distance, b.distance)
    case (Finite(x), Finite(y)) => x < y || (x == y && a.index < b.index)
    case (Finite(_), Infinite) => true
    case (Infinite, Finite(_)) => false
    case (Infinite, Infinite) => a.index < b.index
  }

  lemma PrecedesIsBefore(a: Pair, b: Pair)
    ensures Precedes(a, b) <==> Before(a, b)
  {
  }

  // Each entry is a row at its own distance, they are in order, and every other row comes after them.
  ghost predicate AreNearest(found: seq<Pair>, distances: seq<Distance>, k: nat) {
    && |found| == k
    && (forall p :: p in found ==> p.index < |distances| && p.distance == distances[p.index])
    && (forall i, j :: 0 <= i < j < k ==> Precedes(found[i], found[j]))
    && (forall p, row: nat :: p in found && row < |distances| && Pair(distances[row], row) !in found ==>
          Precedes(p, Pair(distances[row], row)))
  }

  lemma NearestExact(distances: seq<Distance>, k: nat)
    requires k <= |distances|
    ensures AreNearest(Nearest(distances, k), distances, k)
  {
    var s, found := RowPairs(distances), Nearest(distances, k);
    var t := StableSort(s);
    StableIsSorted(s);
    forall i | 0 <= i < |t| ensures t[i].index < |distances| && t[i].distance == distances[t[i].index] {
      assert t[i] in multiset(s);
      assert t[i] in s;
    }
    forall i, j | 0 <= i < j < |t| ensures Precedes(t[i], t[j]) {
      SortedApart(s, t, i, j);
      PrecedesIsBefore(t[i], t[j]);
    }
    forall p, row: nat | p in found && row < |distances| && Pair(distances[row], row) !in found
      ensures Precedes(p, Pair(distances[row], row))
    {
      var q := Pair(distances[row], row);
      var i :| 0 <= i < k && found[i] == p;
      assert s[row] == q && q in multiset(t);
      var j :| 0 <= j < |t| && t[j] == q;
      assert j >= k;
    }
  }

  // Rows are told apart by their indices, so no two entries are equal.
  lemma SortedApart(s: seq<Pair>, t: seq<Pair>, i: nat, j: nat)
    requires Sorted(t) && multiset(s) == multiset(t) && i < j < |t|
    requires forall a, b :: 0 <= a < b < |s| ==> s[a].index < s[b].index
    ensures Before(t[i], t[j])
  {
    BeforeIsStrictOrder(t[i], t[j], t[i]);
    if t[i] == t[j] {
      Wrappers.TwiceIn(t, i, j);
      OnceIn(s, t[i]);
    }
  }

  lemma {:induction false} OnceIn(s: seq<Pair>, p: Pair)
    requires forall a, b :: 0 <= a < b < |s| ==> s[a].index < s[b].index
    ensures multiset(s)[p] <= 1
    decreases |s|
  {
    if s != [] {
      assert s == [s[0]] + s[1..];
      OnceIn(s[1..], p);
    }
  }

  // ---------------------------------------------------------------- top of a multiset

  ghost function Pads(n: nat): multiset<Pair> { multiset{}[SENTINEL := n] }

  // The list and the rest together are the rows and n sentinels, and nothing in the rest
  // comes before anything in the list.
  ghost predicate Split(list: seq<Pair>, rest: multiset<Pair>, rows: multiset<Pair>, n: nat) {
    && multiset(list) + rest == rows + Pads(n)
    && forall x, i :: x in rest && 0 <= i < |list| ==> !Before(x, list[i])
  }

  ghost predicate TopOf(list: seq<Pair>, rows: multiset<Pair>) {
    Sorted(list) && exists rest: multiset<Pair>, n: nat :: Split(list, rest, rows, n)
  }

  lemma {:induction false} SortedUnique(list: seq<Pair>, rest: multiset<Pair>, t: seq<Pair>)
    requires Sorted(list) && Sorted(t) && multiset(list) + rest == multiset(t)
    requires forall x, i :: x in rest && 0 <= i < |list| ==> !Before(x, list[i])
    ensures |list| <= |t| && list == t[..|list|]
  {
    assert |multiset(list)| + |rest| == |multiset(t)|;
    if |list| > 0 {
      FirstIsLeast(list, rest, t);
      assert list == [list[0]] + list[1..] && t == [t[0]] + t[1..];
      assert multiset(list) == multiset{list[0]} + multiset(list[1..]);
      assert multiset(t) == multiset{t[0]} + multiset(t[1..]);
      assert multiset{t[0]} + (multiset(list[1..]) + rest) == multiset{t[0]} + multiset(t[1..]);
      Cancel(t[0], multiset(list[1..]) + rest, multiset(t[1..]));
      SortedUnique(list[1..], rest, t[1..]);
    }
  }

  lemma Cancel(x: Pair, a: multiset<Pair>, b: multiset<Pair>)
    requires multiset{x} + a == multiset{x} + b
    ensures a == b
  {
    forall y: Pair ensures a[y] == b[y] {
      assert (multiset{x} + a)[y] == (multiset{x} + b)[y];
    }
  }

  lemma FirstIsLeast(list: seq<Pair>, rest: multiset<Pair>, t: seq<Pair>)
    requires |list| > 0 && |t| > 0 && Sorted(list) && Sorted(t) && multiset(list) + rest == multiset(t)
    requires forall x, i :: x in rest && 0 <= i < |list| ==> !Before(x, list[i])
    ensures list[0] == t[0]
  {
    assert list[0] in multiset(list) + rest;
    assert list[0] in t;
    var i :| 0 <= i < |t| && t[i] == list[0];
    assert t[0] in multiset(t);
    if t[0] in multiset(list) {
      var j :| 0 <= j < |list| && list[j] == t[0];
    }
    BeforeIsStrictOrder(list[0], t[0], t[0]);
  }

  // With enough rows there is only one such list, and no sentinel is in it.
  lemma TopIsPrefix(list: seq<Pair>, s: seq<Pair>)
    requires TopOf(list, multiset(s)) && Sorted(s) && |list| <= |s|
    requires forall i :: 0 <= i < |s| ==> s[i].index < U32_MAX
    ensures list == s[..|list|]
  {
    var rest: multiset<Pair>, n: nat :| Split(list, rest, multiset(s), n);
    var pad := seq(n, _ => SENTINEL);
    PadIsPads(n);
    var t := s + pad;
    forall j, k | 0 <= j < k < |t| ensures !Before(t[k], t[j]) {}
    SortedUnique(list, rest, t);
    assert t[..|list|] == s[..|list|];
  }

  lemma {:induction false} PadIsPads(n: nat)
    ensures multiset(seq(n, _ => SENTINEL)) == Pads(n)
  {
    if n > 0 {
      PadIsPads(n - 1);
      assert seq(n, _ => SENTINEL) == seq(n - 1, _ => SENTINEL) + [SENTINEL];
    }
  }

  // ---------------------------------------------------------------- merging

  lemma SubmultisetSize(a: multiset<Pair>, b: multiset<Pair>)
    requires a <= b
    ensures |a| <= |b|
  {
    assert b == a + (b - a);
  }

  // Entries before t[m] sit in front of position m.
  lemma EntriesInFront(t: seq<Pair>, list: seq<Pair>, m: nat)
    requires Sorted(t) && m < |t| && multiset(list) <= multiset(t)
    requires forall i :: 0 <= i < |list| ==> Before(list[i], t[m])
    ensures multiset(list) <= multiset(t[..m])
  {
    var front, back := t[..m], t[m..];
    assert t == front + back;
    forall x | x in multiset(list) ensures x !in back {
      var i :| 0 <= i < |list| && list[i] == x;
      forall j | 0 <= j < |back| ensures back[j] != x {
        assert back[j] == t[m + j];
        BeforeIsStrictOrder(x, t[m], t[m + j]);
      }
    }
    assert multiset(t) == multiset(front) + multiset(back);
  }

  // Any k entries taken from a sorted sequence reach at least as far as its first k.
  lemma Pigeonhole(t: seq<Pair>, list: seq<Pair>)
    requires Sorted(t) && Sorted(list) && 0 < |list| <= |t| && multiset(list) <= multiset(t)
    ensures !Before(list[|list| - 1], t[|list| - 1])
  {
    var m := |list| - 1;
    if Before(list[m], t[m]) {
      forall i | 0 <= i < |list| ensures Before(list[i], t[m]) {
        BeforeIsStrictOrder(list[i], list[m], t[m]);
        BeforeIsStrictOrder(list[m], t[m], list[i]);
      }
      EntriesInFront(t, list, m);
      SubmultisetSize(multiset(list), multiset(t[..m]));
    }
  }

  // The first k of two merged top-k lists are the top k of all their rows.
  lemma MergeTop(left: seq<Pair>, right: seq<Pair>, a: multiset<Pair>, b: multiset<Pair>, t: seq<Pair>, pads: nat,
                 k: nat)
    requires |left| == |right| == k <= |t|
    requires TopOf(left, a) && TopOf(right, b)
    requires Sorted(t) && multiset(t) == multiset(left) + multiset(right) + Pads(pads)
    ensures TopOf(t[..k], a + b)
  {
    var ra: multiset<Pair>, na: nat :| Split(left, ra, a, na);
    var rb: multiset<Pair>, nb: nat :| Split(right, rb, b, nb);
    SplitParts(t, k);
    MergedTotals(multiset(t[..k]), multiset(t[k..]), multiset(left), multiset(right), ra, rb, a, b, na, nb, pads);
    MergedBeyond(t, left, right, ra, rb, k);
    assert Split(t[..k], ra + rb + multiset(t[k..]), a + b, na + nb + pads);
  }

  lemma SplitParts(t: seq<Pair>, k: nat)
    requires k <= |t| && Sorted(t)
    ensures multiset(t) == multiset(t[..k]) + multiset(t[k..]) && Sorted(t[..k])
  {
    assert t == t[..k] + t[k..];
  }

  lemma MergedBeyond(t: seq<Pair>, left: seq<Pair>, right: seq<Pair>, ra: multiset<Pair>, rb: multiset<Pair>, k: nat)
    requires |left| == |right| == k <= |t| && Sorted(left) && Sorted(right) && Sorted(t)
    requires multiset(left) <= multiset(t) && multiset(right) <= multiset(t)
    requires forall y, j :: y in ra && 0 <= j < k ==> !Before(y, left[j])
    requires forall y, j :: y in rb && 0 <= j < k ==> !Before(y, right[j])
    ensures forall x, i :: x in ra + rb + multiset(t[k..]) && 0 <= i < k ==> !Before(x, t[..k][i])
  {
    if k > 0 {
      Pigeonhole(t, left);
      Pigeonhole(t, right);
    }
    forall x, i | x in ra + rb + multiset(t[k..]) && 0 <= i < k ensures !Before(x, t[..k][i]) {
      BeyondTop(t, left, ra, k, x, i);
      BeyondTop(t, right, rb, k, x, i);
      if x in t[k..] {
        var j :| 0 <= j < |t[k..]| && t[k..][j] == x;
        assert t[k + j] == x;
      }
    }
  }

  lemma BeyondTop(t: seq<Pair>, list: seq<Pair>, rest: multiset<Pair>, k: nat, x: Pair, i: nat)
    requires Sorted(t) && |list| == k && i < k <= |t|
    requires !Before(list[k - 1], t[k - 1])
    requires forall y, j :: y in rest && 0 <= j < k ==> !Before(y, list[j])
    ensures x in rest ==> !Before(x, t[i])
  {
    if x in rest {
      BeforeIsStrictOrder(x, t[i], list[k - 1]);
      BeforeIsStrictOrder(t[i], t[k - 1], list[k - 1]);
      BeforeIsStrictOrder(t[k - 1], t[i], list[k - 1]);
      BeforeIsStrictOrder(x, list[k - 1], t[k - 1]);
      assert i < k - 1 ==> !Before(t[k - 1], t[i]);
      assert !Before(x, list[k - 1]);
    }
  }

  lemma MergedTotals(list: multiset<Pair>, back: multiset<Pair>, left: multiset<Pair>, right: multiset<Pair>,
                     ra: multiset<Pair>, rb: multiset<Pair>, a: multiset<Pair>, b: multiset<Pair>,
                     na: nat, nb: nat, pads: nat)
    requires list + back == left + right + Pads(pads)
    requires left + ra == a + Pads(na) && right + rb == b + Pads(nb)
    ensures list + (ra + rb + back) == (a + b) + Pads(na + nb + pads)
  {
    assert Pads(na) + Pads(nb) + Pads(pads) == Pads(na + nb + pads);
    calc {
      list + (ra + rb + back);
      (list + back) + ra + rb;
      (left + ra) + (right + rb) + Pads(pads);
      (a + b) + (Pads(na) + Pads(nb) + Pads(pads));
    }
  }

  // A list of sentinels only is a top of no rows, which stands for a missing right list.
  lemma PadsAreTop(k: nat)
    ensures TopOf(seq(k, _ => SENTINEL), multiset{})
  {
    PadIsPads(k);
    assert Split(seq(k, _ => SENTINEL), multiset{}, multiset{}, k);
  }

  // Sorted shared memory begins with the top of what was put into it.
  lemma SortedBeginsWithTop(t: seq<Pair>, rows: multiset<Pair>, pads: nat, k: nat)
    requires Sorted(t) && multiset(t) == rows + Pads(pads) && k <= |t|
    ensures TopOf(t[..k], rows)
  {
    var list, back := t[..k], t[k..];
    assert t == list + back;
    forall x, i | x in multiset(back) && 0 <= i < k ensures !Before(x, list[i]) {
      var j :| 0 <= j < |back| && back[j] == x;
      assert t[k + j] == x;
    }
    assert Split(list, multiset(back), rows, pads);
  }
}
