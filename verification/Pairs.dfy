// (distance, row) pairs in the order the kernels use, and the in-place bitonic sort of them.

module Pairs {
  import opened Network

  // A squared distance: never negative and never a NaN, but it can overflow.
  datatype Distance = Finite(value: real) | Infinite

  datatype Pair = Pair(distance: Distance, index: nat)

  predicate Nearer(a: Distance, b: Distance) {
    a.Finite? && (b.Infinite? || a.value < b.value)
  }

  predicate Before(a: Pair, b: Pair) {
    Nearer(a.distance, b.distance) || (a.distance == b.distance && a.index < b.index)
  }

  lemma BeforeIsStrictOrder(a: Pair, b: Pair, c: Pair)
    ensures Before(a, b) ==> !Before(b, a)
    ensures a == b || Before(a, b) || Before(b, a)
    ensures Before(a, b) && Before(b, c) ==> Before(a, c)
    ensures Before(a, b) && !Before(c, b) ==> Before(a, c)
  {
  }

  ghost predicate Sorted(s: seq<Pair>) {
    forall j, k :: 0 <= j < k < |s| ==> !Before(s[k], s[j])
  }

  function Least(x: Pair, y: Pair): Pair { if Before(y, x) then y else x }
  function Greatest(x: Pair, y: Pair): Pair { if Before(y, x) then x else y }

  // ---------------------------------------------------------------- thresholds

  // Which entries are not before the threshold.
  ghost function Bits(s: seq<Pair>, t: Pair): (b: seq<bool>)
    ensures |b| == |s| && forall i :: 0 <= i < |s| ==> b[i] == !Before(s[i], t)
  {
    seq(|s|, i requires 0 <= i < |s| => !Before(s[i], t))
  }

  function PairExchanged(s: seq<Pair>, size: nat, stride: nat, i: nat): Pair
    requires size > 0 && stride > 0 && i < |s|
    requires if Clear(i, stride) then i + stride < |s| else stride <= i
  {
    var lo := if Clear(i, stride) then i else i - stride;
    if Clear(i, stride) == Clear(lo, size) then Least(s[lo], s[lo + stride]) else Greatest(s[lo], s[lo + stride])
  }

  ghost predicate PairsExchanged(s: seq<Pair>, r: seq<Pair>, size: nat, stride: nat) {
    && size > 0 && Fits(|s|, stride) && |r| == |s|
    && forall i: nat :: i < |s| ==> r[i] == PairExchanged(s, size, stride, i)
  }

  lemma ThresholdCommutes(s: seq<Pair>, r: seq<Pair>, size: nat, stride: nat, t: Pair)
    requires PairsExchanged(s, r, size, stride)
    ensures ExchangedAll(Bits(s, t), Bits(r, t), size, stride)
  {
    forall i: nat | i < |s| ensures Bits(r, t)[i] == Exchanged(Bits(s, t), size, stride, i) {
      var lo := if Clear(i, stride) then i else i - stride;
      BeforeIsStrictOrder(s[lo], s[lo + stride], t);
      BeforeIsStrictOrder(s[lo + stride], s[lo], t);
      assert r[i] == PairExchanged(s, size, stride, i);
    }
  }

  ghost predicate AllMidway(s: seq<Pair>, size: nat, t: nat) {
    forall threshold: Pair {:trigger Bits(s, threshold)} :: Midway(Bits(s, threshold), size, t)
  }

  lemma AllBegins(s: seq<Pair>)
    requires Doubles(1, |s|)
    ensures AllMidway(s, 1, 1)
  {
    forall t: Pair ensures Midway(Bits(s, t), 1, 1) {
      NetworkBegins(Bits(s, t));
    }
  }

  lemma AllStep(s: seq<Pair>, r: seq<Pair>, size: nat, stride: nat)
    requires stride > 0 && AllMidway(s, size, 2 * stride) && PairsExchanged(s, r, size, stride)
    ensures AllMidway(r, size, stride)
  {
    forall t: Pair ensures Midway(Bits(r, t), size, stride) {
      ThresholdCommutes(s, r, size, stride, t);
      MidwayStep(Bits(s, t), Bits(r, t), size, stride);
    }
  }

  lemma AllNextStage(s: seq<Pair>, size: nat)
    requires AllMidway(s, size, 1) && Doubles(2 * size, |s|)
    ensures AllMidway(s, 2 * size, 2 * size)
  {
    forall t: Pair ensures Midway(Bits(s, t), 2 * size, 2 * size) {
      StageEnds(Bits(s, t), size);
    }
  }

  lemma AllEnds(s: seq<Pair>)
    requires AllMidway(s, |s|, 1)
    ensures Sorted(s)
  {
    forall j, k | 0 <= j < k < |s| ensures !Before(s[k], s[j]) {
      var b := Bits(s, s[j]);
      NetworkEnds(b);
      BeforeIsStrictOrder(s[j], s[j], s[j]);
      assert b[j] && b[k];
    }
  }

  // ---------------------------------------------------------------- in place

  method OrderPair(a: array<Pair>, left: nat, right: nat, ascending: bool)
    requires left < right < a.Length
    modifies a
    ensures PairOrdered(old(a[..]), a[..], left, right, ascending)
    ensures multiset(a[..]) == multiset(old(a[..]))
  {
    BeforeIsStrictOrder(a[left], a[right], a[left]);
    var swap := if ascending then Before(a[right], a[left]) else Before(a[left], a[right]);
    if swap {
      a[left], a[right] := a[right], a[left];
    }
  }

  // The pairs whose lower index is below `index` are done.
  function Partial(s: seq<Pair>, size: nat, stride: nat, index: nat, i: nat): Pair
    requires size > 0 && Fits(|s|, stride) && i < |s|
  {
    if Low(i, stride) < index then PairExchanged(s, size, stride, i) else s[i]
  }

  ghost predicate Partly(s: seq<Pair>, r: seq<Pair>, size: nat, stride: nat, index: nat) {
    && size > 0 && Fits(|s|, stride) && |s| <= |r|
    && forall i: nat :: i < |s| ==> r[i] == Partial(s, size, stride, index, i)
  }

  ghost predicate PairOrdered(r: seq<Pair>, q: seq<Pair>, left: nat, right: nat, up: bool) {
    && left < right < |r| == |q|
    && q[left] == (if up then Least(r[left], r[right]) else Greatest(r[left], r[right]))
    && q[right] == (if up then Greatest(r[left], r[right]) else Least(r[left], r[right]))
    && forall i :: 0 <= i < |r| && i != left && i != right ==> q[i] == r[i]
  }

  // The index whose handling decides i.
  function Low(i: nat, stride: nat): (lo: nat)
    requires stride > 0
    ensures lo == i || (lo == i - stride && !Clear(i, stride))
  {
    if Clear(i, stride) then i else i - stride
  }

  lemma LowOfPair(index: nat, stride: nat)
    requires stride > 0 && Clear(index, stride)
    ensures Low(index, stride) == index && Low(index + stride, stride) == index
    ensures !Clear(index + stride, stride)
  {
  }

  lemma PartlyPair(s: seq<Pair>, r: seq<Pair>, q: seq<Pair>, size: nat, stride: nat, index: nat)
    requires Partly(s, r, size, stride, index) && index < |s| && Clear(index, stride)
    requires PairOrdered(r, q, index, index + stride, Clear(index, size))
    ensures Partly(s, q, size, stride, index + 1)
  {
    var high := index + stride;
    LowOfPair(index, stride);
    assert r[index] == Partial(s, size, stride, index, index) == s[index];
    assert r[high] == Partial(s, size, stride, index, high) == s[high];
    forall i: nat | i < |s| ensures q[i] == Partial(s, size, stride, index + 1, i) {
      if i == index {
        assert q[i] == PairExchanged(s, size, stride, i);
      } else if i == high {
        assert q[i] == PairExchanged(s, size, stride, i);
      } else {
        assert q[i] == r[i] == Partial(s, size, stride, index, i);
      }
    }
  }

  lemma PartlySkip(s: seq<Pair>, r: seq<Pair>, size: nat, stride: nat, index: nat)
    requires Partly(s, r, size, stride, index) && index < |s| && !Clear(index, stride)
    ensures Partly(s, r, size, stride, index + 1)
  {
  }

  // One lane: an index whose partner lies above it orders the pair.
  method ExchangeLane(a: array<Pair>, width: nat, size: nat, stride: nat, index: nat, ghost s: seq<Pair>)
    requires size > 0 && width <= a.Length && Fits(width, stride) && index < width
    requires Partly(s, a[..], size, stride, index) && |s| == width
    modifies a
    ensures Partly(s, a[..], size, stride, index + 1)
    ensures forall i :: width <= i < a.Length ==> a[i] == old(a[i])
    ensures multiset(a[..]) == multiset(old(a[..]))
  {
    ClearIsBit(index, stride);
    ClearIsBit(index, size);
    ghost var r := a[..];
    if (index / stride) % 2 == 0 {
      OrderPair(a, index, index + stride, (index / size) % 2 == 0);
      PartlyPair(s, r, a[..], size, stride, index);
    } else {
      PartlySkip(s, r, size, stride, index);
    }
  }

  // All lanes of one (size, stride) step.
  method ExchangeStep(a: array<Pair>, width: nat, size: nat, stride: nat)
    requires size > 0 && width <= a.Length && Fits(width, stride)
    modifies a
    ensures PairsExchanged(old(a[..])[..width], a[..][..width], size, stride)
    ensures forall i :: width <= i < a.Length ==> a[i] == old(a[i])
    ensures multiset(a[..]) == multiset(old(a[..]))
  {
    ghost var s := a[..][..width];
    for index := 0 to width
      invariant Partly(s, a[..], size, stride, index)
      invariant forall i :: width <= i < a.Length ==> a[i] == old(a[i])
      invariant multiset(a[..]) == multiset(old(a[..]))
    {
      ExchangeLane(a, width, size, stride, index, s);
    }
    forall i: nat | i < width ensures a[..][..width][i] == PairExchanged(s, size, stride, i) {
      assert a[..][i] == Partial(s, size, stride, width, i);
    }
  }

  // Powers of two, the widths the kernels sort.
  ghost predicate SortWidth(width: nat) { Doubles(1, width) }

  lemma {:induction false} DoubleUp(t: nat, u: nat)
    requires Doubles(t, u) && t < u
    ensures 2 * t <= u && Doubles(2 * t, u)
  {
    if u / 2 == t {
    } else {
      DoubleUp(t, u / 2);
    }
  }

  lemma LastDouble(t: nat, u: nat)
    requires Doubles(t, u) && u < 2 * t
    ensures t == u
  {
    DoublesSize(t, u);
    if t < u {
      DoubleUp(t, u);
    }
  }

  method SortStage(a: array<Pair>, width: nat, size: nat)
    requires width <= a.Length && SortWidth(size) && size >= 2 && Doubles(size, width)
    requires AllMidway(a[..][..width], size / 2, 1)
    modifies a
    ensures AllMidway(a[..][..width], size, 1)
    ensures forall i :: width <= i < a.Length ==> a[i] == old(a[i])
    ensures multiset(a[..]) == multiset(old(a[..]))
  {
    AllNextStage(a[..][..width], size / 2);
    var stride := size / 2;
    while stride > 0
      invariant stride > 0 ==> SortWidth(stride) && Doubles(2 * stride, size)
      invariant AllMidway(a[..][..width], size, if stride > 0 then 2 * stride else 1)
      invariant forall i :: width <= i < a.Length ==> a[i] == old(a[i])
      invariant multiset(a[..]) == multiset(old(a[..]))
    {
      SortStride(a, width, size, stride);
      DoublesHalf(stride, size);
      stride := stride / 2;
    }
  }

  method SortStride(a: array<Pair>, width: nat, size: nat, stride: nat)
    requires width <= a.Length && SortWidth(size) && size >= 2 && Doubles(size, width)
    requires SortWidth(stride) && Doubles(2 * stride, size) && AllMidway(a[..][..width], size, 2 * stride)
    modifies a
    ensures AllMidway(a[..][..width], size, stride)
    ensures forall i :: width <= i < a.Length ==> a[i] == old(a[i])
    ensures multiset(a[..]) == multiset(old(a[..]))
  {
    DoublesTransitive(2 * stride, size, width);
    StrideFits(width, stride);
    ghost var s := a[..][..width];
    ExchangeStep(a, width, size, stride);
    AllStep(s, a[..][..width], size, stride);
  }

  // The last stage has spanned the whole width.
  lemma StagesEnd(s: seq<Pair>, width: nat, done: nat)
    requires |s| == width && Doubles(done, width) && width < 2 * done && AllMidway(s, done, 1)
    ensures Sorted(s)
  {
    LastDouble(done, width);
    AllEnds(s);
  }

  method SortPairs(a: array<Pair>, width: nat)
    requires SortWidth(width) && width <= a.Length
    modifies a
    ensures Sorted(a[..][..width])
    ensures forall i :: width <= i < a.Length ==> a[i] == old(a[i])
    ensures multiset(a[..]) == multiset(old(a[..]))
  {
    var size := 2;
    AllBegins(a[..][..width]);
    while size <= width
      invariant size >= 2 && SortWidth(size) && Doubles(size / 2, width)
      invariant AllMidway(a[..][..width], size / 2, 1)
      invariant forall i :: width <= i < a.Length ==> a[i] == old(a[i])
      invariant multiset(a[..]) == multiset(old(a[..]))
      decreases 2 * width - size
    {
      DoubleUp(size / 2, width);
      SortStage(a, width, size);
      size := size * 2;
    }
    StagesEnd(a[..][..width], width, size / 2);
  }
}
