// The bitonic sorting network, first on truth values. A compare-exchange commutes with every
// monotone threshold, so a network that sorts truth values sorts any total order.

module Network {
  import opened Division


  // ---------------------------------------------------------------- aligned blocks

  // First index of the aligned block of the given size that holds i.
  function Start(i: nat, size: nat): (lo: nat)
    requires size > 0
    ensures lo <= i < lo + size
  {
    if i < size then 0 else size + Start(i - size, size)
  }

  // The bit of weight `size` of i is clear: i lies in an even block.
  predicate Clear(i: nat, size: nat)
    requires size > 0
  {
    if i < size then true else !Clear(i - size, size)
  }

  lemma {:induction false} ClearIsBit(i: nat, size: nat)
    requires size > 0
    ensures Clear(i, size) <==> (i / size) % 2 == 0
  {
    if i < size {
      DivUnique(i, size, 0, i);
    } else {
      ClearIsBit(i - size, size);
      QuotientStep(i, size);
    }
  }

  // Indices of one block share its start and its parity.
  lemma {:induction false} SameBlock(i: nat, k: nat, size: nat)
    requires size > 0 && Start(i, size) <= k < Start(i, size) + size
    ensures Start(k, size) == Start(i, size) && (Clear(k, size) <==> Clear(i, size))
  {
    if i >= size {
      SameBlock(i - size, k - size, size);
    }
  }

  // A block of twice the size is an even block followed by an odd one.
  lemma {:induction false} DoubleBlock(i: nat, size: nat)
    requires size > 0
    ensures Start(i, 2 * size) == if Clear(i, size) then Start(i, size) else Start(i, size) - size
  {
    if i >= 2 * size {
      DoubleBlock(i - 2 * size, size);
    }
  }

  // size is t, 2t, 4t, ...
  ghost predicate Doubles(t: nat, size: nat) {
    t > 0 && (size == t || (size > t && size % 2 == 0 && Doubles(t, size / 2)))
  }

  // Indices of one small block lie in one large block, which contains the small one.
  lemma {:induction false} Nested(i: nat, k: nat, t: nat, size: nat)
    requires Doubles(t, size) && Start(i, t) == Start(k, t)
    ensures Start(i, size) == Start(k, size) && (Clear(i, size) <==> Clear(k, size))
    ensures Start(i, size) <= Start(i, t) && Start(i, t) + t <= Start(i, size) + size
  {
    if size == t {
      SameBlock(i, k, t);
    } else {
      var half := size / 2;
      Nested(i, k, t, half);
      DoubleBlock(i, half);
      DoubleBlock(k, half);
      SameBlock(i, k, size);
    }
  }

  lemma {:induction false} DoublesSize(t: nat, size: nat)
    requires Doubles(t, size)
    ensures t <= size
  {
  }

  // ---------------------------------------------------------------- bitonic ranges

  predicate Within(k: int, p: int, q: int, c: bool) {
    if p <= k < q then !c else c
  }

  // On [lo, hi) the values are c outside [p, q) and !c inside.
  ghost predicate Shape(b: seq<bool>, lo: nat, hi: nat, p: nat, q: nat, c: bool) {
    && lo <= p <= q <= hi <= |b|
    && forall k :: lo <= k < hi ==> b[k] == Within(k, p, q, c)
  }

  ghost predicate Bitonic(b: seq<bool>, lo: nat, hi: nat) {
    exists p: nat, q: nat, c: bool :: Shape(b, lo, hi, p, q, c)
  }

  // Every value on the left is at most every value on the right, or the other way round.
  ghost predicate Separated(b: seq<bool>, lo: nat, mid: nat, hi: nat, up: bool)
    requires lo <= mid <= hi <= |b|
  {
    forall j, k :: lo <= j < mid <= k < hi ==> if up then b[j] ==> b[k] else b[k] ==> b[j]
  }

  ghost predicate Ordered(b: seq<bool>, lo: nat, hi: nat, up: bool)
    requires hi <= |b|
  {
    forall j, k :: lo <= j < k < hi ==> if up then b[j] ==> b[k] else b[k] ==> b[j]
  }

  lemma {:induction false} RisingShape(b: seq<bool>, lo: nat, hi: nat) returns (p: nat)
    requires lo <= hi <= |b| && Ordered(b, lo, hi, true)
    ensures Shape(b, lo, hi, p, hi, false)
    decreases hi - lo
  {
    if lo == hi || b[lo] {
      p := lo;
    } else {
      p := RisingShape(b, lo + 1, hi);
    }
  }

  lemma {:induction false} FallingShape(b: seq<bool>, lo: nat, hi: nat) returns (q: nat)
    requires lo <= hi <= |b| && Ordered(b, lo, hi, false)
    ensures Shape(b, lo, hi, lo, q, false)
    decreases hi - lo
  {
    if lo == hi || !b[lo] {
      q := lo;
    } else {
      q := FallingShape(b, lo + 1, hi);
    }
  }

  lemma RiseThenFall(b: seq<bool>, lo: nat, mid: nat, hi: nat)
    requires lo <= mid <= hi <= |b|
    requires Ordered(b, lo, mid, true) && Ordered(b, mid, hi, false)
    ensures Bitonic(b, lo, hi)
  {
    var p := RisingShape(b, lo, mid);
    var q := FallingShape(b, mid, hi);
    assert Shape(b, lo, hi, p, q, false);
  }

  // ---------------------------------------------------------------- one compare-exchange

  // The value at i after all pairs at the given stride are exchanged, pairs in an even block
  // of `size` upwards and the others downwards.
  predicate Exchanged(b: seq<bool>, size: nat, stride: nat, i: nat)
    requires size > 0 && stride > 0 && i < |b|
    requires if Clear(i, stride) then i + stride < |b| else stride <= i
  {
    var lo := if Clear(i, stride) then i else i - stride;
    if Clear(i, stride) == Clear(lo, size) then b[lo] && b[lo + stride] else b[lo] || b[lo + stride]
  }

  // What exchanging the two halves of [lo, lo + 2s) leaves at k.
  predicate HalfValue(b: seq<bool>, lo: nat, s: nat, up: bool, k: int)
    requires lo <= k < lo + 2 * s <= |b|
  {
    if k < lo + s then (if up then b[k] && b[k + s] else b[k] || b[k + s])
    else (if up then b[k - s] || b[k] else b[k - s] && b[k])
  }

  // The half-cleaner on one bitonic range: both halves come out bitonic and separated.
  lemma HalfClean(b: seq<bool>, a: seq<bool>, lo: nat, s: nat, up: bool)
    requires |a| == |b| && lo + 2 * s <= |b| && Bitonic(b, lo, lo + 2 * s)
    requires forall k :: lo <= k < lo + 2 * s ==> a[k] == HalfValue(b, lo, s, up, k)
    ensures Bitonic(a, lo, lo + s) && Bitonic(a, lo + s, lo + 2 * s)
    ensures Separated(a, lo, lo + s, lo + 2 * s, up)
  {
    var mid, hi := lo + s, lo + 2 * s;
    var p: nat, q: nat, c: bool :| Shape(b, lo, hi, p, q, c);
    var px, qx, cx, py, qy, cy := Halves(lo, s, p, q, c);
    forall k | lo <= k < mid ensures a[k] == if up then Within(k, px, qx, cx) else Within(k, py, qy, cy) {
      assert Within(k, p, q, c) == b[k] && Within(k + s, p, q, c) == b[k + s];
    }
    forall k | mid <= k < hi
      ensures a[k] == if up then Within(k, py + s, qy + s, cy) else Within(k, px + s, qx + s, cx)
    {
      var j := k - s;
      assert Within(j, p, q, c) == b[j] && Within(j + s, p, q, c) == b[j + s];
      assert Within(j, px, qx, cx) == (b[j] && b[j + s]) && Within(j, py, qy, cy) == (b[j] || b[j + s]);
    }
    if up {
      assert Shape(a, lo, mid, px, qx, cx);
      assert Shape(a, mid, hi, py + s, qy + s, cy);
    } else {
      assert Shape(a, lo, mid, py, qy, cy);
      assert Shape(a, mid, hi, px + s, qx + s, cx);
    }
  }

  // Conjunction and disjunction of the two halves of a cyclic interval, as intervals of the
  // lower half. One of them is constant.
  lemma Halves(lo: nat, s: nat, p: nat, q: nat, c: bool)
    returns (px: nat, qx: nat, cx: bool, py: nat, qy: nat, cy: bool)
    requires lo <= p <= q <= lo + 2 * s
    ensures lo <= px <= qx <= lo + s && lo <= py <= qy <= lo + s
    ensures forall k :: lo <= k < lo + s ==>
        && Within(k, px, qx, cx) == (Within(k, p, q, c) && Within(k + s, p, q, c))
        && Within(k, py, qy, cy) == (Within(k, p, q, c) || Within(k + s, p, q, c))
    ensures (px == qx && !cx) || (py == qy && cy)
  {
    var mid := lo + s;
    // The interval [p, q) seen from the lower half: where both halves lie inside it, and
    // where at least one does.
    var bp, bq, bc, ap, aq, ac;
    if q <= mid {
      bp, bq, bc, ap, aq, ac := lo, lo, false, p, q, false;
    } else if mid <= p {
      bp, bq, bc, ap, aq, ac := lo, lo, false, p - s, q - s, false;
    } else if q - s <= p {
      bp, bq, bc, ap, aq, ac := lo, lo, false, q - s, p, true;
    } else {
      bp, bq, bc, ap, aq, ac := p, q - s, false, lo, lo, true;
    }
    if c {
      px, qx, cx, py, qy, cy := ap, aq, !ac, bp, bq, !bc;
    } else {
      px, qx, cx, py, qy, cy := bp, bq, bc, ap, aq, ac;
    }
    forall k | lo <= k < lo + s
      ensures Within(k, px, qx, cx) == (Within(k, p, q, c) && Within(k + s, p, q, c))
      ensures Within(k, py, qy, cy) == (Within(k, p, q, c) || Within(k + s, p, q, c))
    {
      assert k < mid;
    }
  }

  // ---------------------------------------------------------------- one stage

  // Every index has its partner inside the sequence.
  ghost predicate Fits(width: nat, stride: nat) {
    stride > 0 && forall i: nat :: i < width && Clear(i, stride) ==> i + stride < width
  }

  lemma HalfOf(i: nat, k: nat, s: nat)
    requires s > 0 && Start(i, 2 * s) <= k < Start(i, 2 * s) + 2 * s
    ensures Start(k, 2 * s) == Start(i, 2 * s)
    ensures Clear(k, s) <==> k < Start(i, 2 * s) + s
    ensures Start(k, s) == if Clear(k, s) then Start(i, 2 * s) else Start(i, 2 * s) + s
  {
    SameBlock(i, k, 2 * s);
    DoubleBlock(k, s);
  }

  lemma BlockFits(i: nat, t: nat, width: nat)
    requires Doubles(t, width) && i < width
    ensures Start(i, t) + t <= width
  {
    Nested(i, i, t, width);
  }

  lemma StrideFits(width: nat, stride: nat)
    requires stride > 0 && Doubles(2 * stride, width)
    ensures Fits(width, stride)
  {
    forall i: nat | i < width && Clear(i, stride) ensures i + stride < width {
      HalfOf(i, i, stride);
      BlockFits(i, 2 * stride, width);
    }
  }

  lemma {:induction false} DoublesHalf(s: nat, size: nat)
    requires s > 0 && Doubles(2 * s, size)
    ensures Doubles(s, size)
  {
    if size != 2 * s {
      DoublesHalf(s, size / 2);
    }
  }

  predicate InOrder(b: seq<bool>, j: nat, k: nat, up: bool)
    requires j < |b| && k < |b|
  {
    if up then b[j] ==> b[k] else b[k] ==> b[j]
  }

  // In the stage for `size`, once blocks of t are left: each of those is bitonic, and the
  // blocks of t inside one block of `size` are in that block's order.
  ghost predicate Midway(b: seq<bool>, size: nat, t: nat) {
    && Doubles(t, size) && Doubles(size, |b|)
    && (forall i: nat :: i < |b| ==> Bitonic(b, Start(i, t), Start(i, t) + t))
    && (forall j: nat, k: nat {:trigger InOrder(b, j, k, true)} {:trigger InOrder(b, j, k, false)} ::
          j < k < |b| && Start(j, size) == Start(k, size) && Start(j, t) != Start(k, t)
          ==> InOrder(b, j, k, Clear(j, size)))
  }

  ghost predicate ExchangedAll(b: seq<bool>, a: seq<bool>, size: nat, stride: nat) {
    && size > 0 && Fits(|b|, stride) && |a| == |b|
    && forall i: nat :: i < |b| ==> a[i] == Exchanged(b, size, stride, i)
  }

  // What the exchange leaves at an index of the block of 2s that holds i.
  lemma ExchangedAt(b: seq<bool>, a: seq<bool>, size: nat, s: nat, i: nat, k: nat)
    requires s > 0 && Doubles(2 * s, size) && ExchangedAll(b, a, size, s)
    requires var lo := Start(i, 2 * s); lo <= k < lo + 2 * s <= |b|
    ensures a[k] == HalfValue(b, Start(i, 2 * s), s, Clear(i, size), k)
  {
    assert a[k] == Exchanged(b, size, s, k);
    HalfOf(i, k, s);
    var low := if Clear(k, s) then k else k - s;
    HalfOf(i, low, s);
    Nested(i, low, 2 * s, size);
  }

  lemma CleanBlock(b: seq<bool>, a: seq<bool>, size: nat, s: nat, i: nat)
    requires s > 0 && Midway(b, size, 2 * s) && ExchangedAll(b, a, size, s) && i < |b|
    ensures var lo := Start(i, 2 * s);
        && lo + 2 * s <= |b|
        && Bitonic(a, lo, lo + s) && Bitonic(a, lo + s, lo + 2 * s)
        && Separated(a, lo, lo + s, lo + 2 * s, Clear(i, size))
  {
    var lo, up := Start(i, 2 * s), Clear(i, size);
    DoublesTransitive(2 * s, size, |b|);
    BlockFits(i, 2 * s, |b|);
    forall k | lo <= k < lo + 2 * s ensures a[k] == HalfValue(b, lo, s, up, k) {
      ExchangedAt(b, a, size, s, i, k);
    }
    HalfClean(b, a, lo, s, up);
  }

  lemma {:induction false} DoublesTransitive(t: nat, u: nat, v: nat)
    requires Doubles(t, u) && Doubles(u, v)
    ensures Doubles(t, v)
  {
    DoublesSize(t, u);
    if v != u {
      DoublesTransitive(t, u, v / 2);
    }
  }

  // A value after the exchange is one of the two values of its pair, or both agree.
  lemma PairValue(b: seq<bool>, a: seq<bool>, size: nat, s: nat, i: nat) returns (u: nat, v: nat)
    requires s > 0 && ExchangedAll(b, a, size, s) && i < |b|
    ensures u < |b| && v < |b| && Start(u, 2 * s) == Start(i, 2 * s) == Start(v, 2 * s)
    ensures a[i] == b[u] || a[i] == b[v]
    ensures b[u] == b[v] ==> a[i] == b[u]
  {
    u := if Clear(i, s) then i else i - s;
    v := u + s;
    assert a[i] == Exchanged(b, size, s, i);
    HalfOf(i, i, s);
    HalfOf(i, u, s);
    HalfOf(i, v, s);
  }

  lemma ExchangeKeepsOrder(b: seq<bool>, a: seq<bool>, size: nat, s: nat, j: nat, k: nat)
    requires s > 0 && Midway(b, size, 2 * s) && ExchangedAll(b, a, size, s)
    requires j < k < |b| && Start(j, size) == Start(k, size) && Start(j, s) != Start(k, s)
    ensures InOrder(a, j, k, Clear(j, size))
  {
    var up := Clear(j, size);
    if Start(j, 2 * s) == Start(k, 2 * s) {
      CleanBlock(b, a, size, s, j);
      HalfOf(j, j, s);
      HalfOf(j, k, s);
    } else {
      var ju, jv := PairValue(b, a, size, s, j);
      var ku, kv := PairValue(b, a, size, s, k);
      Apart(b, size, s, j, k, ju, ku);
      Apart(b, size, s, j, k, ju, kv);
      Apart(b, size, s, j, k, jv, ku);
      Apart(b, size, s, j, k, jv, kv);
    }
  }

  lemma MidwayOrder(b: seq<bool>, size: nat, t: nat, j: nat, k: nat)
    requires Midway(b, size, t) && j < k < |b| && Start(j, size) == Start(k, size) && Start(j, t) != Start(k, t)
    ensures InOrder(b, j, k, Clear(j, size))
  {
    if Clear(j, size) {
      assert InOrder(b, j, k, true);
    } else {
      assert InOrder(b, j, k, false);
    }
  }

  // Members of two different blocks of 2s are ordered like the blocks.
  lemma Apart(b: seq<bool>, size: nat, s: nat, j: nat, k: nat, x: nat, y: nat)
    requires s > 0 && Midway(b, size, 2 * s)
    requires j < k < |b| && Start(j, size) == Start(k, size) && Start(j, 2 * s) != Start(k, 2 * s)
    requires x < |b| && y < |b| && Start(x, 2 * s) == Start(j, 2 * s) && Start(y, 2 * s) == Start(k, 2 * s)
    ensures InOrder(b, x, y, Clear(j, size))
  {
    var t := 2 * s;
    Nested(j, x, t, size);
    Nested(k, y, t, size);
    BlocksApart(j, k, t);
    MidwayOrder(b, size, t, x, y);
  }

  lemma {:induction false} BlocksApart(j: nat, k: nat, t: nat)
    requires t > 0 && j < k && Start(j, t) != Start(k, t)
    ensures Start(j, t) + t <= Start(k, t)
  {
    if j >= t {
      BlocksApart(j - t, k - t, t);
    }
  }

  lemma StepIsBitonic(b: seq<bool>, a: seq<bool>, size: nat, s: nat, i: nat)
    requires s > 0 && Midway(b, size, 2 * s) && ExchangedAll(b, a, size, s) && i < |a|
    ensures Bitonic(a, Start(i, s), Start(i, s) + s)
  {
    CleanBlock(b, a, size, s, i);
    HalfOf(i, i, s);
  }

  lemma MidwayStep(b: seq<bool>, a: seq<bool>, size: nat, s: nat)
    requires s > 0 && Midway(b, size, 2 * s) && ExchangedAll(b, a, size, s)
    ensures Midway(a, size, s)
  {
    DoublesHalf(s, size);
    forall i: nat | i < |a| ensures Bitonic(a, Start(i, s), Start(i, s) + s) {
      StepIsBitonic(b, a, size, s, i);
    }
    forall j: nat, k: nat | j < k < |a| && Start(j, size) == Start(k, size) && Start(j, s) != Start(k, s)
      ensures InOrder(a, j, k, Clear(j, size))
    {
      ExchangeKeepsOrder(b, a, size, s, j, k);
    }
  }

  // ---------------------------------------------------------------- from stage to stage

  lemma NetworkBegins(b: seq<bool>)
    requires Doubles(1, |b|)
    ensures Midway(b, 1, 1)
  {
    forall i: nat | i < |b| ensures Bitonic(b, Start(i, 1), Start(i, 1) + 1) {
      assert Shape(b, i, i + 1, i, i, b[i]);
    }
  }

  lemma StageEnds(b: seq<bool>, size: nat)
    requires Midway(b, size, 1) && Doubles(2 * size, |b|)
    ensures Midway(b, 2 * size, 2 * size)
  {
    forall i: nat | i < |b| ensures Bitonic(b, Start(i, 2 * size), Start(i, 2 * size) + 2 * size) {
      var lo := Start(i, 2 * size);
      BlockFits(i, 2 * size, |b|);
      forall j, k | lo <= j < k < lo + size ensures b[j] ==> b[k] {
        HalfOf(i, j, size);
        HalfOf(i, k, size);
        assert InOrder(b, j, k, true);
      }
      forall j, k | lo + size <= j < k < lo + 2 * size ensures b[k] ==> b[j] {
        HalfOf(i, j, size);
        HalfOf(i, k, size);
        assert InOrder(b, j, k, false);
      }
      RiseThenFall(b, lo, lo + size, lo + 2 * size);
    }
  }

  lemma NetworkEnds(b: seq<bool>)
    requires Midway(b, |b|, 1)
    ensures Ordered(b, 0, |b|, true)
  {
    forall j, k | 0 <= j < k < |b| ensures b[j] ==> b[k] {
      assert InOrder(b, j, k, true);
    }
  }
}
