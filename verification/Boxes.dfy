// Boxes of indices in any number of dimensions, their cells and their volume.

module Boxes {

  datatype Box = Box(lo: seq<int>, hi: seq<int>) {
    predicate Ranked() { |lo| == |hi| }
  }

  ghost predicate Contains(b: Box, x: seq<int>)
    requires b.Ranked()
  {
    |x| == |b.lo| && forall i :: 0 <= i < |x| ==> b.lo[i] <= x[i] < b.hi[i]
  }

  // The cells of a box, one dimension at a time.
  function Cells(b: Box): set<seq<int>>
    requires b.Ranked()
    decreases |b.lo|
  {
    if b.lo == [] then {[]}
    else Slabs(b.lo[0], b.hi[0], Cells(Box(b.lo[1..], b.hi[1..])))
  }

  // Every rest, preceded by every first coordinate in [lo, hi).
  function Slabs(lo: int, hi: int, rests: set<seq<int>>): set<seq<int>>
    decreases hi - lo
  {
    if hi <= lo then {} else Slabs(lo, hi - 1, rests) + Slab(hi - 1, rests)
  }

  function Slab(x: int, rests: set<seq<int>>): set<seq<int>> {
    set r | r in rests :: [x] + r
  }

  lemma InSlab(x: int, rests: set<seq<int>>, c: seq<int>)
    ensures c in Slab(x, rests) <==> c != [] && c[0] == x && c[1..] in rests
  {
    if c != [] && c[0] == x && c[1..] in rests {
      assert c == [x] + c[1..];
    }
    if c in Slab(x, rests) {
      var r :| r in rests && c == [x] + r;
      assert c[1..] == r;
    }
  }

  lemma {:induction false} InSlabs(lo: int, hi: int, rests: set<seq<int>>, c: seq<int>)
    ensures c in Slabs(lo, hi, rests) <==> c != [] && lo <= c[0] < hi && c[1..] in rests
    decreases hi - lo
  {
    if lo < hi {
      InSlabs(lo, hi - 1, rests, c);
      InSlab(hi - 1, rests, c);
    }
  }

  lemma {:induction false} InCells(b: Box, c: seq<int>)
    requires b.Ranked()
    ensures c in Cells(b) <==> Contains(b, c)
    decreases |b.lo|
  {
    if b.lo != [] {
      var rest := Box(b.lo[1..], b.hi[1..]);
      InSlabs(b.lo[0], b.hi[0], Cells(rest), c);
      if c != [] {
        InCells(rest, c[1..]);
        if Contains(rest, c[1..]) && b.lo[0] <= c[0] < b.hi[0] {
          forall i | 0 <= i < |c| ensures b.lo[i] <= c[i] < b.hi[i] {
            if i > 0 {
              assert rest.lo[i - 1] <= c[1..][i - 1] < rest.hi[i - 1];
            }
          }
        }
      }
    }
  }

  // ---------------------------------------------------------------- volume

  function Times(a: int, b: int): int { a * b }

  function Product(sizes: seq<int>): int {
    if sizes == [] then 1 else Times(sizes[0], Product(sizes[1..]))
  }

  function Sizes(b: Box): (s: seq<int>)
    requires b.Ranked()
    ensures |s| == |b.lo|
  {
    seq(|b.lo|, i requires 0 <= i < |b.lo| => b.hi[i] - b.lo[i])
  }

  ghost predicate Proper(b: Box) {
    b.Ranked() && forall i :: 0 <= i < |b.lo| ==> b.lo[i] <= b.hi[i]
  }

  lemma {:induction false} SlabSize(x: int, rests: set<seq<int>>)
    ensures |Slab(x, rests)| == |rests|
    decreases |rests|
  {
    if rests == {} {
      assert Slab(x, rests) == {};
    } else {
      var r :| r in rests;
      var fewer := rests - {r};
      SlabSize(x, fewer);
      forall c ensures c in Slab(x, rests) <==> c in Slab(x, fewer) + {[x] + r} {
        InSlab(x, rests, c);
        InSlab(x, fewer, c);
        if c != [] && c[0] == x && c[1..] == r {
          assert c == [x] + r;
        }
        assert ([x] + r)[1..] == r;
      }
      assert Slab(x, rests) == Slab(x, fewer) + {[x] + r};
      InSlab(x, fewer, [x] + r);
      assert ([x] + r)[1..] == r;
    }
  }

  lemma SlabApart(lo: int, hi: int, rests: set<seq<int>>)
    ensures Slabs(lo, hi - 1, rests) !! Slab(hi - 1, rests)
  {
    var top := hi - 1;
    forall c | c in Slab(top, rests) ensures c !in Slabs(lo, top, rests) {
      InSlab(top, rests, c);
      InSlabs(lo, top, rests, c);
    }
  }

  lemma {:induction false} SlabsSize(lo: int, hi: int, rests: set<seq<int>>)
    requires lo <= hi
    ensures |Slabs(lo, hi, rests)| == Times(hi - lo, |rests|)
    decreases hi - lo
  {
    if lo < hi {
      SlabsSize(lo, hi - 1, rests);
      SlabSize(hi - 1, rests);
      SlabApart(lo, hi, rests);
      assert (hi - lo) * |rests| == (hi - 1 - lo) * |rests| + |rests|;
    }
  }

  lemma CellsRest(b: Box, cells: set<seq<int>>)
    requires b.Ranked() && b.lo != [] && cells == Cells(Box(b.lo[1..], b.hi[1..])) && b.lo[0] <= b.hi[0]
    ensures |Cells(b)| == Times(b.hi[0] - b.lo[0], |cells|)
  {
    SlabsSize(b.lo[0], b.hi[0], cells);
  }

  lemma SizesRest(b: Box, rest: Box)
    requires b.Ranked() && b.lo != [] && rest == Box(b.lo[1..], b.hi[1..])
    ensures Product(Sizes(b)) == Times(b.hi[0] - b.lo[0], Product(Sizes(rest)))
  {
    assert Sizes(b)[1..] == Sizes(rest);
  }

  // A box has as many cells as the product of its sizes, in any number of dimensions.
  lemma {:induction false} CellsCount(b: Box)
    requires Proper(b)
    ensures |Cells(b)| == Product(Sizes(b))
    decreases |b.lo|
  {
    if b.lo != [] {
      var rest := Box(b.lo[1..], b.hi[1..]);
      var n, cells := b.hi[0] - b.lo[0], Cells(rest);
      assert Proper(rest) by {
        forall i | 0 <= i < |rest.lo| ensures rest.lo[i] <= rest.hi[i] {
          assert b.lo[i + 1] <= b.hi[i + 1];
        }
      }
      CellsCount(rest);
      CellsRest(b, cells);
      SizesRest(b, rest);
    }
  }

  // ---------------------------------------------------------------- overlap

  predicate Overlaps(a: Box, b: Box)
    requires a.Ranked() && b.Ranked() && |a.lo| == |b.lo|
  {
    forall i :: 0 <= i < |a.lo| ==> a.lo[i] < b.hi[i] && b.lo[i] < a.hi[i]
  }

  // The interval test is exact for boxes with room in every dimension.
  lemma OverlapsMeet(a: Box, b: Box)
    requires a.Ranked() && b.Ranked() && |a.lo| == |b.lo|
    requires forall i :: 0 <= i < |a.lo| ==> a.lo[i] < a.hi[i] && b.lo[i] < b.hi[i]
    ensures Overlaps(a, b) <==> Cells(a) * Cells(b) != {}
  {
    if Overlaps(a, b) {
      var c := seq(|a.lo|, i requires 0 <= i < |a.lo| => if a.lo[i] < b.lo[i] then b.lo[i] else a.lo[i]);
      InCells(a, c);
      InCells(b, c);
      assert c in Cells(a) * Cells(b);
    }
    if Cells(a) * Cells(b) != {} {
      var c :| c in Cells(a) * Cells(b);
      InCells(a, c);
      InCells(b, c);
    }
  }

  // ---------------------------------------------------------------- row-major order

  ghost predicate Within(x: seq<int>, sizes: seq<int>) {
    |x| == |sizes| && forall i :: 0 <= i < |x| ==> 0 <= x[i] < sizes[i]
  }

  function RowMajor(x: seq<int>, sizes: seq<int>): int
    requires |x| == |sizes|
  {
    if x == [] then 0 else x[0] * Product(sizes[1..]) + RowMajor(x[1..], sizes[1..])
  }

  lemma WithinRest(x: seq<int>, sizes: seq<int>)
    requires Within(x, sizes) && x != []
    ensures Within(x[1..], sizes[1..])
  {
    forall i | 0 <= i < |x| - 1 ensures 0 <= x[1..][i] < sizes[1..][i] {
      assert 0 <= x[i + 1] < sizes[i + 1];
    }
  }

  // A row-major offset addresses the payload.
  lemma {:induction false} RowMajorInside(x: seq<int>, sizes: seq<int>)
    requires Within(x, sizes)
    ensures 0 <= RowMajor(x, sizes) < Product(sizes)
    decreases |x|
  {
    if x != [] {
      WithinRest(x, sizes);
      RowMajorInside(x[1..], sizes[1..]);
      DigitBelow(x[0], sizes[0], Product(sizes[1..]));
    }
  }

  lemma NonNegative(a: int, b: int)
    requires a >= 0 && b >= 0
    ensures a * b >= 0
  {
  }

  lemma DigitBelow(d: int, n: int, m: int)
    requires 0 <= d < n && m > 0
    ensures 0 <= d * m && d * m + m <= n * m
  {
    NonNegative(d, m);
    NonNegative(n - d - 1, m);
    assert n * m == (n - d - 1) * m + d * m + m;
  }

  // Numbers are ordered by their leading digit.
  lemma LeadingDigit(a: int, b: int, r: int, s: int, m: int)
    requires 0 <= r < m && 0 <= s && a < b
    ensures a * m + r < b * m + s
  {
    NonNegative(b - a - 1, m);
    assert b * m == (b - a - 1) * m + a * m + m;
  }

  // Two cells never share an offset, so a payload as long as the box is used once at each place.
  lemma {:induction false} RowMajorInjective(x: seq<int>, y: seq<int>, sizes: seq<int>)
    requires Within(x, sizes) && Within(y, sizes) && RowMajor(x, sizes) == RowMajor(y, sizes)
    ensures x == y
    decreases |x|
  {
    if x != [] {
      WithinRest(x, sizes);
      WithinRest(y, sizes);
      RowMajorInside(x[1..], sizes[1..]);
      RowMajorInside(y[1..], sizes[1..]);
      var a, b, m := RowMajor(x[1..], sizes[1..]), RowMajor(y[1..], sizes[1..]), Product(sizes[1..]);
      if x[0] < y[0] {
        LeadingDigit(x[0], y[0], a, b, m);
      } else if y[0] < x[0] {
        LeadingDigit(y[0], x[0], b, a, m);
      }
      RowMajorInjective(x[1..], y[1..], sizes[1..]);
      assert x == [x[0]] + x[1..] && y == [y[0]] + y[1..];
    }
  }

  // ---------------------------------------------------------------- lexicographic order

  // The first coordinate that differs is the smaller one.
  predicate Earlier(x: seq<int>, y: seq<int>)
    requires |x| == |y|
  {
    x != [] && (x[0] < y[0] || (x[0] == y[0] && Earlier(x[1..], y[1..])))
  }

  lemma {:induction false} EarlierIsTotal(x: seq<int>, y: seq<int>)
    requires |x| == |y|
    ensures x == y || Earlier(x, y) || Earlier(y, x)
    decreases |x|
  {
    if x != [] && x[0] == y[0] {
      EarlierIsTotal(x[1..], y[1..]);
      assert x == [x[0]] + x[1..] && y == [y[0]] + y[1..];
    }
  }

  // Reshaping keeps the order.
  lemma {:induction false} RowMajorKeepsOrder(x: seq<int>, y: seq<int>, sizes: seq<int>)
    requires Within(x, sizes) && Within(y, sizes) && Earlier(x, y)
    ensures RowMajor(x, sizes) < RowMajor(y, sizes)
    decreases |x|
  {
    WithinRest(x, sizes);
    WithinRest(y, sizes);
    RowMajorInside(x[1..], sizes[1..]);
    RowMajorInside(y[1..], sizes[1..]);
    if x[0] < y[0] {
      LeadingDigit(x[0], y[0], RowMajor(x[1..], sizes[1..]), RowMajor(y[1..], sizes[1..]), Product(sizes[1..]));
    } else {
      RowMajorKeepsOrder(x[1..], y[1..], sizes[1..]);
    }
  }

  // A cell relative to the corner of its box.
  function Inward(b: Box, x: seq<int>): (l: seq<int>)
    requires b.Ranked() && Contains(b, x)
    ensures Within(l, Sizes(b))
  {
    seq(|x|, i requires 0 <= i < |x| => x[i] - b.lo[i])
  }

  lemma {:induction false} InwardKeepsOrder(b: Box, x: seq<int>, y: seq<int>)
    requires b.Ranked() && Contains(b, x) && Contains(b, y)
    ensures Earlier(x, y) <==> Earlier(Inward(b, x), Inward(b, y))
    decreases |x|
  {
    if x != [] {
      var rest := Box(b.lo[1..], b.hi[1..]);
      ContainsRest(b, x);
      ContainsRest(b, y);
      InwardKeepsOrder(rest, x[1..], y[1..]);
      assert Inward(b, x)[1..] == Inward(rest, x[1..]);
      assert Inward(b, y)[1..] == Inward(rest, y[1..]);
    }
  }

  lemma ContainsRest(b: Box, x: seq<int>)
    requires b.Ranked() && Contains(b, x) && x != []
    ensures Contains(Box(b.lo[1..], b.hi[1..]), x[1..])
  {
    forall i | 0 <= i < |x| - 1 ensures b.lo[1..][i] <= x[1..][i] < b.hi[1..][i] {
      assert b.lo[i + 1] <= x[i + 1] < b.hi[i + 1];
    }
  }

  // Where a cell's element lies in the box's payload.
  function Position(b: Box, x: seq<int>): int
    requires b.Ranked() && Contains(b, x)
  {
    RowMajor(Inward(b, x), Sizes(b))
  }

  lemma PositionInside(b: Box, x: seq<int>)
    requires b.Ranked() && Contains(b, x)
    ensures 0 <= Position(b, x) < Product(Sizes(b))
  {
    RowMajorInside(Inward(b, x), Sizes(b));
  }

  lemma PositionOrders(b: Box, x: seq<int>, y: seq<int>)
    requires b.Ranked() && Contains(b, x) && Contains(b, y)
    ensures Position(b, x) < Position(b, y) <==> Earlier(x, y)
    ensures Position(b, x) == Position(b, y) <==> x == y
  {
    EarlierIsTotal(x, y);
    InwardKeepsOrder(b, x, y);
    InwardKeepsOrder(b, y, x);
    if Earlier(x, y) {
      RowMajorKeepsOrder(Inward(b, x), Inward(b, y), Sizes(b));
    }
    if Earlier(y, x) {
      RowMajorKeepsOrder(Inward(b, y), Inward(b, x), Sizes(b));
    }
  }

  // The cells before a cell.
  ghost function CellsBefore(b: Box, x: seq<int>): set<seq<int>>
    requires b.Ranked() && |x| == |b.lo|
  {
    set y | y in Cells(b) && |y| == |x| && Earlier(y, x)
  }

  ghost function Positions(b: Box, cells: set<seq<int>>): set<int>
    requires b.Ranked() && forall y :: y in cells ==> Contains(b, y)
  {
    set y | y in cells :: Position(b, y)
  }

  lemma {:induction false} PositionsCount(b: Box, cells: set<seq<int>>)
    requires b.Ranked() && forall y :: y in cells ==> Contains(b, y)
    ensures |Positions(b, cells)| == |cells|
    decreases |cells|
  {
    if cells == {} {
      assert Positions(b, cells) == {};
    } else {
      var x :| x in cells;
      var fewer := cells - {x};
      PositionsCount(b, fewer);
      forall y | y in fewer ensures Position(b, y) != Position(b, x) {
        PositionOrders(b, x, y);
      }
      assert Positions(b, cells) == Positions(b, fewer) + {Position(b, x)};
    }
  }

  ghost function Below(n: int): set<int>
    decreases n
  {
    if n <= 0 then {} else Below(n - 1) + {n - 1}
  }

  lemma {:induction false} InBelow(n: int)
    ensures forall k :: k in Below(n) <==> 0 <= k < n
    decreases n
  {
    if n > 0 {
      InBelow(n - 1);
    }
  }

  lemma {:induction false} BelowCount(n: nat)
    ensures |Below(n)| == n
    decreases n
  {
    if n > 0 {
      BelowCount(n - 1);
      InBelow(n - 1);
    }
  }

  lemma {:induction false} SameSize(a: set<int>, b: set<int>)
    requires a <= b && |a| == |b|
    ensures a == b
  {
    assert b == a + (b - a);
    assert |b - a| == 0;
  }

  // Every place of the payload is some cell's.
  lemma PositionsFill(b: Box)
    requires Proper(b)
    ensures forall y :: y in Cells(b) <==> Contains(b, y)
    ensures Positions(b, Cells(b)) == Below(Product(Sizes(b)))
  {
    forall y ensures y in Cells(b) <==> Contains(b, y) {
      InCells(b, y);
    }
    CellsCount(b);
    PositionsCount(b, Cells(b));
    BelowCount(Product(Sizes(b)));
    InBelow(Product(Sizes(b)));
    forall y | y in Cells(b) ensures Position(b, y) in Below(Product(Sizes(b))) {
      PositionInside(b, y);
    }
    SameSize(Positions(b, Cells(b)), Below(Product(Sizes(b))));
  }

  // A cell's place in the payload is the number of cells before it.
  lemma PositionCounts(b: Box, x: seq<int>)
    requires Proper(b) && Contains(b, x)
    ensures Position(b, x) == |CellsBefore(b, x)|
  {
    PositionsFill(b);
    PositionInside(b, x);
    var before, p := CellsBefore(b, x), Position(b, x);
    InBelow(p);
    InBelow(Product(Sizes(b)));
    forall k | k in Below(p) ensures k in Positions(b, before) {
      assert k in Positions(b, Cells(b));
      var y :| y in Cells(b) && Position(b, y) == k;
      PositionOrders(b, y, x);
    }
    forall y | y in before ensures Position(b, y) in Below(p) {
      PositionOrders(b, y, x);
      PositionInside(b, y);
    }
    assert Positions(b, before) == Below(p);
    PositionsCount(b, before);
    BelowCount(p);
  }
}
