// The chunks of a distributed tensor: the validator that runs before any payload is read, and
// the reader that fills an uninitialised tensor from them.

module Checkpoint {
  import opened Boxes

  datatype Chunk = Chunk(offsets: seq<int>, sizes: seq<int>)

  datatype Problem = RankMismatch | OutOfBounds | Overlap | NotCovered | BadPayload

  datatype Result<+T> = Ok(value: T) | Err(problem: Problem)

  function End(c: Chunk): (e: seq<int>)
    requires |c.offsets| == |c.sizes|
    ensures |e| == |c.offsets|
  {
    seq(|c.offsets|, i requires 0 <= i < |c.offsets| => c.offsets[i] + c.sizes[i])
  }

  function BoxOf(c: Chunk): (b: Box)
    requires |c.offsets| == |c.sizes|
    ensures b.Ranked() && |b.lo| == |c.offsets| && Sizes(b) == c.sizes
  {
    Box(c.offsets, End(c))
  }

  predicate Ranked(shape: seq<nat>, c: Chunk) {
    |c.offsets| == |shape| && |c.sizes| == |shape|
  }

  predicate Fits(shape: seq<nat>, c: Chunk)
    requires Ranked(shape, c)
  {
    forall i :: 0 <= i < |shape| ==>
      c.offsets[i] >= 0 && c.sizes[i] > 0 && c.offsets[i] + c.sizes[i] <= shape[i]
  }

  function Whole(shape: seq<nat>): (b: Box)
    ensures b.Ranked() && |b.lo| == |shape|
  {
    Box(seq(|shape|, _ => 0), seq(|shape|, i requires 0 <= i < |shape| => shape[i]))
  }

  // ---------------------------------------------------------------- what a valid tiling is

  ghost predicate WellFormed(shape: seq<nat>, chunks: seq<Chunk>) {
    forall j :: 0 <= j < |chunks| ==> Lies(shape, chunks[j])
  }

  // As many offsets and sizes as the tensor has dimensions, none empty, all within its shape.
  ghost predicate Lies(shape: seq<nat>, c: Chunk) {
    && |c.offsets| == |c.sizes| == |shape|
    && forall i :: 0 <= i < |shape| ==> c.offsets[i] >= 0 && c.sizes[i] >= 1 && shape[i] - c.sizes[i] >= c.offsets[i]
  }

  // Every index of the tensor lies in exactly one chunk.
  ghost predicate ExactCover(shape: seq<nat>, chunks: seq<Chunk>)
    requires WellFormed(shape, chunks)
  {
    && (forall x :: Contains(Whole(shape), x) ==> Covered(chunks, shape, x))
    && Disjoint(shape, chunks)
  }

  ghost predicate Covered(chunks: seq<Chunk>, shape: seq<nat>, x: seq<int>)
    requires WellFormed(shape, chunks)
  {
    exists j :: 0 <= j < |chunks| && Contains(BoxOf(chunks[j]), x)
  }

  ghost predicate Disjoint(shape: seq<nat>, chunks: seq<Chunk>)
    requires WellFormed(shape, chunks)
  {
    forall j, k :: 0 <= j < k < |chunks| ==> Apart(BoxOf(chunks[j]), BoxOf(chunks[k]))
  }

  ghost predicate Apart(a: Box, b: Box)
    requires a.Ranked() && b.Ranked()
  {
    forall x :: !(Contains(a, x) && Contains(b, x))
  }

  // ---------------------------------------------------------------- counting

  ghost function Union(shape: seq<nat>, chunks: seq<Chunk>): set<seq<int>>
    requires WellFormed(shape, chunks)
  {
    if chunks == [] then {}
    else Union(shape, chunks[..|chunks| - 1]) + Cells(BoxOf(chunks[|chunks| - 1]))
  }

  function Volume(chunks: seq<Chunk>): int {
    if chunks == [] then 0 else Volume(chunks[..|chunks| - 1]) + Product(chunks[|chunks| - 1].sizes)
  }

  lemma CoveredLast(shape: seq<nat>, chunks: seq<Chunk>, x: seq<int>)
    requires WellFormed(shape, chunks) && chunks != []
    ensures var n := |chunks| - 1;
      Covered(chunks, shape, x) <==> Covered(chunks[..n], shape, x) || Contains(BoxOf(chunks[n]), x)
  {
    var n := |chunks| - 1;
    var front := chunks[..n];
    assert forall j :: 0 <= j < n ==> front[j] == chunks[j];
    if Covered(chunks, shape, x) {
      var j :| 0 <= j < |chunks| && Contains(BoxOf(chunks[j]), x);
      assert j < n ==> Contains(BoxOf(front[j]), x);
    }
    if Covered(front, shape, x) {
      var j :| 0 <= j < n && Contains(BoxOf(front[j]), x);
      assert Contains(BoxOf(chunks[j]), x);
    }
  }

  lemma {:induction false} InUnion(shape: seq<nat>, chunks: seq<Chunk>, x: seq<int>)
    requires WellFormed(shape, chunks)
    ensures x in Union(shape, chunks) <==> Covered(chunks, shape, x)
    decreases |chunks|
  {
    if chunks != [] {
      var n := |chunks| - 1;
      InUnion(shape, chunks[..n], x);
      InCells(BoxOf(chunks[n]), x);
      CoveredLast(shape, chunks, x);
    }
  }

  // Disjoint chunks hold as many cells as their volume.
  lemma {:induction false} UnionCount(shape: seq<nat>, chunks: seq<Chunk>)
    requires WellFormed(shape, chunks) && Disjoint(shape, chunks)
    ensures |Union(shape, chunks)| == Volume(chunks)
    decreases |chunks|
  {
    if chunks != [] {
      var n := |chunks| - 1;
      var last := BoxOf(chunks[n]);
      UnionCount(shape, chunks[..n]);
      CellsCount(last);
      NextIsFresh(shape, chunks, n);
    }
  }

  lemma UnionInside(shape: seq<nat>, chunks: seq<Chunk>)
    requires WellFormed(shape, chunks)
    ensures Union(shape, chunks) <= Cells(Whole(shape))
  {
    forall x | x in Union(shape, chunks) ensures x in Cells(Whole(shape)) {
      InUnion(shape, chunks, x);
      var j :| 0 <= j < |chunks| && Contains(BoxOf(chunks[j]), x);
      InCells(Whole(shape), x);
    }
  }

  lemma SubsetOfSameSize(a: set<seq<int>>, b: set<seq<int>>)
    requires a <= b
    ensures |a| <= |b| && (|a| == |b| <==> a == b)
  {
    assert b == a + (b - a);
    assert |b| == |a| + |b - a|;
  }

  // Disjoint chunks inside the tensor cover it exactly when their volumes add up to its own.
  lemma VolumeDecides(shape: seq<nat>, chunks: seq<Chunk>)
    requires WellFormed(shape, chunks) && Disjoint(shape, chunks)
    ensures Volume(chunks) == Product(shape) <==> ExactCover(shape, chunks)
  {
    var whole := Whole(shape);
    UnionCount(shape, chunks);
    UnionInside(shape, chunks);
    CellsCount(whole);
    assert Sizes(whole) == shape;
    SubsetOfSameSize(Union(shape, chunks), Cells(whole));
    if ExactCover(shape, chunks) {
      forall x | x in Cells(whole) ensures x in Union(shape, chunks) {
        InCells(whole, x);
        InUnion(shape, chunks, x);
      }
    }
    if Union(shape, chunks) == Cells(whole) {
      forall x | Contains(whole, x) ensures Covered(chunks, shape, x) {
        InCells(whole, x);
        InUnion(shape, chunks, x);
      }
    }
  }

  // ---------------------------------------------------------------- the validator

  // What one more chunk has to pass, given those accepted so far.
  ghost predicate Addable(shape: seq<nat>, front: seq<Chunk>, chunk: Chunk)
    requires WellFormed(shape, front)
  {
    && Ranked(shape, chunk) && Fits(shape, chunk)
    && forall j :: 0 <= j < |front| ==> !Overlaps(BoxOf(chunk), BoxOf(front[j]))
  }

  ghost predicate Tiling(shape: seq<nat>, chunks: seq<Chunk>) {
    WellFormed(shape, chunks) && Disjoint(shape, chunks)
  }

  // A chunk extends a disjoint list exactly when it passes.
  lemma AddableExtends(shape: seq<nat>, front: seq<Chunk>, chunk: Chunk)
    requires Tiling(shape, front)
    ensures Addable(shape, front, chunk) <==> Tiling(shape, front + [chunk])
  {
    var all, n := front + [chunk], |front|;
    assert all[n] == chunk && forall j :: 0 <= j < n ==> all[j] == front[j];
    if Addable(shape, front, chunk) {
      forall j, k | 0 <= j < k < |all| ensures Apart(BoxOf(all[j]), BoxOf(all[k])) {
        if k < n {
          assert Apart(BoxOf(front[j]), BoxOf(front[k]));
        } else {
          ApartIffClear(BoxOf(front[j]), BoxOf(chunk));
        }
      }
    }
    if Tiling(shape, all) {
      assert Ranked(shape, all[n]) && Fits(shape, all[n]);
      forall j | 0 <= j < n ensures !Overlaps(BoxOf(chunk), BoxOf(front[j])) {
        assert Apart(BoxOf(all[j]), BoxOf(all[n]));
        ApartIffClear(BoxOf(front[j]), BoxOf(chunk));
      }
    }
  }

  lemma ApartIffClear(a: Box, b: Box)
    requires a.Ranked() && b.Ranked() && |a.lo| == |b.lo|
    requires forall i :: 0 <= i < |a.lo| ==> a.lo[i] < a.hi[i] && b.lo[i] < b.hi[i]
    ensures Apart(a, b) <==> !Overlaps(b, a)
  {
    OverlapsMeet(b, a);
    if Apart(a, b) && Cells(b) * Cells(a) != {} {
      var x :| x in Cells(b) * Cells(a);
      InCells(a, x);
      InCells(b, x);
    }
    if Cells(b) * Cells(a) == {} {
      forall x ensures !(Contains(a, x) && Contains(b, x)) {
        InCells(a, x);
        InCells(b, x);
        assert x !in Cells(b) * Cells(a);
      }
    }
  }

  lemma {:induction false} TilingPrefix(shape: seq<nat>, chunks: seq<Chunk>, n: nat)
    requires n <= |chunks| && Tiling(shape, chunks)
    ensures Tiling(shape, chunks[..n])
  {
    forall j | 0 <= j < n ensures Ranked(shape, chunks[..n][j]) && Fits(shape, chunks[..n][j]) {
      assert chunks[..n][j] == chunks[j];
    }
    forall j, k | 0 <= j < k < n ensures Apart(BoxOf(chunks[..n][j]), BoxOf(chunks[..n][k])) {
      assert Apart(BoxOf(chunks[j]), BoxOf(chunks[k]));
    }
  }

  method CheckChunk(shape: seq<nat>, boxes: seq<Box>, chunk: Chunk, ghost front: seq<Chunk>)
    returns (r: Result<Box>)
    requires WellFormed(shape, front) && |boxes| == |front|
    requires forall j :: 0 <= j < |front| ==> boxes[j] == BoxOf(front[j])
    ensures r.Ok? <==> Addable(shape, front, chunk)
    ensures r.Ok? ==> r.value == BoxOf(chunk)
    ensures r.Err? ==> (r.problem ==
      if !Ranked(shape, chunk) then RankMismatch else if !Fits(shape, chunk) then OutOfBounds else Overlap)
  {
    if !Ranked(shape, chunk) {
      return Err(RankMismatch);
    }
    if !Fits(shape, chunk) {
      return Err(OutOfBounds);
    }
    var box := BoxOf(chunk);
    for j := 0 to |boxes|
      invariant forall k :: 0 <= k < j ==> !Overlaps(box, BoxOf(front[k]))
    {
      if Overlaps(box, boxes[j]) {
        return Err(Overlap);
      }
    }
    r := Ok(box);
  }

  // Accepts exactly the chunk lists that hold every index of the tensor once; a list of separate
  // chunks is only ever refused for leaving an index out.
  method ValidateChunks(shape: seq<nat>, chunks: seq<Chunk>) returns (r: Result<()>)
    ensures r.Ok? <==> WellFormed(shape, chunks) && ExactCover(shape, chunks)
    ensures r == Err(NotCovered) <==> Tiling(shape, chunks) && !ExactCover(shape, chunks)
  {
    var volume := 0;
    var boxes: seq<Box> := [];
    ghost var front: seq<Chunk> := [];
    for n := 0 to |chunks|
      invariant front == chunks[..n] && |boxes| == n && Tiling(shape, front)
      invariant forall j :: 0 <= j < n ==> boxes[j] == BoxOf(front[j])
      invariant volume == Volume(front)
    {
      var checked := CheckChunk(shape, boxes, chunks[n], front);
      AddableExtends(shape, front, chunks[n]);
      assert chunks[..n + 1] == front + [chunks[n]];
      if checked.Err? {
        if Tiling(shape, chunks) {
          TilingPrefix(shape, chunks, n + 1);
        }
        return Err(checked.problem);
      }
      front := front + [chunks[n]];
      assert front[..n] == chunks[..n];
      boxes := boxes + [checked.value];
      volume := volume + Product(chunks[n].sizes);
    }
    assert front == chunks;
    VolumeDecides(shape, chunks);
    if volume != Product(shape) {
      return Err(NotCovered);
    }
    r := Ok(());
  }

  // ---------------------------------------------------------------- the reader

  datatype Element = Number(bits: int) | NonFinite

  // One stored payload: its flat elements, whether the store transformed it, and whether it is a
  // tensor of the wanted element type.
  datatype Payload = Payload(values: seq<Element>, transformed: bool, typed: bool)

  predicate Usable(p: Payload, sizes: seq<int>) {
    && !p.transformed && p.typed && |p.values| == Product(sizes)
    && forall i :: 0 <= i < |p.values| ==> p.values[i].Number?
  }

  type Store = map<seq<int>, Payload>

  ghost predicate Stored(store: Store, chunks: seq<Chunk>) {
    forall j :: 0 <= j < |chunks| ==>
      var c := chunks[j];
      && c.offsets in store && !store[c.offsets].transformed && store[c.offsets].typed
      && |store[c.offsets].values| == Product(c.sizes)
      && forall i :: 0 <= i < |store[c.offsets].values| ==> store[c.offsets].values[i].Number?
  }

  // The element a chunk stores for index x of the tensor: its payload in row-major order.
  function ElementAt(c: Chunk, values: seq<Element>, x: seq<int>): Element
    requires |c.offsets| == |c.sizes| && |values| == Product(c.sizes)
    requires Contains(BoxOf(c), x)
  {
    PositionInside(BoxOf(c), x);
    values[Position(BoxOf(c), x)]
  }

  // Writes one slice of the tensor, none of whose elements was written before.
  method FillSlice(tensor: map<seq<int>, Element>, c: Chunk, values: seq<Element>)
    returns (filled: map<seq<int>, Element>)
    requires |c.offsets| == |c.sizes| && |values| == Product(c.sizes)
    requires tensor.Keys !! Cells(BoxOf(c))
    ensures filled.Keys == tensor.Keys + Cells(BoxOf(c))
    ensures forall x :: x in tensor ==> filled[x] == tensor[x]
    ensures Holds(filled, c, values)
  {
    forall x: seq<int> ensures x in Cells(BoxOf(c)) <==> Contains(BoxOf(c), x) {
      InCells(BoxOf(c), x);
    }
    var slice := map x | x in Cells(BoxOf(c)) :: ElementAt(c, values, x);
    filled := tensor + slice;
    forall x | Contains(BoxOf(c), x) ensures x in filled && ReadsNext(filled[x], c, values, x) {
      ElementReadsNext(c, values, x);
    }
  }

  // The tensor holds every chunk's payload.
  ghost predicate Filled(tensor: map<seq<int>, Element>, shape: seq<nat>, chunks: seq<Chunk>, store: Store)
    requires WellFormed(shape, chunks) && Stored(store, chunks)
  {
    forall j :: 0 <= j < |chunks| ==> Holds(tensor, chunks[j], store[chunks[j].offsets].values)
  }

  // The indices of the chunk, in lexicographic order, read its payload in order.
  ghost predicate Holds(tensor: map<seq<int>, Element>, c: Chunk, values: seq<Element>)
    requires |c.offsets| == |c.sizes| && |values| == Product(c.sizes)
  {
    forall x :: Contains(BoxOf(c), x) ==> x in tensor && ReadsNext(tensor[x], c, values, x)
  }

  ghost predicate ReadsNext(element: Element, c: Chunk, values: seq<Element>, x: seq<int>)
    requires |c.offsets| == |c.sizes| && Contains(BoxOf(c), x)
  {
    var before := |CellsBefore(BoxOf(c), x)|;
    before < |values| && element == values[before]
  }

  lemma ElementReadsNext(c: Chunk, values: seq<Element>, x: seq<int>)
    requires |c.offsets| == |c.sizes| && |values| == Product(c.sizes)
    requires Contains(BoxOf(c), x)
    ensures ReadsNext(ElementAt(c, values, x), c, values, x)
  {
    PositionInside(BoxOf(c), x);
    PositionCounts(BoxOf(c), x);
  }

  // Succeeds exactly for an exact cover whose payloads are all usable; the tensor then has a value
  // at every index, the one its only chunk stores for it.
  method ReadTensor(shape: seq<nat>, chunks: seq<Chunk>, store: Store)
    returns (r: Result<map<seq<int>, Element>>)
    ensures r.Ok? <==> WellFormed(shape, chunks) && ExactCover(shape, chunks) && Stored(store, chunks)
    ensures r.Ok? ==> r.value.Keys == Cells(Whole(shape)) && Filled(r.value, shape, chunks, store)
  {
    var checked := ValidateChunks(shape, chunks);
    if checked.Err? {
      return Err(checked.problem);
    }
    var tensor := map[];
    for n := 0 to |chunks|
      invariant WellFormed(shape, chunks[..n]) && Stored(store, chunks[..n])
      invariant tensor.Keys == Union(shape, chunks[..n])
      invariant Filled(tensor, shape, chunks[..n], store)
    {
      var c := chunks[n];
      if c.offsets !in store || !Usable(store[c.offsets], c.sizes) {
        return Err(BadPayload);
      }
      NextIsFresh(shape, chunks, n);
      var next := FillSlice(tensor, c, store[c.offsets].values);
      assert chunks[..n + 1] == chunks[..n] + [c];
      OneMoreFilled(tensor, next, shape, chunks[..n], c, store);
      tensor := next;
    }
    assert chunks[..|chunks|] == chunks;
    UnionIsWhole(shape, chunks);
    r := Ok(tensor);
  }

  lemma OneMoreFilled(tensor: map<seq<int>, Element>, next: map<seq<int>, Element>,
      shape: seq<nat>, front: seq<Chunk>, c: Chunk, store: Store)
    requires WellFormed(shape, front) && Stored(store, front) && Filled(tensor, shape, front, store)
    requires Ranked(shape, c) && Fits(shape, c)
    requires c.offsets in store && Usable(store[c.offsets], c.sizes)
    requires tensor.Keys == Union(shape, front)
    requires next.Keys == tensor.Keys + Cells(BoxOf(c))
    requires forall x :: x in tensor ==> next[x] == tensor[x]
    requires Holds(next, c, store[c.offsets].values)
    ensures WellFormed(shape, front + [c]) && Stored(store, front + [c])
    ensures next.Keys == Union(shape, front + [c])
    ensures Filled(next, shape, front + [c], store)
  {
    var all, n := front + [c], |front|;
    assert all[..n] == front && all[n] == c;
    assert forall j :: 0 <= j < n ==> all[j] == front[j];
    forall j | 0 <= j < n ensures Holds(next, all[j], store[all[j].offsets].values) {
      assert Holds(tensor, front[j], store[front[j].offsets].values);
    }
  }

  // In a disjoint list no cell of a chunk lies in an earlier one.
  lemma NextIsFresh(shape: seq<nat>, chunks: seq<Chunk>, n: nat)
    requires Tiling(shape, chunks) && n < |chunks|
    ensures WellFormed(shape, chunks[..n])
    ensures Union(shape, chunks[..n]) !! Cells(BoxOf(chunks[n]))
  {
    TilingPrefix(shape, chunks, n);
    forall x: seq<int> ensures !(x in Union(shape, chunks[..n]) && x in Cells(BoxOf(chunks[n]))) {
      InUnion(shape, chunks[..n], x);
      InCells(BoxOf(chunks[n]), x);
      if Covered(chunks[..n], shape, x) {
        var j :| 0 <= j < n && Contains(BoxOf(chunks[..n][j]), x);
        assert Apart(BoxOf(chunks[j]), BoxOf(chunks[n]));
      }
    }
  }

  lemma UnionIsWhole(shape: seq<nat>, chunks: seq<Chunk>)
    requires WellFormed(shape, chunks) && ExactCover(shape, chunks)
    ensures Union(shape, chunks) == Cells(Whole(shape))
  {
    UnionInside(shape, chunks);
    forall x | x in Cells(Whole(shape)) ensures x in Union(shape, chunks) {
      InCells(Whole(shape), x);
      InUnion(shape, chunks, x);
    }
  }
}
