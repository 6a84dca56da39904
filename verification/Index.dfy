// The growable index: a device buffer of floats with stale values behind the live rows, and
// what-if queries that append rows and take them away again.

module Index {
  import opened Wrappers
  import opened Division
  import opened Pairs
  import opened TopK
  import opened Scan

  datatype Float = Real(value: real) | NotFinite

  datatype Result<+T> = Ok(value: T) | Err

  const WARP_DIM: nat := 32
  const MAX_CAPACITY: nat := 0x8000_0000_0000_0000

  type Metric = (seq<Float>, seq<Float>) -> Distance

  predicate AllFinite(s: seq<Float>) {
    forall i :: 0 <= i < |s| ==> s[i].Real?
  }

  predicate RowsFit(rows: seq<Float>, dims: nat) {
    dims > 0 && |rows| % dims == 0 && AllFinite(rows)
  }

  // ---------------------------------------------------------------- rows of a flat buffer

  function Row(flat: seq<Float>, dims: nat, row: nat): seq<Float>
    requires row * dims + dims <= |flat|
  {
    flat[row * dims..row * dims + dims]
  }

  lemma RowInside(n: nat, dims: nat, count: nat, row: nat)
    requires count * dims <= n && row < count
    ensures row * dims + dims <= n
  {
    MulGap(row, count, dims);
  }

  function Distances(metric: Metric, flat: seq<Float>, dims: nat, count: nat, query: seq<Float>): (d: seq<Distance>)
    requires count * dims <= |flat|
    ensures |d| == count
  {
    seq(count, row requires 0 <= row < count =>
      RowInside(|flat|, dims, count, row);
      metric(Row(flat, dims, row), query))
  }

  lemma WholeRows(count: nat, dims: nat)
    requires dims > 0
    ensures (count * dims) / dims == count && (count * dims) % dims == 0
  {
    DivUnique(count * dims, dims, count, 0);
    var n := count * dims;
    assert n == (n / dims) * dims + n % dims;
  }

  lemma WholeQuotient(n: nat, dims: nat)
    requires dims > 0 && n % dims == 0
    ensures n == (n / dims) * dims
  {
    assert n == (n / dims) * dims + n % dims;
  }

  // Wide rows go to the warp kernel, which scans eight of them per block.
  function TileRows(dims: nat): (t: nat)
    ensures t == if dims < 32 then 256 else 8
  {
    if dims >= WARP_DIM then KNN_WARPS else KNN_THREADS
  }

  // ---------------------------------------------------------------- requests

  datatype WeightedSpec = WeightedSpec(
    metrics: nat, inputK: nat, usedK: nat, skip: nat, epistemic: Float, aleatoric: Float, epsilon: Float)

  datatype Request = Request(
    queries: seq<Float>, count: nat, outcomes: seq<Float>, variances: Option<seq<Float>>, scales: seq<Float>,
    spec: WeightedSpec)

  // The shape and value checks on outcomes, variances and scales against the live row count.
  predicate BadOutcomes(r: Request, rows: nat) {
    var s := r.spec;
    || s.metrics == 0 || s.inputK == 0 || s.usedK == 0 || s.inputK > KNN_K || s.skip + s.usedK > s.inputK
    || |r.outcomes| != rows * s.metrics || |r.scales| != s.metrics
    || !AllFinite(r.outcomes) || !AllFinite(r.scales)
    || s.epistemic.NotFinite? || s.aleatoric.NotFinite? || s.epsilon.NotFinite? || s.epsilon.value <= 0.0
    || (r.variances.Some? && (|r.variances.value| != rows * s.metrics || !AllFinite(r.variances.value)))
    || (exists i :: 0 <= i < |r.scales| && r.scales[i].Real? && r.scales[i].value <= 0.0)
  }

  // What a posterior needs of its request, said the other way round: shapes that match the rows, finite
  // values, positive scales and epsilon, and neighbours that fit the list.
  ghost predicate Unsound(r: Request, rows: nat) {
    var s := r.spec;
    !(&& s.metrics >= 1 && 1 <= s.inputK <= 128 && s.usedK >= 1 && s.skip + s.usedK <= s.inputK
      && |r.outcomes| == rows * s.metrics && (forall i :: 0 <= i < |r.outcomes| ==> r.outcomes[i].Real?)
      && |r.scales| == s.metrics
      && (forall i :: 0 <= i < |r.scales| ==> r.scales[i].Real? && r.scales[i].value > 0.0)
      && s.epistemic.Real? && s.aleatoric.Real? && s.epsilon.Real? && s.epsilon.value > 0.0
      && (r.variances.Some? ==>
            && |r.variances.value| == rows * s.metrics
            && forall i :: 0 <= i < |r.variances.value| ==> r.variances.value[i].Real?))
  }

  // ---------------------------------------------------------------- the specification

  // The sequence of rows an index stands for, as one flat sequence of whole rows.
  datatype Spec = Spec(metric: Metric, dims: nat, rows: seq<Float>) {
    predicate Valid() { dims > 0 && |rows| == Count() * dims }

    function Count(): nat { if dims == 0 then 0 else |rows| / dims }

    predicate SearchFails(queries: seq<Float>, count: nat, k: nat) {
      || Count() == 0 || count == 0
      || |queries| != count * dims || !AllFinite(queries)
      || k == 0 || k > KNN_K || k > Count()
      || Count() > U32_MAX || dims > U32_MAX || count > U32_MAX
      || count * ListCount(Count(), TileRows(dims)) > U32_MAX
    }

    function QueryDistances(queries: seq<Float>, count: nat, q: nat): seq<Distance>
      requires Valid() && count * dims <= |queries| && q < count
    {
      RowInside(|queries|, dims, count, q);
      Distances(metric, rows, dims, Count(), Row(queries, dims, q))
    }

    // What a search answers: for each query, the first k of all rows in a stable sort by distance.
    function Search(queries: seq<Float>, count: nat, k: nat): Result<seq<seq<Pair>>>
      requires Valid()
    {
      if SearchFails(queries, count, k) then Err
      else Ok(seq(count, q requires 0 <= q < count => Nearest(QueryDistances(queries, count, q), k)))
    }

    function Weighted<O>(posterior: (seq<seq<Pair>>, Request) -> O, r: Request): Result<O>
      requires Valid()
    {
      if BadOutcomes(r, Count()) || r.count * r.spec.metrics > U32_MAX then Err
      else
        match Search(r.queries, r.count, r.spec.inputK)
        case Err => Err
        case Ok(found) => Ok(posterior(found, r))
    }

    function Draws<D>(drawing: (seq<seq<Pair>>, Request, seq<nat>) -> D, r: Request, seeds: seq<nat>): Result<D>
      requires Valid()
    {
      if seeds == [] || BadOutcomes(r, Count()) || r.count * r.spec.metrics > U32_MAX
         || |seeds| * (r.count * r.spec.metrics) > U32_MAX
      then Err
      else
        match Search(r.queries, r.count, r.spec.inputK)
        case Err => Err
        case Ok(found) => Ok(drawing(found, r, seeds))
    }

    // Appending is refused for partial rows, nonfinite values, and sizes past the largest buffer.
    predicate Appendable(extra: seq<Float>) {
      RowsFit(extra, dims) && (extra == [] || |rows| + |extra| <= MAX_CAPACITY)
    }

    function Append(extra: seq<Float>): (s: Spec)
      requires Valid() && |extra| % dims == 0
      ensures s.Valid() && s.Count() == Count() + |extra| / dims
    {
      AddedRows(Count(), |extra|, dims);
      WholeRows(Count() + |extra| / dims, dims);
      this.(rows := rows + extra)
    }
  }

  // ---------------------------------------------------------------- what a search answers

  // Row j of a flat sequence of rows.
  function Slice(flat: seq<Float>, dims: nat, j: nat): seq<Float> {
    if j * dims <= (j + 1) * dims <= |flat| then flat[j * dims..(j + 1) * dims] else []
  }

  // Every query has its own k nearest rows: pairs of a row's index and the distance between that row
  // and that query, in order, with all other rows behind them.
  ghost predicate Answers(s: Spec, queries: seq<Float>, count: nat, k: nat, found: seq<seq<Pair>>) {
    |found| == count && forall q: nat :: q < count ==> AnswersOne(s, Slice(queries, s.dims, q), k, found[q])
  }

  ghost predicate AnswersOne(s: Spec, query: seq<Float>, k: nat, found: seq<Pair>) {
    && |found| == k
    && (forall p :: p in found ==>
          p.index < s.Count() && p.distance == s.metric(Slice(s.rows, s.dims, p.index), query))
    && (forall i, j :: 0 <= i < j < k ==> Precedes(found[i], found[j]))
    && (forall p, row: nat :: p in found && row < s.Count() && (forall r :: r in found ==> r.index != row) ==>
          Precedes(p, Pair(s.metric(Slice(s.rows, s.dims, row), query), row)))
  }

  lemma RowIsSlice(flat: seq<Float>, dims: nat, j: nat)
    requires j * dims + dims <= |flat|
    ensures Row(flat, dims, j) == Slice(flat, dims, j)
  {
    assert (j + 1) * dims == j * dims + dims;
  }

  lemma NearestAnswers(s: Spec, queries: seq<Float>, count: nat, k: nat, q: nat)
    requires s.Valid() && count * s.dims <= |queries| && q < count && k <= s.Count()
    ensures AnswersOne(s, Slice(queries, s.dims, q), k, Nearest(s.QueryDistances(queries, count, q), k))
  {
    var d := s.QueryDistances(queries, count, q);
    var query := Slice(queries, s.dims, q);
    RowInside(|queries|, s.dims, count, q);
    RowIsSlice(queries, s.dims, q);
    forall row: nat | row < s.Count() ensures d[row] == s.metric(Slice(s.rows, s.dims, row), query) {
      RowInside(|s.rows|, s.dims, s.Count(), row);
      RowIsSlice(s.rows, s.dims, row);
    }
    NearestExact(d, k);
  }

  lemma SearchAnswers(s: Spec, queries: seq<Float>, count: nat, k: nat)
    requires s.Valid() && s.Search(queries, count, k).Ok?
    ensures Answers(s, queries, count, k, s.Search(queries, count, k).value)
  {
    forall q: nat | q < count
      ensures AnswersOne(s, Slice(queries, s.dims, q), k, s.Search(queries, count, k).value[q])
    {
      NearestAnswers(s, queries, count, k, q);
    }
  }

  // A batch answers each query as that query alone is answered.
  lemma BatchIsSingles(s: Spec, queries: seq<Float>, count: nat, k: nat, q: nat)
    requires s.Valid() && s.Search(queries, count, k).Ok? && q < count
    ensures s.Search(Slice(queries, s.dims, q), 1, k) == Ok([s.Search(queries, count, k).value[q]])
  {
    var query := Slice(queries, s.dims, q);
    SingleSucceeds(s, queries, count, k, q);
    SingleDistances(s, queries, count, q);
    assert s.Search(query, 1, k).value == [s.Search(queries, count, k).value[q]];
  }

  lemma SingleSucceeds(s: Spec, queries: seq<Float>, count: nat, k: nat, q: nat)
    requires s.Valid() && !s.SearchFails(queries, count, k) && q < count
    ensures !s.SearchFails(Slice(queries, s.dims, q), 1, k)
  {
    SliceFits(queries, s.dims, count, q);
    FewerLists(count, ListCount(s.Count(), TileRows(s.dims)));
    assert 1 * s.dims == s.dims;
  }

  lemma SliceFits(queries: seq<Float>, dims: nat, count: nat, q: nat)
    requires |queries| == count * dims && q < count
    ensures |Slice(queries, dims, q)| == dims
    ensures AllFinite(queries) ==> AllFinite(Slice(queries, dims, q))
  {
    RowInside(|queries|, dims, count, q);
    RowIsSlice(queries, dims, q);
  }

  lemma SingleDistances(s: Spec, queries: seq<Float>, count: nat, q: nat)
    requires s.Valid() && count * s.dims <= |queries| && q < count
    ensures var query := Slice(queries, s.dims, q);
      1 * s.dims <= |query| && s.QueryDistances(query, 1, 0) == s.QueryDistances(queries, count, q)
  {
    var query := Slice(queries, s.dims, q);
    RowInside(|queries|, s.dims, count, q);
    RowIsSlice(queries, s.dims, q);
    assert Row(query, s.dims, 0) == query;
  }

  lemma FewerLists(count: nat, lists: nat)
    requires count > 0
    ensures 1 * lists <= count * lists
  {
    assert count * lists == (count - 1) * lists + lists;
  }

  // Smallest power of two that is at least the value and one.
  function NextCapacity(value: nat): (c: nat)
    ensures c >= value && c > 0
    ensures c == 1 || c / 2 < value
  {
    Doubled(1, value)
  }

  function Doubled(c: nat, value: nat): (r: nat)
    requires c > 0
    ensures r >= value && r >= c && (r == c || r / 2 < value)
    decreases value - c
  {
    if c >= value then c else Doubled(2 * c, value)
  }

  // ---------------------------------------------------------------- the index

  class CudaIndex<O(!new), D(!new)> {
    const metric: Metric
    const dims: nat
    const posterior: (seq<seq<Pair>>, Request) -> O
    const drawing: (seq<seq<Pair>>, Request, seq<nat>) -> D
    var rows: array<Float>
    var rowCount: nat
    var a: array<seq<seq<Pair>>>
    var b: array<seq<seq<Pair>>>

    ghost predicate Valid()
      reads this
    {
      dims > 0 && rowCount * dims <= rows.Length && a != b && a.Length == b.Length
    }

    // The rows an observer sees; what lies behind them in the buffer is not part of it.
    ghost function Contents(): (s: Spec)
      requires Valid()
      reads this, rows
      ensures s.Valid() && s.Count() == rowCount
    {
      WholeRows(rowCount, dims);
      Spec(metric, dims, rows[..rowCount * dims])
    }

    constructor (metric: Metric, dims: nat, initial: seq<Float>, posterior: (seq<seq<Pair>>, Request) -> O,
                 drawing: (seq<seq<Pair>>, Request, seq<nat>) -> D)
      requires RowsFit(initial, dims)
      ensures Valid() && Contents() == Spec(metric, dims, initial)
    {
      this.metric, this.dims, this.posterior, this.drawing := metric, dims, posterior, drawing;
      var buffer := new Float[NextCapacity(|initial|)](i => Real(0.0));
      rows, rowCount := buffer, |initial| / dims;
      a, b := new seq<seq<Pair>>[1](i => []), new seq<seq<Pair>>[1](i => []);
      new;
      WriteRows(rows, 0, initial);
      assert rows[..|initial|] == initial;
      WholeQuotient(|initial|, dims);
    }

    // Copy values into the buffer at an offset.
    static method WriteRows(buffer: array<Float>, offset: nat, values: seq<Float>)
      requires offset + |values| <= buffer.Length
      modifies buffer
      ensures buffer[..] == old(buffer[..offset]) + values + old(buffer[offset + |values|..])
    {
      for i := 0 to |values|
        invariant forall j :: 0 <= j < buffer.Length ==>
            buffer[j] == if offset <= j < offset + i then values[j - offset] else old(buffer[j])
      {
        buffer[offset + i] := values[i];
      }
    }

    method Rebuild(initial: seq<Float>) returns (ok: bool)
      requires Valid()
      modifies this`rows, this`rowCount, rows
      ensures Valid() && (rows == old(rows) || fresh(rows))
      ensures ok == (RowsFit(initial, dims) && |initial| <= MAX_CAPACITY)
      ensures Contents() == if ok then Spec(metric, dims, initial) else old(Contents())
    {
      if !RowsFit(initial, dims) || |initial| > MAX_CAPACITY {
        return false;
      }
      var capacity := NextCapacity(|initial|);
      if capacity != rows.Length {
        rows := new Float[capacity](i => Real(0.0));
      }
      WriteRows(rows, 0, initial);
      assert rows[..|initial|] == initial;
      rowCount := |initial| / dims;
      WholeQuotient(|initial|, dims);
      ok := true;
    }

    // Room for `required` floats, keeping the first `used`.
    method Reserve(used: nat, required: nat)
      requires used <= rows.Length && used <= required
      modifies this`rows
      ensures required <= rows.Length && rows[..used] == old(rows[..used])
      ensures rows == old(rows) || fresh(rows)
    {
      if required > rows.Length {
        var next := new Float[NextCapacity(required)](i => Real(0.0));
        WriteRows(next, 0, rows[..used]);
        rows := next;
      }
    }

    method Add(extra: seq<Float>) returns (ok: bool)
      requires Valid()
      modifies this`rows, this`rowCount, rows
      ensures Valid() && (rows == old(rows) || fresh(rows))
      ensures ok == old(Contents()).Appendable(extra)
      ensures Contents() == if ok then old(Contents()).Append(extra) else old(Contents())
      ensures rowCount >= old(rowCount)
    {
      ghost var live := rows[..rowCount * dims];
      if !RowsFit(extra, dims) {
        return false;
      }
      if extra == [] {
        assert live + extra == live;
        return true;
      }
      var used := rowCount * dims;
      if used + |extra| > MAX_CAPACITY {
        return false;
      }
      AddedRows(rowCount, |extra|, dims);
      Reserve(used, used + |extra|);
      WriteRows(rows, used, extra);
      rowCount := rowCount + |extra| / dims;
      assert rows[..][..used + |extra|] == live + extra;
      ok := true;
    }

    // Scratch for one buffer entry per query, kept when it is already large enough.
    method EnsureScratch(queries: nat)
      requires Valid()
      modifies this`a, this`b
      ensures Valid() && queries <= a.Length
      ensures (a == old(a) && b == old(b)) || (fresh(a) && fresh(b))
    {
      if queries > a.Length {
        var capacity := NextCapacity(queries);
        a := new seq<seq<Pair>>[capacity](i => []);
        b := new seq<seq<Pair>>[capacity](i => []);
      }
    }

    // Answers like the specification, and touches nothing but scratch.
    method Search(queries: seq<Float>, count: nat, k: nat) returns (r: Result<seq<seq<Pair>>>)
      requires Valid()
      modifies this`a, this`b, a, b
      ensures Valid() && Contents() == old(Contents())
      ensures (a == old(a) && b == old(b)) || (fresh(a) && fresh(b))
      ensures r == Contents().Search(queries, count, k)
      ensures r.Err? <==>
          || rowCount == 0 || count == 0 || |queries| != count * dims
          || (exists i :: 0 <= i < |queries| && !queries[i].Real?)
          || k < 1 || k > 128 || k > rowCount
          || rowCount > 0xFFFF_FFFF || dims > 0xFFFF_FFFF || count > 0xFFFF_FFFF
          || count * ((rowCount + TileRows(dims) - 1) / TileRows(dims)) > 0xFFFF_FFFF
      ensures r.Ok? ==> Answers(Contents(), queries, count, k, r.value)
    {
      var live := Spec(metric, dims, rows[..rowCount * dims]);
      WholeRows(rowCount, dims);
      if live.SearchFails(queries, count, k) {
        return Err;
      }
      FirstWidths();
      var distances := seq(count, q requires 0 <= q < count => live.QueryDistances(queries, count, q));
      EnsureScratch(count);
      var inputA := StageSearch(a, b, distances, rowCount, TileRows(dims), k);
      var found := ReadNeighbors(a, b, inputA, distances, k, count);
      assert live == Contents() == old(Contents());
      assert found == live.Search(queries, count, k).value;
      SearchAnswers(live, queries, count, k);
      r := Ok(found);
    }

    // Read the buffer the flag names.
    static method ReadNeighbors(a: array<seq<seq<Pair>>>, b: array<seq<seq<Pair>>>, inputA: bool,
                                ghost distances: seq<seq<Distance>>, ghost k: nat, queries: nat)
      returns (found: seq<seq<Pair>>)
      requires queries == |distances| <= a.Length && queries <= b.Length
      requires forall q :: 0 <= q < queries ==> k <= |distances[q]|
      requires forall q :: 0 <= q < queries ==> (if inputA then a[q] else b[q]) == [Nearest(distances[q], k)]
      ensures |found| == queries && forall q :: 0 <= q < queries ==> found[q] == Nearest(distances[q], k)
    {
      found := [];
      for q := 0 to queries
        invariant |found| == q && forall j :: 0 <= j < q ==> found[j] == Nearest(distances[j], k)
      {
        found := found + [(if inputA then a[q] else b[q])[0]];
      }
    }

    method Weighted(request: Request) returns (r: Result<O>)
      requires Valid()
      modifies this`a, this`b, a, b
      ensures Valid() && Contents() == old(Contents())
      ensures (a == old(a) && b == old(b)) || (fresh(a) && fresh(b))
      ensures r == Contents().Weighted(posterior, request)
      ensures Unsound(request, rowCount) || request.count * request.spec.metrics > 0xFFFF_FFFF ==> r == Err
      ensures r == Err ==>
          || Unsound(request, rowCount) || request.count * request.spec.metrics > 0xFFFF_FFFF
          || Contents().Search(request.queries, request.count, request.spec.inputK).Err?
    {
      if BadOutcomes(request, rowCount) || request.count * request.spec.metrics > U32_MAX {
        return Err;
      }
      var found := Search(request.queries, request.count, request.spec.inputK);
      r := match found case Err => Err case Ok(lists) => Ok(posterior(lists, request));
    }

    method Draws(request: Request, seeds: seq<nat>) returns (r: Result<D>)
      requires Valid()
      modifies this`a, this`b, a, b
      ensures Valid() && Contents() == old(Contents())
      ensures (a == old(a) && b == old(b)) || (fresh(a) && fresh(b))
      ensures r == Contents().Draws(drawing, request, seeds)
      ensures seeds == [] || Unsound(request, rowCount) ==> r == Err
      ensures request.count * request.spec.metrics > 0xFFFF_FFFF ==> r == Err
      ensures |seeds| * (request.count * request.spec.metrics) > 0xFFFF_FFFF ==> r == Err
      ensures r == Err ==>
          || seeds == [] || Unsound(request, rowCount) || request.count * request.spec.metrics > 0xFFFF_FFFF
          || |seeds| * (request.count * request.spec.metrics) > 0xFFFF_FFFF
          || Contents().Search(request.queries, request.count, request.spec.inputK).Err?
    {
      if seeds == [] || BadOutcomes(request, rowCount) || request.count * request.spec.metrics > U32_MAX
         || |seeds| * (request.count * request.spec.metrics) > U32_MAX
      {
        return Err;
      }
      var found := Search(request.queries, request.count, request.spec.inputK);
      r := match found case Err => Err case Ok(lists) => Ok(drawing(lists, request, seeds));
    }

    // What if these rows were there too? The answer is the one for the longer sequence, and the
    // sequence afterwards is the one before, whether or not there was an answer.
    method Conditional(extra: seq<Float>, request: Request) returns (r: Result<O>)
      requires Valid()
      modifies this`rows, this`rowCount, this`a, this`b, rows, a, b
      ensures Valid() && Contents() == old(Contents())
      ensures r == if old(Contents()).Appendable(extra)
                   then old(Contents()).Append(extra).Weighted(posterior, request) else Err
    {
      var base := rowCount;
      ghost var was := Contents();
      var ok := Add(extra);
      if !ok {
        return Err;
      }
      r := Weighted(request);
      Forgotten(was, extra, base, rows[..], rowCount);
      rowCount := base;
    }

    method ConditionalDraws(extra: seq<Float>, request: Request, seeds: seq<nat>) returns (r: Result<D>)
      requires Valid()
      modifies this`rows, this`rowCount, this`a, this`b, rows, a, b
      ensures Valid() && Contents() == old(Contents())
      ensures r == if old(Contents()).Appendable(extra)
                   then old(Contents()).Append(extra).Draws(drawing, request, seeds) else Err
    {
      var base := rowCount;
      ghost var was := Contents();
      var ok := Add(extra);
      if !ok {
        return Err;
      }
      r := Draws(request, seeds);
      Forgotten(was, extra, base, rows[..], rowCount);
      rowCount := base;
    }
  }

  // Shrinking the count drops exactly the appended rows, which stay behind as stale values.
  lemma Forgotten(was: Spec, extra: seq<Float>, base: nat, buffer: seq<Float>, count: nat)
    requires was.Valid() && was.Count() == base && base <= count && count * was.dims <= |buffer|
    requires buffer[..count * was.dims] == was.rows + extra
    ensures base * was.dims <= |buffer| && buffer[..base * was.dims] == was.rows
  {
    assert buffer[..count * was.dims][..base * was.dims] == (was.rows + extra)[..base * was.dims];
  }

  lemma AddedRows(count: nat, extra: nat, dims: nat)
    requires dims > 0 && extra % dims == 0
    ensures (count + extra / dims) * dims == count * dims + extra
  {
    assert extra == (extra / dims) * dims;
  }
}
