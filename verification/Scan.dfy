// The tiled scan and the pairwise merge rounds over two buffers.

module Scan {
  import opened Division
  import opened Network
  import opened Pairs
  import opened TopK

  const KNN_K: nat := 128
  const KNN_THREADS: nat := 256
  const KNN_WARPS: nat := 8

  // ---------------------------------------------------------------- shared memory

  ghost predicate Indexed(s: seq<Pair>) {
    forall i :: 0 <= i < |s| ==> s[i].index <= U32_MAX
  }

  lemma IndexedStays(s: seq<Pair>, t: seq<Pair>)
    requires Indexed(s) && multiset(s) == multiset(t)
    ensures Indexed(t)
  {
    forall i | 0 <= i < |t| ensures t[i].index <= U32_MAX {
      assert t[i] in multiset(t);
      assert t[i] in s;
    }
  }

  // A sorted front with sentinels behind it is sorted throughout.
  lemma SentinelTail(t: seq<Pair>, width: nat)
    requires width <= |t| && Sorted(t[..width]) && Indexed(t)
    requires forall i :: width <= i < |t| ==> t[i] == SENTINEL
    ensures Sorted(t)
  {
    forall j, k | 0 <= j < k < |t| ensures !Before(t[k], t[j]) {
      if k < width {
        assert t[..width][j] == t[j] && t[..width][k] == t[k];
      }
    }
  }

  // Fill the block's cells and sort the first `width` of them: the body of every kernel, which then
  // writes the first k.
  method SortBlock(fill: seq<Pair>, width: nat) returns (sorted: seq<Pair>)
    requires SortWidth(width) && |fill| <= width <= KNN_THREADS && Indexed(fill)
    ensures |sorted| == KNN_THREADS && Sorted(sorted)
    ensures multiset(sorted) == multiset(fill) + Pads(KNN_THREADS - |fill|)
  {
    var cells := new Pair[KNN_THREADS](i => SENTINEL);
    for lane := 0 to |fill|
      invariant forall i :: 0 <= i < KNN_THREADS ==> cells[i] == if i < lane then fill[i] else SENTINEL
    {
      cells[lane] := fill[lane];
    }
    ghost var filled := cells[..];
    assert filled == fill + seq(KNN_THREADS - |fill|, _ => SENTINEL);
    PadIsPads(KNN_THREADS - |fill|);
    SortPairs(cells, width);
    sorted := cells[..];
    IndexedStays(filled, sorted);
    SentinelTail(sorted, width);
  }

  // ---------------------------------------------------------------- scanning tiles

  function Upto(s: seq<Pair>, n: nat): seq<Pair> {
    if n <= |s| then s[..n] else s
  }

  // The rows of a tile, the last of which may be short.
  function Tile(s: seq<Pair>, tile: nat, tileRows: nat): seq<Pair>
    requires tile * tileRows <= |s|
  {
    Upto(s[tile * tileRows..], tileRows)
  }

  method ScanTile(distances: seq<Distance>, tile: nat, tileRows: nat, k: nat) returns (list: seq<Pair>)
    requires SortWidth(tileRows) && tileRows <= KNN_THREADS && k <= KNN_K
    requires |distances| <= U32_MAX && tile * tileRows <= |distances|
    ensures |list| == k && TopOf(list, multiset(Tile(RowPairs(distances), tile, tileRows))) && Indexed(list)
  {
    var fill: seq<Pair> := [];
    for lane := 0 to tileRows
      invariant |fill| == if tile * tileRows + lane <= |distances| then lane else |distances| - tile * tileRows
      invariant forall i :: 0 <= i < |fill| ==> fill[i] == Pair(distances[tile * tileRows + i], tile * tileRows + i)
    {
      var row := tile * tileRows + lane;
      if row < |distances| {
        fill := fill + [Pair(distances[row], row)];
      }
    }
    assert fill == Tile(RowPairs(distances), tile, tileRows);
    var sorted := SortBlock(fill, tileRows);
    list := sorted[..k];
    SortedBeginsWithTop(sorted, multiset(fill), KNN_THREADS - |fill|, k);
    SortedIndexed(sorted, fill);
  }

  // ---------------------------------------------------------------- merging lists

  // Smallest power of two that is at least 2 and covers both lists.
  method MergeWidth(k: nat) returns (width: nat)
    requires k <= KNN_K
    ensures SortWidth(width) && 2 * k <= width <= KNN_THREADS
  {
    width := 2;
    FirstWidths();
    while width < 2 * k
      invariant SortWidth(width) && Doubles(width, KNN_THREADS)
      decreases KNN_THREADS - width
    {
      DoublesSize(width, KNN_THREADS);
      DoubleUp(width, KNN_THREADS);
      width := width * 2;
    }
    DoublesSize(width, KNN_THREADS);
  }

  lemma FirstWidths()
    ensures SortWidth(2) && Doubles(2, KNN_THREADS) && SortWidth(KNN_THREADS) && SortWidth(KNN_WARPS)
  {
    assert Doubles(2, 4) && Doubles(2, 8) && Doubles(2, 16) && Doubles(2, 32) && Doubles(2, 64) && Doubles(2, 128);
    assert Doubles(1, 2) && Doubles(1, 4) && Doubles(1, 8) && Doubles(1, 16) && Doubles(1, 32);
    assert Doubles(1, 64) && Doubles(1, 128);
  }

  // An output list from its left input and its right one, [] when there is none.
  method MergeLists(left: seq<Pair>, right: seq<Pair>, k: nat, ghost a: multiset<Pair>, ghost b: multiset<Pair>)
    returns (list: seq<Pair>)
    requires 0 < k <= KNN_K && |left| == k && TopOf(left, a) && Indexed(left) && Indexed(right)
    requires if right == [] then b == multiset{} else |right| == k && TopOf(right, b)
    ensures |list| == k && TopOf(list, a + b) && Indexed(list)
  {
    var width := MergeWidth(k);
    var sorted := SortBlock(left + right, width);
    list := sorted[..k];
    assert multiset(left + right) == multiset(left) + multiset(right);
    if right != [] {
      MergeTop(left, right, a, b, sorted, KNN_THREADS - 2 * k, k);
    } else {
      ghost var none := seq(k, _ => SENTINEL);
      PadsAreTop(k);
      PadIsPads(k);
      assert Pads(KNN_THREADS - k) == Pads(k) + Pads(KNN_THREADS - 2 * k);
      MergeTop(left, none, a, b, sorted, KNN_THREADS - 2 * k, k);
    }
    SortedIndexed(sorted, left + right);
  }

  lemma SortedIndexed(t: seq<Pair>, fill: seq<Pair>)
    requires Indexed(fill) && |fill| <= KNN_THREADS
    requires multiset(t) == multiset(fill) + Pads(KNN_THREADS - |fill|)
    ensures Indexed(t)
  {
    forall i | 0 <= i < |t| ensures t[i].index <= U32_MAX {
      assert t[i] in multiset(t);
      assert t[i] in multiset(fill) || t[i] == SENTINEL;
      if t[i] in multiset(fill) {
        assert t[i] in fill;
      }
    }
  }

  // Each list is the top of the rows it stands for.
  ghost predicate Covered(lists: seq<seq<Pair>>, covers: seq<multiset<Pair>>, k: nat) {
    && |lists| == |covers|
    && forall j :: 0 <= j < |lists| ==> |lists[j]| == k && TopOf(lists[j], covers[j]) && Indexed(lists[j])
  }

  ghost function Total(covers: seq<multiset<Pair>>): multiset<Pair> {
    if covers == [] then multiset{} else covers[0] + Total(covers[1..])
  }

  // What the lists stand for after one round.
  ghost function Paired(covers: seq<multiset<Pair>>): (p: seq<multiset<Pair>>)
    ensures |p| == (|covers| + 1) / 2
    ensures forall j :: 0 <= j < |p| ==>
        p[j] == covers[2 * j] + if 2 * j + 1 < |covers| then covers[2 * j + 1] else multiset{}
  {
    if covers == [] then []
    else if |covers| == 1 then [covers[0] + multiset{}]
    else [covers[0] + covers[1]] + Paired(covers[2..])
  }

  lemma {:induction false} PairedTotal(covers: seq<multiset<Pair>>)
    ensures Total(Paired(covers)) == Total(covers)
  {
    if |covers| == 1 {
      assert Paired(covers)[1..] == [] && covers[1..] == [];
    } else if |covers| > 1 {
      PairedTotal(covers[2..]);
      assert Paired(covers)[1..] == Paired(covers[2..]);
      assert covers[1..][1..] == covers[2..];
    }
  }

  method MergePair(input: seq<seq<Pair>>, k: nat, local: nat, ghost covers: seq<multiset<Pair>>)
    returns (list: seq<Pair>)
    requires 0 < k <= KNN_K && Covered(input, covers, k) && local < (|input| + 1) / 2
    ensures |list| == k && TopOf(list, Paired(covers)[local]) && Indexed(list)
  {
    var right: seq<Pair> := if 2 * local + 1 < |input| then input[2 * local + 1] else [];
    list := MergeLists(input[2 * local], right, k, covers[2 * local],
                       if 2 * local + 1 < |input| then covers[2 * local + 1] else multiset{});
  }

  lemma CoveredNext(lists: seq<seq<Pair>>, list: seq<Pair>, covers: seq<multiset<Pair>>, k: nat)
    requires |lists| < |covers| && Covered(lists, covers[..|lists|], k)
    requires |list| == k && TopOf(list, covers[|lists|]) && Indexed(list)
    ensures Covered(lists + [list], covers[..|lists| + 1], k)
  {
  }

  method MergeRound(input: seq<seq<Pair>>, k: nat, ghost covers: seq<multiset<Pair>>) returns (output: seq<seq<Pair>>)
    requires 0 < k <= KNN_K && Covered(input, covers, k)
    ensures Covered(output, Paired(covers), k)
  {
    output := [];
    var outputLists := (|input| + 1) / 2;
    ghost var paired := Paired(covers);
    for local := 0 to outputLists
      invariant |output| == local
      invariant Covered(output, paired[..local], k)
    {
      var list := MergePair(input, k, local, covers);
      CoveredNext(output, list, paired, k);
      output := output + [list];
    }
    assert paired[..outputLists] == paired;
  }

  // Every query's lists in one buffer; covers says what they stand for.
  ghost predicate Buffered(buffer: seq<seq<seq<Pair>>>, covers: seq<seq<multiset<Pair>>>, lists: nat, k: nat) {
    && |covers| <= |buffer|
    && forall q :: 0 <= q < |covers| ==> |covers[q]| == lists && Covered(buffer[q], covers[q], k)
  }

  ghost predicate Totals(covers: seq<seq<multiset<Pair>>>, rows: seq<multiset<Pair>>) {
    |covers| <= |rows| && forall q :: 0 <= q < |covers| ==> Total(covers[q]) == rows[q]
  }

  // One more query's list in place.
  lemma BufferedNext(before: seq<seq<seq<Pair>>>, after: seq<seq<seq<Pair>>>, next: seq<seq<multiset<Pair>>>,
                     cover: seq<multiset<Pair>>, lists: nat, k: nat)
    requires Buffered(before, next, lists, k) && |next| < |before| == |after|
    requires forall q :: 0 <= q < |next| ==> after[q] == before[q]
    requires |cover| == lists && Covered(after[|next|], cover, k)
    ensures Buffered(after, next + [cover], lists, k)
  {
  }

  method RoundOver(source: array<seq<seq<Pair>>>, target: array<seq<seq<Pair>>>, queries: nat, lists: nat, k: nat,
                   ghost covers: seq<seq<multiset<Pair>>>, ghost rows: seq<multiset<Pair>>)
    returns (ghost next: seq<seq<multiset<Pair>>>)
    requires source != target && 0 < k <= KNN_K && |covers| == queries <= target.Length
    requires Buffered(source[..], covers, lists, k) && Totals(covers, rows)
    modifies target
    ensures |next| == queries && Buffered(target[..], next, (lists + 1) / 2, k) && Totals(next, rows)
  {
    next := [];
    for query := 0 to queries
      invariant |next| == query && Totals(next, rows)
      invariant Buffered(target[..], next, (lists + 1) / 2, k)
    {
      assert source[..][query] == source[query];
      PairedTotal(covers[query]);
      ghost var before := target[..];
      var merged := MergeRound(source[query], k, covers[query]);
      target[query] := merged;
      BufferedNext(before, target[..], next, Paired(covers[query]), (lists + 1) / 2, k);
      next := next + [Paired(covers[query])];
    }
  }

  // Rounds until one list is left per query. The flag names the buffer that holds it.
  method LaunchMerge(a: array<seq<seq<Pair>>>, b: array<seq<seq<Pair>>>, queries: nat, lists: nat, k: nat,
                     ghost covers: seq<seq<multiset<Pair>>>, ghost rows: seq<multiset<Pair>>)
    returns (inputA: bool, ghost final: seq<seq<multiset<Pair>>>)
    requires a != b && 0 < k <= KNN_K && lists > 0
    requires |covers| == queries <= a.Length && queries <= b.Length
    requires Buffered(a[..], covers, lists, k) && Totals(covers, rows)
    modifies a, b
    ensures |final| == queries && Totals(final, rows)
    ensures Buffered(if inputA then a[..] else b[..], final, 1, k)
  {
    inputA, final := true, covers;
    var inputLists := lists;
    while inputLists > 1
      invariant inputLists > 0 && |final| == queries && Totals(final, rows)
      invariant Buffered(if inputA then a[..] else b[..], final, inputLists, k)
    {
      if inputA {
        final := RoundOver(a, b, queries, inputLists, k, final, rows);
      } else {
        final := RoundOver(b, a, queries, inputLists, k, final, rows);
      }
      inputA := !inputA;
      inputLists := (inputLists + 1) / 2;
    }
  }

  // ---------------------------------------------------------------- the tiles of all rows

  function ListCount(rows: nat, tileRows: nat): nat
    requires tileRows > 0
  {
    (rows + tileRows - 1) / tileRows
  }

  function Rest(s: seq<Pair>, tileRows: nat): seq<Pair> {
    if |s| <= tileRows then [] else s[tileRows..]
  }

  ghost function TileCovers(s: seq<Pair>, tileRows: nat): seq<multiset<Pair>>
    requires tileRows > 0
    decreases |s|
  {
    if s == [] then [] else [multiset(Upto(s, tileRows))] + TileCovers(Rest(s, tileRows), tileRows)
  }

  lemma ListCountPositive(rows: nat, tileRows: nat)
    requires tileRows > 0 && rows > 0
    ensures ListCount(rows, tileRows) > 0
  {
    var n := rows + tileRows - 1;
    assert n == (n / tileRows) * tileRows + n % tileRows;
  }

  lemma {:induction false} TilesCount(s: seq<Pair>, tileRows: nat)
    requires tileRows > 0
    ensures |TileCovers(s, tileRows)| == ListCount(|s|, tileRows)
  {
    var n := |s| + tileRows - 1;
    if |s| == 0 {
      DivUnique(n, tileRows, 0, n);
    } else if |s| <= tileRows {
      DivUnique(n, tileRows, 1, |s| - 1);
    } else {
      TilesCount(Rest(s, tileRows), tileRows);
      var m := n - tileRows;
      assert m == (m / tileRows) * tileRows + m % tileRows;
      assert (m / tileRows + 1) * tileRows == (m / tileRows) * tileRows + tileRows;
      DivUnique(n, tileRows, m / tileRows + 1, m % tileRows);
    }
  }

  // The tiles together hold every row once.
  lemma {:induction false} TilesTotal(s: seq<Pair>, tileRows: nat)
    requires tileRows > 0
    ensures Total(TileCovers(s, tileRows)) == multiset(s)
    decreases |s|
  {
    if s != [] {
      TilesTotal(Rest(s, tileRows), tileRows);
      assert s == Upto(s, tileRows) + Rest(s, tileRows);
      assert TileCovers(s, tileRows)[1..] == TileCovers(Rest(s, tileRows), tileRows);
    }
  }

  // The tile with a given number starts at that many whole tiles.
  lemma {:induction false} TileAt(s: seq<Pair>, tileRows: nat, tile: nat)
    requires tileRows > 0 && tile < |TileCovers(s, tileRows)|
    ensures tile * tileRows < |s|
    ensures TileCovers(s, tileRows)[tile] == multiset(Tile(s, tile, tileRows))
  {
    if tile == 0 {
      assert 0 * tileRows == 0 && s[0..] == s;
    } else {
      TileAt(Rest(s, tileRows), tileRows, tile - 1);
      TileShift(s, tileRows, tile);
    }
  }

  lemma TileShift(s: seq<Pair>, tileRows: nat, tile: nat)
    requires tile > 0 && tileRows < |s| && (tile - 1) * tileRows <= |s| - tileRows
    ensures tile * tileRows <= |s| && tile * tileRows == (tile - 1) * tileRows + tileRows
    ensures Tile(s, tile, tileRows) == Tile(Rest(s, tileRows), tile - 1, tileRows)
  {
    assert tile * tileRows == (tile - 1) * tileRows + tileRows;
    assert s[tileRows..][(tile - 1) * tileRows..] == s[tile * tileRows..];
  }

  // ---------------------------------------------------------------- a staged search

  method ScanQuery(distances: seq<Distance>, tileRows: nat, lists: nat, k: nat) returns (found: seq<seq<Pair>>)
    requires SortWidth(tileRows) && tileRows <= KNN_THREADS && 0 < k <= KNN_K && |distances| <= U32_MAX
    requires lists == ListCount(|distances|, tileRows)
    ensures Covered(found, TileCovers(RowPairs(distances), tileRows), k)
  {
    found := [];
    ghost var s := RowPairs(distances);
    ghost var covers := TileCovers(s, tileRows);
    TilesCount(s, tileRows);
    for tile := 0 to lists
      invariant |found| == tile
      invariant Covered(found, covers[..tile], k)
    {
      TileAt(s, tileRows, tile);
      var list := ScanTile(distances, tile, tileRows, k);
      CoveredNext(found, list, covers, k);
      found := found + [list];
    }
    assert covers[..lists] == covers;
  }

  // Scan every query's tiles into the first buffer, then merge.
  method StageSearch(a: array<seq<seq<Pair>>>, b: array<seq<seq<Pair>>>, distances: seq<seq<Distance>>, rows: nat,
                     tileRows: nat, k: nat) returns (inputA: bool)
    requires a != b && |distances| <= a.Length && |distances| <= b.Length
    requires SortWidth(tileRows) && tileRows <= KNN_THREADS && 0 < k <= KNN_K && k <= rows <= U32_MAX
    requires forall q :: 0 <= q < |distances| ==> |distances[q]| == rows
    modifies a, b
    ensures forall q :: 0 <= q < |distances| ==>
        (if inputA then a[q] else b[q]) == [Nearest(distances[q], k)]
  {
    var lists := (rows + tileRows - 1) / tileRows;
    ListCountPositive(rows, tileRows);
    ghost var covers: seq<seq<multiset<Pair>>>, all: seq<multiset<Pair>> := [], [];
    for query := 0 to |distances|
      invariant |covers| == query && |all| == query && Totals(covers, all)
      invariant Buffered(a[..], covers, lists, k)
      invariant forall q :: 0 <= q < query ==> all[q] == multiset(RowPairs(distances[q]))
    {
      TilesTotal(RowPairs(distances[query]), tileRows);
      TilesCount(RowPairs(distances[query]), tileRows);
      a[query] := ScanQuery(distances[query], tileRows, lists, k);
      covers := covers + [TileCovers(RowPairs(distances[query]), tileRows)];
      all := all + [multiset(RowPairs(distances[query]))];
    }
    ghost var final;
    inputA, final := LaunchMerge(a, b, |distances|, lists, k, covers, all);
    forall q | 0 <= q < |distances| ensures (if inputA then a[q] else b[q]) == [Nearest(distances[q], k)] {
      OneList(if inputA then a[q] else b[q], final[q], distances[q], k);
    }
  }

  lemma OneList(lists: seq<seq<Pair>>, covers: seq<multiset<Pair>>, distances: seq<Distance>, k: nat)
    requires |covers| == 1 && Covered(lists, covers, k) && k <= |distances| <= U32_MAX
    requires Total(covers) == multiset(RowPairs(distances))
    ensures lists == [Nearest(distances, k)]
  {
    var s := RowPairs(distances);
    assert covers[1..] == [] && Total(covers) == covers[0];
    StableIsSorted(s);
    var t := StableSort(s);
    forall i | 0 <= i < |t| ensures t[i].index < U32_MAX {
      assert t[i] in multiset(t);
      assert t[i] in s;
    }
    assert TopOf(lists[0], multiset(t));
    TopIsPrefix(lists[0], t);
  }
}
