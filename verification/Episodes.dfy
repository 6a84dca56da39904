// Choosing evaluation episodes: at most one window per document, and buckets picked by weighted
// fair selection.

module Episodes {
  import opened Wrappers
  import opened Pools

  // A pool: the bucket and source it is read for, and its file.
  datatype Place = Place(bucket: string, source: string, path: string)

  datatype Row = Row(place: Place, document: Found, start: nat, prompt: seq<nat>, expected: seq<nat>)

  datatype Setup = Setup(prompt: nat, generated: nat)

  predicate ValidSetup(c: Setup) { c.prompt >= 1 && c.generated >= 1 }

  function Window(c: Setup): nat { c.prompt + c.generated }

  // A row is one full window inside its document.
  ghost predicate Inside(c: Setup, r: Row) {
    && r.start + Window(c) <= |r.document.tokens|
    && r.prompt + r.expected == r.document.tokens[r.start..r.start + Window(c)]
    && |r.prompt| == c.prompt
  }

  function Stride(c: Setup): nat {
    if Window(c) / 4 < 1 then 1 else Window(c) / 4
  }

  // How many windows a document of that length offers.
  function Windows(c: Setup, length: nat): nat
    requires ValidSetup(c)
  {
    if length < Window(c) then 0 else (length - Window(c)) / Stride(c) + 1
  }

  // Windows start a quarter of their length apart, at least one token; a document offers all that fit.
  lemma WindowsFill(c: Setup, length: nat)
    requires ValidSetup(c)
    ensures var stride := Stride(c);
      && stride >= 1 && (stride == 1 || 4 * stride <= c.prompt + c.generated)
      && 4 * (stride + 1) > c.prompt + c.generated
    ensures forall k: nat :: k < Windows(c, length) <==> k * Stride(c) + (c.prompt + c.generated) <= length
  {
    forall k: nat ensures k < Windows(c, length) <==> k * Stride(c) + Window(c) <= length {
      if k < Windows(c, length) {
        WindowFits(c, length, k);
      } else if Window(c) <= length {
        WindowMisses(length - Window(c), Stride(c), k);
      } else {
        assert k * Stride(c) >= 0;
      }
    }
  }

  lemma WindowMisses(room: nat, stride: nat, k: nat)
    requires stride > 0 && k >= room / stride + 1
    ensures k * stride > room
  {
    assert room == (room / stride) * stride + room % stride;
    assert (k - room / stride - 1) * stride >= 0;
  }

  // Documents of one pool start at different offsets.
  ghost predicate Apart(found: seq<Found>) {
    forall i, j :: 0 <= i < j < |found| ==> found[i].offset != found[j].offset
  }

  ghost predicate SameDocument(r: Row, s: Row) {
    r.place.path == s.place.path && r.document.offset == s.document.offset
  }

  // No two rows share a document.
  ghost predicate OnePerDocument(rows: seq<Row>) {
    forall i, j :: 0 <= i < j < |rows| ==> !SameDocument(rows[i], rows[j])
  }

  // Picks one of the windows a document offers.
  type Chooser = (Place, nat, nat) -> nat

  ghost predicate Chooses(choose: Chooser) {
    forall place, offset, n :: n > 0 ==> choose(place, offset, n) < n
  }

  // The row picked for a document, if it is long enough.
  function Picked(c: Setup, place: Place, d: Found, choose: Chooser): (r: Option<Row>)
    requires ValidSetup(c) && Chooses(choose)
    ensures r.Some? <==> |d.tokens| >= Window(c)
    ensures r.Some? ==> Inside(c, r.value) && r.value.place == place && r.value.document == d
  {
    var offered := Windows(c, |d.tokens|);
    if offered == 0 then None
    else
      var start := Start(c, |d.tokens|, choose(place, d.offset, offered));
      var values := d.tokens[start..start + Window(c)];
      Some(Row(place, d, start, values[..c.prompt], values[c.prompt..]))
  }

  function Start(c: Setup, length: nat, k: nat): (start: nat)
    requires ValidSetup(c) && k < Windows(c, length)
    ensures start + Window(c) <= length
  {
    WindowFits(c, length, k);
    k * Stride(c)
  }

  function Rows(c: Setup, place: Place, found: seq<Found>, choose: Chooser): seq<Row>
    requires ValidSetup(c) && Chooses(choose)
  {
    if found == [] then []
    else
      var row := Picked(c, place, found[|found| - 1], choose);
      Rows(c, place, found[..|found| - 1], choose) + (if row.Some? then [row.value] else [])
  }

  // One window of every document long enough, chosen by `choose` among those it offers.
  method PoolRows(c: Setup, place: Place, found: seq<Found>, choose: Chooser) returns (rows: seq<Row>)
    requires ValidSetup(c) && Chooses(choose)
    ensures rows == Rows(c, place, found, choose)
    ensures Apart(found) ==> OnePerDocument(rows)
    ensures forall i :: 0 <= i < |rows| ==> Inside(c, rows[i]) && rows[i].place == place && rows[i].document in found
    ensures forall d :: d in found && |d.tokens| >= Window(c) ==> exists i :: 0 <= i < |rows| && rows[i].document == d
  {
    rows := [];
    for n := 0 to |found|
      invariant rows == Rows(c, place, found[..n], choose)
    {
      assert found[..n + 1][..n] == found[..n];
      var row := Picked(c, place, found[n], choose);
      if row.Some? {
        rows := rows + [row.value];
      }
    }
    assert found[..|found|] == found;
    RowsAre(c, place, found, choose);
    if Apart(found) {
      RowsApart(c, place, found, choose);
    }
  }

  lemma {:induction false} RowsAre(c: Setup, place: Place, found: seq<Found>, choose: Chooser)
    requires ValidSetup(c) && Chooses(choose)
    ensures forall r :: r in Rows(c, place, found, choose) ==> Inside(c, r) && r.place == place && r.document in found
    ensures forall d :: d in found && |d.tokens| >= Window(c) ==>
      exists i :: 0 <= i < |Rows(c, place, found, choose)| && Rows(c, place, found, choose)[i].document == d
    decreases |found|
  {
    if found != [] {
      var front, last := found[..|found| - 1], found[|found| - 1];
      var earlier, rows := Rows(c, place, front, choose), Rows(c, place, found, choose);
      assert found == front + [last];
      RowsAre(c, place, front, choose);
      forall d | d in found && |d.tokens| >= Window(c) ensures exists i :: 0 <= i < |rows| && rows[i].document == d {
        if d in front {
          var i :| 0 <= i < |earlier| && earlier[i].document == d;
          assert rows[i].document == d;
        } else {
          assert rows[|rows| - 1].document == d;
        }
      }
    }
  }

  lemma {:induction false} RowsApart(c: Setup, place: Place, found: seq<Found>, choose: Chooser)
    requires ValidSetup(c) && Chooses(choose) && Apart(found)
    ensures OnePerDocument(Rows(c, place, found, choose))
    decreases |found|
  {
    if found != [] {
      var front := found[..|found| - 1];
      RowsApart(c, place, front, choose);
      RowsAre(c, place, front, choose);
    }
  }

  lemma WindowFits(c: Setup, length: nat, k: nat)
    requires ValidSetup(c) && k < Windows(c, length)
    ensures k * Stride(c) + Window(c) <= length
  {
    var room, stride := length - Window(c), Stride(c);
    assert room == (room / stride) * stride + room % stride;
    assert k <= room / stride;
    assert (room / stride - k) * stride >= 0;
  }

  // ---------------------------------------------------------------- shuffling

  lemma {:induction false} CountAtMostOne(rows: seq<Row>, r: Row)
    requires OnePerDocument(rows)
    ensures multiset(rows)[r] <= 1
    decreases |rows|
  {
    if rows != [] {
      var rest := rows[1..];
      assert rows == [rows[0]] + rest;
      CountAtMostOne(rest, r);
    }
  }

  // Any reordering keeps one row per document.
  lemma ShuffleKeeps(rows: seq<Row>, shuffled: seq<Row>)
    requires OnePerDocument(rows) && multiset(rows) == multiset(shuffled)
    ensures OnePerDocument(shuffled)
  {
    forall i, j | 0 <= i < j < |shuffled| ensures !SameDocument(shuffled[i], shuffled[j]) {
      var r, s := shuffled[i], shuffled[j];
      assert r in multiset(rows) && s in multiset(rows);
      var p :| 0 <= p < |rows| && rows[p] == r;
      var q :| 0 <= q < |rows| && rows[q] == s;
      if SameDocument(r, s) {
        assert p == q;
        TwiceIn(shuffled, i, j);
        CountAtMostOne(rows, r);
      }
    }
  }

  // ---------------------------------------------------------------- fair selection

  // One picked episode and the place in its bucket it was popped from.
  datatype Pick = Pick(bucket: string, place: nat)

  function Available(buckets: seq<string>, candidates: map<string, seq<Row>>): seq<string>
    requires forall b :: b in buckets ==> b in candidates
  {
    if buckets == [] then []
    else (if candidates[buckets[0]] != [] then [buckets[0]] else []) + Available(buckets[1..], candidates)
  }

  lemma {:induction false} InAvailable(buckets: seq<string>, candidates: map<string, seq<Row>>, b: string)
    requires forall b :: b in buckets ==> b in candidates
    ensures b in Available(buckets, candidates) <==> b in buckets && candidates[b] != []
    decreases |buckets|
  {
    if buckets != [] {
      InAvailable(buckets[1..], candidates, b);
    }
  }

  // used[a] / quota[a] <= used[b] / quota[b], without dividing.
  predicate NoFuller(used: map<string, nat>, quotas: map<string, nat>, a: string, b: string)
    requires a in used && b in used && a in quotas && b in quotas
  {
    AtMost(used[a], quotas[a], used[b], quotas[b])
  }

  // x / p <= y / q
  predicate AtMost(x: int, p: nat, y: int, q: nat) { x * q <= y * p }

  lemma AtMostDivides(x: int, p: nat, y: int, q: nat)
    requires p > 0 && q > 0
    ensures AtMost(x, p, y, q) <==> x as real / p as real <= y as real / q as real
  {
    var a, b, u, v := x as real, p as real, y as real, q as real;
    assert a == (a / b) * b && u == (u / v) * v;
    CrossMultiplied(a / b, b, u / v, v);
    assert (x * q) as real == a * v && (y * p) as real == u * b;
  }

  lemma CrossMultiplied(s: real, b: real, t: real, v: real)
    requires b > 0.0 && v > 0.0
    ensures s <= t <==> (s * b) * v <= (t * v) * b
  {
    assert (s * b) * v == s * (b * v) && (t * v) * b == t * (b * v);
    var m := b * v;
    assert m > 0.0;
    if s <= t {
      assert (t - s) * m >= 0.0;
    } else {
      assert (s - t) * m > 0.0;
    }
  }

  // The first of the least used buckets.
  method LeastUsed(available: seq<string>, used: map<string, nat>, quotas: map<string, nat>) returns (least: string)
    requires available != [] && forall b :: b in available ==> b in used && b in quotas && quotas[b] > 0
    ensures least in available
    ensures forall b :: b in available ==> NoFuller(used, quotas, least, b)
  {
    least := available[0];
    for n := 1 to |available|
      invariant least in available
      invariant forall i :: 0 <= i < n ==> NoFuller(used, quotas, least, available[i])
    {
      var b := available[n];
      if !NoFuller(used, quotas, least, b) {
        forall i | 0 <= i < n ensures NoFuller(used, quotas, b, available[i]) {
          Transitive(used[b], quotas[b], used[least], quotas[least], used[available[i]], quotas[available[i]]);
        }
        least := b;
      }
    }
  }

  lemma Scale(x: nat, y: nat, k: nat)
    requires x <= y
    ensures x * k <= y * k
  {
  }

  lemma Unscale(x: nat, y: nat, k: nat)
    requires k > 0 && x * k <= y * k
    ensures x <= y
  {
    if y < x {
      Scale(y + 1, x, k);
    }
  }

  lemma Transitive(a: nat, p: nat, b: nat, q: nat, c: nat, r: nat)
    requires p > 0 && q > 0 && r > 0 && a * q <= b * p && b * r <= c * q
    ensures a * r <= c * p
  {
    Scale(a * q, b * p, r);
    Scale(b * r, c * q, p);
    assert (a * q) * r == (a * r) * q && (b * p) * r == (b * r) * p && (c * q) * p == (c * p) * q;
    Unscale(a * r, c * p, q);
  }

  // Whoever was picked was, just before, no fuller than any bucket that still has candidates.
  ghost predicate Fair(
    buckets: seq<string>, used: map<string, nat>, quotas: map<string, nat>, candidates: map<string, seq<Row>>)
    requires forall b :: b in buckets ==> b in used && b in quotas && b in candidates
  {
    forall a, b :: a in buckets && b in buckets && used[a] > 0 && candidates[b] != [] ==>
      AtMost(used[a] - 1, quotas[a], used[b], quotas[b])
  }

  // ---------------------------------------------------------------- the selection loop

  datatype Selection = Selection(
    selected: seq<Row>, picks: seq<Pick>, used: map<string, nat>, candidates: map<string, seq<Row>>)

  predicate Offered(buckets: seq<string>, quotas: map<string, nat>, rows: map<string, seq<Row>>) {
    forall b :: b in buckets ==> b in quotas && b in rows && quotas[b] > 0
  }

  // What is left of every bucket is what was not popped from its end.
  ghost predicate Popped(buckets: seq<string>, rows: map<string, seq<Row>>, s: Selection)
    requires forall b :: b in buckets ==> b in rows
  {
    && (forall b :: b in buckets ==> b in s.used && b in s.candidates && s.used[b] <= |rows[b]|)
    && (forall b :: b in buckets ==> s.candidates[b] == rows[b][..|rows[b]| - s.used[b]])
  }

  // Every selected row sits at its place of its bucket, and every popped place was taken once.
  ghost predicate Placed(buckets: seq<string>, rows: map<string, seq<Row>>, s: Selection)
    requires forall b :: b in buckets ==> b in rows && b in s.used
  {
    && |s.picks| == |s.selected|
    && (forall i :: 0 <= i < |s.picks| ==>
      var p := s.picks[i];
      p.bucket in buckets && |rows[p.bucket]| - s.used[p.bucket] <= p.place < |rows[p.bucket]|
      && s.selected[i] == rows[p.bucket][p.place])
    && (forall i, j :: 0 <= i < j < |s.picks| ==> s.picks[i] != s.picks[j])
    && (forall b, p: nat :: b in buckets && |rows[b]| - s.used[b] <= p < |rows[b]| ==> Pick(b, p) in s.picks)
  }

  ghost predicate Progress(buckets: seq<string>, quotas: map<string, nat>, rows: map<string, seq<Row>>, s: Selection)
    requires Offered(buckets, quotas, rows)
  {
    Popped(buckets, rows, s) && Placed(buckets, rows, s) && Fair(buckets, s.used, quotas, s.candidates)
  }

  function Left(buckets: seq<string>, candidates: map<string, seq<Row>>): nat
    requires forall b :: b in buckets ==> b in candidates
  {
    if buckets == [] then 0 else |candidates[buckets[0]]| + Left(buckets[1..], candidates)
  }

  lemma {:induction false} LeftPops(
    buckets: seq<string>, before: map<string, seq<Row>>, after: map<string, seq<Row>>, bucket: string)
    requires forall b :: b in buckets ==> b in before && b in after
    requires forall b :: b in buckets && b != bucket ==> after[b] == before[b]
    requires bucket in before && bucket in after && |after[bucket]| + 1 == |before[bucket]|
    requires forall i, j :: 0 <= i < j < |buckets| ==> buckets[i] != buckets[j]
    ensures Left(buckets, before) == Left(buckets, after) + (if bucket in buckets then 1 else 0)
    decreases |buckets|
  {
    if buckets != [] {
      assert buckets == [buckets[0]] + buckets[1..];
      LeftPops(buckets[1..], before, after, bucket);
    }
  }

  lemma {:induction false} NothingLeft(buckets: seq<string>, candidates: map<string, seq<Row>>)
    requires forall b :: b in buckets ==> b in candidates
    ensures Left(buckets, candidates) == 0 <==> forall b :: b in buckets ==> candidates[b] == []
    decreases |buckets|
  {
    if buckets != [] {
      assert buckets == [buckets[0]] + buckets[1..];
      NothingLeft(buckets[1..], candidates);
    }
  }

  // Takes the last candidate of the least used bucket.
  function Take(s: Selection, bucket: string): Selection
    requires bucket in s.used && bucket in s.candidates && s.candidates[bucket] != []
  {
    var last := |s.candidates[bucket]| - 1;
    Selection(
      s.selected + [s.candidates[bucket][last]], s.picks + [Pick(bucket, last)],
      s.used[bucket := s.used[bucket] + 1], s.candidates[bucket := s.candidates[bucket][..last]])
  }

  method PickOne(buckets: seq<string>, quotas: map<string, nat>, rows: map<string, seq<Row>>, s: Selection)
    returns (next: Option<Selection>)
    requires Offered(buckets, quotas, rows) && Progress(buckets, quotas, rows, s)
    requires forall i, j :: 0 <= i < j < |buckets| ==> buckets[i] != buckets[j]
    ensures next.None? <==> Left(buckets, s.candidates) == 0
    ensures next.Some? ==> Progress(buckets, quotas, rows, next.value) && |next.value.selected| == |s.selected| + 1
    ensures next.Some? ==> Left(buckets, next.value.candidates) + 1 == Left(buckets, s.candidates)
  {
    var available := Available(buckets, s.candidates);
    forall b ensures b in available <==> b in buckets && s.candidates[b] != [] {
      InAvailable(buckets, s.candidates, b);
    }
    NothingLeft(buckets, s.candidates);
    if available == [] {
      return None;
    }
    assert available[0] in available;
    var bucket := LeastUsed(available, s.used, quotas);
    var t := Take(s, bucket);
    StaysFair(buckets, quotas, s, bucket);
    StaysPopped(buckets, rows, s, bucket);
    StaysPlaced(buckets, rows, s, bucket);
    LeftPops(buckets, s.candidates, t.candidates, bucket);
    next := Some(t);
  }

  lemma StaysPopped(buckets: seq<string>, rows: map<string, seq<Row>>, s: Selection, bucket: string)
    requires forall b :: b in buckets ==> b in rows
    requires Popped(buckets, rows, s) && bucket in buckets && s.candidates[bucket] != []
    ensures Popped(buckets, rows, Take(s, bucket))
  {
  }

  lemma StaysPlaced(buckets: seq<string>, rows: map<string, seq<Row>>, s: Selection, bucket: string)
    requires forall b :: b in buckets ==> b in rows
    requires Popped(buckets, rows, s) && Placed(buckets, rows, s) && bucket in buckets && s.candidates[bucket] != []
    ensures Placed(buckets, rows, Take(s, bucket))
  {
    var t, last := Take(s, bucket), Pick(bucket, |s.candidates[bucket]| - 1);
    assert t.picks == s.picks + [last] && last !in s.picks;
    forall b, p: nat | b in buckets && |rows[b]| - t.used[b] <= p < |rows[b]| ensures Pick(b, p) in t.picks {
      assert Pick(b, p) == last || Pick(b, p) in s.picks;
    }
  }

  lemma GrowsFairly(x: nat, p: nat, y: nat, z: nat, q: nat)
    requires AtMost(x, p, y, q) && y <= z
    ensures AtMost(x, p, z, q)
  {
    Scale(y, z, p);
  }

  lemma StaysFair(buckets: seq<string>, quotas: map<string, nat>, s: Selection, bucket: string)
    requires forall b :: b in buckets ==> b in s.used && b in quotas && b in s.candidates
    requires Fair(buckets, s.used, quotas, s.candidates) && bucket in buckets && s.candidates[bucket] != []
    requires forall b :: b in buckets && s.candidates[b] != [] ==> NoFuller(s.used, quotas, bucket, b)
    ensures Fair(buckets, Take(s, bucket).used, quotas, Take(s, bucket).candidates)
  {
    var t := Take(s, bucket);
    forall a, b | a in buckets && b in buckets && t.used[a] > 0 && t.candidates[b] != []
      ensures AtMost(t.used[a] - 1, quotas[a], t.used[b], quotas[b])
    {
      assert s.candidates[b] != [];
      if a == bucket {
        assert NoFuller(s.used, quotas, bucket, b);
      }
      assert AtMost(t.used[a] - 1, quotas[a], s.used[b], quotas[b]);
      GrowsFairly(t.used[a] - 1, quotas[a], s.used[b], t.used[b], quotas[b]);
    }
  }

  // Selects `count` episodes, or fails exactly when the buckets hold fewer.
  method Select(buckets: seq<string>, quotas: map<string, nat>, rows: map<string, seq<Row>>, count: nat)
    returns (r: Option<Selection>)
    requires Offered(buckets, quotas, rows)
    requires forall i, j :: 0 <= i < j < |buckets| ==> buckets[i] != buckets[j]
    ensures r.Some? <==> Left(buckets, rows) >= count
    ensures r.Some? ==> |r.value.selected| == count && Progress(buckets, quotas, rows, r.value)
    ensures r.Some? ==> Left(buckets, r.value.candidates) + count == Left(buckets, rows)
  {
    var s := Selection([], [], map b | b in buckets :: 0, rows);
    while |s.selected| < count
      invariant Progress(buckets, quotas, rows, s) && |s.selected| <= count
      invariant Left(buckets, s.candidates) + |s.selected| == Left(buckets, rows)
      decreases count - |s.selected|
    {
      var next := PickOne(buckets, quotas, rows, s);
      if next.None? {
        return None;
      }
      s := next.value;
    }
    r := Some(s);
  }

  // No candidates of two buckets share a document, nor two of one.
  ghost predicate Scattered(buckets: seq<string>, rows: map<string, seq<Row>>)
    requires forall b :: b in buckets ==> b in rows
  {
    && (forall b :: b in buckets ==> OnePerDocument(rows[b]))
    && (forall a, b :: a in buckets && b in buckets && a != b ==> Disjoint(rows[a], rows[b]))
  }

  ghost predicate Disjoint(rows: seq<Row>, others: seq<Row>) {
    forall r, s :: r in rows && s in others ==> !SameDocument(r, s)
  }

  // Then no document is used twice.
  lemma SelectedApart(buckets: seq<string>, quotas: map<string, nat>, rows: map<string, seq<Row>>, s: Selection)
    requires Offered(buckets, quotas, rows) && Progress(buckets, quotas, rows, s) && Scattered(buckets, rows)
    ensures OnePerDocument(s.selected)
  {
    forall i, j | 0 <= i < j < |s.selected| ensures !SameDocument(s.selected[i], s.selected[j]) {
      var p, q := s.picks[i], s.picks[j];
      assert s.selected[i] == rows[p.bucket][p.place] && s.selected[j] == rows[q.bucket][q.place];
      if p.bucket == q.bucket {
        assert p.place != q.place;
        var low, high := if p.place < q.place then p.place else q.place, if p.place < q.place then q.place else p.place;
        assert !SameDocument(rows[p.bucket][low], rows[p.bucket][high]);
      }
    }
  }

  // And once everything is selected, only then.
  lemma AllSelectedApart(buckets: seq<string>, quotas: map<string, nat>, rows: map<string, seq<Row>>, s: Selection)
    requires Offered(buckets, quotas, rows) && Progress(buckets, quotas, rows, s)
    requires forall b :: b in buckets ==> s.candidates[b] == []
    requires OnePerDocument(s.selected)
    ensures Scattered(buckets, rows)
  {
    forall b, i, j | b in buckets && 0 <= i < j < |rows[b]| ensures !SameDocument(rows[b][i], rows[b][j]) {
      TakenApart(buckets, rows, s, Pick(b, i), Pick(b, j));
    }
    forall a, b, r, e | a in buckets && b in buckets && a != b && r in rows[a] && e in rows[b]
      ensures !SameDocument(r, e)
    {
      var i :| 0 <= i < |rows[a]| && rows[a][i] == r;
      var j :| 0 <= j < |rows[b]| && rows[b][j] == e;
      TakenApart(buckets, rows, s, Pick(a, i), Pick(b, j));
    }
  }

  lemma TakenApart(buckets: seq<string>, rows: map<string, seq<Row>>, s: Selection, p: Pick, q: Pick)
    requires forall b :: b in buckets ==> b in rows
    requires Popped(buckets, rows, s) && Placed(buckets, rows, s) && OnePerDocument(s.selected) && p != q
    requires p.bucket in buckets && p.place < |rows[p.bucket]| && s.candidates[p.bucket] == []
    requires q.bucket in buckets && q.place < |rows[q.bucket]| && s.candidates[q.bucket] == []
    ensures !SameDocument(rows[p.bucket][p.place], rows[q.bucket][q.place])
  {
    var i :| 0 <= i < |s.picks| && s.picks[i] == p;
    var j :| 0 <= j < |s.picks| && s.picks[j] == q;
    assert s.selected[i] == rows[p.bucket][p.place] && s.selected[j] == rows[q.bucket][q.place];
    assert i < j ==> !SameDocument(s.selected[i], s.selected[j]);
    assert j < i ==> !SameDocument(s.selected[j], s.selected[i]);
  }
}
