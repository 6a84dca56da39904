// Building the episodes of a split: every pool of every bucket is read, one window of each document
// long enough is offered, and windows are selected fairly over the buckets.

module EpisodeBuild {
  import opened Wrappers
  import opened Pools
  import opened Episodes

  // A pool's tokens, its name, and the index of its directory if there is one.
  datatype File = File(tokens: seq<nat>, name: string, index: Option<map<string, seq<Record>>>)

  // The files, and the path of every source's pool for a bucket.
  datatype Library = Library(paths: map<(string, string), string>, files: map<string, File>)

  function Read(f: File): Option<seq<Found>> {
    match f.index
    case Some(pools) => if f.name in pools then Indexed(f.tokens, pools[f.name], 0) else None
    case None => Marked(0, [], f.tokens)
  }

  method ReadFile(f: File) returns (r: Option<seq<Found>>)
    ensures r == Read(f) && (r.Some? ==> Apart(r.value))
    ensures f.index.Some? && f.name !in f.index.value ==> r == None
  {
    if f.index.Some? {
      if f.name !in f.index.value {
        return None;
      }
      r := ReadIndexed(f.tokens, f.index.value[f.name]);
    } else {
      r := ReadMarked(f.tokens);
    }
    ReadApart(f);
  }

  // ---------------------------------------------------------------- both readers keep documents apart

  lemma {:induction false} IndexedApart(tokens: seq<nat>, records: seq<Record>, previousEnd: nat)
    ensures var r := Indexed(tokens, records, previousEnd);
      r.Some? ==> Apart(r.value) && forall i :: 0 <= i < |r.value| ==> r.value[i].offset >= previousEnd
    decreases |records|
  {
    if records != [] {
      IndexedApart(tokens, records[1..], records[0].offset + records[0].length + 1);
    }
  }

  lemma {:induction false} MarkedApart(first: nat, open: seq<nat>, rest: seq<nat>)
    ensures var r := Marked(first, open, rest);
      r.Some? ==> Apart(r.value) && forall i :: 0 <= i < |r.value| ==> r.value[i].offset >= first
    decreases |rest|
  {
    if rest != [] {
      if Marker(rest[0]) {
        MarkedApart(first + |open| + 1, [], rest[1..]);
      } else {
        MarkedApart(first, open + [rest[0]], rest[1..]);
      }
    }
  }

  lemma ReadApart(f: File)
    ensures Read(f).Some? ==> Apart(Read(f).value)
  {
    if f.index.Some? {
      if f.name in f.index.value {
        IndexedApart(f.tokens, f.index.value[f.name], 0);
      }
    } else {
      MarkedApart(0, [], f.tokens);
    }
  }

  // ---------------------------------------------------------------- the rows of a bucket

  function PathOf(library: Library, bucket: string, source: string): Option<string> {
    if (source, bucket) in library.paths && library.paths[(source, bucket)] in library.files
    then Some(library.paths[(source, bucket)])
    else None
  }

  function SourceRows(c: Setup, library: Library, bucket: string, source: string, choose: Chooser): Option<seq<Row>>
    requires ValidSetup(c) && Chooses(choose)
  {
    match PathOf(library, bucket, source)
    case None => None
    case Some(path) =>
      match Read(library.files[path])
      case None => None
      case Some(found) => Some(Rows(c, Place(bucket, source, path), found, choose))
  }

  function BucketRows(
    c: Setup, library: Library, bucket: string, sources: seq<string>, choose: Chooser): Option<seq<Row>>
    requires ValidSetup(c) && Chooses(choose)
    decreases |sources|
  {
    if sources == [] then Some([])
    else
      var rows := BucketRows(c, library, bucket, sources[..|sources| - 1], choose);
      var more := SourceRows(c, library, bucket, sources[|sources| - 1], choose);
      if rows.None? || more.None? then None else Some(rows.value + more.value)
  }

  method CollectRows(c: Setup, library: Library, bucket: string, sources: seq<string>, choose: Chooser)
    returns (r: Option<seq<Row>>)
    requires ValidSetup(c) && Chooses(choose)
    ensures r == BucketRows(c, library, bucket, sources, choose)
  {
    var rows: seq<Row> := [];
    for n := 0 to |sources|
      invariant BucketRows(c, library, bucket, sources[..n], choose) == Some(rows)
    {
      assert sources[..n + 1][..n] == sources[..n];
      var more: Option<seq<Row>> := None;
      var path := PathOf(library, bucket, sources[n]);
      if path.Some? {
        var found := ReadFile(library.files[path.value]);
        if found.Some? {
          var own := PoolRows(c, Place(bucket, sources[n], path.value), found.value, choose);
          more := Some(own);
        }
      }
      if more.None? {
        Unreadable(c, library, bucket, sources, n + 1, choose);
        return None;
      }
      rows := rows + more.value;
    }
    assert sources[..|sources|] == sources;
    r := Some(rows);
  }

  lemma {:induction false} Unreadable(
    c: Setup, library: Library, bucket: string, sources: seq<string>, n: nat, choose: Chooser)
    requires ValidSetup(c) && Chooses(choose)
    requires n <= |sources| && BucketRows(c, library, bucket, sources[..n], choose) == None
    ensures BucketRows(c, library, bucket, sources, choose) == None
    decreases |sources| - n
  {
    if n == |sources| {
      assert sources[..n] == sources;
    } else {
      assert sources[..n + 1][..n] == sources[..n];
      Unreadable(c, library, bucket, sources, n + 1, choose);
    }
  }

  // A bucket's rows are those of its sources.
  lemma {:induction false} BucketMembers(
    c: Setup, library: Library, bucket: string, sources: seq<string>, choose: Chooser)
    requires ValidSetup(c) && Chooses(choose) && BucketRows(c, library, bucket, sources, choose).Some?
    ensures forall s :: s in sources ==> SourceRows(c, library, bucket, s, choose).Some?
    ensures forall r :: r in BucketRows(c, library, bucket, sources, choose).value <==>
      exists s :: s in sources && r in SourceRows(c, library, bucket, s, choose).value
    decreases |sources|
  {
    if sources != [] {
      var front, last := sources[..|sources| - 1], sources[|sources| - 1];
      assert sources == front + [last];
      BucketMembers(c, library, bucket, front, choose);
    }
  }

  // ---------------------------------------------------------------- when no document is offered twice

  // Two readings of one pool that holds a document long enough.
  ghost predicate Repeats(c: Setup, library: Library, a: string, s: string, b: string, t: string, choose: Chooser)
    requires ValidSetup(c) && Chooses(choose)
  {
    && PathOf(library, a, s) == PathOf(library, b, t) != None
    && var found := Read(library.files[PathOf(library, a, s).value]);
       found.Some? && exists d :: d in found.value && |d.tokens| >= Window(c)
  }

  lemma SourcesDisjoint(c: Setup, library: Library, a: string, s: string, b: string, t: string, choose: Chooser)
    requires ValidSetup(c) && Chooses(choose)
    requires SourceRows(c, library, a, s, choose).Some? && SourceRows(c, library, b, t, choose).Some?
    ensures Disjoint(SourceRows(c, library, a, s, choose).value, SourceRows(c, library, b, t, choose).value) <==>
      !Repeats(c, library, a, s, b, t, choose)
  {
    var path, other := PathOf(library, a, s).value, PathOf(library, b, t).value;
    var found, others := Read(library.files[path]).value, Read(library.files[other]).value;
    RowsDisjoint(c, Place(a, s, path), Place(b, t, other), found, others, choose);
  }

  lemma RowsDisjoint(c: Setup, p: Place, q: Place, found: seq<Found>, others: seq<Found>, choose: Chooser)
    requires ValidSetup(c) && Chooses(choose) && (p.path == q.path ==> found == others)
    ensures Disjoint(Rows(c, p, found, choose), Rows(c, q, others, choose)) <==>
      !(p.path == q.path && exists d :: d in found && |d.tokens| >= Window(c))
  {
    RowsAre(c, p, found, choose);
    RowsAre(c, q, others, choose);
    OffersDecide(c, p, q, found, others, Rows(c, p, found, choose), Rows(c, q, others, choose));
  }

  // The rows a pool offers: windows of its documents, and one for each that is long enough.
  ghost predicate OffersOf(c: Setup, p: Place, found: seq<Found>, rows: seq<Row>) {
    && (forall r :: r in rows ==> Inside(c, r) && r.place == p && r.document in found)
    && (forall d :: d in found && |d.tokens| >= Window(c) ==> exists i :: 0 <= i < |rows| && rows[i].document == d)
  }

  lemma OffersDecide(
    c: Setup, p: Place, q: Place, found: seq<Found>, others: seq<Found>, rows: seq<Row>, more: seq<Row>)
    requires p.path == q.path ==> found == others
    requires OffersOf(c, p, found, rows) && OffersOf(c, q, others, more)
    ensures Disjoint(rows, more) <==> !(p.path == q.path && exists d :: d in found && |d.tokens| >= Window(c))
  {
    if d :| p.path == q.path && d in found && |d.tokens| >= Window(c) {
      var i :| 0 <= i < |rows| && rows[i].document == d;
      var j :| 0 <= j < |more| && more[j].document == d;
      assert SameDocument(rows[i], more[j]);
    }
  }

  lemma SourceApart(c: Setup, library: Library, bucket: string, source: string, choose: Chooser)
    requires ValidSetup(c) && Chooses(choose) && SourceRows(c, library, bucket, source, choose).Some?
    ensures OnePerDocument(SourceRows(c, library, bucket, source, choose).value)
  {
    var path := PathOf(library, bucket, source).value;
    ReadApart(library.files[path]);
    RowsApart(c, Place(bucket, source, path), Read(library.files[path]).value, choose);
  }

  lemma OnePerJoined(rows: seq<Row>, more: seq<Row>)
    ensures OnePerDocument(rows + more) <==> OnePerDocument(rows) && OnePerDocument(more) && Disjoint(rows, more)
  {
    var all := rows + more;
    if OnePerDocument(all) {
      forall i, j | 0 <= i < j < |more| ensures !SameDocument(more[i], more[j]) {
        assert all[|rows| + i] == more[i] && all[|rows| + j] == more[j];
      }
      forall i, j | 0 <= i < j < |rows| ensures !SameDocument(rows[i], rows[j]) {
        assert all[i] == rows[i] && all[j] == rows[j];
      }
      forall r, s | r in rows && s in more ensures !SameDocument(r, s) {
        var i :| 0 <= i < |rows| && rows[i] == r;
        var j :| 0 <= j < |more| && more[j] == s;
        assert all[i] == r && all[|rows| + j] == s;
      }
    }
  }

  // A bucket offers every document once exactly when it reads no pool twice that has one to offer.
  lemma {:induction false} BucketApart(
    c: Setup, library: Library, bucket: string, sources: seq<string>, choose: Chooser)
    requires ValidSetup(c) && Chooses(choose) && BucketRows(c, library, bucket, sources, choose).Some?
    ensures OnePerDocument(BucketRows(c, library, bucket, sources, choose).value) <==>
      forall i, j :: 0 <= i < j < |sources| ==> !Repeats(c, library, bucket, sources[i], bucket, sources[j], choose)
    decreases |sources|
  {
    if sources != [] {
      var front, last := sources[..|sources| - 1], sources[|sources| - 1];
      var rows := BucketRows(c, library, bucket, front, choose).value;
      var more := SourceRows(c, library, bucket, last, choose).value;
      BucketApart(c, library, bucket, front, choose);
      SourceApart(c, library, bucket, last, choose);
      OnePerJoined(rows, more);
      BucketMembers(c, library, bucket, front, choose);
      assert Disjoint(rows, more) <==> forall i :: 0 <= i < |front| ==>
        !Repeats(c, library, bucket, front[i], bucket, last, choose) by {
        LastDisjoint(c, library, bucket, front, bucket, last, choose);
      }
    }
  }

  lemma OneDocument(run: seq<nat>)
    requires Clean(run)
    ensures Marked(0, [], run + [END_OF_TEXT]) == Some([Found(0, run)])
  {
    var none: seq<nat>, found: seq<Found> := [], [Found(0, run)];
    TakeDocument(0, run, none);
    assert [END_OF_TEXT] + none == [END_OF_TEXT] && found + [] == found;
  }

  lemma ListedTwice(c: Setup, library: Library, bucket: string, source: string, row: Row, choose: Chooser)
    requires ValidSetup(c) && Chooses(choose) && SourceRows(c, library, bucket, source, choose) == Some([row])
    ensures BucketRows(c, library, bucket, [source, source], choose) == Some([row, row]) && !OnePerDocument([row, row])
  {
    var one, two := [source], [source, source];
    assert two[..1] == one && one[..0] == [];
    assert BucketRows(c, library, bucket, one[..0], choose) == Some([]);
    assert BucketRows(c, library, bucket, one, choose) == Some([row]) by {
      assert [] + [row] == [row];
    }
    assert [row] + [row] == [row, row];
    assert SameDocument([row, row][0], [row, row][1]);
  }

  // One source with one pool of one document.
  lemma OnePool(c: Setup, library: Library, place: Place, run: seq<nat>, choose: Chooser)
    requires ValidSetup(c) && Chooses(choose) && Clean(run) && |run| >= Window(c)
    requires library.paths == map[(place.source, place.bucket) := place.path]
    requires library.files == map[place.path := File(run + [END_OF_TEXT], place.path, None)]
    ensures SourceRows(c, library, place.bucket, place.source, choose) ==
      Some([Picked(c, place, Found(0, run), choose).value])
  {
    OneDocument(run);
    OnlyRow(c, place, Found(0, run), choose);
  }

  // A source listed twice, with one document of seven tokens and windows of seven: it is offered twice.
  lemma RepeatedSource(library: Library, choose: Chooser)
    requires Chooses(choose)
    requires library.paths == map[("train", "code") := "train.u16"]
    requires library.files == map["train.u16" := File([10, 10, 10, 10, 10, 10, 10, 1], "train.u16", None)]
    ensures var rows := BucketRows(Setup(2, 5), library, "code", ["train", "train"], choose);
      rows.Some? && |rows.value| == 2 && rows.value[0] == rows.value[1] && !OnePerDocument(rows.value)
  {
    var c, run, place := Setup(2, 5), [10, 10, 10, 10, 10, 10, 10], Place("code", "train", "train.u16");
    assert [10, 10, 10, 10, 10, 10, 10, 1] == run + [END_OF_TEXT];
    OnePool(c, library, place, run, choose);
    ListedTwice(c, library, "code", "train", Picked(c, place, Found(0, run), choose).value, choose);
  }

  lemma OnlyRow(c: Setup, place: Place, d: Found, choose: Chooser)
    requires ValidSetup(c) && Chooses(choose) && |d.tokens| >= Window(c)
    ensures Rows(c, place, [d], choose) == [Picked(c, place, d, choose).value]
  {
    assert Rows(c, place, [d][..0], choose) == [];
  }

  // A bucket's rows against those of one more source.
  lemma LastDisjoint(c: Setup, library: Library, a: string, sources: seq<string>, b: string, t: string, choose: Chooser)
    requires ValidSetup(c) && Chooses(choose) && BucketRows(c, library, a, sources, choose).Some?
    requires SourceRows(c, library, b, t, choose).Some?
    ensures Disjoint(BucketRows(c, library, a, sources, choose).value, SourceRows(c, library, b, t, choose).value) <==>
      forall i :: 0 <= i < |sources| ==> !Repeats(c, library, a, sources[i], b, t, choose)
  {
    var rows, more := BucketRows(c, library, a, sources, choose).value, SourceRows(c, library, b, t, choose).value;
    BucketMembers(c, library, a, sources, choose);
    forall s | s in sources
      ensures Disjoint(SourceRows(c, library, a, s, choose).value, more) <==> !Repeats(c, library, a, s, b, t, choose)
    {
      SourcesDisjoint(c, library, a, s, b, t, choose);
    }
    if Disjoint(rows, more) {
      forall i | 0 <= i < |sources| ensures !Repeats(c, library, a, sources[i], b, t, choose) {
        assert sources[i] in sources;
        assert Disjoint(SourceRows(c, library, a, sources[i], choose).value, more);
      }
    }
  }

  lemma BucketsDisjoint(c: Setup, library: Library, a: string, b: string, sources: seq<string>, choose: Chooser)
    requires ValidSetup(c) && Chooses(choose)
    requires BucketRows(c, library, a, sources, choose).Some? && BucketRows(c, library, b, sources, choose).Some?
    ensures var rows, others := BucketRows(c, library, a, sources, choose), BucketRows(c, library, b, sources, choose);
      Disjoint(rows.value, others.value) <==>
      forall i, j :: 0 <= i < |sources| && 0 <= j < |sources| ==>
        !Repeats(c, library, a, sources[i], b, sources[j], choose)
  {
    var rows := BucketRows(c, library, a, sources, choose).value;
    var others := BucketRows(c, library, b, sources, choose).value;
    BucketMembers(c, library, b, sources, choose);
    forall t | t in sources
      ensures Disjoint(rows, SourceRows(c, library, b, t, choose).value) <==>
        forall i :: 0 <= i < |sources| ==> !Repeats(c, library, a, sources[i], b, t, choose)
    {
      LastDisjoint(c, library, a, sources, b, t, choose);
    }
    if Disjoint(rows, others) {
      forall j | 0 <= j < |sources| ensures Disjoint(rows, SourceRows(c, library, b, sources[j], choose).value) {
        assert sources[j] in sources;
      }
    }
  }

  // ---------------------------------------------------------------- the whole split

  // No pool with a document to offer is read twice, by one bucket or by two.
  ghost predicate ReadsOnce(c: Setup, library: Library, buckets: seq<string>, sources: seq<string>, choose: Chooser)
    requires ValidSetup(c) && Chooses(choose)
  {
    forall a, b, i, j :: a in buckets && b in buckets && 0 <= i < |sources| && 0 <= j < |sources| ==>
      (a != b || i < j) ==> !Repeats(c, library, a, sources[i], b, sources[j], choose)
  }

  // Reorders a bucket's rows.
  type Shuffler = (string, seq<Row>) -> seq<Row>

  ghost predicate Shuffles(shuffle: Shuffler) {
    forall bucket, rows :: multiset(shuffle(bucket, rows)) == multiset(rows)
  }

  ghost predicate Readable(c: Setup, library: Library, buckets: seq<string>, sources: seq<string>, choose: Chooser)
    requires ValidSetup(c) && Chooses(choose)
  {
    forall b :: b in buckets ==> BucketRows(c, library, b, sources, choose).Some?
  }

  // What every bucket offers, in the order it will be popped from the end.
  ghost predicate Gathered(
    c: Setup, library: Library, buckets: seq<string>, sources: seq<string>, choose: Chooser, shuffle: Shuffler,
    rows: map<string, seq<Row>>)
    requires ValidSetup(c) && Chooses(choose)
  {
    && Readable(c, library, buckets, sources, choose)
    && (forall b :: b in buckets ==> b in rows)
    && (forall b :: b in buckets ==> rows[b] == shuffle(b, BucketRows(c, library, b, sources, choose).value))
  }

  // The buckets offer every document once exactly when no pool with one to offer is read twice.
  lemma CandidatesScattered(
    c: Setup, library: Library, buckets: seq<string>, sources: seq<string>, choose: Chooser, shuffle: Shuffler,
    rows: map<string, seq<Row>>)
    requires ValidSetup(c) && Chooses(choose) && Shuffles(shuffle)
    requires Gathered(c, library, buckets, sources, choose, shuffle, rows)
    ensures Scattered(buckets, rows) <==> ReadsOnce(c, library, buckets, sources, choose)
  {
    forall b | b in buckets
      ensures OnePerDocument(rows[b]) <==>
        forall i, j :: 0 <= i < j < |sources| ==> !Repeats(c, library, b, sources[i], b, sources[j], choose)
    {
      BucketApart(c, library, b, sources, choose);
      ShuffledApart(BucketRows(c, library, b, sources, choose).value, rows[b]);
    }
    forall a, b | a in buckets && b in buckets
      ensures Disjoint(rows[a], rows[b]) <==>
        forall i, j :: 0 <= i < |sources| && 0 <= j < |sources| ==>
          !Repeats(c, library, a, sources[i], b, sources[j], choose)
    {
      BucketsDisjoint(c, library, a, b, sources, choose);
      SameMembers(BucketRows(c, library, a, sources, choose).value, rows[a]);
      SameMembers(BucketRows(c, library, b, sources, choose).value, rows[b]);
    }
  }

  lemma ShuffledApart(rows: seq<Row>, shuffled: seq<Row>)
    requires multiset(rows) == multiset(shuffled)
    ensures OnePerDocument(rows) <==> OnePerDocument(shuffled)
  {
    if OnePerDocument(rows) {
      ShuffleKeeps(rows, shuffled);
    }
    if OnePerDocument(shuffled) {
      ShuffleKeeps(shuffled, rows);
    }
  }

  lemma SameMembers(rows: seq<Row>, shuffled: seq<Row>)
    requires multiset(rows) == multiset(shuffled)
    ensures forall r :: r in rows <==> r in shuffled
    ensures |rows| == |shuffled|
  {
    forall r ensures r in rows <==> r in shuffled {
      assert r in rows <==> r in multiset(rows);
    }
    assert |multiset(rows)| == |rows| && |multiset(shuffled)| == |shuffled|;
  }

  // How many windows all buckets offer.
  function Offers(c: Setup, library: Library, buckets: seq<string>, sources: seq<string>, choose: Chooser): nat
    requires ValidSetup(c) && Chooses(choose)
  {
    if buckets == [] then 0
    else
      var rows := BucketRows(c, library, buckets[0], sources, choose);
      (if rows.None? then 0 else |rows.value|) + Offers(c, library, buckets[1..], sources, choose)
  }

  lemma {:induction false} LeftIsOffers(
    c: Setup, library: Library, buckets: seq<string>, sources: seq<string>, choose: Chooser, shuffle: Shuffler,
    rows: map<string, seq<Row>>)
    requires ValidSetup(c) && Chooses(choose) && Shuffles(shuffle)
    requires Gathered(c, library, buckets, sources, choose, shuffle, rows)
    ensures Left(buckets, rows) == Offers(c, library, buckets, sources, choose)
    decreases |buckets|
  {
    if buckets != [] {
      assert buckets == [buckets[0]] + buckets[1..];
      SameMembers(BucketRows(c, library, buckets[0], sources, choose).value, rows[buckets[0]]);
      LeftIsOffers(c, library, buckets[1..], sources, choose, shuffle, rows);
    }
  }

  method GatherRows(
    c: Setup, library: Library, buckets: seq<string>, sources: seq<string>, choose: Chooser, shuffle: Shuffler)
    returns (r: Option<map<string, seq<Row>>>)
    requires ValidSetup(c) && Chooses(choose)
    ensures r.Some? <==> Readable(c, library, buckets, sources, choose)
    ensures r.Some? ==> Gathered(c, library, buckets, sources, choose, shuffle, r.value)
  {
    var candidates: map<string, seq<Row>> := map[];
    for n := 0 to |buckets|
      invariant Gathered(c, library, buckets[..n], sources, choose, shuffle, candidates)
    {
      var rows := CollectRows(c, library, buckets[n], sources, choose);
      if rows.None? {
        return None;
      }
      candidates := candidates[buckets[n] := shuffle(buckets[n], rows.value)];
    }
    r := Some(candidates);
  }

  // The keys of a dictionary filled in this order.
  function Distinct(buckets: seq<string>): (r: seq<string>)
    ensures forall b :: b in r <==> b in buckets
    ensures forall i, j :: 0 <= i < j < |r| ==> r[i] != r[j]
  {
    if buckets == [] then []
    else
      var front, last := Distinct(buckets[..|buckets| - 1]), buckets[|buckets| - 1];
      assert buckets == buckets[..|buckets| - 1] + [last];
      if last in front then front else front + [last]
  }

  // A full window that the reader found in a pool of one of the split's buckets and sources.
  ghost predicate FromPool(c: Setup, library: Library, buckets: seq<string>, sources: seq<string>, r: Row) {
    && Inside(c, r) && r.place.bucket in buckets && r.place.source in sources
    && PathOf(library, r.place.bucket, r.place.source) == Some(r.place.path)
    && Read(library.files[r.place.path]).Some? && r.document in Read(library.files[r.place.path]).value
  }

  // Selects `count` windows, each inside one document of its pool, and no document twice unless a pool
  // is read twice - then some document is, if all windows are selected. Fails exactly for a bad setup,
  // a pool that cannot be read, or too few documents.
  method BuildEpisodes(
    c: Setup, library: Library, buckets: seq<string>, sources: seq<string>, quotas: map<string, nat>, count: nat,
    choose: Chooser, shuffle: Shuffler) returns (r: Option<Selection>)
    requires Chooses(choose) && Shuffles(shuffle)
    requires forall b :: b in buckets ==> b in quotas && quotas[b] > 0
    ensures ValidSetup(c) <==> c.prompt >= 1 && c.generated >= 1
    ensures r.Some? <==>
      ValidSetup(c) && Readable(c, library, buckets, sources, choose) &&
      Offers(c, library, Distinct(buckets), sources, choose) >= count
    ensures r.Some? ==> |r.value.selected| == count
    ensures r.Some? ==> forall e :: e in r.value.selected ==> FromPool(c, library, buckets, sources, e)
    ensures r.Some? && ReadsOnce(c, library, buckets, sources, choose) ==> OnePerDocument(r.value.selected)
    ensures r.Some? && count == Offers(c, library, Distinct(buckets), sources, choose) ==>
      (OnePerDocument(r.value.selected) <==> ReadsOnce(c, library, buckets, sources, choose))
    ensures r.Some? ==>
      (forall b :: b in buckets ==> b in r.value.used && b in r.value.candidates) &&
      Fair(buckets, r.value.used, quotas, r.value.candidates)
  {
    if !ValidSetup(c) {
      return None;
    }
    var rows := GatherRows(c, library, buckets, sources, choose, shuffle);
    if rows.None? {
      return None;
    }
    var names := Distinct(buckets);
    LeftIsOffers(c, library, names, sources, choose, shuffle, rows.value);
    r := Select(names, quotas, rows.value, count);
    if r.Some? {
      SelectedFromPools(c, library, buckets, sources, choose, shuffle, rows.value, quotas, r.value);
      CandidatesScattered(c, library, names, sources, choose, shuffle, rows.value);
      if ReadsOnce(c, library, buckets, sources, choose) {
        SelectedApart(names, quotas, rows.value, r.value);
      }
      NothingLeft(names, r.value.candidates);
      if OnePerDocument(r.value.selected) && Left(names, r.value.candidates) == 0 {
        AllSelectedApart(names, quotas, rows.value, r.value);
      }
    }
  }

  lemma SelectedFromPools(
    c: Setup, library: Library, buckets: seq<string>, sources: seq<string>, choose: Chooser, shuffle: Shuffler,
    rows: map<string, seq<Row>>, quotas: map<string, nat>, s: Selection)
    requires ValidSetup(c) && Chooses(choose) && Shuffles(shuffle)
    requires Gathered(c, library, buckets, sources, choose, shuffle, rows)
    requires Offered(Distinct(buckets), quotas, rows) && Progress(Distinct(buckets), quotas, rows, s)
    ensures forall e :: e in s.selected ==> FromPool(c, library, buckets, sources, e)
  {
    forall e | e in s.selected ensures FromPool(c, library, buckets, sources, e) {
      var i :| 0 <= i < |s.selected| && s.selected[i] == e;
      var b := s.picks[i].bucket;
      assert e in rows[b];
      SameMembers(BucketRows(c, library, b, sources, choose).value, rows[b]);
      BucketMembers(c, library, b, sources, choose);
      var t :| t in sources && e in SourceRows(c, library, b, t, choose).value;
      var path := PathOf(library, b, t).value;
      RowsAre(c, Place(b, t, path), Read(library.files[path]).value, choose);
    }
  }
}
