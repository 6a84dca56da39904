// Token pools: documents written one after the other with markers, read back through the index
// written beside them or, for pools without one, by scanning for the markers.

module Pools {
  import opened Wrappers

  const VOCAB: nat := 8192
  const END_OF_TEXT: nat := 1
  const END_OF_REPOSITORY: nat := 2

  datatype Document = Document(repository: string, tokens: seq<nat>)

  datatype Record = Record(offset: nat, length: nat)

  // One recovered document: where it starts and its tokens.
  datatype Found = Found(offset: nat, tokens: seq<nat>)

  datatype Spooled = Spooled(stream: seq<nat>, records: seq<Record>)

  // Every token is one of the tokenizer's 8192.
  predicate InRange(tokens: seq<nat>)
    ensures InRange(tokens) <==> forall i :: 0 <= i < |tokens| ==> tokens[i] < 8192
  {
    forall i :: 0 <= i < |tokens| ==> tokens[i] < VOCAB
  }

  function Separator(previous: Option<string>, repository: string): seq<nat> {
    if previous.Some? && previous.value != repository then [END_OF_REPOSITORY] else []
  }

  // ---------------------------------------------------------------- the writer

  // What the documents add to a pool that already holds `count` tokens.
  function Pool(documents: seq<Document>, count: nat, previous: Option<string>): (s: seq<nat>)
    decreases |documents|
  {
    if documents == [] then []
    else
      var d, separator := documents[0], Separator(previous, documents[0].repository);
      separator + d.tokens + [END_OF_TEXT] +
      Pool(documents[1..], count + |separator| + |d.tokens| + 1, Some(d.repository))
  }

  function Index(documents: seq<Document>, count: nat, previous: Option<string>): seq<Record>
    decreases |documents|
  {
    if documents == [] then []
    else
      var d, separator := documents[0], Separator(previous, documents[0].repository);
      [Record(count + |separator|, |d.tokens|)] +
      Index(documents[1..], count + |separator| + |d.tokens| + 1, Some(d.repository))
  }

  method SpoolTokens(documents: seq<Document>) returns (r: Option<Spooled>)
    ensures r.Some? <==> forall i :: 0 <= i < |documents| ==> InRange(documents[i].tokens)
    ensures r.Some? ==> r.value == Spooled(Pool(documents, 0, None), Index(documents, 0, None))
  {
    var stream: seq<nat>, records: seq<Record> := [], [];
    var previous: Option<string> := None;
    for n := 0 to |documents|
      invariant forall i :: 0 <= i < n ==> InRange(documents[i].tokens)
      invariant Pool(documents, 0, None) == stream + Pool(documents[n..], |stream|, previous)
      invariant Index(documents, 0, None) == records + Index(documents[n..], |stream|, previous)
    {
      var d := documents[n];
      assert documents[n..][0] == d && documents[n..][1..] == documents[n + 1..];
      var separator := Separator(previous, d.repository);
      var offset := |stream| + |separator|;
      if !InRange(d.tokens) {
        return None;
      }
      var added := separator + d.tokens + [END_OF_TEXT];
      NextDocument(documents[n..], stream, records, previous);
      stream := stream + added;
      records := records + [Record(offset, |d.tokens|)];
      previous := Some(d.repository);
    }
    assert documents[|documents|..] == [];
    assert stream + [] == stream && records + [] == records;
    r := Some(Spooled(stream, records));
  }

  lemma NextDocument(rest: seq<Document>, stream: seq<nat>, records: seq<Record>, previous: Option<string>)
    requires rest != []
    ensures var d, separator := rest[0], Separator(previous, rest[0].repository);
      var longer := stream + (separator + d.tokens + [END_OF_TEXT]);
      && stream + Pool(rest, |stream|, previous) == longer + Pool(rest[1..], |longer|, Some(d.repository))
      && records + Index(rest, |stream|, previous) ==
        (records + [Record(|stream| + |separator|, |d.tokens|)]) + Index(rest[1..], |longer|, Some(d.repository))
  {
    var d, separator := rest[0], Separator(previous, rest[0].repository);
    var added := separator + d.tokens + [END_OF_TEXT];
    var longer := stream + added;
    assert |longer| == |stream| + |separator| + |d.tokens| + 1;
    Regroup(stream, added, Pool(rest[1..], |longer|, Some(d.repository)), Pool(rest, |stream|, previous));
    Regroup(records, [Record(|stream| + |separator|, |d.tokens|)], Index(rest[1..], |longer|, Some(d.repository)),
      Index(rest, |stream|, previous));
  }

  lemma Regroup<T>(front: seq<T>, next: seq<T>, back: seq<T>, whole: seq<T>)
    requires whole == next + back
    ensures front + whole == (front + next) + back
  {
  }

  // ---------------------------------------------------------------- reading by index

  function Indexed(tokens: seq<nat>, records: seq<Record>, previousEnd: nat): Option<seq<Found>>
    decreases |records|
  {
    if records == [] then Some([])
    else
      var first, end := records[0].offset, records[0].offset + records[0].length;
      if first < previousEnd || end >= |tokens| || tokens[end] != END_OF_TEXT then None
      else
        match Indexed(tokens, records[1..], end + 1)
        case None => None
        case Some(rest) => Some([Found(first, tokens[first..end])] + rest)
  }

  method ReadIndexed(tokens: seq<nat>, records: seq<Record>) returns (r: Option<seq<Found>>)
    ensures r == Indexed(tokens, records, 0)
  {
    var found: seq<Found>, previousEnd := [], 0;
    PrefixNone(Indexed(tokens, records, 0));
    assert records[0..] == records;
    for n := 0 to |records|
      invariant Indexed(tokens, records, 0) == Prefixed(found, Indexed(tokens, records[n..], previousEnd))
    {
      assert records[n..][0] == records[n] && records[n..][1..] == records[n + 1..];
      var first, end := records[n].offset, records[n].offset + records[n].length;
      if first < previousEnd || end >= |tokens| || tokens[end] != END_OF_TEXT {
        return None;
      }
      PrefixOne(found, Found(first, tokens[first..end]), Indexed(tokens, records[n + 1..], end + 1));
      found := found + [Found(first, tokens[first..end])];
      previousEnd := end + 1;
    }
    assert found + [] == found;
    r := Some(found);
  }

  function Prefixed(found: seq<Found>, rest: Option<seq<Found>>): Option<seq<Found>> {
    if rest.None? then None else Some(found + rest.value)
  }

  lemma PrefixNone(rest: Option<seq<Found>>)
    ensures Prefixed([], rest) == rest
  {
    assert rest.Some? ==> [] + rest.value == rest.value;
  }

  lemma PrefixOne(found: seq<Found>, next: Found, rest: Option<seq<Found>>)
    ensures Prefixed(found, Prefixed([next], rest)) == Prefixed(found + [next], rest)
  {
    if rest.Some? {
      assert found + ([next] + rest.value) == (found + [next]) + rest.value;
    }
  }

  // ---------------------------------------------------------------- reading by markers

  predicate Marker(token: nat) { token == END_OF_TEXT || token == END_OF_REPOSITORY }

  // `open` is the document being read, which starts at `first`; `rest` is still unread.
  function Marked(first: nat, open: seq<nat>, rest: seq<nat>): Option<seq<Found>>
    decreases |rest|
  {
    if rest == [] then (if open == [] then Some([]) else None)
    else if !Marker(rest[0]) then Marked(first, open + [rest[0]], rest[1..])
    else Prefixed(if open == [] then [] else [Found(first, open)], Marked(first + |open| + 1, [], rest[1..]))
  }

  method ReadMarked(tokens: seq<nat>) returns (r: Option<seq<Found>>)
    ensures r == Marked(0, [], tokens)
  {
    var found: seq<Found>, first := [], 0;
    PrefixNone(Marked(0, [], tokens));
    assert tokens[0..] == tokens && tokens[0..0] == [];
    for offset := 0 to |tokens|
      invariant first <= offset
      invariant Marked(0, [], tokens) == Prefixed(found, Marked(first, tokens[first..offset], tokens[offset..]))
    {
      var token := tokens[offset];
      assert tokens[offset..][0] == token && tokens[offset..][1..] == tokens[offset + 1..];
      if Marker(token) {
        var rest := Marked(offset + 1, [], tokens[offset + 1..]);
        assert tokens[offset + 1..offset + 1] == [];
        if offset > first {
          PrefixOne(found, Found(first, tokens[first..offset]), rest);
          found := found + [Found(first, tokens[first..offset])];
        } else {
          PrefixNone(rest);
        }
        first := offset + 1;
      } else {
        assert tokens[first..offset] + [token] == tokens[first..offset + 1];
      }
    }
    if first != |tokens| {
      return None;
    }
    assert found + [] == found;
    r := Some(found);
  }

  // ---------------------------------------------------------------- round trip

  // Each document at its recorded offset.
  function Recorded(documents: seq<Document>, records: seq<Record>): seq<Found>
    requires |documents| == |records|
  {
    if documents == [] then []
    else [Found(records[0].offset, documents[0].tokens)] + Recorded(documents[1..], records[1..])
  }

  lemma {:induction false} IndexLength(documents: seq<Document>, count: nat, previous: Option<string>)
    ensures |Index(documents, count, previous)| == |documents|
    decreases |documents|
  {
    if documents != [] {
      var d, separator := documents[0], Separator(previous, documents[0].repository);
      IndexLength(documents[1..], count + |separator| + |d.tokens| + 1, Some(d.repository));
    }
  }

  // A document in the middle of a stream, with its marker behind it.
  lemma TakeIndexed(all: seq<nat>, at: nat, separator: seq<nat>, tokens: seq<nat>, back: seq<nat>)
    requires at <= |all| && all[at..] == separator + tokens + [END_OF_TEXT] + back
    ensures var first, end := at + |separator|, at + |separator| + |tokens|;
      end < |all| && all[end] == END_OF_TEXT && all[first..end] == tokens && all[end + 1..] == back
  {
    var s, first, end := all[at..], |separator|, |separator| + |tokens|;
    assert s[first..end] == tokens && s[end] == END_OF_TEXT && s[end + 1..] == back;
    assert all[at + first..at + end] == s[first..end] && all[at + end + 1..] == s[end + 1..];
  }

  lemma IndexedFirst(
    all: seq<nat>, first: nat, tokens: seq<nat>, rest: seq<Record>, found: seq<Found>, previousEnd: nat)
    requires previousEnd <= first && first + |tokens| < |all| && all[first + |tokens|] == END_OF_TEXT
    requires all[first..first + |tokens|] == tokens && Indexed(all, rest, first + |tokens| + 1) == Some(found)
    ensures Indexed(all, [Record(first, |tokens|)] + rest, previousEnd) == Some([Found(first, tokens)] + found)
  {
    assert ([Record(first, |tokens|)] + rest)[1..] == rest;
  }

  lemma IndexFirst(documents: seq<Document>, count: nat, previous: Option<string>)
    requires documents != []
    ensures var d, separator := documents[0], Separator(previous, documents[0].repository);
      var first, next := count + |separator|, count + |separator| + |d.tokens| + 1;
      var records, rest := Index(documents, count, previous), Index(documents[1..], next, Some(d.repository));
      && |rest| == |documents| - 1 && records == [Record(first, |d.tokens|)] + rest
      && Recorded(documents, records) == [Found(first, d.tokens)] + Recorded(documents[1..], rest)
  {
    var d, separator := documents[0], Separator(previous, documents[0].repository);
    var next := count + |separator| + |d.tokens| + 1;
    IndexLength(documents[1..], next, Some(d.repository));
    assert Index(documents, count, previous)[1..] == Index(documents[1..], next, Some(d.repository));
  }

  // A pool read through its index gives back every document, whatever its tokens and wherever the
  // pool begins.
  lemma {:induction false} IndexedReadsBack(
    all: seq<nat>, at: nat, documents: seq<Document>, previous: Option<string>, end: nat)
    requires end <= at <= |all| && all[at..] == Pool(documents, at, previous)
    ensures var records := Index(documents, at, previous);
      |records| == |documents| && Indexed(all, records, end) == Some(Recorded(documents, records))
    decreases |documents|
  {
    if documents != [] {
      var d, separator, later := documents[0], Separator(previous, documents[0].repository), documents[1..];
      var first, next := at + |separator|, at + |separator| + |d.tokens| + 1;
      TakeIndexed(all, at, separator, d.tokens, Pool(later, next, Some(d.repository)));
      IndexedReadsBack(all, next, later, Some(d.repository), next);
      ReadsFirst(all, first, documents, at, previous, end, Index(later, next, Some(d.repository)));
    }
  }

  // The first document, once the rest of them has been read.
  lemma ReadsFirst(
    all: seq<nat>, first: nat, documents: seq<Document>, at: nat, previous: Option<string>, end: nat, rest: seq<Record>)
    requires documents != [] && end <= at && first == at + |Separator(previous, documents[0].repository)|
    requires var tokens := documents[0].tokens;
      && rest == Index(documents[1..], first + |tokens| + 1, Some(documents[0].repository))
      && first + |tokens| < |all| && all[first + |tokens|] == END_OF_TEXT && all[first..first + |tokens|] == tokens
      && |rest| == |documents| - 1
      && Indexed(all, rest, first + |tokens| + 1) == Some(Recorded(documents[1..], rest))
    ensures var records := Index(documents, at, previous);
      |records| == |documents| && Indexed(all, records, end) == Some(Recorded(documents, records))
  {
    IndexFirst(documents, at, previous);
    IndexedFirst(all, first, documents[0].tokens, rest, Recorded(documents[1..], rest), end);
  }

  // ---------------------------------------------------------------- the layout of a pool

  // Documents lie one behind the other, each with an end marker (1) behind it, and a repository marker (2)
  // before it exactly if it is from another repository than the one before; the index says where.
  ghost predicate LaidOut(documents: seq<Document>, stream: seq<nat>, records: seq<Record>) {
    && |records| == |documents|
    && (forall i :: 0 <= i < |documents| ==> LiesAt(stream, records[i], documents[i].tokens))
    && (forall i :: 0 < i < |documents| ==>
          FollowsOn(stream, records[i - 1], records[i], documents[i - 1], documents[i]))
    && (documents == [] ==> stream == [])
    && (documents != [] ==>
          var last := records[|records| - 1]; records[0].offset == 0 && |stream| == last.offset + last.length + 1)
  }

  ghost predicate LiesAt(stream: seq<nat>, r: Record, tokens: seq<nat>) {
    && r.length == |tokens| && r.offset + r.length < |stream|
    && stream[r.offset..r.offset + r.length] == tokens && stream[r.offset + r.length] == 1
  }

  ghost predicate FollowsOn(stream: seq<nat>, before: Record, r: Record, b: Document, d: Document) {
    if b.repository == d.repository then r.offset == before.offset + before.length + 1
    else r.offset == before.offset + before.length + 2 && r.offset <= |stream| && stream[r.offset - 1] == 2
  }

  lemma PoolEnds(all: seq<nat>, at: nat, documents: seq<Document>, previous: Option<string>)
    requires at <= |all| && all[at..] == Pool(documents, at, previous) && documents != []
    ensures var d, separator := documents[0], Separator(previous, documents[0].repository);
      var next := at + |separator| + |d.tokens| + 1;
      && next <= |all| && all[next..] == Pool(documents[1..], next, Some(d.repository))
      && LiesAt(all, Record(at + |separator|, |d.tokens|), d.tokens)
      && (separator != [] ==> all[at] == 2)
  {
    var d, separator := documents[0], Separator(previous, documents[0].repository);
    TakeIndexed(all, at, separator, d.tokens,
                Pool(documents[1..], at + |separator| + |d.tokens| + 1, Some(d.repository)));
    if separator != [] {
      assert all[at] == all[at..][0];
    }
  }

  // The layout from the middle of a stream on.
  ghost predicate LaidOutFrom(
    all: seq<nat>, at: nat, documents: seq<Document>, previous: Option<string>, records: seq<Record>)
  {
    && |records| == |documents|
    && (forall i :: 0 <= i < |documents| ==> LiesAt(all, records[i], documents[i].tokens))
    && (forall i :: 0 < i < |documents| ==> FollowsOn(all, records[i - 1], records[i], documents[i - 1], documents[i]))
    && (documents == [] ==> |all| == at)
    && (documents != [] ==>
          var last := records[|records| - 1];
          && records[0].offset == at + |Separator(previous, documents[0].repository)|
          && |all| == last.offset + last.length + 1)
  }

  lemma {:induction false} PoolIsLaidOut(all: seq<nat>, at: nat, documents: seq<Document>, previous: Option<string>)
    requires at <= |all| && all[at..] == Pool(documents, at, previous)
    ensures LaidOutFrom(all, at, documents, previous, Index(documents, at, previous))
    decreases |documents|
  {
    if documents != [] {
      var d, separator, later := documents[0], Separator(previous, documents[0].repository), documents[1..];
      var next := at + |separator| + |d.tokens| + 1;
      PoolEnds(all, at, documents, previous);
      PoolIsLaidOut(all, next, later, Some(d.repository));
      if later != [] {
        PoolEnds(all, next, later, Some(d.repository));
      }
      var first := Record(at + |separator|, |d.tokens|);
      IndexFirst(documents, at, previous);
      OneBefore(all, at, documents, previous, first, Index(later, next, Some(d.repository)));
    }
  }

  lemma OneBefore(
    all: seq<nat>, at: nat, documents: seq<Document>, previous: Option<string>, first: Record, rest: seq<Record>)
    requires documents != [] && first.offset == at + |Separator(previous, documents[0].repository)|
    requires LiesAt(all, first, documents[0].tokens)
    requires LaidOutFrom(all, first.offset + first.length + 1, documents[1..], Some(documents[0].repository), rest)
    requires |documents| > 1 && documents[1].repository != documents[0].repository ==>
      all[first.offset + first.length + 1] == 2
    ensures LaidOutFrom(all, at, documents, previous, [first] + rest)
  {
    var records, later := [first] + rest, documents[1..];
    forall i | 0 <= i < |documents| ensures LiesAt(all, records[i], documents[i].tokens) {
      assert i > 0 ==> LiesAt(all, rest[i - 1], later[i - 1].tokens);
    }
    forall i | 0 < i < |documents| ensures FollowsOn(all, records[i - 1], records[i], documents[i - 1], documents[i]) {
      if i > 1 {
        assert FollowsOn(all, rest[i - 2], rest[i - 1], later[i - 2], later[i - 1]);
      }
    }
  }

  // What the writer leaves is so laid out.
  lemma SpooledLayout(documents: seq<Document>)
    ensures LaidOut(documents, Pool(documents, 0, None), Index(documents, 0, None))
  {
    var all := Pool(documents, 0, None);
    assert all[0..] == all;
    PoolIsLaidOut(all, 0, documents, None);
  }

  predicate Clean(tokens: seq<nat>) {
    tokens != [] && forall i :: 0 <= i < |tokens| ==> !Marker(tokens[i])
  }

  lemma {:induction false} MarkedCollects(first: nat, open: seq<nat>, run: seq<nat>, rest: seq<nat>)
    requires forall i :: 0 <= i < |run| ==> !Marker(run[i])
    ensures Marked(first, open, run + rest) == Marked(first, open + run, rest)
    decreases |run|
  {
    if run == [] {
      assert run + rest == rest && open + run == open;
    } else {
      assert (run + rest)[1..] == run[1..] + rest;
      MarkedCollects(first, open + [run[0]], run[1..], rest);
      assert open + [run[0]] + run[1..] == open + run;
    }
  }

  lemma TakeDocument(start: nat, tokens: seq<nat>, rest: seq<nat>)
    requires Clean(tokens)
    ensures Marked(start, [], tokens + ([END_OF_TEXT] + rest)) ==
            Prefixed([Found(start, tokens)], Marked(start + |tokens| + 1, [], rest))
  {
    MarkedCollects(start, [], tokens, [END_OF_TEXT] + rest);
    assert [] + tokens == tokens && ([END_OF_TEXT] + rest)[1..] == rest;
  }

  // Scanning for markers finds the same documents when all are nonempty and free of markers.
  lemma {:induction false} MarkedReadsBack(documents: seq<Document>, count: nat, previous: Option<string>)
    requires forall i :: 0 <= i < |documents| ==> Clean(documents[i].tokens)
    ensures var records := Index(documents, count, previous);
      |records| == |documents| &&
      Marked(count, [], Pool(documents, count, previous)) == Some(Recorded(documents, records))
    decreases |documents|
  {
    if documents != [] {
      var d, separator := documents[0], Separator(previous, documents[0].repository);
      var start := count + |separator|;
      var next := start + |d.tokens| + 1;
      var back := Pool(documents[1..], next, Some(d.repository));
      MarkedReadsBack(documents[1..], next, Some(d.repository));
      MarkedFirst(count, separator, d.tokens, back, Pool(documents, count, previous));
      IndexFirst(documents, count, previous);
    }
  }

  lemma MarkedFirst(count: nat, separator: seq<nat>, tokens: seq<nat>, back: seq<nat>, all: seq<nat>)
    requires Clean(tokens) && (separator == [] || separator == [END_OF_REPOSITORY])
    requires all == separator + tokens + [END_OF_TEXT] + back
    ensures Marked(count, [], all) ==
            Prefixed([Found(count + |separator|, tokens)], Marked(count + |separator| + |tokens| + 1, [], back))
  {
    var body := tokens + ([END_OF_TEXT] + back);
    assert all == separator + body;
    SkipSeparator(count, separator, body);
    TakeDocument(count + |separator|, tokens, back);
  }

  lemma SkipSeparator(count: nat, separator: seq<nat>, body: seq<nat>)
    requires separator == [] || separator == [END_OF_REPOSITORY]
    ensures Marked(count, [], separator + body) == Marked(count + |separator|, [], body)
  {
    if separator == [] {
      assert separator + body == body;
    } else {
      assert (separator + body)[1..] == body;
      PrefixNone(Marked(count + 1, [], body));
    }
  }

  lemma {:induction false} MarkedIsClean(first: nat, open: seq<nat>, rest: seq<nat>)
    requires forall i :: 0 <= i < |open| ==> !Marker(open[i])
    ensures var r := Marked(first, open, rest); r.Some? ==> forall i :: 0 <= i < |r.value| ==> Clean(r.value[i].tokens)
    decreases |rest|
  {
    if rest != [] {
      if Marker(rest[0]) {
        MarkedIsClean(first + |open| + 1, [], rest[1..]);
        var r, s := Marked(first, open, rest), Marked(first + |open| + 1, [], rest[1..]);
        if r.Some? && open != [] {
          assert r.value == [Found(first, open)] + s.value;
          assert Clean(open);
        } else if r.Some? {
          PrefixNone(s);
        }
      } else {
        MarkedIsClean(first, open + [rest[0]], rest[1..]);
      }
    }
  }

  lemma {:induction false} RecordedTokens(documents: seq<Document>, records: seq<Record>)
    requires |documents| == |records|
    ensures |Recorded(documents, records)| == |documents|
    ensures forall i :: 0 <= i < |documents| ==>
      Recorded(documents, records)[i] == Found(records[i].offset, documents[i].tokens)
    decreases |documents|
  {
    if documents != [] {
      RecordedTokens(documents[1..], records[1..]);
    }
  }

  lemma AgreementIsClean(documents: seq<Document>, pool: seq<nat>, records: seq<Record>)
    requires |records| == |documents| && Marked(0, [], pool) == Some(Recorded(documents, records))
    ensures forall i :: 0 <= i < |documents| ==> Clean(documents[i].tokens)
  {
    MarkedIsClean(0, [], pool);
    RecordedTokens(documents, records);
    var r := Recorded(documents, records);
    forall i | 0 <= i < |documents| ensures Clean(documents[i].tokens) {
      assert Clean(r[i].tokens);
    }
  }

  // The two readers agree on a pool exactly when every document is nonempty and free of markers.
  lemma ReadersAgree(documents: seq<Document>, pool: seq<nat>, records: seq<Record>)
    requires pool == Pool(documents, 0, None) && records == Index(documents, 0, None)
    ensures Indexed(pool, records, 0).Some?
    ensures Marked(0, [], pool) == Indexed(pool, records, 0) <==>
      forall i :: 0 <= i < |documents| ==> Clean(documents[i].tokens)
  {
    assert pool[0..] == pool;
    IndexedReadsBack(pool, 0, documents, None, 0);
    if Marked(0, [], pool) == Indexed(pool, records, 0) {
      AgreementIsClean(documents, pool, records);
    }
    if forall i :: 0 <= i < |documents| ==> Clean(documents[i].tokens) {
      MarkedReadsBack(documents, 0, None);
    }
  }
}
