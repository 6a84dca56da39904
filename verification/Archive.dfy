// The wheel's archive: stored (uncompressed) ZIP members one after the other, their directory, and
// the end record. Names and contents are bytes; entries come in the writer's order. The proofs
// see a record only through what writing and reading it do.

module Archive {
  import opened Wrappers
  import opened Records

  datatype Codec = Codec(
    local: Entry -> Bytes, central: (Entry, nat) -> Bytes, end: (nat, nat, nat) -> Bytes, endSize: nat,
    readLocal: (Bytes, nat) -> Option<Record>, readCentral: (Bytes, nat) -> Option<Record>,
    readEnd: (Bytes, nat) -> Option<Summary>, crc: Bytes -> nat)

  function CodecOf(f: Format): Codec {
    Codec(
      e => LocalHeader(f, e), (e, offset: nat) => CentralRecord(f, e, offset),
      (count: nat, size: nat, offset: nat) => EndRecord(f, count, size, offset), Sum(f.end),
      (a, p: nat) => ReadLocal(f, a, p), (a, q: nat) => ReadCentral(f, a, q),
      (a, end: nat) => ReadEnd(f, a, end), f.crc)
  }

  function Wheel(): Codec {
    CodecOf(Stored())
  }

  // What the round trip relies on: each record reads back as what it was written from.
  ghost predicate Sound(k: Codec) {
    LocalsRead(k) && CentralsRead(k) && EndsRead(k)
  }

  ghost predicate LocalsRead(k: Codec) {
    && (forall a, p: nat, e :: At(a, p, k.local(e)) && Fitting(e) ==>
      k.readLocal(a, p) == Some(Record(e.name, k.crc(e.data), |e.data|, p + |k.local(e)|, p)))
    && (forall a, p: nat :: k.readLocal(a, p).Some? ==> k.readLocal(a, p).value.end <= |a|)
  }

  ghost predicate CentralsRead(k: Codec) {
    && (forall a, q: nat, e, offset :: At(a, q, k.central(e, offset)) && Fitting(e) && offset < 0x1_0000_0000 ==>
      k.readCentral(a, q) == Some(Record(e.name, k.crc(e.data), |e.data|, q + |k.central(e, offset)|, offset)))
    && (forall a, q: nat :: k.readCentral(a, q).Some? ==> Readable(a, k.readCentral(a, q).value))
  }

  ghost predicate EndsRead(k: Codec) {
    && (forall count, size, offset :: |k.end(count, size, offset)| == k.endSize)
    && (forall a, end: nat, count, size, offset ::
      At(a, end, k.end(count, size, offset)) && |a| == end + k.endSize ==>
        EndAs(k.readEnd(a, end), count, size, offset))
  }

  ghost predicate Readable(a: Bytes, c: Record) {
    c.end <= |a| && |c.name| < 0x1_0000 && c.size < 0x1_0000_0000
  }

  ghost predicate EndAs(r: Option<Summary>, count: nat, size: nat, offset: nat) {
    && r.Some? && ReadsAs(r.value.count, count, 0x1_0000)
    && ReadsAs(r.value.size, size, 0x1_0000_0000) && ReadsAs(r.value.offset, offset, 0x1_0000_0000)
  }

  lemma CodecIsSound(f: Format)
    requires Shaped(f)
    ensures Sound(CodecOf(f))
  {
    LocalIsSound(f);
    CentralIsSound(f);
    EndIsSound(f);
  }

  lemma LocalIsSound(f: Format)
    requires Shaped(f)
    ensures LocalsRead(CodecOf(f))
  {
    var k := CodecOf(f);
    forall a, p: nat, e | At(a, p, k.local(e)) && Fitting(e)
      ensures k.readLocal(a, p) == Some(Record(e.name, k.crc(e.data), |e.data|, p + |k.local(e)|, p))
    {
      LocalReads(f, a, p, e);
    }
  }

  lemma CentralIsSound(f: Format)
    requires Shaped(f)
    ensures CentralsRead(CodecOf(f))
  {
    var k := CodecOf(f);
    forall a, q: nat, e, offset | At(a, q, k.central(e, offset)) && Fitting(e) && offset < 0x1_0000_0000
      ensures k.readCentral(a, q) == Some(Record(e.name, k.crc(e.data), |e.data|, q + |k.central(e, offset)|, offset))
    {
      CentralReads(f, a, q, e, offset);
    }
    forall a, q: nat | k.readCentral(a, q).Some? ensures Readable(a, k.readCentral(a, q).value) {
      CentralFits(f, a, q);
    }
  }

  lemma EndIsSound(f: Format)
    requires Shaped(f)
    ensures EndsRead(CodecOf(f))
  {
    var k := CodecOf(f);
    forall count, size, offset ensures |k.end(count, size, offset)| == k.endSize {
      EncodeLength(f.end, f.endValues(count, size, offset));
    }
    forall a, end: nat, count, size, offset | At(a, end, k.end(count, size, offset)) && |a| == end + k.endSize
      ensures EndAs(k.readEnd(a, end), count, size, offset)
    {
      EndReads(f, a, end, count, size, offset);
    }
  }

  // ---------------------------------------------------------------- the writer

  function Member(k: Codec, e: Entry): Bytes {
    k.local(e) + e.data
  }

  function Locals(k: Codec, entries: seq<Entry>): Bytes {
    if entries == [] then [] else Member(k, entries[0]) + Locals(k, entries[1..])
  }

  // The directory of members whose first local record starts at `offset`.
  function Directory(k: Codec, entries: seq<Entry>, offset: nat): Bytes
    decreases |entries|
  {
    if entries == [] then []
    else k.central(entries[0], offset) + Directory(k, entries[1..], offset + |Member(k, entries[0])|)
  }

  function Zipped(k: Codec, entries: seq<Entry>): Bytes {
    Closed(k, Locals(k, entries), Directory(k, entries, 0), |entries|)
  }

  function Closed(k: Codec, locals: Bytes, directory: Bytes, count: nat): Bytes {
    locals + directory + k.end(count, |directory|, |locals|)
  }

  method Zip(entries: seq<Entry>) returns (out: Bytes)
    ensures out == Zipped(Wheel(), entries)
  {
    out := ZipAs(Stored(), entries);
  }

  method ZipAs(f: Format, entries: seq<Entry>) returns (out: Bytes)
    requires f.crc == Sum32
    ensures out == Zipped(CodecOf(f), entries)
  {
    ghost var k := CodecOf(f);
    var central: Bytes := [];
    out := [];
    for n := 0 to |entries|
      invariant Locals(k, entries) == out + Locals(k, entries[n..])
      invariant Directory(k, entries, 0) == central + Directory(k, entries[n..], |out|)
    {
      var local, record := WriteMember(f, entries[n], |out|, k);
      NextMember(k, entries, n, out, central);
      out := out + local;
      central := central + record;
    }
    Finished(k, entries, out, central);
    out := WriteEnd(f, out, central, |entries|, k);
  }

  // One turn of the writer's loop: the bytes that go to the archive and to the directory.
  method WriteMember(f: Format, e: Entry, offset: nat, ghost k: Codec) returns (local: Bytes, record: Bytes)
    requires k == CodecOf(f) && f.crc == Sum32
    ensures local == Member(k, e) && record == k.central(e, offset)
  {
    var sum := ComputeSum(e.data);
    local := Encode(f.local, f.localValues(e, sum)) + e.name + e.data;
    record := Encode(f.central, f.centralValues(e, sum, offset)) + e.name;
  }

  method WriteEnd(f: Format, locals: Bytes, directory: Bytes, count: nat, ghost k: Codec) returns (out: Bytes)
    requires k == CodecOf(f)
    ensures out == Closed(k, locals, directory, count)
  {
    out := locals + directory + Encode(f.end, f.endValues(count, |directory|, |locals|));
  }

  lemma NextMember(k: Codec, entries: seq<Entry>, n: nat, out: Bytes, central: Bytes)
    requires n < |entries|
    ensures var local, record := Member(k, entries[n]), k.central(entries[n], |out|);
      && out + Locals(k, entries[n..]) == (out + local) + Locals(k, entries[n + 1..])
      && central + Directory(k, entries[n..], |out|) ==
        (central + record) + Directory(k, entries[n + 1..], |out + local|)
  {
    assert entries[n..][0] == entries[n] && entries[n..][1..] == entries[n + 1..];
  }

  lemma Finished(k: Codec, entries: seq<Entry>, out: Bytes, central: Bytes)
    requires Locals(k, entries) == out + Locals(k, entries[|entries|..])
    requires Directory(k, entries, 0) == central + Directory(k, entries[|entries|..], |out|)
    ensures Locals(k, entries) == out && Directory(k, entries, 0) == central
  {
    assert entries[|entries|..] == [];
    assert out + [] == out && central + [] == central;
  }

  // ---------------------------------------------------------------- an independent reader

  // The content a directory record leads to, if both records agree and the checksum holds.
  function ReadMember(k: Codec, a: Bytes, c: Record): Option<Entry> {
    match k.readLocal(a, c.local)
    case None => None
    case Some(l) =>
      if l.name != c.name || l.sum != c.sum || l.size != c.size || l.end + c.size > |a| then None
      else
        var data := a[l.end..l.end + c.size];
        if k.crc(data) != c.sum then None else Some(Entry(c.name, data))
  }

  function ReadDirectory(k: Codec, a: Bytes, q: nat, end: nat, count: nat): (r: Option<seq<Entry>>)
    ensures r.Some? ==> |r.value| == count
    decreases count
  {
    if count == 0 then (if q == end then Some([]) else None)
    else
      match k.readCentral(a, q)
      case None => None
      case Some(c) =>
        var first := ReadMember(k, a, c);
        var rest := ReadDirectory(k, a, c.end, end, count - 1);
        if first.None? || rest.None? then None else Some([first.value] + rest.value)
  }

  function ReadArchive(k: Codec, a: Bytes): Option<seq<Entry>> {
    if |a| < k.endSize then None
    else
      var end := |a| - k.endSize;
      match k.readEnd(a, end)
      case None => None
      case Some(e) =>
        if e.offset + e.size != end then None else ReadDirectory(k, a, e.offset, end, e.count)
  }

  // ---------------------------------------------------------------- the round trip

  // What the 16-bit and 32-bit fields can hold.
  predicate Representable(k: Codec, entries: seq<Entry>) {
    && |entries| < 0x1_0000 && (forall i :: 0 <= i < |entries| ==> Fitting(entries[i]))
    && |Locals(k, entries)| < 0x1_0000_0000 && |Directory(k, entries, 0)| < 0x1_0000_0000
  }

  // Members laid out one after the other from `offset`, each found by its record from q to `end`.
  ghost predicate Laid(k: Codec, a: Bytes, q: nat, end: nat, entries: seq<Entry>, offset: nat)
    decreases |entries|
  {
    if entries == [] then q == end
    else
      var local, record := Member(k, entries[0]), k.central(entries[0], offset);
      && At(a, offset, local) && At(a, q, record) && Fitting(entries[0]) && offset < 0x1_0000_0000
      && Laid(k, a, q + |record|, end, entries[1..], offset + |local|)
  }

  lemma {:induction false} LaidOut(k: Codec, a: Bytes, q: nat, end: nat, entries: seq<Entry>, offset: nat)
    requires At(a, offset, Locals(k, entries)) && At(a, q, Directory(k, entries, offset))
    requires forall i :: 0 <= i < |entries| ==> Fitting(entries[i])
    requires offset + |Locals(k, entries)| < 0x1_0000_0000 && end == q + |Directory(k, entries, offset)|
    ensures Laid(k, a, q, end, entries, offset)
    decreases |entries|
  {
    if entries != [] {
      var local, record, rest := Member(k, entries[0]), k.central(entries[0], offset), entries[1..];
      AtSplit(a, offset, local, Locals(k, rest));
      AtSplit(a, q, record, Directory(k, rest, offset + |local|));
      LaidOut(k, a, q + |record|, end, rest, offset + |local|);
    }
  }

  lemma MemberReads(k: Codec, a: Bytes, q: nat, e: Entry, offset: nat)
    requires At(a, offset, Member(k, e)) && At(a, q, k.central(e, offset))
    requires Sound(k) && Fitting(e) && offset < 0x1_0000_0000
    ensures var c := k.readCentral(a, q);
      c.Some? && c.value.end == q + |k.central(e, offset)| && ReadMember(k, a, c.value) == Some(e)
  {
    AtSplit(a, offset, k.local(e), e.data);
    AtSlice(a, offset + |k.local(e)|, e.data);
  }

  lemma {:induction false} LaidReads(k: Codec, a: Bytes, q: nat, end: nat, entries: seq<Entry>, offset: nat)
    requires Sound(k) && Laid(k, a, q, end, entries, offset)
    ensures ReadDirectory(k, a, q, end, |entries|) == Some(entries)
    decreases |entries|
  {
    if entries != [] {
      MemberReads(k, a, q, entries[0], offset);
      var c := k.readCentral(a, q).value;
      LaidReads(k, a, c.end, end, entries[1..], offset + |Member(k, entries[0])|);
      assert entries == [entries[0]] + entries[1..];
    }
  }

  lemma ClosedParts(k: Codec, locals: Bytes, directory: Bytes, count: nat)
    requires Sound(k)
    ensures var a, end := Closed(k, locals, directory, count), |locals| + |directory|;
      && At(a, 0, locals) && At(a, |locals|, directory) && At(a, end, k.end(count, |directory|, |locals|))
      && |a| == end + k.endSize
  {
    ThreeParts(locals, directory, k.end(count, |directory|, |locals|));
  }

  lemma ThreeParts(x: Bytes, y: Bytes, z: Bytes)
    ensures var a := x + y + z; At(a, 0, x) && At(a, |x|, y) && At(a, |x| + |y|, z)
  {
    var a := x + y + z;
    AtSlice(a, 0, x);
    AtSlice(a, |x|, y);
    AtSlice(a, |x| + |y|, z);
  }

  // The end record leads the reader to the directory exactly when its numbers fit.
  lemma EndLeads(k: Codec, a: Bytes, locals: Bytes, directory: Bytes, count: nat)
    requires Sound(k) && a == Closed(k, locals, directory, count)
    ensures |locals| < 0x1_0000_0000 && |directory| < 0x1_0000_0000 && count < 0x1_0000 ==>
      ReadArchive(k, a) == ReadDirectory(k, a, |locals|, |locals| + |directory|, count)
    ensures ReadArchive(k, a).Some? ==>
      && |locals| < 0x1_0000_0000 && |directory| < 0x1_0000_0000 && |ReadArchive(k, a).value| < 0x1_0000
  {
    ClosedParts(k, locals, directory, count);
    assert EndAs(k.readEnd(a, |locals| + |directory|), count, |directory|, |locals|);
  }

  // Every member the reader returns fits the fields it was read from.
  lemma {:induction false} ReadFits(k: Codec, a: Bytes, q: nat, end: nat, count: nat)
    requires Sound(k) && ReadDirectory(k, a, q, end, count).Some?
    ensures forall i :: 0 <= i < count ==> Fitting(ReadDirectory(k, a, q, end, count).value[i])
    decreases count
  {
    if count > 0 {
      var c := k.readCentral(a, q).value;
      ReadFits(k, a, c.end, end, count - 1);
      var all, rest := ReadDirectory(k, a, q, end, count).value, ReadDirectory(k, a, c.end, end, count - 1).value;
      forall i | 0 <= i < count ensures Fitting(all[i]) {
        assert i > 0 ==> all[i] == rest[i - 1];
      }
    }
  }

  lemma ReadsBack(k: Codec, entries: seq<Entry>)
    requires Sound(k) && Representable(k, entries)
    ensures ReadArchive(k, Zipped(k, entries)) == Some(entries)
  {
    var a, locals, directory := Zipped(k, entries), Locals(k, entries), Directory(k, entries, 0);
    EndLeads(k, a, locals, directory, |entries|);
    ClosedParts(k, locals, directory, |entries|);
    LaidOut(k, a, |locals|, |locals| + |directory|, entries, 0);
    LaidReads(k, a, |locals|, |locals| + |directory|, entries, 0);
  }

  lemma OnlyIfRepresentable(k: Codec, entries: seq<Entry>)
    requires Sound(k) && ReadArchive(k, Zipped(k, entries)) == Some(entries)
    ensures Representable(k, entries)
  {
    var a, locals, directory := Zipped(k, entries), Locals(k, entries), Directory(k, entries, 0);
    EndLeads(k, a, locals, directory, |entries|);
    ReadFits(k, a, |locals|, |locals| + |directory|, |entries|);
  }

  // The archive gives back its members exactly when every number fits its field.
  lemma RoundTrip(k: Codec, entries: seq<Entry>)
    requires Sound(k)
    ensures ReadArchive(k, Zipped(k, entries)) == Some(entries) <==> Representable(k, entries)
  {
    if Representable(k, entries) {
      ReadsBack(k, entries);
    }
    if ReadArchive(k, Zipped(k, entries)) == Some(entries) {
      OnlyIfRepresentable(k, entries);
    }
  }

  lemma WheelRoundTrip(entries: seq<Entry>)
    ensures ReadArchive(Wheel(), Zipped(Wheel(), entries)) == Some(entries) <==> Representable(Wheel(), entries)
  {
    StoredIsShaped();
    CodecIsSound(Stored());
    RoundTrip(Wheel(), entries);
  }

  // ---------------------------------------------------------------- tiling

  function Offset(k: Codec, entries: seq<Entry>, i: nat): nat
    requires i <= |entries|
  {
    if i == 0 then 0 else Offset(k, entries, i - 1) + |Member(k, entries[i - 1])|
  }

  lemma {:induction false} LocalsTile(k: Codec, entries: seq<Entry>, i: nat)
    requires i <= |entries|
    ensures Offset(k, entries, i) + |Locals(k, entries[i..])| == |Locals(k, entries)|
    ensures At(Locals(k, entries), Offset(k, entries, i), Locals(k, entries[i..]))
    ensures i < |entries| ==> At(Locals(k, entries), Offset(k, entries, i), Member(k, entries[i]))
    decreases i
  {
    var all := Locals(k, entries);
    if i == 0 {
      assert entries[0..] == entries;
      AtSlice(all, 0, all);
    } else {
      LocalsTile(k, entries, i - 1);
      var suffix := entries[i - 1..];
      assert suffix[0] == entries[i - 1] && suffix[1..] == entries[i..];
      AtSplit(all, Offset(k, entries, i - 1), Member(k, entries[i - 1]), Locals(k, entries[i..]));
    }
    if i < |entries| {
      var suffix := entries[i..];
      assert suffix[0] == entries[i];
      AtSplit(all, Offset(k, entries, i), Member(k, entries[i]), Locals(k, suffix[1..]));
    }
  }
}
