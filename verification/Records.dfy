// The records of the wheel's archive: little-endian numbers of fixed widths, as in sections 4.3.7,
// 4.3.12 and 4.3.16 of PKWARE's APPNOTE, written by the packer and read back independently.

module Records {
  import opened Wrappers
  import opened Words
  import opened Crc

  type Bytes = seq<Byte>

  // ---------------------------------------------------------------- little-endian records

  function Digit(v: nat, i: nat): Byte {
    if i == 0 then v % 256 else Digit(v / 256, i - 1)
  }

  // The low `width` bytes of v: what a narrowing cast leaves.
  function Le(v: nat, width: nat): (b: Bytes)
    ensures |b| == width
  {
    seq(width, i requires 0 <= i < width => Digit(v, i))
  }

  function FromLe(b: Bytes): nat {
    if b == [] then 0 else b[0] + 256 * FromLe(b[1..])
  }

  function Limit(width: nat): (n: nat)
    ensures n > 0
  {
    if width == 0 then 1 else 256 * Limit(width - 1)
  }

  lemma {:induction false} FromLeFits(b: Bytes)
    ensures FromLe(b) < Limit(|b|)
    decreases |b|
  {
    if b != [] {
      FromLeFits(b[1..]);
    }
  }

  // A cast keeps exactly the values that fit.
  lemma {:induction false} LeKeeps(v: nat, width: nat)
    ensures FromLe(Le(v, width)) <= v
    ensures FromLe(Le(v, width)) == v <==> v < Limit(width)
    decreases width
  {
    if width > 0 {
      LeKeeps(v / 256, width - 1);
      assert Le(v, width)[1..] == Le(v / 256, width - 1);
      assert Le(v, width)[0] == v % 256;
    }
  }

  // Consecutive numbers of the given widths.
  function Encode(widths: seq<nat>, values: seq<nat>): Bytes
  {
    if widths == [] || values == [] then [] else Le(values[0], widths[0]) + Encode(widths[1..], values[1..])
  }

  function Sum(widths: seq<nat>): nat {
    if widths == [] then 0 else widths[0] + Sum(widths[1..])
  }

  lemma {:induction false} EncodeLength(widths: seq<nat>, values: seq<nat>)
    requires |widths| == |values|
    ensures |Encode(widths, values)| == Sum(widths)
    decreases |widths|
  {
    if widths != [] {
      EncodeLength(widths[1..], values[1..]);
    }
  }

  function Numbers(a: Bytes, p: nat, widths: seq<nat>): (v: seq<nat>)
    requires p + Sum(widths) <= |a|
    ensures |v| == |widths|
    decreases |widths|
  {
    if widths == [] then []
    else [FromLe(a[p..p + widths[0]])] + Numbers(a, p + widths[0], widths[1..])
  }

  lemma {:induction false} NumbersFit(a: Bytes, p: nat, widths: seq<nat>)
    requires p + Sum(widths) <= |a|
    ensures forall i :: 0 <= i < |widths| ==> Numbers(a, p, widths)[i] < Limit(widths[i])
    decreases |widths|
  {
    if widths != [] {
      NumbersFit(a, p + widths[0], widths[1..]);
      FromLeFits(a[p..p + widths[0]]);
      forall i | 0 <= i < |widths| ensures Numbers(a, p, widths)[i] < Limit(widths[i]) {
        if i > 0 {
          assert Numbers(a, p, widths)[i] == Numbers(a, p + widths[0], widths[1..])[i - 1];
        }
      }
    }
  }

  // a holds s at p.
  ghost predicate At(a: Bytes, p: nat, s: Bytes)
    decreases |s|
  {
    if s == [] then p <= |a| else p < |a| && a[p] == s[0] && At(a, p + 1, s[1..])
  }

  lemma {:induction false} AtSlice(a: Bytes, p: nat, s: Bytes)
    ensures At(a, p, s) <==> p + |s| <= |a| && a[p..p + |s|] == s
    decreases |s|
  {
    if s != [] {
      AtSlice(a, p + 1, s[1..]);
      if p + |s| <= |a| {
        assert a[p..p + |s|] == [a[p]] + a[p + 1..p + |s|];
        assert s == [s[0]] + s[1..];
      }
    }
  }

  lemma {:induction false} AtSplit(a: Bytes, p: nat, s: Bytes, t: Bytes)
    ensures At(a, p, s + t) <==> At(a, p, s) && At(a, p + |s|, t)
    decreases |s|
  {
    if s == [] {
      assert s + t == t;
      AtSlice(a, p, t);
    } else {
      assert (s + t)[1..] == s[1..] + t;
      AtSplit(a, p + 1, s[1..], t);
    }
  }

  // Every number reads back as its cast.
  lemma {:induction false} NumbersRead(a: Bytes, p: nat, widths: seq<nat>, values: seq<nat>)
    requires |widths| == |values| && At(a, p, Encode(widths, values))
    ensures p + Sum(widths) <= |a|
    ensures forall i :: 0 <= i < |widths| ==> Numbers(a, p, widths)[i] == FromLe(Le(values[i], widths[i]))
    decreases |widths|
  {
    EncodeLength(widths, values);
    AtSlice(a, p, Encode(widths, values));
    if widths != [] {
      AtSplit(a, p, Le(values[0], widths[0]), Encode(widths[1..], values[1..]));
      AtSlice(a, p, Le(values[0], widths[0]));
      NumbersRead(a, p + widths[0], widths[1..], values[1..]);
      var all, rest := Numbers(a, p, widths), Numbers(a, p + widths[0], widths[1..]);
      forall i | 0 <= i < |widths| ensures all[i] == FromLe(Le(values[i], widths[i])) {
        if i > 0 {
          assert all[i] == rest[i - 1];
        }
      }
    }
  }

  // ---------------------------------------------------------------- the format

  datatype Entry = Entry(name: Bytes, data: Bytes)

  // The widths and contents of the three kinds of record, and the checksum: a member's values from
  // its entry and checksum, a directory record's also from its local record's offset, and the end
  // record's from the number of members and the directory's size and offset.
  datatype Format = Format(
    local: seq<nat>, localValues: (Entry, nat) -> seq<nat>,
    central: seq<nat>, centralValues: (Entry, nat, nat) -> seq<nat>,
    end: seq<nat>, endValues: (nat, nat, nat) -> seq<nat>,
    crc: Bytes -> nat)

  const LOCAL_SIGNATURE: nat := 0x0403_4b50
  const CENTRAL_SIGNATURE: nat := 0x0201_4b50
  const END_SIGNATURE: nat := 0x0605_4b50

  function LocalValues(e: Entry, sum: nat): seq<nat> {
    [LOCAL_SIGNATURE, 20, 0, 0, 0, 0x21, sum, |e.data|, |e.data|, |e.name|, 0]
  }

  function CentralValues(e: Entry, sum: nat, offset: nat): seq<nat> {
    [CENTRAL_SIGNATURE, 0x0314, 20, 0, 0, 0, 0x21, sum, |e.data|, |e.data|, |e.name|, 0, 0, 0, 0, 0x81a4_0000, offset]
  }

  function EndValues(count: nat, size: nat, offset: nat): seq<nat> {
    [END_SIGNATURE, 0, 0, count, count, size, offset, 0]
  }

  function Sum32(data: Bytes): nat {
    Value(Checksum(data))
  }

  // What the packer writes.
  function Stored(): Format {
    Format([4, 2, 2, 2, 2, 2, 4, 4, 4, 2, 2], LocalValues,
           [4, 2, 2, 2, 2, 2, 2, 4, 4, 4, 2, 2, 2, 2, 2, 4, 4], CentralValues,
           [4, 2, 2, 2, 2, 4, 4, 2], EndValues, Sum32)
  }

  predicate Fitting(e: Entry) {
    |e.name| < 0x1_0000 && |e.data| < 0x1_0000_0000
  }

  ghost predicate Fits(widths: seq<nat>, values: seq<nat>) {
    |widths| == |values| && forall i :: 0 <= i < |widths| ==> values[i] < Limit(widths[i])
  }

  // What reading relies on.
  ghost predicate Shaped(f: Format) {
    && LocalsShaped(f.local, f.localValues) && CentralsShaped(f.central, f.centralValues)
    && EndsShaped(f.end, f.endValues) && forall data :: f.crc(data) < 0x1_0000_0000
  }

  ghost predicate LocalsShaped(widths: seq<nat>, values: (Entry, nat) -> seq<nat>) {
    && |widths| == 11
    && (forall e, sum :: |values(e, sum)| == 11 && IsLocal(values(e, sum), e, sum))
    && (forall e, sum :: Fitting(e) && sum < 0x1_0000_0000 ==> Fits(widths, values(e, sum)))
  }

  ghost predicate CentralsShaped(widths: seq<nat>, values: (Entry, nat, nat) -> seq<nat>) {
    && |widths| == 17 && Limit(widths[10]) == 0x1_0000 && Limit(widths[9]) == 0x1_0000_0000
    && (forall e, sum, offset :: |values(e, sum, offset)| == 17 && IsCentral(values(e, sum, offset), e, sum, offset))
    && (forall e, sum, offset :: Fitting(e) && sum < 0x1_0000_0000 && offset < 0x1_0000_0000 ==>
      Fits(widths, values(e, sum, offset)))
  }

  ghost predicate EndsShaped(widths: seq<nat>, values: (nat, nat, nat) -> seq<nat>) {
    && |widths| == 8 && widths[3] == widths[4] && Limit(widths[3]) == 0x1_0000
    && Limit(widths[0]) == Limit(widths[5]) == Limit(widths[6]) == 0x1_0000_0000
    && forall n, size, offset :: |values(n, size, offset)| == 8 && IsEnd(values(n, size, offset), n, size, offset)
  }

  ghost predicate IsLocal(v: seq<nat>, e: Entry, sum: nat)
    requires |v| == 11
  {
    v[0] == LOCAL_SIGNATURE && v[3] == 0 && v[6] == sum && v[7] == v[8] == |e.data| && v[9] == |e.name| && v[10] == 0
  }

  ghost predicate IsCentral(v: seq<nat>, e: Entry, sum: nat, offset: nat)
    requires |v| == 17
  {
    && v[0] == CENTRAL_SIGNATURE && v[4] == 0 && v[7] == sum && v[8] == v[9] == |e.data| && v[10] == |e.name|
    && v[11] == v[12] == 0 && v[16] == offset
  }

  ghost predicate IsEnd(v: seq<nat>, count: nat, size: nat, offset: nat)
    requires |v| == 8
  {
    v[0] == END_SIGNATURE && v[3] == v[4] == count && v[5] == size && v[6] == offset
  }

  lemma {:induction false} LimitIsPow2(width: nat)
    ensures Limit(width) == Pow2(8 * width)
  {
    if width > 0 {
      LimitIsPow2(width - 1);
      var k := 8 * width - 8;
      assert Pow2(k + 8) == 2 * Pow2(k + 7) == 4 * Pow2(k + 6) == 8 * Pow2(k + 5) == 16 * Pow2(k + 4);
      assert Pow2(k + 4) == 2 * Pow2(k + 3) == 4 * Pow2(k + 2) == 8 * Pow2(k + 1) == 16 * Pow2(k);
    }
  }

  lemma Limits()
    ensures Limit(2) == 0x1_0000 && Limit(4) == 0x1_0000_0000
  {
  }

  lemma StoredLocals()
    ensures LocalsShaped(Stored().local, LocalValues)
  {
    Limits();
  }

  lemma StoredCentrals()
    ensures CentralsShaped(Stored().central, CentralValues)
  {
    Limits();
  }

  lemma StoredEnds()
    ensures EndsShaped(Stored().end, EndValues)
  {
    Limits();
  }

  lemma SumFits(data: Bytes)
    ensures Sum32(data) < 0x1_0000_0000
  {
    Limits();
    ValueFits(Checksum(data));
    LimitIsPow2(4);
  }

  lemma StoredIsShaped()
    ensures Shaped(Stored())
  {
    StoredLocals();
    StoredCentrals();
    StoredEnds();
    forall data: Bytes ensures Stored().crc(data) < 0x1_0000_0000 {
      SumFits(data);
    }
  }

  // ---------------------------------------------------------------- one record, written and read

  function LocalHeader(f: Format, e: Entry): Bytes {
    Encode(f.local, f.localValues(e, f.crc(e.data))) + e.name
  }

  function CentralRecord(f: Format, e: Entry, offset: nat): Bytes {
    Encode(f.central, f.centralValues(e, f.crc(e.data), offset)) + e.name
  }

  function EndRecord(f: Format, count: nat, size: nat, offset: nat): Bytes {
    Encode(f.end, f.endValues(count, size, offset))
  }

  // What one record says: the member's name, checksum and size, where the record ends, and where
  // the local record starts.
  datatype Record = Record(name: Bytes, sum: nat, size: nat, end: nat, local: nat)

  datatype Summary = Summary(count: nat, size: nat, offset: nat)

  function ReadLocal(f: Format, a: Bytes, p: nat): (r: Option<Record>)
    ensures r.Some? ==> r.value.end <= |a|
  {
    var nameAt := p + Sum(f.local);
    if |f.local| != 11 || nameAt > |a| then None
    else
      var l := Numbers(a, p, f.local);
      var end := nameAt + l[9] + l[10];
      if l[0] != LOCAL_SIGNATURE || l[3] != 0 || l[7] != l[8] || end > |a| then None
      else Some(Record(a[nameAt..nameAt + l[9]], l[6], l[7], end, p))
  }

  function ReadCentral(f: Format, a: Bytes, q: nat): (r: Option<Record>)
    ensures r.Some? ==> r.value.end <= |a|
  {
    var nameAt := q + Sum(f.central);
    if |f.central| != 17 || nameAt > |a| then None
    else
      var c := Numbers(a, q, f.central);
      var end := nameAt + c[10] + c[11] + c[12];
      if c[0] != CENTRAL_SIGNATURE || c[4] != 0 || c[8] != c[9] || end > |a| then None
      else Some(Record(a[nameAt..nameAt + c[10]], c[7], c[8], end, c[16]))
  }

  function ReadEnd(f: Format, a: Bytes, end: nat): Option<Summary> {
    if |f.end| != 8 || end + Sum(f.end) != |a| then None
    else
      var e := Numbers(a, end, f.end);
      if e[0] != END_SIGNATURE || e[3] != e[4] then None else Some(Summary(e[3], e[5], e[6]))
  }

  lemma HeaderReads(a: Bytes, p: nat, widths: seq<nat>, values: seq<nat>, tail: Bytes)
    requires Fits(widths, values) && At(a, p, Encode(widths, values) + tail)
    ensures p + Sum(widths) + |tail| <= |a| && Numbers(a, p, widths) == values
    ensures a[p + Sum(widths)..p + Sum(widths) + |tail|] == tail
    ensures |Encode(widths, values) + tail| == Sum(widths) + |tail|
  {
    AtSplit(a, p, Encode(widths, values), tail);
    EncodeLength(widths, values);
    NumbersRead(a, p, widths, values);
    AtSlice(a, p + Sum(widths), tail);
    var v := Numbers(a, p, widths);
    forall i | 0 <= i < |widths| ensures v[i] == values[i] {
      LeKeeps(values[i], widths[i]);
    }
  }

  lemma LocalReads(f: Format, a: Bytes, p: nat, e: Entry)
    requires Shaped(f) && At(a, p, LocalHeader(f, e)) && Fitting(e)
    ensures ReadLocal(f, a, p) == Some(Record(e.name, f.crc(e.data), |e.data|, p + |LocalHeader(f, e)|, p))
  {
    HeaderReads(a, p, f.local, f.localValues(e, f.crc(e.data)), e.name);
  }

  lemma CentralReads(f: Format, a: Bytes, q: nat, e: Entry, offset: nat)
    requires Shaped(f) && At(a, q, CentralRecord(f, e, offset)) && Fitting(e) && offset < 0x1_0000_0000
    ensures ReadCentral(f, a, q) ==
            Some(Record(e.name, f.crc(e.data), |e.data|, q + |CentralRecord(f, e, offset)|, offset))
  {
    HeaderReads(a, q, f.central, f.centralValues(e, f.crc(e.data), offset), e.name);
  }

  // Number `i` of a record, against what its field can hold: a cast keeps exactly what fits.
  lemma NumberReads(a: Bytes, p: nat, widths: seq<nat>, values: seq<nat>, i: nat)
    requires |widths| == |values| && At(a, p, Encode(widths, values)) && i < |widths|
    ensures p + Sum(widths) <= |a|
    ensures ReadsAs(Numbers(a, p, widths)[i], values[i], Limit(widths[i]))
  {
    NumbersRead(a, p, widths, values);
    LeKeeps(values[i], widths[i]);
    FromLeFits(Le(values[i], widths[i]));
  }

  ghost predicate ReadsAs(number: nat, value: nat, limit: nat) {
    number <= value && number < limit && (number == value <==> value < limit)
  }

  lemma EndReads(f: Format, a: Bytes, end: nat, count: nat, size: nat, offset: nat)
    requires Shaped(f) && At(a, end, EndRecord(f, count, size, offset)) && |a| == end + Sum(f.end)
    ensures var r := ReadEnd(f, a, end);
      && r.Some? && ReadsAs(r.value.count, count, 0x1_0000)
      && ReadsAs(r.value.size, size, 0x1_0000_0000) && ReadsAs(r.value.offset, offset, 0x1_0000_0000)
  {
    var values := f.endValues(count, size, offset);
    NumbersRead(a, end, f.end, values);
    NumberReads(a, end, f.end, values, 0);
    NumberReads(a, end, f.end, values, 3);
    NumberReads(a, end, f.end, values, 5);
    NumberReads(a, end, f.end, values, 6);
  }

  lemma CentralFits(f: Format, a: Bytes, q: nat)
    requires Shaped(f) && ReadCentral(f, a, q).Some?
    ensures var c := ReadCentral(f, a, q).value; |c.name| < 0x1_0000 && c.size < 0x1_0000_0000
  {
    NumbersFit(a, q, f.central);
  }

  method ComputeSum(data: Bytes) returns (sum: nat)
    ensures sum == Sum32(data)
  {
    var register := Crc32(data);
    sum := Value(register);
  }
}
