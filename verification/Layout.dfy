// Where the archive's records have their fields: the layouts of the ZIP file format specification,
// sections 4.3.7, 4.3.12 and 4.3.16, field by field, with what the packer stores in each.

module Layout {
  import opened Records

  datatype Field = Field(offset: nat, width: nat, value: nat)

  // Each field is at its offset, little-endian.
  ghost predicate LaidOut(b: Bytes, fields: seq<Field>) {
    forall i :: 0 <= i < |fields| ==> HasField(b, fields[i])
  }

  ghost predicate HasField(b: Bytes, f: Field) {
    f.offset + f.width <= |b| && b[f.offset..f.offset + f.width] == Le(f.value, f.width)
  }

  function LocalFields(e: Entry, sum: nat): seq<Field> {
    [Field(0, 4, 0x0403_4b50), Field(4, 2, 20), Field(6, 2, 0), Field(8, 2, 0), Field(10, 2, 0), Field(12, 2, 0x21),
     Field(14, 4, sum), Field(18, 4, |e.data|), Field(22, 4, |e.data|), Field(26, 2, |e.name|), Field(28, 2, 0)]
  }

  function CentralFields(e: Entry, sum: nat, offset: nat): seq<Field> {
    [Field(0, 4, 0x0201_4b50), Field(4, 2, 0x0314), Field(6, 2, 20), Field(8, 2, 0), Field(10, 2, 0), Field(12, 2, 0),
     Field(14, 2, 0x21), Field(16, 4, sum), Field(20, 4, |e.data|), Field(24, 4, |e.data|),
     Field(28, 2, |e.name|), Field(30, 2, 0), Field(32, 2, 0), Field(34, 2, 0), Field(36, 2, 0),
     Field(38, 4, 0x81a4_0000), Field(42, 4, offset)]
  }

  function EndFields(count: nat, size: nat, offset: nat): seq<Field> {
    [Field(0, 4, 0x0605_4b50), Field(4, 2, 0), Field(6, 2, 0), Field(8, 2, count), Field(10, 2, count),
     Field(12, 4, size), Field(16, 4, offset), Field(20, 2, 0)]
  }

  // Numbers follow one another.
  lemma {:induction false} EncodedAt(widths: seq<nat>, values: seq<nat>, i: nat)
    requires |widths| == |values| && i < |widths|
    ensures var b, p := Encode(widths, values), Sum(widths[..i]);
      |b| == Sum(widths) && p + widths[i] <= |b| && b[p..p + widths[i]] == Le(values[i], widths[i])
    decreases |widths|
  {
    EncodeLength(widths, values);
    EncodeLength(widths[1..], values[1..]);
    if i > 0 {
      EncodedAt(widths[1..], values[1..], i - 1);
      assert widths[..i][1..] == widths[1..][..i - 1];
    }
  }

  lemma {:induction false} SumNext(widths: seq<nat>, i: nat)
    requires i < |widths|
    ensures Sum(widths[..i + 1]) == Sum(widths[..i]) + widths[i]
    decreases |widths|
  {
    if i > 0 {
      SumNext(widths[1..], i - 1);
      assert widths[..i][1..] == widths[1..][..i - 1] && widths[..i + 1][1..] == widths[1..][..i];
    }
  }

  lemma {:induction false} OffsetsSum(widths: seq<nat>, fields: seq<Field>, i: nat)
    requires |widths| == |fields| && i < |fields| && Follow(widths, fields)
    ensures fields[i].offset == Sum(widths[..i])
    decreases i
  {
    if i > 0 {
      OffsetsSum(widths, fields, i - 1);
      SumNext(widths, i - 1);
    }
  }

  ghost predicate Follow(widths: seq<nat>, fields: seq<Field>)
    requires |widths| == |fields|
  {
    && (|fields| > 0 ==> fields[0].offset == 0)
    && (forall i :: 0 <= i < |fields| ==> fields[i].width == widths[i])
    && (forall i :: 0 < i < |fields| ==> fields[i].offset == fields[i - 1].offset + fields[i - 1].width)
  }

  ghost predicate Carry(values: seq<nat>, fields: seq<Field>)
    requires |values| == |fields|
  {
    forall i :: 0 <= i < |fields| ==> fields[i].value == values[i]
  }

  // The fields of a record, and its size without what follows.
  lemma EncodedFields(widths: seq<nat>, values: seq<nat>, fields: seq<Field>, tail: Bytes)
    requires |widths| == |values| == |fields| > 0 && Follow(widths, fields) && Carry(values, fields)
    ensures var last := fields[|fields| - 1];
      var b := Encode(widths, values);
      LaidOut(b + tail, fields) && |b| == last.offset + last.width && (b + tail)[|b|..] == tail
  {
    EncodeLength(widths, values);
    var b, n := Encode(widths, values), |fields|;
    forall i | 0 <= i < n ensures HasField(b + tail, fields[i]) {
      OffsetsSum(widths, fields, i);
      EncodedAt(widths, values, i);
      var p := fields[i].offset;
      assert (b + tail)[p..p + widths[i]] == b[p..p + widths[i]];
    }
    OffsetsSum(widths, fields, n - 1);
    SumNext(widths, n - 1);
    assert widths[..n] == widths;
  }

  lemma LocalFollows(e: Entry, sum: nat)
    ensures Follow(Stored().local, LocalFields(e, sum))
  {
  }

  lemma LocalCarries(e: Entry, sum: nat)
    ensures Carry(LocalValues(e, sum), LocalFields(e, sum))
  {
  }

  // The local header, its name behind it.
  lemma LocalLayout(e: Entry)
    ensures var h := LocalHeader(Stored(), e);
      LaidOut(h, LocalFields(e, Sum32(e.data))) && |h| == 30 + |e.name| && h[30..] == e.name
  {
    LocalFollows(e, Sum32(e.data));
    LocalCarries(e, Sum32(e.data));
    EncodedFields(Stored().local, LocalValues(e, Sum32(e.data)), LocalFields(e, Sum32(e.data)), e.name);
  }

  lemma CentralFollows(e: Entry, sum: nat, offset: nat)
    ensures Follow(Stored().central, CentralFields(e, sum, offset))
  {
  }

  lemma CentralCarries(e: Entry, sum: nat, offset: nat)
    ensures Carry(CentralValues(e, sum, offset), CentralFields(e, sum, offset))
  {
  }

  // The directory record.
  lemma CentralLayout(e: Entry, offset: nat)
    ensures var h := CentralRecord(Stored(), e, offset);
      LaidOut(h, CentralFields(e, Sum32(e.data), offset)) && |h| == 46 + |e.name| && h[46..] == e.name
  {
    var sum := Sum32(e.data);
    CentralFollows(e, sum, offset);
    CentralCarries(e, sum, offset);
    EncodedFields(Stored().central, CentralValues(e, sum, offset), CentralFields(e, sum, offset), e.name);
  }

  lemma EndFollows(count: nat, size: nat, offset: nat)
    ensures Follow(Stored().end, EndFields(count, size, offset))
    ensures Carry(EndValues(count, size, offset), EndFields(count, size, offset))
  {
  }

  // The end record.
  lemma EndLayout(count: nat, size: nat, offset: nat)
    ensures var h := EndRecord(Stored(), count, size, offset);
      LaidOut(h, EndFields(count, size, offset)) && |h| == 22
  {
    EndFollows(count, size, offset);
    EncodedFields(Stored().end, EndValues(count, size, offset), EndFields(count, size, offset), []);
    assert EndRecord(Stored(), count, size, offset) + [] == EndRecord(Stored(), count, size, offset);
  }
}
