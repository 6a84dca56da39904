// Trial rows: leaves of 4-bit or 8-bit codes packed into bytes, perturbed code by code, and written
// tile by tile.

module Trial {
  const MAX32: nat := 0xFFFF_FFFF

  datatype Leaf = Leaf(
    byteOffset: nat, elementOffset: nat, length: nat, bits: nat, encoding: nat,
    scale: real, weight: real, whole: nat, threshold: nat)

  datatype Tile = Tile(leaf: nat, start: nat, length: nat)

  // ---------------------------------------------------------------- one code

  function MaxCode(bits: nat): nat { if bits == 4 then 15 else 255 }

  function Amount(random: nat, whole: nat, threshold: nat): nat {
    whole + (if random / 2 < threshold / 2 then 1 else 0)
  }

  function Perturb(code: nat, random: nat, bits: nat, whole: nat, threshold: nat): nat {
    var amount := Amount(random, whole, threshold);
    var max := MaxCode(bits);
    if amount == 0 then code
    else if random % 2 == 0 then
      if code >= amount then code - amount
      else if code + amount < max then code + amount else max
    else if code + amount <= max then code + amount
    else if code >= amount then code - amount else 0
  }

  // A perturbed code stays in range, moves by at most the amount, and stays where it is only if
  // there is nothing to move by or the amount exceeds the whole range and the code sits at its edge.
  lemma PerturbMoves(code: nat, random: nat, bits: nat, whole: nat, threshold: nat)
    requires code <= MaxCode(bits)
    ensures var amount, value := Amount(random, whole, threshold), Perturb(code, random, bits, whole, threshold);
      && value <= MaxCode(bits) && value <= code + amount && code <= value + amount
      && (value == code <==>
        amount == 0 || (amount > MaxCode(bits) && code == if random % 2 == 0 then MaxCode(bits) else 0))
  {
  }

  // An even draw steps down and an odd one up, by the whole amount and one more for draws below the
  // threshold; without room on that side it steps to the other, and without room there to its edge.
  lemma PerturbSteps(code: nat, random: nat, bits: nat, whole: nat, threshold: nat)
    requires code <= MaxCode(bits) && (bits == 4 || bits == 8)
    ensures var value := Perturb(code, random, bits, whole, threshold);
      var amount := if random / 2 < threshold / 2 then whole + 1 else whole;
      var top := if bits == 4 then 15 else 255;
      && (random % 2 == 0 && code >= amount ==> value == code - amount)
      && (random % 2 == 1 && code + amount <= top ==> value == code + amount)
      && (random % 2 == 0 && code < amount ==> value == if code + amount <= top then code + amount else top)
      && (random % 2 == 1 && code + amount > top ==> value == if code >= amount then code - amount else 0)
  {
  }

  datatype Step = Step(whole: nat, threshold: nat)

  // The whole and fractional step of a leaf for an amplitude in codes.
  function LaunchStep(amplitude: real, bits: nat): Step {
    var max := MaxCode(bits) as real;
    var a := if amplitude < 0.0 then 0.0 else if amplitude > max then max else amplitude;
    var whole := a.Floor;
    Step(whole, if whole == MaxCode(bits) then 0 else ((a - whole as real) * MAX32 as real).Floor)
  }

  // Steps set up this way never exceed the range, so a nonzero amount always changes the code.
  lemma LaunchedStepMoves(amplitude: real, bits: nat, code: nat, random: nat)
    requires code <= MaxCode(bits)
    ensures var s := LaunchStep(amplitude, bits);
      && s.whole <= MaxCode(bits) && s.threshold <= MAX32
      && (Perturb(code, random, bits, s.whole, s.threshold) == code <==> Amount(random, s.whole, s.threshold) == 0)
  {
    var s := LaunchStep(amplitude, bits);
    PerturbMoves(code, random, bits, s.whole, s.threshold);
  }

  // Whole and fractional step together are the amplitude, cut to the range, up to one part in MAX32.
  lemma LaunchedStepIsAmplitude(amplitude: real, bits: nat)
    ensures var s, top := LaunchStep(amplitude, bits), MaxCode(bits) as real;
      var a := if amplitude < 0.0 then 0.0 else if amplitude > top then top else amplitude;
      var scaled := (s.whole * MAX32 + s.threshold) as real;
      scaled <= a * MAX32 as real < scaled + 1.0
  {
  }

  // ---------------------------------------------------------------- leaves

  function RowBytes(leaf: Leaf): nat {
    if leaf.bits == 4 then (leaf.length + 1) / 2 else leaf.length
  }

  function ByteStart(leaves: seq<Leaf>, n: nat): nat
    requires n <= |leaves|
  {
    if n == 0 then 0 else ByteStart(leaves, n - 1) + RowBytes(leaves[n - 1])
  }

  function ElementStart(leaves: seq<Leaf>, n: nat): nat
    requires n <= |leaves|
  {
    if n == 0 then 0 else ElementStart(leaves, n - 1) + leaves[n - 1].length
  }

  predicate Encodes(bits: nat, encoding: nat) {
    (bits == 4 && (encoding == 0 || encoding == 2)) || (bits == 8 && (encoding == 1 || encoding == 3 || encoding == 4))
  }

  predicate Shaped(leaf: Leaf) {
    && leaf.length >= 1 && leaf.scale > 0.0 && leaf.weight > 0.0
    && (leaf.bits == 4 || leaf.bits == 8)
    && (leaf.bits == 4 ==> leaf.encoding in {0, 2} && leaf.whole <= 15)
    && (leaf.bits == 8 ==> leaf.encoding in {1, 3, 4} && leaf.whole <= 255)
  }

  // The first n leaves are well shaped and follow one another without gap.
  predicate Contiguous(leaves: seq<Leaf>, n: nat)
    requires n <= |leaves|
  {
    n == 0 ||
    (Contiguous(leaves, n - 1) && Shaped(leaves[n - 1]) && ElementStart(leaves, n) <= 0xFFFF_FFFF
     && leaves[n - 1].byteOffset == ByteStart(leaves, n - 1)
     && leaves[n - 1].elementOffset == ElementStart(leaves, n - 1))
  }

  predicate ValidLeaves(rowBytes: nat, leaves: seq<Leaf>) {
    && leaves != [] && 0 < rowBytes <= 0xFFFF_FFFF
    && Contiguous(leaves, |leaves|) && ByteStart(leaves, |leaves|) == rowBytes
  }

  lemma {:induction false} ContiguousAt(leaves: seq<Leaf>, n: nat, i: nat)
    requires i < n <= |leaves| && Contiguous(leaves, n)
    ensures Contiguous(leaves, i + 1) && Shaped(leaves[i])
    ensures leaves[i].byteOffset == ByteStart(leaves, i) && leaves[i].elementOffset == ElementStart(leaves, i)
    decreases n
  {
    if i < n - 1 {
      ContiguousAt(leaves, n - 1, i);
    }
  }

  lemma {:induction false} StartsGrow(leaves: seq<Leaf>, i: nat, j: nat)
    requires i <= j <= |leaves|
    ensures ByteStart(leaves, i) <= ByteStart(leaves, j) && ElementStart(leaves, i) <= ElementStart(leaves, j)
    decreases j - i
  {
    if i < j {
      StartsGrow(leaves, i, j - 1);
    }
  }

  method TrialLeaves(rowBytes: nat, leaves: seq<Leaf>) returns (ok: bool)
    ensures ok <==> ValidLeaves(rowBytes, leaves)
  {
    if leaves == [] || rowBytes == 0 || rowBytes > MAX32 {
      return false;
    }
    var bytes, elements := 0, 0;
    for n := 0 to |leaves|
      invariant bytes == ByteStart(leaves, n) && elements == ElementStart(leaves, n) && Contiguous(leaves, n)
    {
      var fits := CheckLeaf(leaves, n, bytes, elements);
      if !fits {
        if Contiguous(leaves, |leaves|) {
          ContiguousAt(leaves, |leaves|, n);
        }
        return false;
      }
      bytes := bytes + RowBytes(leaves[n]);
      elements := elements + leaves[n].length;
    }
    ok := bytes == rowBytes;
  }

  method CheckLeaf(leaves: seq<Leaf>, n: nat, bytes: nat, elements: nat) returns (ok: bool)
    requires n < |leaves| && Contiguous(leaves, n)
    requires bytes == ByteStart(leaves, n) && elements == ElementStart(leaves, n)
    ensures ok <==> Contiguous(leaves, n + 1)
  {
    var leaf := leaves[n];
    if leaf.length == 0 || !Encodes(leaf.bits, leaf.encoding) || leaf.scale <= 0.0 || leaf.weight <= 0.0 {
      return false;
    }
    if leaf.byteOffset != bytes || leaf.elementOffset != elements || elements + leaf.length > MAX32 {
      return false;
    }
    ok := leaf.whole <= MaxCode(leaf.bits);
  }

  // ---------------------------------------------------------------- tiles

  // How far the first n tiles cover leaf l.
  function Covered(tiles: seq<Tile>, n: nat, l: nat): nat
    requires n <= |tiles|
  {
    if n == 0 then 0
    else if tiles[n - 1].leaf == l then tiles[n - 1].start + tiles[n - 1].length
    else Covered(tiles, n - 1, l)
  }

  predicate Fits(leaves: seq<Leaf>, tiles: seq<Tile>, t: nat)
    requires t < |tiles|
  {
    var tile := tiles[t];
    && tile.leaf < |leaves| && tile.length > 0 && tile.start == Covered(tiles, t, tile.leaf)
    && tile.start + tile.length <= leaves[tile.leaf].length
    && (leaves[tile.leaf].bits == 4 ==> tile.start % 2 == 0)
  }

  predicate AllFit(leaves: seq<Leaf>, tiles: seq<Tile>, n: nat)
    requires n <= |tiles|
  {
    n == 0 || (AllFit(leaves, tiles, n - 1) && Fits(leaves, tiles, n - 1))
  }

  lemma {:induction false} AllFitAt(leaves: seq<Leaf>, tiles: seq<Tile>, n: nat, t: nat)
    requires t < n <= |tiles| && AllFit(leaves, tiles, n)
    ensures Fits(leaves, tiles, t) && AllFit(leaves, tiles, t) && AllFit(leaves, tiles, t + 1)
    decreases n
  {
    if t < n - 1 {
      AllFitAt(leaves, tiles, n - 1, t);
    }
  }

  predicate AllCovered(leaves: seq<Leaf>, tiles: seq<Tile>) {
    forall l :: 0 <= l < |leaves| ==> Covered(tiles, |tiles|, l) == leaves[l].length
  }

  predicate ValidLayout(rowBytes: nat, leaves: seq<Leaf>, tiles: seq<Tile>) {
    ValidLeaves(rowBytes, leaves) && tiles != [] && AllFit(leaves, tiles, |tiles|) && AllCovered(leaves, tiles)
  }

  method TrialLayout(rowBytes: nat, leaves: seq<Leaf>, tiles: seq<Tile>) returns (ok: bool)
    requires forall l :: 0 <= l < |leaves| ==> leaves[l].length <= MAX32
    ensures ok <==> ValidLayout(rowBytes, leaves, tiles)
  {
    ok := TrialLeaves(rowBytes, leaves);
    if !ok || tiles == [] {
      return false;
    }
    var covered := seq(|leaves|, _ => 0);
    for t := 0 to |tiles|
      invariant |covered| == |leaves| && AllFit(leaves, tiles, t)
      invariant forall l :: 0 <= l < |leaves| ==> covered[l] == Covered(tiles, t, l)
    {
      var fits := CheckTile(leaves, tiles, t, covered);
      if !fits {
        if AllFit(leaves, tiles, |tiles|) {
          AllFitAt(leaves, tiles, |tiles|, t);
        }
        return false;
      }
      covered := covered[tiles[t].leaf := tiles[t].start + tiles[t].length];
    }
    ok := CheckCovered(leaves, tiles, covered);
  }

  method CheckTile(leaves: seq<Leaf>, tiles: seq<Tile>, t: nat, covered: seq<nat>) returns (ok: bool)
    requires t < |tiles| && |covered| == |leaves|
    requires forall l :: 0 <= l < |leaves| ==> covered[l] == Covered(tiles, t, l)
    requires forall l :: 0 <= l < |leaves| ==> leaves[l].length <= MAX32
    ensures ok <==> Fits(leaves, tiles, t)
  {
    var tile := tiles[t];
    if tile.leaf >= |leaves| {
      return false;
    }
    var leaf := leaves[tile.leaf];
    if tile.length == 0 || tile.start != covered[tile.leaf] {
      return false;
    }
    var end := tile.start + tile.length;
    ok := end <= MAX32 && end <= leaf.length && !(leaf.bits == 4 && tile.start % 2 != 0);
  }

  method CheckCovered(leaves: seq<Leaf>, tiles: seq<Tile>, covered: seq<nat>) returns (ok: bool)
    requires |covered| == |leaves| && forall l :: 0 <= l < |leaves| ==> covered[l] == Covered(tiles, |tiles|, l)
    ensures ok <==> AllCovered(leaves, tiles)
  {
    for l := 0 to |leaves|
      invariant forall k :: 0 <= k < l ==> Covered(tiles, |tiles|, k) == leaves[k].length
    {
      if covered[l] != leaves[l].length {
        return false;
      }
    }
    ok := true;
  }

  // ---------------------------------------------------------------- exactly one writer per byte

  // Bytes the first `elements` elements of a leaf take.
  function BytesOf(leaf: Leaf, elements: nat): nat {
    if leaf.bits == 4 then (elements + 1) / 2 else elements
  }

  // Tile t writes byte b of the row.
  predicate Writes(leaves: seq<Leaf>, tile: Tile, b: nat)
    requires tile.leaf < |leaves|
  {
    InTile(leaves[tile.leaf], tile, b)
  }

  predicate InTile(leaf: Leaf, tile: Tile, b: int) {
    leaf.byteOffset + BytesOf(leaf, tile.start) <= b < leaf.byteOffset + BytesOf(leaf, tile.start + tile.length)
  }

  // The leaf a byte belongs to.
  function Owner(leaves: seq<Leaf>, n: nat, b: nat): (l: nat)
    requires n <= |leaves| && b < ByteStart(leaves, n)
    ensures l < n && ByteStart(leaves, l) <= b < ByteStart(leaves, l + 1)
  {
    if b >= ByteStart(leaves, n - 1) then n - 1 else Owner(leaves, n - 1, b)
  }

  lemma OneOwner(leaves: seq<Leaf>, l: nat, k: nat, b: nat)
    requires l < |leaves| && k < |leaves|
    requires ByteStart(leaves, l) <= b < ByteStart(leaves, l + 1)
    requires ByteStart(leaves, k) <= b < ByteStart(leaves, k + 1)
    ensures l == k
  {
    if l < k {
      StartsGrow(leaves, l + 1, k);
    } else if k < l {
      StartsGrow(leaves, k + 1, l);
    }
  }

  // A tile writes only bytes of its own leaf.
  lemma WritesInOwner(rowBytes: nat, leaves: seq<Leaf>, tiles: seq<Tile>, t: nat, b: nat)
    requires ValidLeaves(rowBytes, leaves) && t < |tiles| && Fits(leaves, tiles, t) && Writes(leaves, tiles[t], b)
    ensures b < rowBytes && Owner(leaves, |leaves|, b) == tiles[t].leaf
  {
    var l := tiles[t].leaf;
    var leaf := leaves[l];
    ContiguousAt(leaves, |leaves|, l);
    assert BytesOf(leaf, tiles[t].start + tiles[t].length) <= RowBytes(leaf);
    StartsGrow(leaves, l + 1, |leaves|);
    OneOwner(leaves, l, Owner(leaves, |leaves|, b), b);
  }

  lemma {:induction false} SomeTile(leaves: seq<Leaf>, tiles: seq<Tile>, n: nat, l: nat, b: nat) returns (t: nat)
    requires n <= |tiles| && l < |leaves| && AllFit(leaves, tiles, n)
    requires leaves[l].byteOffset <= b < leaves[l].byteOffset + BytesOf(leaves[l], Covered(tiles, n, l))
    ensures t < n && tiles[t].leaf == l && Writes(leaves, tiles[t], b)
    decreases n
  {
    var last := tiles[n - 1];
    if last.leaf == l && b >= leaves[l].byteOffset + BytesOf(leaves[l], last.start) {
      t := n - 1;
    } else {
      t := SomeTile(leaves, tiles, n - 1, l, b);
    }
  }

  lemma {:induction false} CoveredGrows(leaves: seq<Leaf>, tiles: seq<Tile>, t: nat, n: nat)
    requires t < n <= |tiles| && AllFit(leaves, tiles, n)
    ensures Covered(tiles, n, tiles[t].leaf) >= tiles[t].start + tiles[t].length
    decreases n
  {
    if t < n - 1 {
      CoveredGrows(leaves, tiles, t, n - 1);
    }
  }

  lemma OneTile(leaves: seq<Leaf>, tiles: seq<Tile>, t: nat, u: nat, b: nat)
    requires t < u < |tiles| && AllFit(leaves, tiles, |tiles|)
    requires Fits(leaves, tiles, t) && Fits(leaves, tiles, u) && tiles[t].leaf == tiles[u].leaf
    ensures !(Writes(leaves, tiles[t], b) && Writes(leaves, tiles[u], b))
  {
    AllFitAt(leaves, tiles, |tiles|, u);
    CoveredGrows(leaves, tiles, t, u);
  }

  ghost predicate Writer(leaves: seq<Leaf>, tiles: seq<Tile>, t: nat, b: nat) {
    t < |tiles| && tiles[t].leaf < |leaves| && Writes(leaves, tiles[t], b)
  }

  // Every byte of the row has exactly one writing tile.
  lemma ExactlyOneWriter(rowBytes: nat, leaves: seq<Leaf>, tiles: seq<Tile>, b: nat) returns (t: nat)
    requires ValidLayout(rowBytes, leaves, tiles) && b < rowBytes
    ensures Writer(leaves, tiles, t, b)
    ensures forall u: nat :: Writer(leaves, tiles, u, b) ==> u == t
  {
    var l := Owner(leaves, |leaves|, b);
    ContiguousAt(leaves, |leaves|, l);
    t := SomeTile(leaves, tiles, |tiles|, l, b);
    forall u: nat | Writer(leaves, tiles, u, b) ensures u == t {
      AllFitAt(leaves, tiles, |tiles|, u);
      AllFitAt(leaves, tiles, |tiles|, t);
      WritesInOwner(rowBytes, leaves, tiles, u, b);
      if u < t {
        OneTile(leaves, tiles, u, t, b);
      } else if t < u {
        OneTile(leaves, tiles, t, u, b);
      }
    }
  }

  // ---------------------------------------------------------------- the packed row

  // The code of an element in a packed row.
  function CodeAt(row: seq<nat>, leaf: Leaf, element: nat): nat
    requires leaf.byteOffset + BytesOf(leaf, element + 1) <= |row|
  {
    if leaf.bits != 4 then row[leaf.byteOffset + element]
    else if element % 2 == 0 then row[leaf.byteOffset + element / 2] % 16
    else row[leaf.byteOffset + element / 2] / 16
  }

  type Random = nat -> nat

  function Changed(base: seq<nat>, leaf: Leaf, element: nat, random: Random): nat
    requires leaf.byteOffset + BytesOf(leaf, element + 1) <= |base|
  {
    Perturb(CodeAt(base, leaf, element), random(leaf.elementOffset + element), leaf.bits, leaf.whole, leaf.threshold)
  }

  // Byte c of a leaf after perturbing its codes.
  function PackedByte(base: seq<nat>, leaf: Leaf, c: nat, random: Random): nat
    requires leaf.byteOffset + RowBytes(leaf) <= |base| && c < RowBytes(leaf)
  {
    if leaf.bits != 4 then Changed(base, leaf, c, random)
    else
      Changed(base, leaf, 2 * c, random)
      + 16 * (if 2 * c + 1 < leaf.length then Changed(base, leaf, 2 * c + 1, random) else 0)
  }

  ghost predicate Codes(row: seq<nat>) {
    forall b :: 0 <= b < |row| ==> row[b] < 256
  }

  // Each perturbed code reads back from the packed row, in range.
  lemma PackedReadsBack(base: seq<nat>, packed: seq<nat>, leaf: Leaf, element: nat, random: Random)
    requires Codes(base) && |packed| == |base| && leaf.byteOffset + RowBytes(leaf) <= |base| && element < leaf.length
    requires Shaped(leaf)
    requires forall c :: 0 <= c < RowBytes(leaf) ==> packed[leaf.byteOffset + c] == PackedByte(base, leaf, c, random)
    ensures CodeAt(packed, leaf, element) == Changed(base, leaf, element, random) <= MaxCode(leaf.bits)
  {
    ChangedInRange(base, leaf, element, random);
    if leaf.bits == 4 {
      var c := element / 2;
      assert packed[leaf.byteOffset + c] == PackedByte(base, leaf, c, random);
      ChangedInRange(base, leaf, 2 * c, random);
      assert element == 2 * c || element == 2 * c + 1;
    } else {
      assert packed[leaf.byteOffset + element] == PackedByte(base, leaf, element, random);
    }
  }

  lemma ChangedInRange(base: seq<nat>, leaf: Leaf, element: nat, random: Random)
    requires Codes(base) && Shaped(leaf) && leaf.byteOffset + BytesOf(leaf, element + 1) <= |base|
    ensures Changed(base, leaf, element, random) <= MaxCode(leaf.bits)
  {
    var code := CodeAt(base, leaf, element);
    PerturbMoves(code, random(leaf.elementOffset + element), leaf.bits, leaf.whole, leaf.threshold);
  }

  // ---------------------------------------------------------------- writing it

  // The whole trial row, byte by byte.
  function ExpectedByte(base: seq<nat>, leaves: seq<Leaf>, b: nat, random: Random): nat
    requires ValidLeaves(|base|, leaves) && b < |base|
  {
    var l := Owner(leaves, |leaves|, b);
    OwnByte(leaves, l, b);
    PackedByte(base, leaves[l], b - leaves[l].byteOffset, random)
  }

  lemma OwnByte(leaves: seq<Leaf>, l: nat, b: nat)
    requires Contiguous(leaves, |leaves|) && l < |leaves| && ByteStart(leaves, l) <= b < ByteStart(leaves, l + 1)
    ensures leaves[l].byteOffset <= b < leaves[l].byteOffset + RowBytes(leaves[l])
    ensures leaves[l].byteOffset + RowBytes(leaves[l]) <= ByteStart(leaves, |leaves|)
  {
    ContiguousAt(leaves, |leaves|, l);
    StartsGrow(leaves, l + 1, |leaves|);
  }

  predicate InLeaf(leaf: Leaf, b: int) {
    leaf.byteOffset <= b < leaf.byteOffset + RowBytes(leaf)
  }

  // One block of the kernel: the bytes of one tile.
  method WriteTile(base: seq<nat>, row: array<nat>, leaf: Leaf, tile: Tile, random: Random)
    requires tile.start + tile.length <= leaf.length && (leaf.bits == 4 ==> tile.start % 2 == 0)
    requires leaf.byteOffset + RowBytes(leaf) <= |base| == row.Length
    modifies row
    ensures forall b :: 0 <= b < row.Length ==>
      row[b] == if InTile(leaf, tile, b) then PackedByte(base, leaf, b - leaf.byteOffset, random) else old(row[b])
  {
    if leaf.bits == 4 {
      WriteNibbles(base, row, leaf, tile, random);
    } else {
      for element := tile.start to tile.start + tile.length
        invariant forall b :: 0 <= b < row.Length ==>
          row[b] == if leaf.byteOffset + tile.start <= b < leaf.byteOffset + element
                    then PackedByte(base, leaf, b - leaf.byteOffset, random) else old(row[b])
      {
        row[leaf.byteOffset + element] := Changed(base, leaf, element, random);
      }
    }
  }

  method WriteNibbles(base: seq<nat>, row: array<nat>, leaf: Leaf, tile: Tile, random: Random)
    requires leaf.bits == 4 && tile.start % 2 == 0 && tile.start + tile.length <= leaf.length
    requires leaf.byteOffset + RowBytes(leaf) <= |base| == row.Length
    modifies row
    ensures forall b :: 0 <= b < row.Length ==>
      row[b] == if InTile(leaf, tile, b) then PackedByte(base, leaf, b - leaf.byteOffset, random) else old(row[b])
  {
    var firstByte, bytes := tile.start / 2, (tile.length + 1) / 2;
    for local := 0 to bytes
      invariant forall b :: 0 <= b < row.Length ==>
        row[b] == if leaf.byteOffset + firstByte <= b < leaf.byteOffset + firstByte + local
                  then PackedByte(base, leaf, b - leaf.byteOffset, random) else old(row[b])
    {
      var first := tile.start + local * 2;
      assert first == 2 * (firstByte + local);
      var low := Changed(base, leaf, first, random);
      var high := if first + 1 < leaf.length then Changed(base, leaf, first + 1, random) else 0;
      row[leaf.byteOffset + firstByte + local] := low + 16 * high;
    }
  }

  method WriteOne(base: seq<nat>, row: array<nat>, leaves: seq<Leaf>, tiles: seq<Tile>, t: nat, random: Random)
    requires ValidLayout(|base|, leaves, tiles) && row.Length == |base| && t < |tiles|
    modifies row
    ensures forall b :: 0 <= b < row.Length ==>
      row[b] == if Writer(leaves, tiles, t, b) then ExpectedByte(base, leaves, b, random) else old(row[b])
  {
    AllFitAt(leaves, tiles, |tiles|, t);
    var tile := tiles[t];
    LeafInside(|base|, leaves, tile.leaf);
    WriteTile(base, row, leaves[tile.leaf], tile, random);
    forall b | 0 <= b < row.Length && Writer(leaves, tiles, t, b)
      ensures row[b] == ExpectedByte(base, leaves, b, random)
    {
      WritesInOwner(|base|, leaves, tiles, t, b);
    }
  }

  // The tiles in any order, each at least once, leave the whole expected row.
  method WriteTrial(
    base: seq<nat>, row: array<nat>, leaves: seq<Leaf>, tiles: seq<Tile>, order: seq<nat>, random: Random)
    requires ValidLayout(|base|, leaves, tiles) && row.Length == |base|
    requires forall i :: 0 <= i < |order| ==> order[i] < |tiles|
    requires forall t: nat :: t < |tiles| ==> t in order
    modifies row
    ensures forall b :: 0 <= b < row.Length ==> row[b] == ExpectedByte(base, leaves, b, random)
  {
    for i := 0 to |order|
      invariant forall k, b :: 0 <= k < i && 0 <= b < row.Length && Writer(leaves, tiles, order[k], b) ==>
        row[b] == ExpectedByte(base, leaves, b, random)
    {
      WriteOne(base, row, leaves, tiles, order[i], random);
    }
    forall b | 0 <= b < row.Length ensures row[b] == ExpectedByte(base, leaves, b, random) {
      var t := ExactlyOneWriter(|base|, leaves, tiles, b);
      assert t in order;
      var k :| 0 <= k < |order| && order[k] == t;
      assert Writer(leaves, tiles, order[k], b);
    }
  }

  lemma LeafInside(rowBytes: nat, leaves: seq<Leaf>, l: nat)
    requires ValidLeaves(rowBytes, leaves) && l < |leaves|
    ensures leaves[l].byteOffset + RowBytes(leaves[l]) <= rowBytes
  {
    ContiguousAt(leaves, |leaves|, l);
    StartsGrow(leaves, l + 1, |leaves|);
  }

  // ---------------------------------------------------------------- the element-by-element row

  // Setting bits of a byte whose bits from `shift` on are clear.
  function OrShifted(byte: nat, value: nat, shift: nat): nat
    requires shift == 0 || shift == 4
    requires if shift == 0 then byte == 0 else byte < 16
  {
    byte + (if shift == 0 then value else 16 * value)
  }

  // Byte c of a leaf once its first `elements` elements are packed.
  function PartByte(base: seq<nat>, leaf: Leaf, c: nat, elements: nat, random: Random): nat
    requires leaf.byteOffset + RowBytes(leaf) <= |base| && c < RowBytes(leaf) && elements <= leaf.length
  {
    if leaf.bits != 4 then (if c < elements then Changed(base, leaf, c, random) else 0)
    else
      (if 2 * c < elements then Changed(base, leaf, 2 * c, random) else 0)
      + 16 * (if 2 * c + 1 < elements then Changed(base, leaf, 2 * c + 1, random) else 0)
  }

  method PackElement(base: seq<nat>, row: array<nat>, leaf: Leaf, element: nat, random: Random)
    requires Codes(base) && Shaped(leaf) && element < leaf.length
    requires leaf.byteOffset + RowBytes(leaf) <= |base| == row.Length
    requires forall b :: InLeaf(leaf, b) ==> row[b] == PartByte(base, leaf, b - leaf.byteOffset, element, random)
    modifies row
    ensures forall b :: InLeaf(leaf, b) ==> row[b] == PartByte(base, leaf, b - leaf.byteOffset, element + 1, random)
    ensures forall b :: 0 <= b < row.Length && !InLeaf(leaf, b) ==> row[b] == old(row[b])
  {
    var c := if leaf.bits == 4 then element / 2 else element;
    var shift := if leaf.bits == 4 then element % 2 * 4 else 0;
    assert InLeaf(leaf, leaf.byteOffset + c);
    PartNext(base, leaf, c, element, random);
    var value := Changed(base, leaf, element, random);
    row[leaf.byteOffset + c] := OrShifted(row[leaf.byteOffset + c], value, shift);
  }

  // One more element changes one byte, whose bits from the element's shift on were clear.
  lemma PartNext(base: seq<nat>, leaf: Leaf, c: nat, element: nat, random: Random)
    requires Codes(base) && Shaped(leaf) && leaf.byteOffset + RowBytes(leaf) <= |base| && element < leaf.length
    requires c == if leaf.bits == 4 then element / 2 else element
    ensures var shift := if leaf.bits == 4 then element % 2 * 4 else 0;
      var byte := PartByte(base, leaf, c, element, random);
      && (if shift == 0 then byte == 0 else byte < 16)
      && PartByte(base, leaf, c, element + 1, random) == OrShifted(byte, Changed(base, leaf, element, random), shift)
    ensures forall k :: 0 <= k < RowBytes(leaf) && k != c ==>
      PartByte(base, leaf, k, element + 1, random) == PartByte(base, leaf, k, element, random)
  {
    ChangedInRange(base, leaf, if leaf.bits == 4 then 2 * c else c, random);
  }

  // The reference packs one element after the other and arrives at the same row.
  method ExpectedRow(base: seq<nat>, leaves: seq<Leaf>, random: Random) returns (row: array<nat>)
    requires Codes(base) && ValidLeaves(|base|, leaves)
    ensures fresh(row) && row.Length == |base|
    ensures forall b :: 0 <= b < row.Length ==> row[b] == ExpectedByte(base, leaves, b, random)
  {
    row := new nat[|base|](_ => 0);
    for l := 0 to |leaves|
      invariant forall b :: 0 <= b < row.Length ==>
        row[b] == if b < ByteStart(leaves, l) then ExpectedByte(base, leaves, b, random) else 0
    {
      NextLeaf(base, row, leaves, l, random);
    }
  }

  method NextLeaf(base: seq<nat>, row: array<nat>, leaves: seq<Leaf>, l: nat, random: Random)
    requires Codes(base) && ValidLeaves(|base|, leaves) && l < |leaves| && row.Length == |base|
    requires forall b :: 0 <= b < row.Length ==>
      row[b] == if b < ByteStart(leaves, l) then ExpectedByte(base, leaves, b, random) else 0
    modifies row
    ensures forall b :: 0 <= b < row.Length ==>
      row[b] == if b < ByteStart(leaves, l + 1) then ExpectedByte(base, leaves, b, random) else 0
  {
    ContiguousAt(leaves, |leaves|, l);
    LeafInside(|base|, leaves, l);
    PackLeaf(base, row, leaves[l], random);
    forall b | 0 <= b < row.Length && InLeaf(leaves[l], b) ensures row[b] == ExpectedByte(base, leaves, b, random) {
      OneOwner(leaves, l, Owner(leaves, |leaves|, b), b);
    }
  }

  method PackLeaf(base: seq<nat>, row: array<nat>, leaf: Leaf, random: Random)
    requires Codes(base) && Shaped(leaf) && leaf.byteOffset + RowBytes(leaf) <= |base| == row.Length
    requires forall b :: InLeaf(leaf, b) ==> row[b] == 0
    modifies row
    ensures forall b :: InLeaf(leaf, b) ==> row[b] == PackedByte(base, leaf, b - leaf.byteOffset, random)
    ensures forall b :: 0 <= b < row.Length && !InLeaf(leaf, b) ==> row[b] == old(row[b])
  {
    for element := 0 to leaf.length
      invariant forall b :: InLeaf(leaf, b) ==> row[b] == PartByte(base, leaf, b - leaf.byteOffset, element, random)
      invariant forall b :: 0 <= b < row.Length && !InLeaf(leaf, b) ==> row[b] == old(row[b])
    {
      PackElement(base, row, leaf, element, random);
    }
  }
}
