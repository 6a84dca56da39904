// The seed hashes, on words of a fixed number of bits. Every step permutes the words, so distinct
// inputs never meet.

module Hash {
  import opened Words

  // ---------------------------------------------------------------- the steps

  // v ^ (v >> k)
  function Fold(v: Bits, k: nat): (w: Bits)
    ensures |w| == |v|
  {
    if k >= |v| then v else Xor(v, v[k..] + Repeat(false, k))
  }

  // The top k bits of a folded word are the word's own; they uncover the next k, and so on.
  function Unfold(w: Bits, k: nat): (v: Bits)
    requires k > 0
    ensures |v| == |w|
    decreases |w|
  {
    if k >= |w| then w else Xor(w, Unfold(w[k..], k) + Repeat(false, k))
  }

  lemma {:induction false} FoldInverts(v: Bits, k: nat)
    requires k > 0
    ensures Unfold(Fold(v, k), k) == v
    decreases |v|
  {
    if k < |v| {
      var w := Fold(v, k);
      forall i | 0 <= i < |v| - k ensures w[k..][i] == Fold(v[k..], k)[i] {
      }
      assert w[k..] == Fold(v[k..], k);
      FoldInverts(v[k..], k);
      var shifted := v[k..] + Repeat(false, k);
      assert Unfold(w, k) == Xor(w, shifted);
      forall i | 0 <= i < |v| ensures Xor(w, shifted)[i] == v[i] {
      }
    }
  }

  lemma {:induction false} UnfoldInverts(w: Bits, k: nat)
    requires k > 0
    ensures Fold(Unfold(w, k), k) == w
    decreases |w|
  {
    if k < |w| {
      UnfoldInverts(w[k..], k);
      var v, upper := Unfold(w, k), Unfold(w[k..], k);
      var shifted := upper + Repeat(false, k);
      assert v == Xor(w, shifted);
      forall i | 0 <= i < |w| - k ensures v[k..][i] == upper[i] {
        assert Fold(upper, k)[i] == w[k..][i];
      }
      assert v[k..] == upper;
      forall i | 0 <= i < |w| ensures Fold(v, k)[i] == w[i] {
      }
    }
  }

  // v * c, wrapping around.
  function Times(v: Bits, c: nat): (w: Bits)
    ensures |w| == |v|
  {
    BitsOf(Value(v) * c % Pow2(|v|), |v|)
  }

  // x + c for numbers below m, wrapping around.
  function Wrap(x: nat, c: nat, m: nat): (r: nat)
    requires x < m && c < m
    ensures r < m
  {
    if x + c < m then x + c else x + c - m
  }

  // v + c for a word c.
  function Plus(v: Bits, c: nat): (w: Bits)
    requires c < Pow2(|v|)
    ensures |w| == |v|
  {
    ValueFits(v);
    BitsOf(Wrap(Value(v), c, Pow2(|v|)), |v|)
  }

  lemma ModTimes(x: nat, c: nat, d: nat, m: nat, q: nat)
    requires m > 0 && x < m && c * d == q * m + 1
    ensures (x * c % m) * d % m == x
  {
    var p, r := x * c / m, x * c % m;
    assert x * c == p * m + r;
    assert (p * m + r) * d == p * m * d + r * d;
    assert x * c * d == x * (c * d) == x * (q * m + 1) == (x * q) * m + x;
    assert p * m * d == (p * d) * m;
    assert r * d == (x * q - p * d) * m + x;
    ModOf(r * d, x * q - p * d, m, x);
  }

  lemma ModOf(n: int, q: int, m: nat, x: nat)
    requires x < m && n == q * m + x
    ensures n % m == x
  {
    var p, r := n / m, n % m;
    assert n == p * m + r;
    Gap(p, q, m, r, x);
    Gap(q, p, m, x, r);
  }

  lemma Gap(p: int, q: int, m: nat, r: nat, x: nat)
    requires p * m + r == q * m + x && r < m && x < m
    ensures p >= q
  {
    if p < q {
      var k := q - p;
      assert q * m == p * m + k * m;
      Grow(k, m);
    }
  }

  lemma {:induction false} Grow(k: nat, m: nat)
    requires k >= 1
    ensures k * m >= m
  {
    if k > 1 {
      Grow(k - 1, m);
    }
    assert k * m == (k - 1) * m + m;
  }

  // c and d undo one another.
  ghost predicate Inverse(c: nat, d: nat, bits: nat) {
    exists q: nat :: c * d == q * Pow2(bits) + 1
  }

  lemma TimesInverts(v: Bits, c: nat, d: nat)
    requires Inverse(c, d, |v|)
    ensures Times(Times(v, c), d) == v
  {
    var m := Pow2(|v|);
    var q: nat :| c * d == q * m + 1;
    ValueFits(v);
    ValueOfBits(Value(v) * c % m, |v|);
    ModTimes(Value(v), c, d, m, q);
    BitsOfValue(v);
  }

  lemma PlusInverts(v: Bits, c: nat, d: nat)
    requires c < Pow2(|v|) && d < Pow2(|v|) && c + d == Pow2(|v|)
    ensures Plus(Plus(v, c), d) == v
  {
    var n, m, x := |v|, Pow2(|v|), Value(v);
    ValueFits(v);
    var y := Wrap(x, c, m);
    ValueOfBits(y, n);
    assert Wrap(y, d, m) == x;
    var w := Plus(v, c);
    assert Value(w) == y;
    BitsOfValue(v);
  }

  lemma XorInverts(v: Bits, key: Bits)
    requires |v| == |key|
    ensures Xor(Xor(v, key), key) == v
  {
  }

  // ---------------------------------------------------------------- the constants

  const SPREAD: nat := 0x9E37_79B9
  const GATHER: nat := 0x144C_BC89
  const FIRST: nat := 0x7FEB_352D
  const UNFIRST: nat := 0x1D69_E2A5
  const SECOND: nat := 0x846C_A68B
  const UNSECOND: nat := 0x4302_1123
  const LEFT: nat := 0xBF58_476D_1CE4_E5B9
  const UNLEFT: nat := 0x96DE_1B17_3F11_9089
  const RIGHT: nat := 0x94D0_49BB_1331_11EB
  const UNRIGHT: nat := 0x3196_42B2_D24D_8EC3
  const STEP: nat := 0x9E37_79B9_7F4A_7C15
  const UNSTEP: nat := 0x61C8_8646_80B5_83EB

  lemma WordSizes()
    ensures Pow2(32) == 0x1_0000_0000 && Pow2(64) == 0x1_0000_0000_0000_0000
  {
    assert Pow2(4) == 2 * Pow2(3) == 4 * Pow2(2) == 8 * Pow2(1) == 16;
    PowersAdd(4, 4);
    PowersAdd(8, 8);
    PowersAdd(16, 16);
    PowersAdd(32, 32);
  }

  lemma {:induction false} PowersAdd(a: nat, b: nat)
    ensures Pow2(a + b) == Pow2(a) * Pow2(b)
    decreases b
  {
    if b > 0 {
      PowersAdd(a, b - 1);
    }
  }

  lemma Constants()
    ensures Inverse(SPREAD, GATHER, 32) && Inverse(GATHER, SPREAD, 32)
    ensures Inverse(FIRST, UNFIRST, 32) && Inverse(UNFIRST, FIRST, 32)
    ensures Inverse(SECOND, UNSECOND, 32) && Inverse(UNSECOND, SECOND, 32)
    ensures Inverse(LEFT, UNLEFT, 64) && Inverse(UNLEFT, LEFT, 64)
    ensures Inverse(RIGHT, UNRIGHT, 64) && Inverse(UNRIGHT, RIGHT, 64)
    ensures STEP + UNSTEP == Pow2(64) && STEP < Pow2(64) && UNSTEP < Pow2(64)
  {
    WordSizes();
    assert SPREAD * GATHER == 0x0C8B_C280 * Pow2(32) + 1;
    assert FIRST * UNFIRST == 0x0EB2_8DBF * Pow2(32) + 1;
    assert SECOND * UNSECOND == 0x22A9_814D * Pow2(32) + 1;
    assert LEFT * UNLEFT == 0x70C3_BCA7_8F27_F46C * Pow2(64) + 1;
    assert RIGHT * UNRIGHT == 0x1CD3_36ED_A85F_1453 * Pow2(64) + 1;
  }

  // ---------------------------------------------------------------- the trial hash

  type Word32 = b: Bits | |b| == 32 witness Repeat(false, 32)
  type Word64 = b: Bits | |b| == 64 witness Repeat(false, 64)

  function TrialHash(low: Word32, high: Word32, index: Word32): Word32 {
    var mixed := Fold(Xor(low, Times(index, SPREAD)), 16);
    Fold(Times(Xor(Times(mixed, FIRST), high), SECOND), 15)
  }

  function Unhash(low: Word32, high: Word32, hash: Word32): Word32 {
    var mixed := Times(Xor(Times(Unfold(hash, 15), UNSECOND), high), UNFIRST);
    Times(Xor(Unfold(mixed, 16), low), GATHER)
  }

  lemma XorSwaps(a: Bits, b: Bits)
    requires |a| == |b|
    ensures Xor(a, b) == Xor(b, a)
  {
  }

  // For every pair of keys the hash permutes the 32-bit words: it is undone from either side.
  lemma TrialHashInverts(low: Word32, high: Word32, index: Word32)
    ensures Unhash(low, high, TrialHash(low, high, index)) == index
  {
    Constants();
    var a := Times(index, SPREAD);
    XorSwaps(low, a);
    var b := Xor(a, low);
    var c := Fold(b, 16);
    var d := Times(c, FIRST);
    var e := Xor(d, high);
    FoldInverts(Times(e, SECOND), 15);
    TimesInverts(e, SECOND, UNSECOND);
    XorInverts(d, high);
    TimesInverts(c, FIRST, UNFIRST);
    FoldInverts(b, 16);
    XorInverts(a, low);
    TimesInverts(index, SPREAD, GATHER);
  }

  lemma TrialHashIsOnto(low: Word32, high: Word32, hash: Word32)
    ensures TrialHash(low, high, Unhash(low, high, hash)) == hash
  {
    Constants();
    var e := Unfold(hash, 15);
    var d := Times(e, UNSECOND);
    var c := Xor(d, high);
    var b := Times(c, UNFIRST);
    var a := Unfold(b, 16);
    var x := Xor(a, low);
    TimesInverts(x, GATHER, SPREAD);
    XorSwaps(low, x);
    XorInverts(a, low);
    UnfoldInverts(b, 16);
    TimesInverts(c, UNFIRST, FIRST);
    XorInverts(d, high);
    TimesInverts(e, UNSECOND, SECOND);
    UnfoldInverts(hash, 15);
  }

  // A candidate's seed: two hashes of its stream under the two halves of the root.
  datatype Seed = Seed(low: Word32, high: Word32)

  function CandidateSeed(root: Seed, stream: nat): Seed {
    var index: Word32 := BitsOf(stream, 32);
    Seed(TrialHash(root.low, root.high, index), TrialHash(root.high, root.low, Xor(index, BitsOf(SPREAD, 32))))
  }

  // A 64-bit root and a 64-bit seed as numbers.
  function SeedOf(root: nat): Seed {
    Seed(BitsOf(root % 0x1_0000_0000, 32), BitsOf(root / 0x1_0000_0000, 32))
  }

  function SeedValue(s: Seed): nat {
    Value(s.low) + 0x1_0000_0000 * Value(s.high)
  }

  lemma PowerOfWord()
    ensures Pow2(32) == 0x1_0000_0000
  {
    assert Pow2(8) == 256 * Pow2(0);
    assert Pow2(16) == 256 * Pow2(8);
    assert Pow2(24) == 256 * Pow2(16);
    assert Pow2(32) == 256 * Pow2(24);
  }

  // The low half of the seed is the hash under the root's halves in their order, the high half the hash
  // of the spread stream under the halves exchanged.
  lemma CandidateSeedHalves(root: nat, stream: nat)
    requires root < 0x1_0000_0000 * 0x1_0000_0000
    ensures var low: Word32, high: Word32 := BitsOf(root % 0x1_0000_0000, 32), BitsOf(root / 0x1_0000_0000, 32);
      var index: Word32 := BitsOf(stream, 32);
      var seed := SeedValue(CandidateSeed(SeedOf(root), stream));
      && seed % 0x1_0000_0000 == Value(TrialHash(low, high, index))
      && seed / 0x1_0000_0000 == Value(TrialHash(high, low, Xor(index, BitsOf(0x9e3779b9, 32))))
  {
    HalvesOf(CandidateSeed(SeedOf(root), stream));
  }

  lemma HalvesOf(s: Seed)
    ensures SeedValue(s) % 0x1_0000_0000 == Value(s.low) && SeedValue(s) / 0x1_0000_0000 == Value(s.high)
  {
    PowerOfWord();
    ValueFits(s.low);
    JoinedHalves(Value(s.low), Value(s.high));
  }

  lemma JoinedHalves(low: nat, high: nat)
    requires low < 0x1_0000_0000
    ensures (low + 0x1_0000_0000 * high) % 0x1_0000_0000 == low
    ensures (low + 0x1_0000_0000 * high) / 0x1_0000_0000 == high
  {
  }

  // Under one root no two streams below 2^32 share a seed; either half tells them apart.
  lemma SeedsDiffer(root: Seed, a: nat, b: nat)
    requires a < 0x1_0000_0000 && b < 0x1_0000_0000 && a != b
    ensures CandidateSeed(root, a).low != CandidateSeed(root, b).low
    ensures CandidateSeed(root, a).high != CandidateSeed(root, b).high
  {
    WordSizes();
    ValueOfBits(a, 32);
    ValueOfBits(b, 32);
    var x: Word32, y: Word32, key: Word32 := BitsOf(a, 32), BitsOf(b, 32), BitsOf(SPREAD, 32);
    TrialHashInverts(root.low, root.high, x);
    TrialHashInverts(root.low, root.high, y);
    XorInverts(x, key);
    XorInverts(y, key);
    TrialHashInverts(root.high, root.low, Xor(x, key));
    TrialHashInverts(root.high, root.low, Xor(y, key));
  }

  // ---------------------------------------------------------------- the 64-bit mixer

  function Mix64(v: Word64): Word64 {
    Constants();
    Fold(Times(Fold(Times(Fold(Plus(v, STEP), 30), LEFT), 27), RIGHT), 31)
  }

  function Unmix64(v: Word64): Word64 {
    Constants();
    Plus(Unfold(Times(Unfold(Times(Unfold(v, 31), UNRIGHT), 27), UNLEFT), 30), UNSTEP)
  }

  lemma Mix64Inverts(v: Word64)
    ensures Unmix64(Mix64(v)) == v
  {
    Constants();
    var a := Plus(v, STEP);
    var b := Fold(a, 30);
    var c := Times(b, LEFT);
    var d := Fold(c, 27);
    FoldInverts(Times(d, RIGHT), 31);
    TimesInverts(d, RIGHT, UNRIGHT);
    FoldInverts(c, 27);
    TimesInverts(b, LEFT, UNLEFT);
    FoldInverts(a, 30);
    PlusInverts(v, STEP, UNSTEP);
  }

  lemma Mix64IsOnto(v: Word64)
    ensures Mix64(Unmix64(v)) == v
  {
    Constants();
    var d := Unfold(v, 31);
    var c := Times(d, UNRIGHT);
    var b := Unfold(c, 27);
    var a := Times(b, UNLEFT);
    PlusInverts(Unfold(a, 30), UNSTEP, STEP);
    UnfoldInverts(a, 30);
    TimesInverts(b, UNLEFT, LEFT);
    UnfoldInverts(c, 27);
    TimesInverts(d, UNRIGHT, RIGHT);
    UnfoldInverts(v, 31);
  }
}
