// The archive's checksum: the reflected CRC-32 of RFC 1952, section 8. A 32-bit register is its
// list of bits, lowest first.

module Crc {
  import opened Words

  type Register = b: Bits | |b| == 32 witness Repeat(false, 32)

  // ---------------------------------------------------------------- the register

  // The reversed polynomial 0xedb88320.
  const POLY: Register := BitsOf(0x20, 8) + BitsOf(0x83, 8) + BitsOf(0xb8, 8) + BitsOf(0xed, 8)

  const ONES: Register := Repeat(true, 32)

  // Up to 32 bits as a register.
  function Widen(b: Bits): Register
    requires |b| <= 32
  {
    b + Repeat(false, 32 - |b|)
  }

  function Not(r: Register): Register {
    Xor(r, ONES)
  }

  // One step to the right; the polynomial is subtracted when a one drops out.
  function ShiftBit(r: Register): Register {
    var half := r[1..] + [false];
    if r[0] then Xor(half, POLY) else half
  }

  function Shift(r: Register, bits: nat): Register
    decreases bits
  {
    if bits == 0 then r else Shift(ShiftBit(r), bits - 1)
  }

  function Absorb(r: Register, data: seq<Byte>): Register
    decreases |data|
  {
    if data == [] then r else Absorb(Shift(Xor(r, Widen(BitsOf(data[0], 8))), 8), data[1..])
  }

  function Checksum(data: seq<Byte>): Register {
    Not(Absorb(ONES, data))
  }

  method Crc32(data: seq<Byte>) returns (sum: Register)
    ensures sum == Checksum(data)
  {
    var crc: Register := ONES;
    for n := 0 to |data|
      invariant Absorb(crc, data[n..]) == Absorb(ONES, data)
    {
      assert data[n..][1..] == data[n + 1..];
      crc := Xor(crc, Widen(BitsOf(data[n], 8)));
      crc := ShiftByte(crc);
    }
    sum := Not(crc);
  }

  method ShiftByte(start: Register) returns (crc: Register)
    ensures crc == Shift(start, 8)
  {
    crc := start;
    for k := 0 to 8
      invariant Shift(crc, 8 - k) == Shift(start, 8)
    {
      crc := ShiftBit(crc);
    }
  }

  // ---------------------------------------------------------------- a linear bijection

  lemma TopOfPoly()
    ensures POLY[31]
  {
    var b := BitsOf(0xed, 8);
    assert POLY[31] == b[7];
    assert b[7] == BitsOf(0x76, 7)[6] == BitsOf(0x3b, 6)[5] == BitsOf(0x1d, 5)[4] == BitsOf(0x0e, 4)[3];
    assert BitsOf(0x0e, 4)[3] == BitsOf(0x07, 3)[2] == BitsOf(0x03, 2)[1] == BitsOf(0x01, 1)[0];
  }

  lemma BitIsLinear(a: Register, b: Register)
    ensures ShiftBit(Xor(a, b)) == Xor(ShiftBit(a), ShiftBit(b))
  {
    var l, r := ShiftBit(Xor(a, b)), Xor(ShiftBit(a), ShiftBit(b));
    forall i | 0 <= i < 32 ensures l[i] == r[i] {
      if i < 31 {
        assert Xor(a, b)[1..][i] == (a[i + 1] != b[i + 1]);
      }
    }
  }

  // The bit that drops out comes back as the top bit, so no two registers meet.
  lemma BitIsInjective(a: Register, b: Register)
    requires ShiftBit(a) == ShiftBit(b)
    ensures a == b
  {
    TopOfPoly();
    assert a[0] == ShiftBit(a)[31] && b[0] == ShiftBit(b)[31];
    if a[0] {
      XorSame(a[1..] + [false], b[1..] + [false], POLY);
    }
    assert (a[1..] + [false])[..31] == a[1..] && (b[1..] + [false])[..31] == b[1..];
    assert a == [a[0]] + a[1..] && b == [b[0]] + b[1..];
  }

  lemma {:induction false} ShiftIsLinear(a: Register, b: Register, bits: nat)
    ensures Shift(Xor(a, b), bits) == Xor(Shift(a, bits), Shift(b, bits))
    decreases bits
  {
    if bits > 0 {
      BitIsLinear(a, b);
      ShiftIsLinear(ShiftBit(a), ShiftBit(b), bits - 1);
    }
  }

  lemma {:induction false} ShiftIsInjective(a: Register, b: Register, bits: nat)
    requires Shift(a, bits) == Shift(b, bits)
    ensures a == b
    decreases bits
  {
    if bits > 0 {
      ShiftIsInjective(ShiftBit(a), ShiftBit(b), bits - 1);
      BitIsInjective(a, b);
    }
  }

  // Zeros at the low end drop out one per step.
  lemma {:induction false} ShiftDropsZeros(b: Bits, zeros: nat)
    requires zeros + |b| <= 32
    ensures Shift(Widen(Repeat(false, zeros) + b), zeros) == Widen(b)
    decreases zeros
  {
    var r := Widen(Repeat(false, zeros) + b);
    if zeros == 0 {
      assert r == Widen(b);
    } else {
      var next := Widen(Repeat(false, zeros - 1) + b);
      assert !r[0];
      forall i | 0 <= i < 32 ensures (r[1..] + [false])[i] == next[i] {
      }
      assert ShiftBit(r) == next;
      ShiftDropsZeros(b, zeros - 1);
    }
  }

  lemma {:induction false} ShiftsAdd(r: Register, a: nat, b: nat)
    ensures Shift(Shift(r, a), b) == Shift(r, a + b)
    decreases a
  {
    if a > 0 {
      ShiftsAdd(ShiftBit(r), a - 1, b);
    }
  }

  // ---------------------------------------------------------------- detecting a changed window

  // The bits of several bytes, the first byte lowest.
  function Word(window: seq<Byte>): (b: Bits)
    ensures |b| == 8 * |window|
  {
    if window == [] then [] else BitsOf(window[0], 8) + Word(window[1..])
  }

  lemma {:induction false} WordIsInjective(a: seq<Byte>, b: seq<Byte>)
    requires |a| == |b| && Word(a) == Word(b)
    ensures a == b
    decreases |a|
  {
    if a != [] {
      assert BitsOf(a[0], 8) == Word(a)[..8] && BitsOf(b[0], 8) == Word(b)[..8];
      assert Word(a[1..]) == Word(a)[8..] && Word(b[1..]) == Word(b)[8..];
      ByteBits(a[0], b[0]);
      WordIsInjective(a[1..], b[1..]);
      assert a == [a[0]] + a[1..] && b == [b[0]] + b[1..];
    }
  }

  // A window of up to four bytes enters the register as one word.
  lemma {:induction false} AbsorbIsShift(r: Register, window: seq<Byte>)
    requires |window| <= 4
    ensures Absorb(r, window) == Shift(Xor(r, Widen(Word(window))), 8 * |window|)
    decreases |window|
  {
    var whole := Widen(Word(window));
    if window == [] {
      assert Xor(r, whole) == r;
    } else {
      var n := 8 * |window[1..]|;
      AbsorbIsShift(Shift(Xor(r, Widen(BitsOf(window[0], 8))), 8), window[1..]);
      ByteThenRest(r, BitsOf(window[0], 8), Word(window[1..]));
      ShiftsAdd(Xor(r, whole), 8, n);
      assert 8 + n == 8 * |window|;
    }
  }

  // Absorbing a byte and then some more is absorbing them together.
  lemma ByteThenRest(r: Register, low: Bits, rest: Bits)
    requires |low| == 8 && |rest| <= 24
    ensures Xor(Shift(Xor(r, Widen(low)), 8), Widen(rest)) == Shift(Xor(r, Widen(low + rest)), 8)
  {
    var first, high := Widen(low), Widen(Repeat(false, 8) + rest);
    ShiftIsLinear(Xor(r, first), high, 8);
    ShiftDropsZeros(rest, 8);
    JoinHigh(low, rest);
    XorSwap(r, first, high);
  }

  lemma JoinHigh(low: Bits, high: Bits)
    requires |low| == 8 && |high| <= 24
    ensures Xor(Widen(low), Widen(Repeat(false, 8) + high)) == Widen(low + high)
  {
  }

  lemma {:induction false} AbsorbConcat(r: Register, a: seq<Byte>, b: seq<Byte>)
    ensures Absorb(r, a + b) == Absorb(Absorb(r, a), b)
    decreases |a|
  {
    if a == [] {
      assert a + b == b;
    } else {
      assert (a + b)[1..] == a[1..] + b;
      AbsorbConcat(Shift(Xor(r, Widen(BitsOf(a[0], 8))), 8), a[1..], b);
    }
  }

  lemma {:induction false} AbsorbIsInjective(a: Register, b: Register, data: seq<Byte>)
    requires Absorb(a, data) == Absorb(b, data)
    ensures a == b
    decreases |data|
  {
    if data != [] {
      var x := Widen(BitsOf(data[0], 8));
      AbsorbIsInjective(Shift(Xor(a, x), 8), Shift(Xor(b, x), 8), data[1..]);
      ShiftIsInjective(Xor(a, x), Xor(b, x), 8);
      XorSame(a, b, x);
    }
  }

  // Inputs of one length that differ only inside a window of at most four bytes never share a
  // checksum.
  lemma WindowChangesChecksum(front: seq<Byte>, a: seq<Byte>, b: seq<Byte>, back: seq<Byte>)
    requires |a| == |b| <= 4 && a != b
    ensures Checksum(front + a + back) != Checksum(front + b + back)
  {
    var r := Absorb(ONES, front);
    AbsorbConcat(ONES, front + a, back);
    AbsorbConcat(ONES, front, a);
    AbsorbConcat(ONES, front + b, back);
    AbsorbConcat(ONES, front, b);
    if Checksum(front + a + back) == Checksum(front + b + back) {
      XorSame(Absorb(Absorb(r, a), back), Absorb(Absorb(r, b), back), ONES);
      AbsorbIsInjective(Absorb(r, a), Absorb(r, b), back);
      SameWindow(r, a, b);
    }
  }

  lemma SameWindow(r: Register, a: seq<Byte>, b: seq<Byte>)
    requires |a| == |b| <= 4 && Absorb(r, a) == Absorb(r, b)
    ensures a == b
  {
    AbsorbIsShift(r, a);
    AbsorbIsShift(r, b);
    var u, v := Widen(Word(a)), Widen(Word(b));
    ShiftIsInjective(Xor(r, u), Xor(r, v), 8 * |a|);
    assert Xor(u, r) == Xor(r, u) && Xor(v, r) == Xor(r, v);
    XorSame(u, v, r);
    assert Word(a) == u[..8 * |a|] && Word(b) == v[..8 * |a|];
    WordIsInjective(a, b);
  }
}
