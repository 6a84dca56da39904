// The checksum of RFC 1952, section 8, as the remainder of a polynomial long division: an independent
// definition, and the register arrives at it. Polynomials are lists of coefficients, highest first.

module Remainder {
  import opened Words
  import opened Crc

  // The exponents of the generator below its leading term x^32.
  const EXPONENTS: set<int> := {26, 23, 22, 16, 12, 11, 10, 8, 7, 5, 4, 2, 1, 0}

  // One step of long division: a multiple of the generator cancels the leading term.
  function Cancel(w: Bits): (r: Bits)
    requires |w| > 32
    ensures |r| == |w| - 1
  {
    seq(|w| - 1, i requires 0 <= i < |w| - 1 => w[i + 1] != (w[0] && 31 - i in EXPONENTS))
  }

  function Remains(w: Bits): (r: Bits)
    requires |w| >= 32
    ensures |r| == 32
    decreases |w|
  {
    if |w| == 32 then w else Remains(Cancel(w))
  }

  function Complement(w: Bits): (r: Bits)
    ensures |r| == |w|
  {
    seq(|w|, i requires 0 <= i < |w| => !w[i])
  }

  // The message with 32 zeros behind it, its first 32 coefficients complemented.
  function Dividend(data: seq<Byte>): (w: Bits)
    ensures |w| == 8 * |data| + 32
  {
    var w := Word(data) + Repeat(false, 32);
    Complement(w[..32]) + w[32..]
  }

  // ---------------------------------------------------------------- the register, bit by bit

  // The register's polynomial is the generator.
  lemma PolyIsGenerator()
    ensures forall i :: 0 <= i < 32 ==> (POLY[i] <==> 31 - i in EXPONENTS)
  {
    LowBits();
    HighBits();
    forall i | 0 <= i < 32 ensures POLY[i] <==> 31 - i in EXPONENTS {
      assert POLY[i] == if i < 8 then BitsOf(0x20, 8)[i] else if i < 16 then BitsOf(0x83, 8)[i - 8]
        else if i < 24 then BitsOf(0xb8, 8)[i - 16] else BitsOf(0xed, 8)[i - 24];
    }
  }

  function Bit(b: bool): nat { if b then 1 else 0 }

  lemma ValueTwo(b: Bits)
    requires |b| >= 2
    ensures Value(b) == Bit(b[0]) + 2 * Bit(b[1]) + 4 * Value(b[2..])
  {
    assert b[1..][1..] == b[2..];
  }

  lemma ValueEight(b: Bits)
    requires |b| == 8
    ensures Value(b) == Bit(b[0]) + 2 * Bit(b[1]) + 4 * Bit(b[2]) + 8 * Bit(b[3]) + 16 * Bit(b[4]) + 32 * Bit(b[5]) +
      64 * Bit(b[6]) + 128 * Bit(b[7])
  {
    ValueTwo(b);
    ValueTwo(b[2..]);
    ValueTwo(b[2..][2..]);
    ValueTwo(b[2..][2..][2..]);
    assert b[2..][2..] == b[4..] && b[4..][2..] == b[6..] && b[6..][2..] == [];
  }

  lemma BitsOfByte(b: Bits, n: nat)
    requires |b| == 8
    requires n == Bit(b[0]) + 2 * Bit(b[1]) + 4 * Bit(b[2]) + 8 * Bit(b[3]) + 16 * Bit(b[4]) + 32 * Bit(b[5]) +
      64 * Bit(b[6]) + 128 * Bit(b[7])
    ensures BitsOf(n, 8) == b
  {
    ValueEight(b);
    BitsOfValue(b);
  }

  lemma LowBits()
    ensures BitsOf(0x20, 8) == [false, false, false, false, false, true, false, false]
    ensures BitsOf(0x83, 8) == [true, true, false, false, false, false, false, true]
  {
    BitsOfByte([false, false, false, false, false, true, false, false], 0x20);
    BitsOfByte([true, true, false, false, false, false, false, true], 0x83);
  }

  lemma HighBits()
    ensures BitsOf(0xb8, 8) == [false, false, false, true, true, true, false, true]
    ensures BitsOf(0xed, 8) == [true, false, true, true, false, true, true, true]
  {
    BitsOfByte([false, false, false, true, true, true, false, true], 0xb8);
    BitsOfByte([true, false, true, true, false, true, true, true], 0xed);
  }

  function AbsorbBits(r: Register, m: Bits): Register
    decreases |m|
  {
    if m == [] then r else AbsorbBits(ShiftBit(Xor(r, Widen([m[0]]))), m[1..])
  }

  // A register added to the first 32 coefficients.
  function Front(r: Register, w: Bits): (f: Bits)
    requires |w| >= 32
    ensures |f| == |w|
  {
    seq(|w|, i requires 0 <= i < |w| => if i < 32 then w[i] != r[i] else w[i])
  }

  lemma StepCancels(r: Register, w: Bits)
    requires |w| > 32
    ensures Cancel(Front(r, w)) == Front(ShiftBit(Xor(r, Widen([w[0]]))), w[1..])
  {
    PolyIsGenerator();
    var x := Xor(r, Widen([w[0]]));
    var left, right := Cancel(Front(r, w)), Front(ShiftBit(x), w[1..]);
    forall i | 0 <= i < |w| - 1 ensures left[i] == right[i] {
      if i < 32 {
        assert (x[1..] + [false])[i] == if i < 31 then r[i + 1] else false;
      }
    }
  }

  lemma {:induction false} DivisionAbsorbs(r: Register, m: Bits)
    ensures Remains(Front(r, m + Repeat(false, 32))) == AbsorbBits(r, m)
    decreases |m|
  {
    var w := m + Repeat(false, 32);
    if m == [] {
      assert Front(r, w) == r;
    } else {
      assert w[1..] == m[1..] + Repeat(false, 32);
      StepCancels(r, w);
      DivisionAbsorbs(ShiftBit(Xor(r, Widen([m[0]]))), m[1..]);
    }
  }

  // ---------------------------------------------------------------- bytes

  lemma {:induction false} ShiftAbsorbs(r: Register, b: Bits)
    requires |b| <= 32
    ensures Shift(Xor(r, Widen(b)), |b|) == AbsorbBits(r, b)
    decreases |b|
  {
    if b == [] {
      assert Xor(r, Widen(b)) == r;
    } else {
      var first, rest := Xor(r, Widen([b[0]])), [false] + b[1..];
      FirstAndRest(r, b);
      BitIsLinear(first, Widen(rest));
      assert Repeat(false, 1) + b[1..] == rest;
      ShiftDropsZeros(b[1..], 1);
      assert Shift(Widen(rest), 1) == Shift(ShiftBit(Widen(rest)), 0);
      ShiftAbsorbs(ShiftBit(first), b[1..]);
    }
  }

  lemma FirstAndRest(r: Register, b: Bits)
    requires 0 < |b| <= 32
    ensures Xor(r, Widen(b)) == Xor(Xor(r, Widen([b[0]])), Widen([false] + b[1..]))
  {
  }

  lemma {:induction false} AbsorbBitsConcat(r: Register, a: Bits, b: Bits)
    ensures AbsorbBits(r, a + b) == AbsorbBits(AbsorbBits(r, a), b)
    decreases |a|
  {
    if a == [] {
      assert a + b == b;
    } else {
      assert (a + b)[1..] == a[1..] + b;
      AbsorbBitsConcat(ShiftBit(Xor(r, Widen([a[0]]))), a[1..], b);
    }
  }

  lemma {:induction false} AbsorbIsBits(r: Register, data: seq<Byte>)
    ensures Absorb(r, data) == AbsorbBits(r, Word(data))
    decreases |data|
  {
    if data != [] {
      var b := BitsOf(data[0], 8);
      ShiftAbsorbs(r, b);
      AbsorbBitsConcat(r, b, Word(data[1..]));
      AbsorbIsBits(Shift(Xor(r, Widen(b)), 8), data[1..]);
    }
  }

  // The checksum is the complemented remainder, its lowest bit the coefficient of x^31.
  lemma ChecksumIsRemainder(data: seq<Byte>)
    ensures Checksum(data) == Complement(Remains(Dividend(data)))
  {
    AbsorbIsBits(ONES, data);
    DivisionAbsorbs(ONES, Word(data));
    assert Front(ONES, Word(data) + Repeat(false, 32)) == Dividend(data);
    assert Not(Absorb(ONES, data)) == Complement(Absorb(ONES, data));
  }
}
