// BF16 rounding on the bits of binary32 numbers: the high half, rounded to nearest with ties to
// even. Values are counted in units of the smallest subnormal, 2^-149.

module Rounding {
  import opened Words

  const SIGN32: nat := 0x8000_0000
  const SIGN16: nat := 0x8000
  const HALF: nat := 0x1_0000
  const BINADE: nat := 0x80_0000

  // Magnitudes up to and including infinity.
  const INFINITE: nat := 0x7F80_0000

  // ---------------------------------------------------------------- the conversion

  // Integer arithmetic on 32-bit words, wrapping around.
  function Encode(bits: nat): nat {
    (bits + 0x7FFF + bits / HALF % 2) % 0x1_0000_0000 / HALF
  }

  function Decode(code: nat): nat { code * HALF }

  // Sign and magnitude as one signed number; the two zeros coincide.
  function Key(bits: nat): int {
    if bits < SIGN32 then bits else -(bits - SIGN32)
  }

  // Infinities included; anything above is not a number.
  predicate Number(bits: nat)
    ensures Number(bits) <==> bits < 0x1_0000_0000 && bits % 0x8000_0000 <= 0x7F80_0000
  {
    bits <= INFINITE || SIGN32 <= bits <= SIGN32 + INFINITE
  }

  // A magnitude rounds up past the middle of its cell, and at the middle if its half is odd.
  function RoundUp(m: nat): nat {
    var q, r := m / HALF, m % HALF;
    if r > HALF / 2 || (r == HALF / 2 && q % 2 == 1) then q + 1 else q
  }

  lemma EncodeRounds(bits: nat)
    requires Number(bits)
    ensures Encode(bits) == if bits < SIGN32 then RoundUp(bits) else SIGN16 + RoundUp(bits - SIGN32)
    ensures Number(Decode(Encode(bits))) && (Decode(Encode(bits)) < SIGN32 <==> bits < SIGN32)
  {
    var m := if bits < SIGN32 then bits else bits - SIGN32;
    var q, r := m / HALF, m % HALF;
    assert m == q * HALF + r && q <= 0x7F80;
    assert bits < SIGN32 ==> bits / HALF == q;
    assert bits >= SIGN32 ==> bits / HALF == q + SIGN16;
  }

  // A BF16 code is its own rounding, NaNs included.
  lemma EncodeDecode(code: nat)
    requires code < HALF
    ensures Encode(Decode(code)) == code
  {
    assert Decode(code) / HALF == code;
    assert (Decode(code) + 0x7FFF + code % 2) / HALF == code;
  }

  // ---------------------------------------------------------------- order

  lemma RoundUpGrows(m: nat, n: nat)
    requires m <= n
    ensures RoundUp(m) <= RoundUp(n)
  {
    assert m / HALF <= n / HALF;
  }

  // Rounding keeps the order of any two numbers, infinities and signed zeros included.
  lemma EncodeIsMonotone(x: nat, y: nat)
    requires Number(x) && Number(y) && Key(x) <= Key(y)
    ensures Key(Decode(Encode(x))) <= Key(Decode(Encode(y)))
  {
    EncodeRounds(x);
    EncodeRounds(y);
    if x < SIGN32 && y < SIGN32 {
      RoundUpGrows(x, y);
    } else if x >= SIGN32 && y >= SIGN32 {
      RoundUpGrows(y - SIGN32, x - SIGN32);
    }
  }

  // ---------------------------------------------------------------- values

  // A finite magnitude in units of 2^-149: subnormals count up one by one, and each binade doubles
  // the spacing.
  function Units(m: nat): nat {
    var exponent, fraction := m / BINADE, m % BINADE;
    if exponent == 0 then fraction else (BINADE + fraction) * Pow2(exponent - 1)
  }

  function Spacing(exponent: nat): nat {
    if exponent == 0 then 1 else Pow2(exponent - 1)
  }

  // Within a binade, its end included, values are evenly spaced.
  lemma UnitsLinear(exponent: nat, fraction: nat)
    requires fraction <= BINADE
    ensures Units(exponent * BINADE + fraction) == Units(exponent * BINADE) + fraction * Spacing(exponent)
  {
    var start := exponent * BINADE;
    assert start / BINADE == exponent && start % BINADE == 0;
    if fraction < BINADE {
      assert (start + fraction) / BINADE == exponent && (start + fraction) % BINADE == fraction;
      Distribute(BINADE, fraction, Spacing(exponent));
    } else {
      assert (start + fraction) / BINADE == exponent + 1 && (start + fraction) % BINADE == 0;
      if exponent > 0 {
        Distribute(BINADE, BINADE, Spacing(exponent));
      }
    }
  }

  lemma Distribute(a: nat, b: nat, c: nat)
    ensures (a + b) * c == a * c + b * c
  {
  }

  lemma {:induction false} UnitsGrow(m: nat, n: nat)
    requires m < n
    ensures Units(m) < Units(n)
    decreases n - m
  {
    UnitsStep(m);
    if m + 1 < n {
      UnitsGrow(m + 1, n);
    }
  }

  lemma UnitsStep(m: nat)
    ensures Units(m) < Units(m + 1)
  {
    var exponent, fraction := m / BINADE, m % BINADE;
    assert m == exponent * BINADE + fraction;
    UnitsLinear(exponent, fraction);
    UnitsLinear(exponent, fraction + 1);
    Distribute(fraction, 1, Spacing(exponent));
  }

  // The signed value.
  function Worth(bits: nat): int {
    if bits < SIGN32 then Units(bits) else -(Units(bits - SIGN32) as int)
  }

  // Keys order numbers as their values do.
  lemma KeyOrders(x: nat, y: nat)
    ensures Worth(x) <= Worth(y) <==> Key(x) <= Key(y)
  {
    var a, b := if x < SIGN32 then x else x - SIGN32, if y < SIGN32 then y else y - SIGN32;
    assert Units(0) == 0;
    if a < b {
      UnitsGrow(a, b);
    } else if b < a {
      UnitsGrow(b, a);
    }
    if a > 0 {
      UnitsGrow(0, a);
    }
    if b > 0 {
      UnitsGrow(0, b);
    }
  }

  // Rounding is monotone in value.
  lemma RoundingIsMonotone(x: nat, y: nat)
    requires Number(x) && Number(y) && Worth(x) <= Worth(y)
    ensures Worth(Decode(Encode(x))) <= Worth(Decode(Encode(y)))
  {
    KeyOrders(x, y);
    EncodeIsMonotone(x, y);
    KeyOrders(Decode(Encode(x)), Decode(Encode(y)));
  }

  function Distance(a: int, b: int): nat {
    if a < b then b - a else a - b
  }

  // The two codes around a magnitude, and where it lies between them.
  lemma CellIsEven(m: nat)
    ensures var q, r := m / HALF, m % HALF;
      var s := Spacing(q * HALF / BINADE);
      && Units(m) == Units(q * HALF) + r * s && Units((q + 1) * HALF) == Units(q * HALF) + HALF * s && s > 0
  {
    var q, r := m / HALF, m % HALF;
    var start := q * HALF;
    var exponent, fraction := start / BINADE, start % BINADE;
    assert start == exponent * BINADE + fraction && fraction + HALF <= BINADE;
    UnitsLinear(exponent, fraction);
    UnitsLinear(exponent, fraction + r);
    UnitsLinear(exponent, fraction + HALF);
    Distribute(fraction, r, Spacing(exponent));
    Distribute(fraction, HALF, Spacing(exponent));
  }

  // No code lies nearer to a magnitude than its rounding.
  lemma RoundsToNearest(m: nat, code: nat)
    ensures Distance(Units(m), Units(Decode(RoundUp(m)))) <= Distance(Units(m), Units(Decode(code)))
  {
    var q := m / HALF;
    CellSides(m);
    var low, high := Units(Decode(q)), Units(Decode(q + 1));
    if code < q {
      UnitsGrow(Decode(code), Decode(q));
    } else if code > q + 1 {
      UnitsGrow(Decode(q + 1), Decode(code));
    }
    assert Units(Decode(code)) <= low || Units(Decode(code)) >= high;
  }

  // A magnitude lies between its two codes, and is rounded to the nearer side.
  lemma CellSides(m: nat)
    ensures var q := m / HALF;
      var u, low, high := Units(m), Units(Decode(q)), Units(Decode(q + 1));
      && low <= u <= high
      && (RoundUp(m) == q ==> u - low <= high - u) && (RoundUp(m) == q + 1 ==> high - u <= u - low)
  {
    var r := m % HALF;
    CellIsEven(m);
    Scale(r, HALF - r, Spacing(m / HALF * HALF / BINADE));
  }

  // r and the rest of a cell, scaled by its spacing.
  lemma Scale(r: nat, rest: nat, s: nat)
    requires r + rest == HALF
    ensures r * s + rest * s == HALF * s
    ensures r <= rest ==> r * s <= rest * s
    ensures r >= rest ==> r * s >= rest * s
  {
    Distribute(r, rest, s);
    if r <= rest {
      Distribute(r, rest - r, s);
    } else {
      Distribute(rest, r - rest, s);
    }
  }
}
