// Powers of two, and quotients, which are unique.

module Division {
  predicate PowerOfTwo(n: nat) {
    n == 1 || (n > 1 && n % 2 == 0 && PowerOfTwo(n / 2))
  }

  function TwoTo(k: nat): nat { if k == 0 then 1 else 2 * TwoTo(k - 1) }

  lemma {:induction false} PowerIsTwoTo(n: nat) returns (k: nat)
    requires PowerOfTwo(n)
    ensures n == TwoTo(k)
    decreases n
  {
    k := 0;
    if n > 1 {
      var half := PowerIsTwoTo(n / 2);
      k := half + 1;
    }
  }

  lemma {:induction false} TwoToIsPower(k: nat)
    ensures PowerOfTwo(TwoTo(k))
  {
    if k > 0 {
      TwoToIsPower(k - 1);
      assert TwoTo(k) / 2 == TwoTo(k - 1);
    }
  }

  // Powers of two are the iterated doubles of one.
  lemma PowersOfTwo(n: nat)
    ensures PowerOfTwo(n) <==> exists k: nat :: n == TwoTo(k)
  {
    if PowerOfTwo(n) {
      var k := PowerIsTwoTo(n);
    }
    if k: nat :| n == TwoTo(k) {
      TwoToIsPower(k);
    }
  }

  lemma {:induction false} MulGap(p: nat, q: nat, size: nat)
    requires p < q
    ensures p * size + size <= q * size
  {
    if p + 1 < q {
      MulGap(p, q - 1, size);
      assert q * size == (q - 1) * size + size;
    } else {
      assert q * size == p * size + size;
    }
  }

  lemma DivUnique(i: nat, size: nat, q: nat, r: nat)
    requires 0 < size && i == q * size + r && r < size
    ensures i / size == q
  {
    var p, s := i / size, i % size;
    assert i == p * size + s;
    if p < q {
      MulGap(p, q, size);
    } else if q < p {
      MulGap(q, p, size);
    }
  }

  lemma RemainderUnique(i: nat, size: nat, q: nat, r: nat)
    requires 0 < size && i == q * size + r && r < size
    ensures i / size == q && i % size == r
  {
    DivUnique(i, size, q, r);
    assert i == (i / size) * size + i % size;
  }

  lemma QuotientStep(i: nat, size: nat)
    requires 0 < size <= i
    ensures i / size == (i - size) / size + 1
  {
    var q, r := (i - size) / size, (i - size) % size;
    assert i - size == q * size + r;
    assert (q + 1) * size == q * size + size;
    DivUnique(i, size, q + 1, r);
  }

  lemma NextQuotient(n: nat, d: nat)
    requires d > 0
    ensures if n % d + 1 == d then (n + 1) / d == n / d + 1 && (n + 1) % d == 0
            else (n + 1) / d == n / d && (n + 1) % d == n % d + 1
  {
    var q, r := n / d, n % d;
    assert n == q * d + r;
    if r + 1 == d {
      assert (q + 1) * d == q * d + d;
      RemainderUnique(n + 1, d, q + 1, 0);
    } else {
      RemainderUnique(n + 1, d, q, r + 1);
    }
  }
}
