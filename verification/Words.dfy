/**
 Machine words as natural numbers: single bits, exclusive or and truncation, and the
 polynomial over GF(2) that a word spells out.
 */
module Words {
  import opened Gf2

  type Byte = b: int | 0 <= b < 256

  /** Bit e of n, counting from the least significant one. */
  predicate Bit(n: nat, e: nat) {
    if e == 0 then n % 2 == 1 else Bit(n / 2, e - 1)
  }

  /** Bitwise exclusive or. */
  function Xor(a: nat, b: nat): nat
    decreases a + b
  {
    if a == 0 then b
    else if b == 0 then a
    else 2 * Xor(a / 2, b / 2) + (a + b) % 2
  }

  function Pow2(k: nat): (p: nat)
    ensures p >= 1
  {
    if k == 0 then 1 else 2 * Pow2(k - 1)
  }

  /** The low k bits of n: what an unsigned k-bit word keeps of it. */
  function Low(n: nat, k: nat): (r: nat)
    ensures r < Pow2(k)
  {
    if k == 0 then 0 else 2 * Low(n / 2, k - 1) + n % 2
  }

  /** The polynomial whose coefficients are the bits of n. */
  ghost function ToPoly(n: nat): Poly {
    if n == 0 then {}
    else Add(Shift(ToPoly(n / 2), 1), if n % 2 == 1 then {0} else {})
  }

  lemma {:induction false} InToPoly(n: nat, e: nat)
    ensures e in ToPoly(n) <==> Bit(n, e)
    decreases n
  {
    if n == 0 {
      ZeroBits(e);
    } else {
      InShift(ToPoly(n / 2), 1, e);
      if e > 0 { InToPoly(n / 2, e - 1); }
    }
  }

  lemma {:induction false} ZeroBits(e: nat)
    ensures !Bit(0, e)
  {
    if e > 0 { ZeroBits(e - 1); }
  }

  lemma {:induction false} XorBit(a: nat, b: nat, e: nat)
    ensures Bit(Xor(a, b), e) <==> Bit(a, e) != Bit(b, e)
    decreases e
  {
    if a == 0 || b == 0 {
      ZeroBits(e);
    } else {
      var half := Xor(a / 2, b / 2);
      var x := 2 * half + (a + b) % 2;
      assert x / 2 == half && x % 2 == (a + b) % 2;
      assert Xor(a, b) == x;
      if e > 0 {
        XorBit(a / 2, b / 2, e - 1);
        assert Bit(x, e) == Bit(half, e - 1);
      }
    }
  }

  /** Exclusive or on words is addition of polynomials. */
  lemma XorIsAdd(a: nat, b: nat)
    ensures ToPoly(Xor(a, b)) == Add(ToPoly(a), ToPoly(b))
  {
    forall e: nat
      ensures e in ToPoly(Xor(a, b)) <==> e in Add(ToPoly(a), ToPoly(b))
    {
      InToPoly(Xor(a, b), e);
      InToPoly(a, e);
      InToPoly(b, e);
      XorBit(a, b, e);
    }
  }

  /** Shifting a bit in at the bottom multiplies by x and adds it. */
  lemma ShiftInIsStep(n: nat, b: bool)
    ensures ToPoly(2 * n + if b then 1 else 0) == Add(Shift(ToPoly(n), 1), if b then {0} else {})
  {
    if n == 0 {
      assert Shift({}, 1) == {};
      if b { assert ToPoly(1) == Add(Shift(ToPoly(0), 1), {0}); }
    }
  }

  lemma {:induction false} LowBit(n: nat, k: nat, e: nat)
    ensures Bit(Low(n, k), e) <==> e < k && Bit(n, e)
    decreases k
  {
    if k == 0 {
      ZeroBits(e);
    } else if e > 0 {
      LowBit(n / 2, k - 1, e - 1);
    }
  }

  /** Truncation keeps the low coefficients. */
  lemma LowPoly(n: nat, k: nat)
    ensures forall e: nat :: e in ToPoly(Low(n, k)) <==> e < k && e in ToPoly(n)
  {
    forall e: nat
      ensures e in ToPoly(Low(n, k)) <==> e < k && e in ToPoly(n)
    {
      InToPoly(Low(n, k), e);
      InToPoly(n, e);
      LowBit(n, k, e);
    }
  }

  lemma {:induction false} LowSmall(n: nat, k: nat)
    requires n < Pow2(k)
    ensures Low(n, k) == n
  {
    if k > 0 { LowSmall(n / 2, k - 1); }
  }

  /** A word is determined by its polynomial. */
  lemma {:induction false} ToPolyInjective(a: nat, b: nat)
    requires ToPoly(a) == ToPoly(b)
    ensures a == b
  {
    if a == 0 && b == 0 {
    } else {
      forall e: nat
        ensures Bit(a, e) == Bit(b, e)
      {
        InToPoly(a, e);
        InToPoly(b, e);
      }
      forall e: nat
        ensures e in ToPoly(a / 2) <==> e in ToPoly(b / 2)
      {
        InToPoly(a / 2, e);
        InToPoly(b / 2, e);
        assert Bit(a, e + 1) == Bit(b, e + 1);
      }
      assert Bit(a, 0) == Bit(b, 0);
      ToPolyInjective(a / 2, b / 2);
    }
  }

  /** A word with no coefficient at or above k is below 2^k. */
  lemma {:induction false} SmallWord(n: nat, k: nat)
    requires DegBelow(ToPoly(n), k)
    ensures n < Pow2(k)
  {
    LowPoly(n, k);
    assert ToPoly(Low(n, k)) == ToPoly(n);
    ToPolyInjective(Low(n, k), n);
  }

  lemma SmallPoly(n: nat, k: nat)
    requires n < Pow2(k)
    ensures DegBelow(ToPoly(n), k)
  {
    LowPoly(n, k);
    LowSmall(n, k);
  }
}
