/**
 Polynomials over GF(2), the arithmetic behind the sideband checksums.

 A polynomial is the finite set of its exponents, so x^4 + x + 1 is {0, 1, 4} and
 addition is symmetric difference. A divisor is given as the sequence of its
 exponents, largest first.
 */
module Gf2 {

  type Poly = set<nat>

  ghost function Add(p: Poly, q: Poly): Poly {
    (p - q) + (q - p)
  }

  /** p * x^n */
  ghost function Shift(p: Poly, n: nat): Poly {
    set e: nat | e in p :: e + n
  }

  /** p * g, where g lists the exponents of the divisor */
  ghost function Mul(p: Poly, g: seq<nat>): Poly {
    if g == [] then {} else Add(Shift(p, g[0]), Mul(p, g[1..]))
  }

  /** Every exponent of p is below d. */
  ghost predicate DegBelow(p: Poly, d: nat) {
    forall e :: e in p ==> e < d
  }

  /** A divisor of degree g[0] with a constant term: all other exponents are smaller and 0 closes the list. */
  ghost predicate IsDivisor(g: seq<nat>) {
    |g| >= 2 && g[0] > 0 && g[|g| - 1] == 0 &&
    (forall i :: 1 <= i < |g| ==> g[i] < g[0]) &&
    (forall i :: 0 <= i < |g| - 1 ==> g[i] > 0)
  }

  ghost predicate Divides(g: seq<nat>, p: Poly) {
    exists q: Poly :: Mul(q, g) == p
  }

  /** The polynomial whose coefficients, highest first, are `bits`. */
  ghost function FromBits(bits: seq<bool>): Poly {
    set i | 0 <= i < |bits| && bits[i] :: |bits| - 1 - i
  }

  lemma InShift(p: Poly, n: nat, e: nat)
    ensures e in Shift(p, n) <==> e >= n && e - n in p
  {
    if e >= n && e - n in p {
      assert (e - n) + n == e;
    }
  }

  lemma AddShift(p: Poly, q: Poly, n: nat)
    ensures Shift(Add(p, q), n) == Add(Shift(p, n), Shift(q, n))
  {
    forall e: nat
      ensures e in Shift(Add(p, q), n) <==> e in Add(Shift(p, n), Shift(q, n))
    {
      InShift(Add(p, q), n, e);
      InShift(p, n, e);
      InShift(q, n, e);
    }
  }

  lemma ShiftShift(p: Poly, m: nat, n: nat)
    ensures Shift(Shift(p, m), n) == Shift(p, m + n)
  {
    forall e: nat
      ensures e in Shift(Shift(p, m), n) <==> e in Shift(p, m + n)
    {
      InShift(Shift(p, m), n, e);
      if e >= n { InShift(p, m, e - n); }
      InShift(p, m + n, e);
    }
  }

  lemma AddAssoc(p: Poly, q: Poly, r: Poly)
    ensures Add(Add(p, q), r) == Add(p, Add(q, r))
  {
    assert forall e: nat :: e in Add(Add(p, q), r) <==> e in Add(p, Add(q, r));
  }

  lemma AddSwap(p: Poly, q: Poly, r: Poly, s: Poly)
    ensures Add(Add(p, q), Add(r, s)) == Add(Add(p, r), Add(q, s))
  {
    assert forall e: nat ::
      e in Add(Add(p, q), Add(r, s)) <==> e in Add(Add(p, r), Add(q, s));
  }

  /** Multiplication by g distributes over addition. */
  lemma {:induction false} MulAdd(p: Poly, q: Poly, g: seq<nat>)
    ensures Mul(Add(p, q), g) == Add(Mul(p, g), Mul(q, g))
  {
    if g == [] {
    } else {
      MulAdd(p, q, g[1..]);
      AddShift(p, q, g[0]);
      AddSwap(Shift(p, g[0]), Shift(q, g[0]), Mul(p, g[1..]), Mul(q, g[1..]));
    }
  }

  lemma {:induction false} MulShift(p: Poly, n: nat, g: seq<nat>)
    ensures Mul(Shift(p, n), g) == Shift(Mul(p, g), n)
  {
    if g == [] {
    } else {
      MulShift(p, n, g[1..]);
      ShiftShift(p, n, g[0]);
      ShiftShift(p, g[0], n);
      AddShift(Shift(p, g[0]), Mul(p, g[1..]), n);
    }
  }

  /** With all of p's exponents at most m and all of g's at most k, the product stays at or below m + k. */
  lemma {:induction false} MulBound(p: Poly, g: seq<nat>, m: nat, k: nat)
    requires forall e :: e in p ==> e <= m
    requires forall i :: 0 <= i < |g| ==> g[i] <= k
    ensures forall e :: e in Mul(p, g) ==> e <= m + k
  {
    if g != [] {
      MulBound(p, g[1..], m, k);
      forall e | e in Shift(p, g[0])
        ensures e <= m + k
      {
        InShift(p, g[0], e);
      }
    }
  }

  lemma {:induction false} HasMax(p: Poly) returns (m: nat)
    requires p != {}
    ensures m in p && forall e :: e in p ==> e <= m
  {
    var first: nat :| first in p;
    m := first;
    var rest := p - {first};
    if rest != {} {
      var n := HasMax(rest);
      if n > m { m := n; }
    }
    assert forall e :: e in p ==> e == first || e in rest;
  }

  /** The leading terms multiply: a non-zero product reaches the degree of the divisor. */
  lemma MulLeading(q: Poly, g: seq<nat>) returns (m: nat)
    requires IsDivisor(g) && q != {}
    ensures m + g[0] in Mul(q, g)
  {
    m := HasMax(q);
    MulBound(q, g[1..], m, g[0] - 1);
    InShift(q, g[0], m + g[0]);
  }

  lemma MulDegree(q: Poly, g: seq<nat>)
    requires IsDivisor(g)
    requires DegBelow(Mul(q, g), g[0])
    ensures q == {}
  {
    if q != {} {
      var m := MulLeading(q, g);
    }
  }

  /** The remainder is unique: two divisions of one polynomial agree. */
  lemma RemainderUnique(g: seq<nat>, q1: Poly, r1: Poly, q2: Poly, r2: Poly)
    requires IsDivisor(g) && DegBelow(r1, g[0]) && DegBelow(r2, g[0])
    requires Add(Mul(q1, g), r1) == Add(Mul(q2, g), r2)
    ensures q1 == q2 && r1 == r2
  {
    var q := Add(q1, q2);
    MulAdd(q1, q2, g);
    assert Mul(q, g) == Add(r1, r2) by {
      assert forall e: nat :: e in Add(Mul(q1, g), Mul(q2, g)) <==> e in Add(r1, r2) by {
        forall e: nat
          ensures e in Add(Mul(q1, g), Mul(q2, g)) <==> e in Add(r1, r2)
        {
          assert e in Add(Mul(q1, g), r1) <==> e in Add(Mul(q2, g), r2);
        }
      }
    }
    MulDegree(q, g);
    assert forall e: nat :: e in q <==> ((e in q1) != (e in q2));
    assert q1 == q2;
    assert forall e: nat :: e in Add(Mul(q1, g), r1) <==> ((e in Mul(q1, g)) != (e in r1));
    assert forall e: nat :: e in Add(Mul(q1, g), r2) <==> ((e in Mul(q1, g)) != (e in r2));
  }

  /**
   One step of long division: feeding the next coefficient b into a remainder r gives
   r*x + b, minus g when the x^(d-1) coefficient of r was set.
   */
  lemma DivisionStep(g: seq<nat>, p: Poly, q: Poly, r: Poly, b: Poly) returns (q': Poly)
    requires IsDivisor(g)
    requires Add(Mul(q, g), r) == p
    ensures Add(Mul(q', g), Add(Add(Shift(r, 1), b), if g[0] - 1 in r then Mul({0}, g) else {}))
         == Add(Shift(p, 1), b)
  {
    var t: Poly := if g[0] - 1 in r then {0} else {};
    var sub := if g[0] - 1 in r then Mul({0}, g) else {};
    q' := Add(Shift(q, 1), t);
    MulAdd(Shift(q, 1), t, g);
    MulShift(q, 1, g);
    MulEmpty(g);
    AddShift(Mul(q, g), r, 1);
    assert Mul(q', g) == Add(Shift(Mul(q, g), 1), sub);
    var u, v := Shift(Mul(q, g), 1), Shift(r, 1);
    assert forall e: nat :: e in Add(Add(u, sub), Add(Add(v, b), sub)) <==> e in Add(Add(u, v), b);
  }

  lemma {:induction false} MulEmpty(g: seq<nat>)
    ensures Mul({}, g) == {}
  {
    if g != [] {
      MulEmpty(g[1..]);
      assert Shift({}, g[0]) == {};
    }
  }

  /** The constant coefficient of a product is the constant coefficient of the factor. */
  lemma {:induction false} MulConstant(q: Poly, g: seq<nat>)
    requires g != [] && g[|g| - 1] == 0
    requires forall i :: 0 <= i < |g| - 1 ==> g[i] > 0
    ensures 0 in Mul(q, g) <==> 0 in q
  {
    InShift(q, g[0], 0);
    if |g| > 1 {
      MulConstant(q, g[1..]);
    }
  }

  lemma {:induction false} UnshiftExists(q: Poly) returns (q': Poly)
    requires 0 !in q
    ensures q == Shift(q', 1)
  {
    q' := set e: nat | e in q :: if e > 0 then e - 1 else 0;
    forall e: nat
      ensures e in q <==> e in Shift(q', 1)
    {
      InShift(q', 1, e);
      if e in q { assert e - 1 in q'; }
      if e >= 1 && e - 1 in q' {
        var d: nat :| d in q && e - 1 == (if d > 0 then d - 1 else 0);
        assert d > 0;
      }
    }
  }

  lemma ShiftInjective(p: Poly, q: Poly, n: nat)
    requires Shift(p, n) == Shift(q, n)
    ensures p == q
  {
    forall e: nat
      ensures e in p <==> e in q
    {
      InShift(p, n, e + n);
      InShift(q, n, e + n);
    }
  }

  /**
   A burst error: no non-zero polynomial of degree below that of g, moved to any
   position, is a multiple of g.
   */
  lemma {:induction false} BurstNotDivisible(g: seq<nat>, burst: Poly, k: nat)
    requires IsDivisor(g) && DegBelow(burst, g[0]) && burst != {}
    ensures !Divides(g, Shift(burst, k))
  {
    if Divides(g, Shift(burst, k)) {
      var q: Poly :| Mul(q, g) == Shift(burst, k);
      if k == 0 {
        assert forall e: nat :: e in Shift(burst, 0) <==> e in burst by {
          forall e: nat ensures e in Shift(burst, 0) <==> e in burst { InShift(burst, 0, e); }
        }
        MulDegree(q, g);
        MulEmpty(g);
      } else {
        InShift(burst, k, 0);
        MulConstant(q, g);
        var q' := UnshiftExists(q);
        MulShift(q', 1, g);
        ShiftShift(burst, k - 1, 1);
        ShiftInjective(Mul(q', g), Shift(burst, k - 1), 1);
        BurstNotDivisible(g, burst, k - 1);
      }
      assert false;
    }
  }

  /** Appending a coefficient multiplies by x and adds it. */
  lemma FromBitsAppend(bits: seq<bool>, b: bool)
    ensures FromBits(bits + [b]) == Add(Shift(FromBits(bits), 1), if b then {0} else {})
  {
    var longer := bits + [b];
    var one: Poly := if b then {0} else {};
    forall e: nat
      ensures e in FromBits(longer) <==> e in Add(Shift(FromBits(bits), 1), one)
    {
      InFromBits(longer, e);
      InShift(FromBits(bits), 1, e);
      if e >= 1 { InFromBits(bits, e - 1); }
    }
  }

  lemma InFromBits(bits: seq<bool>, e: nat)
    ensures e in FromBits(bits) <==> e < |bits| && bits[|bits| - 1 - e]
  {
    if e < |bits| && bits[|bits| - 1 - e] {
      assert |bits| - 1 - (|bits| - 1 - e) == e;
    }
  }
}
