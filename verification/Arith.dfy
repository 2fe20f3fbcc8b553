/** Small facts about multiplication and Euclidean division that the solver needs spelled out. */
module Arith {
  function One(b: bool): nat { if b then 1 else 0 }

  function Sum(s: seq<nat>): nat {
    if s == [] then 0 else s[0] + Sum(s[1..])
  }

  lemma MulDistributes(m: int, a: int, b: int)
    ensures m * (a - b) == m * a - m * b
  {}

  lemma MulAtLeast(m: nat, d: int)
    requires d >= 1
    ensures m * d >= m
  {}

  lemma QuotientUnique(m: nat, q1: int, r1: nat, q2: int, r2: nat)
    requires r1 < m && r2 < m && m * q1 + r1 == m * q2 + r2
    ensures q1 == q2 && r1 == r2
  {
    MulDistributes(m, q1, q2);
    MulDistributes(m, q2, q1);
    if q1 > q2 { MulAtLeast(m, q1 - q2); }
    else if q1 < q2 { MulAtLeast(m, q2 - q1); }
  }

  lemma DivModOf(m: nat, q: int, r: nat)
    requires r < m
    ensures (m * q + r) % m == r && (m * q + r) / m == q
  {
    var x := m * q + r;
    assert x == m * (x / m) + x % m;
    QuotientUnique(m, q, r, x / m, x % m);
  }

  /** Quotient and remainder, one further. */
  lemma DivStep(e: nat, m: nat)
    requires m > 0
    ensures e % m + 1 == m ==> (e + 1) / m == e / m + 1 && (e + 1) % m == 0
    ensures e % m + 1 < m ==> (e + 1) / m == e / m && (e + 1) % m == e % m + 1
  {
    var q, r := e / m, e % m;
    assert e == m * q + r;
    if r + 1 == m {
      MulDistributes(m, q + 1, 1);
      DivModOf(m, q + 1, 0);
    } else {
      DivModOf(m, q, r + 1);
    }
  }

  lemma DivBelow(e: nat, m: nat, q: nat)
    requires m > 0
    ensures e < m * q <==> e / m < q
    ensures e == m * q ==> e / m == q && e % m == 0
  {
    assert e == m * (e / m) + e % m;
    if e / m < q {
      MulDistributes(m, q, e / m);
      MulAtLeast(m, q - e / m);
    } else {
      MulDistributes(m, e / m, q);
      if e / m > q { MulAtLeast(m, e / m - q); }
    }
    if e == m * q { DivModOf(m, q, 0); }
  }
}
