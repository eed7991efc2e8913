/** Exact-real arithmetic shared by both score formulas: the power, minimum and
    rounding operations that the calculator takes from JavaScript's Math object. */
module Numeric {

  /** Math.pow restricted to natural exponents. */
  function Pow(x: real, n: nat): real
  {
    if n == 0 then 1.0 else x * Pow(x, n - 1)
  }

  /** Math.min on two numbers. */
  function Min(a: real, b: real): (r: real)
    ensures r <= a && r <= b
    ensures r == a || r == b
  {
    if a <= b then a else b
  }

  /** x is a whole number of tenths. */
  predicate OneDecimal(x: real)
  {
    (x * 10.0).Floor as real == x * 10.0
  }

  /** Math.round(x * 10) / 10: JavaScript's Math.round(y) is the integer nearest
      to y, with halves going up, which is Floor(y + 1/2). */
  function RoundTenth(x: real): (r: real)
    ensures OneDecimal(r)
    ensures r - 0.05 <= x < r + 0.05
    ensures 0.0 <= x <= 10.0 ==> 0.0 <= r <= 10.0
  {
    var k := (x * 10.0 + 0.5).Floor;
    assert (k as real / 10.0) * 10.0 == k as real;
    k as real / 10.0
  }

  /** Rounding lands on the one whole number of tenths within 0.05 below or
      just under 0.05 above. */
  lemma RoundTenthOf(x: real, r: real)
    requires OneDecimal(r) && r - 0.05 <= x < r + 0.05
    ensures RoundTenth(x) == r
  {
    var n := (r * 10.0).Floor;
    var y := x * 10.0 + 0.5;
    assert n as real == r * 10.0;
    assert n as real <= y < n as real + 1.0;
    assert y.Floor == n;
  }

  lemma RoundTenthMonotone(x: real, y: real)
    requires x <= y
    ensures RoundTenth(x) <= RoundTenth(y)
  {
    assert (x * 10.0 + 0.5).Floor <= (y * 10.0 + 0.5).Floor;
  }

  /** Multiplication by a non-negative factor is monotone. */
  lemma MulMonotone(a: real, b: real, c: real)
    requires a <= b && c >= 0.0
    ensures a * c <= b * c
  {
  }

  /** The product of two numbers in [0, 1] lies between zero and the first. */
  lemma MulInUnit(x: real, p: real)
    requires 0.0 <= x <= 1.0 && 0.0 <= p <= 1.0
    ensures 0.0 <= x * p <= x
  {
    MulMonotone(p, 1.0, x);
    MulMonotone(0.0, p, x);
    assert p * x == x * p;
  }

  /** Powers add up: x^(a+b) = x^a * x^b. */
  lemma {:induction false} PowSplit(x: real, a: nat, b: nat)
    ensures Pow(x, a + b) == Pow(x, a) * Pow(x, b)
  {
    if a > 0 {
      PowSplit(x, a - 1, b);
      assert Pow(x, a + b) == x * Pow(x, a - 1 + b);
      assert x * (Pow(x, a - 1) * Pow(x, b)) == (x * Pow(x, a - 1)) * Pow(x, b);
    }
  }

  /** A positive power of a number in [0, 1] lies between zero and that number. */
  lemma {:induction false} PowBounded(x: real, n: nat)
    requires 0.0 <= x <= 1.0 && n >= 1
    ensures 0.0 <= Pow(x, n) <= x
  {
    if n == 1 {
      assert Pow(x, 0) == 1.0;
    } else {
      PowBounded(x, n - 1);
      var p := Pow(x, n - 1);
      MulInUnit(x, p);
      assert Pow(x, n) == x * p;
    }
  }

  /** Powers of non-negative numbers keep their order. */
  lemma {:induction false} PowMonotone(y: real, c: real, n: nat)
    requires 0.0 <= y <= c
    ensures 0.0 <= Pow(y, n) <= Pow(c, n)
  {
    if n > 0 {
      PowMonotone(y, c, n - 1);
      var p, q := Pow(y, n - 1), Pow(c, n - 1);
      MulMonotone(y, c, p);
      MulMonotone(p, q, c);
      assert y * p <= c * p == p * c <= q * c == c * q;
      MulMonotone(0.0, y, p);
    }
  }

  /** z * a - y * b, regrouped around the differences a - b and z - y. */
  lemma MulDifference(z: real, y: real, a: real, b: real)
    ensures z * a - y * b == z * (a - b) + b * (z - y)
  {
  }

  /** One more factor: x^(m+1) = x * x^m. */
  lemma PowSucc(x: real, m: nat)
    ensures Pow(x, m + 1) == x * Pow(x, m)
  {
  }

  /** A product grows with either factor when both are non-negative. */
  lemma MulLe(a: real, b: real, x: real, y: real)
    requires 0.0 <= a <= b && 0.0 <= x <= y
    ensures a * x <= b * y
  {
    MulMonotone(a, b, x);
    MulMonotone(x, y, b);
  }

  /** The growth of z^n over y^n, times c, is at most n * c^n times the
      growth of z over y, for 0 <= y <= z <= c: the slope of x^n on [0, c]
      is at most n * c^(n-1). */
  lemma {:induction false} PowDiff(y: real, z: real, c: real, n: nat)
    requires 0.0 <= y <= z <= c
    ensures 0.0 <= Pow(z, n) - Pow(y, n)
    ensures c * (Pow(z, n) - Pow(y, n)) <= (n as real) * Pow(c, n) * (z - y)
  {
    if n > 0 {
      var m: nat := n - 1;
      PowDiff(y, z, c, m);
      PowMonotone(y, c, m);
      PowDiffSucc(y, z, c, m);
    }
  }

  /** The inductive step of PowDiff, from exponent m to m + 1. */
  lemma PowDiffSucc(y: real, z: real, c: real, m: nat)
    requires 0.0 <= y <= z <= c
    requires 0.0 <= Pow(z, m) - Pow(y, m)
    requires c * (Pow(z, m) - Pow(y, m)) <= (m as real) * Pow(c, m) * (z - y)
    requires 0.0 <= Pow(y, m) <= Pow(c, m)
    ensures 0.0 <= Pow(z, m + 1) - Pow(y, m + 1)
    ensures c * (Pow(z, m + 1) - Pow(y, m + 1)) <= ((m + 1) as real) * Pow(c, m + 1) * (z - y)
  {
    PowSucc(z, m);
    PowSucc(y, m);
    PowSucc(c, m);
    PowDiffArith(y, z, c, m as real, (m + 1) as real, Pow(z, m), Pow(y, m), Pow(c, m),
                 Pow(z, m + 1), Pow(y, m + 1), Pow(c, m + 1));
  }

  /** The step of PowDiff on the powers as plain numbers: pz, py and pc stand
      for the m-th powers of z, y and c, pzn, pyn and pcn for the (m+1)-th
      powers, and k and nn for m and m + 1. */
  lemma PowDiffArith(y: real, z: real, c: real, k: real, nn: real, pz: real, py: real, pc: real,
                     pzn: real, pyn: real, pcn: real)
    requires 0.0 <= y <= z <= c && 0.0 <= k && nn == k + 1.0
    requires pzn == z * pz && pyn == y * py && pcn == c * pc
    requires 0.0 <= pz - py && c * (pz - py) <= k * pc * (z - y)
    requires 0.0 <= py <= pc
    ensures 0.0 <= pzn - pyn
    ensures c * (pzn - pyn) <= nn * pcn * (z - y)
  {
    PowDiffCore(y, z, c, k, pz, py, pc);
    var g := z * pz - y * py;
    assert pzn - pyn == g;
    calc {
      c * (pzn - pyn);
    == c * g;
    <= (k + 1.0) * (c * pc) * (z - y);
    == nn * pcn * (z - y);
    }
  }

  /** The arithmetic of PowDiffArith, with the (m+1)-th powers written out as
      z * pz, y * py and c * pc. */
  lemma PowDiffCore(y: real, z: real, c: real, k: real, pz: real, py: real, pc: real)
    requires 0.0 <= y <= z <= c && 0.0 <= k
    requires 0.0 <= pz - py && c * (pz - py) <= k * pc * (z - y)
    requires 0.0 <= py <= pc
    ensures 0.0 <= z * pz - y * py
    ensures c * (z * pz - y * py) <= (k + 1.0) * (c * pc) * (z - y)
  {
    var d, e := pz - py, z - y;
    var b := k * pc * e;
    MulDifference(z, y, pz, py);
    MulLe(0.0, z, 0.0, d);
    MulLe(0.0, py, 0.0, e);
    calc {
      c * (z * pz - y * py);
    == c * (z * d + py * e);
    == z * (c * d) + c * (py * e);
    <= { MulLe(z, c, c * d, b); }
       c * b + c * (py * e);
    <= { MulLe(c, c, py * e, pc * e); MulLe(py, pc, e, e); }
       c * b + c * (pc * e);
    == (k + 1.0) * (c * pc) * e;
    }
  }
}
