/** Arithmetic modulo a prime: the field the group's scalars live in. */
module Scalars {

  predicate Prime(n: nat) {
    n >= 2 && forall d :: 1 < d < n ==> n % d != 0
  }

  function Add(n: nat, a: nat, b: nat): nat
    requires n > 0
  {
    (a + b) % n
  }

  function Neg(n: nat, a: nat): nat
    requires n > 0
  {
    (-(a as int)) % n
  }

  function Mul(n: nat, a: nat, b: nat): nat
    requires n > 0
  {
    (a * b) % n
  }

  // ---- Congruence ----

  lemma MultipleGrows(k: int, n: nat)
    requires k >= 1
    ensures k * n >= n
  {
    assert k * n == n + (k - 1) * n;
  }

  lemma SmallMultipleIsZero(k: int, n: nat)
    requires -(n as int) < k * n < n
    ensures k == 0
  {
    assert (-k) * n == -(k * n);
    if k >= 1 {
      MultipleGrows(k, n);
    } else if k <= -1 {
      MultipleGrows(-k, n);
    }
  }

  lemma RemainderIsUnique(x: int, q: int, r: int, n: nat)
    requires n > 0 && x == q * n + r && 0 <= r < n
    ensures x % n == r
  {
    var p := x / n;
    assert (q - p) * n == x % n - r by {
      assert x == p * n + x % n;
      assert (q - p) * n == q * n - p * n;
    }
    SmallMultipleIsZero(q - p, n);
  }

  /** Whole multiples of the modulus do not count. */
  lemma Shift(x: int, m: int, n: nat)
    requires n > 0
    ensures (x + m * n) % n == x % n
  {
    var q := x / n;
    assert x + m * n == (q + m) * n + x % n by {
      assert x == q * n + x % n;
    }
    RemainderIsUnique(x + m * n, q + m, x % n, n);
  }

  lemma ReduceSum(a: int, b: int, n: nat)
    requires n > 0
    ensures (a % n + b) % n == (a + b) % n
  {
    Shift(a % n + b, a / n, n);
    assert a % n + b + (a / n) * n == a + b;
  }

  lemma ReduceProduct(a: int, b: int, n: nat)
    requires n > 0
    ensures (a % n * b) % n == (a * b) % n
  {
    var q, r := a / n, a % n;
    assert a * b == r * b + (q * b) * n by {
      assert a == q * n + r;
      assert (q * n + r) * b == q * n * b + r * b;
      assert q * n * b == (q * b) * n;
    }
    Shift(r * b, q * b, n);
  }

  // ---- The inverse ----

  /** Two numbers' common divisor and the combination of them that makes it. */
  function Bezout(a: nat, b: nat): (r: (int, int, nat))
    decreases b
  {
    if b == 0 then (1, 0, a)
    else
      var (x, y, g) := Bezout(b, a % b);
      (y, x - (a / b) * y, g)
  }

  ghost predicate Divides(d: nat, a: int) {
    exists q: int :: a == q * d
  }

  lemma {:induction false} BezoutHolds(a: nat, b: nat)
    ensures
      var (x, y, g) := Bezout(a, b);
      a * x + b * y == g && Divides(g, a) && Divides(g, b)
    decreases b
  {
    if b == 0 {
      assert a == 1 * a && b == 0 * a;
    } else {
      BezoutHolds(b, a % b);
      var (x, y, g) := Bezout(b, a % b);
      Combines(a, b, a / b, a % b, x, y, g);
    }
  }

  lemma Combines(a: int, b: int, q: int, r: int, x: int, y: int, g: nat)
    requires a == q * b + r && b * x + r * y == g && Divides(g, b) && Divides(g, r)
    ensures a * y + b * (x - q * y) == g && Divides(g, a)
  {
    calc {
      a * y + b * (x - q * y);
    ==
      (q * b + r) * y + (b * x - b * (q * y));
    ==  { assert (q * b + r) * y == q * b * y + r * y; assert b * (q * y) == q * b * y; }
      b * x + r * y;
    }
    var m :| b == m * g;
    var k :| r == k * g;
    assert a == (q * m + k) * g by {
      assert q * (m * g) == q * m * g;
    }
  }

  lemma FactorBounds(k: int, g: nat, a: nat)
    requires a == k * g && a > 0
    ensures 0 < g <= a
  {
    assert k <= 0 ==> k * g <= 0;
    if k > 0 {
      MultipleGrows(k, g);
    }
  }

  lemma PrimeHasNoCommonDivisor(n: nat, a: nat, g: nat)
    requires Prime(n) && 0 < a < n && Divides(g, n) && Divides(g, a)
    ensures g == 1
  {
    var q :| n == q * g;
    var k :| a == k * g;
    FactorBounds(k, g, a);
    RemainderIsUnique(n, q, 0, g);
  }

  function Inverse(n: nat, a: nat): nat
    requires n > 0
  {
    Bezout(n, a).1 % n
  }

  lemma CoefficientInverts(n: nat, a: nat, x: int, y: int)
    requires n > 1 && n * x + a * y == 1
    ensures (a * (y % n)) % n == 1
  {
    ReduceProduct(y, a, n);
    Commutes(y % n, a);
    Commutes(y, a);
    Shift(1, -x, n);
    assert a * y == 1 + (-x) * n by {
      assert (-x) * n == -(n * x);
    }
    RemainderIsUnique(1, 0, 1, n);
  }

  lemma Commutes(a: int, b: int)
    ensures a * b == b * a
  {
  }

  lemma InverseCancels(n: nat, a: nat)
    requires Prime(n) && 0 < a < n
    ensures Mul(n, a, Inverse(n, a)) == 1
  {
    hide Bezout;
    BezoutHolds(n, a);
    var r := Bezout(n, a);
    PrimeHasNoCommonDivisor(n, a, r.2);
    CoefficientInverts(n, a, r.0, r.1);
  }

  // ---- What the signing equation needs ----

  /** Adding back what was taken away. */
  lemma TakeAndGive(n: nat, k: nat, m: nat)
    requires n > 0 && k < n
    ensures Add(n, Add(n, Neg(n, m), k), m) == k
  {
    ReduceSum(-(m as int), k, n);
    ReduceSum(-(m as int) + k, m, n);
    RemainderIsUnique(k, 0, k, n);
  }

  /** The scalar of a signature, as the signer computes it. */
  function Response(n: nat, k: nat, e: nat, d: nat): nat
    requires n > 0
  {
    Add(n, Neg(n, Mul(n, e, d)), k)
  }

  lemma ResponseIs(n: nat, k: nat, e: nat, d: nat)
    requires n > 0
    ensures Response(n, k, e, d) == (k - e * d) % n
  {
    ReduceSum(-(((e * d) % n) as int), k, n);
    Shift(k - (e * d) % n, -((e * d) / n), n);
    assert k - (e * d) % n + (-((e * d) / n)) * n == k - e * d;
  }

  /** Two responses under one nonce solve for the key. */
  lemma TwoResponsesSolve(n: nat, k: nat, d: nat, eA: nat, eB: nat)
    requires Prime(n) && d < n && eA < n && eB < n && eA != eB
    ensures
      var num := Add(n, Neg(n, Response(n, k, eB, d)), Response(n, k, eA, d));
      var den := Add(n, Neg(n, eA), eB);
      den != 0 && Mul(n, num, Inverse(n, den)) == d
  {
    var sA, sB := Response(n, k, eA, d), Response(n, k, eB, d);
    var num, den := Add(n, Neg(n, sB), sA), Add(n, Neg(n, eA), eB);
    ResponseIs(n, k, eA, d);
    ResponseIs(n, k, eB, d);
    DifferenceIs(n, eB, eA);
    DifferenceIs(n, sA, sB);
    assert den == (eB - eA) % n;
    assert num == (sA - sB) % n;
    NumeratorIs(n, k, d, eA, eB);
    DifferentIsNotZero(n, eA, eB);
    var inv := Inverse(n, den);
    InverseCancels(n, den);
    ReduceProduct((eB - eA) * d, inv, n);
    ReduceProduct(eB - eA, d * inv, n);
    Rearrange(eB - eA, d, inv);
    assert Mul(n, num, inv) == (den * (d * inv)) % n;
    Rearrange(den, inv, d);
    assert den * (d * inv) == den * inv * d by { Rearrange(den, d, inv); }
    ReduceProduct(den * inv, d, n);
    RemainderIsUnique(d, 0, d, n);
  }

  lemma Rearrange(a: int, b: int, c: int)
    ensures a * b * c == a * (b * c) && a * (b * c) == a * c * b
  {
  }

  lemma DifferenceIs(n: nat, a: nat, b: nat)
    requires n > 0
    ensures Add(n, Neg(n, b), a) == (a - b) % n
  {
    ReduceSum(-(b as int), a, n);
  }

  lemma NumeratorIs(n: nat, k: nat, d: nat, eA: nat, eB: nat)
    requires n > 0
    ensures ((k - eA * d) % n - (k - eB * d) % n) % n == ((eB - eA) * d) % n
  {
    var x, y := k - eA * d, k - eB * d;
    ReduceSum(x, -(y % n), n);
    Shift(x - y % n, -(y / n), n);
    assert x - y % n + (-(y / n)) * n == x - y;
    assert x - y == (eB - eA) * d by {
      assert (eB - eA) * d == eB * d - eA * d;
    }
  }

  lemma DifferentIsNotZero(n: nat, eA: nat, eB: nat)
    requires n > 0 && eA < n && eB < n && eA != eB
    ensures (eB - eA) % n != 0
  {
    if eB > eA {
      RemainderIsUnique(eB - eA, 0, eB - eA, n);
    } else {
      RemainderIsUnique(eB - eA, -1, eB - eA + n, n);
    }
  }
}
