/** Facts about integer quotients and remainders that the solver needs spelled out. */
module Quotients {
  import opened Common

  lemma MulAssociates(a: nat, b: nat, c: nat)
    ensures a * (b * c) == a * b * c
  {
  }

  lemma MulMonotone(a: nat, b: nat, c: nat)
    requires a <= b
    ensures a * c <= b * c
  {
  }

  lemma DivideBack(n: nat, d: nat)
    requires d > 0
    ensures n / d * d + n % d == n && n / d >= 0
  {
  }

  lemma DivUnique(n: nat, d: nat, q: nat, r: nat)
    requires d > 0 && n == q * d + r && r < d
    ensures n / d == q && n % d == r
  {
    var q', r' := n / d, n % d;
    assert n == q' * d + r';
    if q < q' { MulMonotone(q + 1, q', d); }
    if q' < q { MulMonotone(q' + 1, q, d); }
  }

  /** Whole multiples of the divisor come out of a quotient. */
  lemma DivShift(a: nat, b: nat, d: nat)
    requires d > 0
    ensures (a * d + b) / d == a + b / d
  {
    assert (a + b / d) * d == a * d + (b / d) * d;
    DivUnique(a * d + b, d, a + b / d, b % d);
  }

  lemma DivMonotone(a: nat, b: nat, d: nat)
    requires d > 0 && a <= b
    ensures a / d <= b / d
  {
    if a / d > b / d {
      MulMonotone(b / d + 1, a / d, d);
    }
  }

  lemma DivBelow(a: nat, k: nat, d: nat)
    requires d > 0 && a < k * d
    ensures a / d < k
  {
    if a / d >= k { MulMonotone(k, a / d, d); }
  }

  lemma QuotientBound(a: nat, d: nat)
    requires d >= 1
    ensures a / d <= a
  {
    var q := a / d;
    assert q * d <= a;
    assert q * d == q * (d - 1) + q;
  }

  lemma QuotientSmaller(n: nat, d: nat)
    requires 2 <= d <= n
    ensures 0 <= n / d < n
  {
    DivideBack(n, d);
    var q := n / d;
    assert q * d >= q * 2;
  }

  lemma RemainderIs(x: int, k: int, v: nat, d: nat)
    requires x == v + d * k && v < d
    ensures x % d == v
  {
    var q := x / d;
    assert x == d * q + x % d;
    assert q < k ==> d * (q + 1) <= d * k;
    assert k < q ==> d * (k + 1) <= d * q;
  }

  lemma AddMod(x: nat, y: nat)
    ensures (x % TWO64 + y) % TWO64 == (x + y) % TWO64
  {
    var a := x % TWO64 + y;
    assert x == TWO64 * (x / TWO64) + x % TWO64;
    assert a == TWO64 * (a / TWO64) + a % TWO64;
    RemainderIs(x + y, x / TWO64 + a / TWO64, a % TWO64, TWO64);
  }
}
