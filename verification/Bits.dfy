/** The machine's bitwise operators on natural numbers, digit by digit. */
module Bits {
  import opened Common
  import opened Quotients

  function Pow2(k: nat): (r: nat)
    ensures r >= 1
  {
    if k == 0 then 1 else 2 * Pow2(k - 1)
  }

  predicate Odd(a: nat) { a % 2 == 1 }

  function Digit(b: bool): nat { if b then 1 else 0 }

  function Or(a: nat, b: nat): nat {
    if a == 0 && b == 0 then 0 else Digit(Odd(a) || Odd(b)) + 2 * Or(a / 2, b / 2)
  }

  function And(a: nat, b: nat): nat {
    if a == 0 && b == 0 then 0 else Digit(Odd(a) && Odd(b)) + 2 * And(a / 2, b / 2)
  }

  function Xor(a: nat, b: nat): nat {
    if a == 0 && b == 0 then 0 else Digit(Odd(a) != Odd(b)) + 2 * Xor(a / 2, b / 2)
  }

  /** Complement in `width` bits. */
  function Not(a: nat, width: nat): nat {
    if width == 0 then 0 else Digit(!Odd(a)) + 2 * Not(a / 2, width - 1)
  }

  /** Binary digit `c` of `a`. */
  predicate Bit(a: nat, c: nat) {
    if c == 0 then Odd(a) else Bit(a / 2, c - 1)
  }

  // --- digits of the operators ---

  lemma {:induction false} OrBit(a: nat, b: nat, c: nat)
    ensures Bit(Or(a, b), c) <==> Bit(a, c) || Bit(b, c)
    decreases c
  {
    if c > 0 { OrBit(a / 2, b / 2, c - 1); }
  }

  lemma {:induction false} AndBit(a: nat, b: nat, c: nat)
    ensures Bit(And(a, b), c) <==> Bit(a, c) && Bit(b, c)
    decreases c
  {
    if c > 0 { AndBit(a / 2, b / 2, c - 1); }
  }

  lemma NotStep(a: nat, width: nat)
    requires width > 0
    ensures Odd(Not(a, width)) == !Odd(a) && Not(a, width) / 2 == Not(a / 2, width - 1)
  {
    Parity(!Odd(a), Not(a / 2, width - 1));
  }

  lemma Parity(d: bool, x: nat)
    ensures Odd(Digit(d) + 2 * x) == d && (Digit(d) + 2 * x) / 2 == x
  {
  }

  lemma {:induction false} NotBit(a: nat, width: nat, c: nat)
    requires c < width
    ensures Bit(Not(a, width), c) <==> !Bit(a, c)
    decreases c
  {
    NotStep(a, width);
    hide Not;
    if c > 0 { NotBit(a / 2, width - 1, c - 1); }
  }

  lemma {:induction false} Pow2Bit(k: nat, c: nat)
    ensures Bit(Pow2(k), c) <==> c == k
    decreases c
  {
    if c > 0 {
      if k > 0 { Pow2Bit(k - 1, c - 1); } else { ZeroBit(c - 1); }
    }
  }

  lemma {:induction false} ZeroBit(c: nat)
    ensures !Bit(0, c)
  {
    if c > 0 { ZeroBit(c - 1); }
  }

  lemma OnesHalve(p: nat)
    requires p >= 1
    ensures (2 * p - 1) / 2 == p - 1 && Odd(2 * p - 1)
  {
  }

  lemma {:induction false} OnesBit(k: nat, c: nat)
    ensures Bit(Pow2(k) - 1, c) <==> c < k
    decreases c
  {
    if k == 0 {
      ZeroBit(c);
    } else {
      var p := Pow2(k - 1);
      OnesHalve(p);
      if c > 0 { OnesBit(k - 1, c - 1); }
    }
  }

  /** A word is determined by its digits. */
  lemma {:induction false} SameDigits(a: nat, b: nat, width: nat)
    requires a < Pow2(width) && b < Pow2(width)
    requires forall c | 0 <= c < width :: Bit(a, c) == Bit(b, c)
    ensures a == b
    decreases width
  {
    if width > 0 {
      assert Bit(a, 0) == Bit(b, 0);
      forall c | 0 <= c < width - 1 ensures Bit(a / 2, c) == Bit(b / 2, c) {
        assert Bit(a, c + 1) == Bit(b, c + 1);
      }
      SameDigits(a / 2, b / 2, width - 1);
    }
  }

  lemma {:induction false} AndBound(a: nat, b: nat, width: nat)
    requires a < Pow2(width)
    ensures And(a, b) <= a < Pow2(width)
    decreases width
  {
    if width > 0 { AndBound(a / 2, b / 2, width - 1); } else { AndZero(b); }
  }

  lemma {:induction false} AndZero(b: nat)
    ensures And(0, b) == 0
  {
    if b > 0 { AndZero(b / 2); }
  }

  lemma {:induction false} XorBound(a: nat, b: nat, width: nat)
    requires a < Pow2(width) && b < Pow2(width)
    ensures Xor(a, b) < Pow2(width)
    decreases width
  {
    if width > 0 { XorBound(a / 2, b / 2, width - 1); }
  }

  lemma {:induction false} XorBit(a: nat, b: nat, c: nat)
    ensures Bit(Xor(a, b), c) <==> Bit(a, c) != Bit(b, c)
    decreases c
  {
    if c > 0 { XorBit(a / 2, b / 2, c - 1); }
  }

  /** `a >> s` */
  function Shr(a: nat, s: nat): (r: nat)
    ensures r <= a
    decreases s
  {
    if s == 0 then a else Shr(a / 2, s - 1)
  }

  /** A right shift moves every digit down. */
  lemma {:induction false} ShiftBit(a: nat, s: nat, c: nat)
    ensures Bit(Shr(a, s), c) <==> Bit(a, c + s)
    decreases s
  {
    if s > 0 { ShiftBit(a / 2, s - 1, c); }
  }

  lemma {:induction false} HighBit(a: nat, width: nat, c: nat)
    requires a < Pow2(width) && width <= c
    ensures !Bit(a, c)
    decreases c
  {
    if width > 0 { HighBit(a / 2, width - 1, c - 1); } else { ZeroBit(c); }
  }

  lemma {:induction false} Pow2Sum(a: nat, b: nat)
    ensures Pow2(a + b) == Pow2(a) * Pow2(b)
    decreases a
  {
    if a > 0 {
      Pow2Sum(a - 1, b);
      assert Pow2(a + b) == 2 * Pow2(a - 1 + b);
    }
  }

  lemma TwoToThe8()
    ensures Pow2(8) == 256
  {
    assert Pow2(4) == 16;
  }

  lemma TwoToThe64()
    ensures Pow2(64) == TWO64
  {
    hide Pow2;
    TwoToThe8();
    Pow2Sum(8, 8);
    Pow2Sum(16, 16);
    Pow2Sum(32, 32);
  }

  /** A right shift divides. */
  lemma {:induction false} ShiftIsQuotient(x: nat, k: nat)
    ensures Shr(x, k) == x / Pow2(k)
    decreases k
  {
    if k > 0 {
      ShiftIsQuotient(x / 2, k - 1);
      HalveFirst(x, Pow2(k - 1));
    }
  }

  lemma HalveFirst(a: nat, p: nat)
    requires p >= 1
    ensures a / 2 / p == a / (2 * p)
  {
    var q, r := a / 2 / p, a / 2 % p;
    assert a / 2 == p * q + r;
    assert a == q * (2 * p) + (2 * r + a % 2);
    DivUnique(a, 2 * p, q, 2 * r + a % 2);
  }

  // --- exclusive or, block by block ---

  lemma {:induction false} XorZero(a: nat)
    ensures Xor(a, 0) == a
  {
    if a > 0 { XorZero(a / 2); }
  }

  lemma XorHalf(a: nat, b: nat, d: nat, e: nat)
    requires d < 2 && e < 2
    ensures Xor(2 * a + d, 2 * b + e) == 2 * Xor(a, b) + (if d == e then 0 else 1)
  {
  }

  /** Exclusive or works on the digits above and below position `k` separately. */
  lemma {:induction false} XorBlocks(a: nat, b: nat, m: nat, n: nat, k: nat)
    requires m < Pow2(k) && n < Pow2(k)
    ensures Xor(a * Pow2(k) + m, b * Pow2(k) + n) == Xor(a, b) * Pow2(k) + Xor(m, n)
    decreases k
  {
    hide Xor;
    if k == 0 {
      XorZero(0);
    } else {
      var p := Pow2(k - 1);
      XorBlocks(a, b, m / 2, n / 2, k - 1);
      MulTwice(a, p);
      MulTwice(b, p);
      MulTwice(Xor(a, b), p);
      XorHalf(a * p + m / 2, b * p + n / 2, m % 2, n % 2);
      XorHalf(m / 2, n / 2, m % 2, n % 2);
    }
  }

  lemma MulTwice(a: nat, p: nat)
    ensures a * (2 * p) == 2 * (a * p)
  {
  }
}
