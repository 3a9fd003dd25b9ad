/**
  `CpuMask` and `AtomicCpuMask` of os/src/cpu.rs.  A `u64` is a natural number
  below 2^64 and the machine's bitwise operators are defined digit by digit;
  they are proved to be the set operations the protocols rely on.
*/
module CpuMask {
  import opened Common
  import opened Bits

  const U64_BITS: nat := 64

  /** `count_ones`. */
  function CountOnes(a: nat): nat {
    if a == 0 then 0 else Digit(Odd(a)) + CountOnes(a / 2)
  }

  predicate IsWord(a: nat) { a < Pow2(U64_BITS) }

  // --- the mask operations, as the code writes them ---

  /** `self.0 & (1u64 << cpu) != 0`, false for an id that does not fit. */
  predicate Contains(mask: nat, cpu: nat) {
    cpu < U64_BITS && And(mask, Pow2(cpu)) != 0
  }

  function First(count: nat): nat {
    if count == 0 then 0
    else if count >= U64_BITS then 0xFFFF_FFFF_FFFF_FFFF
    else Pow2(count) - 1
  }

  function Single(cpu: nat): nat
    requires cpu < U64_BITS
  {
    Pow2(cpu)
  }

  function Remove(mask: nat, cpu: nat): nat
    requires cpu < MAX_CPUS
  {
    And(mask, Not(Pow2(cpu), U64_BITS))
  }

  /** The set of CPUs a word stands for. */
  function Cpus(mask: nat): set<nat> {
    set c | 0 <= c < U64_BITS && Bit(mask, c)
  }

  // --- operations as set operations ---

  lemma UnionOfWords(a: nat, b: nat)
    ensures Cpus(Or(a, b)) == Cpus(a) + Cpus(b)
  {
    forall c: nat ensures Bit(Or(a, b), c) <==> Bit(a, c) || Bit(b, c) { OrBit(a, b, c); }
  }

  lemma IntersectionOfWords(a: nat, b: nat)
    ensures Cpus(And(a, b)) == Cpus(a) * Cpus(b)
  {
    forall c: nat ensures Bit(And(a, b), c) <==> Bit(a, c) && Bit(b, c) { AndBit(a, b, c); }
  }

  lemma DifferenceOfWords(a: nat, b: nat)
    ensures Cpus(And(a, Not(b, U64_BITS))) == Cpus(a) - Cpus(b)
  {
    IntersectionOfWords(a, Not(b, U64_BITS));
    forall c: nat | c < U64_BITS ensures Bit(Not(b, U64_BITS), c) <==> !Bit(b, c) { NotBit(b, U64_BITS, c); }
  }

  /** `bits() == 0` tests emptiness. */
  lemma ZeroIsEmpty(mask: nat)
    requires IsWord(mask)
    ensures mask == 0 <==> Cpus(mask) == {}
  {
    forall c: nat ensures !Bit(0, c) { ZeroBit(c); }
    if Cpus(mask) == {} {
      forall c | 0 <= c < U64_BITS ensures Bit(mask, c) == Bit(0, c) { assert c !in Cpus(mask); }
      SameDigits(mask, 0, U64_BITS);
    }
  }

  /** Equality of words is equality of sets, so a mask and its set determine each other. */
  lemma EqualWords(a: nat, b: nat)
    requires IsWord(a) && IsWord(b)
    ensures a == b <==> Cpus(a) == Cpus(b)
  {
    if Cpus(a) == Cpus(b) {
      forall c | 0 <= c < U64_BITS ensures Bit(a, c) == Bit(b, c) { assert c in Cpus(a) <==> c in Cpus(b); }
      SameDigits(a, b, U64_BITS);
    }
  }

  /** `a & !b == 0`, the offline-target test, means inclusion. */
  lemma SubsetByDifference(a: nat, b: nat)
    requires IsWord(a)
    ensures And(a, Not(b, U64_BITS)) == 0 <==> Cpus(a) <= Cpus(b)
  {
    var rest := Not(b, U64_BITS);
    DifferenceOfWords(a, b);
    AndBound(a, rest, U64_BITS);
    ZeroIsEmpty(And(a, rest));
  }

  /** `b & a == a`, the all-stopped test, means inclusion. */
  lemma SubsetByIntersection(a: nat, b: nat)
    requires IsWord(a) && IsWord(b)
    ensures And(b, a) == a <==> Cpus(a) <= Cpus(b)
  {
    IntersectionOfWords(b, a);
    AndBound(b, a, U64_BITS);
    EqualWords(And(b, a), a);
  }

  lemma SingleIsSingleton(cpu: nat)
    requires cpu < U64_BITS
    ensures Cpus(Single(cpu)) == {cpu}
  {
    forall c: nat ensures Bit(Pow2(cpu), c) <==> c == cpu { Pow2Bit(cpu, c); }
  }

  /** `contains` is membership, for every id. */
  lemma ContainsIsMembership(mask: nat, cpu: nat)
    requires IsWord(mask)
    ensures Contains(mask, cpu) <==> cpu in Cpus(mask)
  {
    if cpu < U64_BITS {
      IntersectionOfWords(mask, Pow2(cpu));
      SingleIsSingleton(cpu);
      AndBound(mask, Pow2(cpu), U64_BITS);
      ZeroIsEmpty(And(mask, Pow2(cpu)));
      assert cpu in Cpus(mask) ==> cpu in Cpus(mask) * {cpu};
    }
  }

  /** `first(count)` is the interval of the first `count` CPUs, cut at 64. */
  lemma FirstIsInterval(count: nat, c: nat)
    ensures c in Cpus(First(count)) <==> c < count && c < U64_BITS
  {
    if count == 0 { ZeroBit(c); }
    else if count < U64_BITS { OnesBit(count, c); }
    else {
      TwoToThe64();
      OnesBit(U64_BITS, c);
    }
  }

  lemma RemoveIsDifference(mask: nat, cpu: nat)
    requires cpu < MAX_CPUS
    ensures Cpus(Remove(mask, cpu)) == Cpus(mask) - {cpu}
  {
    DifferenceOfWords(mask, Pow2(cpu));
    SingleIsSingleton(cpu);
  }

  // --- counting ---

  function BitsBelow(mask: nat, k: nat): set<nat> {
    set c | 0 <= c < k && Bit(mask, c)
  }

  function Succ(a: set<nat>): set<nat> {
    set c | c in a :: c + 1
  }

  lemma {:induction false} SuccSize(a: set<nat>)
    ensures |Succ(a)| == |a|
    decreases |a|
  {
    if a != {} {
      var x :| x in a;
      SuccSize(a - {x});
      forall y | y in Succ(a) ensures y in Succ(a - {x}) + {x + 1} {
        if y != x + 1 { assert y - 1 in a - {x}; }
      }
      assert Succ(a) == Succ(a - {x}) + {x + 1};
    }
  }

  lemma {:induction false} CountIsSize(mask: nat, width: nat)
    requires mask < Pow2(width)
    ensures CountOnes(mask) == |BitsBelow(mask, width)|
    decreases width
  {
    if width > 0 {
      CountIsSize(mask / 2, width - 1);
      var rest := BitsBelow(mask / 2, width - 1);
      SuccSize(rest);
      forall c | 0 < c < width ensures c in Succ(rest) <==> Bit(mask, c) {
        if Bit(mask, c) { assert c - 1 in rest; }
      }
      assert BitsBelow(mask, width) == Succ(rest) + (if Odd(mask) then {0} else {});
    }
  }

  /** `count()` is the number of CPUs in the mask. */
  lemma CountIsCardinality(mask: nat)
    requires IsWord(mask)
    ensures CountOnes(mask) == |Cpus(mask)|
  {
    CountIsSize(mask, U64_BITS);
    assert BitsBelow(mask, U64_BITS) == Cpus(mask);
  }

  /** A shared mask: every method is one atomic read-modify-write of the word. */
  class AtomicCpuMask {
    var bits: nat

    constructor (mask: nat)
      ensures bits == mask
    {
      bits := mask;
    }

    ghost function Members(): set<nat>
      reads this
    {
      Cpus(bits)
    }

    method Swap(mask: nat) returns (previous: nat)
      modifies this
      ensures previous == old(bits) && Cpus(previous) == old(Members()) && Members() == Cpus(mask)
    {
      previous := bits;
      bits := mask;
    }

    method FetchInsert(cpu: nat) returns (previous: nat)
      requires cpu < MAX_CPUS
      modifies this
      ensures previous == old(bits) && Members() == old(Members()) + {cpu}
    {
      previous := bits;
      bits := Or(bits, Single(cpu));
      UnionOfWords(previous, Single(cpu));
      SingleIsSingleton(cpu);
    }

    method FetchRemove(cpu: nat) returns (previous: nat)
      requires cpu < MAX_CPUS
      modifies this
      ensures previous == old(bits) && Members() == old(Members()) - {cpu}
    {
      previous := bits;
      bits := Remove(bits, cpu);
      RemoveIsDifference(previous, cpu);
    }
  }
}
