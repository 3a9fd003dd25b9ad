/**
  `elf_hash` of os/src/vdso.rs: the System V hash of a symbol or version name, on
  32-bit words, against its arithmetic definition and known values.
*/
module SysvHash {
  import opened Common
  import opened Quotients
  import opened Bytes
  import opened Bits

  /** One round of `elf_hash`: four bits in, the overflow nibble folded back and cleared. */
  function HashByte(h: nat, b: byte): nat {
    var h1 := (h * 16 % Pow2(32) + b) % Pow2(32);
    var g := And(h1, 0xf000_0000);
    And(if g != 0 then Xor(h1, Shr(g, 24)) else h1, Not(g, 32))
  }

  function ElfHash(name: seq<byte>): (h: nat)
    ensures h < Pow256(4)
  {
    if name == [] then 0
    else
      var h := ElfHash(name[..|name| - 1]);
      HashBound(h, name[|name| - 1]);
      HashByte(h, name[|name| - 1])
  }

  lemma FoldBound(h1: nat, mask: nat, shift: nat, width: nat)
    requires h1 < Pow2(width)
    ensures var g := And(h1, mask);
      And(if g != 0 then Xor(h1, Shr(g, shift)) else h1, Not(g, width)) < Pow2(width)
  {
    var g := And(h1, mask);
    AndBound(h1, mask, width);
    XorBound(h1, Shr(g, shift), width);
    if g != 0 { AndBound(Xor(h1, Shr(g, shift)), Not(g, width), width); }
    else { AndBound(h1, Not(g, width), width); }
  }

  lemma {:induction false} Pow256IsPow2(k: nat)
    ensures Pow256(k) == Pow2(8 * k)
  {
    if k > 0 {
      Pow256IsPow2(k - 1);
      assert Pow2(8 * k) == 2 * Pow2(8 * k - 1);
      assert Pow2(8 * k - 1) == 4 * Pow2(8 * k - 3);
      assert Pow2(8 * k - 3) == 4 * Pow2(8 * k - 5);
      assert Pow2(8 * k - 5) == 4 * Pow2(8 * k - 7);
      assert Pow2(8 * k - 7) == 2 * Pow2(8 * k - 8);
    }
  }

  lemma HashBound(h: nat, b: byte)
    ensures HashByte(h, b) < Pow256(4)
  {
    FoldBound((h * 16 % Pow2(32) + b) % Pow2(32), 0xf000_0000, 24, 32);
    Pow256IsPow2(4);
  }

  // --- what one round computes ---

  lemma {:induction false} ScaledBit(m: nat, k: nat, c: nat)
    ensures Bit(m * Pow2(k), c) <==> k <= c && Bit(m, c - k)
    decreases k
  {
    if k > 0 {
      var half := m * Pow2(k - 1);
      assert m * Pow2(k) == 2 * half by { assert m * (2 * Pow2(k - 1)) == 2 * (m * Pow2(k - 1)); }
      if c > 0 { ScaledBit(m, k - 1, c - 1); }
    }
  }

  lemma NibbleBit(c: nat)
    ensures Bit(0xf000_0000, c) <==> 28 <= c < 32
  {
    hide Bit;
    TopNibble();
    ScaledBit(15, 28, c);
    if c >= 28 { OnesBit(4, c - 28); }
  }

  lemma TopNibble()
    ensures 15 * Pow2(28) == 0xf000_0000 && Pow2(4) == 16 && Pow2(28) == 0x1000_0000 && Pow2(32) == 0x1_0000_0000
  {
    TwoToThe8();
    assert Pow2(4) == 16;
    hide Pow2;
    Pow2Sum(8, 8);
    Pow2Sum(16, 8);
    Pow2Sum(24, 4);
    Pow2Sum(28, 4);
  }

  lemma {:induction false} NotBound(a: nat, width: nat)
    ensures Not(a, width) < Pow2(width)
    decreases width
  {
    if width > 0 { NotBound(a / 2, width - 1); }
  }

  lemma {:induction false} LowBit(x: nat, k: nat, c: nat)
    ensures Bit(x % Pow2(k), c) <==> c < k && Bit(x, c)
    decreases k
  {
    if k == 0 {
      ZeroBit(c);
    } else {
      var p := Pow2(k - 1);
      HalfOfRest(x, p);
      if c > 0 { LowBit(x / 2, k - 1, c - 1); }
    }
  }

  lemma HalfOfRest(x: nat, p: nat)
    requires p >= 1
    ensures x % (2 * p) / 2 == x / 2 % p && x % (2 * p) % 2 == x % 2
  {
    var q, r := x / 2 / p, x / 2 % p;
    assert x / 2 == p * q + r;
    assert x == q * (2 * p) + (2 * r + x % 2);
    DivUnique(x, 2 * p, q, 2 * r + x % 2);
  }

  /** Digit by digit: the low 28 digits stay, with the top four added to digits 4 to 7; nothing above. */
  lemma FoldDigits(x: nat, c: nat)
    requires x < 0x1_0000_0000
    ensures var g := And(x, 0xf000_0000);
      Bit(And(if g != 0 then Xor(x, Shr(g, 24)) else x, Not(g, 32)), c) <==>
      c < 28 && Bit(x, c) != (4 <= c < 8 && Bit(x, c + 24))
  {
    hide Bit, And, Xor, Not, Shr, Pow2;
    var g := And(x, 0xf000_0000);
    var y := if g != 0 then Xor(x, Shr(g, 24)) else x;
    AndBit(y, Not(g, 32), c);
    if c < 32 { NotBit(g, 32, c); } else { NotBound(g, 32); HighBit(Not(g, 32), 32, c); }
    AndBit(x, 0xf000_0000, c);
    NibbleBit(c);
    AndBit(x, 0xf000_0000, c + 24);
    NibbleBit(c + 24);
    ShiftBit(g, 24, c);
    XorBit(x, Shr(g, 24), c);
    if g == 0 { ZeroBit(c); ZeroBit(c + 24); }
  }

  /** One round as arithmetic: shift in a byte, then add the overflow nibble to digits 4 to 7 and drop it. */
  function Round(h: nat, b: byte): nat {
    var x := (16 * h + b) % 0x1_0000_0000;
    Xor(x % 0x1000_0000, 16 * (x / 0x1000_0000))
  }

  lemma RoundDigits(x: nat, c: nat)
    requires x < 0x1_0000_0000
    ensures Bit(Xor(x % 0x1000_0000, 16 * (x / 0x1000_0000)), c) <==>
      c < 28 && Bit(x, c) != (4 <= c < 8 && Bit(x, c + 24))
  {
    hide Bit, Xor, Shr, Pow2;
    TopNibble();
    XorBit(x % 0x1000_0000, 16 * (x / 0x1000_0000), c);
    LowBit(x, 28, c);
    ShiftIsQuotient(x, 28);
    ScaledBit(x / 0x1000_0000, 4, c);
    if c >= 4 {
      ShiftBit(x, 28, c - 4);
      if c >= 8 { HighBit(x, 32, c + 24); }
    }
  }

  lemma {:induction false} DigitsBound(a: nat, width: nat)
    requires forall c: nat :: width <= c ==> !Bit(a, c)
    ensures a < Pow2(width)
    decreases a
  {
    if a > 0 {
      if width == 0 {
        SomeDigit(a);
      } else {
        forall c: nat | width - 1 <= c ensures !Bit(a / 2, c) { assert !Bit(a, c + 1); }
        DigitsBound(a / 2, width - 1);
      }
    }
  }

  lemma {:induction false} SomeDigit(a: nat)
    requires a > 0
    ensures exists c: nat :: Bit(a, c)
  {
    if Odd(a) {
      assert Bit(a, 0);
    } else {
      SomeDigit(a / 2);
      var c: nat :| Bit(a / 2, c);
      assert Bit(a, c + 1);
    }
  }

  /** The register operations of a round compute that, and stay below 2^28. */
  lemma HashRound(h: nat, b: byte)
    ensures HashByte(h, b) == Round(h, b) < 0x1000_0000
  {
    hide And, Xor, Not, Shr, Pow2;
    TopNibble();
    AddMod32(h, b);
    Folded((16 * h + b) % 0x1_0000_0000);
  }

  lemma AddMod32(h: nat, b: byte)
    ensures (h * 16 % 0x1_0000_0000 + b) % 0x1_0000_0000 == (16 * h + b) % 0x1_0000_0000
  {
  }

  lemma Folded(x: nat)
    requires x < 0x1_0000_0000
    ensures var g := And(x, 0xf000_0000);
      And(if g != 0 then Xor(x, Shr(g, 24)) else x, Not(g, 32))
      == Xor(x % 0x1000_0000, 16 * (x / 0x1000_0000)) < 0x1000_0000
  {
    hide Bit, And, Xor, Not, Shr, Pow2;
    var g := And(x, 0xf000_0000);
    var a := And(if g != 0 then Xor(x, Shr(g, 24)) else x, Not(g, 32));
    var b := Xor(x % 0x1000_0000, 16 * (x / 0x1000_0000));
    TopNibble();
    forall c: nat ensures Bit(a, c) == Bit(b, c) && (28 <= c ==> !Bit(a, c)) {
      FoldDigits(x, c);
      RoundDigits(x, c);
    }
    DigitsBound(a, 28);
    DigitsBound(b, 28);
    SameDigits(a, b, 28);
  }

  /** The hash of the gABI, by arithmetic. */
  function Reference(name: seq<byte>): nat {
    if name == [] then 0 else Round(Reference(name[..|name| - 1]), name[|name| - 1])
  }

  lemma {:induction false} HashIsReference(name: seq<byte>)
    ensures ElfHash(name) == Reference(name) < 0x1000_0000
  {
    if name != [] {
      HashIsReference(name[..|name| - 1]);
      HashRound(ElfHash(name[..|name| - 1]), name[|name| - 1]);
    }
  }

  /** `elf_hash`: the loop over the bytes computes the reference, a value below 2^28. */
  method ComputeElfHash(name: seq<byte>) returns (h: nat)
    ensures h == ElfHash(name) == Reference(name) < 0x1000_0000
  {
    h := 0;
    var i := 0;
    while i < |name|
      invariant i <= |name| && h == ElfHash(name[..i])
    {
      assert name[..i + 1][..i] == name[..i];
      h := HashByte(h, name[i]);
      i := i + 1;
    }
    assert name[..i] == name;
    HashIsReference(name);
  }

  // --- known values ---

  /** A round on the digits of its input: `n` overflows, `m` is the nibble it is added to. */
  lemma RoundValue(h: nat, b: byte, n: nat, q: nat, m: nat, l: nat)
    requires n < 16 && q < 0x10_0000 && m < 16 && l < 16
    requires (16 * h + b) % 0x1_0000_0000 == n * 0x1000_0000 + q * 256 + m * 16 + l
    ensures Round(h, b) == q * 256 + 16 * Xor(m, n) + l
  {
    hide Xor, Pow2;
    TopNibble();
    XorBlocks(16 * q + m, n, l, 0, 4);
    XorBlocks(q, 0, m, n, 4);
    XorZero(q);
    XorZero(l);
  }

  // "LINUX_4.15" and "LINUX_5.10" in ASCII
  const LINUX_4_15: seq<byte> := [76, 73, 78, 85, 88, 95, 52, 46, 49, 53]
  const LINUX_5_10: seq<byte> := [76, 73, 78, 85, 88, 95, 53, 46, 49, 48]

  lemma HashMore(name: seq<byte>, n: nat, h: nat, b: byte, next: nat)
    requires n < |name| && name[n] == b && Reference(name[..n]) == h && Round(h, b) == next
    ensures Reference(name[..n + 1]) == next
  {
    assert name[..n + 1][..n] == name[..n];
  }

  lemma NibbleSums()
    ensures Xor(2, 5) == 7 && Xor(1, 14) == 15 && Xor(4, 3) == 7
    ensures forall m: nat {:trigger Xor(m, 0)} :: Xor(m, 0) == m
  {
    forall m: nat ensures Xor(m, 0) == m { XorZero(m); }
  }

  lemma LinuxPrefix(name: seq<byte>)
    requires |name| >= 6 && name[0] == 76 && name[1] == 73 && name[2] == 78 && name[3] == 85 && name[4] == 88 && name[5] == 95
    ensures Reference(name[..6]) == 0x50e3adf
  {
    hide Round, Xor;
    NibbleSums();
    assert Reference(name[..0]) == 0;
    hide Reference;
    RoundValue(0, 76, 0, 0, 4, 12);
    HashMore(name, 0, 0, 76, 0x4c);
    RoundValue(0x4c, 73, 0, 5, 0, 9);
    HashMore(name, 1, 0x4c, 73, 0x509);
    RoundValue(0x509, 78, 0, 0x50, 13, 14);
    HashMore(name, 2, 0x509, 78, 0x50de);
    RoundValue(0x50de, 85, 0, 0x50e, 3, 5);
    HashMore(name, 3, 0x50de, 85, 0x50e35);
    RoundValue(0x50e35, 88, 0, 0x50e3, 10, 8);
    HashMore(name, 4, 0x50e35, 88, 0x50e3a8);
    RoundValue(0x50e3a8, 95, 0, 0x50e3a, 13, 15);
    HashMore(name, 5, 0x50e3a8, 95, 0x50e3adf);
  }

  /** The version hash of the RISC-V image. */
  lemma RiscvVersionHash()
    ensures ElfHash(LINUX_4_15) == 0xae77f75
  {
    hide Round, Xor, Reference;
    NibbleSums();
    LinuxPrefix(LINUX_4_15);
    RoundValue(0x50e3adf, 52, 5, 0xe3ae, 2, 4);
    HashMore(LINUX_4_15, 6, 0x50e3adf, 52, 0xe3ae74);
    RoundValue(0xe3ae74, 46, 0, 0xe3ae7, 6, 14);
    HashMore(LINUX_4_15, 7, 0xe3ae74, 46, 0xe3ae76e);
    RoundValue(0xe3ae76e, 49, 14, 0x3ae77, 1, 1);
    HashMore(LINUX_4_15, 8, 0xe3ae76e, 49, 0x3ae77f1);
    RoundValue(0x3ae77f1, 53, 3, 0xae77f, 4, 5);
    HashMore(LINUX_4_15, 9, 0x3ae77f1, 53, 0xae77f75);
    assert LINUX_4_15[..10] == LINUX_4_15;
    HashIsReference(LINUX_4_15);
  }

  /** The version hash of the LoongArch image. */
  lemma LoongarchVersionHash()
    ensures ElfHash(LINUX_5_10) == 0xae78f70
  {
    hide Round, Xor, Reference;
    NibbleSums();
    LinuxPrefix(LINUX_5_10);
    RoundValue(0x50e3adf, 53, 5, 0xe3ae, 2, 5);
    HashMore(LINUX_5_10, 6, 0x50e3adf, 53, 0xe3ae75);
    RoundValue(0xe3ae75, 46, 0, 0xe3ae7, 7, 14);
    HashMore(LINUX_5_10, 7, 0xe3ae75, 46, 0xe3ae77e);
    RoundValue(0xe3ae77e, 49, 14, 0x3ae78, 1, 1);
    HashMore(LINUX_5_10, 8, 0xe3ae77e, 49, 0x3ae78f1);
    RoundValue(0x3ae78f1, 48, 3, 0xae78f, 4, 0);
    HashMore(LINUX_5_10, 9, 0x3ae78f1, 48, 0xae78f70);
    assert LINUX_5_10[..10] == LINUX_5_10;
    HashIsReference(LINUX_5_10);
  }
}
