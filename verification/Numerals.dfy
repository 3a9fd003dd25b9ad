/** Positional numerals, as Python and Rust format and read them. */
module Numerals {
  import opened Quotients

  function HexDigit(n: nat): (c: char)
    requires n < 16
    ensures '0' <= c <= '9' || 'a' <= c <= 'f'
  {
    if n < 10 then '0' + n as char else 'a' + (n - 10) as char
  }

  function DigitValue(c: char): nat {
    if '0' <= c <= '9' then (c - '0') as nat
    else if 'a' <= c <= 'f' then (c - 'a') as nat + 10
    else 0
  }

  /** `{n:x}` for base 16 and `{n:d}` for base 10. */
  function Digits(n: nat, base: nat): (s: string)
    requires 2 <= base <= 16
    ensures |s| >= 1
  {
    if n < base then [HexDigit(n)]
    else
      QuotientSmaller(n, base);
      Digits(n / base, base) + [HexDigit(n % base)]
  }

  function Value(s: string, base: nat): nat {
    if s == [] then 0 else Value(s[..|s| - 1], base) * base + DigitValue(s[|s| - 1])
  }

  lemma DigitOf(n: nat)
    requires n < 16
    ensures DigitValue(HexDigit(n)) == n && HexChar(HexDigit(n))
  {
  }

  lemma DigitsStep(n: nat, base: nat)
    requires 2 <= base <= 16
    ensures n >= base ==> n / base < n && Digits(n, base) == Digits(n / base, base) + [HexDigit(n % base)]
    ensures n < base ==> Digits(n, base) == [] + [HexDigit(n)]
  {
    hide HexDigit;
    if n >= base { QuotientSmaller(n, base); }
  }

  lemma {:induction false} DigitsRoundTrip(n: nat, base: nat)
    requires 2 <= base <= 16
    ensures Value(Digits(n, base), base) == n
  {
    hide HexDigit, DigitValue, Digits, Value;
    DigitsStep(n, base);
    if n >= base {
      var q, r := n / base, n % base;
      DivideBack(n, base);
      DigitsRoundTrip(q, base);
      DigitOf(r);
      ValueStep(Digits(q, base), HexDigit(r), base);
    } else {
      DigitOf(n);
      ValueStep([], HexDigit(n), base);
      NoDigits(base);
    }
  }

  lemma NoDigits(base: nat)
    ensures Value([], base) == 0
  {
  }

  lemma ValueStep(s: string, c: char, base: nat)
    ensures Value(s + [c], base) == Value(s, base) * base + DigitValue(c)
  {
    assert (s + [c])[..|s|] == s;
  }

  /** Left padding with zeros, as a `0<width>` format does. */
  function Pad(s: string, width: nat): (r: string)
    ensures |r| == if |s| >= width then |s| else width
    decreases width - |s|
  {
    if |s| >= width then s else Pad("0" + s, width)
  }

  lemma {:induction false} ValueOfZeroPrefix(s: string, base: nat)
    ensures Value("0" + s, base) == Value(s, base)
    decreases |s|
  {
    var z := "0" + s;
    if s == [] {
      assert z[..0] == [];
    } else {
      assert z[..|z| - 1] == "0" + s[..|s| - 1];
      ValueOfZeroPrefix(s[..|s| - 1], base);
    }
  }

  lemma {:induction false} ValueOfPadded(s: string, width: nat, base: nat)
    ensures Value(Pad(s, width), base) == Value(s, base)
    decreases width - |s|
  {
    if |s| < width {
      ValueOfZeroPrefix(s, base);
      ValueOfPadded("0" + s, width, base);
    }
  }

  predicate HexChar(c: char) { '0' <= c <= '9' || 'a' <= c <= 'f' }

  predicate AllHex(s: string) { forall i | 0 <= i < |s| :: HexChar(s[i]) }

  lemma {:induction false} DigitsAreHex(n: nat, base: nat)
    requires 2 <= base <= 16
    ensures AllHex(Digits(n, base))
  {
    hide HexDigit, Digits;
    DigitsStep(n, base);
    if n >= base {
      DigitsAreHex(n / base, base);
      DigitOf(n % base);
    } else {
      DigitOf(n);
    }
  }

  lemma {:induction false} PadKeepsHex(s: string, width: nat)
    requires AllHex(s)
    ensures AllHex(Pad(s, width))
    decreases width - |s|
  {
    if |s| < width { PadKeepsHex("0" + s, width); }
  }

  function Pow(base: nat, k: nat): nat { if k == 0 then 1 else base * Pow(base, k - 1) }

  lemma {:induction false} DigitsFit(n: nat, base: nat, width: nat)
    requires 2 <= base <= 16 && n < Pow(base, width) && width > 0
    ensures |Digits(n, base)| <= width
    decreases width
  {
    hide HexDigit, Digits;
    DigitsStep(n, base);
    if n >= base {
      DivBelow(n, Pow(base, width - 1), base);
      DigitsFit(n / base, base, width - 1);
    }
  }

  /** No superfluous zeros: a numeral starts with one only when it is zero. */
  lemma {:induction false} DigitsCanonical(n: nat, base: nat)
    requires 2 <= base <= 16
    ensures Digits(n, base)[0] == '0' <==> n == 0
  {
    hide HexDigit, Digits;
    DigitsStep(n, base);
    if n >= base {
      DivideBack(n, base);
      DigitsCanonical(n / base, base);
      QuotientPositive(n, base);
    } else {
      ZeroDigit(n);
    }
  }

  lemma ZeroDigit(n: nat)
    requires n < 16
    ensures HexDigit(n) == '0' <==> n == 0
  {
  }

  lemma QuotientPositive(n: nat, d: nat)
    requires 0 < d <= n
    ensures n / d > 0
  {
    DivMonotone(d, n, d);
    DivUnique(d, d, 1, 0);
  }
}
