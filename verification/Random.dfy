/**
  The compatibility random stream of os/src/random.rs: the 64-bit mixer is a
  bijection, requests and words repeat only after 2^64 of them, and a fill may
  be cut into segments anywhere.
*/
module Random {
  import opened Quotients
  import opened Common
  import opened Bits
  import opened Bytes

  const STREAM_INCREMENT: nat := 0x9e37_79b9_7f4a_7c15
  const FIRST_MULTIPLIER: nat := 0xbf58_476d_1ce4_e5b9
  const SECOND_MULTIPLIER: nat := 0x94d0_49bb_1331_11eb

  // --- mix64 ---

  function XorShift(v: nat, s: nat): nat { Xor(v, Shr(v, s)) }

  function WrappingMul(v: nat, m: nat): (r: nat)
    ensures r < TWO64
  {
    v * m % TWO64
  }

  function Mix64(v: nat): (r: nat)
    requires v < TWO64
    ensures r < TWO64
  {
    var a := WrappingMul(XorShift(v, 30), FIRST_MULTIPLIER);
    var b := WrappingMul(XorShift(a, 27), SECOND_MULTIPLIER);
    XorShiftBound(b, 31);
    XorShift(b, 31)
  }

  // --- its inverse ---

  function UnXorShift(w: nat, s: nat): nat { Xor(XorShift(w, s), Shr(w, 2 * s)) }

  const FIRST_INVERSE: nat := 0x96de_1b17_3f11_9089
  const SECOND_INVERSE: nat := 0x3196_42b2_d24d_8ec3
  const INCREMENT_INVERSE: nat := 0xf1de_83e1_9937_733d

  function Unmix64(w: nat): (r: nat)
    requires w < TWO64
    ensures r < TWO64
  {
    var b := WrappingMul(UnXorShift(w, 31), SECOND_INVERSE);
    var a := WrappingMul(UnXorShift(b, 27), FIRST_INVERSE);
    UnXorShiftBound(a, 30);
    UnXorShift(a, 30)
  }

  lemma Pow256OfEight()
    ensures Pow256(8) == TWO64
  {
    assert Pow256(4) == 0x1_0000_0000;
  }

  lemma WordIsPow2()
    ensures TWO64 == Pow2(64) == Pow256(8)
  {
    TwoToThe64();
    Pow256OfEight();
  }

  lemma XorShiftBound(v: nat, s: nat)
    requires v < TWO64
    ensures XorShift(v, s) < TWO64
  {
    WordIsPow2();
    XorBound(v, Shr(v, s), 64);
  }

  lemma UnXorShiftBound(v: nat, s: nat)
    requires v < TWO64
    ensures UnXorShift(v, s) < TWO64
  {
    WordIsPow2();
    XorShiftBound(v, s);
    XorBound(XorShift(v, s), Shr(v, 2 * s), 64);
  }

  lemma XorShiftBit(v: nat, s: nat, c: nat)
    ensures Bit(XorShift(v, s), c) <==> Bit(v, c) != Bit(v, c + s)
  {
    hide Xor, Bit, Shr;
    XorBit(v, Shr(v, s), c);
    ShiftBit(v, s, c);
  }

  lemma UnXorShiftBit(v: nat, s: nat, c: nat)
    ensures Bit(UnXorShift(v, s), c) <==> ((Bit(v, c) != Bit(v, c + s)) != Bit(v, c + 2 * s))
  {
    hide Xor, XorShift, Bit, Shr;
    XorBit(XorShift(v, s), Shr(v, 2 * s), c);
    XorShiftBit(v, s, c);
    ShiftBit(v, 2 * s, c);
  }

  /** A shift of more than a third of the word is undone by two further shifts. */
  lemma XorShiftInverse(v: nat, s: nat)
    requires v < TWO64 && 3 * s >= 64
    ensures UnXorShift(XorShift(v, s), s) == v && XorShift(UnXorShift(v, s), s) == v
  {
    hide UnXorShift, XorShift, Bit, Xor;
    WordIsPow2();
    XorShiftBound(v, s);
    UnXorShiftBound(v, s);
    var x, y := XorShift(v, s), UnXorShift(v, s);
    UnXorShiftBound(x, s);
    XorShiftBound(y, s);
    forall c | 0 <= c < 64 ensures Bit(UnXorShift(x, s), c) == Bit(v, c) && Bit(XorShift(y, s), c) == Bit(v, c) {
      HighBit(v, 64, c + 3 * s);
      UnXorShiftBit(x, s, c);
      XorShiftBit(v, s, c);
      XorShiftBit(v, s, c + s);
      XorShiftBit(v, s, c + 2 * s);
      assert c + s + s == c + 2 * s && c + 2 * s + s == c + 3 * s && c + s + 2 * s == c + 3 * s;
      XorShiftBit(y, s, c);
      UnXorShiftBit(v, s, c);
      UnXorShiftBit(v, s, c + s);
    }
    SameDigits(UnXorShift(x, s), v, 64);
    SameDigits(XorShift(y, s), v, 64);
  }

  /** Multiplying by a unit modulo 2^64 is undone by its inverse. */
  lemma MulInverse(v: nat, m: nat, inv: nat)
    requires v < TWO64 && m * inv % TWO64 == 1
    ensures WrappingMul(WrappingMul(v, m), inv) == v
  {
    var a, r, q := v * m / TWO64, v * m % TWO64, m * inv / TWO64;
    assert v * m == TWO64 * a + r;
    assert m * inv == TWO64 * q + 1;
    calc {
      r * inv;
      (v * m - TWO64 * a) * inv;
      v * m * inv - TWO64 * a * inv;
      { assert v * m * inv == v * (m * inv); }
      v * (TWO64 * q + 1) - TWO64 * a * inv;
      v + TWO64 * (v * q - a * inv);
    }
    RemainderIs(r * inv, v * q - a * inv, v, TWO64);
  }

  lemma UnitInverses()
    ensures FIRST_MULTIPLIER * FIRST_INVERSE % TWO64 == 1 && FIRST_INVERSE * FIRST_MULTIPLIER % TWO64 == 1
    ensures SECOND_MULTIPLIER * SECOND_INVERSE % TWO64 == 1 && SECOND_INVERSE * SECOND_MULTIPLIER % TWO64 == 1
    ensures STREAM_INCREMENT * INCREMENT_INVERSE % TWO64 == 1
  {
  }

  /** `mix64` permutes the 64-bit words: `Unmix64` is its two-sided inverse. */
  lemma MixIsBijection(v: nat)
    requires v < TWO64
    ensures Unmix64(Mix64(v)) == v && Mix64(Unmix64(v)) == v
  {
    hide XorShift, UnXorShift, WrappingMul;
    UnitInverses();
    XorShiftBound(v, 30);
    var a := WrappingMul(XorShift(v, 30), FIRST_MULTIPLIER);
    XorShiftBound(a, 27);
    var b := WrappingMul(XorShift(a, 27), SECOND_MULTIPLIER);
    XorShiftInverse(b, 31);
    MulInverse(XorShift(a, 27), SECOND_MULTIPLIER, SECOND_INVERSE);
    XorShiftInverse(a, 27);
    MulInverse(XorShift(v, 30), FIRST_MULTIPLIER, FIRST_INVERSE);
    XorShiftInverse(v, 30);

    UnXorShiftBound(v, 31);
    var d := WrappingMul(UnXorShift(v, 31), SECOND_INVERSE);
    UnXorShiftBound(d, 27);
    var e := WrappingMul(UnXorShift(d, 27), FIRST_INVERSE);
    XorShiftInverse(e, 30);
    MulInverse(UnXorShift(d, 27), FIRST_INVERSE, FIRST_MULTIPLIER);
    XorShiftInverse(d, 27);
    MulInverse(UnXorShift(v, 31), SECOND_INVERSE, SECOND_MULTIPLIER);
    XorShiftInverse(v, 31);
  }

  lemma MixInjective(v: nat, w: nat)
    requires v < TWO64 && w < TWO64
    ensures Mix64(v) == Mix64(w) <==> v == w
  {
    hide Mix64, Unmix64;
    MixIsBijection(v);
    MixIsBijection(w);
  }

  // --- when requests and words repeat ---

  lemma ShiftedEqual(x: nat, i: nat, j: nat)
    requires i <= j
    ensures (x + i) % TWO64 == (x + j) % TWO64 <==> (j - i) % TWO64 == 0
  {
    var r := (x + i) % TWO64;
    var q := (x + i) / TWO64;
    assert x + i == TWO64 * q + r;
    var d := j - i;
    assert d == TWO64 * (d / TWO64) + d % TWO64;
    if (x + i) % TWO64 == (x + j) % TWO64 {
      RemainderIs(d, (x + j) / TWO64 - q, 0, TWO64);
    }
    if d % TWO64 == 0 {
      RemainderIs(x + j, q + d / TWO64, r, TWO64);
    }
  }

  /** The first word of the request that drew sequence number `1 + n` (the counter starts at 1 and wraps). */
  function FirstWord(n: nat): (r: nat)
    ensures r < TWO64
  {
    Mix64(((1 + n) % TWO64 + STREAM_INCREMENT) % TWO64)
  }

  /** Two requests start with the same eight bytes exactly when a multiple of 2^64 requests lies between them. */
  lemma FirstWordsRepeat(i: nat, j: nat)
    requires i <= j
    ensures LE(FirstWord(i), 8) == LE(FirstWord(j), 8) <==> (j - i) % TWO64 == 0
  {
    hide Mix64, LE, Pow256;
    WordIsPow2();
    LERoundTrip(FirstWord(i), 8);
    LERoundTrip(FirstWord(j), 8);
    MixInjective(((1 + i) % TWO64 + STREAM_INCREMENT) % TWO64, ((1 + j) % TWO64 + STREAM_INCREMENT) % TWO64);
    AddMod(1 + i, STREAM_INCREMENT);
    AddMod(1 + j, STREAM_INCREMENT);
    ShiftedEqual(1 + STREAM_INCREMENT, i, j);
  }

  /** The word after `k` calls of `advance_word`. */
  function StreamState(state: nat, k: nat): (r: nat)
    requires state < TWO64
    ensures r < TWO64
  {
    (state + k * STREAM_INCREMENT) % TWO64
  }

  /** Within one stream a word recurs exactly after a multiple of 2^64 advances. */
  lemma StreamWordsRepeat(state: nat, i: nat, j: nat)
    requires state < TWO64 && i <= j
    ensures Mix64(StreamState(state, i)) == Mix64(StreamState(state, j)) <==> (j - i) % TWO64 == 0
  {
    hide Mix64;
    MixInjective(StreamState(state, i), StreamState(state, j));
    var d := j - i;
    assert j * STREAM_INCREMENT - i * STREAM_INCREMENT == d * STREAM_INCREMENT;
    ShiftedEqual(state, i * STREAM_INCREMENT, j * STREAM_INCREMENT);
    UnitMultiple(d);
  }

  lemma UnitMultiple(d: nat)
    ensures d * STREAM_INCREMENT % TWO64 == 0 <==> d % TWO64 == 0
  {
    var x, q := d * STREAM_INCREMENT / TWO64, STREAM_INCREMENT * INCREMENT_INVERSE / TWO64;
    if d * STREAM_INCREMENT % TWO64 == 0 {
      UnitInverses();
      assert d * STREAM_INCREMENT == TWO64 * x;
      assert STREAM_INCREMENT * INCREMENT_INVERSE == TWO64 * q + 1;
      assert d * (TWO64 * q + 1) == d * STREAM_INCREMENT * INCREMENT_INVERSE == TWO64 * x * INCREMENT_INVERSE;
      RemainderIs(d, x * INCREMENT_INVERSE - d * q, 0, TWO64);
    }
    if d % TWO64 == 0 {
      RemainderIs(d * STREAM_INCREMENT, d / TWO64 * STREAM_INCREMENT, 0, TWO64);
    }
  }

  // --- the byte stream ---

  /** A stream position: the fields of `CompatibilityRandom`. */
  datatype Position = Position(state: nat, word: seq<byte>, offset: nat)

  predicate Proper(p: Position) { p.state < TWO64 && |p.word| == 8 && p.offset <= 8 }

  function Advance(p: Position): (q: Position)
    requires Proper(p)
    ensures Proper(q)
  {
    var state := (p.state + STREAM_INCREMENT) % TWO64;
    Position(state, LE(Mix64(state), 8), 0)
  }

  /** Where the next byte is read: a spent word is replaced first. */
  function Ready(p: Position): (q: Position)
    requires Proper(p)
    ensures Proper(q) && q.offset < 8
  {
    if p.offset == 8 then Advance(p) else p
  }

  /** `n` bytes drawn one at a time, and the position behind them. */
  function Take(p: Position, n: nat): (r: (seq<byte>, Position))
    requires Proper(p)
    ensures |r.0| == n && Proper(r.1)
    decreases n
  {
    if n == 0 then ([], p)
    else
      var q := Ready(p);
      var r := Take(q.(offset := q.offset + 1), n - 1);
      ([q.word[q.offset]] + r.0, r.1)
  }

  /** The stream in closed form: the word in hand, then the mixed states one after another. */
  function ByteAt(p: Position, i: nat): byte
    requires Proper(p)
  {
    var j := p.offset + i;
    if j < 8 then p.word[j] else LE(Mix64(StreamState(p.state, j / 8)), 8)[j % 8]
  }

  lemma StreamStateNext(state: nat, k: nat)
    requires state < TWO64
    ensures StreamState(StreamState(state, 1), k) == StreamState(state, k + 1)
  {
    AddMod(state + STREAM_INCREMENT, k * STREAM_INCREMENT);
    assert (k + 1) * STREAM_INCREMENT == k * STREAM_INCREMENT + STREAM_INCREMENT;
  }

  lemma ReadyReads(p: Position, i: nat)
    requires Proper(p)
    ensures ByteAt(Ready(p), i) == ByteAt(p, i)
  {
    hide LE, Mix64, StreamState;
    if p.offset == 8 {
      assert (8 + i) / 8 == 1 + i / 8 && (8 + i) % 8 == i % 8;
      assert Advance(p).state == StreamState(p.state, 1) by { StreamOnce(p.state); }
      StreamStateNext(p.state, i / 8);
    }
  }

  lemma StreamOnce(state: nat)
    requires state < TWO64
    ensures StreamState(state, 1) == (state + STREAM_INCREMENT) % TWO64
  {
  }

  /** Drawing bytes one at a time reads the closed form. */
  lemma {:induction false} TakeReads(p: Position, n: nat, i: nat)
    requires Proper(p) && i < n
    ensures Take(p, n).0[i] == ByteAt(p, i)
    decreases n
  {
    hide LE, Mix64, StreamState;
    ReadyReads(p, i);
    var q := Ready(p);
    if i > 0 { TakeReads(q.(offset := q.offset + 1), n - 1, i - 1); }
  }

  lemma {:induction false} TakeSplit(p: Position, m: nat, n: nat)
    requires Proper(p)
    ensures Take(p, m + n).0 == Take(p, m).0 + Take(Take(p, m).1, n).0
    ensures Take(p, m + n).1 == Take(Take(p, m).1, n).1
    decreases m
  {
    hide Ready;
    if m > 0 {
      var q := Ready(p);
      TakeSplit(q.(offset := q.offset + 1), m - 1, n);
    }
  }

  lemma {:induction false} TakeRun(p: Position, n: nat)
    requires Proper(p) && p.offset + n <= 8
    ensures Take(p, n) == (p.word[p.offset..p.offset + n], p.(offset := p.offset + n))
    decreases n
  {
    if n > 0 {
      TakeRun(p.(offset := p.offset + 1), n - 1);
      assert p.word[p.offset..p.offset + n] == [p.word[p.offset]] + p.word[p.offset + 1..p.offset + n];
    } else {
      assert p.word[p.offset..p.offset + n] == [];
    }
  }

  lemma TakeFirst(p: Position, n: nat)
    requires Proper(p) && n > 0
    ensures var q := Ready(p); var r := Take(q.(offset := q.offset + 1), n - 1);
      Take(p, n) == ([q.word[q.offset]] + r.0, r.1)
  {
  }

  lemma FirstOfEight(w: seq<byte>)
    requires |w| == 8
    ensures w == [w[0]] + w[1..8]
  {
  }

  lemma WordTaken(q: Position)
    requires Proper(q) && q.offset == 0
    ensures Take(q.(offset := 1), 7) == (q.word[1..8], q.(offset := 8)) && q.word == [q.word[0]] + q.word[1..8]
  {
    hide Ready, Take;
    TakeRun(q.(offset := 1), 7);
    FirstOfEight(q.word);
  }

  /** A whole word, taken from a word boundary. */
  lemma TakeWord(p: Position)
    requires Proper(p) && Ready(p).offset == 0
    ensures Take(p, 8) == (Ready(p).word, Ready(p).(offset := 8))
  {
    hide *;
    TakeFirst(p, 8);
    WordTaken(Ready(p));
  }

  function Sum(lens: seq<nat>): nat {
    if lens == [] then 0 else lens[0] + Sum(lens[1..])
  }

  /** Fills of consecutive segments. */
  function TakeEach(p: Position, lens: seq<nat>): (r: (seq<byte>, Position))
    requires Proper(p)
    ensures Proper(r.1)
    decreases |lens|
  {
    if lens == [] then ([], p)
    else
      var first := Take(p, lens[0]);
      var rest := TakeEach(first.1, lens[1..]);
      (first.0 + rest.0, rest.1)
  }

  /** However the output is cut into segments, the bytes and the final position are those of one fill. */
  lemma {:induction false} SegmentIndependence(p: Position, lens: seq<nat>)
    requires Proper(p)
    ensures TakeEach(p, lens) == Take(p, Sum(lens))
    decreases |lens|
  {
    if lens != [] {
      SegmentIndependence(Take(p, lens[0]).1, lens[1..]);
      TakeSplit(p, lens[0], Sum(lens[1..]));
    }
  }

  /** `RANDOM_REQUEST_SEQUENCE`. */
  class RequestSequence {
    var next: nat
    constructor () ensures next == 1 { next := 1; }
  }

  class CompatibilityRandom {
    var state: nat
    var word: seq<byte>
    var wordOffset: nat

    ghost function Pos(): Position
      reads this
    {
      Position(state, word, wordOffset)
    }

    constructor (requests: RequestSequence, context: nat, ticks: nat, ghost n: nat)
      requires context < TWO64 && ticks < TWO64 && requests.next == (1 + n) % TWO64
      modifies requests
      ensures requests.next == (1 + n + 1) % TWO64
      ensures Proper(Pos()) && wordOffset == 0 && word == LE(FirstWord(n), 8)
      ensures state == Xor(Xor(FirstWord(n), Mix64(context)), ticks)
    {
      hide Mix64, LE, Xor, Pow2, Pow256;
      var sequence := requests.next;
      requests.next := (sequence + 1) % TWO64;
      AddMod(1 + n, 1);
      var firstWord := Mix64((sequence + STREAM_INCREMENT) % TWO64);
      WordIsPow2();
      XorBound(firstWord, Mix64(context), 64);
      XorBound(Xor(firstWord, Mix64(context)), ticks, 64);
      state := Xor(Xor(firstWord, Mix64(context)), ticks);
      word := LE(firstWord, 8);
      wordOffset := 0;
    }

    method AdvanceWord()
      requires Proper(Pos())
      modifies this
      ensures Pos() == Advance(old(Pos()))
    {
      hide LE, Mix64;
      state := (state + STREAM_INCREMENT) % TWO64;
      word := LE(Mix64(state), 8);
      wordOffset := 0;
    }

    method Fill(output: array<byte>) returns (byteWrites: nat, wordFillBytes: nat)
      requires Proper(Pos())
      modifies this, output
      ensures (output[..], Pos()) == Take(old(Pos()), output.Length)
      ensures byteWrites + wordFillBytes == output.Length && wordFillBytes == WholeWords(old(wordOffset), output.Length)
    {
      hide LE, Mix64, Advance, Take, Aligned, CopiedBy, WholeWords;
      ghost var start := Pos();
      var offset := 0;
      NothingCopied(start.offset, output.Length);
      byteWrites, wordFillBytes := 0, 0;
      assert Take(start, 0) == ([], start) by { TakeRunNone(start); }
      while offset < output.Length
        invariant offset <= output.Length && Proper(Pos())
        invariant Take(start, offset) == (output[..offset], Pos())
        invariant byteWrites + wordFillBytes == offset && Aligned(start.offset, output.Length, offset, wordOffset)
        invariant wordFillBytes == CopiedBy(start.offset, output.Length, offset)
      {
        ghost var here := Pos();
        ghost var done := output[..offset];
        if wordOffset == 8 { AdvanceWord(); }
        ReadyOffset(here);
        assert Pos() == Ready(here) && output[..offset] == done;
        if wordOffset == 0 && output.Length - offset >= 8 {
          forall i | 0 <= i < 8 { output[offset + i] := word[i]; }
          TakeWord(here);
          TakeSplit(start, offset, 8);
          WordCounted(start.offset, output.Length, offset, here.offset);
          assert output[..offset + 8] == done + word;
          offset := offset + 8;
          wordOffset := 8;
          wordFillBytes := wordFillBytes + 8;
        } else {
          output[offset] := word[wordOffset];
          TakeOne(here);
          TakeSplit(start, offset, 1);
          ByteCounted(start.offset, output.Length, offset, here.offset);
          assert output[..offset + 1] == done + [word[wordOffset]];
          offset := offset + 1;
          wordOffset := wordOffset + 1;
          byteWrites := byteWrites + 1;
        }
      }
      assert output[..offset] == output[..];
      AllCopied(start.offset, output.Length);
    }
  }

  /** The bytes before the first word boundary, when `offset` bytes of the word in hand are gone. */
  function UpToBoundary(offset: nat): nat { if offset == 0 || offset >= 8 then 0 else 8 - offset }

  /** How much of a fill of `n` bytes is whole words. */
  function WholeWords(offset: nat, n: nat): nat {
    var head := UpToBoundary(offset);
    if n < head then 0 else (n - head) / 8 * 8
  }

  /** How much of that has been copied after `done` bytes. */
  function CopiedBy(offset: nat, n: nat, done: nat): nat {
    var head, whole := UpToBoundary(offset), WholeWords(offset, n);
    if done <= head then 0 else if done - head <= whole then done - head else whole
  }

  /** Between the first and the last word boundary the fill stands on one. */
  predicate Aligned(offset: nat, n: nat, done: nat, wordOffset: nat) {
    var head, whole := UpToBoundary(offset), WholeWords(offset, n);
    wordOffset % 8 == (offset + done) % 8 && (done <= head || (done - head) % 8 == 0 || done - head >= whole)
  }

  lemma ReadyOffset(p: Position)
    requires Proper(p)
    ensures Ready(p).offset == if p.offset == 8 then 0 else p.offset
  {
  }

  lemma NothingCopied(offset: nat, n: nat)
    ensures CopiedBy(offset, n, 0) == 0 && Aligned(offset, n, 0, offset)
  {
  }

  lemma AllCopied(offset: nat, n: nat)
    ensures CopiedBy(offset, n, n) == WholeWords(offset, n)
  {
  }

  /** A whole word is copied at a word boundary with eight bytes to go. */
  lemma WordCounted(offset: nat, n: nat, done: nat, wordOffset: nat)
    requires offset <= 8 && done + 8 <= n && (wordOffset == 0 || wordOffset == 8) && Aligned(offset, n, done, wordOffset)
    ensures CopiedBy(offset, n, done + 8) == CopiedBy(offset, n, done) + 8 && Aligned(offset, n, done + 8, 8)
  {
  }

  /** Off the boundary, or too close to the end, the whole words are still ahead or all behind. */
  lemma NoWordHere(offset: nat, n: nat, done: nat, wordOffset: nat)
    requires offset <= 8 && done < n && wordOffset <= 8 && Aligned(offset, n, done, wordOffset)
    requires (wordOffset != 0 && wordOffset != 8) || n - done < 8
    ensures done < UpToBoundary(offset) || done - UpToBoundary(offset) >= WholeWords(offset, n)
  {
    if wordOffset != 0 && wordOffset != 8 { assert (offset + done) % 8 != 0; }
  }

  /** A single byte is not counted there. */
  lemma ByteCounted(offset: nat, n: nat, done: nat, wordOffset: nat)
    requires offset <= 8 && done < n && wordOffset <= 8 && Aligned(offset, n, done, wordOffset)
    requires (wordOffset != 0 && wordOffset != 8) || n - done < 8
    ensures CopiedBy(offset, n, done + 1) == CopiedBy(offset, n, done)
    ensures Aligned(offset, n, done + 1, (if wordOffset == 8 then 0 else wordOffset) + 1)
  {
    NoWordHere(offset, n, done, wordOffset);
    hide UpToBoundary, WholeWords;
    NextByte(offset + done, wordOffset);
  }

  lemma NextByte(x: nat, wordOffset: nat)
    requires wordOffset <= 8 && wordOffset % 8 == x % 8
    ensures ((if wordOffset == 8 then 0 else wordOffset) + 1) % 8 == (x + 1) % 8
  {
  }

  lemma TakeRunNone(p: Position)
    requires Proper(p)
    ensures Take(p, 0) == ([], p)
  {
  }

  lemma TakeOne(p: Position)
    requires Proper(p)
    ensures var q := Ready(p); Take(p, 1) == ([q.word[q.offset]], q.(offset := q.offset + 1))
  {
    hide Ready, Take;
    var q := Ready(p);
    TakeFirst(p, 1);
    TakeRunNone(q.(offset := q.offset + 1));
    assert [q.word[q.offset]] + [] == [q.word[q.offset]];
  }

  // --- a known value ---

  lemma NextNibble(a: nat, b: nat, m: nat, n: nat)
    requires m < 16 && n < 16
    ensures Xor(16 * a + m, 16 * b + n) == 16 * Xor(a, b) + Xor(m, n)
  {
    hide Xor;
    assert Pow2(4) == 16;
    XorBlocks(a, b, m, n, 4);
  }

  lemma Nibbles0()
    ensures Xor(0, 5) == 5 && Xor(1, 1) == 0
  {
  }

  lemma Nibbles1()
    ensures Xor(1, 13) == 12 && Xor(1, 14) == 15
  {
  }

  lemma Nibbles2()
    ensures Xor(2, 5) == 7 && Xor(4, 13) == 9
  {
  }

  lemma Nibbles3()
    ensures Xor(5, 8) == 13 && Xor(6, 1) == 7
  {
  }

  lemma Nibbles4()
    ensures Xor(6, 4) == 2 && Xor(6, 5) == 3
  {
  }

  lemma Nibbles5()
    ensures Xor(6, 15) == 9 && Xor(7, 7) == 0
  {
  }

  lemma Nibbles6()
    ensures Xor(7, 11) == 12 && Xor(7, 14) == 9
  {
  }

  lemma Nibbles7()
    ensures Xor(8, 12) == 4 && Xor(9, 1) == 8
  {
  }

  lemma Nibbles8()
    ensures Xor(9, 2) == 11 && Xor(9, 5) == 12
  {
  }

  lemma Nibbles9()
    ensures Xor(10, 2) == 8 && Xor(10, 10) == 0
  {
  }

  lemma Nibbles10()
    ensures Xor(10, 11) == 1 && Xor(10, 13) == 7
  {
  }

  lemma Nibbles11()
    ensures Xor(11, 2) == 9 && Xor(11, 5) == 14
  {
  }

  lemma Nibbles12()
    ensures Xor(12, 6) == 10 && Xor(13, 1) == 12
  {
  }

  lemma Nibbles13()
    ensures Xor(14, 14) == 0 && Xor(15, 8) == 7
  {
  }

  lemma NibbleTable()
    ensures Xor(0, 5) == 5 && Xor(1, 1) == 0 && Xor(1, 13) == 12 && Xor(1, 14) == 15 && Xor(2, 5) == 7 && Xor(4, 13) == 9
    ensures Xor(5, 8) == 13 && Xor(6, 1) == 7 && Xor(6, 4) == 2 && Xor(6, 5) == 3 && Xor(6, 15) == 9 && Xor(7, 7) == 0
    ensures Xor(7, 11) == 12 && Xor(7, 14) == 9 && Xor(8, 12) == 4 && Xor(9, 1) == 8 && Xor(9, 2) == 11 && Xor(9, 5) == 12
    ensures Xor(10, 2) == 8 && Xor(10, 10) == 0 && Xor(10, 11) == 1 && Xor(10, 13) == 7 && Xor(11, 2) == 9 && Xor(11, 5) == 14
    ensures Xor(12, 6) == 10 && Xor(13, 1) == 12 && Xor(14, 14) == 0 && Xor(15, 8) == 7
  {
    Nibbles0();
    Nibbles1();
    Nibbles2();
    Nibbles3();
    Nibbles4();
    Nibbles5();
    Nibbles6();
    Nibbles7();
    Nibbles8();
    Nibbles9();
    Nibbles10();
    Nibbles11();
    Nibbles12();
    Nibbles13();
  }

  lemma ShiftWidths()
    ensures Pow2(27) == 0x800_0000 && Pow2(30) == 0x4000_0000 && Pow2(31) == 0x8000_0000
  {
    TwoToThe8();
    assert Pow2(3) == 8;
    hide Pow2;
    Pow2Sum(8, 8);
    Pow2Sum(16, 8);
    Pow2Sum(24, 3);
    Pow2Sum(27, 3);
    Pow2Sum(1, 30);
    OnePower();
  }

  lemma OnePower()
    ensures Pow2(1) == 2
  {
  }

  lemma KnownFold30()
    ensures XorShift(0x9e37_79b9_7f4a_7c16, 30) == 0x9e37_79bb_0797_9af3
  {
    hide Xor, Shr, Pow2;
    NibbleTable();
    ShiftIsQuotient(0x9e37_79b9_7f4a_7c16, 30);
    ShiftWidths();
    XorZero(0x9e3_779b);
    NextNibble(0x9e3_779b, 0, 9, 2);
    NextNibble(0x9e37_79b9, 2, 7, 7);
    NextNibble(0x9_e377_9b97, 0x27, 15, 8);
    NextNibble(0x9e_3779_b97f, 0x278, 4, 13);
    NextNibble(0x9e3_779b_97f4, 0x278d, 10, 13);
    NextNibble(0x9e37_79b9_7f4a, 0x2_78dd, 7, 14);
    NextNibble(0x9_e377_9b97_f4a7, 0x27_8dde, 12, 6);
    NextNibble(0x9e_3779_b97f_4a7c, 0x278_dde6, 1, 14);
    NextNibble(0x9e3_779b_97f4_a7c1, 0x278d_de6e, 6, 5);
  }

  lemma KnownFold27()
    ensures XorShift(0xad70_fc62_ae96_589b, 27) == 0xad70_fc77_0089_d4ce
  {
    hide Xor, Shr, Pow2;
    NibbleTable();
    ShiftIsQuotient(0xad70_fc62_ae96_589b, 27);
    ShiftWidths();
    XorZero(0xad_70fc);
    NextNibble(0xad_70fc, 0, 6, 1);
    NextNibble(0xad7_0fc6, 1, 2, 5);
    NextNibble(0xad70_fc62, 0x15, 10, 10);
    NextNibble(0xa_d70f_c62a, 0x15a, 14, 14);
    NextNibble(0xad_70fc_62ae, 0x15ae, 9, 1);
    NextNibble(0xad7_0fc6_2ae9, 0x1_5ae1, 6, 15);
    NextNibble(0xad70_fc62_ae96, 0x15_ae1f, 5, 8);
    NextNibble(0xa_d70f_c62a_e965, 0x15a_e1f8, 8, 12);
    NextNibble(0xad_70fc_62ae_9658, 0x15ae_1f8c, 9, 5);
    NextNibble(0xad7_0fc6_2ae9_6589, 0x1_5ae1_f8c5, 11, 5);
  }

  lemma KnownFold31()
    ensures XorShift(0x910a_2ded_ab16_071a, 31) == 0x910a_2dec_8902_5cc1
  {
    hide Xor, Shr, Pow2;
    NibbleTable();
    ShiftIsQuotient(0x910a_2ded_ab16_071a, 31);
    ShiftWidths();
    XorZero(0x910_a2de);
    NextNibble(0x910_a2de, 0, 13, 1);
    NextNibble(0x910a_2ded, 1, 10, 2);
    NextNibble(0x9_10a2_deda, 0x12, 11, 2);
    NextNibble(0x91_0a2d_edab, 0x122, 1, 1);
    NextNibble(0x910_a2de_dab1, 0x1221, 6, 4);
    NextNibble(0x910a_2ded_ab16, 0x1_2214, 0, 5);
    NextNibble(0x9_10a2_deda_b160, 0x12_2145, 7, 11);
    NextNibble(0x91_0a2d_edab_1607, 0x122_145b, 1, 13);
    NextNibble(0x910_a2de_dab1_6071, 0x1221_45bd, 10, 11);
  }

  lemma KnownProducts()
    ensures WrappingMul(0x9e37_79bb_0797_9af3, FIRST_MULTIPLIER) == 0xad70_fc62_ae96_589b
    ensures WrappingMul(0xad70_fc77_0089_d4ce, SECOND_MULTIPLIER) == 0x910a_2ded_ab16_071a
    ensures (1 % TWO64 + STREAM_INCREMENT) % TWO64 == 0x9e37_79b9_7f4a_7c16
  {
  }

  /** The first request after boot starts with this word. */
  lemma KnownFirstWord()
    ensures FirstWord(0) == 0x910a_2dec_8902_5cc1
  {
    hide XorShift, WrappingMul;
    KnownProducts();
    KnownFold30();
    KnownFold27();
    KnownFold31();
  }
}
