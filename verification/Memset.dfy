/** The unrolled `memset` of os/src/memops.rs against a byte fill, with its trace of volatile stores. */
module Memset {
  import opened Bytes

  const WORD_BYTES: nat := 8
  const UNROLL_BYTES: nat := 64

  datatype Access = Access(at: nat, width: nat)

  /** The stores run upwards from `lo` to `hi` without gap or overlap; a word store is aligned. */
  predicate Tiles(t: seq<Access>, lo: nat, hi: nat) {
    if t == [] then lo == hi
    else
      var last := t[|t| - 1];
      && last.at + last.width == hi && (last.width == 1 || (last.width == WORD_BYTES && last.at % WORD_BYTES == 0))
      && Tiles(t[..|t| - 1], lo, last.at)
  }

  function Repeat(b: byte, n: nat): (s: seq<byte>)
    ensures |s| == n && forall i | 0 <= i < n :: s[i] == b
  {
    seq(n, _ => b)
  }

  lemma {:induction false} FromToLE(s: seq<byte>)
    ensures LE(FromLE(s), |s|) == s
    decreases |s|
  {
    if s != [] {
      FromToLE(s[1..]);
      assert FromLE(s) % 256 == s[0] && FromLE(s) / 256 == FromLE(s[1..]);
    }
  }

  /** Memory from address `base` on, and the volatile stores made to it. */
  class Memory {
    const base: nat
    const cells: array<byte>
    ghost var log: seq<Access>

    constructor (base: nat, cells: array<byte>)
      ensures this.base == base && this.cells == cells && log == []
    {
      this.base := base;
      this.cells := cells;
      log := [];
    }

    predicate Inside(at: nat, n: nat) {
      base <= at && at + n <= base + cells.Length
    }

    method WriteByte(at: nat, b: byte)
      requires Inside(at, 1)
      modifies this, cells
      ensures cells[..] == Put(old(cells[..]), at - base, [b])
      ensures log == old(log) + [Access(at, 1)]
    {
      cells[at - base] := b;
      log := log + [Access(at, 1)];
    }

    /** A native word store; the machine demands alignment. */
    method WriteWord(at: nat, word: nat)
      requires Inside(at, WORD_BYTES) && at % WORD_BYTES == 0
      modifies this, cells
      ensures cells[..] == Put(old(cells[..]), at - base, LE(word, WORD_BYTES))
      ensures log == old(log) + [Access(at, WORD_BYTES)]
    {
      var bytes := LE(word, WORD_BYTES);
      forall i | 0 <= i < WORD_BYTES { cells[at - base + i] := bytes[i]; }
      log := log + [Access(at, WORD_BYTES)];
    }
  }

  /** Where a fill started: the memory and the log then, the destination, the byte. */
  datatype Job = Job(was: seq<byte>, log: seq<Access>, base: nat, dest: nat, fill: byte)

  /** The bytes below `cursor` are set, by stores that tile; nothing else is touched. */
  ghost predicate Progress(j: Job, now: seq<byte>, log: seq<Access>, cursor: nat) {
    && |now| == |j.was| && j.base <= j.dest <= cursor <= j.base + |j.was|
    && now == Put(j.was, j.dest - j.base, Repeat(j.fill, cursor - j.dest))
    && |j.log| <= |log| && log[..|j.log|] == j.log && Tiles(log[|j.log|..], j.dest, cursor)
  }

  lemma Begin(j: Job)
    requires j.base <= j.dest <= j.base + |j.was|
    ensures Progress(j, j.was, j.log, j.dest)
  {
    assert Repeat(j.fill, 0) == [];
    assert j.log[|j.log|..] == [];
  }

  lemma PutMore(was: seq<byte>, off: nat, b: byte, n: nat, k: nat)
    requires off + n + k <= |was|
    ensures Put(Put(was, off, Repeat(b, n)), off + n, Repeat(b, k)) == Put(was, off, Repeat(b, n + k))
  {
    assert Repeat(b, n + k) == Repeat(b, n) + Repeat(b, k);
    PutBehind(was, off, Repeat(b, n), Repeat(b, k));
  }

  lemma PutBehind(was: seq<byte>, off: nat, x: seq<byte>, y: seq<byte>)
    requires off + |x| + |y| <= |was|
    ensures Put(Put(was, off, x), off + |x|, y) == Put(was, off, x + y)
  {
  }

  lemma LogMore(was: seq<Access>, log: seq<Access>, a: Access)
    requires |was| <= |log| && log[..|was|] == was
    ensures (log + [a])[..|was|] == was && (log + [a])[|was|..] == log[|was|..] + [a]
  {
  }

  lemma Extend(j: Job, now: seq<byte>, log: seq<Access>, cursor: nat, k: nat)
    requires Progress(j, now, log, cursor) && cursor + k <= j.base + |j.was|
    requires k == 1 || (k == WORD_BYTES && cursor % WORD_BYTES == 0)
    ensures Progress(j, Put(now, cursor - j.base, Repeat(j.fill, k)), log + [Access(cursor, k)], cursor + k)
  {
    hide Tiles, Put, Repeat;
    PutMore(j.was, j.dest - j.base, j.fill, cursor - j.dest, k);
    LogMore(j.log, log, Access(cursor, k));
    TilesMore(log[|j.log|..], j.dest, cursor, k);
  }

  lemma TilesMore(t: seq<Access>, lo: nat, hi: nat, k: nat)
    requires Tiles(t, lo, hi) && (k == 1 || (k == WORD_BYTES && hi % WORD_BYTES == 0))
    ensures Tiles(t + [Access(hi, k)], lo, hi + k)
  {
    var t' := t + [Access(hi, k)];
    assert t'[..|t'| - 1] == t;
  }

  method FillWord(mem: Memory, cursor: nat, repeated: nat, ghost j: Job)
    requires mem.Inside(cursor, WORD_BYTES) && cursor % WORD_BYTES == 0 && j.base == mem.base && |j.was| == mem.cells.Length
    requires LE(repeated, WORD_BYTES) == Repeat(j.fill, WORD_BYTES)
    requires Progress(j, mem.cells[..], mem.log, cursor)
    modifies mem, mem.cells
    ensures Progress(j, mem.cells[..], mem.log, cursor + WORD_BYTES)
  {
    hide Put, Progress, LE, Repeat;
    Extend(j, mem.cells[..], mem.log, cursor, WORD_BYTES);
    mem.WriteWord(cursor, repeated);
  }

  /** The byte in every lane of a word. */
  method Broadcast(fill: byte) returns (repeated: nat)
    ensures LE(repeated, WORD_BYTES) == Repeat(fill, WORD_BYTES)
  {
    repeated := FromLE(Repeat(fill, WORD_BYTES));
    FromToLE(Repeat(fill, WORD_BYTES));
  }

  /** One turn of the unrolled loop: eight word stores. */
  method FillUnrolled(mem: Memory, cursor: nat, repeated: nat, ghost j: Job)
    requires mem.Inside(cursor, UNROLL_BYTES) && cursor % WORD_BYTES == 0 && j.base == mem.base && |j.was| == mem.cells.Length
    requires LE(repeated, WORD_BYTES) == Repeat(j.fill, WORD_BYTES)
    requires Progress(j, mem.cells[..], mem.log, cursor)
    modifies mem, mem.cells
    ensures Progress(j, mem.cells[..], mem.log, cursor + UNROLL_BYTES)
  {
    hide Progress, LE, Repeat;
    FillWord(mem, cursor, repeated, j);
    FillWord(mem, cursor + 8, repeated, j);
    FillWord(mem, cursor + 16, repeated, j);
    FillWord(mem, cursor + 24, repeated, j);
    FillWord(mem, cursor + 32, repeated, j);
    FillWord(mem, cursor + 40, repeated, j);
    FillWord(mem, cursor + 48, repeated, j);
    FillWord(mem, cursor + 56, repeated, j);
  }

  method FillByte(mem: Memory, cursor: nat, b: byte, ghost j: Job)
    requires mem.Inside(cursor, 1) && j.base == mem.base && |j.was| == mem.cells.Length && j.fill == b
    requires Progress(j, mem.cells[..], mem.log, cursor)
    modifies mem, mem.cells
    ensures Progress(j, mem.cells[..], mem.log, cursor + 1)
  {
    hide Put, Progress;
    ByteRepeat(b);
    Extend(j, mem.cells[..], mem.log, cursor, 1);
    mem.WriteByte(cursor, b);
  }

  /** The word loops of `memset`: unrolled while eight words are left, then one by one. */
  method FillWords(mem: Memory, start: nat, count: nat, repeated: nat, ghost j: Job) returns (cursor: nat, remaining: nat)
    requires mem.Inside(start, count) && (count == 0 || start % WORD_BYTES == 0)
    requires j.base == mem.base && |j.was| == mem.cells.Length
    requires LE(repeated, WORD_BYTES) == Repeat(j.fill, WORD_BYTES)
    requires Progress(j, mem.cells[..], mem.log, start)
    modifies mem, mem.cells
    ensures cursor + remaining == start + count && cursor >= start && remaining < WORD_BYTES
    ensures Progress(j, mem.cells[..], mem.log, cursor)
  {
    hide Progress, LE, Repeat;
    cursor, remaining := start, count;
    while remaining >= UNROLL_BYTES
      invariant cursor + remaining == start + count && cursor >= start
      invariant remaining == 0 || cursor % WORD_BYTES == 0
      invariant Progress(j, mem.cells[..], mem.log, cursor)
      decreases remaining
    {
      FillUnrolled(mem, cursor, repeated, j);
      cursor, remaining := cursor + UNROLL_BYTES, remaining - UNROLL_BYTES;
    }
    while remaining >= WORD_BYTES
      invariant cursor + remaining == start + count && cursor >= start
      invariant remaining == 0 || cursor % WORD_BYTES == 0
      invariant Progress(j, mem.cells[..], mem.log, cursor)
      decreases remaining
    {
      FillWord(mem, cursor, repeated, j);
      cursor, remaining := cursor + WORD_BYTES, remaining - WORD_BYTES;
    }
  }

  /** `memset`; the C `int` is truncated to a byte, the destination comes back. */
  method Memset(mem: Memory, dest: nat, value: int, len: nat) returns (r: nat)
    requires mem.Inside(dest, len)
    modifies mem, mem.cells
    ensures r == dest
    ensures mem.cells[..] == Put(old(mem.cells[..]), dest - mem.base, Repeat(value % 256, len))
    ensures |old(mem.log)| <= |mem.log| && mem.log[..|old(mem.log)|] == old(mem.log)
    ensures Tiles(mem.log[|old(mem.log)|..], dest, dest + len)
  {
    hide Progress, Put, Tiles, LE, Repeat;
    var fill: byte := value % 256;
    var cursor: nat, remaining: nat := dest, len;
    ghost var j := Job(mem.cells[..], mem.log, mem.base, dest, fill);
    Begin(j);
    var repeated := Broadcast(fill);

    while remaining != 0 && cursor % WORD_BYTES != 0
      invariant cursor + remaining == dest + len && cursor >= dest
      invariant Progress(j, mem.cells[..], mem.log, cursor)
      decreases remaining
    {
      FillByte(mem, cursor, fill, j);
      cursor, remaining := cursor + 1, remaining - 1;
    }
    cursor, remaining := FillWords(mem, cursor, remaining, repeated, j);
    while remaining != 0
      invariant cursor + remaining == dest + len && cursor >= dest
      invariant Progress(j, mem.cells[..], mem.log, cursor)
      decreases remaining
    {
      FillByte(mem, cursor, fill, j);
      cursor, remaining := cursor + 1, remaining - 1;
    }
    Finish(j, mem.cells[..], mem.log, cursor);
    r := dest;
  }

  lemma ByteRepeat(b: byte)
    ensures Repeat(b, 1) == [b]
  {
  }

  lemma Finish(j: Job, now: seq<byte>, log: seq<Access>, cursor: nat)
    requires Progress(j, now, log, cursor)
    ensures |now| == |j.was| && j.base <= j.dest <= cursor <= j.base + |j.was|
    ensures now == Put(j.was, j.dest - j.base, Repeat(j.fill, cursor - j.dest))
    ensures |j.log| <= |log| && log[..|j.log|] == j.log && Tiles(log[|j.log|..], j.dest, cursor)
  {
  }
}
