/**
  The chunking loop of scripts/prepare_starfive_sd_image.py: whatever lengths the
  source's reads come back with, the image is cut at multiples of the chunk size,
  and the manifest is one the flasher accepts.
*/
module SdPrepare {
  import opened Common
  import opened Bytes
  import opened Numerals
  import opened SdManifest

  /** The external programs: gzip, SHA-256 and CRC-32, known only by their laws. */
  datatype Tools = Tools(
    gzip: seq<byte> -> seq<byte>, gunzip: seq<byte> -> Option<seq<byte>>, sha256: seq<byte> -> string, crc32: seq<byte> -> nat)

  const GZIP_MAGIC: seq<byte> := [0x1f, 0x8b, 0x08]

  predicate HasMagic(file: seq<byte>) { GZIP_MAGIC <= file }

  ghost predicate Lawful(t: Tools) {
    && (forall s :: HasMagic(t.gzip(s)) && t.gunzip(t.gzip(s)) == Some(s))
    && (forall s :: IsSha256(t.sha256(s)))
    && (forall s :: t.crc32(s) < Pow(16, 8))
  }

  const COPY_BUFFER_SIZE: nat := 4 * 1024 * 1024

  /** A readable image; a read may come back short, and empty only at the end. */
  class Source {
    const data: seq<byte>
    var pos: nat

    constructor (data: seq<byte>)
      ensures this.data == data && pos == 0
    {
      this.data := data;
      pos := 0;
    }

    method Read(n: nat) returns (got: seq<byte>)
      requires pos <= |data| && n > 0
      modifies this
      ensures old(pos) <= pos <= |data| && pos - old(pos) <= n && got == data[old(pos)..pos]
      ensures got == [] <==> old(pos) == |data|
    {
      if pos == |data| { return []; }
      var most := if n <= |data| - pos then n else |data| - pos;
      var k: nat :| 1 <= k <= most;
      got := data[pos..pos + k];
      pos := pos + k;
    }
  }

  // --- what preparing means ---

  /** The image cut every `n` bytes. */
  function Split(data: seq<byte>, n: nat): (pieces: seq<seq<byte>>)
    requires n > 0
    decreases |data|
  {
    if data == [] then []
    else if |data| <= n then [data]
    else [data[..n]] + Split(data[n..], n)
  }

  function FileName(prefix: string, index: nat): string {
    prefix + "-part" + Pad(Digits(index, 10), 3) + ".img.gz"
  }

  function Describe(t: Tools, prefix: string, index: nat, offset: nat, raw: seq<byte>): Chunk {
    Chunk(index, FileName(prefix, index), offset, Hex(offset), |raw|, Hex(|raw|), Crc32Text(t.crc32(raw)), t.sha256(raw),
          |t.gzip(raw)|, t.sha256(t.gzip(raw)))
  }

  function Length(pieces: seq<seq<byte>>): nat {
    if pieces == [] then 0 else Length(pieces[..|pieces| - 1]) + |pieces[|pieces| - 1]|
  }

  function DescribeAll(t: Tools, prefix: string, pieces: seq<seq<byte>>): (cs: seq<Chunk>)
    ensures |cs| == |pieces|
  {
    if pieces == [] then []
    else
      var front := pieces[..|pieces| - 1];
      DescribeAll(t, prefix, front) + [Describe(t, prefix, |front|, Length(front), pieces[|pieces| - 1])]
  }

  /** The files written, name by name. */
  function Files(t: Tools, prefix: string, pieces: seq<seq<byte>>): map<string, seq<byte>> {
    if pieces == [] then map[]
    else
      var front := pieces[..|pieces| - 1];
      Files(t, prefix, front)[FileName(prefix, |front|) := t.gzip(pieces[|pieces| - 1])]
  }

  predicate Small(t: Tools, pieces: seq<seq<byte>>, limit: nat) {
    forall i | 0 <= i < |pieces| :: |t.gzip(pieces[i])| <= limit
  }

  predicate Arguments(prefix: string, chunkSize: int, limit: int) {
    SafeName(prefix) && chunkSize > 0 && chunkSize % BLOCK_SIZE == 0 && 0 < limit < 0x8000_0000
  }

  function ManifestOf(t: Tools, prefix: string, data: seq<byte>, chunkSize: nat, limit: nat): Manifest
    requires chunkSize > 0
  {
    Manifest(SCHEMA, |data|, t.sha256(data), BLOCK_SIZE, limit, DescribeAll(t, prefix, Split(data, chunkSize)))
  }

  // --- the loop ---

  lemma {:induction false} SplitAt(data: seq<byte>, n: nat, pos: nat)
    requires n > 0 && pos < |data|
    ensures var stop := if pos + n <= |data| then pos + n else |data|;
      Split(data[pos..], n) == [data[pos..stop]] + Split(data[stop..], n)
  {
    var rest := data[pos..];
    if |rest| <= n {
      assert data[pos..|data|] == rest && data[|data|..] == [];
    } else {
      assert rest[..n] == data[pos..pos + n] && rest[n..] == data[pos + n..];
    }
  }

  /** The inner loop: reads until the chunk is full or the source ends. */
  method ReadChunk(source: Source, first: seq<byte>, chunkSize: nat) returns (raw: seq<byte>)
    requires source.pos <= |source.data| && 0 < |first| <= chunkSize && |first| <= source.pos
    requires first == source.data[source.pos - |first|..source.pos]
    modifies source
    ensures var start := old(source.pos) - |first|;
      && source.pos == (if start + chunkSize <= |source.data| then start + chunkSize else |source.data|)
      && raw == source.data[start..source.pos]
  {
    ghost var start := source.pos - |first|;
    raw := [];
    var data := first;
    while data != []
      invariant start <= source.pos <= |source.data| && |raw| + |data| <= chunkSize
      invariant start + |raw| + |data| == source.pos && raw + data == source.data[start..source.pos]
      invariant data == [] ==> source.pos == |source.data|
      decreases chunkSize - |raw|, |data|
    {
      raw := raw + data;
      var remaining := chunkSize - |raw|;
      if remaining == 0 { return; }
      ghost var before := source.pos;
      data := source.Read(if COPY_BUFFER_SIZE <= remaining then COPY_BUFFER_SIZE else remaining);
      assert source.data[start..before] + source.data[before..source.pos] == source.data[start..source.pos];
    }
    assert raw + [] == raw;
  }

  lemma Grow(t: Tools, prefix: string, pieces: seq<seq<byte>>, raw: seq<byte>)
    ensures Length(pieces + [raw]) == Length(pieces) + |raw|
    ensures DescribeAll(t, prefix, pieces + [raw])
         == DescribeAll(t, prefix, pieces) + [Describe(t, prefix, |pieces|, Length(pieces), raw)]
    ensures Files(t, prefix, pieces + [raw]) == Files(t, prefix, pieces)[FileName(prefix, |pieces|) := t.gzip(raw)]
    ensures Cat(pieces + [raw]) == Cat(pieces) + raw
  {
    hide Describe, FileName;
    assert (pieces + [raw])[..|pieces|] == pieces;
  }

  lemma SmallGrow(t: Tools, pieces: seq<seq<byte>>, raw: seq<byte>, rest: seq<seq<byte>>, limit: nat)
    ensures Small(t, pieces + [raw], limit) <==> Small(t, pieces, limit) && |t.gzip(raw)| <= limit
    ensures Small(t, pieces + ([raw] + rest), limit) ==> |t.gzip(raw)| <= limit
  {
    var all := pieces + [raw];
    assert all[|pieces|] == raw && forall i | 0 <= i < |pieces| :: all[i] == pieces[i];
    assert (pieces + ([raw] + rest))[|pieces|] == raw;
  }

  /** What is done when the source has been read up to `pos`. */
  ghost predicate Progress(
    t: Tools, prefix: string, data: seq<byte>, n: nat, limit: nat, pos: nat,
    pieces: seq<seq<byte>>, chunks: seq<Chunk>, files: map<string, seq<byte>>)
  {
    && n > 0 && pos <= |data| && Split(data, n) == pieces + Split(data[pos..], n)
    && Length(pieces) == pos && Small(t, pieces, limit)
    && chunks == DescribeAll(t, prefix, pieces) && files == Files(t, prefix, pieces)
  }

  lemma Begin(t: Tools, prefix: string, data: seq<byte>, n: nat, limit: nat)
    requires n > 0
    ensures Progress(t, prefix, data, n, limit, 0, [], [], map[])
  {
    assert data[0..] == data;
  }

  lemma Advance(
    t: Tools, prefix: string, data: seq<byte>, n: nat, limit: nat, pos: nat,
    pieces: seq<seq<byte>>, chunks: seq<Chunk>, files: map<string, seq<byte>>, stop: nat)
    requires Progress(t, prefix, data, n, limit, pos, pieces, chunks, files) && pos < |data|
    requires stop == if pos + n <= |data| then pos + n else |data|
    ensures var raw := data[pos..stop];
      if |t.gzip(raw)| > limit then !Small(t, Split(data, n), limit)
      else Progress(t, prefix, data, n, limit, stop, pieces + [raw],
                    chunks + [Describe(t, prefix, |pieces|, pos, raw)], files[FileName(prefix, |pieces|) := t.gzip(raw)])
  {
    hide Describe, Split, DescribeAll, Files, Length, Small, FileName;
    var raw, rest := data[pos..stop], Split(data[stop..], n);
    SplitAt(data, n, pos);
    SmallGrow(t, pieces, raw, rest, limit);
    Grow(t, prefix, pieces, raw);
    assert pieces + ([raw] + rest) == pieces + [raw] + rest;
  }

  lemma Finish(
    t: Tools, prefix: string, data: seq<byte>, n: nat, limit: nat,
    pieces: seq<seq<byte>>, chunks: seq<Chunk>, files: map<string, seq<byte>>)
    requires Progress(t, prefix, data, n, limit, |data|, pieces, chunks, files)
    ensures pieces == Split(data, n) && (chunks == [] <==> data == []) && Small(t, Split(data, n), limit)
    ensures chunks == DescribeAll(t, prefix, Split(data, n)) && files == Files(t, prefix, Split(data, n))
  {
    assert data[|data|..] == [];
    assert pieces + [] == pieces;
  }

  /** `prepare_image`: `None` when it raises, in which case it has removed what it created. */
  method PrepareImage(t: Tools, data: seq<byte>, prefix: string, chunkSize: int, limit: int)
    returns (r: Option<(Json, map<string, seq<byte>>)>)
    ensures r.Some? <==>
      && Arguments(prefix, chunkSize, limit) && data != [] && |data| % BLOCK_SIZE == 0
      && Small(t, Split(data, chunkSize), limit)
    ensures r.Some? ==>
      r.value == (Encode(ManifestOf(t, prefix, data, chunkSize, limit)), Files(t, prefix, Split(data, chunkSize)))
  {
    hide Progress, Describe, Split, DescribeAll, Files, Small, FileName, Encode;
    if !Arguments(prefix, chunkSize, limit) { return None; }
    var source := new Source(data);
    ghost var pieces: seq<seq<byte>> := [];
    var chunks: seq<Chunk> := [];
    var files: map<string, seq<byte>> := map[];
    var totalSize: nat, index: nat := 0, 0;
    Begin(t, prefix, data, chunkSize, limit);
    while true
      invariant source.pos <= |data| && source.data == data && totalSize == source.pos && index == |pieces|
      invariant Progress(t, prefix, data, chunkSize, limit, source.pos, pieces, chunks, files)
      decreases |data| - source.pos
    {
      ghost var start := source.pos;
      var first := source.Read(if COPY_BUFFER_SIZE <= chunkSize then COPY_BUFFER_SIZE else chunkSize);
      if first == [] { break; }
      var raw := ReadChunk(source, first, chunkSize);
      Advance(t, prefix, data, chunkSize, limit, start, pieces, chunks, files, source.pos);
      var encoded := t.gzip(raw);
      if |encoded| > limit { return None; }
      files := files[FileName(prefix, index) := encoded];
      chunks := chunks + [Describe(t, prefix, index, totalSize, raw)];
      totalSize := totalSize + |raw|;
      index := index + 1;
      pieces := pieces + [raw];
    }
    Finish(t, prefix, data, chunkSize, limit, pieces, chunks, files);
    if chunks == [] { return None; }
    if totalSize % BLOCK_SIZE != 0 { return None; }
    r := Some((Encode(Manifest(SCHEMA, totalSize, t.sha256(data), BLOCK_SIZE, limit, chunks)), files));
  }

  // ------------------------------------------------------------------
  // Every emitted manifest is accepted
  // ------------------------------------------------------------------

  ghost predicate Blocks(pieces: seq<seq<byte>>) {
    forall i | 0 <= i < |pieces| :: |pieces[i]| >= 1 && |pieces[i]| % BLOCK_SIZE == 0
  }

  lemma RestIsBlocks(size: nat, n: nat)
    requires n <= size && n % BLOCK_SIZE == 0 && size % BLOCK_SIZE == 0
    ensures (size - n) % BLOCK_SIZE == 0
  {
  }

  lemma SplitOnce(data: seq<byte>, n: nat)
    requires n > 0 && |data| <= n && |data| % BLOCK_SIZE == 0
    ensures Blocks(Split(data, n)) && Cat(Split(data, n)) == data
  {
    if data != [] {
      assert Split(data, n) == [data] && [data][..0] == [];
      assert [] + data == data;
    }
  }

  lemma SplitFront(data: seq<byte>, n: nat)
    requires 0 < n < |data|
    ensures Split(data, n) == [data[..n]] + Split(data[n..], n)
  {
  }

  lemma BlocksFront(first: seq<byte>, rest: seq<seq<byte>>)
    requires Blocks(rest) && |first| >= 1 && |first| % BLOCK_SIZE == 0
    ensures Blocks([first] + rest)
  {
  }

  /** The pieces tile the image and are whole blocks when the image is. */
  lemma {:induction false} SplitTiles(data: seq<byte>, n: nat)
    requires n > 0 && n % BLOCK_SIZE == 0 && |data| % BLOCK_SIZE == 0
    ensures Blocks(Split(data, n)) && Cat(Split(data, n)) == data
    decreases |data|
  {
    hide *;
    if |data| <= n {
      SplitOnce(data, n);
    } else {
      RestIsBlocks(|data|, n);
      SplitTiles(data[n..], n);
      SplitFront(data, n);
      BlocksFront(data[..n], Split(data[n..], n));
      CatFront(data[..n], Split(data[n..], n));
      assert data == data[..n] + data[n..];
    }
  }

  lemma {:induction false} CatFront(first: seq<byte>, rest: seq<seq<byte>>)
    ensures Cat([first] + rest) == first + Cat(rest)
    decreases |rest|
  {
    var all := [first] + rest;
    if rest == [] {
      assert all[..0] == [] && [] + first == first && first + [] == first;
    } else {
      var front, last := rest[..|rest| - 1], rest[|rest| - 1];
      CatFront(first, front);
      assert all[..|all| - 1] == [first] + front;
      assert first + Cat(front) + last == first + (Cat(front) + last);
    }
  }

  lemma {:induction false} LengthIsCat(pieces: seq<seq<byte>>)
    ensures Length(pieces) == |Cat(pieces)|
    decreases |pieces|
  {
    if pieces != [] { LengthIsCat(pieces[..|pieces| - 1]); }
  }

  lemma {:induction false} LengthIsBlocks(pieces: seq<seq<byte>>, i: nat)
    requires Blocks(pieces) && i <= |pieces|
    ensures Length(pieces[..i]) % BLOCK_SIZE == 0
    decreases i
  {
    if i > 0 {
      LengthIsBlocks(pieces, i - 1);
      assert pieces[..i][..i - 1] == pieces[..i - 1];
    }
  }

  lemma {:induction false} Described(t: Tools, prefix: string, pieces: seq<seq<byte>>, i: nat)
    requires i < |pieces|
    ensures var cs := DescribeAll(t, prefix, pieces);
      && cs[i] == Describe(t, prefix, i, Length(pieces[..i]), pieces[i])
      && cs[..i] == DescribeAll(t, prefix, pieces[..i]) && Total(cs[..i]) == Length(pieces[..i])
    decreases |pieces|
  {
    hide Describe;
    var front := pieces[..|pieces| - 1];
    var cs := DescribeAll(t, prefix, pieces);
    assert cs[..|front|] == DescribeAll(t, prefix, front);
    if i < |front| {
      Described(t, prefix, front, i);
      assert front[..i] == pieces[..i] && cs[..|front|][..i] == cs[..i];
    } else {
      TotalIsLength(t, prefix, front);
    }
  }

  lemma {:induction false} TotalIsLength(t: Tools, prefix: string, pieces: seq<seq<byte>>)
    ensures Total(DescribeAll(t, prefix, pieces)) == Length(pieces)
    decreases |pieces|
  {
    if pieces != [] {
      var front := pieces[..|pieces| - 1];
      TotalIsLength(t, prefix, front);
      assert DescribeAll(t, prefix, pieces)[..|front|] == DescribeAll(t, prefix, front);
    }
  }

  lemma AllNameChars(s: string)
    requires AllHex(s)
    ensures forall i | 0 <= i < |s| :: NameChar(s[i])
  {
    forall i | 0 <= i < |s| ensures NameChar(s[i]) { assert HexChar(s[i]); }
  }

  lemma FileNameIsSafe(prefix: string, index: nat)
    requires SafeName(prefix)
    ensures SafeName(FileName(prefix, index)) && EndsWith(FileName(prefix, index), ".img.gz")
  {
    hide Digits, Pad;
    var digits := Pad(Digits(index, 10), 3);
    DigitsAreHex(index, 10);
    PadKeepsHex(Digits(index, 10), 3);
    AllNameChars(digits);
    var s := FileName(prefix, index);
    assert s[0] == prefix[0];
    assert s[|s| - 7..] == ".img.gz";
  }

  /** Distinct chunks have distinct file names, however many digits the index has. */
  lemma FileNameInjective(prefix: string, i: nat, j: nat)
    ensures FileName(prefix, i) == FileName(prefix, j) <==> i == j
  {
    hide Digits, Pad, Value;
    var a, b := Pad(Digits(i, 10), 3), Pad(Digits(j, 10), 3);
    ValueOfPadded(Digits(i, 10), 3, 10);
    ValueOfPadded(Digits(j, 10), 3, 10);
    DigitsRoundTrip(i, 10);
    DigitsRoundTrip(j, 10);
    if FileName(prefix, i) == FileName(prefix, j) { MiddleEqual(prefix + "-part", a, b, ".img.gz"); }
  }

  lemma MiddleEqual(p: string, a: string, b: string, q: string)
    requires p + a + q == p + b + q
    ensures a == b
  {
    var s := p + a + q;
    assert |a| == |b|;
    assert s[|p|..|p| + |a|] == a;
    assert s[|p|..|p| + |b|] == b;
  }

  lemma {:induction false} NamesBefore(t: Tools, prefix: string, pieces: seq<seq<byte>>, index: nat)
    requires index >= |pieces|
    ensures FileName(prefix, index) !in Names(DescribeAll(t, prefix, pieces))
    decreases |pieces|
  {
    hide FileName;
    if pieces != [] {
      var front := pieces[..|pieces| - 1];
      NamesBefore(t, prefix, front, index);
      FileNameInjective(prefix, |front|, index);
      Append(DescribeAll(t, prefix, front), Describe(t, prefix, |front|, Length(front), pieces[|front|]));
    }
  }

  lemma DescribedOk(t: Tools, prefix: string, pieces: seq<seq<byte>>, limit: nat, i: nat)
    requires Lawful(t) && SafeName(prefix) && Blocks(pieces) && Small(t, pieces, limit) && i < |pieces|
    ensures var cs := DescribeAll(t, prefix, pieces); ChunkOk(cs[i], i, Total(cs[..i]), Names(cs[..i]), limit)
  {
    hide DescribeAll, FileName, Hex, Crc32Text, Length, Names, Total, SafeName, EndsWith, IsSha256, IsCrc32;
    Described(t, prefix, pieces, i);
    LengthIsBlocks(pieces, i);
    FileNameIsSafe(prefix, i);
    NamesBefore(t, prefix, pieces[..i], i);
    Crc32TextMatches(t.crc32(pieces[i]));
  }

  /** Whatever image, prefix and chunk size: a manifest that `prepare_image` emits is one `validate_manifest` accepts. */
  lemma EmittedIsAccepted(t: Tools, data: seq<byte>, prefix: string, chunkSize: nat, limit: nat)
    requires Lawful(t) && Arguments(prefix, chunkSize, limit) && data != [] && |data| % BLOCK_SIZE == 0
    requires Small(t, Split(data, chunkSize), limit)
    ensures Accepted(Encode(ManifestOf(t, prefix, data, chunkSize, limit)))
  {
    hide DescribeAll, Split, ChunkOk, Length, Names, Total, Cat, Encode, Decode;
    var pieces := Split(data, chunkSize);
    var m := ManifestOf(t, prefix, data, chunkSize, limit);
    SplitTiles(data, chunkSize);
    NotEmpty(data, chunkSize);
    LengthIsCat(pieces);
    TotalIsLength(t, prefix, pieces);
    forall i | 0 <= i < |m.chunks| ensures ChunkOk(m.chunks[i], i, Total(m.chunks[..i]), Names(m.chunks[..i]), limit) {
      DescribedOk(t, prefix, pieces, limit, i);
    }
    ManifestRoundTrip(m);
  }

  lemma NotEmpty(data: seq<byte>, n: nat)
    requires n > 0 && data != []
    ensures Split(data, n) != []
  {
  }
}
