/**
  The manifest between scripts/prepare_starfive_sd_image.py and
  scripts/flash_starfive_sd.py: a JSON object, the validator that walks it, and
  what an accepted manifest promises.
*/
module SdManifest {
  import opened Common
  import opened Numerals

  /** `0x{n:x}` */
  function Hex(n: nat): string { "0x" + Digits(n, 16) }

  /** `0x{n:08x}` */
  function Crc32Text(n: nat): string { "0x" + Pad(Digits(n, 16), 8) }

  // --- the patterns ---

  predicate IsSha256(s: string) { |s| == 64 && AllHex(s) }

  predicate IsCrc32(s: string) { |s| == 10 && s[..2] == "0x" && AllHex(s[2..]) }

  lemma Crc32TextMatches(n: nat)
    requires n < Pow(16, 8)
    ensures IsCrc32(Crc32Text(n))
  {
    DigitsFit(n, 16, 8);
    DigitsAreHex(n, 16);
    PadKeepsHex(Digits(n, 16), 8);
    assert Crc32Text(n)[2..] == Pad(Digits(n, 16), 8);
  }

  predicate Alnum(c: char) { 'a' <= c <= 'z' || 'A' <= c <= 'Z' || '0' <= c <= '9' }

  predicate NameChar(c: char) { Alnum(c) || c == '.' || c == '_' || c == '-' }

  /** `[A-Za-z0-9][A-Za-z0-9._-]*`, in full. */
  predicate SafeName(s: string) {
    |s| > 0 && Alnum(s[0]) && forall i | 0 <= i < |s| :: NameChar(s[i])
  }

  /** The pattern, built from the left: one letter or digit, then letters, digits, dots, underscores and dashes. */
  lemma NamesGrow(s: string, c: char)
    ensures !SafeName([])
    ensures SafeName([c]) <==> 'a' <= c <= 'z' || 'A' <= c <= 'Z' || '0' <= c <= '9'
    ensures s != [] ==> (SafeName(s + [c]) <==>
      SafeName(s) && ('a' <= c <= 'z' || 'A' <= c <= 'Z' || '0' <= c <= '9' || c == '.' || c == '_' || c == '-'))
  {
    var t := s + [c];
    assert t[|s|] == c && forall i | 0 <= i < |s| :: t[i] == s[i];
  }

  predicate EndsWith(s: string, t: string) { |t| <= |s| && s[|s| - |t|..] == t }

  // --- JSON and the typed view of a manifest ---

  datatype Json =
    | Null
    | Bool(b: bool)
    | Int(n: int)
    | Float(r: real)
    | Str(s: string)
    | List(items: seq<Json>)
    | Obj(fields: map<string, Json>)

  /** `dict.get` */
  function Get(j: Json, key: string): Json {
    if j.Obj? && key in j.fields then j.fields[key] else Null
  }

  datatype Chunk = Chunk(
    index: int, filename: string, offset: int, offsetHex: string, rawSize: int, rawSizeHex: string,
    rawCrc32: string, rawSha256: string, compressedSize: int, compressedSha256: string)

  datatype Manifest = Manifest(
    schema: string, size: int, sha256: string, blockSize: int, maxCompressedSize: int, chunks: seq<Chunk>)

  function EncodeChunk(c: Chunk): Json {
    Obj(map[
      "index" := Int(c.index), "filename" := Str(c.filename), "offset" := Int(c.offset), "offset_hex" := Str(c.offsetHex),
      "raw_size" := Int(c.rawSize), "raw_size_hex" := Str(c.rawSizeHex), "raw_crc32" := Str(c.rawCrc32),
      "raw_sha256" := Str(c.rawSha256), "compressed_size" := Int(c.compressedSize),
      "compressed_sha256" := Str(c.compressedSha256)])
  }

  function EncodeChunks(cs: seq<Chunk>): (s: seq<Json>)
    ensures |s| == |cs| && forall i | 0 <= i < |cs| :: s[i] == EncodeChunk(cs[i])
  {
    seq(|cs|, i requires 0 <= i < |cs| => EncodeChunk(cs[i]))
  }

  function Encode(m: Manifest): Json {
    Obj(map[
      "schema" := Str(m.schema),
      "image" := Obj(map["size" := Int(m.size), "sha256" := Str(m.sha256), "block_size" := Int(m.blockSize)]),
      "max_compressed_size" := Int(m.maxCompressedSize),
      "chunks" := List(EncodeChunks(m.chunks))])
  }

  function DecodeChunk(j: Json): Option<Chunk> {
    var index, filename, offset, offsetHex := Get(j, "index"), Get(j, "filename"), Get(j, "offset"), Get(j, "offset_hex");
    var rawSize, rawSizeHex, rawCrc32 := Get(j, "raw_size"), Get(j, "raw_size_hex"), Get(j, "raw_crc32");
    var rawSha256, compressedSize, compressedSha256 :=
      Get(j, "raw_sha256"), Get(j, "compressed_size"), Get(j, "compressed_sha256");
    if index.Int? && filename.Str? && offset.Int? && offsetHex.Str? && rawSize.Int? && rawSizeHex.Str? && rawCrc32.Str?
       && rawSha256.Str? && compressedSize.Int? && compressedSha256.Str?
    then Some(Chunk(index.n, filename.s, offset.n, offsetHex.s, rawSize.n, rawSizeHex.s, rawCrc32.s, rawSha256.s,
                    compressedSize.n, compressedSha256.s))
    else None
  }

  function DecodeChunks(items: seq<Json>): Option<seq<Chunk>> {
    if items == [] then Some([])
    else
      var front, last := DecodeChunks(items[..|items| - 1]), DecodeChunk(items[|items| - 1]);
      if front.Some? && last.Some? then Some(front.value + [last.value]) else None
  }

  function Decode(j: Json): Option<Manifest> {
    var schema, image, chunks, limit := Get(j, "schema"), Get(j, "image"), Get(j, "chunks"), Get(j, "max_compressed_size");
    var size, sha, block := Get(image, "size"), Get(image, "sha256"), Get(image, "block_size");
    if schema.Str? && size.Int? && sha.Str? && block.Int? && limit.Int? && chunks.List? && DecodeChunks(chunks.items).Some?
    then Some(Manifest(schema.s, size.n, sha.s, block.n, limit.n, DecodeChunks(chunks.items).value))
    else None
  }

  lemma EncodeLast(cs: seq<Chunk>)
    requires cs != []
    ensures EncodeChunks(cs) == EncodeChunks(cs[..|cs| - 1]) + [EncodeChunk(cs[|cs| - 1])]
  {
    hide EncodeChunk;
  }

  lemma DecodeLast(items: seq<Json>, j: Json)
    requires DecodeChunks(items).Some? && DecodeChunk(j).Some?
    ensures DecodeChunks(items + [j]) == Some(DecodeChunks(items).value + [DecodeChunk(j).value])
  {
    hide DecodeChunk;
    assert (items + [j])[..|items|] == items;
  }

  lemma {:induction false} ChunksRoundTrip(cs: seq<Chunk>)
    ensures DecodeChunks(EncodeChunks(cs)) == Some(cs)
    decreases |cs|
  {
    if cs != [] {
      hide EncodeChunk, DecodeChunk, EncodeChunks, DecodeChunks;
      var front := cs[..|cs| - 1];
      assert cs == front + [cs[|cs| - 1]];
      ChunksRoundTrip(front);
      ChunkRoundTrip(cs[|cs| - 1]);
      EncodeLast(cs);
      DecodeLast(EncodeChunks(front), EncodeChunk(cs[|cs| - 1]));
    }
  }

  lemma ChunkRoundTrip(c: Chunk)
    ensures DecodeChunk(EncodeChunk(c)) == Some(c)
  {
  }

  lemma ManifestRoundTrip(m: Manifest)
    ensures Decode(Encode(m)) == Some(m)
  {
    hide EncodeChunk, DecodeChunk, EncodeChunks, DecodeChunks;
    ChunksRoundTrip(m.chunks);
  }

  // --- what the validator demands ---

  const SCHEMA: string := "whusp-starfive-sd-image-v1"
  const BLOCK_SIZE: nat := 512

  function Total(cs: seq<Chunk>): int {
    if cs == [] then 0 else Total(cs[..|cs| - 1]) + cs[|cs| - 1].rawSize
  }

  function Names(cs: seq<Chunk>): set<string> {
    set c | c in cs :: c.filename
  }

  predicate ChunkOk(c: Chunk, index: nat, offset: int, names: set<string>, limit: int) {
    && c.index == index
    && SafeName(c.filename) && EndsWith(c.filename, ".img.gz") && c.filename !in names
    && c.offset >= 0 && c.rawSize >= 1 && c.compressedSize >= 1
    && c.offset == offset && c.offset % 512 == 0 && c.rawSize % 512 == 0
    && c.compressedSize <= limit
    && IsCrc32(c.rawCrc32) && IsSha256(c.rawSha256) && IsSha256(c.compressedSha256)
    && c.offsetHex == Hex(c.offset) && c.rawSizeHex == Hex(c.rawSize)
  }

  predicate HeadOk(m: Manifest) {
    && m.schema == SCHEMA && m.size >= 1 && IsSha256(m.sha256) && m.blockSize == 512
    && 1 <= m.maxCompressedSize < 0x8000_0000 && m.chunks != []
  }

  /** Every chunk continues the chunks before it. */
  predicate ChunksOk(cs: seq<Chunk>, limit: int) {
    forall i | 0 <= i < |cs| :: ChunkOk(cs[i], i, Total(cs[..i]), Names(cs[..i]), limit)
  }

  predicate Sound(m: Manifest) {
    HeadOk(m) && ChunksOk(m.chunks, m.maxCompressedSize) && Total(m.chunks) == m.size
  }

  predicate Accepted(j: Json) {
    Decode(j).Some? && Sound(Decode(j).value)
  }

  // --- the validator ---

  predicate IntAtLeast(j: Json, minimum: int) { j.Int? && j.n >= minimum }

  /** One turn of the loop: the chunk when every check passes. */
  method CheckChunk(item: Json, expectedIndex: nat, expectedOffset: int, filenames: set<string>, limit: int)
    returns (r: Option<Chunk>)
    ensures var d := DecodeChunk(item);
      r == if d.Some? && ChunkOk(d.value, expectedIndex, expectedOffset, filenames, limit) then d else None
  {
    if !item.Obj? { return None; }
    var index := Get(item, "index");
    if !IntAtLeast(index, 0) || index.n != expectedIndex { return None; }
    var filename := Get(item, "filename");
    if !filename.Str? || !SafeName(filename.s) || !EndsWith(filename.s, ".img.gz") { return None; }
    if filename.s in filenames { return None; }
    var offset, rawSize, compressedSize := Get(item, "offset"), Get(item, "raw_size"), Get(item, "compressed_size");
    if !IntAtLeast(offset, 0) || !IntAtLeast(rawSize, 1) || !IntAtLeast(compressedSize, 1) { return None; }
    if offset.n != expectedOffset { return None; }
    if offset.n % 512 != 0 || rawSize.n % 512 != 0 { return None; }
    if compressedSize.n > limit { return None; }
    var rawCrc32, rawSha256, compressedSha256 := Get(item, "raw_crc32"), Get(item, "raw_sha256"), Get(item, "compressed_sha256");
    if !rawCrc32.Str? || !rawSha256.Str? || !compressedSha256.Str? { return None; }
    if !IsCrc32(rawCrc32.s) || !IsSha256(rawSha256.s) || !IsSha256(compressedSha256.s) { return None; }
    if Get(item, "offset_hex") != Str(Hex(offset.n)) { return None; }
    if Get(item, "raw_size_hex") != Str(Hex(rawSize.n)) { return None; }
    r := DecodeChunk(item);
  }

  /** The chunks read so far decode and continue one another. */
  ghost predicate PrefixOk(items: seq<Json>, limit: int) {
    DecodeChunks(items).Some? && ChunksOk(DecodeChunks(items).value, limit)
  }

  lemma PrefixStep(items: seq<Json>, limit: int)
    requires items != []
    ensures var front, last := items[..|items| - 1], DecodeChunk(items[|items| - 1]);
      PrefixOk(items, limit) <==>
        PrefixOk(front, limit) && last.Some? &&
        (var cs := DecodeChunks(front).value; ChunkOk(last.value, |front|, Total(cs), Names(cs), limit))
  {
    hide DecodeChunk, ChunkOk;
    var front, last := items[..|items| - 1], DecodeChunk(items[|items| - 1]);
    if DecodeChunks(front).Some? && last.Some? {
      var cs := DecodeChunks(front).value;
      DecodedLength(front);
      var all := cs + [last.value];
      assert forall i | 0 <= i < |cs| :: all[..i] == cs[..i] && all[i] == cs[i];
      assert all[..|cs|] == cs;
      if ChunksOk(all, limit) {
        forall i | 0 <= i < |cs| ensures ChunkOk(cs[i], i, Total(cs[..i]), Names(cs[..i]), limit) {
          assert ChunkOk(all[i], i, Total(all[..i]), Names(all[..i]), limit);
        }
        assert ChunkOk(all[|cs|], |cs|, Total(all[..|cs|]), Names(all[..|cs|]), limit);
      }
    }
  }

  lemma {:induction false} DecodedLength(items: seq<Json>)
    requires DecodeChunks(items).Some?
    ensures |DecodeChunks(items).value| == |items|
    decreases |items|
  {
    hide DecodeChunk;
    if items != [] { DecodedLength(items[..|items| - 1]); }
  }

  lemma PrefixShorter(items: seq<Json>, limit: int)
    requires items != [] && PrefixOk(items, limit)
    ensures PrefixOk(items[..|items| - 1], limit)
  {
    hide DecodeChunk, ChunkOk, ChunksOk;
    PrefixStep(items, limit);
  }

  lemma {:induction false} PrefixMonotone(items: seq<Json>, i: nat, limit: int)
    requires i <= |items| && PrefixOk(items, limit)
    ensures PrefixOk(items[..i], limit)
    decreases |items|
  {
    if i < |items| {
      PrefixShorter(items, limit);
      hide PrefixOk;
      PrefixMonotone(items[..|items| - 1], i, limit);
      assert items[..|items| - 1][..i] == items[..i];
    } else {
      assert items[..i] == items;
    }
  }

  /** `validate_manifest`: `ok` when it does not raise. */
  method ValidateManifest(manifest: Json) returns (ok: bool)
    ensures ok <==> Accepted(manifest)
  {
    if Get(manifest, "schema") != Str(SCHEMA) { return false; }
    var image, chunks := Get(manifest, "image"), Get(manifest, "chunks");
    if !image.Obj? || !chunks.List? || chunks.items == [] { return false; }
    var size, sha, block := Get(image, "size"), Get(image, "sha256"), Get(image, "block_size");
    if !IntAtLeast(size, 1) || !sha.Str? || !IsSha256(sha.s) { return false; }
    if !IntAtLeast(block, 1) || block.n != 512 { return false; }
    var limit := Get(manifest, "max_compressed_size");
    if !IntAtLeast(limit, 1) || limit.n >= 0x8000_0000 { return false; }
    ok := ValidateChunks(chunks.items, limit.n, size.n);
    assert Decode(manifest).Some? ==> DecodedChunks(chunks.items) == Decode(manifest).value.chunks;
  }

  ghost function DecodedChunks(items: seq<Json>): seq<Chunk> {
    if DecodeChunks(items).Some? then DecodeChunks(items).value else []
  }

  lemma Append(cs: seq<Chunk>, c: Chunk)
    ensures Names(cs + [c]) == Names(cs) + {c.filename} && Total(cs + [c]) == Total(cs) + c.rawSize
  {
    assert (cs + [c])[..|cs|] == cs;
  }

  lemma DecodedStep(items: seq<Json>, i: nat)
    requires i < |items| && DecodeChunks(items[..i]).Some? && DecodeChunk(items[i]).Some?
    ensures DecodeChunks(items[..i + 1]) == Some(DecodeChunks(items[..i]).value + [DecodeChunk(items[i]).value])
  {
    hide DecodeChunk;
    assert items[..i + 1] == items[..i] + [items[i]];
    DecodeLast(items[..i], items[i]);
  }

  lemma PrefixNext(items: seq<Json>, i: nat, limit: int)
    requires i < |items| && PrefixOk(items[..i], limit)
    ensures DecodeChunks(items[..i]).Some?
    ensures var cs, c := DecodeChunks(items[..i]).value, DecodeChunk(items[i]);
      PrefixOk(items[..i + 1], limit) <==> c.Some? && ChunkOk(c.value, i, Total(cs), Names(cs), limit)
  {
    hide DecodeChunk, ChunkOk;
    assert items[..i + 1][..i] == items[..i];
    PrefixStep(items[..i + 1], limit);
  }

  lemma NothingRead(limit: int)
    ensures PrefixOk([], limit) && DecodeChunks([]) == Some([]) && Total([]) == 0 && Names([]) == {}
  {
  }

  method ValidateChunks(items: seq<Json>, limit: int, size: int) returns (ok: bool)
    ensures ok <==> PrefixOk(items, limit) && Total(DecodeChunks(items).value) == size
  {
    hide DecodeChunk, ChunkOk, ChunksOk, PrefixOk, DecodeChunks, Names, Total;
    var expectedOffset := 0;
    var filenames: set<string> := {};
    ghost var cs: seq<Chunk> := [];
    var i := 0;
    NothingRead(limit);
    assert items[..0] == [];
    while i < |items|
      invariant i <= |items| && PrefixOk(items[..i], limit) && DecodeChunks(items[..i]) == Some(cs)
      invariant expectedOffset == Total(cs) && filenames == Names(cs)
    {
      PrefixNext(items, i, limit);
      var r := CheckChunk(items[i], i, expectedOffset, filenames, limit);
      if r.None? {
        if PrefixOk(items, limit) { PrefixMonotone(items, i + 1, limit); }
        return false;
      }
      DecodedStep(items, i);
      Append(cs, r.value);
      filenames := filenames + {r.value.filename};
      expectedOffset := expectedOffset + r.value.rawSize;
      cs := cs + [r.value];
      i := i + 1;
    }
    assert items[..i] == items;
    ok := expectedOffset == size;
  }
}
