/**
  What the emitted manifest says of every chunk, and the check of the prepared
  files that scripts/flash_starfive_sd.py makes before it talks to the board.
*/
module SdChunks {
  import opened Common
  import opened Bytes
  import opened Numerals
  import opened Quotients
  import opened SdManifest
  import opened SdPrepare

  // --- where the cuts are ---

  /** Chunk `i` of an image is its bytes from `i * n` up to the next cut or the end. */
  function Piece(data: seq<byte>, n: nat, i: nat): seq<byte>
    requires i * n <= |data|
  {
    UpTo(data[i * n..], n)
  }

  /** At most the first `n` bytes. */
  function UpTo(data: seq<byte>, n: nat): seq<byte> {
    if n <= |data| then data[..n] else data
  }

  lemma {:induction false} PiecesAre(data: seq<byte>, n: nat, i: nat)
    requires n > 0 && i * n < |data|
    ensures i < |Split(data, n)| && Split(data, n)[i] == Piece(data, n, i) && Length(Split(data, n)[..i]) == i * n
    decreases i
  {
    if i == 0 {
      assert Split(data, n)[..0] == [];
    } else {
      hide Split, Piece, Length;
      NextCut(i, n);
      PieceShift(data, n, i);
      SplitFront(data, n);
      PiecesAre(data[n..], n, i - 1);
      Behind(data[..n], Split(data[n..], n), i);
    }
  }

  lemma PieceShift(data: seq<byte>, n: nat, i: nat)
    requires i > 0 && n > 0 && i * n < |data|
    ensures n < |data| && (i - 1) * n < |data[n..]| && Piece(data, n, i) == Piece(data[n..], n, i - 1)
  {
    hide UpTo;
    NextCut(i, n);
    DropTwice(data, n, (i - 1) * n);
  }

  lemma DropTwice(data: seq<byte>, n: nat, m: nat)
    requires n + m <= |data|
    ensures data[n..][m..] == data[m + n..]
  {
  }

  /** One more piece in front moves the others back. */
  lemma Behind(first: seq<byte>, rest: seq<seq<byte>>, i: nat)
    requires 0 < i <= |rest|
    ensures ([first] + rest)[i] == rest[i - 1] && Length(([first] + rest)[..i]) == |first| + Length(rest[..i - 1])
  {
    assert ([first] + rest)[..i] == [first] + rest[..i - 1];
    LengthFront(first, rest[..i - 1]);
  }

  lemma NextCut(i: nat, n: nat)
    requires i > 0
    ensures i * n == (i - 1) * n + n
  {
  }

  lemma {:induction false} LengthFront(first: seq<byte>, rest: seq<seq<byte>>)
    ensures Length([first] + rest) == |first| + Length(rest)
    decreases |rest|
  {
    if rest != [] {
      var all, front := [first] + rest, rest[..|rest| - 1];
      assert all[..|all| - 1] == [first] + front;
      LengthFront(first, front);
    }
  }

  /** And there are as many as it takes. */
  lemma {:induction false} PieceCount(data: seq<byte>, n: nat, i: nat)
    requires n > 0
    ensures i < |Split(data, n)| <==> i * n < |data|
    decreases i
  {
    if i * n < |data| {
      PiecesAre(data, n, i);
    } else if i > 0 {
      NextCut(i, n);
      if |data| > n {
        PieceCount(data[n..], n, i - 1);
      }
    }
  }

  // --- the manifest, field by field ---

  lemma EmittedHead(t: Tools, prefix: string, data: seq<byte>, n: nat, limit: nat)
    requires n > 0
    ensures var j := Encode(ManifestOf(t, prefix, data, n, limit));
      && Get(j, "schema") == Str("whusp-starfive-sd-image-v1") && Get(j, "max_compressed_size") == Int(limit)
      && Get(Get(j, "image"), "size") == Int(|data|) && Get(Get(j, "image"), "sha256") == Str(t.sha256(data))
      && Get(Get(j, "image"), "block_size") == Int(512)
      && Get(j, "chunks").List? && |Get(j, "chunks").items| == |Split(data, n)|
  {
    hide DescribeAll, Split, EncodeChunk;
  }

  /** A chunk's JSON object gives its place in the image, and the sizes and digests of its raw and compressed bytes. */
  ghost predicate Says(c: Json, t: Tools, prefix: string, i: nat, offset: nat, raw: seq<byte>) {
    && Get(c, "index") == Int(i) && Get(c, "filename") == Str(prefix + "-part" + Pad(Digits(i, 10), 3) + ".img.gz")
    && Get(c, "offset") == Int(offset) && Get(c, "offset_hex") == Str("0x" + Digits(offset, 16))
    && Get(c, "raw_size") == Int(|raw|) && Get(c, "raw_size_hex") == Str("0x" + Digits(|raw|, 16))
    && Get(c, "raw_crc32") == Str("0x" + Pad(Digits(t.crc32(raw), 16), 8)) && Get(c, "raw_sha256") == Str(t.sha256(raw))
    && Get(c, "compressed_size") == Int(|t.gzip(raw)|) && Get(c, "compressed_sha256") == Str(t.sha256(t.gzip(raw)))
  }

  lemma DescribedSays(t: Tools, prefix: string, i: nat, offset: nat, raw: seq<byte>)
    ensures Says(EncodeChunk(Describe(t, prefix, i, offset, raw)), t, prefix, i, offset, raw)
  {
    hide Digits, Pad;
  }

  /** Chunk `i` of an emitted manifest speaks of the bytes from `i` times the chunk size on. */
  lemma EmittedChunk(t: Tools, prefix: string, data: seq<byte>, n: nat, limit: nat, i: nat)
    requires n > 0 && i * n < |data|
    ensures var chunks := Get(Encode(ManifestOf(t, prefix, data, n, limit)), "chunks");
      chunks.List? && i < |chunks.items| && Says(chunks.items[i], t, prefix, i, i * n, Piece(data, n, i))
  {
    EmittedHead(t, prefix, data, n, limit);
    PiecesAre(data, n, i);
    hide DescribeAll, Split, Describe, EncodeChunk, Says, Piece;
    Described(t, prefix, Split(data, n), i);
    DescribedSays(t, prefix, i, i * n, Piece(data, n, i));
  }

  // --- before flashing ---

  /** The file of a chunk is there, has the recorded size and digest, and starts like a gzip member. */
  predicate Verified(t: Tools, c: Chunk, files: map<string, seq<byte>>) {
    && c.filename in files && |files[c.filename]| == c.compressedSize
    && [0x1f, 0x8b, 0x08] <= files[c.filename] && t.sha256(files[c.filename]) == c.compressedSha256
  }

  /** `verify_local_chunks` */
  method VerifyLocalChunks(t: Tools, cs: seq<Chunk>, files: map<string, seq<byte>>) returns (ok: bool)
    ensures ok <==> forall i | 0 <= i < |cs| :: Verified(t, cs[i], files)
  {
    var i := 0;
    while i < |cs|
      invariant i <= |cs| && forall k | 0 <= k < i :: Verified(t, cs[k], files)
    {
      var c := cs[i];
      if c.filename !in files { return false; }
      var file := files[c.filename];
      if |file| != c.compressedSize { return false; }
      if |file| < 3 || file[..3] != [0x1f, 0x8b, 0x08] { return false; }
      if t.sha256(file) != c.compressedSha256 { return false; }
      i := i + 1;
    }
    ok := true;
  }

  lemma {:induction false} FilesHold(t: Tools, prefix: string, pieces: seq<seq<byte>>, i: nat)
    requires i < |pieces|
    ensures FileName(prefix, i) in Files(t, prefix, pieces)
    ensures Files(t, prefix, pieces)[FileName(prefix, i)] == t.gzip(pieces[i])
    decreases |pieces|
  {
    hide FileName;
    var front := pieces[..|pieces| - 1];
    if i < |front| {
      FilesHold(t, prefix, front, i);
      FileNameInjective(prefix, i, |front|);
    }
  }

  /** The files the preparer wrote pass. */
  lemma PreparedVerifies(t: Tools, prefix: string, pieces: seq<seq<byte>>, i: nat)
    requires Lawful(t) && i < |pieces|
    ensures Verified(t, DescribeAll(t, prefix, pieces)[i], Files(t, prefix, pieces))
  {
    hide FileName, Files, DescribeAll, Crc32Text, Hex;
    FilesHold(t, prefix, pieces, i);
    Described(t, prefix, pieces, i);
  }
}
