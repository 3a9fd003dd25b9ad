/**
  Flashing of scripts/flash_starfive_sd.py: the plan of an accepted manifest
  writes every block of the image once and nothing else, and executing it with
  the prepared files leaves the image at the start of the card.
*/
module SdFlash {
  import opened Common
  import opened Bytes
  import opened Numerals
  import opened SdManifest
  import opened SdPrepare
  import opened SdChunks

  // --- the plan ---

  /** The U-Boot commands, with their numbers still in hexadecimal. */
  datatype Command =
    | Tftpboot(file: string)
    | DumpHeader
    | Gzwrite(device: nat, offset: string, size: string)

  function PlanFor(c: Chunk, device: nat): seq<Command>
    requires c.offset >= 0 && c.rawSize >= 0
  {
    [Tftpboot(c.filename), DumpHeader, Gzwrite(device, Digits(c.offset, 16), Digits(c.rawSize, 16))]
  }

  /** The byte ranges a plan writes, as U-Boot reads the numbers. */
  function Writes(plan: seq<Command>): seq<(nat, nat)> {
    if plan == [] then []
    else
      var front, last := Writes(plan[..|plan| - 1]), plan[|plan| - 1];
      if last.Gzwrite? then front + [(Value(last.offset, 16), Value(last.size, 16))] else front
  }

  predicate Natural(c: Chunk) { c.offset >= 0 && c.rawSize >= 1 }

  predicate AllNatural(cs: seq<Chunk>) { forall i | 0 <= i < |cs| :: Natural(cs[i]) }

  function Extent(c: Chunk): (nat, nat)
    requires Natural(c)
  {
    (c.offset, c.rawSize)
  }

  lemma WritesFor(plan: seq<Command>, c: Chunk, device: nat)
    requires Natural(c)
    ensures Writes(plan + PlanFor(c, device)) == Writes(plan) + [Extent(c)]
  {
    hide Digits, Value;
    var p := PlanFor(c, device);
    var all := plan + p;
    DigitsRoundTrip(c.offset, 16);
    DigitsRoundTrip(c.rawSize, 16);
    var two, one := all[..|all| - 1], all[..|all| - 2];
    assert two[..|two| - 1] == one && one[..|one| - 1] == plan;
    assert all[|all| - 1] == p[2] && two[|two| - 1] == p[1] && one[|one| - 1] == p[0];
    assert Writes(one) == Writes(plan);
    assert Writes(two) == Writes(one);
  }

  /** Chunk `i` is downloaded, its header shown, and written to the selected device. */
  predicate PlanOf(commands: seq<Command>, cs: seq<Chunk>, device: nat, i: nat)
    requires i < |cs|
  {
    && 3 * i + 2 < |commands|
    && commands[3 * i] == Tftpboot(cs[i].filename) && commands[3 * i + 1] == DumpHeader
    && commands[3 * i + 2].Gzwrite? && commands[3 * i + 2].device == device
  }

  /** `build_flash_plan` */
  method BuildFlashPlan(cs: seq<Chunk>, device: nat) returns (commands: seq<Command>)
    requires AllNatural(cs)
    ensures |Writes(commands)| == |cs| && forall i | 0 <= i < |cs| :: Writes(commands)[i] == Extent(cs[i])
    ensures |commands| == 3 * |cs|
    ensures forall i | 0 <= i < |cs| :: PlanOf(commands, cs, device, i)
  {
    hide Digits, Value;
    commands := [];
    var k := 0;
    while k < |cs|
      invariant k <= |cs| && |commands| == 3 * k && |Writes(commands)| == k
      invariant forall i | 0 <= i < k :: Writes(commands)[i] == Extent(cs[i])
      invariant forall i | 0 <= i < k :: PlanOf(commands, cs, device, i)
    {
      assert Natural(cs[k]);
      WritesFor(commands, cs[k], device);
      ghost var before := commands;
      commands := commands + PlanFor(cs[k], device);
      forall i | 0 <= i <= k ensures PlanOf(commands, cs, device, i) {
        if i < k { assert PlanOf(before, cs, device, i); }
      }
      k := k + 1;
    }
  }

  // --- an accepted manifest's extents ---

  lemma ChunkFacts(m: Manifest, i: nat)
    requires Sound(m) && i < |m.chunks|
    ensures var c := m.chunks[i];
      Natural(c) && c.offset == Total(m.chunks[..i]) && c.offset % BLOCK_SIZE == 0 && c.rawSize % BLOCK_SIZE == 0
  {
    hide ChunkOk;
    assert ChunkOk(m.chunks[i], i, Total(m.chunks[..i]), Names(m.chunks[..i]), m.maxCompressedSize);
    Unpack(m.chunks[i], i, Total(m.chunks[..i]), Names(m.chunks[..i]), m.maxCompressedSize);
  }

  lemma Unpack(c: Chunk, index: nat, offset: int, names: set<string>, limit: int)
    requires ChunkOk(c, index, offset, names, limit)
    ensures Natural(c) && c.offset == offset && c.offset % BLOCK_SIZE == 0 && c.rawSize % BLOCK_SIZE == 0
    ensures c.filename !in names
  {
  }

  lemma {:induction false} Ascending(m: Manifest, i: nat, j: nat)
    requires Sound(m) && i < j <= |m.chunks|
    ensures Natural(m.chunks[i]) && m.chunks[i].offset + m.chunks[i].rawSize <= Total(m.chunks[..j])
    decreases j
  {
    hide Sound;
    ChunkFacts(m, i);
    assert m.chunks[..j][..j - 1] == m.chunks[..j - 1];
    if i < j - 1 {
      Ascending(m, i, j - 1);
      ChunkFacts(m, j - 1);
    }
  }

  /** Two writes of the plan never touch the same byte: the earlier ends where or before the later begins. */
  lemma ExtentsDisjoint(m: Manifest, i: nat, j: nat)
    requires Sound(m) && i < j < |m.chunks|
    ensures Natural(m.chunks[i]) && Natural(m.chunks[j])
    ensures Extent(m.chunks[i]).0 + Extent(m.chunks[i]).1 <= Extent(m.chunks[j]).0
  {
    hide Sound;
    Ascending(m, i, j);
    ChunkFacts(m, j);
  }

  ghost predicate Covers(c: Chunk, a: nat) { c.offset <= a < c.offset + c.rawSize }

  lemma {:induction false} CoveredBelow(m: Manifest, j: nat, a: nat)
    requires Sound(m) && j <= |m.chunks| && a < Total(m.chunks[..j])
    ensures exists i | 0 <= i < j :: Covers(m.chunks[i], a)
    decreases j
  {
    hide Sound;
    assert j > 0;
    assert m.chunks[..j][..j - 1] == m.chunks[..j - 1];
    ChunkFacts(m, j - 1);
    if a < Total(m.chunks[..j - 1]) {
      CoveredBelow(m, j - 1, a);
    } else {
      assert Covers(m.chunks[j - 1], a);
    }
  }

  /** The writes cover exactly `[0, size)`: every address in it, and none beyond. */
  lemma CoverExactly(m: Manifest, a: nat)
    requires Sound(m)
    ensures a < m.size <==> exists i | 0 <= i < |m.chunks| :: Covers(m.chunks[i], a)
  {
    assert m.chunks[..|m.chunks|] == m.chunks;
    hide ChunksOk, HeadOk;
    if a < m.size { CoveredBelow(m, |m.chunks|, a); }
    forall i | 0 <= i < |m.chunks| && Covers(m.chunks[i], a) ensures a < m.size { Ascending(m, i, |m.chunks|); }
  }

  // --- executing it ---

  /** A chunk's file downloads, decompresses, and matches the manifest. */
  ghost predicate Good(t: Tools, c: Chunk, files: map<string, seq<byte>>) {
    && c.filename in files && |files[c.filename]| == c.compressedSize && HasMagic(files[c.filename])
    && t.gunzip(files[c.filename]).Some?
    && var raw := t.gunzip(files[c.filename]).value; |raw| == c.rawSize && Crc32Text(t.crc32(raw)) == c.rawCrc32
  }

  ghost function RawOf(t: Tools, c: Chunk, files: map<string, seq<byte>>): seq<byte> {
    if Good(t, c, files) then t.gunzip(files[c.filename]).value else []
  }

  /** The decompressed chunks, end to end. */
  ghost function Image(t: Tools, cs: seq<Chunk>, files: map<string, seq<byte>>): seq<byte> {
    if cs == [] then [] else Image(t, cs[..|cs| - 1], files) + RawOf(t, cs[|cs| - 1], files)
  }

  ghost predicate AllGood(t: Tools, cs: seq<Chunk>, files: map<string, seq<byte>>) {
    forall i | 0 <= i < |cs| :: Good(t, cs[i], files)
  }

  lemma {:induction false} ImageLength(t: Tools, cs: seq<Chunk>, files: map<string, seq<byte>>)
    requires AllGood(t, cs, files)
    ensures |Image(t, cs, files)| == Total(cs)
    decreases |cs|
  {
    if cs != [] {
      var front, last := cs[..|cs| - 1], cs[|cs| - 1];
      assert forall i | 0 <= i < |front| :: front[i] == cs[i];
      ImageLength(t, front, files);
      assert Good(t, last, files);
    }
  }

  /** U-Boot's `gzwrite`: decompress, store at most `size` bytes at `offset`, report the byte count and CRC. */
  method RunGzwrite(t: Tools, card: array<byte>, file: seq<byte>, offset: nat, size: nat)
    returns (report: Option<(nat, string)>)
    requires offset + size <= card.Length
    modifies card
    ensures var raw := t.gunzip(file);
      report == if raw.Some? then Some((|raw.value|, Crc32Text(t.crc32(raw.value)))) else None
    ensures card[..offset] == old(card[..offset]) && card[offset + size..] == old(card[offset + size..])
    ensures report.Some? && |t.gunzip(file).value| == size ==>
      card[..] == Put(old(card[..]), offset, t.gunzip(file).value)
  {
    hide Crc32Text;
    var raw := t.gunzip(file);
    if raw.None? { return None; }
    var n := if |raw.value| <= size then |raw.value| else size;
    forall i | 0 <= i < n { card[offset + i] := raw.value[i]; }
    report := Some((|raw.value|, Crc32Text(t.crc32(raw.value))));
  }

  lemma PutBehind(m: seq<byte>, a: seq<byte>, b: seq<byte>)
    requires |a| + |b| <= |m|
    ensures Put(Put(m, 0, a), |a|, b) == Put(m, 0, a + b)
  {
  }

  /** One chunk of the write loop. */
  method FlashChunk(t: Tools, card: array<byte>, c: Chunk, files: map<string, seq<byte>>) returns (ok: bool)
    requires Natural(c) && c.offset + c.rawSize <= card.Length
    modifies card
    ensures ok <==> Good(t, c, files)
    ensures ok ==> card[..] == Put(old(card[..]), c.offset, RawOf(t, c, files))
    ensures card[c.offset + c.rawSize..] == old(card[c.offset + c.rawSize..])
  {
    hide Crc32Text;
    if c.filename !in files || |files[c.filename]| != c.compressedSize { return false; }
    if !HasMagic(files[c.filename]) { return false; }
    var report := RunGzwrite(t, card, files[c.filename], c.offset, c.rawSize);
    if report.None? { return false; }
    ok := report.value.0 == c.rawSize && report.value.1 == c.rawCrc32;
  }

  /** The write loop of `run_board_session` over a validated manifest and a large enough card. */
  method Flash(t: Tools, card: array<byte>, m: Manifest, files: map<string, seq<byte>>) returns (ok: bool)
    requires Sound(m) && m.size <= card.Length
    modifies card
    ensures ok <==> AllGood(t, m.chunks, files)
    ensures ok ==> |Image(t, m.chunks, files)| == m.size && card[..] == Put(old(card[..]), 0, Image(t, m.chunks, files))
    ensures card[m.size..] == old(card[m.size..])
  {
    hide Sound, Good, RawOf;
    ghost var was := card[..];
    var i := 0;
    assert m.chunks[..0] == [];
    Fits(m, 0);
    while i < |m.chunks|
      invariant i <= |m.chunks| && AllGood(t, m.chunks[..i], files)
      invariant |Image(t, m.chunks[..i], files)| <= m.size
      invariant card[..] == Put(was, 0, Image(t, m.chunks[..i], files))
    {
      var c := m.chunks[i];
      ghost var done := m.chunks[..i];
      ImageLength(t, done, files);
      Fits(m, i);
      Tail(was, Image(t, done, files), m.size);
      ghost var now := card[..];
      assert m.chunks[..i + 1][..i] == done;
      ok := FlashChunk(t, card, c, files);
      SameTail(now, card[..], c.offset + c.rawSize, m.size);
      if !ok { return; }
      assert AllGood(t, m.chunks[..i + 1], files);
      PutBehind(was, Image(t, done, files), RawOf(t, c, files));
      ImageLength(t, m.chunks[..i + 1], files);
      i := i + 1;
    }
    assert m.chunks[..i] == m.chunks;
    ImageLength(t, m.chunks, files);
    WholeSize(m);
    Tail(was, Image(t, m.chunks, files), m.size);
    ok := true;
  }

  lemma WholeSize(m: Manifest)
    requires Sound(m)
    ensures Total(m.chunks) == m.size
  {
  }

  lemma Tail(was: seq<byte>, a: seq<byte>, n: nat)
    requires |a| <= n <= |was|
    ensures Put(was, 0, a)[n..] == was[n..]
  {
  }

  lemma SameTail(x: seq<byte>, y: seq<byte>, k: nat, n: nat)
    requires |x| == |y| && k <= n <= |x| && x[k..] == y[k..]
    ensures x[n..] == y[n..]
  {
    assert x[n..] == x[k..][n - k..] && y[n..] == y[k..][n - k..];
  }

  /** Chunk `i` follows the chunks before it and ends inside the image. */
  lemma Fits(m: Manifest, i: nat)
    requires Sound(m) && i <= |m.chunks|
    ensures m.size >= 1
    ensures i < |m.chunks| ==> Natural(m.chunks[i]) && m.chunks[i].offset == Total(m.chunks[..i])
    ensures i < |m.chunks| ==> m.chunks[i].offset + m.chunks[i].rawSize <= m.size
  {
    if i < |m.chunks| {
      ChunkFacts(m, i);
      assert m.chunks[..|m.chunks|] == m.chunks;
      Ascending(m, i, |m.chunks|);
    }
  }

  // --- prepared files ---

  lemma PieceIsGood(t: Tools, prefix: string, pieces: seq<seq<byte>>, files: map<string, seq<byte>>, i: nat)
    requires Lawful(t) && i < |pieces| && files == Files(t, prefix, pieces)
    ensures var c := DescribeAll(t, prefix, pieces)[i]; Good(t, c, files) && RawOf(t, c, files) == pieces[i]
  {
    hide FileName, Files, DescribeAll, Crc32Text, Hex;
    FilesHold(t, prefix, pieces, i);
    Described(t, prefix, pieces, i);
  }

  lemma {:induction false} PiecesAreImage(
    t: Tools, prefix: string, pieces: seq<seq<byte>>, files: map<string, seq<byte>>, i: nat)
    requires Lawful(t) && i <= |pieces| && files == Files(t, prefix, pieces)
    ensures Image(t, DescribeAll(t, prefix, pieces)[..i], files) == Cat(pieces[..i])
    decreases i
  {
    hide Files, DescribeAll, Good, RawOf, Lawful;
    var cs := DescribeAll(t, prefix, pieces);
    if i > 0 {
      PiecesAreImage(t, prefix, pieces, files, i - 1);
      PieceIsGood(t, prefix, pieces, files, i - 1);
      assert cs[..i][..i - 1] == cs[..i - 1] && pieces[..i][..i - 1] == pieces[..i - 1];
    }
  }

  /**
    The files and manifest that `prepare_image` emits flash without an error,
    and what the write loop then puts on the card is the source image.
  */
  lemma FlashedIsSource(t: Tools, data: seq<byte>, prefix: string, chunkSize: nat, limit: nat)
    requires Lawful(t) && Arguments(prefix, chunkSize, limit) && |data| % BLOCK_SIZE == 0
    ensures var m, files := ManifestOf(t, prefix, data, chunkSize, limit), Files(t, prefix, Split(data, chunkSize));
      AllGood(t, m.chunks, files) && Image(t, m.chunks, files) == data
  {
    hide Files, DescribeAll, Good, RawOf, Split, Cat, Lawful;
    var pieces := Split(data, chunkSize);
    var cs, files := DescribeAll(t, prefix, pieces), Files(t, prefix, pieces);
    forall i | 0 <= i < |cs| ensures Good(t, cs[i], files) { PieceIsGood(t, prefix, pieces, files, i); }
    PiecesAreImage(t, prefix, pieces, files, |pieces|);
    assert cs[..|pieces|] == cs && pieces[..|pieces|] == pieces;
    SplitTiles(data, chunkSize);
  }

  /**
    Prepare, validate, flash: the card ends up holding the source image at its
    start and what it held before behind it, exactly when the preparer accepts.
  */
  method PrepareThenFlash(t: Tools, data: seq<byte>, prefix: string, chunkSize: int, limit: int, card: array<byte>)
    returns (done: bool)
    requires Lawful(t) && |data| <= card.Length
    modifies card
    ensures done <==>
      && Arguments(prefix, chunkSize, limit) && data != [] && |data| % BLOCK_SIZE == 0
      && Small(t, Split(data, chunkSize), limit)
    ensures card[..] == if done then Put(old(card[..]), 0, data) else old(card[..])
  {
    hide Files, DescribeAll, Split, Small, Sound, Good, Encode, Decode, Image, Lawful;
    var r := PrepareImage(t, data, prefix, chunkSize, limit);
    if r.None? { return false; }
    EmittedIsAccepted(t, data, prefix, chunkSize, limit);
    ManifestRoundTrip(ManifestOf(t, prefix, data, chunkSize, limit));
    FlashedIsSource(t, data, prefix, chunkSize, limit);
    var accepted := ValidateManifest(r.value.0);
    forall i | 0 <= i < |Split(data, chunkSize)|
      ensures Verified(t, DescribeAll(t, prefix, Split(data, chunkSize))[i], r.value.1)
    {
      PreparedVerifies(t, prefix, Split(data, chunkSize), i);
    }
    var verified := VerifyLocalChunks(t, Decode(r.value.0).value.chunks, r.value.1);
    if !accepted || !verified { return false; }
    done := Flash(t, card, Decode(r.value.0).value, r.value.1);
  }
}
