/**
  The in-place construction of the vDSO image: `build_image` and its `write_*`
  helpers on a byte array, proved to produce `VdsoImage.Image`, and the later
  patch of the wall-clock word.
*/
module VdsoBuild {
  import opened Common
  import opened Bytes
  import opened SysvHash
  import opened VdsoImage

  /** The buffer holds `done`, and zeros behind it. */
  ghost predicate Built(image: array<byte>, done: seq<byte>)
    reads image
  {
    |done| <= image.Length && image[..] == done + Zeros(image.Length - |done|)
  }

  /** `copy_from_slice` into a buffer. */
  method Store(image: array<byte>, off: nat, bytes: seq<byte>)
    requires off + |bytes| <= image.Length
    modifies image
    ensures image[..] == Put(old(image[..]), off, bytes)
  {
    forall i | 0 <= i < |bytes| {
      image[off + i] := bytes[i];
    }
  }

  lemma ZerosSplit(m: nat, n: nat)
    ensures Zeros(m + n) == Zeros(m) + Zeros(n)
  {
  }

  lemma PutExtends(done: seq<byte>, n: nat, bytes: seq<byte>)
    requires |bytes| <= n
    ensures Put(done + Zeros(n), |done|, bytes) == (done + bytes) + Zeros(n - |bytes|)
  {
  }

  /** Store field `k` of a record that starts behind `done`. */
  method WriteField(image: array<byte>, off: nat, bytes: seq<byte>, ghost done: seq<byte>, ghost f: seq<seq<byte>>, ghost k: nat)
    requires k < |f| && f[k] == bytes && off == |done| + At(f, k) && off + |bytes| <= image.Length
    requires Built(image, done + Cat(f[..k]))
    modifies image
    ensures Built(image, done + Cat(f[..k + 1]))
  {
    CatStep(f, k);
    ghost var before := done + Cat(f[..k]);
    PutExtends(before, image.Length - |before|, bytes);
    Store(image, off, bytes);
    assert before + bytes == done + Cat(f[..k + 1]);
  }

  /** A field of zeros is already there. */
  lemma Gap(image: array<byte>, done: seq<byte>, f: seq<seq<byte>>, k: nat, n: nat)
    requires k < |f| && f[k] == Zeros(n) && |done| + At(f, k) + n <= image.Length
    requires Built(image, done + Cat(f[..k]))
    ensures Built(image, done + Cat(f[..k + 1]))
  {
    CatStep(f, k);
    var before := done + Cat(f[..k]);
    ZerosSplit(n, image.Length - |before| - n);
    assert before + Zeros(n) == done + Cat(f[..k + 1]);
  }

  lemma Start(done: seq<byte>, f: seq<seq<byte>>)
    ensures done + Cat(f[..0]) == done && f[..|f|] == f
  {
  }

  method WriteSymbol(image: array<byte>, off: nat, name: nat, value: nat, size: nat, ghost done: seq<byte>)
    requires Built(image, done) && off == |done| && off + 24 <= image.Length
    modifies image
    ensures Built(image, done + SymbolBytes(name, value, size))
  {
    hide Built, Cat, At, LE;
    ghost var f := Symbol(name, value, size);
    SymbolSize(name, value, size);
    Start(done, f);
    WriteField(image, off, LE(name, 4), done, f, 0);
    WriteField(image, off + 4, [GLOBAL_FUNC], done, f, 1);
    WriteField(image, off + 5, [0], done, f, 2);
    WriteField(image, off + 6, LE(1, 2), done, f, 3);
    WriteField(image, off + 8, LE(value, 8), done, f, 4);
    WriteField(image, off + 16, LE(size, 8), done, f, 5);
  }

  method WriteElfHeader(image: array<byte>, machine: nat)
    requires Built(image, []) && image.Length >= 64
    modifies image
    ensures Built(image, ElfHeaderBytes(machine))
  {
    hide Built, Cat, At, LE, Zeros;
    ghost var f := ElfHeader(machine);
    HeaderSize(machine);
    Start([], f);
    WriteField(image, 0, [0x7f, 0x45, 0x4c, 0x46, 2, 1, 1], [], f, 0);
    Gap(image, [], f, 1, 9);
    WriteField(image, 16, LE(ET_DYN, 2), [], f, 2);
    WriteField(image, 18, LE(machine, 2), [], f, 3);
    WriteField(image, 20, LE(EV_CURRENT, 4), [], f, 4);
    Gap(image, [], f, 5, 8);
    WriteField(image, 32, LE(PHOFF, 8), [], f, 6);
    Gap(image, [], f, 7, 12);
    WriteField(image, 52, LE(64, 2), [], f, 8);
    WriteField(image, 54, LE(PHENTSIZE, 2), [], f, 9);
    WriteField(image, 56, LE(PHNUM, 2), [], f, 10);
    Gap(image, [], f, 11, 6);
    Whole([], f);
  }

  lemma Whole(done: seq<byte>, f: seq<seq<byte>>)
    ensures [] + Cat(f) == Cat(f) && done + Cat(f[..|f|]) == done + Cat(f)
  {
    hide Cat;
    assert f[..|f|] == f;
  }

  method WriteProgramHeader(
    image: array<byte>, off: nat, kind: nat, flags: nat, offset: nat, size: nat, align: nat, ghost done: seq<byte>)
    requires Built(image, done) && off == |done| && off + 56 <= image.Length
    modifies image
    ensures Built(image, done + ProgramHeaderBytes(kind, flags, offset, size, align))
  {
    hide Built, Cat, At, LE, Zeros;
    ghost var f := ProgramHeader(kind, flags, offset, offset, size, size, align);
    ProgramHeaderSize(kind, flags, offset, offset, size, size, align);
    Start(done, f);
    WriteField(image, off, LE(kind, 4), done, f, 0);
    WriteField(image, off + 4, LE(flags, 4), done, f, 1);
    WriteField(image, off + 8, LE(offset, 8), done, f, 2);
    WriteField(image, off + 16, LE(offset, 8), done, f, 3);
    Gap(image, done, f, 4, 8);
    WriteField(image, off + 32, LE(size, 8), done, f, 5);
    WriteField(image, off + 40, LE(size, 8), done, f, 6);
    WriteField(image, off + 48, LE(align, 8), done, f, 7);
  }

  lemma {:induction false} DynamicStep(entries: seq<(nat, nat)>, i: nat)
    requires i < |entries|
    ensures DynamicBytes(entries[..i + 1]) == DynamicBytes(entries[..i]) + LE(entries[i].0, 8) + LE(entries[i].1, 8)
    decreases i
  {
    hide LE;
    var e := entries[0];
    if i > 0 {
      var rest := entries[1..];
      DynamicStep(rest, i - 1);
      assert entries[..i + 1][1..] == rest[..i] && entries[..i][1..] == rest[..i - 1];
      var head := LE(e.0, 8) + LE(e.1, 8);
      var x, y, z := DynamicBytes(rest[..i - 1]), LE(entries[i].0, 8), LE(entries[i].1, 8);
      assert DynamicBytes(entries[..i + 1]) == head + (x + y + z);
      assert head + (x + y + z) == (head + x) + y + z;
    } else {
      assert entries[..1][1..] == [];
      assert DynamicBytes(entries[..1]) == LE(e.0, 8) + LE(e.1, 8) + [];
    }
  }

  method WriteDynamicEntries(image: array<byte>, off: nat, entries: seq<(nat, nat)>, ghost done: seq<byte>)
    requires Built(image, done) && off == |done| && off + 16 * |entries| <= image.Length
    modifies image
    ensures Built(image, done + DynamicBytes(entries))
  {
    var at, i := off, 0;
    assert done + DynamicBytes(entries[..0]) == done;
    while i < |entries|
      invariant i <= |entries| && at == off + 16 * i
      invariant Built(image, done + DynamicBytes(entries[..i]))
    {
      WriteDynamicEntry(image, at, entries, i, done);
      at := at + 16;
      i := i + 1;
    }
    assert entries[..i] == entries;
  }

  method WriteDynamicEntry(image: array<byte>, at: nat, entries: seq<(nat, nat)>, i: nat, ghost done: seq<byte>)
    requires i < |entries| && at == |done| + 16 * i && at + 16 <= image.Length
    requires Built(image, done + DynamicBytes(entries[..i]))
    modifies image
    ensures Built(image, done + DynamicBytes(entries[..i + 1]))
  {
    hide Built, DynamicBytes, LE;
    ghost var f := [LE(entries[i].0, 8), LE(entries[i].1, 8)];
    ghost var before := done + DynamicBytes(entries[..i]);
    Pair(f[0], f[1], before);
    DynamicStep(entries, i);
    WriteField(image, at, LE(entries[i].0, 8), before, f, 0);
    WriteField(image, at + 8, LE(entries[i].1, 8), before, f, 1);
    assert before + f[0] + f[1] == done + DynamicBytes(entries[..i + 1]);
  }

  lemma Pair(a: seq<byte>, b: seq<byte>, done: seq<byte>)
    ensures var f := [a, b]; done + Cat(f[..0]) == done && done + Cat(f[..2]) == done + a + b && At(f, 0) == 0 && At(f, 1) == |a|
  {
    var f := [a, b];
    assert f[..2] == f && f[..1] == [a];
    assert Cat([a]) == a;
    assert Cat(f) == a + b;
  }

  method WriteSysvHash(image: array<byte>, off: nat, ghost done: seq<byte>)
    requires Built(image, done) && off == |done| && off + 28 <= image.Length
    modifies image
    ensures Built(image, done + HashBytes())
  {
    hide Built, Cat, At, LE;
    ghost var f := HashTable();
    HashSizes();
    Start(done, f);
    WriteField(image, off, LE(1, 4), done, f, 0);
    WriteField(image, off + 4, LE(4, 4), done, f, 1);
    WriteField(image, off + 8, LE(1, 4), done, f, 2);
    WriteField(image, off + 12, LE(0, 4), done, f, 3);
    WriteField(image, off + 16, LE(2, 4), done, f, 4);
    WriteField(image, off + 20, LE(3, 4), done, f, 5);
    WriteField(image, off + 24, LE(0, 4), done, f, 6);
  }

  method WriteVersyms(image: array<byte>, off: nat, ghost done: seq<byte>)
    requires Built(image, done) && off == |done| && off + 8 <= image.Length
    modifies image
    ensures Built(image, done + VersymBytes())
  {
    hide Built, Cat, At, LE;
    ghost var f := Versym();
    VersymSizes();
    Start(done, f);
    WriteField(image, off, LE(0, 2), done, f, 0);
    WriteField(image, off + 2, LE(2, 2), done, f, 1);
    WriteField(image, off + 4, LE(2, 2), done, f, 2);
    WriteField(image, off + 6, LE(2, 2), done, f, 3);
  }

  method WriteVersionDef(image: array<byte>, off: nat, version: seq<byte>, name: nat, ghost done: seq<byte>)
    requires Built(image, done) && off == |done| && off + 28 <= image.Length
    modifies image
    ensures Built(image, done + VerdefBytes(version, name))
  {
    hide Built, Cat, At, LE, ElfHash;
    var hash := ComputeElfHash(version);
    ghost var f := Verdef(version, name);
    VerdefSizes(version, name);
    Start(done, f);
    WriteField(image, off, LE(1, 2), done, f, 0);
    WriteField(image, off + 2, LE(0, 2), done, f, 1);
    WriteField(image, off + 4, LE(2, 2), done, f, 2);
    WriteField(image, off + 6, LE(1, 2), done, f, 3);
    WriteField(image, off + 8, LE(hash, 4), done, f, 4);
    WriteField(image, off + 12, LE(20, 4), done, f, 5);
    WriteField(image, off + 16, LE(0, 4), done, f, 6);
    WriteField(image, off + 20, LE(name, 4), done, f, 7);
    WriteField(image, off + 24, LE(0, 4), done, f, 8);
  }

  /** The string table: a NUL, then each name with its terminator at the offset the tables use. */
  method WriteStrtab(image: array<byte>, off: nat, version: seq<byte>, l: Layout, ghost done: seq<byte>)
    requires |version| == 10 && l == LayoutOf(version)
    requires Built(image, done) && off == |done| && off + 73 <= image.Length
    modifies image
    ensures Built(image, done + StrtabBytes(version))
  {
    LayoutValues(version);
    hide Built, Cat, At, LayoutOf;
    ghost var f := Strtab(version);
    StrtabSizes(version);
    Start(done, f);
    WriteField(image, off, [0], done, f, 0);
    WriteField(image, off + CLOCK_NAME, CLOCK_SYMBOL + [0], done, f, 1);
    WriteField(image, off + l.gettimeofdayName, GETTIMEOFDAY_SYMBOL + [0], done, f, 2);
    WriteField(image, off + l.clockGetresName, CLOCK_GETRES_SYMBOL + [0], done, f, 3);
    WriteField(image, off + l.versionName, version + [0], done, f, 4);
  }

  lemma NextPart(f: seq<seq<byte>>, k: nat)
    requires k < |f|
    ensures Cat(f[..k]) + f[k] == Cat(f[..k + 1]) && |Cat(f[..k])| == At(f, k)
  {
    CatStep(f, k);
  }

  /** Bytes of zeros between two parts are already there. */
  lemma Skip(image: array<byte>, f: seq<seq<byte>>, k: nat, n: nat)
    requires k < |f| && f[k] == Zeros(n) && At(f, k) + n <= image.Length
    requires Built(image, Cat(f[..k]))
    ensures Built(image, Cat(f[..k + 1]))
  {
    Whole([], f[..k]);
    Whole([], f[..k + 1]);
    assert [] + Cat(f[..k + 1]) == Cat(f[..k + 1]);
    Gap(image, [], f, k, n);
  }

  /** Every part of the page, where `build_image` writes it. */
  lemma Placed(b: Blob, l: Layout)
    requires |b.version| == 10 && l == LayoutOf(b.version) && Fits(b)
    ensures l == Layout(176, 320, 352, 448, 456, 484, 22, 42, 62, 73, 560) && 560 + |b.code| <= PAGE_SIZE
    ensures var f := Parts(b, l);
      && f[0] == ElfHeaderBytes(b.machine) && At(f, 0) == 0
      && f[1] == ProgramHeaderBytes(PT_LOAD, PF_R + PF_X, 0, PAGE_SIZE, PAGE_SIZE) && At(f, 1) == 64
      && f[2] == ProgramHeaderBytes(PT_DYNAMIC, PF_R, l.dynamic, DYNAMIC_SIZE, 8) && At(f, 2) == 120
      && f[3] == DynamicBytes(DynamicEntries(l)) && At(f, 3) == 176
      && f[4] == HashBytes() && At(f, 4) == 320 && f[5] == Zeros(4) && At(f, 5) == 348
      && f[6] == Zeros(24) && At(f, 6) == 352
      && f[7] == SymbolBytes(CLOCK_NAME, l.code, b.clockSize) && At(f, 7) == 376
      && f[8] == SymbolBytes(l.gettimeofdayName, l.code + b.gettimeofdayOffset, b.gettimeofdaySize) && At(f, 8) == 400
      && f[9] == SymbolBytes(l.clockGetresName, l.code + b.clockGetresOffset, b.clockGetresSize) && At(f, 9) == 424
      && f[10] == VersymBytes() && At(f, 10) == 448 && f[11] == VerdefBytes(b.version, l.versionName) && At(f, 11) == 456
      && f[12] == StrtabBytes(b.version) && At(f, 12) == 484 && f[13] == Zeros(3) && At(f, 13) == 557
      && f[14] == b.code && At(f, 14) == 560 && f[15] == Zeros(PAGE_SIZE - 560 - |b.code|) && At(f, 15) == 560 + |b.code|
  {
    hide At, ElfHeaderBytes, ProgramHeaderBytes, DynamicBytes, DynamicEntries, HashBytes, SymbolBytes, VersymBytes,
      VerdefBytes, StrtabBytes, Zeros;
    LayoutValues(b.version);
    PartOffsets(b, l);
  }

  method WriteHeaders(image: array<byte>, b: Blob, l: Layout)
    requires |b.version| == 10 && l == LayoutOf(b.version) && Fits(b) && image.Length == PAGE_SIZE
    requires Built(image, [])
    modifies image
    ensures Built(image, Cat(Parts(b, l)[..4]))
  {
    hide Parts, Built, Cat, At, Fits, ElfHeaderBytes, ProgramHeaderBytes, DynamicBytes, DynamicEntries, HashBytes,
      SymbolBytes, VersymBytes, VerdefBytes, StrtabBytes, Zeros;
    Placed(b, l);
    ghost var f := Parts(b, l);
    NextPart(f, 0);
    NextPart(f, 1);
    NextPart(f, 2);
    NextPart(f, 3);
    Empty(f);
    WriteElfHeader(image, b.machine);
    WriteProgramHeader(image, PHOFF, PT_LOAD, PF_R + PF_X, 0, PAGE_SIZE, PAGE_SIZE, Cat(f[..1]));
    WriteProgramHeader(image, PHOFF + PHENTSIZE, PT_DYNAMIC, PF_R, l.dynamic, DYNAMIC_SIZE, 8, Cat(f[..2]));
    WriteDynamicEntries(image, l.dynamic, DynamicEntries(l), Cat(f[..3]));
  }

  lemma Empty(f: seq<seq<byte>>)
    ensures Cat(f[..0]) == [] && (f != [] ==> [] + f[0] == f[0])
  {
  }

  /** The hash table, up to the first real symbol: the null symbol is zeros. */
  method WriteHash(image: array<byte>, b: Blob, l: Layout)
    requires |b.version| == 10 && l == LayoutOf(b.version) && Fits(b) && image.Length == PAGE_SIZE
    requires Built(image, Cat(Parts(b, l)[..4]))
    modifies image
    ensures Built(image, Cat(Parts(b, l)[..7]))
  {
    hide Parts, Built, Cat, At, Fits, ElfHeaderBytes, ProgramHeaderBytes, DynamicBytes, DynamicEntries, HashBytes,
      SymbolBytes, VersymBytes, VerdefBytes, StrtabBytes, Zeros;
    Placed(b, l);
    ghost var f := Parts(b, l);
    NextPart(f, 4);
    WriteSysvHash(image, l.hash, Cat(f[..4]));
    Skip(image, f, 5, 4);
    Skip(image, f, 6, 24);
  }

  method WriteSymbolPart(
    image: array<byte>, off: nat, name: nat, value: nat, size: nat, ghost f: seq<seq<byte>>, ghost k: nat)
    requires k < |f| && f[k] == SymbolBytes(name, value, size) && off == At(f, k) && off + 24 <= image.Length
    requires Built(image, Cat(f[..k]))
    modifies image
    ensures Built(image, Cat(f[..k + 1]))
  {
    hide Built, Cat, At, SymbolBytes;
    NextPart(f, k);
    WriteSymbol(image, off, name, value, size, Cat(f[..k]));
  }

  method WriteSymbols(image: array<byte>, b: Blob, l: Layout)
    requires |b.version| == 10 && l == LayoutOf(b.version) && Fits(b) && image.Length == PAGE_SIZE
    requires Built(image, Cat(Parts(b, l)[..7]))
    modifies image
    ensures Built(image, Cat(Parts(b, l)[..10]))
  {
    hide Parts, Built, Cat, At, Fits, ElfHeaderBytes, ProgramHeaderBytes, DynamicBytes, DynamicEntries, HashBytes,
      SymbolBytes, VersymBytes, VerdefBytes, StrtabBytes, Zeros;
    Placed(b, l);
    ghost var f := Parts(b, l);
    WriteSymbolPart(image, l.symtab + 24, CLOCK_NAME, l.code, b.clockSize, f, 7);
    WriteSymbolPart(image, l.symtab + 48, l.gettimeofdayName, l.code + b.gettimeofdayOffset, b.gettimeofdaySize, f, 8);
    WriteSymbolPart(image, l.symtab + 72, l.clockGetresName, l.code + b.clockGetresOffset, b.clockGetresSize, f, 9);
  }

  method WriteVersions(image: array<byte>, b: Blob, l: Layout)
    requires |b.version| == 10 && l == LayoutOf(b.version) && Fits(b) && image.Length == PAGE_SIZE
    requires Built(image, Cat(Parts(b, l)[..10]))
    modifies image
    ensures Built(image, Cat(Parts(b, l)[..12]))
  {
    hide Parts, Built, Cat, At, Fits, ElfHeaderBytes, ProgramHeaderBytes, DynamicBytes, DynamicEntries, HashBytes,
      SymbolBytes, VersymBytes, VerdefBytes, StrtabBytes, Zeros;
    Placed(b, l);
    ghost var f := Parts(b, l);
    NextPart(f, 10);
    NextPart(f, 11);
    WriteVersyms(image, l.versym, Cat(f[..10]));
    WriteVersionDef(image, l.verdef, b.version, l.versionName, Cat(f[..11]));
  }

  method WriteStringsAndCode(image: array<byte>, b: Blob, l: Layout)
    requires |b.version| == 10 && l == LayoutOf(b.version) && Fits(b) && image.Length == PAGE_SIZE
    requires Built(image, Cat(Parts(b, l)[..12]))
    modifies image
    ensures Built(image, Cat(Parts(b, l)[..15]))
  {
    hide Parts, Built, Cat, At, Fits, ElfHeaderBytes, ProgramHeaderBytes, DynamicBytes, DynamicEntries, HashBytes,
      SymbolBytes, VersymBytes, VerdefBytes, StrtabBytes, Zeros;
    Placed(b, l);
    ghost var f := Parts(b, l);
    NextPart(f, 12);
    WriteStrtab(image, l.strtab, b.version, l, Cat(f[..12]));
    Skip(image, f, 13, 3);
    Whole([], f[..14]);
    Whole([], f[..15]);
    WriteField(image, l.code, b.code, [], f, 14);
  }

  /** `build_image`: no image when the code does not fit, else the whole page. */
  method BuildImage(b: Blob, freq: nat, wall: nat) returns (r: Option<array<byte>>)
    requires WellFormed(b)
    ensures r.Some? <==> Fits(b)
    ensures r.Some? ==> fresh(r.value) && r.value[..] == Image(b, freq, wall)
  {
    var l := LayoutOf(b.version);
    if l.code + |b.code| > PAGE_SIZE { return None; }
    var image := new byte[PAGE_SIZE](_ => 0);
    assert image[..] == [] + Zeros(PAGE_SIZE);
    WriteHeaders(image, b, l);
    WriteHash(image, b, l);
    WriteSymbols(image, b, l);
    WriteVersions(image, b, l);
    WriteStringsAndCode(image, b, l);
    PageDone(image, b, l);
    StoreWords(image, b, l, freq, wall);
    r := Some(image);
  }

  lemma PageDone(image: array<byte>, b: Blob, l: Layout)
    requires |b.version| == 10 && l == LayoutOf(b.version) && Fits(b) && image.Length == PAGE_SIZE
    requires Built(image, Cat(Parts(b, l)[..15]))
    ensures l.code == 560 && image[..] == Page(b, l)
  {
    hide Parts, Built, Cat, At, Fits, ElfHeaderBytes, ProgramHeaderBytes, DynamicBytes, DynamicEntries, HashBytes,
      SymbolBytes, VersymBytes, VerdefBytes, StrtabBytes, Zeros;
    Placed(b, l);
    var f := Parts(b, l);
    assert f[..16] == f;
    Skip(image, f, 15, PAGE_SIZE - 560 - |b.code|);
    assert |Page(b, l)| == PAGE_SIZE;
    AllBuilt(image, Cat(f));
  }

  lemma AllBuilt(image: array<byte>, done: seq<byte>)
    requires Built(image, done) && |done| == image.Length
    ensures image[..] == done
  {
  }

  method StoreWords(image: array<byte>, b: Blob, l: Layout, freq: nat, wall: nat)
    requires WellFormed(b) && Fits(b) && l == LayoutOf(b.version) && l.code == 560 && image[..] == Page(b, l)
    modifies image
    ensures image[..] == Image(b, freq, wall)
  {
    hide Page, Put, LE;
    Store(image, l.code + b.freqOffset, LE(freq, 8));
    Store(image, l.code + b.wallOffset, LE(wall, 8));
  }

  // ------------------------------------------------------------------
  // Patching the wall-clock word of a mapped page
  // ------------------------------------------------------------------

  /** The page-table entry's permission bits. */
  datatype Flags = Flags(r: bool, w: bool, x: bool, u: bool)

  predicate Patchable(pte: Option<Flags>) {
    pte.Some? && pte.value.r && pte.value.x && pte.value.u && !pte.value.w
  }

  /** A word that would leave its page makes the slice index panic. */
  datatype Patch = Stored | Refused | Panicked

  /** `patch_vdso_u64` through the backing page of the word's address; `pte` is what translating it gave. */
  method PatchVdsoU64(page: array<byte>, pte: Option<Flags>, startVa: nat, offset: nat, value: nat) returns (r: Patch)
    requires page.Length == PAGE_SIZE && startVa < TWO64 && offset < TWO64
    modifies page
    ensures r.Refused? <==> !Patchable(pte) || offset + 8 > PAGE_SIZE || startVa + offset + 8 >= TWO64
    ensures !r.Refused? ==> (r.Panicked? <==> (startVa + offset) % PAGE_SIZE + 8 > PAGE_SIZE)
    ensures r.Stored? ==> page[..] == Put(old(page[..]), (startVa + offset) % PAGE_SIZE, LE(value, 8))
    ensures !r.Stored? ==> page[..] == old(page[..])
    ensures startVa % PAGE_SIZE == 0 && !r.Refused? ==> r.Stored? && (startVa + offset) % PAGE_SIZE == offset
  {
    hide LE, Put;
    if startVa + offset >= TWO64 { return Refused; }
    var va := startVa + offset;
    if va + 8 >= TWO64 { return Refused; }
    var limit := if startVa + PAGE_SIZE < TWO64 then startVa + PAGE_SIZE else TWO64 - 1;
    if va + 8 > limit { return Refused; }
    if pte.None? { return Refused; }
    var flags := pte.value;
    if !(flags.r && flags.x && flags.u) || flags.w { return Refused; }
    var pageOffset := va % PAGE_SIZE;
    if pageOffset + 8 > PAGE_SIZE { return Panicked; }
    Store(page, pageOffset, LE(value, 8));
    r := Stored;
  }

  /** `patch_wall_time_offset` on a mapped image: the outcome is the image built with the new offset. */
  method PatchWallTimeOffset(
    page: array<byte>, pte: Option<Flags>, vdsoBase: nat, b: Blob, ghost freq: nat, ghost wall: nat, newWall: nat)
    returns (ok: bool)
    requires WellFormed(b) && Fits(b) && page[..] == Image(b, freq, wall)
    requires vdsoBase % PAGE_SIZE == 0 && vdsoBase + PAGE_SIZE < TWO64
    modifies page
    ensures ok <==> Patchable(pte)
    ensures page[..] == Image(b, freq, if ok then newWall else wall)
  {
    hide Image, Put, LE;
    LayoutValues(b.version);
    PatchIsRebuild(b, freq, wall, newWall);
    var r := PatchVdsoU64(page, pte, vdsoBase, LayoutOf(b.version).code + b.wallOffset, newWall);
    ok := r.Stored?;
  }
}
