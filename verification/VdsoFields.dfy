/**
  The finished image of os/src/vdso.rs word by word: at every offset of the ELF
  format, the number that stands there.
*/
module VdsoFields {
  import opened Common
  import opened Bytes
  import opened SysvHash
  import opened VdsoImage

  /** The tables below the code, by number. */
  function Part(b: Blob, k: nat): (seq<byte>, nat)
    requires |b.version| == 10
  {
    match k
    case 0 => (ElfHeaderBytes(b.machine), 0)
    case 1 => (ProgramHeaderBytes(1, 5, 0, 4096, 4096), 64)
    case 2 => (ProgramHeaderBytes(2, 4, 176, 144, 8), 120)
    case 3 => (DynamicBytes(Tags()), 176)
    case 4 => (HashBytes(), 320)
    case 5 => (Zeros(4), 348)
    case 6 => (Zeros(24), 352)
    case 7 => (SymbolBytes(1, 560, b.clockSize), 376)
    case 8 => (SymbolBytes(22, 560 + b.gettimeofdayOffset, b.gettimeofdaySize), 400)
    case 9 => (SymbolBytes(42, 560 + b.clockGetresOffset, b.clockGetresSize), 424)
    case 10 => (VersymBytes(), 448)
    case 11 => (VerdefBytes(b.version, 62), 456)
    case 12 => (StrtabBytes(b.version), 484)
    case _ => (Zeros(3), 557)
  }

  /** Hash, string table, symbols, string size, symbol size, version indices, version definitions, their number, end. */
  function Tags(): seq<(nat, nat)> {
    [(4, 320), (5, 484), (6, 352), (10, 73), (11, 24), (0x6fff_fff0, 448), (0x6fff_fffc, 456), (0x6fff_fffd, 1), (0, 0)]
  }

  lemma ImagePart(b: Blob, freq: nat, wall: nat, k: nat)
    requires WellFormed(b) && Fits(b) && k < 14
    ensures |b.version| == 10 && Holds(Image(b, freq, wall), Part(b, k).1, Part(b, k).0)
  {
    hide Image, ElfHeaderBytes, ProgramHeaderBytes, DynamicBytes, HashBytes, SymbolBytes, VersymBytes, VerdefBytes,
      StrtabBytes, Holds;
    LayoutValues(b.version);
    hide LayoutOf;
    PartOffsets(b, LayoutOf(b.version));
    ImageHolds(b, freq, wall, k);
  }

  // --- field by field ---

  lemma ZerosAt(m: seq<byte>, base: nat, fields: seq<seq<byte>>, i: nat, n: nat)
    requires Holds(m, base, Cat(fields)) && i < |fields| && fields[i] == Zeros(n)
    ensures Holds(m, base + At(fields, i), Zeros(n))
  {
    HoldsField(m, base, fields, i);
  }

  lemma HeaderWords(m: seq<byte>, machine: nat)
    requires Holds(m, 0, ElfHeaderBytes(machine)) && machine < Pow256(2)
    ensures Holds(m, 0, [0x7f, 0x45, 0x4c, 0x46, 2, 1, 1]) && Holds(m, 7, Zeros(9))
    ensures Read(m, 16, 2) == 3 && Read(m, 18, 2) == machine && Read(m, 20, 4) == 1 && Holds(m, 24, Zeros(8))
    ensures Read(m, 32, 8) == 64 && Holds(m, 40, Zeros(12))
    ensures Read(m, 52, 2) == 64 && Read(m, 54, 2) == 56 && Read(m, 56, 2) == 2 && Holds(m, 58, Zeros(6))
  {
    hide Cat, Read, LE, Holds, Zeros;
    var f := ElfHeader(machine);
    HeaderSize(machine);
    HoldsField(m, 0, f, 0);
    ZerosAt(m, 0, f, 1, 9);
    FieldRead(m, 0, f, 2, 3, 2);
    FieldRead(m, 0, f, 3, machine, 2);
    FieldRead(m, 0, f, 4, 1, 4);
    ZerosAt(m, 0, f, 5, 8);
    FieldRead(m, 0, f, 6, 64, 8);
    ZerosAt(m, 0, f, 7, 12);
    FieldRead(m, 0, f, 8, 64, 2);
    FieldRead(m, 0, f, 9, 56, 2);
    FieldRead(m, 0, f, 10, 2, 2);
    ZerosAt(m, 0, f, 11, 6);
  }

  /** A 64-bit little-endian shared object for the machine, with two program headers right behind. */
  lemma HeaderFields(b: Blob, freq: nat, wall: nat)
    requires WellFormed(b) && Fits(b)
    ensures var m := Image(b, freq, wall);
      && Holds(m, 0, [0x7f, 0x45, 0x4c, 0x46, 2, 1, 1]) && Holds(m, 7, Zeros(9))
      && Read(m, 16, 2) == 3 && Read(m, 18, 2) == b.machine && Read(m, 20, 4) == 1 && Holds(m, 24, Zeros(8))
      && Read(m, 32, 8) == 64 && Holds(m, 40, Zeros(12))
      && Read(m, 52, 2) == 64 && Read(m, 54, 2) == 56 && Read(m, 56, 2) == 2 && Holds(m, 58, Zeros(6))
  {
    assert b.machine < Pow256(2);
    hide Image, ElfHeaderBytes, Read, Holds, Pow256, WellFormed, Fits, Zeros;
    ImagePart(b, freq, wall, 0);
    HeaderWords(Image(b, freq, wall), b.machine);
  }

  lemma SegmentWords(m: seq<byte>, at: nat, kind: nat, flags: nat, offset: nat, size: nat, align: nat)
    requires Holds(m, at, ProgramHeaderBytes(kind, flags, offset, size, align)) && kind < Pow256(4) && flags < Pow256(4)
    requires offset < Pow256(8) && size < Pow256(8) && align < Pow256(8)
    ensures Read(m, at, 4) == kind && Read(m, at + 4, 4) == flags
    ensures Read(m, at + 8, 8) == offset && Read(m, at + 16, 8) == offset && Holds(m, at + 24, Zeros(8))
    ensures Read(m, at + 32, 8) == size && Read(m, at + 40, 8) == size && Read(m, at + 48, 8) == align
  {
    hide Cat, Read, LE, Holds, Zeros;
    var f := ProgramHeader(kind, flags, offset, offset, size, size, align);
    ProgramHeaderSize(kind, flags, offset, offset, size, size, align);
    FieldRead(m, at, f, 0, kind, 4);
    FieldRead(m, at, f, 1, flags, 4);
    FieldRead(m, at, f, 2, offset, 8);
    FieldRead(m, at, f, 3, offset, 8);
    ZerosAt(m, at, f, 4, 8);
    FieldRead(m, at, f, 5, size, 8);
    FieldRead(m, at, f, 6, size, 8);
    FieldRead(m, at, f, 7, align, 8);
  }

  /** One loadable page, readable and executable, and the dynamic section inside it, readable. */
  lemma SegmentFields(b: Blob, freq: nat, wall: nat)
    requires WellFormed(b) && Fits(b)
    ensures var m := Image(b, freq, wall);
      && Read(m, 64, 4) == 1 && Read(m, 68, 4) == 5 && Read(m, 72, 8) == 0 && Read(m, 80, 8) == 0
      && Read(m, 96, 8) == 4096 && Read(m, 104, 8) == 4096 && Read(m, 112, 8) == 4096
      && Read(m, 120, 4) == 2 && Read(m, 124, 4) == 4 && Read(m, 128, 8) == 176 && Read(m, 136, 8) == 176
      && Read(m, 152, 8) == 144 && Read(m, 160, 8) == 144 && Read(m, 168, 8) == 8
  {
    Powers();
    hide Image, ProgramHeaderBytes, Read, Holds, Pow256, WellFormed, Fits;
    ImagePart(b, freq, wall, 1);
    ImagePart(b, freq, wall, 2);
    SegmentWords(Image(b, freq, wall), 64, 1, 5, 0, 4096, 4096);
    SegmentWords(Image(b, freq, wall), 120, 2, 4, 176, 144, 8);
  }

  lemma Powers()
    ensures Pow256(2) == 0x1_0000 && Pow256(4) == 0x1_0000_0000 && Pow256(8) >= 0x1_0000_0000
  {
  }

  lemma {:induction false} EntryReads(m: seq<byte>, at: nat, entries: seq<(nat, nat)>, i: nat)
    requires Holds(m, at, DynamicBytes(entries)) && i < |entries|
    requires entries[i].0 < Pow256(8) && entries[i].1 < Pow256(8)
    ensures Read(m, at + 16 * i, 8) == entries[i].0 && Read(m, at + 16 * i + 8, 8) == entries[i].1
    decreases i
  {
    hide LE, Read, Holds, DynamicBytes, Pow256;
    DynamicEntryAt(m, at, entries);
    if i == 0 {
      ReadValue(m, at, entries[0].0, 8);
      ReadValue(m, at + 8, entries[0].1, 8);
    } else {
      EntryReads(m, at + 16, entries[1..], i - 1);
    }
  }

  /** The dynamic section: tag and value of each of the nine entries. */
  lemma DynamicFields(b: Blob, freq: nat, wall: nat, i: nat)
    requires WellFormed(b) && Fits(b) && i < 9
    ensures var m, tags := Image(b, freq, wall),
        [(4, 320), (5, 484), (6, 352), (10, 73), (11, 24), (0x6fff_fff0, 448), (0x6fff_fffc, 456), (0x6fff_fffd, 1), (0, 0)];
      Read(m, 176 + 16 * i, 8) == tags[i].0 && Read(m, 184 + 16 * i, 8) == tags[i].1
  {
    Powers();
    hide Image, DynamicBytes, Read, Holds, Pow256, WellFormed, Fits;
    ImagePart(b, freq, wall, 3);
    EntryReads(Image(b, freq, wall), 176, Tags(), i);
  }

  /** One bucket, four chain words: symbols 1, 2, 3 in turn. */
  lemma ChainFields(b: Blob, freq: nat, wall: nat, i: nat)
    requires WellFormed(b) && Fits(b) && i < 7
    ensures Read(Image(b, freq, wall), 320 + 4 * i, 4) == [1, 4, 1, 0, 2, 3, 0][i]
  {
    Powers();
    hide Image, Cat, LE, HashBytes, Read, Holds, Pow256, WellFormed, Fits;
    ImagePart(b, freq, wall, 4);
    ChainWords(Image(b, freq, wall), 320, i);
  }

  lemma ChainWords(m: seq<byte>, at: nat, i: nat)
    requires Holds(m, at, HashBytes()) && i < 7
    ensures Read(m, at + 4 * i, 4) == [1, 4, 1, 0, 2, 3, 0][i]
  {
    Powers();
    hide Cat, LE, Read, Holds, Pow256;
    HashSizes();
    FieldRead(m, at, HashTable(), i, [1, 4, 1, 0, 2, 3, 0][i], 4);
  }

  lemma SymbolWords(m: seq<byte>, at: nat, name: nat, value: nat, size: nat)
    requires Holds(m, at, SymbolBytes(name, value, size))
    requires name < Pow256(4) && value < Pow256(8) && size < Pow256(8)
    ensures Read(m, at, 4) == name && Read(m, at + 4, 1) == 0x12 && Holds(m, at + 5, [0]) && Read(m, at + 6, 2) == 1
    ensures Read(m, at + 8, 8) == value && Read(m, at + 16, 8) == size
  {
    SymbolReads(m, at, name, value, size);
    hide Cat, Read, LE, Holds;
    SymbolSize(name, value, size);
    HoldsField(m, at, Symbol(name, value, size), 2);
  }

  /** The null symbol and three global functions in section 1. */
  lemma SymbolFields(b: Blob, freq: nat, wall: nat)
    requires WellFormed(b) && Fits(b)
    ensures var m := Image(b, freq, wall);
      && Holds(m, 352, Zeros(24))
      && Read(m, 376, 4) == 1 && Read(m, 380, 1) == 0x12 && Read(m, 382, 2) == 1
      && Read(m, 384, 8) == 560 && Read(m, 392, 8) == b.clockSize
      && Read(m, 400, 4) == 22 && Read(m, 404, 1) == 0x12 && Read(m, 406, 2) == 1
      && Read(m, 408, 8) == 560 + b.gettimeofdayOffset && Read(m, 416, 8) == b.gettimeofdaySize
      && Read(m, 424, 4) == 42 && Read(m, 428, 1) == 0x12 && Read(m, 430, 2) == 1
      && Read(m, 432, 8) == 560 + b.clockGetresOffset && Read(m, 440, 8) == b.clockGetresSize
  {
    hide Image, SymbolBytes, Read, Holds, Pow256, WellFormed, Fits, Zeros;
    ImagePart(b, freq, wall, 6);
    SymbolAt(b, freq, wall, 7, 376, 1, 560, b.clockSize);
    SymbolAt(b, freq, wall, 8, 400, 22, 560 + b.gettimeofdayOffset, b.gettimeofdaySize);
    SymbolAt(b, freq, wall, 9, 424, 42, 560 + b.clockGetresOffset, b.clockGetresSize);
  }

  lemma SymbolAt(b: Blob, freq: nat, wall: nat, k: nat, at: nat, name: nat, value: nat, size: nat)
    requires WellFormed(b) && Fits(b) && k < 14 && Part(b, k) == (SymbolBytes(name, value, size), at) && name < 100
    requires value == 560 || value == 560 + b.gettimeofdayOffset || value == 560 + b.clockGetresOffset
    requires size == b.clockSize || size == b.gettimeofdaySize || size == b.clockGetresSize
    ensures var m := Image(b, freq, wall);
      && Read(m, at, 4) == name && Read(m, at + 4, 1) == 0x12 && Holds(m, at + 5, [0]) && Read(m, at + 6, 2) == 1
      && Read(m, at + 8, 8) == value && Read(m, at + 16, 8) == size
  {
    Widths(b);
    hide Image, SymbolBytes, Part, Read, Holds, Pow256, WellFormed, Fits;
    ImagePart(b, freq, wall, k);
    SymbolWords(Image(b, freq, wall), at, name, value, size);
  }

  lemma VersionWords(m: seq<byte>, at: nat, version: seq<byte>, name: nat)
    requires Holds(m, at, VerdefBytes(version, name)) && name < Pow256(4)
    ensures Read(m, at, 2) == 1 && Read(m, at + 2, 2) == 0 && Read(m, at + 4, 2) == 2 && Read(m, at + 6, 2) == 1
    ensures Read(m, at + 8, 4) == Reference(version) && Read(m, at + 12, 4) == 20 && Read(m, at + 16, 4) == 0
    ensures Read(m, at + 20, 4) == name && Read(m, at + 24, 4) == 0
  {
    hide Cat, Read, LE, Holds, ElfHash, Reference;
    var f := Verdef(version, name);
    VerdefReads(m, at, version, name);
    VerdefSizes(version, name);
    FieldRead(m, at, f, 0, 1, 2);
    FieldRead(m, at, f, 1, 0, 2);
    FieldRead(m, at, f, 3, 1, 2);
    FieldRead(m, at, f, 8, 0, 4);
  }

  /** The symbols' version indices, and one version definition whose hash is that of its name. */
  lemma VersionFields(b: Blob, freq: nat, wall: nat)
    requires WellFormed(b) && Fits(b)
    ensures var m := Image(b, freq, wall);
      && Read(m, 448, 2) == 0 && Read(m, 450, 2) == 2 && Read(m, 452, 2) == 2 && Read(m, 454, 2) == 2
      && Read(m, 456, 2) == 1 && Read(m, 458, 2) == 0 && Read(m, 460, 2) == 2 && Read(m, 462, 2) == 1
      && Read(m, 464, 4) == Reference(b.version) && Read(m, 468, 4) == 20 && Read(m, 472, 4) == 0
      && Read(m, 476, 4) == 62 && Read(m, 480, 4) == 0
      && (b.version == LINUX_4_15 ==> Read(m, 464, 4) == 0xae77f75)
      && (b.version == LINUX_5_10 ==> Read(m, 464, 4) == 0xae78f70)
  {
    Powers();
    hide Image, VersymBytes, VerdefBytes, Read, Holds, Pow256, WellFormed, Fits, Reference, ElfHash;
    ImagePart(b, freq, wall, 10);
    ImagePart(b, freq, wall, 11);
    FirstVersym(Image(b, freq, wall), 448);
    VersymReads(Image(b, freq, wall), 448);
    VersionWords(Image(b, freq, wall), 456, b.version, 62);
    HashIsReference(b.version);
    RiscvVersionHash();
    LoongarchVersionHash();
  }

  lemma FirstVersym(m: seq<byte>, at: nat)
    requires Holds(m, at, VersymBytes())
    ensures Read(m, at, 2) == 0
  {
    hide Cat, Read, LE, Holds;
    VersymSizes();
    FieldRead(m, at, Versym(), 0, 0, 2);
  }

  // --- the code ---

  lemma PutOutside(m: seq<byte>, a: nat, x: seq<byte>, i: nat)
    requires a + |x| <= |m| && i < |m| && !(a <= i < a + |x|)
    ensures Put(m, a, x)[i] == m[i]
  {
  }

  /** Behind the tables stands the code, untouched but for its two data words, and zeros up to the end of the page. */
  lemma CodeBytes(b: Blob, freq: nat, wall: nat, i: nat)
    requires WellFormed(b) && Fits(b) && i < 4096 - 560
    requires !(b.freqOffset <= i < b.freqOffset + 8) && !(b.wallOffset <= i < b.wallOffset + 8)
    ensures Image(b, freq, wall)[560 + i] == if i < |b.code| then b.code[i] else 0
  {
    hide WithWords, LayoutOf, Page;
    LayoutValues(b.version);
    var l := LayoutOf(b.version);
    PageBytes(b, l, i);
    WordsOutside(Page(b, l), 560 + b.freqOffset, freq, 560 + b.wallOffset, wall, 560 + i);
  }

  lemma WordsOutside(page: seq<byte>, a: nat, x: nat, b: nat, y: nat, i: nat)
    requires a + 8 <= |page| && b + 8 <= |page| && i < |page| && !(a <= i < a + 8) && !(b <= i < b + 8)
    ensures WithWords(page, a, x, b, y)[i] == page[i]
  {
    hide Put, LE;
    PutOutside(page, a, LE(x, 8), i);
    PutOutside(Put(page, a, LE(x, 8)), b, LE(y, 8), i);
  }

  lemma PartByte(f: seq<seq<byte>>, k: nat, i: nat)
    requires k < |f| && i < |f[k]|
    ensures At(f, k) + i < |Cat(f)| && Cat(f)[At(f, k) + i] == f[k][i]
  {
    hide At, Cat;
    CatSlice(f, k);
    HoldsAt(Cat(f), At(f, k), f[k], i);
  }

  lemma LastParts(b: Blob, l: Layout)
    requires |b.version| == 10 && l.code == 560 && l.code + |b.code| <= 4096
    ensures var f := Parts(b, l);
      && |f| == 16 && f[14] == b.code && At(f, 14) == 560 && At(f, 15) == 560 + |b.code|
      && |f[15]| == 4096 - 560 - |b.code| && forall i | 0 <= i < |f[15]| :: f[15][i] == 0
  {
    PartOffsets(b, l);
    hide ElfHeaderBytes, ProgramHeaderBytes, DynamicBytes, HashBytes, SymbolBytes, VersymBytes, VerdefBytes, StrtabBytes, At;
  }

  lemma PageBytes(b: Blob, l: Layout, i: nat)
    requires |b.version| == 10 && l.code == 560 && l.code + |b.code| <= 4096 && i < 4096 - 560
    ensures Page(b, l)[560 + i] == if i < |b.code| then b.code[i] else 0
  {
    hide Parts, At, Cat;
    LastParts(b, l);
    if i < |b.code| { PartByte(Parts(b, l), 14, i); } else { PartByte(Parts(b, l), 15, i - |b.code|); }
  }

  function Ascii(s: string): (r: seq<byte>)
    requires forall i | 0 <= i < |s| :: s[i] < 128 as char
    ensures |r| == |s| && forall i | 0 <= i < |s| :: r[i] == s[i] as int
  {
    seq(|s|, i requires 0 <= i < |s| => s[i] as int)
  }

  /** The exported names and the two versions, as text. */
  lemma NamesAreText()
    ensures CLOCK_SYMBOL == Ascii("__vdso_clock_gettime") && GETTIMEOFDAY_SYMBOL == Ascii("__vdso_gettimeofday")
    ensures CLOCK_GETRES_SYMBOL == Ascii("__vdso_clock_getres")
    ensures LINUX_4_15 == Ascii("LINUX_4.15") && LINUX_5_10 == Ascii("LINUX_5.10")
  {
  }
}
