/**
  The vDSO image of os/src/vdso.rs: `build_image` fills one page with ELF
  headers, a dynamic section, a System V hash table, symbols, versions and
  code; a loader's symbol lookup is proved to find exactly what was put there.
*/
module VdsoImage {
  import opened Quotients
  import opened Common
  import opened Bytes
  import opened Bits
  import opened SysvHash

  const PAGE_SIZE: nat := 0x1000
  const PT_LOAD: nat := 1
  const PT_DYNAMIC: nat := 2
  const PF_X: nat := 1
  const PF_R: nat := 4
  const ET_DYN: nat := 3
  const EV_CURRENT: nat := 1
  const DT_NULL: nat := 0
  const DT_HASH: nat := 4
  const DT_STRTAB: nat := 5
  const DT_SYMTAB: nat := 6
  const DT_STRSZ: nat := 10
  const DT_SYMENT: nat := 11
  const DT_VERSYM: nat := 0x6fff_fff0
  const DT_VERDEF: nat := 0x6fff_fffc
  const DT_VERDEFNUM: nat := 0x6fff_fffd
  const GLOBAL_FUNC: byte := 0x12

  // "__vdso_clock_gettime", "__vdso_gettimeofday", "__vdso_clock_getres" in ASCII
  const CLOCK_SYMBOL: seq<byte> := [95, 95, 118, 100, 115, 111, 95, 99, 108, 111, 99, 107, 95, 103, 101, 116, 116, 105, 109, 101]
  const GETTIMEOFDAY_SYMBOL: seq<byte> := [95, 95, 118, 100, 115, 111, 95, 103, 101, 116, 116, 105, 109, 101, 111, 102, 100, 97, 121]
  const CLOCK_GETRES_SYMBOL: seq<byte> := [95, 95, 118, 100, 115, 111, 95, 99, 108, 111, 99, 107, 95, 103, 101, 116, 114, 101, 115]

  /** What the assembler fixes for an architecture: the code, and the extents of its routines and data words. */
  datatype Blob = Blob(
    machine: nat, version: seq<byte>, code: seq<byte>,
    clockSize: nat, gettimeofdayOffset: nat, gettimeofdaySize: nat, clockGetresOffset: nat, clockGetresSize: nat,
    freqOffset: nat, wallOffset: nat)

  predicate NulFree(s: seq<byte>) { 0 !in s }

  /** The blob's own layout, for either architecture: two data words inside the code, a ten-character version. */
  predicate WellFormed(b: Blob) {
    && b.machine < Pow256(2) && |b.version| == 10 && NulFree(b.version)
    && b.freqOffset + 8 <= |b.code| && b.wallOffset + 8 <= |b.code|
    && (b.freqOffset + 8 <= b.wallOffset || b.wallOffset + 8 <= b.freqOffset)
    && b.clockSize <= |b.code|
    && b.gettimeofdayOffset + b.gettimeofdaySize <= |b.code|
    && b.clockGetresOffset + b.clockGetresSize <= |b.code|
  }

  // --- layout, as computed by build_image and code_image_offset ---

  /** `(value + align - 1) & !(align - 1)` for a power of two: the next multiple. */
  function AlignUp(value: nat, align: nat): (r: nat)
    requires align > 0
  {
    (value + align - 1) / align * align
  }

  /** `x & !(2^k - 1)` clears the low `k` digits. */
  lemma {:induction false} ClearLow(x: nat, k: nat, width: nat)
    requires x < Pow2(width) && k <= width
    ensures And(x, Not(Pow2(k) - 1, width)) == Shr(x, k) * Pow2(k)
    decreases width
  {
    hide And, Not, Shr;
    ShrStep(x, k);
    if k == 0 {
      AndOnes(x, width);
    } else {
      var p := Pow2(k - 1);
      OnesHalve(p);
      ClearLow(x / 2, k - 1, width - 1);
      NotStep(2 * p - 1, width);
      AndStep(x, Not(2 * p - 1, width));
      Doubled(Shr(x, k), p);
    }
  }

  lemma ShrStep(x: nat, k: nat)
    ensures Shr(x, k) == if k == 0 then x else Shr(x / 2, k - 1)
  {
  }

  lemma Doubled(a: nat, b: nat)
    ensures 2 * (a * b) == a * (2 * b)
  {
  }

  lemma AndStep(a: nat, b: nat)
    ensures And(a, b) == Digit(Odd(a) && Odd(b)) + 2 * And(a / 2, b / 2)
  {
  }

  lemma {:induction false} AndOnes(x: nat, width: nat)
    requires x < Pow2(width)
    ensures And(x, Not(0, width)) == x
    decreases width
  {
    if width > 0 {
      AndOnes(x / 2, width - 1);
      NotStep(0, width);
      AndStep(x, Not(0, width));
    }
  }

  /** The mask expression of `align_up` and the next multiple are the same for a power of two. */
  lemma AlignUpIsMask(value: nat, k: nat)
    requires k < 64 && value + Pow2(k) - 1 < Pow2(64)
    ensures And(value + Pow2(k) - 1, Not(Pow2(k) - 1, 64)) == AlignUp(value, Pow2(k))
  {
    hide Pow2, And, Not;
    var x := value + Pow2(k) - 1;
    ClearLow(x, k, 64);
    ShiftIsQuotient(x, k);
  }

  const PHOFF: nat := 64
  const PHENTSIZE: nat := 56
  const PHNUM: nat := 2
  const DYNAMIC_SIZE: nat := 9 * 16
  const HASH_SIZE: nat := 7 * 4
  const SYMTAB_SIZE: nat := 4 * 24
  const VERDEF_SIZE: nat := 20 + 8
  const CLOCK_NAME: nat := 1

  /** The offsets `build_image` computes before it writes anything. */
  datatype Layout = Layout(
    dynamic: nat, hash: nat, symtab: nat, versym: nat, verdef: nat, strtab: nat,
    gettimeofdayName: nat, clockGetresName: nat, versionName: nat, strtabSize: nat, code: nat)

  function LayoutOf(version: seq<byte>): Layout {
    var dynamic := AlignUp(PHOFF + PHENTSIZE * PHNUM, 8);
    var hash := AlignUp(dynamic + DYNAMIC_SIZE, 8);
    var symtab := AlignUp(hash + HASH_SIZE, 8);
    var versym := AlignUp(symtab + SYMTAB_SIZE, 2);
    var verdef := AlignUp(versym + 4 * 2, 4);
    var strtab := verdef + VERDEF_SIZE;
    var gettimeofdayName := CLOCK_NAME + |CLOCK_SYMBOL| + 1;
    var clockGetresName := gettimeofdayName + |GETTIMEOFDAY_SYMBOL| + 1;
    var versionName := clockGetresName + |CLOCK_GETRES_SYMBOL| + 1;
    var strtabSize := versionName + |version| + 1;
    Layout(dynamic, hash, symtab, versym, verdef, strtab, gettimeofdayName, clockGetresName, versionName, strtabSize,
           AlignUp(strtab + strtabSize, 16))
  }

  lemma LayoutValues(version: seq<byte>)
    requires |version| == 10
    ensures LayoutOf(version) == Layout(176, 320, 352, 448, 456, 484, 22, 42, 62, 73, 560)
  {
  }

  // --- the tables, field by field ---

  function ElfHeader(machine: nat): seq<seq<byte>> {
    [[0x7f, 0x45, 0x4c, 0x46, 2, 1, 1], Zeros(9), LE(ET_DYN, 2), LE(machine, 2), LE(EV_CURRENT, 4), Zeros(8),
     LE(PHOFF, 8), Zeros(12), LE(64, 2), LE(PHENTSIZE, 2), LE(PHNUM, 2), Zeros(6)]
  }

  function ProgramHeader(kind: nat, flags: nat, offset: nat, vaddr: nat, filesz: nat, memsz: nat, align: nat): seq<seq<byte>> {
    [LE(kind, 4), LE(flags, 4), LE(offset, 8), LE(vaddr, 8), Zeros(8), LE(filesz, 8), LE(memsz, 8), LE(align, 8)]
  }

  function DynamicEntries(l: Layout): (s: seq<(nat, nat)>)
    ensures |s| == 9
  {
    [(DT_HASH, l.hash), (DT_STRTAB, l.strtab), (DT_SYMTAB, l.symtab), (DT_STRSZ, l.strtabSize),
     (DT_SYMENT, 24), (DT_VERSYM, l.versym), (DT_VERDEF, l.verdef), (DT_VERDEFNUM, 1), (DT_NULL, 0)]
  }

  function DynamicBytes(entries: seq<(nat, nat)>): (s: seq<byte>)
    ensures |s| == 16 * |entries|
  {
    if entries == [] then []
    else LE(entries[0].0, 8) + LE(entries[0].1, 8) + DynamicBytes(entries[1..])
  }

  function HashTable(): seq<seq<byte>> {
    [LE(1, 4), LE(4, 4), LE(1, 4), LE(0, 4), LE(2, 4), LE(3, 4), LE(0, 4)]
  }

  function Symbol(name: nat, value: nat, size: nat): seq<seq<byte>> {
    [LE(name, 4), [GLOBAL_FUNC], [0], LE(1, 2), LE(value, 8), LE(size, 8)]
  }

  function Versym(): seq<seq<byte>> { [LE(0, 2), LE(2, 2), LE(2, 2), LE(2, 2)] }

  function Verdef(version: seq<byte>, name: nat): seq<seq<byte>> {
    [LE(1, 2), LE(0, 2), LE(2, 2), LE(1, 2), LE(ElfHash(version), 4), LE(20, 4), LE(0, 4), LE(name, 4), LE(0, 4)]
  }

  function Strtab(version: seq<byte>): seq<seq<byte>> {
    [[0], CLOCK_SYMBOL + [0], GETTIMEOFDAY_SYMBOL + [0], CLOCK_GETRES_SYMBOL + [0], version + [0]]
  }

  // --- the same tables as bytes ---

  function ElfHeaderBytes(machine: nat): (s: seq<byte>) ensures |s| == 64 { HeaderSize(machine); Cat(ElfHeader(machine)) }

  function ProgramHeaderBytes(kind: nat, flags: nat, offset: nat, size: nat, align: nat): (s: seq<byte>)
    ensures |s| == 56
  {
    ProgramHeaderSize(kind, flags, offset, offset, size, size, align);
    Cat(ProgramHeader(kind, flags, offset, offset, size, size, align))
  }

  function HashBytes(): (s: seq<byte>) ensures |s| == 28 { HashSizes(); Cat(HashTable()) }

  function SymbolBytes(name: nat, value: nat, size: nat): (s: seq<byte>) ensures |s| == 24 {
    SymbolSize(name, value, size);
    Cat(Symbol(name, value, size))
  }

  function VersymBytes(): (s: seq<byte>) ensures |s| == 8 { VersymSizes(); Cat(Versym()) }

  function VerdefBytes(version: seq<byte>, name: nat): (s: seq<byte>) ensures |s| == 28 {
    VerdefSizes(version, name);
    Cat(Verdef(version, name))
  }

  function StrtabBytes(version: seq<byte>): (s: seq<byte>)
    requires |version| == 10
    ensures |s| == 73
  {
    StrtabSizes(version);
    Cat(Strtab(version))
  }

  /** The page, part by part, before the two data words are stored. */
  function Parts(b: Blob, l: Layout): (f: seq<seq<byte>>)
    requires |b.version| == 10 && l.code + |b.code| <= PAGE_SIZE
    ensures |f| == 16
  {
    [ElfHeaderBytes(b.machine),
     ProgramHeaderBytes(PT_LOAD, PF_R + PF_X, 0, PAGE_SIZE, PAGE_SIZE),
     ProgramHeaderBytes(PT_DYNAMIC, PF_R, l.dynamic, DYNAMIC_SIZE, 8),
     DynamicBytes(DynamicEntries(l)),
     HashBytes(),
     Zeros(4),
     Zeros(24),
     SymbolBytes(CLOCK_NAME, l.code, b.clockSize),
     SymbolBytes(l.gettimeofdayName, l.code + b.gettimeofdayOffset, b.gettimeofdaySize),
     SymbolBytes(l.clockGetresName, l.code + b.clockGetresOffset, b.clockGetresSize),
     VersymBytes(),
     VerdefBytes(b.version, l.versionName),
     StrtabBytes(b.version),
     Zeros(3),
     b.code,
     Zeros(PAGE_SIZE - l.code - |b.code|)]
  }

  predicate Fits(b: Blob) {
    LayoutOf(b.version).code + |b.code| <= PAGE_SIZE
  }

  /** The page before the data words: everything tiles it exactly. */
  function Page(b: Blob, l: Layout): (m: seq<byte>)
    requires |b.version| == 10 && l.code == 560 && l.code + |b.code| <= PAGE_SIZE
    ensures |m| == PAGE_SIZE
  {
    PartOffsets(b, l);
    CatLength(Parts(b, l));
    Cat(Parts(b, l))
  }

  function WithWords(page: seq<byte>, a: nat, x: nat, b: nat, y: nat): (m: seq<byte>)
    requires a + 8 <= |page| && b + 8 <= |page|
    ensures |m| == |page|
  {
    Put(Put(page, a, LE(x, 8)), b, LE(y, 8))
  }

  /** The finished image. */
  function Image(b: Blob, freq: nat, wall: nat): (m: seq<byte>)
    requires WellFormed(b) && Fits(b)
    ensures |m| == PAGE_SIZE
  {
    LayoutValues(b.version);
    var l := LayoutOf(b.version);
    WithWords(Page(b, l), l.code + b.freqOffset, freq, l.code + b.wallOffset, wall)
  }

  lemma HeaderSize(machine: nat)
    ensures |Cat(ElfHeader(machine))| == 64
    ensures var f := ElfHeader(machine);
      && At(f, 0) == 0 && At(f, 1) == 7 && At(f, 2) == 16 && At(f, 3) == 18 && At(f, 4) == 20 && At(f, 5) == 24
      && At(f, 6) == 32 && At(f, 7) == 40 && At(f, 8) == 52 && At(f, 9) == 54 && At(f, 10) == 56 && At(f, 11) == 58
  {
    var f := ElfHeader(machine);
    CatLength(f);
    AtNext(f, 0);
    AtNext(f, 1);
    AtNext(f, 2);
    AtNext(f, 3);
    AtNext(f, 4);
    AtNext(f, 5);
    AtNext(f, 6);
    AtNext(f, 7);
    AtNext(f, 8);
    AtNext(f, 9);
    AtNext(f, 10);
    AtNext(f, 11);
  }

  lemma ProgramHeaderSize(k: nat, fl: nat, o: nat, v: nat, fs: nat, ms: nat, al: nat)
    ensures var f := ProgramHeader(k, fl, o, v, fs, ms, al);
      && |Cat(f)| == 56 && At(f, 0) == 0 && At(f, 1) == 4 && At(f, 2) == 8 && At(f, 3) == 16
      && At(f, 4) == 24 && At(f, 5) == 32 && At(f, 6) == 40 && At(f, 7) == 48
  {
    var f := ProgramHeader(k, fl, o, v, fs, ms, al);
    CatLength(f);
    AtNext(f, 0);
    AtNext(f, 1);
    AtNext(f, 2);
    AtNext(f, 3);
    AtNext(f, 4);
    AtNext(f, 5);
    AtNext(f, 6);
    AtNext(f, 7);
  }

  lemma SymbolSize(n: nat, v: nat, s: nat)
    ensures var f := Symbol(n, v, s);
      |Cat(f)| == 24 && At(f, 0) == 0 && At(f, 1) == 4 && At(f, 2) == 5 && At(f, 3) == 6 && At(f, 4) == 8 && At(f, 5) == 16
  {
    var f := Symbol(n, v, s);
    CatLength(f);
    AtNext(f, 0);
    AtNext(f, 1);
    AtNext(f, 2);
    AtNext(f, 3);
    AtNext(f, 4);
    AtNext(f, 5);
  }

  lemma HashSizes()
    ensures |Cat(HashTable())| == 28
    ensures var f := HashTable(); At(f, 0) == 0 && At(f, 1) == 4 && At(f, 2) == 8 && At(f, 3) == 12 && At(f, 4) == 16 && At(f, 5) == 20 && At(f, 6) == 24
  {
    var f := HashTable();
    CatLength(f);
    AtNext(f, 0);
    AtNext(f, 1);
    AtNext(f, 2);
    AtNext(f, 3);
    AtNext(f, 4);
    AtNext(f, 5);
    AtNext(f, 6);
  }

  lemma VersymSizes()
    ensures |Cat(Versym())| == 8
    ensures var f := Versym(); At(f, 0) == 0 && At(f, 1) == 2 && At(f, 2) == 4 && At(f, 3) == 6
  {
    var f := Versym();
    CatLength(f);
    AtNext(f, 0);
    AtNext(f, 1);
    AtNext(f, 2);
    AtNext(f, 3);
  }

  lemma VerdefSizes(version: seq<byte>, name: nat)
    ensures |Cat(Verdef(version, name))| == 28
    ensures var f := Verdef(version, name);
      && At(f, 0) == 0 && At(f, 1) == 2 && At(f, 2) == 4 && At(f, 3) == 6 && At(f, 4) == 8
      && At(f, 5) == 12 && At(f, 6) == 16 && At(f, 7) == 20 && At(f, 8) == 24
  {
    var f := Verdef(version, name);
    CatLength(f);
    AtNext(f, 0);
    AtNext(f, 1);
    AtNext(f, 2);
    AtNext(f, 3);
    AtNext(f, 4);
    AtNext(f, 5);
    AtNext(f, 6);
    AtNext(f, 7);
    AtNext(f, 8);
  }

  lemma StrtabSizes(version: seq<byte>)
    requires |version| == 10
    ensures |Cat(Strtab(version))| == 73
    ensures var f := Strtab(version); At(f, 0) == 0 && At(f, 1) == 1 && At(f, 2) == 22 && At(f, 3) == 42 && At(f, 4) == 62
  {
    var f := Strtab(version);
    CatLength(f);
    AtNext(f, 0);
    AtNext(f, 1);
    AtNext(f, 2);
    AtNext(f, 3);
    AtNext(f, 4);
  }

  lemma SixteenOffsets(f: seq<seq<byte>>, code: nat)
    requires |f| == 16 && |f[0]| == 64 && |f[1]| == 56 && |f[2]| == 56 && |f[3]| == 144 && |f[4]| == 28 && |f[5]| == 4
    requires |f[6]| == |f[7]| == |f[8]| == |f[9]| == 24 && |f[10]| == 8 && |f[11]| == 28 && |f[12]| == 73
    requires |f[13]| == 3 && |f[14]| == code
    ensures At(f, 0) == 0 && At(f, 1) == 64 && At(f, 2) == 120 && At(f, 3) == 176 && At(f, 4) == 320 && At(f, 5) == 348
    ensures At(f, 6) == 352 && At(f, 7) == 376 && At(f, 8) == 400 && At(f, 9) == 424
    ensures At(f, 10) == 448 && At(f, 11) == 456 && At(f, 12) == 484 && At(f, 13) == 557 && At(f, 14) == 560
    ensures At(f, 15) == 560 + code && At(f, 16) == 560 + code + |f[15]|
  {
    AtNext(f, 0);
    AtNext(f, 1);
    AtNext(f, 2);
    AtNext(f, 3);
    AtNext(f, 4);
    AtNext(f, 5);
    AtNext(f, 6);
    AtNext(f, 7);
    AtNext(f, 8);
    AtNext(f, 9);
    AtNext(f, 10);
    AtNext(f, 11);
    AtNext(f, 12);
    AtNext(f, 13);
    AtNext(f, 14);
    AtNext(f, 15);
  }

  /** The parts tile the page: disjoint, in order, at the offsets the tables refer to. */
  lemma PartOffsets(b: Blob, l: Layout)
    requires |b.version| == 10 && l.code == 560 && l.code + |b.code| <= PAGE_SIZE
    ensures var f := Parts(b, l);
      && At(f, 0) == 0 && At(f, 1) == 64 && At(f, 2) == 120 && At(f, 3) == 176 && At(f, 4) == 320 && At(f, 5) == 348
      && At(f, 6) == 352 && At(f, 7) == 376 && At(f, 8) == 400 && At(f, 9) == 424
      && At(f, 10) == 448 && At(f, 11) == 456 && At(f, 12) == 484 && At(f, 13) == 557 && At(f, 14) == 560
      && At(f, 15) == 560 + |b.code| && At(f, 16) == PAGE_SIZE
  {
    hide ElfHeaderBytes, ProgramHeaderBytes, DynamicBytes, HashBytes, SymbolBytes, VersymBytes, VerdefBytes, StrtabBytes;
    SixteenOffsets(Parts(b, l), |b.code|);
  }

  /** Stores at or above the end of part `k` leave it in place. */
  lemma StoresKeep(f: seq<seq<byte>>, k: nat, a: nat, x: seq<byte>, b: nat, y: seq<byte>)
    requires k < |f| && a + |x| <= |Cat(f)| && b + |y| <= |Cat(f)|
    requires At(f, k) + |f[k]| <= a && At(f, k) + |f[k]| <= b
    ensures Holds(Put(Put(Cat(f), a, x), b, y), At(f, k), f[k])
  {
    CatSlice(f, k);
    PutElsewhere(Cat(f), a, x, At(f, k), f[k]);
    PutElsewhere(Put(Cat(f), a, x), b, y, At(f, k), f[k]);
  }

  lemma BelowCode(f: seq<seq<byte>>, k: nat, code: nat)
    requires k < 14 <= |f| && At(f, 14) == code
    ensures At(f, k) + |f[k]| <= code
  {
    AtNext(f, k);
    AtMonotone(f, k + 1, 14);
  }

  /** Every part below the code survives the two stores into the code. */
  lemma ImageHolds(b: Blob, freq: nat, wall: nat, k: nat)
    requires WellFormed(b) && Fits(b) && k < 14
    ensures var f := Parts(b, LayoutOf(b.version)); Holds(Image(b, freq, wall), At(f, k), f[k])
  {
    hide Parts, Put, Cat, At, Holds, LE;
    LayoutValues(b.version);
    var l := LayoutOf(b.version);
    var f := Parts(b, l);
    PartOffsets(b, l);
    CatLength(f);
    BelowCode(f, k, l.code);
    StoresKeep(f, k, l.code + b.freqOffset, LE(freq, 8), l.code + b.wallOffset, LE(wall, 8));
  }

  lemma WordsStored(page: seq<byte>, a: nat, x: nat, b: nat, y: nat)
    requires a + 8 <= |page| && b + 8 <= |page| && (a + 8 <= b || b + 8 <= a) && x < Pow256(8) && y < Pow256(8)
    ensures var m := WithWords(page, a, x, b, y); Read(m, a, 8) == x && Read(m, b, 8) == y
  {
    var once := Put(page, a, LE(x, 8));
    PutHere(page, a, LE(x, 8));
    PutElsewhere(once, b, LE(y, 8), a, LE(x, 8));
    PutHere(once, b, LE(y, 8));
    ReadValue(Put(once, b, LE(y, 8)), a, x, 8);
    ReadValue(Put(once, b, LE(y, 8)), b, y, 8);
  }

  /** The routines' data words hold the frequency and the wall offset. */
  lemma DataWords(b: Blob, freq: nat, wall: nat)
    requires WellFormed(b) && Fits(b) && freq < Pow256(8) && wall < Pow256(8)
    ensures Read(Image(b, freq, wall), LayoutOf(b.version).code + b.freqOffset, 8) == freq
    ensures Read(Image(b, freq, wall), LayoutOf(b.version).code + b.wallOffset, 8) == wall
  {
    hide Put, LE, Read, Page, WithWords, LayoutOf;
    LayoutValues(b.version);
    var l := LayoutOf(b.version);
    WordsStored(Page(b, l), l.code + b.freqOffset, freq, l.code + b.wallOffset, wall);
  }

  lemma LastWordReplaced(page: seq<byte>, a: nat, x: nat, b: nat, y: nat, z: nat)
    requires a + 8 <= |page| && b + 8 <= |page|
    ensures Put(WithWords(page, a, x, b, y), b, LE(z, 8)) == WithWords(page, a, x, b, z)
  {
    PutTwice(Put(page, a, LE(x, 8)), b, LE(y, 8), LE(z, 8));
  }

  /** Storing a new wall offset into a finished image gives the image built with that offset. */
  lemma PatchIsRebuild(b: Blob, freq: nat, wall: nat, newWall: nat)
    requires WellFormed(b) && Fits(b)
    ensures LayoutOf(b.version).code + b.wallOffset + 8 <= PAGE_SIZE
    ensures Put(Image(b, freq, wall), LayoutOf(b.version).code + b.wallOffset, LE(newWall, 8)) == Image(b, freq, newWall)
  {
    hide Put, LE, Page, WithWords, LayoutOf;
    LayoutValues(b.version);
    var l := LayoutOf(b.version);
    LastWordReplaced(Page(b, l), l.code + b.freqOffset, freq, l.code + b.wallOffset, wall, newWall);
  }

  // ------------------------------------------------------------------
  // A loader's lookup, following the ELF tables and nothing else
  // ------------------------------------------------------------------

  function Read(m: seq<byte>, off: nat, width: nat): nat {
    if off + width <= |m| then FromLE(m[off..off + width]) else 0
  }

  lemma ReadValue(m: seq<byte>, off: nat, value: nat, width: nat)
    requires Holds(m, off, LE(value, width)) && value < Pow256(width)
    ensures Read(m, off, width) == value
  {
    LERoundTrip(value, width);
  }

  predicate CStringIs(m: seq<byte>, off: nat, s: seq<byte>) {
    Holds(m, off, s + [0])
  }

  /** `p_offset` of the first program header of a kind. */
  function FindHeader(m: seq<byte>, at: nat, entsize: nat, count: nat, kind: nat): Option<nat>
    decreases count
  {
    if count == 0 then None
    else if Read(m, at, 4) == kind then Some(Read(m, at + 8, 8))
    else FindHeader(m, at + entsize, entsize, count - 1, kind)
  }

  /** The value of a dynamic tag, searched up to `DT_NULL`. */
  function DynamicValue(m: seq<byte>, at: nat, tag: nat): Option<nat>
    decreases |m| - at
  {
    if at + 16 > |m| || Read(m, at, 8) == 0 then None
    else if Read(m, at, 8) == tag then Some(Read(m, at + 8, 8))
    else DynamicValue(m, at + 16, tag)
  }

  datatype Tables = Tables(hash: nat, strtab: nat, symtab: nat, versym: nat, verdef: nat, verdefs: nat)

  /** The tables a loader needs, under the numbers the gABI gives PT_DYNAMIC and the tags. */
  function ReadTables(m: seq<byte>): Option<Tables> {
    match FindHeader(m, Read(m, 32, 8), Read(m, 54, 2), Read(m, 56, 2), 2)
    case None => None
    case Some(d) =>
      match (DynamicValue(m, d, 4), DynamicValue(m, d, 5), DynamicValue(m, d, 6),
             DynamicValue(m, d, 0x6fff_fff0), DynamicValue(m, d, 0x6fff_fffc), DynamicValue(m, d, 0x6fff_fffd))
      case (Some(h), Some(st), Some(sy), Some(vs), Some(vd), Some(n)) => Some(Tables(h, st, sy, vs, vd, n))
      case _ => None
  }

  /** Some version definition from `at` on has this index and this name. */
  predicate VersionIs(m: seq<byte>, strtab: nat, at: nat, count: nat, index: nat, version: seq<byte>)
    decreases count
  {
    count > 0 &&
    (|| (&& Read(m, at + 4, 2) % 0x8000 == index % 0x8000
         && Read(m, at + 8, 4) == Reference(version)
         && CStringIs(m, strtab + Read(m, at + Read(m, at + 12, 4), 4), version))
     || (Read(m, at + 16, 4) != 0 && VersionIs(m, strtab, at + Read(m, at + 16, 4), count - 1, index, version)))
  }

  /** Symbol `y` is a defined global function with this name and version. */
  predicate SymbolIs(m: seq<byte>, t: Tables, y: nat, name: seq<byte>, version: seq<byte>) {
    var sym := t.symtab + 24 * y;
    && Read(m, sym + 4, 1) == 0x12 && Read(m, sym + 6, 2) != 0
    && CStringIs(m, t.strtab + Read(m, sym, 4), name)
    && VersionIs(m, t.strtab, t.verdef, t.verdefs, Read(m, t.versym + 2 * y, 2), version)
  }

  datatype Answer = Address(value: nat, size: nat) | Absent | Endless

  /** Follow a hash chain to its end; `steps` is the chain length, beyond which it must be cyclic. */
  function Walk(m: seq<byte>, t: Tables, y: nat, name: seq<byte>, version: seq<byte>, steps: nat): Answer
    decreases steps
  {
    if y == 0 then Absent
    else if steps == 0 then Endless
    else if SymbolIs(m, t, y, name, version) then
      Address(Read(m, t.symtab + 24 * y + 8, 8), Read(m, t.symtab + 24 * y + 16, 8))
    else Walk(m, t, Read(m, t.hash + 8 + 4 * Read(m, t.hash, 4) + 4 * y, 4), name, version, steps - 1)
  }

  /** The lookup of System V gABI chapter 5, "Hash Table", with GNU symbol versions. */
  function Lookup(m: seq<byte>, name: seq<byte>, version: seq<byte>): Answer {
    match ReadTables(m)
    case None => Absent
    case Some(t) =>
      var buckets := Read(m, t.hash, 4);
      if buckets == 0 then Absent
      else
        var first := Read(m, t.hash + 8 + 4 * (Reference(name) % buckets), 4);
        Walk(m, t, first, name, version, Read(m, t.hash + 4, 4))
  }

  // --- what the lookup reads in a built image ---

  lemma {:induction false} DynamicFound(m: seq<byte>, at: nat, entries: seq<(nat, nat)>, i: nat)
    requires Holds(m, at, DynamicBytes(entries)) && i < |entries|
    requires forall k | 0 <= k < |entries| :: entries[k].0 < Pow256(8) && entries[k].1 < Pow256(8)
    requires forall k | 0 <= k < i :: entries[k].0 != DT_NULL && entries[k].0 != entries[i].0
    requires entries[i].0 != DT_NULL
    ensures DynamicValue(m, at, entries[i].0) == Some(entries[i].1)
    decreases i
  {
    var e, rest := entries[0], entries[1..];
    DynamicEntryAt(m, at, entries);
    ReadValue(m, at, e.0, 8);
    ReadValue(m, at + 8, e.1, 8);
    if i > 0 { DynamicFound(m, at + 16, rest, i - 1); }
  }

  lemma HoldsThree(m: seq<byte>, at: nat, a: seq<byte>, b: seq<byte>, c: seq<byte>)
    requires Holds(m, at, a + b + c)
    ensures Holds(m, at, a) && Holds(m, at + |a|, b) && Holds(m, at + |a| + |b|, c)
  {
    var t := a + b + c;
    SliceOfSlice(m, at, at + |t|, 0, |a|);
    SliceOfSlice(m, at, at + |t|, |a|, |a| + |b|);
    SliceOfSlice(m, at, at + |t|, |a| + |b|, |t|);
    assert t[0..|a|] == a && t[|a|..|a| + |b|] == b && t[|a| + |b|..|t|] == c;
  }

  lemma DynamicEntryAt(m: seq<byte>, at: nat, entries: seq<(nat, nat)>)
    requires Holds(m, at, DynamicBytes(entries)) && entries != []
    ensures Holds(m, at, LE(entries[0].0, 8)) && Holds(m, at + 8, LE(entries[0].1, 8))
    ensures Holds(m, at + 16, DynamicBytes(entries[1..]))
  {
    hide LE;
    HoldsThree(m, at, LE(entries[0].0, 8), LE(entries[0].1, 8), DynamicBytes(entries[1..]));
  }

  lemma HoldsAt(m: seq<byte>, off: nat, s: seq<byte>, i: nat)
    requires Holds(m, off, s) && i < |s|
    ensures off + i < |m| && m[off + i] == s[i]
  {
    assert m[off..off + |s|][i] == m[off + i];
  }

  /** A NUL-terminated string is read as itself only. */
  lemma CStringUnique(m: seq<byte>, off: nat, a: seq<byte>, b: seq<byte>)
    requires CStringIs(m, off, a) && NulFree(a) && NulFree(b)
    ensures CStringIs(m, off, b) <==> a == b
  {
    if CStringIs(m, off, b) {
      if |a| < |b| { HoldsAt(m, off, a + [0], |a|); HoldsAt(m, off, b + [0], |a|); }
      if |b| < |a| { HoldsAt(m, off, a + [0], |b|); HoldsAt(m, off, b + [0], |b|); }
      assert |a| == |b|;
      forall i | 0 <= i < |a| ensures a[i] == b[i] { HoldsAt(m, off, a + [0], i); HoldsAt(m, off, b + [0], i); }
    }
  }

  lemma FieldRead(m: seq<byte>, base: nat, fields: seq<seq<byte>>, i: nat, value: nat, width: nat)
    requires Holds(m, base, Cat(fields)) && i < |fields| && fields[i] == LE(value, width) && value < Pow256(width)
    ensures Read(m, base + At(fields, i), width) == value
  {
    HoldsField(m, base, fields, i);
    ReadValue(m, base + At(fields, i), value, width);
  }

  lemma HeaderReads(m: seq<byte>, machine: nat)
    requires Holds(m, 0, ElfHeaderBytes(machine))
    ensures Read(m, 32, 8) == PHOFF && Read(m, 54, 2) == PHENTSIZE && Read(m, 56, 2) == PHNUM
  {
    hide Cat, Read, LE, Holds;
    var f := ElfHeader(machine);
    HeaderSize(machine);
    FieldRead(m, 0, f, 6, PHOFF, 8);
    FieldRead(m, 0, f, 9, PHENTSIZE, 2);
    FieldRead(m, 0, f, 10, PHNUM, 2);
  }

  lemma ProgramHeaderReads(m: seq<byte>, at: nat, kind: nat, flags: nat, offset: nat, size: nat, align: nat)
    requires Holds(m, at, ProgramHeaderBytes(kind, flags, offset, size, align)) && kind < Pow256(4) && offset < Pow256(8)
    ensures Read(m, at, 4) == kind && Read(m, at + 8, 8) == offset
  {
    hide Cat, Read, LE, Holds;
    var f := ProgramHeader(kind, flags, offset, offset, size, size, align);
    ProgramHeaderSize(kind, flags, offset, offset, size, size, align);
    FieldRead(m, at, f, 0, kind, 4);
    FieldRead(m, at, f, 2, offset, 8);
  }

  lemma HashReads(m: seq<byte>, at: nat)
    requires Holds(m, at, HashBytes())
    ensures Read(m, at, 4) == 1 && Read(m, at + 4, 4) == 4 && Read(m, at + 8, 4) == 1
    ensures Read(m, at + 16, 4) == 2 && Read(m, at + 20, 4) == 3 && Read(m, at + 24, 4) == 0
  {
    hide Cat, Read, LE, Holds;
    var f := HashTable();
    HashSizes();
    FieldRead(m, at, f, 0, 1, 4);
    FieldRead(m, at, f, 1, 4, 4);
    FieldRead(m, at, f, 2, 1, 4);
    FieldRead(m, at, f, 4, 2, 4);
    FieldRead(m, at, f, 5, 3, 4);
    FieldRead(m, at, f, 6, 0, 4);
  }

  lemma SymbolReads(m: seq<byte>, at: nat, name: nat, value: nat, size: nat)
    requires Holds(m, at, SymbolBytes(name, value, size))
    requires name < Pow256(4) && value < Pow256(8) && size < Pow256(8)
    ensures Read(m, at, 4) == name && Read(m, at + 4, 1) == GLOBAL_FUNC && Read(m, at + 6, 2) == 1
    ensures Read(m, at + 8, 8) == value && Read(m, at + 16, 8) == size
  {
    hide Cat, Read, Holds;
    var f := Symbol(name, value, size);
    SymbolSize(name, value, size);
    FieldRead(m, at, f, 0, name, 4);
    FieldRead(m, at, f, 1, GLOBAL_FUNC, 1);
    FieldRead(m, at, f, 3, 1, 2);
    FieldRead(m, at, f, 4, value, 8);
    FieldRead(m, at, f, 5, size, 8);
  }

  lemma VersymReads(m: seq<byte>, at: nat)
    requires Holds(m, at, VersymBytes())
    ensures Read(m, at + 2, 2) == 2 && Read(m, at + 4, 2) == 2 && Read(m, at + 6, 2) == 2
  {
    hide Cat, Read, LE, Holds;
    var f := Versym();
    VersymSizes();
    FieldRead(m, at, f, 1, 2, 2);
    FieldRead(m, at, f, 2, 2, 2);
    FieldRead(m, at, f, 3, 2, 2);
  }

  lemma VerdefReads(m: seq<byte>, at: nat, version: seq<byte>, name: nat)
    requires Holds(m, at, VerdefBytes(version, name)) && name < Pow256(4)
    ensures Read(m, at + 4, 2) == 2 && Read(m, at + 8, 4) == Reference(version) && Read(m, at + 12, 4) == 20
    ensures Read(m, at + 16, 4) == 0 && Read(m, at + 20, 4) == name
  {
    hide Cat, Read, LE, Holds, ElfHash, Reference;
    var f := Verdef(version, name);
    VerdefSizes(version, name);
    FieldRead(m, at, f, 2, 2, 2);
    FieldRead(m, at, f, 4, ElfHash(version), 4);
    HashIsReference(version);
    FieldRead(m, at, f, 5, 20, 4);
    FieldRead(m, at, f, 6, 0, 4);
    FieldRead(m, at, f, 7, name, 4);
  }

  lemma StrtabReads(m: seq<byte>, at: nat, version: seq<byte>)
    requires |version| == 10 && Holds(m, at, StrtabBytes(version))
    ensures CStringIs(m, at + 1, CLOCK_SYMBOL) && CStringIs(m, at + 22, GETTIMEOFDAY_SYMBOL)
    ensures CStringIs(m, at + 42, CLOCK_GETRES_SYMBOL) && CStringIs(m, at + 62, version)
  {
    hide Cat, Holds;
    var f := Strtab(version);
    StrtabSizes(version);
    HoldsField(m, at, f, 1);
    HoldsField(m, at, f, 2);
    HoldsField(m, at, f, 3);
    HoldsField(m, at, f, 4);
  }

  ghost predicate Wide(e: (nat, nat)) { e.0 < Pow256(8) && e.1 < Pow256(8) }

  /** Distinct tags, only the last of them `DT_NULL`, every word within its width. */
  ghost predicate Searchable(entries: seq<(nat, nat)>) {
    && (forall k | 0 <= k < |entries| :: Wide(entries[k]))
    && (forall j, k | 0 <= j < k < |entries| :: entries[j].0 != entries[k].0 && entries[j].0 != DT_NULL)
  }

  lemma DynamicSearch(m: seq<byte>, at: nat, entries: seq<(nat, nat)>, i: nat)
    requires Holds(m, at, DynamicBytes(entries)) && Searchable(entries) && i + 1 < |entries|
    ensures DynamicValue(m, at, entries[i].0) == Some(entries[i].1)
  {
    hide DynamicBytes, DynamicValue, Holds;
    assert entries[i].0 != entries[i + 1].0;
    assert forall k | 0 <= k < |entries| :: Wide(entries[k]);
    DynamicFound(m, at, entries, i);
  }

  predicate Small(l: Layout) {
    var w := Pow256(8);
    l.hash < w && l.symtab < w && l.versym < w && l.verdef < w && l.strtab < w && l.strtabSize < w
  }

  lemma DynamicSearchable(l: Layout)
    requires Small(l)
    ensures Searchable(DynamicEntries(l))
  {
  }

  lemma DynamicTables(m: seq<byte>, l: Layout)
    requires Holds(m, l.dynamic, DynamicBytes(DynamicEntries(l))) && Small(l)
    ensures DynamicValue(m, l.dynamic, DT_HASH) == Some(l.hash) && DynamicValue(m, l.dynamic, DT_STRTAB) == Some(l.strtab)
    ensures DynamicValue(m, l.dynamic, DT_SYMTAB) == Some(l.symtab) && DynamicValue(m, l.dynamic, DT_VERSYM) == Some(l.versym)
    ensures DynamicValue(m, l.dynamic, DT_VERDEF) == Some(l.verdef) && DynamicValue(m, l.dynamic, DT_VERDEFNUM) == Some(1)
  {
    hide Searchable, DynamicBytes, DynamicValue, Holds, Small;
    var e := DynamicEntries(l);
    DynamicSearchable(l);
    DynamicSearch(m, l.dynamic, e, 0);
    DynamicSearch(m, l.dynamic, e, 1);
    DynamicSearch(m, l.dynamic, e, 2);
    DynamicSearch(m, l.dynamic, e, 5);
    DynamicSearch(m, l.dynamic, e, 6);
    DynamicSearch(m, l.dynamic, e, 7);
  }

  lemma TablesFound(m: seq<byte>, l: Layout)
    requires Read(m, 32, 8) == PHOFF && Read(m, 54, 2) == PHENTSIZE && Read(m, 56, 2) == PHNUM
    requires Read(m, 64, 4) == PT_LOAD && Read(m, 120, 4) == PT_DYNAMIC && Read(m, 128, 8) == l.dynamic
    requires Holds(m, l.dynamic, DynamicBytes(DynamicEntries(l))) && Small(l)
    ensures ReadTables(m) == Some(Tables(l.hash, l.strtab, l.symtab, l.versym, l.verdef, 1))
  {
    hide Read, DynamicBytes, DynamicValue, Holds;
    DynamicTables(m, l);
    assert FindHeader(m, 64, 56, 2, PT_DYNAMIC) == FindHeader(m, 120, 56, 1, PT_DYNAMIC) == Some(l.dynamic);
  }

  /** Symbol `y` of the tables is a defined global function called `name`, under the one version there is. */
  ghost predicate Listed(m: seq<byte>, t: Tables, y: nat, name: seq<byte>, value: nat, size: nat) {
    var sym := t.symtab + 24 * y;
    && Read(m, sym + 4, 1) == GLOBAL_FUNC && Read(m, sym + 6, 2) == 1
    && CStringIs(m, t.strtab + Read(m, sym, 4), name) && NulFree(name)
    && Read(m, t.versym + 2 * y, 2) == 2
    && Read(m, sym + 8, 8) == value && Read(m, sym + 16, 8) == size
  }

  ghost predicate OneVersion(m: seq<byte>, t: Tables, version: seq<byte>) {
    && t.verdefs == 1 && NulFree(version)
    && Read(m, t.verdef + 4, 2) == 2 && Read(m, t.verdef + 8, 4) == Reference(version)
    && Read(m, t.verdef + 12, 4) == 20 && Read(m, t.verdef + 16, 4) == 0
    && CStringIs(m, t.strtab + Read(m, t.verdef + 20, 4), version)
  }

  lemma ListedMatches(m: seq<byte>, t: Tables, y: nat, n: seq<byte>, v: nat, s: nat, ver: seq<byte>, name: seq<byte>, version: seq<byte>)
    requires Listed(m, t, y, n, v, s) && OneVersion(m, t, ver) && NulFree(name) && NulFree(version)
    ensures SymbolIs(m, t, y, name, version) <==> name == n && version == ver
  {
    hide Read, CStringIs, Reference;
    CStringUnique(m, t.strtab + Read(m, t.symtab + 24 * y, 4), n, name);
    CStringUnique(m, t.strtab + Read(m, t.verdef + 20, 4), ver, version);
  }

  /** What a lookup of a built image ought to answer. */
  function Exported(b: Blob, name: seq<byte>, version: seq<byte>): Answer {
    var code := LayoutOf(b.version).code;
    if version != b.version then Absent
    else if name == CLOCK_SYMBOL then Address(code, b.clockSize)
    else if name == GETTIMEOFDAY_SYMBOL then Address(code + b.gettimeofdayOffset, b.gettimeofdaySize)
    else if name == CLOCK_GETRES_SYMBOL then Address(code + b.clockGetresOffset, b.clockGetresSize)
    else Absent
  }

  lemma ThreeStepWalk(m: seq<byte>, t: Tables, b: Blob, name: seq<byte>, version: seq<byte>)
    requires NulFree(name) && NulFree(version) && OneVersion(m, t, b.version)
    requires Listed(m, t, 1, CLOCK_SYMBOL, LayoutOf(b.version).code, b.clockSize)
    requires Listed(m, t, 2, GETTIMEOFDAY_SYMBOL, LayoutOf(b.version).code + b.gettimeofdayOffset, b.gettimeofdaySize)
    requires Listed(m, t, 3, CLOCK_GETRES_SYMBOL, LayoutOf(b.version).code + b.clockGetresOffset, b.clockGetresSize)
    requires Read(m, t.hash, 4) == 1
    requires Read(m, t.hash + 16, 4) == 2 && Read(m, t.hash + 20, 4) == 3 && Read(m, t.hash + 24, 4) == 0
    ensures Walk(m, t, 1, name, version, 4) == Exported(b, name, version)
  {
    hide Read, SymbolIs, OneVersion, LayoutOf, CStringIs;
    ListedMatches(m, t, 1, CLOCK_SYMBOL, LayoutOf(b.version).code, b.clockSize, b.version, name, version);
    ListedMatches(m, t, 2, GETTIMEOFDAY_SYMBOL, LayoutOf(b.version).code + b.gettimeofdayOffset, b.gettimeofdaySize, b.version, name, version);
    ListedMatches(m, t, 3, CLOCK_GETRES_SYMBOL, LayoutOf(b.version).code + b.clockGetresOffset, b.clockGetresSize, b.version, name, version);
    assert Walk(m, t, 0, name, version, 1) == Absent;
    if !SymbolIs(m, t, 3, name, version) { assert Walk(m, t, 3, name, version, 2) == Absent; }
    if !SymbolIs(m, t, 2, name, version) { assert Walk(m, t, 2, name, version, 3) == Walk(m, t, 3, name, version, 2); }
    if !SymbolIs(m, t, 1, name, version) { assert Walk(m, t, 1, name, version, 4) == Walk(m, t, 2, name, version, 3); }
  }

  /** The page's bounds, in the widths the tables store. */
  lemma Widths(b: Blob)
    requires WellFormed(b) && Fits(b)
    ensures PAGE_SIZE < Pow256(4) <= Pow256(8) && b.clockSize <= PAGE_SIZE && b.gettimeofdaySize <= PAGE_SIZE
    ensures b.clockGetresSize <= PAGE_SIZE && |b.version| == 10
    ensures 560 + b.gettimeofdayOffset <= PAGE_SIZE && 560 + b.clockGetresOffset <= PAGE_SIZE && 560 + |b.code| <= PAGE_SIZE
  {
    LayoutValues(b.version);
  }

  lemma ImageTables(b: Blob, freq: nat, wall: nat)
    requires WellFormed(b) && Fits(b)
    ensures ReadTables(Image(b, freq, wall)) == Some(Tables(320, 484, 352, 448, 456, 1))
  {
    hide Image, ElfHeaderBytes, ProgramHeaderBytes, DynamicBytes, HashBytes, SymbolBytes, VersymBytes, VerdefBytes,
      StrtabBytes, LayoutOf, WellFormed, Fits, Read, ReadTables;
    var m, l := Image(b, freq, wall), LayoutOf(b.version);
    Widths(b);
    LayoutValues(b.version);
    PartOffsets(b, l);
    ImageHolds(b, freq, wall, 0);
    HeaderReads(m, b.machine);
    ImageHolds(b, freq, wall, 1);
    ProgramHeaderReads(m, 64, PT_LOAD, PF_R + PF_X, 0, PAGE_SIZE, PAGE_SIZE);
    ImageHolds(b, freq, wall, 2);
    ProgramHeaderReads(m, 120, PT_DYNAMIC, PF_R, l.dynamic, DYNAMIC_SIZE, 8);
    ImageHolds(b, freq, wall, 3);
    TablesFound(m, l);
  }

  lemma ImageVersion(b: Blob, freq: nat, wall: nat)
    requires WellFormed(b) && Fits(b)
    ensures OneVersion(Image(b, freq, wall), Tables(320, 484, 352, 448, 456, 1), b.version)
  {
    assert NulFree(b.version);
    hide Image, ElfHeaderBytes, ProgramHeaderBytes, DynamicBytes, HashBytes, SymbolBytes, VersymBytes, VerdefBytes,
      StrtabBytes, LayoutOf, WellFormed, Fits, Read, CStringIs, NulFree;
    var m, l := Image(b, freq, wall), LayoutOf(b.version);
    Widths(b);
    LayoutValues(b.version);
    PartOffsets(b, l);
    ImageHolds(b, freq, wall, 11);
    VerdefReads(m, 456, b.version, l.versionName);
    ImageHolds(b, freq, wall, 12);
    StrtabReads(m, 484, b.version);
  }

  /** The hash table: one bucket, whose chain visits symbols 1, 2 and 3 and ends. */
  lemma ImageChain(b: Blob, freq: nat, wall: nat)
    requires WellFormed(b) && Fits(b)
    ensures var m := Image(b, freq, wall);
      && Read(m, 320, 4) == 1 && Read(m, 324, 4) == 4 && Read(m, 328, 4) == 1
      && Read(m, 336, 4) == 2 && Read(m, 340, 4) == 3 && Read(m, 344, 4) == 0
  {
    hide Image, ElfHeaderBytes, ProgramHeaderBytes, DynamicBytes, HashBytes, SymbolBytes, VersymBytes, VerdefBytes,
      StrtabBytes, LayoutOf, WellFormed, Fits, Read;
    Widths(b);
    LayoutValues(b.version);
    PartOffsets(b, LayoutOf(b.version));
    ImageHolds(b, freq, wall, 4);
    HashReads(Image(b, freq, wall), 320);
  }

  lemma ImageSymbols(b: Blob, freq: nat, wall: nat)
    requires WellFormed(b) && Fits(b)
    ensures var m, t := Image(b, freq, wall), Tables(320, 484, 352, 448, 456, 1);
      && Listed(m, t, 1, CLOCK_SYMBOL, 560, b.clockSize)
      && Listed(m, t, 2, GETTIMEOFDAY_SYMBOL, 560 + b.gettimeofdayOffset, b.gettimeofdaySize)
      && Listed(m, t, 3, CLOCK_GETRES_SYMBOL, 560 + b.clockGetresOffset, b.clockGetresSize)
  {
    hide Image, ElfHeaderBytes, ProgramHeaderBytes, DynamicBytes, HashBytes, SymbolBytes, VersymBytes, VerdefBytes,
      StrtabBytes, LayoutOf, WellFormed, Fits, Read, CStringIs;
    var m, l := Image(b, freq, wall), LayoutOf(b.version);
    Widths(b);
    LayoutValues(b.version);
    PartOffsets(b, l);
    ImageHolds(b, freq, wall, 10);
    VersymReads(m, 448);
    ImageHolds(b, freq, wall, 12);
    StrtabReads(m, 484, b.version);
    ImageHolds(b, freq, wall, 7);
    SymbolReads(m, 376, CLOCK_NAME, l.code, b.clockSize);
    ImageHolds(b, freq, wall, 8);
    SymbolReads(m, 400, l.gettimeofdayName, l.code + b.gettimeofdayOffset, b.gettimeofdaySize);
    ImageHolds(b, freq, wall, 9);
    SymbolReads(m, 424, l.clockGetresName, l.code + b.clockGetresOffset, b.clockGetresSize);
  }

  /**
    For every name and version a caller can ask for, following the ELF tables
    of a built image answers the matching routine, and nothing else.
  */
  lemma LookupFindsExactly(b: Blob, freq: nat, wall: nat, name: seq<byte>, version: seq<byte>)
    requires WellFormed(b) && Fits(b) && NulFree(name) && NulFree(version)
    ensures Lookup(Image(b, freq, wall), name, version) == Exported(b, name, version)
  {
    hide Image, LayoutOf, WellFormed, Fits, Read, Listed, OneVersion, ElfHash, Walk, ReadTables, Exported, NulFree;
    var m, t := Image(b, freq, wall), Tables(320, 484, 352, 448, 456, 1);
    Widths(b);
    LayoutValues(b.version);
    ImageTables(b, freq, wall);
    ImageChain(b, freq, wall);
    ImageVersion(b, freq, wall);
    ImageSymbols(b, freq, wall);
    ThreeStepWalk(m, t, b, name, version);
  }
}
