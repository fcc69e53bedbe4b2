/** Where the kernel lies: get_kernel_map scans the ELF sections, and INIT's segments
    get a limit that covers what it finds.  All numbers are unsigned 32-bit, as in C,
    so that additions wrap. */
module KernelMap {
  import Bytes
  import Records
  import ElfFormat
  import opened Descriptor

  /** A section header: is it to be allocated (SHF_ALLOC), its address and its size. */
  datatype Section = Section(alloc: bool, addr: int, size: int) {
    predicate Valid() { U32(addr) && U32(size) }
    function End(): int { (addr + size) % 0x1_0000_0000 }

    /** Is byte `a` in the section? */
    predicate Has(a: int) { addr <= a < addr + size && a < 0x1_0000_0000 }

    /** The section does not reach the end of the 32-bit space. */
    predicate Fits() { size == 0 || addr + size < 0x1_0000_0000 }
  }

  // Offsets in the ELF header and in a section header.
  const E_SHOFF := 0x20
  const E_SHENTSIZE := 0x2E
  const E_SHNUM := 0x30
  const SH_FLAGS := 8
  const SH_ADDR := 12
  const SH_SIZE := 20

  predicate IsElf(file: seq<Bytes.byte>) {
    |file| >= 4 && file[..4] == [0x7F, 0x45, 0x4C, 0x46]
  }

  /** Where section header `i` starts, and how many there are. */
  function HeaderOffset(file: seq<Bytes.byte>, i: nat): nat
    requires |file| >= 0x34
  {
    Bytes.U32(file, E_SHOFF) + i * Bytes.U16(file, E_SHENTSIZE)
  }

  function Count(file: seq<Bytes.byte>): nat
    requires |file| >= 0x34
  {
    Bytes.U16(file, E_SHNUM)
  }

  /** The header and all section headers, of 40 bytes each, lie inside the file. */
  ghost predicate HeadersInside(file: seq<Bytes.byte>) {
    |file| >= 0x34 && forall i: nat | i < Count(file) :: HeaderOffset(file, i) + 40 <= |file|
  }

  /** Section `i`.  SHF_ALLOC is bit 1 of its flags. */
  function SectionAt(file: seq<Bytes.byte>, i: nat): (s: Section)
    requires |file| >= 0x34 && HeaderOffset(file, i) + 40 <= |file|
    ensures s.Valid()
  {
    var at := HeaderOffset(file, i);
    Section(Bytes.U32(file, at + SH_FLAGS) / 2 % 2 == 1, Bytes.U32(file, at + SH_ADDR), Bytes.U32(file, at + SH_SIZE))
  }

  /** The magic number, and the number, size and place of the section headers, are read
      where an ELF file has them. */
  lemma HeaderRead(file: seq<Bytes.byte>, h: ElfFormat.ElfHeader, i: nat)
    requires h.Starts(file)
    ensures |file| >= 0x34 && (IsElf(file) <==> h.ident[..4] == [0x7F, 0x45, 0x4C, 0x46])
    ensures Count(file) == h.shnum && HeaderOffset(file, i) == h.shoff + i * h.shentsize
  {
    hide Bytes.U32, Bytes.U16, Records.Encode;
    var fs := h.Fields();
    ElfFormat.HeaderOffsets(h);
    Records.WordInFile(file, 0, fs, 6);
    Records.HalfInFile(file, 0, fs, 11);
    Records.HalfInFile(file, 0, fs, 12);
    Records.FieldInFile(file, 0, fs, 0);
    assert Records.Offset(fs, 0) == 0;
    assert file[..4] == file[0..16][..4] == h.ident[..4];
  }

  /** And of each section header its flags, address and size. */
  lemma SectionRead(file: seq<Bytes.byte>, i: nat, s: ElfFormat.SectionHeader)
    requires |file| >= 0x34 && HeaderOffset(file, i) + 40 <= |file|
    requires Records.Holds(file, HeaderOffset(file, i), s.Fields())
    ensures SectionAt(file, i) == Section(s.flags / 2 % 2 == 1, s.addr, s.size)
  {
    hide Bytes.U32, HeaderOffset, Records.Encode;
    var at, fs := HeaderOffset(file, i), s.Fields();
    ElfFormat.WordOffsets(fs, 2);
    ElfFormat.WordOffsets(fs, 3);
    ElfFormat.WordOffsets(fs, 5);
    Records.WordInFile(file, at, fs, 2);
    Records.WordInFile(file, at, fs, 3);
    Records.WordInFile(file, at, fs, 5);
  }

  ghost function Sections(file: seq<Bytes.byte>): (ss: seq<Section>)
    requires HeadersInside(file)
    ensures |ss| == Count(file) && forall i: nat | i < |ss| :: ss[i] == SectionAt(file, i)
    ensures AllValid(ss)
  {
    seq(Count(file), i requires 0 <= i < Count(file) => SectionAt(file, i))
  }

  datatype Outcome = NotElf | Fails | Found(base: int, limit: int)

  predicate AllValid(ss: seq<Section>) { forall s <- ss :: s.Valid() }

  /** The least address and the greatest end of the sections to be allocated. */
  ghost predicate Extent(ss: seq<Section>, b: int, t: int) {
    && U32(b) && U32(t)
    && (forall s <- ss | s.alloc :: b <= s.addr && s.End() <= t)
    && (b == 0xFFFF_FFFF || exists s <- ss | s.alloc :: s.addr == b)
    && (t == 0 || exists s <- ss | s.alloc :: s.End() == t)
  }

  /** The fields that get_kernel_map reads through its section header pointer. */
  method ReadSection(file: seq<Bytes.byte>, i: nat) returns (s: Section)
    requires |file| >= 0x34 && HeaderOffset(file, i) + 40 <= |file|
    ensures s == SectionAt(file, i)
  {
    var at := Bytes.U32(file, E_SHOFF) + i * Bytes.U16(file, E_SHENTSIZE);
    var flags := Bytes.U32(file, at + SH_FLAGS);
    s := Section(flags / 2 % 2 == 1, Bytes.U32(file, at + SH_ADDR), Bytes.U32(file, at + SH_SIZE));
  }

  /** get_kernel_map on the bytes of the kernel file.  NotElf: the magic number is wrong,
      for which get_boot_params, called first, fails an assertion, so that the test in
      get_kernel_map that would return -1 is never reached with it.  Fails: the least
      address is not below the greatest end, and the last assertion fails. */
  method GetKernelMap(file: seq<Bytes.byte>) returns (r: Outcome)
    requires |file| >= 4 && (IsElf(file) ==> HeadersInside(file))
    ensures r.NotElf? <==> !IsElf(file)
    ensures r.Found? ==> 0 <= r.limit && Extent(Sections(file), r.base, r.base + r.limit + 1)
    ensures r.Fails? <==> IsElf(file) && forall b, t | Extent(Sections(file), b, t) :: t <= b
  {
    hide Extent, HeaderOffset, SectionAt;
    if file[..4] != [0x7F, 0x45, 0x4C, 0x46] {
      return NotElf;
    }
    var b := 0xFFFF_FFFF;
    var t := 0;
    var i := 0;
    ghost var ss := Sections(file);
    NoSections();
    while i < Count(file)
      invariant 0 <= i <= |ss|
      invariant Extent(ss[..i], b, t)
    {
      assert HeaderOffset(file, i) + 40 <= |file| && ss[i] == SectionAt(file, i);
      assert ss[..i + 1] == ss[..i] + [ss[i]];
      ExtendOne(ss[..i], ss[i], b, t);
      var s := ReadSection(file, i);
      if s.alloc {
        var bottom := s.addr;
        var top := (s.addr + s.size) % 0x1_0000_0000;
        if b > bottom {
          b := bottom;
        }
        if t < top {
          t := top;
        }
      }
      i := i + 1;
    }
    assert ss[..i] == ss;
    ExtentRange(ss, b, t);
    forall b', t' | Extent(ss, b', t') ensures b' == b && t' == t {
      ExtentUnique(ss, b, t, b', t');
    }
    if !(b < t) {
      return Fails;
    }
    return Found(b, t - b - 1);
  }

  lemma NoSections()
    ensures Extent([], 0xFFFF_FFFF, 0)
  {
  }

  lemma ExtentRange(ss: seq<Section>, b: int, t: int)
    requires Extent(ss, b, t)
    ensures U32(b) && U32(t)
  {
  }

  lemma ExtendOne(ss: seq<Section>, s: Section, b: int, t: int)
    requires Extent(ss, b, t) && s.Valid()
    ensures Extent(ss + [s],
                   if s.alloc && b > s.addr then s.addr else b,
                   if s.alloc && t < s.End() then s.End() else t)
  {
    assert s in ss + [s];
    assert forall x | x in ss :: x in ss + [s];
  }

  /** Two extents of the same sections agree. */
  lemma ExtentUnique(ss: seq<Section>, b: int, t: int, b': int, t': int)
    requires AllValid(ss) && Extent(ss, b, t) && Extent(ss, b', t')
    ensures b == b' && t == t'
  {
  }

  /** The result is the smallest interval: any other that holds all sections holds it. */
  lemma SmallestInterval(ss: seq<Section>, b: int, t: int, lo: int, hi: int)
    requires AllValid(ss) && Extent(ss, b, t) && b < t
    requires forall s <- ss | s.alloc :: lo <= s.addr && s.End() <= hi
    ensures lo <= b && t <= hi
  {
    var s :| s in ss && s.alloc && s.End() == t;
    assert s.addr < 0xFFFF_FFFF || b < 0xFFFF_FFFF;
  }

  /** It contains every byte of every section to be allocated exactly when none of
      them reaches the end of the 32-bit space, where its end would wrap. */
  lemma CoversExactly(ss: seq<Section>, b: int, t: int)
    requires AllValid(ss) && Extent(ss, b, t) && b < t
    ensures (forall s, a: int {:trigger s.Has(a)} | s in ss && s.alloc && s.Has(a) :: b <= a < t)
            <==> forall s <- ss | s.alloc :: s.Fits()
  {
    if forall s <- ss | s.alloc :: s.Fits() {
      forall s, a: int | s in ss && s.alloc && s.Has(a) ensures b <= a < t {
        assert s.Fits() && s.End() == s.addr + s.size;
      }
    } else {
      var s :| s in ss && s.alloc && !s.Fits();
      assert s.Valid();
      assert s.Has(0xFFFF_FFFF);
    }
  }

  /** Two sections of which the second ends at 4 GB: its end counts as 0, and none of
      its bytes is in the interval found. */
  lemma WrappedSectionIsLost()
    ensures var ss := [Section(true, 0x1000, 0x1000), Section(true, 0xFFFF_F000, 0x1000)];
            && AllValid(ss) && Extent(ss, 0x1000, 0x2000)
            && forall a | ss[1].Has(a) :: !(0x1000 <= a < 0x2000)
  {
    var low, high := Section(true, 0x1000, 0x1000), Section(true, 0xFFFF_F000, 0x1000);
    assert low.End() == 0x2000 && high.End() == 0;
    assert [low, high][0] == low && [low, high][1] == high;
  }

  /** The descriptor INIT's segments get: base 0 and (k_base + k_limit) >> 12 as the
      limit, in 4 KB units. */
  function InitSegment(base: int, limit: int, attr: nat): Desc {
    InitDescriptor(0, (base + limit) % 0x1_0000_0000 / 0x1000, attr)
  }

  /** For what get_kernel_map found, the segment starts at 0, covers the kernel's last
      byte and goes less than 4096 bytes beyond it; no bit of the limit is lost. */
  lemma SegmentCoversKernel(ss: seq<Section>, base: int, limit: int, attr: nat)
    requires Extent(ss, base, base + limit + 1) && 0 <= limit && U16(attr) && attr / 0x8000 == 1
    ensures var d := InitSegment(base, limit, attr);
            && BaseOf(d) == 0
            && LimitField(d) == (base + limit) / 0x1000
            && base + limit <= LastOffset(d) < base + limit + 0x1000
  {
    hide InitDescriptor, BaseOf, LimitField, Granular;
    var last := base + limit;
    BaseRoundTrip(0, last / 0x1000, attr);
    LimitRoundTrip(0, last / 0x1000, attr);
    assert last == last / 0x1000 * 0x1000 + last % 0x1000;
    assert last / 0x1000 < 0x10_0000;
  }

  /** So every byte of every allocated section that does not wrap is inside it. */
  lemma SegmentHoldsSections(ss: seq<Section>, base: int, limit: int, attr: nat, s: Section, a: int)
    requires AllValid(ss) && Extent(ss, base, base + limit + 1) && 0 <= limit && U16(attr) && attr / 0x8000 == 1
    requires s in ss && s.alloc && s.Fits() && s.Has(a)
    ensures BaseOf(InitSegment(base, limit, attr)) <= a <= LastOffset(InitSegment(base, limit, attr))
  {
    hide InitDescriptor, BaseOf, LastOffset;
    SegmentCoversKernel(ss, base, limit, attr);
    assert s.Valid() && s.End() == s.addr + s.size;
  }
}
