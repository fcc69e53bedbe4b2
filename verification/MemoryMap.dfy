/** The loader's memory size: DispMemInfo takes the largest end of a usable range in
    the BIOS memory map, and SetupPaging maps that much. */
module MemoryMap {
  import opened Options
  import opened Paging

  /** An address range descriptor of int 15h, function E820h. */
  datatype Ards = Ards(baseLow: int, baseHigh: int, lengthLow: int, lengthHigh: int, kind: int) {
    predicate Valid() {
      && 0 <= baseLow < 0x1_0000_0000 && 0 <= baseHigh < 0x1_0000_0000
      && 0 <= lengthLow < 0x1_0000_0000 && 0 <= lengthHigh < 0x1_0000_0000
    }

    predicate Usable() { kind == 1 }

    /** The 64-bit numbers that the BIOS reports. */
    function Base(): int { baseHigh * 0x1_0000_0000 + baseLow }
    function Length(): int { lengthHigh * 0x1_0000_0000 + lengthLow }

    /** The end as the loader computes it: a 32-bit sum of the low halves. */
    function End(): (e: int)
      requires Valid()
    {
      (baseLow + lengthLow) % 0x1_0000_0000
    }

    /** Is address `a` in the part of the range that 32-bit paging can reach? */
    predicate Holds(a: int) { Base() <= a < Base() + Length() && a < 0x1_0000_0000 }

    /** The range has no such part, or it ends below 4 GB. */
    predicate Fits() {
      Length() == 0 || Base() >= 0x1_0000_0000 || Base() + Length() < 0x1_0000_0000
    }
  }

  /** The low halves of a range that starts and ends below 4 GB are all of it. */
  lemma LowHalves(r: Ards)
    requires r.Valid() && r.Fits() && r.Length() > 0 && r.Base() < 0x1_0000_0000
    ensures r.End() == r.Base() + r.Length()
  {
  }

  /** `size` is the largest end of a usable record, or 0. */
  ghost predicate IsMemSize(records: seq<Ards>, size: int)
    requires forall r <- records :: r.Valid()
  {
    && 0 <= size < 0x1_0000_0000
    && (forall r <- records | r.Usable() :: r.End() <= size)
    && (size == 0 || exists r <- records | r.Usable() :: r.End() == size)
  }

  /** DispMemInfo.  The loop tests at its end, so there must be a record. */
  method DispMemInfo(records: seq<Ards>) returns (memSize: int)
    requires records != [] && forall r <- records :: r.Valid()
    ensures IsMemSize(records, memSize) && forall s | IsMemSize(records, s) :: s == memSize
  {
    memSize := 0;
    var ecx := |records|;
    var i := 0;
    while ecx != 0
      invariant 0 <= i <= |records| && ecx == |records| - i
      invariant 0 <= memSize < 0x1_0000_0000
      invariant forall k | 0 <= k < i && records[k].Usable() :: records[k].End() <= memSize
      invariant memSize == 0 || exists k | 0 <= k < i && records[k].Usable() :: records[k].End() == memSize
    {
      var ards := records[i];
      if ards.kind == 1 {
        var eax := (ards.baseLow + ards.lengthLow) % 0x1_0000_0000;
        if eax >= memSize {
          memSize := eax;
        }
      }
      i := i + 1;
      ecx := ecx - 1;
    }
    forall s | IsMemSize(records, s) ensures s == memSize {
      MemSizeUnique(records, s, memSize);
    }
  }

  /** Two memory sizes of the same map agree. */
  lemma MemSizeUnique(records: seq<Ards>, s: int, t: int)
    requires forall r <- records :: r.Valid()
    requires IsMemSize(records, s) && IsMemSize(records, t)
    ensures s == t
  {
  }

  /** All addresses of all usable ranges lie below what SetupPaging maps. */
  ghost predicate AllMapped(records: seq<Ards>, memSize: int)
    requires 0 < memSize < 0x1_0000_0000
  {
    forall r, a: int {:trigger r.Holds(a)} | r in records && r.Usable() && r.Holds(a) ::
      a < TableCount(memSize) * 0x40_0000
  }

  /** That is so exactly when no usable range that starts below 4 GB reaches 4 GB,
      where the 32-bit sum loses its end, or when the size exceeds FFC0_0000h so that
      everything is mapped anyway. */
  lemma AllMappedExactly(records: seq<Ards>, memSize: int)
    requires forall r <- records :: r.Valid()
    requires IsMemSize(records, memSize) && memSize > 0
    ensures AllMapped(records, memSize) <==>
              (forall r <- records | r.Usable() :: r.Fits()) || memSize > 0xFFC0_0000
  {
    var n := TableCount(memSize);
    if (forall r <- records | r.Usable() :: r.Fits()) || memSize > 0xFFC0_0000 {
      forall r, a: int | r in records && r.Usable() && r.Holds(a) ensures a < n * 0x40_0000 {
        if memSize <= 0xFFC0_0000 {
          LowHalves(r);
        }
      }
    } else {
      var r :| r in records && r.Usable() && !r.Fits();
      assert r.Holds(0xFFFF_FFFF);
      assert n <= 1023;
    }
  }

  /** A map with one usable range that ends at 4 GB, which the loader leaves
      unmapped above its other memory. */
  lemma WrappedRangeIsLost()
    ensures var records := [Ards(0, 0, 0x10_0000, 0, 1), Ards(0xC000_0000, 0, 0x4000_0000, 0, 1)];
            IsMemSize(records, 0x10_0000) && !AllMapped(records, 0x10_0000)
  {
    var low, high := Ards(0, 0, 0x10_0000, 0, 1), Ards(0xC000_0000, 0, 0x4000_0000, 0, 1);
    assert low.End() == 0x10_0000 && high.End() == 0;
    assert [low, high][0] == low && [low, high][1] == high;
    assert high.Holds(0xFFFF_FFFF);
  }

  /** A map with usable memory from 1 MB and a length of 4 GB: the low half of the
      length is 0, so that nothing above 4 MB is mapped. */
  lemma LongRangeIsLost()
    ensures var records := [Ards(0x10_0000, 0, 0, 1, 1)];
            IsMemSize(records, 0x10_0000) && !AllMapped(records, 0x10_0000)
  {
    var long := Ards(0x10_0000, 0, 0, 1, 1);
    assert long.End() == 0x10_0000 && [long][0] == long;
    assert long.Holds(0xFFFF_FFFF);
  }

  /** The loader's two steps together: after them every address below 4 GB of every
      usable range that does not reach 4 GB from below translates to itself. */
  method MapMemory(mmu: Mmu, records: seq<Ards>) returns (memSize: int)
    requires records != [] && forall r <- records :: r.Valid()
    requires exists r <- records | r.Usable() :: r.End() > 0
    requires !mmu.paging
    modifies mmu
    ensures IsMemSize(records, memSize) && memSize > 0 && mmu.paging
    ensures forall r, a: int {:trigger r.Holds(a)} | r in records && r.Usable() && r.Fits() && r.Holds(a) ::
              Walk(mmu.mem, mmu.cr3, a) == Some(a) && UserMayWrite(mmu.mem, mmu.cr3, a)
    ensures forall a {:trigger Dword(mmu.mem, a)} | a < 0x10_0000 :: Dword(mmu.mem, a) == old(Dword(mmu.mem, a))
  {
    memSize := DispMemInfo(records);
    var n := mmu.SetupPaging(memSize, 0x10_0000, 0x10_1000);
    forall r, a: int | r in records && r.Usable() && r.Fits() && r.Holds(a)
      ensures Walk(mmu.mem, mmu.cr3, a) == Some(a) && UserMayWrite(mmu.mem, mmu.cr3, a)
    {
      LowHalves(r);
      assert r.End() <= memSize;
      var la: nat := a;
      assert la < n * 0x40_0000;
    }
  }
}
