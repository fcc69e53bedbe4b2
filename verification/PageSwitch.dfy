/** The paging demonstration: a second set of page tables is written through the
    first one while it is active, and sends one page elsewhere. */
module PageSwitch {
  import opened Options
  import opened Paging

  const DIR0 := 0x20_0000
  const TBL0 := 0x20_1000
  const DIR1 := 0x21_0000
  const TBL1 := 0x21_1000
  const DEMO := 0x40_1000       // LinearAddrDemo and ProcFoo
  const BAR := 0x50_1000        // ProcBar
  const CALLER := 0x30_1000     // ProcPagingDemo

  /** The first set, as SetupPaging leaves it. */
  ghost predicate FirstSet(m: Mem, n: nat) {
    DirectoryBuilt(m, DIR0, TBL0, n) && TablesBuilt(m, TBL0, 1024 * n)
  }

  /** While the second set is written, the first maps every address written to
      itself, through entries that are not written. */
  lemma FirstSetMapsSecond(m: Mem, n: nat)
    requires 1 <= n <= 1024 && FirstSet(m, n)
    ensures SelfMapped(m, DIR0, DIR1, TBL1 + 4096 * n + 8)
  {
    forall la: int | DIR1 <= la < TBL1 + 4096 * n + 8
      ensures Walk(m, DIR0, la) == Some(la)
      ensures Base(DIR0) + 4 * (la / 0x40_0000) < DIR1
      ensures Base(Dword(m, Base(DIR0) + 4 * (la / 0x40_0000))) + 4 * (la / 4096 % 1024) < DIR1
    {
      var i := la / 0x40_0000;
      assert la < n * 0x40_0000;
      IdentityWalk(m, DIR0, TBL0, n, la);
      assert 0 <= i < n && i <= 1;
      assert Dword(m, Slot(DIR0, i)) == TBL0 + 4096 * i + 7;
      BaseOfEntry(TBL0, i);
      assert Base(DIR0) == DIR0;
    }
  }

  /** What the second set must do. */
  function Target(la: int): int {
    if la / 4096 == DEMO / 4096 then BAR + la % 4096 else la
  }

  /** The second set after the remapping of one entry. */
  ghost predicate SecondSet(m: Mem, n: nat) {
    && DirectoryBuilt(m, DIR1, TBL1, n)
    && (forall j: nat {:trigger Slot(TBL1, j)} | j < 1024 * n ::
          Dword(m, Slot(TBL1, j)) == if j == DEMO / 4096 then BAR + 7 else 4096 * j + 7)
  }

  /** Its walk sends the demonstration page to ProcBar and everything else to itself. */
  lemma SecondSetWalk(m: Mem, n: nat, la: nat)
    requires SecondSet(m, n) && la < n * 0x40_0000
    ensures Walk(m, DIR1, la) == Some(Target(la)) && UserMayWrite(m, DIR1, la)
  {
    WalkReadsEntry(m, DIR1, TBL1, n, la);
    PageSplit(la);
    var j := la / 4096;
    Span(la, n);
    assert Dword(m, Slot(TBL1, j)) == if j == DEMO / 4096 then BAR + 7 else 4096 * j + 7;
    BaseOfEntry(0, j);
    BaseOfEntry(BAR, 0);
  }

  /** Only cells of the second set changed, and with one table the entry after it. */
  ghost predicate SwitchWrites(m: Mem, m': Mem, n: nat) {
    forall a {:trigger Dword(m', a)}
      | !(DIR1 <= a < DIR1 + 4 * n) && !(TBL1 <= a < TBL1 + 4096 * n) && a != 0x21_2004 ::
      Dword(m', a) == Dword(m, a)
  }

  /** PSwitch.  No store faults and each reaches the cell it names, for every number
      of tables. */
  method PSwitch(mmu: Mmu, n: nat)
    requires 1 <= n <= 1024 && mmu.paging && mmu.cr3 == DIR0 && FirstSet(mmu.mem, n)
    modifies mmu
    ensures mmu.paging && mmu.cr3 == DIR1
    ensures n >= 2 ==> SecondSet(mmu.mem, n)
    ensures n >= 2 ==> forall la: nat {:trigger Walk(mmu.mem, mmu.cr3, la)} | la < n * 0x40_0000 ::
              Walk(mmu.mem, mmu.cr3, la) == Some(Target(la)) && UserMayWrite(mmu.mem, mmu.cr3, la)
    ensures DirectoryBuilt(mmu.mem, DIR1, TBL1, n)
    ensures n == 1 ==> TablesBuilt(mmu.mem, TBL1, 1024)
    ensures SwitchWrites(old(mmu.mem), mmu.mem, n)
  {
    hide Walk, SelfMapped, UserMayWrite;
    FirstSetMapsSecond(mmu.mem, n);
    mmu.Build(DIR1, TBL1, n, DIR1, TBL1 + 4096 * n + 8);
    var ecx := DEMO / 0x40_0000 * 4096;
    var eax := DEMO / 4096 % 1024 * 4;
    eax := eax + ecx;
    eax := eax + TBL1;
    SelfMappedAt(mmu.mem, mmu.cr3, DIR1, TBL1 + 4096 * n + 8, eax);
    mmu.Store(eax, BAR + 7);
    mmu.cr3 := DIR1;
    forall la: nat | n >= 2 && la < n * 0x40_0000
      ensures Walk(mmu.mem, mmu.cr3, la) == Some(Target(la)) && UserMayWrite(mmu.mem, mmu.cr3, la)
    {
      SecondSetWalk(mmu.mem, n, la);
    }
  }

  lemma SelfMappedAt(m: Mem, cr3: int, lo: int, hi: int, la: int)
    requires SelfMapped(m, cr3, lo, hi) && lo <= la < hi
    ensures Walk(m, cr3, la) == Some(la)
  {
  }

  /** Writing the second set leaves the first intact exactly for up to 15 tables: the
      sixteenth table of the first set is where the second directory goes. */
  lemma FirstSetIntactExactly(m: Mem, m': Mem, n: nat)
    requires 1 <= n <= 1024 && FirstSet(m, n)
    requires SwitchWrites(m, m', n) && DirectoryBuilt(m', DIR1, TBL1, n)
    ensures FirstSet(m', n) <==> n <= 15
  {
    if n <= 15 {
      forall i: nat | i < n ensures Dword(m', Slot(DIR0, i)) == TBL0 + 4096 * i + 7 {
        assert Dword(m, Slot(DIR0, i)) == TBL0 + 4096 * i + 7;
      }
      forall j: nat | j < 1024 * n ensures Dword(m', Slot(TBL0, j)) == 4096 * j + 7 {
        assert Dword(m, Slot(TBL0, j)) == 4096 * j + 7;
      }
    } else {
      assert Slot(TBL0, 0x3C00) == DIR1 == Slot(DIR1, 0);
      assert Dword(m', Slot(DIR1, 0)) == TBL1 + 7;
    }
  }

  /** What the processor reads at a linear address. */
  function Fetch(m: Mem, cr3: int, la: int): Option<int> {
    var p := Walk(m, cr3, la);
    if p.Some? then Some(Dword(m, p.value)) else None
  }

  /** What is fetched from an address below, through and after the switch.  Memory
      holds a dword at each multiple of 4. */
  lemma Fetches(m0: Mem, m1: Mem, m2: Mem, n: nat, k: nat)
    requires 2 <= n <= 240 && k < 4096 && k % 4 == 0
    requires FirstSet(m1, n) && SecondSet(m2, n) && SwitchWrites(m1, m2, n)
    requires forall a {:trigger Dword(m1, a)} | !(DIR0 <= a < DIR0 + 4 * n) && !(TBL0 <= a < TBL0 + 4096 * n) ::
               Dword(m1, a) == Dword(m0, a)
    ensures Fetch(m1, DIR0, DEMO + k) == Some(Dword(m0, DEMO + k))
    ensures Fetch(m2, DIR1, DEMO + k) == Some(Dword(m0, BAR + k))
    ensures Fetch(m1, DIR0, CALLER + k) == Fetch(m2, DIR1, CALLER + k) == Some(Dword(m0, CALLER + k))
  {
    hide Walk, FirstSet, SecondSet;
    FirstSetWalk(m1, n, DEMO + k);
    FirstSetWalk(m1, n, CALLER + k);
    SecondSetWalk(m2, n, DEMO + k);
    SecondSetWalk(m2, n, CALLER + k);
    assert Dword(m2, BAR + k) == Dword(m1, BAR + k) == Dword(m0, BAR + k);
    assert Dword(m2, CALLER + k) == Dword(m1, CALLER + k) == Dword(m0, CALLER + k);
  }

  /** What a call of ProcPagingDemo finds: its own code, and the code at LinearAddrDemo
      that it calls. */
  ghost predicate Runs(m: Mem, cr3: int, was: Mem, callee: int) {
    forall k: nat {:trigger Dword(was, callee + k)} | k < 4096 && k % 4 == 0 ::
      && Fetch(m, cr3, CALLER + k) == Some(Dword(was, CALLER + k))
      && Fetch(m, cr3, DEMO + k) == Some(Dword(was, callee + k))
  }

  /** PagingDemo from SetupPaging on, with memory for 2 to 240 tables: the first call
      of ProcPagingDemo runs what was copied to ProcFoo, the second, after PSwitch,
      what was copied to ProcBar.  `m1` is memory at the first call. */
  method PagingDemo(mmu: Mmu, memSize: int) returns (ghost m1: Mem)
    requires 0 < memSize < 0x1_0000_0000 && 2 <= TableCount(memSize) <= 240 && !mmu.paging
    modifies mmu
    ensures Runs(m1, DIR0, old(mmu.mem), DEMO)
    ensures mmu.paging && mmu.cr3 == DIR1 && Runs(mmu.mem, DIR1, old(mmu.mem), BAR)
  {
    hide Walk, Fetch;
    var n := mmu.SetupPaging(memSize, DIR0, TBL0);
    m1 := mmu.mem;
    PSwitch(mmu, n);
    forall k: nat | k < 4096 && k % 4 == 0
      ensures Fetch(m1, DIR0, CALLER + k) == Some(Dword(old(mmu.mem), CALLER + k)) == Fetch(mmu.mem, DIR1, CALLER + k)
      ensures Fetch(m1, DIR0, DEMO + k) == Some(Dword(old(mmu.mem), DEMO + k))
      ensures Fetch(mmu.mem, DIR1, DEMO + k) == Some(Dword(old(mmu.mem), BAR + k))
    {
      Fetches(old(mmu.mem), m1, mmu.mem, n, k);
    }
  }

  lemma FirstSetWalk(m: Mem, n: nat, la: nat)
    requires FirstSet(m, n) && la < n * 0x40_0000
    ensures Walk(m, DIR0, la) == Some(la)
  {
    IdentityWalk(m, DIR0, TBL0, n, la);
  }

  /** With more tables the second set reaches the caller's code and replaces it. */
  lemma CallerOverwritten(m: Mem, n: nat)
    requires 240 < n <= 1024 && SecondSet(m, n)
    ensures Dword(m, CALLER) == 0x3C00_0007
  {
    assert Slot(TBL1, 0x3_C000) == CALLER;
  }
}
