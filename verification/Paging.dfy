/** Two-level page tables: what the processor reads from them, how the loader and
    the paging demonstration write them, and how the demonstration swaps one set for
    another while running on the first. */
module Paging {
  import opened Options

  /** Physical memory, one dword per 4-aligned address. */
  type Mem = map<int, int>

  function Dword(m: Mem, a: int): int {
    if a in m then m[a] else 0
  }

  // A page is 4096 bytes, a table of 1024 entries maps 40_0000h bytes, and every
  // entry gets the attribute bits PG_P | PG_USU | PG_RWW, which are 7.

  /** Bits 31-12 of a table entry. */
  function Base(entry: int): int { entry / 4096 * 4096 }

  predicate Present(entry: int) { entry % 2 == 1 }

  /** The page walk of 32-bit paging with 4-KByte pages: the physical address of a
      linear address, or None for a page fault. */
  function Walk(m: Mem, cr3: int, la: int): Option<int> {
    var pde := Dword(m, Base(cr3) + 4 * (la / 0x40_0000));
    if !Present(pde) then None else
    var pte := Dword(m, Base(pde) + 4 * (la / 4096 % 1024));
    if !Present(pte) then None else
    Some(Base(pte) + la % 4096)
  }

  predicate Writable(entry: int) { entry / 2 % 2 == 1 }

  predicate UserPage(entry: int) { entry / 4 % 2 == 1 }

  /** The access rights of 32-bit paging: ring 3 may use a page when the user bit is set
      in both entries of its translation, and write it when the write bit is too. */
  predicate UserMayWrite(m: Mem, cr3: int, la: int) {
    var pde := Dword(m, Base(cr3) + 4 * (la / 0x40_0000));
    var pte := Dword(m, Base(pde) + 4 * (la / 4096 % 1024));
    && Present(pde) && UserPage(pde) && Writable(pde)
    && Present(pte) && UserPage(pte) && Writable(pte)
  }

  /** The address of entry `i` of a table. */
  function Slot(table: int, i: int): int { table + 4 * i }

  /** A directory at `dir` whose first `n` entries point to tables at `tbl` and up. */
  ghost predicate DirectoryBuilt(m: Mem, dir: int, tbl: int, n: nat) {
    forall i: nat {:trigger Slot(dir, i)} | i < n :: Dword(m, Slot(dir, i)) == tbl + 4096 * i + 7
  }

  /** The first `k` entries from `tbl` map the first `k` pages to themselves. */
  ghost predicate TablesBuilt(m: Mem, tbl: int, k: nat) {
    forall j: nat {:trigger Slot(tbl, j)} | j < k :: Dword(m, Slot(tbl, j)) == 4096 * j + 7
  }

  lemma PageSplit(la: nat)
    ensures la / 4096 == la / 0x40_0000 * 1024 + la / 4096 % 1024
    ensures la == la / 4096 * 4096 + la % 4096
  {
    assert la / 0x40_0000 == la / 4096 / 1024;
  }

  lemma EntryBase(k: int)
    ensures Base(4096 * k + 7) == 4096 * k
  {
  }

  lemma EntryPresent(k: int)
    ensures Present(4096 * k + 7)
  {
  }

  lemma EntryForUsers(k: int)
    ensures UserPage(4096 * k + 7)
  {
    assert 4096 * k + 7 == 4 * (2 * (512 * k) + 1) + 3;
  }

  lemma EntryWritable(k: int)
    ensures Writable(4096 * k + 7)
  {
    assert 4096 * k + 7 == 2 * (2 * (1024 * k + 1) + 1) + 1;
  }

  lemma Span(la: nat, n: nat)
    requires la < n * 0x40_0000
    ensures la / 0x40_0000 < n && la / 4096 < 1024 * n
  {
  }

  lemma BaseOfEntry(b: int, i: int)
    requires b % 4096 == 0
    ensures Base(b + 4096 * i + 7) == b + 4096 * i
    ensures Present(b + 4096 * i + 7) && UserPage(b + 4096 * i + 7) && Writable(b + 4096 * i + 7)
  {
    var k := b / 4096 + i;
    assert b + 4096 * i == 4096 * k;
    EntryBase(k);
    EntryPresent(k);
    EntryForUsers(k);
    EntryWritable(k);
  }

  /** Walking the tables reads the entry of the address's page. */
  lemma WalkReadsEntry(m: Mem, dir: int, tbl: int, n: nat, la: nat)
    requires dir % 4096 == 0 && tbl % 4096 == 0
    requires DirectoryBuilt(m, dir, tbl, n) && la < n * 0x40_0000
    ensures var pte := Dword(m, Slot(tbl, la / 4096));
            && Walk(m, dir, la) == (if Present(pte) then Some(Base(pte) + la % 4096) else None)
            && (UserMayWrite(m, dir, la) <==> Present(pte) && UserPage(pte) && Writable(pte))
  {
    var i := la / 0x40_0000;
    Span(la, n);
    assert Dword(m, Slot(dir, i)) == tbl + 4096 * i + 7;
    BaseOfEntry(tbl, i);
    PageSplit(la);
    assert Base(dir) == dir;
    assert tbl + 4096 * i + 4 * (la / 4096 % 1024) == tbl + 4 * (la / 4096);
  }

  /** Over freshly built tables the walk is the identity on all they map, and ring 3 may
      read and write all of it. */
  lemma IdentityWalk(m: Mem, dir: int, tbl: int, n: nat, la: nat)
    requires dir % 4096 == 0 && tbl % 4096 == 0
    requires DirectoryBuilt(m, dir, tbl, n) && TablesBuilt(m, tbl, 1024 * n) && la < n * 0x40_0000
    ensures Walk(m, dir, la) == Some(la) && UserMayWrite(m, dir, la)
  {
    WalkReadsEntry(m, dir, tbl, n, la);
    PageSplit(la);
    var j := la / 4096;
    Span(la, n);
    assert Dword(m, Slot(tbl, j)) == 4096 * j + 7;
    BaseOfEntry(0, j);
  }

  // ---------------------------------------------------------------------------
  // Writing tables

  /** Every address of the range translates to itself, through entries that lie
      below the range. */
  ghost predicate SelfMapped(m: Mem, cr3: int, lo: int, hi: int) {
    forall la: int {:trigger Walk(m, cr3, la)} | lo <= la < hi ::
      && Walk(m, cr3, la) == Some(la)
      && Base(cr3) + 4 * (la / 0x40_0000) < lo
      && Base(Dword(m, Base(cr3) + 4 * (la / 0x40_0000))) + 4 * (la / 4096 % 1024) < lo
  }

  lemma SelfMappedStable(m: Mem, m': Mem, cr3: int, lo: int, hi: int)
    requires SelfMapped(m, cr3, lo, hi)
    requires forall a | a < lo :: Dword(m', a) == Dword(m, a)
    ensures SelfMapped(m', cr3, lo, hi)
  {
    forall la: int | lo <= la < hi
      ensures Walk(m', cr3, la) == Some(la)
      ensures Base(Dword(m', Base(cr3) + 4 * (la / 0x40_0000))) + 4 * (la / 4096 % 1024) < lo
      ensures Base(cr3) + 4 * (la / 0x40_0000) < lo
    {
      assert Walk(m, cr3, la) == Some(la);
    }
  }

  /** Number of page tables for a memory size: the quotient, plus one if there is a
      remainder. */
  function TableCount(memSize: int): (n: int)
    requires 0 < memSize < 0x1_0000_0000
    ensures 1 <= n <= 1024
    ensures (n - 1) * 0x40_0000 < memSize <= n * 0x40_0000
  {
    if memSize % 0x40_0000 == 0 then memSize / 0x40_0000 else memSize / 0x40_0000 + 1
  }

  /** Memory, cr3 and the paging bit of cr0. */
  class Mmu {
    var mem: Mem
    var cr3: int
    var paging: bool

    constructor (m: Mem)
      ensures mem == m && !paging
    {
      mem, cr3, paging := m, 0, false;
    }

    /** A dword store to a linear address.  Callers show that it cannot fault. */
    method Store(la: int, v: int)
      requires paging ==> Walk(mem, cr3, la).Some?
      modifies this`mem
      ensures var phys := if paging then Walk(old(mem), cr3, la).value else la;
              forall a {:trigger Dword(mem, a)} :: Dword(mem, a) == if a == phys then v else old(Dword(mem, a))
    {
      var phys := la;
      if paging {
        phys := Walk(mem, cr3, la).value;
      }
      mem := mem[phys := v];
    }

    /** A loop of `stosd`, `add eax, 4096`, `loop`: `n` consecutive dwords, starting
        with `first` and 4096 apart.  The additions are modulo 2^32. */
    method Fill(table: int, first: int, n: nat, ghost lo: int, ghost hi: int)
      requires 0 < n && 0 <= first && first + 4096 * (n - 1) < 0x1_0000_0000
      requires lo <= table && table + 4 * n <= hi
      requires paging ==> SelfMapped(mem, cr3, lo, hi)
      modifies this`mem
      ensures forall i: nat {:trigger Slot(table, i)} | i < n :: Dword(mem, Slot(table, i)) == first + 4096 * i
      ensures forall a {:trigger Dword(mem, a)} | !(table <= a < table + 4 * n) :: Dword(mem, a) == old(Dword(mem, a))
      ensures paging ==> SelfMapped(mem, cr3, lo, hi)
    {
      hide Walk, Base;
      var edi, eax, ecx := table, first, n;
      ghost var i: nat := 0;
      while ecx != 0
        invariant i <= n && ecx == n - i && edi == Slot(table, i)
        invariant i < n ==> eax == first + 4096 * i
        invariant paging ==> SelfMapped(mem, cr3, lo, hi)
        invariant forall k: nat {:trigger Slot(table, k)} | k < i :: Dword(mem, Slot(table, k)) == first + 4096 * k
        invariant forall a {:trigger Dword(mem, a)} | !(table <= a < table + 4 * i) ::
                    Dword(mem, a) == old(Dword(mem, a))
      {
        ghost var before := mem;
        assert paging ==> Walk(mem, cr3, edi) == Some(edi);
        Store(edi, eax);
        if paging {
          SelfMappedStable(before, mem, cr3, lo, hi);
        }
        edi := edi + 4;
        eax := (eax + 4096) % 0x1_0000_0000;
        ecx := ecx - 1;
        i := i + 1;
      }
    }

    /** One set of tables: a directory of `n` entries and `n` tables that map the
        first `n` * 4 MB to themselves. */
    method Build(dir: int, tbl: int, n: nat, ghost lo: int, ghost hi: int)
      requires 1 <= n <= 1024
      requires 0 <= dir && dir + 4096 <= tbl && tbl < 0x8000_0000
      requires lo <= dir && tbl + 4096 * n <= hi
      requires paging ==> SelfMapped(mem, cr3, lo, hi)
      modifies this`mem
      ensures DirectoryBuilt(mem, dir, tbl, n) && TablesBuilt(mem, tbl, 1024 * n)
      ensures forall a {:trigger Dword(mem, a)} | !(dir <= a < dir + 4 * n) && !(tbl <= a < tbl + 4096 * n) ::
                Dword(mem, a) == old(Dword(mem, a))
      ensures paging ==> SelfMapped(mem, cr3, lo, hi)
    {
      Fill(dir, tbl + 7, n, lo, hi);
      Fill(tbl, 7, 1024 * n, lo, hi);
    }

    /** SetupPaging of the loader and of the demonstration: tables for all of memory,
        then cr3 and the paging bit. */
    method SetupPaging(memSize: int, dir: int, tbl: int) returns (n: nat)
      requires 0 < memSize < 0x1_0000_0000 && !paging
      requires 0 <= dir && dir + 4096 <= tbl && tbl < 0x8000_0000 && dir % 4096 == 0 && tbl % 4096 == 0
      modifies this
      ensures paging && cr3 == dir
      ensures n == TableCount(memSize)
      ensures DirectoryBuilt(mem, dir, tbl, n) && TablesBuilt(mem, tbl, 1024 * n)
      ensures forall la: nat {:trigger Walk(mem, cr3, la)} | la < n * 0x40_0000 :: Walk(mem, cr3, la) == Some(la)
      ensures forall la: nat | la < n * 0x40_0000 :: UserMayWrite(mem, cr3, la)
      ensures forall a {:trigger Dword(mem, a)} | !(dir <= a < dir + 4 * n) && !(tbl <= a < tbl + 4096 * n) ::
                Dword(mem, a) == old(Dword(mem, a))
    {
      var eax, edx := memSize / 0x40_0000, memSize % 0x40_0000;
      var ecx := eax;
      if edx != 0 {
        ecx := ecx + 1;
      }
      n := ecx;
      assert n == TableCount(memSize);
      Build(dir, tbl, n, dir, tbl + 4096 * n);
      cr3 := dir;
      paging := true;
      forall la: nat | la < n * 0x40_0000 ensures Walk(mem, cr3, la) == Some(la) && UserMayWrite(mem, cr3, la) {
        IdentityWalk(mem, dir, tbl, n, la);
      }
    }
  }
}
