/** Loading a file from the floppy, as the boot sector loads LOADER.BIN and the
    loader loads KERNEL.BIN. */
module Fat12Loader {
  import opened Bytes
  import opened Fat12
  import Records

  /** Byte `p` of the file whose clusters are `chain`. */
  function FileByte(disk: seq<byte>, chain: seq<int>, p: int): byte
    requires IsDisk(disk) && OnDisk(chain) && 0 <= p < 512 * |chain|
  {
    disk[512 * ClusterSector(chain[p / 512]) + p % 512]
  }

  /** Every cluster of the chain is a sector of the disk. */
  predicate OnDisk(chain: seq<int>) {
    forall i | 0 <= i < |chain| :: 0 <= chain[i] && ClusterSector(chain[i]) < 2880
  }

  /** The file: its clusters one after the other. */
  function FileBytes(disk: seq<byte>, chain: seq<int>): (f: seq<byte>)
    requires IsDisk(disk) && OnDisk(chain)
    ensures |f| == 512 * |chain|
  {
    if chain == [] then [] else
    var init, c := chain[..|chain| - 1], chain[|chain| - 1];
    FileBytes(disk, init) + disk[512 * ClusterSector(c)..512 * ClusterSector(c) + 512]
  }

  lemma {:induction false} FileBytesAt(disk: seq<byte>, chain: seq<int>, p: int)
    requires IsDisk(disk) && OnDisk(chain) && 0 <= p < 512 * |chain|
    ensures FileBytes(disk, chain)[p] == FileByte(disk, chain, p)
  {
    var k := |chain| - 1;
    if p < 512 * k {
      FileBytesAt(disk, chain[..k], p);
    } else {
      assert p / 512 == k;
    }
  }

  /** `chain` is the whole chain that starts at cluster `c`: it ends with 0FFFh. */
  ghost predicate IsChain(disk: seq<byte>, c: int, chain: seq<int>)
    requires IsDisk(disk)
  {
    && 0 <= c < 4096
    && EndsAfter(disk, c, |chain|) && chain == Visited(disk, c, |chain|)
    && OnDisk(chain)
  }

  lemma ChainNotEmpty(disk: seq<byte>, c: int, chain: seq<int>)
    requires IsDisk(disk) && IsChain(disk, c, chain)
    ensures |chain| >= 1
  {
  }

  lemma InSector(p: int, i: int)
    requires 512 * i <= p < 512 * (i + 1)
    ensures p / 512 == i && p % 512 == p - 512 * i
  {
  }

  /** Does root directory entry `k` have this name? */
  predicate NameAt(disk: seq<byte>, k: nat, name: seq<byte>)
    requires IsDisk(disk) && k < 224
  {
    disk[RootStart() + 32 * k..RootStart() + 32 * k + 11] == name
  }

  /** Entry `k` is the first with this name. */
  ghost predicate FirstMatch(disk: seq<byte>, name: seq<byte>, k: nat)
    requires IsDisk(disk)
  {
    k < 224 && NameAt(disk, k, name) && forall j: nat | j < k :: !NameAt(disk, j, name)
  }

  /** The starting cluster and the size kept in root directory entry `k`. */
  function FirstCluster(disk: seq<byte>, k: nat): int
    requires IsDisk(disk) && k < 224
  {
    U16(disk, 9728 + 32 * k + 0x1A)
  }

  function FileSize(disk: seq<byte>, k: nat): int
    requires IsDisk(disk) && k < 224
  {
    U16(disk, 9728 + 32 * k + 0x1C) + 0x1_0000 * U16(disk, 9728 + 32 * k + 0x1E)
  }

  /** A directory entry, field by field as the FAT specification has it. */
  datatype DirEntry = DirEntry(name: seq<byte>, attribute: byte, reserved: seq<byte>, time: int, date: int,
                               cluster: int, size: int)
  {
    function Fields(): seq<Records.Field> {
      [Records.Raw(name), Records.Raw([attribute]), Records.Raw(reserved), Records.Half(time), Records.Half(date),
       Records.Half(cluster), Records.Word(size)]
    }

    /** It is entry `k` of the root directory. */
    ghost predicate On(disk: seq<byte>, k: nat) {
      |name| == 11 && |reserved| == 10 && Records.Holds(disk, RootStart() + 32 * k, Fields())
    }
  }

  lemma EntryOffsets(e: DirEntry)
    requires |e.name| == 11 && |e.reserved| == 10
    ensures var fs := e.Fields();
            && Records.Offset(fs, 0) == 0 && Records.Offset(fs, 5) == 0x1A && Records.Offset(fs, 6) == 0x1C
            && Records.Offset(fs, 7) == 32
  {
    var fs := e.Fields();
    assert Records.Offset(fs, 1) == 11;
    assert Records.Offset(fs, 3) == 22;
    assert Records.Offset(fs, 5) == 26;
  }

  /** The loader finds name, first cluster and size of a file where its directory entry
      has them. */
  lemma EntryRead(disk: seq<byte>, k: nat, e: DirEntry, name: seq<byte>)
    requires IsDisk(disk) && k < 224 && e.On(disk, k) && |name| == 11
    ensures NameAt(disk, k, name) <==> name == e.name
    ensures FirstCluster(disk, k) == e.cluster && FileSize(disk, k) == e.size
  {
    hide U16, Records.Encode, Records.Offset;
    var at, fs := RootStart() + 32 * k, e.Fields();
    EntryOffsets(e);
    Records.FieldInFile(disk, at, fs, 0);
    Records.HalfInFile(disk, at, fs, 5);
    Records.WordInFile(disk, at, fs, 6);
  }

  // ---------------------------------------------------------------------------
  // Where each sector goes

  /** The address es:bx of the next sector. */
  datatype Place = Place(es: int, bx: int) {
    function Physical(): int { es * 16 + bx }
  }

  /** `add bx, 512` and, in the loader, `add es, 1000h` on a carry: 16-bit additions. */
  function NextPlace(p: Place, carry: bool): Place {
    var bx := p.bx + 512;
    Place(if carry && bx >= 0x1_0000 then (p.es + 0x1000) % 0x1_0000 else p.es, bx % 0x1_0000)
  }

  /** Where sector `i` goes: that step done `i` times. */
  function PlaceOf(start: Place, carry: bool, i: nat): Place {
    if i == 0 then start else NextPlace(PlaceOf(start, carry, i - 1), carry)
  }

  /** A sector that crosses a 64 KB boundary cannot be transferred in one piece. */
  predicate Crosses64K(a: int) { a % 0x1_0000 + 512 > 0x1_0000 }

  const KERNEL_PLACE := Place(0x7000, 0)      // BaseOfKernelFile, OffsetOfKernelFile
  const LOADER_PLACE := Place(0x9000, 0x100)  // BaseOfLoader, OffsetOfLoader

  /** es in 64 KB segment `q` of the loader's stepping. */
  function KernelSegment(q: nat): int { (0x7000 + 0x1000 * q) % 0x1_0000 }

  lemma KernelStep(q: nat, r: nat)
    requires r < 128
    ensures NextPlace(Place(KernelSegment(q), 512 * r), true)
            == if r < 127 then Place(KernelSegment(q), 512 * (r + 1)) else Place(KernelSegment(q + 1), 0)
  {
  }

  lemma CarryStep(i: nat)
    requires 0 < i
    ensures if i % 128 == 0 then i / 128 == (i - 1) / 128 + 1 && (i - 1) % 128 == 127
            else i / 128 == (i - 1) / 128 && i % 128 == (i - 1) % 128 + 1
  {
  }

  /** The loader's registers at sector `i`: 128 sectors in each segment. */
  lemma {:induction false} KernelPlaceOf(i: nat)
    ensures PlaceOf(KERNEL_PLACE, true, i) == Place(KernelSegment(i / 128), 512 * (i % 128))
  {
    hide NextPlace;
    if i > 0 {
      KernelPlaceOf(i - 1);
      CarryStep(i);
      KernelStep((i - 1) / 128, (i - 1) % 128);
    }
  }

  lemma LoaderSegment(q: nat)
    ensures KernelSegment(q) == 0x7000 + 0x1000 * q <==> q < 9
    ensures 0 <= KernelSegment(q) < 0x1_0000 && KernelSegment(q) % 0x1000 == 0
    ensures q >= 9 ==> KernelSegment(q) <= 0xF000
  {
  }

  /** The loader's loop writes its sectors one after the other from 7_0000h exactly as
      long as es does not overflow, which is for 1152 sectors. */
  lemma LoaderAddress(i: nat)
    ensures PlaceOf(KERNEL_PLACE, true, i).Physical() == 0x7_0000 + 512 * i <==> i < 1152
  {
    hide PlaceOf, KernelSegment;
    KernelPlaceOf(i);
    LoaderSegment(i / 128);
    assert 512 * i == 0x1_0000 * (i / 128) + 512 * (i % 128);
  }

  /** No sector the loader's loop reads crosses a 64 KB boundary. */
  lemma LoaderNeverCrosses(i: nat)
    ensures !Crosses64K(PlaceOf(KERNEL_PLACE, true, i).Physical())
  {
    hide PlaceOf, KernelSegment;
    KernelPlaceOf(i);
    LoaderSegment(i / 128);
    InSegment(KernelSegment(i / 128), 512 * (i % 128));
  }

  lemma InSegment(s: int, r: int)
    requires s % 0x1000 == 0 && 0 <= r < 0x1_0000
    ensures (s * 16 + r) % 0x1_0000 == r
  {
    var q := s / 0x1000;
    assert s * 16 == 0x1_0000 * q;
  }

  /** The boot sector's registers at sector `i`: bx wraps and es stays. */
  lemma {:induction false} LoaderPlaceOf(i: nat)
    ensures PlaceOf(LOADER_PLACE, false, i) == Place(0x9000, (0x100 + 512 * i) % 0x1_0000)
  {
    if i > 0 {
      LoaderPlaceOf(i - 1);
      WrapStep(0x100 + 512 * (i - 1));
    }
  }

  lemma WrapStep(x: nat)
    ensures (x % 0x1_0000 + 512) % 0x1_0000 == (x + 512) % 0x1_0000
  {
  }

  /** The boot sector's loop, which never changes es, is good for 127 sectors: the
      next one would cross the end of the segment. */
  lemma BootAddress(i: nat)
    ensures PlaceOf(LOADER_PLACE, false, i).Physical() == 0x9_0100 + 512 * i
            && !Crosses64K(PlaceOf(LOADER_PLACE, false, i).Physical())
            <==> i < 127
  {
    hide PlaceOf;
    LoaderPlaceOf(i);
  }

  // ---------------------------------------------------------------------------
  // The code

  /** The registers and memory that the loading code works on.  The boot sector and
      the loader run the same code with different constants. */
  class Loader {
    const disk: seq<byte>
    const ram: array<byte>
    const seg: int      // segment the file goes to
    const off: int      // offset of its first byte
    const carry: bool   // does the code step es when bx overflows?
    var es: int
    var bx: int

    /** boot.asm: BaseOfLoader and OffsetOfLoader. */
    constructor Boot(disk: seq<byte>, ram: array<byte>)
      requires IsDisk(disk) && ram.Length == 0x10_0000
      ensures Valid() && !carry && this.disk == disk && this.ram == ram
    {
      this.disk, this.ram, seg, off, carry, es, bx := disk, ram, 0x9000, 0x100, false, 0, 0;
    }

    /** loader.asm: BaseOfKernelFile and OffsetOfKernelFile. */
    constructor Second(disk: seq<byte>, ram: array<byte>)
      requires IsDisk(disk) && ram.Length == 0x10_0000
      ensures Valid() && carry && this.disk == disk && this.ram == ram
    {
      this.disk, this.ram, seg, off, carry, es, bx := disk, ram, 0x7000, 0, true, 0, 0;
    }

    predicate Valid() {
      && IsDisk(disk) && ram.Length == 0x10_0000
      && if carry then seg == 0x7000 && off == 0 else seg == 0x9000 && off == 0x100
    }

    /** Where the file starts, and the 1 KB below it that the FAT is read into. */
    function Start(): int { seg * 16 + off }
    function Scratch(): int { (seg - 0x100) * 16 }

    /** How many sectors the address stepping is good for. */
    function MaxSectors(): int { if carry then 1152 else 127 }

    ghost predicate UnchangedOutside(was: seq<byte>, lo: int, hi: int)
      requires |was| == ram.Length
      reads ram
    {
      forall a | 0 <= a < ram.Length && !(lo <= a < hi) :: ram[a] == was[a]
    }

    /** The drive transfers `count` sectors of one track to memory. */
    method Int13(p: Chs, count: nat, dest: nat)
      requires Valid()
      requires 0 <= p.cylinder < 80 && 0 <= p.head < 2 && 1 <= p.sector && p.sector - 1 + count <= 18
      requires dest + 512 * count <= ram.Length
      modifies ram
      ensures ToLba(p) + count <= 2880
      ensures forall a {:trigger ram[a]} | dest <= a < dest + 512 * count :: ram[a] == disk[512 * ToLba(p) + (a - dest)]
      ensures UnchangedOutside(old(ram[..]), dest, dest + 512 * count)
    {
      hide ToLba;
      TrackOnDisk(p, count);
      var from := 512 * ToLba(p);
      forall a | dest <= a < dest + 512 * count {
        ram[a] := disk[from + (a - dest)];
      }
    }

    /** The division and shifts of ReadSector. */
    method ChsOf(ax: nat) returns (p: Chs)
      requires ax < 2880
      ensures p == ToChs(ax) && ToLba(p) == ax && p.sector == ax % 18 + 1
      ensures 0 <= p.cylinder < 80 && 0 <= p.head < 2
    {
      ChsRoundTrip(ax);
      var al, ah := ax / 18, ax % 18;
      ah := ah + 1;
      var dh := al;
      al := al / 2;
      dh := dh % 2;
      p := Chs(al, dh, ah);
    }

    /** ReadSector: `cl` sectors from number `ax` to es:bx.  The transfer must stay on
        one track and inside one 64 KB page of memory. */
    method ReadSector(ax: nat, cl: nat)
      requires Valid() && ax < 2880 && ax % 18 + cl <= 18
      requires 0 <= es && 0 <= bx && es * 16 + bx + 512 * cl <= ram.Length
      requires (es * 16 + bx) % 0x1_0000 + 512 * cl <= 0x1_0000
      modifies ram
      ensures ax + cl <= 2880
      ensures var dest := es * 16 + bx;
              forall a {:trigger ram[a]} | dest <= a < dest + 512 * cl :: ram[a] == disk[512 * ax + (a - dest)]
      ensures UnchangedOutside(old(ram[..]), es * 16 + bx, es * 16 + bx + 512 * cl)
    {
      hide ToLba, ToChs;
      var p := ChsOf(ax);
      Int13(p, cl, es * 16 + bx);
    }

    /** GetFATEntry: the entry of cluster `ax`; es and bx come back unchanged. */
    method GetFATEntry(ax: nat) returns (entry: int)
      requires Valid() && ax < 4096
      modifies this`es, this`bx, ram
      ensures es == old(es) && bx == old(bx)
      ensures entry == FatEntry(disk, ax)
      ensures UnchangedOutside(old(ram[..]), Scratch(), Scratch() + 1024)
    {
      hide Crosses64K;
      var savedEs, savedBx := es, bx;
      es := seg - 0x100;
      var product := ax * 3;
      var quotient, odd := product / 2, product % 2;
      var sector, dx := quotient / 512, quotient % 512;
      bx := 0;
      assert sector + 1 < 18;
      ReadSector(sector + 1, 2);
      bx := bx + dx;
      var at := es * 16 + bx;
      entry := ram[at] as int + 256 * (ram[at + 1] as int);
      assert 512 * (sector + 1) + dx == 512 + 3 * ax / 2;
      assert odd == ax % 2;
      if odd == 1 {
        entry := entry / 16;
      }
      entry := entry % 4096;
      bx := savedBx;
      es := savedEs;
    }

    /** Where the loop puts its first sector, and where it is now. */
    function First(): Place { Place(seg, off) }

    function Here(): Place
      reads this
    {
      Place(es, bx)
    }

    /** `add bx, [BPB_BytsPerSec]` and, in the loader, the step of es on a carry. */
    method NextAddress()
      requires 0 <= bx < 0x1_0000
      modifies this`es, this`bx
      ensures Here() == NextPlace(old(Here()), carry)
    {
      bx := bx + 512;
      if bx >= 0x1_0000 {
        bx := bx - 0x1_0000;
        if carry {
          es := (es + 0x1000) % 0x1_0000;
        }
      }
    }

    /** As long as the stepping is good, sector `i` goes right behind the one before,
        without crossing a 64 KB boundary. */
    lemma GoodPlace(i: nat)
      requires Valid() && i < MaxSectors()
      ensures var p := PlaceOf(First(), carry, i);
              && p.Physical() == Start() + 512 * i && !Crosses64K(p.Physical())
              && 0 <= p.es && 0 <= p.bx < 0x1_0000
    {
      hide PlaceOf, Crosses64K;
      if carry {
        LoaderSegment(i / 128);
        LoaderAddress(i);
        LoaderNeverCrosses(i);
        KernelPlaceOf(i);
      } else {
        BootAddress(i);
        LoaderPlaceOf(i);
      }
    }

    /** The first `n` sectors of the file are in place. */
    ghost predicate Loaded(chain: seq<int>, n: nat)
      requires Valid() && OnDisk(chain) && n <= |chain| <= MaxSectors()
      reads ram
    {
      forall a {:trigger ram[a]} | Start() <= a < Start() + 512 * n :: ram[a] == FileByte(disk, chain, a - Start())
    }

    /** Nothing changed but the file's place and the FAT scratch. */
    ghost predicate OthersKept(was: seq<byte>, n: nat)
      requires |was| == ram.Length
      reads ram
    {
      forall a {:trigger ram[a]} | 0 <= a < ram.Length && !(Scratch() <= a < Scratch() + 1024)
                                   && !(Start() <= a < Start() + 512 * n) :: ram[a] == was[a]
    }

    /** One sector of the file and the entry that follows it. */
    method LoadSector(cluster: nat, ghost chain: seq<int>, ghost i: nat) returns (next: int)
      requires Valid() && OnDisk(chain) && i < |chain| <= MaxSectors() && cluster == chain[i] && cluster < 4096
      requires Here() == PlaceOf(First(), carry, i)
      requires Loaded(chain, i)
      modifies this`es, this`bx, ram
      ensures es == old(es) && bx == old(bx)
      ensures next == FatEntry(disk, cluster)
      ensures Loaded(chain, i + 1)
      ensures OthersKept(old(ram[..]), |chain|)
    {
      GoodPlace(i);
      ReadSector(cluster + 31, 1);
      assert Loaded(chain, i + 1) by {
        forall a | Start() <= a < Start() + 512 * (i + 1) ensures ram[a] == FileByte(disk, chain, a - Start()) {
          if a >= Start() + 512 * i {
            InSector(a - Start(), i);
          }
        }
      }
      next := GetFATEntry(cluster);
    }

    /** The loop at LABEL_GOON_LOADING_FILE: afterwards memory from the load address
        holds the clusters of the chain in order, and nothing else changed.  The bound on
        the length concerns addressing only: from sector 256 on the loader's loop writes
        to 9_0000h and up, where the loader itself is; `LoadKernel` stays below. */
    method LoadFile(c: nat, ghost chain: seq<int>)
      requires Valid() && IsChain(disk, c, chain) && |chain| <= MaxSectors()
      modifies this`es, this`bx, ram
      ensures Loaded(chain, |chain|)
      ensures OthersKept(old(ram[..]), |chain|)
    {
      es := seg;
      bx := off;
      var cluster := c;
      ghost var i: nat := 0;
      while true
        invariant i < |chain| && cluster == chain[i] == Follow(disk, c, i)
        invariant Here() == PlaceOf(First(), carry, i)
        invariant Loaded(chain, i) && OthersKept(old(ram[..]), |chain|)
        decreases |chain| - i
      {
        var next := LoadSector(cluster, chain, i);
        assert next == Follow(disk, c, i + 1);
        if next == 0xFFF {
          assert i + 1 == |chain|;
          break;
        }
        cluster := next;
        GoodPlace(i);
        NextAddress();
        i := i + 1;
      }
    }

    // -------------------------------------------------------------------------
    // The root directory

    /** LABEL_CMP_FILENAME: compare 11 bytes at es:di with the name.  The loop stops
        at the first difference; di ends up somewhere inside the entry. */
    method CompareName(name: seq<byte>, start: nat) returns (same: bool, di: nat)
      requires Valid() && |name| == 11 && 0 <= es && es * 16 + start + 11 <= ram.Length
      ensures same <==> ram[es * 16 + start..es * 16 + start + 11] == name
      ensures start <= di <= start + 11
    {
      di := start;
      var si := 0;
      var cx := 11;
      while cx != 0
        invariant 0 <= cx <= 11 && si == 11 - cx && di == start + si
        invariant forall k | 0 <= k < si :: ram[es * 16 + start + k] == name[k]
      {
        cx := cx - 1;
        var al := name[si];
        si := si + 1;
        if al != ram[es * 16 + di] {
          assert ram[es * 16 + start..es * 16 + start + 11][si - 1] != name[si - 1];
          return false, di;
        }
        di := di + 1;
      }
      return true, di;
    }

    /** The buffer at the load address holds sector `s`. */
    ghost predicate Buffered(s: nat)
      requires Valid() && s < 2880
      reads ram
    {
      forall a {:trigger ram[a]} | Start() <= a < Start() + 512 :: ram[a] == disk[512 * s + (a - Start())]
    }

    /** An entry in the buffer is the entry on the disk. */
    lemma BufferedName(s: nat, e: nat, name: seq<byte>)
      requires Valid() && 19 <= s < 33 && e < 16 && Buffered(s) && |name| == 11
      ensures ram[Start() + 32 * e..Start() + 32 * e + 11] == name <==> NameAt(disk, 16 * (s - 19) + e, name)
    {
      var k := 16 * (s - 19) + e;
      assert 9728 + 32 * k == 512 * s + 32 * e;
      assert ram[Start() + 32 * e..Start() + 32 * e + 11] == disk[9728 + 32 * k..9728 + 32 * k + 11];
    }

    /** LABEL_SEARCH_FOR_KERNELBIN: the 16 entries of the sector in the buffer. */
    method SearchSector(name: seq<byte>, ghost s: nat) returns (found: bool, di: nat)
      requires Valid() && |name| == 11 && es == seg && 19 <= s < 33 && Buffered(s)
      ensures found ==> di % 32 == 0 && off <= di < off + 512
                        && NameAt(disk, 16 * (s - 19) + (di - off) / 32, name)
                        && forall j: nat | 16 * (s - 19) <= j < 16 * (s - 19) + (di - off) / 32 ::
                             !NameAt(disk, j, name)
      ensures !found ==> forall j: nat | 16 * (s - 19) <= j < 16 * (s - 19) + 16 :: !NameAt(disk, j, name)
    {
      hide NameAt, Buffered;
      di := off;
      var dx := 16;
      ghost var e: nat := 0;
      while dx != 0
        invariant 0 <= dx <= 16 && e == 16 - dx && di == off + 32 * e
        invariant forall j: nat | 16 * (s - 19) <= j < 16 * (s - 19) + e :: !NameAt(disk, j, name)
      {
        dx := dx - 1;
        var same, at := CompareName(name, di);
        BufferedName(s, e, name);
        Realign(at, di);
        di := at - at % 32;             // and di, 0FFE0h
        if same {
          return true, di;
        }
        di := di + 32;
        e := e + 1;
      }
      return false, di;
    }

    /** The search of the root directory: the first of its 224 entries with the name,
        left in the buffer with di at its start, or failure when there is none. */
    method SearchRoot(name: seq<byte>) returns (found: bool, di: nat, ghost k: nat)
      requires Valid() && |name| == 11
      modifies this`es, this`bx, ram
      ensures found ==> FirstMatch(disk, name, k)
                        && di == off + 32 * (k % 16) && Buffered(19 + k / 16) && es == seg
      ensures !found ==> forall j: nat | j < 224 :: !NameAt(disk, j, name)
      ensures UnchangedOutside(old(ram[..]), Start(), Start() + 512)
    {
      hide NameAt;
      var sectorNo := 19;
      var left := 14;
      k := 0;
      while left != 0
        invariant 0 <= left <= 14 && sectorNo == 33 - left
        invariant forall j: nat | j < 16 * (sectorNo - 19) :: !NameAt(disk, j, name)
        invariant UnchangedOutside(old(ram[..]), Start(), Start() + 512)
      {
        left := left - 1;
        es := seg;
        bx := off;
        ReadSector(sectorNo, 1);
        found, di := SearchSector(name, sectorNo);
        if found {
          var e := (di - off) / 32;
          k := 16 * (sectorNo - 19) + e;
          return;
        }
        sectorNo := sectorNo + 1;
      }
      found := false;
      di := 0;
    }

    /** A 16-bit load from the directory entry at es:di. */
    method EntryWord(di: nat, field: nat, ghost k: nat) returns (w: int)
      requires Valid() && k < 224 && es == seg && di == off + 32 * (k % 16) && Buffered(19 + k / 16)
      requires field < 31
      ensures w == U16(disk, 9728 + 32 * k + field)
    {
      var at := es * 16 + di + field;
      w := ram[at] as int + 256 * (ram[at + 1] as int);
      assert 512 * (19 + k / 16) + 32 * (k % 16) == 9728 + 32 * k;
    }

    /** The loader's whole job: find the kernel, check its size against the space below
        the loader, load it.  For every disk whose file has a chain of the length its
        size asks for, memory then holds the file, and of the rest only the FAT scratch
        has changed: neither the loader itself, at 9_0000h and up, nor the space between
        the file and the loader. */
    method LoadKernel(name: seq<byte>, ghost chain: seq<int>) returns (outcome: Outcome)
      requires Valid() && carry && |name| == 11
      requires forall k: nat | FirstMatch(disk, name, k) && FileSize(disk, k) <= 0x2_0000 ::
                 IsChain(disk, FirstCluster(disk, k), chain) && |chain| == (FileSize(disk, k) + 511) / 512
      modifies this`es, this`bx, ram
      ensures outcome.NoFile? <==> forall j: nat | j < 224 :: !NameAt(disk, j, name)
      ensures outcome.TooLarge? ==> exists k: nat :: FirstMatch(disk, name, k) && FileSize(disk, k) > 0x2_0000
      ensures outcome.Done? ==>
                && (exists k: nat :: FirstMatch(disk, name, k) && FileSize(disk, k) <= 0x2_0000)
                && 1 <= |chain| <= 256 && OnDisk(chain)
                && ram[0x7_0000..0x7_0000 + 512 * |chain|] == FileBytes(disk, chain)
      ensures outcome.Done? ==> forall a | 0x7_0000 + 512 * |chain| <= a < 0x9_0000 :: ram[a] == old(ram[a])
      ensures forall a | 0 <= a < 0x6_F000 || 0x6_F400 <= a < 0x7_0000
              || 0x9_0000 <= a < 0x10_0000 :: ram[a] == old(ram[a])
    {
      hide U16, NameAt, FileBytes, FileByte, EndsAfter, Visited;
      var found, di, k := SearchRoot(name);
      if !found {
        return NoFile;
      }
      var low := EntryWord(di, 0x1C, k);
      var high := EntryWord(di, 0x1E, k);
      var size := low + 0x1_0000 * high;
      assert size == FileSize(disk, k);
      if size > 0x2_0000 {
        return TooLarge;
      }
      var cx := EntryWord(di, 0x1A, k);
      assert cx == FirstCluster(disk, k);
      ChainNotEmpty(disk, cx, chain);
      LoadFile(cx, chain);
      AsFile(chain);
      return Done;
    }

    /** The boot sector's whole job.  It checks no size; up to 127 sectors are loaded
        faithfully. */
    method LoadLoader(name: seq<byte>, ghost chain: seq<int>) returns (found: bool)
      requires Valid() && !carry && |name| == 11
      requires forall k: nat | FirstMatch(disk, name, k) ::
                 IsChain(disk, FirstCluster(disk, k), chain) && |chain| <= 127
      modifies this`es, this`bx, ram
      ensures found <==> exists j: nat :: j < 224 && NameAt(disk, j, name)
      ensures found ==> |chain| <= 127 && OnDisk(chain)
                        && ram[0x9_0100..0x9_0100 + 512 * |chain|] == FileBytes(disk, chain)
      ensures found ==> forall a | 0x9_0100 + 512 * |chain| <= a < 0x10_0000 :: ram[a] == old(ram[a])
      ensures forall a | 0 <= a < 0x8_F000 || 0x8_F400 <= a < 0x9_0100 :: ram[a] == old(ram[a])
    {
      hide U16, NameAt, FileBytes, FileByte, EndsAfter, Visited;
      var di: nat;
      ghost var k: nat;
      found, di, k := SearchRoot(name);
      if found {
        var cx := EntryWord(di, 0x1A, k);
        assert cx == FirstCluster(disk, k);
        ChainNotEmpty(disk, cx, chain);
        LoadFile(cx, chain);
        AsFile(chain);
      }
    }

    lemma ByteLoaded(chain: seq<int>, p: nat)
      requires Valid() && OnDisk(chain) && |chain| <= MaxSectors() && Loaded(chain, |chain|) && p < 512 * |chain|
      ensures ram[Start() + p] == FileBytes(disk, chain)[p]
    {
      hide FileByte;
      FileBytesAt(disk, chain, p);
    }

    /** Loaded byte by byte is loaded as a whole. */
    lemma AsFile(chain: seq<int>)
      requires Valid() && OnDisk(chain) && |chain| <= MaxSectors() && Loaded(chain, |chain|)
      ensures ram[Start()..Start() + 512 * |chain|] == FileBytes(disk, chain)
    {
      hide Loaded, OnDisk;
      var mine, file := ram[Start()..Start() + 512 * |chain|], FileBytes(disk, chain);
      assert |mine| == |file|;
      forall p | 0 <= p < |file| ensures mine[p] == file[p] {
        ByteLoaded(chain, p);
      }
    }
  }

  datatype Outcome = NoFile | TooLarge | Done

  /** `and di, 0FFE0h` brings a position inside an entry back to its start. */
  lemma Realign(at: nat, start: nat)
    requires start % 32 == 0 && start <= at <= start + 11
    ensures at - at % 32 == start
  {
  }
}
