/** The FAT12 floppy image: geometry, 12-bit allocation entries, cluster chains. */
module Fat12 {
  import opened Bytes

  /** The counts in the BIOS parameter block that the layout of a disk follows from. */
  datatype Bpb = Bpb(bytesPerSec: int, secPerClus: int, reserved: int, fats: int, rootEntries: int, fatSize: int,
                     secPerTrack: int, heads: int, total: int)

  /** fat12hdr.inc: a floppy of 2880 sectors. */
  const FLOPPY := Bpb(512, 1, 1, 2, 224, 9, 18, 2, 2880)

  // Where the standard puts the parts of a disk ("FAT Data Structure" and "FAT Directory
  // Structure" of Microsoft's FAT specification), and what that is for the floppy.

  /** The first byte of FAT1. */
  function FatStart(): (at: int)
    ensures at == 512
  {
    FLOPPY.reserved * FLOPPY.bytesPerSec
  }

  /** The first byte of the root directory, behind the FATs. */
  function RootStart(): (at: int)
    ensures at == 9728
  {
    (FLOPPY.reserved + FLOPPY.fats * FLOPPY.fatSize) * FLOPPY.bytesPerSec
  }

  /** The sectors of the root directory, 32 bytes an entry. */
  function RootSectors(): (n: int)
    ensures n == 14
  {
    (32 * FLOPPY.rootEntries + FLOPPY.bytesPerSec - 1) / FLOPPY.bytesPerSec
  }

  /** The first sector of a cluster; clusters count from 2 behind the root directory. */
  function ClusterSector(c: int): (s: int)
    ensures s == c + 31
  {
    FLOPPY.reserved + FLOPPY.fats * FLOPPY.fatSize + RootSectors() + (c - 2) * FLOPPY.secPerClus
  }

  predicate IsDisk(disk: seq<byte>) { |disk| == FLOPPY.total * FLOPPY.bytesPerSec }

  // ---------------------------------------------------------------------------
  // Cylinder, head, sector

  datatype Chs = Chs(cylinder: int, head: int, sector: int)

  /** The arithmetic of ReadSector. */
  function ToChs(lba: int): Chs {
    Chs(lba / 18 / 2, lba / 18 % 2, lba % 18 + 1)
  }

  /** What the drive makes of it. */
  function ToLba(p: Chs): int {
    (p.cylinder * 2 + p.head) * 18 + p.sector - 1
  }

  lemma ChsRoundTrip(lba: nat)
    requires lba < 2880
    ensures ToLba(ToChs(lba)) == lba
    ensures var p := ToChs(lba); 0 <= p.cylinder < 80 && 0 <= p.head < 2 && 1 <= p.sector <= 18
  {
  }

  /** A transfer within one track stays on the disk. */
  lemma TrackOnDisk(p: Chs, count: nat)
    requires 0 <= p.cylinder < 80 && 0 <= p.head < 2 && 1 <= p.sector && p.sector - 1 + count <= 18
    ensures 0 <= ToLba(p) && ToLba(p) + count <= 2880
  {
  }

  // ---------------------------------------------------------------------------
  // 12-bit entries

  /** GetFATEntry: the 16-bit word at byte 3n/2 of FAT1, its upper 12 bits for odd n
      and its lower 12 bits for even n. */
  function FatEntry(disk: seq<byte>, n: int): (e: int)
    requires IsDisk(disk) && 0 <= n < 4096
    ensures 0 <= e < 4096
  {
    var w := U16(disk, 512 + 3 * n / 2);
    if n % 2 == 1 then w / 16 else w % 4096
  }

  /** Hexadecimal digit `t` of a packed table: three digits an entry, low first. */
  function Digit(entries: seq<int>, t: nat): int
    requires t / 3 < |entries|
  {
    var e := entries[t / 3];
    if t % 3 == 0 then e % 16 else if t % 3 == 1 then e / 16 % 16 else e / 256 % 16
  }

  /** FAT1 holds the table, two digits a byte, low digit first. */
  ghost predicate Packed(disk: seq<byte>, entries: seq<int>)
    requires IsDisk(disk)
  {
    && 3 * |entries| <= 2 * FLOPPY.fatSize * FLOPPY.bytesPerSec
    && (forall i | 0 <= i < |entries| :: 0 <= entries[i] < 4096)
    && (forall t: nat {:trigger Digit(entries, t)} | t < 3 * |entries| ::
          Digit(entries, t) == if t % 2 == 0 then disk[FatStart() + t / 2] % 16 else disk[FatStart() + t / 2] / 16)
  }

  lemma DigitsOf(e: int)
    requires 0 <= e < 4096
    ensures e == e % 16 + 16 * (e / 16 % 16) + 256 * (e / 256 % 16)
  {
  }

  lemma EvenWord(x: byte, y: byte)
    ensures (x + 256 * y) % 4096 == x % 16 + 16 * (x / 16) + 256 * (y % 16)
  {
    assert y == y % 16 + 16 * (y / 16);
    assert x + 256 * y == (x + 256 * (y % 16)) + 4096 * (y / 16);
  }

  lemma OddWord(x: byte, y: byte)
    ensures (x + 256 * y) / 16 == x / 16 + 16 * (y % 16) + 256 * (y / 16)
  {
    assert x + 256 * y == 16 * (x / 16 + 16 * y) + x % 16;
    assert y == y % 16 + 16 * (y / 16);
  }

  /** The two digits of byte `k` of the table. */
  lemma ByteDigits(disk: seq<byte>, entries: seq<int>, k: nat)
    requires IsDisk(disk) && Packed(disk, entries)
    ensures 2 * k < 3 * |entries| ==> Digit(entries, 2 * k) == disk[512 + k] % 16
    ensures 2 * k + 1 < 3 * |entries| ==> Digit(entries, 2 * k + 1) == disk[512 + k] / 16
  {
    assert 2 * k % 2 == 0 && 2 * k / 2 == k;
    assert (2 * k + 1) % 2 == 1 && (2 * k + 1) / 2 == k;
  }

  /** The three digits of entry `n`. */
  lemma EntryDigits(entries: seq<int>, n: nat)
    requires n < |entries| && 0 <= entries[n] < 4096
    ensures entries[n] == Digit(entries, 3 * n) + 16 * Digit(entries, 3 * n + 1) + 256 * Digit(entries, 3 * n + 2)
  {
    assert 3 * n / 3 == n && (3 * n + 1) / 3 == n && (3 * n + 2) / 3 == n;
    assert 3 * n % 3 == 0 && (3 * n + 1) % 3 == 1 && (3 * n + 2) % 3 == 2;
    DigitsOf(entries[n]);
  }

  lemma EvenEntry(disk: seq<byte>, entries: seq<int>, h: nat)
    requires IsDisk(disk) && Packed(disk, entries) && 2 * h < |entries|
    ensures U16(disk, 512 + 3 * h) % 4096 == entries[2 * h]
  {
    hide Digit, Packed;
    EntryRange(disk, entries, 2 * h);
    EntryDigits(entries, 2 * h);
    assert 3 * (2 * h) == 2 * (3 * h) && 3 * (2 * h) + 1 == 2 * (3 * h) + 1 && 3 * (2 * h) + 2 == 2 * (3 * h + 1);
    ByteDigits(disk, entries, 3 * h);
    ByteDigits(disk, entries, 3 * h + 1);
    EvenWord(disk[512 + 3 * h], disk[512 + 3 * h + 1]);
  }

  lemma OddEntry(disk: seq<byte>, entries: seq<int>, h: nat)
    requires IsDisk(disk) && Packed(disk, entries) && 2 * h + 1 < |entries|
    ensures U16(disk, 512 + 3 * h + 1) / 16 == entries[2 * h + 1]
  {
    hide Digit, Packed;
    EntryRange(disk, entries, 2 * h + 1);
    EntryDigits(entries, 2 * h + 1);
    var t := 3 * (2 * h + 1);
    assert t == 2 * (3 * h + 1) + 1 && t + 1 == 2 * (3 * h + 2) && t + 2 == 2 * (3 * h + 2) + 1;
    ByteDigits(disk, entries, 3 * h + 1);
    ByteDigits(disk, entries, 3 * h + 2);
    OddWord(disk[512 + 3 * h + 1], disk[512 + 3 * h + 2]);
  }

  lemma EntryRange(disk: seq<byte>, entries: seq<int>, n: nat)
    requires IsDisk(disk) && Packed(disk, entries) && n < |entries|
    ensures 0 <= entries[n] < 4096 && |entries| <= 3072
  {
  }

  /** GetFATEntry undoes the packing, also for entries that straddle two sectors. */
  lemma FatEntryUnpacks(disk: seq<byte>, entries: seq<int>, n: nat)
    requires IsDisk(disk) && Packed(disk, entries) && n < |entries|
    ensures n < 3072 && FatEntry(disk, n) == entries[n]
  {
    hide Digit, Packed, U16;
    EntryRange(disk, entries, n);
    var h := n / 2;
    if n % 2 == 0 {
      assert n == 2 * h && 512 + 3 * n / 2 == 512 + 3 * h;
      EvenEntry(disk, entries, h);
    } else {
      assert n == 2 * h + 1 && 512 + 3 * n / 2 == 512 + 3 * h + 1;
      OddEntry(disk, entries, h);
    }
  }

  // ---------------------------------------------------------------------------
  // Chains

  /** The cluster reached from `c` after `k` lookups. */
  function Follow(disk: seq<byte>, c: int, k: nat): (r: int)
    requires IsDisk(disk) && 0 <= c < 4096
    ensures 0 <= r < 4096
  {
    if k == 0 then c else FatEntry(disk, Follow(disk, c, k - 1))
  }

  /** The loading loop ends after `k` iterations: the k-th lookup is the first to
      give 0FFFh. */
  ghost predicate EndsAfter(disk: seq<byte>, c: int, k: nat)
    requires IsDisk(disk) && 0 <= c < 4096
  {
    0 < k && Follow(disk, c, k) == 0xFFF && forall j: nat | 0 < j < k :: Follow(disk, c, j) != 0xFFF
  }

  lemma {:induction false} FollowTogether(disk: seq<byte>, c: int, i: nat, j: nat, t: nat)
    requires IsDisk(disk) && 0 <= c < 4096 && Follow(disk, c, i) == Follow(disk, c, j)
    ensures Follow(disk, c, i + t) == Follow(disk, c, j + t)
  {
    if t > 0 {
      FollowTogether(disk, c, i, j, t - 1);
    }
  }

  /** A chain that ends visits no cluster twice. */
  lemma ChainDistinct(disk: seq<byte>, c: int, k: nat, i: nat, j: nat)
    requires IsDisk(disk) && 0 <= c < 0xFFF && EndsAfter(disk, c, k) && i < j < k
    ensures Follow(disk, c, i) != Follow(disk, c, j)
  {
    var t := i + (k - j);
    assert Follow(disk, c, t) != 0xFFF;
    if Follow(disk, c, i) == Follow(disk, c, j) {
      FollowTogether(disk, c, i, j, k - j);
    }
  }

  /** The clusters visited by `k` iterations. */
  function Visited(disk: seq<byte>, c: int, k: nat): (s: seq<int>)
    requires IsDisk(disk) && 0 <= c < 4096
    ensures |s| == k && forall i: nat | i < k :: s[i] == Follow(disk, c, i)
  {
    if k == 0 then [] else Visited(disk, c, k - 1) + [Follow(disk, c, k - 1)]
  }

  /** The numbers below `n`. */
  ghost function Below(n: nat): (s: set<int>)
    ensures |s| == n && forall x :: x in s <==> 0 <= x < n
  {
    if n == 0 then {} else Below(n - 1) + {n - 1}
  }

  /** Distinct numbers below `n` are at most `n`. */
  lemma DistinctCount(s: seq<int>, n: nat)
    requires forall i | 0 <= i < |s| :: 0 <= s[i] < n
    requires forall i, j | 0 <= i < j < |s| :: s[i] != s[j]
    ensures |s| <= n
  {
    var rest := Below(n) - Elements(s);
    assert Below(n) == Elements(s) + rest;
  }

  ghost function Elements(s: seq<int>): (e: set<int>)
    requires forall i, j | 0 <= i < j < |s| :: s[i] != s[j]
    ensures |e| == |s| && forall x :: x in e <==> x in s
  {
    if s == [] then {} else
    var init, last := s[..|s| - 1], s[|s| - 1];
    assert s == init + [last];
    Elements(init) + {last}
  }

  /** A chain that ends does so within 4095 iterations. */
  lemma ChainLength(disk: seq<byte>, c: int, k: nat)
    requires IsDisk(disk) && 0 <= c < 0xFFF && EndsAfter(disk, c, k)
    ensures k <= 4095
  {
    var s := Visited(disk, c, k);
    forall i, j | 0 <= i < j < |s| ensures s[i] != s[j] {
      ChainDistinct(disk, c, k, i, j);
    }
    DistinctCount(s, 0xFFF);
  }

  /** One of the first `n` lookups gives 0FFFh. */
  ghost predicate ReachesEnd(disk: seq<byte>, c: int, n: nat)
    requires IsDisk(disk) && 0 <= c < 4096
  {
    exists k: nat :: 0 < k <= n && Follow(disk, c, k) == 0xFFF
  }

  /** The loop ends exactly when some lookup gives 0FFFh, and if none of the first
      4095 does, it never ends. */
  lemma EndsExactly(disk: seq<byte>, c: int)
    requires IsDisk(disk) && 0 <= c < 0xFFF
    ensures (exists k: nat :: EndsAfter(disk, c, k)) <==> ReachesEnd(disk, c, 4095)
    ensures forall n: nat :: ReachesEnd(disk, c, n) ==> ReachesEnd(disk, c, 4095)
  {
    forall k: nat | EndsAfter(disk, c, k) ensures ReachesEnd(disk, c, 4095) {
      ChainLength(disk, c, k);
    }
    forall n: nat | ReachesEnd(disk, c, n) ensures ReachesEnd(disk, c, 4095) {
      var k: nat :| 0 < k <= n && Follow(disk, c, k) == 0xFFF;
      var j := FirstEnd(disk, c, k);
    }
    if ReachesEnd(disk, c, 4095) {
      var k: nat :| 0 < k <= 4095 && Follow(disk, c, k) == 0xFFF;
      var j := FirstEnd(disk, c, k);
      assert EndsAfter(disk, c, j);
    }
  }

  lemma {:induction false} FirstEnd(disk: seq<byte>, c: int, k: nat) returns (j: nat)
    requires IsDisk(disk) && 0 <= c < 4096 && 0 < k && Follow(disk, c, k) == 0xFFF
    ensures EndsAfter(disk, c, j)
  {
    if i: nat :| 0 < i < k && Follow(disk, c, i) == 0xFFF {
      j := FirstEnd(disk, c, i);
    } else {
      j := k;
    }
  }
}
