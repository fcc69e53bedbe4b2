/** Placing the kernel's segments: InitKernel copies what the program headers of the
    ELF file at 7_0000h describe to where they say. */
module ElfLoad {
  import opened Bytes
  import Records
  import ElfFormat

  /** One program header: 32 bytes, of which four fields are used. */
  datatype Segment = Segment(kind: int, offset: int, vaddr: int, size: int) {
    predicate Null() { kind == 0 }
    predicate Covers(a: int) { !Null() && vaddr <= a < vaddr + size }
  }

  /** Number of program headers and where they start in the file. */
  function Count(file: seq<byte>): int
    requires |file| >= 0x34
  {
    U16(file, 0x2C)
  }

  function Table(file: seq<byte>): int
    requires |file| >= 0x34
  {
    U32(file, 0x1C)
  }

  predicate HeadersInside(file: seq<byte>) {
    |file| >= 0x34 && Table(file) + 32 * Count(file) <= |file|
  }

  function Header(file: seq<byte>, i: nat): Segment
    requires HeadersInside(file) && i < Count(file)
  {
    var at := Table(file) + 32 * i;
    Segment(U32(file, at), U32(file, at + 4), U32(file, at + 8), U32(file, at + 0x10))
  }

  function Segments(file: seq<byte>): (ss: seq<Segment>)
    requires HeadersInside(file)
    ensures |ss| == Count(file) && forall i: nat | i < |ss| :: ss[i] == Header(file, i)
  {
    seq(Count(file), i requires 0 <= i < Count(file) => Header(file, i))
  }

  /** The loader reads the number and place of the program headers where an ELF file has
      them. */
  lemma HeaderRead(file: seq<byte>, h: ElfFormat.ElfHeader)
    requires h.Starts(file)
    ensures |file| >= 0x34 && Count(file) == h.phnum && Table(file) == h.phoff
  {
    ElfFormat.HeaderOffsets(h);
    Records.WordInFile(file, 0, h.Fields(), 5);
    Records.HalfInFile(file, 0, h.Fields(), 10);
  }

  /** And of each program header its type, offset, address and size in the file. */
  lemma SegmentRead(file: seq<byte>, i: nat, p: ElfFormat.ProgramHeader)
    requires HeadersInside(file) && i < Count(file) && Records.Holds(file, Table(file) + 32 * i, p.Fields())
    ensures Header(file, i) == Segment(p.kind, p.offset, p.vaddr, p.filesz)
  {
    hide Records.Encode;
    var at, fs := Table(file) + 32 * i, p.Fields();
    ElfFormat.WordOffsets(fs, 0);
    ElfFormat.WordOffsets(fs, 1);
    ElfFormat.WordOffsets(fs, 2);
    ElfFormat.WordOffsets(fs, 4);
    Records.WordInFile(file, at, fs, 0);
    Records.WordInFile(file, at, fs, 1);
    Records.WordInFile(file, at, fs, 2);
    Records.WordInFile(file, at, fs, 4);
  }

  /** What the loader relies on: segment contents inside the file, destinations inside
      memory, away from the file and from each other. */
  ghost predicate Loadable(ss: seq<Segment>, file: seq<byte>, base: int, memSize: int) {
    && 0 <= base && base + |file| <= memSize
    && (forall s <- ss | !s.Null() :: Fits(s, file, base, memSize))
    && (forall i, j | 0 <= i < j < |ss| && !ss[i].Null() && !ss[j].Null() :: Apart(ss[i], ss[j]))
  }

  predicate Fits(s: Segment, file: seq<byte>, base: int, memSize: int) {
    && 0 <= s.offset && 0 <= s.vaddr && 0 <= s.size
    && s.offset + s.size <= |file| && s.vaddr + s.size <= memSize
    && (s.vaddr + s.size <= base || base + |file| <= s.vaddr)
  }

  predicate Apart(s: Segment, t: Segment) {
    s.vaddr + s.size <= t.vaddr || t.vaddr + t.size <= s.vaddr
  }

  /** The segment's destination holds its bytes of the file. */
  ghost predicate Holds(m: seq<byte>, s: Segment, file: seq<byte>)
    requires s.Null() || (0 <= s.offset && 0 <= s.vaddr && s.offset + s.size <= |file| && s.vaddr + s.size <= |m|)
  {
    forall a {:trigger m[a]} | s.Covers(a) :: m[a] == file[s.offset + (a - s.vaddr)]
  }

  /** The first `n` segments are in place and nothing else has changed. */
  ghost predicate Placed(ss: seq<Segment>, file: seq<byte>, base: int, was: seq<byte>, now: seq<byte>, n: nat)
    requires n <= |ss| && Loadable(ss, file, base, |was|)
  {
    && |now| == |was|
    && (forall i | 0 <= i < n :: Holds(now, ss[i], file))
    && (forall a {:trigger now[a]} | 0 <= a < |now| && (forall i | 0 <= i < n :: !ss[i].Covers(a)) :: now[a] == was[a])
  }

  /** Where a byte that MemCpy puts at `a` comes from.  A copy upwards into its own
      source repeats the first bytes over and over. */
  function Origin(dest: int, src: int, a: int): int {
    if dest <= src then src + (a - dest) else src + (a - dest) % (dest - src)
  }

  /** Without overlap from below, or none at all, it is a plain copy. */
  lemma PlainCopy(dest: nat, src: nat, size: nat, a: int)
    requires (dest <= src || src + size <= dest) && dest <= a < dest + size
    ensures Origin(dest, src, a) == src + (a - dest)
  {
  }

  lemma Repeats(d: int, x: int)
    requires 0 < d <= x
    ensures x % d == (x - d) % d
  {
    var q, r := (x - d) / d, (x - d) % d;
    assert x - d == q * d + r;
    Distribute(q, d);
    Remainder(x, d, q + 1, r);
  }

  /** A number has only one remainder. */
  lemma Remainder(x: int, d: int, q: int, r: int)
    requires 0 <= r < d && x == q * d + r
    ensures x % d == r
  {
    var q', r' := x / d, x % d;
    assert x == q' * d + r';
    if q > q' {
      Multiples(q, q', d);
    } else if q < q' {
      Multiples(q', q, d);
    }
  }

  lemma {:induction false} Multiples(p: int, q: int, d: int)
    requires p > q && d > 0
    ensures p * d >= q * d + d
    decreases p - q
  {
    Distribute(p - 1, d);
    if p > q + 1 {
      Multiples(p - 1, q, d);
    }
  }

  lemma Distribute(p: int, d: int)
    ensures (p + 1) * d == p * d + d
  {
  }

  /** MemCpy: byte by byte, upwards. */
  method MemCpy(mem: array<byte>, dest: nat, src: nat, size: nat)
    requires dest + size <= mem.Length && src + size <= mem.Length
    modifies mem
    ensures forall a | dest <= a < dest + size ::
              0 <= Origin(dest, src, a) < mem.Length && mem[a] == old(mem[Origin(dest, src, a)])
    ensures forall a | 0 <= a < mem.Length && !(dest <= a < dest + size) :: mem[a] == old(mem[a])
  {
    var edi, esi, ecx := dest, src, size;
    while ecx != 0
      invariant 0 <= ecx <= size && edi == dest + (size - ecx) && esi == src + (size - ecx)
      invariant forall a | dest <= a < edi ::
                  0 <= Origin(dest, src, a) < mem.Length && mem[a] == old(mem[Origin(dest, src, a)])
      invariant forall a | 0 <= a < mem.Length && !(dest <= a < edi) :: mem[a] == old(mem[a])
    {
      OriginStep(dest, src, edi);
      mem[edi] := mem[esi];
      esi := esi + 1;
      edi := edi + 1;
      ecx := ecx - 1;
    }
  }

  lemma Bounded(x: nat, d: int)
    requires d > 0
    ensures 0 <= x % d <= x && (x < d ==> x % d == x)
  {
    if x < d {
      Remainder(x, d, 0, x);
    }
  }

  /** The byte read for `a` is an original one or one already copied. */
  lemma OriginStep(dest: nat, src: nat, a: int)
    requires dest <= a
    ensures var s := src + (a - dest);
            Origin(dest, src, a) == if dest <= s < a then Origin(dest, src, s) else s
    ensures src <= Origin(dest, src, a) <= src + (a - dest)
  {
    if src < dest {
      var d, x := dest - src, a - dest;
      Bounded(x, d);
      if d <= x {
        Repeats(d, x);
      }
    }
  }

  /** A dword of memory. */
  method Load32(mem: array<byte>, at: nat) returns (w: int)
    requires at + 4 <= mem.Length
    ensures w == U32(mem[..], at)
  {
    w := mem[at] as int + 0x100 * (mem[at + 1] as int)
         + 0x1_0000 * (mem[at + 2] as int + 0x100 * (mem[at + 3] as int));
  }

  method Load16(mem: array<byte>, at: nat) returns (w: int)
    requires at + 2 <= mem.Length
    ensures w == U16(mem[..], at)
  {
    w := mem[at] as int + 0x100 * (mem[at + 1] as int);
  }

  /** The file is still in memory at `base`. */
  ghost predicate FileAt(file: seq<byte>, mem: seq<byte>, base: nat) {
    base + |file| <= |mem| && mem[base..base + |file|] == file
  }

  lemma FieldAt(file: seq<byte>, mem: seq<byte>, base: nat, at: nat)
    requires FileAt(file, mem, base) && at + 4 <= |file|
    ensures U32(mem, base + at) == U32(file, at) && U16(mem, base + at) == U16(file, at)
  {
    assert file[at] == mem[base..base + |file|][at] && file[at + 1] == mem[base..base + |file|][at + 1];
    assert file[at + 2] == mem[base..base + |file|][at + 2] && file[at + 3] == mem[base..base + |file|][at + 3];
  }

  /** Memory after copying segment `s` from the file at `base`. */
  ghost predicate Copied(s: Segment, base: int, mid: seq<byte>, now: seq<byte>)
    requires s.Null() || (0 <= s.vaddr && s.vaddr + s.size <= |mid| && 0 <= base + s.offset
             && base + s.offset + s.size <= |mid|)
  {
    && |now| == |mid|
    && (forall a {:trigger now[a]} | 0 <= a < |now| ::
          now[a] == if s.Covers(a) then mid[base + s.offset + (a - s.vaddr)] else mid[a])
  }

  /** Copying one more segment. */
  lemma PlaceOne(ss: seq<Segment>, file: seq<byte>, base: nat, was: seq<byte>, mid: seq<byte>, now: seq<byte>, n: nat)
    requires n < |ss| && Loadable(ss, file, base, |was|)
    requires Placed(ss, file, base, was, mid, n) && FileAt(file, mid, base)
    requires Copied(ss[n], base, mid, now)
    ensures Placed(ss, file, base, was, now, n + 1) && FileAt(file, now, base)
  {
    var s := ss[n];
    forall i | 0 <= i < n + 1 ensures Holds(now, ss[i], file) {
      if i == n {
        forall a | s.Covers(a) ensures now[a] == file[s.offset + (a - s.vaddr)] {
          assert mid[base..base + |file|][s.offset + (a - s.vaddr)] == file[s.offset + (a - s.vaddr)];
        }
      } else {
        assert Holds(mid, ss[i], file);
        assert ss[i].Null() || s.Null() || Apart(ss[i], s);
      }
    }
    forall a | 0 <= a < |now| && (forall i | 0 <= i < n + 1 :: !ss[i].Covers(a)) ensures now[a] == was[a] {
      assert !s.Covers(a);
    }
    assert s.Null() || Fits(s, file, base, |was|);
    assert now[base..base + |file|] == mid[base..base + |file|];
  }

  /** One turn of the loop of InitKernel, for the header at `esi`. */
  method PlaceSegment(mem: array<byte>, esi: nat, base: nat, ghost s: Segment)
    requires esi + 32 <= mem.Length
    requires s == Segment(U32(mem[..], esi), U32(mem[..], esi + 4), U32(mem[..], esi + 8), U32(mem[..], esi + 0x10))
    requires s.Null() || (0 <= s.vaddr && s.vaddr + s.size <= mem.Length && base + s.offset + s.size <= mem.Length
                          && (s.vaddr + s.size <= base + s.offset || base + s.offset + s.size <= s.vaddr))
    modifies mem
    ensures Copied(s, base, old(mem[..]), mem[..])
  {
    hide U32, Origin;
    var eax := Load32(mem, esi);
    if eax != 0 {
      var size := Load32(mem, esi + 0x10);
      var from := Load32(mem, esi + 4);
      var to := Load32(mem, esi + 8);
      from := from + base;
      MemCpy(mem, to, from, size);
      forall a | to <= a < to + size ensures Origin(to, from, a) == from + (a - to) {
        PlainCopy(to, from, size, a);
      }
    }
  }

  /** InitKernel.  Every segment's destination ends up with its bytes of the file and
      all other memory, the file included, is as before. */
  method InitKernel(mem: array<byte>, ghost file: seq<byte>)
    requires HeadersInside(file) && Count(file) > 0
    requires Loadable(Segments(file), file, 0x7_0000, mem.Length) && FileAt(file, mem[..], 0x7_0000)
    modifies mem
    ensures Placed(Segments(file), file, 0x7_0000, old(mem[..]), mem[..], Count(file))
    ensures FileAt(file, mem[..], 0x7_0000)
  {
    hide U32, U16, Placed;
    var base := 0x7_0000;
    FieldAt(file, mem[..], base, 0x2C);
    FieldAt(file, mem[..], base, 0x1C);
    var ecx := Load16(mem, base + 0x2C);
    var esi := Load32(mem, base + 0x1C);
    esi := esi + base;
    ghost var ss := Segments(file);
    ghost var n: nat := 0;
    ghost var was := mem[..];
    PlacedNone(ss, file, base, was);
    while ecx != 0
      invariant n <= |ss| && ecx == |ss| - n && esi == base + Table(file) + 32 * n
      invariant Placed(ss, file, base, was, mem[..], n) && FileAt(file, mem[..], base)
    {
      ghost var mid := mem[..];
      HeaderInMemory(file, mid, base, n);
      assert ss[n].Null() || Fits(ss[n], file, base, mem.Length);
      PlaceSegment(mem, esi, base, ss[n]);
      PlaceOne(ss, file, base, was, mid, mem[..], n);
      esi := esi + 0x20;
      ecx := ecx - 1;
      n := n + 1;
    }
  }

  lemma PlacedNone(ss: seq<Segment>, file: seq<byte>, base: int, was: seq<byte>)
    requires Loadable(ss, file, base, |was|)
    ensures Placed(ss, file, base, was, was, 0)
  {
  }

  lemma HeaderInMemory(file: seq<byte>, mem: seq<byte>, base: nat, n: nat)
    requires HeadersInside(file) && n < Count(file) && FileAt(file, mem, base)
    ensures var at := base + Table(file) + 32 * n;
            at + 32 <= base + |file| &&
            Header(file, n) == Segment(U32(mem, at), U32(mem, at + 4), U32(mem, at + 8), U32(mem, at + 0x10))
  {
    hide U32, U16;
    var at := Table(file) + 32 * n;
    FieldAt(file, mem, base, at);
    FieldAt(file, mem, base, at + 4);
    FieldAt(file, mem, base, at + 8);
    FieldAt(file, mem, base, at + 0x10);
  }
}
