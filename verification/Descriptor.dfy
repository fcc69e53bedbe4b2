/** Segment descriptors: the C routine that fills them, the assembler macro that lays
    them out, what the processor reads from them, and the LDT descriptors of all
    processes. */
module Descriptor {

  // Numbers are unsigned.  Shifts are multiplications and divisions, and masks of bits
  // in a row are remainders and quotients.

  /** struct descriptor, in memory order. */
  datatype Desc = Desc(limitLow: nat, baseLow: nat, baseMid: nat, attr1: nat, limitHighAttr2: nat, baseHigh: nat)

  predicate U32(x: int) { 0 <= x < 0x1_0000_0000 }
  predicate U16(x: int) { 0 <= x < 0x1_0000 }

  /** The operator `|`, bit by bit. */
  function Or(x: nat, y: nat): nat {
    if x == 0 && y == 0 then 0
    else 2 * Or(x / 2, y / 2) + if x % 2 == 1 || y % 2 == 1 then 1 else 0
  }

  function Pow2(k: nat): nat { if k == 0 then 1 else 2 * Pow2(k - 1) }

  lemma {:induction false} OrZero(x: nat)
    ensures Or(0, x) == x && Or(x, 0) == x
  {
    if x > 0 {
      OrZero(x / 2);
    }
  }

  /** The lowest bit of `|`, for numbers given as halves and remainders. */
  lemma OrUnfold(c: nat, a: nat, d: nat, b: nat)
    ensures Or(2 * c + a, 2 * d + b) == 2 * Or(c + a / 2, d + b / 2) + if a % 2 == 1 || b % 2 == 1 then 1 else 0
  {
    assert (2 * c + a) / 2 == c + a / 2 && (2 * c + a) % 2 == a % 2;
    assert (2 * d + b) / 2 == d + b / 2 && (2 * d + b) % 2 == b % 2;
  }

  lemma Twice(p: nat, u: nat)
    ensures 2 * p * u == 2 * (p * u)
  {
  }

  /** `|` works on the low `k` bits and on the rest separately. */
  lemma {:induction false} OrSplit(u: nat, a: nat, v: nat, b: nat, k: nat)
    requires a < Pow2(k) && b < Pow2(k)
    ensures Or(Pow2(k) * u + a, Pow2(k) * v + b) == Pow2(k) * Or(u, v) + Or(a, b)
  {
    hide Or;
    if k == 0 {
      OrZero(0);
    } else {
      var p := Pow2(k - 1);
      Twice(p, u);
      Twice(p, v);
      Twice(p, Or(u, v));
      OrUnfold(p * u, a, p * v, b);
      OrUnfold(0, a, 0, b);
      OrSplit(u, a / 2, v, b / 2, k - 1);
    }
  }

  /** Joining a number with one whose bits are all higher is adding them. */
  lemma OrAdds(a: nat, v: nat, k: nat)
    requires a < Pow2(k)
    ensures Or(a, Pow2(k) * v) == Or(Pow2(k) * v, a) == a + Pow2(k) * v
  {
    hide Or;
    OrSplit(0, a, v, 0, k);
    OrSplit(v, 0, 0, a, k);
    OrZero(a);
    OrZero(v);
  }

  lemma Powers()
    ensures Pow2(4) == 0x10 && Pow2(8) == 0x100 && Pow2(16) == 0x1_0000 && Pow2(24) == 0x100_0000
  {
    assert Pow2(4) == 0x10;
    assert Pow2(8) == 0x100;
    assert Pow2(12) == 0x1000;
    assert Pow2(16) == 0x1_0000;
    assert Pow2(20) == 0x10_0000;
  }

  /** init_descriptor. */
  function InitDescriptor(base: nat, limit: nat, attribute: nat): Desc {
    Desc(limit % 0x1_0000,
         base % 0x1_0000,
         base / 0x1_0000 % 0x100,
         attribute % 0x100,
         Or(limit / 0x1_0000 % 0x10, attribute / 0x1000 % 0x10 * 0x10),
         base / 0x100_0000 % 0x100)
  }

  /** The byte that holds limit bits 19-16 and attribute bits 15-12. */
  lemma SharedByte(base: nat, limit: nat, attribute: nat)
    ensures InitDescriptor(base, limit, attribute).limitHighAttr2
            == limit / 0x1_0000 % 0x10 + attribute / 0x1000 % 0x10 * 0x10
  {
    hide Or, Pow2;
    Powers();
    OrAdds(limit / 0x1_0000 % 0x10, attribute / 0x1000 % 0x10, 4);
  }

  function Lo(w: int): int { w % 0x100 }
  function Hi(w: int): int { w / 0x100 % 0x100 }

  /** The eight bytes of a descriptor in memory. */
  function Layout(d: Desc): seq<int> {
    [Lo(d.limitLow), Hi(d.limitLow), Lo(d.baseLow), Hi(d.baseLow), d.baseMid, d.attr1, d.limitHighAttr2, d.baseHigh]
  }

  /** The third word of the Descriptor macro: ((limit >> 8) & 0F00h) | (attr & 0F0FFh). */
  function MacroWord(limit: nat, attr: nat): nat {
    Or(limit / 0x1_0000 % 0x10 * 0x100, attr % 0x100 + attr / 0x1000 % 0x10 * 0x1000)
  }

  /** The Descriptor macro of pm.inc: dw, dw, db, dw, db. */
  function MacroLayout(base: nat, limit: nat, attr: nat): seq<int> {
    var w0, w1, w2 := limit % 0x1_0000, base % 0x1_0000, MacroWord(limit, attr);
    [Lo(w0), Hi(w0), Lo(w1), Hi(w1), base / 0x1_0000 % 0x100, Lo(w2), Hi(w2), base / 0x100_0000 % 0x100]
  }

  lemma MacroWordSum(l: nat, a: nat, h: nat)
    requires l < 0x10 && a < 0x100
    ensures Or(l * 0x100, a + h * 0x1000) == 0x100 * (l + h * 0x10) + a
  {
    hide Or, Pow2;
    Powers();
    OrSplit(l, 0, h * 0x10, a, 8);
    OrZero(a);
    OrAdds(l, h, 4);
  }

  lemma MacroWordBytes(limit: nat, attr: nat)
    requires U32(limit) && U16(attr)
    ensures Lo(MacroWord(limit, attr)) == attr % 0x100
    ensures Hi(MacroWord(limit, attr)) == limit / 0x1_0000 % 0x10 + attr / 0x1000 % 0x10 * 0x10
  {
    hide Or;
    var l, a, h := limit / 0x1_0000 % 0x10, attr % 0x100, attr / 0x1000 % 0x10;
    MacroWordSum(l, a, h);
  }

  /** The C routine and the assembler macro agree on every byte. */
  lemma SameLayout(base: nat, limit: nat, attr: nat)
    requires U32(base) && U32(limit) && U16(attr)
    ensures Layout(InitDescriptor(base, limit, attr)) == MacroLayout(base, limit, attr)
  {
    hide MacroWord, Lo, Hi, Or;
    SharedByte(base, limit, attr);
    MacroWordBytes(limit, attr);
  }

  /** The base address in a descriptor, as seg2linear and the processor read it. */
  function BaseOf(d: Desc): nat {
    Or(Or(d.baseHigh * 0x100_0000, d.baseMid * 0x1_0000), d.baseLow)
  }

  lemma BaseSum(h: nat, m: nat, l: nat)
    requires m < 0x100 && l < 0x1_0000
    ensures Or(Or(h * 0x100_0000, m * 0x1_0000), l) == h * 0x100_0000 + m * 0x1_0000 + l
  {
    hide Or, Pow2;
    Powers();
    OrAdds(m * 0x1_0000, h, 24);
    OrAdds(l, h * 0x100 + m, 16);
  }

  /** The 20-bit limit field. */
  function LimitField(d: Desc): int {
    d.limitHighAttr2 % 0x10 * 0x1_0000 + d.limitLow
  }

  /** The granularity bit. */
  predicate Granular(d: Desc) { d.limitHighAttr2 / 0x80 % 2 == 1 }

  /** The last offset inside the segment: with the granularity bit set, the limit
      counts 4 KB units. */
  function LastOffset(d: Desc): int {
    if Granular(d) then LimitField(d) * 0x1000 + 0xFFF else LimitField(d)
  }

  /** Reading back what was written gives the whole base. */
  lemma BaseRoundTrip(base: nat, limit: nat, attr: nat)
    requires U32(base)
    ensures BaseOf(InitDescriptor(base, limit, attr)) == base
  {
    hide Or;
    var h := base / 0x1_0000;
    BaseSum(base / 0x100_0000 % 0x100, h % 0x100, base % 0x1_0000);
    assert base == h * 0x1_0000 + base % 0x1_0000;
    assert base / 0x100_0000 == h / 0x100;
    assert h == h / 0x100 * 0x100 + h % 0x100;
  }

  lemma TwentyBits(limit: int)
    requires U32(limit)
    ensures limit % 0x10_0000 == limit / 0x1_0000 % 0x10 * 0x1_0000 + limit % 0x1_0000
  {
    var q := limit / 0x1_0000;
    assert limit == q * 0x1_0000 + limit % 0x1_0000;
    assert q == q / 0x10 * 0x10 + q % 0x10;
  }

  lemma TopBit(attr: int)
    requires U16(attr)
    ensures attr / 0x1000 % 0x10 / 8 == attr / 0x8000
  {
  }

  /** Of the limit 20 bits are kept, and bit 15 of the attribute is granularity. */
  lemma LimitRoundTrip(base: nat, limit: nat, attr: nat)
    requires U32(limit) && U16(attr)
    ensures LimitField(InitDescriptor(base, limit, attr)) == limit % 0x10_0000
    ensures Granular(InitDescriptor(base, limit, attr)) <==> attr / 0x8000 == 1
  {
    hide Or;
    SharedByte(base, limit, attr);
    NibbleSplit(limit / 0x1_0000 % 0x10, attr / 0x1000 % 0x10);
    TwentyBits(limit);
    TopBit(attr);
  }

  // What the processor reads from the eight bytes: Intel SDM volume 3A, section 3.4.5.

  function SdmBase(b: seq<int>): int
    requires |b| == 8
  {
    b[2] + 0x100 * b[3] + 0x1_0000 * b[4] + 0x100_0000 * b[7]
  }

  function SdmLimit(b: seq<int>): int
    requires |b| == 8
  {
    b[0] + 0x100 * b[1] + 0x1_0000 * (b[6] % 0x10)
  }

  /** Type, S, DPL and P. */
  function SdmAccess(b: seq<int>): int
    requires |b| == 8
  {
    b[5]
  }

  /** AVL, L, D/B and G. */
  function SdmFlags(b: seq<int>): int
    requires |b| == 8
  {
    b[6] / 0x10
  }

  lemma TwoBytes(w: int)
    requires U16(w)
    ensures Lo(w) + 0x100 * Hi(w) == w
  {
  }

  /** The processor finds in the descriptor the base, the low 20 bits of the limit and the
      twelve attribute bits that were asked for. */
  lemma SdmReads(base: nat, limit: nat, attr: nat)
    requires U32(base) && U32(limit) && U16(attr)
    ensures var b := Layout(InitDescriptor(base, limit, attr));
            && SdmBase(b) == base && SdmLimit(b) == limit % 0x10_0000
            && SdmAccess(b) == attr % 0x100 && SdmFlags(b) == attr / 0x1000
  {
    hide Or, Lo, Hi;
    var d, h := InitDescriptor(base, limit, attr), base / 0x1_0000;
    TwoBytes(d.limitLow);
    TwoBytes(d.baseLow);
    SharedByte(base, limit, attr);
    TwentyBits(limit);
    NibbleSplit(limit / 0x1_0000 % 0x10, attr / 0x1000 % 0x10);
    assert base == h * 0x1_0000 + base % 0x1_0000;
    assert base / 0x100_0000 == h / 0x100;
    assert h == h / 0x100 * 0x100 + h % 0x100;
  }

  lemma NibbleSplit(l: int, h: int)
    requires 0 <= l < 16 && 0 <= h < 16
    ensures (l + h * 0x10) % 0x10 == l && (l + h * 0x10) / 0x10 == h && (l + h * 0x10) / 0x80 % 2 == h / 8
  {
  }

  // ---------------------------------------------------------------------------
  // The LDT descriptors of the process table

  const DA_LDT := 0x82

  /** A present system descriptor of type 2. */
  predicate IsLdt(d: Desc) { d.attr1 / 0x80 % 2 == 1 && d.attr1 / 0x10 % 2 == 0 && d.attr1 % 0x10 == 2 }

  lemma LdtAttributes(base: nat, limit: nat)
    ensures IsLdt(InitDescriptor(base, limit, DA_LDT))
  {
    hide Or;
  }

  /** seg2linear: the base of the descriptor that a selector names. */
  function Seg2Linear(gdt: seq<Desc>, seg: int): nat
    requires 0 <= seg && seg / 8 < |gdt|
  {
    BaseOf(gdt[seg / 8])
  }

  /** The loop of init_prot.  `first` is INDEX_LDT_FIRST, `ldts[i]` the linear address
      of the LDT inside process table entry i, `limit` its size less one.  The loop's
      assertion fails, and it stops, when the GDT is too short. */
  method InitLdts(gdt: array<Desc>, sel: array<int>, first: nat, ldts: seq<nat>, limit: nat) returns (ok: bool)
    requires gdt.Length <= 8192 && sel.Length == |ldts|
    requires forall x <- ldts :: U32(x)
    modifies gdt, sel
    ensures ok <==> first + |ldts| <= gdt.Length || |ldts| == 0
    ensures ok ==> forall i | 0 <= i < |ldts| ::
                     && 0 <= sel[i] < 0x1_0000 && sel[i] / 8 == first + i < gdt.Length
                     && gdt[sel[i] / 8] == InitDescriptor(ldts[i], limit, DA_LDT)
                     && Seg2Linear(gdt[..], sel[i]) == ldts[i] && IsLdt(gdt[sel[i] / 8])
    ensures forall j | 0 <= j < gdt.Length && !(first <= j < first + |ldts|) :: gdt[j] == old(gdt[j])
  {
    hide BaseOf, InitDescriptor;
    var i := 0;
    while i < |ldts|
      invariant 0 <= i <= |ldts| && (i > 0 ==> first + i <= gdt.Length)
      invariant forall k | 0 <= k < i :: sel[k] == 8 * (first + k)
      invariant forall k | first <= k < first + i :: gdt[k] == InitDescriptor(ldts[k - first], limit, DA_LDT)
      invariant forall j | 0 <= j < gdt.Length && !(first <= j < first + i) :: gdt[j] == old(gdt[j])
    {
      sel[i] := (8 * first + 8 * i) % 0x1_0000;
      if !(first + i < gdt.Length) {
        return false;
      }
      gdt[first + i] := InitDescriptor(ldts[i], limit, DA_LDT);
      i := i + 1;
    }
    forall k | 0 <= k < |ldts| ensures Seg2Linear(gdt[..], sel[k]) == ldts[k] && IsLdt(gdt[sel[k] / 8]) {
      assert sel[k] / 8 == first + k;
      BaseRoundTrip(ldts[k], limit, DA_LDT);
      LdtAttributes(ldts[k], limit);
    }
    ok := true;
  }
}
