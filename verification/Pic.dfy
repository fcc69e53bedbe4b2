/** The two 8259 interrupt mask registers and the routines that change them.

    A line that is masked is never delivered.  Lines 0-7 belong to the master
    controller and 8-15 to the slave; bit `n % 8` of the register masks line n.
    The registers are machine bytes here; `MaskedSet` is the set of lines they
    stand for. */
module Pic {

  datatype Masks = Masks(master: bv8, slave: bv8)

  type Line = n: int | 0 <= n < 16

  /** The byte `1 << k`. */
  function BitOf(k: nat): (b: bv8)
    requires k < 8
    ensures b == (1 as bv8) << k
  {
    match k
    case 0 => 0x01
    case 1 => 0x02
    case 2 => 0x04
    case 3 => 0x08
    case 4 => 0x10
    case 5 => 0x20
    case 6 => 0x40
    case 7 => 0x80
  }

  /** Bit `i` of a mask byte. */
  predicate Bit(b: bv8, i: nat)
    requires i < 8
  {
    b & BitOf(i) != 0
  }

  /** The bit of its register that masks a line. */
  function Index(n: Line): nat { if n < 8 then n else n - 8 }

  /** The mask register of a line's controller. */
  function Port(m: Masks, n: Line): bv8 { if n < 8 then m.master else m.slave }

  function SetPort(m: Masks, n: Line, b: bv8): Masks {
    if n < 8 then m.(master := b) else m.(slave := b)
  }

  /** Is line `n` masked? */
  predicate Masked(m: Masks, n: Line) {
    Bit(Port(m, n), Index(n))
  }

  /** With the slave's byte above the master's, line `n` is bit `n` of the 16 bits. */
  lemma LineIsBit(m: Masks, n: Line)
    ensures Masked(m, n) <==> ((m.slave as bv16 << 8) | m.master as bv16) & ((1 as bv16) << n) != 0
  {
    hide Bit;
    if n < 8 {
      LowBit(m.slave, m.master, n);
    } else {
      HighBit(m.slave, m.master, n - 8);
    }
  }

  lemma LowBit(high: bv8, low: bv8, k: nat)
    requires k < 8
    ensures Bit(low, k) <==> ((high as bv16 << 8) | low as bv16) & ((1 as bv16) << k) != 0
  {
  }

  lemma HighBit(high: bv8, low: bv8, k: nat)
    requires k < 8
    ensures Bit(high, k) <==> ((high as bv16 << 8) | low as bv16) & ((1 as bv16) << (k + 8)) != 0
  {
  }

  /** The set of lines the two bytes mask. */
  function MaskedSet(m: Masks): (s: set<Line>)
    ensures forall n: Line :: n in s <==> Masked(m, n)
  {
    set n: Line | 0 <= n < 16 && Masked(m, n)
  }

  /** `or al, (1 << k)` on the byte read from the mask port. */
  function OrBit(b: bv8, k: nat): bv8
    requires k < 8
  {
    b | BitOf(k)
  }

  /** `and al, ~(1 << k)` on the byte read from the mask port. */
  function AndNotBit(b: bv8, k: nat): bv8
    requires k < 8
  {
    b & !BitOf(k)
  }

  /** The entry half of a hardware interrupt stub: mask the line being serviced. */
  function MaskLine(m: Masks, n: Line): Masks {
    SetPort(m, n, OrBit(Port(m, n), Index(n)))
  }

  /** The exit half of a hardware interrupt stub: unmask the line just serviced. */
  function UnmaskLine(m: Masks, n: Line): Masks {
    SetPort(m, n, AndNotBit(Port(m, n), Index(n)))
  }

  lemma OrBitBits(b: bv8, k: nat, i: nat)
    requires k < 8 && i < 8
    ensures Bit(OrBit(b, k), i) <==> i == k || Bit(b, i)
  {
  }

  lemma AndNotBitBits(b: bv8, k: nat, i: nat)
    requires k < 8 && i < 8
    ensures Bit(AndNotBit(b, k), i) <==> i != k && Bit(b, i)
  {
  }

  /** Masking a line adds exactly that line to the set. */
  lemma MaskLineSet(m: Masks, n: Line)
    ensures MaskedSet(MaskLine(m, n)) == MaskedSet(m) + {n}
  {
    hide Bit, OrBit;
    forall i: Line ensures Masked(MaskLine(m, n), i) <==> i == n || Masked(m, i) {
      OrBitBits(Port(m, n), Index(n), Index(i));
    }
  }

  /** Unmasking a line removes exactly that line from the set. */
  lemma UnmaskLineSet(m: Masks, n: Line)
    ensures MaskedSet(UnmaskLine(m, n)) == MaskedSet(m) - {n}
  {
    hide Bit, AndNotBit;
    forall i: Line ensures Masked(UnmaskLine(m, n), i) <==> i != n && Masked(m, i) {
      AndNotBitBits(Port(m, n), Index(n), Index(i));
    }
  }

  /** `mov ah, 1` and `rol ah, cl`: for lines 8-15 the rotation comes round to the
      same bit of the slave's register. */
  function RolledBit(n: Line): bv8 {
    (1 as bv8).RotateLeft(n % 8)
  }

  /** `mov ah, ~1` and `rol ah, cl`. */
  function RolledMask(n: Line): bv8 {
    (!(1 as bv8)).RotateLeft(n % 8)
  }

  lemma Rolled(n: Line)
    ensures RolledBit(n) == BitOf(Index(n))
    ensures RolledMask(n) == !BitOf(Index(n))
  {
    assert n % 8 == Index(n);
  }

  /** disable_irq on the byte it reads: nothing to write when the bit is set. */
  lemma DisableByte(m: Masks, n: Line)
    ensures Port(m, n) & RolledBit(n) != 0 <==> Masked(m, n)
    ensures SetPort(m, n, Port(m, n) | RolledBit(n)) == MaskLine(m, n)
    ensures Masked(m, n) ==> MaskedSet(m) + {n} == MaskedSet(m)
  {
    hide BitOf, RolledBit;
    Rolled(n);
  }

  lemma EnableByte(m: Masks, n: Line)
    ensures SetPort(m, n, Port(m, n) & RolledMask(n)) == UnmaskLine(m, n)
  {
    hide BitOf, RolledMask;
    Rolled(n);
  }

  /** The mask registers together with the interrupt flag, as the routines of
      lib/kliba.asm see them. */
  class Controller {
    var masks: Masks
    var intr: bool

    /** init_8259A leaves every line masked. */
    constructor ()
      ensures forall n: Line :: n in Lines()
    {
      masks, intr := Masks(0xFF, 0xFF), false;
      new;
      forall n: Line ensures n in Lines() {
        AllSet(Index(n));
      }
    }

    function Lines(): set<Line>
      reads this
    {
      MaskedSet(masks)
    }

    /** disable_0 and disable_8: read the port, test the bit, write it back. */
    method SetBit(irq: Line) returns (eax: int)
      modifies this`masks
      ensures masks == if Masked(old(masks), irq) then old(masks) else MaskLine(old(masks), irq)
      ensures eax == if Masked(old(masks), irq) then 0 else 1
    {
      hide Bit, OrBit, RolledBit, Masked, MaskedSet;
      DisableByte(masks, irq);
      var ah := RolledBit(irq);
      if irq < 8 {
        var al := masks.master;
        if al & ah != 0 {
          return 0;
        }
        masks := masks.(master := al | ah);
      } else {
        var al := masks.slave;
        if al & ah != 0 {
          return 0;
        }
        masks := masks.(slave := al | ah);
      }
      return 1;
    }

    /** enable_0 and enable_8. */
    method ClearBit(irq: Line)
      modifies this`masks
      ensures masks == UnmaskLine(old(masks), irq)
    {
      hide Bit, AndNotBit, RolledMask, Masked, MaskedSet;
      EnableByte(masks, irq);
      var ah := RolledMask(irq);
      if irq < 8 {
        masks := masks.(master := masks.master & ah);
      } else {
        masks := masks.(slave := masks.slave & ah);
      }
    }

    /** Adds the line to the set and restores the interrupt flag; returns 1 exactly
        when the set changed. */
    method DisableIrq(irq: Line) returns (eax: int)
      modifies this
      ensures Lines() == old(Lines()) + {irq}
      ensures eax == if irq in old(Lines()) then 0 else 1
      ensures intr == old(intr)
    {
      MaskLineSet(masks, irq);
      var flags := intr;
      intr := false;
      eax := SetBit(irq);
      intr := flags;
    }

    /** Removes the line from the set and restores the interrupt flag. */
    method EnableIrq(irq: Line)
      modifies this
      ensures Lines() == old(Lines()) - {irq}
      ensures intr == old(intr)
    {
      UnmaskLineSet(masks, irq);
      var flags := intr;
      intr := false;
      ClearBit(irq);
      intr := flags;
    }
  }

  lemma AllSet(k: nat)
    requires k < 8
    ensures Bit(0xFF, k)
  {
  }

  /** A line that a handler disables while line `n` is in service is still disabled
      after the stub of `n` ends, unless it is `n` itself, which the stub enables. */
  lemma StubUndoesOwnDisable(m: Masks, n: Line, k: Line)
    ensures var inside := MaskLine(MaskLine(m, n), k);
            Masked(inside, k) && (Masked(UnmaskLine(inside, n), k) <==> k != n)
  {
    var inside := MaskLine(MaskLine(m, n), k);
    MaskLineSet(MaskLine(m, n), k);
    UnmaskLineSet(inside, n);
    assert k in MaskedSet(inside);
    assert k in MaskedSet(UnmaskLine(inside, n)) <==> k != n;
  }
}
