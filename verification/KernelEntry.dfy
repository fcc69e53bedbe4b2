/** The entry and exit code of kernel.asm, instruction by instruction, and the proof
    that it performs the steps of `KernelRuns`.

    Every instruction that uses the stack demands that interrupts be disabled while
    the stack pointer lies inside a saved process frame; verifying the code below
    shows that this holds at each of them. */
module KernelEntry {
  import opened Options
  import opened Pic
  import opened Machine
  import opened KernelRuns
  import opened KernelTheorems

  class Processor {
    const L: Layout
    var r: Regs
    var mem: Mem
    var reenter: int
    var ready: int
    var sp0: int
    var masks: Masks

    constructor (L: Layout, c: Cpu)
      ensures this.L == L && State() == c
    {
      this.L := L;
      r, mem, reenter, ready, sp0, masks := c.r, c.mem, c.reenter, c.ready, c.sp0, c.masks;
    }

    function State(): Cpu
      reads this
    {
      Cpu(r, mem, reenter, ready, sp0, masks)
    }

    /** No interrupt can be taken on a stack that is a saved frame. */
    ghost predicate Safe()
      reads this
    {
      L.InFrame(r.esp) ==> !r.eflags.intr
    }

    method Push(w: Word)
      requires Safe()
      modifies this`r, this`mem
      ensures r == old(r).(esp := old(r.esp) - 4)
      ensures forall a {:trigger Read(mem, a)} :: Read(mem, a) == if a == old(r.esp) - 4 then w else old(Read(mem, a))
    {
      r := r.(esp := r.esp - 4);
      mem := mem[r.esp := w];
    }

    method Pop() returns (w: Word)
      requires Safe()
      modifies this`r
      ensures r == old(r).(esp := old(r.esp) + 4)
      ensures w == Read(mem, old(r.esp))
    {
      w := Read(mem, r.esp);
      r := r.(esp := r.esp + 4);
    }

    /** The processor's part of an interrupt or of `int 0x90`: switch to the stack in
        the TSS when coming from an outer ring, push the return information and
        disable interrupts. */
    method Gate()
      requires UserMode(r) || Safe()
      modifies this`r, this`mem
      ensures !r.eflags.intr && r.cs == KERNEL_CS
      ensures r == old(r).(esp := r.esp, eflags := r.eflags, cs := r.cs, ss := r.ss)
      ensures r.ss == if UserMode(old(r)) then L.kernelSs else old(r.ss)
      ensures r.esp == if UserMode(old(r)) then sp0 - 20 else old(r.esp) - 12
      ensures Read(mem, r.esp) == old(r.eip) && Read(mem, r.esp + 4) == Num(old(r.cs))
              && Read(mem, r.esp + 8) == Image(old(r.eflags))
      ensures UserMode(old(r)) ==> Read(mem, r.esp + 12) == Num(old(r.esp)) && Read(mem, r.esp + 16) == old(r.ss)
      ensures forall a {:trigger Read(mem, a)}
                | !(r.esp <= a < if UserMode(old(r)) then sp0 else old(r.esp)) :: Read(mem, a) == old(Read(mem, a))
    {
      var from := r;
      r := r.(eflags := r.eflags.(intr := false), cs := KERNEL_CS);
      if UserMode(from) {
        r := r.(esp := sp0, ss := L.kernelSs);
        Push(from.ss);
        Push(Num(from.esp));
      }
      Push(Image(from.eflags));
      Push(Num(from.cs));
      Push(from.eip);
    }

    method Pushad()
      requires !r.eflags.intr
      modifies this`r, this`mem
      ensures r == old(r).(esp := old(r.esp) - 32)
      ensures var b := r.esp - EDIREG;
              && Read(mem, b + EDIREG) == r.edi && Read(mem, b + ESIREG) == r.esi
              && Read(mem, b + EBPREG) == r.ebp && Read(mem, b + EBXREG) == r.ebx
              && Read(mem, b + EDXREG) == r.edx && Read(mem, b + ECXREG) == r.ecx
              && Read(mem, b + EAXREG) == r.eax
      ensures forall a {:trigger Read(mem, a)} | !(r.esp <= a < old(r.esp)) :: Read(mem, a) == old(Read(mem, a))
    {
      var before := Num(r.esp);
      Push(r.eax);
      Push(r.ecx);
      Push(r.edx);
      Push(r.ebx);
      Push(before);
      Push(r.ebp);
      Push(r.esi);
      Push(r.edi);
    }

    method PushSegments()
      requires !r.eflags.intr
      modifies this`r, this`mem
      ensures r == old(r).(esp := old(r.esp) - 16)
      ensures Read(mem, r.esp + GSREG) == r.gs && Read(mem, r.esp + FSREG) == r.fs
              && Read(mem, r.esp + ESREG) == r.es && Read(mem, r.esp + DSREG) == r.ds
      ensures forall a {:trigger Read(mem, a)} | !(r.esp <= a < old(r.esp)) :: Read(mem, a) == old(Read(mem, a))
    {
      Push(r.ds);
      Push(r.es);
      Push(r.fs);
      Push(r.gs);
    }

    /** `call save` and the pushes of `save`: the part of the frame below the return
        information that the gate pushed. */
    method PushFrame(back: Label)
      requires !r.eflags.intr
      modifies this`r, this`mem
      ensures r == old(r).(esp := old(r.esp) - EIPREG)
      ensures LowFrame(r.esp, r, back)
      ensures forall a {:trigger Read(mem, a)} | !(r.esp <= a < old(r.esp)) :: Read(mem, a) == old(Read(mem, a))
    {
      Push(Code(back));
      Pushad();
      PushSegments();
    }

    /** The cells from gs to retaddr picture `s` and the return point. */
    ghost predicate LowFrame(b: int, s: Regs, back: Label)
      reads this
    {
      && Read(mem, b + GSREG) == s.gs && Read(mem, b + FSREG) == s.fs
      && Read(mem, b + ESREG) == s.es && Read(mem, b + DSREG) == s.ds
      && Read(mem, b + EDIREG) == s.edi && Read(mem, b + ESIREG) == s.esi
      && Read(mem, b + EBPREG) == s.ebp && Read(mem, b + EBXREG) == s.ebx
      && Read(mem, b + EDXREG) == s.edx && Read(mem, b + ECXREG) == s.ecx
      && Read(mem, b + EAXREG) == s.eax && Read(mem, b + RETADR) == Code(back)
    }

    /** ds, es and fs become ss; edx is borrowed for the copy. */
    method LoadSegments()
      modifies this`r
      ensures r == old(r).(ds := old(r.ss), es := old(r.ss), fs := old(r.ss), esi := Num(old(r.esp)))
    {
      r := r.(esi := r.edx);
      r := r.(edx := r.ss);
      r := r.(ds := r.edx);
      r := r.(es := r.edx);
      r := r.(fs := r.edx);
      r := r.(edx := r.esi);
      r := r.(esi := Num(r.esp));
    }

    /** `call save` and `save`. */
    method Save(back: Label)
      requires !r.eflags.intr
      requires reenter == -1 ==> !(r.esp - EIPREG <= L.stackTop - 4 < r.esp)
      modifies this`r, this`mem, this`reenter
      ensures reenter == old(reenter) + 1
      ensures var base := old(r.esp) - EIPREG;
              && r == old(r).(ds := r.ss, es := r.ss, fs := r.ss, esi := Num(base), esp := r.esp, eip := Code(back))
              && r.esp == (if old(reenter) == -1 then L.stackTop - 4 else base - 4)
              && Read(mem, r.esp) == Code(if old(reenter) == -1 then Restart else RestartReenter)
              && LowFrame(base, old(r), back)
              && forall a {:trigger Read(mem, a)} | !(base <= a < base + EIPREG) && a != r.esp ::
                   Read(mem, a) == old(Read(mem, a))
    {
      PushFrame(back);
      LoadSegments();
      reenter := reenter + 1;
      if reenter == 0 {
        r := r.(esp := L.stackTop);
        Push(Code(Restart));
      } else {
        Push(Code(RestartReenter));
      }
      r := r.(eip := Read(mem, Val(r.esi) + RETADR));
    }

    /** What the kernel's invariant gives to an entry: k_reenter is -1 exactly for
        processes, whose ring-0 stack is their own frame. */
    ghost predicate Ready()
      reads this
    {
      && L.Valid()
      && (reenter == -1 <==> UserMode(r))
      && (UserMode(r) ==> sp0 - P_STACKTOP in L.procs)
      && (!UserMode(r) ==> !L.InFrame(r.esp))
    }

    method EnterVia(back: Label)
      requires Ready()
      modifies this`r, this`mem, this`reenter
      ensures r.eip == Code(back) && !r.eflags.intr && r.eax == old(r.eax)
      ensures Entered(L, old(State()), State())
    {
      Gate();
      Save(back);
    }

    /** A hardware interrupt on line `n`: the gate and the stub up to its sti.  The
        end-of-interrupt commands do not change the mask registers. */
    method Hwint(n: Line)
      requires Ready() && r.eflags.intr && !Masked(masks, n)
      modifies this
      ensures DeliverStep(L, old(State()), n, State())
    {
      EnterVia(IrqMask(n));
      if n < 8 {
        var al := masks.master;
        al := al | BitOf(n);
        masks := masks.(master := al);
      } else {
        var al := masks.slave;
        al := al | BitOf(n - 8);
        masks := masks.(slave := al);
      }
      r := r.(eax := Num(0x20));                          // al now holds EOI
      r := r.(eflags := r.eflags.(intr := true), eip := Code(IrqPush(n)));
    }

    /** `int 0x90` and sys_call up to its sti. */
    method SysCallEntry()
      requires Ready()
      modifies this
      ensures CallStep(L, old(State()), State())
    {
      EnterVia(SysSti);
      r := r.(eflags := r.eflags.(intr := true), eip := Code(SysPushEsi));
    }

    /** restart_reenter up to and including iretd. */
    method RestartReenterCode()
      requires !r.eflags.intr && r.cs == KERNEL_CS
      modifies this`r, this`reenter
      ensures reenter == old(reenter) - 1
      ensures r == LoadFrame(mem, old(r.esp), old(r.ss))
    {
      reenter := reenter - 1;
      PopSegments();
      Popad();
      r := r.(esp := r.esp + 4);                          // skip retaddr
      Iretd();
    }

    method PopSegments()
      requires !r.eflags.intr
      modifies this`r
      ensures var b := old(r.esp);
              r == old(r).(gs := Read(mem, b + GSREG), fs := Read(mem, b + FSREG), es := Read(mem, b + ESREG),
                           ds := Read(mem, b + DSREG), esp := b + EDIREG)
    {
      var w := Pop();
      r := r.(gs := w);
      w := Pop();
      r := r.(fs := w);
      w := Pop();
      r := r.(es := w);
      w := Pop();
      r := r.(ds := w);
    }

    /** popad drops the stack pointer that pushad saved. */
    method Popad()
      requires !r.eflags.intr
      modifies this`r
      ensures var b := old(r.esp) - EDIREG;
              r == old(r).(edi := Read(mem, b + EDIREG), esi := Read(mem, b + ESIREG), ebp := Read(mem, b + EBPREG),
                           ebx := Read(mem, b + EBXREG), edx := Read(mem, b + EDXREG), ecx := Read(mem, b + ECXREG),
                           eax := Read(mem, b + EAXREG), esp := old(r.esp) + 32)
    {
      var w := Pop();
      r := r.(edi := w);
      w := Pop();
      r := r.(esi := w);
      w := Pop();
      r := r.(ebp := w);
      w := Pop();
      w := Pop();
      r := r.(ebx := w);
      w := Pop();
      r := r.(edx := w);
      w := Pop();
      r := r.(ecx := w);
      w := Pop();
      r := r.(eax := w);
    }

    /** A return to an outer ring pops the stack pointer and segment too. */
    method Iretd()
      requires !r.eflags.intr && r.cs == KERNEL_CS
      modifies this`r
      ensures var cs := Val(Read(mem, old(r.esp) + 4));
              r == old(r).(eip := Read(mem, old(r.esp)), cs := cs, eflags := FlagsIn(Read(mem, old(r.esp) + 8)),
                           esp := if cs % 4 != 0 then Val(Read(mem, old(r.esp) + 12)) else old(r.esp) + 12,
                           ss := if cs % 4 != 0 then Read(mem, old(r.esp) + 16) else old(r.ss))
    {
      var eip := Pop();
      var cs := Pop();
      var eflags := Pop();
      r := r.(eip := eip, cs := Val(cs));
      if r.cs % 4 != 0 {
        var esp := Pop();
        var ss := Pop();
        r := r.(esp := Val(esp), ss := ss);
      }
      r := r.(eflags := FlagsIn(eflags));
    }

    /** Clear the line's bit in the mask register of its controller. */
    method Unmask(n: Line)
      modifies this`masks
      ensures masks == UnmaskLine(old(masks), n)
    {
      if n < 8 {
        var al := masks.master;
        al := al & !BitOf(n);
        masks := masks.(master := al);
      } else {
        var al := masks.slave;
        al := al & !BitOf(n - 8);
        masks := masks.(slave := al);
      }
    }

    /** The end of a stub: cli, for a hardware interrupt the unmasking of its line,
        and `ret` to whatever the stack says. */
    method LeaveStub()
      requires LeaveStep(State()).Some? && r.cs == KERNEL_CS && Safe()
      modifies this
      ensures Some(State()) == LeaveStep(old(State()))
    {
      hide LoadFrame;
      var at := r.eip.at;
      r := r.(eflags := r.eflags.(intr := false));
      if at.IrqCli? {
        Unmask(at.line);
      }
      var target := Pop();
      if target == Code(Restart) {
        r := r.(esp := ready);
        sp0 := r.esp + P_STACKTOP;
        r := r.(eax := Num(sp0));
      }
      RestartReenterCode();
    }
  }

  /** In every configuration that satisfies the kernel's invariant the entry code can
      be entered: a processor in that state is Ready. */
  lemma InvReady(L: Layout, c: Config)
    requires Inv(L, c)
    ensures c.cpu.reenter == -1 <==> UserMode(c.cpu.r)
    ensures UserMode(c.cpu.r) ==> c.cpu.sp0 - P_STACKTOP in L.procs
    ensures !UserMode(c.cpu.r) ==> !L.InFrame(c.cpu.r.esp)
  {
    InsideKernel(L, c);
    if c.acts != [] {
      OutsideFrames(L, c);
    }
  }
}
