/** What runs do to the interrupt masks: a line is masked while it is serviced, and can
    come again afterwards. */
module KernelMasks {
  import opened Pic
  import opened Options
  import opened Machine
  import opened KernelRuns
  import opened KernelTheorems
  import opened KernelDepth
  import opened KernelWitness

  /** A delivered line was not masked, is masked from then on, and no other line is
      affected; system calls, stub instructions and returns of handlers mask nothing. */
  lemma EntryMasks(L: Layout, b: Cpu, cs: seq<Config>, es: seq<Event>, i: nat)
    requires Run(L, b, cs, es) && i < |es|
    ensures es[i].Deliver? ==>
              && es[i].line !in MaskedSet(cs[i].cpu.masks) && cs[i].cpu.r.eflags.intr
              && MaskedSet(cs[i + 1].cpu.masks) == MaskedSet(cs[i].cpu.masks) + {es[i].line}
    ensures es[i].Call? || es[i].Instr? || es[i].HandlerReturn? ==>
              MaskedSet(cs[i + 1].cpu.masks) == MaskedSet(cs[i].cpu.masks)
  {
    hide Boots, Enter, Masked, MaskLine, LoadFrame, Read;
    assert Step(L, cs[i], es[i], cs[i + 1]);
    if es[i].Deliver? {
      MaskLineSet(cs[i].cpu.masks, es[i].line);
    }
  }

  /** The leaving that matches the delivery of a line unmasks that line and no other; the
      one that matches a system call leaves the masks alone. */
  lemma LeaveMasks(L: Layout, b: Cpu, cs: seq<Config>, es: seq<Event>, i: nat, j: nat)
    requires Run(L, b, cs, es) && Roomy(L, cs, es) && i < j < |es|
    requires Enters(es[i]) && es[j].Leave? && LiveSince(cs, i, j) && |cs[j].acts| == |cs[i].acts| + 1
    ensures es[i].Deliver? ==> MaskedSet(cs[j + 1].cpu.masks) == MaskedSet(cs[j].cpu.masks) - {es[i].line}
    ensures es[i].Call? ==> MaskedSet(cs[j + 1].cpu.masks) == MaskedSet(cs[j].cpu.masks)
  {
    hide Level, FrameOf, Enter, Returned, LiveSince, Boots, Masked, UnmaskLine, LoadFrame, Read;
    RunInv(L, b, cs, es, j);
    ActKept(L, b, cs, es, i, j);
    InsideKernel(L, cs[j]);
    assert Step(L, cs[j], es[j], cs[j + 1]);
    LeaveLine(L, cs[j].cpu, cs[j].Top(), |cs[j].acts| == 1);
    if es[i].Deliver? {
      UnmaskLineSet(cs[j].cpu.masks, es[i].line);
    }
  }

  /** After it has been serviced a line can be delivered again as soon as interrupts are
      enabled. */
  lemma DeliverableAgain(L: Layout, b: Cpu, cs: seq<Config>, es: seq<Event>, i: nat, j: nat) returns (c': Config)
    requires Run(L, b, cs, es) && Roomy(L, cs, es) && i < j < |es|
    requires es[i].Deliver? && es[j].Leave? && LiveSince(cs, i, j) && |cs[j].acts| == |cs[i].acts| + 1
    requires cs[j + 1].cpu.r.eflags.intr
    ensures Step(L, cs[j + 1], es[i], c')
  {
    hide Inv, Step, LiveSince, Boots, Masked;
    LeaveMasks(L, b, cs, es, i, j);
    RunInv(L, b, cs, es, j + 1);
    assert es[i].line !in MaskedSet(cs[j + 1].cpu.masks);
    c' := DeliverFrom(L, cs[j + 1], es[i].line);
  }

  /** A line that is not masked can be delivered when interrupts are enabled. */
  lemma DeliverFrom(L: Layout, c: Config, n: Line) returns (c': Config)
    requires Inv(L, c) && c.cpu.r.eflags.intr && !Masked(c.cpu.masks, n)
    ensures Step(L, c, Deliver(n), c')
  {
    hide Level, FrameOf, Enter, Masked, MaskLine, WithFrame, FramesKept;
    InsideKernel(L, c);
    EnterReady(L, c);
    EnterCpuEnters(L, c.cpu, IrqPush(n), MaskLine(c.cpu.masks, n));
    c' := NoteEntry(c, L, Irq(n), EnterCpu(L, c.cpu, IrqPush(n), MaskLine(c.cpu.masks, n)));
  }

  lemma EnterReady(L: Layout, c: Config)
    requires Inv(L, c)
    ensures L.Valid() && (c.cpu.reenter == -1 <==> UserMode(c.cpu.r))
    ensures UserMode(c.cpu.r) ==> c.cpu.sp0 - P_STACKTOP in L.procs
  {
    hide Level, FrameOf;
    InsideKernel(L, c);
  }

  /** In particular right after a nested interrupt, since the interrupted code could be
      interrupted. */
  lemma NestedDeliverableAgain(L: Layout, b: Cpu, cs: seq<Config>, es: seq<Event>, i: nat, j: nat) returns (c': Config)
    requires Run(L, b, cs, es) && Roomy(L, cs, es) && i < j < |es| && cs[i].acts != []
    requires es[i].Deliver? && es[j].Leave? && LiveSince(cs, i, j) && |cs[j].acts| == |cs[i].acts| + 1
    ensures Step(L, cs[j + 1], es[i], c')
  {
    hide Step, LiveSince, Boots, Same;
    NestedReturnRestores(L, b, cs, es, i, j);
    EntryMasks(L, b, cs, es, i);
    c' := DeliverableAgain(L, b, cs, es, i, j);
  }
}
