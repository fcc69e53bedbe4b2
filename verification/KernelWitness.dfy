/** Runs that show how far the theorems about all runs go: where p_proc_ready stops
    naming the caller of a system call, and where the kernel stack overflows. */
module KernelWitness {
  import opened Options
  import opened Pic
  import opened Machine
  import opened KernelRuns
  import opened KernelTheorems
  import opened KernelDepth

  // ---------------------------------------------------------------------------
  // Steps with a chosen outcome

  /** The word at address `a` of a frame at `b` that pictures `r`. */
  function FrameWord(r: Regs, b: int, a: int): Word {
    var k := a - b;
    if k == GSREG then r.gs else if k == FSREG then r.fs else if k == ESREG then r.es else if k == DSREG then r.ds
    else if k == EDIREG then r.edi else if k == ESIREG then r.esi else if k == EBPREG then r.ebp
    else if k == EBXREG then r.ebx else if k == EDXREG then r.edx else if k == ECXREG then r.ecx
    else if k == EAXREG then r.eax else if k == EIPREG then r.eip else if k == CSREG then Num(r.cs)
    else if k == EFLAGSREG then Image(r.eflags) else if k == ESPREG then Num(r.esp) else r.ss
  }

  function FrameSize(r: Regs): int { if UserMode(r) then P_STACKTOP else ESPREG }

  /** Memory with the context `r` pictured in the frame at `b`. */
  function WithFrame(m: Mem, b: int, r: Regs): (m': Mem)
    ensures forall a {:trigger Read(m', a)} ::
              Read(m', a) == if b <= a < b + FrameSize(r) then FrameWord(r, b, a) else Read(m, a)
  {
    m + map a | b <= a < b + FrameSize(r) :: FrameWord(r, b, a)
  }

  lemma WithFramePictures(m: Mem, b: int, r: Regs)
    ensures FrameOf(WithFrame(m, b, r), b, r)
  {
  }

  /** Memory after an entry: a frame and the return point. */
  lemma EntryMemory(m: Mem, b: int, r: Regs, sp: int, w: Word)
    requires !(b <= sp < b + FrameSize(r))
    ensures var m' := WithFrame(m, b, r)[sp := w];
            && FrameOf(m', b, r) && Read(m', sp) == w
            && forall a {:trigger Read(m', a)} | !(b <= a < b + FrameSize(r)) && a != sp :: Read(m', a) == Read(m, a)
  {
    hide FrameOf, FrameWord;
    WithFramePictures(m, b, r);
    FrameStable(WithFrame(m, b, r), WithFrame(m, b, r)[sp := w], b, r);
  }

  /** The processor after an entry. */
  function EnterCpu(L: Layout, c: Cpu, next: Label, masks: Masks): Cpu {
    var user := UserMode(c.r);
    var base := if user then c.sp0 - P_STACKTOP else c.r.esp - ESPREG;
    var sp := if c.reenter == -1 then L.stackTop - 4 else base - 4;
    var ss := if user then L.kernelSs else c.r.ss;
    Cpu(c.r.(fs := ss, es := ss, ds := ss, esi := Num(base), eip := Code(next), cs := KERNEL_CS,
             eflags := c.r.eflags.(intr := true), esp := sp, ss := ss),
        WithFrame(c.mem, base, c.r)[sp := Code(if c.reenter == -1 then Restart else RestartReenter)],
        c.reenter + 1, c.ready, c.sp0, masks)
  }

  lemma EnterCpuEnters(L: Layout, c: Cpu, next: Label, masks: Masks)
    requires L.Valid() && (c.reenter == -1 <==> UserMode(c.r))
    requires UserMode(c.r) ==> c.sp0 - P_STACKTOP in L.procs
    ensures Enter(L, c, next, EnterCpu(L, c, next, masks))
  {
    hide FrameOf, WithFrame;
    var base := if UserMode(c.r) then c.sp0 - P_STACKTOP else c.r.esp - ESPREG;
    var c' := EnterCpu(L, c, next, masks);
    EntryMemory(c.mem, base, c.r, c'.r.esp, Code(if c.reenter == -1 then Restart else RestartReenter));
  }

  /** A line delivered to ring-0 code, and the two pushes that lead to its handler. */
  lemma NestIrq(L: Layout, c: Config, n: Line) returns (c1: Config, c2: Config, c3: Config)
    requires L.Valid() && c.cpu.r.cs == KERNEL_CS && c.cpu.reenter != -1
    requires c.cpu.r.eflags.intr && !Masked(c.cpu.masks, n)
    ensures Step(L, c, Deliver(n), c1) && Step(L, c1, Instr, c2) && Step(L, c2, Instr, c3)
    ensures |c1.acts| == |c2.acts| == |c.acts| + 1
    ensures c3.acts == c.acts + [NewAct(L, c.cpu, Irq(n))] && c3.saved == c.saved
    ensures InBody(c3.cpu.r) && c3.cpu.r.esp == c.cpu.r.esp - 76 == c3.Top().HandlerEsp()
    ensures c3.cpu.r.eflags.intr && c3.cpu.masks == MaskLine(c.cpu.masks, n)
    ensures c3.cpu.reenter == c.cpu.reenter + 1 && c3.cpu.ready == c.cpu.ready && c3.cpu.sp0 == c.cpu.sp0
  {
    hide Enter, WithFrame;
    var e := EnterCpu(L, c.cpu, IrqPush(n), MaskLine(c.cpu.masks, n));
    EnterCpuEnters(L, c.cpu, IrqPush(n), MaskLine(c.cpu.masks, n));
    c1 := NoteEntry(c, L, Irq(n), e);
    c2 := c1.(cpu := InstrStep(e).value);
    c3 := c2.(cpu := InstrStep(c2.cpu).value);
  }

  /** A system call made by the running process, up to its first instruction. */
  lemma CallFromUser(L: Layout, c: Config) returns (c': Config)
    requires Inv(L, c) && c.acts == []
    ensures Step(L, c, Call, c') && c'.cpu.r.eip == Code(SysPushEsi)
    ensures c'.acts == [NewAct(L, c.cpu, Sys)] && c'.Top().HandlerEsp() == L.stackTop - 28
    ensures c'.cpu.r.esp == L.stackTop - 4 && c'.cpu.r.cs == KERNEL_CS && c'.cpu.r.eflags.intr
    ensures c'.cpu.masks == c.cpu.masks && c'.cpu.ready == c.cpu.ready && c'.cpu.reenter == 0
    ensures c'.saved.Keys == c.saved.Keys
  {
    hide Enter, WithFrame, FrameOf;
    EnterCpuEnters(L, c.cpu, SysPushEsi, c.cpu.masks);
    c' := NoteEntry(c, L, Sys, EnterCpu(L, c.cpu, SysPushEsi, c.cpu.masks));
  }

  /** A piece of a run: configurations `ds` joined by events `fs`. */
  ghost predicate Path(L: Layout, ds: seq<Config>, fs: seq<Event>) {
    && |ds| == |fs| + 1
    && forall i: nat {:trigger fs[i]} | i < |fs| :: Step(L, ds[i], fs[i], ds[i + 1])
  }

  /** A run that goes on along a path. */
  lemma Join(L: Layout, b: Cpu, cs: seq<Config>, es: seq<Event>, ds: seq<Config>, fs: seq<Event>)
    requires Run(L, b, cs, es) && Path(L, ds, fs) && cs[|es|] == ds[0]
    ensures Run(L, b, cs + ds[1..], es + fs)
    ensures Roomy(L, cs, es) && Roomy(L, ds, fs) ==> Roomy(L, cs + ds[1..], es + fs)
  {
    hide Step, Boots, Room;
    var cs', es' := cs + ds[1..], es + fs;
    forall i: nat | i < |es'| ensures Step(L, cs'[i], es'[i], cs'[i + 1]) {
      if i < |es| {
        assert Step(L, cs[i], es[i], cs[i + 1]);
      } else {
        assert Step(L, ds[i - |es|], fs[i - |es|], ds[i - |es| + 1]);
      }
    }
    if Roomy(L, cs, es) && Roomy(L, ds, fs) {
      forall i: nat | i < |es'| && Enters(es'[i]) ensures Room(L, cs'[i].cpu, KindOf(es'[i])) {
        if i < |es| {
          assert Room(L, cs[i].cpu, KindOf(es[i]));
        } else {
          assert Room(L, ds[i - |es|].cpu, KindOf(fs[i - |es|]));
        }
      }
    }
  }

  // ---------------------------------------------------------------------------
  // The fourth argument of a system call

  /** What the processor does at the end of a handler, and its stub up to the cli. */
  lemma FinishIrq(L: Layout, c: Config, n: Line) returns (c1: Config, c2: Config)
    requires Inv(L, c) && |c.acts| > 1 && c.Top().kind == Irq(n)
    requires InBody(c.cpu.r) && c.cpu.r.esp == c.Top().HandlerEsp()
    ensures Step(L, c, HandlerReturn, c1) && Step(L, c1, Instr, c2)
    ensures |c1.acts| == |c2.acts| == |c.acts|
    ensures c2.cpu.r.eip == Code(IrqCli(n)) && c2.cpu.ready == c.cpu.ready && c2.saved == c.saved
    ensures c2.acts[..|c.acts| - 1] == c.acts[..|c.acts| - 1]
  {
    hide FrameOf;
    InsideKernel(L, c);
    var r := c.cpu.r.(eip := Read(c.cpu.mem, c.cpu.r.esp), esp := c.cpu.r.esp + 4);
    c1 := Config(c.cpu.(r := r), WithTop(c.acts, c.Top().(result := Some(c.cpu.r.eax))), c.saved);
    c2 := c1.(cpu := InstrStep(c1.cpu).value);
  }

  /** A handler that makes process `q` ready and does nothing else. */
  lemma Reschedule(L: Layout, c: Config, q: int) returns (c': Config)
    requires Inv(L, c) && c.acts != [] && InBody(c.cpu.r) && c.cpu.r.esp == c.Top().HandlerEsp() && q in c.saved
    ensures Step(L, c, HandlerMove, c') && c' == c.(cpu := c.cpu.(ready := q))
  {
    c' := c.(cpu := c.cpu.(ready := q));
  }

  /** An interrupt that can be delivered may make `q` ready and leave. */
  lemma DetourPath(L: Layout, c: Config, n: Line, q: int) returns (ds: seq<Config>, fs: seq<Event>)
    requires Inv(L, c) && c.acts != [] && c.cpu.r.eflags.intr && !Masked(c.cpu.masks, n)
    requires Room(L, c.cpu, Irq(n)) && q in c.saved
    ensures Path(L, ds, fs) && Roomy(L, ds, fs) && ds[0] == c
    ensures fs == [Deliver(n), Instr, Instr, HandlerMove, HandlerReturn, Instr, Leave]
    ensures |ds[7].acts| == |c.acts| && ds[7].cpu.ready == q
    ensures forall k: nat {:trigger ds[k]} | 0 < k < 7 :: |ds[k].acts| == |c.acts| + 1
  {
    hide Step, Inv, Room, MaskLine, Masked;
    InvReadyForIrq(L, c);
    var c1, c2, c3 := NestIrq(L, c, n);
    StepKeepsInv(L, c, Deliver(n), c1);
    StepKeepsInv(L, c1, Instr, c2);
    StepKeepsInv(L, c2, Instr, c3);
    var c4 := Reschedule(L, c3, q);
    StepKeepsInv(L, c3, HandlerMove, c4);
    var c5, c6 := FinishIrq(L, c4, n);
    StepKeepsInv(L, c4, HandlerReturn, c5);
    StepKeepsInv(L, c5, Instr, c6);
    var c7 := LeaveAtCli(L, c6);
    ds := [c, c1, c2, c3, c4, c5, c6, c7];
    fs := [Deliver(n), Instr, Instr, HandlerMove, HandlerReturn, Instr, Leave];
  }

  /** At the end of any run that stands in ring-0 code with interrupts enabled: seven
      events after which the registers are as before and p_proc_ready is `q`. */
  lemma Detour(L: Layout, b: Cpu, cs: seq<Config>, es: seq<Event>, n: Line, q: int)
      returns (cs': seq<Config>, es': seq<Event>)
    requires Run(L, b, cs, es) && Roomy(L, cs, es)
    requires var c := cs[|es|]; c.acts != [] && c.cpu.r.eflags.intr && !Masked(c.cpu.masks, n)
                                && Room(L, c.cpu, Irq(n)) && q in c.saved
    ensures Run(L, b, cs', es') && Roomy(L, cs', es')
    ensures es' == es + [Deliver(n), Instr, Instr, HandlerMove, HandlerReturn, Instr, Leave]
    ensures |cs'| == |cs| + 7 && cs'[..|cs|] == cs
    ensures forall k: nat {:trigger cs'[k]} | |es| < k < |es'| :: |cs'[k].acts| > |cs[|es|].acts|
    ensures cs'[|es'|].cpu.r == cs[|es|].cpu.r && cs'[|es'|].cpu.ready == q && |cs'[|es'|].acts| == |cs[|es|].acts|
  {
    hide Step, Inv, Room, Boots, Masked, Roomy, Path;
    RunInv(L, b, cs, es, |es|);
    var ds, fs := DetourPath(L, cs[|es|], n, q);
    Join(L, b, cs, es, ds, fs);
    PathLength(L, ds, fs);
    cs', es' := cs + ds[1..], es + fs;
    assert forall k: nat | |es| <= k < |cs'| :: cs'[k] == ds[k - |es|];
    NestedReturnRestores(L, b, cs', es', |es|, |es| + 6);
  }

  lemma PathLength(L: Layout, ds: seq<Config>, fs: seq<Event>)
    requires Path(L, ds, fs)
    ensures |ds| == |fs| + 1
  {
  }

  lemma InvReadyForIrq(L: Layout, c: Config)
    requires Inv(L, c) && c.acts != []
    ensures L.Valid() && c.cpu.r.cs == KERNEL_CS && c.cpu.reenter != -1
  {
    InsideKernel(L, c);
  }

  lemma LeaveAtCli(L: Layout, c: Config) returns (c': Config)
    requires Inv(L, c) && c.acts != [] && c.cpu.r.eip.Code? && c.cpu.r.eip.at.IrqCli?
    ensures Step(L, c, Leave, c') && |c'.acts| == |c.acts| - 1 && c'.cpu.ready == c.cpu.ready
  {
    hide FrameOf, LoadFrame;
    InsideKernel(L, c);
    NeverLost(L, c.cpu, c.Top(), |c.acts| == 1);
    c' := Config(LeaveStep(c.cpu).value, c.acts[..|c.acts| - 1], c.saved);
  }

  lemma PushProc(L: Layout, c: Config) returns (c': Config)
    requires c.acts != [] && c.cpu.r.eip == Code(SysPushProc)
    ensures Step(L, c, Instr, c') && Read(c'.cpu.mem, c'.cpu.r.esp) == Num(c.cpu.ready)
  {
    c' := c.(cpu := Push(c.cpu, Num(c.cpu.ready), SysPushEdx));
  }

  /** Without the rule of `FourthArgument` it fails everywhere: from every point where
      sys_call is about to push p_proc_ready, an interrupt whose handler makes `q`
      ready leads to `q` being pushed, whoever made the call. */
  lemma Misnames(L: Layout, b: Cpu, cs: seq<Config>, es: seq<Event>, i: nat, n: Line, q: int)
      returns (cs': seq<Config>, es': seq<Event>)
    requires Run(L, b, cs, es) && Roomy(L, cs, es) && i < |es|
    requires es[i].Call? && LiveSince(cs, i, |es|) && |cs[|es|].acts| == |cs[i].acts| + 1
    requires var c := cs[|es|]; c.cpu.r.eip == Code(SysPushProc) && c.cpu.r.eflags.intr && !Masked(c.cpu.masks, n)
                                && Room(L, c.cpu, Irq(n)) && q in c.saved
    ensures es' == es + [Deliver(n), Instr, Instr, HandlerMove, HandlerReturn, Instr, Leave, Instr]
    ensures |cs'| == |es'| + 1 && cs'[..|cs|] == cs
    ensures PushesProc(L, b, cs', es', i, |es'| - 1)
    ensures Read(cs'[|es'|].cpu.mem, cs'[|es'|].cpu.r.esp) == Num(q)
  {
    hide Boots, Room, Masked, Step;
    cs', es' := Detour(L, b, cs, es, n, q);
    var c := cs'[|es'|];
    var c' := PushProc(L, c);
    assert Path(L, [c, c'], [Instr]) && Roomy(L, [c, c'], [Instr]);
    Join(L, b, cs', es', [c, c'], [Instr]);
    assert [c, c'][1..] == [c'];
    var j := |es'|;
    forall k: nat | i < k <= j ensures |cs'[k].acts| > |cs[i].acts| {
      if k <= |es| {
        assert cs'[k] == cs'[..|cs|][k] == cs[k];
      }
    }
    assert cs'[i] == cs'[..|cs|][i] == cs[i];
    cs', es' := cs' + [c'], es' + [Instr];
    assert cs'[..|cs|] == cs;
  }
  // ---------------------------------------------------------------------------
  // Starting points

  /** A context for a process to start with: ring 1, interrupts enabled. */
  function FirstContext(): Regs {
    var z := Num(0);
    Regs(z, z, z, z, z, z, z, z, z, z, z, z, 5, Flags(true, 0), 0, z)
  }

  /** A frame written for one process leaves that of another. */
  lemma FrameApart(L: Layout, m: Mem, p: int, q: int, u: Regs)
    requires L.Valid() && p in L.procs && q in L.procs && p != q && FrameOf(m, q, u)
    ensures FrameOf(WithFrame(m, p, u), q, u)
  {
    hide FrameOf, FrameWord;
    FrameStable(m, WithFrame(m, p, u), q, u);
  }

  /** The kernel can be booted with any one or two processes. */
  lemma BootWith(L: Layout, p: int, q: int, masks: Masks) returns (b: Cpu, c: Config)
    requires L.Valid() && p in L.procs && q in L.procs
    ensures Boots(L, b, c) && b.masks == c.cpu.masks == masks && c.cpu.ready == p && c.saved.Keys == {p, q}
  {
    hide FrameOf, FrameWord, LoadFrame, WithFrame;
    var u := FirstContext();
    var m := WithFrame(map[], q, u);
    WithFramePictures(map[], q, u);
    WithFramePictures(m, p, u);
    if p != q {
      FrameApart(L, m, p, q, u);
    }
    b := Cpu(u, WithFrame(m, p, u), 0, p, 0, masks);
    c := Config(Restarted(b, masks), [], map[p := u, q := u]);
  }

  /** The first two events of a system call. */
  lemma CallPath(L: Layout, c: Config) returns (ds: seq<Config>)
    requires Inv(L, c) && c.acts == []
    ensures Path(L, ds, [Call, Instr]) && ds[0] == c
    ensures |ds[1].acts| == |ds[2].acts| == 1 && ds[2].cpu.r.eip == Code(SysPushProc)
    ensures ds[2].cpu.r.esp == L.stackTop - 8 && ds[2].cpu.r.eflags.intr
    ensures ds[2].cpu.masks == c.cpu.masks && ds[2].saved.Keys == c.saved.Keys
  {
    hide Enter;
    var c1 := CallFromUser(L, c);
    var c2 := c1.(cpu := InstrStep(c1.cpu).value);
    ds := [c, c1, c2];
  }

  /** From every boot with a second process and an unmasked line: a system call, an
      interrupt before p_proc_ready is pushed, whose handler makes the second process
      ready, and the fourth argument names that process instead of the caller. */
  lemma MisnamedFromBoot(L: Layout, b: Cpu, c: Config, n: Line, q: int) returns (cs: seq<Config>, es: seq<Event>)
    requires Boots(L, b, c) && q in c.saved && q != c.cpu.ready && !Masked(c.cpu.masks, n)
    requires L.budget <= STACK_BYTES - 84
    ensures es == [Call, Instr, Deliver(n), Instr, Instr, HandlerMove, HandlerReturn, Instr, Leave, Instr]
    ensures PushesProc(L, b, cs, es, 0, 9) && cs[0] == c && c.acts == []
    ensures Read(cs[10].cpu.mem, cs[10].cpu.r.esp) == Num(q) != Num(cs[0].cpu.ready)
  {
    hide Step, Inv, Masked, Boots, PushesProc, Path, Run;
    BootRun(L, b, c);
    var ds := CallPath(L, c);
    PathLength(L, ds, [Call, Instr]);
    Join(L, b, [c], [], ds, [Call, Instr]);
    assert [c] + ds[1..] == ds && [] + [Call, Instr] == [Call, Instr];
    cs, es := Misnames(L, b, ds, [Call, Instr], 0, n, q);
    assert cs[0] == cs[..3][0] == c;
  }

  lemma BootRun(L: Layout, b: Cpu, c: Config)
    requires Boots(L, b, c)
    ensures Run(L, b, [c], []) && Inv(L, c) && UserMode(c.cpu.r) && c.acts == []
  {
    BootInv(L, b, c);
    InsideKernel(L, c);
  }

  /** One such run: two processes, line 0 unmasked. */
  lemma CallerMisnamed() returns (L: Layout, b: Cpu, cs: seq<Config>, es: seq<Event>)
    ensures L == Layout(0x8000, {0x9000, 0xA000}, Num(0x10), 1024)
    ensures PushesProc(L, b, cs, es, 0, 9) && cs[0].acts == [] && cs[0].cpu.ready == 0x9000
    ensures Read(cs[10].cpu.mem, cs[10].cpu.r.esp) == Num(0xA000)
  {
    hide Boots;
    L := Layout(0x8000, {0x9000, 0xA000}, Num(0x10), 1024);
    var masks := Masks(0xFE, 0xFF);
    var c: Config;
    b, c := BootWith(L, 0x9000, 0xA000, masks);
    assert !Masked(masks, 0);
    cs, es := MisnamedFromBoot(L, b, c, 0, 0xA000);
  }
  // ---------------------------------------------------------------------------
  // Filling the stack

  ghost predicate BehavedPath(L: Layout, usable: set<Line>, ds: seq<Config>, fs: seq<Event>) {
    && Path(L, ds, fs)
    && forall i: nat {:trigger fs[i]} | i < |fs| :: Behaves(usable, ds[i], fs[i], ds[i + 1])
  }

  lemma JoinBehaved(L: Layout, usable: set<Line>, b: Cpu, cs: seq<Config>, es: seq<Event>, ds: seq<Config>,
      fs: seq<Event>)
    requires BehavedRun(L, usable, b, cs, es) && BehavedPath(L, usable, ds, fs) && cs[|es|] == ds[0]
    ensures BehavedRun(L, usable, b, cs + ds[1..], es + fs)
  {
    hide Step, Boots, Behaves;
    Join(L, b, cs, es, ds, fs);
    var cs', es' := cs + ds[1..], es + fs;
    forall i: nat | i < |es'| ensures Behaves(usable, cs'[i], es'[i], cs'[i + 1]) {
      if i < |es| {
        assert Behaves(usable, cs[i], es[i], cs[i + 1]);
      } else {
        assert Behaves(usable, ds[i - |es|], fs[i - |es|], ds[i - |es| + 1]);
      }
    }
  }

  /** A handler that uses all of its budget. */
  lemma UseBudget(L: Layout, c: Config) returns (c': Config)
    requires 0 <= L.budget && c.acts != [] && c.cpu.ready in c.saved
    requires InBody(c.cpu.r) && c.cpu.r.esp == c.Top().HandlerEsp()
    ensures Step(L, c, HandlerMove, c') && c' == c.(cpu := c.cpu.(r := c.cpu.r.(esp := c.cpu.r.esp - L.budget)))
  {
    c' := c.(cpu := c.cpu.(r := c.cpu.r.(esp := c.cpu.r.esp - L.budget)));
  }

  /** A handler with interrupts enabled, in which the lines `left` can still arrive. */
  ghost predicate Interruptible(L: Layout, c: Config, left: set<Line>) {
    && L.Valid() && c.acts != [] && c.cpu.ready in c.saved
    && InBody(c.cpu.r) && c.cpu.r.eflags.intr && c.cpu.reenter >= 0
    && forall n | n in left :: !Masked(c.cpu.masks, n)
  }

  /** One more interrupt whose handler uses all of its budget. */
  lemma DeeperPath(L: Layout, usable: set<Line>, c: Config, left: set<Line>, n: Line) returns (ds: seq<Config>)
    requires Interruptible(L, c, left) && n in left
    ensures BehavedPath(L, usable, ds, [Deliver(n), Instr, Instr, HandlerMove]) && ds[0] == c
    ensures Interruptible(L, ds[4], left - {n}) && ds[4].cpu.r.esp == c.cpu.r.esp - 76 - L.budget
  {
    hide Step, Masked, MaskLine;
    var c1, c2, c3 := NestIrq(L, c, n);
    var c4 := UseBudget(L, c3);
    ds := [c, c1, c2, c3, c4];
    MaskLineSet(c.cpu.masks, n);
    forall m | m in left - {n} ensures !Masked(c4.cpu.masks, m) {
      assert m !in MaskedSet(c.cpu.masks);
      assert m !in MaskedSet(c4.cpu.masks);
    }
  }

  /** When the lines left and their handlers need more than there is, some delivery
      finds the stack too full. */
  lemma {:induction false} Dive(L: Layout, usable: set<Line>, b: Cpu, cs: seq<Config>, es: seq<Event>, left: set<Line>)
      returns (cs': seq<Config>, es': seq<Event>)
    requires BehavedRun(L, usable, b, cs, es) && left != {} && Interruptible(L, cs[|es|], left)
    requires cs[|es|].cpu.r.esp - |left| * (76 + L.budget) < L.StackBase()
    ensures BehavedRun(L, usable, b, cs', es') && !Roomy(L, cs', es')
    decreases |left|
  {
    hide Boots, Step, Behaves, Masked, MaskLine;
    var c := cs[|es|];
    var n :| n in left;
    var ds := DeeperPath(L, usable, c, left, n);
    var fs := [Deliver(n), Instr, Instr, HandlerMove];
    JoinBehaved(L, usable, b, cs, es, ds, fs);
    cs', es' := cs + ds[1..], es + fs;
    assert |left - {n}| == |left| - 1;
    if left == {n} {
      assert !Room(L, cs'[|es|].cpu, KindOf(es'[|es|]));
    } else {
      var w := 76 + L.budget;
      assert |left| * w == (|left| - 1) * w + w;
      assert cs'[|es'|] == ds[4];
      cs', es' := Dive(L, usable, b, cs', es', left - {n});
    }
  }

  /** The instruction after each of the pushes of sys_call. */
  function AfterPush(at: Label): Label {
    match at
    case SysPushEsi => SysPushProc
    case SysPushProc => SysPushEdx
    case SysPushEdx => SysPushEcx
    case SysPushEcx => SysPushEbx
    case SysPushEbx => SysCall
    case _ => Body(0)
  }

  lemma SysPush(L: Layout, c: Config) returns (c': Config)
    requires c.acts != [] && c.cpu.r.eip.Code?
    requires c.cpu.r.eip.at in {SysPushEsi, SysPushProc, SysPushEdx, SysPushEcx, SysPushEbx, SysCall}
    ensures Step(L, c, Instr, c') && c'.acts == c.acts && c'.saved == c.saved
    ensures c'.cpu == c.cpu.(mem := c'.cpu.mem,
                             r := c.cpu.r.(esp := c.cpu.r.esp - 4, eip := Code(AfterPush(c.cpu.r.eip.at))))
  {
    c' := c.(cpu := InstrStep(c.cpu).value);
  }

  lemma InvValid(L: Layout, c: Config)
    requires Inv(L, c)
    ensures L.Valid() && c.cpu.ready in c.saved
  {
  }

  /** A system call whose handler uses all of its budget. */
  lemma CallIntoHandler(L: Layout, usable: set<Line>, c: Config) returns (ds: seq<Config>, fs: seq<Event>)
    requires Inv(L, c) && c.acts == []
    ensures BehavedPath(L, usable, ds, fs) && ds[0] == c
    ensures var d := ds[|fs|]; Interruptible(L, d, {}) && d.cpu.masks == c.cpu.masks
                               && d.cpu.r.esp == L.stackTop - 28 - L.budget
  {
    hide Step, Inv, Masked, InstrStep;
    InvValid(L, c);
    var c0 := CallFromUser(L, c);
    var c1 := SysPush(L, c0);
    var c2 := SysPush(L, c1);
    var c3 := SysPush(L, c2);
    var c4 := SysPush(L, c3);
    var c5 := SysPush(L, c4);
    var c6 := SysPush(L, c5);
    assert c.cpu.ready in c0.saved.Keys;
    var c7 := UseBudget(L, c6);
    ds := [c, c0, c1, c2, c3, c4, c5, c6, c7];
    fs := [Call, Instr, Instr, Instr, Instr, Instr, Instr, HandlerMove];
  }

  /** Mask bytes that leave exactly the given lines unmasked. */
  lemma {:induction false} MasksFor(usable: set<Line>) returns (m: Masks)
    ensures forall n: Line :: Masked(m, n) <==> n !in usable
    decreases |usable|
  {
    if usable == {} {
      m := Masks(0xFF, 0xFF);
    } else {
      var k :| k in usable;
      var m' := MasksFor(usable - {k});
      m := UnmaskLine(m', k);
      UnmaskLineSet(m', k);
      assert forall n: Line :: Masked(m, n) <==> n in MaskedSet(m);
      assert forall n: Line :: Masked(m', n) <==> n in MaskedSet(m');
    }
  }

  /** If bookkeeping and handlers' budgets do not fit on the stack, some behaved run
      overflows it. */
  lemma Overflows(L: Layout, usable: set<Line>, p: int) returns (b: Cpu, cs: seq<Config>, es: seq<Event>)
    requires L.Valid() && p in L.procs && !Fits(L, usable)
    ensures BehavedRun(L, usable, b, cs, es) && !Roomy(L, cs, es)
  {
    hide Step, Inv, Masked;
    var masks := MasksFor(usable);
    var c: Config;
    b, c := BootWith(L, p, p, masks);
    BootInv(L, b, c);
    var ds, fs := CallIntoHandler(L, usable, c);
    assert BehavedRun(L, usable, b, [c], []);
    JoinBehaved(L, usable, b, [c], [], ds, fs);
    assert [c] + ds[1..] == ds && [] + fs == fs;
    cs, es := Dive(L, usable, b, ds, fs, usable);
  }

  /** The stack is big enough for every behaved run exactly when 28 bytes, 76 for each
      usable line and every handler's budget fit on it. */
  lemma FitsExactly(L: Layout, usable: set<Line>)
    requires L.Valid() && exists p :: p in L.procs
    ensures Fits(L, usable) <==>
              forall b, cs, es | BehavedRun(L, usable, b, cs, es) :: Roomy(L, cs, es)
  {
    hide Boots, Behaves, Step, Fits, Roomy;
    if Fits(L, usable) {
      forall b, cs, es | BehavedRun(L, usable, b, cs, es) ensures |cs| == |es| + 1 && Roomy(L, cs, es) {
        StackNeverOverflows(L, usable, b, cs, es);
      }
    } else {
      var p :| p in L.procs;
      var b, cs, es := Overflows(L, usable, p);
    }
  }
}
