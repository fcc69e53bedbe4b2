/** The kernel's entry and exit code as a transition system.

    A step is one instruction of the code that runs with interrupts enabled, one
    whole stretch of code that runs with interrupts disabled, one move of a C
    handler, or one move of a user process.  Interrupts are delivered between
    steps.  Module `KernelEntry` shows that the instruction sequences of the
    source perform exactly the steps defined here. */
module KernelRuns {
  import opened Options
  import opened Pic
  import opened Machine

  datatype Kind = Irq(line: Line) | Sys

  /** One interrupt or system call that has been entered and not yet left.
      `ctx` is the interrupted context, `base` the address of the frame that keeps
      it, `sp` the stack pointer after `save`, `eax` the value now kept in the
      frame's eax cell and `result` what the C handler returned. */
  datatype Act = Act(kind: Kind, ctx: Regs, base: int, sp: int, eax: Word, result: Option<Word>) {
    /** The context that leaving this activation must restore. */
    function Resumed(): Regs { ctx.(eax := eax) }

    /** Stack pointer of the C handler on entry: its return address is there. */
    function HandlerEsp(): int { sp - Bookkeeping(kind) }

    /** Bytes of arguments above the handler's return address. */
    function ArgBytes(): int { if kind.Irq? then 4 else 16 }

    function ReturnLabel(): Label { if kind.Irq? then IrqPop(kind.line) else SysDrop }
  }

  /** Bytes pushed between `save` and the handler's first instruction. */
  function Bookkeeping(k: Kind): int { if k.Irq? then 8 else 24 }

  /** The processor with its history: the activations that are live, outermost
      first, and for each process the context it held when it last stopped.  An
      entry of the process table that has no such context is a free slot. */
  datatype Config = Config(cpu: Cpu, acts: seq<Act>, saved: map<int, Regs>) {
    function Top(): Act
      requires acts != []
    {
      acts[|acts| - 1]
    }
  }

  datatype Event =
    | UserMove              // a process computes
    | Fork(child: int, parent: int)   // a filled process table entry becomes a process
    | Deliver(line: Line)   // a hardware interrupt, up to the stub's sti
    | Call                  // int 0x90, up to sys_call's sti
    | Instr                 // one instruction of the kernel between sti and cli
    | HandlerMove           // a C handler computes
    | HandlerReturn         // a C handler executes ret
    | Leave                 // cli up to iretd

  // ---------------------------------------------------------------------------
  // Steps of the processor

  /** Interrupt gate, `call save` and `save`, seen from outside: the context that
      was running is pictured in a frame, and the stack continues below it, or
      afresh at StackTop when k_reenter was -1. */
  ghost predicate Entered(L: Layout, c: Cpu, c': Cpu) {
    var user := UserMode(c.r);
    var base := if user then c.sp0 - P_STACKTOP else c.r.esp - ESPREG;
    var top := if user then c.sp0 else c.r.esp;
    var sp := if c.reenter == -1 then L.stackTop - 4 else base - 4;
    && FrameOf(c'.mem, base, c.r)
    && Read(c'.mem, sp) == Code(if c.reenter == -1 then Restart else RestartReenter)
    && (forall a {:trigger Read(c'.mem, a)} | !(base <= a < top) && a != sp :: Read(c'.mem, a) == Read(c.mem, a))
    && c'.r.esi == Num(base) && c'.r.esp == sp
    && c'.r.cs == KERNEL_CS && c'.r.ss == (if user then L.kernelSs else c.r.ss)
    && c'.r.ds == c'.r.es == c'.r.fs == c'.r.ss
    && c'.r.gs == c.r.gs && c'.r.edi == c.r.edi && c'.r.ebp == c.r.ebp
    && c'.r.ebx == c.r.ebx && c'.r.ecx == c.r.ecx && c'.r.edx == c.r.edx
    && c'.reenter == c.reenter + 1 && c'.ready == c.ready && c'.sp0 == c.sp0
  }

  /** The same up to the stub's sti, with `next` the instruction after it. */
  ghost predicate Enter(L: Layout, c: Cpu, next: Label, c': Cpu) {
    Entered(L, c, c') && c'.r.eip == Code(next) && c'.r.eflags.intr
  }

  /** A hardware interrupt: deliverable when IF is set and the line is not masked. */
  ghost predicate DeliverStep(L: Layout, c: Cpu, n: Line, c': Cpu) {
    && c.r.eflags.intr && !Masked(c.masks, n)
    && Enter(L, c, IrqPush(n), c')
    && c'.masks == MaskLine(c.masks, n)
  }

  /** `int 0x90`.  eax still holds the call number. */
  ghost predicate CallStep(L: Layout, c: Cpu, c': Cpu) {
    && Enter(L, c, SysPushEsi, c')
    && c'.r.eax == c.r.eax && c'.masks == c.masks
  }

  function Push(c: Cpu, w: Word, next: Label): Cpu {
    c.(r := c.r.(esp := c.r.esp - 4, eip := Code(next)), mem := c.mem[c.r.esp - 4 := w])
  }

  /** One instruction of a stub between sti and cli.  None: not such an instruction. */
  function InstrStep(c: Cpu): Option<Cpu> {
    if !c.r.eip.Code? then None else
    match c.r.eip.at
    case IrqPush(n) => Some(Push(c, Num(n), IrqCall(n)))
    case IrqCall(n) => Some(Push(c, Code(IrqPop(n)), Body(0)))
    case IrqPop(n) => Some(c.(r := c.r.(ecx := Read(c.mem, c.r.esp), esp := c.r.esp + 4, eip := Code(IrqCli(n)))))
    case SysPushEsi => Some(Push(c, c.r.esi, SysPushProc))
    case SysPushProc => Some(Push(c, Num(c.ready), SysPushEdx))
    case SysPushEdx => Some(Push(c, c.r.edx, SysPushEcx))
    case SysPushEcx => Some(Push(c, c.r.ecx, SysPushEbx))
    case SysPushEbx => Some(Push(c, c.r.ebx, SysCall))
    case SysCall => Some(Push(c, Code(SysDrop), Body(0)))
    case SysDrop => Some(c.(r := c.r.(esp := c.r.esp + 16, eip := Code(SysPopEsi))))
    case SysPopEsi => Some(c.(r := c.r.(esi := Read(c.mem, c.r.esp), esp := c.r.esp + 4, eip := Code(SysStore))))
    case SysStore => Some(c.(r := c.r.(eip := Code(SysCli)), mem := c.mem[Val(c.r.esi) + EAXREG := c.r.eax]))
    case _ => None
  }

  /** `restart`: the frame and the ring-0 stack of the process chosen to run. */
  function Restarted(c: Cpu, masks: Masks): Cpu {
    Cpu(LoadFrame(c.mem, c.ready, c.r.ss), c.mem, c.reenter - 1, c.ready, c.ready + P_STACKTOP, masks)
  }

  /** cli, the stub's unmasking, `ret`, and `restart` or `restart_reenter` up to
      iretd.  None: the processor does not stand at a cli, or the word on the
      stack is not one of the two return points. */
  function LeaveStep(c: Cpu): Option<Cpu> {
    if !(c.r.eip.Code? && (c.r.eip.at.IrqCli? || c.r.eip.at.SysCli?)) then None else
    var masks := if c.r.eip.at.IrqCli? then UnmaskLine(c.masks, c.r.eip.at.line) else c.masks;
    match Read(c.mem, c.r.esp)
    case Code(Restart) =>
      Some(Restarted(c, masks))
    case Code(RestartReenter) =>
      Some(Cpu(LoadFrame(c.mem, c.r.esp + 4, c.r.ss), c.mem, c.reenter - 1, c.ready, c.sp0, masks))
    case _ => None
  }

  // ---------------------------------------------------------------------------
  // What C handlers and processes are allowed to do

  predicate InBody(r: Regs) { r.eip.Code? && r.eip.at.Body? && r.cs == KERNEL_CS }

  /** A C handler may change registers, flags, p_proc_ready and the mask registers,
      and writes below its return address (within its budget) and to its own
      arguments.  It touches neither saved frames nor other stack cells. */
  ghost predicate HandlerMoveStep(L: Layout, a: Act, c: Cpu, c': Cpu) {
    && InBody(c.r) && InBody(c'.r)
    && c'.r.ss == c.r.ss
    && a.HandlerEsp() - L.budget <= c'.r.esp <= a.HandlerEsp()
    && (forall x {:trigger Read(c'.mem, x)}
          | !(a.HandlerEsp() - L.budget <= x < a.HandlerEsp())
            && !(a.HandlerEsp() + 4 <= x < a.HandlerEsp() + 4 + a.ArgBytes())
          :: Read(c'.mem, x) == Read(c.mem, x))
    && c'.reenter == c.reenter && c'.sp0 == c.sp0
  }

  /** `ret` of a C handler, executed with the stack pointer it was entered with. */
  ghost predicate HandlerReturnStep(a: Act, c: Cpu, c': Cpu) {
    && InBody(c.r) && c.r.esp == a.HandlerEsp()
    && c' == c.(r := c.r.(eip := Read(c.mem, c.r.esp), esp := c.r.esp + 4))
  }

  /** Is `x` a cell of the saved frame of a free slot? */
  ghost predicate FreeCell(L: Layout, saved: map<int, Regs>, x: int) {
    exists p <- L.procs :: p !in saved && p <= x < p + P_STACKTOP
  }

  /** A process computes with its own registers and memory.  A driver task may also
      change the mask registers, and the memory manager writes into free slots. */
  ghost predicate UserMoveStep(L: Layout, c: Config, c': Cpu) {
    && UserMode(c.cpu.r) && UserMode(c'.r)
    && c' == c.cpu.(r := c'.r, mem := c'.mem, masks := c'.masks)
    && (forall x {:trigger Read(c'.mem, x)} | !FreeCell(L, c.saved, x) :: Read(c'.mem, x) == Read(c.cpu.mem, x))
  }

  /** The word at offset `k` of the frame at `p`. */
  function Cell(m: Mem, p: int, k: int): Word { Read(m, p + k) }

  /** The frame at `q` is a copy of the frame at `p`, word for word. */
  ghost predicate FrameCopied(m: Mem, p: int, q: int) {
    forall k | 0 <= k < P_STACKTOP :: Cell(m, q, k) == Cell(m, p, k)
  }

  /** A free slot whose frame has been copied from the frame of a process that is not
      running becomes a process itself.  The processor does nothing. */
  ghost predicate ForkStep(L: Layout, c: Config, child: int, parent: int) {
    && UserMode(c.cpu.r)
    && child in L.procs && child !in c.saved
    && parent in c.saved && parent != c.cpu.ready
    && FrameCopied(c.cpu.mem, parent, child)
  }

  // ---------------------------------------------------------------------------
  // Steps with their history

  function NewAct(L: Layout, c: Cpu, k: Kind): Act {
    var base := if UserMode(c.r) then c.sp0 - P_STACKTOP else c.r.esp - ESPREG;
    Act(k, c.r, base, if UserMode(c.r) then L.stackTop - 4 else base - 4, c.r.eax, None)
  }

  function NoteEntry(c: Config, L: Layout, k: Kind, cpu': Cpu): Config {
    Config(cpu', c.acts + [NewAct(L, c.cpu, k)],
           if UserMode(c.cpu.r) then c.saved[c.cpu.sp0 - P_STACKTOP := c.cpu.r] else c.saved)
  }

  /** Replace the innermost activation. */
  function WithTop(acts: seq<Act>, a: Act): seq<Act>
    requires acts != []
  {
    acts[|acts| - 1 := a]
  }

  /** History of an instruction: only the store of the return value leaves a mark. */
  function NoteInstr(c: Config, cpu': Cpu): Config
    requires c.acts != []
  {
    if c.cpu.r.eip != Code(SysStore) then c.(cpu := cpu')
    else
      var a := c.Top();
      Config(cpu', WithTop(c.acts, a.(eax := c.cpu.r.eax)),
             if a.base in c.saved && |c.acts| == 1
             then c.saved[a.base := c.saved[a.base].(eax := c.cpu.r.eax)] else c.saved)
  }

  /** Is there room on the kernel stack for one more activation?  Entries from a
      process start on an empty stack. */
  predicate Room(L: Layout, c: Cpu, k: Kind) {
    UserMode(c.r) || c.r.esp - ESPREG - 4 - Bookkeeping(k) - L.budget >= L.StackBase()
  }

  /** Is the event the entry of an activation, and of which kind? */
  predicate Enters(e: Event) { e.Deliver? || e.Call? }

  function KindOf(e: Event): Kind { if e.Deliver? then Irq(e.line) else Sys }

  ghost predicate Step(L: Layout, c: Config, e: Event, c': Config) {
    match e
    case UserMove =>
      UserMoveStep(L, c, c'.cpu) && c' == c.(cpu := c'.cpu)
    case Fork(child, parent) =>
      ForkStep(L, c, child, parent) && c' == c.(saved := c.saved[child := c.saved[parent]])
    case Deliver(n) =>
      DeliverStep(L, c.cpu, n, c'.cpu) && c' == NoteEntry(c, L, Irq(n), c'.cpu)
    case Call =>
      (UserMode(c.cpu.r) || InBody(c.cpu.r)) && CallStep(L, c.cpu, c'.cpu) && c' == NoteEntry(c, L, Sys, c'.cpu)
    case Instr =>
      c.acts != [] && InstrStep(c.cpu) == Some(c'.cpu) && c' == NoteInstr(c, c'.cpu)
    case HandlerMove =>
      c.acts != [] && HandlerMoveStep(L, c.Top(), c.cpu, c'.cpu) && c'.cpu.ready in c.saved && c' == c.(cpu := c'.cpu)
    case HandlerReturn =>
      c.acts != [] && HandlerReturnStep(c.Top(), c.cpu, c'.cpu)
      && c' == Config(c'.cpu, WithTop(c.acts, c.Top().(result := Some(c.cpu.r.eax))), c.saved)
    case Leave =>
      c.acts != [] && LeaveStep(c.cpu) == Some(c'.cpu) && c' == Config(c'.cpu, c.acts[..|c.acts| - 1], c.saved)
  }

  // ---------------------------------------------------------------------------
  // The invariant

  /** eax, ebx, ecx and edx still are what the caller put there. */
  predicate CallRegs(a: Act, r: Regs) {
    r.eax == a.ctx.eax && r.ebx == a.ctx.ebx && r.ecx == a.ctx.ecx && r.edx == a.ctx.edx
  }

  /** Up to the call of the handler, data segments are the kernel's and interrupts are
      enabled. */
  predicate Prepared(L: Layout, r: Regs) {
    r.ds == L.kernelSs && r.es == L.kernelSs && r.fs == L.kernelSs && r.eflags.intr
  }

  /** What the stack and registers of an activation look like at each point of its
      code.  `r` are its registers: the processor's, or those kept in the frame of
      the activation that interrupted it. */
  ghost predicate At(L: Layout, m: Mem, a: Act, r: Regs) {
    var esi := Read(m, a.sp - 4) == Num(a.base);
    var edx := Read(m, a.sp - 12) == a.ctx.edx;
    var ecx := Read(m, a.sp - 16) == a.ctx.ecx;
    var ebx := Read(m, a.sp - 20) == a.ctx.ebx;
    && r.eip.Code?
    && match r.eip.at
       case IrqPush(n) =>
         Prepared(L, r) && a.kind == Irq(n) && r.esp == a.sp
       case IrqCall(n) =>
         Prepared(L, r) && a.kind == Irq(n) && r.esp == a.sp - 4 && Read(m, r.esp) == Num(n)
       case IrqPop(n) => a.kind == Irq(n) && r.esp == a.sp - 4
       case IrqCli(n) => a.kind == Irq(n) && r.esp == a.sp
       case SysPushEsi =>
         Prepared(L, r) && a.kind.Sys? && r.esp == a.sp && r.esi == Num(a.base) && CallRegs(a, r)
       case SysPushProc =>
         Prepared(L, r) && a.kind.Sys? && r.esp == a.sp - 4 && esi && CallRegs(a, r)
       case SysPushEdx =>
         Prepared(L, r) && a.kind.Sys? && r.esp == a.sp - 8 && esi && CallRegs(a, r)
       case SysPushEcx =>
         Prepared(L, r) && a.kind.Sys? && r.esp == a.sp - 12 && esi && edx && CallRegs(a, r)
       case SysPushEbx =>
         Prepared(L, r) && a.kind.Sys? && r.esp == a.sp - 16 && esi && edx && ecx && CallRegs(a, r)
       case SysCall =>
         Prepared(L, r) && a.kind.Sys? && r.esp == a.sp - 20 && esi && edx && ecx && ebx && CallRegs(a, r)
       case Body(_) =>
         && a.HandlerEsp() - L.budget <= r.esp <= a.HandlerEsp()
         && Read(m, a.HandlerEsp()) == Code(a.ReturnLabel())
         && (a.kind.Sys? ==> esi)
       case SysDrop => a.kind.Sys? && r.esp == a.sp - 20 && esi && a.result == Some(r.eax)
       case SysPopEsi => a.kind.Sys? && r.esp == a.sp - 4 && esi && a.result == Some(r.eax)
       case SysStore => a.kind.Sys? && r.esp == a.sp && r.esi == Num(a.base) && a.result == Some(r.eax)
       case SysCli => a.kind.Sys? && r.esp == a.sp && a.result == Some(a.eax)
       case _ => false
  }

  /** The fixed part of an activation's stack: its frame and its way back. */
  ghost predicate Shape(L: Layout, m: Mem, a: Act, bottom: bool) {
    && L.StackBase() <= a.sp - Bookkeeping(a.kind) - L.budget
    && Read(m, a.sp) == Code(if bottom then Restart else RestartReenter)
    && (a.kind.Irq? ==> a.eax == a.ctx.eax)
    && (if bottom
        then UserMode(a.ctx) && a.base in L.procs && a.sp == L.stackTop - 4
        else a.ctx.cs == KERNEL_CS && a.ctx.ss == L.kernelSs && a.base == a.ctx.esp - ESPREG && a.sp == a.base - 4
             && (a.kind.Sys? ==> InBody(a.ctx))
             && FrameOf(m, a.base, a.Resumed()))
  }

  /** One activation, given the registers it runs with. */
  ghost predicate Level(L: Layout, m: Mem, a: Act, bottom: bool, r: Regs) {
    && r.cs == KERNEL_CS && r.ss == L.kernelSs
    && Shape(L, m, a, bottom)
    && At(L, m, a, r)
  }

  /** The registers activation `i` runs with. */
  function RegsOf(c: Config, i: nat): Regs
    requires i < |c.acts|
  {
    if i + 1 == |c.acts| then c.cpu.r else c.acts[i + 1].ctx
  }

  /** Every process that is not running has its context in its frame. */
  ghost predicate FramesKept(L: Layout, m: Mem, saved: map<int, Regs>, running: set<int>) {
    && saved.Keys <= L.procs
    && forall p | p in saved && p !in running :: UserMode(saved[p]) && FrameOf(m, p, saved[p])
  }

  ghost predicate Inv(L: Layout, c: Config) {
    && L.Valid()
    && c.cpu.reenter == |c.acts| - 1
    && c.cpu.ready in c.saved
    && FramesKept(L, c.cpu.mem, c.saved, if c.acts == [] then {c.cpu.ready} else {})
    && (c.acts == [] ==> UserMode(c.cpu.r) && c.cpu.sp0 == c.cpu.ready + P_STACKTOP)
    && (c.acts != [] ==> c.acts[0].base in c.saved && c.saved[c.acts[0].base] == c.acts[0].Resumed())
    && (forall i: nat {:trigger RegsOf(c, i)} | i < |c.acts| :: Level(L, c.cpu.mem, c.acts[i], i == 0, RegsOf(c, i)))
  }

  // ---------------------------------------------------------------------------
  // Preservation

  /** A level depends only on the stack cells from its stack pointer up. */
  lemma LevelStable(L: Layout, m: Mem, m': Mem, a: Act, bottom: bool, r: Regs)
    requires Level(L, m, a, bottom, r)
    requires Same(m, m', r.esp, if bottom then L.stackTop else a.ctx.esp)
    ensures Level(L, m', a, bottom, r)
  {
  }

  /** Where an activation's stack pointer can be. */
  ghost predicate Bounds(L: Layout, a: Act, bottom: bool, r: Regs) {
    && L.StackBase() <= a.sp - Bookkeeping(a.kind) - L.budget <= r.esp <= a.sp
    && (if bottom then a.sp == L.stackTop - 4 else a.sp == a.ctx.esp - 68)
  }

  lemma LevelBounds(L: Layout, m: Mem, a: Act, bottom: bool, r: Regs)
    requires L.Valid() && Level(L, m, a, bottom, r)
    ensures Bounds(L, a, bottom, r)
  {
  }

  ghost predicate AllBounds(L: Layout, c: Config) {
    forall k: nat {:trigger RegsOf(c, k)} | k < |c.acts| :: Bounds(L, c.acts[k], k == 0, RegsOf(c, k))
  }

  lemma InvBounds(L: Layout, c: Config)
    requires Inv(L, c)
    ensures AllBounds(L, c)
  {
    forall k: nat | k < |c.acts| ensures Bounds(L, c.acts[k], k == 0, RegsOf(c, k)) {
      LevelBounds(L, c.cpu.mem, c.acts[k], k == 0, RegsOf(c, k));
    }
  }

  /** Stack pointers of outer levels lie above those of inner ones. */
  lemma {:induction false} Nested(L: Layout, c: Config, i: nat, j: nat)
    requires L.Valid() && AllBounds(L, c)
    requires i <= j < |c.acts|
    ensures L.StackBase() <= RegsOf(c, j).esp <= RegsOf(c, i).esp <= c.acts[i].sp < L.stackTop
    ensures i < j ==> c.acts[j].sp + 68 <= RegsOf(c, i).esp
    decreases i + j
  {
    assert Bounds(L, c.acts[i], i == 0, RegsOf(c, i));
    assert Bounds(L, c.acts[j], j == 0, RegsOf(c, j));
    if i < j {
      Nested(L, c, i, j - 1);
    } else if 0 < i {
      Nested(L, c, i - 1, i - 1);
    }
  }

  /** Levels survive a change of memory below the innermost of their stack pointers. */
  lemma KeepLevels(L: Layout, c: Config, m': Mem, n: nat)
    requires Inv(L, c) && n <= |c.acts|
    requires 0 < n ==> Same(c.cpu.mem, m', RegsOf(c, n - 1).esp, L.stackTop)
    ensures forall k: nat {:trigger RegsOf(c, k)} | k < n :: Level(L, m', c.acts[k], k == 0, RegsOf(c, k))
  {
    hide Level;
    InvBounds(L, c);
    forall k: nat | k < n ensures Level(L, m', c.acts[k], k == 0, RegsOf(c, k)) {
      Nested(L, c, k, n - 1);
      if 0 < k {
        Nested(L, c, k - 1, k);
      }
      LevelStable(L, c.cpu.mem, m', c.acts[k], k == 0, RegsOf(c, k));
    }
  }

  /** Frames survive a change of memory outside them. */
  lemma KeepFrames(L: Layout, m: Mem, m': Mem, saved: map<int, Regs>, running: set<int>)
    requires FramesKept(L, m, saved, running)
    requires forall p | p in saved && p !in running :: Same(m, m', p, p + P_STACKTOP)
    ensures FramesKept(L, m', saved, running)
  {
    forall p | p in saved && p !in running ensures FrameOf(m', p, saved[p]) {
      FrameStable(m, m', p, saved[p]);
    }
  }

  /** The registers of the levels below the innermost are history. */
  lemma SameRegsBelow(c: Config, c': Config, n: nat)
    requires n < |c.acts| && n < |c'.acts|
    requires c'.acts[..n] == c.acts[..n]
    requires 0 < n ==> RegsOf(c', n - 1) == RegsOf(c, n - 1)
    ensures forall k: nat {:trigger RegsOf(c', k)} | k < n :: RegsOf(c', k) == RegsOf(c, k) && c'.acts[k] == c.acts[k]
  {
    forall k: nat | k < n ensures RegsOf(c', k) == RegsOf(c, k) && c'.acts[k] == c.acts[k] {
      assert c'.acts[k] == c'.acts[..n][k] == c.acts[..n][k];
      if k + 1 < n {
        assert c'.acts[k + 1] == c'.acts[..n][k + 1] == c.acts[..n][k + 1];
      }
    }
  }

  /** A live activation means ring 0. */
  lemma InsideKernel(L: Layout, c: Config)
    requires Inv(L, c)
    ensures c.acts != [] <==> !UserMode(c.cpu.r)
    ensures c.acts != [] ==> c.cpu.r.cs == KERNEL_CS && c.cpu.r.ss == L.kernelSs
    ensures c.acts != [] ==> Level(L, c.cpu.mem, c.Top(), |c.acts| == 1, c.cpu.r)
  {
    if c.acts != [] {
      assert RegsOf(c, |c.acts| - 1) == c.cpu.r;
    }
  }

  lemma BottomLevel(L: Layout, c: Cpu, k: Kind, next: Label, c': Cpu)
    requires L.Valid() && Enter(L, c, next, c') && c.reenter == -1
    requires UserMode(c.r) && c.sp0 == c.ready + P_STACKTOP && c.ready in L.procs
    requires next == if k.Irq? then IrqPush(k.line) else SysPushEsi
    requires k.Sys? ==> c'.r.eax == c.r.eax
    ensures Level(L, c'.mem, NewAct(L, c, k), true, c'.r)
    ensures FrameOf(c'.mem, c.ready, c.r)
    ensures c'.reenter == 0 && c'.ready == c.ready
  {
  }

  lemma BottomMemory(L: Layout, c: Cpu, next: Label, c': Cpu)
    requires L.Valid() && Enter(L, c, next, c') && c.reenter == -1
    requires UserMode(c.r) && c.sp0 == c.ready + P_STACKTOP && c.ready in L.procs
    ensures forall p | p in L.procs && p != c.ready :: Same(c.mem, c'.mem, p, p + P_STACKTOP)
  {
    hide FrameOf;
  }

  lemma EntryFromUser(L: Layout, c: Config, k: Kind, next: Label, c': Config)
    requires Inv(L, c) && UserMode(c.cpu.r)
    requires Enter(L, c.cpu, next, c'.cpu) && c' == NoteEntry(c, L, k, c'.cpu)
    requires next == if k.Irq? then IrqPush(k.line) else SysPushEsi
    requires k.Sys? ==> c'.cpu.r.eax == c.cpu.r.eax
    ensures Inv(L, c')
  {
    hide Level, FrameOf, Same, Enter;
    InsideKernel(L, c);
    BottomLevel(L, c.cpu, k, next, c'.cpu);
    BottomMemory(L, c.cpu, next, c'.cpu);
    KeepFrames(L, c.cpu.mem, c'.cpu.mem, c.saved, {c.cpu.ready});
    assert RegsOf(c', 0) == c'.cpu.r;
  }

  lemma NewLevel(L: Layout, c: Cpu, k: Kind, next: Label, c': Cpu)
    requires Enter(L, c, next, c') && c.reenter != -1
    requires c.r.cs == KERNEL_CS && c.r.ss == L.kernelSs && Room(L, c, k)
    requires next == if k.Irq? then IrqPush(k.line) else SysPushEsi
    requires k.Sys? ==> InBody(c.r) && c'.r.eax == c.r.eax
    ensures Level(L, c'.mem, NewAct(L, c, k), false, c'.r)
  {
  }

  lemma EntryNestedMemory(L: Layout, c: Config, k: Kind, next: Label, c': Cpu)
    requires Inv(L, c) && !UserMode(c.cpu.r) && Room(L, c.cpu, k)
    requires Enter(L, c.cpu, next, c')
    ensures c.acts != []
    ensures L.StackBase() <= c'.r.esp && c.cpu.r.esp <= L.stackTop
    ensures Same(c.cpu.mem, c'.mem, c.cpu.r.esp, L.stackTop)
    ensures forall p | p in L.procs :: Same(c.cpu.mem, c'.mem, p, p + P_STACKTOP)
    ensures c'.reenter == c.cpu.reenter + 1 && c'.ready == c.cpu.ready
  {
    hide Level, FrameOf;
    InsideKernel(L, c);
    InvBounds(L, c);
    Nested(L, c, |c.acts| - 1, |c.acts| - 1);
  }

  lemma EntryNested(L: Layout, c: Config, k: Kind, next: Label, c': Config)
    requires Inv(L, c) && !UserMode(c.cpu.r) && Room(L, c.cpu, k)
    requires Enter(L, c.cpu, next, c'.cpu) && c' == NoteEntry(c, L, k, c'.cpu)
    requires next == if k.Irq? then IrqPush(k.line) else SysPushEsi
    requires k.Sys? ==> InBody(c.cpu.r) && c'.cpu.r.eax == c.cpu.r.eax
    ensures Inv(L, c')
  {
    hide Level, FrameOf, Same, Enter;
    var n := |c.acts|;
    InsideKernel(L, c);
    NewLevel(L, c.cpu, k, next, c'.cpu);
    EntryNestedMemory(L, c, k, next, c'.cpu);
    KeepLevels(L, c, c'.cpu.mem, n);
    KeepFrames(L, c.cpu.mem, c'.cpu.mem, c.saved, {});
    forall i: nat | i < |c'.acts| ensures Level(L, c'.cpu.mem, c'.acts[i], i == 0, RegsOf(c', i)) {
      if i < n {
        assert RegsOf(c', i) == RegsOf(c, i);
      }
    }
  }

  // --- steps inside an activation -------------------------------------------

  /** Memory changed nowhere but on the kernel stack below `hi`. */
  ghost predicate OnlyBelow(L: Layout, m: Mem, m': Mem, hi: int) {
    forall x {:trigger Read(m', x)} | !(L.StackBase() <= x < hi) :: Read(m', x) == Read(m, x)
  }

  /** A step of the innermost activation that stays on its own part of the stack
      keeps the invariant as soon as its own level is kept. */
  lemma InnerStep(L: Layout, c: Config, c': Config)
    requires Inv(L, c) && c.acts != []
    requires |c'.acts| == |c.acts| && c'.acts[..|c.acts| - 1] == c.acts[..|c.acts| - 1] && c'.saved == c.saved
    requires c'.Top().ctx == c.Top().ctx && c'.Top().base == c.Top().base && c'.Top().eax == c.Top().eax
    requires c'.cpu.reenter == c.cpu.reenter && c'.cpu.ready in c.saved
    requires Level(L, c'.cpu.mem, c'.Top(), |c.acts| == 1, c'.cpu.r)
    requires OnlyBelow(L, c.cpu.mem, c'.cpu.mem, c.Top().sp)
    ensures Inv(L, c')
  {
    hide Level, FrameOf;
    var n := |c.acts| - 1;
    InvBounds(L, c);
    Nested(L, c, n, n);
    if 0 < n {
      Nested(L, c, n - 1, n);
      assert c'.acts[0] == c'.acts[..n][0] == c.acts[..n][0];
    }
    KeepLevels(L, c, c'.cpu.mem, n);
    KeepFrames(L, c.cpu.mem, c'.cpu.mem, c.saved, {});
    SameRegsBelow(c, c', n);
    forall i: nat | i < |c'.acts| ensures Level(L, c'.cpu.mem, c'.acts[i], i == 0, RegsOf(c', i)) {
      if i < n {
        assert RegsOf(c', i) == RegsOf(c, i);
      }
    }
  }

  lemma ShapeStable(L: Layout, m: Mem, m': Mem, a: Act, bottom: bool)
    requires Shape(L, m, a, bottom)
    requires Same(m, m', a.sp, if bottom then L.stackTop else a.ctx.esp)
    ensures Shape(L, m', a, bottom)
  {
  }

  lemma PushAt(L: Layout, c: Cpu, a: Act, c': Cpu)
    requires 0 <= L.budget && At(L, c.mem, a, c.r) && InstrStep(c) == Some(c')
    requires c.r.eip.at in {SysPushEsi, SysPushProc, SysPushEdx, SysPushEcx, SysPushEbx, SysCall}
             || c.r.eip.at.IrqPush? || c.r.eip.at.IrqCall?
    ensures At(L, c'.mem, a, c'.r)
    ensures a.sp - Bookkeeping(a.kind) <= c.r.esp - 4 < a.sp
    ensures forall x {:trigger Read(c'.mem, x)} | x != c.r.esp - 4 :: Read(c'.mem, x) == Read(c.mem, x)
  {
  }

  lemma PopAt(L: Layout, c: Cpu, a: Act, c': Cpu)
    requires At(L, c.mem, a, c.r) && InstrStep(c) == Some(c')
    requires c.r.eip.at in {SysDrop, SysPopEsi} || c.r.eip.at.IrqPop?
    ensures At(L, c'.mem, a, c'.r)
    ensures c'.mem == c.mem
  {
  }

  lemma InstrLevel(L: Layout, c: Cpu, a: Act, bottom: bool, c': Cpu)
    requires L.Valid() && Level(L, c.mem, a, bottom, c.r)
    requires InstrStep(c) == Some(c') && c.r.eip != Code(SysStore)
    ensures Level(L, c'.mem, a, bottom, c'.r)
    ensures OnlyBelow(L, c.mem, c'.mem, a.sp)
    ensures c'.reenter == c.reenter && c'.ready == c.ready && c'.sp0 == c.sp0 && c'.masks == c.masks
  {
    hide At, FrameOf;
    if c.r.eip.at in {SysDrop, SysPopEsi} || c.r.eip.at.IrqPop? {
      PopAt(L, c, a, c');
    } else {
      PushAt(L, c, a, c');
      ShapeStable(L, c.mem, c'.mem, a, bottom);
    }
  }

  lemma StoreLevel(L: Layout, c: Cpu, a: Act, bottom: bool, c': Cpu)
    requires L.Valid() && Level(L, c.mem, a, bottom, c.r)
    requires InstrStep(c) == Some(c') && c.r.eip == Code(SysStore)
    ensures Level(L, c'.mem, a.(eax := c.r.eax), bottom, c'.r)
    ensures a.result == Some(c.r.eax)
    ensures forall x {:trigger Read(c'.mem, x)} :: Read(c'.mem, x) == if x
            == a.base + EAXREG then c.r.eax else Read(c.mem, x)
    ensures c'.reenter == c.reenter && c'.ready == c.ready && c'.sp0 == c.sp0 && c'.masks == c.masks
  {
  }

  lemma HandlerMoveLevel(L: Layout, c: Cpu, a: Act, bottom: bool, c': Cpu)
    requires L.Valid() && Level(L, c.mem, a, bottom, c.r) && HandlerMoveStep(L, a, c, c')
    ensures Level(L, c'.mem, a, bottom, c'.r)
    ensures OnlyBelow(L, c.mem, c'.mem, a.sp)
  {
  }

  lemma HandlerReturnLevel(L: Layout, c: Cpu, a: Act, bottom: bool, c': Cpu)
    requires L.Valid() && Level(L, c.mem, a, bottom, c.r) && HandlerReturnStep(a, c, c')
    ensures Level(L, c'.mem, a.(result := Some(c.r.eax)), bottom, c'.r)
  {
  }

  /** The return value goes to the frame of the activation that made the call: to
      its own process when the call came from a process. */
  lemma StoreKeepsInv(L: Layout, c: Config, c': Config)
    requires Inv(L, c) && c.acts != [] && c.cpu.r.eip == Code(SysStore)
    requires InstrStep(c.cpu) == Some(c'.cpu) && c' == NoteInstr(c, c'.cpu)
    ensures Inv(L, c')
  {
    hide Level, FrameOf;
    var n := |c.acts| - 1;
    var a := c.Top();
    var m, m' := c.cpu.mem, c'.cpu.mem;
    InsideKernel(L, c);
    StoreLevel(L, c.cpu, a, n == 0, c'.cpu);
    ShapeBase(L, m, a, n == 0, c.cpu.r);
    InvBounds(L, c);
    Nested(L, c, n, n);
    if n == 0 {
      StoreFrames(L, m, m', c.saved, a.base, c.cpu.r.eax);
    } else {
      Nested(L, c, n - 1, n);
      KeepFrames(L, m, m', c.saved, {});
      assert c'.acts[0] == c.acts[0];
    }
    KeepLevels(L, c, m', n);
    SameRegsBelow(c, c', n);
    forall i: nat | i < |c'.acts| ensures Level(L, m', c'.acts[i], i == 0, RegsOf(c', i)) {
      if i < n {
        assert RegsOf(c', i) == RegsOf(c, i);
      }
    }
  }

  lemma ShapeBase(L: Layout, m: Mem, a: Act, bottom: bool, r: Regs)
    requires Level(L, m, a, bottom, r)
    ensures if bottom then a.base in L.procs else a.base == a.ctx.esp - ESPREG && a.base == a.sp + 4
  {
  }

  lemma StoreFrames(L: Layout, m: Mem, m': Mem, saved: map<int, Regs>, p: int, v: Word)
    requires L.Valid() && FramesKept(L, m, saved, {}) && p in saved
    requires forall x {:trigger Read(m', x)} :: Read(m', x) == if x == p + EAXREG then v else Read(m, x)
    ensures FramesKept(L, m', saved[p := saved[p].(eax := v)], {})
  {
    forall q | q in saved && q != p ensures FrameOf(m', q, saved[q]) {
      FrameStable(m, m', q, saved[q]);
    }
    assert FrameOf(m, p, saved[p]);
  }

  /** Leaving loads the context that was interrupted, or the one kept for the
      process chosen to run next. */
  lemma LeaveLoads(L: Layout, c: Config, c': Cpu)
    requires Inv(L, c) && c.acts != [] && LeaveStep(c.cpu) == Some(c')
    ensures |c.acts| == 1 ==>
              c.cpu.ready in c.saved && c'.r == c.saved[c.cpu.ready] && c'.sp0 == c.cpu.ready + P_STACKTOP
    ensures |c.acts| > 1 ==> c'.r == c.Top().Resumed() && c'.sp0 == c.cpu.sp0
    ensures c'.mem == c.cpu.mem && c'.reenter == c.cpu.reenter - 1 && c'.ready == c.cpu.ready
  {
    hide FrameOf, Level, LoadFrame;
    InsideKernel(L, c);
    var a := c.Top();
    LeaveWord(L, c.cpu, a, |c.acts| == 1, c');
    if |c.acts| == 1 {
      FrameRoundTrip(c.cpu.mem, c.cpu.ready, c.saved[c.cpu.ready], c.cpu.r.ss);
    } else {
      FrameRoundTrip(c.cpu.mem, a.base, a.Resumed(), c.cpu.r.ss);
    }
  }

  /** At a cli the stack pointer is back at the word that `save` pushed. */
  lemma LeaveWord(L: Layout, c: Cpu, a: Act, bottom: bool, c': Cpu)
    requires Level(L, c.mem, a, bottom, c.r) && LeaveStep(c) == Some(c')
    ensures Read(c.mem, c.r.esp) == Code(if bottom then Restart else RestartReenter)
    ensures c.r.ss == L.kernelSs
    ensures !bottom ==> a.base == c.r.esp + 4 && a.ctx.esp == a.base + ESPREG && FrameOf(c.mem, a.base, a.Resumed())
                        && a.ctx.ss == L.kernelSs && !UserMode(a.ctx)
  {
    hide FrameOf, LoadFrame;
  }

  /** Only a handler's own registers depend on eax inside its body. */
  lemma BodyEax(L: Layout, m: Mem, a: Act, bottom: bool, r: Regs, v: Word)
    requires Level(L, m, a, bottom, r) && InBody(r)
    ensures Level(L, m, a, bottom, r.(eax := v))
  {
  }

  lemma LeaveKeepsInv(L: Layout, c: Config, c': Config)
    requires Inv(L, c) && c.acts != [] && LeaveStep(c.cpu) == Some(c'.cpu)
    requires c' == Config(c'.cpu, c.acts[..|c.acts| - 1], c.saved)
    ensures Inv(L, c')
  {
    hide Level, FrameOf, LeaveStep;
    LeaveLoads(L, c, c'.cpu);
    var n := |c'.acts|;
    if 0 < n {
      var a := c.Top();
      assert RegsOf(c, n) == c.cpu.r && RegsOf(c, n - 1) == a.ctx;
      if a.kind.Sys? {
        SysFromBody(L, c.cpu.mem, a, c.cpu.r);
        BodyEax(L, c.cpu.mem, c.acts[n - 1], n == 1, a.ctx, a.eax);
      } else {
        IrqKeepsEax(L, c.cpu.mem, a, c.cpu.r);
      }
      forall i: nat | i < n ensures Level(L, c'.cpu.mem, c'.acts[i], i == 0, RegsOf(c', i)) {
        if i < n - 1 {
          assert RegsOf(c', i) == RegsOf(c, i);
        }
      }
    }
  }

  lemma SysFromBody(L: Layout, m: Mem, a: Act, r: Regs)
    requires Level(L, m, a, false, r) && a.kind.Sys?
    ensures InBody(a.ctx)
  {
  }

  lemma IrqKeepsEax(L: Layout, m: Mem, a: Act, r: Regs)
    requires Level(L, m, a, false, r) && a.kind.Irq?
    ensures a.Resumed() == a.ctx
  {
  }

  /** Free slots are no part of any kept frame. */
  lemma UserMoveKeepsInv(L: Layout, c: Config, c': Config)
    requires Inv(L, c) && Step(L, c, UserMove, c')
    ensures Inv(L, c')
  {
    hide Level, FrameOf;
    InsideKernel(L, c);
    KeepFrames(L, c.cpu.mem, c'.cpu.mem, c.saved, {c.cpu.ready});
  }

  /** A copy of a frame pictures the same context. */
  lemma FrameCopy(m: Mem, p: int, q: int, r: Regs)
    requires FrameOf(m, p, r) && FrameCopied(m, p, q)
    ensures FrameOf(m, q, r)
  {
    assert Cell(m, q, GSREG) == r.gs && Cell(m, q, FSREG) == r.fs && Cell(m, q, ESREG) == r.es
        && Cell(m, q, DSREG) == r.ds;
    assert Cell(m, q, EDIREG) == r.edi && Cell(m, q, ESIREG) == r.esi && Cell(m, q, EBPREG) == r.ebp;
    assert Cell(m, q, EBXREG) == r.ebx && Cell(m, q, EDXREG) == r.edx && Cell(m, q, ECXREG) == r.ecx;
    assert Cell(m, q, EAXREG) == r.eax && Cell(m, q, EIPREG) == r.eip && Cell(m, q, CSREG) == Num(r.cs);
    assert Cell(m, q, EFLAGSREG) == Image(r.eflags);
    assert UserMode(r) ==> Cell(m, q, ESPREG) == Num(r.esp) && Cell(m, q, SSREG) == r.ss;
  }

  lemma ForkKeepsInv(L: Layout, c: Config, child: int, parent: int, c': Config)
    requires Inv(L, c) && Step(L, c, Fork(child, parent), c')
    ensures Inv(L, c')
  {
    hide Level, FrameOf;
    InsideKernel(L, c);
    FrameCopy(c.cpu.mem, parent, child, c.saved[parent]);
  }

  /** Every step keeps the invariant, given room on the stack for entries. */
  lemma StepKeepsInv(L: Layout, c: Config, e: Event, c': Config)
    requires Inv(L, c) && Step(L, c, e, c')
    requires Enters(e) ==> Room(L, c.cpu, KindOf(e))
    ensures Inv(L, c')
  {
    hide Level, FrameOf, Enter, InstrStep, LeaveStep, HandlerMoveStep, HandlerReturnStep;
    InsideKernel(L, c);
    match e
    case UserMove => UserMoveKeepsInv(L, c, c');
    case Fork(child, parent) => ForkKeepsInv(L, c, child, parent, c');
    case Deliver(n) =>
      if UserMode(c.cpu.r) {
        EntryFromUser(L, c, Irq(n), IrqPush(n), c');
      } else {
        EntryNested(L, c, Irq(n), IrqPush(n), c');
      }
    case Call =>
      if UserMode(c.cpu.r) {
        EntryFromUser(L, c, Sys, SysPushEsi, c');
      } else {
        EntryNested(L, c, Sys, SysPushEsi, c');
      }
    case Instr =>
      if c.cpu.r.eip == Code(SysStore) {
        StoreKeepsInv(L, c, c');
      } else {
        InstrLevel(L, c.cpu, c.Top(), |c.acts| == 1, c'.cpu);
        InnerStep(L, c, c');
      }
    case HandlerMove =>
      HandlerMoveLevel(L, c.cpu, c.Top(), |c.acts| == 1, c'.cpu);
      HandlerMoveFacts(L, c.cpu, c.Top(), c'.cpu);
      InnerStep(L, c, c');
    case HandlerReturn =>
      HandlerReturnLevel(L, c.cpu, c.Top(), |c.acts| == 1, c'.cpu);
      HandlerReturnFacts(c.Top(), c.cpu, c'.cpu);
      InnerStep(L, c, c');
    case Leave =>
      LeaveKeepsInv(L, c, c');
  }

  lemma HandlerMoveFacts(L: Layout, c: Cpu, a: Act, c': Cpu)
    requires HandlerMoveStep(L, a, c, c')
    ensures c'.reenter == c.reenter
  {
  }

  lemma HandlerReturnFacts(a: Act, c: Cpu, c': Cpu)
    requires HandlerReturnStep(a, c, c')
    ensures c'.reenter == c.reenter && c'.ready == c.ready && c'.mem == c.mem
  {
  }
}
