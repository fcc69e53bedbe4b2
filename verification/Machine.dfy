/** The processor state that the kernel's entry and exit code works on.

    Stack cells are 32-bit words.  A word is either a number or the address of
    an instruction of the kernel; instruction addresses are kept symbolic because
    the assembler chooses them, and all that matters is that they are distinct. */
module Machine {
  import opened Pic

  /** The instructions of kernel.asm at which the processor can stand between two
      steps.  The names say which instruction comes next. */
  datatype Label =
    | Restart
    | RestartReenter
    | IrqMask(line: Line)     // return address of `call save` in a hardware stub
    | IrqPush(line: Line)     // push the line number
    | IrqCall(line: Line)     // call the handler
    | IrqPop(line: Line)      // pop ecx
    | IrqCli(line: Line)      // cli, unmask, ret
    | SysSti                  // return address of `call save` in sys_call
    | SysPushEsi
    | SysPushProc
    | SysPushEdx
    | SysPushEcx
    | SysPushEbx
    | SysCall
    | SysDrop                 // add esp, 4 * 4
    | SysPopEsi
    | SysStore                // mov [esi + EAXREG - P_STACKBASE], eax
    | SysCli                  // cli, ret
    | Body(pos: int)          // somewhere inside a C handler

  /** The flags register: the interrupt flag and everything else. */
  datatype Flags = Flags(intr: bool, other: int)

  datatype Word = Num(n: int) | Code(at: Label) | Image(flags: Flags)

  /** A word used as a number: as an address or a selector. */
  function Val(w: Word): int {
    if w.Num? then w.n else 0
  }

  /** A word popped into the flags register. */
  function FlagsIn(w: Word): Flags {
    if w.Image? then w.flags else Flags(false, 0)
  }

  datatype Regs = Regs(
    gs: Word, fs: Word, es: Word, ds: Word,
    edi: Word, esi: Word, ebp: Word, ebx: Word, edx: Word, ecx: Word, eax: Word,
    eip: Word, cs: int, eflags: Flags, esp: int, ss: Word)

  type Mem = map<int, Word>

  function Read(m: Mem, a: int): Word {
    if a in m then m[a] else Num(0)
  }

  datatype Cpu = Cpu(
    r: Regs,
    mem: Mem,
    reenter: int,       // k_reenter
    ready: int,         // p_proc_ready
    sp0: int,           // tss.esp0
    masks: Masks)

  // Offsets of the saved frame, include/sys/sconst.inc.
  const GSREG := 0
  const FSREG := 4
  const ESREG := 8
  const DSREG := 12
  const EDIREG := 16
  const ESIREG := 20
  const EBPREG := 24
  const KERNELESPREG := 28
  const EBXREG := 32
  const EDXREG := 36
  const ECXREG := 40
  const EAXREG := 44
  const RETADR := 48
  const EIPREG := 52
  const CSREG := 56
  const EFLAGSREG := 60
  const ESPREG := 64
  const SSREG := 68
  const P_STACKTOP := 72

  const KERNEL_CS := 8
  const STACK_BYTES := 2048

  /** Where the kernel's data lies.  `procs` holds the addresses of the process
      table's entries, each of which starts with a saved frame; `budget` bounds how
      many bytes a C handler uses below its own return address. */
  datatype Layout = Layout(stackTop: int, procs: set<int>, kernelSs: Word, budget: int) {
    function StackBase(): int { stackTop - STACK_BYTES }

    ghost predicate Valid() {
      && 0 <= budget <= STACK_BYTES - 28
      && (forall p <- procs :: p + P_STACKTOP <= StackBase() || stackTop <= p)
      && (forall p, q | p in procs && q in procs && p != q :: p + P_STACKTOP <= q || q + P_STACKTOP <= p)
    }

    /** Does a stack pointer lie inside a saved process frame? */
    ghost predicate InFrame(a: int) {
      exists p <- procs :: p <= a < p + P_STACKTOP
    }
  }

  /** A context whose code segment has a requested privilege level other than 0. */
  predicate UserMode(r: Regs) { r.cs % 4 != 0 }

  /** The registers that `restart_reenter` up to `iretd` loads from the frame at
      `b`.  A return to ring 0 pops no esp and no ss. */
  function LoadFrame(m: Mem, b: int, ss: Word): Regs {
    var cs := Val(Read(m, b + CSREG));
    var outer := cs % 4 != 0;
    Regs(Read(m, b + GSREG), Read(m, b + FSREG), Read(m, b + ESREG), Read(m, b + DSREG),
         Read(m, b + EDIREG), Read(m, b + ESIREG), Read(m, b + EBPREG), Read(m, b + EBXREG),
         Read(m, b + EDXREG), Read(m, b + ECXREG), Read(m, b + EAXREG),
         Read(m, b + EIPREG), cs, FlagsIn(Read(m, b + EFLAGSREG)),
         if outer then Val(Read(m, b + ESPREG)) else b + ESPREG,
         if outer then Read(m, b + SSREG) else ss)
  }

  /** The frame at `b` is a picture of the context `r`. */
  ghost predicate FrameOf(m: Mem, b: int, r: Regs) {
    && Read(m, b + GSREG) == r.gs && Read(m, b + FSREG) == r.fs
    && Read(m, b + ESREG) == r.es && Read(m, b + DSREG) == r.ds
    && Read(m, b + EDIREG) == r.edi && Read(m, b + ESIREG) == r.esi
    && Read(m, b + EBPREG) == r.ebp && Read(m, b + EBXREG) == r.ebx
    && Read(m, b + EDXREG) == r.edx && Read(m, b + ECXREG) == r.ecx
    && Read(m, b + EAXREG) == r.eax && Read(m, b + EIPREG) == r.eip
    && Read(m, b + CSREG) == Num(r.cs) && Read(m, b + EFLAGSREG) == Image(r.eflags)
    && (UserMode(r) ==> Read(m, b + ESPREG) == Num(r.esp) && Read(m, b + SSREG) == r.ss)
  }

  /** Loading a frame gives back the context it pictures. */
  lemma FrameRoundTrip(m: Mem, b: int, r: Regs, ss: Word)
    requires FrameOf(m, b, r)
    requires !UserMode(r) ==> r.esp == b + ESPREG && r.ss == ss
    ensures LoadFrame(m, b, ss) == r
  {
  }

  /** Memory is the same at every address in a range. */
  ghost predicate Same(m: Mem, m': Mem, lo: int, hi: int) {
    forall a {:trigger Read(m', a)} | lo <= a < hi :: Read(m', a) == Read(m, a)
  }

  /** A frame depends on its own cells only: 64 bytes, or 72 for a user context. */
  lemma FrameStable(m: Mem, m': Mem, b: int, r: Regs)
    requires FrameOf(m, b, r)
    requires Same(m, m', b, b + if UserMode(r) then P_STACKTOP else ESPREG)
    ensures FrameOf(m', b, r)
  {
  }
}
