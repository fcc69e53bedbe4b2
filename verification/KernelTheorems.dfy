/** What holds in every run of interleaved and nested interrupts and system calls. */
module KernelTheorems {
  import opened Options
  import opened Machine
  import opened KernelRuns

  /** The end of kernel_main: k_reenter is 0, every process has its first context
      in its frame, other entries of the process table are free slots, and `restart`
      starts the process p_proc_ready points to. */
  ghost predicate Boots(L: Layout, b: Cpu, c: Config) {
    && L.Valid()
    && b.reenter == 0 && b.ready in c.saved
    && FramesKept(L, b.mem, c.saved, {})
    && c.cpu == Restarted(b, b.masks) && c.acts == []
  }

  /** A run: configurations `cs` joined by events `es`. */
  ghost predicate Run(L: Layout, b: Cpu, cs: seq<Config>, es: seq<Event>) {
    && |cs| == |es| + 1
    && Boots(L, b, cs[0])
    && forall i: nat {:trigger es[i]} | i < |es| :: Step(L, cs[i], es[i], cs[i + 1])
  }

  /** No entry of the run finds the kernel stack too full. */
  ghost predicate Roomy(L: Layout, cs: seq<Config>, es: seq<Event>)
    requires |cs| == |es| + 1
  {
    forall i: nat {:trigger es[i]} | i < |es| && Enters(es[i]) :: Room(L, cs[i].cpu, KindOf(es[i]))
  }

  lemma BootInv(L: Layout, b: Cpu, c: Config)
    requires Boots(L, b, c)
    ensures Inv(L, c)
  {
    FrameRoundTrip(b.mem, b.ready, c.saved[b.ready], b.r.ss);
  }

  /** The invariant holds throughout every run that never fills the stack. */
  lemma {:induction false} RunInv(L: Layout, b: Cpu, cs: seq<Config>, es: seq<Event>, k: nat)
    requires Run(L, b, cs, es) && Roomy(L, cs, es) && k < |cs|
    ensures Inv(L, cs[k])
  {
    hide Inv, Step, Boots, Room;
    if k == 0 {
      BootInv(L, b, cs[0]);
    } else {
      RunInv(L, b, cs, es, k - 1);
      assert es[k - 1] == es[k - 1];
      StepKeepsInv(L, cs[k - 1], es[k - 1], cs[k]);
    }
  }

  /** k_reenter counts the live activations, and the kernel is never lost: inside an
      activation the processor stands in a handler whose return address is its own
      stub, or at an instruction of a stub, or at a cli with a good way back. */
  lemma ReenterCountsActivations(L: Layout, b: Cpu, cs: seq<Config>, es: seq<Event>, k: nat)
    requires Run(L, b, cs, es) && Roomy(L, cs, es) && k < |cs|
    ensures cs[k].cpu.reenter == |cs[k].acts| - 1
    ensures cs[k].cpu.reenter == -1 <==> UserMode(cs[k].cpu.r)
    ensures cs[k].acts != [] ==>
              var c := cs[k].cpu;
              || (InBody(c.r) && Read(c.mem, cs[k].Top().HandlerEsp()) == Code(cs[k].Top().ReturnLabel()))
              || InstrStep(c).Some?
              || LeaveStep(c).Some?
    ensures cs[k].acts != [] ==> !L.InFrame(cs[k].cpu.r.esp)
  {
    RunInv(L, b, cs, es, k);
    InsideKernel(L, cs[k]);
    if cs[k].acts != [] {
      NeverLost(L, cs[k].cpu, cs[k].Top(), |cs[k].acts| == 1);
      OutsideFrames(L, cs[k]);
    }
  }

  lemma NeverLost(L: Layout, c: Cpu, a: Act, bottom: bool)
    requires Level(L, c.mem, a, bottom, c.r)
    ensures || (InBody(c.r) && Read(c.mem, a.HandlerEsp()) == Code(a.ReturnLabel()))
            || InstrStep(c).Some?
            || LeaveStep(c).Some?
  {
    hide FrameOf, LoadFrame;
  }

  lemma OutsideFrames(L: Layout, c: Config)
    requires Inv(L, c) && c.acts != []
    ensures L.StackBase() <= c.cpu.r.esp < L.stackTop
    ensures !L.InFrame(c.cpu.r.esp)
  {
    hide Level, FrameOf;
    InvBounds(L, c);
    Nested(L, c, |c.acts| - 1, |c.acts| - 1);
  }

  /** An entry restarts the stack at StackTop exactly when no activation is live;
      otherwise everything the interrupted activations have on the stack stays. */
  lemma EntryProtectsOuterStacks(L: Layout, b: Cpu, cs: seq<Config>, es: seq<Event>, i: nat)
    requires Run(L, b, cs, es) && Roomy(L, cs, es) && i < |es| && Enters(es[i])
    ensures cs[i + 1].cpu.r.esp == L.stackTop - 4 <==> cs[i].acts == []
    ensures cs[i].acts != [] ==> Same(cs[i].cpu.mem, cs[i + 1].cpu.mem, cs[i].cpu.r.esp, L.stackTop)
    ensures forall p | p in L.procs && (cs[i].acts == [] ==> p != cs[i].cpu.ready) ::
              Same(cs[i].cpu.mem, cs[i + 1].cpu.mem, p, p + P_STACKTOP)
  {
    hide Level, FrameOf;
    RunInv(L, b, cs, es, i);
    var c, c' := cs[i], cs[i + 1];
    InsideKernel(L, c);
    var next := if es[i].Deliver? then IrqPush(es[i].line) else SysPushEsi;
    assert Enter(L, c.cpu, next, c'.cpu);
    if c.acts == [] {
      BottomMemory(L, c.cpu, next, c'.cpu);
    } else {
      EntryNestedMemory(L, c, KindOf(es[i]), next, c'.cpu);
    }
  }

  // ---------------------------------------------------------------------------
  // One activation from its entry on

  predicate SameAct(a: Act, a': Act) {
    a'.kind == a.kind && a'.ctx == a.ctx && a'.base == a.base && a'.sp == a.sp
  }

  /** The activation entered at step `i` is live until time `j`. */
  ghost predicate LiveSince(cs: seq<Config>, i: nat, j: nat)
    requires i < |cs| && j < |cs|
  {
    forall k: nat {:trigger cs[k]} | i < k <= j :: |cs[k].acts| > |cs[i].acts|
  }

  /** Before time `t` the handler of the activation entered at step `i` returned `v`. */
  ghost predicate Returned(cs: seq<Config>, es: seq<Event>, i: nat, t: nat, v: Word)
    requires i < t <= |es| < |cs|
  {
    exists k: nat :: i < k < t && es[k].HandlerReturn? && LiveSince(cs, i, k)
                     && |cs[k].acts| == |cs[i].acts| + 1 && cs[k].cpu.r.eax == v
  }

  lemma ReturnedLater(cs: seq<Config>, es: seq<Event>, i: nat, s: nat, t: nat, v: Word)
    requires i < s <= t <= |es| < |cs| && Returned(cs, es, i, s, v)
    ensures Returned(cs, es, i, t, v)
  {
  }

  /** A step keeps the identity of every activation that stays live, and only the
      return of its own handler gives it a result. */
  lemma StepKeepsAct(L: Layout, c: Config, e: Event, c': Config, d: nat)
    requires Step(L, c, e, c') && d < |c.acts| && d < |c'.acts|
    ensures SameAct(c.acts[d], c'.acts[d])
    ensures || c'.acts[d].result == c.acts[d].result
            || (e.HandlerReturn? && d + 1 == |c.acts| && c'.acts[d].result == Some(c.cpu.r.eax))
  {
    hide Enter, InstrStep, LeaveStep, HandlerMoveStep, HandlerReturnStep;
  }

  lemma {:induction false} ActKept(L: Layout, b: Cpu, cs: seq<Config>, es: seq<Event>, i: nat, j: nat)
    requires Run(L, b, cs, es) && i < j < |cs| && Enters(es[i]) && LiveSince(cs, i, j)
    ensures |cs[i].acts| < |cs[j].acts|
    ensures var a := cs[j].acts[|cs[i].acts|];
            && SameAct(NewAct(L, cs[i].cpu, KindOf(es[i])), a)
            && (a.result.Some? ==> Returned(cs, es, i, j, a.result.value))
  {
    hide Enter, Boots;
    assert Step(L, cs[j - 1], es[j - 1], cs[j]);
    if i + 1 < j {
      var d := |cs[i].acts|;
      ActKept(L, b, cs, es, i, j - 1);
      StepKeepsAct(L, cs[j - 1], es[j - 1], cs[j], d);
      var before, now := cs[j - 1].acts[d].result, cs[j].acts[d].result;
      if now.Some? && now == before {
        ReturnedLater(cs, es, i, j - 1, j, now.value);
      }
    }
  }

  /** Where the activation entered at step `i` keeps its frame: in the process table,
      or below the interrupted stack pointer. */
  lemma EntryBase(L: Layout, c: Config, k: Kind)
    requires Inv(L, c)
    ensures NewAct(L, c.cpu, k).base == if c.acts == [] then c.cpu.ready else c.cpu.r.esp - ESPREG
    ensures NewAct(L, c.cpu, k).ctx == c.cpu.r && NewAct(L, c.cpu, k).kind == k
  {
    InsideKernel(L, c);
  }

  // ---------------------------------------------------------------------------
  // Returns to an interrupted kernel context

  /** What a step does to the stack above an outer activation: nothing. */
  lemma StepKeepsOuter(L: Layout, c: Config, e: Event, c': Config, d: nat)
    requires Inv(L, c) && Step(L, c, e, c') && (Enters(e) ==> Room(L, c.cpu, KindOf(e)))
    requires 0 < d < |c.acts|
    ensures Same(c.cpu.mem, c'.cpu.mem, c.acts[d].ctx.esp, L.stackTop)
  {
    hide Level, FrameOf, Enter, InstrStep, LeaveStep, HandlerMoveStep, HandlerReturnStep;
    InsideKernel(L, c);
    InvBounds(L, c);
    var n := |c.acts| - 1;
    assert RegsOf(c, d - 1) == c.acts[d].ctx && RegsOf(c, n) == c.cpu.r;
    Nested(L, c, d - 1, n);
    match e
    case UserMove => assert false;
    case Fork(_, _) => assert false;
    case Deliver(l) => EntryNestedMemory(L, c, Irq(l), IrqPush(l), c'.cpu);
    case Call => EntryNestedMemory(L, c, Sys, SysPushEsi, c'.cpu);
    case Instr =>
      if c.cpu.r.eip == Code(SysStore) {
        StoreLevel(L, c.cpu, c.Top(), n == 0, c'.cpu);
        ShapeBase(L, c.cpu.mem, c.Top(), n == 0, c.cpu.r);
      } else {
        InstrLevel(L, c.cpu, c.Top(), n == 0, c'.cpu);
      }
    case HandlerMove => HandlerMoveLevel(L, c.cpu, c.Top(), n == 0, c'.cpu);
    case HandlerReturn => HandlerReturnFacts(c.Top(), c.cpu, c'.cpu);
    case Leave => LeaveLoads(L, c, c'.cpu);
  }

  /** While a nested activation is live, the stack above the context it interrupted
      stays as it was. */
  lemma {:induction false} OuterKept(L: Layout, b: Cpu, cs: seq<Config>, es: seq<Event>, i: nat, j: nat)
    requires Run(L, b, cs, es) && Roomy(L, cs, es) && i < j < |cs|
    requires Enters(es[i]) && cs[i].acts != [] && LiveSince(cs, i, j)
    ensures Same(cs[i].cpu.mem, cs[j].cpu.mem, cs[i].cpu.r.esp, L.stackTop)
    decreases j
  {
    hide Level, FrameOf, Inv, Enter, Room, Step;
    assert es[j - 1] == es[j - 1];
    if j == i + 1 {
      EntryProtectsOuterStacks(L, b, cs, es, i);
    } else {
      OuterKept(L, b, cs, es, i, j - 1);
      ActKept(L, b, cs, es, i, j - 1);
      RunInv(L, b, cs, es, j - 1);
      StepKeepsOuter(L, cs[j - 1], es[j - 1], cs[j], |cs[i].acts|);
    }
  }

  /** At its cli an activation has the right eax in its frame. */
  lemma LeaveEax(L: Layout, c: Cpu, a: Act, bottom: bool, c': Cpu)
    requires Level(L, c.mem, a, bottom, c.r) && LeaveStep(c) == Some(c')
    ensures a.kind.Irq? ==> a.eax == a.ctx.eax
    ensures a.kind.Sys? ==> a.result == Some(a.eax)
  {
    hide FrameOf, LoadFrame;
  }

  /** The return that matches a nested entry restores the interrupted context: all
      registers, the stack pointer and the flags, and the whole stack from there up.
      Only eax differs, and only after `int 0x90`: it is what the handler of that call
      returned. */
  lemma NestedReturnRestores(L: Layout, b: Cpu, cs: seq<Config>, es: seq<Event>, i: nat, j: nat)
    requires Run(L, b, cs, es) && Roomy(L, cs, es) && i < j < |es|
    requires Enters(es[i]) && es[j].Leave? && cs[i].acts != []
    requires LiveSince(cs, i, j) && |cs[j].acts| == |cs[i].acts| + 1
    ensures es[i].Deliver? ==> cs[j + 1].cpu.r == cs[i].cpu.r
    ensures es[i].Call? ==> cs[j + 1].cpu.r == cs[i].cpu.r.(eax := cs[j + 1].cpu.r.eax)
                            && Returned(cs, es, i, j, cs[j + 1].cpu.r.eax)
    ensures Same(cs[i].cpu.mem, cs[j + 1].cpu.mem, cs[i].cpu.r.esp, L.stackTop)
    ensures cs[j + 1].cpu.reenter == cs[i].cpu.reenter
  {
    hide Level, FrameOf, Enter, LeaveStep, Returned, LiveSince, Boots;
    RunInv(L, b, cs, es, i);
    RunInv(L, b, cs, es, j);
    OuterKept(L, b, cs, es, i, j);
    ActKept(L, b, cs, es, i, j);
    assert Step(L, cs[j], es[j], cs[j + 1]);
    LeaveLoads(L, cs[j], cs[j + 1].cpu);
    InsideKernel(L, cs[j]);
    LeaveEax(L, cs[j].cpu, cs[j].Top(), false, cs[j + 1].cpu);
  }

  // ---------------------------------------------------------------------------
  // Resuming a process

  /** Does step `k` resume process `p`? */
  ghost predicate Resumes(cs: seq<Config>, es: seq<Event>, k: nat, p: int)
    requires k < |es| < |cs|
  {
    es[k].Leave? && |cs[k].acts| == 1 && cs[k].cpu.ready == p
  }

  /** Process `p` is neither running nor the one that the live activations came from. */
  predicate Away(c: Config, p: int) {
    p in c.saved && if c.acts == [] then c.cpu.ready != p else c.acts[0].base != p
  }

  /** The context of a process that is away stays as it is until it is resumed. */
  lemma StayAway(L: Layout, b: Cpu, cs: seq<Config>, es: seq<Event>, t: nat, p: int)
    requires Run(L, b, cs, es) && Roomy(L, cs, es) && t < |es|
    requires Away(cs[t], p) && !Resumes(cs, es, t, p)
    ensures Away(cs[t + 1], p) && cs[t + 1].saved[p] == cs[t].saved[p]
  {
    hide Level, FrameOf, Enter, InstrStep, LeaveStep, HandlerMoveStep, HandlerReturnStep, Boots;
    RunInv(L, b, cs, es, t);
    InsideKernel(L, cs[t]);
    assert Step(L, cs[t], es[t], cs[t + 1]);
    if es[t].Leave? {
      LeaveLoads(L, cs[t], cs[t + 1].cpu);
    }
  }

  /** `r` is the context a process was stopped with at step `i`, but for the return
      value of a system call. */
  ghost predicate Faithful(cs: seq<Config>, es: seq<Event>, i: nat, t: nat, r: Regs)
    requires i < t <= |es| < |cs|
  {
    && r == cs[i].cpu.r.(eax := r.eax)
    && (es[i].Deliver? ==> r.eax == cs[i].cpu.r.eax)
    && (es[i].Call? ==> Returned(cs, es, i, t, r.eax))
  }

  /** Where the context of process `p`, stopped at step `i`, is at time `t`: still
      under its own activation, or put away while others run. */
  ghost predicate Kept(cs: seq<Config>, es: seq<Event>, i: nat, t: nat, p: int)
    requires i < t <= |es| < |cs|
  {
    LiveSince(cs, i, t) || (Away(cs[t], p) && Faithful(cs, es, i, t, cs[t].saved[p]))
  }

  /** At the end of its own activation the context of the stopped process is in its
      frame. */
  lemma FaithfulAtLeave(L: Layout, b: Cpu, cs: seq<Config>, es: seq<Event>, i: nat, t: nat)
    requires Run(L, b, cs, es) && Roomy(L, cs, es) && i < t < |es|
    requires Enters(es[i]) && cs[i].acts == [] && LiveSince(cs, i, t)
    requires es[t].Leave? && |cs[t].acts| == 1
    ensures cs[i].cpu.ready in cs[t].saved && Faithful(cs, es, i, t, cs[t].saved[cs[i].cpu.ready])
  {
    hide Level, FrameOf, Enter, LeaveStep, Returned, Boots;
    RunInv(L, b, cs, es, i);
    RunInv(L, b, cs, es, t);
    EntryBase(L, cs[i], KindOf(es[i]));
    ActKept(L, b, cs, es, i, t);
    InsideKernel(L, cs[t]);
    assert Step(L, cs[t], es[t], cs[t + 1]);
    LeaveEax(L, cs[t].cpu, cs[t].Top(), true, cs[t + 1].cpu);
  }

  /** An activation ends only by its own leaving. */
  lemma LiveOn(L: Layout, b: Cpu, cs: seq<Config>, es: seq<Event>, i: nat, t: nat)
    requires Run(L, b, cs, es) && i < t < |es| && LiveSince(cs, i, t)
    requires !(es[t].Leave? && |cs[t].acts| == |cs[i].acts| + 1)
    ensures LiveSince(cs, i, t + 1)
  {
    hide Enter, InstrStep, LeaveStep, HandlerMoveStep, HandlerReturnStep, Boots;
    assert Step(L, cs[t], es[t], cs[t + 1]);
  }

  lemma {:induction false} KeptUntil(L: Layout, b: Cpu, cs: seq<Config>, es: seq<Event>, i: nat, t: nat, p: int)
    requires Run(L, b, cs, es) && Roomy(L, cs, es) && i < t < |cs|
    requires Enters(es[i]) && cs[i].acts == [] && cs[i].cpu.ready == p
    requires forall k: nat {:trigger Resumes(cs, es, k, p)} | i < k < t :: !Resumes(cs, es, k, p)
    ensures Kept(cs, es, i, t, p)
  {
    hide Inv, Step, Room, Enter, Returned, Boots;
    assert Step(L, cs[t - 1], es[t - 1], cs[t]);
    if t == i + 1 {
      EntryDepth(L, cs[i], es[i], cs[t]);
    } else {
      KeptUntil(L, b, cs, es, i, t - 1, p);
      assert !Resumes(cs, es, t - 1, p);
      if !LiveSince(cs, i, t - 1) {
        StayAway(L, b, cs, es, t - 1, p);
        FaithfulLater(cs, es, i, t - 1, t, cs[t].saved[p]);
      } else if es[t - 1].Leave? && |cs[t - 1].acts| == 1 {
        FaithfulAtLeave(L, b, cs, es, i, t - 1);
        FaithfulLater(cs, es, i, t - 1, t, cs[t - 1].saved[p]);
        LeaveAway(L, b, cs, es, t - 1, p);
      } else {
        LiveOn(L, b, cs, es, i, t - 1);
      }
    }
  }

  lemma EntryDepth(L: Layout, c: Config, e: Event, c': Config)
    requires Step(L, c, e, c') && Enters(e)
    ensures |c'.acts| == |c.acts| + 1
  {
    hide Enter;
  }

  lemma FaithfulLater(cs: seq<Config>, es: seq<Event>, i: nat, s: nat, t: nat, r: Regs)
    requires i < s <= t <= |es| < |cs| && Faithful(cs, es, i, s, r)
    ensures Faithful(cs, es, i, t, r)
  {
    hide Returned;
    if es[i].Call? {
      ReturnedLater(cs, es, i, s, t, r.eax);
    }
  }

  /** Leaving for another process puts `p` away. */
  lemma LeaveAway(L: Layout, b: Cpu, cs: seq<Config>, es: seq<Event>, t: nat, p: int)
    requires Run(L, b, cs, es) && Roomy(L, cs, es) && t < |es|
    requires es[t].Leave? && |cs[t].acts| == 1 && cs[t].cpu.ready != p && p in cs[t].saved
    ensures Away(cs[t + 1], p) && cs[t + 1].saved == cs[t].saved
  {
    hide Level, FrameOf, LeaveStep, Boots;
    RunInv(L, b, cs, es, t);
    assert Step(L, cs[t], es[t], cs[t + 1]);
    LeaveLoads(L, cs[t], cs[t + 1].cpu);
  }

  /** Resuming a process loads the context kept for it. */
  lemma ResumeLoads(L: Layout, b: Cpu, cs: seq<Config>, es: seq<Event>, j: nat, p: int)
    requires Run(L, b, cs, es) && Roomy(L, cs, es) && j < |es| && Resumes(cs, es, j, p)
    ensures p in cs[j].saved && cs[j + 1].cpu.r == cs[j].saved[p] && cs[j + 1].cpu.sp0 == p + P_STACKTOP
  {
    hide Level, FrameOf, LeaveStep, Boots;
    RunInv(L, b, cs, es, j);
    assert Step(L, cs[j], es[j], cs[j + 1]);
    LeaveLoads(L, cs[j], cs[j + 1].cpu);
  }

  /** When process `p`, stopped at step `i`, is next resumed at step `j`, every
      register is what it was, whatever ran in between; only a system call changes
      eax, to the value its handler returned. */
  lemma ResumeRestoresProcess(L: Layout, b: Cpu, cs: seq<Config>, es: seq<Event>, i: nat, j: nat, p: int)
    requires Run(L, b, cs, es) && Roomy(L, cs, es) && i < j < |es|
    requires Enters(es[i]) && cs[i].acts == [] && cs[i].cpu.ready == p
    requires Resumes(cs, es, j, p)
    requires forall k: nat {:trigger Resumes(cs, es, k, p)} | i < k < j :: !Resumes(cs, es, k, p)
    ensures es[i].Deliver? ==> cs[j + 1].cpu.r == cs[i].cpu.r
    ensures es[i].Call? ==> cs[j + 1].cpu.r == cs[i].cpu.r.(eax := cs[j + 1].cpu.r.eax)
                            && Returned(cs, es, i, j, cs[j + 1].cpu.r.eax)
    ensures cs[j + 1].cpu.sp0 == p + P_STACKTOP
  {
    hide Inv, Step, Returned, LiveSince, Boots;
    KeptUntil(L, b, cs, es, i, j, p);
    ResumeLoads(L, b, cs, es, j, p);
    if LiveSince(cs, i, j) {
      FaithfulAtLeave(L, b, cs, es, i, j);
    }
  }

  // ---------------------------------------------------------------------------
  // Forked processes

  lemma {:induction false} AwayUntil(L: Layout, b: Cpu, cs: seq<Config>, es: seq<Event>, i: nat, t: nat, p: int)
    requires Run(L, b, cs, es) && Roomy(L, cs, es) && i <= t < |cs| && Away(cs[i], p)
    requires forall k: nat {:trigger Resumes(cs, es, k, p)} | i <= k < t :: !Resumes(cs, es, k, p)
    ensures Away(cs[t], p) && cs[t].saved[p] == cs[i].saved[p]
  {
    hide Inv, Step, Away, Boots;
    if i < t {
      AwayUntil(L, b, cs, es, i, t - 1, p);
      assert !Resumes(cs, es, t - 1, p);
      StayAway(L, b, cs, es, t - 1, p);
    }
  }

  /** A process forked at step `i` from a parent that stopped at step `h` starts, when
      it is first resumed, with the registers the parent stopped with; only eax may
      differ, as it would for the parent. */
  lemma ForkedChildStarts(L: Layout, b: Cpu, cs: seq<Config>, es: seq<Event>, h: nat, i: nat, j: nat)
    requires Run(L, b, cs, es) && Roomy(L, cs, es) && h < i < j < |es|
    requires es[i].Fork? && Enters(es[h]) && cs[h].acts == [] && cs[h].cpu.ready == es[i].parent
    requires forall k: nat {:trigger Resumes(cs, es, k, es[i].parent)} | h < k < i :: !Resumes(cs, es, k, es[i].parent)
    requires Resumes(cs, es, j, es[i].child)
    requires forall k: nat {:trigger Resumes(cs, es, k, es[i].child)} | i < k < j :: !Resumes(cs, es, k, es[i].child)
    ensures cs[j + 1].cpu.r == cs[i].saved[es[i].parent]
    ensures Faithful(cs, es, h, i, cs[j + 1].cpu.r)
  {
    hide Level, FrameOf, FrameCopied, Boots, Faithful, Resumes;
    var child, parent := es[i].child, es[i].parent;
    RunInv(L, b, cs, es, i);
    InsideKernel(L, cs[i]);
    assert Step(L, cs[i], es[i], cs[i + 1]);
    KeptUntil(L, b, cs, es, h, i, parent);
    assert cs[i].acts == [] && !LiveSince(cs, h, i);
    AwayUntil(L, b, cs, es, i + 1, j, child);
    ResumeLoads(L, b, cs, es, j, child);
  }

  // ---------------------------------------------------------------------------
  // The return value of a system call

  /** The store that ends a system call, made by a process or inside a handler, writes
      what the handler returned into the eax cell of the frame that was made when the
      call was entered, and nothing else, even if p_proc_ready changed or interrupts
      nested since. */
  lemma SystemCallResult(L: Layout, b: Cpu, cs: seq<Config>, es: seq<Event>, i: nat, j: nat)
    requires Run(L, b, cs, es) && Roomy(L, cs, es) && i < j < |es|
    requires es[i].Call? && LiveSince(cs, i, j) && |cs[j].acts| == |cs[i].acts| + 1
    requires es[j].Instr? && cs[j].cpu.r.eip == Code(SysStore)
    ensures var frame := if cs[i].acts == [] then cs[i].cpu.ready else cs[i].cpu.r.esp - ESPREG;
            forall x {:trigger Read(cs[j + 1].cpu.mem, x)} ::
              Read(cs[j + 1].cpu.mem, x)
              == if x == frame + EAXREG then cs[j].cpu.r.eax else Read(cs[j].cpu.mem, x)
    ensures Returned(cs, es, i, j, cs[j].cpu.r.eax)
  {
    hide Level, FrameOf, InstrStep, Returned, Enter, LiveSince, Boots;
    RunInv(L, b, cs, es, i);
    EntryBase(L, cs[i], Sys);
    ActKept(L, b, cs, es, i, j);
    RunInv(L, b, cs, es, j);
    InsideKernel(L, cs[j]);
    assert Step(L, cs[j], es[j], cs[j + 1]);
    StoreLevel(L, cs[j].cpu, cs[j].Top(), |cs[j].acts| == 1, cs[j + 1].cpu);
  }

  // ---------------------------------------------------------------------------
  // What handlers are called with

  /** When sys_call is about to call, the stack holds the caller's ebx, ecx and edx in
      argument order and eax its call number, whatever interrupted it on the way and
      whether the caller is a process or a handler. */
  lemma SystemCallArguments(L: Layout, b: Cpu, cs: seq<Config>, es: seq<Event>, i: nat, j: nat)
    requires Run(L, b, cs, es) && Roomy(L, cs, es) && i < j < |cs|
    requires es[i].Call? && LiveSince(cs, i, j) && |cs[j].acts| == |cs[i].acts| + 1
    requires cs[j].cpu.r.eip == Code(SysCall)
    ensures var caller, c := cs[i].cpu.r, cs[j].cpu;
            && Read(c.mem, c.r.esp) == caller.ebx
            && Read(c.mem, c.r.esp + 4) == caller.ecx
            && Read(c.mem, c.r.esp + 8) == caller.edx
            && c.r.eax == caller.eax
  {
    hide Inv, Level, Step, Returned, LiveSince, Boots;
    ActKept(L, b, cs, es, i, j);
    RunInv(L, b, cs, es, j);
    InsideKernel(L, cs[j]);
    ArgumentsAt(L, cs[j].cpu, cs[j].Top(), |cs[j].acts| == 1);
  }

  lemma ArgumentsAt(L: Layout, c: Cpu, a: Act, bottom: bool)
    requires Level(L, c.mem, a, bottom, c.r) && c.r.eip.Code?
    ensures c.r.eip.at.SysCall? ==>
              && Read(c.mem, c.r.esp) == a.ctx.ebx && Read(c.mem, c.r.esp + 4) == a.ctx.ecx
              && Read(c.mem, c.r.esp + 8) == a.ctx.edx && c.r.eax == a.ctx.eax
    ensures c.r.eip.at.IrqCall? ==> a.kind == Irq(c.r.eip.at.line) && Read(c.mem, c.r.esp) == Num(c.r.eip.at.line)
    ensures c.r.eip.at.SysCall? || c.r.eip.at.IrqCall? ==> Prepared(L, c.r)
  {
    hide FrameOf;
  }

  /** When a hardware stub is about to call, the stack holds its line number. */
  lemma IrqArgument(L: Layout, b: Cpu, cs: seq<Config>, es: seq<Event>, k: nat)
    requires Run(L, b, cs, es) && Roomy(L, cs, es) && k < |cs|
    requires cs[k].acts != [] && cs[k].cpu.r.eip.Code? && cs[k].cpu.r.eip.at.IrqCall?
    ensures cs[k].Top().kind == Irq(cs[k].cpu.r.eip.at.line)
    ensures Read(cs[k].cpu.mem, cs[k].cpu.r.esp) == Num(cs[k].cpu.r.eip.at.line)
  {
    RunInv(L, b, cs, es, k);
    InsideKernel(L, cs[k]);
    ArgumentsAt(L, cs[k].cpu, cs[k].Top(), |cs[k].acts| == 1);
  }

  /** Every handler is called with the kernel's data segments and interrupts enabled. */
  lemma HandlersPrepared(L: Layout, b: Cpu, cs: seq<Config>, es: seq<Event>, k: nat)
    requires Run(L, b, cs, es) && Roomy(L, cs, es) && k < |cs| && cs[k].acts != []
    requires cs[k].cpu.r.eip.Code? && (cs[k].cpu.r.eip.at.IrqCall? || cs[k].cpu.r.eip.at.SysCall?)
    ensures var r := cs[k].cpu.r;
            r.ds == L.kernelSs && r.es == L.kernelSs && r.fs == L.kernelSs && r.ss == L.kernelSs
            && r.cs == KERNEL_CS && r.eflags.intr
  {
    RunInv(L, b, cs, es, k);
    InsideKernel(L, cs[k]);
    ArgumentsAt(L, cs[k].cpu, cs[k].Top(), |cs[k].acts| == 1);
  }

  // ---------------------------------------------------------------------------
  // The fourth argument of a system call

  /** sys_call has not yet pushed p_proc_ready. */
  predicate Early(r: Regs) { r.eip == Code(SysPushEsi) || r.eip == Code(SysPushProc) }

  /** Code that has not yet pushed p_proc_ready was already there one step before. */
  lemma EarlyBefore(L: Layout, c: Config, e: Event, c': Config, d: nat)
    requires Inv(L, c) && Step(L, c, e, c') && d < |c.acts| && d < |c'.acts| && Early(RegsOf(c', d))
    ensures Early(RegsOf(c, d))
  {
    hide Level, FrameOf, Enter, LeaveStep, HandlerMoveStep, HandlerReturnStep, InstrStep;
    InsideKernel(L, c);
    if e.Leave? {
      LeaveLoads(L, c, c'.cpu);
    } else if d + 1 < |c.acts| {
      StepKeepsAct(L, c, e, c', d + 1);
    } else if e.Instr? {
      EarlyInstr(c.cpu, c'.cpu);
    } else if e.HandlerMove? {
      MoveStaysInside(L, c.Top(), c.cpu, c'.cpu);
    } else if e.HandlerReturn? {
      ReturnsToStub(L, c.cpu, c.Top(), |c.acts| == 1, c'.cpu);
    }
  }

  lemma EarlyInstr(c: Cpu, c': Cpu)
    requires InstrStep(c) == Some(c') && Early(c'.r)
    ensures Early(c.r)
  {
  }

  lemma MoveStaysInside(L: Layout, a: Act, c: Cpu, c': Cpu)
    requires HandlerMoveStep(L, a, c, c')
    ensures !Early(c.r) && !Early(c'.r)
  {
  }

  lemma ReturnsToStub(L: Layout, c: Cpu, a: Act, bottom: bool, c': Cpu)
    requires Level(L, c.mem, a, bottom, c.r) && HandlerReturnStep(a, c, c')
    ensures !Early(c'.r)
  {
    hide FrameOf;
  }

  /** From the call up to the push no handler but those of inner activations runs. */
  lemma {:induction false} EarlyAllAlong(L: Layout, b: Cpu, cs: seq<Config>, es: seq<Event>, i: nat, k: nat, j: nat)
    requires Run(L, b, cs, es) && Roomy(L, cs, es) && i < k <= j < |cs|
    requires Enters(es[i]) && LiveSince(cs, i, j) && Early(RegsOf(cs[j], |cs[i].acts|))
    ensures Early(RegsOf(cs[k], |cs[i].acts|))
    decreases j - k
  {
    hide Inv, Step, Early, Boots, RegsOf;
    if k < j {
      EarlyAllAlong(L, b, cs, es, i, k + 1, j);
      RunInv(L, b, cs, es, k);
      assert Step(L, cs[k], es[k], cs[k + 1]);
      EarlyBefore(L, cs[k], es[k], cs[k + 1], |cs[i].acts|);
    }
  }

  lemma ReadyStep(L: Layout, c: Config, e: Event, c': Config)
    requires Step(L, c, e, c') && !e.HandlerMove?
    ensures c'.cpu.ready == c.cpu.ready
  {
    hide FrameOf, LoadFrame, Read, FrameCopied;
  }

  /** Step `k` is a move of a handler that interrupted the activation entered at step
      `i`, and it makes another process ready. */
  ghost predicate Reschedules(cs: seq<Config>, es: seq<Event>, i: nat, k: nat)
    requires i < |cs| && k < |es| < |cs|
  {
    es[k].HandlerMove? && |cs[k].acts| > |cs[i].acts| + 1 && cs[k + 1].cpu.ready != cs[k].cpu.ready
  }

  /** No handler reschedules from step `s` up to `t`. */
  ghost predicate Quiet(cs: seq<Config>, es: seq<Event>, i: nat, s: nat, t: nat)
    requires i < |cs| && t <= |es| < |cs|
  {
    forall k: nat {:trigger Reschedules(cs, es, i, k)} | s <= k < t :: !Reschedules(cs, es, i, k)
  }

  /** Until the push, p_proc_ready changes only when an inner handler changes it. */
  lemma {:induction false} ReadyKept(L: Layout, b: Cpu, cs: seq<Config>, es: seq<Event>, i: nat, s: nat, t: nat, j: nat)
    requires Run(L, b, cs, es) && Roomy(L, cs, es) && i < s <= t <= j < |cs|
    requires Enters(es[i]) && LiveSince(cs, i, j) && Early(RegsOf(cs[j], |cs[i].acts|))
    requires Quiet(cs, es, i, s, t)
    ensures cs[t].cpu.ready == cs[s].cpu.ready
  {
    hide Inv, Step, Early, Boots, RegsOf;
    if s < t {
      ReadyKept(L, b, cs, es, i, s, t - 1, j);
      assert Step(L, cs[t - 1], es[t - 1], cs[t]) && !Reschedules(cs, es, i, t - 1);
      EarlyAllAlong(L, b, cs, es, i, t - 1, j);
      InnerMoveOnly(L, cs[t - 1], es[t - 1], cs[t], |cs[i].acts|);
    }
  }

  lemma InnerMoveOnly(L: Layout, c: Config, e: Event, c': Config, d: nat)
    requires Step(L, c, e, c') && d < |c.acts| && Early(RegsOf(c, d))
    ensures e.HandlerMove? ==> |c.acts| > d + 1
    ensures !e.HandlerMove? ==> c'.cpu.ready == c.cpu.ready
  {
    if !e.HandlerMove? {
      ReadyStep(L, c, e, c');
    }
  }
  /** The last step before `t` that reschedules, if any. */
  lemma {:induction false} LastReschedule(cs: seq<Config>, es: seq<Event>, i: nat, t: nat) returns (k: nat)
    requires i < t <= |es| < |cs|
    ensures k == i || (i < k < t && Reschedules(cs, es, i, k))
    ensures Quiet(cs, es, i, k + 1, t)
  {
    hide Reschedules;
    if t == i + 1 {
      k := i;
    } else if Reschedules(cs, es, i, t - 1) {
      k := t - 1;
    } else {
      k := LastReschedule(cs, es, i, t - 1);
    }
  }

  /** Step `j` pushes the fourth argument of the system call entered at step `i`. */
  ghost predicate PushesProc(L: Layout, b: Cpu, cs: seq<Config>, es: seq<Event>, i: nat, j: nat) {
    && Run(L, b, cs, es) && Roomy(L, cs, es) && i < j < |es|
    && es[i].Call? && LiveSince(cs, i, j) && |cs[j].acts| == |cs[i].acts| + 1
    && es[j].Instr? && cs[j].cpu.r.eip == Code(SysPushProc)
  }

  /** The fourth argument is p_proc_ready read with interrupts enabled.  If handlers
      that interrupt a system call do not reschedule, as the test of k_reenter in
      clock_handler makes sure, it names the process that was running at the call,
      whatever nested. */
  lemma FourthArgument(L: Layout, b: Cpu, cs: seq<Config>, es: seq<Event>, i: nat, j: nat)
    requires PushesProc(L, b, cs, es, i, j)
    requires Quiet(cs, es, i, i + 1, j)
    ensures Read(cs[j + 1].cpu.mem, cs[j + 1].cpu.r.esp) == Num(cs[i].cpu.ready)
  {
    hide Reschedules, Quiet, Step, Boots, Roomy, LiveSince;
    PushedReady(L, b, cs, es, i, j);
    ReadyKept(L, b, cs, es, i, i + 1, j, j);
  }

  lemma PushedReady(L: Layout, b: Cpu, cs: seq<Config>, es: seq<Event>, i: nat, j: nat)
    requires PushesProc(L, b, cs, es, i, j)
    ensures Read(cs[j + 1].cpu.mem, cs[j + 1].cpu.r.esp) == Num(cs[j].cpu.ready)
    ensures cs[i + 1].cpu.ready == cs[i].cpu.ready
  {
    hide Roomy, LiveSince, Boots;
    assert Step(L, cs[j], es[j], cs[j + 1]);
    assert Step(L, cs[i], es[i], cs[i + 1]);
  }

  /** Exactly when it names another process: some handler that interrupted the call
      made one ready and no later one took that back. */
  lemma FourthArgumentExactly(L: Layout, b: Cpu, cs: seq<Config>, es: seq<Event>, i: nat, j: nat)
    requires PushesProc(L, b, cs, es, i, j)
    ensures Read(cs[j + 1].cpu.mem, cs[j + 1].cpu.r.esp) != Num(cs[i].cpu.ready) <==>
              exists k: nat :: i < k < j && Reschedules(cs, es, i, k) && cs[k + 1].cpu.ready != cs[i].cpu.ready
                               && Quiet(cs, es, i, k + 1, j)
  {
    hide Reschedules, Quiet, Step, Boots, Roomy, LiveSince;
    PushedReady(L, b, cs, es, i, j);
    forall k: nat | i < k < j && Reschedules(cs, es, i, k) && Quiet(cs, es, i, k + 1, j)
      ensures cs[j].cpu.ready == cs[k + 1].cpu.ready
    {
      ReadyKept(L, b, cs, es, i, k + 1, j, j);
    }
    var k := LastReschedule(cs, es, i, j);
    if k == i {
      ReadyKept(L, b, cs, es, i, i + 1, j, j);
    }
  }
}
