/** How deep interrupts can nest, and how much of the 2048-byte kernel stack that
    takes, when handlers keep to two rules: they do not unmask a line that is being
    serviced, and they do not issue `int 0x90`. */
module KernelDepth {
  import opened Pic
  import opened Machine
  import opened KernelRuns
  import opened KernelTheorems

  /** Is line `n` being serviced? */
  predicate Live(acts: seq<Act>, n: Line) {
    exists i: nat :: i < |acts| && acts[i].kind == Irq(n)
  }

  /** The rules for a step.  `usable` are the lines the kernel ever unmasks. */
  ghost predicate Behaves(usable: set<Line>, c: Config, e: Event, c': Config) {
    && (e.Call? ==> c.acts == [])
    && (e.HandlerMove? || e.UserMove? ==>
          forall n: Line | (n !in usable || Live(c.acts, n)) && Masked(c.cpu.masks, n) :: Masked(c'.cpu.masks, n))
  }

  ghost predicate BehavedRun(L: Layout, usable: set<Line>, b: Cpu, cs: seq<Config>, es: seq<Event>) {
    && Run(L, b, cs, es)
    && (forall n: Line | n !in usable :: Masked(b.masks, n))
    && forall i: nat {:trigger es[i]} | i < |es| :: Behaves(usable, cs[i], es[i], cs[i + 1])
  }

  /** What the rules keep: lines in service are masked and pairwise distinct, and a
      system call can only be the outermost activation. */
  ghost predicate Disciplined(usable: set<Line>, c: Config) {
    && (forall n: Line | n !in usable || Live(c.acts, n) :: Masked(c.cpu.masks, n))
    && (forall i: nat | i < |c.acts| && c.acts[i].kind.Irq? :: c.acts[i].kind.line in usable)
    && (forall i: nat, j: nat | i < j < |c.acts| && c.acts[i].kind.Irq? :: c.acts[i].kind != c.acts[j].kind)
    && (forall i: nat | 0 < i < |c.acts| :: c.acts[i].kind.Irq?)
  }

  lemma KindsOnly(usable: set<Line>, c: Config, c': Config)
    requires Disciplined(usable, c) && |c'.acts| == |c.acts|
    requires forall i: nat | i < |c.acts| :: c'.acts[i].kind == c.acts[i].kind
    requires forall n: Line | n !in usable || Live(c.acts, n) :: Masked(c'.cpu.masks, n)
    ensures Disciplined(usable, c')
  {
    forall n: Line | n !in usable || Live(c'.acts, n) ensures Masked(c'.cpu.masks, n) {
      if n in usable {
        var i: nat :| i < |c'.acts| && c'.acts[i].kind == Irq(n);
        assert c.acts[i].kind == Irq(n);
      }
    }
  }

  lemma EntryDisciplined(L: Layout, usable: set<Line>, c: Config, e: Event, c': Config)
    requires Disciplined(usable, c) && Step(L, c, e, c') && Enters(e) && Behaves(usable, c, e, c')
    ensures Disciplined(usable, c')
  {
    hide Enter, Masked, MaskLine;
    var k := |c.acts|;
    assert c'.acts[..k] == c.acts && c'.acts[k].kind == KindOf(e);
    assert forall i: nat | i < k :: c'.acts[i] == c.acts[i];
    if e.Deliver? {
      MaskLineSet(c.cpu.masks, e.line);
      assert e.line in usable && !Live(c.acts, e.line);
    }
    forall n: Line | n !in usable || Live(c'.acts, n) ensures Masked(c'.cpu.masks, n) {
      if n in usable {
        var i: nat :| i < |c'.acts| && c'.acts[i].kind == Irq(n);
        if i < k {
          assert c.acts[i].kind == Irq(n);
        }
      }
      assert n in MaskedSet(c'.cpu.masks) || !e.Deliver?;
    }
  }

  lemma LeaveDisciplined(L: Layout, usable: set<Line>, c: Config, c': Config)
    requires Inv(L, c) && Disciplined(usable, c) && Step(L, c, Leave, c')
    ensures Disciplined(usable, c')
  {
    hide Level, FrameOf, Masked, UnmaskLine, LoadFrame;
    var k := |c'.acts|;
    InsideKernel(L, c);
    LeaveLine(L, c.cpu, c.Top(), k == 0);
    assert forall i: nat | i < k :: c'.acts[i] == c.acts[i];
    if c.Top().kind.Irq? {
      UnmaskLineSet(c.cpu.masks, c.Top().kind.line);
    }
    forall n: Line | n !in usable || Live(c'.acts, n) ensures Masked(c'.cpu.masks, n) {
      if n in usable {
        var i: nat :| i < k && c'.acts[i].kind == Irq(n);
        assert c.acts[i].kind == Irq(n) && c.Top().kind != Irq(n);
      }
      assert n in MaskedSet(c.cpu.masks);
      assert n in MaskedSet(c'.cpu.masks);
    }
  }

  /** A stub unmasks the line it was entered for. */
  lemma LeaveLine(L: Layout, c: Cpu, a: Act, bottom: bool)
    requires Level(L, c.mem, a, bottom, c.r) && c.r.eip.Code?
    ensures c.r.eip.at.IrqCli? ==> a.kind == Irq(c.r.eip.at.line)
    ensures c.r.eip.at.SysCli? ==> a.kind == Sys
  {
    hide FrameOf;
  }

  lemma StepDisciplined(L: Layout, usable: set<Line>, c: Config, e: Event, c': Config)
    requires Inv(L, c) && Disciplined(usable, c) && Step(L, c, e, c') && Behaves(usable, c, e, c')
    ensures Disciplined(usable, c')
  {
    hide Level, FrameOf, Enter, LeaveStep;
    if Enters(e) {
      EntryDisciplined(L, usable, c, e, c');
    } else if e.Leave? {
      LeaveDisciplined(L, usable, c, c');
    } else {
      KindsOnly(usable, c, c');
    }
  }

  // ---------------------------------------------------------------------------
  // Counting

  /** The lines in service. */
  function Lines(acts: seq<Act>): (s: set<Line>)
  {
    if acts == [] then {}
    else
      var a := acts[|acts| - 1];
      Lines(acts[..|acts| - 1]) + if a.kind.Irq? then {a.kind.line} else {}
  }

  lemma {:induction false} LinesOfLive(acts: seq<Act>, n: Line)
    ensures n in Lines(acts) ==> Live(acts, n)
  {
    if acts != [] && n in Lines(acts) {
      var init := acts[..|acts| - 1];
      if n in Lines(init) {
        LinesOfLive(init, n);
        var i: nat :| i < |init| && init[i].kind == Irq(n);
        assert acts[i].kind == Irq(n);
      } else {
        assert acts[|acts| - 1].kind == Irq(n);
      }
    }
  }

  /** Distinct lines are as many as the interrupts in service. */
  lemma {:induction false} CountLines(usable: set<Line>, acts: seq<Act>)
    requires forall i: nat | i < |acts| && acts[i].kind.Irq? :: acts[i].kind.line in usable
    requires forall i: nat, j: nat | i < j < |acts| && acts[i].kind.Irq? :: acts[i].kind != acts[j].kind
    requires forall i: nat | 0 < i < |acts| :: acts[i].kind.Irq?
    ensures Lines(acts) <= usable
    ensures |Lines(acts)| == if acts != [] && acts[0].kind.Sys? then |acts| - 1 else |acts|
  {
    if acts != [] {
      var k := |acts| - 1;
      var init := acts[..k];
      assert forall i: nat | i < k :: init[i] == acts[i];
      CountLines(usable, init);
      if acts[k].kind.Irq? {
        var n := acts[k].kind.line;
        LinesOfLive(init, n);
        assert !Live(init, n);
      }
    }
  }

  lemma SubsetSize<T>(a: set<T>, b: set<T>)
    requires a <= b
    ensures |a| <= |b|
  {
    assert b == a + (b - a);
  }

  /** At most one activation per usable line, and one system call below them. */
  lemma DepthBound(usable: set<Line>, c: Config)
    requires Disciplined(usable, c)
    ensures |c.acts| <= |usable| + 1
    ensures c.acts != [] && c.acts[0].kind.Irq? ==> |c.acts| <= |usable|
  {
    CountLines(usable, c.acts);
    SubsetSize(Lines(c.acts), usable);
  }

  /** A line that can be delivered is not in service, so there is one more to come. */
  lemma DepthBeforeDelivery(usable: set<Line>, c: Config, n: Line)
    requires Disciplined(usable, c) && !Masked(c.cpu.masks, n)
    ensures |c.acts| <= |usable|
    ensures c.acts != [] && c.acts[0].kind.Irq? ==> |c.acts| < |usable|
  {
    CountLines(usable, c.acts);
    LinesOfLive(c.acts, n);
    SubsetSize(Lines(c.acts) + {n}, usable);
  }

  // ---------------------------------------------------------------------------
  // Stack space

  /** Bytes of bookkeeping: what gates, `save` and the stubs push before the C
      handlers run.  The outermost frame is in the process table. */
  function EntryBytes(acts: seq<Act>): int {
    if acts == [] then 0
    else
      var a := acts[|acts| - 1];
      EntryBytes(acts[..|acts| - 1]) + (if |acts| == 1 then 4 else 68) + Bookkeeping(a.kind)
  }

  lemma {:induction false} EntryBytesBound(acts: seq<Act>)
    requires forall i: nat | 0 < i < |acts| :: acts[i].kind.Irq?
    ensures acts != [] ==>
              EntryBytes(acts) == 76 * |acts| - (if acts[0].kind.Sys? then 48 else 64)
  {
    if |acts| > 1 {
      EntryBytesBound(acts[..|acts| - 1]);
    } else if |acts| == 1 {
      assert acts[..0] == [];
    }
  }

  /** The stack pointer of level `i` is no lower than bookkeeping and handlers' own
      use below it allow. */
  lemma {:induction false} StackUse(L: Layout, c: Config, i: nat)
    requires L.Valid() && AllBounds(L, c) && i < |c.acts|
    ensures RegsOf(c, i).esp >= L.stackTop - EntryBytes(c.acts[..i + 1]) - (i + 1) * L.budget
  {
    assert Bounds(L, c.acts[i], i == 0, RegsOf(c, i));
    assert c.acts[..i + 1][..i] == c.acts[..i];
    if 0 < i {
      StackUse(L, c, i - 1);
      assert (i + 1) * L.budget == i * L.budget + L.budget;
    } else {
      assert c.acts[..0] == [];
    }
  }

  /** Bookkeeping for every usable line on top of one system call, and `budget`
      bytes for each handler, fit on the kernel stack.  With all 16 lines usable
      this leaves each handler 47 bytes. */
  predicate Fits(L: Layout, usable: set<Line>) {
    28 + |usable| * (76 + L.budget) + L.budget <= STACK_BYTES
  }

  lemma RoomArithmetic(k: nat, u: nat, budget: nat)
    requires k <= u && 28 + u * (76 + budget) + budget <= STACK_BYTES
    ensures 76 * k + k * budget + budget + 28 <= STACK_BYTES
  {
    var w := 76 + budget;
    assert u * w == k * w + (u - k) * w;
    assert (u - k) * w >= 0;
    assert k * w == 76 * k + k * budget;
  }

  lemma RoomAtDelivery(L: Layout, usable: set<Line>, c: Config, n: Line)
    requires Inv(L, c) && Disciplined(usable, c) && !Masked(c.cpu.masks, n) && Fits(L, usable)
    ensures Room(L, c.cpu, Irq(n))
  {
    hide Level, FrameOf, Disciplined, Masked;
    var k := |c.acts|;
    InsideKernel(L, c);
    if k > 0 {
      InvBounds(L, c);
      StackUse(L, c, k - 1);
      assert c.acts[..k] == c.acts;
      OnlyIrqsNest(usable, c);
      EntryBytesBound(c.acts);
      DepthBeforeDelivery(usable, c, n);
      RoomArithmetic(k, |usable|, L.budget);
    }
  }

  /** One more step of a behaved run, given room for it. */
  lemma StepBehaved(L: Layout, usable: set<Line>, b: Cpu, cs: seq<Config>, es: seq<Event>, k: nat)
    requires BehavedRun(L, usable, b, cs, es) && k < |es|
    requires Inv(L, cs[k]) && Disciplined(usable, cs[k])
    requires Enters(es[k]) ==> Room(L, cs[k].cpu, KindOf(es[k]))
    ensures Inv(L, cs[k + 1]) && Disciplined(usable, cs[k + 1])
  {
    hide Inv, Boots, Disciplined, Step, Behaves, Room;
    assert Step(L, cs[k], es[k], cs[k + 1]) && Behaves(usable, cs[k], es[k], cs[k + 1]);
    StepKeepsInv(L, cs[k], es[k], cs[k + 1]);
    StepDisciplined(L, usable, cs[k], es[k], cs[k + 1]);
  }

  lemma BootDisciplined(L: Layout, usable: set<Line>, b: Cpu, c: Config)
    requires Boots(L, b, c) && forall n: Line | n !in usable :: Masked(b.masks, n)
    ensures Disciplined(usable, c)
  {
  }

  lemma {:induction false} DisciplineKept(L: Layout, usable: set<Line>, b: Cpu, cs: seq<Config>, es: seq<Event>, k: nat)
    requires BehavedRun(L, usable, b, cs, es) && Roomy(L, cs, es) && k < |cs|
    ensures Inv(L, cs[k]) && Disciplined(usable, cs[k])
  {
    hide Inv, Boots, Disciplined, Step, Behaves, Room;
    if k == 0 {
      BootInv(L, b, cs[0]);
      BootDisciplined(L, usable, b, cs[0]);
    } else {
      DisciplineKept(L, usable, b, cs, es, k - 1);
      assert es[k - 1] == es[k - 1];
      StepBehaved(L, usable, b, cs, es, k - 1);
    }
  }

  /** Bookkeeping of a disciplined nest. */
  lemma BytesBound(usable: set<Line>, c: Config)
    requires Disciplined(usable, c)
    ensures EntryBytes(c.acts) <= 28 + 76 * |usable| <= 1244
  {
    hide Disciplined;
    DepthBound(usable, c);
    OnlyIrqsNest(usable, c);
    EntryBytesBound(c.acts);
    SixteenLines(usable);
  }

  /** In every behaved run that never fills the stack, however deep the handlers' own
      use of it: live interrupts are distinct and masked, nesting is at most one
      activation per usable line plus one system call, bookkeeping is at most 28 + 76
      bytes per line, and the stack holds no more than that and what handlers use. */
  lemma NestingBounded(L: Layout, usable: set<Line>, b: Cpu, cs: seq<Config>, es: seq<Event>, k: nat)
    requires BehavedRun(L, usable, b, cs, es) && Roomy(L, cs, es) && k < |cs|
    ensures Disciplined(usable, cs[k])
    ensures |cs[k].acts| <= |usable| + 1 <= 17
    ensures EntryBytes(cs[k].acts) <= 28 + 76 * |usable| <= 1244
    ensures cs[k].acts != [] ==>
              cs[k].cpu.r.esp >= L.stackTop - EntryBytes(cs[k].acts) - |cs[k].acts| * L.budget
  {
    hide Boots, Disciplined, Step, Behaves, Room, Level, FrameOf;
    DisciplineKept(L, usable, b, cs, es, k);
    DepthBound(usable, cs[k]);
    BytesBound(usable, cs[k]);
    if cs[k].acts != [] {
      InvBounds(L, cs[k]);
      StackUse(L, cs[k], |cs[k].acts| - 1);
      assert cs[k].acts[..|cs[k].acts|] == cs[k].acts;
    }
  }

  /** When what handlers may use fits, there is room for every entry. */
  lemma RoomForEntry(L: Layout, usable: set<Line>, c: Config, e: Event, c': Config)
    requires Inv(L, c) && Disciplined(usable, c) && Fits(L, usable)
    requires Step(L, c, e, c') && Behaves(usable, c, e, c') && Enters(e)
    ensures Room(L, c.cpu, KindOf(e))
  {
    hide Level, FrameOf, Enter, Disciplined, Fits;
    InsideKernel(L, c);
    if e.Deliver? {
      RoomAtDelivery(L, usable, c, e.line);
    }
  }

  lemma {:induction false} FitsKept(L: Layout, usable: set<Line>, b: Cpu, cs: seq<Config>, es: seq<Event>, k: nat)
    requires BehavedRun(L, usable, b, cs, es) && Fits(L, usable) && k < |cs|
    ensures Inv(L, cs[k]) && Disciplined(usable, cs[k])
    ensures k < |es| && Enters(es[k]) ==> Room(L, cs[k].cpu, KindOf(es[k]))
  {
    hide Inv, Boots, Disciplined, Step, Behaves, Room, Fits;
    if k == 0 {
      BootInv(L, b, cs[0]);
      BootDisciplined(L, usable, b, cs[0]);
    } else {
      FitsKept(L, usable, b, cs, es, k - 1);
      StepBehaved(L, usable, b, cs, es, k - 1);
    }
    if k < |es| && Enters(es[k]) {
      assert Step(L, cs[k], es[k], cs[k + 1]) && Behaves(usable, cs[k], es[k], cs[k + 1]);
      RoomForEntry(L, usable, cs[k], es[k], cs[k + 1]);
    }
  }

  /** In every behaved run whose handlers' budgets fit, no entry ever finds the stack
      too full and the stack pointer never leaves the kernel stack. */
  lemma StackNeverOverflows(L: Layout, usable: set<Line>, b: Cpu, cs: seq<Config>, es: seq<Event>)
    requires BehavedRun(L, usable, b, cs, es) && Fits(L, usable)
    ensures Roomy(L, cs, es)
    ensures forall k: nat {:trigger cs[k]} | k < |cs| && cs[k].acts != [] ::
              L.StackBase() <= cs[k].cpu.r.esp < L.stackTop
  {
    hide Inv, Boots, Disciplined, Step, Behaves, Room, Fits;
    forall i: nat | i < |es| && Enters(es[i]) ensures Room(L, cs[i].cpu, KindOf(es[i])) {
      FitsKept(L, usable, b, cs, es, i);
    }
    forall k: nat | k < |cs| && cs[k].acts != [] ensures L.StackBase() <= cs[k].cpu.r.esp < L.stackTop {
      FitsKept(L, usable, b, cs, es, k);
      OutsideFrames(L, cs[k]);
    }
  }

  lemma OnlyIrqsNest(usable: set<Line>, c: Config)
    requires Disciplined(usable, c)
    ensures forall i: nat | 0 < i < |c.acts| :: c.acts[i].kind.Irq?
  {
  }

  lemma SixteenLines(s: set<Line>)
    ensures |s| <= 16
  {
    var all: set<Line> := {0, 1, 2, 3, 4, 5, 6, 7, 8, 9, 10, 11, 12, 13, 14, 15};
    assert s <= all;
    SubsetSize(s, all);
  }

  /** With every line usable, 47 bytes per handler fit and 48 do not. */
  lemma AllLinesBudget(L: Layout, usable: set<Line>)
    requires |usable| == 16
    ensures Fits(L, usable) <==> L.budget <= 47
  {
  }
}
