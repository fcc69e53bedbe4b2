/** Interleavings of everything that changes the interrupt mask registers.

    Each routine reads a mask port and writes it back in separate instructions, and
    an interrupt, whose stub changes the same ports, can come between any two
    instructions of a routine unless interrupts are disabled.  The machine below
    takes one instruction at a time; the theorem is that the registers nevertheless
    change as if each routine were one atomic insertion or removal. */
module PicRace {
  import opened Pic

  /** Who changes the masks: disable_irq, enable_irq, the head and the tail of a
      hardware interrupt stub. */
  datatype Op = Disable(line: Line) | Enable(line: Line) | Head(line: Line) | Tail(line: Line)

  /** The next instruction of a routine. */
  datatype Pc = Pushf | Cli | In | Out | Popf

  /** What a context is doing: `al` is what it read, `flags` the interrupt flag it
      pushed, `wrote` whether it wrote the port. */
  datatype Work = Free | Busy(op: Op, pc: Pc, al: bv8, flags: bool, wrote: bool)

  /** The interrupted contexts, innermost last.  All but the first serve a line. */
  datatype Context = Context(line: int, work: Work)

  datatype State = State(masks: Masks, intr: bool, stack: seq<Context>) {
    function Work(): Work requires stack != [] { stack[|stack| - 1].work }
    function With(w: Work): State
      requires stack != []
    {
      this.(stack := stack[|stack| - 1 := stack[|stack| - 1].(work := w)])
    }
  }

  datatype Move =
    | Start(op: Op)           // the running code calls disable_irq or enable_irq
    | Instruction             // the running routine executes its next instruction
    | SetFlag(to: bool)       // the running code executes sti or cli
    | Interrupt(line: Line)   // an interrupt comes in
    | Finish                  // a handler returns to its stub, which executes cli

  /** The byte a routine writes after reading `al`, or None for a disable_irq that
      finds the bit already set. */
  function Written(op: Op, al: bv8): (b: (bool, bv8)) {
    match op
    case Disable(n) => (al & RolledBit(n) == 0, al | RolledBit(n))
    case Enable(n) => (true, al & RolledMask(n))
    case Head(n) => (true, OrBit(al, Index(n)))
    case Tail(n) => (true, AndNotBit(al, Index(n)))
  }

  /** One instruction of the running routine. */
  function Execute(s: State): State
    requires s.stack != [] && s.Work().Busy?
  {
    var w := s.Work();
    match w.pc
    case Pushf => s.With(w.(pc := Cli, flags := s.intr))
    case Cli => s.With(w.(pc := In)).(intr := false)
    case In => s.With(w.(pc := Out, al := Port(s.masks, w.op.line)))
    case Out =>
      var (writes, byte) := Written(w.op, w.al);
      var t := s.With(w.(pc := Popf, wrote := writes));
      if writes then t.(masks := SetPort(s.masks, w.op.line, byte)) else t
    case Popf =>
      match w.op
      case Disable(_) => s.With(Free).(intr := w.flags)
      case Enable(_) => s.With(Free).(intr := w.flags)
      case Head(_) => s.With(Free).(intr := true)                          // sti
      case Tail(_) => s.(stack := s.stack[..|s.stack| - 1], intr := true)  // iretd
  }

  ghost predicate Step(s: State, m: Move, s': State) {
    && s.stack != []
    && match m
       case Start(op) => s.Work().Free? && (op.Disable? || op.Enable?)
                         && s' == s.With(Busy(op, Pushf, 0, false, false))
       case Instruction => s.Work().Busy? && s' == Execute(s)
       case SetFlag(b) => s.Work().Free? && s' == s.(intr := b)
       case Interrupt(n) => s.intr && !Masked(s.masks, n)
                            && s' == s.(intr := false, stack := s.stack + [Context(n, Busy(Head(n), In, 0, true,
                                false))])
       case Finish => |s.stack| > 1 && s.Work().Free? && 0 <= s.stack[|s.stack| - 1].line < 16
                      && s' == s.With(Busy(Tail(s.stack[|s.stack| - 1].line), In, 0, true, false)).(intr := false)
  }

  /** Between cli and popf interrupts are off and what was read is still true.  An
      interrupted context stands before its cli. */
  ghost predicate Inv(s: State) {
    && s.stack != []
    && (s.Work().Busy? && s.Work().pc in {In, Out, Popf} ==> !s.intr)
    && (s.Work().Busy? && s.Work().pc == Out ==> s.Work().al == Port(s.masks, s.Work().op.line))
    && (forall i: nat | i < |s.stack| :: s.stack[i].work.Busy? ==>
          && (s.stack[i].work.op.Tail? ==> 0 < i)
          && (s.stack[i].work.op.Head? || s.stack[i].work.op.Tail? ==> s.stack[i].work.pc in {In, Out, Popf})
          && (i < |s.stack| - 1 ==> s.stack[i].work.pc in {Pushf, Cli}))
  }

  /** What one routine does to the set of masked lines. */
  function Atomic(op: Op, a: set<Line>): set<Line> {
    if op.Disable? || op.Head? then a + {op.line} else a - {op.line}
  }

  /** The routine that takes effect in a step: the one that executes its `out`, or
      finds that it need not. */
  predicate TakesEffect(s: State, m: Move) {
    m.Instruction? && s.stack != [] && s.Work().Busy? && s.Work().pc == Out
  }

  lemma StepKeepsInv(s: State, m: Move, s': State)
    requires Inv(s) && Step(s, m, s')
    ensures Inv(s')
  {
    hide Written, Masked;
    if m.Instruction? {
      ExecuteKeepsInv(s);
    }
  }

  lemma ExecuteKeepsInv(s: State)
    requires Inv(s) && s.Work().Busy?
    ensures Inv(Execute(s))
  {
    hide Written;
  }

  /** Writing back the byte just read changes the set by the routine's line alone. */
  lemma WriteIsAtomic(masks: Masks, op: Op)
    ensures var (writes, byte) := Written(op, Port(masks, op.line));
            && MaskedSet(if writes then SetPort(masks, op.line, byte) else masks) == Atomic(op, MaskedSet(masks))
            && (op.Disable? ==> (writes <==> op.line !in MaskedSet(masks)))
  {
    hide Bit, OrBit, AndNotBit, RolledBit, RolledMask, Masked, MaskedSet;
    match op
    case Disable(n) =>
      DisableByte(masks, n);
      MaskLineSet(masks, n);
    case Enable(n) =>
      EnableByte(masks, n);
      UnmaskLineSet(masks, n);
    case Head(n) =>
      MaskLineSet(masks, n);
    case Tail(n) =>
      UnmaskLineSet(masks, n);
  }

  /** Every step changes the set of masked lines as an atomic routine would, or not
      at all.  disable_irq reports 1 exactly when its line was not in the set. */
  lemma StepIsAtomic(s: State, m: Move, s': State)
    requires Inv(s) && Step(s, m, s')
    ensures MaskedSet(s'.masks)
         == if TakesEffect(s, m) then Atomic(s.Work().op, MaskedSet(s.masks)) else MaskedSet(s.masks)
    ensures TakesEffect(s, m) && s.Work().op.Disable? ==>
              s'.Work().wrote == (s.Work().op.line !in MaskedSet(s.masks))
  {
    if TakesEffect(s, m) {
      WriteIsAtomic(s.masks, s.Work().op);
    }
  }

  ghost predicate Run(ss: seq<State>, ms: seq<Move>) {
    && |ss| == |ms| + 1
    && Inv(ss[0])
    && forall i: nat {:trigger ms[i]} | i < |ms| :: Step(ss[i], ms[i], ss[i + 1])
  }

  lemma {:induction false} RunInv(ss: seq<State>, ms: seq<Move>, k: nat)
    requires Run(ss, ms) && k < |ss|
    ensures Inv(ss[k])
  {
    if k > 0 {
      RunInv(ss, ms, k - 1);
      assert ms[k - 1] == ms[k - 1];
      StepKeepsInv(ss[k - 1], ms[k - 1], ss[k]);
    }
  }

  /** The routines that took effect in the first `k` steps, in order. */
  function Effects(ss: seq<State>, ms: seq<Move>, k: nat): seq<Op>
    requires |ss| == |ms| + 1 && k <= |ms|
  {
    if k == 0 then []
    else Effects(ss, ms, k - 1) + if TakesEffect(ss[k - 1], ms[k - 1]) then [ss[k - 1].Work().op] else []
  }

  function ApplyAll(ops: seq<Op>, a: set<Line>): set<Line> {
    if ops == [] then a else Atomic(ops[|ops| - 1], ApplyAll(ops[..|ops| - 1], a))
  }

  /** No update is lost: in every run the masked lines are those that the routines,
      executed one after the other without interruption, would have left. */
  lemma {:induction false} NoLostUpdate(ss: seq<State>, ms: seq<Move>, k: nat)
    requires Run(ss, ms) && k < |ss|
    ensures MaskedSet(ss[k].masks) == ApplyAll(Effects(ss, ms, k), MaskedSet(ss[0].masks))
  {
    if k > 0 {
      NoLostUpdate(ss, ms, k - 1);
      RunInv(ss, ms, k - 1);
      var s, m, s' := ss[k - 1], ms[k - 1], ss[k];
      assert Step(s, m, s');
      StepIsAtomic(s, m, s');
      var before := Effects(ss, ms, k - 1);
      if TakesEffect(s, m) {
        assert (before + [s.Work().op])[..|before|] == before;
      } else {
        assert before + [] == before;
      }
    }
  }

  // ---------------------------------------------------------------------------
  // Every routine takes effect exactly once

  /** The move starts routine `op` in the context at position `p`: a call of disable_irq
      or enable_irq, an interrupt, or the return of its handler. */
  predicate Starts(s: State, m: Move, p: nat, op: Op) {
    s.stack != [] && match m
    case Start(o) => p == |s.stack| - 1 && op == o
    case Interrupt(n) => p == |s.stack| && op == Head(n)
    case Finish => p == |s.stack| - 1 && op.Tail? && op.line == s.stack[p].line
    case _ => false
  }

  /** The context at position `p` is busy. */
  predicate BusyAt(s: State, p: nat) { p < |s.stack| && s.stack[p].work.Busy? }

  ghost predicate UnderWay(ss: seq<State>, p: nat, i: nat, j: nat)
    requires j < |ss|
  {
    forall k: nat {:trigger ss[k]} | i < k <= j :: BusyAt(ss[k], p)
  }

  /** Is step `k` the one in which the routine at position `p` takes effect? */
  predicate EffectAt(ss: seq<State>, ms: seq<Move>, p: nat, k: nat)
    requires k < |ms| < |ss|
  {
    TakesEffect(ss[k], ms[k]) && |ss[k].stack| == p + 1
  }

  /** How often it does so after step `i` and before time `j`. */
  function EffectsOf(ss: seq<State>, ms: seq<Move>, p: nat, i: nat, j: nat): nat
    requires i < j <= |ms| < |ss|
    decreases j
  {
    if j == i + 1 then 0
    else EffectsOf(ss, ms, p, i, j - 1) + if EffectAt(ss, ms, p, j - 1) then 1 else 0
  }

  /** A routine under way: it is still the same, it has taken effect exactly if it is at
      its last instruction, and it remembers the interrupt flag it was called with. */
  ghost predicate OnItsWay(ss: seq<State>, ms: seq<Move>, p: nat, op: Op, i: nat, j: nat)
    requires i < j <= |ms| < |ss|
  {
    && BusyAt(ss[j], p)
    && var w := ss[j].stack[p].work;
       && w.op == op
       && EffectsOf(ss, ms, p, i, j) == (if w.pc == Popf then 1 else 0)
       && (op.Disable? || op.Enable? ==>
             && (w.pc != Pushf ==> w.flags == ss[i].intr)
             && (w.pc == Pushf || w.pc == Cli ==>
                   if |ss[j].stack| == p + 1 then ss[j].intr == ss[i].intr else ss[i].intr))
  }

  /** What a step does to a context that stays busy. */
  lemma BusyStep(s: State, m: Move, s': State, p: nat)
    requires Inv(s) && Step(s, m, s') && BusyAt(s, p) && BusyAt(s', p)
    ensures p + 1 < |s.stack| ==>
              && s'.stack[p] == s.stack[p] && !(m.Instruction? && s.Work().Busy? && |s.stack| == p + 1)
              && (|s'.stack| == p + 1 ==> s'.intr)
    ensures p + 1 == |s.stack| ==>
              var w, w' := s.stack[p].work, s'.stack[p].work;
              if m.Instruction? then
                && |s'.stack| == |s.stack| && w'.op == w.op && w.pc != Popf
                && w'.pc == (if w.pc == Pushf then Cli else if w.pc == Cli then In
                             else if w.pc == In then Out else Popf)
                && w'.flags == (if w.pc == Pushf then s.intr else w.flags)
                && (w.pc == Pushf ==> s'.intr == s.intr)
              else m.Interrupt? && s.intr && w' == w && |s'.stack| == p + 2
  {
    hide Written, Masked;
  }

  lemma {:induction false} Progress(ss: seq<State>, ms: seq<Move>, p: nat, op: Op, i: nat, j: nat)
    requires Run(ss, ms) && i < j <= |ms| && Starts(ss[i], ms[i], p, op) && UnderWay(ss, p, i, j)
    ensures OnItsWay(ss, ms, p, op, i, j)
    decreases j
  {
    hide Step, Written, Masked, Inv;
    assert Step(ss[j - 1], ms[j - 1], ss[j]);
    assert BusyAt(ss[j], p);
    if j == i + 1 {
      FirstStep(ss[i], ms[i], ss[j], p, op);
    } else {
      Progress(ss, ms, p, op, i, j - 1);
      RunInv(ss, ms, j - 1);
      BusyStep(ss[j - 1], ms[j - 1], ss[j], p);
    }
  }

  lemma FirstStep(s: State, m: Move, s': State, p: nat, op: Op)
    requires Step(s, m, s') && Starts(s, m, p, op)
    ensures BusyAt(s', p) && |s'.stack| == p + 1
    ensures var w := s'.stack[p].work;
            w.op == op && w.pc == (if m.Start? then Pushf else In) && (m.Start? ==> s'.intr == s.intr)
    ensures op.Disable? || op.Enable? <==> m.Start?
  {
    hide Written, Masked;
  }

  /** Only its last instruction ends a routine. */
  lemma LastStep(s: State, m: Move, s': State, p: nat)
    requires Inv(s) && Step(s, m, s') && BusyAt(s, p) && !BusyAt(s', p)
    ensures m.Instruction? && |s.stack| == p + 1 && s.stack[p].work.pc == Popf
    ensures var w := s.stack[p].work; w.op.Disable? || w.op.Enable? ==> s'.intr == w.flags
    ensures s.stack[p].work.op.Head? || s.stack[p].work.op.Tail? ==> s'.intr
    ensures |s'.stack| == if s.stack[p].work.op.Tail? then p else p + 1
  {
    hide Written, Masked;
  }

  /** In every run, a routine that starts at step `i` and ends with step `j` has written
      the registers, or found that it need not, exactly once in between, as the routine
      it was started as; disable_irq and enable_irq leave the interrupt flag as it was,
      the two parts of a stub leave interrupts enabled, and the tail ends its context. */
  lemma ExactlyOnce(ss: seq<State>, ms: seq<Move>, p: nat, op: Op, i: nat, j: nat) returns (k: nat)
    requires Run(ss, ms) && i < j < |ms| && Starts(ss[i], ms[i], p, op)
    requires UnderWay(ss, p, i, j) && !BusyAt(ss[j + 1], p)
    ensures EffectsOf(ss, ms, p, i, j) == 1
    ensures i < k < j && EffectAt(ss, ms, p, k) && ss[k].Work().op == op
    ensures MaskedSet(ss[k + 1].masks) == Atomic(op, MaskedSet(ss[k].masks))
    ensures op.Disable? || op.Enable? ==> ss[j + 1].intr == ss[i].intr
    ensures op.Head? || op.Tail? ==> ss[j + 1].intr
    ensures |ss[j + 1].stack| == if op.Tail? then p else p + 1
  {
    hide Step, Inv, Atomic, MaskedSet;
    assert Step(ss[j], ms[j], ss[j + 1]);
    RunInv(ss, ms, j);
    Progress(ss, ms, p, op, i, j);
    assert BusyAt(ss[j], p);
    LastStep(ss[j], ms[j], ss[j + 1], p);
    k := TheEffect(ss, ms, p, i, j);
    Progress(ss, ms, p, op, i, k);
    RunInv(ss, ms, k);
    assert Step(ss[k], ms[k], ss[k + 1]);
    StepIsAtomic(ss[k], ms[k], ss[k + 1]);
  }

  lemma {:induction false} TheEffect(ss: seq<State>, ms: seq<Move>, p: nat, i: nat, j: nat) returns (k: nat)
    requires i < j <= |ms| < |ss| && EffectsOf(ss, ms, p, i, j) > 0
    ensures i < k < j && EffectAt(ss, ms, p, k)
    decreases j
  {
    if EffectAt(ss, ms, p, j - 1) {
      k := j - 1;
    } else {
      k := TheEffect(ss, ms, p, i, j - 1);
    }
  }
}
