/** The assignments and assertions of proc.c one by one, with interrupts between any two
    of them.  A system call runs with interrupts enabled, and handlers call inform_int;
    they do not change processes in the middle of a system call. */
module IpcCode {
  import opened Ipc
  import opened IpcTable

  /** Fields of a process table entry.  `Flags` is p_flags as a whole. */
  datatype Field = FlagSending | FlagReceiving | Flags | MsgPtr | RecvFrom | SendTo | HasInt | Head | Next

  datatype Part = Source | Kind | Body

  datatype Instr =
    | Put(p: int, f: Field, v: int)                 // assign to a field of entry p
    | Check(p: int, f: Field, v: int, same: bool)   // assert that a field is, or is not, v
    | Dst(at: int) | DstOf(p: int)                  // evaluate the arguments of phys_copy
    | Src(at: int) | SrcOf(p: int)
    | Copy(part: Part)                              // copy a part of the message
    | Fill(part: Part, v: int)                      // write a part of the message

  /** The table, the message buffers, the two pointers of a copy, and whether all
      assertions have held so far; the kernel stops at the first that does not. */
  datatype Core = Core(procs: seq<Proc>, mem: Buffers, dst: int, src: int, ok: bool) {
    predicate Has(p: int) { 0 <= p < |procs| }
  }

  const SENDING := 2
  const RECEIVING := 4

  function Bit(b: bool, v: int): int { if b then v else 0 }

  function Get(e: Proc, f: Field): int {
    match f
    case FlagSending => Bit(e.sending, SENDING)
    case FlagReceiving => Bit(e.receiving, RECEIVING)
    case Flags => Bit(e.sending, SENDING) + Bit(e.receiving, RECEIVING)
    case MsgPtr => e.msg
    case RecvFrom => e.recvFrom
    case SendTo => e.sendTo
    case HasInt => Bit(e.hasInt, 1)
    case Head => e.head
    case Next => e.next
  }

  /** The code sets and clears single flags only. */
  function Set(e: Proc, f: Field, v: int): Proc {
    match f
    case FlagSending => e.(sending := v != 0)
    case FlagReceiving => e.(receiving := v != 0)
    case Flags => e
    case MsgPtr => e.(msg := v)
    case RecvFrom => e.(recvFrom := v)
    case SendTo => e.(sendTo := v)
    case HasInt => e.(hasInt := v != 0)
    case Head => e.(head := v)
    case Next => e.(next := v)
  }

  function PartOf(m: Msg, part: Part): int {
    match part case Source => m.source case Kind => m.kind case Body => m.body
  }

  function WithPart(m: Msg, part: Part, v: int): Msg {
    match part case Source => m.(source := v) case Kind => m.(kind := v) case Body => m.(body := v)
  }

  function Exec(i: Instr, c: Core): Core {
    if !c.ok then c else
    match i
    case Put(p, f, v) => if c.Has(p) then c.(procs := c.procs[p := Set(c.procs[p], f, v)]) else c
    case Check(p, f, v, same) => c.(ok := c.Has(p) && ((Get(c.procs[p], f) == v) == same))
    case Dst(at) => c.(dst := at)
    case DstOf(p) => c.(dst := if c.Has(p) then c.procs[p].msg else 0)
    case Src(at) => c.(src := at)
    case SrcOf(p) => c.(src := if c.Has(p) then c.procs[p].msg else 0)
    case Copy(part) => c.(mem := c.mem[c.dst := WithPart(Load(c.mem, c.dst), part, PartOf(Load(c.mem, c.src), part))])
    case Fill(part, v) => c.(mem := c.mem[c.dst := WithPart(Load(c.mem, c.dst), part, v)])
  }

  // ---------------------------------------------------------------------------
  // inform_int

  /** Does entry `e` wait for an interrupt or for anyone? */
  predicate Alert(e: Proc, n: nat) {
    e.receiving && (e.recvFrom == INTERRUPT || e.recvFrom == n + 10)
  }

  function Woken(e: Proc, n: nat): Proc {
    e.(msg := 0, hasInt := false, receiving := false, recvFrom := n + 20)
  }

  function Notify(c: Core, t: int): Core {
    if !c.Has(t) then c
    else if Alert(c.procs[t], |c.procs|) then
      var at := c.procs[t].msg;
      c.(procs := c.procs[t := Woken(c.procs[t], |c.procs|)],
         mem := c.mem[at := Load(c.mem, at).(source := INTERRUPT, kind := HARD_INT)])
    else c.(procs := c.procs[t := c.procs[t].(hasInt := true)])
  }

  /** Interrupts one after the other. */
  function NotifyAll(ts: seq<int>, c: Core): Core {
    if ts == [] then c else Notify(NotifyAll(ts[..|ts| - 1], c), ts[|ts| - 1])
  }

  lemma {:induction false} NotifyAppend(ts: seq<int>, us: seq<int>, c: Core)
    ensures NotifyAll(ts + us, c) == NotifyAll(us, NotifyAll(ts, c))
  {
    if us == [] {
      assert ts + us == ts;
    } else {
      NotifyAppend(ts, us[..|us| - 1], c);
      assert (ts + us)[..|ts + us| - 1] == ts + us[..|us| - 1];
    }
  }

  // ---------------------------------------------------------------------------
  // Running code

  /** Instructions `i` up to `k` without interruption. */
  function RunCode(code: seq<Instr>, i: nat, k: nat, c: Core): Core
    requires i <= k <= |code|
  {
    if k == i then c else Exec(code[k - 1], RunCode(code, i, k - 1, c))
  }

  function RunAll(code: seq<Instr>, c: Core): Core { RunCode(code, 0, |code|, c) }

  /** Instructions `i` up to `k` when the tasks `irq[j]` are informed after instruction
      `j - 1`. */
  function Play(code: seq<Instr>, irq: seq<seq<int>>, i: nat, k: nat, c: Core): Core
    requires i <= k <= |code| < |irq|
  {
    if k == i then c else NotifyAll(irq[k], Exec(code[k - 1], Play(code, irq, i, k - 1, c)))
  }

  /** All of the code, with interrupts before, between and after its instructions. */
  function PlayAll(code: seq<Instr>, irq: seq<seq<int>>, c: Core): Core
    requires |irq| == |code| + 1
  {
    Play(code, irq, 0, |code|, NotifyAll(irq[0], c))
  }

  lemma {:induction false} PlayJoin(code: seq<Instr>, irq: seq<seq<int>>, i: nat, j: nat, k: nat, c: Core)
    requires i <= j <= k <= |code| < |irq|
    ensures Play(code, irq, i, k, c) == Play(code, irq, j, k, Play(code, irq, i, j, c))
  {
    if j < k {
      PlayJoin(code, irq, i, j, k - 1, c);
    }
  }

  lemma {:induction false} RunJoin(code: seq<Instr>, i: nat, j: nat, k: nat, c: Core)
    requires i <= j <= k <= |code|
    ensures RunCode(code, i, k, c) == RunCode(code, j, k, RunCode(code, i, j, c))
  {
    if j < k {
      RunJoin(code, i, j, k - 1, c);
    }
  }

  /** Without interrupts. */
  lemma {:induction false} PlayQuiet(code: seq<Instr>, irq: seq<seq<int>>, i: nat, k: nat, c: Core)
    requires i <= k <= |code| < |irq| && forall j | i < j <= k :: irq[j] == []
    ensures Play(code, irq, i, k, c) == RunCode(code, i, k, c)
  {
    if i < k {
      PlayQuiet(code, irq, i, k - 1, c);
    }
  }

  // ---------------------------------------------------------------------------
  // Interrupts that do not matter to the code

  predicate LinkField(f: Field) { f in {FlagSending, SendTo, Head, Next} }

  /** The instruction has nothing to do with the alert task `t` and its buffer. */
  predicate Aside(i: Instr, t: int, at: int) {
    match i
    case Put(p, f, v) => (p != t || LinkField(f)) && (f == MsgPtr ==> v != at)
    case Check(p, f, _, _) => p != t || LinkField(f)
    case Dst(a) => a != at
    case Src(a) => a != at
    case DstOf(p) => p != t
    case SrcOf(p) => p != t
    case Copy(_) => true
    case Fill(_, _) => true
  }

  /** The instruction does not look at has_int_msg of task `t` and does not make it
      alert. */
  predicate Calm(i: Instr, t: int, n: nat) {
    match i
    case Put(p, f, v) =>
      p != t || (f != HasInt && (f == FlagReceiving ==> v == 0) && (f == RecvFrom ==> v != INTERRUPT && v != n + 10))
    case Check(p, f, _, _) => p != t || f != HasInt
    case _ => true
  }

  /** No one else uses the buffer of task `t`. */
  ghost predicate OwnBuffer(c: Core, t: int)
    requires c.Has(t)
  {
    var at := c.procs[t].msg;
    at != 0 && c.dst != at && c.src != at && forall p | c.Has(p) && p != t :: c.procs[p].msg != at
  }

  /** From instruction `k` on it does not matter when `t` is informed. */
  ghost predicate Safe(code: seq<Instr>, k: nat, c: Core, t: int) {
    c.Has(t) ==>
      if Alert(c.procs[t], |c.procs|)
      then OwnBuffer(c, t) && forall j | k <= j < |code| :: Aside(code[j], t, c.procs[t].msg)
      else forall j | k <= j < |code| :: Calm(code[j], t, |c.procs|)
  }

  lemma AsideCalm(i: Instr, t: int, at: int, n: nat)
    requires Aside(i, t, at)
    ensures Calm(i, t, n)
  {
  }

  lemma CommuteMemory(i: Instr, c: Core, t: int)
    requires c.Has(t) && OwnBuffer(c, t) && (i.Copy? || i.Fill?)
    ensures Exec(i, Notify(c, t)) == Notify(Exec(i, c), t)
  {
    var l, r := Exec(i, Notify(c, t)), Notify(Exec(i, c), t);
    assert l.mem == r.mem;
  }

  lemma CommuteAlert(i: Instr, c: Core, t: int)
    requires c.Has(t) && Alert(c.procs[t], |c.procs|) && OwnBuffer(c, t) && Aside(i, t, c.procs[t].msg)
    ensures Exec(i, Notify(c, t)) == Notify(Exec(i, c), t)
  {
    hide Load;
    if i.Copy? || i.Fill? {
      CommuteMemory(i, c, t);
    } else {
      assert Exec(i, Notify(c, t)).procs == Notify(Exec(i, c), t).procs;
    }
  }

  lemma CommuteCalm(i: Instr, c: Core, t: int)
    requires c.Has(t) && !Alert(c.procs[t], |c.procs|) && Calm(i, t, |c.procs|)
    ensures Exec(i, Notify(c, t)) == Notify(Exec(i, c), t)
  {
    hide Load, WithPart, PartOf;
    assert Exec(i, Notify(c, t)).procs == Notify(Exec(i, c), t).procs;
  }

  lemma SafeExec(code: seq<Instr>, k: nat, c: Core, t: int)
    requires k < |code| && Safe(code, k, c, t)
    ensures Exec(code[k], Notify(c, t)) == Notify(Exec(code[k], c), t)
    ensures Safe(code, k + 1, Exec(code[k], c), t)
  {
    if c.Has(t) {
      if Alert(c.procs[t], |c.procs|) {
        CommuteAlert(code[k], c, t);
      } else {
        CommuteCalm(code[k], c, t);
      }
    }
  }

  lemma SafeNotify(code: seq<Instr>, k: nat, c: Core, t: int, u: int)
    requires Safe(code, k, c, t)
    ensures Safe(code, k, Notify(c, u), t)
  {
    if c.Has(t) && t == u && Alert(c.procs[t], |c.procs|) {
      forall j | k <= j < |code| ensures Calm(code[j], t, |c.procs|) {
        AsideCalm(code[j], t, c.procs[t].msg, |c.procs|);
      }
    }
  }

  lemma NotifySwap(c: Core, t: int, u: int)
    requires c.Has(t) && Alert(c.procs[t], |c.procs|) ==> OwnBuffer(c, t)
    ensures Notify(Notify(c, t), u) == Notify(Notify(c, u), t)
  {
    hide Alert;
    if t != u && c.Has(t) && c.Has(u) {
      var l, r := Notify(Notify(c, t), u), Notify(Notify(c, u), t);
      assert l.procs == r.procs;
      if Alert(c.procs[t], |c.procs|) && Alert(c.procs[u], |c.procs|) {
        assert c.procs[u].msg != c.procs[t].msg;
        assert l.mem == r.mem;
      }
    }
  }

  // ---------------------------------------------------------------------------
  // Only one process matters

  /** The interrupts for `x`, and those for others. */
  function OnlyOf(ts: seq<int>, x: int): seq<int> {
    if ts == [] then []
    else
      var t := ts[|ts| - 1];
      OnlyOf(ts[..|ts| - 1], x) + if t == x then [t] else []
  }

  function OthersOf(ts: seq<int>, x: int): seq<int> {
    if ts == [] then []
    else
      var t := ts[|ts| - 1];
      OthersOf(ts[..|ts| - 1], x) + if t == x then [] else [t]
  }

  function Only(irq: seq<seq<int>>, x: int): (r: seq<seq<int>>)
    ensures |r| == |irq| && forall k | 0 <= k < |irq| :: r[k] == OnlyOf(irq[k], x)
  {
    seq(|irq|, k requires 0 <= k < |irq| => OnlyOf(irq[k], x))
  }

  /** Those for others after instructions `i` up to `k`. */
  function Others(irq: seq<seq<int>>, x: int, i: nat, k: nat): seq<int>
    requires i <= k < |irq|
  {
    if k == i then [] else Others(irq, x, i, k - 1) + OthersOf(irq[k], x)
  }

  ghost predicate AllSafe(code: seq<Instr>, k: nat, c: Core, x: int) {
    forall t | t != x :: Safe(code, k, c, t)
  }

  lemma AllSafeNotify(code: seq<Instr>, k: nat, c: Core, x: int, u: int)
    requires AllSafe(code, k, c, x)
    ensures AllSafe(code, k, Notify(c, u), x)
  {
    hide Safe, Notify;
    forall t | t != x ensures Safe(code, k, Notify(c, u), t) {
      SafeNotify(code, k, c, t, u);
    }
  }

  lemma {:induction false} AllSafeNotifyAll(code: seq<Instr>, k: nat, c: Core, x: int, ts: seq<int>)
    requires AllSafe(code, k, c, x)
    ensures AllSafe(code, k, NotifyAll(ts, c), x)
  {
    hide AllSafe;
    if ts != [] {
      AllSafeNotifyAll(code, k, c, x, ts[..|ts| - 1]);
      AllSafeNotify(code, k, NotifyAll(ts[..|ts| - 1], c), x, ts[|ts| - 1]);
    }
  }

  lemma SafeOwn(code: seq<Instr>, k: nat, c: Core, t: int)
    requires Safe(code, k, c, t)
    ensures c.Has(t) && Alert(c.procs[t], |c.procs|) ==> OwnBuffer(c, t)
  {
  }

  /** An interrupt for `x` and interrupts for others can change places. */
  lemma {:induction false} Swap(code: seq<Instr>, k: nat, c: Core, x: int, ts: seq<int>)
    requires AllSafe(code, k, c, x) && x !in ts
    ensures Notify(NotifyAll(ts, c), x) == NotifyAll(ts, Notify(c, x))
  {
    hide Safe, Notify, OwnBuffer, Alert;
    if ts != [] {
      var us, t := ts[..|ts| - 1], ts[|ts| - 1];
      Swap(code, k, c, x, us);
      AllSafeNotifyAll(code, k, c, x, us);
      SafeOwn(code, k, NotifyAll(us, c), t);
      NotifySwap(NotifyAll(us, c), t, x);
    }
  }

  lemma {:induction false} OthersNotX(ts: seq<int>, x: int)
    ensures x !in OthersOf(ts, x)
  {
    if ts != [] {
      OthersNotX(ts[..|ts| - 1], x);
    }
  }

  /** Interrupts in one place: those for `x` first, the others with the pending ones. */
  lemma {:induction false} Sorted(code: seq<Instr>, k: nat, c: Core, x: int, pending: seq<int>, ts: seq<int>)
    requires AllSafe(code, k, c, x) && x !in pending
    ensures NotifyAll(ts, NotifyAll(pending, c)) == NotifyAll(pending + OthersOf(ts, x), NotifyAll(OnlyOf(ts, x), c))
  {
    hide AllSafe, Notify;
    if ts == [] {
      assert pending + [] == pending;
    } else {
      var us, t := ts[..|ts| - 1], ts[|ts| - 1];
      var rest, own := pending + OthersOf(us, x), NotifyAll(OnlyOf(us, x), c);
      Sorted(code, k, c, x, pending, us);
      OthersNotX(us, x);
      AllSafeNotifyAll(code, k, c, x, OnlyOf(us, x));
      if t == x {
        Swap(code, k, own, x, rest);
        assert OthersOf(ts, x) == OthersOf(us, x) && OnlyOf(ts, x) == OnlyOf(us, x) + [t];
        NotifyAppend(OnlyOf(us, x), [t], c);
        NotifyOne(own, t);
      } else {
        assert OnlyOf(ts, x) == OnlyOf(us, x);
        assert pending + OthersOf(ts, x) == rest + [t];
        NotifyAppend(rest, [t], own);
        NotifyOne(NotifyAll(rest, own), t);
      }
    }
  }

  lemma NotifyOne(c: Core, t: int)
    ensures NotifyAll([t], c) == Notify(c, t)
  {
    assert [t][..0] == [];
  }

  /** An instruction can be executed before pending interrupts for others. */
  lemma {:induction false} ExecPast(code: seq<Instr>, k: nat, c: Core, x: int, pending: seq<int>)
    requires k < |code| && AllSafe(code, k, c, x) && x !in pending
    ensures Exec(code[k], NotifyAll(pending, c)) == NotifyAll(pending, Exec(code[k], c))
  {
    hide Safe, Notify, Exec;
    if pending != [] {
      var us, t := pending[..|pending| - 1], pending[|pending| - 1];
      ExecPast(code, k, c, x, us);
      AllSafeNotifyAll(code, k, c, x, us);
      SafeExec(code, k, NotifyAll(us, c), t);
    }
  }

  lemma AllSafeExec(code: seq<Instr>, k: nat, c: Core, x: int)
    requires k < |code| && AllSafe(code, k, c, x)
    ensures AllSafe(code, k + 1, Exec(code[k], c), x)
  {
    hide Safe, Notify, Exec;
    var next, j := Exec(code[k], c), k + 1;
    forall t | t != x ensures Safe(code, j, next, t) {
      SafeExec(code, k, c, t);
    }
  }

  lemma {:induction false} OthersHaveNoX(irq: seq<seq<int>>, x: int, i: nat, k: nat)
    requires i <= k < |irq|
    ensures x !in Others(irq, x, i, k)
  {
    if i < k {
      OthersNotX(irq[k], x);
      OthersHaveNoX(irq, x, i, k - 1);
    }
  }

  lemma {:induction false} PlaySafe(code: seq<Instr>, irq: seq<seq<int>>, i: nat, k: nat, c: Core, x: int)
    requires i <= k <= |code| < |irq| && AllSafe(code, i, c, x)
    ensures AllSafe(code, k, Play(code, irq, i, k, c), x)
  {
    hide AllSafe, Exec, NotifyAll;
    if i < k {
      var before := Play(code, irq, i, k - 1, c);
      PlaySafe(code, irq, i, k - 1, c, x);
      AllSafeExec(code, k - 1, before, x);
      AllSafeNotifyAll(code, k, Exec(code[k - 1], before), x, irq[k]);
    }
  }

  /** Interrupts for all but `x` might as well come at the end: what the code does
      depends on those for `x` alone. */
  lemma {:induction false} Bystanders(code: seq<Instr>, irq: seq<seq<int>>, i: nat, k: nat, c: Core, x: int,
      pending: seq<int>)
    requires i <= k <= |code| < |irq| && AllSafe(code, i, c, x) && x !in pending
    ensures Play(code, irq, i, k, NotifyAll(pending, c))
         == NotifyAll(pending + Others(irq, x, i, k), Play(code, Only(irq, x), i, k, c))
  {
    hide AllSafe, Exec, NotifyAll, OnlyOf, OthersOf;
    var own := Only(irq, x);
    if k == i {
      assert pending + [] == pending;
    } else {
      var before := Play(code, own, i, k - 1, c);
      var rest := pending + Others(irq, x, i, k - 1);
      Bystanders(code, irq, i, k - 1, c, x, pending);
      OthersHaveNoX(irq, x, i, k - 1);
      PlaySafe(code, own, i, k - 1, c, x);
      ExecPast(code, k - 1, before, x, rest);
      AllSafeExec(code, k - 1, before, x);
      Sorted(code, k, Exec(code[k - 1], before), x, rest, irq[k]);
      assert pending + Others(irq, x, i, k) == rest + OthersOf(irq[k], x);
    }
  }

  /** The same for a whole piece of code. */
  lemma OnlyXMatters(code: seq<Instr>, irq: seq<seq<int>>, c: Core, x: int) returns (rest: seq<int>)
    requires |irq| == |code| + 1 && AllSafe(code, 0, c, x)
    ensures PlayAll(code, irq, c) == NotifyAll(rest, PlayAll(code, Only(irq, x), c))
    ensures x !in rest && (InTable(irq, |c.procs|) ==> forall t <- rest :: c.Has(t))
  {
    hide AllSafe, Exec, NotifyAll, OnlyOf, OthersOf, Play;
    SortedFirst(code, c, x, irq[0]);
    OthersNotX(irq[0], x);
    OthersHaveNoX(irq, x, 0, |code|);
    AllSafeNotifyAll(code, 0, c, x, OnlyOf(irq[0], x));
    Bystanders(code, irq, 0, |code|, NotifyAll(OnlyOf(irq[0], x), c), x, OthersOf(irq[0], x));
    rest := OthersOf(irq[0], x) + Others(irq, x, 0, |code|);
    if InTable(irq, |c.procs|) {
      OthersAmong(irq[0], x);
      OthersInTable(irq, x, 0, |code|, |c.procs|);
    }
  }

  lemma SortedFirst(code: seq<Instr>, c: Core, x: int, ts: seq<int>)
    requires AllSafe(code, 0, c, x)
    ensures NotifyAll(ts, c) == NotifyAll(OthersOf(ts, x), NotifyAll(OnlyOf(ts, x), c))
  {
    Sorted(code, 0, c, x, [], ts);
    assert [] + OthersOf(ts, x) == OthersOf(ts, x);
  }

  /** All interrupts are for processes of the table. */
  predicate InTable(irq: seq<seq<int>>, n: nat) {
    forall k | 0 <= k < |irq| :: forall t <- irq[k] :: 0 <= t < n
  }

  /** From where interrupts matter to nobody, they might as well come at the end. */
  lemma NoneMatters(code: seq<Instr>, irq: seq<seq<int>>, i: nat, c: Core, pending: seq<int>) returns (rest: seq<int>)
    requires i <= |code| < |irq| && AllSafe(code, i, c, -1)
    requires InTable(irq, |c.procs|) && forall t <- pending :: c.Has(t)
    ensures Play(code, irq, i, |code|, NotifyAll(pending, c)) == NotifyAll(rest, RunCode(code, i, |code|, c))
    ensures forall t <- rest :: c.Has(t)
  {
    hide AllSafe, Exec, Play, NotifyAll;
    Bystanders(code, irq, i, |code|, c, -1, pending);
    rest := pending + Others(irq, -1, i, |code|);
    OthersInTable(irq, -1, i, |code|, |c.procs|);
    forall k | 0 <= k < |irq| ensures Only(irq, -1)[k] == [] {
      NoneOnly(irq[k], -1);
    }
    PlayQuiet(code, Only(irq, -1), i, |code|, c);
  }

  lemma {:induction false} OthersInTable(irq: seq<seq<int>>, x: int, i: nat, k: nat, n: nat)
    requires i <= k < |irq| && InTable(irq, n)
    ensures forall t <- Others(irq, x, i, k) :: 0 <= t < n
  {
    if i < k {
      OthersInTable(irq, x, i, k - 1, n);
      OthersAmong(irq[k], x);
    }
  }

  lemma {:induction false} OthersAmong(ts: seq<int>, x: int)
    ensures forall t <- OthersOf(ts, x) :: t in ts
  {
    if ts != [] {
      OthersAmong(ts[..|ts| - 1], x);
    }
  }

  lemma {:induction false} OnlyAmong(ts: seq<int>, x: int)
    ensures forall t <- OnlyOf(ts, x) :: t == x && t in ts
    ensures x in ts ==> OnlyOf(ts, x) != []
  {
    if ts != [] {
      OnlyAmong(ts[..|ts| - 1], x);
    }
  }

  lemma {:induction false} NoneOnly(ts: seq<int>, x: int)
    requires x !in ts
    ensures OnlyOf(ts, x) == []
  {
    if ts != [] {
      NoneOnly(ts[..|ts| - 1], x);
    }
  }

  /** Everybody is safe when all but `x` are and `x` is. */
  lemma AllAndOne(code: seq<Instr>, k: nat, c: Core, x: int)
    requires AllSafe(code, k, c, x) && Safe(code, k, c, x)
    ensures AllSafe(code, k, c, -1)
  {
    hide Safe;
  }

  /** The interrupts for `x` that come up to instruction `k`, where the first does. */
  lemma UpToHit(code: seq<Instr>, own: seq<seq<int>>, k: nat, c: Core)
    requires k <= |code| < |own| && forall j | 0 <= j < k :: own[j] == []
    ensures Play(code, own, 0, k, NotifyAll(own[0], c)) == NotifyAll(own[k], RunCode(code, 0, k, c))
  {
    if k > 0 {
      PlayQuiet(code, own, 0, k - 1, c);
    }
  }

  /** If `x` is informed only from instruction `w` on, from where that does not matter,
      interrupts might as well come at the end. */
  lemma Serial(code: seq<Instr>, irq: seq<seq<int>>, c: Core, x: int, w: nat) returns (rest: seq<int>)
    requires |irq| == |code| + 1 && InTable(irq, |c.procs|) && c.Has(x) && w <= |code|
    requires AllSafe(code, 0, c, x) && Safe(code, w, RunCode(code, 0, w, c), x)
    requires forall j | 0 <= j < w :: x !in irq[j]
    ensures PlayAll(code, irq, c) == NotifyAll(rest, RunAll(code, c)) && forall t <- rest :: c.Has(t)
  {
    hide AllSafe, Exec, Safe, Play, RunCode, NotifyAll;
    OnlyAmong(irq[w], x);
    rest := AfterHit(code, irq, c, x, w, RunCode(code, 0, w, c), OnlyOf(irq[w], x));
    RunJoin(code, 0, w, |code|, c);
  }

  /** If `x` is informed first at instruction `k` and it does not matter after that. */
  lemma FirstHit(code: seq<Instr>, irq: seq<seq<int>>, c: Core, x: int, k: nat) returns (rest: seq<int>)
    requires |irq| == |code| + 1 && InTable(irq, |c.procs|) && c.Has(x) && k <= |code|
    requires AllSafe(code, 0, c, x) && Safe(code, k, Notify(RunCode(code, 0, k, c), x), x)
    requires x in irq[k] && forall j | 0 <= j < k :: x !in irq[j]
    ensures PlayAll(code, irq, c) == NotifyAll(rest, RunCode(code, k, |code|, Notify(RunCode(code, 0, k, c), x)))
    ensures forall t <- rest :: c.Has(t)
  {
    hide AllSafe, Exec, Safe, Play, RunCode, NotifyAll, Notify;
    var own, ck := OnlyOf(irq[k], x), RunCode(code, 0, k, c);
    OnlyAmong(irq[k], x);
    assert own[0] in own && own[0] == x;
    assert [x] + own[1..] == own;
    forall t | t in own[1..] ensures t == x {
      assert t in own;
    }
    NotifyAppend([x], own[1..], ck);
    NotifyOne(ck, x);
    rest := AfterHit(code, irq, c, x, k, Notify(ck, x), own[1..]);
  }

  lemma {:induction false} RunKeepsSize(code: seq<Instr>, i: nat, k: nat, c: Core)
    requires i <= k <= |code|
    ensures |RunCode(code, i, k, c).procs| == |c.procs|
  {
    if i < k {
      RunKeepsSize(code, i, k - 1, c);
    }
  }

  lemma AfterHit(code: seq<Instr>, irq: seq<seq<int>>, c: Core, x: int, k: nat, ck: Core, more: seq<int>)
      returns (rest: seq<int>)
    requires |irq| == |code| + 1 && InTable(irq, |c.procs|) && c.Has(x) && k <= |code|
    requires AllSafe(code, 0, c, x) && Safe(code, k, ck, x)
    requires ck == RunCode(code, 0, k, c) || ck == Notify(RunCode(code, 0, k, c), x)
    requires NotifyAll(OnlyOf(irq[k], x), RunCode(code, 0, k, c)) == NotifyAll(more, ck)
    requires forall t <- more :: t == x
    requires forall j | 0 <= j < k :: x !in irq[j]
    ensures PlayAll(code, irq, c) == NotifyAll(rest, RunCode(code, k, |code|, ck)) && forall t <- rest :: c.Has(t)
  {
    hide AllSafe, Exec, Safe, Play, RunCode, NotifyAll, Notify;
    var own := Only(irq, x);
    var others := OnlyXMatters(code, irq, c, x);
    forall j | 0 <= j < k ensures own[j] == [] {
      NoneOnly(irq[j], x);
    }
    UpToHit(code, own, k, c);
    PlayJoin(code, own, 0, k, |code|, NotifyAll(own[0], c));
    RunSafe(code, k, c, x);
    AllSafeNotify(code, k, RunCode(code, 0, k, c), x, x);
    AllAndOne(code, k, ck, x);
    RunKeepsSize(code, 0, k, c);
    NotifyKeepsSize(RunCode(code, 0, k, c), x);
    OnlyInTable(irq, x, |c.procs|);
    var mine := NoneMatters(code, own, k, ck, more);
    NotifyAppend(mine, others, RunCode(code, k, |code|, ck));
    rest := mine + others;
  }

  lemma NotifyKeepsSize(c: Core, t: int)
    ensures |Notify(c, t).procs| == |c.procs|
  {
  }

  lemma OnlyInTable(irq: seq<seq<int>>, x: int, n: nat)
    requires InTable(irq, n)
    ensures InTable(Only(irq, x), n)
  {
    forall k | 0 <= k < |irq| ensures forall t <- Only(irq, x)[k] :: 0 <= t < n {
      OnlyAmong(irq[k], x);
    }
  }

  lemma {:induction false} RunSafe(code: seq<Instr>, k: nat, c: Core, x: int)
    requires k <= |code| && AllSafe(code, 0, c, x)
    ensures AllSafe(code, k, RunCode(code, 0, k, c), x)
  {
    hide AllSafe, Exec;
    if k > 0 {
      RunSafe(code, k - 1, c, x);
      AllSafeExec(code, k - 1, RunCode(code, 0, k - 1, c), x);
    }
  }

  /** Code that ends well has been well all along. */
  lemma {:induction false} OkBefore(code: seq<Instr>, j: nat, k: nat, c: Core)
    requires j <= k <= |code| && RunCode(code, 0, k, c).ok
    ensures RunCode(code, 0, j, c).ok
  {
    if j < k {
      OkBefore(code, j, k - 1, c);
    }
  }
}
