/** The code of proc.c: deadlock, msg_send, msg_receive, sys_sendrec and inform_int, on a
    table whose entries are linked into queues.  Interrupts come between any two
    assignments or assertions: `irq` says which tasks are informed when. */
module IpcKernel {
  import opened Ipc
  import opened IpcTable
  import opened IpcCode
  import opened IpcPaths
  import opened IpcReceive
  import opened IpcWait
  import opened IpcRuns

  const SEND := 1
  const RECEIVE := 2

  /** How sys_sendrec ends: it returns, an assertion fails or it panics, or it uses an
      entry outside the process table. */
  datatype Outcome = Returns | Panics | OffTable

  class ProcTable {
    var procs: seq<Proc>
    var mem: Buffers
    var dst: int              // arguments of a copy under way
    var src: int
    var ok: bool              // no assertion has failed
    ghost var view: State     // what the table stands for

    function State(): Core
      reads this
    {
      Core(procs, mem, dst, src, ok)
    }

    ghost predicate Valid()
      reads this
    {
      Stands(view, State())
    }

    /** kernel_main: no process is blocked. */
    constructor (n: nat, mem: Buffers)
      ensures Valid() && |view.status| == n && forall p | view.Pid(p) :: view.status[p].Ready?
    {
      procs := seq(n, i => Proc(false, false, 0, n + 20, n + 20, false, NIL, NIL));
      this.mem, dst, src, ok := mem, 0, 0, true;
      view := Ipc.State(seq(n, i => Ready), seq(n, i => []), seq(n, i => false), mem);
      new;
      StartGood(view);
    }

    /** deadlock: does `dest` wait, through a chain of senders, for `src`? */
    method Deadlock(src: int, dest: int) returns (found: bool)
      requires Valid() && view.Pid(src) && view.Pid(dest) && src != dest
      ensures found <==> Reaches(view, dest, src)
    {
      hide Reaches, StatusOk, QueueOk;
      ghost var rank :| Ranked(view, rank);
      var p := dest;
      while procs[p].sending
        invariant view.Pid(p) && p != src && (Reaches(view, dest, src) <==> Reaches(view, p, src))
        decreases rank[p]
      {
        ReachesUnfold(view, p, src);
        ReachesUnfold(view, procs[p].sendTo, src);
        if procs[p].sendTo == src {
          ShowPath(src, dest);
          return true;
        }
        p := procs[p].sendTo;
      }
      ReachesUnfold(view, p, src);
      return false;
    }

    /** The loop that prints the cycle: each process on it has a message. */
    method ShowPath(src: int, dest: int)
      requires Valid() && view.Pid(src) && view.Pid(dest) && src != dest && Reaches(view, dest, src)
    {
      hide Reaches, QueueOk;
      ghost var rank :| Ranked(view, rank);
      var p := dest;
      while p != src
        invariant view.Pid(p) && Reaches(view, p, src)
        decreases rank[p]
      {
        ReachesUnfold(view, p, src);
        assert StatusOk(view, p);
        assert procs[p].msg != 0;
        p := procs[p].sendTo;
      }
    }

    // -------------------------------------------------------------------------
    // Lists

    /** The walk to the end of the list of `d`. */
    method LastEntry(d: int, ghost q: seq<int>) returns (p: int)
      requires 0 <= d < |procs| && Linked(procs, d, q)
      ensures p == LastOf(q)
    {
      EndsWithNil(procs, d, q, 0);
      p := procs[d].head;
      if p != NIL {
        ghost var i: nat := 0;
        EndsWithNil(procs, d, q, 1);
        while procs[p].next != NIL
          invariant i < |q| && p == q[i] && 0 <= p < |procs|
          invariant procs[p].next == At(q, i + 1) && (At(q, i + 1) == NIL <==> i + 1 == |q|)
          decreases |q| - i
        {
          p := procs[p].next;
          i := i + 1;
          EndsWithNil(procs, d, q, i + 1);
        }
      }
    }

    /** The search for `from` in the list of `r`, keeping the entry before it. */
    method Find(r: int, from: int, ghost q: seq<int>) returns (prev: int)
      requires 0 <= r < |procs| && Linked(procs, r, q) && NoRepeats(q) && from in q
      ensures prev == EntryBefore(q, PlaceIn(q, from))
    {
      hide Linked;
      prev := NIL;
      var p := procs[r].head;
      ghost var i: nat := 0;
      FirstLink(r, q);
      while p != NIL
        invariant i < |q| && p == q[i] && 0 <= p < |procs|
        invariant prev == EntryBefore(q, i) && from in q[i..]
        decreases |q| - i
      {
        if p == from {
          break;
        }
        prev := p;
        NextLink(r, q, i);
        assert q[i..] == [q[i]] + q[i + 1..];
        p := procs[p].next;
        i := i + 1;
      }
      OnePlace(q, i, PlaceIn(q, from));
    }

    lemma OnePlace(q: seq<int>, i: nat, j: nat)
      requires NoRepeats(q) && i < |q| && j < |q| && q[i] == q[j]
      ensures i == j
    {
    }

    lemma FirstLink(d: int, q: seq<int>)
      requires 0 <= d < |procs| && Linked(procs, d, q) && q != []
      ensures procs[d].head == q[0] && 0 <= q[0] < |procs|
    {
    }

    lemma NextLink(d: int, q: seq<int>, i: nat)
      requires 0 <= d < |procs| && Linked(procs, d, q) && i + 1 < |q|
      ensures 0 <= q[i] < |procs| && procs[q[i]].next == q[i + 1] && 0 <= q[i + 1] < |procs|
    {
      assert procs[q[i]].next == At(q, i + 1);
    }

    // -------------------------------------------------------------------------
    // Executing code

    /** inform_int. */
    method InformInt(t: int)
      requires 0 <= t < |procs|
      modifies this`procs, this`mem
      ensures State() == Notify(old(State()), t)
    {
      var n := |procs|;
      if procs[t].receiving && (procs[t].recvFrom == INTERRUPT || procs[t].recvFrom == n + 10) {
        var at := procs[t].msg;
        mem := mem[at := Load(mem, at).(source := INTERRUPT)];
        mem := mem[at := Load(mem, at).(kind := HARD_INT)];
        procs := procs[t := procs[t].(msg := 0)];
        procs := procs[t := procs[t].(hasInt := false)];
        procs := procs[t := procs[t].(receiving := false)];
        procs := procs[t := procs[t].(recvFrom := n + 20)];
      } else {
        procs := procs[t := procs[t].(hasInt := true)];
      }
    }

    method Interrupts(ts: seq<int>)
      requires forall t <- ts :: 0 <= t < |procs|
      modifies this`procs, this`mem
      ensures State() == NotifyAll(ts, old(State())) && |procs| == old(|procs|)
    {
      var i := 0;
      while i < |ts|
        invariant 0 <= i <= |ts| && |procs| == old(|procs|)
        invariant State() == NotifyAll(ts[..i], old(State()))
      {
        assert ts[..i + 1][..i] == ts[..i] && ts[i] in ts;
        InformInt(ts[i]);
        i := i + 1;
      }
      assert ts[..i] == ts;
    }

    /** One assignment, assertion or part of a copy. */
    method Do(i: Instr)
      requires ok
      modifies this`procs, this`mem, this`dst, this`src, this`ok
      ensures State() == Exec(i, old(State())) && |procs| == old(|procs|)
    {
      match i
      case Put(p, f, v) =>
        if 0 <= p < |procs| {
          procs := procs[p := Set(procs[p], f, v)];
        }
      case Check(p, f, v, same) => ok := 0 <= p < |procs| && ((Get(procs[p], f) == v) == same);
      case Dst(at) => dst := at;
      case DstOf(p) => dst := if 0 <= p < |procs| then procs[p].msg else 0;
      case Src(at) => src := at;
      case SrcOf(p) => src := if 0 <= p < |procs| then procs[p].msg else 0;
      case Copy(part) => mem := mem[dst := WithPart(Load(mem, dst), part, PartOf(Load(mem, src), part))];
      case Fill(part, v) => mem := mem[dst := WithPart(Load(mem, dst), part, v)];
    }

    /** A piece of code with interrupts before, between and after its instructions. */
    method Execute(code: seq<Instr>, irq: seq<seq<int>>)
      requires |irq| == |code| + 1 && InTable(irq, |procs|)
      modifies this`procs, this`mem, this`dst, this`src, this`ok
      ensures State() == PlayAll(code, irq, old(State()))
    {
      hide Exec, NotifyAll;
      Interrupts(irq[0]);
      var k := 0;
      while k < |code|
        invariant 0 <= k <= |code| && |procs| == old(|procs|)
        invariant State() == Play(code, irq, 0, k, NotifyAll(irq[0], old(State())))
      {
        if ok {
          Do(code[k]);
        } else {
          Stopped(code[k], State());
        }
        k := k + 1;
        Interrupts(irq[k]);
      }
    }

    lemma Stopped(i: Instr, c: Core)
      requires !c.ok
      ensures Exec(i, c) == c
    {
    }

    /** The end of an operation. */
    method Done()
      modifies this`dst, this`src, this`view
      ensures State() == Settle(old(State())) && view == ViewOf(State())
    {
      dst, src := 0, 0;
      view := ViewOf(State());
    }

    // -------------------------------------------------------------------------
    // The operations

    /** msg_send of the stamped message at `m`, up to interrupts that come after it. */
    method MsgSend(s: int, d: int, m: int, irq: seq<seq<int>>)
      requires Valid() && SendAllowed(view, s, d, m) && Load(mem, m).source == s && |view.queues| == |view.status|
      requires Reaches(view, d, s) || (|irq| == |SendPath(view, s, d, m)| + 1 && InTable(irq, |procs|))
      modifies this
      ensures ok <==> SendEndsWell(old(view), s, d, irq)
      ensures !Reaches(old(view), d, s) ==> State() == Settle(PlayAll(SendPath(old(view), s, d, m), irq, old(State())))
    {
      hide Reaches, Good, Linked, PlayAll, Load;
      ghost var a, was := view, State();
      var stuck := Deadlock(s, d);
      if stuck {
        ok := false;
        return;
      }
      SendOk(a, was, s, d, m, irq);
      var n := |procs|;
      if procs[d].receiving && (procs[d].recvFrom == s || procs[d].recvFrom == n + 10) {
        Execute(HandOverCode(s, d, m, n), irq);
      } else {
        ListInside(procs, a, d);
        var tail := LastEntry(d, a.queues[d]);
        Execute(QueueUpCode(s, d, m, tail, n), irq);
      }
      Done();
    }

    /** msg_receive, likewise. */
    method MsgReceive(r: int, from: int, m: int, irq: seq<seq<int>>)
      requires Valid() && ReceiveAllowed(view, r, from, m)
      requires |view.queues| == |view.status| == |view.ints| == |procs|
      requires |irq| == |ReceivePath(view, State(), r, from, m)| + 1 && InTable(irq, |procs|)
      modifies this
      ensures ok <==> ReceiveEndsWell(old(view), r, from, irq)
      ensures State() == Settle(PlayAll(ReceivePath(old(view), old(State()), r, from, m), irq, old(State())))
    {
      hide Reaches, StatusOk, Acyclic, Linked, PlayAll, Survives;
      ghost var a, was := view, State();
      ReceiveOk(a, was, r, from, m, irq);
      ListInside(procs, a, r);
      assert QueueOk(a, r);
      EndsWithNil(procs, r, a.queues[r], 0);
      var n := |procs|;
      if procs[r].hasInt && (from == n + 10 || from == INTERRUPT) {
        Execute(NotedCode(r, m, n), irq);
      } else if from == n + 10 && procs[r].head != NIL {
        FirstLink(r, a.queues[r]);
        assert a.queues[r][0] in a.queues[r];
        var s := procs[r].head;
        Execute(TakeCode(r, s, NIL, procs[s].next, m, n), irq);
      } else if 0 <= from < n && procs[from].sending && procs[from].sendTo == r {
        assert from in a.queues[r];
        var prev := Find(r, from, a.queues[r]);
        Execute(TakeCode(r, from, prev, procs[from].next, m, n), irq);
      } else {
        Execute(WaitCode(r, from, m, n), irq);
      }
      Done();
    }

    /** The event that sys_sendrec is for this function number. */
    function EventOf(op: int, caller: int, other: int, m: int, irq: seq<seq<int>>): FineEvent {
      if op == SEND then FineSend(caller, other, m, irq) else FineReceive(caller, other, m, irq)
    }

    /** sys_sendrec with the function number `op`, called by a process that is running.
        Whenever it returns it has performed a step of the runs of `IpcRuns`.  It panics
        for numbers that are no process, for its own, for other functions, for a send
        that would close a cycle, and when interrupts make an assertion fail.  A send to
        ANY or INTERRUPT is let through and uses an entry that does not exist. */
    method SysSendrec(op: int, caller: int, other: int, m: int, irq: seq<seq<int>>) returns (r: Outcome)
      requires Valid() && view.Pid(caller) && view.status[caller].Ready? && Private(view, m)
      requires |view.queues| == |view.status| == |view.ints| == |procs| && InTable(irq, |procs|)
      requires op == SEND && SendAllowed(view, caller, other, m) ==> |irq| == |SendPath(view, caller, other, m)| + 1
      requires op == RECEIVE && ReceiveAllowed(view, caller, other, m) ==>
                 |irq| == |ReceivePath(view, State(), caller, other, m)| + 1
      modifies this
      ensures r.OffTable? <==> op == SEND && (other == old(view).Any() || other == INTERRUPT)
      ensures r.Returns? <==>
                || (op == SEND && SendAllowed(old(view), caller, other, m)
                    && SendEndsWell(old(view), caller, other, irq))
                || (op == RECEIVE && ReceiveAllowed(old(view), caller, other, m)
                    && ReceiveEndsWell(old(view), caller, other, irq))
      ensures r.Returns? ==> Valid() && FineStep(old(State()), EventOf(op, caller, other, m, irq), State())
    {
      hide Reaches, Good, Tied, PlayAll, SendEndsWell, ReceiveEndsWell, SendPath, ReceivePath, FineStep, ViewOf;
      ghost var a, was := view, State();
      var n := |procs|;
      if !(0 <= other < n || other == n + 10 || other == INTERRUPT) {
        return Panics;
      }
      mem := mem[m := Load(mem, m).(source := caller)];
      if other == caller {
        return Panics;
      }
      StampStands(a, was, caller, m);
      StampPrivate(a, caller, m);
      view := Stamp(a, caller, m);
      if op == SEND {
        if !(0 <= other < n) {
          return OffTable;
        }
        StampPaths(a, was, caller, other, m);
        StampSend(a, caller, other, m, irq);
        MsgSend(caller, other, m, irq);
        if !ok {
          return Panics;
        }
        WellMeans(a, caller, other, irq);
        SendIsStep(a, was, caller, other, m, irq, State());
      } else if op == RECEIVE {
        StampReceive(a, was, caller, other, m);
        StampWell(a, caller, other, m, irq);
        MsgReceive(caller, other, m, irq);
        if !ok {
          return Panics;
        }
        ReceiveIsStep(a, was, caller, other, m, irq, State());
      } else {
        return Panics;
      }
      FineConserves(a, was, EventOf(op, caller, other, m, irq), State(), 0, 0);
      view := ViewOf(State());
      return Returns;
    }
  }

  lemma StampSend(a: State, s: int, d: int, m: int, irq: seq<seq<int>>)
    requires a.Pid(d)
    ensures Reaches(Stamp(a, s, m), d, s) <==> Reaches(a, d, s)
    ensures SendEndsWell(Stamp(a, s, m), s, d, irq) <==> SendEndsWell(a, s, d, irq)
  {
    hide Reaches;
    StampReaches(a, s, m, d, s);
  }

  lemma WellMeans(a: State, s: int, d: int, irq: seq<seq<int>>)
    requires a.Pid(d) && SendEndsWell(a, s, d, irq)
    ensures !Reaches(a, d, s)
  {
  }

  lemma StampWell(a: State, r: int, src: int, m: int, irq: seq<seq<int>>)
    requires a.Pid(r) && |a.queues| == |a.status| && |a.ints| == |a.status|
    ensures ReceiveEndsWell(Stamp(a, r, m), r, src, irq) <==> ReceiveEndsWell(a, r, src, irq)
  {
    hide Survives;
  }

  lemma SendIsStep(a: State, c: Core, s: int, d: int, m: int, irq: seq<seq<int>>, c': Core)
    requires Stands(a, c) && SendAllowed(a, s, d, m) && |a.queues| == |a.status| && SendEndsWell(a, s, d, irq)
    requires |irq| == |SendPath(a, s, d, m)| + 1 && InTable(irq, |c.procs|) && c'.ok
    requires c' == Settle(PlayAll(SendPath(a, s, d, m), irq, StampCore(c, s, m)))
    ensures FineStep(c, FineSend(s, d, m, irq), c')
  {
    hide Stands, PlayAll, SendPath, Reaches;
    ViewIs(a, c);
  }

  lemma ReceiveIsStep(a: State, c: Core, r: int, src: int, m: int, irq: seq<seq<int>>, c': Core)
    requires Stands(a, c) && ReceiveAllowed(a, r, src, m) && |a.queues| == |a.status| == |a.ints| == |c.procs|
    requires |irq| == |ReceivePath(a, c, r, src, m)| + 1 && InTable(irq, |c.procs|) && c'.ok
    requires c' == Settle(PlayAll(ReceivePath(a, c, r, src, m), irq, StampCore(c, r, m)))
    ensures FineStep(c, FineReceive(r, src, m, irq), c')
  {
    hide Stands, PlayAll, ReceivePath;
    ViewIs(a, c);
  }
}
