/** Runs in which interrupts come between any two instructions of a send or a receive. */
module IpcRuns {
  import opened Ipc
  import opened IpcTable
  import opened IpcCode
  import opened IpcPaths
  import opened IpcReceive
  import opened IpcWait

  // ---------------------------------------------------------------------------
  // What a table stands for

  lemma {:induction false} SameFrom(procs: seq<Proc>, d: int, q: seq<int>, q': seq<int>, i: nat)
    requires 0 <= d < |procs| && Linked(procs, d, q) && Linked(procs, d, q') && i <= |q| && i <= |q'|
    ensures At(q, i) == At(q', i) && q[..i] == q'[..i]
  {
    hide At;
    if i > 0 {
      SameFrom(procs, d, q, q', i - 1);
      assert q[i - 1] == At(q, i - 1) == At(q', i - 1) == q'[i - 1] by {
        AtInside(q, i - 1);
        AtInside(q', i - 1);
      }
      assert procs[q[i - 1]].next == At(q, i) && procs[q'[i - 1]].next == At(q', i);
      assert q[..i] == q[..i - 1] + [q[i - 1]] && q'[..i] == q'[..i - 1] + [q'[i - 1]];
    }
  }

  lemma AtInside(q: seq<int>, i: nat)
    requires i < |q|
    ensures At(q, i) == q[i]
  {
  }

  /** A table entry starts one list only. */
  lemma OneListOnly(procs: seq<Proc>, d: int, q: seq<int>, q': seq<int>)
    requires 0 <= d < |procs| && Linked(procs, d, q) && Linked(procs, d, q')
    ensures q == q'
  {
    var k := if |q| <= |q'| then |q| else |q'|;
    SameFrom(procs, d, q, q', k);
    EndsWithNil(procs, d, q, k);
    EndsWithNil(procs, d, q', k);
    assert q == q[..k] && q' == q'[..k];
  }

  ghost function ListAt(procs: seq<Proc>, d: int): seq<int> {
    if 0 <= d < |procs| && exists q :: Linked(procs, d, q) then
      var q :| Linked(procs, d, q); q
    else []
  }

  function StatusOf(e: Proc): Status {
    if e.sending then Sending(e.sendTo, e.msg) else if e.receiving then Waiting(e.recvFrom, e.msg) else Ready
  }

  ghost function ViewOf(c: Core): State {
    State(seq(|c.procs|, p requires 0 <= p < |c.procs| => StatusOf(c.procs[p])),
          seq(|c.procs|, p requires 0 <= p < |c.procs| => ListAt(c.procs, p)),
          seq(|c.procs|, p requires 0 <= p < |c.procs| => c.procs[p].hasInt), c.mem)
  }

  lemma ViewIs(a: State, c: Core)
    requires Stands(a, c)
    ensures ViewOf(c) == a
  {
    hide Good;
    forall p | 0 <= p < |c.procs|
      ensures StatusOf(c.procs[p]) == a.status[p] && ListAt(c.procs, p) == a.queues[p] && c.procs[p].hasInt == a.ints[p]
    {
      assert Linked(c.procs, p, a.queues[p]);
      OneListOnly(c.procs, p, ListAt(c.procs, p), a.queues[p]);
    }
    var v := ViewOf(c);
    assert v.status == a.status && v.queues == a.queues && v.ints == a.ints;
  }

  // ---------------------------------------------------------------------------
  // Interrupts one after the other

  predicate Tasks(ts: seq<int>, n: nat) { forall i | 0 <= i < |ts| :: 0 <= ts[i] < n }

  function InformAll(ts: seq<int>, a: State): (a': State)
    requires |a.ints| == |a.status| && Tasks(ts, |a.status|)
    ensures |a'.status| == |a.status| == |a'.ints|
  {
    if ts == [] then a else Inform(InformAll(ts[..|ts| - 1], a), ts[|ts| - 1])
  }

  lemma {:induction false} NotifyAllStands(ts: seq<int>, a: State, c: Core)
    requires Stands(a, c) && |a.ints| == |a.status| && Tasks(ts, |a.status|)
    ensures Stands(InformAll(ts, a), NotifyAll(ts, c))
  {
    hide Stands, Inform, Notify;
    if ts != [] {
      NotifyAllStands(ts[..|ts| - 1], a, c);
      SameSize(InformAll(ts[..|ts| - 1], a), NotifyAll(ts[..|ts| - 1], c));
      NotifyStands(InformAll(ts[..|ts| - 1], a), NotifyAll(ts[..|ts| - 1], c), ts[|ts| - 1]);
    }
  }

  lemma {:induction false} SettleNotify(ts: seq<int>, c: Core)
    ensures Settle(NotifyAll(ts, c)) == NotifyAll(ts, Settle(c))
  {
    if ts != [] {
      SettleNotify(ts[..|ts| - 1], c);
    }
  }

  /** Interrupts leave what senders have ready, and buffers that nobody waits with. */
  lemma {:induction false} InformAllKeeps(ts: seq<int>, a: State, s: int, d: int, at: int)
    requires Good(a) && |a.ints| == |a.status| && Tasks(ts, |a.status|)
    requires forall p | a.Pid(p) && a.status[p].Waiting? :: a.status[p].at != at
    ensures var a' := InformAll(ts, a);
            && Good(a') && Pending(a', s, d) == Pending(a, s, d) && Load(a'.mem, at) == Load(a.mem, at)
            && forall p | a'.Pid(p) && a'.status[p].Waiting? :: a'.status[p].at != at
  {
    hide Good, Pending;
    if ts != [] {
      var us, t := ts[..|ts| - 1], ts[|ts| - 1];
      InformAllKeeps(us, a, s, d, at);
      var b := InformAll(us, a);
      GoodShape(b);
      InformGood(b, t);
      StepConserves(b, Notice(t), Inform(b, t), s, d);
      NothingNow(b, t, s, d);
      assert Pending(b, s, d) + [] == Pending(b, s, d)
          && [] + Pending(Inform(b, t), s, d) == Pending(Inform(b, t), s, d);
    }
  }

  lemma NothingNow(a: State, t: int, s: int, d: int)
    requires Good(a)
    ensures |a.queues| == |a.status| && |a.ints| == |a.status|
    ensures a.Pid(t) ==> SentNow(a, Notice(t), s, d) == [] && GotNow(a, Notice(t), Inform(a, t), s, d) == []
  {
  }

  // ---------------------------------------------------------------------------
  // Fine runs

  /** An operation with the tasks informed before each of its instructions and after the
      last, an interrupt between operations, or processes at work. */
  datatype FineEvent =
    | FineSend(from: int, to: int, at: int, irq: seq<seq<int>>)
    | FineReceive(who: int, src: int, at: int, irq: seq<seq<int>>)
    | FineNotice(task: int)
    | FineCompute(mem: Buffers)

  function StampCore(c: Core, p: int, at: int): Core {
    c.(mem := c.mem[at := Load(c.mem, at).(source := p)])
  }

  /** The code that msg_send chooses. */
  function SendPath(a: State, s: int, d: int, m: int): seq<Instr>
    requires a.Pid(d) && |a.queues| == |a.status|
  {
    if Awaits(a, d, s) then HandOverCode(s, d, m, |a.status|) else QueueUpCode(s, d, m, LastOf(a.queues[d]), |a.status|)
  }

  /** The place of `x` in a list, and the entry before it. */
  function PlaceIn(q: seq<int>, x: int): (i: nat)
    ensures x in q ==> i < |q| && q[i] == x
  {
    if q == [] || q[0] == x then 0 else 1 + PlaceIn(q[1..], x)
  }

  function EntryBefore(q: seq<int>, i: nat): int { if 0 < i <= |q| then q[i - 1] else NIL }

  /** The code that msg_receive chooses. */
  function ReceivePath(a: State, c: Core, r: int, src: int, m: int): seq<Instr>
    requires a.Pid(r) && |a.queues| == |a.status| && |a.ints| == |a.status| && |c.procs| == |a.status|
  {
    var s := Chosen(a, r, src);
    if Notified(a, r, src) then NotedCode(r, m, |a.status|)
    else if a.SendsTo(s, r) then
      TakeCode(r, s, EntryBefore(a.queues[r], PlaceIn(a.queues[r], s)), c.procs[s].next, m, |a.status|)
    else WaitCode(r, src, m, |a.status|)
  }

  /** An event that does not end in a panic. */
  ghost predicate FineStep(c: Core, e: FineEvent, c': Core) {
    var a := ViewOf(c);
    match e
    case FineSend(s, d, m, irq) =>
      && SendAllowed(a, s, d, m) && !Reaches(a, d, s)
      && |irq| == |SendPath(a, s, d, m)| + 1 && InTable(irq, |c.procs|)
      && c' == Settle(PlayAll(SendPath(a, s, d, m), irq, StampCore(c, s, m))) && c'.ok
    case FineReceive(r, src, m, irq) =>
      && ReceiveAllowed(a, r, src, m)
      && |irq| == |ReceivePath(a, c, r, src, m)| + 1 && InTable(irq, |c.procs|)
      && c' == Settle(PlayAll(ReceivePath(a, c, r, src, m), irq, StampCore(c, r, m))) && c'.ok
    case FineNotice(t) => c.Has(t) && c' == Notify(c, t)
    case FineCompute(m) =>
      && c' == c.(mem := m)
      && forall p | a.Pid(p) && !a.status[p].Ready? :: Load(m, a.status[p].at) == Load(c.mem, a.status[p].at)
  }

  /** A send to a process that waits for anyone. */
  predicate ToAnyone(a: State, e: FineEvent) {
    e.FineSend? && a.Pid(e.to) && a.status[e.to].Waiting? && a.status[e.to].from == a.Any()
  }

  ghost predicate FineRun(cs: seq<Core>, es: seq<FineEvent>) {
    && |cs| == |es| + 1
    && cs[0].ok && cs[0].dst == 0 && cs[0].src == 0
    && (forall p | 0 <= p < |cs[0].procs| :: Shows(cs[0].procs[p], Ready, |cs[0].procs|) && cs[0].procs[p].head == NIL)
    && forall i: nat {:trigger es[i]} | i < |es| :: FineStep(cs[i], es[i], cs[i + 1])
  }

  // ---------------------------------------------------------------------------
  // Every event is an operation followed by interrupts

  /** The event as an operation that is not interrupted. */
  function Whole(e: FineEvent): Event {
    match e
    case FineSend(s, d, m, _) => DoSend(s, d, m)
    case FineReceive(r, src, m, _) => DoReceive(r, src, m)
    case FineNotice(t) => Notice(t)
    case FineCompute(m) => Compute(m)
  }

  lemma StampStands(a: State, c: Core, p: int, m: int)
    requires Stands(a, c) && a.Pid(p) && a.status[p].Ready? && Private(a, m)
    ensures Stands(Stamp(a, p, m), StampCore(c, p, m))
  {
    hide QueueOk, Acyclic, StatusOk, Shows, Linked;
    StampGood(a, p, m);
  }

  lemma SendSerial(a: State, c: Core, s: int, d: int, m: int, irq: seq<seq<int>>) returns (rest: seq<int>)
    requires Stands(a, c) && SendAllowed(a, s, d, m) && !Reaches(a, d, s) && Load(a.mem, m).source == s
    requires |a.queues| == |a.status| && |irq| == |SendPath(a, s, d, m)| + 1 && InTable(irq, |c.procs|)
    requires Awaits(a, d, s) ==> a.status[d].from != a.Any()
    ensures Tasks(rest, |a.status|) && |a.ints| == |a.status|
    ensures Stands(InformAll(rest, Post(a, s, d, m)), Settle(PlayAll(SendPath(a, s, d, m), irq, c)))
  {
    hide Stands, SendAllowed, PlayAll, RunAll, NotifyAll, AllSafe, Reaches, HandOverCode, QueueUpCode, Post, InformAll;
    SameSize(a, c);
    SendPids(a, s, d, m);
    var code := SendPath(a, s, d, m);
    HandOverActs(s, d, m, |c.procs|);
    if Awaits(a, d, s) {
      rest := HandOverSerial(a, c, s, d, m, irq);
      HandOverStands(a, c, s, d, m);
    } else {
      QueueUpSafe(a, c, s, d, m, LastOf(a.queues[d]));
      rest := AllSerial(code, irq, c);
      QueueUpStands(a, c, s, d, m);
      SettledAlready(Post(a, s, d, m), RunAll(code, c));
    }
    Finish(rest, Post(a, s, d, m), RunAll(code, c), |c.procs|);
  }

  lemma SendPids(a: State, s: int, d: int, m: int)
    requires SendAllowed(a, s, d, m) && |a.queues| == |a.status|
    ensures a.Pid(s) && a.Pid(d) && |Post(a, s, d, m).status| == |a.status| && Post(a, s, d, m).ints == a.ints
  {
  }

  lemma SettledAlready(a: State, c: Core)
    requires Stands(a, c)
    ensures Settle(c) == c
  {
  }

  /** The interrupts that come after the code. */
  lemma Finish(rest: seq<int>, a: State, c: Core, n: nat)
    requires Stands(a, Settle(c)) && n == |a.status| == |a.ints| && forall t <- rest :: 0 <= t < n
    ensures Tasks(rest, n) && Stands(InformAll(rest, a), Settle(NotifyAll(rest, c)))
  {
    hide Stands, InformAll, NotifyAll;
    forall i | 0 <= i < |rest| ensures 0 <= rest[i] < n {
      assert rest[i] in rest;
    }
    NotifyAllStands(rest, a, Settle(c));
    SettleNotify(rest, c);
  }

  lemma ReceiveSerial(a: State, c: Core, r: int, src: int, m: int, irq: seq<seq<int>>) returns (rest: seq<int>)
    requires Stands(a, c) && ReceiveAllowed(a, r, src, m)
    requires |a.queues| == |a.status| == |a.ints| == |c.procs|
    requires |irq| == |ReceivePath(a, c, r, src, m)| + 1 && InTable(irq, |c.procs|)
    requires PlayAll(ReceivePath(a, c, r, src, m), irq, c).ok
    ensures Tasks(rest, |a.status|) && |Fetch(a, r, src, m).ints| == |Fetch(a, r, src, m).status| == |a.status|
    ensures Stands(InformAll(rest, Fetch(a, r, src, m)), Settle(PlayAll(ReceivePath(a, c, r, src, m), irq, c)))
  {
    hide Stands, PlayAll, RunAll, NotifyAll, AllSafe, NotedCode, TakeCode, WaitCode, InformAll, Private;
    var code, s := ReceivePath(a, c, r, src, m), Chosen(a, r, src);
    NotedActs(r, m, |c.procs|);
    WaitActs(r, src, m, |c.procs|);
    if Notified(a, r, src) {
      rest := NotedExactly(a, c, r, m, irq);
      NotedStands(a, c, r, src, m);
    } else if a.SendsTo(s, r) {
      var i := TakePlace(a, c, r, src);
      TakeSafe(a, c, r, s, EntryBefore(a.queues[r], i), c.procs[s].next, m);
      rest := AllSerial(code, irq, c);
      TakeStands(a, c, r, i, m);
    } else {
      rest := WaitExactly(a, c, r, src, m, irq);
      NotNoted(a, c, r, src, m, irq);
      WaitStands(a, c, r, src, m);
      SettledAlready(Fetch(a, r, src, m), RunAll(code, c));
    }
    Finish(rest, Fetch(a, r, src, m), RunAll(code, c), |c.procs|);
  }

  /** The chosen sender is in the list. */
  lemma TakePlace(a: State, c: Core, r: int, src: int) returns (i: nat)
    requires Stands(a, c) && a.Pid(r) && |a.queues| == |a.status| && a.SendsTo(Chosen(a, r, src), r)
    ensures i == PlaceIn(a.queues[r], Chosen(a, r, src)) && i < |a.queues[r]| && a.queues[r][i] == Chosen(a, r, src)
    ensures EntryBefore(a.queues[r], i) == if i == 0 then NIL else a.queues[r][i - 1]
  {
    hide Tied, StatusOk, Acyclic;
    assert QueueOk(a, r);
    i := PlaceIn(a.queues[r], Chosen(a, r, src));
  }

  lemma NotNoted(a: State, c: Core, r: int, src: int, m: int, irq: seq<seq<int>>)
    requires Stands(a, c) && ReceiveAllowed(a, r, src, m) && |a.ints| == |a.status|
    requires RunAll(WaitCode(r, src, m, |c.procs|), c).ok
    ensures !a.ints[r]
  {
    hide Stands, WaitCode, RunAll;
    ReadyEntry(a, c, r);
    WaitEffect(c, r, src, m);
  }

  /** Interrupts between the instructions of an event that ends well might as well come
      after it, except in a send to a process that waits for anyone: the table stands for
      what the operation and the interrupts, one after the other, make of the state. */
  lemma FineStepSerial(a: State, c: Core, e: FineEvent, c': Core) returns (a': State, rest: seq<int>)
    requires Stands(a, c) && FineStep(c, e, c') && !ToAnyone(a, e)
    ensures |a.queues| == |a.status| && |a.ints| == |a.status| && Step(a, Whole(e), a')
    ensures |a'.ints| == |a'.status| == |a.status| && Tasks(rest, |a'.status|) && Stands(InformAll(rest, a'), c')
  {
    hide Stands, PlayAll, Reaches, InformAll, ViewOf, SendPath, ReceivePath, ReceivePanics, Private, Post, Fetch;
    SameSize(a, c);
    ViewIs(a, c);
    match e
    case FineSend(s, d, m, irq) =>
      StampStands(a, c, s, m);
      StampReaches(a, s, m, d, s);
      var b := Stamp(a, s, m);
      StampPaths(a, c, s, d, m);
      StampPrivate(a, s, m);
      PathLengths(a, s, d, m);
      a' := Send(a, s, d, m);
      rest := SendSerial(b, StampCore(c, s, m), s, d, m, irq);
      PostSizes(b, s, d, m);
    case FineReceive(r, src, m, irq) =>
      StampStands(a, c, r, m);
      var b := Stamp(a, r, m);
      StampPrivate(a, r, m);
      StampReceive(a, c, r, src, m);
      a' := Receive(a, r, src, m);
      rest := ReceiveSerial(b, StampCore(c, r, m), r, src, m, irq);
      ReceiveNoPanic(b, StampCore(c, r, m), r, src, m, irq);
    case FineNotice(t) =>
      a', rest := Inform(a, t), [];
      NotifyStands(a, c, t);
      NoTasks(a');
    case FineCompute(m) =>
      a', rest := a.(mem := m), [];
      ComputeStands(a, c, m);
      NoTasks(a');
  }

  lemma NoTasks(a: State)
    requires |a.ints| == |a.status|
    ensures Tasks([], |a.status|) && InformAll([], a) == a
  {
  }

  lemma ComputeStands(a: State, c: Core, m: Buffers)
    requires Stands(a, c)
    requires forall p | a.Pid(p) && !a.status[p].Ready? :: Load(m, a.status[p].at) == Load(c.mem, a.status[p].at)
    ensures |a.queues| == |a.status| && |a.ints| == |a.status|
    ensures Stands(a.(mem := m), c.(mem := m)) && Step(a, Compute(m), a.(mem := m))
  {
    hide QueueOk, Acyclic, StatusOk, Shows, Linked;
    ComputeGood(a, m, a.(mem := m));
  }

  lemma StampPrivate(a: State, p: int, m: int)
    ensures forall at :: Private(Stamp(a, p, m), at) == Private(a, at)
    ensures Load(Stamp(a, p, m).mem, m).source == p
  {
  }

  lemma StampPaths(a: State, c: Core, s: int, d: int, m: int)
    requires a.Pid(d) && |a.queues| == |a.status|
    ensures SendPath(Stamp(a, s, m), s, d, m) == SendPath(a, s, d, m)
    ensures Awaits(Stamp(a, s, m), d, s) == Awaits(a, d, s)
  {
  }

  lemma StampReceive(a: State, c: Core, r: int, src: int, m: int)
    requires a.Pid(r) && |a.queues| == |a.status| == |a.ints| == |c.procs|
    ensures ReceivePath(Stamp(a, r, m), StampCore(c, r, m), r, src, m) == ReceivePath(a, c, r, src, m)
    ensures ReceivePanics(Stamp(a, r, m), r, src) == ReceivePanics(a, r, src)
    ensures Fetch(Stamp(a, r, m), r, src, m) == Receive(a, r, src, m)
  {
  }

  lemma PathLengths(a: State, s: int, d: int, m: int)
    requires a.Pid(d) && |a.queues| == |a.status|
    ensures Awaits(a, d, s) ==> |SendPath(a, s, d, m)| == 18
  {
  }

  lemma PostSizes(a: State, s: int, d: int, m: int)
    requires a.Pid(s) && a.Pid(d) && |a.queues| == |a.status| == |a.ints|
    ensures |Post(a, s, d, m).status| == |a.status| == |Post(a, s, d, m).ints|
  {
  }

  /** A receive that ends well is not one that panics when it is left alone. */
  lemma ReceiveNoPanic(a: State, c: Core, r: int, src: int, m: int, irq: seq<seq<int>>)
    requires Stands(a, c) && ReceiveAllowed(a, r, src, m) && |a.queues| == |a.status| == |a.ints| == |c.procs|
    requires |irq| == |ReceivePath(a, c, r, src, m)| + 1 && InTable(irq, |c.procs|)
    requires PlayAll(ReceivePath(a, c, r, src, m), irq, c).ok
    ensures !ReceivePanics(a, r, src)
  {
    hide Stands, PlayAll, RunAll, NotifyAll, NotedCode, TakeCode, WaitCode, Private;
    WaitActs(r, src, m, |c.procs|);
    if ReceivePanics(a, r, src) {
      var rest := WaitExactly(a, c, r, src, m, irq);
    }
  }

  // ---------------------------------------------------------------------------
  // Which operations end well

  /** A send that closes no cycle fails an assertion exactly when its receiver waits for
      anyone and is informed between the test of its flag and the first assertion. */
  ghost predicate SendEndsWell(a: State, s: int, d: int, irq: seq<seq<int>>)
    requires a.Pid(d)
  {
    !Reaches(a, d, s) && !(a.status[d].Waiting? && a.status[d].from == a.Any() && |irq| > 0 && d in irq[0])
  }

  /** A receive that takes a message always ends well; one that is answered by a noted
      interrupt or that blocks does so exactly as its own code says. */
  ghost predicate ReceiveEndsWell(a: State, r: int, src: int, irq: seq<seq<int>>)
    requires a.Pid(r) && |a.queues| == |a.status| && |a.ints| == |a.status|
  {
    if Notified(a, r, src) then |irq| == 10 && forall j | 5 <= j < 9 :: r !in irq[j]
    else a.SendsTo(Chosen(a, r, src), r) || (|irq| == 10 && Survives(irq, r, a.ints[r], !a.Pid(src)))
  }

  lemma SendOk(a: State, c: Core, s: int, d: int, m: int, irq: seq<seq<int>>)
    requires Stands(a, c) && SendAllowed(a, s, d, m) && !Reaches(a, d, s) && Load(a.mem, m).source == s
    requires |a.queues| == |a.status| && |irq| == |SendPath(a, s, d, m)| + 1 && InTable(irq, |c.procs|)
    ensures PlayAll(SendPath(a, s, d, m), irq, c).ok <==> SendEndsWell(a, s, d, irq)
  {
    hide Stands, PlayAll, RunAll, NotifyAll, AllSafe, Reaches, HandOverCode, QueueUpCode, InformAll, Post;
    SameSize(a, c);
    HandOverActs(s, d, m, |c.procs|);
    if a.status[d].Waiting? && a.status[d].from == a.Any() {
      var g, rest := HandOverExactly(a, c, s, d, m, irq);
    } else {
      var rest := SendSerial(a, c, s, d, m, irq);
      PostSizes(a, s, d, m);
      WellOk(InformAll(rest, Post(a, s, d, m)), PlayAll(SendPath(a, s, d, m), irq, c));
    }
  }

  lemma WellOk(a: State, c: Core)
    requires Stands(a, Settle(c))
    ensures c.ok
  {
  }

  lemma ReceiveOk(a: State, c: Core, r: int, src: int, m: int, irq: seq<seq<int>>)
    requires Stands(a, c) && ReceiveAllowed(a, r, src, m)
    requires |a.queues| == |a.status| == |a.ints| == |c.procs|
    requires |irq| == |ReceivePath(a, c, r, src, m)| + 1 && InTable(irq, |c.procs|)
    ensures PlayAll(ReceivePath(a, c, r, src, m), irq, c).ok <==> ReceiveEndsWell(a, r, src, irq)
  {
    hide Stands, PlayAll, RunAll, NotifyAll, AllSafe, NotedCode, TakeCode, WaitCode, Private, Survives;
    var code, s := ReceivePath(a, c, r, src, m), Chosen(a, r, src);
    NotedActs(r, m, |c.procs|);
    WaitActs(r, src, m, |c.procs|);
    if Notified(a, r, src) {
      var rest := NotedExactly(a, c, r, m, irq);
    } else if a.SendsTo(s, r) {
      var i := TakePlace(a, c, r, src);
      TakeSafe(a, c, r, s, EntryBefore(a.queues[r], i), c.procs[s].next, m);
      var rest := AllSerial(code, irq, c);
      TakeStands(a, c, r, i, m);
      WellOk(Take(a, r, s, m), RunAll(code, c));
      NotifyAllOk(rest, RunAll(code, c));
    } else {
      var rest := WaitExactly(a, c, r, src, m, irq);
    }
  }

  // ---------------------------------------------------------------------------
  // Conservation

  /** What event `e` sends from `s` to `d`, and what is in the buffer of `d` after an
      event that hands it a message of `s`. */
  ghost function FineSentNow(c: Core, e: FineEvent, s: int, d: int): seq<Msg> {
    SentNow(ViewOf(c), Whole(e), s, d)
  }

  ghost function FineGotNow(c: Core, e: FineEvent, c': Core, s: int, d: int): seq<Msg> {
    var a := ViewOf(c);
    if !Delivers(a, Whole(e), s, d) then []
    else if e.FineSend? then [Load(c'.mem, a.status[d].at)]
    else [Load(c'.mem, e.at)]
  }

  ghost function FineSent(cs: seq<Core>, es: seq<FineEvent>, s: int, d: int, k: nat): seq<Msg>
    requires k <= |es| < |cs|
  {
    if k == 0 then [] else FineSent(cs, es, s, d, k - 1) + FineSentNow(cs[k - 1], es[k - 1], s, d)
  }

  ghost function FineGot(cs: seq<Core>, es: seq<FineEvent>, s: int, d: int, k: nat): seq<Msg>
    requires k <= |es| < |cs|
  {
    if k == 0 then [] else FineGot(cs, es, s, d, k - 1) + FineGotNow(cs[k - 1], es[k - 1], cs[k], s, d)
  }

  /** The buffer of a process that has just got a message belongs to no waiting process. */
  lemma GotBufferFree(a: State, e: Event, a': State, s: int, d: int)
    requires Good(a) && Step(a, e, a') && Delivers(a, e, s, d)
    ensures e.DoSend? || e.DoReceive?
    ensures a.Pid(d) && (e.DoSend? ==> a.status[d].Waiting?)
    ensures var at := if e.DoSend? then a.status[d].at else e.at;
            forall p | a'.Pid(p) && a'.status[p].Waiting? :: a'.status[p].at != at
  {
    hide QueueOk, Acyclic, StatusOk, Reaches, Unanswered;
  }

  /** A send to a process that waits for anyone, with interrupts anywhere: the process is
      released, and its buffer holds the message if and only if `First` says so. */
  lemma ToAnyoneStep(a: State, c: Core, e: FineEvent, c': Core) returns (a': State, rest: seq<int>)
    requires Stands(a, c) && FineStep(c, e, c') && ToAnyone(a, e)
    ensures |e.irq| == 19 && Tasks(rest, |a.status|) && |a'.ints| == |a'.status| == |a.status|
    ensures a'.status == a.status[e.to := Ready] && OnlyThere(Stamp(a, e.from, e.at).mem, a'.mem, a.status[e.to].at)
    ensures Good(a') && Stands(InformAll(rest, a'), c')
    ensures Load(c'.mem, a.status[e.to].at) == Load(a.mem, e.at).(source := e.from)
            <==> First(e.irq, e.to, 0, 8) in {3, 7, 8}
  {
    hide Stands, PlayAll, Reaches, InformAll, ViewOf, Private, HandOverCode, First, HandedTo, NotifyAll;
    SameSize(a, c);
    ViewIs(a, c);
    var s, d, m := e.from, e.to, e.at;
    StampStands(a, c, s, m);
    StampPrivate(a, s, m);
    HandOverActs(s, d, m, |c.procs|);
    var b, bc := Stamp(a, s, m), StampCore(c, s, m);
    StandsFacts(b, bc, d);
    var g;
    g, rest := HandOverExactly(b, bc, s, d, m, e.irq);
    HandedStands(b, bc, d, g);
    a' := b.(status := b.status[d := Ready], mem := g.mem);
    StandsGood(a', Settle(g));
    HandedMeans(b, bc, d, g);
    Finish(rest, a', g, |c.procs|);
  }

  lemma StandsGood(a: State, c: Core)
    requires Stands(a, c)
    ensures Good(a)
  {
  }

  lemma HandedMeans(a: State, c: Core, d: int, g: Core)
    requires Stands(a, c) && a.Pid(d) && !a.status[d].Ready? && c.Has(d) && HandedTo(a, c, d, g)
    ensures OnlyThere(a.mem, g.mem, a.status[d].at)
  {
    AlertWaits(a, c, d);
  }

  /** The message of a send to a process that waits for anyone arrives as it was sent. */
  ghost predicate Intact(c: Core, e: FineEvent, s: int, d: int) {
    ToAnyone(ViewOf(c), e) && e.from == s && e.to == d && |e.irq| == 19 ==> First(e.irq, d, 0, 8) in {3, 7, 8}
  }

  /** An event keeps the balance of messages from `s` to `d` if and only if it is intact. */
  lemma FineConserves(a: State, c: Core, e: FineEvent, c': Core, s: int, d: int)
    requires Stands(a, c) && FineStep(c, e, c')
    ensures Pending(a, s, d) + FineSentNow(c, e, s, d) == FineGotNow(c, e, c', s, d) + Pending(ViewOf(c'), s, d)
            <==> Intact(c, e, s, d)
    ensures Intact(c, e, s, d) ==> forall m <- FineGotNow(c, e, c', s, d) :: m.source == s
    ensures Stands(ViewOf(c'), c')
  {
    hide Good, Tied, FineStep, Step, ViewOf, Delivers, SentNow, Pending, InformAll, ToAnyone, First;
    ViewIs(a, c);
    if ToAnyone(a, e) {
      ToAnyoneBalance(a, c, e, c', s, d);
    } else {
      OthersBalance(a, c, e, c', s, d);
    }
  }

  lemma OthersBalance(a: State, c: Core, e: FineEvent, c': Core, s: int, d: int)
    requires Stands(a, c) && FineStep(c, e, c') && !ToAnyone(a, e)
    ensures Pending(a, s, d) + FineSentNow(c, e, s, d) == FineGotNow(c, e, c', s, d) + Pending(ViewOf(c'), s, d)
    ensures forall m <- FineGotNow(c, e, c', s, d) :: m.source == s
    ensures Stands(ViewOf(c'), c')
  {
    hide Good, Tied, FineStep, Step, ViewOf, Delivers, SentNow, Pending, InformAll, ToAnyone;
    ViewIs(a, c);
    var a', rest := FineStepSerial(a, c, e, c');
    StepGood(a, Whole(e), a');
    StepConserves(a, Whole(e), a', s, d);
    ViewIs(InformAll(rest, a'), c');
    var at := -1;
    if Delivers(a, Whole(e), s, d) {
      GotBufferFree(a, Whole(e), a', s, d);
      at := if e.FineSend? then a.status[d].at else e.at;
    } else {
      at := UnusedBuffer(a');
    }
    InformAllKeeps(rest, a', s, d, at);
  }

  lemma ToAnyoneBalance(a: State, c: Core, e: FineEvent, c': Core, s: int, d: int)
    requires Stands(a, c) && FineStep(c, e, c') && ToAnyone(a, e)
    ensures Pending(a, s, d) + FineSentNow(c, e, s, d) == FineGotNow(c, e, c', s, d) + Pending(ViewOf(c'), s, d)
            <==> Intact(c, e, s, d)
    ensures Intact(c, e, s, d) ==> forall m <- FineGotNow(c, e, c', s, d) :: m.source == s
    ensures Stands(ViewOf(c'), c')
  {
    hide Good, Tied, FineStep, ViewOf, InformAll, First, Pending, Stands;
    SameSize(a, c);
    ViewIs(a, c);
    var a', rest := ToAnyoneStep(a, c, e, c');
    ViewIs(InformAll(rest, a'), c');
    var at := UnusedBuffer(a');
    InformAllKeeps(rest, a', s, d, at);
    SenderReady(a, c, e, c');
    ReleasedPending(a, a', e.from, e.to, e.at, s, d);
    assert Delivers(a, Whole(e), s, d) <==> s == e.from && d == e.to;
    var msg, got := Load(a.mem, e.at).(source := e.from), Load(c'.mem, a.status[e.to].at);
    if s == e.from && d == e.to {
      assert Pending(a, s, d) + FineSentNow(c, e, s, d) == [msg];
      assert FineGotNow(c, e, c', s, d) + Pending(ViewOf(c'), s, d) == [got];
      assert [msg] == [got] <==> [msg][0] == [got][0];
    } else {
      assert Pending(a, s, d) + [] == Pending(a, s, d) && [] + Pending(a, s, d) == Pending(a, s, d);
    }
  }

  lemma SenderReady(a: State, c: Core, e: FineEvent, c': Core)
    requires Stands(a, c) && FineStep(c, e, c') && e.FineSend?
    ensures Good(a) && SendAllowed(a, e.from, e.to, e.at)
  {
    ViewIs(a, c);
  }

  /** Releasing a process changes nothing about what others have ready. */
  lemma ReleasedPending(a: State, a': State, from: int, to: int, at: int, s: int, d: int)
    requires Good(a) && SendAllowed(a, from, to, at) && a.status[to].Waiting?
    requires a'.status == a.status[to := Ready] && OnlyThere(Stamp(a, from, at).mem, a'.mem, a.status[to].at)
    ensures Pending(a', s, d) == Pending(a, s, d)
    ensures s == from ==> Pending(a, s, d) == []
  {
    hide QueueOk, Acyclic, Unanswered;
    if a.Pid(s) && a.status[s].Sending? {
      assert StatusOk(a, s);
      assert Load(a'.mem, a.status[s].at) == Load(Stamp(a, from, at).mem, a.status[s].at);
    }
  }

  /** Some address is nobody's buffer. */
  lemma UnusedBuffer(a: State) returns (at: int)
    ensures forall p | a.Pid(p) && a.status[p].Waiting? :: a.status[p].at != at
  {
    at := Above(a, |a.status|);
  }

  lemma {:induction false} Above(a: State, k: nat) returns (at: int)
    requires k <= |a.status|
    ensures forall p | 0 <= p < k && a.status[p].Waiting? :: a.status[p].at < at
  {
    if k == 0 {
      at := 0;
    } else {
      at := Above(a, k - 1);
      if a.status[k - 1].Waiting? && a.status[k - 1].at >= at {
        at := a.status[k - 1].at + 1;
      }
    }
  }

  lemma {:induction false} FineStands(cs: seq<Core>, es: seq<FineEvent>, k: nat)
    requires FineRun(cs, es) && k < |cs|
    ensures Stands(ViewOf(cs[k]), cs[k])
  {
    hide Stands, FineStep, ViewOf;
    if k == 0 {
      StartStands(cs[0]);
    } else {
      FineStands(cs, es, k - 1);
      assert es[k - 1] == es[k - 1];
      FineConserves(ViewOf(cs[k - 1]), cs[k - 1], es[k - 1], cs[k], 0, 0);
    }
  }

  lemma StartStands(c: Core)
    requires c.ok && c.dst == 0 && c.src == 0
    requires forall p | 0 <= p < |c.procs| :: Shows(c.procs[p], Ready, |c.procs|) && c.procs[p].head == NIL
    ensures Stands(ViewOf(c), c) && forall s, d :: Pending(ViewOf(c), s, d) == []
  {
    var n := |c.procs|;
    var a := State(seq(n, p => Ready), seq(n, p => []), seq(n, p requires 0 <= p < n => c.procs[p].hasInt), c.mem);
    StartGood(a);
    ViewIs(a, c);
  }

  /** What the receiver has got from the sender is what the sender has sent it, in order,
      but for at most one message the sender is blocked on. */
  ghost predicate Balanced(cs: seq<Core>, es: seq<FineEvent>, s: int, d: int, k: nat)
    requires k <= |es| < |cs|
  {
    FineSent(cs, es, s, d, k) == FineGot(cs, es, s, d, k) + Pending(ViewOf(cs[k]), s, d)
  }

  lemma Cancel(x: seq<Msg>, y: seq<Msg>, z: seq<Msg>)
    requires x + y == x + z
    ensures y == z
  {
    assert y == (x + y)[|x|..] && z == (x + z)[|x|..];
  }

  /** Balance before and after an event. */
  lemma BalanceStep(cs: seq<Core>, es: seq<FineEvent>, s: int, d: int, k: nat)
    requires FineRun(cs, es) && k < |es| && Balanced(cs, es, s, d, k)
    ensures Balanced(cs, es, s, d, k + 1) <==> Intact(cs[k], es[k], s, d)
  {
    hide Stands, FineStep, ViewOf, FineSentNow, FineGotNow, Pending, Intact;
    FineStands(cs, es, k);
    assert es[k] == es[k];
    var before, after := ViewOf(cs[k]), ViewOf(cs[k + 1]);
    FineConserves(before, cs[k], es[k], cs[k + 1], s, d);
    var got, now := FineGot(cs, es, s, d, k), FineGotNow(cs[k], es[k], cs[k + 1], s, d);
    var sent := FineSentNow(cs[k], es[k], s, d);
    var l, r := Pending(before, s, d) + sent, now + Pending(after, s, d);
    assert FineSent(cs, es, s, d, k + 1) == got + l;
    assert FineGot(cs, es, s, d, k + 1) + Pending(after, s, d) == got + r;
    if got + l == got + r {
      Cancel(got, l, r);
    }
    assert Balanced(cs, es, s, d, k + 1) <==> got + l == got + r;
  }

  /** In every run with interrupts anywhere and for every pair of processes: no message
      from the one to the other is lost, repeated, changed or reordered if and only if
      every hand-over between them to a receiver that waits for anyone is intact. */
  lemma {:induction false} ConservationExactly(cs: seq<Core>, es: seq<FineEvent>, s: int, d: int, k: nat)
    requires FineRun(cs, es) && k <= |es|
    ensures (forall j: nat {:trigger Balanced(cs, es, s, d, j)} | j <= k :: Balanced(cs, es, s, d, j))
            <==> forall i: nat {:trigger es[i]} | i < k :: Intact(cs[i], es[i], s, d)
  {
    hide FineStep, Intact, Balanced;
    if k == 0 {
      StartBalanced(cs, es, s, d);
    } else {
      ConservationExactly(cs, es, s, d, k - 1);
      if Balanced(cs, es, s, d, k - 1) {
        BalanceStep(cs, es, s, d, k - 1);
      }
      assert es[k - 1] == es[k - 1];
      assert Balanced(cs, es, s, d, k) || !Balanced(cs, es, s, d, k);
    }
  }

  lemma StartBalanced(cs: seq<Core>, es: seq<FineEvent>, s: int, d: int)
    requires FineRun(cs, es)
    ensures Balanced(cs, es, s, d, 0)
  {
    hide FineStep, ViewOf, Pending;
    StartStands(cs[0]);
  }

  /** In particular when no process that waits for anyone is informed between the test of
      its flag and the clearing of the flag; then every message got also bears its
      sender's number. */
  lemma {:induction false} FineConservation(cs: seq<Core>, es: seq<FineEvent>, s: int, d: int, k: nat)
    requires FineRun(cs, es) && k <= |es| && forall i: nat {:trigger es[i]} | i < k :: Intact(cs[i], es[i], s, d)
    ensures FineSent(cs, es, s, d, k) == FineGot(cs, es, s, d, k) + Pending(ViewOf(cs[k]), s, d)
    ensures forall m <- FineGot(cs, es, s, d, k) :: m.source == s
  {
    hide Stands, FineStep, ViewOf, FineSentNow, FineGotNow, Pending, Intact;
    ConservationExactly(cs, es, s, d, k);
    assert Balanced(cs, es, s, d, k);
    if k > 0 {
      FineConservation(cs, es, s, d, k - 1);
      FineStands(cs, es, k - 1);
      assert es[k - 1] == es[k - 1];
      FineConserves(ViewOf(cs[k - 1]), cs[k - 1], es[k - 1], cs[k], s, d);
    }
  }

  /** In every run with interrupts anywhere: no cycle of senders, nobody waits for a
      message that is waiting for it or for an interrupt that has been noted, and queues
      hold exactly the blocked senders. */
  lemma FineNeverStuck(cs: seq<Core>, es: seq<FineEvent>, k: nat, p: int)
    requires FineRun(cs, es) && k < |cs|
    ensures var a := ViewOf(cs[k]); Good(a) && Stands(a, cs[k])
    ensures var a := ViewOf(cs[k]);
            a.Pid(p) ==> (forall n: nat | n > 0 :: !ReachesIn(a, p, p, n))
                         && (forall q | a.Pid(q) && a.SendsTo(q, p) :: !Awaits(a, p, q))
  {
    hide ViewOf, FineStep;
    var a := ViewOf(cs[k]);
    FineStands(cs, es, k);
    if a.Pid(p) {
      forall n: nat | n > 0 ensures !ReachesIn(a, p, p, n) {
        if ReachesIn(a, p, p, n) {
          NoSelfWait(a, p, n);
        }
      }
      assert StatusOk(a, p) && QueueOk(a, p);
    }
  }

  // ---------------------------------------------------------------------------
  // Losing a message

  /** Process `d` informed once, before instruction `k`. */
  function Spot(d: int, k: nat, n: nat): (irq: seq<seq<int>>)
    ensures |irq| == n && forall j | 0 <= j < n :: irq[j] == if j == k then [d] else []
  {
    seq(n, j requires 0 <= j < n => if j == k then [d] else [])
  }

  /** Whenever a message is handed to a process that waits for anyone, one interrupt in
      the wrong place loses or mars it, and every assertion holds all the same. */
  lemma Spoils(c: Core, s: int, d: int, m: int, k: nat) returns (c': Core)
    requires Stands(ViewOf(c), c) && SendAllowed(ViewOf(c), s, d, m)
    requires ViewOf(c).status[d].Waiting? && ViewOf(c).status[d].from == ViewOf(c).Any() && k in {1, 2, 4, 5, 6}
    ensures FineStep(c, FineSend(s, d, m, Spot(d, k, 19)), c')
    ensures !Intact(c, FineSend(s, d, m, Spot(d, k, 19)), s, d)
  {
    hide Stands, ViewOf, PlayAll, HandOverCode, Private;
    var a, irq := ViewOf(c), Spot(d, k, 19);
    SameSize(a, c);
    var e := FineSend(s, d, m, irq);
    StampStands(a, c, s, m);
    StampPrivate(a, s, m);
    HandOverActs(s, d, m, |c.procs|);
    assert First(irq, d, 0, 8) == k by {
      FirstIs(irq, d, k);
    }
    var g, rest := HandOverExactly(Stamp(a, s, m), StampCore(c, s, m), s, d, m, irq);
    ReachesUnfold(a, d, s);
    c' := Settle(PlayAll(HandOverCode(s, d, m, |c.procs|), irq, StampCore(c, s, m)));
  }

  lemma FirstIs(irq: seq<seq<int>>, d: int, k: nat)
    requires |irq| >= 8 && k < 8 && d in irq[k] && forall j | 0 <= j < k :: d !in irq[j]
    ensures First(irq, d, 0, 8) == k
  {
  }

  /** Two processes with nothing going on, and a message at 16. */
  function TwoProcesses(): Core {
    var e := Proc(false, false, 0, 22, 22, false, NIL, NIL);
    Core([e, e], map[16 := Msg(1, 5, 7)], 0, 0, true)
  }

  /** A run in which process 0 waits for anyone, process 1 sends to it, an interrupt for
      process 0 comes after its message pointer has been asserted, and the message is
      lost: nothing is pending and what process 0 has got is not what was sent. */
  lemma LosingRun() returns (cs: seq<Core>, es: seq<FineEvent>)
    ensures FineRun(cs, es) && cs[0] == TwoProcesses()
    ensures es == [FineReceive(0, 12, 8, Spot(0, 10, 10)), FineSend(1, 0, 16, Spot(0, 2, 19))]
    ensures !Balanced(cs, es, 1, 0, 2)
  {
    hide FineStep, Balanced, Intact, ViewOf;
    var c0 := TwoProcesses();
    var c1 := WaitsForAnyone();
    var c2 := Spoils(c1, 1, 0, 16, 2);
    cs := [c0, c1, c2];
    es := [FineReceive(0, 12, 8, Spot(0, 10, 10)), FineSend(1, 0, 16, Spot(0, 2, 19))];
    ConservationExactly(cs, es, 1, 0, 1);
    assert Intact(cs[0], es[0], 1, 0) by {
      NotASend(cs[0], es[0], 1, 0);
    }
    assert Balanced(cs, es, 1, 0, 1);
    BalanceStep(cs, es, 1, 0, 1);
  }

  lemma NotASend(c: Core, e: FineEvent, s: int, d: int)
    requires !e.FineSend?
    ensures Intact(c, e, s, d)
  {
  }

  lemma WaitsForAnyone() returns (c': Core)
    ensures FineStep(TwoProcesses(), FineReceive(0, 12, 8, Spot(0, 10, 10)), c')
    ensures Stands(ViewOf(c'), c') && SendAllowed(ViewOf(c'), 1, 0, 16)
    ensures ViewOf(c').status == [Waiting(12, 8), Ready]
  {
    hide ViewOf, Stands, WaitCode, RunAll, PlayAll;
    var c := TwoProcesses();
    var a := State([Ready, Ready], [[], []], [false, false], c.mem);
    var irq := Spot(0, 10, 10);
    TwoStand(a, c);
    ViewIs(a, c);
    StampStands(a, c, 0, 8);
    var b, bc := Stamp(a, 0, 8), StampCore(c, 0, 8);
    WaitActs(0, 12, 8, 2);
    assert Survives(irq, 0, false, true);
    var rest := WaitExactly(b, bc, 0, 12, 8, irq);
    c' := Settle(PlayAll(WaitCode(0, 12, 8, 2), irq, bc));
    FineConserves(a, c, FineReceive(0, 12, 8, irq), c', 0, 0);
    QuietWait(b, bc, irq, c');
  }

  lemma TwoStand(a: State, c: Core)
    requires c == TwoProcesses() && a == State([Ready, Ready], [[], []], [false, false], c.mem)
    ensures Stands(a, c)
  {
    StartGood(a);
  }

  lemma QuietWait(b: State, bc: Core, irq: seq<seq<int>>, c': Core)
    requires Stands(b, bc) && irq == Spot(0, 10, 10) && b.status == [Ready, Ready] && b.queues == [[], []]
             && b.ints == [false, false]
    requires c' == Settle(PlayAll(WaitCode(0, 12, 8, 2), irq, bc))
    ensures ViewOf(c').status == [Waiting(12, 8), Ready]
  {
    hide Stands, WaitCode, NotifyAll;
    SameSize(b, bc);
    WaitActs(0, 12, 8, 2);
    NotifyNone(bc);
    PlayQuiet(WaitCode(0, 12, 8, 2), irq, 0, 9, bc);
    WaitStands(b, bc, 0, 12, 8);
    SettledAlready(Fetch(b, 0, 12, 8), RunAll(WaitCode(0, 12, 8, 2), bc));
    ViewIs(Fetch(b, 0, 12, 8), c');
  }

  // ---------------------------------------------------------------------------
  // Deadlocks

  lemma {:induction false} KnotInformAll(ts: seq<int>, a: State, ps: set<int>)
    requires Good(a) && |a.ints| == |a.status| && Tasks(ts, |a.status|) && Knot(a, ps)
    ensures var a' := InformAll(ts, a);
            Good(a') && Knot(a', ps) && forall p <- ps :: a.Pid(p) && a'.Pid(p) && a'.status[p] == a.status[p]
  {
    hide Good, Knot;
    if ts != [] {
      var us, t := ts[..|ts| - 1], ts[|ts| - 1];
      KnotInformAll(us, a, ps);
      var b := InformAll(us, a);
      GoodShape(b);
      InformGood(b, t);
      KnotStays(b, Notice(t), Inform(b, t), ps);
    } else {
      KnotPids(a, ps);
    }
  }

  lemma KnotPids(a: State, ps: set<int>)
    requires Knot(a, ps)
    ensures forall p <- ps :: a.Pid(p)
  {
  }

  lemma KnotFineStep(a: State, c: Core, e: FineEvent, c': Core, ps: set<int>)
    requires Stands(a, c) && FineStep(c, e, c') && Knot(a, ps)
    ensures var a' := ViewOf(c');
            Stands(a', c') && Knot(a', ps) && forall p <- ps :: a.Pid(p) && a'.Pid(p) && a'.status[p] == a.status[p]
  {
    hide Stands, FineStep, Step, ViewOf, InformAll, Knot, Good, OnlyThere;
    StandsGood(a, c);
    SameSize(a, c);
    var a', rest;
    if ToAnyone(a, e) {
      a', rest := ToAnyoneStep(a, c, e, c');
      KnotReleased(a, a', e.to, ps);
    } else {
      a', rest := FineStepSerial(a, c, e, c');
      StepGood(a, Whole(e), a');
      KnotStays(a, Whole(e), a', ps);
    }
    KnotInformAll(rest, a', ps);
    ViewIs(InformAll(rest, a'), c');
  }

  lemma KnotReleased(a: State, a': State, d: int, ps: set<int>)
    requires Knot(a, ps) && a.Pid(d) && a.status[d].Waiting? && a.status[d].from == a.Any()
    requires a'.status == a.status[d := Ready]
    ensures Knot(a', ps) && forall p <- ps :: a.Pid(p) && a'.Pid(p) && a'.status[p] == a.status[p]
  {
    assert a.Any() !in ps && Target(a, d) == a.Any();
    assert d !in ps;
    forall p | p in ps ensures a'.Pid(p) && a'.status[p] == a.status[p] && Target(a', p) in ps {
      assert a.Pid(p) && Target(a, p) in ps;
    }
  }

  /** With interrupts anywhere, too, a process that waits for a process on a cycle, or is
      on it, waits for ever. */
  lemma {:induction false} FineKnotForever(cs: seq<Core>, es: seq<FineEvent>, i: nat, j: nat, ps: set<int>)
    requires FineRun(cs, es) && i <= j < |cs| && Knot(ViewOf(cs[i]), ps)
    ensures Knot(ViewOf(cs[j]), ps)
    ensures forall p <- ps ::
              ViewOf(cs[i]).Pid(p) && ViewOf(cs[j]).Pid(p) && ViewOf(cs[j]).status[p] == ViewOf(cs[i]).status[p]
  {
    hide Stands, FineStep, ViewOf, Knot;
    if i < j {
      FineKnotForever(cs, es, i, j - 1, ps);
      FineStands(cs, es, j - 1);
      assert es[j - 1] == es[j - 1];
      KnotFineStep(ViewOf(cs[j - 1]), cs[j - 1], es[j - 1], cs[j], ps);
    } else {
      KnotPids(ViewOf(cs[i]), ps);
    }
  }

  lemma FineStuckForever(cs: seq<Core>, es: seq<FineEvent>, i: nat, j: nat, p: int, q: int)
    requires FineRun(cs, es) && i <= j < |cs|
    requires ViewOf(cs[i]).Pid(p) && CycleAt(ViewOf(cs[i]), p) && ViewOf(cs[i]).Pid(q) && WaitsFor(ViewOf(cs[i]), q, p)
    ensures ViewOf(cs[j]).Pid(q) && ViewOf(cs[j]).status[q] == ViewOf(cs[i]).status[q]
            && !ViewOf(cs[j]).status[q].Ready?
  {
    hide Stands, FineStep, CycleAt, WaitsFor, ViewOf;
    var ps := CycleIsKnot(ViewOf(cs[i]), p);
    FineKnotForever(cs, es, i, j, ps);
    assert q in ps;
  }

  // ---------------------------------------------------------------------------
  // Receivers get what they asked for, with interrupts anywhere

  /** A waiting process that interrupts make ready has the notice in its buffer. */
  lemma {:induction false} InformAllAnswers(ts: seq<int>, a: State, p: int, src: int, at: int)
    requires Good(a) && |a.ints| == |a.status| && Tasks(ts, |a.status|) && a.Pid(p) && a.status[p] == Waiting(src, at)
    ensures var a' := InformAll(ts, a);
            && (a'.status[p] == Waiting(src, at) || a'.status[p].Ready?)
            && (a'.status[p].Ready? ==> !a.Pid(src) && Load(a'.mem, at).source == -10 && Load(a'.mem, at).kind == 1)
            && forall q | a'.Pid(q) && q != p && a'.status[q].Waiting? :: a'.status[q].at != at
  {
    hide StatusOk, QueueOk, Acyclic;
    if ts != [] {
      InformAllAnswers(ts[..|ts| - 1], a, p, src, at);
    }
  }

  /** A buffer that has just been filled belongs to no waiting process. */
  lemma SatisfiedBufferFree(a: State, e: Event, a': State, p: int, src: int, at: int)
    requires Good(a) && Step(a, e, a') && Satisfied(a, e, a', p, src, at)
    ensures forall q | a'.Pid(q) && a'.status[q].Waiting? :: a'.status[q].at != at
  {
    hide QueueOk, Acyclic, StatusOk, Reaches, Unanswered;
  }

  lemma StillAsking(a: State, e: Event, a': State, p: int, src: int, at: int)
    requires Good(a) && Step(a, e, a') && a.Pid(p)
    requires a.status[p] == Waiting(src, at) || (e == DoReceive(p, src, at) && a.status[p].Ready?)
    ensures a'.Pid(p) && (a'.status[p] == Waiting(src, at) || a'.status[p].Ready?)
  {
    hide QueueOk, Acyclic, StatusOk, Reaches, Private;
  }

  /** Whenever a receive from one process or from the hardware is satisfied, wherever
      interrupts come, the message in its buffer is from the one it asked for. */
  lemma FineAnswered(a: State, c: Core, e: FineEvent, c': Core, p: int, src: int, at: int)
    requires Stands(a, c) && FineStep(c, e, c') && src != a.Any()
    requires a.Pid(p) && ViewOf(c').Pid(p) && ViewOf(c').status[p].Ready?
    requires a.status[p] == Waiting(src, at) || (Whole(e) == DoReceive(p, src, at) && a.status[p].Ready?)
    ensures Answers(a, src, Load(c'.mem, at))
  {
    hide Stands, FineStep, Step, ViewOf, InformAll, Good, OnlyThere;
    StandsGood(a, c);
    SameSize(a, c);
    var a', rest;
    if ToAnyone(a, e) {
      a', rest := ToAnyoneStep(a, c, e, c');
      assert a'.status[p] == Waiting(src, at);
    } else {
      a', rest := FineStepSerial(a, c, e, c');
      StepGood(a, Whole(e), a');
      StillAsking(a, Whole(e), a', p, src, at);
    }
    ViewIs(InformAll(rest, a'), c');
    SameSize(InformAll(rest, a'), c');
    if a'.status[p].Ready? {
      ReceiversAnswered(a, Whole(e), a', p, src, at);
      SatisfiedBufferFree(a, Whole(e), a', p, src, at);
      InformAllKeeps(rest, a', 0, 0, at);
    } else {
      InformAllAnswers(rest, a', p, src, at);
      NoticeAnswers(a, src);
    }
  }

  lemma NoticeAnswers(a: State, src: int)
    requires src != a.Any()
    ensures !a.Pid(src) ==> (forall m: Msg | m.source == -10 && m.kind == 1 :: Answers(a, src, m))
  {
  }
}
