/** The pieces of straight-line code in msg_send and msg_receive, between the tests that
    choose among them: what each does when it is left alone, and exactly which
    interrupts make a difference to it. */
module IpcPaths {
  import opened Ipc
  import opened IpcTable
  import opened IpcCode

  // ---------------------------------------------------------------------------
  // The code.  `n` is the number of processes, NO_TASK is n + 20.

  /** msg_send to a process that awaits the message. */
  function HandOverCode(s: int, d: int, m: int, n: nat): seq<Instr> {
    [Check(d, MsgPtr, 0, false),
     Src(m), DstOf(d), Copy(Source), Copy(Kind), Copy(Body),
     Put(d, MsgPtr, 0), Put(d, FlagReceiving, 0), Put(d, RecvFrom, n + 20),
     Check(d, Flags, 0, true),
     Check(d, Flags, 0, true), Check(d, MsgPtr, 0, true), Check(d, RecvFrom, n + 20, true),
     Check(d, SendTo, n + 20, true),
     Check(s, Flags, 0, true), Check(s, MsgPtr, 0, true), Check(s, RecvFrom, n + 20, true),
     Check(s, SendTo, n + 20, true)]
  }

  /** msg_send to any other process; `tail` is the last entry of its list. */
  function QueueUpCode(s: int, d: int, m: int, tail: int, n: nat): seq<Instr> {
    [Put(s, FlagSending, SENDING), Check(s, Flags, SENDING, true), Put(s, SendTo, d), Put(s, MsgPtr, m),
     if tail == NIL then Put(d, Head, s) else Put(tail, Next, s), Put(s, Next, NIL),
     Check(s, Flags, 0, false),
     Check(s, Flags, SENDING, true), Check(s, MsgPtr, 0, false), Check(s, RecvFrom, n + 20, true),
     Check(s, SendTo, d, true)]
  }

  /** msg_receive when an interrupt has been noted. */
  function NotedCode(r: int, m: int, n: nat): seq<Instr> {
    [Dst(m), Fill(Source, INTERRUPT), Fill(Kind, HARD_INT), Fill(Body, 0),
     Put(r, HasInt, 0),
     Check(r, Flags, 0, true), Check(r, MsgPtr, 0, true), Check(r, SendTo, n + 20, true), Check(r, HasInt, 0, true)]
  }

  /** msg_receive when `from` has a message; `prev` is the entry before it in the list
      and `after` the one behind it. */
  function TakeCode(r: int, from: int, prev: int, after: int, m: int, n: nat): seq<Instr> {
    [Check(r, Flags, 0, true), Check(r, MsgPtr, 0, true), Check(r, RecvFrom, n + 20, true),
     Check(r, SendTo, n + 20, true),
     Check(r, Head, NIL, false),
     Check(from, Flags, SENDING, true), Check(from, MsgPtr, 0, false), Check(from, RecvFrom, n + 20, true),
     Check(from, SendTo, r, true),
     if prev == NIL then Put(r, Head, after) else Put(prev, Next, after), Put(from, Next, NIL),
     Check(from, MsgPtr, 0, false),
     SrcOf(from), Dst(m), Copy(Source), Copy(Kind), Copy(Body),
     Put(from, MsgPtr, 0), Put(from, SendTo, n + 20), Put(from, FlagSending, 0),
     Check(from, Flags, 0, true)]
  }

  /** msg_receive when there is nothing to take. */
  function WaitCode(r: int, src: int, m: int, n: nat): seq<Instr> {
    [Put(r, FlagReceiving, RECEIVING), Put(r, MsgPtr, m), Put(r, RecvFrom, src),
     Check(r, Flags, 0, false),
     Check(r, Flags, RECEIVING, true), Check(r, MsgPtr, 0, false), Check(r, RecvFrom, n + 20, false),
     Check(r, SendTo, n + 20, true), Check(r, HasInt, 0, true)]
  }

  // ---------------------------------------------------------------------------
  // The table between operations

  /** The table stands for the state `a`, and nothing is under way. */
  ghost predicate Stands(a: State, c: Core) {
    Good(a) && Tied(c.procs, a) && c.mem == a.mem && c.dst == 0 && c.src == 0 && c.ok
  }

  /** Forget the pointers of the last copy. */
  function Settle(c: Core): Core { c.(dst := 0, src := 0) }

  lemma AlertWaits(a: State, c: Core, t: int)
    requires Stands(a, c) && c.Has(t)
    ensures a.Pid(t) && |c.procs| == |a.status|
    ensures Alert(c.procs[t], |c.procs|) <==> a.status[t].Waiting? && a.status[t].from in {INTERRUPT, a.Any()}
    ensures c.procs[t].msg == if a.status[t].Ready? then 0 else a.status[t].at
  {
    hide Good, Linked;
  }

  lemma OwnsBuffer(a: State, c: Core, t: int)
    requires Stands(a, c) && c.Has(t) && Alert(c.procs[t], |c.procs|)
    ensures OwnBuffer(c, t)
  {
    hide Linked, Shows, Tied, QueueOk, Acyclic, Unanswered;
    AlertWaits(a, c, t);
    assert StatusOk(a, t);
    forall p | c.Has(p) && p != t ensures c.procs[p].msg != c.procs[t].msg {
      AlertWaits(a, c, p);
    }
  }

  /** Being informed is the operation `Inform`. */
  lemma NotifyStands(a: State, c: Core, t: int)
    requires Stands(a, c) && c.Has(t)
    ensures a.Pid(t) && |a.ints| == |a.status| && Stands(Inform(a, t), Notify(c, t))
  {
    hide Linked, QueueOk, Acyclic, StatusOk;
    InformGood(a, t);
    AlertWaits(a, c, t);
    TiedUpdate(c.procs, a, t, Notify(c, t).procs[t], Inform(a, t));
  }

  // ---------------------------------------------------------------------------
  // Running pieces of code

  predicate Passes(i: Instr, c: Core) {
    i.Check? && c.Has(i.p) && ((Get(c.procs[i.p], i.f) == i.v) == i.same)
  }

  lemma {:induction false} ChecksPass(code: seq<Instr>, i: nat, k: nat, c: Core)
    requires i <= k <= |code| && c.ok && forall j | i <= j < k :: Passes(code[j], c)
    ensures RunCode(code, i, k, c) == c
  {
    if i < k {
      ChecksPass(code, i, k - 1, c);
    }
  }

  lemma RunOne(code: seq<Instr>, i: nat, c: Core)
    requires i < |code|
    ensures RunCode(code, i, i + 1, c) == Exec(code[i], c)
  {
    assert RunCode(code, i, i, c) == c;
  }

  /** phys_copy of a message. */
  lemma CopyWhole(code: seq<Instr>, i: nat, c: Core)
    requires i + 3 <= |code| && code[i] == Copy(Source) && code[i + 1] == Copy(Kind) && code[i + 2] == Copy(Body)
    requires c.ok && c.dst != c.src
    ensures RunCode(code, i, i + 3, c) == c.(mem := c.mem[c.dst := Load(c.mem, c.src)])
  {
    RunOne(code, i, c);
    var m1 := c.mem[c.dst := Load(c.mem, c.dst).(source := Load(c.mem, c.src).source)];
    assert RunCode(code, i, i + 1, c) == c.(mem := m1);
    var m2 := m1[c.dst := Load(m1, c.dst).(kind := Load(c.mem, c.src).kind)];
    assert RunCode(code, i, i + 2, c) == c.(mem := m2);
    var m3 := m2[c.dst := Load(m2, c.dst).(body := Load(c.mem, c.src).body)];
    assert RunCode(code, i, i + 3, c) == c.(mem := m3);
    assert m3 == c.mem[c.dst := Load(c.mem, c.src)];
  }

  /** Two assignments to one entry. */
  lemma PutTwo(code: seq<Instr>, i: nat, c: Core, p: int, f: Field, v: int, g: Field, w: int)
    requires i + 2 <= |code| && c.ok && c.Has(p) && code[i] == Put(p, f, v) && code[i + 1] == Put(p, g, w)
    ensures RunCode(code, i, i + 2, c) == c.(procs := c.procs[p := Set(Set(c.procs[p], f, v), g, w)])
  {
    hide Set;
    RunOne(code, i, c);
    assert RunCode(code, i, i + 1, c) == c.(procs := c.procs[p := Set(c.procs[p], f, v)]);
  }

  /** Three assignments to one entry. */
  lemma PutThree(code: seq<Instr>, i: nat, c: Core, p: int, f: Field, v: int, g: Field, w: int, h: Field, u: int)
    requires i + 3 <= |code| && c.ok && c.Has(p)
    requires code[i] == Put(p, f, v) && code[i + 1] == Put(p, g, w) && code[i + 2] == Put(p, h, u)
    ensures RunCode(code, i, i + 3, c) == c.(procs := c.procs[p := Set(Set(Set(c.procs[p], f, v), g, w), h, u)])
  {
    hide Set;
    RunOne(code, i, c);
    var e1 := Set(c.procs[p], f, v);
    assert RunCode(code, i, i + 1, c) == c.(procs := c.procs[p := e1]);
    var e2 := Set(e1, g, w);
    assert RunCode(code, i, i + 2, c) == c.(procs := c.procs[p := e2]);
    var e3 := Set(e2, h, u);
    assert RunCode(code, i, i + 3, c) == c.(procs := c.procs[p := e3]);
  }

  // ---------------------------------------------------------------------------
  // Handing a message over

  lemma HandOverSafe(a: State, c: Core, s: int, d: int, m: int)
    requires Stands(a, c) && SendAllowed(a, s, d, m)
    ensures AllSafe(HandOverCode(s, d, m, |c.procs|), 0, c, d)
  {
    hide Tied, Good;
    var code := HandOverCode(s, d, m, |c.procs|);
    forall t | t != d ensures Safe(code, 0, c, t) {
      if c.Has(t) {
        AlertWaits(a, c, t);
        if Alert(c.procs[t], |c.procs|) {
          OwnsBuffer(a, c, t);
          assert forall j | 0 <= j < |code| :: Aside(code[j], t, c.procs[t].msg);
        } else {
          assert forall j | 0 <= j < |code| :: Calm(code[j], t, |c.procs|);
        }
      }
    }
  }

  /** The entry of `d` after the hand-over. */
  function Released(e: Proc, n: nat): Proc { e.(msg := 0, receiving := false, recvFrom := n + 20) }

  /** The instructions that do something. */
  lemma HandOverActs(s: int, d: int, m: int, n: nat)
    ensures var code := HandOverCode(s, d, m, n);
            && |code| == 18 && code[0] == Check(d, MsgPtr, 0, false)
            && code[1] == Src(m) && code[2] == DstOf(d)
            && code[3] == Copy(Source) && code[4] == Copy(Kind) && code[5] == Copy(Body)
            && code[6] == Put(d, MsgPtr, 0) && code[7] == Put(d, FlagReceiving, 0)
                && code[8] == Put(d, RecvFrom, n + 20)
  {
  }

  lemma HandOverLoads(c: Core, s: int, d: int, m: int)
    requires c.ok && c.Has(d) && c.procs[d].msg != 0
    ensures RunCode(HandOverCode(s, d, m, |c.procs|), 0, 3, c) == c.(src := m, dst := c.procs[d].msg)
    ensures RunCode(HandOverCode(s, d, m, |c.procs|), 0, 2, c) == c.(src := m)
    ensures RunCode(HandOverCode(s, d, m, |c.procs|), 0, 1, c) == c
  {
    hide HandOverCode;
    var code := HandOverCode(s, d, m, |c.procs|);
    HandOverActs(s, d, m, |c.procs|);
    RunOne(code, 0, c);
  }

  lemma HandOverMoves(c: Core, s: int, d: int, m: int)
    requires c.ok && c.Has(d) && c.dst != c.src
    ensures RunCode(HandOverCode(s, d, m, |c.procs|), 3, 9, c)
         == c.(procs := c.procs[d := Released(c.procs[d], |c.procs|)], mem := c.mem[c.dst := Load(c.mem, c.src)])
  {
    hide RunCode, HandOverCode, Load;
    var code := HandOverCode(s, d, m, |c.procs|);
    HandOverActs(s, d, m, |c.procs|);
    CopyWhole(code, 3, c);
    HandOverPuts(c.(mem := c.mem[c.dst := Load(c.mem, c.src)]), s, d, m);
    RunJoin(code, 3, 6, 9, c);
  }

  lemma HandOverPuts(c: Core, s: int, d: int, m: int)
    requires c.ok && c.Has(d)
    ensures RunCode(HandOverCode(s, d, m, |c.procs|), 6, 9, c)
            == c.(procs := c.procs[d := Released(c.procs[d], |c.procs|)])
  {
    hide RunCode, HandOverCode;
    var code := HandOverCode(s, d, m, |c.procs|);
    HandOverActs(s, d, m, |c.procs|);
    PutThree(code, 6, c, d, MsgPtr, 0, FlagReceiving, 0, RecvFrom, |c.procs| + 20);
  }

  /** The assertions that end msg_send. */
  lemma HandOverChecks(a: State, c: Core, c': Core, s: int, d: int, m: int)
    requires Stands(a, c) && SendAllowed(a, s, d, m) && a.status[d].Waiting?
    requires c'.procs == c.procs[d := Released(c.procs[d], |c.procs|)] && c'.ok
    ensures RunCode(HandOverCode(s, d, m, |c.procs|), 9, 18, c') == c'
  {
    hide Good, Linked, RunCode;
    var code := HandOverCode(s, d, m, |c.procs|);
    forall j | 9 <= j < 18 ensures Passes(code[j], c') {
    }
    ChecksPass(code, 9, 18, c');
  }

  /** Left alone: the message is in the buffer of `d`, which can go on. */
  lemma HandOverEffect(a: State, c: Core, s: int, d: int, m: int)
    requires Stands(a, c) && SendAllowed(a, s, d, m) && Awaits(a, d, s)
    ensures RunAll(HandOverCode(s, d, m, |c.procs|), c)
         == c.(procs := c.procs[d := Released(c.procs[d], |c.procs|)],
               mem := c.mem[a.status[d].at := Load(c.mem, m)], dst := a.status[d].at, src := m)
  {
    hide Good, Tied, RunCode, HandOverCode;
    var n := |c.procs|;
    var code := HandOverCode(s, d, m, n);
    HandOverActs(s, d, m, n);
    SameSize(a, c);
    HasMessage(a, d);
    AlertWaits(a, c, d);
    HandOverLoads(c, s, d, m);
    var c3 := c.(src := m, dst := a.status[d].at);
    HandOverMoves(c3, s, d, m);
    var c9 := RunCode(code, 3, 9, c3);
    HandOverChecks(a, c, c9, s, d, m);
    RunJoin(code, 0, 3, 9, c);
    RunJoin(code, 0, 9, 18, c);
  }

  lemma SameSize(a: State, c: Core)
    requires Stands(a, c)
    ensures |c.procs| == |a.status| == |a.queues| == |a.ints| && c.mem == a.mem
  {
  }

  lemma HasMessage(a: State, p: int)
    requires Good(a) && a.Pid(p)
    ensures !a.status[p].Ready? ==> a.status[p].at != 0
  {
    assert StatusOk(a, p);
  }

  lemma HandOverStands(a: State, c: Core, s: int, d: int, m: int)
    requires Stands(a, c) && SendAllowed(a, s, d, m) && Awaits(a, d, s) && Load(a.mem, m).source == s
    ensures |a.queues| == |a.status| && Stands(Post(a, s, d, m), Settle(RunAll(HandOverCode(s, d, m, |c.procs|), c)))
  {
    hide Linked, QueueOk, Acyclic, StatusOk, RunAll, HandOverCode;
    HandOverEffect(a, c, s, d, m);
    PostReadyGood(a, s, d, m);
    TiedUpdate(c.procs, a, d, Released(c.procs[d], |c.procs|), Post(a, s, d, m));
  }

  /** The code never makes `d` alert nor looks at its has_int_msg. */
  lemma HandOverCalm(s: int, d: int, m: int, n: nat)
    ensures var code := HandOverCode(s, d, m, n);
            forall j | 0 <= j < |code| :: Calm(code[j], d, n)
  {
  }

  /** Unless `d` waits for anyone and is informed before its flag is cleared, interrupts
      might as well come at the end. */
  lemma HandOverSerial(a: State, c: Core, s: int, d: int, m: int, irq: seq<seq<int>>) returns (rest: seq<int>)
    requires Stands(a, c) && SendAllowed(a, s, d, m) && Awaits(a, d, s)
    requires |irq| == 19 && InTable(irq, |c.procs|)
    requires a.status[d].from == a.Any() ==> forall j | 0 <= j < 8 :: d !in irq[j]
    ensures var code := HandOverCode(s, d, m, |c.procs|);
            PlayAll(code, irq, c) == NotifyAll(rest, RunAll(code, c)) && forall t <- rest :: c.Has(t)
  {
    hide Stands, RunCode, PlayAll, RunAll, AllSafe, NotifyAll, Calm;
    var n := |c.procs|;
    var code := HandOverCode(s, d, m, n);
    HandOverSafe(a, c, s, d, m);
    HandOverCalm(s, d, m, n);
    StandsFacts(a, c, d);
    if a.status[d].from == a.Any() {
      FlagCleared(c, s, d, m);
      HandOverWell(a, c, s, d, m);
      rest := Serial(code, irq, c, d, 8);
    } else {
      RunNothing(code, c);
      rest := Serial(code, irq, c, d, 0);
    }
  }

  lemma RunNothing(code: seq<Instr>, c: Core)
    ensures RunCode(code, 0, 0, c) == c
  {
  }

  lemma StandsFacts(a: State, c: Core, t: int)
    requires Stands(a, c) && a.Pid(t)
    ensures c.Has(t) && |c.procs| == |a.status|
    ensures Alert(c.procs[t], |c.procs|) <==> a.status[t].Waiting? && a.status[t].from in {INTERRUPT, a.Any()}
  {
    SameSize(a, c);
    AlertWaits(a, c, t);
  }

  lemma HandOverWell(a: State, c: Core, s: int, d: int, m: int)
    requires Stands(a, c) && SendAllowed(a, s, d, m) && Awaits(a, d, s)
    ensures RunCode(HandOverCode(s, d, m, |c.procs|), 0, 8, c).ok
  {
    hide RunCode, HandOverCode;
    HandOverActs(s, d, m, |c.procs|);
    HandOverEffect(a, c, s, d, m);
    StandsFacts(a, c, d);
    OkBefore(HandOverCode(s, d, m, |c.procs|), 8, 18, c);
  }

  /** After the eighth instruction `d` is not alert. */
  lemma FlagCleared(c: Core, s: int, d: int, m: int)
    requires c.Has(d)
    ensures var code := HandOverCode(s, d, m, |c.procs|);
            var c8 := RunCode(code, 0, 8, c);
            |c8.procs| == |c.procs| && (c8.ok ==> !Alert(c8.procs[d], |c.procs|))
  {
    hide RunCode, HandOverCode;
    var code := HandOverCode(s, d, m, |c.procs|);
    HandOverActs(s, d, m, |c.procs|);
    RunKeepsSize(code, 0, 7, c);
    RunJoin(code, 0, 7, 8, c);
    RunOne(code, 7, RunCode(code, 0, 7, c));
  }

  // ---------------------------------------------------------------------------
  // A notice in the middle of a hand-over

  /** Buffers changed nowhere but at `at` and where the null pointer leads. */
  ghost predicate OnlyThere(m: Buffers, m': Buffers, at: int) {
    forall x {:trigger Load(m', x)} | x != at && x != 0 :: Load(m', x) == Load(m, x)
  }

  lemma StillThere(m: Buffers, m': Buffers, at: int, x: int, v: Msg)
    requires OnlyThere(m, m', at) && (x == at || x == 0)
    ensures OnlyThere(m, m'[x := v], at)
  {
    forall y | y != at && y != 0 ensures Load(m'[x := v], y) == Load(m, y) {
      assert Load(m', y) == Load(m, y);
    }
  }

  lemma LoadStored(m: Buffers, at: int, v: Msg)
    ensures Load(m[at := v], at) == v
  {
  }

  lemma ThereAgain(m: Buffers, m': Buffers, m'': Buffers, at: int)
    requires OnlyThere(m, m', at) && OnlyThere(m', m'', at)
    ensures OnlyThere(m, m'', at)
  {
    forall y | y != at && y != 0 ensures Load(m'', y) == Load(m, y) {
      assert Load(m', y) == Load(m, y);
    }
  }

  /** The message buffer after inform_int. */
  function Marred(m: Msg): Msg { m.(source := INTERRUPT, kind := HARD_INT) }

  /** `d` waits for anyone and is informed at instruction `k` of the hand-over, in a
      state where its entry is `c0`'s but for its message pointer. */
  lemma WokenThen(c0: Core, c: Core, d: int, n: nat)
    requires c.Has(d) && n == |c.procs| == |c0.procs| && Alert(c0.procs[d], n) && !c0.procs[d].hasInt
    requires c.procs == c0.procs[d := c0.procs[d].(msg := c.procs[d].msg)]
    ensures Notify(c, d) == c.(procs := c0.procs[d := Released(c0.procs[d], n)],
                               mem := c.mem[c.procs[d].msg := Marred(Load(c.mem, c.procs[d].msg))])
  {
  }

  /** The rest of the hand-over for an entry that has been woken. */
  lemma AfterCopy(a: State, c: Core, c': Core, s: int, d: int, m: int, k: nat)
    requires Stands(a, c) && SendAllowed(a, s, d, m) && a.status[d].Waiting? && 6 <= k <= 9
    requires c'.procs == c.procs[d := Released(c.procs[d], |c.procs|)] && c'.ok
    ensures RunCode(HandOverCode(s, d, m, |c.procs|), k, 18, c') == c'
  {
    hide RunCode, Stands, HandOverCode;
    var code := HandOverCode(s, d, m, |c.procs|);
    HandOverActs(s, d, m, |c.procs|);
    StandsFacts(a, c, d);
    PutsChangeNothing(c', s, d, m, k);
    HandOverChecks(a, c, c', s, d, m);
    RunJoin(code, k, 9, 18, c');
  }

  lemma PutsChangeNothing(c: Core, s: int, d: int, m: int, k: nat)
    requires c.Has(d) && 6 <= k <= 9 && c.procs[d] == Released(c.procs[d], |c.procs|)
    ensures RunCode(HandOverCode(s, d, m, |c.procs|), k, 9, c) == c
  {
    hide HandOverCode, RunCode;
    var code := HandOverCode(s, d, m, |c.procs|);
    HandOverActs(s, d, m, |c.procs|);
    forall j | k <= j < 9 ensures Exec(code[j], c) == c {
    }
    RunIdle(code, k, 9, c);
  }

  lemma {:induction false} RunIdle(code: seq<Instr>, i: nat, k: nat, c: Core)
    requires i <= k <= |code| && forall j | i <= j < k :: Exec(code[j], c) == c
    ensures RunCode(code, i, k, c) == c
  {
    if i < k {
      RunIdle(code, i, k - 1, c);
    }
  }

  lemma {:induction false} RunStopped(code: seq<Instr>, i: nat, k: nat, c: Core)
    requires i <= k <= |code| && !c.ok
    ensures RunCode(code, i, k, c) == c
  {
    if i < k {
      RunStopped(code, i, k - 1, c);
    }
  }

  /** A hand-over to a process that waits for anyone. */
  ghost predicate Handing(a: State, c: Core, s: int, d: int, m: int) {
    Stands(a, c) && SendAllowed(a, s, d, m) && a.status[d].Waiting? && a.status[d].from == a.Any()
  }

  lemma HandingFacts(a: State, c: Core, s: int, d: int, m: int)
    requires Handing(a, c, s, d, m)
    ensures c.ok && c.Has(d) && Alert(c.procs[d], |c.procs|) && !c.procs[d].hasInt
    ensures var buf := c.procs[d].msg; buf == a.status[d].at && buf != 0 && buf != m && m != 0
  {
    hide Linked, QueueOk, Acyclic;
    AlertWaits(a, c, d);
    assert StatusOk(a, d);
  }

  lemma Hit0(a: State, c: Core, s: int, d: int, m: int)
    requires Handing(a, c, s, d, m)
    ensures !RunCode(HandOverCode(s, d, m, |c.procs|), 0, 18, Notify(c, d)).ok
  {
    hide HandOverCode, Handing, RunCode;
    var code := HandOverCode(s, d, m, |c.procs|);
    HandOverActs(s, d, m, |c.procs|);
    HandingFacts(a, c, s, d, m);
    WokenThen(c, c, d, |c.procs|);
    RunOne(code, 0, Notify(c, d));
    RunStopped(code, 1, 18, Exec(code[0], Notify(c, d)));
    RunJoin(code, 0, 1, 18, Notify(c, d));
  }

  /** The end of a hand-over whose copy goes to `c.dst`. */
  lemma CopyTo(a: State, c: Core, c': Core, s: int, d: int, m: int)
    requires Stands(a, c) && SendAllowed(a, s, d, m) && a.status[d].Waiting?
    requires c'.procs == c.procs[d := Released(c.procs[d], |c.procs|)] && c'.ok && c'.src == m && c'.dst != m
    ensures RunCode(HandOverCode(s, d, m, |c.procs|), 3, 18, c') == c'.(mem := c'.mem[c'.dst := Load(c'.mem, m)])
  {
    hide HandOverCode, Stands, RunCode, SendAllowed;
    var code := HandOverCode(s, d, m, |c.procs|);
    HandOverActs(s, d, m, |c.procs|);
    CopyWhole(code, 3, c');
    AfterCopy(a, c, c'.(mem := c'.mem[c'.dst := Load(c'.mem, m)]), s, d, m, 6);
    RunJoin(code, 3, 6, 18, c');
  }

  lemma Hit12(a: State, c: Core, s: int, d: int, m: int, k: nat)
    requires Handing(a, c, s, d, m) && (k == 1 || k == 2)
    ensures var code := HandOverCode(s, d, m, |c.procs|);
            var f := RunCode(code, k, 18, Notify(RunCode(code, 0, k, c), d));
            f.ok && f.procs == c.procs[d := Released(c.procs[d], |c.procs|)]
            && Load(f.mem, c.procs[d].msg) == Marred(Load(c.mem, c.procs[d].msg))
            && OnlyThere(c.mem, f.mem, c.procs[d].msg)
  {
    hide HandOverCode;
    var code := HandOverCode(s, d, m, |c.procs|);
    HandOverActs(s, d, m, |c.procs|);
    HandingFacts(a, c, s, d, m);
    HandOverLoads(c, s, d, m);
    var ck := RunCode(code, 0, k, c);
    WokenThen(c, ck, d, |c.procs|);
    var y := Notify(ck, d);
    var y3 := y.(src := m, dst := 0);
    assert RunCode(code, k, 3, y) == y3 by {
      RunOne(code, k, y);
    }
    CopyTo(a, c, y3, s, d, m);
    RunJoin(code, k, 3, 18, y);
  }

  lemma Hit3(a: State, c: Core, s: int, d: int, m: int)
    requires Handing(a, c, s, d, m)
    ensures var code := HandOverCode(s, d, m, |c.procs|);
            var f := RunCode(code, 3, 18, Notify(RunCode(code, 0, 3, c), d));
            f.ok && f.procs == c.procs[d := Released(c.procs[d], |c.procs|)]
            && Load(f.mem, c.procs[d].msg) == Load(c.mem, m)
            && OnlyThere(c.mem, f.mem, c.procs[d].msg)
  {
    hide HandOverCode, RunCode, Handing;
    HandOverActs(s, d, m, |c.procs|);
    HandingFacts(a, c, s, d, m);
    HandOverLoads(c, s, d, m);
    var c3 := c.(src := m, dst := c.procs[d].msg);
    WokenThen(c, c3, d, |c.procs|);
    HandingMeans(a, c, s, d, m);
    CopyTo(a, c, Notify(c3, d), s, d, m);
  }

  lemma HandingMeans(a: State, c: Core, s: int, d: int, m: int)
    requires Handing(a, c, s, d, m)
    ensures Stands(a, c) && SendAllowed(a, s, d, m) && a.status[d].Waiting? && Awaits(a, d, s)
  {
  }

  /** Copying the rest of a message leaves its source. */
  lemma RestOfCopy(c: Core, s: int, d: int, m: int, n: nat, i: nat, k: nat)
    requires 3 <= i <= k <= 6 && c.ok
    ensures var c' := RunCode(HandOverCode(s, d, m, n), i, k, c);
            && c' == c.(mem := c'.mem)
            && (i > 3 ==> Load(c'.mem, c.dst).source == Load(c.mem, c.dst).source)
            && OnlyThere(c.mem, c'.mem, c.dst)
  {
    hide HandOverCode;
    HandOverActs(s, d, m, n);
    if i < k {
      RestOfCopy(c, s, d, m, n, i, k - 1);
      var b := RunCode(HandOverCode(s, d, m, n), i, k - 1, c);
      var next := Exec(HandOverCode(s, d, m, n)[k - 1], b);
      StillThere(c.mem, b.mem, c.dst, c.dst, Load(next.mem, c.dst));
      assert next.mem == b.mem[c.dst := Load(next.mem, c.dst)];
    }
  }

  lemma Hit456(a: State, c: Core, s: int, d: int, m: int, k: nat)
    requires Handing(a, c, s, d, m) && 4 <= k <= 6
    ensures var code := HandOverCode(s, d, m, |c.procs|);
            var f := RunCode(code, k, 18, Notify(RunCode(code, 0, k, c), d));
            f.ok && f.procs == c.procs[d := Released(c.procs[d], |c.procs|)]
            && Load(f.mem, c.procs[d].msg).source == INTERRUPT
            && OnlyThere(c.mem, f.mem, c.procs[d].msg)
  {
    hide HandOverCode, RunCode, Handing, OnlyThere, Load;
    var code := HandOverCode(s, d, m, |c.procs|);
    HandOverActs(s, d, m, |c.procs|);
    HandingFacts(a, c, s, d, m);
    HandOverLoads(c, s, d, m);
    var c3 := c.(src := m, dst := c.procs[d].msg);
    RestOfCopy(c3, s, d, m, |c.procs|, 3, k);
    RunJoin(code, 0, 3, k, c);
    var ck := RunCode(code, 0, k, c);
    WokenThen(c, ck, d, |c.procs|);
    var y := Notify(ck, d);
    StillThere(c.mem, ck.mem, c3.dst, c3.dst, Marred(Load(ck.mem, c3.dst)));
    RestOfCopy(y, s, d, m, |c.procs|, k, 6);
    ThereAgain(c.mem, y.mem, RunCode(code, k, 6, y).mem, c3.dst);
    HandingMeans(a, c, s, d, m);
    assert Load(y.mem, c3.dst).source == INTERRUPT by {
      LoadStored(ck.mem, c3.dst, Marred(Load(ck.mem, c3.dst)));
    }
    AfterCopy(a, c, RunCode(code, k, 6, y), s, d, m, 6);
    RunJoin(code, k, 6, 18, y);
  }

  lemma Hit7(a: State, c: Core, s: int, d: int, m: int)
    requires Handing(a, c, s, d, m)
    ensures var code := HandOverCode(s, d, m, |c.procs|);
            var f := RunCode(code, 7, 18, Notify(RunCode(code, 0, 7, c), d));
            f.ok && f.procs == c.procs[d := Released(c.procs[d], |c.procs|)]
            && Load(f.mem, c.procs[d].msg) == Load(c.mem, m)
            && OnlyThere(c.mem, f.mem, c.procs[d].msg)
  {
    hide HandOverCode, RunCode, Handing;
    var code := HandOverCode(s, d, m, |c.procs|);
    HandOverActs(s, d, m, |c.procs|);
    HandingFacts(a, c, s, d, m);
    HandOverLoads(c, s, d, m);
    var c3 := c.(src := m, dst := c.procs[d].msg);
    CopyWhole(code, 3, c3);
    RunJoin(code, 0, 3, 6, c);
    var c6 := RunCode(code, 0, 6, c);
    RunOne(code, 6, c6);
    RunJoin(code, 0, 6, 7, c);
    var c7 := RunCode(code, 0, 7, c);
    WokenThen(c, c7, d, |c.procs|);
    HandingMeans(a, c, s, d, m);
    AfterCopy(a, c, Notify(c7, d), s, d, m, 7);
  }

  /** The first group of interrupts, from `i` up to `w`, in which `x` is informed. */
  function First(irq: seq<seq<int>>, x: int, i: nat, w: nat): (k: nat)
    requires i <= w <= |irq|
    ensures i <= k <= w && (forall j | i <= j < k :: x !in irq[j]) && (k < w ==> x in irq[k])
    decreases w - i
  {
    if i == w || x in irq[i] then i else First(irq, x, i + 1, w)
  }

  /** No alert process has its buffer at `at`. */
  predicate Spared(c: Core, at: int) {
    forall t | 0 <= t < |c.procs| :: Alert(c.procs[t], |c.procs|) ==> c.procs[t].msg != at
  }

  lemma {:induction false} NotifyAllSpares(ts: seq<int>, c: Core, at: int)
    requires Spared(c, at)
    ensures var c' := NotifyAll(ts, c); Spared(c', at) && Load(c'.mem, at) == Load(c.mem, at) && c'.ok == c.ok
  {
    if ts != [] {
      NotifyAllSpares(ts[..|ts| - 1], c, at);
    }
  }

  lemma {:induction false} NotifyAllOk(ts: seq<int>, c: Core)
    ensures NotifyAll(ts, c).ok == c.ok
  {
    if ts != [] {
      NotifyAllOk(ts[..|ts| - 1], c);
    }
  }

  lemma HandedSpared(a: State, c: Core, s: int, d: int, m: int, f: Core)
    requires Handing(a, c, s, d, m) && f.procs == c.procs[d := Released(c.procs[d], |c.procs|)]
    ensures Spared(f, c.procs[d].msg)
  {
    hide Handing;
    HandingFacts(a, c, s, d, m);
    HandingMeans(a, c, s, d, m);
    OwnsBuffer(a, c, d);
  }

  /** What a notice for `d` at instruction `k` leads to. */
  lemma HandOverHit(a: State, c: Core, s: int, d: int, m: int, k: nat)
    requires Handing(a, c, s, d, m) && Load(c.mem, m).source == s && k < 8
    ensures var code := HandOverCode(s, d, m, |c.procs|);
            var f := RunCode(code, k, 18, Notify(RunCode(code, 0, k, c), d));
            && (f.ok <==> k != 0)
            && (k != 0 ==> f.procs == c.procs[d := Released(c.procs[d], |c.procs|)])
            && (k != 0 ==> OnlyThere(c.mem, f.mem, c.procs[d].msg))
            && (k != 0 ==> (Load(f.mem, c.procs[d].msg) == Load(c.mem, m) <==> k == 3 || k == 7))
  {
    hide HandOverCode, RunCode, Stands;
    HandOverActs(s, d, m, |c.procs|);
    HandingFacts(a, c, s, d, m);
    if k == 0 {
      RunNothing(HandOverCode(s, d, m, |c.procs|), c);
      Hit0(a, c, s, d, m);
    } else if k < 3 {
      Hit12(a, c, s, d, m, k);
    } else if k == 3 {
      Hit3(a, c, s, d, m);
    } else if k < 7 {
      Hit456(a, c, s, d, m, k);
    } else {
      Hit7(a, c, s, d, m);
    }
  }

  lemma NotAlertAfter(c: Core, t: int)
    requires c.Has(t)
    ensures !Alert(Notify(c, t).procs[t], |c.procs|)
  {
  }

  /** `d` has been released, whatever is in its buffer. */
  ghost predicate HandedTo(a: State, c: Core, d: int, g: Core)
    requires c.Has(d)
  {
    && g.ok && g.procs == c.procs[d := Released(c.procs[d], |c.procs|)] && OnlyThere(c.mem, g.mem, c.procs[d].msg)
  }

  /** Then the table stands for the state in which `d` can go on. */
  lemma HandedStands(a: State, c: Core, d: int, g: Core)
    requires Stands(a, c) && a.Pid(d) && a.status[d].Waiting? && c.Has(d) && HandedTo(a, c, d, g)
    ensures Stands(a.(status := a.status[d := Ready], mem := g.mem), Settle(g))
  {
    hide Linked, QueueOk, Acyclic, Unanswered;
    var a' := a.(status := a.status[d := Ready], mem := g.mem);
    AlertWaits(a, c, d);
    ReleasedGood(a, d, g.mem);
    TiedUpdate(c.procs, a, d, Released(c.procs[d], |c.procs|), a');
  }

  lemma ReleasedGood(a: State, d: int, m: Buffers)
    requires Good(a) && a.Pid(d) && a.status[d].Waiting? && OnlyThere(a.mem, m, a.status[d].at)
    ensures Good(a.(status := a.status[d := Ready], mem := m))
  {
    var a' := a.(status := a.status[d := Ready], mem := m);
    SameSendsAcyclic(a, a');
    forall q | a'.Pid(q) ensures StatusOk(a', q) {
      assert StatusOk(a, q) && StatusOk(a, d);
    }
    forall q | a'.Pid(q) ensures QueueOk(a', q) {
      assert QueueOk(a, q);
    }
  }

  /** A message handed over to a process that waits for anyone arrives as it was sent if
      and only if the process is not informed between the test of its flag and the
      clearing of the flag, or first in one of two places: after its message pointer has
      been read and before the copy has begun, or after the pointer has been cleared. */
  lemma HandOverExactly(a: State, c: Core, s: int, d: int, m: int, irq: seq<seq<int>>) returns (g: Core, rest: seq<int>)
    requires Handing(a, c, s, d, m) && Load(c.mem, m).source == s
    requires |irq| == 19 && InTable(irq, |c.procs|)
    ensures var f := PlayAll(HandOverCode(s, d, m, |c.procs|), irq, c);
            && (f.ok <==> First(irq, d, 0, 8) != 0)
            && (f.ok && Load(f.mem, a.status[d].at) == Load(c.mem, m) <==> First(irq, d, 0, 8) in {3, 7, 8})
            && (f.ok ==> f == NotifyAll(rest, g) && HandedTo(a, c, d, g))
            && forall t <- rest :: c.Has(t)
  {
    hide HandOverCode, RunCode, RunAll, PlayAll, Handing, Calm, NotifyAll, AllSafe;
    var n, k := |c.procs|, First(irq, d, 0, 8);
    var code := HandOverCode(s, d, m, n);
    HandOverActs(s, d, m, n);
    HandingFacts(a, c, s, d, m);
    HandingMeans(a, c, s, d, m);
    if k == 8 {
      rest := HandOverSerial(a, c, s, d, m, irq);
      HandOverEffect(a, c, s, d, m);
      g := RunAll(code, c);
    } else {
      HandOverSafe(a, c, s, d, m);
      HandOverCalm(s, d, m, n);
      RunKeepsSize(code, 0, k, c);
      NotAlertAfter(RunCode(code, 0, k, c), d);
      NotifyKeepsSize(RunCode(code, 0, k, c), d);
      rest := FirstHit(code, irq, c, d, k);
      HandOverHit(a, c, s, d, m, k);
      g := RunCode(code, k, 18, Notify(RunCode(code, 0, k, c), d));
    }
    NotifyAllOk(rest, g);
    if k != 0 {
      HandedSpared(a, c, s, d, m, g);
      NotifyAllSpares(rest, g, c.procs[d].msg);
    }
  }

  // ---------------------------------------------------------------------------
  // Queueing up

  /** The last entry of a list. */
  function LastOf(q: seq<int>): int { if q == [] then NIL else q[|q| - 1] }

  lemma QueueUpActs(s: int, d: int, m: int, tail: int, n: nat)
    ensures var code := QueueUpCode(s, d, m, tail, n);
            && |code| == 11 && code[0] == Put(s, FlagSending, SENDING) && code[1] == Check(s, Flags, SENDING, true)
            && code[2] == Put(s, SendTo, d) && code[3] == Put(s, MsgPtr, m)
            && code[4] == (if tail == NIL then Put(d, Head, s) else Put(tail, Next, s)) && code[5] == Put(s, Next, NIL)
  {
  }

  lemma QueueUpMarks(c: Core, s: int, d: int, m: int, tail: int)
    requires c.ok && c.Has(s) && !c.procs[s].receiving
    ensures RunCode(QueueUpCode(s, d, m, tail, |c.procs|), 0, 4, c) == c.(procs := Marked(c.procs, s, d, m))
  {
    hide QueueUpCode, RunCode;
    var code := QueueUpCode(s, d, m, tail, |c.procs|);
    QueueUpActs(s, d, m, tail, |c.procs|);
    RunOne(code, 0, c);
    var c1 := c.(procs := c.procs[s := c.procs[s].(sending := true)]);
    assert Exec(code[0], c) == c1;
    RunOne(code, 1, c1);
    assert Exec(code[1], c1) == c1;
    PutTwo(code, 2, c1, s, SendTo, d, MsgPtr, m);
    RunJoin(code, 0, 1, 2, c);
    RunJoin(code, 0, 2, 4, c);
  }

  lemma QueueUpLinks(c: Core, s: int, d: int, m: int, q: seq<int>)
    requires c.ok && c.Has(s) && c.Has(d) && forall i: nat | i < |q| :: 0 <= q[i] < |c.procs|
    ensures RunCode(QueueUpCode(s, d, m, LastOf(q), |c.procs|), 4, 6, c) == c.(procs := Appended(c.procs, d, q, s))
  {
    hide QueueUpCode, RunCode;
    var code := QueueUpCode(s, d, m, LastOf(q), |c.procs|);
    QueueUpActs(s, d, m, LastOf(q), |c.procs|);
    RunOne(code, 4, c);
    RunOne(code, 5, Exec(code[4], c));
    RunJoin(code, 4, 5, 6, c);
  }

  lemma QueueUpChecks(c: Core, s: int, d: int, m: int, tail: int)
    requires c.ok && c.Has(s) && m != 0
    requires var e := c.procs[s];
             e.sending && !e.receiving && e.msg == m && e.recvFrom == |c.procs| + 20 && e.sendTo == d
    ensures RunCode(QueueUpCode(s, d, m, tail, |c.procs|), 6, 11, c) == c
  {
    hide RunCode;
    var code := QueueUpCode(s, d, m, tail, |c.procs|);
    forall j | 6 <= j < 11 ensures Passes(code[j], c) {
    }
    ChecksPass(code, 6, 11, c);
  }

  lemma QueueUpEffect(a: State, c: Core, s: int, d: int, m: int)
    requires Stands(a, c) && SendAllowed(a, s, d, m)
    ensures |c.procs| == |a.queues| && forall i: nat | i < |a.queues[d]| :: 0 <= a.queues[d][i] < |c.procs|
    ensures RunAll(QueueUpCode(s, d, m, LastOf(a.queues[d]), |c.procs|), c)
         == c.(procs := Appended(Marked(c.procs, s, d, m), d, a.queues[d], s))
  {
    hide RunCode, QueueUpCode, Good, Linked;
    var n, q := |c.procs|, a.queues[d];
    var code := QueueUpCode(s, d, m, LastOf(q), n);
    QueueUpActs(s, d, m, LastOf(q), n);
    ListInside(c.procs, a, d);
    QueueUpMarks(c, s, d, m, LastOf(q));
    var c4 := c.(procs := Marked(c.procs, s, d, m));
    QueueUpLinks(c4, s, d, m, q);
    var c6 := c4.(procs := Appended(c4.procs, d, q, s));
    QueueUpChecks(c6, s, d, m, LastOf(q));
    RunJoin(code, 0, 4, 6, c);
    RunJoin(code, 0, 6, 11, c);
  }

  lemma QueueUpStands(a: State, c: Core, s: int, d: int, m: int)
    requires Stands(a, c) && SendAllowed(a, s, d, m) && !Awaits(a, d, s) && !Reaches(a, d, s)
             && Load(a.mem, m).source == s
    ensures |a.queues| == |a.status|
    ensures Stands(Post(a, s, d, m), RunAll(QueueUpCode(s, d, m, LastOf(a.queues[d]), |c.procs|), c))
  {
    hide Linked, QueueOk, Acyclic, StatusOk, RunAll, QueueUpCode, Reaches, Appended;
    QueueUpEffect(a, c, s, d, m);
    PostQueuedGood(a, s, d, m);
    TiedQueued(c.procs, a, s, d, m);
  }

  lemma QueueUpSafe(a: State, c: Core, s: int, d: int, m: int, tail: int)
    requires Stands(a, c) && SendAllowed(a, s, d, m)
    ensures AllSafe(QueueUpCode(s, d, m, tail, |c.procs|), 0, c, -1)
  {
    hide Tied, Good;
    var code := QueueUpCode(s, d, m, tail, |c.procs|);
    forall t | t != -1 ensures Safe(code, 0, c, t) {
      if c.Has(t) {
        AlertWaits(a, c, t);
        if Alert(c.procs[t], |c.procs|) {
          OwnsBuffer(a, c, t);
          assert forall j | 0 <= j < |code| :: Aside(code[j], t, c.procs[t].msg);
        } else {
          assert forall j | 0 <= j < |code| :: Calm(code[j], t, |c.procs|);
        }
      }
    }
  }

  /** A piece of code to which no interrupt matters. */
  lemma AllSerial(code: seq<Instr>, irq: seq<seq<int>>, c: Core) returns (rest: seq<int>)
    requires |irq| == |code| + 1 && InTable(irq, |c.procs|) && AllSafe(code, 0, c, -1)
    ensures PlayAll(code, irq, c) == NotifyAll(rest, RunAll(code, c)) && forall t <- rest :: c.Has(t)
  {
    hide AllSafe, Play, RunCode, NotifyAll;
    rest := NoneMatters(code, irq, 0, c, irq[0]);
  }
}
